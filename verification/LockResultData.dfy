/** Reading the data attached to a lock response (src/data/lock_result_data.rs). The raw bytes are four
    bytes the reader leaves zero, a stage and type byte, a flag byte, an optional property block and the value. */
module LockResultData {
  import opened Bytes
  import opened Protocol
  import opened LockDataTrees

  // ---------------------------------------------------------------- header fields

  function Stage(raw: seq<u8>): Option<u8> {
    if |raw| <= 4 then None else Some(raw[4] / 64)
  }

  function CommandType(raw: seq<u8>): Option<u8> {
    if |raw| <= 4 then None else Some(raw[4] % 64)
  }

  function Flags(raw: seq<u8>): Option<u8> {
    if |raw| <= 5 then None else Some(raw[5])
  }

  function ValueOffset(raw: seq<u8>): Result<nat> {
    if |raw| < 6 then Err(LockDataError(ShorterThanHeader))
    else if !HasFlag(raw[5], LOCK_DATA_FLAG_CONTAINS_PROPERTY) then Ok(6)
    else if |raw| < 8 then Err(LockDataError(PropertyLengthMissing))
    else Ok(8 + ReadU16(raw[6..8]))
  }

  function AsBytes(raw: seq<u8>): Option<seq<u8>> {
    match ValueOffset(raw)
    case Err(_) => None
    case Ok(offset) => if |raw| <= offset then None else Some(raw[offset..])
  }

  /** The whole byte is compared with UNSET, stage bits included, as the source does. */
  predicate IsArrayValue(raw: seq<u8>) {
    |raw| >= 6 && raw[4] != LOCK_DATA_COMMAND_TYPE_UNSET && HasFlag(raw[5], LOCK_DATA_FLAG_VALUE_TYPE_ARRAY)
  }

  predicate IsKvValue(raw: seq<u8>) {
    |raw| >= 6 && raw[4] != LOCK_DATA_COMMAND_TYPE_UNSET && HasFlag(raw[5], LOCK_DATA_FLAG_VALUE_TYPE_KV)
  }

  /** The value bytes; empty when the offset is at or past the end. */
  function Value(raw: seq<u8>): Result<seq<u8>> {
    var offset :- ValueOffset(raw);
    Ok(if |raw| <= offset then [] else raw[offset..])
  }

  // ---------------------------------------------------------------- lists

  function ParseList(b: seq<u8>): Result<seq<seq<u8>>> {
    if |b| < 4 then Ok([]) else
    var length := ReadU32(b[..4]);
    if length == 0 then ParseList(b[4..])
    else if 4 + length > |b| then Err(LockDataError(ListValueExceedsData)) else
    var rest :- ParseList(b[4 + length..]);
    Ok([b[4..4 + length]] + rest)
  }

  function ListOf(raw: seq<u8>): Result<seq<seq<u8>>> {
    if !IsArrayValue(raw) then Ok([]) else
    var value :- Value(raw);
    ParseList(value)
  }

  ghost function Joined(head: seq<seq<u8>>, tail: Result<seq<seq<u8>>>): Result<seq<seq<u8>>> {
    match tail
    case Ok(items) => Ok(head + items)
    case Err(e) => Err(e)
  }

  lemma JoinedFacts(head: seq<seq<u8>>, item: seq<u8>, tail: Result<seq<seq<u8>>>)
    ensures Joined([], tail) == tail
    ensures Joined(head + [item], tail) == Joined(head, Joined([item], tail))
  {
    if tail.Ok? {
      assert [] + tail.value == tail.value;
      assert head + [item] + tail.value == head + ([item] + tail.value);
    }
  }

  /** The parse that starts at an index of the raw bytes. */
  function ListFrom(raw: seq<u8>, index: nat): Result<seq<seq<u8>>> {
    if index >= |raw| then Ok([]) else ParseList(raw[index..])
  }

  lemma Reindex(raw: seq<u8>, index: nat, n: nat)
    requires index + 4 <= |raw|
    ensures var b := raw[index..];
            && b[..4] == raw[index..index + 4] && b[4..] == raw[index + 4..]
            && (index + 4 + n <= |raw| ==> b[4..4 + n] == raw[index + 4..index + 4 + n]
                                           && b[4 + n..] == raw[index + 4 + n..])
  {
  }

  lemma ItemStep(raw: seq<u8>, index: nat, head: seq<seq<u8>>)
    requires index + 4 <= |raw|
    ensures var n := ReadU32(raw[index..index + 4]);
            var start := index + 4;
            Joined(head, ListFrom(raw, index)) ==
            if n == 0 then Joined(head, ListFrom(raw, start))
            else if start + n > |raw| then Err(LockDataError(ListValueExceedsData))
            else Joined(head + [raw[start..start + n]], ListFrom(raw, start + n))
  {
    var n, start := ReadU32(raw[index..index + 4]), index + 4;
    Reindex(raw, index, n);
    if 0 < n && start + n <= |raw| {
      JoinedFacts(head, raw[start..start + n], ListFrom(raw, start + n));
    }
  }

  /** `as_list`: every read is in bounds on every byte string, and the loop computes the recursive parse. */
  method AsList(raw: seq<u8>) returns (r: Result<seq<seq<u8>>>)
    ensures r == ListOf(raw)
  {
    if !IsArrayValue(raw) {
      return Ok([]);
    }
    var offset := ValueOffset(raw);
    if offset.Err? {
      return Err(offset.error);
    }
    r := ListLoop(raw, offset.value);
  }

  method ListLoop(raw: seq<u8>, offset: nat) returns (r: Result<seq<seq<u8>>>)
    ensures r == ListFrom(raw, offset)
  {
    var values: seq<seq<u8>> := [];
    var index := offset;
    JoinedFacts([], [], ListFrom(raw, offset));
    while index + 4 <= |raw|
      invariant ListFrom(raw, offset) == Joined(values, ListFrom(raw, index))
      decreases |raw| - index
    {
      ItemStep(raw, index, values);
      var length := ReadU32(raw[index..index + 4]);
      index := index + 4;
      if length == 0 {
        continue;
      }
      if index + length > |raw| {
        return Err(LockDataError(ListValueExceedsData));
      }
      values := values + [raw[index..index + length]];
      index := index + length;
    }
    assert values + [] == values;
    r := Ok(values);
  }

  // ---------------------------------------------------------------- maps

  /** Keys are strings in the source; a valid UTF-8 byte string stands for the string it spells. */
  function ParseMap(b: seq<u8>, utf8: seq<u8> -> bool, done: map<seq<u8>, seq<u8>>): Result<map<seq<u8>, seq<u8>>>
    decreases |b|
  {
    if |b| < 4 then Ok(done) else
    var length := ReadU32(b[..4]);
    if length == 0 then ParseMap(b[4..], utf8, done)
    else if 4 + length > |b| then Err(LockDataError(MapKeyExceedsData))
    else if !utf8(b[4..4 + length]) then Err(LockDataError(InvalidUtf8Key))
    else ParseMapValue(b[4 + length..], utf8, b[4..4 + length], done)
  }

  /** What follows a key. */
  function ParseMapValue(b: seq<u8>, utf8: seq<u8> -> bool, key: seq<u8>,
                         done: map<seq<u8>, seq<u8>>): Result<map<seq<u8>, seq<u8>>>
    decreases |b|
  {
    if |b| < 4 then Err(LockDataError(MapValueLengthMissing)) else
    var length := ReadU32(b[..4]);
    if length == 0 then ParseMap(b[4..], utf8, done)
    else if 4 + length > |b| then Err(LockDataError(MapValueExceedsData))
    else ParseMap(b[4 + length..], utf8, done[key := b[4..4 + length]])
  }

  function MapOf(raw: seq<u8>, utf8: seq<u8> -> bool): Result<map<seq<u8>, seq<u8>>> {
    if !IsKvValue(raw) then Ok(map[]) else
    var value :- Value(raw);
    ParseMap(value, utf8, map[])
  }

  /** The parse that starts at an index of the raw bytes. */
  function MapFrom(raw: seq<u8>, index: nat, utf8: seq<u8> -> bool, done: map<seq<u8>, seq<u8>>)
    : Result<map<seq<u8>, seq<u8>>>
  {
    if index >= |raw| then Ok(done) else ParseMap(raw[index..], utf8, done)
  }

  lemma KeyStep(raw: seq<u8>, index: nat, utf8: seq<u8> -> bool, done: map<seq<u8>, seq<u8>>)
    requires index + 4 <= |raw|
    ensures var n := ReadU32(raw[index..index + 4]);
            var start := index + 4;
            MapFrom(raw, index, utf8, done) ==
            if n == 0 then MapFrom(raw, start, utf8, done)
            else if start + n > |raw| then Err(LockDataError(MapKeyExceedsData))
            else if !utf8(raw[start..start + n]) then Err(LockDataError(InvalidUtf8Key))
            else ParseMapValue(raw[start + n..], utf8, raw[start..start + n], done)
  {
    Reindex(raw, index, ReadU32(raw[index..index + 4]));
  }

  lemma ValueStep(raw: seq<u8>, index: nat, utf8: seq<u8> -> bool, key: seq<u8>, done: map<seq<u8>, seq<u8>>)
    requires index + 4 <= |raw|
    ensures var n := ReadU32(raw[index..index + 4]);
            var start := index + 4;
            ParseMapValue(raw[index..], utf8, key, done) ==
            if n == 0 then MapFrom(raw, start, utf8, done)
            else if start + n > |raw| then Err(LockDataError(MapValueExceedsData))
            else MapFrom(raw, start + n, utf8, done[key := raw[start..start + n]])
  {
    Reindex(raw, index, ReadU32(raw[index..index + 4]));
  }

  /** `as_map` */
  method AsMap(raw: seq<u8>, utf8: seq<u8> -> bool) returns (r: Result<map<seq<u8>, seq<u8>>>)
    ensures r == MapOf(raw, utf8)
  {
    if !IsKvValue(raw) {
      return Ok(map[]);
    }
    var offset := ValueOffset(raw);
    if offset.Err? {
      return Err(offset.error);
    }
    r := MapLoop(raw, offset.value, utf8);
  }

  method MapLoop(raw: seq<u8>, offset: nat, utf8: seq<u8> -> bool) returns (r: Result<map<seq<u8>, seq<u8>>>)
    ensures r == MapFrom(raw, offset, utf8, map[])
  {
    var values: map<seq<u8>, seq<u8>> := map[];
    var index := offset;
    while index + 4 <= |raw|
      invariant MapFrom(raw, offset, utf8, map[]) == MapFrom(raw, index, utf8, values)
      decreases |raw| - index
    {
      KeyStep(raw, index, utf8, values);
      var keyLength := ReadU32(raw[index..index + 4]);
      index := index + 4;
      if keyLength == 0 {
        continue;
      }
      if index + keyLength > |raw| {
        return Err(LockDataError(MapKeyExceedsData));
      }
      var key := raw[index..index + keyLength];
      if !utf8(key) {
        return Err(LockDataError(InvalidUtf8Key));
      }
      index := index + keyLength;
      if index + 4 > |raw| {
        return Err(LockDataError(MapValueLengthMissing));
      }
      ValueStep(raw, index, utf8, key, values);
      var valueLength := ReadU32(raw[index..index + 4]);
      index := index + 4;
      if valueLength == 0 {
        continue;
      }
      if index + valueLength > |raw| {
        return Err(LockDataError(MapValueExceedsData));
      }
      values := values[key := raw[index..index + valueLength]];
      index := index + valueLength;
    }
    r := Ok(values);
  }

  // ---------------------------------------------------------------- integers

  /** Byte i of an eight-byte window at the offset, zero past the end. */
  function WindowByte(raw: seq<u8>, offset: nat, i: nat): u8 {
    if offset + i < |raw| then raw[offset + i] else 0
  }

  function IntegerOf(raw: seq<u8>): i64 {
    match ValueOffset(raw)
    case Err(_) => 0
    case Ok(offset) => I64FromBytes(seq(8, i requires 0 <= i => WindowByte(raw, offset, i)))
  }

  /** `as_i64` */
  method AsI64(raw: seq<u8>) returns (v: i64)
    ensures v == IntegerOf(raw)
  {
    var offset := ValueOffset(raw);
    if offset.Err? {
      return 0;
    }
    var bytes := new u8[8](_ => 0);
    var index := 0;
    while index < 8
      invariant 0 <= index <= 8
      invariant forall i :: 0 <= i < index ==> bytes[i] == WindowByte(raw, offset.value, i)
      invariant forall i :: index <= i < 8 ==> bytes[i] == 0
    {
      if offset.value + index < |raw| {
        bytes[index] := raw[offset.value + index];
      }
      index := index + 1;
    }
    assert bytes[..] == seq(8, i requires 0 <= i => WindowByte(raw, offset.value, i));
    v := I64FromBytes(bytes[..]);
  }

  // ---------------------------------------------------------------- canonical encodings

  /** A length-prefixed byte string, as the server writes list items, keys and values. */
  function Chunk(item: seq<u8>): seq<u8> {
    LittleEndian(|item|, 4) + item
  }

  function Chunks(items: seq<seq<u8>>): seq<u8> {
    if items == [] then [] else Chunk(items[0]) + Chunks(items[1..])
  }

  ghost predicate Fits(item: seq<u8>) {
    |item| <= U32_MAX
  }

  function NonEmpty(items: seq<seq<u8>>): seq<seq<u8>> {
    if items == [] then []
    else if items[0] == [] then NonEmpty(items[1..])
    else [items[0]] + NonEmpty(items[1..])
  }

  lemma ChunkShape(item: seq<u8>, rest: seq<u8>)
    requires Fits(item)
    ensures var b := Chunk(item) + rest;
            && |b| == 4 + |item| + |rest| && ReadU32(b[..4]) == |item|
            && b[4..4 + |item|] == item && b[4 + |item|..] == rest
  {
    ReadBackU32(|item|);
    assert (Chunk(item) + rest)[..4] == LittleEndian(|item|, 4);
  }

  /** A canonical list reads back as its non-empty items in order; up to three stray bytes after it are ignored. */
  lemma {:induction false} CanonicalList(items: seq<seq<u8>>, tail: seq<u8>)
    requires forall i :: 0 <= i < |items| ==> Fits(items[i])
    requires |tail| < 4
    ensures ParseList(Chunks(items) + tail) == Ok(NonEmpty(items))
  {
    if items == [] {
      assert Chunks(items) + tail == tail;
    } else {
      var rest := Chunks(items[1..]) + tail;
      assert Chunks(items) + tail == Chunk(items[0]) + rest;
      ChunkShape(items[0], rest);
      CanonicalList(items[1..], tail);
    }
  }

  /** Conversely, nothing else is accepted: a successful parse comes from a chain of chunks. */
  lemma {:induction false} ListIsChunks(b: seq<u8>) returns (items: seq<seq<u8>>, tail: seq<u8>)
    requires ParseList(b).Ok?
    ensures b == Chunks(items) + tail && |tail| < 4
    ensures forall i :: 0 <= i < |items| ==> Fits(items[i])
    ensures ParseList(b).value == NonEmpty(items)
  {
    if |b| < 4 {
      items, tail := [], b;
    } else {
      var length := ReadU32(b[..4]);
      var later;
      later, tail := ListIsChunks(b[4 + length..]);
      items := [b[4..4 + length]] + later;
      FirstChunk(b, length);
      assert items[1..] == later;
      assert Chunks(items) + tail == Chunk(items[0]) + (Chunks(later) + tail);
    }
  }

  lemma FirstChunk(b: seq<u8>, length: nat)
    requires 4 + length <= |b| && ReadU32(b[..4]) == length
    ensures b == Chunk(b[4..4 + length]) + b[4 + length..]
  {
    WriteBackU32(b[..4]);
  }

  datatype Pair = Pair(key: seq<u8>, value: seq<u8>)

  function PairChunks(pairs: seq<Pair>): seq<u8> {
    if pairs == [] then [] else Chunk(pairs[0].key) + Chunk(pairs[0].value) + PairChunks(pairs[1..])
  }

  /** Pair i writes key k: it carries k and a non-empty value. */
  predicate Writes(pairs: seq<Pair>, i: nat, k: seq<u8>)
    requires i < |pairs|
  {
    pairs[i].key == k && pairs[i].value != []
  }

  /** m holds exactly the keys some pair writes, each with the value of the last pair that writes it. */
  ghost predicate LastWriteWins(m: map<seq<u8>, seq<u8>>, pairs: seq<Pair>) {
    && (forall k :: k in m ==> exists i :: 0 <= i < |pairs| && Writes(pairs, i, k))
    && (forall i, k :: 0 <= i < |pairs| && Writes(pairs, i, k) ==> k in m)
    && (forall i, k :: 0 <= i < |pairs| && Writes(pairs, i, k)
                       && (forall j :: i < j < |pairs| ==> !Writes(pairs, j, k)) ==>
          k in m && m[k] == pairs[i].value)
  }

  ghost predicate GoodPair(pair: Pair, utf8: seq<u8> -> bool) {
    pair.key != [] && utf8(pair.key) && Fits(pair.key) && Fits(pair.value)
  }

  /** A pair is stored unless its value is empty. */
  function WithPair(m: map<seq<u8>, seq<u8>>, pair: Pair): map<seq<u8>, seq<u8>> {
    if pair.value == [] then m else m[pair.key := pair.value]
  }

  lemma OneMoreWrite(m: map<seq<u8>, seq<u8>>, pairs: seq<Pair>, next: Pair)
    requires LastWriteWins(m, pairs)
    ensures LastWriteWins(WithPair(m, next), pairs + [next])
  {
    var all := pairs + [next];
    var m' := WithPair(m, next);
    forall k | k in m'
      ensures exists i :: 0 <= i < |all| && Writes(all, i, k)
    {
      if next.value != [] && k == next.key {
        assert Writes(all, |pairs|, k);
      } else {
        var i :| 0 <= i < |pairs| && Writes(pairs, i, k);
        assert Writes(all, i, k);
      }
    }
    forall i, k | 0 <= i < |all| && Writes(all, i, k)
      ensures k in m'
    {
      assert i < |pairs| ==> Writes(pairs, i, k);
    }
    forall i, k | 0 <= i < |all| && Writes(all, i, k) && (forall j :: i < j < |all| ==> !Writes(all, j, k))
      ensures k in m' && m'[k] == all[i].value
    {
      if i < |pairs| {
        assert Writes(pairs, i, k);
        assert !Writes(all, |pairs|, k);
        forall j | i < j < |pairs|
          ensures !Writes(pairs, j, k)
        {
          assert !Writes(all, j, k);
        }
      }
    }
  }

  /** What the parser takes one turn for: a pair with a good key, or a zero length where a key should be. */
  function EntryChunk(pair: Pair): seq<u8> {
    if pair.key == [] then Chunk([]) else Chunk(pair.key) + Chunk(pair.value)
  }

  function EntryChunks(pairs: seq<Pair>): seq<u8> {
    if pairs == [] then [] else EntryChunk(pairs[0]) + EntryChunks(pairs[1..])
  }

  ghost predicate Acceptable(pair: Pair, utf8: seq<u8> -> bool) {
    if pair.key == [] then pair.value == [] else GoodPair(pair, utf8)
  }

  /** A chain of entries, up to three stray bytes after it, is accepted. */
  lemma MapFromEntries(pairs: seq<Pair>, tail: seq<u8>, utf8: seq<u8> -> bool)
    requires forall i :: 0 <= i < |pairs| ==> Acceptable(pairs[i], utf8)
    requires |tail| < 4
    ensures var r := ParseMap(EntryChunks(pairs) + tail, utf8, map[]);
            r.Ok? && LastWriteWins(r.value, pairs)
  {
    assert pairs[0..] == pairs;
    EntriesFrom(pairs, 0, map[], tail, utf8);
  }

  lemma {:induction false} EntriesFrom(pairs: seq<Pair>, n: nat, done: map<seq<u8>, seq<u8>>, tail: seq<u8>,
                                       utf8: seq<u8> -> bool)
    requires n <= |pairs| && LastWriteWins(done, pairs[..n])
    requires forall i :: 0 <= i < |pairs| ==> Acceptable(pairs[i], utf8)
    requires |tail| < 4
    ensures var r := ParseMap(EntryChunks(pairs[n..]) + tail, utf8, done);
            r.Ok? && LastWriteWins(r.value, pairs)
    decreases |pairs| - n
  {
    if n == |pairs| {
      assert pairs[..n] == pairs && EntryChunks(pairs[n..]) + tail == tail;
    } else {
      var pair := pairs[n];
      OneMoreWrite(done, pairs[..n], pair);
      assert pairs[..n] + [pair] == pairs[..n + 1];
      OneEntryRead(pair, EntryChunks(pairs[n + 1..]) + tail, done, utf8);
      FirstEntry(pairs, n, tail);
      EntriesFrom(pairs, n + 1, WithPair(done, pair), tail, utf8);
    }
  }

  lemma FirstEntry(pairs: seq<Pair>, n: nat, tail: seq<u8>)
    requires n < |pairs|
    ensures EntryChunks(pairs[n..]) + tail == EntryChunk(pairs[n]) + (EntryChunks(pairs[n + 1..]) + tail)
  {
    assert pairs[n..][1..] == pairs[n + 1..];
  }

  lemma OneEntryRead(pair: Pair, rest: seq<u8>, done: map<seq<u8>, seq<u8>>, utf8: seq<u8> -> bool)
    requires Acceptable(pair, utf8)
    ensures ParseMap(EntryChunk(pair) + rest, utf8, done) == ParseMap(rest, utf8, WithPair(done, pair))
  {
    if pair.key == [] {
      ChunkShape([], rest);
    } else {
      OnePairRead(pair, rest, done, utf8);
      assert EntryChunk(pair) + rest == Chunk(pair.key) + (Chunk(pair.value) + rest);
    }
  }

  /** Conversely, nothing else is accepted: a successful parse comes from a chain of entries. */
  lemma {:induction false} MapIsEntries(b: seq<u8>, utf8: seq<u8> -> bool, done: map<seq<u8>, seq<u8>>)
    returns (pairs: seq<Pair>, tail: seq<u8>)
    requires ParseMap(b, utf8, done).Ok?
    ensures EntriesOf(b, utf8, pairs, tail)
    decreases |b|
  {
    if |b| < 4 {
      pairs, tail := [], b;
    } else {
      var pair, rest := TakeEntry(b, utf8, done);
      var later;
      later, tail := MapIsEntries(rest, utf8, WithPair(done, pair));
      pairs := [pair] + later;
      EntryInFront(pair, later, tail);
      assert pairs[1..] == later;
    }
  }

  lemma EntryInFront(pair: Pair, later: seq<Pair>, tail: seq<u8>)
    ensures EntryChunks([pair] + later) + tail == EntryChunk(pair) + (EntryChunks(later) + tail)
  {
    assert ([pair] + later)[1..] == later;
  }

  /** The entry at the front of bytes that parse. */
  lemma TakeEntry(b: seq<u8>, utf8: seq<u8> -> bool, done: map<seq<u8>, seq<u8>>) returns (pair: Pair, rest: seq<u8>)
    requires |b| >= 4 && ParseMap(b, utf8, done).Ok?
    ensures Acceptable(pair, utf8) && b == EntryChunk(pair) + rest && |rest| < |b|
    ensures ParseMap(b, utf8, done) == ParseMap(rest, utf8, WithPair(done, pair))
  {
    var n := ReadU32(b[..4]);
    FirstChunk(b, n);
    if n == 0 {
      pair, rest := Pair([], []), b[4..];
      assert b[4..4 + n] == [];
    } else {
      var key, after := b[4..4 + n], b[4 + n..];
      var value;
      value, rest := TakeValue(after, utf8, key, done);
      pair := Pair(key, value);
    }
  }

  /** The value that follows a key. */
  lemma TakeValue(b: seq<u8>, utf8: seq<u8> -> bool, key: seq<u8>, done: map<seq<u8>, seq<u8>>)
    returns (value: seq<u8>, rest: seq<u8>)
    requires ParseMapValue(b, utf8, key, done).Ok?
    ensures Fits(value) && b == Chunk(value) + rest && |rest| < |b|
    ensures ParseMapValue(b, utf8, key, done) == ParseMap(rest, utf8, WithPair(done, Pair(key, value)))
  {
    var m := ReadU32(b[..4]);
    FirstChunk(b, m);
    value, rest := b[4..4 + m], b[4 + m..];
    assert m == 0 ==> rest == b[4..];
  }

  /** A byte string is accepted exactly when it is a chain of entries and at most three stray bytes, and the map then
      holds the last write of each key. */
  lemma MapAcceptedExactly(b: seq<u8>, utf8: seq<u8> -> bool)
    ensures ParseMap(b, utf8, map[]).Ok? <==> exists pairs, tail :: EntriesOf(b, utf8, pairs, tail)
    ensures forall pairs, tail :: EntriesOf(b, utf8, pairs, tail) ==>
        LastWriteWins(ParseMap(b, utf8, map[]).value, pairs)
  {
    if ParseMap(b, utf8, map[]).Ok? {
      var pairs, tail := MapIsEntries(b, utf8, map[]);
      assert EntriesOf(b, utf8, pairs, tail);
    }
    forall pairs, tail | EntriesOf(b, utf8, pairs, tail)
      ensures ParseMap(b, utf8, map[]).Ok? && LastWriteWins(ParseMap(b, utf8, map[]).value, pairs)
    {
      MapFromEntries(pairs, tail, utf8);
    }
  }

  ghost predicate EntriesOf(b: seq<u8>, utf8: seq<u8> -> bool, pairs: seq<Pair>, tail: seq<u8>) {
    b == EntryChunks(pairs) + tail && |tail| < 4 && forall i :: 0 <= i < |pairs| ==> Acceptable(pairs[i], utf8)
  }

  lemma OnePairRead(pair: Pair, rest: seq<u8>, done: map<seq<u8>, seq<u8>>, utf8: seq<u8> -> bool)
    requires GoodPair(pair, utf8)
    ensures ParseMap(Chunk(pair.key) + (Chunk(pair.value) + rest), utf8, done)
         == ParseMap(rest, utf8, WithPair(done, pair))
  {
    ChunkShape(pair.key, Chunk(pair.value) + rest);
    ChunkShape(pair.value, rest);
  }

  /** Why keys must be non-empty: the length of an empty key is skipped but its value is not, so the value
      is read as the next key. */
  lemma EmptyKeyShiftsTheRest(value: seq<u8>, rest: seq<u8>, done: map<seq<u8>, seq<u8>>, utf8: seq<u8> -> bool)
    requires Fits(value)
    ensures ParseMap(Chunk([]) + (Chunk(value) + rest), utf8, done) == ParseMap(Chunk(value) + rest, utf8, done)
  {
    ChunkShape([], Chunk(value) + rest);
  }

  /** Even the one-pair map with an empty key and some value is an error. */
  lemma EmptyKeyBreaksMap(value: seq<u8>, utf8: seq<u8> -> bool)
    requires Fits(value) && value != [] && utf8(value)
    ensures ParseMap(PairChunks([Pair([], value)]), utf8, map[]) == Err(LockDataError(MapValueLengthMissing))
  {
    assert PairChunks([Pair([], value)]) == Chunk([]) + (Chunk(value) + []) by {
      assert PairChunks([Pair([], value)][1..]) == [];
    }
    EmptyKeyShiftsTheRest(value, [], map[], utf8);
    ChunkShape(value, []);
    assert Chunk(value) + [] != [];
  }

  /** What a map of strings can hold: any text under any text, the empty one included. */
  ghost predicate Encodable(pair: Pair, utf8: seq<u8> -> bool) {
    Fits(pair.key) && Fits(pair.value) && (pair.key != [] ==> utf8(pair.key))
  }

  /** A map reads back as the last-write-wins map of its non-empty values exactly when every empty key has an empty
      value. */
  lemma MapReadsBackExactly(pairs: seq<Pair>, tail: seq<u8>, utf8: seq<u8> -> bool)
    requires forall i :: 0 <= i < |pairs| ==> Encodable(pairs[i], utf8)
    requires |tail| < 4
    ensures var r := ParseMap(PairChunks(pairs) + tail, utf8, map[]);
            (r.Ok? && LastWriteWins(r.value, pairs))
            <==> (forall i :: 0 <= i < |pairs| && pairs[i].key == [] ==> pairs[i].value == [])
  {
    var r := ParseMap(PairChunks(pairs) + tail, utf8, map[]);
    if forall i :: 0 <= i < |pairs| && pairs[i].key == [] ==> pairs[i].value == [] {
      assert pairs[0..] == pairs;
      PairsFrom(pairs, 0, map[], tail, utf8);
    } else if r.Ok? {
      NoEmptyKey(PairChunks(pairs) + tail, utf8, map[]);
      var i :| 0 <= i < |pairs| && pairs[i].key == [] && pairs[i].value != [];
      assert Writes(pairs, i, []);
    }
  }

  /** In particular with non-empty valid keys. */
  lemma CanonicalMap(pairs: seq<Pair>, tail: seq<u8>, utf8: seq<u8> -> bool)
    requires forall i :: 0 <= i < |pairs| ==> GoodPair(pairs[i], utf8)
    requires |tail| < 4
    ensures var r := ParseMap(PairChunks(pairs) + tail, utf8, map[]);
            r.Ok? && LastWriteWins(r.value, pairs)
  {
    MapReadsBackExactly(pairs, tail, utf8);
  }

  lemma {:induction false} PairsFrom(pairs: seq<Pair>, n: nat, done: map<seq<u8>, seq<u8>>, tail: seq<u8>,
                                     utf8: seq<u8> -> bool)
    requires n <= |pairs| && LastWriteWins(done, pairs[..n]) && |tail| < 4
    requires forall i :: 0 <= i < |pairs| ==> Encodable(pairs[i], utf8) && (pairs[i].key == [] ==> pairs[i].value == [])
    ensures var r := ParseMap(PairChunks(pairs[n..]) + tail, utf8, done);
            r.Ok? && LastWriteWins(r.value, pairs)
    decreases |pairs| - n
  {
    if n == |pairs| {
      assert pairs[..n] == pairs && PairChunks(pairs[n..]) + tail == tail;
    } else {
      var pair, rest := pairs[n], PairChunks(pairs[n + 1..]) + tail;
      OneMoreWrite(done, pairs[..n], pair);
      assert pairs[..n] + [pair] == pairs[..n + 1];
      FirstPair(pairs, n, tail);
      if pair.key == [] {
        EmptyPairRead(rest, done, utf8);
      } else {
        OnePairRead(pair, rest, done, utf8);
      }
      PairsFrom(pairs, n + 1, WithPair(done, pair), tail, utf8);
    }
  }

  lemma FirstPair(pairs: seq<Pair>, n: nat, tail: seq<u8>)
    requires n < |pairs|
    ensures PairChunks(pairs[n..]) + tail
         == Chunk(pairs[n].key) + (Chunk(pairs[n].value) + (PairChunks(pairs[n + 1..]) + tail))
  {
    assert pairs[n..][1..] == pairs[n + 1..];
  }

  lemma EmptyPairRead(rest: seq<u8>, done: map<seq<u8>, seq<u8>>, utf8: seq<u8> -> bool)
    ensures ParseMap(Chunk([]) + (Chunk([]) + rest), utf8, done) == ParseMap(rest, utf8, done)
  {
    ChunkShape([], Chunk([]) + rest);
    ChunkShape([], rest);
  }

  /** No parsed map holds the empty key. */
  lemma {:induction false} NoEmptyKey(b: seq<u8>, utf8: seq<u8> -> bool, done: map<seq<u8>, seq<u8>>)
    requires [] !in done && ParseMap(b, utf8, done).Ok?
    ensures [] !in ParseMap(b, utf8, done).value
    decreases |b|
  {
    if |b| >= 4 {
      var pair, rest := TakeEntry(b, utf8, done);
      NoEmptyKey(rest, utf8, WithPair(done, pair));
    }
  }

  /** A response payload with the given value, with or without a property block in front of it. */
  function Payload(packed: u8, flags: u8, properties: seq<u8>, value: seq<u8>): seq<u8> {
    [0, 0, 0, 0, packed, flags]
    + (if HasFlag(flags, LOCK_DATA_FLAG_CONTAINS_PROPERTY) then LittleEndian(|properties|, 2) + properties else [])
    + value
  }

  /** The property block, when there is one, is skipped whole. */
  lemma PayloadValue(packed: u8, flags: u8, properties: seq<u8>, value: seq<u8>)
    requires |properties| <= U16_MAX
    ensures var raw := Payload(packed, flags, properties, value);
            && |raw| >= 6 + |value| && raw[4] == packed && raw[5] == flags
            && ValueOffset(raw) == Ok(|raw| - |value|)
            && raw[|raw| - |value|..] == value
            && Value(raw) == Ok(value)
  {
    var raw := Payload(packed, flags, properties, value);
    if HasFlag(flags, LOCK_DATA_FLAG_CONTAINS_PROPERTY) {
      ReadBackU16(|properties|);
      assert raw[6..8] == LittleEndian(|properties|, 2);
    }
  }

  /** A server list comes back as its non-empty items in order, whatever property block precedes it. */
  lemma ListRoundTrip(packed: u8, flags: u8, properties: seq<u8>, items: seq<seq<u8>>, raw: seq<u8>)
    requires |properties| <= U16_MAX && HasFlag(flags, LOCK_DATA_FLAG_VALUE_TYPE_ARRAY)
    requires forall i :: 0 <= i < |items| ==> Fits(items[i])
    requires raw == Payload(packed, flags, properties, Chunks(items))
    ensures ListOf(raw) == Ok(if packed == LOCK_DATA_COMMAND_TYPE_UNSET then [] else NonEmpty(items))
  {
    PayloadValue(packed, flags, properties, Chunks(items));
    CanonicalList(items, []);
    assert Chunks(items) + [] == Chunks(items);
  }

  /** A server map comes back, whatever property block precedes it, exactly when every empty key has an empty value. */
  lemma MapRoundTripExactly(packed: u8, flags: u8, properties: seq<u8>, pairs: seq<Pair>, utf8: seq<u8> -> bool,
                            raw: seq<u8>)
    requires |properties| <= U16_MAX && HasFlag(flags, LOCK_DATA_FLAG_VALUE_TYPE_KV)
    requires forall i :: 0 <= i < |pairs| ==> Encodable(pairs[i], utf8)
    requires raw == Payload(packed, flags, properties, PairChunks(pairs))
    ensures var r := MapOf(raw, utf8);
            if packed == LOCK_DATA_COMMAND_TYPE_UNSET then r == Ok(map[])
            else (r.Ok? && LastWriteWins(r.value, pairs))
                 <==> (forall i :: 0 <= i < |pairs| && pairs[i].key == [] ==> pairs[i].value == [])
  {
    PayloadValue(packed, flags, properties, PairChunks(pairs));
    MapReadsBackExactly(pairs, [], utf8);
    assert PairChunks(pairs) + [] == PairChunks(pairs);
  }

  /** Data reads as a list or a map exactly when it has a header, its type byte is not one and its flag is up; else as
      an empty one. */
  lemma OtherwiseEmpty(raw: seq<u8>, utf8: seq<u8> -> bool)
    ensures (|raw| < 6 || raw[4] == 0x01 || (raw[5] / 0x02) % 2 == 0) ==> ListOf(raw) == Ok([])
    ensures (|raw| < 6 || raw[4] == 0x01 || (raw[5] / 0x04) % 2 == 0) ==> MapOf(raw, utf8) == Ok(map[])
  {
  }

  /** Stage and type are there from the fifth byte on, the flags from the sixth. */
  lemma FieldsPresentExactly(raw: seq<u8>)
    ensures Stage(raw).Some? <==> |raw| >= 5
    ensures CommandType(raw).Some? <==> |raw| >= 5
    ensures Flags(raw).Some? <==> |raw| >= 6
    ensures |raw| >= 5 ==> raw[4] == Stage(raw).value * 64 + CommandType(raw).value
    ensures |raw| >= 6 ==> Flags(raw).value == raw[5]
  {
  }

  /** Why the value offset is refused: no room for the header, or for the length of the property block it announces. */
  lemma OffsetRefusedExactly(raw: seq<u8>)
    ensures ValueOffset(raw) == Err(LockDataError(ShorterThanHeader)) <==> |raw| < 6
    ensures ValueOffset(raw) == Err(LockDataError(PropertyLengthMissing))
       <==> 6 <= |raw| < 8 && (raw[5] / 0x10) % 2 == 1
    ensures ValueOffset(raw).Ok? <==> |raw| >= 8 || (|raw| >= 6 && (raw[5] / 0x10) % 2 == 0)
    ensures ValueOffset(raw).Err? ==> AsBytes(raw) == None && IntegerOf(raw) == 0
  {
  }

  /** A list that breaks off inside an item is refused, whatever came before. */
  lemma {:induction false} ListBreaksOff(items: seq<seq<u8>>, bad: seq<u8>)
    requires forall i :: 0 <= i < |items| ==> Fits(items[i])
    requires |bad| >= 4 && 0 < ReadU32(bad[..4]) && 4 + ReadU32(bad[..4]) > |bad|
    ensures ParseList(Chunks(items) + bad) == Err(LockDataError(ListValueExceedsData))
  {
    if items == [] {
      assert Chunks(items) + bad == bad;
    } else {
      var rest := Chunks(items[1..]) + bad;
      assert Chunks(items) + bad == Chunk(items[0]) + rest;
      ChunkShape(items[0], rest);
      ListBreaksOff(items[1..], bad);
    }
  }

  /** What is wrong with the bytes where an entry should begin. */
  ghost function Fault(b: seq<u8>, utf8: seq<u8> -> bool): Option<DataFault> {
    if |b| < 4 || ReadU32(b[..4]) == 0 then None else
    var n := ReadU32(b[..4]);
    if 4 + n > |b| then Some(MapKeyExceedsData)
    else if !utf8(b[4..4 + n]) then Some(InvalidUtf8Key)
    else if 8 + n > |b| then Some(MapValueLengthMissing)
    else if 8 + n + ReadU32(b[4 + n..8 + n]) > |b| then Some(MapValueExceedsData)
    else None
  }

  lemma FaultIsError(b: seq<u8>, utf8: seq<u8> -> bool, done: map<seq<u8>, seq<u8>>)
    requires Fault(b, utf8).Some?
    ensures ParseMap(b, utf8, done) == Err(LockDataError(Fault(b, utf8).value))
  {
    var n := ReadU32(b[..4]);
    if 8 + n <= |b| {
      assert b[4 + n..][..4] == b[4 + n..8 + n];
    }
  }

  /** A map that breaks off is refused with the reason for the entry it breaks off in, whatever came before. */
  lemma {:induction false} MapBreaksOff(pairs: seq<Pair>, bad: seq<u8>, utf8: seq<u8> -> bool,
                                        done: map<seq<u8>, seq<u8>>)
    requires forall i :: 0 <= i < |pairs| ==> Acceptable(pairs[i], utf8)
    requires Fault(bad, utf8).Some?
    ensures ParseMap(EntryChunks(pairs) + bad, utf8, done) == Err(LockDataError(Fault(bad, utf8).value))
  {
    if pairs == [] {
      assert EntryChunks(pairs) + bad == bad;
      FaultIsError(bad, utf8, done);
    } else {
      assert pairs == [pairs[0]] + pairs[1..];
      EntryInFront(pairs[0], pairs[1..], bad);
      OneEntryRead(pairs[0], EntryChunks(pairs[1..]) + bad, done, utf8);
      MapBreaksOff(pairs[1..], bad, utf8, WithPair(done, pairs[0]));
    }
  }

  // ---------------------------------------------------------------- request data read back as response data

  /** What the reader stores for a payload: four zero bytes and the payload. */
  function Stored(payload: seq<u8>): seq<u8> {
    [0, 0, 0, 0] + payload
  }

  /** A byte leaf sent to the server and returned unchanged keeps its stage, type and flags. Its value is
      kept exactly when the property flag is clear or there is no value to lose. */
  lemma DataRoundTripExactly(t: LockData)
    requires t.value.Bytes? && t.stage < 4 && t.commandType < 64 && Encode(t).Ok?
    ensures var raw := Stored(Encode(t).value[4..]);
            && Stage(raw) == Some(t.stage) && CommandType(raw) == Some(t.commandType)
            && Flags(raw) == Some(t.commandFlag)
            && (AsBytes(raw) == (if t.value.bytes == [] then None else Some(t.value.bytes)) <==>
                !HasFlag(t.commandFlag, LOCK_DATA_FLAG_CONTAINS_PROPERTY) || t.value.bytes == [])
  {
    SealShape(t, t.value.bytes, []);
    var raw := Stored(Encode(t).value[4..]);
    assert raw == [0, 0, 0, 0, PackStage(t.stage, t.commandType), t.commandFlag] + t.value.bytes;
    assert raw[6..] == t.value.bytes;
  }

  /** `LockData::incr` */
  function Incr(v: i64): LockData {
    LockData(LOCK_DATA_STAGE_CURRENT, LOCK_DATA_COMMAND_TYPE_INCR, LOCK_DATA_FLAG_VALUE_TYPE_NUMBER, Bytes(I64Bytes(v)))
  }

  /** An increment on the wire: ten bytes follow, type two in stage nought, the number flag, and the number. */
  lemma IncrementOnTheWire(v: i64)
    ensures Encode(Incr(v)) == Ok([10, 0, 0, 0, 0x02, 0x01] + I64Bytes(v))
  {
    FourBytes(10);
    var bytes := I64Bytes(v);
    assert Encode(Incr(v)) == Seal(Incr(v), bytes) && |bytes| + 2 == 10;
    assert Encode(Incr(v)) == Ok(LittleEndian(10, 4) + [0x02, 0x01] + bytes);
    assert LittleEndian(10, 4) + [0x02, 0x01] == [10, 0, 0, 0, 0x02, 0x01];
  }

  /** Every 64-bit integer survives the trip. */
  lemma IntegerRoundTrip(v: i64)
    ensures Encode(Incr(v)).Ok? && IntegerOf(Stored(Encode(Incr(v)).value[4..])) == v
  {
    var bytes, packed := I64Bytes(v), PackStage(LOCK_DATA_STAGE_CURRENT, LOCK_DATA_COMMAND_TYPE_INCR);
    assert Encode(Incr(v)).value[4..] == [packed, LOCK_DATA_FLAG_VALUE_TYPE_NUMBER] + bytes;
    assert Stored(Encode(Incr(v)).value[4..]) == Payload(packed, LOCK_DATA_FLAG_VALUE_TYPE_NUMBER, [], bytes);
    ShortInteger(packed, LOCK_DATA_FLAG_VALUE_TYPE_NUMBER, [], bytes);
    ReadBackI64(v);
  }

  /** A value of up to eight bytes reads as its zero-extended little-endian number. */
  lemma ShortInteger(packed: u8, flags: u8, properties: seq<u8>, value: seq<u8>)
    requires |properties| <= U16_MAX && |value| <= 8
    ensures FromLittleEndian(value) < U64_RANGE
    ensures IntegerOf(Payload(packed, flags, properties, value)) == FromTwosComplement(FromLittleEndian(value))
  {
    PayloadValue(packed, flags, properties, value);
    WindowIsValue(Payload(packed, flags, properties, value), value);
  }

  lemma WindowIsValue(raw: seq<u8>, value: seq<u8>)
    requires |value| <= 8 && |value| <= |raw| && raw[|raw| - |value|..] == value
    ensures FromLittleEndian(value) < U64_RANGE
    ensures I64FromBytes(seq(8, i requires 0 <= i => WindowByte(raw, |raw| - |value|, i)))
         == FromTwosComplement(FromLittleEndian(value))
  {
    var zeros: seq<u8> := seq(8 - |value|, _ => 0);
    var window := seq(8, i requires 0 <= i => WindowByte(raw, |raw| - |value|, i));
    assert window == value + zeros;
    ZeroExtension(value, zeros);
    Pow256Values();
  }
}

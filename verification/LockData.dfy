/** Trees of lock data and their length-prefixed encoding (src/data/lock_data.rs). */
module LockDataTrees {
  import opened Bytes
  import opened Protocol

  datatype LockData = LockData(stage: u8, commandType: u8, commandFlag: u8, value: LockDataValue)

  datatype LockDataValue = Bytes(bytes: seq<u8>) | Pipeline(items: seq<LockData>)

  // ---------------------------------------------------------------- the encoder

  /** The frame around an encoded value: four length bytes, the stage and type byte, the flag byte. */
  function Seal(t: LockData, value: seq<u8>): Result<seq<u8>> {
    if |value| + 2 > U32_MAX then Err(LockDataError(LengthExceedsU32)) else
    Ok(LittleEndian(|value| + 2, 4) + [PackStage(t.stage, t.commandType), t.commandFlag] + value)
  }

  function Encode(t: LockData): Result<seq<u8>>
    decreases t, 1
  {
    match t.value
    case Bytes(bytes) => Seal(t, bytes)
    case Pipeline(items) =>
      if items == [] then Err(LockDataError(EmptyPipeline)) else
      var value :- EncodeItems(items);
      Seal(t, value)
  }

  function EncodeItems(items: seq<LockData>): Result<seq<u8>>
    decreases items, 0
  {
    if items == [] then Ok([]) else
    var first :- Encode(items[0]);
    var rest :- EncodeItems(items[1..]);
    Ok(first + rest)
  }

  /** `LockData::encode`: the loop over the items of a pipeline appends to one growing buffer. */
  method EncodeInto(t: LockData) returns (r: Result<seq<u8>>)
    ensures r == Encode(t)
    decreases t
  {
    var value: seq<u8>;
    match t.value {
      case Bytes(bytes) =>
        value := bytes;
      case Pipeline(items) =>
        if items == [] {
          return Err(LockDataError(EmptyPipeline));
        }
        value := [];
        var i := 0;
        assert items[0..] == items;
        PrependFacts([], [], EncodeItems(items));
        while i < |items|
          invariant 0 <= i <= |items|
          invariant EncodeItems(items) == Prepend(value, EncodeItems(items[i..]))
        {
          var item := EncodeInto(items[i]);
          assert items[i..][1..] == items[i + 1..];
          if item.Err? {
            return Err(item.error);
          }
          PrependFacts(value, item.value, EncodeItems(items[i + 1..]));
          value := value + item.value;
          i := i + 1;
        }
        assert items[i..] == [] && value + [] == value;
    }
    r := SealInto(t, value);
  }

  method SealInto(t: LockData, value: seq<u8>) returns (r: Result<seq<u8>>)
    ensures r == Seal(t, value)
  {
    if |value| + 2 > U32_MAX {
      return Err(LockDataError(LengthExceedsU32));
    }
    var data := LittleEndian(|value| + 2, 4);
    data := data + [PackStage(t.stage, t.commandType)];
    data := data + [t.commandFlag];
    data := data + value;
    r := Ok(data);
    assert data == LittleEndian(|value| + 2, 4) + [PackStage(t.stage, t.commandType), t.commandFlag] + value;
  }

  ghost function Prepend(head: seq<u8>, tail: Result<seq<u8>>): Result<seq<u8>> {
    match tail
    case Ok(bytes) => Ok(head + bytes)
    case Err(e) => Err(e)
  }

  lemma PrependFacts(a: seq<u8>, b: seq<u8>, tail: Result<seq<u8>>)
    ensures Prepend([], tail) == tail
    ensures Prepend(a, Prepend(b, tail)) == Prepend(a + b, tail)
  {
    if tail.Ok? {
      assert [] + tail.value == tail.value;
      assert a + (b + tail.value) == a + b + tail.value;
    }
  }

  // ---------------------------------------------------------------- when encoding succeeds

  ghost function Size(t: LockData): nat
    decreases t, 1
  {
    6 + match t.value
        case Bytes(bytes) => |bytes|
        case Pipeline(items) => SizeOfItems(items)
  }

  ghost function SizeOfItems(items: seq<LockData>): nat
    decreases items, 0
  {
    if items == [] then 0 else Size(items[0]) + SizeOfItems(items[1..])
  }

  /** No pipeline anywhere in the tree is empty. */
  ghost predicate NoEmptyPipeline(t: LockData)
    decreases t, 1
  {
    t.value.Pipeline? ==> t.value.items != [] && NoEmptyPipelineIn(t.value.items)
  }

  ghost predicate NoEmptyPipelineIn(items: seq<LockData>)
    decreases items, 0
  {
    items != [] ==> NoEmptyPipeline(items[0]) && NoEmptyPipelineIn(items[1..])
  }

  /** A tree encodes exactly when none of its pipelines is empty and its own value fits the length field;
      no inner node can overflow first. */
  lemma {:induction false} EncodesExactly(t: LockData)
    ensures Encode(t).Ok? <==> NoEmptyPipeline(t) && Size(t) - 4 <= U32_MAX
    ensures Encode(t).Ok? ==> |Encode(t).value| == Size(t)
    decreases t, 1
  {
    if t.value.Pipeline? {
      EncodesItemsExactly(t.value.items);
    }
  }

  lemma {:induction false} EncodesItemsExactly(items: seq<LockData>)
    ensures EncodeItems(items).Ok? ==> NoEmptyPipelineIn(items) && |EncodeItems(items).value| == SizeOfItems(items)
    ensures NoEmptyPipelineIn(items) && SizeOfItems(items) <= U32_MAX ==> EncodeItems(items).Ok?
    decreases items, 0
  {
    if items != [] {
      EncodesExactly(items[0]);
      EncodesItemsExactly(items[1..]);
    }
  }

  /** Why a tree does not encode: of the two things that can be wrong, the one that is. */
  lemma {:induction false} EncodeErrorTells(t: LockData)
    ensures !NoEmptyPipeline(t) && Size(t) - 4 <= U32_MAX ==> Encode(t) == Err(LockDataError(EmptyPipeline))
    ensures NoEmptyPipeline(t) && Size(t) - 4 > U32_MAX ==> Encode(t) == Err(LockDataError(LengthExceedsU32))
    ensures Encode(t).Err? ==> Encode(t).error in {LockDataError(EmptyPipeline), LockDataError(LengthExceedsU32)}
    decreases t, 1
  {
    EncodesExactly(t);
    if t.value.Pipeline? {
      ItemsErrorTells(t.value.items);
    }
  }

  lemma {:induction false} ItemsErrorTells(items: seq<LockData>)
    ensures !NoEmptyPipelineIn(items) && SizeOfItems(items) <= U32_MAX ==>
              EncodeItems(items) == Err(LockDataError(EmptyPipeline))
    ensures NoEmptyPipelineIn(items) && EncodeItems(items).Err? ==>
              EncodeItems(items) == Err(LockDataError(LengthExceedsU32))
    ensures EncodeItems(items).Err? ==>
              EncodeItems(items).error in {LockDataError(EmptyPipeline), LockDataError(LengthExceedsU32)}
    ensures EncodeItems(items).Ok? ==> |EncodeItems(items).value| == SizeOfItems(items)
    decreases items, 0
  {
    if items != [] {
      EncodeErrorTells(items[0]);
      EncodesExactly(items[0]);
      ItemsErrorTells(items[1..]);
    }
  }

  // ---------------------------------------------------------------- an independent parser

  /** Reads one tree off the front of a byte string and returns what is left. */
  function Parse(b: seq<u8>): (r: Option<(LockData, seq<u8>)>)
    ensures r.Some? ==> |r.value.1| + 6 <= |b|
    decreases |b|, 0
  {
    if |b| < 6 then None else
    var length := ReadU32(b[..4]);
    if length < 2 || 4 + length > |b| then None else
    var value, rest := b[6..4 + length], b[4 + length..];
    if b[4] % 64 != LOCK_DATA_COMMAND_TYPE_PIPELINE then
      Some((LockData(b[4] / 64, b[4] % 64, b[5], Bytes(value)), rest))
    else if value == [] then None else
      match ParseItems(value)
      case None => None
      case Some(items) => Some((LockData(b[4] / 64, b[4] % 64, b[5], Pipeline(items)), rest))
  }

  function ParseItems(b: seq<u8>): (r: Option<seq<LockData>>)
    ensures r.Some? && b != [] ==> r.value != []
    decreases |b|, 1
  {
    if b == [] then Some([]) else
    match Parse(b)
    case None => None
    case Some((first, rest)) =>
      match ParseItems(rest)
      case None => None
      case Some(items) => Some([first] + items)
  }

  /** What every public constructor but the raw one gives: a stage of two bits, a type of six, and type
      PIPELINE exactly on pipelines. */
  ghost predicate WellFormed(t: LockData)
    decreases t, 1
  {
    && t.stage < 4
    && t.commandType < 64
    && (t.commandType == LOCK_DATA_COMMAND_TYPE_PIPELINE <==> t.value.Pipeline?)
    && (t.value.Pipeline? ==> WellFormedItems(t.value.items))
  }

  ghost predicate WellFormedItems(items: seq<LockData>)
    decreases items, 0
  {
    items != [] ==> WellFormed(items[0]) && WellFormedItems(items[1..])
  }

  /** On the wire the sixth type, and no other, makes a pipeline of what follows. */
  lemma PipelineIsTypeSix(t: LockData)
    requires WellFormed(t) && Encode(t).Ok?
    ensures t.value.Pipeline? <==> Encode(t).value[4] % 64 == 6
  {
    ParseEncode(t, []);
    assert Encode(t).value + [] == Encode(t).value;
  }

  lemma SealShape(t: LockData, value: seq<u8>, rest: seq<u8>)
    requires |value| + 2 <= U32_MAX
    ensures var b := Seal(t, value).value + rest;
            && |b| == 6 + |value| + |rest|
            && ReadU32(b[..4]) == |value| + 2
            && b[4] == PackStage(t.stage, t.commandType) && b[5] == t.commandFlag
            && b[6..6 + |value|] == value && b[6 + |value|..] == rest
            && (t.stage < 4 && t.commandType < 64 ==> b[4] / 64 == t.stage && b[4] % 64 == t.commandType)
  {
    ReadBackU32(|value| + 2);
    var b := Seal(t, value).value + rest;
    assert b[..4] == LittleEndian(|value| + 2, 4);
  }

  /** Decoding an encoding: the parser recovers a well-formed tree of any depth and leaves the bytes
      after it untouched. */
  lemma {:induction false} ParseEncode(t: LockData, rest: seq<u8>)
    requires WellFormed(t) && Encode(t).Ok?
    ensures Parse(Encode(t).value + rest) == Some((t, rest))
    decreases t, 1
  {
    match t.value {
      case Bytes(bytes) =>
        SealShape(t, bytes, rest);
      case Pipeline(items) =>
        var value := EncodeItems(items).value;
        SealShape(t, value, rest);
        ParseEncodeItems(items);
        assert value != [] by {
          EncodesExactly(items[0]);
        }
        assert (Encode(t).value + rest)[6..6 + |value|] == value;
    }
  }

  lemma {:induction false} ParseEncodeItems(items: seq<LockData>)
    requires WellFormedItems(items) && EncodeItems(items).Ok?
    ensures ParseItems(EncodeItems(items).value) == Some(items)
    decreases items, 0
  {
    if items != [] {
      var first, rest := Encode(items[0]).value, EncodeItems(items[1..]).value;
      ParseEncode(items[0], rest);
      ParseEncodeItems(items[1..]);
      EncodesExactly(items[0]);
      assert [items[0]] + items[1..] == items;
    }
  }

  lemma SealOfParts(t: LockData, b: seq<u8>)
    requires |b| >= 6 && 2 <= ReadU32(b[..4]) && 4 + ReadU32(b[..4]) <= |b|
    requires t.stage == b[4] / 64 && t.commandType == b[4] % 64 && t.commandFlag == b[5]
    ensures var n := ReadU32(b[..4]);
            Seal(t, b[6..4 + n]) == Ok(b[..4 + n])
  {
    var n := ReadU32(b[..4]);
    WriteBackU32(b[..4]);
    PackAgain(b[4]);
    FrameOfParts(b, n);
  }

  lemma PackAgain(x: u8)
    ensures PackStage(x / 64, x % 64) == x
  {
  }

  lemma FrameOfParts(b: seq<u8>, n: nat)
    requires |b| >= 6 && 2 <= n && 4 + n <= |b|
    ensures b[..4 + n] == b[..4] + [b[4], b[5]] + b[6..4 + n]
    ensures |b[6..4 + n]| + 2 == n
  {
  }

  /** Encoding a parse: whatever the parser accepts is well-formed and is the encoding of its result. */
  lemma {:induction false} ParseSound(b: seq<u8>)
    requires Parse(b).Some?
    ensures var (t, rest) := Parse(b).value;
            WellFormed(t) && Encode(t).Ok? && b == Encode(t).value + rest
    decreases |b|, 0
  {
    var (t, rest) := Parse(b).value;
    var length: nat := ReadU32(b[..4]);
    ParseFrame(b);
    SealOfParts(t, b);
    FieldRanges(b[4]);
    if t.value.Pipeline? {
      ParseItemsSound(b[6..4 + length]);
    }
    SplitAt(b, 4 + length);
  }

  /** What a successful parse says of the frame, whatever its value. */
  lemma ParseFrame(b: seq<u8>)
    requires Parse(b).Some?
    ensures var (t, rest) := Parse(b).value;
            var length := ReadU32(b[..4]);
            && |b| >= 6 && 2 <= length && 4 + length <= |b| && rest == b[4 + length..]
            && t.stage == b[4] / 64 && t.commandType == b[4] % 64 && t.commandFlag == b[5]
            && (t.commandType == LOCK_DATA_COMMAND_TYPE_PIPELINE <==> t.value.Pipeline?)
            && (t.value.Bytes? ==> t.value.bytes == b[6..4 + length])
            && (t.value.Pipeline? ==> ParseItems(b[6..4 + length]) == Some(t.value.items) && b[6..4 + length] != [])
  {
  }

  lemma FieldRanges(x: u8)
    ensures x / 64 < 4 && x % 64 < 64
  {
  }

  lemma SplitAt(b: seq<u8>, n: nat)
    requires n <= |b|
    ensures b == b[..n] + b[n..]
  {
  }

  lemma {:induction false} ParseItemsSound(b: seq<u8>)
    requires ParseItems(b).Some?
    ensures var items := ParseItems(b).value;
            WellFormedItems(items) && EncodeItems(items) == Ok(b)
    decreases |b|, 1
  {
    if b != [] {
      var (first, rest) := Parse(b).value;
      ParseSound(b);
      ParseItemsSound(rest);
      var items := ParseItems(b).value;
      assert items[1..] == ParseItems(rest).value;
    }
  }

  /** Among the trees that encode, the well-formed ones are exactly those that survive the trip. */
  lemma RoundTripExactly(t: LockData, rest: seq<u8>)
    requires Encode(t).Ok?
    ensures Parse(Encode(t).value + rest) == Some((t, rest)) <==> WellFormed(t)
  {
    if WellFormed(t) {
      ParseEncode(t, rest);
    } else if Parse(Encode(t).value + rest).Some? {
      ParseSound(Encode(t).value + rest);
    }
  }

  /** No encoding is a proper prefix of another, and distinct trees have distinct encodings. */
  lemma PrefixFree(t: LockData, u: LockData)
    requires WellFormed(t) && WellFormed(u) && Encode(t).Ok? && Encode(u).Ok?
    requires Encode(t).value <= Encode(u).value
    ensures t == u
  {
    var a, b := Encode(t).value, Encode(u).value;
    ParseEncode(t, b[|a|..]);
    ParseEncode(u, []);
    assert a + b[|a|..] == b && b + [] == b;
  }

  /** Why a byte leaf must not carry the PIPELINE type: such a leaf has the encoding of a real pipeline. */
  lemma PipelineLeafIsAmbiguous(item: LockData)
    requires Encode(item).Ok? && |Encode(item).value| + 2 <= U32_MAX
    ensures var leaf := LockData(0, LOCK_DATA_COMMAND_TYPE_PIPELINE, 0, Bytes(Encode(item).value));
            var pipeline := LockData(0, LOCK_DATA_COMMAND_TYPE_PIPELINE, 0, Pipeline([item]));
            leaf != pipeline && Encode(leaf).Ok? && Encode(leaf) == Encode(pipeline)
  {
    assert EncodeItems([item]) == Ok(Encode(item).value) by {
      assert EncodeItems([item][1..]) == Ok([]);
      assert Encode(item).value + [] == Encode(item).value;
    }
  }
}

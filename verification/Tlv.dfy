/** BER-TLV data objects: what the parser reads, what the encoder writes. */
module Tlv {
  import opened Wrappers
  import opened ByteStrings

  /** A data object with its raw value and, when that was parsed, its children. */
  datatype Tlv = Tlv(tag: nat, value: Bytes, subs: seq<Tlv>)

  /** A tag or length and the number of bytes it took. */
  datatype Field = Field(num: nat, size: nat)

  /** The front data object's tag and value, and the bytes behind it. */
  datatype Frame = Frame(tag: nat, value: Bytes, rest: Bytes)

  datatype TlvError =
    | EmptyData | UnexpectedEndTag | UnexpectedEndLength | UnexpectedEndValue | InvalidLength | LengthTooLarge

  // ---------------------------------------------------------------- reading

  /** A tag of one to three bytes. */
  function ParseTag(data: Bytes): (r: Result<Field, TlvError>)
    ensures r.Ok? ==> 1 <= r.value.size <= |data|
  {
    if data == [] then Err(UnexpectedEndTag)
    else if data[0] % 32 != 31 then Ok(Field(data[0], 1))
    else if |data| < 2 then Err(UnexpectedEndTag)
    else if data[1] < 128 then Ok(Field(ReadU16(data[0], data[1]), 2))
    else if |data| < 3 then Err(UnexpectedEndTag)
    else Ok(Field(ReadU24(data[0], data[1], data[2]), 3))
  }

  /** A length of one to five bytes. */
  function LengthAt(data: Bytes): (r: Result<Field, TlvError>)
    ensures r.Ok? ==> 1 <= r.value.size <= |data|
  {
    if data == [] then Err(UnexpectedEndLength)
    else if data[0] < 128 then Ok(Field(data[0], 1))
    else
      var k := data[0] - 128;
      if k == 0 then Err(InvalidLength)
      else if k > 4 then Err(LengthTooLarge)
      else if |data| < 1 + k then Err(UnexpectedEndLength)
      else Ok(Field(ToNat(data[1..1 + k]), 1 + k))
  }

  /** The data object at the front. */
  function FrameAt(data: Bytes): (r: Result<Frame, TlvError>)
    ensures r.Ok? ==> |r.value.value| + |r.value.rest| < |data|
  {
    if data == [] then Err(EmptyData)
    else
      match ParseTag(data)
      case Err(e) => Err(e)
      case Ok(Field(tag, tagLen)) =>
        if tagLen >= |data| then Err(UnexpectedEndLength)
        else
          match LengthAt(data[tagLen..])
          case Err(e) => Err(e)
          case Ok(Field(length, lengthLen)) =>
            var start := tagLen + lengthLen;
            if start + length > |data| then Err(UnexpectedEndValue)
            else Ok(Frame(tag, data[start..start + length], data[start + length..]))
  }

  function FirstTagByte(tag: nat): Byte {
    if tag > 0xFFFF then tag / 65536 % 256 else if tag > 0xFF then tag / 256 % 256 else tag % 256
  }

  predicate Constructed(tag: nat) { Bit20(FirstTagByte(tag)) }

  predicate Filler(b: Byte) { b == 0x00 || b == 0xFF }

  /** The data objects of a byte string, up to the first that cannot be read. */
  function Forest(data: Bytes, recursive: bool): seq<Tlv>
    decreases |data|, 0
  {
    if data == [] then []
    else if Filler(data[0]) then Forest(data[1..], recursive)
    else
      match FrameAt(data)
      case Err(_) => []
      case Ok(Frame(tag, value, rest)) => [Tlv(tag, value, Children(tag, value, recursive))] + Forest(rest, recursive)
  }

  function Children(tag: nat, value: Bytes, recursive: bool): seq<Tlv>
    decreases |value|, 1
  {
    if recursive && Constructed(tag) && value != [] then Forest(value, true) else []
  }

  // ---------------------------------------------------------------- writing

  function EncodeTag(tag: nat): Bytes {
    if tag > 0xFFFF then [tag / 65536 % 256, tag / 256 % 256, tag % 256]
    else if tag > 0xFF then [tag / 256 % 256, tag % 256]
    else [tag % 256]
  }

  function EncodeLength(n: nat): Bytes {
    if n < 128 then [n]
    else if n < 256 then [0x81, n]
    else if n < 65536 then [0x82, n / 256, n % 256]
    else if n < 16777216 then [0x83, n / 65536, n / 256 % 256, n % 256]
    else [0x84, n / 16777216 % 256, n / 65536 % 256, n / 256 % 256, n % 256]
  }

  function Encode(tag: nat, value: Bytes): Bytes { EncodeTag(tag) + EncodeLength(|value|) + value }

  /** A data object with children is written from them, its raw value is not used. */
  function EncodeTlv(t: Tlv): Bytes
    decreases t, 1
  {
    Encode(t.tag, if t.subs != [] then EncodeForest(t.subs) else t.value)
  }

  function EncodeForest(ts: seq<Tlv>): Bytes
    decreases ts, 0
  {
    if ts == [] then [] else EncodeTlv(ts[0]) + EncodeForest(ts[1..])
  }

  // ---------------------------------------------------------------- searching

  /** Depth-first search; none of the first match only ends it. */
  function FindTag(t: Tlv, tag: nat): Option<Tlv>
    decreases t, 1
  {
    if t.tag == tag then Some(t) else FindIn(t.subs, tag)
  }

  function FindIn(ts: seq<Tlv>, tag: nat): Option<Tlv>
    decreases ts, 0
  {
    if ts == [] then None
    else if FindTag(ts[0], tag).Some? then FindTag(ts[0], tag)
    else FindIn(ts[1..], tag)
  }

  /** All data objects of a tree, parents before children. */
  function Preorder(ts: seq<Tlv>): seq<Tlv> {
    if ts == [] then [] else [ts[0]] + Preorder(ts[0].subs) + Preorder(ts[1..])
  }

  function FirstWith(ts: seq<Tlv>, tag: nat): Option<Tlv> {
    if ts == [] then None else if ts[0].tag == tag then Some(ts[0]) else FirstWith(ts[1..], tag)
  }

  lemma {:induction false} FirstWithConcat(xs: seq<Tlv>, ys: seq<Tlv>, tag: nat)
    ensures FirstWith(xs + ys, tag) == if FirstWith(xs, tag).Some? then FirstWith(xs, tag) else FirstWith(ys, tag)
  {
    if xs == [] {
      assert xs + ys == ys;
    } else {
      assert (xs + ys)[1..] == xs[1..] + ys;
      FirstWithConcat(xs[1..], ys, tag);
    }
  }

  /** The search finds the first match in document order, and misses none. */
  lemma {:induction false} FindIsFirst(ts: seq<Tlv>, tag: nat)
    ensures FindIn(ts, tag) == FirstWith(Preorder(ts), tag)
  {
    if ts != [] {
      FindIsFirst(ts[0].subs, tag);
      FindIsFirst(ts[1..], tag);
      FirstWithConcat([ts[0]] + Preorder(ts[0].subs), Preorder(ts[1..]), tag);
      FirstWithConcat([ts[0]], Preorder(ts[0].subs), tag);
    }
  }
}

/** The parser's and encoder's loops, proved to compute the functions of module Tlv. */
module TlvCodec {
  import opened Wrappers
  import opened ByteStrings
  import opened Tlv

  method ParseLength(data: Bytes) returns (r: Result<Field, TlvError>)
    ensures r == LengthAt(data)
  {
    if data == [] { return Err(UnexpectedEndLength); }
    var first := data[0];
    if first < 128 { return Ok(Field(first, 1)); }
    var numBytes := first - 128;
    if numBytes == 0 { return Err(InvalidLength); }
    if numBytes > 4 { return Err(LengthTooLarge); }
    if |data| < 1 + numBytes { return Err(UnexpectedEndLength); }
    var length: nat := 0;
    for i := 0 to numBytes
      invariant length == ToNat(data[1..1 + i])
    {
      length := length * 256 + data[1 + i];
      assert data[1..2 + i][..i] == data[1..1 + i];
    }
    r := Ok(Field(length, 1 + numBytes));
  }

  method ReadList(data: Bytes, recursive: bool) returns (result: seq<Tlv>)
    ensures result == Forest(data, recursive)
    decreases |data|, 1
  {
    hide FrameAt, Constructed;
    result := [];
    var remaining := data;
    while remaining != []
      invariant |remaining| <= |data|
      invariant result + Forest(remaining, recursive) == Forest(data, recursive)
      decreases |remaining|
    {
      if remaining[0] == 0x00 || remaining[0] == 0xFF {
        remaining := remaining[1..];
        continue;
      }
      var single := ReadSingle(remaining, recursive);
      match single {
        case Ok((tlv, rest)) =>
          result := result + [tlv];
          remaining := rest;
        case Err(_) =>
          break;
      }
    }
  }

  method ReadSingle(data: Bytes, recursive: bool) returns (r: Result<(Tlv, Bytes), TlvError>)
    ensures r.Err? <==> FrameAt(data).Err?
    ensures r.Err? ==> r.error == FrameAt(data).error
    ensures r.Ok? ==> var f := FrameAt(data).value;
                      r.value == (Tlv(f.tag, f.value, Children(f.tag, f.value, recursive)), f.rest)
    decreases |data|, 0
  {
    hide Forest, LengthAt, ParseTag;
    if data == [] { return Err(EmptyData); }
    var offset: nat := 0;
    var parsedTag := ParseTag(data);
    if parsedTag.Err? { return Err(parsedTag.error); }
    var Field(tag, tagLen) := parsedTag.value;
    offset := offset + tagLen;
    if offset >= |data| { return Err(UnexpectedEndLength); }
    var parsedLength := ParseLength(data[offset..]);
    if parsedLength.Err? { return Err(parsedLength.error); }
    var Field(length, lengthLen) := parsedLength.value;
    offset := offset + lengthLen;
    if offset + length > |data| { return Err(UnexpectedEndValue); }
    var value := data[offset..offset + length];
    offset := offset + length;
    var subs: seq<Tlv> := [];
    if recursive && Bit20(FirstTagByte(tag)) && value != [] {
      subs := ReadList(value, true);
    }
    r := Ok((Tlv(tag, value, subs), data[offset..]));
  }

  /** `encode_tlv`: the children's encodings are collected in a loop. */
  method EncodeTree(t: Tlv) returns (result: Bytes)
    ensures result == EncodeTlv(t)
    decreases t
  {
    var value: Bytes := t.value;
    if t.subs != [] {
      var childBytes: Bytes := [];
      for i := 0 to |t.subs|
        invariant childBytes + EncodeForest(t.subs[i..]) == EncodeForest(t.subs)
      {
        var child := EncodeTree(t.subs[i]);
        childBytes := childBytes + child;
        DropFirst(t.subs, i);
      }
      value := childBytes;
    }
    assert value == if t.subs != [] then EncodeForest(t.subs) else t.value;
    result := Encode(t.tag, value);
  }

  lemma DropFirst(ts: seq<Tlv>, i: nat)
    requires i < |ts|
    ensures EncodeForest(ts[i..]) == EncodeTlv(ts[i]) + EncodeForest(ts[i + 1..])
  {
    assert ts[i..][1..] == ts[i + 1..];
  }

  /** `TLVBuilder`: data objects are appended to `data`, or `data` is wrapped in a tag. */
  class TlvBuilder {
    var data: Bytes

    constructor ()
      ensures data == []
    {
      data := [];
    }

    method Add(tag: nat, value: Bytes)
      modifies this
      ensures data == old(data) + Encode(tag, value)
    {
      data := data + Encode(tag, value);
    }

    method AddRaw(bytes: Bytes)
      modifies this
      ensures data == old(data) + bytes
    {
      data := data + bytes;
    }

    method Wrap(tag: nat)
      modifies this
      ensures data == Encode(tag, old(data))
    {
      data := Encode(tag, data);
    }
  }
}

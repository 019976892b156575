/** The second parser, in Python: it walks an offset, allows tags of any length and drops the
    raw value of an object with children. */
module TlvPython {
  import opened Wrappers
  import opened ByteStrings
  import opened Tlv
  import opened TlvRoundTrip

  // ---------------------------------------------------------------- what it computes

  /** The rest of a multi-byte tag from index i: value and end, or nothing if unterminated. */
  function TagTail(data: Bytes, tag: nat, i: nat): (r: Option<Field>)
    requires i <= |data|
    ensures r.Some? ==> i < r.value.size <= |data| && r.value.num >= tag * 256
    decreases |data| - i
  {
    if i == |data| then None
    else
      var next := tag * 256 + data[i];
      if data[i] < 128 then Some(Field(next, i + 1)) else TagTail(data, next, i + 1)
  }

  function TagAt(data: Bytes): Option<Field> {
    if data == [] then None
    else if data[0] % 32 == 31 then TagTail(data, data[0], 1)
    else Some(Field(data[0], 1))
  }

  function PythonLength(data: Bytes): Option<Field> {
    if data == [] then None
    else if data[0] < 0x80 then Some(Field(data[0], 1))
    else if data[0] == 0x80 then None
    else if data[0] == 0x81 then if |data| < 2 then None else Some(Field(data[1], 2))
    else if data[0] == 0x82 then if |data| < 3 then None else Some(Field(ReadU16(data[1], data[2]), 3))
    else if data[0] == 0x83 then if |data| < 4 then None else Some(Field(ReadU24(data[1], data[2], data[3]), 4))
    else if data[0] == 0x84 then
      if |data| < 5 then None else Some(Field(data[1] * 16777216 + ReadU24(data[2], data[3], data[4]), 5))
    else None
  }

  datatype Read = Nothing | Object(tag: nat, value: Bytes, consumed: nat)

  function PythonFrame(data: Bytes): (r: Read)
    ensures r.Object? ==> 0 < r.consumed <= |data| && |r.value| < |data|
  {
    if |data| < 2 then Nothing
    else
      match TagAt(data)
      case None => Nothing
      case Some(Field(tag, tagLen)) =>
        match PythonLength(data[tagLen..])
        case None => Nothing
        case Some(Field(length, lengthLen)) =>
          var start := tagLen + lengthLen;
          if start + length > |data| then Nothing else Object(tag, data[start..start + length], start + length)
  }

  /** The data objects from an offset on, up to the first that cannot be read. */
  function ObjectsFrom(data: Bytes, offset: nat, recursive: bool): seq<Tlv>
    requires offset <= |data|
    decreases |data|, 0, |data| - offset
  {
    if offset == |data| then []
    else if Filler(data[offset]) then ObjectsFrom(data, offset + 1, recursive)
    else
      match PythonFrame(data[offset..])
      case Nothing => []
      case Object(tag, value, consumed) =>
        [PythonNode(tag, data[offset], value, recursive)] + ObjectsFrom(data, offset + consumed, recursive)
  }

  function PythonNode(tag: nat, first: Byte, value: Bytes, recursive: bool): Tlv
    decreases |value|, 1
  {
    var children := if Bit20(first) && recursive && |value| > 0 then ObjectsFrom(value, 0, true) else [];
    Tlv(tag, if children == [] then value else [], children)
  }

  // ---------------------------------------------------------------- the code

  method ParseTagLoop(data: Bytes) returns (r: Option<Field>)
    ensures r == TagAt(data)
  {
    if |data| < 1 { return None; }
    var first := data[0];
    if first % 32 == 31 {
      var tag: nat := first;
      var offset := 1;
      while offset < |data|
        invariant 1 <= offset <= |data|
        invariant TagTail(data, tag, offset) == TagAt(data)
      {
        var byte := data[offset];
        tag := tag * 256 + byte;
        offset := offset + 1;
        if byte < 128 { return Some(Field(tag, offset)); }
      }
      return None;
    }
    r := Some(Field(first, 1));
  }

  method ParseOne(data: Bytes, recursive: bool) returns (r: Option<(Tlv, nat)>)
    ensures r.None? <==> PythonFrame(data).Nothing?
    ensures r.Some? ==> var f := PythonFrame(data);
                        r.value == (PythonNode(f.tag, data[0], f.value, recursive), f.consumed)
    decreases |data|, 0
  {
    hide ObjectsFrom;
    if |data| < 2 { return None; }
    var parsedTag := ParseTagLoop(data);
    if parsedTag.None? { return None; }
    var Field(tag, tagLen) := parsedTag.value;
    var parsedLength := PythonLength(data[tagLen..]);
    if parsedLength.None? { return None; }
    var Field(length, lengthLen) := parsedLength.value;
    var valueStart := tagLen + lengthLen;
    var valueEnd := valueStart + length;
    if valueEnd > |data| { return None; }
    var value := data[valueStart..valueEnd];
    var children: seq<Tlv> := [];
    if Bit20(data[0]) && recursive && |value| > 0 {
      children := Parse(value, true);
    }
    r := Some((Tlv(tag, if children == [] then value else [], children), valueEnd));
  }

  method Parse(data: Bytes, recursive: bool) returns (result: seq<Tlv>)
    ensures result == ObjectsFrom(data, 0, recursive)
    decreases |data|, 1
  {
    hide PythonFrame;
    result := [];
    var offset := 0;
    ghost var whole := ObjectsFrom(data, 0, recursive);
    while offset < |data|
      invariant offset <= |data|
      invariant whole == result + ObjectsFrom(data, offset, recursive)
    {
      if data[offset] == 0x00 || data[offset] == 0xFF {
        offset := offset + 1;
        continue;
      }
      var one := ParseOne(data[offset..], recursive);
      if one.None? { assert ObjectsFrom(data, offset, recursive) == []; break; }
      assert data[offset..][0] == data[offset];
      NextObject(data, offset, one.value.0, one.value.1, result, recursive);
      result := result + [one.value.0];
      offset := offset + one.value.1;
    }
  }

  /** Appending the object read at an offset and moving on covers the same objects. */
  lemma NextObject(data: Bytes, offset: nat, t: Tlv, consumed: nat, result: seq<Tlv>, recursive: bool)
    requires offset < |data| && !Filler(data[offset])
    requires var f := PythonFrame(data[offset..]);
             f.Object? && consumed == f.consumed && t == PythonNode(f.tag, data[offset], f.value, recursive)
    ensures result + ObjectsFrom(data, offset, recursive)
         == (result + [t]) + ObjectsFrom(data, offset + consumed, recursive)
  {
    hide PythonFrame, PythonNode;
    assert ObjectsFrom(data, offset, recursive) == [t] + ObjectsFrom(data, offset + consumed, recursive);
  }

  // ---------------------------------------------------------------- agreement

  /** A tag that goes on past three bytes: the Rust parser stops at the third. */
  predicate LongTag(data: Bytes) {
    |data| >= 3 && data[0] % 32 == 31 && data[1] >= 128 && data[2] >= 128
  }

  /** Wherever the Rust parser looks for a data object, a long tag makes both parsers stop. */
  predicate NoLongTagRead(data: Bytes, recursive: bool)
    decreases |data|
  {
    data == [] ||
    if Filler(data[0]) then NoLongTagRead(data[1..], recursive)
    else if LongTag(data) then FrameAt(data).Err? && PythonFrame(data).Nothing?
    else
      match FrameAt(data)
      case Err(_) => true
      case Ok(Frame(tag, value, rest)) =>
        (recursive && Constructed(tag) && value != [] ==> NoLongTagRead(value, true)) && NoLongTagRead(rest, recursive)
  }

  lemma LengthsAgree(data: Bytes)
    ensures PythonLength(data) == if LengthAt(data).Ok? then Some(LengthAt(data).value) else None
  {
    if data != [] && 128 < data[0] <= 132 && |data| >= 1 + (data[0] - 128) {
      var s := data[1..1 + (data[0] - 128)];
      if |s| == 1 { Value1(s[0]); assert s == [s[0]]; }
      if |s| == 2 { Value2(s[0], s[1]); assert s == [s[0], s[1]]; }
      if |s| == 3 { Value3(s[0], s[1], s[2]); assert s == [s[0], s[1], s[2]]; }
      if |s| == 4 { Value4(s[0], s[1], s[2], s[3]); assert s == [s[0], s[1], s[2], s[3]]; }
    }
  }

  lemma TagsAgree(data: Bytes)
    requires !LongTag(data)
    ensures TagAt(data) == if ParseTag(data).Ok? then Some(ParseTag(data).value) else None
  {
    if |data| >= 2 && data[0] % 32 == 31 && data[1] >= 128 {
      assert TagTail(data, data[0], 1) == TagTail(data, ReadU16(data[0], data[1]), 2);
    }
  }

  /** Without a long tag the two parsers read the same object, or both fail. */
  lemma FramesAgree(data: Bytes)
    requires !LongTag(data) && data != [] && !Filler(data[0])
    ensures FrameAt(data).Err? ==> PythonFrame(data).Nothing?
    ensures FrameAt(data).Ok? ==>
              var Frame(tag, value, rest) := FrameAt(data).value;
              PythonFrame(data) == Object(tag, value, |data| - |rest|) && data[|data| - |rest|..] == rest
              && FirstTagByte(tag) == data[0]
  {
    TagsAgree(data);
    if ParseTag(data).Ok? {
      TagRewrites(data);
      var tagLen := ParseTag(data).value.size;
      LengthsAgree(data[tagLen..]);
    }
  }

  /** A long tag that Python reads is beyond the Rust parser's 24 bits. */
  lemma LongTagsDiffer(data: Bytes)
    requires LongTag(data)
    ensures PythonFrame(data).Object? ==> PythonFrame(data).tag >= 16777216
    ensures FrameAt(data).Ok? ==> FrameAt(data).value.tag < 16777216
  {
    var t1 := ReadU16(data[0], data[1]);
    var t2 := ReadU24(data[0], data[1], data[2]);
    assert TagTail(data, data[0], 1) == TagTail(data, t1, 2) == TagTail(data, t2, 3);
    assert t2 >= 31 * 65536;
  }

  lemma {:induction false} SkeletonHead(t: Tlv, ts: seq<Tlv>)
    ensures Skeleton([t] + ts)
         == [Tlv(t.tag, if t.subs != [] then [] else t.value, Skeleton(t.subs))] + Skeleton(ts)
  {
    var all := [t] + ts;
    assert all != [] && all[0] == t && all[1..] == ts;
    assert Skeleton(all) == [Tlv(t.tag, if t.subs != [] then [] else t.value, Skeleton(t.subs))] + Skeleton(all[1..]);
  }

  /** At a long tag the results agree only if both are empty. */
  lemma LongTagCase(data: Bytes, offset: nat, recursive: bool)
    requires offset < |data| && !Filler(data[offset]) && LongTag(data[offset..])
    ensures ObjectsFrom(data, offset, recursive) == Skeleton(Forest(data[offset..], recursive))
       <==> FrameAt(data[offset..]).Err? && PythonFrame(data[offset..]).Nothing?
  {
    hide FrameAt, PythonFrame, LongTag;
    var here := data[offset..];
    var xs, ys := ObjectsFrom(data, offset, recursive), Skeleton(Forest(here, recursive));
    LongTagsDiffer(here);
    if FrameAt(here).Ok? {
      var Frame(tag, value, rest) := FrameAt(here).value;
      SkeletonHead(Tlv(tag, value, Children(tag, value, recursive)), Forest(rest, recursive));
      assert ys != [] && ys[0].tag == tag;
    } else {
      assert ys == [];
    }
    var read := PythonFrame(here);
    if read.Object? {
      var node := PythonNode(read.tag, data[offset], read.value, recursive);
      assert xs == [node] + ObjectsFrom(data, offset + read.consumed, recursive);
      assert xs[0].tag == read.tag;
    } else {
      assert xs == [];
    }
  }

  lemma {:induction false} ObjectsAgree(data: Bytes, offset: nat, recursive: bool)
    requires offset <= |data|
    ensures ObjectsFrom(data, offset, recursive) == Skeleton(Forest(data[offset..], recursive))
       <==> NoLongTagRead(data[offset..], recursive)
    decreases |data|, |data| - offset
  {
    hide PythonFrame, FrameAt;
    if offset < |data| {
      var here := data[offset..];
      if Filler(data[offset]) {
        DropDrop(data, offset, 1);
        ObjectsAgree(data, offset + 1, recursive);
      } else if LongTag(here) {
        LongTagCase(data, offset, recursive);
      } else {
        FramesAgree(here);
        if FrameAt(here).Ok? { NodesAgree(data, offset, recursive); }
      }
    }
  }

  lemma {:induction false} NodesAgree(data: Bytes, offset: nat, recursive: bool)
    requires offset < |data| && !Filler(data[offset])
    requires !LongTag(data[offset..]) && FrameAt(data[offset..]).Ok?
    ensures ObjectsFrom(data, offset, recursive) == Skeleton(Forest(data[offset..], recursive))
       <==> NoLongTagRead(data[offset..], recursive)
    decreases |data|, |data| - offset, 0
  {
    hide FrameAt, PythonFrame, LongTag;
    var here := data[offset..];
    var Frame(tag, value, rest) := FrameAt(here).value;
    var next := |data| - |rest|;
    FramesAgree(here);
    DropDrop(data, offset, next - offset);
    var subs := Children(tag, value, recursive);
    var node := PythonNode(tag, data[offset], value, recursive);
    ObjectsAgree(value, 0, true);
    assert value[0..] == value;
    ObjectsAgree(data, next, recursive);
    SkeletonEmpty(subs);
    SkeletonHead(Tlv(tag, value, subs), Forest(rest, recursive));
    assert ObjectsFrom(data, offset, recursive) == [node] + ObjectsFrom(data, next, recursive);
    HeadsAgree(node, Tlv(tag, if subs != [] then [] else value, Skeleton(subs)),
               ObjectsFrom(data, next, recursive), Skeleton(Forest(rest, recursive)));
  }

  lemma HeadsAgree(x: Tlv, y: Tlv, xs: seq<Tlv>, ys: seq<Tlv>)
    ensures [x] + xs == [y] + ys <==> x == y && xs == ys
  {
    assert ([x] + xs)[0] == x && ([x] + xs)[1..] == xs;
    assert ([y] + ys)[0] == y && ([y] + ys)[1..] == ys;
  }

  lemma SkeletonEmpty(ts: seq<Tlv>)
    ensures Skeleton(ts) == [] <==> ts == []
  {}

  /** On every byte string: the Python parser returns the Rust parser's forest, with the same
      stopping points, exactly when no tag of more than three bytes is read by either. */
  lemma ParsersAgree(data: Bytes, recursive: bool)
    ensures ObjectsFrom(data, 0, recursive) == Skeleton(Forest(data, recursive)) <==> NoLongTagRead(data, recursive)
  {
    ObjectsAgree(data, 0, recursive);
    assert data[0..] == data;
  }
}

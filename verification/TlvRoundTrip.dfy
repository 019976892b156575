/** Encoding and parsing undo each other; parsing any bytes normalises them. */
module TlvRoundTrip {
  import opened Wrappers
  import opened ByteStrings
  import opened Tlv

  const LIMIT: nat := 0x1_0000_0000

  // ---------------------------------------------------------------- one data object

  /** Tags as the parser reads them: the low five bits of the first byte announce more. */
  predicate ValidTag(tag: nat) {
    if tag > 0xFFFF then tag < 16777216 && tag / 65536 % 32 == 31 && tag / 256 % 256 >= 128
    else if tag > 0xFF then tag / 256 % 32 == 31 && tag % 256 < 128
    else tag % 32 != 31
  }

  lemma TagReads(tag: nat, rest: Bytes)
    requires ValidTag(tag)
    ensures ParseTag(EncodeTag(tag) + rest) == Ok(Field(tag, |EncodeTag(tag)|))
  {}

  lemma TagRewrites(data: Bytes)
    requires ParseTag(data).Ok? && data[0] != 0
    ensures var Field(tag, k) := ParseTag(data).value;
            ValidTag(tag) && FirstTagByte(tag) == data[0] && |EncodeTag(tag)| == k <= |data|
  {
    if |data| >= 2 { SplitU16(data[0], data[1]); }
    if |data| >= 3 { SplitU24(data[0], data[1], data[2]); }
  }

  lemma SplitU16(a: Byte, b: Byte)
    ensures var x := ReadU16(a, b); x / 256 == a && x / 256 % 256 == a && x / 256 % 32 == a % 32 && x % 256 == b
  {}

  lemma SplitU24(a: Byte, b: Byte, c: Byte)
    ensures var x := ReadU24(a, b, c);
            x / 65536 == a && x / 65536 % 256 == a && x / 65536 % 32 == a % 32 && x / 256 % 256 == b
  {
    assert ReadU24(a, b, c) / 256 == ReadU16(a, b);
    SplitU16(a, b);
  }

  lemma Value1(a: Byte)
    ensures ToNat([a]) == a
  {
    assert [a][..0] == [];
  }

  lemma Value2(a: Byte, b: Byte)
    ensures ToNat([a, b]) == a * 256 + b
  {
    Value1(a);
    assert [a, b][..1] == [a];
  }

  lemma Value3(a: Byte, b: Byte, c: Byte)
    ensures ToNat([a, b, c]) == (a * 256 + b) * 256 + c
  {
    Value2(a, b);
    assert [a, b, c][..2] == [a, b];
  }

  lemma Value4(a: Byte, b: Byte, c: Byte, d: Byte)
    ensures ToNat([a, b, c, d]) == ((a * 256 + b) * 256 + c) * 256 + d
  {
    Value3(a, b, c);
    assert [a, b, c, d][..3] == [a, b, c];
  }

  lemma LengthReads(n: nat, rest: Bytes)
    requires n < LIMIT
    ensures LengthAt(EncodeLength(n) + rest) == Ok(Field(n, |EncodeLength(n)|))
  {
    var code := EncodeLength(n);
    var data := code + rest;
    assert data[1..|code|] == code[1..];
    if n >= 128 { LengthDigits(n); }
  }

  lemma LengthDigits(n: nat)
    requires 128 <= n < LIMIT
    ensures ToNat(EncodeLength(n)[1..]) == n && EncodeLength(n)[0] == 127 + |EncodeLength(n)|
  {
    var code := EncodeLength(n);
    if n < 256 {
      assert code[1..] == [n];
      Value1(n);
    } else if n < 65536 {
      assert code[1..] == [n / 256, n % 256];
      Value2(n / 256, n % 256);
    } else if n < 16777216 {
      assert code[1..] == [n / 65536, n / 256 % 256, n % 256];
      Value3(n / 65536, n / 256 % 256, n % 256);
      SplitValue(n);
    } else {
      assert code[1..] == [n / 16777216 % 256, n / 65536 % 256, n / 256 % 256, n % 256];
      Value4(n / 16777216 % 256, n / 65536 % 256, n / 256 % 256, n % 256);
      SplitValue(n);
    }
  }

  lemma SplitValue(n: nat)
    requires n < LIMIT
    ensures (n / 65536 * 256 + n / 256 % 256) * 256 + n % 256 == n
    ensures n / 16777216 % 256 * 256 + n / 65536 % 256 == n / 65536
  {
    assert n / 256 / 256 == n / 65536 && n / 65536 / 256 == n / 16777216;
  }

  /** The encoder's length is the shortest: it never outgrows the one that was read. */
  lemma LengthShrinks(data: Bytes)
    requires LengthAt(data).Ok?
    ensures var Field(n, k) := LengthAt(data).value; n < LIMIT && |EncodeLength(n)| <= k <= |data|
  {
    if data[0] >= 128 {
      var k := data[0] - 128;
      ToNatBound(data[1..1 + k]);
      assert Power256(1) == 256 && Power256(2) == 65536 && Power256(3) == 16777216 && Power256(4) == LIMIT by {
        assert Power256(2) == 256 * Power256(1);
        assert Power256(3) == 256 * Power256(2);
      }
    }
  }

  lemma FrameReads(tag: nat, value: Bytes, rest: Bytes)
    requires ValidTag(tag) && |value| < LIMIT
    ensures FrameAt(Encode(tag, value) + rest) == Ok(Frame(tag, value, rest))
  {
    var head, length := EncodeTag(tag), EncodeLength(|value|);
    var data := Encode(tag, value) + rest;
    assert data == head + (length + (value + rest));
    TagReads(tag, length + (value + rest));
    assert data[|head|..] == length + (value + rest);
    LengthReads(|value|, value + rest);
    var start := |head| + |length|;
    assert data[start..start + |value|] == value && data[start + |value|..] == rest;
  }

  /** What one parsed data object says about the bytes it came from. */
  lemma FrameRewrites(data: Bytes)
    requires FrameAt(data).Ok? && !Filler(data[0])
    ensures var Frame(tag, value, rest) := FrameAt(data).value;
            && ValidTag(tag) && !Filler(FirstTagByte(tag)) && |value| < LIMIT
            && |EncodeTag(tag)| + |EncodeLength(|value|)| + |value| + |rest| <= |data|
  {
    TagRewrites(data);
    var tagLen := ParseTag(data).value.size;
    LengthShrinks(data[tagLen..]);
  }

  lemma LengthGrows(m: nat, n: nat)
    requires m <= n
    ensures |EncodeLength(m)| <= |EncodeLength(n)|
  {}

  // ---------------------------------------------------------------- forests

  /** A data object that survives a round trip: a tag the parser accepts, children only under
      a constructed tag, and a childless constructed value that holds no data object. */
  predicate WellFormed(t: Tlv)
    decreases t, 1
  {
    && ValidTag(t.tag) && !Filler(FirstTagByte(t.tag))
    && if t.subs == [] then |t.value| < LIMIT && (Constructed(t.tag) ==> Forest(t.value, true) == [])
       else Constructed(t.tag) && AllWellFormed(t.subs) && |EncodeForest(t.subs)| < LIMIT
  }

  predicate AllWellFormed(ts: seq<Tlv>)
    decreases ts, 0
  {
    ts == [] || (WellFormed(ts[0]) && AllWellFormed(ts[1..]))
  }

  /** Constructed values set to the encoding of their children. */
  function Filled(ts: seq<Tlv>): seq<Tlv> {
    if ts == [] then []
    else
      var t := ts[0];
      [Tlv(t.tag, if t.subs != [] then EncodeForest(t.subs) else t.value, Filled(t.subs))] + Filled(ts[1..])
  }

  /** Tags, shape and leaf values: the raw value of an object with children is dropped. */
  function Skeleton(ts: seq<Tlv>): seq<Tlv> {
    if ts == [] then []
    else
      var t := ts[0];
      [Tlv(t.tag, if t.subs != [] then [] else t.value, Skeleton(t.subs))] + Skeleton(ts[1..])
  }

  /** Parsing what was encoded returns the forest, each constructed value being the
      concatenation of its children's encodings. */
  lemma {:induction false} ParseEncoded(ts: seq<Tlv>)
    requires AllWellFormed(ts)
    ensures Forest(EncodeForest(ts), true) == Filled(ts)
  {
    if ts != [] {
      var t, rest := ts[0], EncodeForest(ts[1..]);
      var value := if t.subs != [] then EncodeForest(t.subs) else t.value;
      var data := EncodeForest(ts);
      assert EncodeTlv(t) == Encode(t.tag, value);
      assert data == Encode(t.tag, value) + rest;
      assert data[0] == FirstTagByte(t.tag);
      FrameReads(t.tag, value, rest);
      ParseEncoded(ts[1..]);
      ParseEncoded(t.subs);
      if t.subs != [] { assert EncodeForest(t.subs) == EncodeTlv(t.subs[0]) + EncodeForest(t.subs[1..]); }
      assert Children(t.tag, value, true) == Filled(t.subs);
    }
  }

  /** Whatever bytes were parsed: the result is well formed and re-encodes no longer. */
  lemma {:induction false} ParsedWellFormed(data: Bytes)
    ensures AllWellFormed(Forest(data, true))
    ensures |EncodeForest(Forest(data, true))| <= |data|
    decreases |data|
  {
    if data != [] {
      if Filler(data[0]) {
        ParsedWellFormed(data[1..]);
      } else if FrameAt(data).Ok? {
        var Frame(tag, value, rest) := FrameAt(data).value;
        FrameRewrites(data);
        ParsedWellFormed(value);
        ParsedWellFormed(rest);
        var ts := Forest(data, true);
        assert ts[0] == Tlv(tag, value, Children(tag, value, true)) && ts[1..] == Forest(rest, true);
        LengthGrows(|EncodeForest(ts[0].subs)|, |value|);
      }
    }
  }

  lemma {:induction false} FilledKeeps(ts: seq<Tlv>)
    ensures Skeleton(Filled(ts)) == Skeleton(ts) && EncodeForest(Filled(ts)) == EncodeForest(ts)
    ensures Filled(ts) == [] <==> ts == []
  {
    if ts != [] {
      FilledKeeps(ts[0].subs);
      FilledKeeps(ts[1..]);
      assert Filled(ts)[1..] == Filled(ts[1..]);
    }
  }

  /** For every byte string: parse, re-encode and parse again gives the same tags, shape and
      leaf values; re-encoding is idempotent and never longer than the input. */
  lemma Normalises(data: Bytes)
    ensures var again := EncodeForest(Forest(data, true));
            && Skeleton(Forest(again, true)) == Skeleton(Forest(data, true))
            && EncodeForest(Forest(again, true)) == again
            && |again| <= |data|
  {
    ParsedWellFormed(data);
    ParseEncoded(Forest(data, true));
    FilledKeeps(Forest(data, true));
  }

  /** Well-formed forests with the same encoding have the same tags, shape and leaf values. */
  lemma EncodingInjective(xs: seq<Tlv>, ys: seq<Tlv>)
    requires AllWellFormed(xs) && AllWellFormed(ys) && EncodeForest(xs) == EncodeForest(ys)
    ensures Skeleton(xs) == Skeleton(ys)
  {
    ParseEncoded(xs);
    ParseEncoded(ys);
    FilledKeeps(xs);
    FilledKeeps(ys);
  }

  /** A data object in front of other bytes is parsed first. */
  lemma ForestCons(tag: nat, value: Bytes, rest: Bytes)
    requires ValidTag(tag) && !Filler(FirstTagByte(tag)) && |value| < LIMIT
    ensures Forest(Encode(tag, value) + rest, true)
         == [Tlv(tag, value, Children(tag, value, true))] + Forest(rest, true)
  {
    FrameReads(tag, value, rest);
    var data := Encode(tag, value) + rest;
    assert data[0] == FirstTagByte(tag);
  }

  lemma EmptyForest()
    ensures Forest([], true) == []
  {}
}

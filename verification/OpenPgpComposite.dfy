/** Application Related Data (6E) parses back to exactly what GET DATA returns part by part. */
module OpenPgpComposite {
  import opened Wrappers
  import opened ByteStrings
  import opened Tlv
  import opened TlvRoundTrip
  import opened OpenPgpCard
  import OpenPgp
  import OpenPgpKeys

  function Leaf(tag: nat, value: Bytes): Tlv { Tlv(tag, value, []) }

  // ---------------------------------------------------------------- building forests

  lemma {:induction false} EncodeSnoc(ts: seq<Tlv>, t: Tlv)
    ensures EncodeForest(ts + [t]) == EncodeForest(ts) + EncodeTlv(t)
  {
    if ts == [] {
      assert [] + [t] == [t] && [t][1..] == [];
      assert EncodeForest([t]) == EncodeTlv(t) + [];
    } else {
      assert (ts + [t])[1..] == ts[1..] + [t];
      EncodeSnoc(ts[1..], t);
    }
  }

  lemma {:induction false} WellFormedSnoc(ts: seq<Tlv>, t: Tlv)
    requires AllWellFormed(ts) && WellFormed(t)
    ensures AllWellFormed(ts + [t])
  {
    if ts == [] {
      assert [] + [t] == [t];
    } else {
      assert (ts + [t])[1..] == ts[1..] + [t];
      WellFormedSnoc(ts[1..], t);
    }
  }

  /** Appending a primitive object to a forest and its encoding. */
  lemma AddLeaf(ts: seq<Tlv>, tag: nat, value: Bytes)
    requires AllWellFormed(ts) && |value| < LIMIT
    requires ValidTag(tag) && !Filler(FirstTagByte(tag)) && !Constructed(tag)
    ensures AllWellFormed(ts + [Leaf(tag, value)])
    ensures EncodeForest(ts + [Leaf(tag, value)]) == EncodeForest(ts) + Encode(tag, value)
  {
    WellFormedSnoc(ts, Leaf(tag, value));
    EncodeSnoc(ts, Leaf(tag, value));
  }

  /** Appending a constructed object. */
  lemma AddNode(ts: seq<Tlv>, tag: nat, subs: seq<Tlv>)
    requires AllWellFormed(ts) && AllWellFormed(subs) && subs != [] && |EncodeForest(subs)| < LIMIT
    requires ValidTag(tag) && !Filler(FirstTagByte(tag)) && Constructed(tag)
    ensures AllWellFormed(ts + [Tlv(tag, [], subs)])
    ensures EncodeForest(ts + [Tlv(tag, [], subs)]) == EncodeForest(ts) + Encode(tag, EncodeForest(subs))
  {
    WellFormedSnoc(ts, Tlv(tag, [], subs));
    EncodeSnoc(ts, Tlv(tag, [], subs));
  }

  // ---------------------------------------------------------------- the 6E tree

  function Discretionary(c: Card, p: Pins): seq<Tlv> {
    [] + [Leaf(0xC0, EXTENDED_CAPABILITIES)] + [Leaf(0xC1, c.sig.algorithm.ToBytes())]
    + [Leaf(0xC2, c.dec.algorithm.ToBytes())] + [Leaf(0xC3, c.aut.algorithm.ToBytes())]
    + [Leaf(0xC4, StatusBytes(p))] + [Leaf(0xC5, Fingerprints(c))] + [Leaf(0xC6, CaFingerprints(c))]
    + [Leaf(0xCD, KeyTimestamps(c))]
  }

  function Parts(c: Card, p: Pins): seq<Tlv> {
    [] + [Leaf(0x4F, Aid(c))] + [Leaf(0x5F52, HistoricalBytes(c))]
    + [Tlv(0x7F74, [], [] + [Leaf(0x81, [0x20])])] + [Tlv(0x73, [], Discretionary(c, p))]
  }

  lemma EncodeGrows(tag: nat, value: Bytes)
    ensures |value| < |Encode(tag, value)|
  {}

  lemma DiscretionaryTree(c: Card, p: Pins)
    requires |DiscretionaryObjects(c, p)| < LIMIT
    ensures AllWellFormed(Discretionary(c, p))
    ensures EncodeForest(Discretionary(c, p)) == DiscretionaryObjects(c, p)
  {
    hide Encode, AllWellFormed, EncodeForest, StatusBytes, Fingerprints, CaFingerprints, KeyTimestamps;
    EmptyEncoding();
    var a, b, d := c.sig.algorithm.ToBytes(), c.dec.algorithm.ToBytes(), c.aut.algorithm.ToBytes();
    EncodeGrows(0xC1, a);
    EncodeGrows(0xC2, b);
    EncodeGrows(0xC3, d);
    ShortParts(c, p);
    var t0: seq<Tlv> := [];
    var t1 := t0 + [Leaf(0xC0, EXTENDED_CAPABILITIES)];
    var t2 := t1 + [Leaf(0xC1, a)];
    var t3 := t2 + [Leaf(0xC2, b)];
    var t4 := t3 + [Leaf(0xC3, d)];
    var t5 := t4 + [Leaf(0xC4, StatusBytes(p))];
    var t6 := t5 + [Leaf(0xC5, Fingerprints(c))];
    var t7 := t6 + [Leaf(0xC6, CaFingerprints(c))];
    AddLeaf(t0, 0xC0, EXTENDED_CAPABILITIES);
    AddLeaf(t1, 0xC1, a);
    AddLeaf(t2, 0xC2, b);
    AddLeaf(t3, 0xC3, d);
    AddLeaf(t4, 0xC4, StatusBytes(p));
    AddLeaf(t5, 0xC5, Fingerprints(c));
    AddLeaf(t6, 0xC6, CaFingerprints(c));
    AddLeaf(t7, 0xCD, KeyTimestamps(c));
    assert [] + Encode(0xC0, EXTENDED_CAPABILITIES) == Encode(0xC0, EXTENDED_CAPABILITIES);
  }

  lemma EmptyEncoding()
    ensures AllWellFormed([]) && EncodeForest([]) == []
  {}

  /** The fixed-size data objects; the fingerprints split into their 20-byte slots. */
  lemma ShortParts(c: Card, p: Pins)
    ensures |Aid(c)| == 16 && |HistoricalBytes(c)| == 8 && |StatusBytes(p)| == 7 && |KeyTimestamps(c)| == 12
    ensures |EXTENDED_CAPABILITIES| == 10
    ensures |Fingerprints(c)| == 60 && |CaFingerprints(c)| == 60
  {}

  /** The tree encodes to the bytes that are answered. */
  lemma ApplicationTree(c: Card, p: Pins)
    requires |ApplicationData(c, p)| < LIMIT
    ensures var tree := [Tlv(0x6E, [], Parts(c, p))];
            AllWellFormed(tree) && EncodeForest(tree) == ApplicationData(c, p)
  {
    hide Encode, AllWellFormed, EncodeForest, Aid, HistoricalBytes, DiscretionaryObjects, Discretionary;
    EmptyEncoding();
    ShortParts(c, p);
    var d := DiscretionaryObjects(c, p);
    var body := Encode(0x4F, Aid(c)) + Encode(0x5F52, HistoricalBytes(c))
                + Encode(0x7F74, FEATURE_MANAGEMENT) + Encode(0x73, d);
    EncodeGrows(0x73, d);
    EncodeGrows(0x6E, body);
    DiscretionaryTree(c, p);
    FeatureObject();
    DiscretionaryNonEmpty(c, p);
    var t0: seq<Tlv> := [];
    var t1 := t0 + [Leaf(0x4F, Aid(c))];
    var t2 := t1 + [Leaf(0x5F52, HistoricalBytes(c))];
    var t3 := t2 + [Tlv(0x7F74, [], [] + [Leaf(0x81, [0x20])])];
    AddLeaf(t0, 0x4F, Aid(c));
    AddLeaf(t1, 0x5F52, HistoricalBytes(c));
    AddNode(t2, 0x7F74, [] + [Leaf(0x81, [0x20])]);
    AddNode(t3, 0x73, Discretionary(c, p));
    assert [] + Encode(0x4F, Aid(c)) == Encode(0x4F, Aid(c));
    assert EncodeForest(Parts(c, p)) == body;
    AddNode([], 0x6E, Parts(c, p));
    assert t0 + [Tlv(0x6E, [], Parts(c, p))] == [Tlv(0x6E, [], Parts(c, p))];
    assert [] + Encode(0x6E, body) == Encode(0x6E, body);
  }

  lemma DiscretionaryNonEmpty(c: Card, p: Pins)
    ensures |Discretionary(c, p)| == 8 && |Parts(c, p)| == 4
  {}

  lemma FeatureObject()
    ensures var ts := [] + [Leaf(0x81, [0x20])]; AllWellFormed(ts) && EncodeForest(ts) == FEATURE_MANAGEMENT
  {
    EmptyEncoding();
    AddLeaf([], 0x81, [0x20]);
    assert Encode(0x81, [0x20]) == [0x81] + [1] + [0x20];
  }

  // ---------------------------------------------------------------- searching it

  lemma {:induction false} FirstHit(ts: seq<Tlv>, k: nat, tag: nat)
    requires k < |ts| && FindTag(ts[k], tag).Some?
    requires forall j :: 0 <= j < k ==> FindTag(ts[j], tag).None?
    ensures FindIn(ts, tag) == FindTag(ts[k], tag)
  {
    if k > 0 {
      assert forall j :: 0 <= j < k - 1 ==> ts[1..][j] == ts[j + 1];
      FirstHit(ts[1..], k - 1, tag);
    }
  }

  lemma {:induction false} FilledAt(ts: seq<Tlv>, k: nat)
    requires k < |ts|
    ensures |Filled(ts)| == |ts| && Filled(ts)[k].tag == ts[k].tag && Filled(ts)[k].subs == Filled(ts[k].subs)
    ensures ts[k].subs == [] ==> Filled(ts)[k] == ts[k]
  {
    if k > 0 { FilledAt(ts[1..], k - 1); } else if |ts| > 1 { FilledAt(ts[1..], 0); }
  }

  lemma LeafMisses(t: Tlv, tag: nat)
    requires t.subs == [] && t.tag != tag
    ensures FindTag(t, tag).None?
  {}

  /** The position of a part among the discretionary objects. */
  function Position(tag: nat): nat { if tag == 0xCD then 7 else if 0xC0 <= tag <= 0xC6 then tag - 0xC0 else 0 }

  predicate InDiscretionary(tag: nat) { 0xC0 <= tag <= 0xC6 || tag == 0xCD }

  lemma FindInDiscretionary(c: Card, p: Pins, tag: nat)
    requires InDiscretionary(tag)
    ensures FindIn(Filled(Discretionary(c, p)), tag) == Some(Discretionary(c, p)[Position(tag)])
  {
    hide FindIn, FindTag, Filled, Discretionary;
    DiscretionaryTags(c, p);
    var ts, k := Discretionary(c, p), Position(tag);
    var fs := Filled(ts);
    FilledAt(ts, 0);
    forall j | 0 <= j < 8 ensures fs[j] == ts[j] { FilledAt(ts, j); }
    forall j | 0 <= j < k ensures FindTag(fs[j], tag).None? { LeafMisses(fs[j], tag); }
    LeafHits(fs[k], tag);
    FirstHit(fs, k, tag);
  }

  lemma DiscretionaryTags(c: Card, p: Pins)
    ensures |Discretionary(c, p)| == 8
    ensures forall j :: 0 <= j < 8 ==>
      Discretionary(c, p)[j].subs == [] && Discretionary(c, p)[j].tag == if j == 7 then 0xCD else 0xC0 + j
  {
    hide StatusBytes, Fingerprints, CaFingerprints, KeyTimestamps, Algorithm.ToBytes, EXTENDED_CAPABILITIES;
  }

  lemma LeafHits(t: Tlv, tag: nat)
    requires t.tag == tag
    ensures FindTag(t, tag) == Some(t)
  {}

  /** Which tags the composite contains as single data objects. */
  predicate IsPart(tag: nat) { tag == 0x4F || tag == 0x5F52 || InDiscretionary(tag) }

  lemma FindInParts(c: Card, p: Pins, tag: nat)
    requires IsPart(tag)
    ensures FindIn(Filled(Parts(c, p)), tag)
         == Some(if tag == 0x4F then Leaf(0x4F, Aid(c)) else if tag == 0x5F52 then Leaf(0x5F52, HistoricalBytes(c))
                 else Discretionary(c, p)[Position(tag)])
  {
    hide FindIn, Filled, Discretionary;
    DiscretionaryNonEmpty(c, p);
    var ts := Parts(c, p);
    var fs := Filled(ts);
    FilledAt(ts, 0);
    FilledAt(ts, 1);
    FilledAt(ts, 2);
    FilledAt(ts, 3);
    if tag == 0x4F {
      FirstHit(fs, 0, tag);
    } else if tag == 0x5F52 {
      LeafMisses(fs[0], tag);
      FirstHit(fs, 1, tag);
    } else {
      LeafMisses(fs[0], tag);
      LeafMisses(fs[1], tag);
      FeatureMisses(fs[2], tag);
      FindInDiscretionary(c, p, tag);
      assert FindTag(fs[3], tag) == FindIn(fs[3].subs, tag);
      FirstHit(fs, 3, tag);
    }
  }

  lemma FeatureMisses(t: Tlv, tag: nat)
    requires t.tag == 0x7F74 && t.subs == Filled([] + [Leaf(0x81, [0x20])]) && tag != 0x7F74 && tag != 0x81
    ensures FindTag(t, tag).None?
  {
    var ts := [] + [Leaf(0x81, [0x20])];
    FilledAt(ts, 0);
    LeafMisses(t.subs[0], tag);
    assert t.subs[1..] == [];
  }

  /** GET DATA 6E parses to one tree, in which a search for 4F, 5F52, C0 to C6 or CD finds
      exactly the bytes that GET DATA returns for that tag, for every card state whose answer
      stays below 2^32 bytes. */
  lemma CompositeAgrees(crypto: OpenPgpKeys.Crypto, c: Card, p: Pins, tag: nat)
    requires |ApplicationData(c, p)| < LIMIT && IsPart(tag)
    ensures var ts := Forest(ApplicationData(c, p), true);
      && |ts| == 1 && ts[0].tag == 0x6E
      && OpenPgp.DataObject(crypto, c, p, tag).Some?
      && FindTag(ts[0], tag) == Some(Leaf(tag, OpenPgp.DataObject(crypto, c, p, tag).value))
  {
    hide FindIn, Filled, Forest, ApplicationData, EncodeForest, AllWellFormed, Parts, FindTag, OpenPgp.DataObject;
    var tree := [Tlv(0x6E, [], Parts(c, p))];
    ApplicationTree(c, p);
    ParseEncoded(tree);
    FilledAt(tree, 0);
    FindInParts(c, p, tag);
    SearchBelow(Filled(tree)[0], tag);
    PartValue(crypto, c, p, tag);
  }

  lemma SearchBelow(t: Tlv, tag: nat)
    requires t.tag != tag
    ensures FindTag(t, tag) == FindIn(t.subs, tag)
  {}

  lemma PartValue(crypto: OpenPgpKeys.Crypto, c: Card, p: Pins, tag: nat)
    requires IsPart(tag)
    ensures OpenPgp.DataObject(crypto, c, p, tag)
         == Some(if tag == 0x4F then Aid(c) else if tag == 0x5F52 then HistoricalBytes(c)
                 else Discretionary(c, p)[Position(tag)].value)
    ensures InDiscretionary(tag) ==>
              Discretionary(c, p)[Position(tag)] == Leaf(tag, Discretionary(c, p)[Position(tag)].value)
  {
    hide Aid, HistoricalBytes, StatusBytes, Fingerprints, CaFingerprints, KeyTimestamps, Algorithm.ToBytes,
      Padded20, Timestamp, CounterBytes, CardholderData, ApplicationData, SecurityTemplate, EXTENDED_CAPABILITIES;
  }

  /** C5 and C6 are the three slots' 20-byte fingerprints in order. */
  lemma FingerprintSlots(crypto: OpenPgpKeys.Crypto, c: Card, p: Pins)
    ensures var f, ca := Fingerprints(c), CaFingerprints(c);
      && |f| == 60 && |ca| == 60
      && OpenPgp.DataObject(crypto, c, p, 0xC7) == Some(f[..20])
      && OpenPgp.DataObject(crypto, c, p, 0xC8) == Some(f[20..40])
      && OpenPgp.DataObject(crypto, c, p, 0xC9) == Some(f[40..])
      && OpenPgp.DataObject(crypto, c, p, 0xCA) == Some(ca[..20])
      && OpenPgp.DataObject(crypto, c, p, 0xCB) == Some(ca[20..40])
      && OpenPgp.DataObject(crypto, c, p, 0xCC) == Some(ca[40..])
  {
    hide Padded20;
    Thirds(Padded20(c.sig.fingerprint), Padded20(c.dec.fingerprint), Padded20(c.aut.fingerprint));
    Thirds(Padded20(c.sig.caFingerprint), Padded20(c.dec.caFingerprint), Padded20(c.aut.caFingerprint));
  }

  lemma Thirds(x: Bytes, y: Bytes, z: Bytes)
    requires |x| == |y| == |z| == 20
    ensures (x + y + z)[..20] == x && (x + y + z)[20..40] == y && (x + y + z)[40..] == z
  {}
}

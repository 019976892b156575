/** What PUT DATA stores, GET DATA reads. */
module OpenPgpObjects {
  import opened Wrappers
  import opened ByteStrings
  import opened OpenPgpCard
  import opened OpenPgpKeys
  import opened OpenPgp
  import opened NumberTheory
  import TlvRoundTrip

  // ---------------------------------------------------------------- fields

  /** Algorithm attributes read back as written, except that RSA keeps the first six bytes. */
  lemma AlgorithmRewrites(data: Bytes)
    requires AlgorithmFromBytes(data).Some?
    ensures AlgorithmFromBytes(data).value.ToBytes() == if data[0] == RSA then data[..6] else data
  {
    if data[0] == RSA {
      TlvRoundTrip.SplitU16(data[1], data[2]);
      TlvRoundTrip.SplitU16(data[3], data[4]);
    } else {
      assert data == [data[0]] + data[1..];
    }
  }

  /** Which attributes the encoding determines: the fields of the other kind are not written. */
  predicate Determined(a: Algorithm) {
    if a.id == RSA then a.param1 < 65536 && a.param2 < 65536 && a.curveOid == []
    else a.param1 == 0 && a.param2 == 0 && a.param3 == 0 && a.curveOid != []
  }

  lemma AlgorithmReads(a: Algorithm)
    ensures AlgorithmFromBytes(a.ToBytes()) == Some(a) <==> Determined(a)
  {
    if a.id == RSA {
      U16Reads(a.param1);
      U16Reads(a.param2);
    } else {
      assert a.ToBytes()[1..] == a.curveOid;
    }
  }

  lemma TopByte(top: nat, low: nat)
    requires low < 16777216
    ensures var t := top * 16777216 + low;
            t / 16777216 == top && t / 65536 == top * 256 + low / 65536 && t / 256 == top * 65536 + low / 256
  {}

  /** The last byte does not depend on what stands above it. */
  lemma LastByte(high: nat, low: nat)
    ensures (high * 256 + low) % 256 == low % 256
  {
    RemainderUnique(high * 256 + low, 256, high + low / 256, low % 256);
  }

  lemma WordBytes(top: nat, low: nat)
    requires top < 256 && low < 16777216
    ensures Timestamp(top * 16777216 + low) == [top, low / 65536, low / 256 % 256, low % 256]
  {
    TopByte(top, low);
    LastByte(top * 65536, low);
    LastByte(top * 256, low / 256);
    LastByte(top, low / 65536);
  }

  lemma LastOfThree(a: Byte, b: Byte, c: Byte)
    ensures ReadU24(a, b, c) % 256 == c && ReadU24(a, b, c) < 16777216
  {
    LastByte(ReadU16(a, b), c);
  }

  lemma TimestampRewrites(d: Bytes)
    requires |d| == 4
    ensures Timestamp(ReadTimestamp(d)) == d
  {
    hide ReadU24, Timestamp;
    TlvRoundTrip.SplitU24(d[1], d[2], d[3]);
    LastOfThree(d[1], d[2], d[3]);
    WordBytes(d[0], ReadU24(d[1], d[2], d[3]));
  }

  // ---------------------------------------------------------------- objects

  /** The data objects that PUT DATA stores in the card and GET DATA reads. */
  predicate InCard(tag: nat) { PutAccess(tag) != Never && tag != 0x00C4 && tag != 0x00D3 }

  /** Objects that are put together from several stored ones. */
  predicate Composed(tag: nat) { tag in {0x0065, 0x006E, 0x00C5, 0x00C6, 0x00CD} }

  predicate IsText(tag: nat) { tag in {0x005B, 0x5F2D, 0x005E, 0x5F50} }

  /** Which data PUT DATA accepts under a tag. */
  predicate Storable(tag: nat, data: Bytes) {
    match SlotTag(tag)
    case Some((_, AlgorithmPart)) => data != [] && |data| >= if data[0] == RSA then 6 else 2
    case Some((_, FingerprintPart)) => |data| == 20
    case Some((_, CaFingerprintPart)) => |data| == 20
    case Some((_, TimePart)) => |data| == 4
    case _ => true
  }

  /** Which accepted data reads back unchanged: texts must be UTF-8, the sex is one byte, RSA
      attributes have no tail, and the second byte of a touch policy is fixed. */
  predicate ReadsBack(c: Crypto, tag: nat, data: Bytes) {
    match SlotTag(tag)
    case Some((_, AlgorithmPart)) => data != [] && (data[0] == RSA ==> |data| == 6)
    case Some((_, UifPart)) => |data| == 2 && data[1] == 0x20
    case Some(_) => true
    case None => if IsText(tag) then c.utf8Lossy(data) == data else tag == 0x5F35 ==> |data| == 1
  }

  /** The same for the part of a key slot that a tag stands for. */
  lemma StoredInSlot(card: Card, name: SlotName, part: SlotPart, tag: nat, c: Crypto, p: Pins, data: Bytes)
    requires SlotTag(tag) == Some((name, part))
    ensures var r := StoreInSlot(card.Slot(name), part, data);
      && (if Storable(tag, data) then r.Ok? else r in {Err(WRONG_LENGTH), Err(WRONG_DATA)})
      && (r.Ok? ==> (DataObject(c, card.WithSlot(name, r.value), p, tag) == Some(data) <==> ReadsBack(c, tag, data)))
  {
    hide ApplicationData, CardholderData, SecurityTemplate, Fingerprints, CaFingerprints, KeyTimestamps, Aid,
      HistoricalBytes, StatusBytes, CounterBytes, Algorithm.ToBytes, Timestamp, ReadTimestamp;
    if part == AlgorithmPart && AlgorithmFromBytes(data).Some? { AlgorithmRewrites(data); }
    if part == TimePart && |data| == 4 { TimestampRewrites(data); }
    if part == AlgorithmPart && |data| == 6 { assert data[..6] == data; }
    if part == UifPart {
      assert forall x: Byte :: [x, 0x20] == data <==> |data| == 2 && data[0] == x && data[1] == 0x20;
    }
  }

  lemma OtherSlotObjects(card: Card, name: SlotName, part: SlotPart, tag: nat, other: nat, c: Crypto, p: Pins,
                         data: Bytes)
    requires SlotTag(tag) == Some((name, part)) && other != tag && !Composed(other)
    ensures var r := StoreInSlot(card.Slot(name), part, data);
      r.Ok? ==> DataObject(c, card.WithSlot(name, r.value), p, other) == DataObject(c, card, p, other)
  {
    hide ApplicationData, CardholderData, Fingerprints, CaFingerprints, KeyTimestamps,
      StatusBytes, AlgorithmFromBytes, Algorithm.ToBytes, Padded20, Timestamp, ReadTimestamp;
  }

  lemma OtherCardObjects(card: Card, tag: nat, other: nat, c: Crypto, p: Pins, data: Bytes)
    requires SlotTag(tag) == None && StoreObject(c, card, tag, data).Ok? && other != tag && !Composed(other)
    ensures DataObject(c, StoreObject(c, card, tag, data).value, p, other) == DataObject(c, card, p, other)
  {
    hide ApplicationData, CardholderData, SlotTag;
  }

  /** PUT DATA with the needed PIN: refused exactly for data of a wrong form, and then nothing
      changes; otherwise GET DATA returns exactly what was sent iff it is in canonical form, and
      every object that is not composed from this one reads as before. */
  lemma PutThenGet(c: Crypto, s: State, tag: nat, data: Bytes)
    requires InCard(tag) && AccessGranted(s.security, PutAccess(tag))
    ensures var r := PutData(c, s, tag, data);
      && (r.response == Success([]) <==> Storable(tag, data))
      && (!Storable(tag, data) ==> r.state == s)
      && (Storable(tag, data) ==> (GetData(c, r.state, tag) == Success(data) <==> ReadsBack(c, tag, data)))
      && (forall other: nat :: other != tag && !Composed(other) ==> GetData(c, r.state, other) == GetData(c, s, other))
  {
    hide DataObject, StoreInSlot, Storable, ReadsBack, SlotTag;
    Stored(c, s.card, s.pins, tag, data);
    forall other: nat | other != tag && !Composed(other)
      ensures GetData(c, PutData(c, s, tag, data).state, other) == GetData(c, s, other)
    {
      if StoreObject(c, s.card, tag, data).Ok? { OthersKept(c, s.card, s.pins, tag, other, data); }
    }
  }

  lemma OthersKept(c: Crypto, card: Card, p: Pins, tag: nat, other: nat, data: Bytes)
    requires InCard(tag) && other != tag && !Composed(other) && StoreObject(c, card, tag, data).Ok?
    ensures DataObject(c, StoreObject(c, card, tag, data).value, p, other) == DataObject(c, card, p, other)
  {
    hide DataObject, StoreInSlot;
    if SlotTag(tag).Some? {
      OtherSlotObjects(card, SlotTag(tag).value.0, SlotTag(tag).value.1, tag, other, c, p, data);
    } else {
      OtherCardObjects(card, tag, other, c, p, data);
    }
  }

  lemma Stored(c: Crypto, card: Card, p: Pins, tag: nat, data: Bytes)
    requires InCard(tag)
    ensures var r := StoreObject(c, card, tag, data);
      && (if Storable(tag, data) then r.Ok? else r in {Err(WRONG_LENGTH), Err(WRONG_DATA)})
      && (r.Ok? ==> (DataObject(c, r.value, p, tag) == Some(data) <==> ReadsBack(c, tag, data)))
  {
    if SlotTag(tag).Some? {
      hide DataObject, StoreInSlot;
      StoredInSlot(card, SlotTag(tag).value.0, SlotTag(tag).value.1, tag, c, p, data);
    } else {
      hide ApplicationData, CardholderData;
      assert forall x: Byte :: [x] == data <==> |data| == 1 && data[0] == x;
    }
  }

  // ---------------------------------------------------------------- the two tables of GET DATA

  /** The access table lets exactly the tags through that have a value: GET DATA never asks for
      a PIN, and its status for a missing object is never answered. */
  lemma AccessMatchesValues(c: Crypto, s: State, tag: nat)
    ensures GetAccess(tag) in {Always, Never}
    ensures GetAccess(tag) == Always <==> DataObject(c, s.card, s.pins, tag).Some?
    ensures GetData(c, s, tag).sw1 == 0x90 || GetData(c, s, tag) == Error(SECURITY_STATUS_NOT_SATISFIED)
    ensures GetData(c, s, tag) != Error(REFERENCED_DATA_NOT_FOUND)
  {
    hide ApplicationData, CardholderData, SecurityTemplate, Fingerprints, CaFingerprints, KeyTimestamps, Aid,
      HistoricalBytes, StatusBytes, Padded20, Timestamp, CounterBytes, Algorithm.ToBytes;
    if 0x0101 <= tag <= 0x0104 { assert tag in {0x0101, 0x0102, 0x0103, 0x0104}; }
  }

  // ---------------------------------------------------------------- reading composed objects

  /** C4 tells the single-use setting, the longest PINs and the tries that are left. */
  lemma StatusTells(p: Pins)
    requires p.pw1.maxLength < 256 && p.rc.maxLength < 256 && p.pw3.maxLength < 256
    requires p.pw1.retries < 256 && p.rc.retries < 256 && p.pw3.retries < 256
    ensures StatusBytes(p)
         == [if p.validMultiple then 0x01 else 0x00, p.pw1.maxLength, p.rc.maxLength, p.pw3.maxLength,
             p.pw1.retries, p.rc.retries, p.pw3.retries]
  {}

  /** CE, CF and D0 read as the generation times of the slots, and CD is the three in a row. */
  lemma TimesTell(c: Crypto, card: Card, p: Pins, name: SlotName)
    requires card.Slot(name).generationTime < 0x1_0000_0000
    ensures var tag, i := (match name case Sig => 0xCE case Dec => 0xCF case Aut => 0xD0),
                          (match name case Sig => 0 case Dec => 4 case Aut => 8);
      var t := DataObject(c, card, p, tag);
      && t.Some? && |t.value| == 4 && ReadTimestamp(t.value) == card.Slot(name).generationTime
      && KeyTimestamps(card)[i..i + 4] == t.value && DataObject(c, card, p, 0xCD) == Some(KeyTimestamps(card))
  {
    TimestampReads(card.Slot(name).generationTime);
    var x, y := Timestamp(card.sig.generationTime), Timestamp(card.dec.generationTime);
    var z := Timestamp(card.aut.generationTime);
    assert (x + y + z)[0..4] == x && (x + y + z)[4..8] == y && (x + y + z)[8..12] == z;
  }

  lemma TimestampReads(t: nat)
    requires t < 0x1_0000_0000
    ensures ReadTimestamp(Timestamp(t)) == t
  {
    hide Timestamp;
    var top, low := t / 16777216, t % 16777216;
    assert t == top * 16777216 + low;
    WordBytes(top, low);
    ThreeBytes(low);
  }

  lemma ThreeBytes(low: nat)
    requires low < 16777216
    ensures low / 65536 * 65536 + low / 256 % 256 * 256 + low % 256 == low
  {}

  /** 93 reads as the signature counter, as far as three bytes go. */
  lemma CounterTells(c: Crypto, card: Card, p: Pins)
    ensures var t := DataObject(c, card, p, 0x93);
      t.Some? && |t.value| == 3 && ReadU24(t.value[0], t.value[1], t.value[2]) == card.signatureCounter % 16777216
  {
    var n := card.signatureCounter;
    ThreeBytes(n % 16777216);
    LowParts(n);
  }

  lemma LowParts(n: nat)
    ensures n / 65536 % 256 == n % 16777216 / 65536
    ensures n / 256 % 256 == n % 16777216 / 256 % 256 && n % 256 == n % 16777216 % 256
  {
    var h, low := n / 16777216, n % 16777216;
    TopByte(h, low);
    LastByte(h * 65536, low);
    LastByte(h * 256, low / 256);
    LastByte(h, low / 65536);
  }
}

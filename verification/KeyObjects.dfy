/** Generated keys and public key objects, in the form both applets store and answer. */
module KeyObjects {
  import opened Wrappers
  import opened ByteStrings
  import Tlv
  import TlvRoundTrip
  import Rsa

  datatype KeyPair = KeyPair(privateKey: Bytes, publicKey: Bytes)

  function RsaPublicObject(n: Bytes, e: Bytes): Bytes {
    Tlv.Encode(0x7F49, Tlv.Encode(0x81, n) + Tlv.Encode(0x82, e))
  }

  function EccPublicObject(point: Bytes): Bytes { Tlv.Encode(0x7F49, Tlv.Encode(0x86, point)) }

  /** What is stored, and what is answered. */
  datatype NewKey = NewKey(privateKey: Bytes, publicKey: Bytes, answer: Bytes)

  function OrEmpty(s: Option<Bytes>): Bytes { match s case Some(v) => v case None => [] }

  function NewRsaKey(key: Rsa.PrivateKey): NewKey {
    var public := Rsa.PublicBlob(ByteStrings.ToBytes(key.n), ByteStrings.ToBytes(key.e));
    NewKey(Rsa.PrivateBlob(ByteStrings.ToBytes(key.e), ByteStrings.ToBytes(key.p), ByteStrings.ToBytes(key.q)), public,
           RsaPublicObject(OrEmpty(Rsa.GetModulus(public)), OrEmpty(Rsa.GetExponent(public))))
  }

  function NewEccKey(pair: KeyPair): NewKey {
    NewKey(pair.privateKey, EccPublicObject(pair.publicKey), EccPublicObject(pair.publicKey))
  }

  /** The value of the first object with this tag, if there is one. */
  function ValueOf(data: Bytes, tag: nat): Option<Bytes> {
    match Tlv.FirstWith(Tlv.Forest(data, true), tag) case Some(t) => Some(t.value) case None => None
  }

  /** The point in a public key object 7F49. */
  function PublicPoint(data: Bytes): Option<Bytes> {
    match ValueOf(data, 0x7F49) case Some(v) => ValueOf(v, 0x86) case None => None
  }

  // ---------------------------------------------------------------- reading them back

  /** An encoded object is found by its tag, whatever follows it. */
  lemma ValueReads(tag: nat, value: Bytes, rest: Bytes)
    requires TlvRoundTrip.ValidTag(tag) && !Tlv.Filler(Tlv.FirstTagByte(tag)) && |value| < TlvRoundTrip.LIMIT
    ensures ValueOf(Tlv.Encode(tag, value) + rest, tag) == Some(value)
  {
    hide Tlv.Forest, Tlv.Encode;
    TlvRoundTrip.ForestCons(tag, value, rest);
  }

  lemma ValueAlone(tag: nat, value: Bytes)
    requires TlvRoundTrip.ValidTag(tag) && !Tlv.Filler(Tlv.FirstTagByte(tag)) && |value| < TlvRoundTrip.LIMIT
    ensures ValueOf(Tlv.Encode(tag, value), tag) == Some(value)
  {
    ValueReads(tag, value, []);
    assert Tlv.Encode(tag, value) + [] == Tlv.Encode(tag, value);
  }

  lemma EncodedSize(tag: nat, value: Bytes)
    ensures |value| < |Tlv.Encode(tag, value)| <= |value| + 8
  {}

  /** The point is read back from its public key object. */
  lemma PointReads(point: Bytes)
    requires |point| < 0x1_0000_0000 - 8
    ensures PublicPoint(EccPublicObject(point)) == Some(point)
  {
    hide ValueOf, Tlv.Encode;
    EncodedSize(0x86, point);
    ValueAlone(0x86, point);
    ValueAlone(0x7F49, Tlv.Encode(0x86, point));
  }

  /** A new RSA key's modulus and exponent are read back when their lengths fit 16 bits. */
  lemma NewRsaKeyReads(key: Rsa.PrivateKey)
    requires |ByteStrings.ToBytes(key.n)| < 65536 && |ByteStrings.ToBytes(key.e)| < 65536
    ensures var n, e := ByteStrings.ToBytes(key.n), ByteStrings.ToBytes(key.e);
      && Rsa.GetModulus(NewRsaKey(key).publicKey) == Some(n)
      && Rsa.GetExponent(NewRsaKey(key).publicKey) == Some(e)
      && NewRsaKey(key).answer == RsaPublicObject(n, e)
  {
    hide RsaPublicObject, Rsa.GetModulus, Rsa.GetExponent, Rsa.PublicBlob, ByteStrings.ToBytes;
    Rsa.PublicBlobReads(ByteStrings.ToBytes(key.n), ByteStrings.ToBytes(key.e));
  }

  /** Modulus and exponent are read back from an RSA public key object. */
  lemma RsaObjectReads(n: Bytes, e: Bytes)
    requires |n| < 65536 && |e| < 65536
    ensures var v := ValueOf(RsaPublicObject(n, e), 0x7F49);
      v.Some? && ValueOf(v.value, 0x81) == Some(n) && ValueOf(v.value, 0x82) == Some(e)
  {
    hide Tlv.Encode, ValueOf;
    EncodedSize(0x81, n);
    EncodedSize(0x82, e);
    ValueAlone(0x7F49, Tlv.Encode(0x81, n) + Tlv.Encode(0x82, e));
    ValueReads(0x81, n, Tlv.Encode(0x82, e));
    ValueAlone(0x82, e);
    ValueBehind(0x81, n, Tlv.Encode(0x82, e), 0x82);
  }

  /** An object behind another of a different tag is found as if it were alone. */
  lemma ValueBehind(first: nat, value: Bytes, rest: Bytes, tag: nat)
    requires TlvRoundTrip.ValidTag(first) && !Tlv.Filler(Tlv.FirstTagByte(first)) && |value| < TlvRoundTrip.LIMIT
    requires first != tag
    ensures ValueOf(Tlv.Encode(first, value) + rest, tag) == ValueOf(rest, tag)
  {
    hide Tlv.Forest, Tlv.Encode;
    TlvRoundTrip.ForestCons(first, value, rest);
    var head := [Tlv.Tlv(first, value, Tlv.Children(first, value, true))];
    assert (head + Tlv.Forest(rest, true))[1..] == Tlv.Forest(rest, true);
  }
}

/** Keys generated on the OpenPGP card: reading them back, their fingerprints, signing with them. */
module OpenPgpGeneration {
  import opened Wrappers
  import opened ByteStrings
  import opened Apdu
  import opened OpenPgpCard
  import opened KeyObjects
  import opened OpenPgpKeys
  import opened OpenPgp
  import opened NumberTheory
  import OpenPgpImport
  import Rsa
  import Tlv

  /** What an accepted generation makes, stores and answers. */
  lemma GeneratedIsStored(c: Crypto, s: State, cmd: Apdu, env: Env)
    requires cmd.p1 == 0x80 && GenerateKey(c, s, cmd, env).response.sw1 in {0x90, 0x61}
    ensures s.security.pw3 && GenerateSlot(cmd.data).Some?
    ensures var name := GenerateSlot(cmd.data).value;
      var a, r := s.card.Slot(name).algorithm, GenerateKey(c, s, cmd, env);
      var made := Generated(a, env.rsaKey, env.eccKey);
      && made.Ok?
      && var slot := r.state.card.Slot(name);
         && slot == s.card.Slot(name).(privateKey := made.value.privateKey, publicKey := made.value.publicKey,
                                       generationTime := env.now, fingerprint := slot.fingerprint)
         && slot.fingerprint == FingerprintOf(c, a, slot.publicKey, env.now)
         && r.state.card == s.card.WithSlot(name, slot)
         && r == CreateResponse(s.(card := r.state.card), made.value.answer)
         && r.state.security == s.security && r.state.commandBuffer == s.commandBuffer
  {
    hide Generated, FingerprintOf;
  }

  /** Reading a generated key's public part answers what generation answered; for an RSA key
      exactly if modulus and exponent can be read from the stored blob. */
  lemma GenerateThenRead(c: Crypto, s: State, cmd: Apdu, env: Env, read: Apdu, env': Env)
    requires cmd.p1 == 0x80 && GenerateKey(c, s, cmd, env).response.sw1 in {0x90, 0x61}
    requires read.p1 == 0x81 && GenerateSlot(read.data) == GenerateSlot(cmd.data)
    ensures GenerateSlot(cmd.data).Some?
    ensures var t := GenerateKey(c, s, cmd, env).state;
      var a := s.card.Slot(GenerateSlot(cmd.data).value).algorithm;
      var made := Generated(a, env.rsaKey, env.eccKey);
      && made.Ok?
      && var public := made.value.publicKey;
         GenerateKey(c, t, read, env')
         == if a.id == RSA && (Rsa.GetModulus(public).None? || Rsa.GetExponent(public).None?)
            then Refused(t, EXEC_ERROR) else CreateResponse(t, made.value.answer)
  {
    hide FingerprintOf, GenerateSlot, CreateResponse, Rsa.GetModulus, Rsa.GetExponent, Rsa.PublicBlob, RsaPublicObject;
    GeneratedIsStored(c, s, cmd, env);
    var name := GenerateSlot(cmd.data).value;
    var made := Generated(s.card.Slot(name).algorithm, env.rsaKey, env.eccKey).value;
    KeyIsStored(made, s.card.Slot(name).algorithm, env);
    ReadIs(c, GenerateKey(c, s, cmd, env).state, read, env', name);
  }

  lemma KeyIsStored(made: NewKey, a: Algorithm, env: Env)
    requires Generated(a, env.rsaKey, env.eccKey) == Ok(made)
    ensures made.publicKey != [] && (a.id != RSA ==> made.answer == made.publicKey)
    ensures var n, e := Rsa.GetModulus(made.publicKey), Rsa.GetExponent(made.publicKey);
            a.id == RSA && n.Some? && e.Some? ==> made.answer == RsaPublicObject(n.value, e.value)
  {
    hide Rsa.GetModulus, Rsa.GetExponent, RsaPublicObject;
  }

  lemma ReadIs(c: Crypto, t: State, read: Apdu, env: Env, name: SlotName)
    requires read.p1 == 0x81 && GenerateSlot(read.data) == Some(name) && t.card.Slot(name).publicKey != []
    ensures GenerateKey(c, t, read, env) == Answer(t, PublicKey(t.card.Slot(name)))
  {
    hide PublicKey, GenerateSlot, Answer;
  }

  /** The fingerprint stored with a generated key is that of its public parts and the time. */
  lemma GeneratedFingerprint(c: Crypto, a: Algorithm, env: Env)
    requires Generated(a, env.rsaKey, env.eccKey).Ok?
    requires if a.id == RSA then |ByteStrings.ToBytes(env.rsaKey.value.n)| < 65536
                                 && |ByteStrings.ToBytes(env.rsaKey.value.e)| < 65536
             else |env.eccKey.value.publicKey| < 0x1_0000_0000 - 8
    ensures FingerprintOf(c, a, Generated(a, env.rsaKey, env.eccKey).value.publicKey, env.now)
         == c.fingerprint(a, if a.id == RSA then [ByteStrings.ToBytes(env.rsaKey.value.n),
                                                  ByteStrings.ToBytes(env.rsaKey.value.e)]
                             else [env.eccKey.value.publicKey], env.now)
  {
    hide PublicPoint, EccPublicObject, RsaPublicObject, Rsa.GetModulus, Rsa.GetExponent, Rsa.PublicBlob,
      ByteStrings.ToBytes;
    if a.id == RSA { NewRsaKeyReads(env.rsaKey.value); } else { PointReads(env.eccKey.value.publicKey); }
  }

  /** A key pair that the library generated with two different primes. */
  ghost predicate TwoPrimes(key: Rsa.PrivateKey) {
    && Rsa.RsaKey(key.p, key.q, key.n) && |ByteStrings.ToBytes(key.n)| < 65536 && |ByteStrings.ToBytes(key.e)| < 65536
    && |ByteStrings.ToBytes(key.p)| < 65536 && |ByteStrings.ToBytes(key.q)| < 65536
  }

  /** After a key of two different primes is generated in the signature slot, PSO:CDS answers
      with a signature that verifies under its modulus and exponent, or says what is missing. */
  lemma GenerateThenSign(c: Crypto, s: State, cmd: Apdu, env: Env, le: Option<nat>, info: Bytes)
    returns (signature: Bytes)
    requires cmd.p1 == 0x80 && GenerateKey(c, s, cmd, env).response.sw1 in {0x90, 0x61}
    requires GenerateSlot(cmd.data) == Some(Sig) && s.card.sig.algorithm.id == RSA
    requires env.rsaKey.Some? && TwoPrimes(env.rsaKey.value)
    ensures var t, key := GenerateKey(c, s, cmd, env).state.(currentLe := le), env.rsaKey.value;
      key.p >= 1 && key.q >= 1
      && OpenPgpImport.SignedReply(c, t, Sign(c, t, info), info, signature, key.n, key.e, key.p, key.q)
  {
    hide GenerateKey, CreateResponse, Sign, OpenPgpImport.SignedReply, Prime, Rsa.GetModulus, Rsa.ReadFields,
      Rsa.GetExponent, Rsa.PublicBlob, Rsa.PrivateBlob, RsaPublicObject, FingerprintOf, ToNat, ByteStrings.ToBytes;
    var key := env.rsaKey.value;
    var e, p, q := ByteStrings.ToBytes(key.e), ByteStrings.ToBytes(key.p), ByteStrings.ToBytes(key.q);
    GeneratedIsStored(c, s, cmd, env);
    ToBytesValue(key.n);
    ToBytesValue(key.e);
    ToBytesValue(key.p);
    ToBytesValue(key.q);
    Rsa.PrivateBlobReads(e, p, q);
    NewRsaKeyReads(key);
    assert Product(key.p, key.q) == key.n;
    signature := OpenPgpImport.StoredSigns(c, GenerateKey(c, s, cmd, env).state.(currentLe := le), e, p, q, info);
  }

  // ---------------------------------------------------------------- ECDH

  /** The ephemeral point of a cipher text built with the encoder is the one that is used. */
  lemma CipherTextReads(point: Bytes)
    requires |point| < 0x1_0000_0000 - 16
    ensures EphemeralPoint(Tlv.Encode(0xA6, EccPublicObject(point))) == Some(point)
  {
    hide ValueOf, Tlv.Encode, PublicPoint;
    EncodedSize(0x86, point);
    EncodedSize(0x7F49, Tlv.Encode(0x86, point));
    PointReads(point);
    ValueAlone(0xA6, EccPublicObject(point));
  }
}

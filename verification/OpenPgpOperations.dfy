/** What INTERNAL AUTHENTICATE, PSO:DECIPHER and elliptic-curve signing answer with a stored key. */
module OpenPgpOperations {
  import opened Wrappers
  import opened ByteStrings
  import opened Apdu
  import opened OpenPgpCard
  import opened KeyObjects
  import opened OpenPgpKeys
  import opened OpenPgp
  import opened OpenPgpRuns
  import opened OpenPgpImport
  import opened OpenPgpKeyRuns
  import opened OpenPgpResponses
  import opened NumberTheory
  import OpenPgpGeneration
  import PinManager
  import Rsa
  import Tlv

  /** A status word without data. */
  predicate IsStatus(r: Response, sw1: Byte, sw2: Byte) { r == Response([], sw1, sw2) }

  /** Joined over the first answer and as many GET RESPONSE commands as there are bytes, whatever
      positive Le they have, the reply carries exactly this data. */
  ghost predicate Carries(r: Reply, data: Bytes) {
    && (r.response.sw1 == 0x90 ==> r.response == Response(data, 0x90, 0x00))
    && (r.response.sw1 == 0x90 || r.response.sw1 == 0x61)
    && forall les: seq<Option<nat>> :: Positive(les) && |les| >= |data| && r.response.sw1 == 0x61 ==>
         Joined([r.response] + Gets(r.state, les)) == data
  }

  lemma ResponseCarries(s: State, data: Bytes)
    ensures Carries(CreateResponse(s, data), data)
  {
    hide Gets, Joined;
    if |data| > Wanted(s.currentLe) {
      forall les: seq<Option<nat>> | Positive(les) && |les| >= |data|
        ensures Joined([CreateResponse(s, data).response] + Gets(CreateResponse(s, data).state, les)) == data
      {
        ResponseDelivered(s, data, les);
      }
    }
  }

  /** What a response leaves besides the buffer. */
  predicate OnlyBuffers(s: State, t: State) {
    t == s.(responseBuffer := t.responseBuffer, responseOffset := t.responseOffset)
  }

  lemma ResponseBuffers(s: State, data: Bytes)
    ensures OnlyBuffers(s, CreateResponse(s, data).state)
  {}

  // ---------------------------------------------------------------- INTERNAL AUTHENTICATE

  /** The reply of INTERNAL AUTHENTICATE with an RSA key (n, e) from p and q: it carries a number
      below n whose power to e is the data modulo n, as few bytes as possible but an eighth of the
      key's size; or the status word tells what is missing. Nothing but the response buffer changes. */
  ghost predicate AuthenticatedReply(c: Crypto, s: State, r: Reply, data: Bytes, answer: Bytes, n: nat, e: nat, p: nat,
                                     q: nat)
    requires n > 0 && p >= 1 && q >= 1
  {
    && OnlyBuffers(s, r.state)
    && if !s.security.pw1Other then IsStatus(r.response, 0x69, 0x82)
       else if !s.card.aut.HasKey() then IsStatus(r.response, 0x6A, 0x88)
       else if !Rsa.Usable(n, e, p, q, c.acceptsKey) then IsStatus(r.response, 0x64, 0x00)
       else
         && Carries(r, answer) && ToNat(answer) < n && Pow(ToNat(answer), e) % n == ToNat(data) % n
         && answer == Rsa.AtLeast((Rsa.KeySize(n) + 7) / 8, ByteStrings.ToBytes(ToNat(answer)))
  }

  /** In every run from a state whose authentication slot holds a key of two different primes, as
      long as nothing replaces it, INTERNAL AUTHENTICATE, chained or not, answers so. */
  lemma AuthenticatesInRun(c: Crypto, s: State, es: seq<Event>, i: nat, cmd: Apdu, env: Env, e: Bytes, p: Bytes,
                           q: Bytes)
    returns (answer: Bytes)
    requires i <= |es| && NoneWrites(c, s, es, i, Aut) && HoldsKey(s.card.aut, e, p, q)
    requires Prime(ToNat(p)) && Prime(ToNat(q)) && ToNat(p) != ToNat(q)
    requires var h := Handled(StateAt(c, s, es, i), cmd); h.Some? && h.value.ins == INTERNAL_AUTHENTICATE
    ensures Product(ToNat(p), ToNat(q)) > 0
    ensures var now := StateAt(c, s, es, i);
            AuthenticatedReply(c, Ready(now, cmd), Process(c, now, cmd, env), Handled(now, cmd).value.data, answer,
                               Product(ToNat(p), ToNat(q)), ToNat(e), ToNat(p), ToNat(q))
  {
    hide Process, Dispatch, Authenticate, CreateResponse, Modulus, Product, ToNat, Prime, Rsa.ReadFields,
      Rsa.GetModulus, Rsa.KeySize, AuthenticatedReply, NoneWrites;
    var now := StateAt(c, s, es, i);
    var h := Handled(now, cmd).value;
    KeyStays(c, s, es, i, Aut);
    HandledIs(c, now, cmd, env);
    OpenPgpKeyRuns.Routed(c, Ready(now, cmd), h, env);
    answer := StoredAuthenticates(c, Ready(now, cmd), e, p, q, h.data);
  }

  lemma StoredAuthenticates(c: Crypto, s: State, e: Bytes, p: Bytes, q: Bytes, data: Bytes) returns (answer: Bytes)
    requires Prime(ToNat(p)) && Prime(ToNat(q)) && ToNat(p) != ToNat(q) && HoldsKey(s.card.aut, e, p, q)
    ensures Product(ToNat(p), ToNat(q)) > 0
    ensures AuthenticatedReply(c, s, Authenticate(c, s, data), data, answer, Product(ToNat(p), ToNat(q)), ToNat(e),
                               ToNat(p), ToNat(q))
  {
    hide Rsa.ReadFields, Rsa.GetModulus, Rsa.KeySize, Rsa.RawSignatureStored, Rsa.Usable, ToNat, Modulus,
      CreateResponse, Carries, KeySlot.HasKey, Pow;
    var slot := s.card.aut;
    var made := Rsa.RawSignatureStored(slot.privateKey, slot.publicKey, data, c.acceptsKey);
    answer := if made.Ok? then made.value else [];
    assert ToNat(p) * ToNat(q) > 0;
    Rsa.RawExactly(slot.privateKey, slot.publicKey, e, p, q, Modulus(p, q), data, c.acceptsKey);
    Rsa.RawStoredOpens(slot.privateKey, slot.publicKey, e, p, q, data, c.acceptsKey);
    ResponseCarries(s, answer);
    ResponseBuffers(s, answer);
  }

  // ---------------------------------------------------------------- elliptic curves

  /** Ed25519, or ECDSA on P-256, P-384, P-521 or secp256k1. */
  predicate SignsWithCurve(a: Algorithm) {
    a.id == 0x16 || (a.id == 0x13 && (a.curveOid == NIST_P256 || a.curveOid == NIST_P384 || a.curveOid == NIST_P521
                                      || a.curveOid == SECP256K1))
  }

  /** The reply of an operation that needs a flag and a key and hands its input to the library. */
  ghost predicate LibraryReply(s: State, r: Reply, flag: bool, hasKey: bool, supported: bool, result: Option<Bytes>) {
    if !flag then r.state == s && IsStatus(r.response, 0x69, 0x82)
    else if !hasKey then r.state == s && IsStatus(r.response, 0x6A, 0x88)
    else if !supported then r.state == s && IsStatus(r.response, 0x6A, 0x81)
    else if result == None then r.state == s && IsStatus(r.response, 0x64, 0x00)
    else Carries(r, result.value)
  }

  /** In every run that does not replace the key of an elliptic-curve signature slot, PSO:CDS
      signs its data with exactly that private key. */
  lemma SignsEccInRun(c: Crypto, s: State, es: seq<Event>, i: nat, cmd: Apdu, env: Env)
    requires i <= |es| && NoneWrites(c, s, es, i, Sig) && s.card.sig.algorithm.id != RSA
    requires var h := Handled(StateAt(c, s, es, i), cmd); h.Some? && h.value.ins == PSO && P1P2(h.value) == 0x9E9A
    ensures var now, slot := StateAt(c, s, es, i), s.card.sig;
            LibraryReply(Ready(now, cmd), Process(c, now, cmd, env), now.security.pw1Sign, now.card.sig.HasKey(),
                         SignsWithCurve(slot.algorithm),
                         c.eccSign(slot.algorithm, slot.privateKey, Handled(now, cmd).value.data))
  {
    hide Process, Dispatch, Sign, LibraryReply, NoneWrites, KeySlot.HasKey;
    var now := StateAt(c, s, es, i);
    var h := Handled(now, cmd).value;
    KeyStays(c, s, es, i, Sig);
    HandledIs(c, now, cmd, env);
    SignRouted(c, Ready(now, cmd), h, env);
    EccSigns(c, Ready(now, cmd), h.data);
  }

  lemma EccSigns(c: Crypto, s: State, data: Bytes)
    requires s.card.sig.algorithm.id != RSA
    ensures var slot := s.card.sig;
            LibraryReply(s, Sign(c, s, data), s.security.pw1Sign, slot.HasKey(), SignsWithCurve(slot.algorithm),
                         c.eccSign(slot.algorithm, slot.privateKey, data))
  {
    hide CreateResponse, Carries, KeySlot.HasKey;
    var made := c.eccSign(s.card.sig.algorithm, s.card.sig.privateKey, data);
    if made.Some? {
      ResponseCarries(s.(card := Counted(s.card), security := PinManager.Signed(s.security)), made.value);
    }
  }

  /** The same for INTERNAL AUTHENTICATE with an elliptic-curve authentication slot. */
  lemma AuthenticatesEccInRun(c: Crypto, s: State, es: seq<Event>, i: nat, cmd: Apdu, env: Env)
    requires i <= |es| && NoneWrites(c, s, es, i, Aut) && s.card.aut.algorithm.id != RSA
    requires var h := Handled(StateAt(c, s, es, i), cmd); h.Some? && h.value.ins == INTERNAL_AUTHENTICATE
    ensures var now, slot := StateAt(c, s, es, i), s.card.aut;
            LibraryReply(Ready(now, cmd), Process(c, now, cmd, env), now.security.pw1Other, now.card.aut.HasKey(),
                         SignsWithCurve(slot.algorithm),
                         c.eccSign(slot.algorithm, slot.privateKey, Handled(now, cmd).value.data))
  {
    hide Process, Dispatch, Authenticate, LibraryReply, NoneWrites, KeySlot.HasKey;
    var now := StateAt(c, s, es, i);
    var h := Handled(now, cmd).value;
    KeyStays(c, s, es, i, Aut);
    HandledIs(c, now, cmd, env);
    OpenPgpKeyRuns.Routed(c, Ready(now, cmd), h, env);
    EccAuthenticates(c, Ready(now, cmd), h.data);
  }

  lemma EccAuthenticates(c: Crypto, s: State, data: Bytes)
    requires s.card.aut.algorithm.id != RSA
    ensures var slot := s.card.aut;
            LibraryReply(s, Authenticate(c, s, data), s.security.pw1Other, slot.HasKey(),
                         SignsWithCurve(slot.algorithm), c.eccSign(slot.algorithm, slot.privateKey, data))
  {
    hide CreateResponse, Carries, KeySlot.HasKey;
    var made := c.eccSign(s.card.aut.algorithm, s.card.aut.privateKey, data);
    if made.Some? { ResponseCarries(s, made.value); }
  }

  // ---------------------------------------------------------------- PSO:DECIPHER

  /** A cipher text for an RSA slot: padding byte 00 before the encrypted bytes. */
  function RsaCipher(cipher: Bytes): Bytes { [0x00] + cipher }

  /** A cipher text for an ECDH slot: the ephemeral point as 86 in 7F49 in A6. */
  function EcdhCipher(point: Bytes): Bytes { Tlv.Encode(0xA6, Tlv.Encode(0x7F49, Tlv.Encode(0x86, point))) }

  /** The size of a point: 32 bytes on X25519, otherwise 04 and two coordinates. */
  function PointBytes(oid: Bytes): nat {
    if oid == X25519 then 32
    else if oid == NIST_P384 then 1 + 2 * 48
    else if oid == NIST_P521 then 1 + 2 * 66
    else 1 + 2 * 32
  }

  predicate AgreesOnCurve(oid: Bytes) {
    oid == X25519 || oid == NIST_P256 || oid == NIST_P384 || oid == NIST_P521 || oid == SECP256K1
  }

  /** In every run that does not replace the key of an RSA decryption slot, PSO:DECIPHER hands the
      bytes after 00 to the library, with the key that the slot's numbers determine. */
  lemma DeciphersRsaInRun(c: Crypto, s: State, es: seq<Event>, i: nat, cmd: Apdu, env: Env, cipher: Bytes, e: Bytes,
                          p: Bytes, q: Bytes)
    requires i <= |es| && NoneWrites(c, s, es, i, Dec) && HoldsKey(s.card.dec, e, p, q)
    requires ToNat(p) > 0 && ToNat(q) > 0
    requires var h := Handled(StateAt(c, s, es, i), cmd);
             h.Some? && h.value.ins == PSO && P1P2(h.value) == 0x8086 && h.value.data == RsaCipher(cipher)
    ensures var now, n := StateAt(c, s, es, i), Product(ToNat(p), ToNat(q));
      var d := Rsa.Inverse(ToNat(e), Rsa.Totient(ToNat(p), ToNat(q)));
      LibraryReply(Ready(now, cmd), Process(c, now, cmd, env), now.security.pw1Other, now.card.dec.HasKey(), true,
                   if Rsa.Usable(n, ToNat(e), ToNat(p), ToNat(q), c.acceptsKey)
                   then c.rsaDecrypt(Rsa.PrivateKey(n, ToNat(e), d.value, ToNat(p), ToNat(q)), cipher) else None)
  {
    hide Process, Dispatch, Decipher, LibraryReply, NoneWrites, KeySlot.HasKey, ToNat, Modulus, Product, Rsa.Usable,
      Rsa.Inverse, RsaCipher;
    var now := StateAt(c, s, es, i);
    KeyStays(c, s, es, i, Dec);
    HandledIs(c, now, cmd, env);
    DecipherRouted(c, Ready(now, cmd), Handled(now, cmd).value, env);
    RsaDeciphers(c, Ready(now, cmd), cipher, e, p, q);
  }

  lemma DecipherRouted(c: Crypto, s: State, h: Apdu, env: Env)
    requires !s.card.terminated && h.ins == PSO && P1P2(h) == DECIPHER
    ensures Dispatch(c, s, h, env) == Decipher(c, s, h.data)
  {
    hide Decipher;
  }

  lemma RsaDeciphers(c: Crypto, s: State, cipher: Bytes, e: Bytes, p: Bytes, q: Bytes)
    requires HoldsKey(s.card.dec, e, p, q) && ToNat(p) > 0 && ToNat(q) > 0
    ensures var n := Product(ToNat(p), ToNat(q));
      var d := Rsa.Inverse(ToNat(e), Rsa.Totient(ToNat(p), ToNat(q)));
      LibraryReply(s, Decipher(c, s, RsaCipher(cipher)), s.security.pw1Other, s.card.dec.HasKey(), true,
                   if Rsa.Usable(n, ToNat(e), ToNat(p), ToNat(q), c.acceptsKey)
                   then c.rsaDecrypt(Rsa.PrivateKey(n, ToNat(e), d.value, ToNat(p), ToNat(q)), cipher) else None)
  {
    hide CreateResponse, Carries, KeySlot.HasKey, ToNat, Modulus, Product, Rsa.Inverse, Rsa.ReadFields, Rsa.GetModulus,
      Rsa.Totient;
    assert RsaCipher(cipher)[1..] == cipher;
    var key := Rsa.StoredKey(s.card.dec.privateKey, s.card.dec.publicKey, c.acceptsKey);
    if key.Ok? && c.rsaDecrypt(key.value, cipher).Some? { ResponseCarries(s, c.rsaDecrypt(key.value, cipher).value); }
  }

  /** In every run that does not replace the key of an ECDH slot, PSO:DECIPHER agrees with the
      point of a built cipher text, if it has the size of the slot's curve, using that key. */
  lemma DeciphersEcdhInRun(c: Crypto, s: State, es: seq<Event>, i: nat, cmd: Apdu, env: Env, point: Bytes)
    requires i <= |es| && NoneWrites(c, s, es, i, Dec) && s.card.dec.algorithm.id == 0x12
    requires AgreesOnCurve(s.card.dec.algorithm.curveOid) && |point| == PointBytes(s.card.dec.algorithm.curveOid)
    requires var h := Handled(StateAt(c, s, es, i), cmd);
             h.Some? && h.value.ins == PSO && P1P2(h.value) == 0x8086 && h.value.data == EcdhCipher(point)
    ensures var now, slot := StateAt(c, s, es, i), s.card.dec;
            LibraryReply(Ready(now, cmd), Process(c, now, cmd, env), now.security.pw1Other, now.card.dec.HasKey(), true,
                         c.ecdh(slot.algorithm, slot.privateKey, point))
  {
    hide Process, Dispatch, Decipher, LibraryReply, NoneWrites, KeySlot.HasKey, EcdhCipher, AgreesOnCurve;
    var now := StateAt(c, s, es, i);
    KeyStays(c, s, es, i, Dec);
    HandledIs(c, now, cmd, env);
    DecipherRouted(c, Ready(now, cmd), Handled(now, cmd).value, env);
    EcdhDeciphers(c, Ready(now, cmd), point);
  }

  lemma EcdhDeciphers(c: Crypto, s: State, point: Bytes)
    requires s.card.dec.algorithm.id == ECDH && AgreesOnCurve(s.card.dec.algorithm.curveOid)
    requires |point| == PointBytes(s.card.dec.algorithm.curveOid)
    ensures LibraryReply(s, Decipher(c, s, EcdhCipher(point)), s.security.pw1Other, s.card.dec.HasKey(), true,
                         c.ecdh(s.card.dec.algorithm, s.card.dec.privateKey, point))
  {
    hide CreateResponse, Carries, KeySlot.HasKey, EphemeralPoint, Tlv.Encode;
    CipherReads(point);
    var made := c.ecdh(s.card.dec.algorithm, s.card.dec.privateKey, point);
    if made.Some? { ResponseCarries(s, made.value); }
  }

  lemma CipherReads(point: Bytes)
    requires |point| < 1000
    ensures EcdhCipher(point) != [] && EcdhCipher(point)[0] == 0xA6 && EphemeralPoint(EcdhCipher(point)) == Some(point)
  {
    EncodeTagFirst(Tlv.Encode(0x7F49, Tlv.Encode(0x86, point)));
    hide Tlv.Encode;
    OpenPgpGeneration.CipherTextReads(point);
  }

  lemma EncodeTagFirst(value: Bytes)
    ensures Tlv.Encode(0xA6, value) != [] && Tlv.Encode(0xA6, value)[0] == 0xA6
  {}

  /** Any other input of PSO:DECIPHER is refused: none, another padding byte, or one that does not
      suit the slot. */
  lemma DecipherRefuses(c: Crypto, s: State, data: Bytes)
    requires s.security.pw1Other && s.card.dec.HasKey()
    requires data == [] || data[0] !in {0x00, 0xA6} || (data[0] == 0x00 && s.card.dec.algorithm.id != RSA)
             || (data[0] == 0xA6 && s.card.dec.algorithm.id != ECDH)
    ensures Decipher(c, s, data).state == s && IsStatus(Decipher(c, s, data).response, 0x6A, 0x80)
  {
    hide KeySlot.HasKey;
  }

  // ---------------------------------------------------------------- elliptic-curve import

  /** The private key size of a slot: 48 bytes on P-384, 66 on P-521, otherwise 32. */
  function KeyBytes(a: Algorithm): nat {
    if a.id != 0x16 && a.curveOid == NIST_P384 then 48 else if a.id != 0x16 && a.curveOid == NIST_P521 then 66 else 32
  }

  predicate ImportsCurve(a: Algorithm) { a.id == 0x16 || (a.id in {0x12, 0x13} && AgreesOnCurve(a.curveOid)) }

  /** The other way round, byte by byte. */
  predicate Mirrored(x: Bytes, y: Bytes) { |x| == |y| && forall i :: 0 <= i < |x| ==> x[i] == y[|y| - 1 - i] }

  lemma {:induction false} ReversedMirrors(x: Bytes)
    ensures Mirrored(Reversed(x), x)
  {
    if x != [] {
      ReversedMirrors(x[1..]);
      var r := Reversed(x[1..]);
      assert forall i :: 0 <= i < |r| ==> Reversed(x)[i] == r[i];
    }
  }

  /** Importing a private key of the right size into an elliptic-curve slot, with PW3 verified, when
      the library knows its public key: an X25519 key is stored reversed, any other as it came, and
      the stored public key object holds the library's point; nothing else changes. */
  lemma EccImportStores(c: Crypto, s: State, cmd: Apdu, name: SlotName, key: Bytes) returns (stored: Bytes)
    requires s.security.pw3 && cmd.p1 == 0x3F && cmd.p2 == 0xFF
    requires cmd.data == Tlv.Encode(0x4D, Tlv.Encode(CrtTag(name), []) + Tlv.Encode(0x5F48, key))
    requires ImportsCurve(s.card.Slot(name).algorithm) && |key| == KeyBytes(s.card.Slot(name).algorithm)
    ensures var a := s.card.Slot(name).algorithm;
            if a.id == 0x12 && a.curveOid == X25519 then Mirrored(stored, key) else stored == key
    ensures var r, slot := PutDataOdd(c, s, cmd), s.card.Slot(name);
            var public := c.eccPublicKey(slot.algorithm, stored);
            public.Some? && |public.value| < 0x1_0000_0000 - 8 ==>
              var slot' := r.state.card.Slot(name);
              && r.response == Response([], 0x90, 0x00) && slot'.privateKey == stored
              && PublicPoint(slot'.publicKey) == Some(public.value)
              && r.state == s.(card := s.card.WithSlot(name, slot.(privateKey := slot'.privateKey,
                                                                    publicKey := slot'.publicKey)))
  {
    hide Tlv.Encode, Tlv.Forest, CrtSlot, Tlv.FirstWith, PublicPoint, EccPublicObject, Mirrored;
    var a := s.card.Slot(name).algorithm;
    EccHeaderReads(name, key);
    SizesAgree(a);
    ReversedMirrors(key);
    stored := EccStored(a, key);
    if c.eccPublicKey(a, stored).Some? && |c.eccPublicKey(a, stored).value| < 0x1_0000_0000 - 8 {
      PointReads(c.eccPublicKey(a, stored).value);
    }
  }

  lemma SizesAgree(a: Algorithm)
    requires ImportsCurve(a)
    ensures EccSize(a) == Some(KeyBytes(a)) && a.id != RSA
  {}
}

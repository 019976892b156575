/** Where the OpenPGP applet panics instead of answering, and how a host brings it there. */
module OpenPgpPanics {
  import opened Wrappers
  import opened ByteStrings
  import opened Tlv
  import opened TlvRoundTrip
  import opened Apdu
  import opened OpenPgpCard
  import opened PinManager
  import opened KeyObjects
  import opened OpenPgpKeys
  import opened OpenPgp
  import opened OpenPgpRuns
  import opened OpenPgpImport
  import Rsa

  // ---------------------------------------------------------------- wrapping lengths

  /** The declared lengths exceed 64 bits together, and their wrapped sum is the size of the key data. */
  predicate Overflows(l: Lengths, size: nat) {
    && l.e > 0 && l.p > 0 && l.q > 0
    && l.e + l.p + l.q >= WORD && (l.e + l.p + l.q) % WORD == size
  }

  /** Splitting key data by 64-bit lengths panics exactly in that case; otherwise it refuses
      exactly a zero length or a sum that is not the size. */
  lemma SplitPanics(slot: KeySlot, l: Lengths, key: Bytes)
    requires l.e < WORD && l.p < WORD && l.q < WORD
    ensures SplitRsa(slot, l, key) == Err(PANIC) <==> Overflows(l, |key|)
    ensures SplitRsa(slot, l, key) == Err(WRONG_DATA)
       <==> l.e == 0 || l.p == 0 || l.q == 0 || (l.e + l.p + l.q) % WORD != |key|
    ensures SplitRsa(slot, l, key).Ok? ==> l.e + l.p + l.q == |key|
  {
    hide Modulus;
    Wrapped(l.e + l.p);
    Wrapped(l.e + l.p + l.q);
  }

  lemma Wrapped(x: nat)
    requires x < 3 * WORD
    ensures x % WORD == if x < WORD then x else if x < 2 * WORD then x - WORD else x - 2 * WORD
  {}

  /** The length template of a header list. */
  function TemplateOf(data: Bytes): Option<Bytes> {
    var ts := Forest(data, true);
    if ts == [] then None
    else match FirstWith(Forest(ts[0].value, true), 0x7F48) case Some(t) => Some(t.value) case None => None
  }

  /** The import addresses an RSA slot with lengths of that kind. */
  predicate ImportPanics(card: Card, data: Bytes) {
    && Target(data).Some? && TemplateOf(data).Some?
    && card.Slot(Target(data).value.0).algorithm.id == RSA
    && Overflows(CrtLengths(TemplateOf(data).value, Lengths(0, 0, 0)), |Target(data).value.1|)
  }

  /** An import panics exactly then, with the card as it was. */
  lemma ImportPanicsExactly(c: Crypto, card: Card, data: Bytes)
    ensures var i := ImportKey(c, card, data);
      && (i.response == Error(PANIC) <==> ImportPanics(card, data))
      && (ImportPanics(card, data) ==> i.card == card)
  {
    hide Forest, CrtSlot, FirstWith, CrtLengths, EccSize, EccPublicObject, EccStored, SplitRsa, Overflows;
    if Target(data).Some? && TemplateOf(data).Some? {
      var (name, key) := Target(data).value;
      var t := TemplateOf(data).value;
      LengthsAreWords(t, Lengths(0, 0, 0));
      SplitPanics(card.Slot(name), CrtLengths(t, Lengths(0, 0, 0)), key);
      SplitErrors(card.Slot(name), CrtLengths(t, Lengths(0, 0, 0)), key);
    }
  }

  lemma SplitErrors(slot: KeySlot, l: Lengths, key: Bytes)
    ensures SplitRsa(slot, l, key).Err? ==> SplitRsa(slot, l, key).error in {PANIC, WRONG_DATA}
  {}

  /** Lengths 2^64 - 1, 1 and 1 in twelve bytes. */
  const WRAPPING: Bytes := [0x91, 0x88, 0xFF, 0xFF, 0xFF, 0xFF, 0xFF, 0xFF, 0xFF, 0xFF, 0x92, 0x01, 0x93, 0x01]

  lemma WrappingReads()
    ensures CrtLengths(WRAPPING, Lengths(0, 0, 0)) == Lengths(WORD - 1, 1, 1)
  {
    AllOnes();
    var rest := WRAPPING[1..];
    assert rest[1..9] == [0xFF, 0xFF, 0xFF, 0xFF, 0xFF, 0xFF, 0xFF, 0xFF];
    assert BerLength(rest) == Field(WORD - 1, 9);
    assert WRAPPING[10..] == [0x92, 0x01, 0x93, 0x01];
    var l := Lengths(WORD - 1, 0, 0);
    assert CrtLengths(WRAPPING, Lengths(0, 0, 0)) == CrtLengths([0x92, 0x01, 0x93, 0x01], l);
    var tail: Bytes := [0x92, 0x01, 0x93, 0x01];
    assert tail[1..] == [0x01, 0x93, 0x01] && tail[2..] == [0x93, 0x01];
    assert CrtLengths(tail, l) == CrtLengths([0x93, 0x01], l.(p := 1));
    var last: Bytes := [0x93, 0x01];
    assert last[1..] == [0x01] && last[2..] == [];
  }

  lemma AllOnes()
    ensures ToNat([0xFF, 0xFF, 0xFF, 0xFF, 0xFF, 0xFF, 0xFF, 0xFF]) == WORD - 1
  {
    Value4(0xFF, 0xFF, 0xFF, 0xFF);
    var four: Bytes := [0xFF, 0xFF, 0xFF, 0xFF];
    Appended(four, 0xFF);
    Appended(four + [0xFF], 0xFF);
    Appended(four + [0xFF] + [0xFF], 0xFF);
    Appended(four + [0xFF] + [0xFF] + [0xFF], 0xFF);
    assert four + [0xFF] + [0xFF] + [0xFF] + [0xFF] == [0xFF, 0xFF, 0xFF, 0xFF, 0xFF, 0xFF, 0xFF, 0xFF];
  }

  lemma Appended(s: Bytes, b: Byte)
    ensures ToNat(s + [b]) == 256 * ToNat(s) + b
  {
    assert (s + [b])[..|s|] == s;
  }

  /** Any RSA slot is brought to a panic by a header list with those lengths and one key byte. */
  lemma WrappingImportPanics(c: Crypto, card: Card, name: SlotName, k: Byte)
    requires card.Slot(name).algorithm.id == RSA
    ensures ImportKey(c, card, Encode(0x4D, ListBody(name, WRAPPING, [k]))) == Imported(card, Error(PANIC))
  {
    hide Forest, Encode, CrtLengths, ImportKey;
    ListSize(name, WRAPPING, [k]);
    ListReads(name, WRAPPING, [k]);
    PartsFound(name, WRAPPING, Children(0x7F48, WRAPPING, true), [k]);
    WrappingReads();
    Wrapped(WORD + 1);
    ImportPanicsExactly(c, card, Encode(0x4D, ListBody(name, WRAPPING, [k])));
  }

  lemma ListSize(name: SlotName, t: Bytes, key: Bytes)
    ensures |ListBody(name, t, key)| <= |t| + |key| + 24
  {}

  // ---------------------------------------------------------------- zero primes

  predicate ZeroPrime(slot: KeySlot) { slot.algorithm.id == RSA && Rsa.ZeroPrime(slot.privateKey, slot.publicKey) }

  /** Key operations on an RSA slot panic exactly for a readable key with a zero prime. */
  lemma OperationsPanic(c: Crypto, slot: KeySlot, data: Bytes)
    ensures SignData(c, slot, data) == Failed(Panicked) <==> ZeroPrime(slot)
    ensures AuthenticateData(c, slot, data) == Failed(Panicked) <==> ZeroPrime(slot)
    ensures data != [] ==> (DecipherData(c, slot, data) == Failed(Panicked) <==> data[0] == 0x00 && ZeroPrime(slot))
  {
    hide Rsa.SignatureStored, Rsa.RawSignatureStored, Rsa.StoredKey, Rsa.ZeroPrime, EphemeralPoint, PointSize;
    Rsa.UnderflowsExactly(slot.privateKey, slot.publicKey, [], data, c.acceptsKey);
  }

  /** An imported key is of that kind exactly if p or q was sent as zero. */
  lemma ImportedZeroPrime(c: Crypto, s: State, cmd: Apdu, name: SlotName, e: Bytes, p: Bytes, q: Bytes)
    requires Component(e) && Component(p) && Component(q)
    requires s.security.pw3 && s.card.Slot(name).algorithm.id == RSA
    requires cmd.p1 == 0x3F && cmd.p2 == 0xFF && cmd.data == HeaderList(name, e, p, q)
    ensures PutDataOdd(c, s, cmd).response == Success([])
    ensures ZeroPrime(PutDataOdd(c, s, cmd).state.card.Slot(name)) <==> ToNat(p) == 0 || ToNat(q) == 0
  {
    hide ImportKey, HeaderList, Rsa.GetModulus, Rsa.ReadFields, Rsa.PrivateBlob, Rsa.PublicBlob, ToNat, Modulus;
    ImportStores(c, s.card, name, e, p, q);
    Rsa.PrivateBlobReads(e, p, q);
    ModulusIsRead(Modulus(p, q), e);
  }

  /** So signing, authenticating and deciphering with the imported key panic exactly then. */
  lemma ImportedKeyPanics(c: Crypto, s: State, cmd: Apdu, name: SlotName, e: Bytes, p: Bytes, q: Bytes, data: Bytes)
    requires Component(e) && Component(p) && Component(q)
    requires s.security.pw3 && s.card.Slot(name).algorithm.id == RSA
    requires cmd.p1 == 0x3F && cmd.p2 == 0xFF && cmd.data == HeaderList(name, e, p, q)
    ensures var slot, zero := PutDataOdd(c, s, cmd).state.card.Slot(name), ToNat(p) == 0 || ToNat(q) == 0;
      && (SignData(c, slot, data) == Failed(Panicked) <==> zero)
      && (AuthenticateData(c, slot, data) == Failed(Panicked) <==> zero)
      && (DecipherData(c, slot, [0x00] + data) == Failed(Panicked) <==> zero)
  {
    hide PutDataOdd, HeaderList, SignData, AuthenticateData, DecipherData, ZeroPrime, ToNat;
    var slot := PutDataOdd(c, s, cmd).state.card.Slot(name);
    ImportedZeroPrime(c, s, cmd, name, e, p, q);
    OperationsPanic(c, slot, data);
    OperationsPanic(c, slot, [0x00] + data);
  }

  lemma ModulusIsRead(n: Bytes, e: Bytes)
    ensures Rsa.GetModulus(Rsa.PublicBlob(n, e)).Some?
  {
    var d := Rsa.PublicBlob(n, e);
    assert d[0] == U16(|n|)[0] && d[1] == U16(|n|)[1];
    U16Reads(|n|);
  }

  // ---------------------------------------------------------------- the applet

  /** The handler of the command panics. */
  predicate HandlerPanics(s: State, h: Apdu) {
    if h.ins == PUT_DATA_ODD then h.p1 == 0x3F && h.p2 == 0xFF && s.security.pw3 && ImportPanics(s.card, h.data)
    else if h.ins == PSO && P1P2(h) == CDS then s.security.pw1Sign && s.card.sig.HasKey() && ZeroPrime(s.card.sig)
    else if h.ins == PSO && P1P2(h) == DECIPHER then
      s.security.pw1Other && s.card.dec.HasKey() && h.data != [] && h.data[0] == 0x00 && ZeroPrime(s.card.dec)
    else h.ins == INTERNAL_AUTHENTICATE && s.security.pw1Other && s.card.aut.HasKey() && ZeroPrime(s.card.aut)
  }

  predicate Panics(s: State, cmd: Apdu) { Handled(s, cmd).Some? && HandlerPanics(s, Handled(s, cmd).value) }

  /** A command is left without an answer exactly then: an import with wrapping lengths, or a
      permitted operation with a zero prime. Card, PINs and flags stay as they were. */
  lemma PanicsExactly(c: Crypto, s: State, cmd: Apdu, env: Env)
    ensures Process(c, s, cmd, env).response == Error(PANIC) <==> Panics(s, cmd)
    ensures Panics(s, cmd) ==>
              var s' := Process(c, s, cmd, env).state;
              s'.card == s.card && s'.pins == s.pins && s'.security == s.security
  {
    hide Dispatch, Process, ImportPanics, ZeroPrime, KeySlot.HasKey;
    if Handled(s, cmd).Some? {
      HandledIs(c, s, cmd, env);
      HandlerPanicsExactly(c, Ready(s, cmd), Handled(s, cmd).value, env);
    } else {
      UnhandledAnswers(c, s, cmd, env);
    }
  }

  lemma UnhandledAnswers(c: Crypto, s: State, cmd: Apdu, env: Env)
    requires Handled(s, cmd).None?
    ensures Process(c, s, cmd, env).response != Error(PANIC)
  {}

  lemma HandlerPanicsExactly(c: Crypto, s: State, h: Apdu, env: Env)
    requires !s.card.terminated || h.ins == ACTIVATE_FILE
    ensures Dispatch(c, s, h, env).response == Error(PANIC) <==> HandlerPanics(s, h)
    ensures HandlerPanics(s, h) ==> Dispatch(c, s, h, env).state == s
  {
    hide Dispatch, ImportPanics, ZeroPrime, PutDataOdd, SecurityOperation, Authenticate, ImportKey, SignData,
      DecipherData, AuthenticateData, KeySlot.HasKey;
    if h.ins in {PUT_DATA_ODD, PSO, INTERNAL_AUTHENTICATE} {
      Routed(c, s, h, env);
      ImportPanicsExactly(c, s.card, h.data);
      OddAnswers(c, s, h);
      OperationsPanic(c, s.card.sig, h.data);
      OperationsPanic(c, s.card.dec, h.data);
      OperationAnswers(c, s, h);
      OperationsPanic(c, s.card.aut, h.data);
      AuthenticateAnswers(c, s, h.data);
    } else {
      OthersAnswer(c, s, h, env);
    }
  }

  lemma Routed(c: Crypto, s: State, h: Apdu, env: Env)
    requires !s.card.terminated
    ensures h.ins == PUT_DATA_ODD ==> Dispatch(c, s, h, env) == PutDataOdd(c, s, h)
    ensures h.ins == PSO ==> Dispatch(c, s, h, env) == SecurityOperation(c, s, h)
    ensures h.ins == INTERNAL_AUTHENTICATE ==> Dispatch(c, s, h, env) == Authenticate(c, s, h.data)
  {
    hide PutDataOdd, SecurityOperation, Authenticate;
  }

  lemma OddAnswers(c: Crypto, s: State, h: Apdu)
    ensures PutDataOdd(c, s, h).response == Error(PANIC)
       <==> h.p1 == 0x3F && h.p2 == 0xFF && s.security.pw3 && ImportKey(c, s.card, h.data).response == Error(PANIC)
    ensures PutDataOdd(c, s, h).response == Error(PANIC) ==>
              PutDataOdd(c, s, h).state == s.(card := ImportKey(c, s.card, h.data).card)
  {
    hide ImportKey;
  }

  lemma OperationAnswers(c: Crypto, s: State, h: Apdu)
    ensures SecurityOperation(c, s, h).response == Error(PANIC)
       <==> || (P1P2(h) == CDS && s.security.pw1Sign && s.card.sig.HasKey()
                && SignData(c, s.card.sig, h.data) == Failed(Panicked))
            || (P1P2(h) == DECIPHER && s.security.pw1Other && s.card.dec.HasKey() && h.data != []
                && DecipherData(c, s.card.dec, h.data) == Failed(Panicked))
    ensures SecurityOperation(c, s, h).response == Error(PANIC) ==> SecurityOperation(c, s, h).state == s
  {
    hide SignData, DecipherData, KeySlot.HasKey;
  }

  lemma AuthenticateAnswers(c: Crypto, s: State, data: Bytes)
    ensures Authenticate(c, s, data).response == Error(PANIC)
       <==> s.security.pw1Other && s.card.aut.HasKey() && AuthenticateData(c, s.card.aut, data) == Failed(Panicked)
    ensures Authenticate(c, s, data).response == Error(PANIC) ==> Authenticate(c, s, data).state == s
  {
    hide AuthenticateData, KeySlot.HasKey;
  }

  lemma OthersAnswer(c: Crypto, s: State, h: Apdu, env: Env)
    requires h.ins !in {PUT_DATA_ODD, PSO, INTERNAL_AUTHENTICATE} && (!s.card.terminated || h.ins == ACTIVATE_FILE)
    ensures Dispatch(c, s, h, env).response != Error(PANIC)
  {
    hide DataObject, GetAccess, Verify, Change, ResetWithCode, NewPw1, PutAccess, AlgorithmFromBytes, Generated,
      FingerprintOf, PublicKey, GenerateSlot, Stripped;
    if h.ins == PUT_DATA { StoreAnswers(c, s.card, P1P2(h), h.data); }
    if h.ins == GENERATE_KEY { GenerationAnswers(c, s, h, env); }
  }

  lemma StoreAnswers(c: Crypto, card: Card, tag: nat, data: Bytes)
    ensures StoreObject(c, card, tag, data).Err? ==> StoreObject(c, card, tag, data).error > 0x6000
  {
    hide AlgorithmFromBytes, ReadTimestamp;
  }

  lemma GenerationAnswers(c: Crypto, s: State, h: Apdu, env: Env)
    ensures GenerateKey(c, s, h, env).response != Error(PANIC)
  {
    hide FingerprintOf, GenerateSlot, NewRsaKey, NewEccKey, GeneratesEcc, RsaPublicObject, Rsa.GetModulus,
      Rsa.GetExponent;
  }
}

/** RSA key import: from an Extended Header List to the stored key blobs. */
module OpenPgpImport {
  import opened Wrappers
  import opened ByteStrings
  import opened Tlv
  import opened TlvRoundTrip
  import opened Apdu
  import opened OpenPgpCard
  import opened KeyObjects
  import PinManager
  import opened OpenPgpKeys
  import opened OpenPgp
  import opened NumberTheory
  import Rsa

  // ---------------------------------------------------------------- what a host sends

  function CrtTag(name: SlotName): nat { match name case Sig => 0xB6 case Dec => 0xB8 case Aut => 0xA4 }

  /** The component lengths: tags 91, 92 and 93, each with a BER length and no value. */
  function Template(e: Bytes, p: Bytes, q: Bytes): Bytes {
    [0x91] + (EncodeLength(|e|) + ([0x92] + (EncodeLength(|p|) + ([0x93] + (EncodeLength(|q|) + [])))))
  }

  function HeaderBody(name: SlotName, e: Bytes, p: Bytes, q: Bytes): Bytes {
    ListBody(name, Template(e, p, q), e + p + q)
  }

  function HeaderList(name: SlotName, e: Bytes, p: Bytes, q: Bytes): Bytes {
    Encode(0x4D, HeaderBody(name, e, p, q))
  }

  predicate Component(x: Bytes) { 1 <= |x| < 65536 }

  // ---------------------------------------------------------------- reading it

  /** On a length the parser accepts, the import reads the same. */
  lemma BerLengthAgrees(data: Bytes)
    requires LengthAt(data).Ok?
    ensures BerLength(data) == LengthAt(data).value
  {
    LengthShrinks(data);
  }

  /** Reading one tag and length of the template. */
  lemma LengthsStep(tag: Byte, n: nat, rest: Bytes, found: Lengths)
    requires n < 65536 && tag in {0x91, 0x92, 0x93}
    ensures CrtLengths([tag] + (EncodeLength(n) + rest), found)
         == CrtLengths(rest, if tag == 0x91 then found.(e := n) else if tag == 0x92 then found.(p := n)
                             else found.(q := n))
  {
    hide EncodeLength;
    var code := EncodeLength(n);
    var data := [tag] + (code + rest);
    LengthReads(n, rest);
    BerLengthAgrees(code + rest);
    assert data[1..] == code + rest;
    assert data[1 + |code|..] == rest;
  }

  lemma TemplateReads(e: Bytes, p: Bytes, q: Bytes)
    requires Component(e) && Component(p) && Component(q)
    ensures CrtLengths(Template(e, p, q), Lengths(0, 0, 0)) == Lengths(|e|, |p|, |q|)
  {
    hide EncodeLength;
    var third := [0x93] + (EncodeLength(|q|) + []);
    var second := [0x92] + (EncodeLength(|p|) + third);
    LengthsStep(0x91, |e|, second, Lengths(0, 0, 0));
    LengthsStep(0x92, |p|, third, Lengths(|e|, 0, 0));
    LengthsStep(0x93, |q|, [], Lengths(|e|, |p|, 0));
  }

  lemma Sizes(name: SlotName, e: Bytes, p: Bytes, q: Bytes)
    requires Component(e) && Component(p) && Component(q)
    ensures |Template(e, p, q)| < 100 && |e + p + q| < 200000 && |HeaderBody(name, e, p, q)| < LIMIT
  {}

  lemma HeaderReads(name: SlotName, e: Bytes, p: Bytes, q: Bytes)
    requires Component(e) && Component(p) && Component(q)
    ensures var t := Template(e, p, q); var tag := CrtTag(name);
      && Forest(HeaderList(name, e, p, q), true) == [Tlv(0x4D, HeaderBody(name, e, p, q), [])]
      && Forest(HeaderBody(name, e, p, q), true)
         == [Tlv(tag, [], [])] + ([Tlv(0x7F48, t, Children(0x7F48, t, true))] + [Tlv(0x5F48, e + p + q, [])])
  {
    hide Forest, Encode, Template;
    Sizes(name, e, p, q);
    ListReads(name, Template(e, p, q), e + p + q);
  }

  /** A header list with any length template and any key data. */
  function ListBody(name: SlotName, t: Bytes, key: Bytes): Bytes {
    Encode(CrtTag(name), []) + (Encode(0x7F48, t) + Encode(0x5F48, key))
  }

  lemma ListReads(name: SlotName, t: Bytes, key: Bytes)
    requires |t| < LIMIT && |key| < LIMIT && |ListBody(name, t, key)| < LIMIT
    ensures Forest(Encode(0x4D, ListBody(name, t, key)), true) == [Tlv(0x4D, ListBody(name, t, key), [])]
    ensures Forest(ListBody(name, t, key), true)
         == [Tlv(CrtTag(name), [], [])] + ([Tlv(0x7F48, t, Children(0x7F48, t, true))] + [Tlv(0x5F48, key, [])])
  {
    hide Forest, Encode;
    var body := ListBody(name, t, key);
    EmptyForest();
    ForestCons(0x4D, body, []);
    ForestCons(0x5F48, key, []);
    assert Encode(0x4D, body) + [] == Encode(0x4D, body) && Encode(0x5F48, key) + [] == Encode(0x5F48, key);
    ForestCons(0x7F48, t, Encode(0x5F48, key));
    ForestCons(CrtTag(name), [], Encode(0x7F48, t) + Encode(0x5F48, key));
  }

  /** The three parts are found among the parsed objects. */
  lemma PartsFound(name: SlotName, t: Bytes, subs: seq<Tlv>, key: Bytes)
    ensures var ts := [Tlv(CrtTag(name), [], [])] + ([Tlv(0x7F48, t, subs)] + [Tlv(0x5F48, key, [])]);
      && CrtSlot(ts) == Some(name)
      && FirstWith(ts, 0x7F48) == Some(Tlv(0x7F48, t, subs))
      && FirstWith(ts, 0x5F48) == Some(Tlv(0x5F48, key, []))
  {
    var ts := [Tlv(CrtTag(name), [], [])] + ([Tlv(0x7F48, t, subs)] + [Tlv(0x5F48, key, [])]);
    assert ts[1..] == [Tlv(0x7F48, t, subs)] + [Tlv(0x5F48, key, [])];
    assert ts[1..][1..] == [Tlv(0x5F48, key, [])];
    assert FirstWith(ts, 0x5F48) == FirstWith(ts[1..], 0x5F48) == FirstWith(ts[1..][1..], 0x5F48);
  }

  /** The slot is that of the first control reference template, wherever it stands; without one
      there is none. */
  lemma {:induction false} SlotIsFirst(ts: seq<Tlv>)
    ensures CrtSlot(ts) == None <==> forall i :: 0 <= i < |ts| ==> ts[i].tag !in {0xB6, 0xB8, 0xA4}
    ensures CrtSlot(ts).Some? ==>
              exists i :: 0 <= i < |ts| && ts[i].tag == CrtTag(CrtSlot(ts).value)
                          && forall j :: 0 <= j < i ==> ts[j].tag !in {0xB6, 0xB8, 0xA4}
  {
    if ts != [] {
      SlotIsFirst(ts[1..]);
      assert forall i :: 1 <= i < |ts| ==> ts[i] == ts[1..][i - 1];
      if ts[0].tag !in {0xB6, 0xB8, 0xA4} {
        assert CrtSlot(ts) == CrtSlot(ts[1..]);
        if CrtSlot(ts).Some? {
          var k :| 0 <= k < |ts| - 1 && ts[1..][k].tag == CrtTag(CrtSlot(ts).value)
                   && forall j :: 0 <= j < k ==> ts[1..][j].tag !in {0xB6, 0xB8, 0xA4};
          assert ts[k + 1].tag == CrtTag(CrtSlot(ts).value);
          assert forall j :: 0 <= j < k + 1 ==> ts[j].tag !in {0xB6, 0xB8, 0xA4};
        }
      }
    }
  }

  lemma SplitKey(e: Bytes, p: Bytes, q: Bytes)
    ensures var key := e + p + q;
            key[..|e|] == e && key[|e|..|e| + |p|] == p && key[|e| + |p|..] == q
  {}

  // ---------------------------------------------------------------- the imported key

  function ImportedSlot(slot: KeySlot, e: Bytes, p: Bytes, q: Bytes): KeySlot {
    slot.(privateKey := Rsa.PrivateBlob(e, p, q),
          publicKey := Rsa.PublicBlob(Modulus(p, q), e))
  }

  lemma SplitStores(slot: KeySlot, e: Bytes, p: Bytes, q: Bytes)
    requires Component(e) && Component(p) && Component(q)
    ensures SplitRsa(slot, Lengths(|e|, |p|, |q|), e + p + q) == Ok(ImportedSlot(slot, e, p, q))
  {
    hide Modulus, Rsa.PrivateBlob, Rsa.PublicBlob;
    SplitKey(e, p, q);
  }

  lemma ImportStores(c: Crypto, card: Card, name: SlotName, e: Bytes, p: Bytes, q: Bytes)
    requires Component(e) && Component(p) && Component(q) && card.Slot(name).algorithm.id == RSA
    ensures ImportKey(c, card, HeaderList(name, e, p, q))
         == Imported(card.WithSlot(name, ImportedSlot(card.Slot(name), e, p, q)), Success([]))
  {
    hide Forest, Template, HeaderBody, HeaderList, CrtLengths, SplitRsa, ImportedSlot, FirstWith, CrtSlot;
    var t := Template(e, p, q);
    HeaderReads(name, e, p, q);
    PartsFound(name, t, Children(0x7F48, t, true), e + p + q);
    TemplateReads(e, p, q);
    SplitStores(card.Slot(name), e, p, q);
  }

  /** Importing any non-empty components below 65536 bytes into an RSA slot, with PW3 verified:
      the command is accepted, only the named slot's key data changes, decoding recovers e, p
      and q, and the public blob recovers n = p * q exactly when n has fewer than 65536 bytes
      (its length is stored in 16 bits); then the exponent is recovered too. */
  lemma ImportRecovers(c: Crypto, s: State, cmd: Apdu, name: SlotName, e: Bytes, p: Bytes, q: Bytes)
    requires Component(e) && Component(p) && Component(q)
    requires s.security.pw3 && s.card.Slot(name).algorithm.id == RSA
    requires cmd.p1 == 0x3F && cmd.p2 == 0xFF && cmd.data == HeaderList(name, e, p, q)
    ensures var r := PutDataOdd(c, s, cmd);
      var slot := r.state.card.Slot(name);
      var n := Modulus(p, q);
      && r.response == Success([])
      && r.state == s.(card := s.card.WithSlot(name, s.card.Slot(name).(privateKey := slot.privateKey,
                                                                        publicKey := slot.publicKey)))
      && Rsa.ReadFields(slot.privateKey) == Some((e, p, q))
      && ToNat(n) == Product(ToNat(p), ToNat(q))
      && (Rsa.GetModulus(slot.publicKey) == Some(n) <==> |n| < 65536)
      && (|n| < 65536 ==> Rsa.GetExponent(slot.publicKey) == Some(e))
  {
    hide ImportKey, HeaderList, Rsa.GetModulus, Rsa.GetExponent, Rsa.ReadFields, Rsa.PrivateBlob, Rsa.PublicBlob,
      ByteStrings.ToBytes, ToNat, Product;
    ImportStores(c, s.card, name, e, p, q);
    ToBytesValue(Product(ToNat(p), ToNat(q)));
    Rsa.PrivateBlobReads(e, p, q);
    Rsa.PublicBlobReads(Modulus(p, q), e);
  }

  /** PSO:CDS answered as it must be with a key (n, e) that comes from p and q: the signature of
      the key's size that verifies under (n, e) is counted, used up and sent as one response; or
      the status word tells what is missing. */
  ghost predicate SignedReply(c: Crypto, s: State, r: Reply, info: Bytes, signature: Bytes, n: nat, e: nat, p: nat,
                              q: nat)
    requires n > 0 && p >= 1 && q >= 1
  {
    if !s.security.pw1Sign then r == Refused(s, SECURITY_STATUS_NOT_SATISFIED)
    else if !s.card.sig.HasKey() then r == Refused(s, REFERENCED_DATA_NOT_FOUND)
    else if !Rsa.Usable(n, e, p, q, c.acceptsKey) || |info| + 11 > Rsa.KeySize(n) then r == Refused(s, EXEC_ERROR)
    else
      && |signature| == Rsa.KeySize(n) && Rsa.Verify(n, e, signature) == Some(info)
      && r == CreateResponse(s.(card := Counted(s.card), security := PinManager.Signed(s.security)), signature)
  }

  /** The import is accepted and changes only the key data of the signature slot, which then holds
      e, p, q and their product. */
  ghost predicate KeyImported(s: State, r: Reply, le: Option<nat>, e: Bytes, p: Bytes, q: Bytes) {
    var sig := s.card.sig.(privateKey := r.state.card.sig.privateKey, publicKey := r.state.card.sig.publicKey);
    r == Reply(s.(card := s.card.(sig := sig), currentLe := le), Success([]))
    && HoldsKey(sig, e, p, q)
  }

  /** The slot's blobs give back e, p, q and n = p * q. */
  predicate HoldsKey(slot: KeySlot, e: Bytes, p: Bytes, q: Bytes) {
    && slot.algorithm.id == RSA && Rsa.ReadFields(slot.privateKey) == Some((e, p, q))
    && Rsa.GetModulus(slot.publicKey) == Some(Modulus(p, q)) && ToNat(Modulus(p, q)) == Product(ToNat(p), ToNat(q))
  }

  /** From import to signature: after a key with two different primes is imported, PSO:CDS
      answers with a signature that verifies under (p * q, e) exactly if PW1 is verified for
      signing, the slot has a fingerprint, the library accepts the key with an invertible
      exponent, and the DigestInfo fits. */
  lemma ImportThenSign(c: Crypto, s: State, importing: Apdu, signing: Apdu, e: Bytes, p: Bytes, q: Bytes, env: Env,
                       env': Env)
    returns (signature: Bytes)
    requires Component(e) && Component(p) && Component(q) && |Modulus(p, q)| < 65536
    requires Prime(ToNat(p)) && Prime(ToNat(q)) && ToNat(p) != ToNat(q)
    requires s.security.pw3 && !s.card.terminated && s.commandBuffer == [] && s.card.sig.algorithm.id == RSA
    requires importing.ins == PUT_DATA_ODD && !Chained(importing) && importing.p1 == 0x3F && importing.p2 == 0xFF
    requires importing.data == HeaderList(Sig, e, p, q)
    requires signing.ins == PSO && !Chained(signing) && P1P2(signing) == CDS
    ensures Product(ToNat(p), ToNat(q)) > 0
    ensures KeyImported(s, Process(c, s, importing, env), importing.le, e, p, q)
    ensures var t := Process(c, s, importing, env).state;
            SignedReply(c, t.(currentLe := signing.le), Process(c, t, signing, env'), signing.data, signature,
                        Product(ToNat(p), ToNat(q)), ToNat(e), ToNat(p), ToNat(q))
  {
    hide Process, PutDataOdd, Sign, CreateResponse, HeaderList, Modulus, Product, ToNat, Prime, Rsa.ReadFields,
      Rsa.GetModulus, Rsa.GetExponent, Rsa.Verify, Rsa.KeySize, Chained, SignedReply;
    var s' := s.(currentLe := importing.le);
    var t := Process(c, s, importing, env).state;
    Direct(c, s, importing, env);
    ImportRecovers(c, s', importing, Sig, e, p, q);
    Direct(c, t, signing, env');
    signature := StoredSigns(c, t.(currentLe := signing.le), e, p, q, signing.data);
  }

  /** PSO:CDS with recoverable blobs in the signature slot. */
  lemma StoredSigns(c: Crypto, s: State, e: Bytes, p: Bytes, q: Bytes, info: Bytes) returns (signature: Bytes)
    requires Prime(ToNat(p)) && Prime(ToNat(q)) && ToNat(p) != ToNat(q)
    requires HoldsKey(s.card.sig, e, p, q)
    ensures Product(ToNat(p), ToNat(q)) > 0
    ensures SignedReply(c, s, Sign(c, s, info), info, signature, Product(ToNat(p), ToNat(q)), ToNat(e), ToNat(p),
                        ToNat(q))
  {
    hide Rsa.ReadFields, Rsa.GetModulus, Rsa.Verify, Rsa.KeySize, ToNat, Modulus, CreateResponse, Rsa.SignatureStored,
      Rsa.Usable, Rsa.SignedStored;
    var slot := s.card.sig;
    var made := Rsa.SignatureStored(slot.privateKey, slot.publicKey, info, c.acceptsKey);
    signature := if made.Ok? then made.value else [];
    assert ToNat(p) * ToNat(q) > 0;
    Rsa.SignsExactly(slot.privateKey, slot.publicKey, e, p, q, Modulus(p, q), info, c.acceptsKey);
    Rsa.SignatureIsSigned(slot.privateKey, slot.publicKey, info, c.acceptsKey);
    Rsa.UnderflowsExactly(slot.privateKey, slot.publicKey, Modulus(p, q), info, c.acceptsKey);
    if made.Ok? { SignatureVerifies(slot, e, p, q, info, signature); }
  }

  /** A command that is not chained goes straight to its handler. */
  lemma Direct(c: Crypto, s: State, cmd: Apdu, env: Env)
    requires !s.card.terminated && s.commandBuffer == [] && !Chained(cmd)
    ensures cmd.ins == PUT_DATA_ODD ==> Process(c, s, cmd, env) == PutDataOdd(c, s.(currentLe := cmd.le), cmd)
    ensures cmd.ins == PSO && P1P2(cmd) == CDS ==>
              Process(c, s, cmd, env) == Sign(c, s.(currentLe := cmd.le), cmd.data)
  {
    hide PutDataOdd, Sign;
  }

  /** What a signature made with stored blobs is, by the components they hold. */
  lemma SignatureVerifies(slot: KeySlot, e: Bytes, p: Bytes, q: Bytes, info: Bytes, signature: Bytes)
    requires Prime(ToNat(p)) && Prime(ToNat(q)) && ToNat(p) != ToNat(q)
    requires HoldsKey(slot, e, p, q)
    requires Rsa.SignedStored(slot.privateKey, slot.publicKey, info, signature)
    ensures var n := Product(ToNat(p), ToNat(q));
            n > 0 && |signature| == Rsa.KeySize(n) && Rsa.Verify(n, ToNat(e), signature) == Some(info)
  {
    hide Rsa.ReadFields, Rsa.GetModulus, Rsa.Verify, Rsa.KeySize, ToNat, ByteStrings.ToBytes;
    assert ToNat(p) * ToNat(q) > 0;
  }

  // ---------------------------------------------------------------- failed imports

  /** Only key data of one slot changes. A refused import changes nothing, unless the slot is
      an elliptic-curve one whose public key could not be computed: then the new private key
      stays beside the old public key. */
  lemma ImportEffect(c: Crypto, card: Card, data: Bytes)
    ensures var i := ImportKey(c, card, data);
      i.card == card || exists name: SlotName ::
        var slot, slot' := card.Slot(name), i.card.Slot(name);
        && i.card == card.WithSlot(name, slot.(privateKey := slot'.privateKey, publicKey := slot'.publicKey))
        && (i.response == Success([])
            || (slot.algorithm.id != RSA && i.response == Error(EXEC_ERROR) && slot'.publicKey == slot.publicKey))
  {
    hide Forest, CrtSlot, FirstWith, CrtLengths, Modulus, Rsa.PrivateBlob, Rsa.PublicBlob, EccSize, Encode, Reversed;
    var i := ImportKey(c, card, data);
    var ts := Forest(data, true);
    if ts != [] && ts[0].tag == 0x4D {
      var name := CrtSlot(Forest(ts[0].value, true));
      if name.Some? {
        var slot, slot' := card.Slot(name.value), i.card.Slot(name.value);
        assert card.WithSlot(name.value, slot) == card;
        assert i.card == card
          || i.card == card.WithSlot(name.value, slot.(privateKey := slot'.privateKey, publicKey := slot'.publicKey));
      }
    }
  }

  /** The slot and the key data that a header list addresses. */
  function Target(data: Bytes): Option<(SlotName, Bytes)> {
    var ts := Forest(data, true);
    if ts == [] || ts[0].tag != 0x4D then None
    else
      var children := Forest(ts[0].value, true);
      var name, key := CrtSlot(children), FirstWith(children, 0x5F48);
      if name.None? || key.None? then None else Some((name.value, key.value.value))
  }

  /** The import addresses an elliptic-curve slot with a key of the right size that is new to
      the slot, and whose public key cannot be computed. */
  predicate HalfStores(c: Crypto, card: Card, data: Bytes) {
    && Target(data).Some?
    && var (name, key) := Target(data).value;
       var slot := card.Slot(name);
       && slot.algorithm.id != RSA && EccSize(slot.algorithm) == Some(|key|)
       && c.eccPublicKey(slot.algorithm, EccStored(slot.algorithm, key)) == None
       && EccStored(slot.algorithm, key) != slot.privateKey
  }

  /** A refused import changes the card exactly in that case; then the new private key stays
      beside the old public key, and nothing else is different. */
  lemma RefusedImport(c: Crypto, card: Card, data: Bytes)
    ensures var i := ImportKey(c, card, data);
      && (i.response != Success([]) ==> (i.card != card <==> HalfStores(c, card, data)))
      && (i.response == Error(PANIC) ==> i.card == card)
      && (HalfStores(c, card, data) ==>
            var (name, key) := Target(data).value;
            var slot := card.Slot(name);
            && i.response == Error(EXEC_ERROR)
            && i.card == card.WithSlot(name, slot.(privateKey := EccStored(slot.algorithm, key))))
  {
    hide Forest, CrtSlot, FirstWith, ImportRsa, EccSize, EccPublicObject, EccStored;
    if Target(data).Some? {
      var (name, key) := Target(data).value;
      var slot := card.Slot(name);
      assert card.WithSlot(name, slot) == card;
      assert forall k: Bytes :: card.WithSlot(name, slot.(privateKey := k)).Slot(name).privateKey == k;
    }
  }

  /** Any host can send such an import: the header list of a fitting key without public key. */
  lemma HalfStoreArises(c: Crypto, card: Card, name: SlotName, key: Bytes)
    requires card.Slot(name).algorithm.id != RSA && EccSize(card.Slot(name).algorithm) == Some(|key|)
    requires c.eccPublicKey(card.Slot(name).algorithm, EccStored(card.Slot(name).algorithm, key)) == None
    requires EccStored(card.Slot(name).algorithm, key) != card.Slot(name).privateKey
    ensures HalfStores(c, card, Encode(0x4D, Encode(CrtTag(name), []) + Encode(0x5F48, key)))
  {
    hide Forest, Encode, EccStored;
    EccHeaderReads(name, key);
  }

  lemma EccHeaderReads(name: SlotName, key: Bytes)
    requires |key| < 1000
    ensures Target(Encode(0x4D, Encode(CrtTag(name), []) + Encode(0x5F48, key))) == Some((name, key))
  {
    hide Forest, Encode;
    var tag, body := CrtTag(name), Encode(CrtTag(name), []) + Encode(0x5F48, key);
    EncodedSize(tag, []);
    EncodedSize(0x5F48, key);
    ForestCons(0x4D, body, []);
    ForestCons(tag, [], Encode(0x5F48, key));
    ForestCons(0x5F48, key, []);
    EmptyForest();
    assert Encode(0x4D, body) + [] == Encode(0x4D, body);
    assert Encode(0x5F48, key) + [] == Encode(0x5F48, key);
    var first, second := Tlv(tag, [], Children(tag, [], true)), Tlv(0x5F48, key, Children(0x5F48, key, true));
    var children := [first] + ([second] + []);
    assert Forest(body, true) == children;
    assert children[0] == first && children[1..] == [second];
    assert FirstWith(children, 0x5F48) == FirstWith([second], 0x5F48) == Some(second);
    assert CrtSlot(children) == Some(name);
    assert Forest(Encode(0x4D, body), true)[0].value == body;
  }
}

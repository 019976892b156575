/** What PIV keys and answers are good for. */
module PivKeys {
  import opened Wrappers
  import opened ByteStrings
  import opened Apdu
  import opened KeyObjects
  import opened Piv
  import opened PivRuns
  import PivObjects
  import Rsa
  import Tlv
  import TlvRoundTrip

  // ---------------------------------------------------------------- answers

  /** A host's reading of the answer of GENERAL AUTHENTICATE: object 82 inside object 7C. */
  function Read7C(answer: Bytes): Option<Bytes> {
    match ValueOf(answer, 0x7C) case Some(v) => ValueOf(v, 0x82) case None => None
  }

  /** The sizes that the two hand-written length bytes can express. */
  predicate Expressible(size: nat) { size <= 125 || 128 <= size <= 252 }

  /** The result is read back from its 7C template exactly for those sizes: 126 and 127 spill
      into the byte for long lengths, above 252 a length byte wraps. */
  lemma AnswerReads(data: Bytes)
    ensures Read7C(Result7C(Ok(data)).data) == Some(data) <==> Expressible(|data|)
  {
    hide ValueOf;
    var answer := Result7C(Ok(data)).data;
    if Expressible(|data|) {
      AnswerIsCanonical(data);
      ValueAlone(0x82, data);
      ValueAlone(0x7C, Tlv.Encode(0x82, data));
    } else if |data| <= 127 {
      AnswerUnreadable(data);
    } else {
      WrappedAnswer(data);
      ValueBelow(ValueOf(answer, 0x7C).value, 0x82);
    }
  }

  lemma AnswerIsCanonical(data: Bytes)
    requires Expressible(|data|)
    ensures Result7C(Ok(data)).data == Tlv.Encode(0x7C, Tlv.Encode(0x82, data))
  {}

  lemma AnswerUnreadable(data: Bytes)
    requires 126 <= |data| <= 127
    ensures ValueOf(Result7C(Ok(data)).data, 0x7C) == None
  {
    var answer := Result7C(Ok(data)).data;
    var rest := answer[1..];
    assert rest[0] == |data| + 2;
    if |data| == 127 {
      assert rest[1] == 0x82;
      assert rest[1..2] == [rest[1]];
      TlvRoundTrip.Value1(0x82);
    }
    assert Tlv.FrameAt(answer).Err?;
  }

  lemma WrappedAnswer(data: Bytes)
    requires |data| > 252
    ensures var v := ValueOf(Result7C(Ok(data)).data, 0x7C); v.Some? && |v.value| == (|data| + 3) % 256 <= |data|
  {
    hide Tlv.Forest;
    var answer := Result7C(Ok(data)).data;
    var length: Byte := (|data| + 3) % 256;
    assert answer == [0x7C, 0x81, length, 0x82, 0x81, |data| % 256] + data;
    var rest := answer[1..];
    assert rest[0] == 0x81 && rest[1] == length;
    assert rest[1..2] == [rest[1]];
    TlvRoundTrip.Value1(length);
    assert Tlv.LengthAt(answer[1..]) == Ok(Tlv.Field(length, 2));
    FrontFrame(answer, 0x7C, answer[3..3 + length], answer[3 + length..]);
  }

  lemma FrontFrame(data: Bytes, tag: nat, value: Bytes, rest: Bytes)
    requires Tlv.FrameAt(data) == Ok(Tlv.Frame(tag, value, rest)) && data != [] && !Tlv.Filler(data[0])
    ensures ValueOf(data, tag) == Some(value)
  {}

  /** A value found in a byte string is shorter than it. */
  lemma {:induction false} ValueBelow(data: Bytes, tag: nat)
    ensures ValueOf(data, tag).Some? ==> |ValueOf(data, tag).value| < |data|
    decreases |data|
  {
    if data != [] {
      if Tlv.Filler(data[0]) {
        ValueBelow(data[1..], tag);
      } else if Tlv.FrameAt(data).Ok? {
        ValueBelow(Tlv.FrameAt(data).value.rest, tag);
      }
    }
  }

  // ---------------------------------------------------------------- generated RSA keys

  /** Generation stores the RSA public key as object 7F49; signing reads the first two bytes of
      what is stored as a length, 7F49 = 32585. */
  lemma ObjectHasNoModulus(n: Bytes, e: Bytes)
    ensures var public := RsaPublicObject(n, e); Rsa.GetModulus(public) == None <==> |public| < 32587
  {
    var public := RsaPublicObject(n, e);
    assert public[0] == 0x7F && public[1] == 0x49;
  }

  lemma ObjectSize(n: Bytes, e: Bytes)
    requires |n| + |e| <= 32573
    ensures |RsaPublicObject(n, e)| < 32587
  {}

  /** What an accepted generation leaves in the slot. */
  lemma GeneratedIsStored(s: State, cmd: Apdu, env: Env)
    requires GenerateKey(s, cmd, env).response.sw1 == 0x90 && SlotOf(cmd.p2) != Some(CardManagement)
    ensures var r := GenerateKey(s, cmd, env);
      && SlotOf(cmd.p2).Some? && AlgorithmAt(cmd.data, 2).Some?
      && Generated(AlgorithmAt(cmd.data, 2).value, env).Some?
      && r.response.data == Generated(AlgorithmAt(cmd.data, 2).value, env).value.1
      && KeyIn(r.state.objects, SlotOf(cmd.p2).value).Some?
      && var key := KeyIn(r.state.objects, SlotOf(cmd.p2).value).value;
         && key.algorithm == AlgorithmAt(cmd.data, 2).value && key.publicKey == r.response.data
         && key.privateKey == Generated(AlgorithmAt(cmd.data, 2).value, env).value.0
  {
    hide AlgorithmAt, Generated;
  }

  /** Without a modulus in the stored public key RSA neither signs nor deciphers. */
  lemma NoModulusNoUse(l: Library, u: State, slot: KeySlot, tags: map<Byte, Bytes>)
    requires var key := KeyIn(u.objects, slot);
             key.Some? ==> key.value.algorithm == RSA2048 && Rsa.GetModulus(key.value.publicKey) == None
    ensures UseKey(l, u, Some(slot), tags).data == [] && UseKey(l, u, Some(slot), tags).sw1 != 0x90
  {
    hide KeyIn, Rsa.GetModulus, Rsa.Decoded;
  }

  /** An RSA key that the card generated cannot be used, whatever PIN was verified: unless its
      modulus and exponent have 32574 bytes or more, where 2048-bit keys have 259 or so, GENERAL
      AUTHENTICATE with it never succeeds. */
  lemma GeneratedRsaUnusable(l: Library, s: State, cmd: Apdu, env: Env, u: State, tags: map<Byte, Bytes>)
    requires GenerateKey(s, cmd, env).response.sw1 == 0x90 && AlgorithmAt(cmd.data, 2) == Some(RSA2048)
    requires SlotOf(cmd.p2) != Some(CardManagement) && u.objects == GenerateKey(s, cmd, env).state.objects
    requires env.rsaKey.Some?
    requires |ByteStrings.ToBytes(env.rsaKey.value.n)| + |ByteStrings.ToBytes(env.rsaKey.value.e)| <= 32573
    ensures UseKey(l, u, SlotOf(cmd.p2), tags).data == [] && UseKey(l, u, SlotOf(cmd.p2), tags).sw1 != 0x90
  {
    hide GenerateKey, UseKey, AlgorithmAt, KeyIn, SlotOf, Rsa.GetModulus, Rsa.GetExponent, RsaPublicObject,
      Rsa.PublicBlob;
    GeneratedIsStored(s, cmd, env);
    var n, e := ByteStrings.ToBytes(env.rsaKey.value.n), ByteStrings.ToBytes(env.rsaKey.value.e);
    NewRsaKeyReads(env.rsaKey.value);
    ObjectSize(n, e);
    ObjectHasNoModulus(n, e);
    NoModulusNoUse(l, u, SlotOf(cmd.p2).value, tags);
  }

  /** A generated elliptic-curve key signs whatever the library signs with it. */
  lemma GeneratedEccSigns(l: Library, s: State, cmd: Apdu, env: Env, u: State, tags: map<Byte, Bytes>)
    requires GenerateKey(s, cmd, env).response.sw1 == 0x90 && SlotOf(cmd.p2) != Some(CardManagement)
    requires AlgorithmAt(cmd.data, 2) in {Some(ECCP256), Some(ECCP384)}
    requires env.eccKey.Some? && env.eccKey.value.privateKey != []
    requires u.objects == GenerateKey(s, cmd, env).state.objects && u.pinVerified
    requires 0x81 in tags && 0x82 in tags && tags[0x82] == []
    ensures var made := l.eccSign(AlgorithmAt(cmd.data, 2).value, env.eccKey.value.privateKey, tags[0x81]);
      UseKey(l, u, SlotOf(cmd.p2), tags) == if made.Some? then Result7C(Ok(made.value)) else Piv.Error(EXEC_ERROR)
  {
    hide GenerateKey, AlgorithmAt, KeyIn, SlotOf, EccPublicObject;
    GeneratedIsStored(s, cmd, env);
  }

  /** No slot's RSA key has a public key that signing can read. */
  predicate NoRsaModulus(o: Objects) {
    forall slot: KeySlot ::
      KeyIn(o, slot).Some? && KeyIn(o, slot).value.algorithm == RSA2048 ==>
        Rsa.GetModulus(KeyIn(o, slot).value.publicKey) == None
  }

  /** The library generates no RSA keys beyond 32573 bytes. */
  predicate SmallKeys(e: Event) {
    e.Command? && e.env.rsaKey.Some? ==>
      |ByteStrings.ToBytes(e.env.rsaKey.value.n)| + |ByteStrings.ToBytes(e.env.rsaKey.value.e)| <= 32573
  }

  lemma NoModulusStep(l: Library, s: State, e: Event)
    requires NoRsaModulus(s.objects) && SmallKeys(e)
    ensures NoRsaModulus(Next(l, s, e).objects)
  {
    hide Process, Dispatch, PutData, GenerateKey, KeyIn, NoRsaModulus, SmallKeys;
    if e.Command? {
      EventKinds(l, s, e);
      if Direct(s, e) {
        HandlerFrame(l, s, e.cmd, e.env);
        if e.cmd.ins == PUT_DATA { PivObjects.PutRouted(l, s, e.cmd, e.env); PutKeepsKeys(s, e.cmd); }
        if e.cmd.ins == GENERATE_KEY { GenerateStep(l, s, e); }
      } else if PutSeen(s, e).Some? {
        PutKeepsKeys(Piv.ChainClosed(s), PutSeen(s, e).value);
      }
    }
  }

  lemma PutKeepsKeys(s: State, cmd: Apdu)
    requires NoRsaModulus(s.objects)
    ensures NoRsaModulus(PutData(s, cmd).state.objects)
  {
    hide RequestedId, WrittenValue, NameOf, Rsa.GetModulus, NoRsaModulus, PutData, KeyIn;
    var o := PutData(s, cmd).state.objects;
    forall slot: KeySlot | KeyIn(o, slot).Some? && KeyIn(o, slot).value.algorithm == RSA2048
      ensures Rsa.GetModulus(KeyIn(o, slot).value.publicKey) == None
    {
      SameKeyIn(s, cmd, slot);
      NoneIn(s.objects, slot);
    }
    AllNone(o);
  }

  lemma AllNone(o: Objects)
    requires forall slot: KeySlot ::
               KeyIn(o, slot).Some? && KeyIn(o, slot).value.algorithm == RSA2048 ==>
                 Rsa.GetModulus(KeyIn(o, slot).value.publicKey) == None
    ensures NoRsaModulus(o)
  {}

  lemma SameKeyIn(s: State, cmd: Apdu, slot: KeySlot)
    ensures var x, y := KeyIn(s.objects, slot), KeyIn(PutData(s, cmd).state.objects, slot);
      x.Some? == y.Some? && (x.Some? ==> y.value == x.value.(certificate := y.value.certificate))
  {
    hide RequestedId, WrittenValue, NameOf;
  }

  lemma GenerateStep(l: Library, s: State, e: Event)
    requires e.Command? && e.cmd.ins == GENERATE_KEY && NoRsaModulus(s.objects) && SmallKeys(e)
    ensures NoRsaModulus(Dispatch(l, s, e.cmd, e.env).state.objects)
  {
    GenerateRouted(l, s, e.cmd, e.env);
    hide Dispatch, GenerateKey, AlgorithmAt, Rsa.GetModulus, RsaPublicObject, ByteStrings.ToBytes, Generated;
    NewKeyIn(s, e.cmd, e.env);
    if e.env.rsaKey.Some? {
      var n, x := ByteStrings.ToBytes(e.env.rsaKey.value.n), ByteStrings.ToBytes(e.env.rsaKey.value.e);
      NewRsaKeyReads(e.env.rsaKey.value);
      ObjectSize(n, x);
      ObjectHasNoModulus(n, x);
    }
  }

  lemma GenerateRouted(l: Library, s: State, cmd: Apdu, env: Env)
    requires cmd.ins == GENERATE_KEY
    ensures Dispatch(l, s, cmd, env) == GenerateKey(s, cmd, env)
  {
    hide GenerateKey;
  }

  /** After GENERATE each slot has its key as before, or the generated one. */
  lemma NewKeyIn(s: State, cmd: Apdu, env: Env)
    ensures var o := GenerateKey(s, cmd, env).state.objects;
      forall slot: KeySlot ::
        || KeyIn(o, slot) == KeyIn(s.objects, slot)
        || (KeyIn(o, slot).Some?
            && (KeyIn(o, slot).value.algorithm == RSA2048 ==>
                  env.rsaKey.Some? && KeyIn(o, slot).value.publicKey == NewRsaKey(env.rsaKey.value).answer))
  {
    hide AlgorithmAt, NewRsaKey, EccPublicObject;
  }

  /** In every run from a new applet no GENERAL AUTHENTICATE with an RSA key succeeds. */
  lemma {:induction false} RsaNeverWorks(l: Library, s: State, es: seq<Event>, i: nat)
    requires i <= |es| && s.objects == NEW_OBJECTS && forall k :: 0 <= k < i ==> SmallKeys(es[k])
    ensures NoRsaModulus(StateAt(l, s, es, i).objects)
    ensures forall slot: KeySlot, tags: map<Byte, Bytes> ::
      var now := StateAt(l, s, es, i);
      KeyIn(now.objects, slot).Some? && KeyIn(now.objects, slot).value.algorithm == RSA2048 ==>
        UseKey(l, now, Some(slot), tags).sw1 != 0x90
  {
    hide Next, NoRsaModulus, SmallKeys, UseKey, KeyIn;
    if i == 0 {
      NewHasNone();
    } else {
      RsaNeverWorks(l, s, es, i - 1);
      NoModulusStep(l, StateAt(l, s, es, i - 1), es[i - 1]);
    }
    var now := StateAt(l, s, es, i);
    forall slot: KeySlot, tags: map<Byte, Bytes> |
        KeyIn(now.objects, slot).Some? && KeyIn(now.objects, slot).value.algorithm == RSA2048
      ensures UseKey(l, now, Some(slot), tags).sw1 != 0x90
    {
      NoneIn(now.objects, slot);
      NoModulusNoUse(l, now, slot, tags);
    }
  }

  lemma NewHasNone()
    ensures NoRsaModulus(NEW_OBJECTS)
  {}

  lemma NoneIn(o: Objects, slot: KeySlot)
    requires NoRsaModulus(o) && KeyIn(o, slot).Some? && KeyIn(o, slot).value.algorithm == RSA2048
    ensures Rsa.GetModulus(KeyIn(o, slot).value.publicKey) == None
  {}

  // ---------------------------------------------------------------- panics

  /** The operation that the template asks for. */
  predicate Asks(tags: map<Byte, Bytes>) {
    if 0x82 in tags && tags[0x82] == [] then 0x81 in tags else 0x85 in tags
  }

  /** Key use makes the program panic exactly for a permitted operation with an RSA key whose
      blobs can be read and hold a zero prime. */
  lemma UsePanicsExactly(l: Library, u: State, slot: Option<KeySlot>, tags: map<Byte, Bytes>)
    ensures UseKey(l, u, slot, tags) == Piv.Error(PANIC)
       <==> && slot.Some? && (slot.value == CardAuthentication || u.pinVerified) && Asks(tags)
            && KeyIn(u.objects, slot.value).Some?
            && var key := KeyIn(u.objects, slot.value).value;
               && key.privateKey != [] && key.algorithm == RSA2048 && Rsa.ZeroPrime(key.privateKey, key.publicKey)
  {
    hide KeyIn, Rsa.ZeroPrime, Rsa.StoredKey, Rsa.RawSignatureStored, Rsa.SignatureStored;
    if slot.Some? && KeyIn(u.objects, slot.value).Some? {
      var key := KeyIn(u.objects, slot.value).value;
      if 0x81 in tags {
        Rsa.UnderflowsExactly(key.privateKey, key.publicKey, [], tags[0x81], l.acceptsKey);
      }
      if 0x85 in tags {
        Rsa.UnderflowsExactly(key.privateKey, key.publicKey, [], tags[0x85], l.acceptsKey);
      }
    }
  }
}

/** A stored signature key serves until it is replaced. */
module OpenPgpKeyRuns {
  import opened Wrappers
  import opened ByteStrings
  import opened Apdu
  import opened OpenPgpCard
  import opened OpenPgpKeys
  import opened OpenPgp
  import opened OpenPgpRuns
  import opened OpenPgpImport
  import opened NumberTheory
  import Rsa
  import Tlv

  /** The tag of a slot's algorithm attributes. */
  function AlgorithmTag(name: SlotName): nat { match name case Sig => 0xC1 case Dec => 0xC2 case Aut => 0xC3 }

  /** The event may replace the key of a slot or its algorithm: an import or a generation for
      that slot, PUT DATA for its attributes, or activation. */
  predicate WritesKey(s: State, e: Event, name: SlotName) {
    && e.Command? && Handled(s, e.cmd).Some?
    && var h := Handled(s, e.cmd).value;
       || h.ins == ACTIVATE_FILE
       || (h.ins == PUT_DATA && P1P2(h) == AlgorithmTag(name))
       || (h.ins == PUT_DATA_ODD && Target(h.data).Some? && Target(h.data).value.0 == name)
       || (h.ins == GENERATE_KEY && h.p1 == 0x80 && GenerateSlot(h.data) == Some(name))
  }

  predicate SameKey(x: KeySlot, y: KeySlot) {
    x.algorithm == y.algorithm && x.privateKey == y.privateKey && x.publicKey == y.publicKey
  }

  /** Every other event keeps the key. */
  lemma KeyKept(c: Crypto, s: State, e: Event, name: SlotName)
    requires !WritesKey(s, e, name)
    ensures SameKey(s.card.Slot(name), Next(c, s, e).card.Slot(name))
  {
    hide Process, Dispatch, Target, GenerateSlot;
    if e.Command? {
      if Handled(s, e.cmd).None? {
        Unhandled(c, s, e.cmd, e.env);
      } else {
        var h := Handled(s, e.cmd).value;
        HandledIs(c, s, e.cmd, e.env);
        HandlerFrame(c, Ready(s, e.cmd), h, e.env);
        HandlerKeepsKey(c, Ready(s, e.cmd), h, e.env, name);
      }
    }
  }

  lemma HandlerKeepsKey(c: Crypto, s: State, h: Apdu, env: Env, name: SlotName)
    requires h.ins != ACTIVATE_FILE && (h.ins == PUT_DATA ==> P1P2(h) != AlgorithmTag(name)) && !s.card.terminated
    requires h.ins == PUT_DATA_ODD && Target(h.data).Some? ==> Target(h.data).value.0 != name
    requires h.ins == GENERATE_KEY && h.p1 == 0x80 ==> GenerateSlot(h.data) != Some(name)
    ensures SameKey(s.card.Slot(name), Dispatch(c, s, h, env).state.card.Slot(name))
  {
    hide Dispatch, Target, GenerateSlot, P1P2;
    HandlerFrame(c, s, h, env);
    Routed(c, s, h, env);
    if h.ins == PUT_DATA { PutKeepsKey(c, s, P1P2(h), h.data, name); }
    if h.ins == PUT_DATA_ODD { OddKeepsKey(c, s, h, name); }
    if h.ins == GENERATE_KEY { GenerateKeepsKey(c, s, h, env, name); }
    if h.ins == PSO { OperationKeepsKey(c, s, h, name); }
  }

  lemma Routed(c: Crypto, s: State, h: Apdu, env: Env)
    requires !s.card.terminated
    ensures h.ins == PUT_DATA ==> Dispatch(c, s, h, env) == PutData(c, s, P1P2(h), h.data)
    ensures h.ins == PUT_DATA_ODD ==> Dispatch(c, s, h, env) == PutDataOdd(c, s, h)
    ensures h.ins == GENERATE_KEY ==> Dispatch(c, s, h, env) == GenerateKey(c, s, h, env)
    ensures h.ins == PSO ==> Dispatch(c, s, h, env) == SecurityOperation(c, s, h)
    ensures h.ins == INTERNAL_AUTHENTICATE ==> Dispatch(c, s, h, env) == Authenticate(c, s, h.data)
    ensures h.ins == TERMINATE_DF ==>
              forall name: SlotName :: Dispatch(c, s, h, env).state.card.Slot(name) == s.card.Slot(name)
  {
    hide PutData, PutDataOdd, GenerateKey, SecurityOperation, Authenticate;
  }

  lemma PutKeepsKey(c: Crypto, s: State, tag: nat, data: Bytes, name: SlotName)
    requires tag != AlgorithmTag(name)
    ensures SameKey(s.card.Slot(name), PutData(c, s, tag, data).state.card.Slot(name))
  {
    hide AlgorithmFromBytes, ReadTimestamp, AccessGranted, PutAccess, StoreResetCode;
  }

  lemma OddKeepsKey(c: Crypto, s: State, h: Apdu, name: SlotName)
    requires Target(h.data).Some? ==> Target(h.data).value.0 != name
    ensures PutDataOdd(c, s, h).state.card.Slot(name) == s.card.Slot(name)
  {
    hide Tlv.Forest, CrtSlot, Tlv.FirstWith, ImportRsa, ImportEcc;
  }

  lemma GenerateKeepsKey(c: Crypto, s: State, h: Apdu, env: Env, name: SlotName)
    requires h.p1 == 0x80 ==> GenerateSlot(h.data) != Some(name)
    ensures GenerateKey(c, s, h, env).state.card.Slot(name) == s.card.Slot(name)
  {
    hide GenerateSlot, Generated, FingerprintOf, PublicKey;
  }

  lemma OperationKeepsKey(c: Crypto, s: State, h: Apdu, name: SlotName)
    ensures SecurityOperation(c, s, h).state.card.Slot(name) == s.card.Slot(name)
  {
    hide SignData, DecipherData, KeySlot.HasKey;
  }

  // ---------------------------------------------------------------- runs

  /** No event of the run replaces the slot's key. */
  predicate NoneWrites(c: Crypto, s: State, es: seq<Event>, i: nat, name: SlotName)
    requires i <= |es|
  {
    forall k :: 0 <= k < i ==> !WritesKey(StateAt(c, s, es, k), es[k], name)
  }

  lemma {:induction false} KeyStays(c: Crypto, s: State, es: seq<Event>, i: nat, name: SlotName)
    requires i <= |es| && NoneWrites(c, s, es, i, name)
    ensures SameKey(s.card.Slot(name), StateAt(c, s, es, i).card.Slot(name))
  {
    hide Next, WritesKey;
    if i > 0 {
      KeyStays(c, s, es, i - 1, name);
      KeyKept(c, StateAt(c, s, es, i - 1), es[i - 1], name);
    }
  }

  /** In every run from a state whose signature slot holds a key of two different primes, as long
      as nothing replaces it, PSO:CDS answers with a signature that verifies under (p * q, e), or
      says what is missing. */
  lemma SignsInRun(c: Crypto, s: State, es: seq<Event>, i: nat, signing: Apdu, env: Env, e: Bytes, p: Bytes, q: Bytes)
    returns (signature: Bytes)
    requires i <= |es| && NoneWrites(c, s, es, i, Sig) && HoldsKey(s.card.sig, e, p, q)
    requires Prime(ToNat(p)) && Prime(ToNat(q)) && ToNat(p) != ToNat(q)
    requires var h := Handled(StateAt(c, s, es, i), signing);
             h.Some? && h.value.ins == PSO && P1P2(h.value) == CDS
    ensures Product(ToNat(p), ToNat(q)) > 0
    ensures var now := StateAt(c, s, es, i);
            SignedReply(c, Ready(now, signing), Process(c, now, signing, env), Handled(now, signing).value.data,
                        signature, Product(ToNat(p), ToNat(q)), ToNat(e), ToNat(p), ToNat(q))
  {
    hide Process, Dispatch, Sign, CreateResponse, Modulus, Product, ToNat, Prime, Rsa.ReadFields, Rsa.GetModulus,
      Rsa.Verify, Rsa.KeySize, SignedReply, NoneWrites;
    var now := StateAt(c, s, es, i);
    var h := Handled(now, signing).value;
    KeyStays(c, s, es, i, Sig);
    HandledIs(c, now, signing, env);
    SignRouted(c, Ready(now, signing), h, env);
    signature := StoredSigns(c, Ready(now, signing), e, p, q, h.data);
  }

  lemma SignRouted(c: Crypto, s: State, h: Apdu, env: Env)
    requires !s.card.terminated && h.ins == PSO && P1P2(h) == CDS
    ensures Dispatch(c, s, h, env) == Sign(c, s, h.data)
  {
    hide Sign;
  }
}

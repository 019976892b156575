/** Signatures over whole runs: who authorised them, how many there are, what the counter says. */
module OpenPgpSigning {
  import opened Wrappers
  import opened ByteStrings
  import opened Apdu
  import opened PinManager
  import opened OpenPgpKeys
  import opened OpenPgp
  import opened OpenPgpRuns
  import Tlv

  /** The event is a PSO: COMPUTE DIGITAL SIGNATURE answered with a signature. */
  predicate Signs(c: Crypto, s: State, e: Event) {
    && e.Command? && Is(s, e.cmd, PSO) && P1P2(e.cmd) == CDS
    && Accepted(Process(c, s, e.cmd, e.env).response)
  }

  /** The event is a VERIFY of PW1 for signing, with a PIN, answered 9000. */
  predicate Verifies81(c: Crypto, s: State, e: Event) {
    && e.Command? && Is(s, e.cmd, VERIFY) && e.cmd.p2 == 0x81 && Handled(s, e.cmd).value.data != []
    && Accepted(Process(c, s, e.cmd, e.env).response)
  }

  predicate Verifies82(c: Crypto, s: State, e: Event) {
    && e.Command? && Is(s, e.cmd, VERIFY) && e.cmd.p2 == 0x82 && Handled(s, e.cmd).value.data != []
    && Accepted(Process(c, s, e.cmd, e.env).response)
  }

  // ---------------------------------------------------------------- one step

  lemma SignStep(c: Crypto, s: State, cmd: Apdu, env: Env)
    requires cmd.ins == PSO && !s.card.terminated
    ensures var r := Dispatch(c, s, cmd, env);
            if P1P2(cmd) == CDS && Accepted(r.response) then
              s.security.pw1Sign && r.state.security == Signed(s.security) && r.state.card == Counted(s.card)
            else r.state.security == s.security && r.state.card == s.card
  {}

  lemma VerifyStep(c: Crypto, s: State, cmd: Apdu, env: Env)
    requires cmd.ins == VERIFY && !s.card.terminated
    ensures var r := Dispatch(c, s, cmd, env);
            if cmd.data != [] && Accepted(r.response) then
              && cmd.p2 in {0x81, 0x82, 0x83}
              && r.state.security
                 == (if cmd.p2 == 0x81 then s.security.(pw1Sign := true, validMultiple := s.pins.validMultiple)
                     else if cmd.p2 == 0x82 then s.security.(pw1Other := true, validMultiple := s.pins.validMultiple)
                     else s.security.(pw3 := true))
            else r.state.security == s.security
  {
    hide Check, Stripped;
  }

  /** What one event does to the signing flags. */
  lemma FlagStep(c: Crypto, s: State, e: Event)
    ensures var before, after := s.security, Next(c, s, e).security;
      && (EndsSession(s, e) ==> !after.pw1Sign && after.validMultiple == before.validMultiple)
      && (Signs(c, s, e) ==> before.pw1Sign && after.pw1Sign == before.validMultiple
                             && after.validMultiple == before.validMultiple)
      && (Verifies81(c, s, e) ==> after.pw1Sign && after.validMultiple == s.pins.validMultiple)
      && (!EndsSession(s, e) && !Signs(c, s, e) && !Verifies81(c, s, e) ==>
            after.pw1Sign == before.pw1Sign
            && after.validMultiple == if Verifies82(c, s, e) then s.pins.validMultiple else before.validMultiple)
  {
    hide Process, Dispatch;
    if e.Command? && !Activates(s, e) {
      if Handled(s, e.cmd).None? {
        Unhandled(c, s, e.cmd, e.env);
      } else {
        var ready, cmd := Ready(s, e.cmd), Handled(s, e.cmd).value;
        HandledIs(c, s, e.cmd, e.env);
        HandlerFrame(c, ready, cmd, e.env);
        if cmd.ins == PSO { SignStep(c, ready, cmd, e.env); }
        if cmd.ins == VERIFY { VerifyStep(c, ready, cmd, e.env); }
      }
    } else if Activates(s, e) {
      ActivationState(c, s, e);
    }
  }

  // ---------------------------------------------------------------- authorisation

  /** A set signing flag has a successful VERIFY 81 behind it, in the same session. */
  lemma {:induction false} FlagHasVerification(c: Crypto, s: State, es: seq<Event>, i: nat) returns (j: nat)
    requires i <= |es| && !s.security.pw1Sign && StateAt(c, s, es, i).security.pw1Sign
    ensures j < i && Verifies81(c, StateAt(c, s, es, j), es[j])
    ensures forall k :: j < k < i ==> !EndsSession(StateAt(c, s, es, k), es[k])
  {
    hide Next, EndsSession, Verifies81, Signs, Verifies82;
    var before, e := StateAt(c, s, es, i - 1), es[i - 1];
    FlagStep(c, before, e);
    if Verifies81(c, before, e) {
      j := i - 1;
    } else {
      j := FlagHasVerification(c, s, es, i - 1);
    }
  }

  /** In every run from a state with the signing flag clear, each signature has an earlier
      successful VERIFY 81 in the same session. */
  lemma SignaturesAreAuthorised(c: Crypto, s: State, es: seq<Event>, i: nat)
    requires i < |es| && !s.security.pw1Sign && Signs(c, StateAt(c, s, es, i), es[i])
    ensures exists j: nat ::
              && j < i && Verifies81(c, StateAt(c, s, es, j), es[j])
              && (forall k :: j < k < i ==> !EndsSession(StateAt(c, s, es, k), es[k]))
  {
    hide Next, EndsSession, Verifies81, Signs, Verifies82;
    FlagStep(c, StateAt(c, s, es, i), es[i]);
    var j := FlagHasVerification(c, s, es, i);
  }

  // ---------------------------------------------------------------- single use

  function Signatures(c: Crypto, s: State, es: seq<Event>, i: nat): nat
    requires i <= |es|
  {
    if i == 0 then 0
    else Signatures(c, s, es, i - 1) + if Signs(c, StateAt(c, s, es, i - 1), es[i - 1]) then 1 else 0
  }

  function Verifications(c: Crypto, s: State, es: seq<Event>, i: nat): nat
    requires i <= |es|
  {
    if i == 0 then 0
    else Verifications(c, s, es, i - 1) + if Verifies81(c, StateAt(c, s, es, i - 1), es[i - 1]) then 1 else 0
  }

  /** The stored setting asks for a PIN per signature in every state of the run. */
  predicate SingleUse(c: Crypto, s: State, es: seq<Event>) {
    forall k :: 0 <= k <= |es| ==> !StateAt(c, s, es, k).pins.validMultiple
  }

  /** The flag is set, and the cached copy of the setting still allows many signatures while the
      stored one does not. */
  predicate StaleFlag(s: State) { s.security.pw1Sign && s.security.validMultiple && !s.pins.validMultiple }

  /** Without a stale flag at the start, every signature uses up one verification: the one
      still open at the start, or one of the run. */
  lemma {:induction false} SingleUseCounts(c: Crypto, s: State, es: seq<Event>, i: nat)
    requires i <= |es| && SingleUse(c, s, es) && !StaleFlag(s)
    ensures var now := StateAt(c, s, es, i);
      && !StaleFlag(now)
      && Signatures(c, s, es, i) + (if now.security.pw1Sign then 1 else 0)
         <= Verifications(c, s, es, i) + (if s.security.pw1Sign then 1 else 0)
  {
    hide Next, EndsSession, Verifies81, Signs, Verifies82;
    if i > 0 {
      SingleUseCounts(c, s, es, i - 1);
      var before := StateAt(c, s, es, i - 1);
      assert !before.pins.validMultiple;
      FlagStep(c, before, es[i - 1]);
      Disjoint(c, before, es[i - 1]);
    }
  }

  /** An event is at most one of: a signature, a verification, the end of the session. */
  lemma Disjoint(c: Crypto, s: State, e: Event)
    ensures !(Signs(c, s, e) && Verifies81(c, s, e)) && !(Signs(c, s, e) && EndsSession(s, e))
    ensures !(Verifies81(c, s, e) && EndsSession(s, e))
  {
    hide Process;
  }

  // With a stale flag the bound fails: the same flag serves any number of signatures.

  function SignCommand(data: Bytes): Apdu { Apdu(0x00, PSO, 0x9E, 0x9A, data, None) }

  /** Signing works: a key is there and the library signs this data. */
  predicate CanSign(c: Crypto, s: State, data: Bytes) {
    && !s.card.terminated && s.commandBuffer == [] && s.card.sig.HasKey() && SignData(c, s.card.sig, data).Done?
  }

  function Repeated(data: Bytes, env: Env, n: nat): seq<Event> { seq(n, _ => Command(SignCommand(data), env)) }

  lemma StaleStep(c: Crypto, s: State, data: Bytes, env: Env)
    requires StaleFlag(s) && CanSign(c, s, data)
    ensures var e := Command(SignCommand(data), env); var s' := Next(c, s, e);
      && Signs(c, s, e) && !Verifies81(c, s, e)
      && StaleFlag(s') && CanSign(c, s', data) && s'.pins == s.pins
  {
    hide Process, Dispatch, SignData;
    SignIs(c, s, data, env);
  }

  lemma SignIs(c: Crypto, s: State, data: Bytes, env: Env)
    requires !s.card.terminated && s.commandBuffer == []
    ensures P1P2(SignCommand(data)) == CDS
    ensures Process(c, s, SignCommand(data), env) == Sign(c, s.(currentLe := None), data)
  {
    hide Sign;
    assert ReadU16(0x9E, 0x9A) == CDS;
  }

  lemma {:induction false} StaleRun(c: Crypto, s: State, data: Bytes, env: Env, n: nat, i: nat)
    requires StaleFlag(s) && CanSign(c, s, data) && i <= n
    ensures var es := Repeated(data, env, n); var s' := StateAt(c, s, es, i);
      && StaleFlag(s') && CanSign(c, s', data) && s'.pins == s.pins
      && Signatures(c, s, es, i) == i && Verifications(c, s, es, i) == 0
  {
    hide Next, Verifies81, Signs, CanSign, StaleFlag;
    if i > 0 {
      StaleRun(c, s, data, env, n, i - 1);
      StaleStep(c, StateAt(c, s, Repeated(data, env, n), i - 1), data, env);
    }
  }

  /** The bound of one signature per verification, for every run from s. */
  ghost predicate OneSignatureEach(c: Crypto, s: State) {
    forall es: seq<Event> :: SingleUse(c, s, es) ==>
      Signatures(c, s, es, |es|) <= Verifications(c, s, es, |es|) + (if s.security.pw1Sign then 1 else 0)
  }

  /** While the stored setting is single use, signatures never outnumber verifications exactly
      when the flag is not stale: PUT DATA C4 does not touch the cached copy. */
  lemma SingleUseExactly(c: Crypto, s: State, data: Bytes, env: Env)
    requires !s.pins.validMultiple && CanSign(c, s, data)
    ensures OneSignatureEach(c, s) <==> !StaleFlag(s)
  {
    hide Next, Verifies81, Signs, CanSign;
    if StaleFlag(s) {
      var es := Repeated(data, env, 2);
      forall k | 0 <= k <= 2 ensures !StateAt(c, s, es, k).pins.validMultiple { StaleRun(c, s, data, env, 2, k); }
      assert SingleUse(c, s, es);
      StaleRun(c, s, data, env, 2, 2);
    } else {
      forall es: seq<Event> | SingleUse(c, s, es)
        ensures Signatures(c, s, es, |es|) <= Verifications(c, s, es, |es|) + (if s.security.pw1Sign then 1 else 0)
      {
        SingleUseCounts(c, s, es, |es|);
      }
    }
  }

  /** How a stale flag arises: while many signatures are allowed a PIN is verified with VERIFY
      81, then PUT DATA C4 stores the single-use setting. */
  lemma StaleFlagArises(c: Crypto, s: State, pin: Bytes, env: Env, env': Env)
    requires !s.card.terminated && s.commandBuffer == [] && s.security.pw3 && s.pins.validMultiple
    requires pin != [] && Verify(c.hash, s.pins, PW1_81, Stripped(pin)).ok
    ensures var t := Process(c, s, Apdu(0x00, VERIFY, 0x00, 0x81, pin, None), env).state;
            var u := Process(c, t, Apdu(0x00, PUT_DATA, 0x00, 0xC4, [0x00], None), env').state;
            !StaleFlag(s) && !StaleFlag(t) && StaleFlag(u)
  {
    hide Stripped, Check, StoreObject, StoreResetCode;
    assert ReadU16(0x00, 0xC4) == 0x00C4;
  }

  // ---------------------------------------------------------------- the counter

  /** Signatures since the last activation, on top of the counter the run started with. */
  function Tally(c: Crypto, s: State, es: seq<Event>, i: nat): nat
    requires i <= |es|
  {
    if i == 0 then s.card.signatureCounter
    else
      var before := StateAt(c, s, es, i - 1);
      if Activates(before, es[i - 1]) then 0
      else Tally(c, s, es, i - 1) + if Signs(c, before, es[i - 1]) then 1 else 0
  }

  lemma CounterStep(c: Crypto, s: State, e: Event)
    ensures var n, n' := s.card.signatureCounter, Next(c, s, e).card.signatureCounter;
      if Activates(s, e) then n' == 0
      else if Signs(c, s, e) then n' == if n < COUNTER_MAXIMUM then n + 1 else n
      else n' == n
  {
    hide Process, Dispatch;
    if Activates(s, e) {
      ActivationState(c, s, e);
    } else if e.Command? {
      if Handled(s, e.cmd).None? {
        Unhandled(c, s, e.cmd, e.env);
      } else {
        var ready, cmd := Ready(s, e.cmd), Handled(s, e.cmd).value;
        HandledIs(c, s, e.cmd, e.env);
        HandlerFrame(c, ready, cmd, e.env);
        if cmd.ins == PSO { SignStep(c, ready, cmd, e.env); }
        if cmd.ins in {PUT_DATA, PUT_DATA_ODD, GENERATE_KEY, TERMINATE_DF} {
          OthersKeepCounter(c, ready, cmd, e.env);
        }
      }
    }
  }

  lemma OthersKeepCounter(c: Crypto, s: State, cmd: Apdu, env: Env)
    requires cmd.ins in {PUT_DATA, PUT_DATA_ODD, GENERATE_KEY, TERMINATE_DF}
    ensures Dispatch(c, s, cmd, env).state.card.signatureCounter == s.card.signatureCounter
  {
    hide ImportRsa, ImportEcc, StoreInSlot, StoreResetCode, PublicKey, Tlv.Forest, Tlv.FirstWith, CrtSlot;
  }

  /** In every run the signature counter is the number of signatures since the last
      activation, saturating at 2^32 - 1. */
  lemma {:induction false} CounterIsTally(c: Crypto, s: State, es: seq<Event>, i: nat)
    requires i <= |es| && s.card.signatureCounter <= COUNTER_MAXIMUM
    ensures StateAt(c, s, es, i).card.signatureCounter
         == if Tally(c, s, es, i) < COUNTER_MAXIMUM then Tally(c, s, es, i) else COUNTER_MAXIMUM
  {
    hide Next, Activates, Signs;
    if i > 0 {
      CounterIsTally(c, s, es, i - 1);
      CounterStep(c, StateAt(c, s, es, i - 1), es[i - 1]);
    }
  }
}

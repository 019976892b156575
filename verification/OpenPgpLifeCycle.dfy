/** Termination and activation over whole runs, and who may change the card. */
module OpenPgpLifeCycle {
  import opened Apdu
  import opened OpenPgpCard
  import opened OpenPgpKeys
  import opened OpenPgp
  import opened OpenPgpRuns
  import opened Wrappers
  import OpenPgpImport
  import OpenPgpKeyRuns

  // ---------------------------------------------------------------- TERMINATE DF

  /** PW3 is verified, or neither PW1 nor PW3 has a try left. */
  predicate MayTerminate(s: State) { s.security.pw3 || (s.pins.pw1.retries == 0 && s.pins.pw3.retries == 0) }

  /** TERMINATE DF is accepted exactly then, and marks the card; otherwise 6982 and no change. */
  lemma TerminatesExactly(c: Crypto, s: State)
    ensures Terminate(s)
         == if MayTerminate(s) then Reply(s.(card := s.card.(terminated := true)), Response([], 0x90, 0x00))
            else Reply(s, Response([], 0x69, 0x82))
  {}

  /** The event is an accepted TERMINATE DF. */
  predicate Terminates(c: Crypto, s: State, e: Event) {
    && e.Command? && Is(s, e.cmd, TERMINATE_DF)
    && Process(c, s, e.cmd, e.env).response == Response([], 0x90, 0x00)
  }

  /** One event terminates the card, or ends termination, exactly as these two commands do. */
  lemma TerminationStep(c: Crypto, s: State, e: Event)
    ensures Terminates(c, s, e) ==> MayTerminate(s)
    ensures e.Command? && Is(s, e.cmd, TERMINATE_DF) && MayTerminate(s) ==> Terminates(c, s, e)
    ensures Next(c, s, e).card.terminated <==> Terminates(c, s, e) || (s.card.terminated && !Activates(s, e))
  {
    hide Process, Dispatch, Terminate;
    if e.Command? {
      if Handled(s, e.cmd).None? {
        Unhandled(c, s, e.cmd, e.env);
      } else {
        var ready, h := Ready(s, e.cmd), Handled(s, e.cmd).value;
        HandledIs(c, s, e.cmd, e.env);
        HandlerFrame(c, ready, h, e.env);
        TerminatesExactly(c, ready);
        if h.ins == ACTIVATE_FILE {
          ActivationState(c, s, e);
        } else {
          HandlerTerminates(c, ready, h, e.env);
        }
      }
    }
  }

  lemma HandlerTerminates(c: Crypto, s: State, h: Apdu, env: Env)
    requires h.ins != ACTIVATE_FILE && !s.card.terminated
    ensures h.ins == TERMINATE_DF ==> Dispatch(c, s, h, env) == Terminate(s)
    ensures h.ins != TERMINATE_DF ==> !Dispatch(c, s, h, env).state.card.terminated
  {
    hide Dispatch, Terminate, PutData, PutDataOdd, GenerateKey, SecurityOperation;
    HandlerFrame(c, s, h, env);
    OpenPgpKeyRuns.Routed(c, s, h, env);
    TerminateRouted(c, s, h, env);
    CardHandlers(c, s, h, env);
  }

  lemma TerminateRouted(c: Crypto, s: State, h: Apdu, env: Env)
    requires h.ins == TERMINATE_DF ==> !s.card.terminated
    ensures h.ins == TERMINATE_DF ==> Dispatch(c, s, h, env) == Terminate(s)
  {
    hide Terminate;
  }

  /** The handlers that change the card otherwise leave this mark alone. */
  lemma CardHandlers(c: Crypto, s: State, h: Apdu, env: Env)
    ensures PutData(c, s, P1P2(h), h.data).state.card.terminated == s.card.terminated
    ensures PutDataOdd(c, s, h).state.card.terminated == s.card.terminated
    ensures GenerateKey(c, s, h, env).state.card.terminated == s.card.terminated
    ensures SecurityOperation(c, s, h).state.card.terminated == s.card.terminated
  {
    hide AlgorithmFromBytes, ReadTimestamp, AccessGranted, PutAccess, StoreResetCode, Generated, FingerprintOf,
      PublicKey, SignData, DecipherData, KeySlot.HasKey, GenerateSlot, ImportKey;
    OpenPgpImport.ImportEffect(c, s.card, h.data);
  }

  /** In every run a terminated card that was not terminated at the start has an accepted TERMINATE
      DF behind it, with PW3 verified or both PINs blocked, and no activation since. */
  lemma {:induction false} TerminationHasCommand(c: Crypto, s: State, es: seq<Event>, i: nat) returns (j: nat)
    requires i <= |es| && !s.card.terminated && StateAt(c, s, es, i).card.terminated
    ensures j < i && Terminates(c, StateAt(c, s, es, j), es[j]) && MayTerminate(StateAt(c, s, es, j))
    ensures forall k :: j < k < i ==> !Activates(StateAt(c, s, es, k), es[k])
  {
    hide Next, Terminates, Activates, MayTerminate;
    var before := StateAt(c, s, es, i - 1);
    TerminationStep(c, before, es[i - 1]);
    if Terminates(c, before, es[i - 1]) {
      j := i - 1;
    } else {
      j := TerminationHasCommand(c, s, es, i - 1);
    }
  }

  /** The command would come to a handler on a working card. */
  predicate Reaches(s: State, cmd: Apdu) {
    cmd.ins != GET_RESPONSE && !Chained(cmd) && (s.commandBuffer == [] || s.chainingIns == Some(cmd.ins))
  }

  /** On a terminated card every such command but ACTIVATE FILE answers 6985, and whatever comes,
      card, PINs and flags stay as they are; ACTIVATE FILE answers 9000. */
  lemma TerminatedRefuses(c: Crypto, s: State, cmd: Apdu, env: Env)
    requires s.card.terminated
    ensures cmd.ins != ACTIVATE_FILE ==>
              var s' := Process(c, s, cmd, env).state;
              s'.card == s.card && s'.pins == s.pins && s'.security == s.security
    ensures Reaches(s, cmd) ==>
              Process(c, s, cmd, env).response
              == if cmd.ins == ACTIVATE_FILE then Response([], 0x90, 0x00) else Response([], 0x69, 0x85)
  {
    hide GetData, VerifyPw, ChangePw, ResetPw, PutData, PutDataOdd, GenerateKey, SecurityOperation, Authenticate,
      Terminate;
  }

  /** So in every run from a terminated card without activation, nothing changes. */
  lemma {:induction false} TerminatedStays(c: Crypto, s: State, es: seq<Event>, i: nat)
    requires i <= |es| && s.card.terminated
    requires forall k :: 0 <= k < i ==> es[k].Command? ==> es[k].cmd.ins != ACTIVATE_FILE
    ensures StateAt(c, s, es, i).card == s.card && StateAt(c, s, es, i).pins == s.pins
  {
    hide Process;
    if i > 0 {
      TerminatedStays(c, s, es, i - 1);
      var e := es[i - 1];
      if e.Command? { TerminatedRefuses(c, StateAt(c, s, es, i - 1), e.cmd, e.env); }
    }
  }
}

/** After activation no history can be observed, although the cached single-use flag survives. */
module OpenPgpActivation {
  import opened Wrappers
  import opened Apdu
  import opened PinManager
  import opened OpenPgpKeys
  import opened OpenPgp
  import opened OpenPgpRuns

  /** What can be observed of a state: the cached flag counts only while the signing flag is
      set, and the stored Le not at all. */
  function Visible(s: State): State {
    s.(currentLe := None, security := if s.security.pw1Sign then s.security else s.security.(validMultiple := true))
  }

  predicate Alike(s: State, t: State) { Visible(s) == Visible(t) }

  predicate AlikeReplies(r: Reply, q: Reply) { r.response == q.response && Alike(r.state, q.state) }

  function WithFlag(s: State, flag: bool): State { s.(security := s.security.(validMultiple := flag)) }

  lemma VerifyIgnoresFlag(c: Crypto, s: State, flag: bool, cmd: Apdu)
    requires !s.security.pw1Sign
    ensures AlikeReplies(VerifyPw(c, s, cmd), VerifyPw(c, WithFlag(s, flag), cmd))
  {
    hide Verify, Stripped;
  }

  lemma GenerateIgnoresFlag(c: Crypto, s: State, flag: bool, cmd: Apdu, env: Env)
    requires !s.security.pw1Sign
    ensures AlikeReplies(GenerateKey(c, s, cmd, env), GenerateKey(c, WithFlag(s, flag), cmd, env))
  {
    hide PublicKey, GenerateSlot, Generated, FingerprintOf, StatusOf;
  }

  lemma OperationsIgnoreFlag(c: Crypto, s: State, flag: bool, cmd: Apdu)
    requires !s.security.pw1Sign
    ensures AlikeReplies(SecurityOperation(c, s, cmd), SecurityOperation(c, WithFlag(s, flag), cmd))
  {
    hide SignData, DecipherData, StatusOf;
  }

  lemma AuthenticationIgnoresFlag(c: Crypto, s: State, flag: bool, cmd: Apdu)
    requires !s.security.pw1Sign
    ensures AlikeReplies(Authenticate(c, s, cmd.data), Authenticate(c, WithFlag(s, flag), cmd.data))
  {
    hide AuthenticateData, StatusOf;
  }

  lemma DataIgnoresFlag(c: Crypto, s: State, flag: bool, cmd: Apdu)
    requires !s.security.pw1Sign
    ensures AlikeReplies(PutData(c, s, P1P2(cmd), cmd.data), PutData(c, WithFlag(s, flag), P1P2(cmd), cmd.data))
    ensures AlikeReplies(PutDataOdd(c, s, cmd), PutDataOdd(c, WithFlag(s, flag), cmd))
  {
    hide StoreObject, StoreResetCode, ImportKey, PutAccess;
  }

  lemma OthersIgnoreFlag(c: Crypto, s: State, flag: bool, cmd: Apdu, env: Env)
    requires !s.security.pw1Sign
    requires cmd.ins !in {VERIFY, GENERATE_KEY, PSO, INTERNAL_AUTHENTICATE, PUT_DATA, PUT_DATA_ODD}
    ensures AlikeReplies(Dispatch(c, s, cmd, env), Dispatch(c, WithFlag(s, flag), cmd, env))
  {
    hide DataObject, Change, ResetWithCode, NewPw1, VerifyPw, PutData, PutDataOdd, GenerateKey, SecurityOperation,
      Authenticate;
  }

  /** Without the signing flag no handler's answer depends on the cached setting. */
  lemma HandlersIgnoreFlag(c: Crypto, s: State, flag: bool, cmd: Apdu, env: Env)
    requires !s.security.pw1Sign
    ensures AlikeReplies(Dispatch(c, s, cmd, env), Dispatch(c, WithFlag(s, flag), cmd, env))
  {
    hide VerifyPw, GenerateKey, SecurityOperation, Authenticate, PutData, PutDataOdd;
    VerifyIgnoresFlag(c, s, flag, cmd);
    GenerateIgnoresFlag(c, s, flag, cmd, env);
    OperationsIgnoreFlag(c, s, flag, cmd);
    AuthenticationIgnoresFlag(c, s, flag, cmd);
    DataIgnoresFlag(c, s, flag, cmd);
    if cmd.ins !in {VERIFY, GENERATE_KEY, PSO, INTERNAL_AUTHENTICATE, PUT_DATA, PUT_DATA_ODD} {
      hide Dispatch;
      OthersIgnoreFlag(c, s, flag, cmd, env);
    }
  }

  lemma CompleteIgnoresFlag(c: Crypto, s: State, flag: bool, cmd: Apdu, env: Env)
    requires !s.security.pw1Sign
    ensures AlikeReplies(Complete(c, s, cmd, env), Complete(c, WithFlag(s, flag), cmd, env))
  {
    hide Dispatch;
    HandlersIgnoreFlag(c, s, flag, cmd, env);
    HandlersIgnoreFlag(c, ChainClosed(s), flag,
                       cmd.(cla := ClearChainBit(cmd.cla), data := s.commandBuffer + cmd.data), env);
  }

  lemma ResponsesIgnoreFlag(s: State, flag: bool, cmd: Apdu)
    requires !s.security.pw1Sign
    ensures AlikeReplies(GetResponse(s, cmd.le), GetResponse(WithFlag(s, flag), cmd.le))
  {}

  lemma BlocksIgnoreFlag(s: State, flag: bool, cmd: Apdu)
    requires !s.security.pw1Sign
    ensures AlikeReplies(Chain(s, cmd), Chain(WithFlag(s, flag), cmd))
  {}

  /** Alike states answer a command alike and stay alike. */
  lemma AlikeStep(c: Crypto, s: State, t: State, cmd: Apdu, env: Env)
    requires Alike(s, t)
    ensures AlikeReplies(Process(c, s, cmd, env), Process(c, t, cmd, env))
  {
    hide Complete, GetResponse, Chain;
    var s', t' := s.(currentLe := cmd.le), t.(currentLe := cmd.le);
    if s.security.pw1Sign {
      assert s' == t';
    } else {
      assert t' == WithFlag(s', t.security.validMultiple);
      CompleteIgnoresFlag(c, s', t.security.validMultiple, cmd, env);
      ResponsesIgnoreFlag(s', t.security.validMultiple, cmd);
      BlocksIgnoreFlag(s', t.security.validMultiple, cmd);
    }
  }

  /** All answers of a run. */
  function Responses(c: Crypto, s: State, es: seq<Event>): seq<Response>
    decreases |es|
  {
    if es == [] then []
    else
      (if es[0].Command? then [Process(c, s, es[0].cmd, es[0].env).response] else [])
      + Responses(c, Next(c, s, es[0]), es[1..])
  }

  lemma {:induction false} AlikeRuns(c: Crypto, s: State, t: State, es: seq<Event>)
    requires Alike(s, t)
    ensures Responses(c, s, es) == Responses(c, t, es)
    decreases |es|
  {
    hide Process;
    if es != [] {
      if es[0].Command? { AlikeStep(c, s, t, es[0].cmd, es[0].env); }
      AlikeRuns(c, Next(c, s, es[0]), Next(c, t, es[0]), es[1..]);
    }
  }

  /** Two cards with any histories, once each has run ACTIVATE FILE, answer every later series
      of commands and resets identically. */
  lemma ActivationForgets(c: Crypto, s: State, t: State, e: Event, f: Event, es: seq<Event>)
    requires Activates(s, e) && Activates(t, f)
    ensures Responses(c, Next(c, s, e), es) == Responses(c, Next(c, t, f), es)
  {
    hide Responses, Process, Dispatch;
    HandledIs(c, s, e.cmd, e.env);
    HandledIs(c, t, f.cmd, f.env);
    Activated(c, Ready(s, e.cmd), Handled(s, e.cmd).value, e.env);
    Activated(c, Ready(t, f.cmd), Handled(t, f.cmd).value, f.env);
    AlikeRuns(c, Next(c, s, e), Next(c, t, f), es);
  }

  /** The cached flag itself is not reset. */
  lemma FlagSurvives(c: Crypto, s: State, e: Event)
    requires Activates(s, e)
    ensures Next(c, s, e).security.validMultiple == s.security.validMultiple && Next(c, s, e).pins.validMultiple
  {
    ActivationState(c, s, e);
  }
}

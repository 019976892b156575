/** PIN and PUK counters over whole runs, the response buffer, and what a reset forgets. */
module PivSecrets {
  import opened Wrappers
  import opened ByteStrings
  import opened Apdu
  import opened Piv
  import opened PivRuns

  /** RESET RETRY COUNTER with the right PUK: the only way to unblock the PIN. */
  predicate Unblocks(s: State, e: Event) {
    && Direct(s, e) && e.cmd.ins == RESET_RETRY_COUNTER && e.cmd.p2 == PIN_REF && |e.cmd.data| == 16
    && s.secrets.pukRetries > 0 && e.cmd.data[..8] == s.secrets.puk
  }

  /** How PIN, PUK and their counters may move in one step. */
  predicate Moves(a: Secrets, b: Secrets, unblocks: bool) {
    && (b.pinRetries in {a.pinRetries, 3} || b.pinRetries == a.pinRetries - 1)
    && (b.pukRetries in {a.pukRetries, 3} || b.pukRetries == a.pukRetries - 1)
    && (a.pinRetries == 0 && !unblocks ==> b.pinRetries == 0 && b.pin == a.pin)
    && (a.pukRetries == 0 ==> b.pukRetries == 0 && b.puk == a.puk && !unblocks)
    && (unblocks ==> b.pinRetries == 3 && b.pukRetries == 3)
  }

  lemma SecretsStep(l: Library, s: State, e: Event)
    ensures Moves(s.secrets, Next(l, s, e).secrets, Unblocks(s, e))
  {
    hide Process, Dispatch, UntilFF, Verify, Change, ResetRetry;
    if e.Command? {
      EventKinds(l, s, e);
      if Direct(s, e) {
        HandlerFrame(l, s, e.cmd, e.env);
        if e.cmd.ins in {VERIFY, CHANGE_REFERENCE_DATA, RESET_RETRY_COUNTER} {
          PinRouting(l, s, e.cmd, e.env);
          VerifyMoves(s, e.cmd);
          ChangeMoves(s, e.cmd);
          ResetMoves(s, e.cmd);
        }
      }
    }
  }

  lemma VerifyMoves(s: State, cmd: Apdu)
    ensures Moves(s.secrets, Verify(s, cmd).state.secrets, false)
  {
    hide UntilFF;
  }

  lemma ChangeMoves(s: State, cmd: Apdu)
    ensures Moves(s.secrets, Change(s, cmd).state.secrets, false)
  {
    hide UntilFF;
  }

  lemma ResetMoves(s: State, cmd: Apdu)
    ensures Moves(s.secrets, ResetRetry(s, cmd).state.secrets,
                  cmd.p2 == PIN_REF && |cmd.data| == 16 && s.secrets.pukRetries > 0 && cmd.data[..8] == s.secrets.puk)
  {
    hide UntilFF;
  }

  lemma PinRouting(l: Library, s: State, cmd: Apdu, env: Env)
    ensures cmd.ins == VERIFY ==> Dispatch(l, s, cmd, env) == Verify(s, cmd)
    ensures cmd.ins == CHANGE_REFERENCE_DATA ==> Dispatch(l, s, cmd, env) == Change(s, cmd)
    ensures cmd.ins == RESET_RETRY_COUNTER ==> Dispatch(l, s, cmd, env) == ResetRetry(s, cmd)
  {
    hide Verify, Change, ResetRetry;
  }

  /** In every run both counters stay at three or below. */
  lemma {:induction false} CountersBounded(l: Library, s: State, es: seq<Event>, i: nat)
    requires i <= |es| && s.secrets.pinRetries <= 3 && s.secrets.pukRetries <= 3
    ensures var now := StateAt(l, s, es, i).secrets; now.pinRetries <= 3 && now.pukRetries <= 3
  {
    hide Next;
    if i > 0 {
      CountersBounded(l, s, es, i - 1);
      SecretsStep(l, StateAt(l, s, es, i - 1), es[i - 1]);
    }
  }

  /** A blocked PUK stays blocked for good, and so does a PIN blocked with it. */
  lemma {:induction false} BlockedPukStays(l: Library, s: State, es: seq<Event>, i: nat)
    requires i <= |es| && s.secrets.pukRetries == 0
    ensures var now := StateAt(l, s, es, i).secrets;
      && now.pukRetries == 0 && now.puk == s.secrets.puk
      && (s.secrets.pinRetries == 0 ==> now.pinRetries == 0 && now.pin == s.secrets.pin)
  {
    hide Next, Unblocks;
    if i > 0 {
      BlockedPukStays(l, s, es, i - 1);
      SecretsStep(l, StateAt(l, s, es, i - 1), es[i - 1]);
    }
  }

  /** A blocked PIN comes back only by RESET RETRY COUNTER with the right PUK. */
  lemma {:induction false} BlockedPinUnblocked(l: Library, s: State, es: seq<Event>, i: nat)
    requires i <= |es| && s.secrets.pinRetries == 0
    requires forall k :: 0 <= k < i ==> !Unblocks(StateAt(l, s, es, k), es[k])
    ensures var now := StateAt(l, s, es, i).secrets; now.pinRetries == 0 && now.pin == s.secrets.pin
  {
    hide Next, Unblocks;
    if i > 0 {
      BlockedPinUnblocked(l, s, es, i - 1);
      SecretsStep(l, StateAt(l, s, es, i - 1), es[i - 1]);
    }
  }

  /** Nothing fills the response buffer: a direct GET RESPONSE is always refused. */
  lemma {:induction false} NoResponseChaining(l: Library, s: State, es: seq<Event>, i: nat, get: Apdu, env: Env)
    requires i <= |es| && s.responseBuffer == []
    requires get.ins == GET_RESPONSE && Direct(StateAt(l, s, es, i), Command(get, env))
    ensures Process(l, StateAt(l, s, es, i), get, env).response == Error(CONDITIONS_NOT_SATISFIED)
  {
    BufferStaysEmpty(l, s, es, i);
  }

  lemma {:induction false} BufferStaysEmpty(l: Library, s: State, es: seq<Event>, i: nat)
    requires i <= |es| && s.responseBuffer == []
    ensures StateAt(l, s, es, i).responseBuffer == []
  {
    hide Next;
    if i > 0 {
      BufferStaysEmpty(l, s, es, i - 1);
      EmptyStep(l, StateAt(l, s, es, i - 1), es[i - 1]);
    }
  }

  lemma EmptyStep(l: Library, s: State, e: Event)
    requires s.responseBuffer == []
    ensures Next(l, s, e).responseBuffer == []
  {
    hide Process, Dispatch;
    if e.Command? {
      EventKinds(l, s, e);
      if Direct(s, e) { EmptyDispatch(l, s, e.cmd, e.env); }
    }
  }

  lemma EmptyDispatch(l: Library, s: State, cmd: Apdu, env: Env)
    requires s.responseBuffer == []
    ensures Dispatch(l, s, cmd, env).state.responseBuffer == []
  {
    hide RequestedId, WrittenValue, NameOf, WithObject, AlgorithmAt, TemplateTags, UseKey, UntilFF, GetData;
  }

  // ---------------------------------------------------------------- changed secrets

  predicate NoFF(s: Bytes) { forall i :: 0 <= i < |s| ==> s[i] != 0xFF }

  lemma {:induction false} UntilFFKeeps(s: Bytes)
    ensures |UntilFF(s)| <= |s|
    ensures |UntilFF(s)| == |s| <==> NoFF(s)
    ensures NoFF(s) ==> UntilFF(s) == s
  {
    if s != [] {
      UntilFFKeeps(s[1..]);
      assert NoFF(s) ==> NoFF(s[1..]);
      assert NoFF(s[1..]) && s[0] != 0xFF ==> NoFF(s) by {
        assert forall i :: 1 <= i < |s| ==> s[i] == s[1..][i - 1];
      }
      assert s == [s[0]] + s[1..];
    }
  }

  /** CHANGE REFERENCE DATA stores a new PUK cut at FF, RESET RETRY COUNTER compares all eight
      bytes: the new PUK can unblock the PIN exactly if its field has no FF byte. */
  lemma ChangedPukUnblocks(s: State, change: Apdu, reset: Apdu)
    requires change.p2 == PUK_REF && Change(s, change).response == Success([])
    requires reset.p2 == PIN_REF && |reset.data| == 16
    ensures var t := Change(s, change).state;
      && (reset.data[..8] == change.data[8..] ==>
            (ResetRetry(t, reset).response == Success([]) <==> NoFF(change.data[8..])))
      && (ResetRetry(t, reset).response == Success([]) ==> reset.data[..8] == change.data[8..])
  {
    hide UntilFF, NoFF;
    UntilFFKeeps(change.data[8..]);
  }

  /** A new PIN verifies with the field it was set by, whatever bytes are in it. */
  lemma ChangedPinVerifies(s: State, change: Apdu, verify: Apdu)
    requires change.p2 == PIN_REF && Change(s, change).response == Success([])
    requires verify.p2 == PIN_REF && verify.data == change.data[8..]
    ensures Verify(Change(s, change).state, verify).response == Success([])
  {
    hide UntilFF;
    assert |change.data[8..]| == 8;
  }

  // ---------------------------------------------------------------- reset

  /** The next command cannot tell whether a chain was open when the session was reset. */
  ghost predicate ChainForgotten(l: Library, s: State, env: Env) {
    forall cmd: Apdu :: Process(l, ResetSession(s), cmd, env).response
                     == Process(l, ResetSession(ChainClosed(s)), cmd, env).response
  }

  /** A reset ends the session completely exactly when no command chain is open: an open chain
      survives power-off and captures the next command. */
  lemma ResetForgetsChain(l: Library, s: State, env: Env)
    ensures ChainForgotten(l, s, env) <==> s.chainIns == None
  {
    hide Dispatch;
    if s.chainIns.Some? {
      var cmd := Apdu(0x00, GET_VERSION, 0x00, 0x00, [], None);
      VersionAnswer(l, ResetSession(ChainClosed(s)), cmd, env);
      assert Process(l, ResetSession(s), cmd, env).response != Success([1, 0, 0]);
      assert Process(l, ResetSession(ChainClosed(s)), cmd, env).response == Success([1, 0, 0]);
    } else {
      forall cmd: Apdu
        ensures Process(l, ResetSession(s), cmd, env).response
             == Process(l, ResetSession(ChainClosed(s)), cmd, env).response
      {
        BufferUnread(l, ResetSession(s), s.chainBuffer, cmd, env);
      }
    }
  }

  lemma VersionAnswer(l: Library, s: State, cmd: Apdu, env: Env)
    requires cmd.ins == GET_VERSION
    ensures Dispatch(l, s, cmd, env).response == Success([1, 0, 0])
  {}

  /** Outside a chain the chain buffer is not read. */
  lemma BufferUnread(l: Library, s: State, buffer: Bytes, cmd: Apdu, env: Env)
    requires s.chainIns == None
    ensures Process(l, s, cmd, env).response == Process(l, s.(chainBuffer := []), cmd, env).response
  {
    hide RequestedId, WrittenValue, NameOf, WithObject, AlgorithmAt, TemplateTags, UntilFF, GetData;
  }
}

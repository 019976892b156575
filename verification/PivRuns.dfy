/** Runs of the PIV applet. */
module PivRuns {
  import opened Wrappers
  import opened Apdu
  import opened Piv

  /** A command, or a power-off or card reset. */
  datatype Event = Command(cmd: Apdu, env: Env) | SessionReset

  function Next(l: Library, s: State, e: Event): State {
    match e case Command(cmd, env) => Process(l, s, cmd, env).state case SessionReset => ResetSession(s)
  }

  /** The state after the first i events of a run from s. */
  function StateAt(l: Library, s: State, es: seq<Event>, i: nat): State
    requires i <= |es|
  {
    if i == 0 then s else Next(l, StateAt(l, s, es, i - 1), es[i - 1])
  }

  /** The command goes straight to its handler: no chain is open or started. */
  predicate Direct(s: State, e: Event) { e.Command? && !Chained(e.cmd) && s.chainIns.None? }

  /** The command that PUT DATA gets to see, at the end of a chain or directly. */
  function PutSeen(s: State, e: Event): Option<Apdu> {
    if e.SessionReset? || e.cmd.ins != PUT_DATA || Chained(e.cmd) then None
    else if s.chainIns.None? then Some(e.cmd)
    else if s.chainIns != Some(PUT_DATA) then None
    else Some(e.cmd.(p1 := s.chainP1, p2 := s.chainP2, data := s.chainBuffer + e.cmd.data))
  }

  /** What one event is for the applet: a direct command, a PUT DATA, or only chain traffic. */
  lemma EventKinds(l: Library, s: State, e: Event)
    requires e.Command?
    ensures Direct(s, e) ==> Process(l, s, e.cmd, e.env) == Dispatch(l, s, e.cmd, e.env)
    ensures !Direct(s, e) ==>
      var r := Process(l, s, e.cmd, e.env);
      && (PutSeen(s, e).None? ==> r.state.objects == s.objects)
      && (PutSeen(s, e).Some? ==> r == PutData(ChainClosed(s), PutSeen(s, e).value))
      && r.state.secrets == s.secrets && r.state.pinVerified == s.pinVerified && r.state.managed == s.managed
      && r.state.challenge == s.challenge && r.state.responseBuffer == s.responseBuffer
  {
    hide Dispatch, RequestedId, WrittenValue, NameOf, WithObject;
  }

  /** Which instructions touch what. */
  lemma HandlerFrame(l: Library, s: State, cmd: Apdu, env: Env)
    ensures var s' := Dispatch(l, s, cmd, env).state;
      && (cmd.ins !in {PUT_DATA, GENERATE_KEY} ==> s'.objects == s.objects)
      && (cmd.ins !in {VERIFY, CHANGE_REFERENCE_DATA, RESET_RETRY_COUNTER} ==> s'.secrets == s.secrets)
      && (cmd.ins !in {SELECT, GENERAL_AUTHENTICATE} ==> s'.managed == s.managed && s'.challenge == s.challenge)
      && s'.chainIns == s.chainIns
  {
    hide RequestedId, WrittenValue, NameOf, WithObject, AlgorithmAt, TemplateTags, UseKey, UntilFF, GetData;
  }
}

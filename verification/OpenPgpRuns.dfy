/** Runs of the OpenPGP applet: series of commands and resets, and what a command is taken as. */
module OpenPgpRuns {
  import opened Wrappers
  import opened ByteStrings
  import opened Apdu
  import opened OpenPgpCard
  import opened PinManager
  import opened OpenPgpKeys
  import opened OpenPgp

  /** A command, or the end of a session by power-off or card reset. */
  datatype Event = Command(cmd: Apdu, env: Env) | SessionReset

  function Next(c: Crypto, s: State, e: Event): State {
    match e case Command(cmd, env) => Process(c, s, cmd, env).state case SessionReset => ResetSession(s)
  }

  /** The state after the first i events of a run from s. */
  function StateAt(c: Crypto, s: State, es: seq<Event>, i: nat): State
    requires i <= |es|
  {
    if i == 0 then s else Next(c, StateAt(c, s, es, i - 1), es[i - 1])
  }

  /** is_okay: 9000 or 61xx. */
  predicate Accepted(r: Response) { (r.sw1 == 0x90 && r.sw2 == 0x00) || r.sw1 == 0x61 }

  /** The command that a handler gets to see, chained data included; none for GET RESPONSE,
      for a non-final block, after a chain of another instruction and on a terminated card. */
  function Handled(s: State, cmd: Apdu): Option<Apdu> {
    if cmd.ins == GET_RESPONSE || Chained(cmd) then None
    else if s.commandBuffer != [] && s.chainingIns != Some(cmd.ins) then None
    else if s.card.terminated && cmd.ins != ACTIVATE_FILE then None
    else if s.commandBuffer != [] then
      Some(cmd.(cla := ClearChainBit(cmd.cla), data := s.commandBuffer + cmd.data))
    else Some(cmd)
  }

  function Ready(s: State, cmd: Apdu): State {
    var s' := s.(currentLe := cmd.le);
    if s.commandBuffer != [] then ChainClosed(s') else s'
  }

  /** Unless a handler sees the command, card, PINs and session flags stay as they are. */
  lemma Unhandled(c: Crypto, s: State, cmd: Apdu, env: Env)
    requires Handled(s, cmd).None?
    ensures var s' := Process(c, s, cmd, env).state;
            s'.card == s.card && s'.pins == s.pins && s'.security == s.security
  {}

  lemma HandledIs(c: Crypto, s: State, cmd: Apdu, env: Env)
    requires Handled(s, cmd).Some?
    ensures Process(c, s, cmd, env) == Dispatch(c, Ready(s, cmd), Handled(s, cmd).value, env)
    ensures Ready(s, cmd).card == s.card && Ready(s, cmd).pins == s.pins && Ready(s, cmd).security == s.security
    ensures Handled(s, cmd).value.ins == cmd.ins
  {
    hide Dispatch;
  }

  /** Which instructions touch what. */
  lemma HandlerFrame(c: Crypto, s: State, cmd: Apdu, env: Env)
    ensures var s' := Dispatch(c, s, cmd, env).state;
      && (cmd.ins !in {VERIFY, PSO, ACTIVATE_FILE} ==> s'.security == s.security)
      && (cmd.ins !in {VERIFY, CHANGE_REFERENCE_DATA, RESET_RETRY_COUNTER, PUT_DATA, ACTIVATE_FILE} ==>
            s'.pins == s.pins)
      && (cmd.ins !in {PUT_DATA, PUT_DATA_ODD, GENERATE_KEY, PSO, TERMINATE_DF, ACTIVATE_FILE} ==> s'.card == s.card)
      && (cmd.ins != ACTIVATE_FILE ==> s'.commandBuffer == s.commandBuffer && s'.chainingIns == s.chainingIns)
      && s'.currentLe == s.currentLe
  {
    hide GetData, Verify, Change, ResetWithCode, NewPw1, StoreObject, StoreResetCode, ImportKey, PublicKey,
      VerifyTarget;
  }

  /** The handled command is of this instruction. */
  predicate Is(s: State, cmd: Apdu, ins: Byte) { Handled(s, cmd).Some? && cmd.ins == ins }

  predicate Activates(s: State, e: Event) { e.Command? && Is(s, e.cmd, ACTIVATE_FILE) }

  predicate EndsSession(s: State, e: Event) { e.SessionReset? || Activates(s, e) }

  lemma ActivationState(c: Crypto, s: State, e: Event)
    requires Activates(s, e)
    ensures var s' := Next(c, s, e);
            s'.card == FACTORY_CARD && s'.pins == FactoryPins(c.hash) && s'.security == Cleared(s.security)
  {
    hide Dispatch;
    HandledIs(c, s, e.cmd, e.env);
    Activated(c, Ready(s, e.cmd), Handled(s, e.cmd).value, e.env);
  }

  lemma Activated(c: Crypto, s: State, cmd: Apdu, env: Env)
    requires cmd.ins == ACTIVATE_FILE
    ensures Dispatch(c, s, cmd, env) == Activate(c, s)
  {
    hide Activate;
  }
}

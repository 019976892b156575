/** Command chaining: blocks are equivalent to one command with all their data. */
module OpenPgpChaining {
  import opened Wrappers
  import opened ByteStrings
  import opened Apdu
  import opened PinManager
  import opened OpenPgpKeys
  import opened OpenPgp
  import OpenPgpRuns

  /** What may come while a chain of instruction ins is sent: its blocks, and GET RESPONSE. */
  predicate ChainTraffic(ms: seq<Apdu>, ins: Byte) {
    forall i :: 0 <= i < |ms| ==> ms[i].ins == GET_RESPONSE || (Chained(ms[i]) && ms[i].ins == ins)
  }

  /** The data of the blocks, in order. */
  function Blocks(ms: seq<Apdu>): Bytes {
    if ms == [] then []
    else if ms[0].ins == GET_RESPONSE then Blocks(ms[1..])
    else ms[0].data + Blocks(ms[1..])
  }

  predicate HasBlock(ms: seq<Apdu>) { exists i :: 0 <= i < |ms| && ms[i].ins != GET_RESPONSE }

  function GetsOf(ms: seq<Apdu>): seq<Apdu> {
    if ms == [] then []
    else if ms[0].ins == GET_RESPONSE then [ms[0]] + GetsOf(ms[1..])
    else GetsOf(ms[1..])
  }

  function After(c: Crypto, s: State, ms: seq<Apdu>, env: Env): State
    decreases |ms|
  {
    if ms == [] then s else After(c, Process(c, s, ms[0], env).state, ms[1..], env)
  }

  /** The answers to the GET RESPONSE commands among the messages. */
  function Answers(c: Crypto, s: State, ms: seq<Apdu>, env: Env): seq<Response>
    decreases |ms|
  {
    if ms == [] then []
    else
      var r := Process(c, s, ms[0], env);
      if ms[0].ins == GET_RESPONSE then [r.response] + Answers(c, r.state, ms[1..], env)
      else Answers(c, r.state, ms[1..], env)
  }

  /** The state without chain and Le. */
  function Plain(s: State): State { s.(commandBuffer := [], chainingIns := None, currentLe := None) }

  predicate ChainOpen(s: State, ins: Byte) {
    s.chainingIns == Some(ins) || (s.chainingIns == None && s.commandBuffer == [])
  }

  lemma GetIgnoresChain(c: Crypto, s: State, t: State, get: Apdu, env: Env)
    requires Plain(s) == Plain(t) && get.ins == GET_RESPONSE
    ensures var r, q := Process(c, s, get, env), Process(c, t, get, env);
      && Plain(r.state) == Plain(q.state) && r.response == q.response
      && r.state.commandBuffer == s.commandBuffer && r.state.chainingIns == s.chainingIns
  {}

  lemma BlockStep(c: Crypto, s: State, block: Apdu, env: Env)
    requires Chained(block) && block.ins != GET_RESPONSE && ChainOpen(s, block.ins)
    ensures var r := Process(c, s, block, env);
      && r.response == Success([]) && Plain(r.state) == Plain(s)
      && r.state.commandBuffer == s.commandBuffer + block.data && r.state.chainingIns == Some(block.ins)
  {}

  /** The messages from s collect their blocks and otherwise do what their GET RESPONSE
      commands do from t. */
  predicate Collected(c: Crypto, s: State, t: State, ms: seq<Apdu>, ins: Byte, env: Env) {
    var s', t' := After(c, s, ms, env), After(c, t, GetsOf(ms), env);
    && Plain(s') == Plain(t') && Answers(c, s, ms, env) == Answers(c, t, GetsOf(ms), env)
    && s'.commandBuffer == s.commandBuffer + Blocks(ms)
    && s'.chainingIns == (if HasBlock(ms) then Some(ins) else s.chainingIns)
    && t'.commandBuffer == t.commandBuffer && t'.chainingIns == t.chainingIns
  }

  lemma GetFirst(c: Crypto, s: State, t: State, ms: seq<Apdu>, ins: Byte, env: Env)
    requires ms != [] && ms[0].ins == GET_RESPONSE && Plain(s) == Plain(t)
    requires Collected(c, Process(c, s, ms[0], env).state, Process(c, t, ms[0], env).state, ms[1..], ins, env)
    ensures Collected(c, s, t, ms, ins, env)
  {
    hide Process;
    GetIgnoresChain(c, s, t, ms[0], env);
    GetIgnoresChain(c, t, t, ms[0], env);
    HasBlockTail(ms);
    assert GetsOf(ms) == [ms[0]] + GetsOf(ms[1..]) && GetsOf(ms)[1..] == GetsOf(ms[1..]);
  }

  lemma BlockFirst(c: Crypto, s: State, t: State, ms: seq<Apdu>, ins: Byte, env: Env)
    requires ms != [] && ms[0].ins == ins != GET_RESPONSE && Chained(ms[0]) && ChainOpen(s, ins)
    requires Collected(c, Process(c, s, ms[0], env).state, t, ms[1..], ins, env)
    ensures Collected(c, s, t, ms, ins, env)
  {
    hide Process;
    BlockStep(c, s, ms[0], env);
    HasBlockTail(ms);
    assert s.commandBuffer + Blocks(ms) == (s.commandBuffer + ms[0].data) + Blocks(ms[1..]);
  }

  /** Blocks only collect data; GET RESPONSE does not disturb them, and is not disturbed. */
  lemma {:induction false} TrafficCollects(c: Crypto, s: State, t: State, ms: seq<Apdu>, ins: Byte, env: Env)
    requires ins != GET_RESPONSE && ChainTraffic(ms, ins) && ChainOpen(s, ins) && Plain(s) == Plain(t)
    ensures Collected(c, s, t, ms, ins, env)
    decreases |ms|
  {
    hide Process, Collected;
    if ms == [] {
      NothingCollected(c, s, t, ins, env);
    } else {
      var s' := Process(c, s, ms[0], env).state;
      assert ChainTraffic(ms[1..], ins);
      if ms[0].ins == GET_RESPONSE {
        GetIgnoresChain(c, s, t, ms[0], env);
        TrafficCollects(c, s', Process(c, t, ms[0], env).state, ms[1..], ins, env);
        GetFirst(c, s, t, ms, ins, env);
      } else {
        BlockStep(c, s, ms[0], env);
        TrafficCollects(c, s', t, ms[1..], ins, env);
        BlockFirst(c, s, t, ms, ins, env);
      }
    }
  }

  lemma NothingCollected(c: Crypto, s: State, t: State, ins: Byte, env: Env)
    requires Plain(s) == Plain(t)
    ensures Collected(c, s, t, [], ins, env)
  {}

  lemma HasBlockTail(ms: seq<Apdu>)
    requires ms != []
    ensures HasBlock(ms) <==> ms[0].ins != GET_RESPONSE || HasBlock(ms[1..])
  {
    if HasBlock(ms) && ms[0].ins == GET_RESPONSE {
      var i :| 0 <= i < |ms| && ms[i].ins != GET_RESPONSE;
      assert ms[1..][i - 1].ins != GET_RESPONSE;
    }
    if HasBlock(ms[1..]) {
      var i :| 0 <= i < |ms[1..]| && ms[1..][i].ins != GET_RESPONSE;
      assert ms[i + 1].ins != GET_RESPONSE;
    }
  }

  /** A command of another instruction breaks an open chain: it is refused with 6985 and the chain
      is forgotten, unless it is GET RESPONSE, or a final command while nothing is buffered. */
  lemma ChainBreaks(c: Crypto, s: State, cmd: Apdu, env: Env)
    requires s.chainingIns.Some? && s.chainingIns != Some(cmd.ins) && cmd.ins != GET_RESPONSE
    requires Chained(cmd) || s.commandBuffer != []
    ensures Process(c, s, cmd, env)
         == Reply(s.(currentLe := cmd.le, commandBuffer := [], chainingIns := None), Response([], 0x69, 0x85))
  {}

  /** The reply of a state that differs in the chained instruction only. */
  function WithChain(r: Reply, chain: Option<Byte>): Reply { Reply(r.state.(chainingIns := chain), r.response) }

  lemma KeyHandlersIgnoreChain(c: Crypto, s: State, chain: Option<Byte>, cmd: Apdu, env: Env)
    requires cmd.ins in {GENERATE_KEY, INTERNAL_AUTHENTICATE}
    ensures var r, q := Dispatch(c, s, cmd, env), Dispatch(c, s.(chainingIns := chain), cmd, env);
            q == WithChain(r, chain) && r.state.chainingIns == s.chainingIns
  {
    hide PublicKey, AuthenticateData, Generated, FingerprintOf, GenerateSlot, StatusOf;
  }

  lemma OperationsIgnoreChain(c: Crypto, s: State, chain: Option<Byte>, cmd: Apdu, env: Env)
    requires cmd.ins == PSO
    ensures var r, q := Dispatch(c, s, cmd, env), Dispatch(c, s.(chainingIns := chain), cmd, env);
            q == WithChain(r, chain) && r.state.chainingIns == s.chainingIns
  {
    hide SignData, DecipherData, StatusOf;
  }

  lemma PinHandlersIgnoreChain(c: Crypto, s: State, chain: Option<Byte>, cmd: Apdu, env: Env)
    requires cmd.ins in {VERIFY, CHANGE_REFERENCE_DATA, RESET_RETRY_COUNTER}
    ensures var r, q := Dispatch(c, s, cmd, env), Dispatch(c, s.(chainingIns := chain), cmd, env);
            q == WithChain(r, chain) && r.state.chainingIns == s.chainingIns
  {
    hide Verify, Change, ResetWithCode, NewPw1, VerifyTarget, Stripped;
  }

  lemma OtherHandlersIgnoreChain(c: Crypto, s: State, chain: Option<Byte>, cmd: Apdu, env: Env)
    requires cmd.ins !in {VERIFY, CHANGE_REFERENCE_DATA, RESET_RETRY_COUNTER, ACTIVATE_FILE}
    requires cmd.ins !in {GENERATE_KEY, PSO, INTERNAL_AUTHENTICATE}
    ensures var r, q := Dispatch(c, s, cmd, env), Dispatch(c, s.(chainingIns := chain), cmd, env);
            q == WithChain(r, chain) && r.state.chainingIns == s.chainingIns
  {
    hide DataObject, StoreObject, StoreResetCode, ImportKey, PutAccess;
  }

  /** No handler reads the chained instruction; only ACTIVATE FILE writes it. */
  lemma HandlersIgnoreChain(c: Crypto, s: State, chain: Option<Byte>, cmd: Apdu, env: Env)
    ensures var r, q := Dispatch(c, s, cmd, env), Dispatch(c, s.(chainingIns := chain), cmd, env);
      if cmd.ins == ACTIVATE_FILE then q == r
      else q == WithChain(r, chain) && r.state.chainingIns == s.chainingIns
  {
    if cmd.ins == ACTIVATE_FILE {
    } else {
      hide Dispatch;
      if cmd.ins == PSO {
        OperationsIgnoreChain(c, s, chain, cmd, env);
      } else if cmd.ins in {GENERATE_KEY, INTERNAL_AUTHENTICATE} {
        KeyHandlersIgnoreChain(c, s, chain, cmd, env);
      } else if cmd.ins in {VERIFY, CHANGE_REFERENCE_DATA, RESET_RETRY_COUNTER} {
        PinHandlersIgnoreChain(c, s, chain, cmd, env);
      } else {
        OtherHandlersIgnoreChain(c, s, chain, cmd, env);
      }
    }
  }

  /** The final command after chain traffic, against one unchained command with all the data
      after the same GET RESPONSE commands: always the same answer, and the same state exactly
      if no block was sent, some block had data, or the command is ACTIVATE FILE. A chain of
      empty blocks otherwise leaves its instruction behind. */
  lemma ChainedIsUnchained(c: Crypto, s: State, ms: seq<Apdu>, last: Apdu, env: Env, env': Env)
    requires s.chainingIns == None && s.commandBuffer == []
    requires last.ins != GET_RESPONSE && !Chained(last) && ChainTraffic(ms, last.ins)
    ensures var whole := last.(data := Blocks(ms) + last.data);
      var sent := Process(c, After(c, s, ms, env), last, env');
      var direct := Process(c, After(c, s, GetsOf(ms), env), whole, env');
      && sent.response == direct.response
      && Answers(c, s, ms, env) == Answers(c, s, GetsOf(ms), env)
      && (sent.state == direct.state <==> !HasBlock(ms) || Blocks(ms) != [] || last.ins == ACTIVATE_FILE)
  {
    hide Dispatch, ChainTraffic, HasBlock;
    var whole := last.(data := Blocks(ms) + last.data);
    var s', t' := After(c, s, ms, env), After(c, s, GetsOf(ms), env);
    TrafficCollects(c, s, s, ms, last.ins, env);
    assert s'.commandBuffer == Blocks(ms);
    if !HasBlock(ms) { NoBlocks(ms); }
    LastStep(c, s', t', last, whole, env');
  }

  /** The last command in the collected state and in the state without the chain. */
  lemma LastStep(c: Crypto, s: State, t: State, last: Apdu, whole: Apdu, env: Env)
    requires Plain(s) == Plain(t) && t.commandBuffer == [] && t.chainingIns == None
    requires s.chainingIns in {None, Some(last.ins)} && (s.commandBuffer != [] ==> s.chainingIns.Some?)
    requires last.ins != GET_RESPONSE && !Chained(last) && whole == last.(data := s.commandBuffer + last.data)
    ensures var sent, direct := Process(c, s, last, env), Process(c, t, whole, env);
      && sent.response == direct.response
      && (sent.state == direct.state <==>
            s.chainingIns.None? || s.commandBuffer != [] || last.ins == ACTIVATE_FILE)
  {
    hide Dispatch;
    var ready := t.(currentLe := last.le);
    if s.commandBuffer != [] {
      assert ChainClosed(s.(currentLe := last.le)) == ready;
    } else {
      assert whole.data == last.data && whole == last;
      assert s.(currentLe := last.le) == ready.(chainingIns := s.chainingIns);
      HandlersIgnoreChain(c, ready, s.chainingIns, last, env);
    }
  }

  lemma {:induction false} NoBlocks(ms: seq<Apdu>)
    requires !HasBlock(ms)
    ensures Blocks(ms) == []
  {
    if ms != [] {
      HasBlockTail(ms);
      NoBlocks(ms[1..]);
    }
  }

  /** Outside a chain the buffer is empty. */
  predicate NoChainNoBuffer(s: State) { s.chainingIns == None ==> s.commandBuffer == [] }

  lemma CommandKeepsNoChain(c: Crypto, s: State, cmd: Apdu, env: Env)
    requires NoChainNoBuffer(s)
    ensures NoChainNoBuffer(Process(c, s, cmd, env).state)
  {
    hide Dispatch;
    var r := s.(currentLe := cmd.le);
    var ready := if s.commandBuffer != [] then ChainClosed(r) else r;
    var full := if s.commandBuffer != []
                then cmd.(cla := ClearChainBit(cmd.cla), data := s.commandBuffer + cmd.data) else cmd;
    BufferKept(c, ready, full, env);
  }

  /** In every run there is buffered data only while a chain is open. */
  lemma {:induction false} NoChainStaysEmpty(c: Crypto, s: State, es: seq<OpenPgpRuns.Event>, i: nat)
    requires i <= |es| && NoChainNoBuffer(s)
    ensures NoChainNoBuffer(OpenPgpRuns.StateAt(c, s, es, i))
  {
    hide Process;
    if i > 0 {
      NoChainStaysEmpty(c, s, es, i - 1);
      match es[i - 1]
      case Command(cmd, env) => CommandKeepsNoChain(c, OpenPgpRuns.StateAt(c, s, es, i - 1), cmd, env);
      case SessionReset =>
    }
  }

  lemma BufferKept(c: Crypto, s: State, cmd: Apdu, env: Env)
    ensures var s' := Dispatch(c, s, cmd, env).state;
      if cmd.ins == ACTIVATE_FILE then s'.commandBuffer == []
      else s'.commandBuffer == s.commandBuffer && s'.chainingIns == s.chainingIns
  {
    hide GetData, StoreObject, ImportKey, PublicKey;
  }
}

/** The applets do not influence each other: each behaves as if it were alone on the card. */
module Isolation {
  import opened ByteStrings
  import opened VirtualCard
  import OpenPgp
  import OpenPgpKeys
  import OpenPgpRuns
  import Piv
  import PivRuns

  /** Active applet and power after an event, from these alone. */
  function NextControl(c: Control, e: Event): Control {
    match e
    case PowerOn => Control(NoApplet, true)
    case PowerOff => Control(NoApplet, false)
    case CardReset => Control(NoApplet, true)
    case Transmit(apdu, _) => c.(active := RouteOf(c, apdu).active)
  }

  // ---------------------------------------------------------------- one applet's share

  /** The events of a stream that concern the OpenPGP applet. */
  function OpenPgpShare(c: Control, es: seq<Event>): seq<OpenPgpRuns.Event>
    decreases |es|
  {
    if es == [] then []
    else OpenPgpPart(c, es[0]) + OpenPgpShare(NextControl(c, es[0]), es[1..])
  }

  function OpenPgpPart(c: Control, e: Event): seq<OpenPgpRuns.Event> {
    match e
    case PowerOn => []
    case PowerOff => [OpenPgpRuns.SessionReset]
    case CardReset => [OpenPgpRuns.SessionReset]
    case Transmit(apdu, env) =>
      var t := RouteOf(c, apdu).target;
      if t.ToOpenPgp? then [OpenPgpRuns.Command(t.cmd, env.openpgp)] else []
  }

  function PivShare(c: Control, es: seq<Event>): seq<PivRuns.Event>
    decreases |es|
  {
    if es == [] then []
    else PivPart(c, es[0]) + PivShare(NextControl(c, es[0]), es[1..])
  }

  function PivPart(c: Control, e: Event): seq<PivRuns.Event> {
    match e
    case PowerOn => []
    case PowerOff => [PivRuns.SessionReset]
    case CardReset => [PivRuns.SessionReset]
    case Transmit(apdu, env) =>
      var t := RouteOf(c, apdu).target;
      if t.ToPiv? then [PivRuns.Command(t.cmd, env.piv)] else []
  }

  // ---------------------------------------------------------------- running alone

  /** Final state and answers, as bytes, of an applet that is alone. */
  datatype OpenPgpRun = OpenPgpRun(state: OpenPgp.State, answers: seq<Bytes>)

  function OpenPgpAlone(c: OpenPgpKeys.Crypto, s: OpenPgp.State, es: seq<OpenPgpRuns.Event>): OpenPgpRun
    decreases |es|
  {
    if es == [] then OpenPgpRun(s, [])
    else
      var rest := OpenPgpAlone(c, OpenPgpRuns.Next(c, s, es[0]), es[1..]);
      if es[0].SessionReset? then rest
      else
        var answer := ResponseBytes(OpenPgp.Process(c, s, es[0].cmd, es[0].env).response);
        rest.(answers := [answer] + rest.answers)
  }

  datatype PivRun = PivRun(state: Piv.State, answers: seq<Bytes>)

  function PivAlone(l: Piv.Library, s: Piv.State, es: seq<PivRuns.Event>): PivRun
    decreases |es|
  {
    if es == [] then PivRun(s, [])
    else
      var rest := PivAlone(l, PivRuns.Next(l, s, es[0]), es[1..]);
      if es[0].SessionReset? then rest
      else
        var answer := ResponseBytes(Piv.Process(l, s, es[0].cmd, es[0].env).response);
        rest.(answers := [answer] + rest.answers)
  }

  // ---------------------------------------------------------------- running together

  /** The card's final state, and the answers to what was routed to each applet. */
  datatype CardRun = CardRun(state: State, openpgpAnswers: seq<Bytes>, pivAnswers: seq<Bytes>)

  function Together(l: Library, s: State, es: seq<Event>): CardRun
    decreases |es|
  {
    if es == [] then CardRun(s, [], [])
    else
      var rest := Together(l, Next(l, s, es[0]), es[1..]);
      if !es[0].Transmit? then rest
      else
        var target := RouteOf(s.control, es[0].apdu).target;
        var answer := Process(l, s, es[0].apdu, es[0].env).answer;
        match target
        case ToOpenPgp(_) => rest.(openpgpAnswers := [answer] + rest.openpgpAnswers)
        case ToPiv(_) => rest.(pivAnswers := [answer] + rest.pivAnswers)
        case Answered(_) => rest
  }

  lemma StepShares(l: Library, s: State, e: Event)
    ensures var s', p, q := Next(l, s, e), OpenPgpPart(s.control, e), PivPart(s.control, e);
      && s'.control == NextControl(s.control, e)
      && |p| <= 1 && |q| <= 1
      && s'.openpgp == (if p == [] then s.openpgp else OpenPgpRuns.Next(l.openpgp, s.openpgp, p[0]))
      && s'.piv == (if q == [] then s.piv else PivRuns.Next(l.piv, s.piv, q[0]))
  {
    hide OpenPgp.Process, Piv.Process, RouteOf;
  }

  lemma AnswerShares(l: Library, s: State, apdu: Bytes, env: Env)
    ensures var a, t := Process(l, s, apdu, env).answer, RouteOf(s.control, apdu).target;
      && (t.ToOpenPgp? ==> a == ResponseBytes(OpenPgp.Process(l.openpgp, s.openpgp, t.cmd, env.openpgp).response))
      && (t.ToPiv? ==> a == ResponseBytes(Piv.Process(l.piv, s.piv, t.cmd, env.piv).response))
      && (t.Answered? ==> a == t.bytes)
  {
    hide OpenPgp.Process, Piv.Process, RouteOf;
  }

  /** In any interleaved stream of commands, power changes and resets each applet ends in the
      state, and gives the answers, of a run of only the events that concern it. */
  lemma {:induction false} AppletsAreIsolated(l: Library, s: State, es: seq<Event>)
    ensures var run := Together(l, s, es);
      && OpenPgpAlone(l.openpgp, s.openpgp, OpenPgpShare(s.control, es))
         == OpenPgpRun(run.state.openpgp, run.openpgpAnswers)
      && PivAlone(l.piv, s.piv, PivShare(s.control, es)) == PivRun(run.state.piv, run.pivAnswers)
    decreases |es|
  {
    hide Next, Process, OpenPgp.Process, Piv.Process, RouteOf, NextControl, OpenPgpRuns.Next, PivRuns.Next;
    if es != [] {
      var e := es[0];
      var p, q := OpenPgpPart(s.control, e), PivPart(s.control, e);
      var c' := NextControl(s.control, e);
      StepShares(l, s, e);
      if e.Transmit? { AnswerShares(l, s, e.apdu, e.env); }
      AppletsAreIsolated(l, Next(l, s, e), es[1..]);
      OpenPgpAloneStep(l.openpgp, s.openpgp, p, OpenPgpShare(c', es[1..]));
      PivAloneStep(l.piv, s.piv, q, PivShare(c', es[1..]));
    }
  }

  lemma OpenPgpAloneStep(c: OpenPgpKeys.Crypto, s: OpenPgp.State, p: seq<OpenPgpRuns.Event>,
                         rest: seq<OpenPgpRuns.Event>)
    requires |p| <= 1
    ensures OpenPgpAlone(c, s, p + rest)
         == if p == [] then OpenPgpAlone(c, s, rest)
            else
              var r := OpenPgpAlone(c, OpenPgpRuns.Next(c, s, p[0]), rest);
              if p[0].SessionReset? then r
              else r.(answers := [ResponseBytes(OpenPgp.Process(c, s, p[0].cmd, p[0].env).response)] + r.answers)
  {
    hide OpenPgp.Process, OpenPgpRuns.Next;
    if p == [] {
      assert p + rest == rest;
    } else {
      assert (p + rest)[0] == p[0] && (p + rest)[1..] == rest;
    }
  }

  lemma PivAloneStep(l: Piv.Library, s: Piv.State, p: seq<PivRuns.Event>, rest: seq<PivRuns.Event>)
    requires |p| <= 1
    ensures PivAlone(l, s, p + rest)
         == if p == [] then PivAlone(l, s, rest)
            else
              var r := PivAlone(l, PivRuns.Next(l, s, p[0]), rest);
              if p[0].SessionReset? then r
              else r.(answers := [ResponseBytes(Piv.Process(l, s, p[0].cmd, p[0].env).response)] + r.answers)
  {
    hide Piv.Process, PivRuns.Next;
    if p == [] {
      assert p + rest == rest;
    } else {
      assert (p + rest)[0] == p[0] && (p + rest)[1..] == rest;
    }
  }

  /** Without power only PowerOn and CardReset change what the card is ready for: any number
      of commands changes nothing at all. */
  lemma {:induction false} UnpoweredIgnores(l: Library, s: State, es: seq<Event>)
    requires !s.control.powered && forall i :: 0 <= i < |es| ==> es[i].Transmit?
    ensures Together(l, s, es) == CardRun(s, [], [])
    decreases |es|
  {
    hide OpenPgp.Process, Piv.Process;
    if es != [] { UnpoweredIgnores(l, s, es[1..]); }
  }
}

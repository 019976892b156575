/** Which applet is selected, over whole streams of events, and what comes to it. */
module Routing {
  import opened ByteStrings
  import opened Apdu
  import opened VirtualCard
  import OpenPgp
  import Piv

  const OPENPGP_PREFIX: Bytes := [0xD2, 0x76, 0x00, 0x01, 0x24, 0x01]
  const PIV_PREFIX: Bytes := [0xA0, 0x00, 0x00, 0x03, 0x08]

  /** A command that the parser reads as SELECT by a name with this prefix. */
  predicate SelectsName(apdu: Bytes, prefix: Bytes) {
    && ParseApdu(apdu).Ok? && ParseApdu(apdu).value.ins == 0xA4 && ParseApdu(apdu).value.p1 == 0x04
    && prefix <= ParseApdu(apdu).value.data
  }

  /** The names of the two applets, where the OpenPGP one is looked at first. */
  predicate SelectsApplet(apdu: Bytes, a: ActiveApplet) {
    match a
    case OpenPgpActive => SelectsName(apdu, OPENPGP_PREFIX)
    case PivActive => SelectsName(apdu, PIV_PREFIX)
    case NoApplet => false
  }

  lemma NamesDiffer(apdu: Bytes)
    ensures !(SelectsName(apdu, OPENPGP_PREFIX) && SelectsName(apdu, PIV_PREFIX))
  {
    if ParseApdu(apdu).Ok? { FirstBytes(ParseApdu(apdu).value.data); }
  }

  lemma FirstBytes(name: Bytes)
    ensures OPENPGP_PREFIX <= name ==> |name| > 3 && name[0] == 0xD2
    ensures PIV_PREFIX <= name ==> |name| > 3 && name[0] == 0xA0 && name[3] == 0x03
  {
    if OPENPGP_PREFIX <= name { assert name[0] == OPENPGP_PREFIX[0]; }
    if PIV_PREFIX <= name { assert name[0] == PIV_PREFIX[0] && name[3] == PIV_PREFIX[3]; }
  }

  /** A powered card is told to select the applet. */
  predicate Chooses(s: State, e: Event, a: ActiveApplet) {
    s.control.powered && e.Transmit? && SelectsApplet(e.apdu, a)
  }

  /** Power on, power off and reset. */
  predicate Deselects(e: Event) { !e.Transmit? }

  /** One event leaves an applet selected exactly if it selects this applet, or it was selected and
      the event neither selects the other nor is a power event; power follows the power events. */
  lemma ActiveExactly(l: Library, s: State, e: Event, a: ActiveApplet)
    requires a != NoApplet
    ensures var other := if a == OpenPgpActive then PivActive else OpenPgpActive;
      Next(l, s, e).control.active == a
      <==> Chooses(s, e, a) || (s.control.active == a && !Deselects(e) && !Chooses(s, e, other))
    ensures Next(l, s, e).control.powered
       <==> if e.PowerOff? then false else if e.Transmit? then s.control.powered else true
  {
    hide ParseApdu, OpenPgp.Process, Piv.Process;
    if e.Transmit? { NamesDiffer(e.apdu); }
  }

  function StateAt(l: Library, s: State, es: seq<Event>, i: nat): State
    requires i <= |es|
  {
    if i == 0 then s else Next(l, StateAt(l, s, es, i - 1), es[i - 1])
  }

  /** In every stream the selected applet was selected by its name, with power on, and since then
      neither a power event nor the name of the other applet came. */
  lemma {:induction false} SelectedByName(l: Library, s: State, es: seq<Event>, i: nat) returns (j: nat)
    requires i <= |es| && s.control.active == NoApplet && StateAt(l, s, es, i).control.active != NoApplet
    ensures var a := StateAt(l, s, es, i).control.active;
      var other := if a == OpenPgpActive then PivActive else OpenPgpActive;
      && j < i && Chooses(StateAt(l, s, es, j), es[j], a)
      && forall k :: j < k < i ==> !Deselects(es[k]) && !Chooses(StateAt(l, s, es, k), es[k], other)
  {
    hide Next, Chooses, Deselects;
    var a := StateAt(l, s, es, i).control.active;
    var before := StateAt(l, s, es, i - 1);
    ActiveExactly(l, before, es[i - 1], a);
    if Chooses(before, es[i - 1], a) {
      j := i - 1;
    } else {
      j := SelectedByName(l, s, es, i - 1);
    }
  }

  // ---------------------------------------------------------------- what comes to the applets

  /** Every command of a powered card: which applet gets it, or what the card answers itself. */
  lemma RoutesExactly(l: Library, s: State, apdu: Bytes, env: Env)
    ensures var r := Process(l, s, apdu, env);
      var toOpenPgp := s.control.powered && ParseApdu(apdu).Ok?
                       && if ParseApdu(apdu).value.ins == 0xA4 then SelectsName(apdu, OPENPGP_PREFIX)
                          else s.control.active == OpenPgpActive;
      var toPiv := s.control.powered && ParseApdu(apdu).Ok?
                   && if ParseApdu(apdu).value.ins == 0xA4 then SelectsName(apdu, PIV_PREFIX)
                      else s.control.active == PivActive;
      && (toOpenPgp ==>
            var a := OpenPgp.Process(l.openpgp, s.openpgp, ParseApdu(apdu).value, env.openpgp);
            r.state.openpgp == a.state && r.answer == a.response.data + [a.response.sw1, a.response.sw2])
      && (!toOpenPgp ==> r.state.openpgp == s.openpgp)
      && (toPiv ==>
            var a := Piv.Process(l.piv, s.piv, ParseApdu(apdu).value, env.piv);
            r.state.piv == a.state && r.answer == a.response.data + [a.response.sw1, a.response.sw2])
      && (!toPiv ==> r.state.piv == s.piv)
  {
    hide ParseApdu, OpenPgp.Process, Piv.Process;
    NamesDiffer(apdu);
  }

  /** What the card answers itself: without power and without an applet 6985, to bytes that are no
      command 6700, to other kinds of SELECT 6D00 and to unknown names 6A82. */
  lemma OwnAnswers(l: Library, s: State, apdu: Bytes, env: Env)
    ensures !s.control.powered ==> Process(l, s, apdu, env).answer == [0x69, 0x85]
    ensures s.control.powered && ParseApdu(apdu).Err? ==> Process(l, s, apdu, env).answer == [0x67, 0x00]
    ensures s.control.powered && ParseApdu(apdu).Ok? ==>
      var cmd := ParseApdu(apdu).value;
      && (cmd.ins != 0xA4 && s.control.active == NoApplet ==> Process(l, s, apdu, env).answer == [0x69, 0x85])
      && (cmd.ins == 0xA4 && cmd.p1 != 0x04 ==> Process(l, s, apdu, env).answer == [0x6D, 0x00])
      && (cmd.ins == 0xA4 && cmd.p1 == 0x04 && cmd.data == [0xA0, 0x00, 0x00, 0x05, 0x27, 0x47, 0x11, 0x17] ==>
            Process(l, s, apdu, env).answer == MANAGEMENT_ANSWER)
      && (cmd.ins == 0xA4 && cmd.p1 == 0x04 && !(OPENPGP_PREFIX <= cmd.data) && !(PIV_PREFIX <= cmd.data)
          && cmd.data != [0xA0, 0x00, 0x00, 0x05, 0x27, 0x47, 0x11, 0x17] ==>
            Process(l, s, apdu, env).answer == [0x6A, 0x82])
  {
    hide ParseApdu, OpenPgp.Process, Piv.Process;
    FirstBytes([0xA0, 0x00, 0x00, 0x05, 0x27, 0x47, 0x11, 0x17]);
  }
}

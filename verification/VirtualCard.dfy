/** The virtual card: power, applet selection, and routing between the two applets. */
module VirtualCard {
  import opened ByteStrings
  import opened Apdu
  import OpenPgp
  import OpenPgpKeys
  import OpenPgpApplet
  import Piv
  import PivApplet

  datatype ActiveApplet = NoApplet | OpenPgpActive | PivActive

  /** What routing depends on: never on the applets' states. */
  datatype Control = Control(active: ActiveApplet, powered: bool)

  datatype State = State(openpgp: OpenPgp.State, piv: Piv.State, control: Control)

  datatype Library = Library(openpgp: OpenPgpKeys.Crypto, piv: Piv.Library)

  datatype Env = Env(openpgp: OpenPgp.Env, piv: Piv.Env)

  datatype Event = PowerOn | PowerOff | CardReset | Transmit(apdu: Bytes, env: Env)

  datatype Reply = Reply(state: State, answer: Bytes)

  // ---------------------------------------------------------------- routing

  datatype Target = ToOpenPgp(cmd: Apdu) | ToPiv(cmd: Apdu) | Answered(bytes: Bytes)

  datatype Route = Route(target: Target, active: ActiveApplet)

  const MANAGEMENT_AID: Bytes := [0xA0, 0x00, 0x00, 0x05, 0x27, 0x47, 0x11, 0x17]

  /** "jcecard - FW version 5.4.3" and 9000. */
  const MANAGEMENT_ANSWER: Bytes :=
    [0x6A, 0x63, 0x65, 0x63, 0x61, 0x72, 0x64, 0x20, 0x2D, 0x20, 0x46, 0x57, 0x20, 0x76, 0x65, 0x72, 0x73, 0x69,
     0x6F, 0x6E, 0x20, 0x35, 0x2E, 0x34, 0x2E, 0x33, 0x90, 0x00]

  function RouteOf(c: Control, apdu: Bytes): Route {
    if !c.powered then Route(Answered([0x69, 0x85]), c.active)
    else
      match ParseApdu(apdu)
      case Err(_) => Route(Answered([0x67, 0x00]), c.active)
      case Ok(cmd) =>
        if cmd.ins == 0xA4 then
          if cmd.p1 != 0x04 then Route(Answered([0x6D, 0x00]), c.active)
          else if OpenPgp.AID_PREFIX <= cmd.data then Route(ToOpenPgp(cmd), OpenPgpActive)
          else if Piv.PIV_AID <= cmd.data then Route(ToPiv(cmd), PivActive)
          else if cmd.data == MANAGEMENT_AID then Route(Answered(MANAGEMENT_ANSWER), c.active)
          else Route(Answered([0x6A, 0x82]), c.active)
        else
          match c.active
          case OpenPgpActive => Route(ToOpenPgp(cmd), c.active)
          case PivActive => Route(ToPiv(cmd), c.active)
          case NoApplet => Route(Answered([0x69, 0x85]), c.active)
  }

  function ResponseBytes(r: Response): Bytes { r.data + [r.sw1, r.sw2] }

  function Process(l: Library, s: State, apdu: Bytes, env: Env): Reply {
    var route := RouteOf(s.control, apdu);
    var control := s.control.(active := route.active);
    match route.target
    case ToOpenPgp(cmd) =>
      var r := OpenPgp.Process(l.openpgp, s.openpgp, cmd, env.openpgp);
      Reply(State(r.state, s.piv, control), ResponseBytes(r.response))
    case ToPiv(cmd) =>
      var r := Piv.Process(l.piv, s.piv, cmd, env.piv);
      Reply(State(s.openpgp, r.state, control), ResponseBytes(r.response))
    case Answered(bytes) => Reply(s.(control := control), bytes)
  }

  function SessionsReset(s: State, control: Control): State {
    State(OpenPgp.ResetSession(s.openpgp), Piv.ResetSession(s.piv), control)
  }

  function Next(l: Library, s: State, e: Event): State {
    match e
    case PowerOn => s.(control := Control(NoApplet, true))
    case PowerOff => SessionsReset(s, Control(NoApplet, false))
    case CardReset => SessionsReset(s, Control(NoApplet, true))
    case Transmit(apdu, env) => Process(l, s, apdu, env).state
  }

  // ---------------------------------------------------------------- the card

  class VirtualCard {
    const openpgp: OpenPgpApplet.OpenPgpApplet
    const piv: PivApplet.PivApplet
    var active: ActiveApplet
    var powered: bool

    constructor (openpgp: OpenPgpApplet.OpenPgpApplet, piv: PivApplet.PivApplet)
      ensures this.openpgp == openpgp && this.piv == piv
      ensures Value() == State(openpgp.Value(), piv.Value(), Control(NoApplet, false))
    {
      this.openpgp, this.piv := openpgp, piv;
      active, powered := NoApplet, false;
    }

    ghost function Value(): State
      reads this, openpgp, openpgp.pins, openpgp.security, piv
    {
      State(openpgp.Value(), piv.Value(), Control(active, powered))
    }

    function Libraries(): Library { Library(openpgp.crypto, piv.library) }

    method ProcessApdu(apdu: Bytes, env: Env) returns (answer: Bytes)
      modifies this, openpgp, openpgp.pins, openpgp.security, piv
      ensures Reply(Value(), answer) == Process(Libraries(), old(Value()), apdu, env)
    {
      hide OpenPgp.Process, Piv.Process, ParseApdu;
      if !powered {
        return [0x69, 0x85];
      }
      var parsed := ParseApdu(apdu);
      if parsed.Err? {
        return [0x67, 0x00];
      }
      var cmd := parsed.value;
      if cmd.ins == 0xA4 {
        if cmd.p1 == 0x04 {
          answer := HandleSelect(cmd, env);
        } else {
          answer := [0x6D, 0x00];
        }
        return;
      }
      match active {
        case OpenPgpActive =>
          var r := openpgp.ProcessApdu(cmd, env.openpgp);
          answer := ResponseBytes(r);
        case PivActive =>
          var r := piv.ProcessApdu(cmd, env.piv);
          answer := ResponseBytes(r);
        case NoApplet =>
          answer := [0x69, 0x85];
      }
    }

    /** The four outcomes of a SELECT by name. */
    method HandleSelect(cmd: Apdu, env: Env) returns (answer: Bytes)
      modifies this, openpgp, openpgp.pins, openpgp.security, piv
      ensures powered == old(powered)
      ensures if OpenPgp.AID_PREFIX <= cmd.data then
                var r := OpenPgp.Process(openpgp.crypto, old(openpgp.Value()), cmd, env.openpgp);
                openpgp.Value() == r.state && piv.Value() == old(piv.Value()) && active == OpenPgpActive
                && answer == ResponseBytes(r.response)
              else if Piv.PIV_AID <= cmd.data then
                var r := Piv.Process(piv.library, old(piv.Value()), cmd, env.piv);
                piv.Value() == r.state && openpgp.Value() == old(openpgp.Value()) && active == PivActive
                && answer == ResponseBytes(r.response)
              else
                Value() == old(Value())
                && answer == (if cmd.data == MANAGEMENT_AID then MANAGEMENT_ANSWER else [0x6A, 0x82])
    {
      hide OpenPgp.Process, Piv.Process;
      if OpenPgp.AID_PREFIX <= cmd.data {
        active := OpenPgpActive;
        var r := openpgp.ProcessApdu(cmd, env.openpgp);
        return ResponseBytes(r);
      }
      if Piv.PIV_AID <= cmd.data {
        active := PivActive;
        var r := piv.ProcessApdu(cmd, env.piv);
        return ResponseBytes(r);
      }
      if cmd.data == MANAGEMENT_AID {
        return MANAGEMENT_ANSWER;
      }
      answer := [0x6A, 0x82];
    }

    method PowerUp()
      modifies this
      ensures Value() == Next(Libraries(), old(Value()), PowerOn)
    {
      powered := true;
      active := NoApplet;
    }

    method PowerDown()
      modifies this, openpgp, openpgp.security, piv
      ensures Value() == Next(Libraries(), old(Value()), PowerOff)
    {
      powered := false;
      active := NoApplet;
      openpgp.Reset();
      piv.Reset();
    }

    method Reset()
      modifies this, openpgp, openpgp.security, piv
      ensures Value() == Next(Libraries(), old(Value()), CardReset)
    {
      openpgp.Reset();
      piv.Reset();
      active := NoApplet;
      powered := true;
    }
  }
}

/** PIN verification, change and reset, and the verified flags of a session. */
module PinManager {
  import opened ByteStrings
  import opened OpenPgpCard

  datatype PinType = PW1_81 | PW1_82 | PW3 | RC

  /** Whether a check succeeded, and the PIN record it leaves. */
  datatype Checked = Checked(ok: bool, pin: Pin)

  datatype Changed = Changed(ok: bool, pins: Pins)

  function PinOf(p: Pins, t: PinType): Pin {
    match t case PW3 => p.pw3 case RC => p.rc case _ => p.pw1
  }

  function WithPin(p: Pins, t: PinType, pin: Pin): Pins {
    match t case PW3 => p.(pw3 := pin) case RC => p.(rc := pin) case _ => p.(pw1 := pin)
  }

  /** `len() as u8`: lengths wrap at 256. */
  predicate LengthAllowed(p: Pin, pin: Bytes) { p.minLength <= |pin| % 256 <= p.maxLength }

  /** A hash is compared only with tries left and an allowed length. */
  predicate Compares(p: Pin, pin: Bytes) { p.retries > 0 && LengthAllowed(p, pin) }

  function Check(hash: Bytes -> Bytes, p: Pin, pin: Bytes): Checked {
    if p.retries == 0 then Checked(false, p)
    else if !LengthAllowed(p, pin) || hash(pin) != p.hash then Checked(false, p.(retries := p.retries - 1))
    else Checked(true, p.(retries := p.maxRetries))
  }

  function Verify(hash: Bytes -> Bytes, p: Pins, t: PinType, pin: Bytes): Changed {
    var c := Check(hash, PinOf(p, t), pin);
    Changed(c.ok, WithPin(p, t, c.pin))
  }

  function Change(hash: Bytes -> Bytes, p: Pins, t: PinType, oldPin: Bytes, newPin: Bytes): Changed {
    var v := Verify(hash, p, t, oldPin);
    var pin := PinOf(v.pins, t);
    if v.ok && LengthAllowed(pin, newPin) then
      Changed(true, WithPin(v.pins, t, pin.(hash := hash(newPin), length := |newPin| % 256)))
    else Changed(false, v.pins)
  }

  function NewPw1(hash: Bytes -> Bytes, p: Pins, newPin: Bytes): Changed {
    if LengthAllowed(p.pw1, newPin) then
      Changed(true, p.(pw1 := p.pw1.(hash := hash(newPin), length := |newPin| % 256, retries := p.pw1.maxRetries)))
    else Changed(false, p)
  }

  function ResetWithCode(hash: Bytes -> Bytes, p: Pins, code: Bytes, newPin: Bytes): Changed {
    if p.rc.hash == [] then Changed(false, p)
    else
      var v := Verify(hash, p, RC, code);
      if v.ok then NewPw1(hash, v.pins, newPin) else v
  }

  // ---------------------------------------------------------------- in place

  class PinData {
    var pw1: Pin
    var pw3: Pin
    var rc: Pin
    var validMultiple: bool

    constructor (p: Pins)
      ensures Value() == p
    {
      pw1, pw3, rc, validMultiple := p.pw1, p.pw3, p.rc, p.validMultiple;
    }

    function Value(): Pins
      reads this
    {
      Pins(pw1, pw3, rc, validMultiple)
    }

    method Set(p: Pins)
      modifies this
      ensures Value() == p
    {
      pw1, pw3, rc, validMultiple := p.pw1, p.pw3, p.rc, p.validMultiple;
    }

    method SetPin(t: PinType, pin: Pin)
      modifies this
      ensures Value() == WithPin(old(Value()), t, pin)
    {
      match t
      case PW3 => pw3 := pin;
      case RC => rc := pin;
      case _ => pw1 := pin;
    }
  }

  method VerifyPin(hash: Bytes -> Bytes, t: PinType, pin: Bytes, data: PinData) returns (ok: bool)
    modifies data
    ensures Changed(ok, data.Value()) == Verify(hash, old(data.Value()), t, pin)
  {
    var stored := PinOf(data.Value(), t);
    if stored.retries == 0 {
      return false;
    }
    var pinLen := |pin| % 256;
    if pinLen < stored.minLength || pinLen > stored.maxLength {
      data.SetPin(t, stored.(retries := stored.retries - 1));
      return false;
    }
    var pinHash := hash(pin);
    if pinHash == stored.hash {
      data.SetPin(t, stored.(retries := stored.maxRetries));
      ok := true;
    } else {
      data.SetPin(t, stored.(retries := stored.retries - 1));
      ok := false;
    }
  }

  method ChangePin(hash: Bytes -> Bytes, t: PinType, oldPin: Bytes, newPin: Bytes, data: PinData) returns (ok: bool)
    modifies data
    ensures Changed(ok, data.Value()) == Change(hash, old(data.Value()), t, oldPin, newPin)
  {
    var verified := VerifyPin(hash, t, oldPin, data);
    if !verified {
      return false;
    }
    var pin := PinOf(data.Value(), t);
    var newLen := |newPin| % 256;
    if newLen < pin.minLength || newLen > pin.maxLength {
      return false;
    }
    data.SetPin(t, pin.(hash := hash(newPin), length := newLen));
    ok := true;
  }

  method ResetPw1WithRc(hash: Bytes -> Bytes, code: Bytes, newPin: Bytes, data: PinData) returns (ok: bool)
    modifies data
    ensures Changed(ok, data.Value()) == ResetWithCode(hash, old(data.Value()), code, newPin)
  {
    if data.rc.hash == [] {
      return false;
    }
    var verified := VerifyPin(hash, RC, code, data);
    if !verified {
      return false;
    }
    ok := ResetPw1WithPw3(hash, newPin, data);
  }

  method ResetPw1WithPw3(hash: Bytes -> Bytes, newPin: Bytes, data: PinData) returns (ok: bool)
    modifies data
    ensures Changed(ok, data.Value()) == NewPw1(hash, old(data.Value()), newPin)
  {
    var newLen := |newPin| % 256;
    if newLen < data.pw1.minLength || newLen > data.pw1.maxLength {
      return false;
    }
    data.pw1 := data.pw1.(hash := hash(newPin));
    data.pw1 := data.pw1.(length := newLen);
    data.pw1 := data.pw1.(retries := data.pw1.maxRetries);
    ok := true;
  }

  // ---------------------------------------------------------------- session flags

  datatype Condition = CONDITION_81 | CONDITION_82 | CONDITION_PW3

  /** Which PINs were verified, and the cached copy of the stored single-use setting. */
  datatype Security = Security(pw1Sign: bool, pw1Other: bool, pw3: bool, validMultiple: bool)

  function Holds(s: Security, c: Condition): bool {
    match c case CONDITION_81 => s.pw1Sign case CONDITION_82 => s.pw1Other case CONDITION_PW3 => s.pw3
  }

  function Granted(s: Security, c: Condition): Security {
    match c
    case CONDITION_81 => s.(pw1Sign := true)
    case CONDITION_82 => s.(pw1Other := true)
    case CONDITION_PW3 => s.(pw3 := true)
  }

  function Cleared(s: Security): Security { s.(pw1Sign := false, pw1Other := false, pw3 := false) }

  function Signed(s: Security): Security { if s.validMultiple then s else s.(pw1Sign := false) }

  class SecurityState {
    var pw1Sign: bool
    var pw1Other: bool
    var pw3: bool
    var validMultiple: bool

    constructor ()
      ensures Value() == Security(false, false, false, true)
    {
      pw1Sign, pw1Other, pw3, validMultiple := false, false, false, true;
    }

    function Value(): Security
      reads this
    {
      Security(pw1Sign, pw1Other, pw3, validMultiple)
    }

    predicate IsVerified(c: Condition)
      reads this
    {
      match c case CONDITION_81 => pw1Sign case CONDITION_82 => pw1Other case CONDITION_PW3 => pw3
    }

    method SetVerified(c: Condition)
      modifies this
      ensures Value() == Granted(old(Value()), c)
    {
      match c
      case CONDITION_81 => pw1Sign := true;
      case CONDITION_82 => pw1Other := true;
      case CONDITION_PW3 => pw3 := true;
    }

    method ClearAll()
      modifies this
      ensures Value() == Cleared(old(Value()))
    {
      pw1Sign := false;
      pw1Other := false;
      pw3 := false;
    }

    method AfterSign()
      modifies this
      ensures Value() == Signed(old(Value()))
    {
      if !validMultiple {
        pw1Sign := false;
      }
    }

    method SetPw1ValidMultiple(valid: bool)
      modifies this
      ensures Value() == old(Value()).(validMultiple := valid)
    {
      validMultiple := valid;
    }
  }
}

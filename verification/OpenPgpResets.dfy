/** RESET RETRY COUNTER: when it is accepted, and which PIN and reset code are in force then. */
module OpenPgpResets {
  import opened ByteStrings
  import opened Apdu
  import opened PinManager
  import opened OpenPgpKeys
  import opened OpenPgp
  import opened OpenPgpRuns
  import opened OpenPgpPins

  const DONE := Response([], 0x90, 0x00)

  /** The new PIN of either form: what follows the reset code, or all of the data. */
  function NewPin(s: State, reset: Apdu): Bytes {
    if reset.p1 == 0x00 && |reset.data| > s.pins.rc.length then reset.data[s.pins.rc.length..] else reset.data
  }

  /** With the reset code: it must be set, not blocked, and right, and the new PIN of an allowed
      length. Too little data answers 6700, everything else 6982. */
  lemma ResetByCode(c: Crypto, s: State, reset: Apdu)
    requires reset.p1 == 0x00 && reset.p2 == 0x81
    ensures var rc, r := s.pins.rc, ResetPw(c, s, reset);
      if |reset.data| <= rc.length then r == Reply(s, Response([], 0x67, 0x00))
      else
        var code := reset.data[..rc.length];
        if rc.hash != [] && rc.retries > 0 && LengthAllowed(rc, code) && c.hash(code) == rc.hash
           && LengthAllowed(s.pins.pw1, NewPin(s, reset))
        then r.response == DONE
        else r.response == Response([], 0x69, 0x82)
  {}

  /** With PW3: it must be verified, and the new PIN of an allowed length. */
  lemma ResetByAdmin(c: Crypto, s: State, reset: Apdu)
    requires reset.p1 == 0x02 && reset.p2 == 0x81
    ensures var r := ResetPw(c, s, reset);
      if !s.security.pw3 then r == Reply(s, Response([], 0x69, 0x82))
      else if LengthAllowed(s.pins.pw1, reset.data) then r.response == DONE
      else r == Reply(s, Response([], 0x6A, 0x80))
  {}

  /** Other parameters answer 6B00. */
  lemma ResetRefuses(c: Crypto, s: State, reset: Apdu)
    requires reset.p2 != 0x81 || reset.p1 !in {0x00, 0x02}
    ensures ResetPw(c, s, reset) == Reply(s, Response([], 0x6B, 0x00))
  {}

  /** An accepted reset replaces the hash and length of PW1 and refills its counter and, if it was
      used, that of the reset code; nothing else changes. */
  lemma ResetPin(c: Crypto, s: State, reset: Apdu)
    requires ResetPw(c, s, reset).response == DONE
    ensures var pw1, rc := s.pins.pw1, s.pins.rc;
      var chosen := NewPin(s, reset);
      && reset.p2 == 0x81 && reset.p1 in {0x00, 0x02} && LengthAllowed(pw1, chosen)
      && ResetPw(c, s, reset).state == s.(pins := s.pins.(
           pw1 := pw1.(hash := c.hash(chosen), length := |chosen| % 256, retries := pw1.maxRetries),
           rc := if reset.p1 == 0x00 then rc.(retries := rc.maxRetries) else rc))
  {}

  /** After an accepted RESET RETRY COUNTER of either form VERIFY 81 or 82 with the new PIN
      succeeds exactly if it has no 00 or FF byte, or what is left without them has an allowed
      length and the same hash. */
  lemma ResetPinVerifies(c: Crypto, s: State, reset: Apdu, verify: Apdu)
    requires ResetPw(c, s, reset).response == DONE && s.pins.pw1.maxRetries > 0
    requires verify.p2 in {0x81, 0x82} && verify.data == NewPin(s, reset) && verify.data != []
    ensures var left := Stripped(verify.data);
      Accepted(VerifyPw(c, ResetPw(c, s, reset).state, verify).response)
      <==> NoPadding(verify.data) || (LengthAllowed(s.pins.pw1, left) && c.hash(left) == c.hash(verify.data))
  {
    hide Stripped, ResetPw, VerifyPw;
    StrippedShortens(verify.data);
    ResetPin(c, s, reset);
    VerifyAccepted(c, ResetPw(c, s, reset).state, verify);
  }

  // ---------------------------------------------------------------- the reset code

  /** PUT DATA D3, with PW3 verified: stores or clears the reset code, and nothing else. */
  lemma CodeStored(c: Crypto, s: State, code: Bytes)
    requires s.security.pw3
    ensures var rc, r := s.pins.rc, PutData(c, s, 0x00D3, code);
      if code == [] then
        r == Reply(s.(pins := s.pins.(rc := rc.(hash := [], length := 0))), DONE)
      else if |code| % 256 < rc.minLength then r == Reply(s, Response([], 0x67, 0x00))
      else
        r == Reply(s.(pins := s.pins.(rc := rc.(hash := c.hash(code), length := |code| % 256,
                                                retries := rc.maxRetries))), DONE)
  {
    hide StoreObject;
  }

  /** A stored reset code is the one that RESET RETRY COUNTER takes, before a new PIN of an allowed
      length: for codes of up to 255 bytes exactly if the code is not longer than its maximum,
      which PUT DATA does not check. */
  lemma StoredCodeResets(c: Crypto, s: State, code: Bytes, pin: Bytes, reset: Apdu)
    requires s.security.pw3 && code != [] && PutData(c, s, 0x00D3, code).response == DONE && |code| < 256
    requires c.hash(code) != [] && s.pins.rc.maxRetries > 0 && pin != [] && LengthAllowed(s.pins.pw1, pin)
    requires reset.p1 == 0x00 && reset.p2 == 0x81 && reset.data == code + pin
    ensures var t := PutData(c, s, 0x00D3, code).state;
      && NewPin(t, reset) == pin
      && (ResetPw(c, t, reset).response == DONE <==> |code| <= s.pins.rc.maxLength)
  {
    hide PutData, ResetPw;
    CodeStored(c, s, code);
    ResetByCode(c, PutData(c, s, 0x00D3, code).state, reset);
    assert reset.data[..|code|] == code && reset.data[|code|..] == pin;
  }

  /** A longer code is split at the low byte of its length. */
  lemma LongCodeResets(c: Crypto, s: State, code: Bytes, pin: Bytes, reset: Apdu)
    requires s.security.pw3 && PutData(c, s, 0x00D3, code).response == DONE && |code| >= 256
    requires c.hash(code) != [] && s.pins.rc.maxRetries > 0
    requires reset.p1 == 0x00 && reset.p2 == 0x81 && reset.data == code + pin
    ensures var k := |code| % 256;
      ResetPw(c, PutData(c, s, 0x00D3, code).state, reset).response == DONE
      <==> LengthAllowed(s.pins.rc, code[..k]) && c.hash(code[..k]) == c.hash(code)
           && LengthAllowed(s.pins.pw1, code[k..] + pin)
  {
    hide PutData, ResetPw;
    CodeStored(c, s, code);
    ResetByCode(c, PutData(c, s, 0x00D3, code).state, reset);
    var k := |code| % 256;
    assert reset.data[..k] == code[..k] && reset.data[k..] == code[k..] + pin;
  }

  /** Without a reset code none is taken. */
  lemma ClearedCodeRefuses(c: Crypto, s: State, reset: Apdu)
    requires s.security.pw3 && reset.p1 == 0x00 && reset.p2 == 0x81
    ensures ResetPw(c, PutData(c, s, 0x00D3, []).state, reset).response != DONE
  {
    hide PutData, ResetPw;
    CodeStored(c, s, []);
    ResetByCode(c, PutData(c, s, 0x00D3, []).state, reset);
  }
}

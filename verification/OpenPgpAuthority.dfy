/** Which PIN stands behind what the OpenPGP applet does. */
module OpenPgpAuthority {
  import opened ByteStrings
  import opened Apdu
  import opened OpenPgpCard
  import opened PinManager
  import opened OpenPgpKeys
  import opened OpenPgp
  import opened OpenPgpRuns
  import OpenPgpKeyRuns
  import OpenPgpLifeCycle
  import OpenPgpPins

  // ---------------------------------------------------------------- the flags

  /** The PIN of a reference byte, as it is stored. */
  function Record(s: State, p2: Byte): Pin { if p2 == 0x83 then s.pins.pw3 else s.pins.pw1 }

  /** The event is a VERIFY with this reference byte whose PIN, without 00 and FF bytes, has an
      allowed length and the stored hash, while tries are left. */
  predicate Proves(c: Crypto, s: State, e: Event, p2: Byte) {
    && e.Command? && Is(s, e.cmd, VERIFY) && e.cmd.p2 == p2 && Handled(s, e.cmd).value.data != []
    && var pin, left := Record(s, p2), Stripped(Handled(s, e.cmd).value.data);
       pin.retries > 0 && LengthAllowed(pin, left) && c.hash(left) == pin.hash
  }

  /** One event sets the flags of PW3 and of PW1 for other uses exactly by such a VERIFY, and only
      the end of the session clears them; the flag for signing is set by a VERIFY 81 alone. */
  lemma FlagsExactly(c: Crypto, s: State, e: Event)
    ensures var before, after := s.security, Next(c, s, e).security;
      && (after.pw3 <==> Proves(c, s, e, 0x83) || (before.pw3 && !EndsSession(s, e)))
      && (after.pw1Other <==> Proves(c, s, e, 0x82) || (before.pw1Other && !EndsSession(s, e)))
      && (Proves(c, s, e, 0x81) ==> after.pw1Sign)
      && (after.pw1Sign ==> Proves(c, s, e, 0x81) || (before.pw1Sign && !EndsSession(s, e)))
  {
    hide Process, Dispatch, Stripped;
    if e.Command? {
      if Handled(s, e.cmd).None? {
        Unhandled(c, s, e.cmd, e.env);
      } else {
        var ready, h := Ready(s, e.cmd), Handled(s, e.cmd).value;
        HandledIs(c, s, e.cmd, e.env);
        if h.ins == ACTIVATE_FILE {
          ActivationState(c, s, e);
        } else {
          HandledFlags(c, ready, h, e.env);
        }
      }
    }
  }

  lemma HandledFlags(c: Crypto, s: State, h: Apdu, env: Env)
    requires h.ins != ACTIVATE_FILE && !s.card.terminated
    ensures var after, left := Dispatch(c, s, h, env).state.security, Stripped(h.data);
      var pin := Record(s, h.p2);
      var right := h.ins == VERIFY && h.data != [] && pin.retries > 0 && LengthAllowed(pin, left)
                   && c.hash(left) == pin.hash;
      && (after.pw3 <==> s.security.pw3 || (right && h.p2 == 0x83))
      && (after.pw1Other <==> s.security.pw1Other || (right && h.p2 == 0x82))
      && (right && h.p2 == 0x81 ==> after.pw1Sign)
      && (after.pw1Sign ==> s.security.pw1Sign || (right && h.p2 == 0x81))
  {
    hide Dispatch, Stripped, VerifyPw;
    HandlerFrame(c, s, h, env);
    if h.ins == VERIFY {
      OpenPgpPins.Routed(c, s, h, env);
      OpenPgpPins.VerifyRecords(c, s, h);
      if h.p2 in {0x81, 0x82, 0x83} {
        if h.data == [] { OpenPgpPins.VerifyAsks(c, s, h); } else { OpenPgpPins.VerifyExactly(c, s, h); }
      }
    }
    if h.ins == PSO {
      OpenPgpKeyRuns.Routed(c, s, h, env);
      OperationFlags(c, s, h);
    }
  }

  lemma OperationFlags(c: Crypto, s: State, h: Apdu)
    ensures var after := SecurityOperation(c, s, h).state.security;
      after.pw3 == s.security.pw3 && after.pw1Other == s.security.pw1Other && (after.pw1Sign ==> s.security.pw1Sign)
  {
    hide SignData, DecipherData, KeySlot.HasKey;
  }

  predicate FlagOf(security: Security, p2: Byte) {
    if p2 == 0x81 then security.pw1Sign else if p2 == 0x82 then security.pw1Other else security.pw3
  }

  /** In every run a set flag that was not set at the start has its right VERIFY behind it, in the
      same session. */
  lemma {:induction false} FlagHasPin(c: Crypto, s: State, es: seq<Event>, i: nat, p2: Byte) returns (j: nat)
    requires p2 in {0x81, 0x82, 0x83} && i <= |es|
    requires !FlagOf(s.security, p2) && FlagOf(StateAt(c, s, es, i).security, p2)
    ensures j < i && Proves(c, StateAt(c, s, es, j), es[j], p2)
    ensures forall k :: j < k < i ==> !EndsSession(StateAt(c, s, es, k), es[k])
  {
    hide Next, Proves, EndsSession;
    var before := StateAt(c, s, es, i - 1);
    FlagsExactly(c, before, es[i - 1]);
    if Proves(c, before, es[i - 1], p2) {
      j := i - 1;
    } else {
      j := FlagHasPin(c, s, es, i - 1, p2);
    }
  }

  // ---------------------------------------------------------------- PUT DATA

  /** The tags that PUT DATA writes with PW3. */
  predicate WrittenWithPw3(tag: nat) {
    || tag == 0x5B || tag == 0x5E || tag == 0x5F2D || tag == 0x5F35 || tag == 0x5F50 || tag == 0x7F21
    || 0xC1 <= tag <= 0xC4 || 0xC7 <= tag <= 0xCC || 0xCE <= tag <= 0xD0 || tag == 0xD3 || 0xD6 <= tag <= 0xD8
    || tag == 0x0103 || tag == 0x0104
  }

  predicate MayPut(security: Security, tag: nat) {
    || ((tag == 0x0101 || tag == 0x0102) && (security.pw1Sign || security.pw1Other))
    || (WrittenWithPw3(tag) && security.pw3)
  }

  /** The access table asks for exactly these PINs; without them PUT DATA answers 6982 and changes
      nothing, with them it never does. */
  lemma PutNeedsPin(c: Crypto, s: State, tag: nat, data: Bytes)
    ensures AccessGranted(s.security, PutAccess(tag)) <==> MayPut(s.security, tag)
    ensures !MayPut(s.security, tag) ==> PutData(c, s, tag, data) == Reply(s, Response([], 0x69, 0x82))
    ensures MayPut(s.security, tag) ==> PutData(c, s, tag, data).response != Response([], 0x69, 0x82)
  {
    hide StoreObject, StoreResetCode;
    AccessIs(s.security, tag);
    if MayPut(s.security, tag) { PutAnswers(c, s, tag, data); }
  }

  lemma AccessIs(security: Security, tag: nat)
    ensures AccessGranted(security, PutAccess(tag)) <==> MayPut(security, tag)
  {
    if 0xC1 <= tag <= 0xD8 {
      assert tag in {0xC1, 0xC2, 0xC3, 0xC4, 0xC5, 0xC6, 0xC7, 0xC8, 0xC9, 0xCA, 0xCB, 0xCC, 0xCD, 0xCE, 0xCF, 0xD0,
                     0xD1, 0xD2, 0xD3, 0xD4, 0xD5, 0xD6, 0xD7, 0xD8};
    }
  }

  lemma PutAnswers(c: Crypto, s: State, tag: nat, data: Bytes)
    requires AccessGranted(s.security, PutAccess(tag))
    ensures PutData(c, s, tag, data).response != Response([], 0x69, 0x82)
  {
    hide AlgorithmFromBytes, ReadTimestamp, PutAccess, AccessGranted;
  }

  // ---------------------------------------------------------------- the card

  /** The event may change card data, given the flags. */
  predicate Authorised(s: State, e: Event) {
    && e.Command? && Handled(s, e.cmd).Some?
    && var h, flags := Handled(s, e.cmd).value, s.security;
       || h.ins == ACTIVATE_FILE
       || (h.ins == PUT_DATA && MayPut(flags, P1P2(h)))
       || (h.ins == PUT_DATA_ODD && h.p1 == 0x3F && h.p2 == 0xFF && flags.pw3)
       || (h.ins == GENERATE_KEY && h.p1 == 0x80 && flags.pw3)
       || (h.ins == PSO && P1P2(h) == 0x9E9A && flags.pw1Sign)
       || (h.ins == TERMINATE_DF && OpenPgpLifeCycle.MayTerminate(s))
  }

  /** Card data changes only by a command with the PIN it needs, and by ACTIVATE FILE, which needs
      none. With FlagHasPin a right VERIFY in the same session is behind each of the former. */
  lemma CardChangesAuthorised(c: Crypto, s: State, e: Event)
    requires Next(c, s, e).card != s.card
    ensures Authorised(s, e)
  {
    hide Process, Dispatch, MayPut, P1P2;
    if e.Command? {
      if Handled(s, e.cmd).None? {
        Unhandled(c, s, e.cmd, e.env);
      } else {
        var ready, h := Ready(s, e.cmd), Handled(s, e.cmd).value;
        HandledIs(c, s, e.cmd, e.env);
        HandlerFrame(c, ready, h, e.env);
        if h.ins != ACTIVATE_FILE { HandlerAuthorised(c, ready, h, e.env); }
      }
    }
  }

  lemma HandlerAuthorised(c: Crypto, s: State, h: Apdu, env: Env)
    requires h.ins != ACTIVATE_FILE && !s.card.terminated && Dispatch(c, s, h, env).state.card != s.card
    ensures var flags := s.security;
       || (h.ins == PUT_DATA && MayPut(flags, P1P2(h)))
       || (h.ins == PUT_DATA_ODD && h.p1 == 0x3F && h.p2 == 0xFF && flags.pw3)
       || (h.ins == GENERATE_KEY && h.p1 == 0x80 && flags.pw3)
       || (h.ins == PSO && P1P2(h) == 0x9E9A && flags.pw1Sign)
       || (h.ins == TERMINATE_DF && OpenPgpLifeCycle.MayTerminate(s))
  {
    hide Dispatch, MayPut, P1P2, PutData, PutDataOdd, GenerateKey, SecurityOperation, Terminate;
    HandlerFrame(c, s, h, env);
    OpenPgpKeyRuns.Routed(c, s, h, env);
    OpenPgpLifeCycle.TerminateRouted(c, s, h, env);
    OpenPgpLifeCycle.TerminatesExactly(c, s);
    PutNeedsPin(c, s, P1P2(h), h.data);
    OthersNeedFlags(c, s, h, env);
  }

  lemma OthersNeedFlags(c: Crypto, s: State, h: Apdu, env: Env)
    ensures PutDataOdd(c, s, h).state.card != s.card ==> h.p1 == 0x3F && h.p2 == 0xFF && s.security.pw3
    ensures GenerateKey(c, s, h, env).state.card != s.card ==> h.p1 == 0x80 && s.security.pw3
    ensures SecurityOperation(c, s, h).state.card != s.card ==> P1P2(h) == 0x9E9A && s.security.pw1Sign
  {
    hide Generated, FingerprintOf, PublicKey, SignData, DecipherData, KeySlot.HasKey, GenerateSlot, ImportKey, P1P2;
  }
}

/** The PIN and PUK of the PIV applet: when they are accepted, what each try costs, and what a
    verified PIN stands for. */
module PivPins {
  import opened ByteStrings
  import opened Apdu
  import opened Piv
  import opened PivRuns
  import PivManagement
  import PivSecrets

  // ---------------------------------------------------------------- the padded field

  /** A field holds a PIN: the PIN, which has no FF, then the end of the field or an FF. */
  predicate Holds(field: Bytes, pin: Bytes) {
    pin <= field && PivSecrets.NoFF(pin) && (|pin| == |field| || field[|pin|] == 0xFF)
  }

  /** What VERIFY and CHANGE REFERENCE DATA read from a field is what it holds. */
  lemma {:induction false} FieldHolds(field: Bytes, pin: Bytes)
    ensures UntilFF(field) == pin <==> Holds(field, pin)
  {
    if field != [] && field[0] != 0xFF {
      if pin != [] && pin[0] == field[0] {
        FieldHolds(field[1..], pin[1..]);
        assert pin == [pin[0]] + pin[1..];
        assert pin <= field <==> pin[1..] <= field[1..];
        assert PivSecrets.NoFF(pin) <==> PivSecrets.NoFF(pin[1..]) by { NoFFTail(pin); }
      }
    }
  }

  lemma NoFFTail(s: Bytes)
    requires s != [] && s[0] != 0xFF
    ensures PivSecrets.NoFF(s) <==> PivSecrets.NoFF(s[1..])
  {
    if PivSecrets.NoFF(s[1..]) { assert forall i :: 1 <= i < |s| ==> s[i] == s[1..][i - 1]; }
    if PivSecrets.NoFF(s) { assert forall i :: 0 <= i < |s| - 1 ==> s[1..][i] == s[i + 1]; }
  }

  // ---------------------------------------------------------------- each command

  /** The answer that tells how many tries are left. */
  function Tries(left: nat): Response {
    if left == 0 then Response([], 0x69, 0x83) else Response([], 0x63, 0xC0 + left % 16)
  }

  const DONE := Response([], 0x90, 0x00)
  const BLOCKED := Response([], 0x69, 0x83)

  /** VERIFY of the PIN: without data it asks for the tries; a blocked PIN is not compared; the
      right one sets the flag and refills the counter, a wrong one costs a try and no more. */
  lemma VerifyPinExactly(s: State, cmd: Apdu)
    requires cmd.p2 == 0x80
    ensures var tries := s.secrets.pinRetries;
      Verify(s, cmd)
      == if cmd.data == [] then Reply(s, Response([], 0x63, 0xC0 + tries % 16))
         else if tries == 0 then Reply(s, BLOCKED)
         else if Holds(cmd.data, s.secrets.pin) then
           Reply(s.(pinVerified := true, secrets := s.secrets.(pinRetries := 3)), DONE)
         else Reply(s.(secrets := s.secrets.(pinRetries := tries - 1)), Tries(tries - 1))
  {
    hide UntilFF, Holds;
    FieldHolds(cmd.data, s.secrets.pin);
  }

  /** VERIFY of the PUK compares all the bytes and sets no flag. */
  lemma VerifyPukExactly(s: State, cmd: Apdu)
    requires cmd.p2 == 0x81
    ensures var tries := s.secrets.pukRetries;
      Verify(s, cmd)
      == if cmd.data == [] then Reply(s, Response([], 0x63, 0xC0 + tries % 16))
         else if tries == 0 then Reply(s, BLOCKED)
         else if cmd.data == s.secrets.puk then Reply(s.(secrets := s.secrets.(pukRetries := 3)), DONE)
         else Reply(s.(secrets := s.secrets.(pukRetries := tries - 1)), Tries(tries - 1))
  {}

  /** CHANGE REFERENCE DATA takes two fields of eight bytes. The right old value stores what the
      second field holds and refills the counter, a wrong one costs a try and changes nothing. */
  lemma ChangePinExactly(s: State, cmd: Apdu, chosen: Bytes)
    requires cmd.p2 == 0x80 && |cmd.data| == 16 && Holds(cmd.data[8..], chosen)
    ensures var tries := s.secrets.pinRetries;
      Change(s, cmd)
      == if tries == 0 then Reply(s, BLOCKED)
         else if Holds(cmd.data[..8], s.secrets.pin) then
           Reply(s.(secrets := s.secrets.(pin := chosen, pinRetries := 3)), DONE)
         else Reply(s.(secrets := s.secrets.(pinRetries := tries - 1)), Tries(tries - 1))
  {
    hide UntilFF, Holds;
    FieldHolds(cmd.data[..8], s.secrets.pin);
    FieldHolds(cmd.data[8..], chosen);
  }

  lemma ChangePukExactly(s: State, cmd: Apdu, chosen: Bytes)
    requires cmd.p2 == 0x81 && |cmd.data| == 16 && Holds(cmd.data[8..], chosen)
    ensures var tries := s.secrets.pukRetries;
      Change(s, cmd)
      == if tries == 0 then Reply(s, BLOCKED)
         else if Holds(cmd.data[..8], s.secrets.puk) then
           Reply(s.(secrets := s.secrets.(puk := chosen, pukRetries := 3)), DONE)
         else Reply(s.(secrets := s.secrets.(pukRetries := tries - 1)), Tries(tries - 1))
  {
    hide UntilFF, Holds;
    FieldHolds(cmd.data[..8], s.secrets.puk);
    FieldHolds(cmd.data[8..], chosen);
  }

  /** RESET RETRY COUNTER: the right PUK, all eight bytes of it, sets what the second field holds as
      PIN and refills both counters; a wrong one costs a try of the PUK. */
  lemma ResetExactly(s: State, cmd: Apdu, chosen: Bytes)
    requires cmd.p2 == 0x80 && |cmd.data| == 16 && Holds(cmd.data[8..], chosen)
    ensures var tries := s.secrets.pukRetries;
      ResetRetry(s, cmd)
      == if tries == 0 then Reply(s, BLOCKED)
         else if cmd.data[..8] == s.secrets.puk then
           Reply(s.(secrets := s.secrets.(pin := chosen, pinRetries := 3, pukRetries := 3)), DONE)
         else Reply(s.(secrets := s.secrets.(pukRetries := tries - 1)), Tries(tries - 1))
  {
    hide UntilFF, Holds;
    FieldHolds(cmd.data[8..], chosen);
  }

  /** Every field holds exactly one value. */
  lemma EveryFieldHolds(field: Bytes) returns (value: Bytes)
    ensures Holds(field, value) && forall other: Bytes :: Holds(field, other) ==> other == value
  {
    hide UntilFF, Holds;
    value := UntilFF(field);
    FieldHolds(field, value);
    forall other: Bytes | Holds(field, other) ensures other == value { FieldHolds(field, other); }
  }

  /** Wrong parameters and lengths are refused without effect. */
  lemma WrongParameters(s: State, cmd: Apdu)
    ensures cmd.p2 !in {0x80, 0x81} ==> Verify(s, cmd) == Reply(s, Response([], 0x6B, 0x00))
    ensures |cmd.data| != 16 ==> Change(s, cmd) == Reply(s, Response([], 0x67, 0x00))
    ensures |cmd.data| == 16 && cmd.p2 !in {0x80, 0x81} ==> Change(s, cmd) == Reply(s, Response([], 0x6B, 0x00))
    ensures cmd.p2 != 0x80 ==> ResetRetry(s, cmd) == Reply(s, Response([], 0x6B, 0x00))
    ensures cmd.p2 == 0x80 && |cmd.data| != 16 ==> ResetRetry(s, cmd) == Reply(s, Response([], 0x67, 0x00))
  {
    hide UntilFF;
  }

  // ---------------------------------------------------------------- tries over runs

  /** The event compares a field with the stored PIN. */
  predicate PinCompared(s: State, e: Event) {
    && Direct(s, e) && e.cmd.p2 == 0x80 && s.secrets.pinRetries > 0
    && ((e.cmd.ins == VERIFY && e.cmd.data != []) || (e.cmd.ins == CHANGE_REFERENCE_DATA && |e.cmd.data| == 16))
  }

  predicate PinRight(s: State, e: Event) {
    PinCompared(s, e) && Holds(if e.cmd.ins == VERIFY then e.cmd.data else e.cmd.data[..8], s.secrets.pin)
  }

  /** The event compares bytes with the stored PUK. */
  predicate PukCompared(s: State, e: Event) {
    && Direct(s, e) && s.secrets.pukRetries > 0
    && ((e.cmd.ins == VERIFY && e.cmd.p2 == 0x81 && e.cmd.data != [])
        || (e.cmd.ins == CHANGE_REFERENCE_DATA && e.cmd.p2 == 0x81 && |e.cmd.data| == 16)
        || (e.cmd.ins == RESET_RETRY_COUNTER && e.cmd.p2 == 0x80 && |e.cmd.data| == 16))
  }

  predicate PukRight(s: State, e: Event) {
    && PukCompared(s, e)
    && (if e.cmd.ins == VERIFY then e.cmd.data == s.secrets.puk
        else if e.cmd.ins == CHANGE_REFERENCE_DATA then Holds(e.cmd.data[..8], s.secrets.puk)
        else e.cmd.data[..8] == s.secrets.puk)
  }

  /** The right PUK in RESET RETRY COUNTER. */
  predicate Resets(s: State, e: Event) { PukRight(s, e) && e.cmd.ins == RESET_RETRY_COUNTER }

  /** What any one event does to both counters: a right value refills, a wrong one costs one try,
      and nothing else moves them. The PIN changes only with the right old PIN or PUK, the PUK only
      with the right old PUK. */
  lemma TriesExactly(l: Library, s: State, e: Event)
    ensures var a, b := s.secrets, Next(l, s, e).secrets;
      && b.pinRetries == (if PinRight(s, e) || Resets(s, e) then 3
                          else if PinCompared(s, e) then a.pinRetries - 1 else a.pinRetries)
      && b.pukRetries == (if PukRight(s, e) then 3
                          else if PukCompared(s, e) then a.pukRetries - 1 else a.pukRetries)
      && (b.pin != a.pin ==> (PinRight(s, e) && e.cmd.ins == CHANGE_REFERENCE_DATA) || Resets(s, e))
      && (b.puk != a.puk ==> PukRight(s, e) && e.cmd.ins == CHANGE_REFERENCE_DATA)
  {
    hide Process, Dispatch, Verify, Change, ResetRetry, Holds;
    if e.Command? {
      EventKinds(l, s, e);
      if Direct(s, e) {
        HandlerFrame(l, s, e.cmd, e.env);
        if e.cmd.ins in {VERIFY, CHANGE_REFERENCE_DATA, RESET_RETRY_COUNTER} {
          PivSecrets.PinRouting(l, s, e.cmd, e.env);
          WrongParameters(s, e.cmd);
          if e.cmd.ins == VERIFY {
            if e.cmd.p2 == 0x80 { VerifyPinExactly(s, e.cmd); }
            if e.cmd.p2 == 0x81 { VerifyPukExactly(s, e.cmd); }
          } else if |e.cmd.data| == 16 {
            var chosen := EveryFieldHolds(e.cmd.data[8..]);
            if e.cmd.ins == RESET_RETRY_COUNTER {
              if e.cmd.p2 == 0x80 { ResetExactly(s, e.cmd, chosen); }
            } else {
              if e.cmd.p2 == 0x80 { ChangePinExactly(s, e.cmd, chosen); }
              if e.cmd.p2 == 0x81 { ChangePukExactly(s, e.cmd, chosen); }
            }
          }
        }
      }
    }
  }

  /** How often the PIN was compared in the first i events. */
  function Comparisons(l: Library, s: State, es: seq<Event>, i: nat): nat
    requires i <= |es|
  {
    if i == 0 then 0
    else Comparisons(l, s, es, i - 1) + if PinCompared(StateAt(l, s, es, i - 1), es[i - 1]) then 1 else 0
  }

  /** Between right values and resets every comparison costs a try: there are never more than the
      counter showed, and the PIN stays. */
  lemma {:induction false} ComparisonsBounded(l: Library, s: State, es: seq<Event>, i: nat)
    requires i <= |es|
    requires forall k :: 0 <= k < i ==>
               !PinRight(StateAt(l, s, es, k), es[k]) && !Resets(StateAt(l, s, es, k), es[k])
    ensures var now := StateAt(l, s, es, i).secrets;
      Comparisons(l, s, es, i) + now.pinRetries == s.secrets.pinRetries && now.pin == s.secrets.pin
  {
    hide Next, PinCompared, PinRight, Resets, PukRight, PukCompared;
    if i > 0 {
      ComparisonsBounded(l, s, es, i - 1);
      TriesExactly(l, StateAt(l, s, es, i - 1), es[i - 1]);
      ComparedHasTries(StateAt(l, s, es, i - 1), es[i - 1]);
    }
  }

  lemma ComparedHasTries(s: State, e: Event)
    ensures PinCompared(s, e) ==> s.secrets.pinRetries > 0
  {}

  // ---------------------------------------------------------------- the verified flag

  /** The event is a direct VERIFY of the right PIN. */
  predicate Proves(s: State, e: Event) { PinRight(s, e) && e.cmd.ins == VERIFY }

  /** One event leaves the flag set exactly if it is such a VERIFY, or the flag was set and neither
      a SELECT of the applet nor a reset came. */
  lemma FlagExactly(l: Library, s: State, e: Event)
    ensures Next(l, s, e).pinVerified <==> Proves(s, e) || (s.pinVerified && !PivManagement.Forgets(s, e))
  {
    hide Process, Dispatch, Verify, Holds;
    if e.Command? {
      EventKinds(l, s, e);
      if Direct(s, e) {
        if e.cmd.ins == VERIFY {
          PivSecrets.PinRouting(l, s, e.cmd, e.env);
          WrongParameters(s, e.cmd);
          if e.cmd.p2 == 0x80 { VerifyPinExactly(s, e.cmd); }
          if e.cmd.p2 == 0x81 { VerifyPukExactly(s, e.cmd); }
        } else {
          OthersKeepFlag(l, s, e.cmd, e.env);
        }
      }
    }
  }

  lemma OthersKeepFlag(l: Library, s: State, cmd: Apdu, env: Env)
    requires cmd.ins != VERIFY
    ensures Dispatch(l, s, cmd, env).state.pinVerified <==> s.pinVerified && !(cmd.ins == SELECT && Selects(cmd))
  {
    hide RequestedId, WrittenValue, NameOf, WithObject, AlgorithmAt, TemplateTags, UseKey, UntilFF, GetData, Generated;
  }

  /** In every run a set flag that was not set at the start has a right VERIFY behind it, and no
      SELECT or reset since. */
  lemma {:induction false} FlagHasPin(l: Library, s: State, es: seq<Event>, i: nat) returns (j: nat)
    requires i <= |es| && !s.pinVerified && StateAt(l, s, es, i).pinVerified
    ensures j < i && Proves(StateAt(l, s, es, j), es[j])
    ensures forall m :: j < m < i ==> !PivManagement.Forgets(StateAt(l, s, es, m), es[m])
  {
    hide Next, Proves, PivManagement.Forgets;
    var before := StateAt(l, s, es, i - 1);
    FlagExactly(l, before, es[i - 1]);
    if Proves(before, es[i - 1]) {
      j := i - 1;
    } else {
      j := FlagHasPin(l, s, es, i - 1);
    }
  }

  /** The event is a successful operation with the key of a slot other than card authentication. */
  predicate UsesKey(l: Library, s: State, e: Event) {
    && Direct(s, e) && e.cmd.ins == GENERAL_AUTHENTICATE && e.cmd.p2 != 0x9B && e.cmd.p2 != 0x9E
    && Process(l, s, e.cmd, e.env).response.sw1 == 0x90
  }

  /** In every run from a state without a verified PIN, each such operation has a right VERIFY
      before it, and no SELECT or reset between them. */
  lemma KeyUseHasPin(l: Library, s: State, es: seq<Event>, i: nat)
    requires i < |es| && !s.pinVerified && UsesKey(l, StateAt(l, s, es, i), es[i])
    ensures exists j: nat ::
              && j < i && Proves(StateAt(l, s, es, j), es[j])
              && (forall m :: j < m < i ==> !PivManagement.Forgets(StateAt(l, s, es, m), es[m]))
  {
    hide Next, Proves, PivManagement.Forgets, StateAt;
    UseNeedsFlag(l, StateAt(l, s, es, i), es[i]);
    var j := FlagHasPin(l, s, es, i);
  }

  lemma UseNeedsFlag(l: Library, s: State, e: Event)
    requires UsesKey(l, s, e)
    ensures s.pinVerified
  {
    hide Process, Dispatch;
    EventKinds(l, s, e);
    if !s.pinVerified { UnverifiedUse(l, s, e.cmd, e.env); }
  }

  /** Without a verified PIN key use answers an error for all slots but 9E. */
  lemma UnverifiedUse(l: Library, s: State, cmd: Apdu, env: Env)
    requires cmd.ins == GENERAL_AUTHENTICATE && cmd.p2 != 0x9B && cmd.p2 != 0x9E && !s.pinVerified
    ensures Dispatch(l, s, cmd, env).response.sw1 != 0x90 && Dispatch(l, s, cmd, env).state == s
  {
    hide TemplateTags, KeyIn, SignData, DecryptData, Result7C;
  }
}

/** PIN counters over whole runs: bounds, hash comparisons, blocking. */
module OpenPgpPins {
  import opened Wrappers
  import opened ByteStrings
  import opened Apdu
  import opened OpenPgpCard
  import opened PinManager
  import opened OpenPgpKeys
  import opened OpenPgp
  import opened OpenPgpRuns

  /** Modes 81 and 82 check the same password. */
  predicate SameRecord(t: PinType, u: PinType) { t == u || (t in {PW1_81, PW1_82} && u in {PW1_81, PW1_82}) }

  /** The bytes that a handled command checks against the record t, if any. */
  function TriedBy(p: Pins, cmd: Apdu, t: PinType): Option<Bytes> {
    if cmd.ins == VERIFY then
      match VerifyTarget(cmd.p2)
      case Some((u, _)) => if cmd.data != [] && SameRecord(t, u) then Some(Stripped(cmd.data)) else None
      case None => None
    else if cmd.ins == CHANGE_REFERENCE_DATA then
      if cmd.p2 in {0x81, 0x83} && SameRecord(t, if cmd.p2 == 0x81 then PW1_81 else PW3)
         && |cmd.data| > PinOf(p, t).length
      then Some(cmd.data[..PinOf(p, t).length])
      else None
    else if cmd.ins == RESET_RETRY_COUNTER then
      if cmd.p2 == 0x81 && cmd.p1 == 0x00 && t == RC && |cmd.data| > p.rc.length && p.rc.hash != []
      then Some(cmd.data[..p.rc.length])
      else None
    else None
  }

  function Tried(s: State, e: Event, t: PinType): Option<Bytes> {
    if e.Command? && Handled(s, e.cmd).Some? then TriedBy(s.pins, Handled(s, e.cmd).value, t) else None
  }

  /** The PIN was right. */
  predicate Succeeds(c: Crypto, s: State, e: Event, t: PinType) {
    Tried(s, e, t).Some? && Check(c.hash, PinOf(s.pins, t), Tried(s, e, t).value).ok
  }

  /** Its hash was compared with the stored one. */
  predicate HashCompared(s: State, e: Event, t: PinType) {
    Tried(s, e, t).Some? && Compares(PinOf(s.pins, t), Tried(s, e, t).value)
  }

  predicate AcceptedAs(c: Crypto, s: State, e: Event, ins: Byte) {
    e.Command? && Is(s, e.cmd, ins) && Accepted(Process(c, s, e.cmd, e.env).response)
  }

  /** The record is replaced without a check against it: RESET RETRY COUNTER for PW1, PUT DATA
      D3 for the reset code, activation for all. */
  predicate Refreshes(c: Crypto, s: State, e: Event, t: PinType) {
    || Activates(s, e)
    || (t in {PW1_81, PW1_82} && AcceptedAs(c, s, e, RESET_RETRY_COUNTER))
    || (t == RC && AcceptedAs(c, s, e, PUT_DATA) && P1P2(e.cmd) == 0x00D3)
  }

  // ---------------------------------------------------------------- one step

  /** What a handled command leaves of the record t. */
  predicate Leaves(c: Crypto, p: Pins, cmd: Apdu, t: PinType, after: Pin) {
    match TriedBy(p, cmd, t)
    case None => after == PinOf(p, t)
    case Some(pin) =>
      var checked := Check(c.hash, PinOf(p, t), pin);
      if checked.ok then after.retries == after.maxRetries == PinOf(p, t).maxRetries else after == checked.pin
  }

  lemma VerifyLeaves(c: Crypto, s: State, cmd: Apdu, t: PinType)
    requires cmd.ins == VERIFY
    ensures Leaves(c, s.pins, cmd, t, PinOf(VerifyPw(c, s, cmd).state.pins, t))
  {
    hide Stripped, LengthAllowed;
  }

  lemma ChangeLeaves(c: Crypto, s: State, cmd: Apdu, t: PinType)
    requires cmd.ins == CHANGE_REFERENCE_DATA
    ensures Leaves(c, s.pins, cmd, t, PinOf(ChangePw(c, s, cmd).state.pins, t))
  {
    hide LengthAllowed;
  }

  lemma ResetLeaves(c: Crypto, s: State, cmd: Apdu, t: PinType)
    requires cmd.ins == RESET_RETRY_COUNTER
    ensures var r := ResetPw(c, s, cmd);
      if t in {PW1_81, PW1_82} && Accepted(r.response) then
        r.state.pins.pw1.retries == r.state.pins.pw1.maxRetries == s.pins.pw1.maxRetries
      else Leaves(c, s.pins, cmd, t, PinOf(r.state.pins, t))
  {
    hide LengthAllowed;
  }

  lemma PutDataLeaves(c: Crypto, s: State, cmd: Apdu, t: PinType)
    requires cmd.ins == PUT_DATA
    ensures var r := PutData(c, s, P1P2(cmd), cmd.data); var after := PinOf(r.state.pins, t);
      if t == RC && Accepted(r.response) && P1P2(cmd) == 0x00D3 then
        after.maxRetries == s.pins.rc.maxRetries && after.retries in {s.pins.rc.retries, after.maxRetries}
      else after == PinOf(s.pins, t)
  {
    hide StoreObject;
  }

  lemma Routed(c: Crypto, s: State, cmd: Apdu, env: Env)
    requires !s.card.terminated
    ensures cmd.ins == VERIFY ==> Dispatch(c, s, cmd, env) == VerifyPw(c, s, cmd)
    ensures cmd.ins == CHANGE_REFERENCE_DATA ==> Dispatch(c, s, cmd, env) == ChangePw(c, s, cmd)
    ensures cmd.ins == RESET_RETRY_COUNTER ==> Dispatch(c, s, cmd, env) == ResetPw(c, s, cmd)
    ensures cmd.ins == PUT_DATA ==> Dispatch(c, s, cmd, env) == PutData(c, s, P1P2(cmd), cmd.data)
  {
    hide VerifyPw, ChangePw, ResetPw, PutData;
  }

  lemma PinStep(c: Crypto, s: State, e: Event, t: PinType)
    ensures var p, p' := PinOf(s.pins, t), PinOf(Next(c, s, e).pins, t);
      && (Refreshes(c, s, e, t) && !Activates(s, e) ==>
            p'.maxRetries == p.maxRetries && p'.retries in {p.retries, p.maxRetries})
      && (!Refreshes(c, s, e, t) && Succeeds(c, s, e, t) ==> p'.retries == p'.maxRetries == p.maxRetries)
      && (!Refreshes(c, s, e, t) && !Succeeds(c, s, e, t) ==>
            p' == if Tried(s, e, t).Some? then Check(c.hash, p, Tried(s, e, t).value).pin else p)
  {
    hide Process, Dispatch, Check, Stripped, VerifyPw, ChangePw, ResetPw, PutData, VerifyTarget;
    if e.Command? && !Activates(s, e) {
      if Handled(s, e.cmd).None? {
        Unhandled(c, s, e.cmd, e.env);
      } else {
        var ready, cmd := Ready(s, e.cmd), Handled(s, e.cmd).value;
        HandledIs(c, s, e.cmd, e.env);
        HandlerFrame(c, ready, cmd, e.env);
        Routed(c, ready, cmd, e.env);
        if cmd.ins == VERIFY { VerifyLeaves(c, ready, cmd, t); }
        if cmd.ins == CHANGE_REFERENCE_DATA { ChangeLeaves(c, ready, cmd, t); }
        if cmd.ins == RESET_RETRY_COUNTER { ResetLeaves(c, ready, cmd, t); }
        if cmd.ins == PUT_DATA { PutDataLeaves(c, ready, cmd, t); }
      }
    }
  }

  // ---------------------------------------------------------------- runs

  predicate Bounded(p: Pins) {
    p.pw1.retries <= p.pw1.maxRetries && p.pw3.retries <= p.pw3.maxRetries && p.rc.retries <= p.rc.maxRetries
  }

  lemma BoundedStep(c: Crypto, s: State, e: Event, t: PinType)
    requires PinOf(s.pins, t).retries <= PinOf(s.pins, t).maxRetries
    ensures var p' := PinOf(Next(c, s, e).pins, t); p'.retries <= p'.maxRetries
  {
    hide Next, Process, Refreshes, Tried;
    PinStep(c, s, e, t);
    if Activates(s, e) { ActivationState(c, s, e); }
  }

  /** In every run the retry counters stay within their maxima. */
  lemma {:induction false} CountersBounded(c: Crypto, s: State, es: seq<Event>, i: nat)
    requires i <= |es| && Bounded(s.pins)
    ensures Bounded(StateAt(c, s, es, i).pins)
  {
    hide Next;
    if i > 0 {
      CountersBounded(c, s, es, i - 1);
      var before := StateAt(c, s, es, i - 1);
      BoundedStep(c, before, es[i - 1], PW1_81);
      BoundedStep(c, before, es[i - 1], PW3);
      BoundedStep(c, before, es[i - 1], RC);
    }
  }

  function Comparisons(c: Crypto, s: State, es: seq<Event>, t: PinType, i: nat): nat
    requires i <= |es|
  {
    if i == 0 then 0
    else Comparisons(c, s, es, t, i - 1) + if HashCompared(StateAt(c, s, es, i - 1), es[i - 1], t) then 1 else 0
  }

  /** No success and no refresh of the record t among the first i events. */
  predicate OnlyFailures(c: Crypto, s: State, es: seq<Event>, t: PinType, i: nat)
    requires i <= |es|
  {
    forall k :: 0 <= k < i ==>
      !Refreshes(c, StateAt(c, s, es, k), es[k], t) && !Succeeds(c, StateAt(c, s, es, k), es[k], t)
  }

  lemma FailedStep(c: Crypto, s: State, e: Event, t: PinType)
    requires !Refreshes(c, s, e, t) && !Succeeds(c, s, e, t)
    ensures var p, p' := PinOf(s.pins, t), PinOf(Next(c, s, e).pins, t);
      p'.retries + (if HashCompared(s, e, t) then 1 else 0) <= p.retries && p' == p.(retries := p'.retries)
  {
    hide Next, Process, Refreshes, Tried;
    PinStep(c, s, e, t);
  }

  /** Between successes and refreshes each hash comparison uses up a try: there are never
      more than the counter showed, and nothing but the counter changes. */
  lemma {:induction false} ComparisonsBounded(c: Crypto, s: State, es: seq<Event>, t: PinType, i: nat)
    requires i <= |es| && OnlyFailures(c, s, es, t, i)
    ensures var p, p' := PinOf(s.pins, t), PinOf(StateAt(c, s, es, i).pins, t);
      Comparisons(c, s, es, t, i) + p'.retries <= p.retries && p' == p.(retries := p'.retries)
  {
    hide Next, Refreshes, Succeeds, HashCompared, PinOf;
    if i > 0 {
      ComparisonsBounded(c, s, es, t, i - 1);
      FailedStep(c, StateAt(c, s, es, i - 1), es[i - 1], t);
    }
  }

  /** A blocked record, counter and hash, stays as it is until it is refreshed: PW1 by an
      accepted RESET RETRY COUNTER or activation, PW3 by activation only. */
  lemma {:induction false} BlockedStays(c: Crypto, s: State, es: seq<Event>, t: PinType, i: nat)
    requires i <= |es| && PinOf(s.pins, t).retries == 0
    requires forall k :: 0 <= k < i ==> !Refreshes(c, StateAt(c, s, es, k), es[k], t)
    ensures PinOf(StateAt(c, s, es, i).pins, t) == PinOf(s.pins, t)
  {
    hide Next, Refreshes, Succeeds, Tried, PinOf;
    if i > 0 {
      BlockedStays(c, s, es, t, i - 1);
      BlockedStep(c, StateAt(c, s, es, i - 1), es[i - 1], t);
    }
  }

  lemma BlockedStep(c: Crypto, s: State, e: Event, t: PinType)
    requires PinOf(s.pins, t).retries == 0 && !Refreshes(c, s, e, t)
    ensures PinOf(Next(c, s, e).pins, t) == PinOf(s.pins, t)
  {
    hide Next, Process, Refreshes, Tried;
    PinStep(c, s, e, t);
  }

  /** PW3 comes back from blocking only by ACTIVATE FILE. */
  lemma Pw3Unblocked(c: Crypto, s: State, es: seq<Event>, i: nat)
    requires i <= |es| && s.pins.pw3.retries == 0 && StateAt(c, s, es, i).pins.pw3 != s.pins.pw3
    ensures exists k :: 0 <= k < i && Activates(StateAt(c, s, es, k), es[k])
  {
    hide Next, Activates;
    if forall k :: 0 <= k < i ==> !Activates(StateAt(c, s, es, k), es[k]) {
      BlockedStays(c, s, es, PW3, i);
    }
  }

  /** PW1 comes back only by an accepted RESET RETRY COUNTER or ACTIVATE FILE. */
  lemma Pw1Unblocked(c: Crypto, s: State, es: seq<Event>, i: nat)
    requires i <= |es| && s.pins.pw1.retries == 0 && StateAt(c, s, es, i).pins.pw1 != s.pins.pw1
    ensures exists k :: 0 <= k < i && (Activates(StateAt(c, s, es, k), es[k])
                                       || AcceptedAs(c, StateAt(c, s, es, k), es[k], RESET_RETRY_COUNTER))
  {
    hide Next, Activates, AcceptedAs;
    if forall k :: 0 <= k < i ==> !Refreshes(c, StateAt(c, s, es, k), es[k], PW1_81) {
      BlockedStays(c, s, es, PW1_81, i);
    }
  }

  // ---------------------------------------------------------------- a changed PIN

  predicate NoPadding(pin: Bytes) { forall i :: 0 <= i < |pin| ==> pin[i] != 0x00 && pin[i] != 0xFF }

  lemma {:induction false} StrippedShortens(data: Bytes)
    ensures |Stripped(data)| <= |data|
    ensures Stripped(data) == data <==> NoPadding(data)
  {
    if data != [] {
      StrippedShortens(data[1..]);
      assert data == [data[0]] + data[1..];
      if NoPadding(data[1..]) && data[0] != 0x00 && data[0] != 0xFF {
        assert forall i :: 1 <= i < |data| ==> data[i] == data[1..][i - 1];
      }
      if NoPadding(data) {
        assert forall i :: 0 <= i < |data| - 1 ==> data[1..][i] == data[i + 1];
      }
    }
  }

  /** The password that a reference byte of CHANGE REFERENCE DATA stands for. */
  function Changes(p2: Byte): PinType { if p2 == 0x81 then PW1_81 else PW3 }

  /** What an accepted CHANGE REFERENCE DATA leaves. */
  lemma ChangedPin(c: Crypto, s: State, change: Apdu)
    requires ChangePw(c, s, change).response == Success([])
    ensures var t := Changes(change.p2);
      var pin := PinOf(s.pins, t);
      && change.p2 in {0x81, 0x83} && |change.data| > pin.length && LengthAllowed(pin, change.data[pin.length..])
      && ChangePw(c, s, change).state == s.(pins := ChangePw(c, s, change).state.pins)
      && PinOf(ChangePw(c, s, change).state.pins, t)
         == pin.(hash := c.hash(change.data[pin.length..]), length := |change.data[pin.length..]| % 256,
                 retries := pin.maxRetries)
  {}

  /** When CHANGE REFERENCE DATA with enough data is accepted. */
  lemma ChangeAccepted(c: Crypto, s: State, change: Apdu)
    requires change.p2 in {0x81, 0x83} && |change.data| > PinOf(s.pins, Changes(change.p2)).length
    ensures var pin := PinOf(s.pins, Changes(change.p2));
      ChangePw(c, s, change).response == Success([])
      <==> pin.retries > 0 && LengthAllowed(pin, change.data[..pin.length])
           && c.hash(change.data[..pin.length]) == pin.hash && LengthAllowed(pin, change.data[pin.length..])
  {}

  /** When VERIFY with a PIN is accepted. */
  lemma VerifyAccepted(c: Crypto, s: State, verify: Apdu)
    requires verify.p2 in {0x81, 0x82, 0x83} && verify.data != []
    ensures var pin, left := PinOf(s.pins, VerifyTarget(verify.p2).value.0), Stripped(verify.data);
      Accepted(VerifyPw(c, s, verify).response)
      <==> pin.retries > 0 && LengthAllowed(pin, left) && c.hash(left) == pin.hash
  {
    hide Stripped;
  }

  /** After CHANGE REFERENCE DATA accepted a new PW1 or PW3, VERIFY with that PIN succeeds
      exactly if it has no 00 or FF byte, or what is left without them has an allowed length and
      the same hash: VERIFY strips those bytes, CHANGE REFERENCE DATA does not. */
  lemma ChangedPinVerifies(c: Crypto, s: State, change: Apdu, verify: Apdu)
    requires ChangePw(c, s, change).response == Success([])
    requires verify.p2 == change.p2 || (change.p2 == 0x81 && verify.p2 == 0x82)
    requires var pin := PinOf(s.pins, Changes(change.p2));
             pin.maxRetries > 0 && |change.data| >= pin.length && verify.data == change.data[pin.length..]
    ensures var pin, left := PinOf(s.pins, Changes(change.p2)), Stripped(verify.data);
      Accepted(VerifyPw(c, ChangePw(c, s, change).state, verify).response)
      <==> NoPadding(verify.data) || (LengthAllowed(pin, left) && c.hash(left) == c.hash(verify.data))
  {
    hide Stripped, ChangePw, VerifyPw;
    StrippedShortens(verify.data);
    ChangedPin(c, s, change);
    VerifyAccepted(c, ChangePw(c, s, change).state, verify);
  }

  /** After CHANGE REFERENCE DATA accepted a new PIN, a second change that starts with it is
      accepted exactly if it is shorter than 256 bytes, or its first bytes have the same hash:
      only the low byte of its length is stored, and the second command is split there. */
  lemma LongPinChanges(c: Crypto, s: State, first: Apdu, second: Apdu, next: Bytes)
    requires ChangePw(c, s, first).response == Success([]) && second.p2 == first.p2
    requires var pin := PinOf(s.pins, Changes(first.p2));
             && pin.maxRetries > 0 && next != [] && LengthAllowed(pin, next) && |first.data| >= pin.length
             && second.data == first.data[pin.length..] + next
    ensures var pin := PinOf(s.pins, Changes(first.p2));
      var chosen := first.data[pin.length..];
      var k := |chosen| % 256;
      ChangePw(c, ChangePw(c, s, first).state, second).response == Success([])
      <==> |chosen| < 256 || (c.hash(chosen[..k]) == c.hash(chosen) && LengthAllowed(pin, chosen[k..] + next))
  {
    hide ChangePw;
    ChangedPin(c, s, first);
    ChangeAccepted(c, ChangePw(c, s, first).state, second);
    var pin := PinOf(s.pins, Changes(first.p2));
    var chosen := first.data[pin.length..];
    var k := |chosen| % 256;
    assert second.data[..k] == chosen[..k] && second.data[k..] == chosen[k..] + next;
    if |chosen| < 256 { assert chosen[..k] == chosen && second.data[k..] == next; }
  }

  // ---------------------------------------------------------------- answers and counters

  /** The status word that tells how many tries are left. */
  function Tries(left: nat): Response {
    if left == 0 then Response([], 0x69, 0x83) else Response([], 0x63, 0xC0 + left % 16)
  }

  function OneLess(retries: nat): nat { if retries == 0 then 0 else retries - 1 }

  /** VERIFY with a PIN: accepted it refills the counter and sets its flag, refused it uses up one
      try; nothing else changes but the cached single-use setting. */
  lemma VerifyExactly(c: Crypto, s: State, verify: Apdu)
    requires verify.p2 in {0x81, 0x82, 0x83} && verify.data != []
    ensures var t := VerifyTarget(verify.p2).value.0;
      var pin, left, r := PinOf(s.pins, t), Stripped(verify.data), VerifyPw(c, s, verify);
      if pin.retries > 0 && LengthAllowed(pin, left) && c.hash(left) == pin.hash then
        && r.response == Response([], 0x90, 0x00)
        && r.state == s.(pins := WithPin(s.pins, t, pin.(retries := pin.maxRetries)),
                         security := if verify.p2 == 0x83 then s.security.(pw3 := true)
                                     else if verify.p2 == 0x82 then
                                       s.security.(pw1Other := true, validMultiple := s.pins.validMultiple)
                                     else s.security.(pw1Sign := true, validMultiple := s.pins.validMultiple))
      else
        && r.response == Tries(OneLess(pin.retries))
        && r.state == s.(pins := WithPin(s.pins, t, pin.(retries := OneLess(pin.retries))))
  {
    hide Stripped;
  }

  /** VERIFY without data only asks: blocked, verified, or the tries that are left. */
  lemma VerifyAsks(c: Crypto, s: State, verify: Apdu)
    requires verify.p2 in {0x81, 0x82, 0x83} && verify.data == []
    ensures var pin := PinOf(s.pins, VerifyTarget(verify.p2).value.0);
      var flag := if verify.p2 == 0x81 then s.security.pw1Sign else if verify.p2 == 0x82 then s.security.pw1Other
                  else s.security.pw3;
      VerifyPw(c, s, verify)
      == Reply(s, if pin.retries == 0 then Response([], 0x69, 0x83) else if flag then Response([], 0x90, 0x00)
                  else Tries(pin.retries))
  {}

  /** Which record a reference byte stands for; no other byte is known. */
  lemma VerifyRecords(c: Crypto, s: State, verify: Apdu)
    ensures VerifyTarget(0x81).Some? && VerifyTarget(0x82).Some? && VerifyTarget(0x83).Some?
    ensures PinOf(s.pins, VerifyTarget(0x81).value.0) == s.pins.pw1 == PinOf(s.pins, VerifyTarget(0x82).value.0)
    ensures PinOf(s.pins, VerifyTarget(0x83).value.0) == s.pins.pw3
    ensures verify.p2 !in {0x81, 0x82, 0x83} ==> VerifyPw(c, s, verify) == Reply(s, Response([], 0x6B, 0x00))
  {}

  /** A refused CHANGE REFERENCE DATA: a wrong old PIN uses up a try, a right one with a new PIN of
      a wrong length refills the counter; the PIN stays. */
  lemma ChangeRefused(c: Crypto, s: State, change: Apdu)
    requires change.p2 in {0x81, 0x83} && |change.data| > PinOf(s.pins, Changes(change.p2)).length
    requires ChangePw(c, s, change).response != Success([])
    ensures var pin := PinOf(s.pins, Changes(change.p2));
      var right := pin.retries > 0 && LengthAllowed(pin, change.data[..pin.length])
                   && c.hash(change.data[..pin.length]) == pin.hash;
      var left := if right then pin.maxRetries else OneLess(pin.retries);
      ChangePw(c, s, change)
      == Reply(s.(pins := WithPin(s.pins, Changes(change.p2), pin.(retries := left))), Tries(left))
  {
    hide Change, WithPin;
    var t := Changes(change.p2);
    var pin := PinOf(s.pins, t);
    ChangeFails(c.hash, s.pins, t, change.data[..pin.length], change.data[pin.length..]);
  }

  lemma ChangeFails(hash: Bytes -> Bytes, p: Pins, t: PinType, oldPin: Bytes, newPin: Bytes)
    ensures var pin, changed := PinOf(p, t), Change(hash, p, t, oldPin, newPin);
      var right := pin.retries > 0 && LengthAllowed(pin, oldPin) && hash(oldPin) == pin.hash;
      var left := pin.(retries := if right then pin.maxRetries else OneLess(pin.retries));
      !changed.ok ==> changed.pins == WithPin(p, t, left) && PinOf(changed.pins, t) == left
  {}
}

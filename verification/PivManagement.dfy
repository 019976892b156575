/** The management-key exchange over whole runs: who may change stored objects. */
module PivManagement {
  import opened Wrappers
  import opened ByteStrings
  import opened Apdu
  import opened Piv
  import opened PivRuns

  /** The exchange step of a GENERAL AUTHENTICATE for the management key. */
  function Step(s: State, e: Event): Exchange {
    if Direct(s, e) && e.cmd.ins == GENERAL_AUTHENTICATE && e.cmd.p2 == MGMT_KEY && e.cmd.data != []
       && e.cmd.data[0] == 0x7C
    then ExchangeOf(TemplateTags(e.cmd.data))
    else Neither
  }

  /** SELECT of the PIV applet, or a reset: exchanges and authentication are forgotten. */
  predicate Forgets(s: State, e: Event) {
    e.SessionReset? || (Direct(s, e) && e.cmd.ins == SELECT && Selects(e.cmd))
  }

  /** The host answers an issued witness; right or wrong, this uses it up. */
  predicate Consumes(s: State, e: Event) { Step(s, e).Attempt? && s.challenge.Some? }

  /** The host witness equals the issued one. */
  predicate Matches(s: State, e: Event) { Consumes(s, e) && Some(Step(s, e).hostWitness) == s.challenge }

  /** What one event does to authentication and witness. */
  lemma ExchangeStep(l: Library, s: State, e: Event)
    ensures var s' := Next(l, s, e);
      && (Forgets(s, e) ==> !s'.managed && s'.challenge == None)
      && (Step(s, e).Request? ==> e.Command? && s'.managed == s.managed && s'.challenge == Some(e.env.random))
      && (Step(s, e).Attempt? ==> s'.challenge == None)
      && (s'.managed ==> s.managed || Matches(s, e))
      && (!Forgets(s, e) && Step(s, e).Neither? ==> s'.managed == s.managed && s'.challenge == s.challenge)
      && !(Forgets(s, e) && !Step(s, e).Neither?)
  {
    hide Process, Dispatch, TemplateTags, ExchangeOf;
    if e.Command? {
      EventKinds(l, s, e);
      if Direct(s, e) {
        HandlerFrame(l, s, e.cmd, e.env);
        if e.cmd.ins == GENERAL_AUTHENTICATE { AuthenticateStep(l, s, e.cmd, e.env); }
        if e.cmd.ins == SELECT { SelectStep(l, s, e.cmd, e.env); }
      }
    }
  }

  lemma SelectStep(l: Library, s: State, cmd: Apdu, env: Env)
    requires cmd.ins == SELECT
    ensures var s' := Dispatch(l, s, cmd, env).state;
      if Selects(cmd) then !s'.managed && s'.challenge == None
      else s'.managed == s.managed && s'.challenge == s.challenge
  {}

  lemma AuthenticateStep(l: Library, s: State, cmd: Apdu, env: Env)
    requires cmd.ins == GENERAL_AUTHENTICATE
    ensures var s' := Dispatch(l, s, cmd, env).state;
      if cmd.p2 != MGMT_KEY || cmd.data == [] || cmd.data[0] != 0x7C then
        s'.managed == s.managed && s'.challenge == s.challenge
      else
        match ExchangeOf(TemplateTags(cmd.data))
        case Request => s'.managed == s.managed && s'.challenge == Some(env.random)
        case Attempt(w, _) => s'.challenge == None && (s'.managed ==> s.managed || s.challenge == Some(w))
        case Neither => s'.managed == s.managed && s'.challenge == s.challenge
  {
    hide TemplateTags, ExchangeOf, UseKey;
  }

  /** A pending witness was issued by an earlier request and not touched since. */
  predicate IssuedAt(l: Library, s: State, es: seq<Event>, k: nat, i: nat, issued: Bytes)
    requires i <= |es|
  {
    && k < i
    && Step(StateAt(l, s, es, k), es[k]).Request? && es[k].Command? && es[k].env.random == issued
    && forall m :: k < m < i ==> Step(StateAt(l, s, es, m), es[m]).Neither? && !Forgets(StateAt(l, s, es, m), es[m])
  }

  lemma {:induction false} WitnessHasRequest(l: Library, s: State, es: seq<Event>, a: nat, i: nat) returns (k: nat)
    requires a <= i <= |es| && StateAt(l, s, es, a).challenge == None && StateAt(l, s, es, i).challenge.Some?
    ensures a <= k < i && IssuedAt(l, s, es, k, i, StateAt(l, s, es, i).challenge.value)
  {
    hide Next, Step, Forgets;
    var before := StateAt(l, s, es, i - 1);
    ExchangeStep(l, before, es[i - 1]);
    if Step(before, es[i - 1]).Request? {
      k := i - 1;
    } else {
      k := WitnessHasRequest(l, s, es, a, i - 1);
    }
  }

  /** Authentication has a matching exchange behind it, since the last SELECT or reset. */
  lemma {:induction false} ManagedHasExchange(l: Library, s: State, es: seq<Event>, i: nat) returns (j: nat)
    requires i <= |es| && !s.managed && StateAt(l, s, es, i).managed
    ensures j < i && Matches(StateAt(l, s, es, j), es[j])
    ensures forall m :: j < m < i ==> !Forgets(StateAt(l, s, es, m), es[m])
  {
    hide Next, Step, Forgets, Matches;
    var before := StateAt(l, s, es, i - 1);
    ExchangeStep(l, before, es[i - 1]);
    if before.managed {
      j := ManagedHasExchange(l, s, es, i - 1);
    } else {
      j := i - 1;
    }
  }

  /** Only PUT DATA and key generation change stored objects, and only when authenticated. */
  lemma ObjectsChangeManaged(l: Library, s: State, e: Event)
    requires Next(l, s, e).objects != s.objects
    ensures s.managed
    ensures PutSeen(s, e).Some? || (Direct(s, e) && e.cmd.ins == GENERATE_KEY)
  {
    hide Process, Dispatch, PutData;
    if e.Command? {
      EventKinds(l, s, e);
      if Direct(s, e) {
        HandlerFrame(l, s, e.cmd, e.env);
        ChangersNeedManaged(l, s, e.cmd, e.env);
      } else if PutSeen(s, e).Some? {
        PutNeedsManaged(ChainClosed(s), PutSeen(s, e).value);
      }
    }
  }

  lemma PutNeedsManaged(s: State, cmd: Apdu)
    ensures !s.managed ==> PutData(s, cmd).state == s
  {}

  lemma ChangersNeedManaged(l: Library, s: State, cmd: Apdu, env: Env)
    ensures !s.managed && cmd.ins in {PUT_DATA, GENERATE_KEY} ==> Dispatch(l, s, cmd, env).state == s
  {}

  /** In every run from a state without authentication and pending witness: whenever stored
      objects change, an exchange since the last SELECT or reset had a host witness equal to
      the issued one, and that witness was issued by a request and untouched until then. */
  lemma ObjectsChangeAuthorised(l: Library, s: State, es: seq<Event>, i: nat)
    requires i < |es| && !s.managed && s.challenge == None
    requires StateAt(l, s, es, i + 1).objects != StateAt(l, s, es, i).objects
    ensures exists j: nat, k: nat ::
              && j < i && k < j && Matches(StateAt(l, s, es, j), es[j])
              && IssuedAt(l, s, es, k, j, StateAt(l, s, es, j).challenge.value)
              && (forall m :: j < m < i ==> !Forgets(StateAt(l, s, es, m), es[m]))
  {
    hide Next, Forgets, IssuedAt;
    ObjectsChangeManaged(l, StateAt(l, s, es, i), es[i]);
    var j := ManagedHasExchange(l, s, es, i);
    var k := WitnessHasRequest(l, s, es, 0, j);
    assert Matches(StateAt(l, s, es, j), es[j]);
    assert IssuedAt(l, s, es, k, j, StateAt(l, s, es, j).challenge.value) && k < j;
  }

  lemma ConsumedClears(l: Library, s: State, e: Event)
    requires Consumes(s, e)
    ensures Next(l, s, e).challenge == None
  {
    hide Next, Forgets;
    ExchangeStep(l, s, e);
  }

  lemma StateAfter(l: Library, s: State, es: seq<Event>, i: nat)
    requires i < |es|
    ensures StateAt(l, s, es, i + 1) == Next(l, StateAt(l, s, es, i), es[i])
  {
    hide Next;
  }

  /** Each issued witness is used by at most one attempt, right or wrong: between any two
      attempts that meet a pending witness there is a new request. */
  lemma WitnessUsedOnce(l: Library, s: State, es: seq<Event>, j: nat, j': nat)
    requires j < j' < |es|
    requires Consumes(StateAt(l, s, es, j), es[j]) && Consumes(StateAt(l, s, es, j'), es[j'])
    ensures exists k: nat :: j < k < j' && IssuedAt(l, s, es, k, j', StateAt(l, s, es, j').challenge.value)
  {
    hide Next, Forgets, IssuedAt, Step, StateAt, ExchangeOf, TemplateTags;
    ConsumedClears(l, StateAt(l, s, es, j), es[j]);
    StateAfter(l, s, es, j);
    var k := WitnessHasRequest(l, s, es, j + 1, j');
  }
}

/** The management-key exchange from the host's side: it succeeds exactly with the issued witness,
    and then the host may write. */
module PivExchange {
  import opened Wrappers
  import opened ByteStrings
  import opened Apdu
  import opened KeyObjects
  import opened Piv
  import opened PivRuns
  import opened PivManagement
  import PivObjects
  import Tlv

  // ---------------------------------------------------------------- one command

  /** A request issues the random witness and answers its encryption under the stored key. */
  lemma RequestExactly(l: Library, s: State, tags: map<Byte, Bytes>, env: Env)
    requires 0x80 in tags && tags[0x80] == [] && 0x81 !in tags
    ensures var encrypted := l.encrypt(s.objects.managementKey, env.random);
      AuthenticateManagement(l, s, tags, env)
      == Reply(s.(challenge := Some(env.random)),
               if encrypted.Some? then Response([0x7C, 0x0A, 0x80, 0x08] + encrypted.value, 0x90, 0x00)
               else Response([], 0x64, 0x00))
  {}

  /** An attempt uses up the witness; it authenticates exactly if it repeats the witness and the
      library encrypts the host's challenge, and answers that encryption. */
  lemma AttemptExactly(l: Library, s: State, tags: map<Byte, Bytes>, env: Env)
    requires 0x80 in tags && 0x81 in tags
    ensures var answer := l.encrypt(s.objects.managementKey, tags[0x81]);
      AuthenticateManagement(l, s, tags, env)
      == if s.challenge == None then Reply(s, Response([], 0x69, 0x85))
         else if s.challenge.value != tags[0x80] then Reply(s.(challenge := None), Response([], 0x69, 0x82))
         else if answer == None then Reply(s.(challenge := None), Response([], 0x64, 0x00))
         else Reply(s.(managed := true, challenge := None),
                    Response([0x7C, 0x0A, 0x82, 0x08] + answer.value, 0x90, 0x00))
  {}

  /** Everything else answers 6A80. */
  lemma NeitherExactly(l: Library, s: State, tags: map<Byte, Bytes>, env: Env)
    requires 0x80 !in tags || (0x81 !in tags && tags[0x80] != [])
    ensures AuthenticateManagement(l, s, tags, env) == Reply(s, Response([], 0x6A, 0x80))
  {}

  // ---------------------------------------------------------------- one event

  /** The attempt repeats the pending witness, and its challenge can be encrypted. */
  predicate Succeeds(l: Library, s: State, e: Event) {
    Matches(s, e) && l.encrypt(s.objects.managementKey, Step(s, e).hostChallenge).Some?
  }

  /** One event leaves the card authenticated exactly if it is a successful attempt, or the card was
      authenticated and neither a SELECT nor a reset came; the pending witness is the one just
      issued, or the one before if nothing touched it. */
  lemma ManagedExactly(l: Library, s: State, e: Event)
    ensures var s' := Next(l, s, e);
      && (s'.managed <==> Succeeds(l, s, e) || (s.managed && !Forgets(s, e)))
      && s'.challenge == (if Step(s, e).Request? then Some(e.env.random)
                          else if Step(s, e).Attempt? || Forgets(s, e) then None else s.challenge)
  {
    hide Process, Dispatch, TemplateTags, ExchangeOf;
    ExchangeStep(l, s, e);
    if Step(s, e).Attempt? {
      EventKinds(l, s, e);
      AttemptIs(l, s, e.cmd, e.env);
    }
  }

  lemma AttemptIs(l: Library, s: State, cmd: Apdu, env: Env)
    requires cmd.ins == GENERAL_AUTHENTICATE && cmd.p2 == MGMT_KEY && cmd.data != [] && cmd.data[0] == 0x7C
    requires ExchangeOf(TemplateTags(cmd.data)).Attempt?
    ensures var x := ExchangeOf(TemplateTags(cmd.data));
      Dispatch(l, s, cmd, env).state.managed
      <==> s.managed || (s.challenge == Some(x.hostWitness)
                         && l.encrypt(s.objects.managementKey, x.hostChallenge).Some?)
  {
    hide TemplateTags;
    var tags := TemplateTags(cmd.data);
    AttemptExactly(l, s, tags, env);
  }

  /** In every run an authenticated card that was not at the start has a successful attempt behind
      it, and no SELECT or reset since. */
  lemma {:induction false} ManagedHasSuccess(l: Library, s: State, es: seq<Event>, i: nat) returns (j: nat)
    requires i <= |es| && !s.managed && StateAt(l, s, es, i).managed
    ensures j < i && Succeeds(l, StateAt(l, s, es, j), es[j])
    ensures forall m :: j < m < i ==> !Forgets(StateAt(l, s, es, m), es[m])
  {
    hide Next, Succeeds, Forgets;
    var before := StateAt(l, s, es, i - 1);
    ManagedExactly(l, before, es[i - 1]);
    if Succeeds(l, before, es[i - 1]) {
      j := i - 1;
    } else {
      j := ManagedHasSuccess(l, s, es, i - 1);
    }
  }

  // ---------------------------------------------------------------- what a host sends

  function RequestData(): Bytes { [0x7C, 0x02, 0x80, 0x00] }

  function AttemptData(nonce: Bytes, challenge: Bytes): Bytes
    requires |nonce| <= 100 && |challenge| <= 100
  {
    [0x7C, |nonce| + |challenge| + 4] + ([0x80, |nonce|] + nonce + [0x81, |challenge|] + challenge)
  }

  lemma RequestTags()
    ensures TemplateTags(RequestData()) == map[0x80 := []]
  {
    var contents: Bytes := RequestData()[2..];
    assert contents == [0x80, 0x00];
    assert contents[2..2] == [];
    assert TagsAt(contents, 0, map[]) == TagsAt(contents, 2, map[0x80 := []]);
  }

  lemma AttemptTags(nonce: Bytes, challenge: Bytes)
    requires |nonce| <= 100 && |challenge| <= 100
    ensures TemplateTags(AttemptData(nonce, challenge)) == map[0x80 := nonce, 0x81 := challenge]
  {
    var w, contents := |nonce|, [0x80, |nonce|] + nonce + [0x81, |challenge|] + challenge;
    assert AttemptData(nonce, challenge)[2..] == contents;
    assert contents[2..2 + w] == nonce;
    assert contents[2 + w] == 0x81 && contents[3 + w] == |challenge|;
    assert contents[4 + w..4 + w + |challenge|] == challenge;
    var first: map<Byte, Bytes> := map[0x80 := nonce];
    assert TagsAt(contents, 0, map[]) == TagsAt(contents, 2 + w, first);
    assert TagsAt(contents, 2 + w, first) == TagsAt(contents, |contents|, first[0x81 := challenge]);
  }

  /** A GENERAL AUTHENTICATE for the management key, not chained. */
  predicate ForManagement(cmd: Apdu, data: Bytes) {
    cmd.ins == 0x87 && cmd.p2 == 0x9B && !Chained(cmd) && cmd.data == data
  }

  /** A command for management outside a chain is the exchange. */
  lemma ExchangeRouted(l: Library, s: State, cmd: Apdu, data: Bytes, env: Env)
    requires ForManagement(cmd, data) && s.chainIns == None && data != [] && data[0] == 0x7C
    ensures Process(l, s, cmd, env) == AuthenticateManagement(l, s, TemplateTags(data), env)
  {
    hide AuthenticateManagement, TemplateTags;
  }

  // ---------------------------------------------------------------- what a host reads

  /** The value of an object in template 7C. */
  function InTemplate(answer: Bytes, tag: nat): Option<Bytes> {
    match ValueOf(answer, 0x7C) case Some(v) => ValueOf(v, tag) case None => None
  }

  /** The eight encrypted bytes are read from either answer. */
  lemma AnswerReads(tag: Byte, value: Bytes)
    requires |value| == 8 && tag in {0x80, 0x82}
    ensures InTemplate([0x7C, 0x0A, tag, 0x08] + value, tag) == Some(value)
  {
    Canonical(tag, value);
    hide Tlv.Encode, ValueOf;
    ValueAlone(tag, value);
    EncodedSize(tag, value);
    ValueAlone(0x7C, Tlv.Encode(tag, value));
  }

  lemma Canonical(tag: Byte, value: Bytes)
    requires |value| == 8 && tag in {0x80, 0x82}
    ensures [0x7C, 0x0A, tag, 0x08] + value == Tlv.Encode(0x7C, Tlv.Encode(tag, value))
  {
    assert Tlv.Encode(tag, value) == [tag, 0x08] + value;
  }

  // ---------------------------------------------------------------- end to end

  /** The library encrypts this block to eight bytes that the host's function decrypts. */
  predicate Invertible(l: Library, key: Bytes, decrypt: Bytes -> Bytes, block: Bytes) {
    && l.encrypt(key, block).Some? && |l.encrypt(key, block).value| == 8
    && decrypt(l.encrypt(key, block).value) == block
  }

  /** A host that can decrypt under the stored key requests a witness, reads and decrypts it, and
      sends it back with a challenge of its own: the card is authenticated, the host reads its
      challenge encrypted, and nothing else has changed. */
  lemma HostAuthenticates(l: Library, s: State, request: Apdu, attempt: Apdu, env: Env, env': Env,
                          decrypt: Bytes -> Bytes, challenge: Bytes)
    returns (nonce: Bytes)
    requires s.chainIns == None && |env.random| == 8 && |challenge| == 8
    requires Invertible(l, s.objects.managementKey, decrypt, env.random)
    requires Invertible(l, s.objects.managementKey, decrypt, challenge)
    requires ForManagement(request, RequestData())
    ensures var first := Process(l, s, request, env);
      first.response.sw1 == 0x90 && InTemplate(first.response.data, 0x80).Some?
      && nonce == decrypt(InTemplate(first.response.data, 0x80).value) && |nonce| == 8
    ensures ForManagement(attempt, AttemptData(nonce, challenge)) ==>
      var second := Process(l, Process(l, s, request, env).state, attempt, env');
      && second.state == s.(managed := true, challenge := None)
      && second.response.sw1 == 0x90
      && InTemplate(second.response.data, 0x82).Some?
      && decrypt(InTemplate(second.response.data, 0x82).value) == challenge
  {
    hide Process, TemplateTags, AuthenticateManagement, InTemplate, ForManagement, AttemptData;
    var key := s.objects.managementKey;
    nonce := env.random;
    ExchangeRouted(l, s, request, RequestData(), env);
    RequestTags();
    RequestExactly(l, s, TemplateTags(RequestData()), env);
    AnswerReads(0x80, l.encrypt(key, nonce).value);
    AnswerReads(0x82, l.encrypt(key, challenge).value);
    if ForManagement(attempt, AttemptData(nonce, challenge)) {
      var t := Process(l, s, request, env).state;
      AttemptStarts(nonce, challenge);
      ExchangeRouted(l, t, attempt, AttemptData(nonce, challenge), env');
      AttemptTags(nonce, challenge);
      AttemptExactly(l, t, TemplateTags(AttemptData(nonce, challenge)), env');
    }
  }

  lemma AttemptStarts(nonce: Bytes, challenge: Bytes)
    requires |nonce| <= 100 && |challenge| <= 100
    ensures AttemptData(nonce, challenge) != [] && AttemptData(nonce, challenge)[0] == 0x7C
  {}

  /** Without being authenticated before, a host that completes the exchange writes an object in
      any chained split, and reads it back. */
  lemma HostWrites(l: Library, s: State, request: Apdu, attempt: Apdu, env: Env, env': Env, decrypt: Bytes -> Bytes,
                   challenge: Bytes, ms: seq<Apdu>, last: Apdu, get: Apdu, name: ObjectName, value: Bytes)
    returns (nonce: Bytes)
    requires s.chainIns == None && |env.random| == 8 && |challenge| == 8
    requires Invertible(l, s.objects.managementKey, decrypt, env.random)
    requires Invertible(l, s.objects.managementKey, decrypt, challenge)
    requires ForManagement(request, RequestData())
    requires PivObjects.AllBlocks(ms) && last.ins == PUT_DATA && !Chained(last)
    requires PivObjects.Joined(ms) + last.data == PivObjects.PutBytes(name, value) && 1 <= |value| <= 65535
    requires var first := if ms == [] then last else ms[0]; first.p1 == 0x3F && first.p2 == 0xFF
    requires PivObjects.Asks(get, name) && get.ins == GET_DATA && !Chained(get)
    ensures InTemplate(Process(l, s, request, env).response.data, 0x80).Some?
    ensures nonce == decrypt(InTemplate(Process(l, s, request, env).response.data, 0x80).value) && |nonce| == 8
    ensures ForManagement(attempt, AttemptData(nonce, challenge)) ==>
      var t := Process(l, Process(l, s, request, env).state, attempt, env').state;
      var sent := Process(l, PivObjects.After(l, t, ms, env), last, env');
      && sent.response == Response([], 0x90, 0x00)
      && Process(l, sent.state, get, env').response == Response(Tlv.Encode(0x53, value), 0x90, 0x00)
      && forall other: ObjectName :: other != name ==> Stored(sent.state.objects, other) == Stored(s.objects, other)
  {
    hide Process, TemplateTags, AuthenticateManagement, InTemplate, ForManagement, AttemptData, PivObjects.After,
      Tlv.Encode, PivObjects.PutBytes, PivObjects.Joined, PivObjects.AllBlocks, PivObjects.Asks, Stored;
    nonce := HostAuthenticates(l, s, request, attempt, env, env', decrypt, challenge);
    if ForManagement(attempt, AttemptData(nonce, challenge)) {
      var t := Process(l, Process(l, s, request, env).state, attempt, env').state;
      PivObjects.ChainedPutThenGet(l, t, ms, last, get, name, value, env, env');
    }
  }
}

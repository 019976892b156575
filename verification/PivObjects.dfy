/** PUT DATA, whole or in chained blocks, and GET DATA. */
module PivObjects {
  import opened Wrappers
  import opened ByteStrings
  import opened Apdu
  import opened Tlv
  import opened Piv
  import TlvRoundTrip

  // ---------------------------------------------------------------- one object

  /** The data of PUT DATA for an object: its identifier in a 5C list, its value in a 53 object. */
  function PutBytes(name: ObjectName, value: Bytes): Bytes {
    [0x5C, |ObjectId(name)|] + ObjectId(name) + Encode(0x53, value)
  }

  predicate Asks(cmd: Apdu, name: ObjectName) {
    cmd.p1 == 0x3F && cmd.p2 == 0xFF && [0x5C, |ObjectId(name)|] + ObjectId(name) <= cmd.data
  }

  lemma NamesKnown(name: ObjectName)
    ensures NameOf(ObjectId(name)) == Some(name) && 1 <= |ObjectId(name)| <= 3
  {}

  lemma IdRead(name: ObjectName, data: Bytes)
    requires [0x5C, |ObjectId(name)|] + ObjectId(name) <= data
    ensures RequestedId(data) == Some(ObjectId(name))
  {
    var head := [0x5C, |ObjectId(name)|] + ObjectId(name);
    NamesKnown(name);
    assert data == head + data[|head|..];
    assert data[2..2 + |ObjectId(name)|] == ObjectId(name);
  }

  /** The value of a canonical 53 object is read back exactly up to 65535 bytes; longer ones
      have a length form that PUT DATA does not know, and its first byte is taken for the length. */
  lemma ValueRead(value: Bytes)
    requires |value| < 0x1_0000_0000
    ensures WrittenValue(Encode(0x53, value)).Some? && |WrittenValue(Encode(0x53, value)).value| <= |value|
    ensures WrittenValue(Encode(0x53, value)) == Some(value) <==> |value| <= 65535
    ensures |value| > 65535 ==> |WrittenValue(Encode(0x53, value)).value| == if |value| < 16777216 then 131 else 132
  {
    var n, code := |value|, EncodeLength(|value|);
    var rest := Encode(0x53, value);
    assert rest == [0x53] + (code + value);
    assert rest[1 + |code|..1 + |code| + n] == value;
    if 256 <= n <= 65535 { assert ReadU16(n / 256, n % 256) == n; }
  }

  /** PUT DATA with a canonical object, then GET DATA: exactly for 1 to 65535 bytes the same
      object comes back; no other object, key or secret changes. */
  lemma PutThenGet(s: State, put: Apdu, get: Apdu, name: ObjectName, value: Bytes)
    requires s.managed && put.p1 == 0x3F && put.p2 == 0xFF && put.data == PutBytes(name, value)
    requires |value| < 0x1_0000_0000 && Asks(get, name)
    ensures var r := PutData(s, put);
      && r.response == Success([])
      && r.state == s.(objects := WithObject(s.objects, name, Stored(r.state.objects, name)))
      && (GetData(r.state.objects, get) == Success(Encode(0x53, value)) <==> 1 <= |value| <= 65535)
  {
    hide NameOf, WrittenValue, RequestedId, Encode, ObjectId;
    var head := [0x5C, |ObjectId(name)|] + ObjectId(name);
    assert head <= put.data && put.data[|head|..] == Encode(0x53, value);
    NamesKnown(name);
    IdRead(name, put.data);
    IdRead(name, get.data);
    ValueRead(value);
    var stored := WrittenValue(Encode(0x53, value)).value;
    StoredReads(s.objects, name, stored);
    EncodeInjective(stored, value);
  }

  /** An object reads back as it was stored, and the others as before. */
  lemma StoredReads(o: Objects, name: ObjectName, data: Bytes)
    ensures Stored(WithObject(o, name, data), name) == data
    ensures forall other: ObjectName :: other != name ==> Stored(WithObject(o, name, data), other) == Stored(o, other)
    ensures WithObject(o, name, data).managementKey == o.managementKey
  {}

  lemma EncodeInjective(x: Bytes, y: Bytes)
    requires |x| < 0x1_0000_0000 && |y| < 0x1_0000_0000
    ensures Encode(0x53, x) == Encode(0x53, y) <==> x == y
  {
    if Encode(0x53, x) == Encode(0x53, y) {
      TlvRoundTrip.FrameReads(0x53, x, []);
      TlvRoundTrip.FrameReads(0x53, y, []);
    }
  }

  // ---------------------------------------------------------------- chained blocks

  predicate AllBlocks(ms: seq<Apdu>) { forall i :: 0 <= i < |ms| ==> Chained(ms[i]) && ms[i].ins == PUT_DATA }

  function Joined(ms: seq<Apdu>): Bytes { if ms == [] then [] else Joined(ms[..|ms| - 1]) + ms[|ms| - 1].data }

  function After(l: Library, s: State, ms: seq<Apdu>, env: Env): State {
    if ms == [] then s else Process(l, After(l, s, ms[..|ms| - 1], env), ms[|ms| - 1], env).state
  }

  /** The blocks of a chain only collect data, under the parameters of the first. */
  lemma {:induction false} BlocksCollect(l: Library, s: State, ms: seq<Apdu>, env: Env)
    requires s.chainIns == None && AllBlocks(ms) && ms != []
    ensures After(l, s, ms, env)
         == s.(chainIns := Some(PUT_DATA), chainP1 := ms[0].p1, chainP2 := ms[0].p2, chainBuffer := Joined(ms))
  {
    hide PutData, Dispatch;
    var n := |ms| - 1;
    if n > 0 {
      BlocksCollect(l, s, ms[..n], env);
    } else {
      assert Joined(ms) == [] + ms[0].data == ms[0].data;
    }
  }

  lemma NoBlocksNoChange(l: Library, s: State, env: Env)
    ensures After(l, s, [], env) == s
  {}

  lemma PutRouted(l: Library, s: State, cmd: Apdu, env: Env)
    requires cmd.ins == PUT_DATA
    ensures Dispatch(l, s, cmd, env) == PutData(s, cmd)
  {
    hide PutData;
  }

  /** A command of another instruction breaks an open chain, and a chain of anything but PUT DATA
      ends with 6D00; both forget the chain and change nothing else. */
  lemma ChainBreaks(l: Library, s: State, cmd: Apdu, env: Env)
    requires s.chainIns.Some?
    ensures s.chainIns != Some(cmd.ins) ==>
              Process(l, s, cmd, env) == Reply(s.(chainIns := None, chainBuffer := []), Response([], 0x69, 0x85))
    ensures s.chainIns == Some(cmd.ins) && !Chained(cmd) && cmd.ins != PUT_DATA ==>
              Process(l, s, cmd, env) == Reply(s.(chainIns := None, chainBuffer := []), Response([], 0x6D, 0x00))
  {
    hide Dispatch, PutData;
  }

  /** PUT DATA sent as any number of blocks and a final command is PUT DATA with all the data
      and the parameters of the first message. */
  lemma ChainedPutIsPut(l: Library, s: State, ms: seq<Apdu>, last: Apdu, env: Env, env': Env)
    requires s.chainIns == None && AllBlocks(ms) && last.ins == PUT_DATA && !Chained(last)
    ensures var first := if ms == [] then last else ms[0];
      var whole := last.(p1 := first.p1, p2 := first.p2, data := Joined(ms) + last.data);
      var sent := Process(l, After(l, s, ms, env), last, env');
      var direct := PutData(s, whole);
      && sent.response == direct.response
      && sent.state.objects == direct.state.objects && sent.state.secrets == s.secrets
      && sent.state.managed == s.managed && sent.state.challenge == s.challenge
      && sent.state.pinVerified == s.pinVerified && sent.state.chainIns == None
  {
    hide RequestedId, WrittenValue, NameOf, WithObject, Dispatch, After;
    if ms == [] {
      assert [] + last.data == last.data;
      assert After(l, s, ms, env) == s by { NoBlocksNoChange(l, s, env); }
      PutRouted(l, s, last, env');
    } else {
      BlocksCollect(l, s, ms, env);
    }
  }

  /** An object of 1 to 65535 bytes sent in any chained split comes back from GET DATA as the
      same 53 object, and every other object reads as before. */
  lemma ChainedPutThenGet(l: Library, s: State, ms: seq<Apdu>, last: Apdu, get: Apdu, name: ObjectName,
                          value: Bytes, env: Env, env': Env)
    requires s.managed && s.chainIns == None && AllBlocks(ms) && last.ins == PUT_DATA && !Chained(last)
    requires Joined(ms) + last.data == PutBytes(name, value) && 1 <= |value| <= 65535
    requires var first := if ms == [] then last else ms[0]; first.p1 == 0x3F && first.p2 == 0xFF
    requires Asks(get, name) && get.ins == GET_DATA && !Chained(get)
    ensures var sent := Process(l, After(l, s, ms, env), last, env');
      && sent.response == Success([])
      && Process(l, sent.state, get, env') == Reply(sent.state, Success(Encode(0x53, value)))
      && (forall other: ObjectName :: other != name ==> Stored(sent.state.objects, other) == Stored(s.objects, other))
  {
    hide PutData, GetData, Encode, PutBytes, Stored, WithObject, After, Asks;
    var first := if ms == [] then last else ms[0];
    var whole := last.(p1 := first.p1, p2 := first.p2, data := Joined(ms) + last.data);
    ChainedPutIsPut(l, s, ms, last, env, env');
    PutThenGet(s, whole, get, name, value);
    StoredReads(s.objects, name, Stored(PutData(s, whole).state.objects, name));
  }
}

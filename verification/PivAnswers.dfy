/** What the PIV applet answers to each command, refusals included. */
module PivAnswers {
  import opened Wrappers
  import opened ByteStrings
  import opened Apdu
  import opened KeyObjects
  import opened Piv
  import Rsa
  import Tlv

  predicate IsStatus(r: Reply, s: State, sw1: Byte, sw2: Byte) { r == Reply(s, Response([], sw1, sw2)) }

  // ---------------------------------------------------------------- SELECT, version, serial

  /** SELECT by the PIV name ends authentication and tells the application; other kinds answer 6B00
      and other names 6A82, without effect. */
  lemma SelectExactly(s: State, cmd: Apdu)
    ensures var named := [0xA0, 0x00, 0x00, 0x03, 0x08] <= cmd.data;
      && (cmd.p1 != 0x04 ==> IsStatus(Select(s, cmd), s, 0x6B, 0x00))
      && (cmd.p1 == 0x04 && !named ==> IsStatus(Select(s, cmd), s, 0x6A, 0x82))
      && (cmd.p1 == 0x04 && named ==>
            Select(s, cmd)
            == Reply(s.(pinVerified := false, managed := false, challenge := None),
                     Response([0x4F, 0x06, 0x00, 0x00, 0x10, 0x00, 0x01, 0x00, 0x79, 0x07, 0x4F, 0x05, 0xA0, 0x00,
                               0x00, 0x03, 0x08], 0x90, 0x00)))
  {}

  /** Version, serial number, and instructions that do not exist. */
  lemma OtherInstructions(l: Library, s: State, cmd: Apdu, env: Env)
    ensures cmd.ins == 0xFD ==> Dispatch(l, s, cmd, env) == Reply(s, Response([0x01, 0x00, 0x00], 0x90, 0x00))
    ensures cmd.ins == 0xF8 ==> Dispatch(l, s, cmd, env) == Reply(s, Response(l.serial, 0x90, 0x00))
    ensures cmd.ins !in {0xA4, 0x20, 0x24, 0x2C, 0xCB, 0xDB, 0x47, 0x87, 0xC0, 0xFD, 0xF8} ==>
              IsStatus(Dispatch(l, s, cmd, env), s, 0x6D, 0x00)
  {
    hide Select, Verify, Change, ResetRetry, GetData, PutData, GenerateKey, GeneralAuthenticate, GetResponse;
  }

  // ---------------------------------------------------------------- data objects

  /** A complete tag list: 5C, a length, and that many bytes of name. */
  predicate Names(data: Bytes, id: Bytes) { |id| < 256 && [0x5C, |id|] + id <= data }

  lemma NameRead(data: Bytes, id: Bytes)
    requires Names(data, id)
    ensures RequestedId(data) == Some(id)
  {
    var head := [0x5C, |id|] + id;
    assert data[0] == head[0] && data[1] == head[1];
    assert data[2..2 + |id|] == head[2..];
  }

  lemma NoNameRead(data: Bytes)
    requires forall id: Bytes :: !Names(data, id)
    ensures RequestedId(data) == None
  {
    if RequestedId(data).Some? {
      var id := RequestedId(data).value;
      assert [0x5C, |id|] + id == data[..2 + |id|];
      assert Names(data, id);
    }
  }

  /** Without the right parameters 6B00, without a name 6A80, for an unknown name or an empty object
      6A82, otherwise the object. */
  lemma GetExactly(o: Objects, cmd: Apdu)
    ensures cmd.p1 != 0x3F || cmd.p2 != 0xFF ==> GetData(o, cmd) == Response([], 0x6B, 0x00)
    ensures cmd.p1 == 0x3F && cmd.p2 == 0xFF && (forall id: Bytes :: !Names(cmd.data, id)) ==>
              GetData(o, cmd) == Response([], 0x6A, 0x80)
    ensures forall id: Bytes :: cmd.p1 == 0x3F && cmd.p2 == 0xFF && Names(cmd.data, id) ==>
      var name := NameOf(id);
      GetData(o, cmd) == if name == None || Stored(o, name.value) == [] then Response([], 0x6A, 0x82)
                         else Response(Tlv.Encode(0x53, Stored(o, name.value)), 0x90, 0x00)
  {
    hide RequestedId, Names, NameOf, Stored, Tlv.Encode;
    if forall id: Bytes :: !Names(cmd.data, id) { NoNameRead(cmd.data); }
    forall id: Bytes | Names(cmd.data, id) ensures RequestedId(cmd.data) == Some(id) { NameRead(cmd.data, id); }
  }

  /** PUT DATA refuses without the management key, with other parameters and without a name; then
      nothing changes. */
  lemma PutRefusals(s: State, cmd: Apdu)
    ensures !s.managed ==> IsStatus(PutData(s, cmd), s, 0x69, 0x82)
    ensures s.managed && (cmd.p1 != 0x3F || cmd.p2 != 0xFF) ==> IsStatus(PutData(s, cmd), s, 0x6B, 0x00)
    ensures s.managed && cmd.p1 == 0x3F && cmd.p2 == 0xFF && (forall id: Bytes :: !Names(cmd.data, id)) ==>
              IsStatus(PutData(s, cmd), s, 0x6A, 0x80)
  {
    hide RequestedId, NameOf, WrittenValue, WithObject, Names;
    if forall id: Bytes :: !Names(cmd.data, id) { NoNameRead(cmd.data); }
  }

  /** With a name it refuses an incomplete value, then an unknown name, and otherwise stores the value
      under that name. */
  lemma PutNamed(s: State, cmd: Apdu, id: Bytes)
    requires s.managed && cmd.p1 == 0x3F && cmd.p2 == 0xFF && Names(cmd.data, id)
    ensures |cmd.data| >= 2 + |id|
    ensures var value, name := WrittenValue(cmd.data[2 + |id|..]), NameOf(id);
      PutData(s, cmd)
      == if value == None then Reply(s, Response([], 0x6A, 0x80))
         else if name == None then Reply(s, Response([], 0x6A, 0x82))
         else Reply(s.(objects := WithObject(s.objects, name.value, value.value)), Response([], 0x90, 0x00))
  {
    hide NameOf, WrittenValue, WithObject;
    NameRead(cmd.data, id);
  }

  /** A value is complete exactly if it is tag 53, one length byte or 81 and one or 82 and two, and at
      least that many bytes; other first length bytes are taken for the length. */
  lemma ValueComplete(rest: Bytes, value: Bytes)
    ensures WrittenValue(rest) == Some(value)
       <==> || (|value| < 256 && |value| != 0x81 && |value| != 0x82 && [0x53, |value|] + value <= rest)
            || (|value| < 256 && [0x53, 0x81, |value|] + value <= rest)
            || (|value| < 65536 && [0x53, 0x82, |value| / 256, |value| % 256] + value <= rest)
  {
    var n := |value|;
    if WrittenValue(rest) == Some(value) {
      if rest[1] == 0x82 {
        U16Parts(rest[2], rest[3]);
        assert [0x53, 0x82, n / 256, n % 256] + value == rest[..4 + n];
      } else if rest[1] == 0x81 {
        assert [0x53, 0x81, n] + value == rest[..3 + n];
      } else {
        assert [0x53, n] + value == rest[..2 + n];
      }
    }
    if n < 256 && n != 0x81 && n != 0x82 && [0x53, n] + value <= rest {
      PrefixValue(rest, [0x53, n], value);
    } else if n < 256 && [0x53, 0x81, n] + value <= rest {
      PrefixValue(rest, [0x53, 0x81, n], value);
    } else if n < 65536 && [0x53, 0x82, n / 256, n % 256] + value <= rest {
      PrefixValue(rest, [0x53, 0x82, n / 256, n % 256], value);
      assert ReadU16(n / 256, n % 256) == n;
    }
  }

  lemma U16Parts(a: Byte, b: Byte)
    ensures ReadU16(a, b) < 65536 && ReadU16(a, b) / 256 == a && ReadU16(a, b) % 256 == b
  {}

  lemma PrefixValue(rest: Bytes, head: Bytes, value: Bytes)
    requires head + value <= rest
    ensures forall i :: 0 <= i < |head| ==> rest[i] == head[i]
    ensures |rest| >= |head| + |value| && rest[|head|..|head| + |value|] == value
  {
    var both := head + value;
    assert forall i :: 0 <= i < |head| ==> rest[i] == both[i];
    assert rest[..|both|] == both && both[|head|..] == value;
  }

  // ---------------------------------------------------------------- key generation

  /** The entries of a generation template: tag, length byte and value. */
  datatype Entry = Entry(tag: Byte, value: Bytes)

  predicate Short(es: seq<Entry>) { forall i :: 0 <= i < |es| ==> |es[i].value| < 256 }

  function EntryBytes(e: Entry): Bytes
    requires |e.value| < 256
  {
    [e.tag, |e.value|] + e.value
  }

  function Entries(es: seq<Entry>): Bytes
    requires Short(es)
  {
    if es == [] then [] else EntryBytes(es[0]) + Entries(es[1..])
  }

  /** The first entry of tag 80 with one byte. */
  function FirstAlgorithm(es: seq<Entry>): Option<Byte> {
    if es == [] then None
    else if es[0].tag == 0x80 && |es[0].value| == 1 then Some(es[0].value[0])
    else FirstAlgorithm(es[1..])
  }

  /** The scan finds it behind any head. */
  lemma {:induction false} ScanFinds(head: Bytes, es: seq<Entry>)
    requires Short(es)
    ensures AlgorithmAt(head + Entries(es), |head|) == FirstAlgorithm(es)
    decreases |es|
  {
    var data, i := head + Entries(es), |head|;
    if es != [] {
      var first := EntryBytes(es[0]);
      assert data == (head + first) + Entries(es[1..]);
      assert data[i] == es[0].tag && data[i + 1] == |es[0].value|;
      if |es[0].value| > 0 { assert data[i + 2] == es[0].value[0]; }
      ScanFinds(head + first, es[1..]);
    }
  }

  /** GENERATE ASYMMETRIC KEY PAIR: each refusal in its order, and the new key otherwise. */
  lemma GenerateExactly(s: State, cmd: Apdu, env: Env, length: Byte, es: seq<Entry>)
    requires Short(es) && cmd.data == [0xAC, length] + Entries(es) && |cmd.data| >= 5
    ensures var r, a := GenerateKey(s, cmd, env), FirstAlgorithm(es);
      if !s.managed then IsStatus(r, s, 0x69, 0x82)
      else if cmd.p2 !in {0x9A, 0x9B, 0x9C, 0x9D, 0x9E} then IsStatus(r, s, 0x6B, 0x00)
      else if a !in {Some(0x03), Some(0x07), Some(0x11), Some(0x14)} then IsStatus(r, s, 0x6A, 0x80)
      else if a == Some(0x03) then IsStatus(r, s, 0x6A, 0x81)
      else if (a == Some(0x07) && env.rsaKey == None) || (a != Some(0x07) && env.eccKey == None) then
        IsStatus(r, s, 0x64, 0x00)
      else
        r.response == Response(if a == Some(0x07) then NewRsaKey(env.rsaKey.value).answer
                               else EccPublicObject(env.eccKey.value.publicKey), 0x90, 0x00)
  {
    hide AlgorithmAt, NewRsaKey, EccPublicObject;
    ScanFinds([0xAC, length], es);
  }

  /** Other data than a template AC of at least five bytes answers 6A80, once authenticated and for
      a key slot. */
  lemma GenerateRefuses(s: State, cmd: Apdu, env: Env)
    requires s.managed && cmd.p2 in {0x9A, 0x9B, 0x9C, 0x9D, 0x9E} && (|cmd.data| < 5 || cmd.data[0] != 0xAC)
    ensures IsStatus(GenerateKey(s, cmd, env), s, 0x6A, 0x80)
  {
    hide AlgorithmAt;
  }

  // ---------------------------------------------------------------- key use

  /** Template 7C is required. */
  lemma TemplateRequired(l: Library, s: State, cmd: Apdu, env: Env)
    requires cmd.data == [] || cmd.data[0] != 0x7C
    ensures IsStatus(GeneralAuthenticate(l, s, cmd, env), s, 0x6A, 0x80)
  {}

  /** The refusals of key use in their order; then an empty 82 asks for a signature of 81, otherwise
      85 is deciphered. */
  lemma UseExactly(l: Library, s: State, p2: Byte, tags: map<Byte, Bytes>)
    requires p2 != 0x9B
    ensures var r := UseKey(l, s, SlotOf(p2), tags);
      if p2 !in {0x9A, 0x9C, 0x9D, 0x9E} then r == Response([], 0x6B, 0x00)
      else if p2 != 0x9E && !s.pinVerified then r == Response([], 0x69, 0x82)
      else
        var key := if p2 == 0x9A then s.objects.key9A else if p2 == 0x9C then s.objects.key9C
                   else if p2 == 0x9D then s.objects.key9D else s.objects.key9E;
        if key.privateKey == [] then r == Response([], 0x6A, 0x88)
        else if 0x82 in tags && tags[0x82] == [] then
          if 0x81 !in tags then r == Response([], 0x6A, 0x80)
          else if key.algorithm in {0x11, 0x14} then
            var made := l.eccSign(key.algorithm, key.privateKey, tags[0x81]);
            r == if made == None then Response([], 0x64, 0x00) else Result7C(Ok(made.value))
          else key.algorithm != 0x07 ==> r == Response([], 0x6A, 0x81)
        else if 0x85 !in tags then r == Response([], 0x6A, 0x80)
        else key.algorithm != 0x07 ==> r == Response([], 0x6A, 0x81)
  {
    hide Result7C, Rsa.RawSignatureStored, Rsa.StoredKey;
    RefusedResult(EXEC_ERROR);
    RefusedResult(FUNCTION_NOT_SUPPORTED);
  }

  lemma RefusedResult(sw: nat)
    ensures Result7C(Err(sw)) == Error(sw)
  {}

  /** GET RESPONSE: nothing is ever buffered, so it answers 6985. */
  lemma NothingBuffered(s: State, le: Option<nat>)
    requires s.responseBuffer == []
    ensures IsStatus(GetResponse(s, le), s, 0x69, 0x85)
  {}
}

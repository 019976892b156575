/** Response chaining: the buffer and its offset hand out exactly the response. */
module OpenPgpResponses {
  import opened Wrappers
  import opened ByteStrings
  import opened Apdu
  import opened OpenPgpKeys
  import opened OpenPgp
  import opened OpenPgpRuns

  /** The offset is inside a non-empty buffer, and zero without one. */
  predicate BufferOk(s: State) {
    if s.responseBuffer == [] then s.responseOffset == 0 else s.responseOffset < |s.responseBuffer|
  }

  lemma HandlerKeepsBuffer(c: Crypto, s: State, cmd: Apdu, env: Env)
    requires BufferOk(s)
    ensures BufferOk(Dispatch(c, s, cmd, env).state)
  {
    hide GetData, StoreObject, StoreResetCode, ImportKey, PublicKey, PutAccess, StatusOf;
  }

  /** Every command keeps the offset inside the buffer. */
  lemma CommandKeepsBuffer(c: Crypto, s: State, cmd: Apdu, env: Env)
    requires BufferOk(s)
    ensures BufferOk(Process(c, s, cmd, env).state)
  {
    hide Dispatch;
    var s', data := s.(currentLe := cmd.le), s.commandBuffer + cmd.data;
    HandlerKeepsBuffer(c, s', cmd, env);
    HandlerKeepsBuffer(c, ChainClosed(s'), cmd.(cla := ClearChainBit(cmd.cla), data := data), env);
  }

  lemma ResetKeepsBuffer(s: State)
    ensures BufferOk(ResetSession(s))
  {}

  /** In every run the offset stays inside the buffer; so GET RESPONSE is refused only when
      nothing is buffered, and never computes a negative remainder. */
  lemma {:induction false} OffsetStaysInside(c: Crypto, s: State, es: seq<Event>, i: nat)
    requires i <= |es| && BufferOk(s)
    ensures var now := StateAt(c, s, es, i);
      && BufferOk(now) && now.responseOffset <= |now.responseBuffer|
      && forall le :: GetResponse(now, le).response == Error(CONDITIONS_NOT_SATISFIED) <==> now.responseBuffer == []
  {
    hide Process;
    if i > 0 {
      var before := StateAt(c, s, es, i - 1);
      OffsetStaysInside(c, s, es, i - 1);
      match es[i - 1]
      case Command(cmd, env) => CommandKeepsBuffer(c, before, cmd, env);
      case SessionReset => ResetKeepsBuffer(before);
    }
  }

  function Pending(s: State): Bytes
    requires BufferOk(s)
  {
    s.responseBuffer[s.responseOffset..]
  }

  function Wanted(le: Option<nat>): nat { if le.Some? then le.value else 256 }

  /** The Le values of parsed commands ask for something. */
  predicate Positive(les: seq<Option<nat>>) { forall i :: 0 <= i < |les| ==> Wanted(les[i]) >= 1 }

  /** The answers to a series of GET RESPONSE commands. */
  function Gets(s: State, les: seq<Option<nat>>): seq<Response>
    decreases |les|
  {
    if les == [] then []
    else
      var g := GetResponse(s.(currentLe := les[0]), les[0]);
      [g.response] + Gets(g.state, les[1..])
  }

  /** What they should be: the pending bytes cut into the wanted sizes. */
  function Cut(pending: Bytes, les: seq<Option<nat>>): seq<Response>
    decreases |les|
  {
    if les == [] then []
    else if pending == [] then [Error(CONDITIONS_NOT_SATISFIED)] + Cut([], les[1..])
    else if Wanted(les[0]) >= |pending| then [Success(pending)] + Cut([], les[1..])
    else
      var k := Wanted(les[0]);
      [MoreData(pending[..k], |pending| - k)] + Cut(pending[k..], les[1..])
  }

  lemma GetStep(s: State, le: Option<nat>)
    requires BufferOk(s)
    ensures var g := GetResponse(s.(currentLe := le), le);
            BufferOk(g.state) &&
            if Pending(s) == [] then g.response == Error(CONDITIONS_NOT_SATISFIED) && Pending(g.state) == []
            else if Wanted(le) >= |Pending(s)| then g.response == Success(Pending(s)) && Pending(g.state) == []
            else g.response == MoreData(Pending(s)[..Wanted(le)], |Pending(s)| - Wanted(le))
                 && Pending(g.state) == Pending(s)[Wanted(le)..]
  {
    if Pending(s) != [] {
      assert s.responseBuffer[s.responseOffset..] == s.responseBuffer[s.responseOffset..|s.responseBuffer|];
    }
  }

  /** The buffered answers are the cut of the pending bytes, for any series of Le values. */
  lemma {:induction false} GetsAreCut(s: State, les: seq<Option<nat>>)
    requires BufferOk(s)
    ensures Gets(s, les) == Cut(Pending(s), les)
    decreases |les|
  {
    if les != [] {
      GetStep(s, les[0]);
      GetsAreCut(GetResponse(s.(currentLe := les[0]), les[0]).state, les[1..]);
    }
  }

  function Joined(rs: seq<Response>): Bytes { if rs == [] then [] else rs[0].data + Joined(rs[1..]) }

  function Total(les: seq<Option<nat>>): nat { if les == [] then 0 else Wanted(les[0]) + Total(les[1..]) }

  function Min(x: nat, y: nat): nat { if x < y then x else y }

  /** Chunks are consecutive: together they are the first bytes that were asked for. */
  lemma {:induction false} CutJoins(pending: Bytes, les: seq<Option<nat>>)
    ensures Joined(Cut(pending, les)) == pending[..Min(Total(les), |pending|)]
    decreases |les|
  {
    hide Error, MoreData;
    if les != [] {
      var k := Min(Wanted(les[0]), |pending|);
      CutJoins(pending[k..], les[1..]);
      CutHead(pending, les);
      var t := Min(Total(les[1..]), |pending| - k);
      assert Joined(Cut(pending, les)) == pending[..k] + pending[k..][..t];
      TakeTake(pending, k, t);
    }
  }

  lemma CutHead(pending: Bytes, les: seq<Option<nat>>)
    requires les != []
    ensures var k := Min(Wanted(les[0]), |pending|); var all := Cut(pending, les);
            |all| > 0 && all[0].data == pending[..k] && all[1..] == Cut(pending[k..], les[1..])
  {
    var k := Min(Wanted(les[0]), |pending|);
    if k == |pending| { assert pending[k..] == [] && pending[..k] == pending; }
  }

  lemma TakeTake(s: Bytes, i: nat, j: nat)
    requires i + j <= |s|
    ensures s[..i] + s[i..][..j] == s[..i + j]
  {}

  /** 9000 is answered exactly when everything has been asked for. */
  lemma {:induction false} CutFinishes(pending: Bytes, les: seq<Option<nat>>)
    requires pending != []
    ensures (exists i :: 0 <= i < |Cut(pending, les)| && Cut(pending, les)[i].sw1 == 0x90) <==> Total(les) >= |pending|
    decreases |les|
  {
    var all := Cut(pending, les);
    if les != [] {
      if Wanted(les[0]) >= |pending| {
        assert all[0].sw1 == 0x90;
      } else {
        var k := Wanted(les[0]);
        CutFinishes(pending[k..], les[1..]);
        assert all[1..] == Cut(pending[k..], les[1..]);
        assert forall i :: 0 <= i < |all| - 1 ==> all[i + 1] == all[1..][i];
        assert forall i :: 1 <= i < |all| ==> all[i] == all[1..][i - 1];
      }
    }
  }

  /** With positive Le values |pending| commands are enough. */
  lemma {:induction false} TotalGrows(les: seq<Option<nat>>)
    requires Positive(les)
    ensures Total(les) >= |les|
  {
    if les != [] {
      assert Wanted(les[0]) >= 1;
      assert forall i :: 0 <= i < |les[1..]| ==> les[1..][i] == les[i + 1];
      TotalGrows(les[1..]);
    }
  }

  /** The status word with a chunk: 61, and how much is left up to 255, or 00 above. */
  lemma LeftIsTold(data: Bytes, left: nat)
    ensures MoreData(data, left) == Response(data, 0x61, if left <= 255 then left else 0x00)
  {}

  /** Every answer of the series tells what is left: the chunk at its place, 9000 with the last one,
      61 and the number of bytes still missing before it, and 6985 afterwards. */
  lemma {:induction false} ChunksTell(pending: Bytes, les: seq<Option<nat>>, i: nat)
    requires i < |les|
    ensures |Cut(pending, les)| == |les|
    ensures var before, wanted, r := Total(les[..i]), Wanted(les[i]), Cut(pending, les)[i];
      if before >= |pending| then r == Response([], 0x69, 0x85)
      else if before + wanted >= |pending| then r == Response(pending[before..], 0x90, 0x00)
      else
        var left := |pending| - before - wanted;
        r == Response(pending[before..before + wanted], 0x61, if left <= 255 then left else 0x00)
    decreases |les|
  {
    hide Error;
    CutSize(pending, les);
    if i == 0 {
      assert les[..0] == [];
      ErrorIs6985();
    } else {
      var k := Min(Wanted(les[0]), |pending|);
      CutHead(pending, les);
      ChunksTell(pending[k..], les[1..], i - 1);
      CutSize(pending[k..], les[1..]);
      assert les[..i] == [les[0]] + les[1..][..i - 1];
      assert ([les[0]] + les[1..][..i - 1])[1..] == les[1..][..i - 1];
    }
  }

  lemma ErrorIs6985()
    ensures Error(CONDITIONS_NOT_SATISFIED) == Response([], 0x69, 0x85)
  {}

  lemma {:induction false} CutSize(pending: Bytes, les: seq<Option<nat>>)
    ensures |Cut(pending, les)| == |les|
    decreases |les|
  {
    if les != [] {
      CutHead(pending, les);
      CutSize(pending[Min(Wanted(les[0]), |pending|)..], les[1..]);
    }
  }

  /** A response that needs chaining, followed by GET RESPONSE commands that ask for the rest,
      arrives complete; the last answer is 9000 and no more than one command a byte is needed. */
  lemma ResponseDelivered(s: State, data: Bytes, les: seq<Option<nat>>)
    requires |data| > Wanted(s.currentLe) && Positive(les)
    ensures var first := CreateResponse(s, data);
            var rest, missing := Gets(first.state, les), |data| - Wanted(s.currentLe);
            && first.response == Response(data[..Wanted(s.currentLe)], 0x61, if missing <= 255 then missing else 0x00)
            && Joined([first.response] + rest) == data[..Wanted(s.currentLe) + Min(Total(les), missing)]
            && ((exists i :: 0 <= i < |rest| && rest[i].sw1 == 0x90) <==> Total(les) >= missing)
            && (|les| >= missing ==> Joined([first.response] + rest) == data)
  {
    hide Gets, Cut;
    var first := CreateResponse(s, data);
    var m := Wanted(s.currentLe);
    GetsAreCut(first.state, les);
    CutJoins(data[m..], les);
    CutFinishes(data[m..], les);
    TotalGrows(les);
    var rest := Gets(first.state, les);
    var t := Min(Total(les), |data| - m);
    assert ([first.response] + rest)[1..] == rest;
    TakeTake(data, m, t);
    assert data[..|data|] == data;
  }
}

/** The PIV applet as an object, proved to make the steps of module Piv. */
module PivApplet {
  import opened Wrappers
  import opened ByteStrings
  import opened Apdu
  import opened Piv
  import opened KeyObjects

  /** The scan for the algorithm in GENERATE ASYMMETRIC KEY PAIR. */
  method FindAlgorithm(data: Bytes) returns (algorithm: Option<Byte>)
    ensures algorithm == AlgorithmAt(data, 2)
  {
    var idx: nat := 2;
    while idx + 2 <= |data|
      invariant AlgorithmAt(data, idx) == AlgorithmAt(data, 2)
      decreases if idx <= |data| then |data| - idx else 0
    {
      var tag := data[idx];
      var length: nat := data[idx + 1];
      if tag == 0x80 && length == 1 && idx + 2 < |data| {
        return Some(data[idx + 2]);
      }
      idx := idx + 2 + length;
    }
    algorithm := None;
  }

  /** The scan over a dynamic authentication template. */
  method CollectTags(data: Bytes) returns (tags: map<Byte, Bytes>)
    ensures tags == TemplateTags(data)
  {
    var contents := if |data| > 2 then data[2..] else [];
    tags := map[];
    var idx: nat := 0;
    while idx + 1 < |contents|
      invariant TagsAt(contents, idx, tags) == TagsAt(contents, 0, map[])
      decreases if idx <= |contents| then |contents| - idx else 0
    {
      var tag := contents[idx];
      var length: nat := contents[idx + 1];
      var value := if idx + 2 + length <= |contents| then contents[idx + 2..idx + 2 + length] else [];
      tags := tags[tag := value];
      idx := idx + 2 + length;
    }
  }

  class PivApplet {
    const library: Library
    var objects: Objects
    var secrets: Secrets
    var pinVerified: bool
    var managed: bool
    var responseBuffer: Bytes
    var responseOffset: nat
    var challenge: Option<Bytes>
    var chainBuffer: Bytes
    var chainIns: Option<Byte>
    var chainP1: Byte
    var chainP2: Byte

    constructor (library: Library)
      ensures this.library == library
      ensures Value() == State(NEW_OBJECTS, NEW_SECRETS, false, false, [], 0, None, [], None, 0, 0)
    {
      this.library := library;
      objects := NEW_OBJECTS;
      secrets := NEW_SECRETS;
      pinVerified, managed, responseBuffer, responseOffset, challenge := false, false, [], 0, None;
      chainBuffer, chainIns, chainP1, chainP2 := [], None, 0, 0;
    }

    function Value(): State
      reads this
    {
      State(objects, secrets, pinVerified, managed, responseBuffer, responseOffset, challenge, chainBuffer, chainIns,
            chainP1, chainP2)
    }

    method ProcessApdu(cmd: Apdu, env: Env) returns (r: Response)
      modifies this
      ensures Reply(Value(), r) == Process(library, old(Value()), cmd, env)
    {
      hide Dispatch, PutData;
      var isChaining := Chained(cmd);
      if isChaining || chainIns.Some? {
        if chainIns.None? {
          chainIns := Some(cmd.ins);
          chainP1 := cmd.p1;
          chainP2 := cmd.p2;
          chainBuffer := [];
        }
        if chainIns != Some(cmd.ins) {
          chainIns := None;
          chainBuffer := [];
          return Error(CONDITIONS_NOT_SATISFIED);
        }
        chainBuffer := chainBuffer + cmd.data;
        if isChaining {
          return Success([]);
        }
        var complete := cmd.(p1 := chainP1, p2 := chainP2, data := chainBuffer);
        chainBuffer := [];
        chainIns := None;
        if complete.ins == PUT_DATA {
          r := HandlePutData(complete);
        } else {
          r := Error(INS_NOT_SUPPORTED);
        }
        return;
      }
      r := Route(cmd, env);
    }

    method Route(cmd: Apdu, env: Env) returns (r: Response)
      modifies this
      ensures Reply(Value(), r) == Dispatch(library, old(Value()), cmd, env)
    {
      hide Select, Verify, Change, ResetRetry, GetData, PutData, GenerateKey, GeneralAuthenticate, Piv.GetResponse;
      match cmd.ins
      case SELECT => r := HandleSelect(cmd);
      case VERIFY => r := HandleVerify(cmd);
      case CHANGE_REFERENCE_DATA => r := HandleChangeReferenceData(cmd);
      case RESET_RETRY_COUNTER => r := HandleResetRetryCounter(cmd);
      case GET_DATA => r := GetData(objects, cmd);
      case PUT_DATA => r := HandlePutData(cmd);
      case GENERATE_KEY => r := HandleGenerateKey(cmd, env);
      case GENERAL_AUTHENTICATE => r := HandleGeneralAuthenticate(cmd, env);
      case GET_RESPONSE => r := HandleGetResponse(cmd);
      case GET_VERSION => r := Success([1, 0, 0]);
      case GET_SERIAL => r := Success(library.serial);
      case _ => r := Error(INS_NOT_SUPPORTED);
    }

    method HandleSelect(cmd: Apdu) returns (r: Response)
      modifies this
      ensures Reply(Value(), r) == Select(old(Value()), cmd)
    {
      if cmd.p1 != 0x04 {
        return Error(WRONG_P1_P2);
      }
      if !(PIV_AID <= cmd.data) {
        return Error(FILE_NOT_FOUND);
      }
      pinVerified, managed := false, false;
      challenge := None;
      r := Success(SELECT_ANSWER);
    }

    // -------------------------------------------------------------- PIN and PUK

    method CountPinFailure() returns (r: Response)
      modifies this
      ensures Reply(Value(), r) == PinFailed(old(Value()))
    {
      if secrets.pinRetries > 0 {
        secrets := secrets.(pinRetries := secrets.pinRetries - 1);
      }
      r := TriesLeft(secrets.pinRetries);
    }

    method CountPukFailure() returns (r: Response)
      modifies this
      ensures Reply(Value(), r) == PukFailed(old(Value()))
    {
      if secrets.pukRetries > 0 {
        secrets := secrets.(pukRetries := secrets.pukRetries - 1);
      }
      r := TriesLeft(secrets.pukRetries);
    }

    method HandleVerify(cmd: Apdu) returns (r: Response)
      modifies this
      ensures Reply(Value(), r) == Verify(old(Value()), cmd)
    {
      if cmd.p2 == PIN_REF {
        if cmd.data == [] { return CounterWarning(secrets.pinRetries); }
        var pin := UntilFF(cmd.data);
        if secrets.pinRetries == 0 { return Error(AUTH_METHOD_BLOCKED); }
        if pin == secrets.pin {
          pinVerified := true;
          secrets := secrets.(pinRetries := 3);
          r := Success([]);
        } else {
          r := CountPinFailure();
        }
      } else if cmd.p2 == PUK_REF {
        if cmd.data == [] { return CounterWarning(secrets.pukRetries); }
        if secrets.pukRetries == 0 { return Error(AUTH_METHOD_BLOCKED); }
        if cmd.data == secrets.puk {
          secrets := secrets.(pukRetries := 3);
          r := Success([]);
        } else {
          r := CountPukFailure();
        }
      } else {
        r := Error(WRONG_P1_P2);
      }
    }

    method HandleChangeReferenceData(cmd: Apdu) returns (r: Response)
      modifies this
      ensures Reply(Value(), r) == Change(old(Value()), cmd)
    {
      hide UntilFF;
      if |cmd.data| != 16 { return Error(WRONG_LENGTH); }
      var oldValue := UntilFF(cmd.data[..8]);
      var newValue := UntilFF(cmd.data[8..]);
      if cmd.p2 == PIN_REF {
        if secrets.pinRetries == 0 { return Error(AUTH_METHOD_BLOCKED); }
        if oldValue == secrets.pin {
          secrets := secrets.(pin := newValue);
          secrets := secrets.(pinRetries := 3);
          r := Success([]);
        } else {
          r := CountPinFailure();
        }
      } else if cmd.p2 == PUK_REF {
        if secrets.pukRetries == 0 { return Error(AUTH_METHOD_BLOCKED); }
        if oldValue == secrets.puk {
          secrets := secrets.(puk := newValue);
          secrets := secrets.(pukRetries := 3);
          r := Success([]);
        } else {
          r := CountPukFailure();
        }
      } else {
        r := Error(WRONG_P1_P2);
      }
    }

    method HandleResetRetryCounter(cmd: Apdu) returns (r: Response)
      modifies this
      ensures Reply(Value(), r) == ResetRetry(old(Value()), cmd)
    {
      hide UntilFF;
      if cmd.p2 != PIN_REF { return Error(WRONG_P1_P2); }
      if |cmd.data| != 16 { return Error(WRONG_LENGTH); }
      var puk := cmd.data[..8];
      var newPin := UntilFF(cmd.data[8..]);
      if secrets.pukRetries == 0 { return Error(AUTH_METHOD_BLOCKED); }
      if puk == secrets.puk {
        secrets := secrets.(pin := newPin);
        secrets := secrets.(pinRetries := 3);
        secrets := secrets.(pukRetries := 3);
        r := Success([]);
      } else {
        r := CountPukFailure();
      }
    }

    // -------------------------------------------------------------- objects and keys

    method HandlePutData(cmd: Apdu) returns (r: Response)
      modifies this
      ensures Reply(Value(), r) == PutData(old(Value()), cmd)
    {
      hide NameOf, WithObject;
      if !managed { return Error(SECURITY_STATUS_NOT_SATISFIED); }
      if cmd.p1 != 0x3F || cmd.p2 != 0xFF { return Error(WRONG_P1_P2); }
      if |cmd.data| < 2 || cmd.data[0] != 0x5C { return Error(WRONG_DATA); }
      var tagLen: nat := cmd.data[1];
      if |cmd.data| < 2 + tagLen { return Error(WRONG_DATA); }
      var objectId := cmd.data[2..2 + tagLen];
      var remaining := cmd.data[2 + tagLen..];
      if remaining == [] || remaining[0] != 0x53 { return Error(WRONG_DATA); }
      var dataLen: nat, dataOffset: nat;
      if |remaining| < 2 {
        return Error(WRONG_DATA);
      } else if remaining[1] == 0x82 {
        if |remaining| < 4 { return Error(WRONG_DATA); }
        dataLen, dataOffset := ReadU16(remaining[2], remaining[3]), 4;
      } else if remaining[1] == 0x81 {
        if |remaining| < 3 { return Error(WRONG_DATA); }
        dataLen, dataOffset := remaining[2], 3;
      } else {
        dataLen, dataOffset := remaining[1], 2;
      }
      if |remaining| < dataOffset + dataLen { return Error(WRONG_DATA); }
      var data := remaining[dataOffset..dataOffset + dataLen];
      var name := NameOf(objectId);
      if name.None? { return Error(FILE_NOT_FOUND); }
      objects := WithObject(objects, name.value, data);
      r := Success([]);
    }

    method HandleGenerateKey(cmd: Apdu, env: Env) returns (r: Response)
      modifies this
      ensures Reply(Value(), r) == GenerateKey(old(Value()), cmd, env)
    {
      hide AlgorithmAt, NewRsaKey, EccPublicObject;
      if !managed { return Error(SECURITY_STATUS_NOT_SATISFIED); }
      var slot := SlotOf(cmd.p2);
      if slot.None? { return Error(WRONG_P1_P2); }
      if |cmd.data| < 5 || cmd.data[0] != 0xAC { return Error(WRONG_DATA); }
      var algorithm := FindAlgorithm(cmd.data);
      if algorithm.None? || algorithm.value !in {TDES, RSA2048, ECCP256, ECCP384} { return Error(WRONG_DATA); }
      if algorithm.value == TDES { return Error(FUNCTION_NOT_SUPPORTED); }
      if algorithm.value == RSA2048 {
        if env.rsaKey.None? { return Error(EXEC_ERROR); }
        var newKey := NewRsaKey(env.rsaKey.value);
        StoreKey(slot.value, algorithm.value, newKey.privateKey, newKey.answer);
        r := Success(newKey.answer);
      } else {
        if env.eccKey.None? { return Error(EXEC_ERROR); }
        var public := EccPublicObject(env.eccKey.value.publicKey);
        StoreKey(slot.value, algorithm.value, env.eccKey.value.privateKey, public);
        r := Success(public);
      }
    }

    /** Nothing is stored for the management key's slot. */
    method StoreKey(slot: KeySlot, algorithm: Byte, private: Bytes, public: Bytes)
      modifies this`objects
      ensures objects == match KeyIn(old(objects), slot)
                         case Some(key) =>
                           WithKey(old(objects), slot, key.(algorithm := algorithm, privateKey := private,
                                                            publicKey := public))
                         case None => old(objects)
    {
      var key := KeyIn(objects, slot);
      if key.Some? {
        var changed := key.value.(algorithm := algorithm);
        changed := changed.(privateKey := private);
        changed := changed.(publicKey := public);
        objects := WithKey(objects, slot, changed);
      }
    }

    method HandleGeneralAuthenticate(cmd: Apdu, env: Env) returns (r: Response)
      modifies this
      ensures Reply(Value(), r) == GeneralAuthenticate(library, old(Value()), cmd, env)
    {
      hide TemplateTags, UseKey, AuthenticateManagement;
      if cmd.data == [] || cmd.data[0] != 0x7C { return Error(WRONG_DATA); }
      var tags := CollectTags(cmd.data);
      if cmd.p2 == MGMT_KEY {
        r := AuthenticateMgmtKey(tags, env);
      } else {
        r := UseSlotKey(cmd.p2, tags);
      }
    }

    method UseSlotKey(reference: Byte, tags: map<Byte, Bytes>) returns (r: Response)
      ensures r == UseKey(library, Value(), SlotOf(reference), tags)
    {
      hide SlotOf, KeyIn, SignData, DecryptData, Result7C;
      var slot := SlotOf(reference);
      if slot.None? { return Error(WRONG_P1_P2); }
      if slot.value != CardAuthentication && !pinVerified { return Error(SECURITY_STATUS_NOT_SATISFIED); }
      var key := KeyIn(objects, slot.value);
      if key.None? || key.value.privateKey == [] { return Error(REFERENCED_DATA_NOT_FOUND); }
      if 0x82 in tags {
        if tags[0x82] == [] {
          if 0x81 in tags { return Result7C(SignData(library, key.value, tags[0x81])); }
          return Error(WRONG_DATA);
        }
      }
      if 0x85 in tags { return Result7C(DecryptData(library, key.value, tags[0x85])); }
      r := Error(WRONG_DATA);
    }

    method AuthenticateMgmtKey(tags: map<Byte, Bytes>, env: Env) returns (r: Response)
      modifies this
      ensures Reply(Value(), r) == AuthenticateManagement(library, old(Value()), tags, env)
    {
      if 0x80 in tags {
        if tags[0x80] == [] && 0x81 !in tags {
          challenge := Some(env.random);
          var encrypted := library.encrypt(objects.managementKey, env.random);
          if encrypted.None? { return Error(EXEC_ERROR); }
          return Success([0x7C, 0x0A, 0x80, 0x08] + encrypted.value);
        }
      }
      if 0x80 in tags && 0x81 in tags {
        if challenge.None? { return Error(CONDITIONS_NOT_SATISFIED); }
        if tags[0x80] != challenge.value {
          challenge := None;
          return Error(SECURITY_STATUS_NOT_SATISFIED);
        }
        var answer := library.encrypt(objects.managementKey, tags[0x81]);
        if answer.None? {
          challenge := None;
          return Error(EXEC_ERROR);
        }
        managed := true;
        challenge := None;
        return Success([0x7C, 0x0A, 0x82, 0x08] + answer.value);
      }
      r := Error(WRONG_DATA);
    }

    method HandleGetResponse(cmd: Apdu) returns (r: Response)
      modifies this
      ensures Reply(Value(), r) == Piv.GetResponse(old(Value()), cmd.le)
    {
      if responseBuffer == [] || responseOffset > |responseBuffer| { return Error(CONDITIONS_NOT_SATISFIED); }
      var le := if cmd.le.Some? then cmd.le.value else 256;
      var remaining := |responseBuffer| - responseOffset;
      var toSend := if le < remaining then le else remaining;
      var data := responseBuffer[responseOffset..responseOffset + toSend];
      responseOffset := responseOffset + toSend;
      if responseOffset >= |responseBuffer| {
        responseBuffer := [];
        responseOffset := 0;
        r := Success(data);
      } else {
        var stillRemaining := |responseBuffer| - responseOffset;
        r := Response(data, 0x61, if stillRemaining < 255 then stillRemaining else 255);
      }
    }

    method Reset()
      modifies this
      ensures Value() == ResetSession(old(Value()))
    {
      pinVerified, managed := false, false;
      responseBuffer := [];
      responseOffset := 0;
      challenge := None;
    }
  }
}

/** The OpenPGP applet as an object: its handlers update buffers, card and PIN data in place
    and are proved to make the steps of module OpenPgp. */
module OpenPgpApplet {
  import opened Wrappers
  import opened ByteStrings
  import opened Apdu
  import opened OpenPgpCard
  import opened PinManager
  import opened KeyObjects
  import opened OpenPgpKeys
  import opened OpenPgp
  import Rsa
  import opened NumberTheory
  import Tlv
  import TlvCodec

  /** `parse_ber_length`: at most 64 bits of the length are kept. */
  method ParseBerLength(data: Bytes) returns (length: nat, consumed: nat)
    ensures data == [] ==> length == 0 && consumed == 0
    ensures data != [] ==> Tlv.Field(length, consumed) == BerLength(data)
  {
    if data == [] { return 0, 0; }
    var first := data[0];
    if first < 128 { return first, 1; }
    var numBytes := first - 128;
    if |data| < 1 + numBytes { return 0, 1; }
    length := 0;
    assert data[1..1] == [];
    for i := 0 to numBytes
      invariant length == ToNat(data[1..1 + i]) % WORD
    {
      ShiftIn(ToNat(data[1..1 + i]), data[1 + i]);
      length := length * 256 % WORD + data[1 + i];
      assert data[1..2 + i][..i] == data[1..1 + i];
    }
    consumed := 1 + numBytes;
  }

  /** Shifting a byte into a 64-bit word drops the word's top byte. */
  lemma ShiftIn(x: nat, b: Byte)
    ensures x % WORD * 256 % WORD + b == (256 * x + b) % WORD
  {
    var y := x % WORD;
    var k, high := x / WORD, y / TOP;
    var low := (y % TOP) * 256;
    assert x == WORD * k + y && y == TOP * high + y % TOP;
    RemainderUnique(y * 256, WORD, high, low);
    assert 256 * x + b == WORD * (256 * k + high) + (low + b);
    RemainderUnique(256 * x + b, WORD, 256 * k + high, low + b);
  }

  const TOP: nat := 0x100_0000_0000_0000

  /** `parse_crt_lengths`: a scan over tag and length pairs. */
  method ParseCrtLengths(data: Bytes) returns (found: Lengths)
    ensures found == CrtLengths(data, Lengths(0, 0, 0))
  {
    var eLen: nat, pLen: nat, qLen: nat := 0, 0, 0;
    var offset := 0;
    assert data[0..] == data;
    while offset < |data|
      invariant CrtLengths(data, Lengths(0, 0, 0))
             == if offset <= |data| then CrtLengths(data[offset..], Lengths(eLen, pLen, qLen))
                else Lengths(eLen, pLen, qLen)
    {
      var tag := data[offset];
      DropDrop(data, offset, 1);
      ghost var here := data[offset..];
      offset := offset + 1;
      if offset >= |data| { break; }
      var length, consumed := ParseBerLength(data[offset..]);
      if 1 + consumed <= |here| { DropDrop(data, offset - 1, 1 + consumed); }
      offset := offset + consumed;
      match tag
      case 0x91 => eLen := length;
      case 0x92 => pLen := length;
      case 0x93 => qLen := length;
      case _ =>
    }
    found := Lengths(eLen, pLen, qLen);
  }

  class OpenPgpApplet {
    const crypto: Crypto
    const pins: PinData
    const security: SecurityState
    var card: Card
    var responseBuffer: Bytes
    var responseOffset: nat
    var commandBuffer: Bytes
    var chainingIns: Option<Byte>
    var currentLe: Option<nat>

    /** A new applet over stored card and PIN data. */
    constructor (crypto: Crypto, card: Card, stored: Pins)
      ensures fresh(pins) && fresh(security) && this.crypto == crypto
      ensures Value() == State(card, stored, Security(false, false, false, true), [], 0, [], None, None)
    {
      this.crypto := crypto;
      this.card := card;
      pins := new PinData(stored);
      security := new SecurityState();
      responseBuffer, responseOffset, commandBuffer, chainingIns, currentLe := [], 0, [], None, None;
    }

    ghost function Value(): State
      reads this, pins, security
    {
      State(card, pins.Value(), security.Value(), responseBuffer, responseOffset, commandBuffer, chainingIns, currentLe)
    }

    // -------------------------------------------------------------- dispatch

    method ProcessApdu(cmd: Apdu, env: Env) returns (r: Response)
      modifies this, pins, security
      ensures Reply(Value(), r) == Process(crypto, old(Value()), cmd, env)
    {
      hide Dispatch;
      currentLe := cmd.le;
      if cmd.ins == GET_RESPONSE {
        r := HandleGetResponse(cmd);
        return;
      }
      if Chained(cmd) {
        r := HandleCommandChaining(cmd);
        return;
      }
      var effective := cmd;
      if commandBuffer != [] {
        if chainingIns != Some(cmd.ins) {
          commandBuffer := [];
          chainingIns := None;
          return Error(CONDITIONS_NOT_SATISFIED);
        }
        var combined := commandBuffer + cmd.data;
        commandBuffer := [];
        chainingIns := None;
        effective := cmd.(cla := ClearChainBit(cmd.cla), data := combined);
      }
      r := Route(effective, env);
    }

    method Route(cmd: Apdu, env: Env) returns (r: Response)
      modifies this, pins, security
      ensures Reply(Value(), r) == Dispatch(crypto, old(Value()), cmd, env)
    {
      hide Select, GetData, VerifyPw, ChangePw, ResetPw, PutData, PutDataOdd, GenerateKey, SecurityOperation,
        Authenticate, Challenge, Terminate, Activate;
      if card.terminated {
        if cmd.ins != ACTIVATE_FILE {
          return Error(CONDITIONS_NOT_SATISFIED);
        }
      }
      match cmd.ins
      case SELECT => r := Select(cmd);
      case GET_DATA => r := HandleGetData(cmd);
      case VERIFY => r := HandleVerify(cmd);
      case CHANGE_REFERENCE_DATA => r := HandleChangeReferenceData(cmd);
      case RESET_RETRY_COUNTER => r := HandleResetRetryCounter(cmd);
      case PUT_DATA => r := HandlePutData(cmd);
      case PUT_DATA_ODD => r := HandlePutDataOdd(cmd);
      case GENERATE_KEY => r := HandleGenerateKey(cmd, env);
      case PSO => r := HandlePso(cmd);
      case INTERNAL_AUTHENTICATE => r := HandleInternalAuthenticate(cmd);
      case GET_CHALLENGE => r := Challenge(cmd, env);
      case TERMINATE_DF => r := HandleTerminate();
      case ACTIVATE_FILE => r := HandleActivate();
      case _ => r := Error(INS_NOT_SUPPORTED);
    }

    method HandleCommandChaining(cmd: Apdu) returns (r: Response)
      modifies this
      ensures Reply(Value(), r) == Chain(old(Value()), cmd)
    {
      if chainingIns.None? {
        chainingIns := Some(cmd.ins);
        commandBuffer := [];
      } else if chainingIns != Some(cmd.ins) {
        commandBuffer := [];
        chainingIns := None;
        return Error(CONDITIONS_NOT_SATISFIED);
      }
      commandBuffer := commandBuffer + cmd.data;
      r := Success([]);
    }

    // -------------------------------------------------------------- responses

    method HandleGetResponse(cmd: Apdu) returns (r: Response)
      modifies this
      ensures Reply(Value(), r) == GetResponse(old(Value()), cmd.le)
    {
      if responseBuffer == [] || responseOffset > |responseBuffer| {
        return Error(CONDITIONS_NOT_SATISFIED);
      }
      var le := if cmd.le.Some? then cmd.le.value else 256;
      var remaining := |responseBuffer| - responseOffset;
      var chunkSize := if le < remaining then le else remaining;
      var data := responseBuffer[responseOffset..responseOffset + chunkSize];
      responseOffset := responseOffset + chunkSize;
      var newRemaining := |responseBuffer| - responseOffset;
      if newRemaining == 0 {
        responseBuffer := [];
        responseOffset := 0;
        r := Success(data);
      } else {
        r := MoreData(data, newRemaining);
      }
    }

    method MakeResponse(data: Bytes) returns (r: Response)
      modifies this
      ensures Reply(Value(), r) == CreateResponse(old(Value()), data)
    {
      var maxResponse := if currentLe.Some? then currentLe.value else 256;
      if |data| <= maxResponse {
        r := Success(data);
      } else {
        responseBuffer := data;
        responseOffset := maxResponse;
        var chunk := responseBuffer[..maxResponse];
        r := MoreData(chunk, |responseBuffer| - maxResponse);
      }
    }

    method Respond(outcome: Outcome) returns (r: Response)
      modifies this
      ensures Reply(Value(), r) == Answer(old(Value()), outcome)
    {
      match outcome
      case Failed(e) => r := Error(StatusOf(e));
      case Done(data) => r := MakeResponse(data);
    }

    // -------------------------------------------------------------- data objects

    method HandleGetData(cmd: Apdu) returns (r: Response)
      ensures r == GetData(crypto, Value(), P1P2(cmd))
    {
      var tag := P1P2(cmd);
      if !AccessGranted(security.Value(), GetAccess(tag)) {
        return Error(SECURITY_STATUS_NOT_SATISFIED);
      }
      r := ReadObject(tag);
    }

    /** The arms of the tag table; only the composite of 6E is built step by step. */
    method ReadObject(tag: nat) returns (r: Response)
      ensures var found := DataObject(crypto, card, pins.Value(), tag);
              r == if found.Some? then Success(found.value) else Error(REFERENCED_DATA_NOT_FOUND)
    {
      if tag == 0x006E {
        var data := BuildApplicationData();
        return Success(data);
      }
      match DataObject(crypto, card, pins.Value(), tag)
      case Some(data) => r := Success(data);
      case None => r := Error(REFERENCED_DATA_NOT_FOUND);
    }

    /** `build_application_data`: the discretionary objects are built first. */
    method BuildApplicationData() returns (data: Bytes)
      ensures data == ApplicationData(card, pins.Value())
    {
      hide Tlv.Encode, Aid, HistoricalBytes, DiscretionaryObjects;
      var discretionary := BuildDiscretionary();
      var features := new TlvCodec.TlvBuilder();
      features.AddRaw(FEATURE_MANAGEMENT);
      assert features.data == FEATURE_MANAGEMENT;
      features.Wrap(0x7F74);
      var outer := new TlvCodec.TlvBuilder();
      outer.Add(0x4F, Aid(card));
      outer.Add(0x5F52, HistoricalBytes(card));
      outer.AddRaw(features.data);
      outer.AddRaw(discretionary);
      assert outer.data == Tlv.Encode(0x4F, Aid(card)) + Tlv.Encode(0x5F52, HistoricalBytes(card))
                           + features.data + discretionary;
      outer.Wrap(0x6E);
      data := outer.data;
    }

    method BuildDiscretionary() returns (data: Bytes)
      ensures data == Tlv.Encode(0x73, DiscretionaryObjects(card, pins.Value()))
    {
      hide Tlv.Encode, StatusBytes, Fingerprints, CaFingerprints, KeyTimestamps;
      var inner := new TlvCodec.TlvBuilder();
      inner.Add(0xC0, EXTENDED_CAPABILITIES);
      assert inner.data == Tlv.Encode(0xC0, EXTENDED_CAPABILITIES);
      inner.Add(0xC1, card.sig.algorithm.ToBytes());
      inner.Add(0xC2, card.dec.algorithm.ToBytes());
      inner.Add(0xC3, card.aut.algorithm.ToBytes());
      inner.Add(0xC4, StatusBytes(pins.Value()));
      inner.Add(0xC5, Fingerprints(card));
      inner.Add(0xC6, CaFingerprints(card));
      inner.Add(0xCD, KeyTimestamps(card));
      inner.Wrap(0x73);
      data := inner.data;
    }

    method HandlePutData(cmd: Apdu) returns (r: Response)
      modifies this, pins
      ensures Reply(Value(), r) == PutData(crypto, old(Value()), P1P2(cmd), cmd.data)
    {
      hide StoreObject;
      var tag := P1P2(cmd);
      if !AccessGranted(security.Value(), PutAccess(tag)) {
        return Error(SECURITY_STATUS_NOT_SATISFIED);
      }
      if tag == 0x00C4 {
        if cmd.data != [] {
          pins.validMultiple := cmd.data[0] != 0;
        }
      } else if tag == 0x00D3 {
        if cmd.data == [] {
          pins.rc := pins.rc.(hash := []);
          pins.rc := pins.rc.(length := 0);
        } else {
          var rcLen := |cmd.data| % 256;
          if rcLen < pins.rc.minLength {
            return Error(WRONG_LENGTH);
          }
          pins.rc := pins.rc.(hash := crypto.hash(cmd.data));
          pins.rc := pins.rc.(length := rcLen);
          pins.rc := pins.rc.(retries := pins.rc.maxRetries);
        }
      } else {
        var refused := StoreInCard(tag, cmd.data);
        if refused.Some? {
          return Error(refused.value);
        }
      }
      r := Success([]);
    }

    /** The arms that write card data; the status word of a refusal. */
    method StoreInCard(tag: nat, data: Bytes) returns (refused: Option<nat>)
      modifies this`card
      ensures match StoreObject(crypto, old(card), tag, data)
              case Ok(stored) => refused == None && card == stored
              case Err(sw) => refused == Some(sw) && card == old(card)
    {
      hide AlgorithmFromBytes, ReadTimestamp;
      refused := None;
      match tag
      case 0x005B => card := card.(cardholder := card.cardholder.(name := crypto.utf8Lossy(data)));
      case 0x5F2D => card := card.(cardholder := card.cardholder.(language := crypto.utf8Lossy(data)));
      case 0x5F35 => if data != [] { card := card.(cardholder := card.cardholder.(sex := data[0])); }
      case 0x005E => card := card.(cardholder := card.cardholder.(login := crypto.utf8Lossy(data)));
      case 0x5F50 => card := card.(cardholder := card.cardholder.(url := crypto.utf8Lossy(data)));
      case 0x0101 => card := card.(do1 := data);
      case 0x0102 => card := card.(do2 := data);
      case 0x0103 => card := card.(do3 := data);
      case 0x0104 => card := card.(do4 := data);
      case 0x00C1 =>
        var a := AlgorithmFromBytes(data);
        if a.None? { return Some(WRONG_DATA); }
        card := card.(sig := card.sig.(algorithm := a.value));
      case 0x00C2 =>
        var a := AlgorithmFromBytes(data);
        if a.None? { return Some(WRONG_DATA); }
        card := card.(dec := card.dec.(algorithm := a.value));
      case 0x00C3 =>
        var a := AlgorithmFromBytes(data);
        if a.None? { return Some(WRONG_DATA); }
        card := card.(aut := card.aut.(algorithm := a.value));
      case 0x00C7 =>
        if |data| != 20 { return Some(WRONG_LENGTH); }
        card := card.(sig := card.sig.(fingerprint := data));
      case 0x00C8 =>
        if |data| != 20 { return Some(WRONG_LENGTH); }
        card := card.(dec := card.dec.(fingerprint := data));
      case 0x00C9 =>
        if |data| != 20 { return Some(WRONG_LENGTH); }
        card := card.(aut := card.aut.(fingerprint := data));
      case 0x00CA =>
        if |data| != 20 { return Some(WRONG_LENGTH); }
        card := card.(sig := card.sig.(caFingerprint := data));
      case 0x00CB =>
        if |data| != 20 { return Some(WRONG_LENGTH); }
        card := card.(dec := card.dec.(caFingerprint := data));
      case 0x00CC =>
        if |data| != 20 { return Some(WRONG_LENGTH); }
        card := card.(aut := card.aut.(caFingerprint := data));
      case 0x00CE =>
        if |data| != 4 { return Some(WRONG_LENGTH); }
        card := card.(sig := card.sig.(generationTime := ReadTimestamp(data)));
      case 0x00CF =>
        if |data| != 4 { return Some(WRONG_LENGTH); }
        card := card.(dec := card.dec.(generationTime := ReadTimestamp(data)));
      case 0x00D0 =>
        if |data| != 4 { return Some(WRONG_LENGTH); }
        card := card.(aut := card.aut.(generationTime := ReadTimestamp(data)));
      case 0x00D6 => if data != [] { card := card.(sig := card.sig.(uif := data[0])); }
      case 0x00D7 => if data != [] { card := card.(dec := card.dec.(uif := data[0])); }
      case 0x00D8 => if data != [] { card := card.(aut := card.aut.(uif := data[0])); }
      case 0x7F21 => card := card.(certificate := data);
      case _ => return Some(REFERENCED_DATA_NOT_FOUND);
    }

    // -------------------------------------------------------------- PINs

    method HandleVerify(cmd: Apdu) returns (r: Response)
      modifies pins, security
      ensures Reply(Value(), r) == VerifyPw(crypto, old(Value()), cmd)
    {
      hide Verify, Stripped;
      var target := VerifyTarget(cmd.p2);
      if target.None? {
        return Error(WRONG_P1_P2);
      }
      var (pinType, condition) := target.value;
      if cmd.data == [] {
        var retryCount := PinOf(pins.Value(), pinType).retries;
        if retryCount == 0 {
          return Error(AUTH_METHOD_BLOCKED);
        }
        if security.IsVerified(condition) {
          return Success([]);
        }
        return CounterWarning(retryCount);
      }
      var pin := Stripped(cmd.data);
      var ok := VerifyPin(crypto.hash, pinType, pin, pins);
      if ok {
        security.SetVerified(condition);
        if pinType == PW1_81 || pinType == PW1_82 {
          security.SetPw1ValidMultiple(pins.validMultiple);
        }
        r := Success([]);
      } else {
        r := TriesLeft(PinOf(pins.Value(), pinType).retries);
      }
    }

    method HandleChangeReferenceData(cmd: Apdu) returns (r: Response)
      modifies pins
      ensures Reply(Value(), r) == ChangePw(crypto, old(Value()), cmd)
    {
      hide Change;
      var pinType := PW1_81;
      if cmd.p2 == 0x83 {
        pinType := PW3;
      } else if cmd.p2 != 0x81 {
        return Error(WRONG_P1_P2);
      }
      var oldLen := PinOf(pins.Value(), pinType).length;
      if |cmd.data| <= oldLen {
        return Error(WRONG_LENGTH);
      }
      var ok := ChangePin(crypto.hash, pinType, cmd.data[..oldLen], cmd.data[oldLen..], pins);
      if ok {
        r := Success([]);
      } else {
        r := TriesLeft(PinOf(pins.Value(), pinType).retries);
      }
    }

    method HandleResetRetryCounter(cmd: Apdu) returns (r: Response)
      modifies pins
      ensures Reply(Value(), r) == ResetPw(crypto, old(Value()), cmd)
    {
      hide ResetWithCode, NewPw1;
      if cmd.p2 != 0x81 {
        return Error(WRONG_P1_P2);
      }
      if cmd.p1 == 0x00 {
        var rcLen := pins.rc.length;
        if |cmd.data| <= rcLen {
          return Error(WRONG_LENGTH);
        }
        var ok := ResetPw1WithRc(crypto.hash, cmd.data[..rcLen], cmd.data[rcLen..], pins);
        if ok {
          r := Success([]);
        } else {
          r := Error(SECURITY_STATUS_NOT_SATISFIED);
        }
      } else if cmd.p1 == 0x02 {
        if !security.IsVerified(CONDITION_PW3) {
          return Error(SECURITY_STATUS_NOT_SATISFIED);
        }
        var ok := ResetPw1WithPw3(crypto.hash, cmd.data, pins);
        if ok {
          r := Success([]);
        } else {
          r := Error(WRONG_DATA);
        }
      } else {
        r := Error(WRONG_P1_P2);
      }
    }

    // -------------------------------------------------------------- keys

    method HandlePutDataOdd(cmd: Apdu) returns (r: Response)
      modifies this
      ensures Reply(Value(), r) == PutDataOdd(crypto, old(Value()), cmd)
    {
      hide ImportKey;
      if cmd.p1 != 0x3F || cmd.p2 != 0xFF {
        return Error(WRONG_P1_P2);
      }
      if !security.IsVerified(CONDITION_PW3) {
        return Error(SECURITY_STATUS_NOT_SATISFIED);
      }
      r := HandleKeyImport(cmd.data);
    }

    method HandleKeyImport(data: Bytes) returns (r: Response)
      modifies this`card
      ensures Imported(card, r) == ImportKey(crypto, old(card), data)
    {
      hide ImportEcc, CrtSlot, Tlv.Forest, Tlv.FirstWith, CrtLengths;
      var tlvs := TlvCodec.ReadList(data, true);
      if tlvs == [] || tlvs[0].tag != 0x4D {
        return Error(WRONG_DATA);
      }
      var children := TlvCodec.ReadList(tlvs[0].value, true);
      var name := CrtSlot(children);
      if name.None? {
        return Error(WRONG_DATA);
      }
      var key := Tlv.FirstWith(children, 0x5F48);
      if key.None? {
        return Error(WRONG_DATA);
      }
      var slot := card.Slot(name.value);
      if slot.algorithm.id == RSA {
        var template := Tlv.FirstWith(children, 0x7F48);
        if template.None? {
          return Error(WRONG_DATA);
        }
        var lengths := ParseCrtLengths(template.value.value);
        LengthsAreWords(template.value.value, Lengths(0, 0, 0));
        var stored := StoreRsaKey(slot, lengths, key.value.value);
        if stored.Err? {
          return Error(stored.error);
        }
        card := card.WithSlot(name.value, stored.value);
        r := Success([]);
      } else {
        r := ImportEccKey(name.value, key.value.value);
      }
    }

    /** The private key is written before the public key is computed. */
    method ImportEccKey(name: SlotName, key: Bytes) returns (r: Response)
      modifies this`card
      ensures var (slot, response) := ImportEcc(crypto, old(card).Slot(name), key);
              card == old(card).WithSlot(name, slot) && r == response
    {
      hide EccSize, EccStored, EccPublicObject;
      var algorithm := card.Slot(name).algorithm;
      var expected := EccSize(algorithm);
      if expected != Some(|key|) {
        return Error(WRONG_DATA);
      }
      var storedKey := EccStored(algorithm, key);
      card := card.WithSlot(name, card.Slot(name).(privateKey := storedKey));
      var public := crypto.eccPublicKey(algorithm, storedKey);
      if public.None? {
        return Error(EXEC_ERROR);
      }
      card := card.WithSlot(name, card.Slot(name).(publicKey := EccPublicObject(public.value)));
      r := Success([]);
    }

    /** Splits e, p and q, and stores them and n = p * q behind length prefixes. Lengths and their
        sums are 64-bit. */
    static method StoreRsaKey(slot: KeySlot, l: Lengths, key: Bytes) returns (r: Result<KeySlot, nat>)
      requires l.e < WORD && l.p < WORD && l.q < WORD
      ensures r == SplitRsa(slot, l, key)
    {
      hide Modulus;
      if l.e == 0 || l.p == 0 || l.q == 0 {
        return Err(WRONG_DATA);
      }
      var total := (l.e + l.p) % WORD;
      total := (total + l.q) % WORD;
      SumWraps(l.e, l.p, l.q);
      if |key| != total {
        return Err(WRONG_DATA);
      }
      if l.e > |key| {
        return Err(PANIC);
      }
      var eBytes := key[..l.e];
      var split := (l.e + l.p) % WORD;
      if split < l.e || split > |key| {
        return Err(PANIC);
      }
      var pBytes := key[l.e..split];
      var qBytes := key[split..];
      PieceSizes(l, |key|);
      var nBytes := Modulus(pBytes, qBytes);

      var privateData := U16(l.e);
      privateData := privateData + eBytes;
      privateData := privateData + U16(l.p);
      privateData := privateData + pBytes;
      privateData := privateData + U16(l.q);
      privateData := privateData + qBytes;
      assert privateData == Rsa.PrivateBlob(eBytes, pBytes, qBytes);

      var publicData := U16(|nBytes|);
      publicData := publicData + nBytes;
      publicData := publicData + U16(l.e);
      publicData := publicData + eBytes;
      assert publicData == Rsa.PublicBlob(nBytes, eBytes);
      r := Ok(slot.(privateKey := privateData, publicKey := publicData));
    }

    method HandleGenerateKey(cmd: Apdu, env: Env) returns (r: Response)
      modifies this
      ensures Reply(Value(), r) == GenerateKey(crypto, old(Value()), cmd, env)
    {
      hide CreateResponse, Answer, Generated, FingerprintOf, PublicKey;
      if cmd.p1 != 0x80 && cmd.p1 != 0x81 {
        return Error(WRONG_P1_P2);
      }
      var name := GenerateSlot(cmd.data);
      if name.None? {
        return Error(WRONG_DATA);
      }
      if cmd.p1 == 0x80 && !security.IsVerified(CONDITION_PW3) {
        return Error(SECURITY_STATUS_NOT_SATISFIED);
      }
      var slot := card.Slot(name.value);
      if cmd.p1 == 0x80 {
        var generated := MakeKey(slot.algorithm, env);
        if generated.Err? {
          return Error(StatusOf(generated.error));
        }
        var key := generated.value;
        slot := slot.(privateKey := key.privateKey);
        slot := slot.(publicKey := key.publicKey);
        slot := slot.(generationTime := env.now);
        slot := slot.(fingerprint := FingerprintOf(crypto, slot.algorithm, slot.publicKey, env.now));
        card := card.WithSlot(name.value, slot);
        r := MakeResponse(key.answer);
      } else if slot.publicKey == [] {
        r := Error(REFERENCED_DATA_NOT_FOUND);
      } else {
        r := Respond(PublicKey(slot));
      }
    }

    /** Encoding what the library generated, for storage and for the answer. */
    static method MakeKey(algorithm: Algorithm, env: Env) returns (r: Result<NewKey, KeyError>)
      ensures r == Generated(algorithm, env.rsaKey, env.eccKey)
    {
      hide Rsa.PrivateBlob, Rsa.PublicBlob, Rsa.GetModulus, Rsa.GetExponent, Tlv.Encode;
      if algorithm.id == RSA {
        if env.rsaKey.None? { return Err(OperationFailed); }
        var privateData := Rsa.EncodePrivateKey(env.rsaKey.value);
        var publicData := Rsa.EncodePublicKey(env.rsaKey.value.n, env.rsaKey.value.e);
        var n, e := OrEmpty(Rsa.GetModulus(publicData)), OrEmpty(Rsa.GetExponent(publicData));
        return Ok(NewKey(privateData, publicData, RsaPublicObject(n, e)));
      }
      if !GeneratesEcc(algorithm) { return Err(NotSupported); }
      if env.eccKey.None? { return Err(OperationFailed); }
      var publicObject := EccPublicObject(env.eccKey.value.publicKey);
      r := Ok(NewKey(env.eccKey.value.privateKey, publicObject, publicObject));
    }

    method HandlePso(cmd: Apdu) returns (r: Response)
      modifies this, security
      ensures Reply(Value(), r) == SecurityOperation(crypto, old(Value()), cmd)
    {
      if P1P2(cmd) == CDS {
        r := HandlePsoSign(cmd.data);
      } else if P1P2(cmd) == DECIPHER {
        r := HandlePsoDecipher(cmd.data);
      } else {
        r := Error(WRONG_P1_P2);
      }
    }

    method HandlePsoSign(data: Bytes) returns (r: Response)
      modifies this, security
      ensures Reply(Value(), r) == Sign(crypto, old(Value()), data)
    {
      if !security.IsVerified(CONDITION_81) {
        return Error(SECURITY_STATUS_NOT_SATISFIED);
      }
      if !card.sig.HasKey() {
        return Error(REFERENCED_DATA_NOT_FOUND);
      }
      hide Rsa.SignatureStored, Rsa.SignedStored, RsaFailure, EccSignature, CreateResponse, StatusOf;
      var signature: Outcome;
      if card.sig.algorithm.id == RSA {
        var signed := Rsa.SignStored(card.sig.privateKey, card.sig.publicKey, data, crypto.acceptsKey);
        signature := RsaOutcome(signed);
      } else {
        signature := EccSignature(crypto, card.sig, data);
      }
      if signature.Failed? {
        return Error(StatusOf(signature.error));
      }
      if card.signatureCounter < COUNTER_MAXIMUM {
        card := card.(signatureCounter := card.signatureCounter + 1);
      }
      security.AfterSign();
      r := MakeResponse(signature.data);
    }

    method HandlePsoDecipher(data: Bytes) returns (r: Response)
      modifies this
      ensures Reply(Value(), r) == Decipher(crypto, old(Value()), data)
    {
      if !security.IsVerified(CONDITION_82) {
        return Error(SECURITY_STATUS_NOT_SATISFIED);
      }
      if !card.dec.HasKey() {
        return Error(REFERENCED_DATA_NOT_FOUND);
      }
      if data == [] {
        return Error(WRONG_DATA);
      }
      hide DecipherEcdh, DecipherRsa;
      if data[0] == 0x00 {
        if card.dec.algorithm.id != RSA {
          return Error(WRONG_DATA);
        }
        r := Respond(DecipherRsa(crypto, card.dec, data[1..]));
      } else if data[0] == 0xA6 {
        if card.dec.algorithm.id != ECDH {
          return Error(WRONG_DATA);
        }
        r := Respond(DecipherEcdh(crypto, card.dec, data));
      } else {
        r := Error(WRONG_DATA);
      }
    }

    method HandleInternalAuthenticate(cmd: Apdu) returns (r: Response)
      modifies this
      ensures Reply(Value(), r) == Authenticate(crypto, old(Value()), cmd.data)
    {
      if !security.IsVerified(CONDITION_82) {
        return Error(SECURITY_STATUS_NOT_SATISFIED);
      }
      if !card.aut.HasKey() {
        return Error(REFERENCED_DATA_NOT_FOUND);
      }
      hide Rsa.RawSignatureStored;
      if card.aut.algorithm.id == RSA {
        var signed := Rsa.RawSignStored(card.aut.privateKey, card.aut.publicKey, cmd.data, crypto.acceptsKey);
        r := Respond(RsaOutcome(signed));
      } else {
        r := Respond(EccSignature(crypto, card.aut, cmd.data));
      }
    }

    // -------------------------------------------------------------- life cycle

    method HandleTerminate() returns (r: Response)
      modifies this
      ensures Reply(Value(), r) == Terminate(old(Value()))
    {
      var bothBlocked := pins.pw1.retries == 0 && pins.pw3.retries == 0;
      if !security.IsVerified(CONDITION_PW3) && !bothBlocked {
        return Error(SECURITY_STATUS_NOT_SATISFIED);
      }
      card := card.(terminated := true);
      r := Success([]);
    }

    method HandleActivate() returns (r: Response)
      modifies this, pins, security
      ensures Reply(Value(), r) == Activate(crypto, old(Value()))
    {
      card := FACTORY_CARD;
      pins.Set(FactoryPins(crypto.hash));
      Reset();
      r := Success([]);
    }

    /** On power-off and card reset. */
    method Reset()
      modifies this, security
      ensures Value() == ResetSession(old(Value()))
    {
      security.ClearAll();
      responseBuffer := [];
      responseOffset := 0;
      commandBuffer := [];
      chainingIns := None;
    }
  }
}

/** One command of the PIV applet, as a function of the applet's state. */
module Piv {
  import opened Wrappers
  import opened ByteStrings
  import opened Apdu
  import opened KeyObjects
  import Rsa
  import Tlv

  datatype KeyData = KeyData(algorithm: Byte, privateKey: Bytes, publicKey: Bytes, certificate: Bytes)

  datatype KeySlot = Authentication | CardManagement | DigitalSignature | KeyManagement | CardAuthentication

  /** The stored objects apart from PIN and PUK. */
  datatype Objects = Objects(
    chuid: Bytes, ccc: Bytes, discovery: Bytes, key9A: KeyData, key9C: KeyData, key9D: KeyData, key9E: KeyData,
    managementKey: Bytes)

  /** PIN and PUK with their counters. */
  datatype Secrets = Secrets(pin: Bytes, puk: Bytes, pinRetries: nat, pukRetries: nat)

  const NO_KEY := KeyData(0, [], [], [])

  const DEFAULT_MANAGEMENT_KEY: Bytes :=
    [1, 2, 3, 4, 5, 6, 7, 8] + [1, 2, 3, 4, 5, 6, 7, 8] + [1, 2, 3, 4, 5, 6, 7, 8]

  /** The objects, PIN and PUK of a new applet. */
  const NEW_OBJECTS := Objects([], [], [], NO_KEY, NO_KEY, NO_KEY, NO_KEY, DEFAULT_MANAGEMENT_KEY)
  const NEW_SECRETS :=
    Secrets([0x31, 0x32, 0x33, 0x34, 0x35, 0x36], [0x31, 0x32, 0x33, 0x34, 0x35, 0x36, 0x37, 0x38], 3, 3)

  datatype State = State(
    objects: Objects, secrets: Secrets, pinVerified: bool, managed: bool, responseBuffer: Bytes,
    responseOffset: nat, challenge: Option<Bytes>, chainBuffer: Bytes, chainIns: Option<Byte>,
    chainP1: Byte, chainP2: Byte)

  /** Library functions and card constants. */
  datatype Library = Library(
    encrypt: (Bytes, Bytes) -> Option<Bytes>,
    acceptsKey: Rsa.PrivateKey -> bool,
    rsaDecrypt: (Rsa.PrivateKey, Bytes) -> Option<Bytes>,
    eccSign: (Byte, Bytes, Bytes) -> Option<Bytes>,
    serial: Bytes)

  /** What one command draws from outside: a random witness, a generated RSA key or
      elliptic-curve key pair. */
  datatype Env = Env(random: Bytes, rsaKey: Option<Rsa.PrivateKey>, eccKey: Option<KeyPair>)

  datatype Reply = Reply(state: State, response: Response)

  const CONDITIONS_NOT_SATISFIED: nat := 0x6985
  const SECURITY_STATUS_NOT_SATISFIED: nat := 0x6982
  const AUTH_METHOD_BLOCKED: nat := 0x6983
  const WRONG_LENGTH: nat := 0x6700
  const WRONG_DATA: nat := 0x6A80
  const WRONG_P1_P2: nat := 0x6B00
  const FILE_NOT_FOUND: nat := 0x6A82
  const REFERENCED_DATA_NOT_FOUND: nat := 0x6A88
  const FUNCTION_NOT_SUPPORTED: nat := 0x6A81
  const EXEC_ERROR: nat := 0x6400
  const INS_NOT_SUPPORTED: nat := 0x6D00

  /** Marks that the program panics instead of answering; no answer has this status word. */
  const PANIC: nat := 0

  function Error(sw: nat): Response { Response([], sw / 256 % 256, sw % 256) }

  function Success(data: Bytes): Response { Response(data, 0x90, 0x00) }

  function CounterWarning(retries: nat): Response { Error(0x63C0 + retries % 16) }

  function Refused(s: State, sw: nat): Reply { Reply(s, Error(sw)) }

  const SELECT: Byte := 0xA4
  const VERIFY: Byte := 0x20
  const CHANGE_REFERENCE_DATA: Byte := 0x24
  const RESET_RETRY_COUNTER: Byte := 0x2C
  const GET_DATA: Byte := 0xCB
  const PUT_DATA: Byte := 0xDB
  const GENERATE_KEY: Byte := 0x47
  const GENERAL_AUTHENTICATE: Byte := 0x87
  const GET_RESPONSE: Byte := 0xC0
  const GET_VERSION: Byte := 0xFD
  const GET_SERIAL: Byte := 0xF8

  const PIN_REF: Byte := 0x80
  const PUK_REF: Byte := 0x81
  const MGMT_KEY: Byte := 0x9B

  const PIV_AID: Bytes := [0xA0, 0x00, 0x00, 0x03, 0x08]

  // ---------------------------------------------------------------- dispatch

  function ChainClosed(s: State): State { s.(chainIns := None, chainBuffer := []) }

  /** The state with a chain open for this command. */
  function ChainStarted(s: State, cmd: Apdu): State {
    if s.chainIns.Some? then s
    else s.(chainIns := Some(cmd.ins), chainP1 := cmd.p1, chainP2 := cmd.p2, chainBuffer := [])
  }

  function Process(l: Library, s: State, cmd: Apdu, env: Env): Reply {
    if Chained(cmd) || s.chainIns.Some? then
      var started := ChainStarted(s, cmd);
      if started.chainIns != Some(cmd.ins) then Refused(ChainClosed(started), CONDITIONS_NOT_SATISFIED)
      else
        var data := started.chainBuffer + cmd.data;
        if Chained(cmd) then Reply(started.(chainBuffer := data), Success([]))
        else if cmd.ins == PUT_DATA then
          PutData(ChainClosed(started), cmd.(p1 := started.chainP1, p2 := started.chainP2, data := data))
        else Refused(ChainClosed(started), INS_NOT_SUPPORTED)
    else Dispatch(l, s, cmd, env)
  }

  function Dispatch(l: Library, s: State, cmd: Apdu, env: Env): Reply {
    if cmd.ins == SELECT then Select(s, cmd)
    else if cmd.ins == VERIFY then Verify(s, cmd)
    else if cmd.ins == CHANGE_REFERENCE_DATA then Change(s, cmd)
    else if cmd.ins == RESET_RETRY_COUNTER then ResetRetry(s, cmd)
    else if cmd.ins == GET_DATA then Reply(s, GetData(s.objects, cmd))
    else if cmd.ins == PUT_DATA then PutData(s, cmd)
    else if cmd.ins == GENERATE_KEY then GenerateKey(s, cmd, env)
    else if cmd.ins == GENERAL_AUTHENTICATE then GeneralAuthenticate(l, s, cmd, env)
    else if cmd.ins == GET_RESPONSE then GetResponse(s, cmd.le)
    else if cmd.ins == GET_VERSION then Reply(s, Success([1, 0, 0]))
    else if cmd.ins == GET_SERIAL then Reply(s, Success(l.serial))
    else Refused(s, INS_NOT_SUPPORTED)
  }

  /** On power-off and card reset; an open chain stays open. */
  function ResetSession(s: State): State {
    s.(pinVerified := false, managed := false, responseBuffer := [], responseOffset := 0, challenge := None)
  }

  // ---------------------------------------------------------------- PIN and PUK

  const SELECT_ANSWER: Bytes :=
    [0x4F, 0x06, 0x00, 0x00, 0x10, 0x00, 0x01, 0x00, 0x79, 0x07, 0x4F, 0x05] + PIV_AID

  predicate Selects(cmd: Apdu) { cmd.p1 == 0x04 && PIV_AID <= cmd.data }

  function Select(s: State, cmd: Apdu): Reply {
    if cmd.p1 != 0x04 then Refused(s, WRONG_P1_P2)
    else if !(PIV_AID <= cmd.data) then Refused(s, FILE_NOT_FOUND)
    else Reply(s.(pinVerified := false, managed := false, challenge := None), Success(SELECT_ANSWER))
  }

  /** The bytes before the first FF. */
  function UntilFF(s: Bytes): Bytes { if s == [] || s[0] == 0xFF then [] else [s[0]] + UntilFF(s[1..]) }

  /** The answer to a wrong PIN or PUK, given the tries that are left. */
  function TriesLeft(retries: nat): Response {
    if retries == 0 then Error(AUTH_METHOD_BLOCKED) else CounterWarning(retries)
  }

  function PinFailed(s: State): Reply {
    var left := if s.secrets.pinRetries > 0 then s.secrets.pinRetries - 1 else 0;
    Reply(s.(secrets := s.secrets.(pinRetries := left)), TriesLeft(left))
  }

  function PukFailed(s: State): Reply {
    var left := if s.secrets.pukRetries > 0 then s.secrets.pukRetries - 1 else 0;
    Reply(s.(secrets := s.secrets.(pukRetries := left)), TriesLeft(left))
  }

  function Verify(s: State, cmd: Apdu): Reply {
    if cmd.p2 == PIN_REF then
      if cmd.data == [] then Reply(s, CounterWarning(s.secrets.pinRetries))
      else if s.secrets.pinRetries == 0 then Refused(s, AUTH_METHOD_BLOCKED)
      else if UntilFF(cmd.data) == s.secrets.pin then
        Reply(s.(pinVerified := true, secrets := s.secrets.(pinRetries := 3)), Success([]))
      else PinFailed(s)
    else if cmd.p2 == PUK_REF then
      if cmd.data == [] then Reply(s, CounterWarning(s.secrets.pukRetries))
      else if s.secrets.pukRetries == 0 then Refused(s, AUTH_METHOD_BLOCKED)
      else if cmd.data == s.secrets.puk then Reply(s.(secrets := s.secrets.(pukRetries := 3)), Success([]))
      else PukFailed(s)
    else Refused(s, WRONG_P1_P2)
  }

  function Change(s: State, cmd: Apdu): Reply {
    if |cmd.data| != 16 then Refused(s, WRONG_LENGTH)
    else
      var oldValue, newValue := UntilFF(cmd.data[..8]), UntilFF(cmd.data[8..]);
      if cmd.p2 == PIN_REF then
        if s.secrets.pinRetries == 0 then Refused(s, AUTH_METHOD_BLOCKED)
        else if oldValue == s.secrets.pin then
          Reply(s.(secrets := s.secrets.(pin := newValue, pinRetries := 3)), Success([]))
        else PinFailed(s)
      else if cmd.p2 == PUK_REF then
        if s.secrets.pukRetries == 0 then Refused(s, AUTH_METHOD_BLOCKED)
        else if oldValue == s.secrets.puk then
          Reply(s.(secrets := s.secrets.(puk := newValue, pukRetries := 3)), Success([]))
        else PukFailed(s)
      else Refused(s, WRONG_P1_P2)
  }

  function ResetRetry(s: State, cmd: Apdu): Reply {
    if cmd.p2 != PIN_REF then Refused(s, WRONG_P1_P2)
    else if |cmd.data| != 16 then Refused(s, WRONG_LENGTH)
    else if s.secrets.pukRetries == 0 then Refused(s, AUTH_METHOD_BLOCKED)
    else if cmd.data[..8] == s.secrets.puk then
      Reply(s.(secrets := s.secrets.(pin := UntilFF(cmd.data[8..]), pinRetries := 3, pukRetries := 3)), Success([]))
    else PukFailed(s)
  }

  // ---------------------------------------------------------------- data objects

  datatype ObjectName = Chuid | Ccc | Cert9A | Cert9C | Cert9D | Cert9E | Discovery

  function ObjectId(name: ObjectName): Bytes {
    match name
    case Chuid => [0x5F, 0xC1, 0x02]
    case Ccc => [0x5F, 0xC1, 0x07]
    case Cert9A => [0x5F, 0xC1, 0x05]
    case Cert9C => [0x5F, 0xC1, 0x0A]
    case Cert9D => [0x5F, 0xC1, 0x0B]
    case Cert9E => [0x5F, 0xC1, 0x01]
    case Discovery => [0x7E]
  }

  function NameOf(id: Bytes): Option<ObjectName> {
    if id == [0x5F, 0xC1, 0x02] then Some(Chuid)
    else if id == [0x5F, 0xC1, 0x07] then Some(Ccc)
    else if id == [0x5F, 0xC1, 0x05] then Some(Cert9A)
    else if id == [0x5F, 0xC1, 0x0A] then Some(Cert9C)
    else if id == [0x5F, 0xC1, 0x0B] then Some(Cert9D)
    else if id == [0x5F, 0xC1, 0x01] then Some(Cert9E)
    else if id == [0x7E] then Some(Discovery)
    else None
  }

  function Stored(o: Objects, name: ObjectName): Bytes {
    match name
    case Chuid => o.chuid
    case Ccc => o.ccc
    case Cert9A => o.key9A.certificate
    case Cert9C => o.key9C.certificate
    case Cert9D => o.key9D.certificate
    case Cert9E => o.key9E.certificate
    case Discovery => o.discovery
  }

  function WithObject(o: Objects, name: ObjectName, data: Bytes): Objects {
    match name
    case Chuid => o.(chuid := data)
    case Ccc => o.(ccc := data)
    case Cert9A => o.(key9A := o.key9A.(certificate := data))
    case Cert9C => o.(key9C := o.key9C.(certificate := data))
    case Cert9D => o.(key9D := o.key9D.(certificate := data))
    case Cert9E => o.(key9E := o.key9E.(certificate := data))
    case Discovery => o.(discovery := data)
  }

  /** The object identifier of a 5C tag list, if it is complete. */
  function RequestedId(data: Bytes): Option<Bytes> {
    if |data| < 2 || data[0] != 0x5C || |data| < 2 + data[1] as nat then None else Some(data[2..2 + data[1] as nat])
  }

  function GetData(o: Objects, cmd: Apdu): Response {
    if cmd.p1 != 0x3F || cmd.p2 != 0xFF then Error(WRONG_P1_P2)
    else if RequestedId(cmd.data).None? then Error(WRONG_DATA)
    else
      var name := NameOf(RequestedId(cmd.data).value);
      if name.None? || Stored(o, name.value) == [] then Error(FILE_NOT_FOUND)
      else Success(Tlv.Encode(0x53, Stored(o, name.value)))
  }

  /** The value of a 53 object; lengths of one, two (81) or three (82) bytes are understood. */
  function WrittenValue(rest: Bytes): Option<Bytes> {
    if |rest| < 2 || rest[0] != 0x53 then None
    else if rest[1] == 0x82 then
      if |rest| < 4 then None else Slice(rest, 4, ReadU16(rest[2], rest[3]))
    else if rest[1] == 0x81 then
      if |rest| < 3 then None else Slice(rest, 3, rest[2])
    else Slice(rest, 2, rest[1])
  }

  function Slice(s: Bytes, offset: nat, length: nat): Option<Bytes> {
    if |s| < offset + length then None else Some(s[offset..offset + length])
  }

  function PutData(s: State, cmd: Apdu): Reply {
    if !s.managed then Refused(s, SECURITY_STATUS_NOT_SATISFIED)
    else if cmd.p1 != 0x3F || cmd.p2 != 0xFF then Refused(s, WRONG_P1_P2)
    else if RequestedId(cmd.data).None? then Refused(s, WRONG_DATA)
    else
      var id := RequestedId(cmd.data).value;
      var value := WrittenValue(cmd.data[2 + |id|..]);
      if value.None? then Refused(s, WRONG_DATA)
      else if NameOf(id).None? then Refused(s, FILE_NOT_FOUND)
      else Reply(s.(objects := WithObject(s.objects, NameOf(id).value, value.value)), Success([]))
  }

  // ---------------------------------------------------------------- keys

  function SlotOf(b: Byte): Option<KeySlot> {
    match b
    case 0x9A => Some(Authentication)
    case 0x9B => Some(CardManagement)
    case 0x9C => Some(DigitalSignature)
    case 0x9D => Some(KeyManagement)
    case 0x9E => Some(CardAuthentication)
    case _ => None
  }

  function KeyIn(o: Objects, slot: KeySlot): Option<KeyData> {
    match slot
    case Authentication => Some(o.key9A)
    case DigitalSignature => Some(o.key9C)
    case KeyManagement => Some(o.key9D)
    case CardAuthentication => Some(o.key9E)
    case CardManagement => None
  }

  function WithKey(o: Objects, slot: KeySlot, key: KeyData): Objects {
    match slot
    case Authentication => o.(key9A := key)
    case DigitalSignature => o.(key9C := key)
    case KeyManagement => o.(key9D := key)
    case CardAuthentication => o.(key9E := key)
    case CardManagement => o
  }

  /** The algorithm of the first complete 80 object from index i on. */
  function AlgorithmAt(data: Bytes, i: nat): Option<Byte>
    decreases if i <= |data| then |data| - i else 0
  {
    if i + 2 > |data| then None
    else if data[i] == 0x80 && data[i + 1] == 1 && i + 2 < |data| then Some(data[i + 2])
    else AlgorithmAt(data, i + 2 + data[i + 1])
  }

  const TDES: Byte := 0x03
  const RSA2048: Byte := 0x07
  const ECCP256: Byte := 0x11
  const ECCP384: Byte := 0x14

  /** The generated private key, and the object 7F49 that is both stored and answered. */
  function Generated(algorithm: Byte, env: Env): Option<(Bytes, Bytes)> {
    if algorithm == RSA2048 then
      match env.rsaKey
      case None => None
      case Some(key) => Some((NewRsaKey(key).privateKey, NewRsaKey(key).answer))
    else
      match env.eccKey
      case None => None
      case Some(pair) => Some((pair.privateKey, EccPublicObject(pair.publicKey)))
  }

  function GenerateKey(s: State, cmd: Apdu, env: Env): Reply {
    if !s.managed then Refused(s, SECURITY_STATUS_NOT_SATISFIED)
    else if SlotOf(cmd.p2).None? then Refused(s, WRONG_P1_P2)
    else if |cmd.data| < 5 || cmd.data[0] != 0xAC then Refused(s, WRONG_DATA)
    else
      var algorithm := AlgorithmAt(cmd.data, 2);
      if algorithm.None? || algorithm.value !in {TDES, RSA2048, ECCP256, ECCP384} then Refused(s, WRONG_DATA)
      else if algorithm.value == TDES then Refused(s, FUNCTION_NOT_SUPPORTED)
      else if Generated(algorithm.value, env).None? then Refused(s, EXEC_ERROR)
      else
        var (private, public) := Generated(algorithm.value, env).value;
        var slot := SlotOf(cmd.p2).value;
        var objects := match KeyIn(s.objects, slot)
                       case Some(key) =>
                         WithKey(s.objects, slot, key.(algorithm := algorithm.value, privateKey := private,
                                                       publicKey := public))
                       case None => s.objects;
        Reply(s.(objects := objects), Success(public))
  }

  // ---------------------------------------------------------------- GENERAL AUTHENTICATE

  /** The tags of a dynamic authentication template; a later tag replaces an earlier one and
      an incomplete value reads as empty. */
  function TagsAt(contents: Bytes, i: nat, tags: map<Byte, Bytes>): map<Byte, Bytes>
    decreases if i <= |contents| then |contents| - i else 0
  {
    if i + 1 >= |contents| then tags
    else
      var length: nat := contents[i + 1];
      var value := if i + 2 + length <= |contents| then contents[i + 2..i + 2 + length] else [];
      TagsAt(contents, i + 2 + length, tags[contents[i] := value])
  }

  function TemplateTags(data: Bytes): map<Byte, Bytes> {
    TagsAt(if |data| > 2 then data[2..] else [], 0, map[])
  }

  function GeneralAuthenticate(l: Library, s: State, cmd: Apdu, env: Env): Reply {
    if cmd.data == [] || cmd.data[0] != 0x7C then Refused(s, WRONG_DATA)
    else
      var tags := TemplateTags(cmd.data);
      if cmd.p2 == MGMT_KEY then AuthenticateManagement(l, s, tags, env)
      else Reply(s, UseKey(l, s, SlotOf(cmd.p2), tags))
  }

  /** What a host asks of the management key: a witness, or an answer to one with a challenge. */
  datatype Exchange = Request | Attempt(hostWitness: Bytes, hostChallenge: Bytes) | Neither

  function ExchangeOf(tags: map<Byte, Bytes>): Exchange {
    if 0x80 in tags && tags[0x80] == [] && 0x81 !in tags then Request
    else if 0x80 in tags && 0x81 in tags then Attempt(tags[0x80], tags[0x81])
    else Neither
  }

  function AuthenticateManagement(l: Library, s: State, tags: map<Byte, Bytes>, env: Env): Reply {
    match ExchangeOf(tags)
    case Request =>
      var s' := s.(challenge := Some(env.random));
      (match l.encrypt(s.objects.managementKey, env.random)
       case Some(encrypted) => Reply(s', Success([0x7C, 0x0A, 0x80, 0x08] + encrypted))
       case None => Refused(s', EXEC_ERROR))
    case Attempt(hostWitness, hostChallenge) =>
      if s.challenge.None? then Refused(s, CONDITIONS_NOT_SATISFIED)
      else if Some(hostWitness) != s.challenge then Refused(s.(challenge := None), SECURITY_STATUS_NOT_SATISFIED)
      else
        (match l.encrypt(s.objects.managementKey, hostChallenge)
         case Some(answer) =>
           Reply(s.(managed := true, challenge := None), Success([0x7C, 0x0A, 0x82, 0x08] + answer))
         case None => Refused(s.(challenge := None), EXEC_ERROR))
    case Neither => Refused(s, WRONG_DATA)
  }

  function ResultOf(r: Option<Bytes>): Result<Bytes, nat> {
    match r case Some(data) => Ok(data) case None => Err(EXEC_ERROR)
  }

  /** A zero prime makes the program panic. */
  function RsaFailure(e: Rsa.RsaError): nat { if e == Rsa.Underflow then PANIC else EXEC_ERROR }

  /** Signing by the stored algorithm; RSA reads the modulus from the stored public key. */
  function SignData(l: Library, key: KeyData, data: Bytes): Result<Bytes, nat> {
    if key.algorithm == RSA2048 then
      match Rsa.RawSignatureStored(key.privateKey, key.publicKey, data, l.acceptsKey)
      case Ok(signature) => Ok(signature)
      case Err(e) => Err(RsaFailure(e))
    else if key.algorithm in {ECCP256, ECCP384} then ResultOf(l.eccSign(key.algorithm, key.privateKey, data))
    else Err(FUNCTION_NOT_SUPPORTED)
  }

  /** Deciphering; key agreement on the curves is not supported. */
  function DecryptData(l: Library, key: KeyData, cipher: Bytes): Result<Bytes, nat> {
    if key.algorithm == RSA2048 then
      match Rsa.StoredKey(key.privateKey, key.publicKey, l.acceptsKey)
      case Err(e) => Err(RsaFailure(e))
      case Ok(k) => ResultOf(l.rsaDecrypt(k, cipher))
    else Err(FUNCTION_NOT_SUPPORTED)
  }

  /** Signing and deciphering with a slot's key. */
  function UseKey(l: Library, s: State, slot: Option<KeySlot>, tags: map<Byte, Bytes>): Response {
    if slot.None? then Error(WRONG_P1_P2)
    else if slot.value != CardAuthentication && !s.pinVerified then Error(SECURITY_STATUS_NOT_SATISFIED)
    else
      var key := KeyIn(s.objects, slot.value);
      if key.None? || key.value.privateKey == [] then Error(REFERENCED_DATA_NOT_FOUND)
      else if 0x82 in tags && tags[0x82] == [] then
        if 0x81 in tags then Result7C(SignData(l, key.value, tags[0x81])) else Error(WRONG_DATA)
      else if 0x85 in tags then Result7C(DecryptData(l, key.value, tags[0x85]))
      else Error(WRONG_DATA)
  }

  /** The result in a 7C template; the length bytes wrap at 256. */
  function Result7C(r: Result<Bytes, nat>): Response {
    match r
    case Err(sw) => Error(sw)
    case Ok(data) =>
      var n := |data|;
      Success((if n <= 127 then [0x7C, n + 2, 0x82, n] else [0x7C, 0x81, (n + 3) % 256, 0x82, 0x81, n % 256]) + data)
  }

  function GetResponse(s: State, le: Option<nat>): Reply {
    if s.responseBuffer == [] || s.responseOffset > |s.responseBuffer| then Refused(s, CONDITIONS_NOT_SATISFIED)
    else
      var wanted := if le.Some? then le.value else 256;
      var remaining := |s.responseBuffer| - s.responseOffset;
      var end := s.responseOffset + if wanted < remaining then wanted else remaining;
      var chunk := s.responseBuffer[s.responseOffset..end];
      var left := |s.responseBuffer| - end;
      if left == 0 then Reply(s.(responseBuffer := [], responseOffset := 0), Success(chunk))
      else Reply(s.(responseOffset := end), Response(chunk, 0x61, if left < 255 then left else 255))
  }
}

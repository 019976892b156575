/** One command of the OpenPGP applet, as a function of the applet's state. */
module OpenPgp {
  import opened Wrappers
  import opened ByteStrings
  import opened Apdu
  import opened OpenPgpCard
  import opened PinManager
  import opened KeyObjects
  import opened OpenPgpKeys
  import Tlv
  import Rsa

  /** What one command draws from outside: a generated RSA key or elliptic-curve key pair, the
      clock, random bytes. */
  datatype Env = Env(rsaKey: Option<Rsa.PrivateKey>, eccKey: Option<KeyPair>, now: nat, random: nat -> Bytes)

  datatype State = State(
    card: Card, pins: Pins, security: Security, responseBuffer: Bytes, responseOffset: nat,
    commandBuffer: Bytes, chainingIns: Option<Byte>, currentLe: Option<nat>)

  datatype Reply = Reply(state: State, response: Response)

  // ---------------------------------------------------------------- status words

  const CONDITIONS_NOT_SATISFIED: nat := 0x6985
  const SECURITY_STATUS_NOT_SATISFIED: nat := 0x6982
  const AUTH_METHOD_BLOCKED: nat := 0x6983
  const WRONG_LENGTH: nat := 0x6700
  const WRONG_DATA: nat := 0x6A80
  const WRONG_P1_P2: nat := 0x6B00
  const FILE_NOT_FOUND: nat := 0x6A82
  const REFERENCED_DATA_NOT_FOUND: nat := 0x6A88
  const EXEC_ERROR: nat := 0x6400
  const INS_NOT_SUPPORTED: nat := 0x6D00
  const FUNCTION_NOT_SUPPORTED: nat := 0x6A81

  /** Marks that the program panics instead of answering; no answer has this status word. */
  const PANIC: nat := 0

  function StatusOf(e: KeyError): nat {
    match e
    case OperationFailed => EXEC_ERROR
    case NotSupported => FUNCTION_NOT_SUPPORTED
    case WrongInput => WRONG_DATA
    case Panicked => PANIC
  }

  function Error(sw: nat): Response { Response([], sw / 256 % 256, sw % 256) }

  function Success(data: Bytes): Response { Response(data, 0x90, 0x00) }

  function MoreData(data: Bytes, remaining: nat): Response {
    Response(data, 0x61, if remaining > 255 then 0 else remaining)
  }

  function CounterWarning(retries: nat): Response { Error(0x63C0 + retries % 16) }

  function Refused(s: State, sw: nat): Reply { Reply(s, Error(sw)) }

  /** The answer to a failed PIN check. */
  function TriesLeft(retries: nat): Response {
    if retries == 0 then Error(AUTH_METHOD_BLOCKED) else CounterWarning(retries)
  }

  // ---------------------------------------------------------------- instructions

  const SELECT: Byte := 0xA4
  const GET_DATA: Byte := 0xCA
  const VERIFY: Byte := 0x20
  const CHANGE_REFERENCE_DATA: Byte := 0x24
  const RESET_RETRY_COUNTER: Byte := 0x2C
  const PUT_DATA: Byte := 0xDA
  const PUT_DATA_ODD: Byte := 0xDB
  const GENERATE_KEY: Byte := 0x47
  const PSO: Byte := 0x2A
  const INTERNAL_AUTHENTICATE: Byte := 0x88
  const GET_CHALLENGE: Byte := 0x84
  const GET_RESPONSE: Byte := 0xC0
  const TERMINATE_DF: Byte := 0xE6
  const ACTIVATE_FILE: Byte := 0x44

  const AID_PREFIX: Bytes := [0xD2, 0x76, 0x00, 0x01, 0x24, 0x01]

  function P1P2(cmd: Apdu): nat { ReadU16(cmd.p1, cmd.p2) }

  // ---------------------------------------------------------------- dispatch

  function Process(c: Crypto, s: State, cmd: Apdu, env: Env): Reply {
    var s' := s.(currentLe := cmd.le);
    if cmd.ins == GET_RESPONSE then GetResponse(s', cmd.le)
    else if Chained(cmd) then Chain(s', cmd)
    else Complete(c, s', cmd, env)
  }

  function ChainClosed(s: State): State { s.(commandBuffer := [], chainingIns := None) }

  function Chain(s: State, cmd: Apdu): Reply {
    if s.chainingIns.None? then
      Reply(s.(commandBuffer := cmd.data, chainingIns := Some(cmd.ins)), Success([]))
    else if s.chainingIns != Some(cmd.ins) then Refused(ChainClosed(s), CONDITIONS_NOT_SATISFIED)
    else Reply(s.(commandBuffer := s.commandBuffer + cmd.data), Success([]))
  }

  function ClearChainBit(cla: Byte): Byte { if Bit10(cla) then cla - 16 else cla }

  /** The last or only command: buffered data is put in front of its own. */
  function Complete(c: Crypto, s: State, cmd: Apdu, env: Env): Reply {
    if s.commandBuffer != [] then
      if s.chainingIns != Some(cmd.ins) then Refused(ChainClosed(s), CONDITIONS_NOT_SATISFIED)
      else
        Dispatch(c, ChainClosed(s), cmd.(cla := ClearChainBit(cmd.cla), data := s.commandBuffer + cmd.data), env)
    else Dispatch(c, s, cmd, env)
  }

  function Dispatch(c: Crypto, s: State, cmd: Apdu, env: Env): Reply {
    if s.card.terminated && cmd.ins != ACTIVATE_FILE then Refused(s, CONDITIONS_NOT_SATISFIED)
    else if cmd.ins == SELECT then Reply(s, Select(cmd))
    else if cmd.ins == GET_DATA then Reply(s, GetData(c, s, P1P2(cmd)))
    else if cmd.ins == VERIFY then VerifyPw(c, s, cmd)
    else if cmd.ins == CHANGE_REFERENCE_DATA then ChangePw(c, s, cmd)
    else if cmd.ins == RESET_RETRY_COUNTER then ResetPw(c, s, cmd)
    else if cmd.ins == PUT_DATA then PutData(c, s, P1P2(cmd), cmd.data)
    else if cmd.ins == PUT_DATA_ODD then PutDataOdd(c, s, cmd)
    else if cmd.ins == GENERATE_KEY then GenerateKey(c, s, cmd, env)
    else if cmd.ins == PSO then SecurityOperation(c, s, cmd)
    else if cmd.ins == INTERNAL_AUTHENTICATE then Authenticate(c, s, cmd.data)
    else if cmd.ins == GET_CHALLENGE then Reply(s, Challenge(cmd, env))
    else if cmd.ins == TERMINATE_DF then Terminate(s)
    else if cmd.ins == ACTIVATE_FILE then Activate(c, s)
    else Refused(s, INS_NOT_SUPPORTED)
  }

  /** Power-off and card reset end the session. */
  function ResetSession(s: State): State {
    s.(security := Cleared(s.security), responseBuffer := [], responseOffset := 0, commandBuffer := [],
       chainingIns := None)
  }

  // ---------------------------------------------------------------- responses

  function GetResponse(s: State, le: Option<nat>): Reply {
    if s.responseBuffer == [] || s.responseOffset > |s.responseBuffer| then Refused(s, CONDITIONS_NOT_SATISFIED)
    else
      var wanted := if le.Some? then le.value else 256;
      var remaining := |s.responseBuffer| - s.responseOffset;
      var end := s.responseOffset + if wanted < remaining then wanted else remaining;
      var chunk := s.responseBuffer[s.responseOffset..end];
      if end == |s.responseBuffer| then Reply(s.(responseBuffer := [], responseOffset := 0), Success(chunk))
      else Reply(s.(responseOffset := end), MoreData(chunk, |s.responseBuffer| - end))
  }

  function CreateResponse(s: State, data: Bytes): Reply {
    var maximum := if s.currentLe.Some? then s.currentLe.value else 256;
    if |data| <= maximum then Reply(s, Success(data))
    else
      Reply(s.(responseBuffer := data, responseOffset := maximum), MoreData(data[..maximum], |data| - maximum))
  }

  /** The answer of a library operation. */
  function Answer(s: State, outcome: Outcome): Reply {
    match outcome case Failed(e) => Refused(s, StatusOf(e)) case Done(data) => CreateResponse(s, data)
  }

  // ---------------------------------------------------------------- handlers

  function Select(cmd: Apdu): Response {
    if cmd.p1 != 0x04 then Error(WRONG_P1_P2)
    else if AID_PREFIX <= cmd.data then Success([])
    else Error(FILE_NOT_FOUND)
  }

  // ---------------------------------------------------------------- access

  datatype Access = Always | NeedsPw1 | NeedsPw3 | Never

  function GetAccess(tag: nat): Access {
    if tag in {0x004F, 0x5F52, 0x0065, 0x006E, 0x007A, 0x00C0, 0x00C1, 0x00C2, 0x00C3, 0x00C4, 0x00C5, 0x00C6, 0x00C7,
               0x00C8, 0x00C9, 0x00CA, 0x00CB, 0x00CC, 0x00CD, 0x00CE, 0x00CF, 0x00D0, 0x0093, 0x005B, 0x5F2D, 0x5F35,
               0x7F74, 0x00D6, 0x00D7, 0x00D8, 0x00FA} then Always
    else if tag in {0x005E, 0x5F50} then Always
    else if 0x0101 <= tag <= 0x0104 || tag == 0x7F21 then Always
    else Never
  }

  function PutAccess(tag: nat): Access {
    if tag in {0x0101, 0x0102} then NeedsPw1
    else if tag in {0x005B, 0x5F2D, 0x5F35, 0x005E, 0x5F50, 0x00C1, 0x00C2, 0x00C3, 0x00C4, 0x00C7, 0x00C8, 0x00C9,
                    0x00CA, 0x00CB, 0x00CC, 0x00CE, 0x00CF, 0x00D0, 0x0103, 0x0104, 0x00D3, 0x00D6, 0x00D7, 0x00D8,
                    0x7F21} then NeedsPw3
    else Never
  }

  predicate AccessGranted(security: Security, access: Access) {
    match access
    case Always => true
    case NeedsPw1 => security.pw1Sign || security.pw1Other
    case NeedsPw3 => security.pw3
    case Never => false
  }

  // ---------------------------------------------------------------- data objects

  /** The value of a data object, or none if GET DATA does not know the tag. */
  function DataObject(c: Crypto, card: Card, pins: Pins, tag: nat): Option<Bytes> {
    match tag
    case 0x004F => Some(Aid(card))
    case 0x5F52 => Some(HistoricalBytes(card))
    case 0x0065 => Some(CardholderData(card))
    case 0x006E => Some(ApplicationData(card, pins))
    case 0x007A => Some(SecurityTemplate(card))
    case 0x00C0 => Some(EXTENDED_CAPABILITIES)
    case 0x00C1 => Some(card.sig.algorithm.ToBytes())
    case 0x00C2 => Some(card.dec.algorithm.ToBytes())
    case 0x00C3 => Some(card.aut.algorithm.ToBytes())
    case 0x00C4 => Some(StatusBytes(pins))
    case 0x00C5 => Some(Fingerprints(card))
    case 0x00C6 => Some(CaFingerprints(card))
    case 0x00C7 => Some(Padded20(card.sig.fingerprint))
    case 0x00C8 => Some(Padded20(card.dec.fingerprint))
    case 0x00C9 => Some(Padded20(card.aut.fingerprint))
    case 0x00CA => Some(Padded20(card.sig.caFingerprint))
    case 0x00CB => Some(Padded20(card.dec.caFingerprint))
    case 0x00CC => Some(Padded20(card.aut.caFingerprint))
    case 0x00CD => Some(KeyTimestamps(card))
    case 0x00CE => Some(Timestamp(card.sig.generationTime))
    case 0x00CF => Some(Timestamp(card.dec.generationTime))
    case 0x00D0 => Some(Timestamp(card.aut.generationTime))
    case 0x0093 => Some(CounterBytes(card))
    case 0x005B => Some(card.cardholder.name)
    case 0x5F2D => Some(card.cardholder.language)
    case 0x5F35 => Some([card.cardholder.sex])
    case 0x005E => Some(card.cardholder.login)
    case 0x5F50 => Some(card.cardholder.url)
    case 0x0101 => Some(card.do1)
    case 0x0102 => Some(card.do2)
    case 0x0103 => Some(card.do3)
    case 0x0104 => Some(card.do4)
    case 0x7F21 => Some(card.certificate)
    case 0x7F74 => Some(FEATURE_MANAGEMENT)
    case 0x00D6 => Some([card.sig.uif, 0x20])
    case 0x00D7 => Some([card.dec.uif, 0x20])
    case 0x00D8 => Some([card.aut.uif, 0x20])
    case 0x00FA => Some(c.algorithmInformation)
    case _ => None
  }

  function GetData(c: Crypto, s: State, tag: nat): Response {
    if !AccessGranted(s.security, GetAccess(tag)) then Error(SECURITY_STATUS_NOT_SATISFIED)
    else
      match DataObject(c, s.card, s.pins, tag)
      case Some(data) => Success(data)
      case None => Error(REFERENCED_DATA_NOT_FOUND)
  }

  function VerifyTarget(p2: Byte): Option<(PinType, Condition)> {
    if p2 == 0x81 then Some((PW1_81, CONDITION_81))
    else if p2 == 0x82 then Some((PW1_82, CONDITION_82))
    else if p2 == 0x83 then Some((PW3, CONDITION_PW3))
    else None
  }

  /** VERIFY drops every 00 and FF byte, wherever it stands. */
  function Stripped(data: Bytes): Bytes {
    if data == [] then []
    else (if data[0] != 0x00 && data[0] != 0xFF then [data[0]] else []) + Stripped(data[1..])
  }

  function VerifyPw(c: Crypto, s: State, cmd: Apdu): Reply {
    match VerifyTarget(cmd.p2)
    case None => Refused(s, WRONG_P1_P2)
    case Some((t, condition)) =>
      if cmd.data == [] then
        var retries := PinOf(s.pins, t).retries;
        Reply(s, if retries == 0 then Error(AUTH_METHOD_BLOCKED)
                 else if Holds(s.security, condition) then Success([])
                 else CounterWarning(retries))
      else
        var v := Verify(c.hash, s.pins, t, Stripped(cmd.data));
        if v.ok then
          var granted := Granted(s.security, condition);
          var security := if t == PW3 then granted else granted.(validMultiple := v.pins.validMultiple);
          Reply(s.(pins := v.pins, security := security), Success([]))
        else Reply(s.(pins := v.pins), TriesLeft(PinOf(v.pins, t).retries))
  }

  function ChangePw(c: Crypto, s: State, cmd: Apdu): Reply {
    if cmd.p2 != 0x81 && cmd.p2 != 0x83 then Refused(s, WRONG_P1_P2)
    else
      var t := if cmd.p2 == 0x81 then PW1_81 else PW3;
      var oldLen := PinOf(s.pins, t).length;
      if |cmd.data| <= oldLen then Refused(s, WRONG_LENGTH)
      else
        var v := Change(c.hash, s.pins, t, cmd.data[..oldLen], cmd.data[oldLen..]);
        Reply(s.(pins := v.pins), if v.ok then Success([]) else TriesLeft(PinOf(v.pins, t).retries))
  }

  function ResetPw(c: Crypto, s: State, cmd: Apdu): Reply {
    if cmd.p2 != 0x81 then Refused(s, WRONG_P1_P2)
    else if cmd.p1 == 0x00 then
      var rcLen := s.pins.rc.length;
      if |cmd.data| <= rcLen then Refused(s, WRONG_LENGTH)
      else
        var v := ResetWithCode(c.hash, s.pins, cmd.data[..rcLen], cmd.data[rcLen..]);
        Reply(s.(pins := v.pins), if v.ok then Success([]) else Error(SECURITY_STATUS_NOT_SATISFIED))
    else if cmd.p1 == 0x02 then
      if !s.security.pw3 then Refused(s, SECURITY_STATUS_NOT_SATISFIED)
      else
        var v := NewPw1(c.hash, s.pins, cmd.data);
        Reply(s.(pins := v.pins), if v.ok then Success([]) else Error(WRONG_DATA))
    else Refused(s, WRONG_P1_P2)
  }

  function PutData(c: Crypto, s: State, tag: nat, data: Bytes): Reply {
    if !AccessGranted(s.security, PutAccess(tag)) then Refused(s, SECURITY_STATUS_NOT_SATISFIED)
    else if tag == 0x00C4 then
      Reply(if data == [] then s else s.(pins := s.pins.(validMultiple := data[0] != 0)), Success([]))
    else if tag == 0x00D3 then
      match StoreResetCode(c.hash, s.pins.rc, data)
      case Ok(rc) => Reply(s.(pins := s.pins.(rc := rc)), Success([]))
      case Err(sw) => Refused(s, sw)
    else
      match StoreObject(c, s.card, tag, data)
      case Ok(card) => Reply(s.(card := card), Success([]))
      case Err(sw) => Refused(s, sw)
  }

  function StoreResetCode(hash: Bytes -> Bytes, rc: Pin, data: Bytes): Result<Pin, nat> {
    if data == [] then Ok(rc.(hash := [], length := 0))
    else if |data| % 256 < rc.minLength then Err(WRONG_LENGTH)
    else Ok(rc.(hash := hash(data), length := |data| % 256, retries := rc.maxRetries))
  }

  function ReadTimestamp(d: Bytes): nat
    requires |d| == 4
  {
    d[0] * 16777216 + ReadU24(d[1], d[2], d[3])
  }

  /** Storing a data object in the card; a 20- or 4-byte object of another size is refused. */
  function StoreObject(c: Crypto, card: Card, tag: nat, data: Bytes): Result<Card, nat> {
    if tag == 0x005B then Ok(card.(cardholder := card.cardholder.(name := c.utf8Lossy(data))))
    else if tag == 0x5F2D then Ok(card.(cardholder := card.cardholder.(language := c.utf8Lossy(data))))
    else if tag == 0x5F35 then Ok(if data == [] then card else card.(cardholder := card.cardholder.(sex := data[0])))
    else if tag == 0x005E then Ok(card.(cardholder := card.cardholder.(login := c.utf8Lossy(data))))
    else if tag == 0x5F50 then Ok(card.(cardholder := card.cardholder.(url := c.utf8Lossy(data))))
    else if tag == 0x0101 then Ok(card.(do1 := data))
    else if tag == 0x0102 then Ok(card.(do2 := data))
    else if tag == 0x0103 then Ok(card.(do3 := data))
    else if tag == 0x0104 then Ok(card.(do4 := data))
    else if tag == 0x7F21 then Ok(card.(certificate := data))
    else
      match SlotTag(tag)
      case None => Err(REFERENCED_DATA_NOT_FOUND)
      case Some((name, part)) =>
        match StoreInSlot(card.Slot(name), part, data)
        case Ok(slot) => Ok(card.WithSlot(name, slot))
        case Err(sw) => Err(sw)
  }

  datatype SlotPart = AlgorithmPart | FingerprintPart | CaFingerprintPart | TimePart | UifPart

  /** The key slot and the part of it that a tag stands for. */
  function SlotTag(tag: nat): Option<(SlotName, SlotPart)> {
    match tag
    case 0x00C1 => Some((Sig, AlgorithmPart))
    case 0x00C2 => Some((Dec, AlgorithmPart))
    case 0x00C3 => Some((Aut, AlgorithmPart))
    case 0x00C7 => Some((Sig, FingerprintPart))
    case 0x00C8 => Some((Dec, FingerprintPart))
    case 0x00C9 => Some((Aut, FingerprintPart))
    case 0x00CA => Some((Sig, CaFingerprintPart))
    case 0x00CB => Some((Dec, CaFingerprintPart))
    case 0x00CC => Some((Aut, CaFingerprintPart))
    case 0x00CE => Some((Sig, TimePart))
    case 0x00CF => Some((Dec, TimePart))
    case 0x00D0 => Some((Aut, TimePart))
    case 0x00D6 => Some((Sig, UifPart))
    case 0x00D7 => Some((Dec, UifPart))
    case 0x00D8 => Some((Aut, UifPart))
    case _ => None
  }

  function StoreInSlot(slot: KeySlot, part: SlotPart, data: Bytes): Result<KeySlot, nat> {
    match part
    case AlgorithmPart =>
      (match AlgorithmFromBytes(data) case Some(a) => Ok(slot.(algorithm := a)) case None => Err(WRONG_DATA))
    case FingerprintPart => if |data| == 20 then Ok(slot.(fingerprint := data)) else Err(WRONG_LENGTH)
    case CaFingerprintPart => if |data| == 20 then Ok(slot.(caFingerprint := data)) else Err(WRONG_LENGTH)
    case TimePart => if |data| == 4 then Ok(slot.(generationTime := ReadTimestamp(data))) else Err(WRONG_LENGTH)
    case UifPart => Ok(if data == [] then slot else slot.(uif := data[0]))
  }

  // ---------------------------------------------------------------- key import

  function PutDataOdd(c: Crypto, s: State, cmd: Apdu): Reply {
    if cmd.p1 != 0x3F || cmd.p2 != 0xFF then Refused(s, WRONG_P1_P2)
    else if !s.security.pw3 then Refused(s, SECURITY_STATUS_NOT_SATISFIED)
    else
      var i := ImportKey(c, s.card, cmd.data);
      Reply(s.(card := i.card), i.response)
  }

  datatype Imported = Imported(card: Card, response: Response)

  /** The key slot of the first control reference template among data objects. */
  function CrtSlot(ts: seq<Tlv.Tlv>): Option<SlotName> {
    if ts == [] then None
    else if ts[0].tag == 0xB6 then Some(Sig)
    else if ts[0].tag == 0xB8 then Some(Dec)
    else if ts[0].tag == 0xA4 then Some(Aut)
    else CrtSlot(ts[1..])
  }

  /** Importing an Extended Header List into the slot its template names. */
  function ImportKey(c: Crypto, card: Card, data: Bytes): Imported {
    var ts := Tlv.Forest(data, true);
    if ts == [] || ts[0].tag != 0x4D then Imported(card, Error(WRONG_DATA))
    else
      var children := Tlv.Forest(ts[0].value, true);
      var name := CrtSlot(children);
      var key := Tlv.FirstWith(children, 0x5F48);
      if name.None? || key.None? then Imported(card, Error(WRONG_DATA))
      else
        var slot := card.Slot(name.value);
        if slot.algorithm.id == RSA then
          var template := Tlv.FirstWith(children, 0x7F48);
          if template.None? then Imported(card, Error(WRONG_DATA))
          else
            match ImportRsa(slot, template.value.value, key.value.value)
            case Ok(slot') => Imported(card.WithSlot(name.value, slot'), Success([]))
            case Err(sw) => Imported(card, Error(sw))
        else
          var (slot', response) := ImportEcc(c, slot, key.value.value);
          Imported(card.WithSlot(name.value, slot'), response)
  }

  datatype Lengths = Lengths(e: nat, p: nat, q: nat)

  const WORD: nat := 0x1_0000_0000_0000_0000

  /** A BER length as the import reads it: any number of bytes, kept to 64 bits; a truncated
      one counts as zero and takes one byte. */
  function BerLength(data: Bytes): (r: Tlv.Field)
    requires data != []
    ensures r.size >= 1
  {
    if data[0] < 128 then Tlv.Field(data[0], 1)
    else
      var k := data[0] - 128;
      if |data| < 1 + k then Tlv.Field(0, 1) else Tlv.Field(ToNat(data[1..1 + k]) % WORD, 1 + k)
  }

  /** The component lengths named by tags 91, 92 and 93. */
  function CrtLengths(data: Bytes, found: Lengths): Lengths
    decreases |data|
  {
    if |data| < 2 then found
    else
      var l := BerLength(data[1..]);
      var found' := if data[0] == 0x91 then found.(e := l.num)
                    else if data[0] == 0x92 then found.(p := l.num)
                    else if data[0] == 0x93 then found.(q := l.num)
                    else found;
      if 1 + l.size <= |data| then CrtLengths(data[1 + l.size..], found') else found'
  }

  /** n = p * q as minimal big-endian bytes. */
  function Modulus(p: Bytes, q: Bytes): Bytes { ByteStrings.ToBytes(Product(ToNat(p), ToNat(q))) }

  function Product(x: nat, y: nat): nat { x * y }

  /** The declared lengths are 64-bit, and so is their sum: it is compared with the size of the
      key data modulo 2^64. A length that reaches past the data is a panic of the slice. */
  function SplitRsa(slot: KeySlot, l: Lengths, key: Bytes): Result<KeySlot, nat> {
    var split := (l.e + l.p) % WORD;
    if l.e == 0 || l.p == 0 || l.q == 0 || |key| != (l.e + l.p + l.q) % WORD then Err(WRONG_DATA)
    else if l.e > |key| || split < l.e || split > |key| then Err(PANIC)
    else
      var e, p, q := key[..l.e], key[l.e..split], key[split..];
      Ok(slot.(privateKey := Rsa.PrivateBlob(e, p, q), publicKey := Rsa.PublicBlob(Modulus(p, q), e)))
  }

  function ImportRsa(slot: KeySlot, template: Bytes, key: Bytes): Result<KeySlot, nat> {
    SplitRsa(slot, CrtLengths(template, Lengths(0, 0, 0)), key)
  }

  /** Every length that is read fits 64 bits. */
  lemma {:induction false} LengthsAreWords(data: Bytes, found: Lengths)
    requires found.e < WORD && found.p < WORD && found.q < WORD
    ensures var l := CrtLengths(data, found); l.e < WORD && l.p < WORD && l.q < WORD
    decreases |data|
  {
    hide ToNat;
    if |data| >= 2 {
      var l := BerLength(data[1..]);
      var found' := if data[0] == 0x91 then found.(e := l.num)
                    else if data[0] == 0x92 then found.(p := l.num)
                    else if data[0] == 0x93 then found.(q := l.num)
                    else found;
      if 1 + l.size <= |data| { LengthsAreWords(data[1 + l.size..], found'); }
    }
  }

  /** Without a panic the pieces have the declared sizes. */
  lemma PieceSizes(l: Lengths, size: nat)
    requires l.e < WORD && l.p < WORD && l.q < WORD && size == (l.e + l.p + l.q) % WORD
    requires l.e <= size && l.e <= (l.e + l.p) % WORD <= size
    ensures l.p == 0 || (l.e + l.p) % WORD == l.e + l.p
    ensures l.p > 0 ==> size - (l.e + l.p) % WORD == l.q
  {}

  /** Adding step by step modulo 2^64. */
  lemma SumWraps(x: nat, y: nat, z: nat)
    ensures ((x + y) % WORD + z) % WORD == (x + y + z) % WORD
  {}

  /** The private key size an elliptic-curve slot expects. */
  function EccSize(a: Algorithm): Option<nat> {
    if a.id == EDDSA then Some(32)
    else if a.id == ECDH || a.id == ECDSA then
      if a.curveOid == NIST_P521 then Some(66)
      else if a.curveOid == NIST_P384 then Some(48)
      else if a.curveOid == X25519 || a.curveOid == NIST_P256 || a.curveOid == SECP256K1 then Some(32)
      else None
    else None
  }

  function Reversed(s: Bytes): Bytes { if s == [] then [] else Reversed(s[1..]) + [s[0]] }

  /** X25519 keys arrive big-endian and are stored little-endian. */
  function EccStored(a: Algorithm, key: Bytes): Bytes {
    if a.id == ECDH && a.curveOid == X25519 then Reversed(key) else key
  }

  /** The private key is stored before its public key is computed, and stays if that fails. */
  function ImportEcc(c: Crypto, slot: KeySlot, key: Bytes): (KeySlot, Response) {
    if EccSize(slot.algorithm) != Some(|key|) then (slot, Error(WRONG_DATA))
    else
      var stored := EccStored(slot.algorithm, key);
      var slot' := slot.(privateKey := stored);
      match c.eccPublicKey(slot.algorithm, stored)
      case Some(public) => (slot'.(publicKey := EccPublicObject(public)), Success([]))
      case None => (slot', Error(EXEC_ERROR))
  }

  // ---------------------------------------------------------------- keys

  function GenerateSlot(data: Bytes): Option<SlotName> {
    if data == [] then None
    else if data[0] == 0xB6 then Some(Sig)
    else if data[0] == 0xB8 then Some(Dec)
    else if data[0] == 0xA4 then Some(Aut)
    else None
  }

  function GenerateKey(c: Crypto, s: State, cmd: Apdu, env: Env): Reply {
    if cmd.p1 != 0x80 && cmd.p1 != 0x81 then Refused(s, WRONG_P1_P2)
    else if GenerateSlot(cmd.data).None? then Refused(s, WRONG_DATA)
    else
      var name := GenerateSlot(cmd.data).value;
      var slot := s.card.Slot(name);
      if cmd.p1 == 0x80 then
        if !s.security.pw3 then Refused(s, SECURITY_STATUS_NOT_SATISFIED)
        else
          match Generated(slot.algorithm, env.rsaKey, env.eccKey)
          case Err(e) => Refused(s, StatusOf(e))
          case Ok(key) =>
            var slot' := slot.(privateKey := key.privateKey, publicKey := key.publicKey, generationTime := env.now,
                               fingerprint := FingerprintOf(c, slot.algorithm, key.publicKey, env.now));
            CreateResponse(s.(card := s.card.WithSlot(name, slot')), key.answer)
      else if slot.publicKey == [] then Refused(s, REFERENCED_DATA_NOT_FOUND)
      else Answer(s, PublicKey(slot))
  }

  const CDS: nat := 0x9E9A
  const DECIPHER: nat := 0x8086

  function SecurityOperation(c: Crypto, s: State, cmd: Apdu): Reply {
    if P1P2(cmd) == CDS then Sign(c, s, cmd.data)
    else if P1P2(cmd) == DECIPHER then Decipher(c, s, cmd.data)
    else Refused(s, WRONG_P1_P2)
  }

  const COUNTER_MAXIMUM: nat := 0xFFFF_FFFF

  function Counted(card: Card): Card {
    card.(signatureCounter := if card.signatureCounter < COUNTER_MAXIMUM then card.signatureCounter + 1
                              else card.signatureCounter)
  }

  function Sign(c: Crypto, s: State, data: Bytes): Reply {
    if !s.security.pw1Sign then Refused(s, SECURITY_STATUS_NOT_SATISFIED)
    else if !s.card.sig.HasKey() then Refused(s, REFERENCED_DATA_NOT_FOUND)
    else
      match SignData(c, s.card.sig, data)
      case Failed(e) => Refused(s, StatusOf(e))
      case Done(signature) => CreateResponse(s.(card := Counted(s.card), security := Signed(s.security)), signature)
  }

  function Decipher(c: Crypto, s: State, data: Bytes): Reply {
    if !s.security.pw1Other then Refused(s, SECURITY_STATUS_NOT_SATISFIED)
    else if !s.card.dec.HasKey() then Refused(s, REFERENCED_DATA_NOT_FOUND)
    else if data == [] then Refused(s, WRONG_DATA)
    else Answer(s, DecipherData(c, s.card.dec, data))
  }

  function Authenticate(c: Crypto, s: State, data: Bytes): Reply {
    if !s.security.pw1Other then Refused(s, SECURITY_STATUS_NOT_SATISFIED)
    else if !s.card.aut.HasKey() then Refused(s, REFERENCED_DATA_NOT_FOUND)
    else Answer(s, AuthenticateData(c, s.card.aut, data))
  }

  function Challenge(cmd: Apdu, env: Env): Response {
    var length := if cmd.le.Some? then cmd.le.value else 8;
    if length > 255 then Error(WRONG_LENGTH) else Success(env.random(length))
  }

  // ---------------------------------------------------------------- life cycle

  predicate BothBlocked(p: Pins) { p.pw1.retries == 0 && p.pw3.retries == 0 }

  function Terminate(s: State): Reply {
    if !s.security.pw3 && !BothBlocked(s.pins) then Refused(s, SECURITY_STATUS_NOT_SATISFIED)
    else Reply(s.(card := s.card.(terminated := true)), Success([]))
  }

  /** ACTIVATE FILE resets to factory state, also a card that is not terminated; the cached
      single-use flag is not reset. */
  function Activate(c: Crypto, s: State): Reply {
    Reply(ResetSession(s).(card := FACTORY_CARD, pins := FactoryPins(c.hash)), Success([]))
  }
}

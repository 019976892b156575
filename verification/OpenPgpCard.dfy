/** The OpenPGP card's stored state and the data objects read from it. */
module OpenPgpCard {
  import opened Wrappers
  import opened ByteStrings
  import opened Tlv

  const RSA: Byte := 0x01
  const ECDH: Byte := 0x12
  const ECDSA: Byte := 0x13
  const EDDSA: Byte := 0x16

  const NIST_P256: Bytes := [0x2A, 0x86, 0x48, 0xCE, 0x3D, 0x03, 0x01, 0x07]
  const NIST_P384: Bytes := [0x2B, 0x81, 0x04, 0x00, 0x22]
  const NIST_P521: Bytes := [0x2B, 0x81, 0x04, 0x00, 0x23]
  const SECP256K1: Bytes := [0x2B, 0x81, 0x04, 0x00, 0x0A]
  const X25519: Bytes := [0x2B, 0x06, 0x01, 0x04, 0x01, 0x97, 0x55, 0x01, 0x05, 0x01]

  /** Algorithm attributes: param1 and param2 are 16-bit in the source. */
  datatype Algorithm = Algorithm(id: Byte, param1: nat, param2: nat, param3: Byte, curveOid: Bytes)
  {
    function ToBytes(): Bytes {
      if id == RSA then [id, param1 / 256 % 256, param1 % 256, param2 / 256 % 256, param2 % 256, param3]
      else [id] + curveOid
    }
  }

  function AlgorithmFromBytes(data: Bytes): Option<Algorithm> {
    if data == [] then None
    else if data[0] == RSA then
      if |data| >= 6 then
        Some(Algorithm(data[0], ReadU16(data[1], data[2]), ReadU16(data[3], data[4]), data[5], []))
      else None
    else if |data| >= 2 then Some(Algorithm(data[0], 0, 0, 0, data[1..]))
    else None
  }

  datatype KeySlot = KeySlot(
    fingerprint: Bytes, generationTime: nat, caFingerprint: Bytes, algorithm: Algorithm, uif: Byte,
    privateKey: Bytes, publicKey: Bytes)
  {
    predicate HasKey() { exists i :: 0 <= i < |fingerprint| && fingerprint[i] != 0 }
  }

  datatype SlotName = Sig | Dec | Aut

  datatype Cardholder = Cardholder(name: Bytes, language: Bytes, sex: Byte, login: Bytes, url: Bytes)

  /** One password or the reset code. Lengths and counters are 8-bit in the source. */
  datatype Pin = Pin(hash: Bytes, length: nat, minLength: nat, maxLength: nat, retries: nat, maxRetries: nat)

  datatype Pins = Pins(pw1: Pin, pw3: Pin, rc: Pin, validMultiple: bool)

  /** The card state apart from its PIN data. */
  datatype Card = Card(
    manufacturerId: nat, serialNumber: nat, versionMajor: Byte, versionMinor: Byte, cardholder: Cardholder,
    sig: KeySlot, dec: KeySlot, aut: KeySlot, signatureCounter: nat,
    do1: Bytes, do2: Bytes, do3: Bytes, do4: Bytes, certificate: Bytes, terminated: bool)
  {
    function Slot(name: SlotName): KeySlot {
      match name case Sig => sig case Dec => dec case Aut => aut
    }

    function WithSlot(name: SlotName, slot: KeySlot): Card {
      match name
      case Sig => this.(sig := slot)
      case Dec => this.(dec := slot)
      case Aut => this.(aut := slot)
    }
  }

  const EMPTY_SLOT := KeySlot(Zeros(20), 0, Zeros(20), Algorithm(RSA, 2048, 32, 0, []), 0, [], [])

  const FACTORY_CARD :=
    Card(0, 1, 3, 4, Cardholder([], [0x65, 0x6E], 0, [], []), EMPTY_SLOT, EMPTY_SLOT, EMPTY_SLOT, 0,
         [], [], [], [], [], false)

  const DEFAULT_PW1: Bytes := [0x31, 0x32, 0x33, 0x34, 0x35, 0x36]
  const DEFAULT_PW3: Bytes := [0x31, 0x32, 0x33, 0x34, 0x35, 0x36, 0x37, 0x38]

  /** Default PIN data with the hashes of the default PINs. */
  function FactoryPins(hash: Bytes -> Bytes): Pins {
    Pins(Pin(hash(DEFAULT_PW1), 6, 6, 127, 3, 3), Pin(hash(DEFAULT_PW3), 8, 8, 127, 3, 3),
         Pin([], 0, 8, 127, 0, 3), true)
  }

  // ---------------------------------------------------------------- data objects

  function Low8(n: nat): Byte { n % 256 }

  function Timestamp(t: nat): Bytes {
    [Low8(t / 16777216), Low8(t / 65536), Low8(t / 256), Low8(t)]
  }

  function Aid(c: Card): Bytes {
    [0xD2, 0x76, 0x00, 0x01, 0x24, 0x01, c.versionMajor, c.versionMinor,
     Low8(c.manufacturerId / 256), Low8(c.manufacturerId)] + Timestamp(c.serialNumber) + [0x00, 0x00]
  }

  function HistoricalBytes(c: Card): Bytes {
    [0x00, 0x73, 0x00, 0x00, 0xE0, if c.terminated then 0x07 else 0x05, 0x90, 0x00]
  }

  const FEATURE_MANAGEMENT: Bytes := [0x81, 0x01, 0x20]

  const EXTENDED_CAPABILITIES: Bytes := [0x7C, 0x00, 0x00, 0xFF, 0x08, 0x00, 0x00, 0xFF, 0x00, 0x00]

  function StatusBytes(p: Pins): Bytes {
    [if p.validMultiple then 0x01 else 0x00, Low8(p.pw1.maxLength), Low8(p.rc.maxLength), Low8(p.pw3.maxLength),
     Low8(p.pw1.retries), Low8(p.rc.retries), Low8(p.pw3.retries)]
  }

  /** `fingerprint_padded`: resized to 20 bytes, cut or filled with zeros. */
  function Padded20(s: Bytes): (r: Bytes)
    ensures |r| == 20 && (|s| == 20 ==> r == s)
  {
    if |s| >= 20 then s[..20] else s + Zeros(20 - |s|)
  }

  function Fingerprints(c: Card): Bytes {
    Padded20(c.sig.fingerprint) + Padded20(c.dec.fingerprint) + Padded20(c.aut.fingerprint)
  }

  function CaFingerprints(c: Card): Bytes {
    Padded20(c.sig.caFingerprint) + Padded20(c.dec.caFingerprint) + Padded20(c.aut.caFingerprint)
  }

  function KeyTimestamps(c: Card): Bytes {
    Timestamp(c.sig.generationTime) + Timestamp(c.dec.generationTime) + Timestamp(c.aut.generationTime)
  }

  function CounterBytes(c: Card): Bytes {
    [Low8(c.signatureCounter / 65536), Low8(c.signatureCounter / 256), Low8(c.signatureCounter)]
  }

  /** Cardholder Related Data (65). */
  function CardholderData(c: Card): Bytes {
    Encode(0x65, Encode(0x5B, c.cardholder.name) + Encode(0x5F2D, c.cardholder.language)
                 + Encode(0x5F35, [c.cardholder.sex]))
  }

  function DiscretionaryObjects(c: Card, p: Pins): Bytes {
    Encode(0xC0, EXTENDED_CAPABILITIES) + Encode(0xC1, c.sig.algorithm.ToBytes())
    + Encode(0xC2, c.dec.algorithm.ToBytes()) + Encode(0xC3, c.aut.algorithm.ToBytes())
    + Encode(0xC4, StatusBytes(p)) + Encode(0xC5, Fingerprints(c)) + Encode(0xC6, CaFingerprints(c))
    + Encode(0xCD, KeyTimestamps(c))
  }

  /** Application Related Data (6E). */
  function ApplicationData(c: Card, p: Pins): Bytes {
    Encode(0x6E, Encode(0x4F, Aid(c)) + Encode(0x5F52, HistoricalBytes(c))
                 + Encode(0x7F74, FEATURE_MANAGEMENT) + Encode(0x73, DiscretionaryObjects(c, p)))
  }

  /** Security Support Template (7A). */
  function SecurityTemplate(c: Card): Bytes { Encode(0x7A, Encode(0x93, CounterBytes(c))) }
}

/** What the OpenPGP applet does with the key of a slot, by the slot's algorithm. */
module OpenPgpKeys {
  import opened Wrappers
  import opened ByteStrings
  import opened OpenPgpCard
  import opened KeyObjects
  import Rsa

  /** Why a key operation fails; each reason is answered with its own status word, but for a
      panic of the program, which is not answered. */
  datatype KeyError = OperationFailed | NotSupported | WrongInput | Panicked

  /** The result of a key operation. */
  datatype Outcome = Done(data: Bytes) | Failed(error: KeyError)

  /** Library functions, the same for every command: hashing, text conversion, validation of
      an RSA key, RSA decryption, the elliptic curves by algorithm and private key, and key
      fingerprints by algorithm, public parts and time. */
  datatype Crypto = Crypto(
    hash: Bytes -> Bytes,
    utf8Lossy: Bytes -> Bytes,
    acceptsKey: Rsa.PrivateKey -> bool,
    rsaDecrypt: (Rsa.PrivateKey, Bytes) -> Option<Bytes>,
    eccSign: (Algorithm, Bytes, Bytes) -> Option<Bytes>,
    ecdh: (Algorithm, Bytes, Bytes) -> Option<Bytes>,
    eccPublicKey: (Algorithm, Bytes) -> Option<Bytes>,
    fingerprint: (Algorithm, seq<Bytes>, nat) -> Bytes,
    algorithmInformation: Bytes)

  function OutcomeOf(r: Option<Bytes>): Outcome {
    match r case Some(data) => Done(data) case None => Failed(OperationFailed)
  }

  /** A zero prime makes the program panic; every other reason is a failed operation. */
  function RsaOutcome(r: Result<Bytes, Rsa.RsaError>): Outcome {
    match r case Ok(data) => Done(data) case Err(e) => Failed(RsaFailure(e))
  }

  function RsaFailure(e: Rsa.RsaError): KeyError { if e == Rsa.Underflow then Panicked else OperationFailed }

  /** The NIST curves and secp256k1. */
  predicate SignatureCurve(oid: Bytes) { oid in [NIST_P256, NIST_P384, NIST_P521, SECP256K1] }

  // ---------------------------------------------------------------- signing

  function EccSignature(c: Crypto, slot: KeySlot, data: Bytes): Outcome {
    if slot.algorithm.id == EDDSA || (slot.algorithm.id == ECDSA && SignatureCurve(slot.algorithm.curveOid)) then
      OutcomeOf(c.eccSign(slot.algorithm, slot.privateKey, data))
    else Failed(NotSupported)
  }

  /** PSO:CDS: an RSA slot pads and signs, the others hand the data to their curve. */
  function SignData(c: Crypto, slot: KeySlot, data: Bytes): Outcome {
    if slot.algorithm.id == RSA then
      RsaOutcome(Rsa.SignatureStored(slot.privateKey, slot.publicKey, data, c.acceptsKey))
    else EccSignature(c, slot, data)
  }

  /** INTERNAL AUTHENTICATE: an RSA slot signs without padding. */
  function AuthenticateData(c: Crypto, slot: KeySlot, data: Bytes): Outcome {
    if slot.algorithm.id == RSA then
      RsaOutcome(Rsa.RawSignatureStored(slot.privateKey, slot.publicKey, data, c.acceptsKey))
    else EccSignature(c, slot, data)
  }

  // ---------------------------------------------------------------- deciphering

  /** The ephemeral point of an ECDH cipher text A6. */
  function EphemeralPoint(data: Bytes): Option<Bytes> {
    match ValueOf(data, 0xA6) case Some(v) => PublicPoint(v) case None => None
  }

  /** The size of a point on the curves for key agreement. */
  function PointSize(oid: Bytes): Option<nat> {
    if oid == X25519 then Some(32)
    else if oid == NIST_P256 then Some(65)
    else if oid == NIST_P384 then Some(97)
    else if oid == NIST_P521 then Some(133)
    else if oid == SECP256K1 then Some(65)
    else None
  }

  function DecipherRsa(c: Crypto, slot: KeySlot, cipher: Bytes): Outcome {
    match Rsa.StoredKey(slot.privateKey, slot.publicKey, c.acceptsKey)
    case Err(e) => Failed(RsaFailure(e))
    case Ok(key) => OutcomeOf(c.rsaDecrypt(key, cipher))
  }

  function DecipherEcdh(c: Crypto, slot: KeySlot, data: Bytes): Outcome {
    match EphemeralPoint(data)
    case None => Failed(WrongInput)
    case Some(point) =>
      match PointSize(slot.algorithm.curveOid)
      case None => Failed(NotSupported)
      case Some(size) =>
        if |point| != size then Failed(WrongInput)
        else OutcomeOf(c.ecdh(slot.algorithm, slot.privateKey, point))
  }

  /** PSO:DECIPHER: the first byte tells RSA from ECDH and must suit the slot. */
  function DecipherData(c: Crypto, slot: KeySlot, data: Bytes): Outcome
    requires data != []
  {
    if data[0] == 0x00 then if slot.algorithm.id != RSA then Failed(WrongInput) else DecipherRsa(c, slot, data[1..])
    else if data[0] == 0xA6 then
      if slot.algorithm.id != ECDH then Failed(WrongInput) else DecipherEcdh(c, slot, data)
    else Failed(WrongInput)
  }

  // ---------------------------------------------------------------- public keys

  /** The public key object of a slot; RSA blobs are wrapped, the others are stored wrapped. */
  function PublicKey(slot: KeySlot): Outcome {
    if slot.algorithm.id == RSA then
      var n, e := Rsa.GetModulus(slot.publicKey), Rsa.GetExponent(slot.publicKey);
      if n.None? || e.None? then Failed(OperationFailed) else Done(RsaPublicObject(n.value, e.value))
    else Done(slot.publicKey)
  }

  // ---------------------------------------------------------------- generation

  /** Which elliptic-curve keys are generated. */
  predicate GeneratesEcc(a: Algorithm) {
    || a.id == EDDSA
    || (a.id == ECDH && (a.curveOid == X25519 || SignatureCurve(a.curveOid)))
    || (a.id == ECDSA && SignatureCurve(a.curveOid))
  }

  /** A new key from what the library generates. */
  function Generated(a: Algorithm, rsaKey: Option<Rsa.PrivateKey>, eccKey: Option<KeyPair>): Result<NewKey, KeyError> {
    if a.id == RSA then
      match rsaKey case Some(key) => Ok(NewRsaKey(key)) case None => Err(OperationFailed)
    else if GeneratesEcc(a) then
      match eccKey case Some(pair) => Ok(NewEccKey(pair)) case None => Err(OperationFailed)
    else Err(NotSupported)
  }

  /** The fingerprint of a stored public key; empty if the key cannot be read. */
  function FingerprintOf(c: Crypto, a: Algorithm, public: Bytes, now: nat): Bytes {
    if a.id == RSA then
      var n, e := Rsa.GetModulus(public), Rsa.GetExponent(public);
      if n.Some? && e.Some? then c.fingerprint(a, [n.value, e.value], now) else []
    else if a.id in {EDDSA, ECDH, ECDSA} then
      match PublicPoint(public) case Some(point) => c.fingerprint(a, [point], now) case None => []
    else []
  }
}

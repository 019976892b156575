# A verified model of the jcecard virtual smart card

jcecard puts a virtual OpenPGP and PIV smart card behind a PC/SC reader handler. This project
models the card core in Dafny and proves what its operations promise, for all inputs and over
whole runs:

- RSA key arithmetic: extended Euclid on unsigned numbers, key blobs, PKCS#1 v1.5 signatures
  (sections 5.2.1, 8.2.1 and 9.2 of RFC 8017);
- the BER-TLV parser and encoder (sections 8.1.2 and 8.1.3 of X.690), and the Python parser beside it;
- the APDU parser, with the Python builder and parser (section 5.1 of ISO/IEC 7816-4);
- the OpenPGP applet: command and response chaining, PIN counters, signing, key import, data
  objects, termination and activation (section 7.2 of the OpenPGP Smart Card specification 3.4);
- the PIV applet: management-key exchange, chained PUT DATA, PIN and PUK (section 3 of NIST SP
  800-73-4, Part 2);
- the card that powers up and down, selects an applet and routes commands to it.

## How the model is built

An object that the program updates in place is a class with the same fields: `TlvBuilder`,
`PinData`, `SecurityState`, `OpenPgpApplet`, `PivApplet`, `VirtualCard`. Each of its methods follows
the source's method and is proved equal to a step function on values (`OpenPgp.Process`,
`Piv.Process`, `VirtualCard.Process` and the functions below them). Where a method only evaluates an
expression of the source (the value table of GET DATA, SELECT, the PIV GET DATA, the search for an ECDH
point), it calls the function that models that expression. The loops
of the parsers, of Euclid's algorithm, of the signature padding and of the tag scans are methods
with loop invariants, proved against functions. The lemmas then speak about those functions: single
steps, and runs of any length in which commands, resets and power-offs are mixed.

What comes from outside is a parameter. Hashing, the elliptic curves, RSA decryption and the
validation of a reassembled RSA key are functions (`Crypto`, `Library`, `acceptsKey`), arbitrary but
fixed; random bytes, the clock and generated keys are inputs of each step (`Env`). RSA signing is not
among them: the applets call the verified code of module Rsa.

| files | content |
|---|---|
| Wrappers, ByteStrings, NumberTheory | bytes and big-endian numbers; Bezout, Fermat's little theorem, the RSA identity |
| Rsa, KeyObjects | `crypto/rsa.rs`; the public key objects that are stored and answered |
| Tlv, TlvCodec, TlvRoundTrip, TlvPython | `tlv/parser.rs` and `tlv/encoder.rs`; their round trips; `jcecard/tlv.py` |
| Apdu | `apdu/mod.rs` and `jcecard/apdu.py` |
| OpenPgpCard, PinManager, OpenPgpKeys, OpenPgp, OpenPgpApplet | card data, PINs, key operations, the step function, the applet |
| OpenPgpRuns, -Signing, -Pins, -Chaining, -Responses, -Activation, -Composite, -Objects, -Import, -Generation, -KeyRuns, -Operations, -Resets, -Authority, -LifeCycle, -Answers, -Panics | properties of the OpenPGP applet |
| Piv, PivApplet, PivRuns, PivManagement, PivExchange, PivSecrets, PivPins, PivObjects, PivKeys, PivAnswers | the PIV applet and its properties |
| VirtualCard, Routing, Isolation, EndToEnd | routing; the applets do not influence each other; from APDU bytes to the signature |

## Where the code differs from what one would expect

The model keeps the code as it is. Where a property fails, the exact condition is proved.

- A signature needs one verification each under the single-use setting only if the cached copy of
  the setting is current. PUT DATA C4 changes the stored setting alone, so a PIN verified before
  serves any number of signatures (`SingleUseExactly`; `StaleFlagArises` gives the two commands).
  Clearing the session does not reset the cached copy either (`FlagSurvives`), but that cannot be
  observed (`ActivationForgets`).
- A chain whose blocks are all empty leaves its instruction behind, because the final command only
  looks at the buffer (`ChainedIsUnchained`).
- VERIFY drops every 00 and FF byte of the PIN, CHANGE REFERENCE DATA drops none: a new PIN
  verifies exactly if it contains neither, or the hashes of both forms collide
  (`ChangedPinVerifies`). PIN lengths wrap at 256: a PIN can be changed again exactly if it is
  shorter, or the hashes collide (`LongPinChanges`).
- ACTIVATE FILE resets the card whether it was terminated or not.
- GET DATA answers an unknown tag with 6982: its access table and its value table agree, so the
  branch that would answer 6A88 is out of reach (`AccessMatchesValues`).
- The modulus of an imported key is stored behind a 16-bit length, so it is recovered exactly
  below 65536 bytes (`ImportRecovers`). A refused import changes the card exactly if it brings an
  elliptic-curve slot a new key of the right size whose public key cannot be computed; then the new
  private key stays beside the old public key (`RefusedImport`, `HalfStoreArises`).
- INTERNAL AUTHENTICATE fills an RSA result to an eighth of the key's size, so it is as long as the
  key exactly if its number needs all bytes (`RawSignatureOpens`).
- A PIV RSA key generated on the card can never be used: signing reads the stored object 7F49 as a
  length (`ObjectHasNoModulus`, `GeneratedRsaUnusable`, over runs `RsaNeverWorks`). The answer of GENERAL AUTHENTICATE can be
  read exactly if the result has at most 125 or 128 to 252 bytes (`AnswerReads`).
- PUT DATA stores a reset code without checking its maximal length: a longer one is never accepted by
  RESET RETRY COUNTER (`StoredCodeResets`).
- A new PUK unblocks the PIN exactly if its field has no FF byte: CHANGE REFERENCE DATA cuts there,
  RESET RETRY COUNTER compares all eight bytes (`ChangedPukUnblocks`).
- PIV PUT DATA reads lengths up to 65535; a longer object is cut, and an empty one cannot be read
  back (`PutThenGet`). A PIV reset keeps an open command chain (`ResetForgetsChain`).
- The two TLV parsers agree exactly where neither reads a tag of more than three bytes
  (`ParsersAgree`). The APDU builder writes an extended command without data and Le as one that
  reads with Le 256 (`ExtendedBareBuilt`).
- The program panics on some commands instead of answering. In the model such a command has the
  status word 0000, which no answer has, and leaves card, PINs and flags as they were; what becomes of
  the reader process is not part of this model. The OpenPGP applet panics exactly in two situations
  (`PanicsExactly`).
  - The lengths that an RSA import declares add up to 2^64 or more, and the wrapped sum is the size of
    the key data (`SplitPanics`, `ImportPanicsExactly`). A list with one key byte does it
    (`WrappingImportPanics`). The model follows the release build, which wraps; a debug build panics
    at the addition already.
  - A permitted signature, decipherment or authentication meets an RSA key with a zero prime, where
    p - 1 underflows (`UnderflowsExactly`, `OperationsPanic`). An import stores such a key exactly if
    p or q was sent as zero (`ImportedZeroPrime`, `ImportedKeyPanics`). PIV key use panics under the
    same condition on the stored key (`UsePanicsExactly`).

## Model

| member | source | states |
|---|---|---|
| Rsa.ModInverse | ifd-jcecard/src/crypto/rsa.rs:237-293 | extended Euclid with magnitudes and sign flags terminates, never underflows, returns none exactly when gcd(a, m) is not 1, and otherwise an x at most m (below m for m >= 2) with a*x = 1 modulo m |
| Rsa.SubtractSigned | ifd-jcecard/src/crypto/rsa.rs:256-274 | the signed difference old_s - q*s on magnitudes and flags, with signs alternating and magnitudes adding up; no branch underflows |
| Rsa.EuclidStep | ifd-jcecard/src/crypto/rsa.rs:248-276 | a division step keeps s*old_r + old_s*r = m, the alternation of signs, both congruences modulo m and the gcd |
| Rsa.EuclidRuns | ifd-jcecard/src/crypto/rsa.rs:248-284 | from any state of the loop, the run ends with the gcd and a coefficient for it that is at most m |
| Rsa.InverseIsInverse | ifd-jcecard/src/crypto/rsa.rs:237-293 | the function that ModInverse computes is none exactly without an inverse, and otherwise the inverse in range |
| Rsa.EncodePrivateKey | ifd-jcecard/src/crypto/rsa.rs:43-66 | the blob is the three big-endian numbers, each behind a 16-bit length |
| Rsa.EncodePublicKey | ifd-jcecard/src/crypto/rsa.rs:69-81 | the same for modulus and exponent |
| Rsa.PrivateBlobReads | ifd-jcecard/src/crypto/rsa.rs:43-123 | a stored private key reads back if and only if each component is below 65536 bytes |
| Rsa.PublicBlobReads | ifd-jcecard/src/crypto/rsa.rs:69-81 | get_modulus recovers the modulus if and only if it is below 65536 bytes, and then get_exponent the exponent under the same condition |
| Rsa.SplitFields | ifd-jcecard/src/crypto/rsa.rs:84-123 | reading the three fields by an advancing offset, with every truncation refused, is reading them one after another |
| Rsa.DecodePrivateKey | ifd-jcecard/src/crypto/rsa.rs:84-141 | the result is a key with the stored numbers and an inverse d of e, or the error for truncated data, a zero prime, a missing inverse or a failed validation |
| Rsa.DecodedKey | ifd-jcecard/src/crypto/rsa.rs:84-141 | every decoded key has e*d = 1 modulo (p-1)(q-1), and e, p, q are the stored fields |
| Rsa.DecodedDecodes | ifd-jcecard/src/crypto/rsa.rs:84-141 | the function that DecodePrivateKey computes has the stated outcome for every input |
| Rsa.SignPkcs1v15 | ifd-jcecard/src/crypto/rsa.rs:145-175 | refused exactly when the DigestInfo and 11 bytes exceed the key size k; otherwise k bytes whose number is the padded block to the d modulo n |
| Rsa.UnpadPadded | ifd-jcecard/src/crypto/rsa.rs:150-163 | an independent unpadding recovers the DigestInfo from its block |
| Rsa.SignThenVerify | ifd-jcecard/src/crypto/rsa.rs:145-175 | for distinct primes and inverse exponents, the signature to the e modulo n is the padded block, and verification returns the signed DigestInfo |
| Rsa.SignStored | ifd-jcecard/src/openpgp/applet.rs:1218-1231 | what is signed with the stored blobs has the public key's size and, if that key belongs to the stored distinct primes, verifies under it |
| Rsa.SignsExactly | ifd-jcecard/src/openpgp/applet.rs:1218-1231 | stored blobs sign if and only if the exponent has an inverse, the library accepts the key and the DigestInfo fits |
| Rsa.UnderflowsExactly | ifd-jcecard/src/crypto/rsa.rs:126-132 | decoding underflows if and only if the blob can be read and p or q is zero; signing, raw signing and deciphering with stored blobs under the same condition |
| Rsa.RawSign | ifd-jcecard/src/crypto/rsa.rs:180-198 | the filling loop gives the fewest bytes of the result, but at least an eighth of the key's size |
| Rsa.RawSignatureOpens | ifd-jcecard/src/crypto/rsa.rs:180-198 | a raw signature to the e is the data modulo n; it has the key's size if and only if its number needs that many bytes |
| Rsa.RawSignStored | ifd-jcecard/src/openpgp/applet.rs:1467-1481 | raw signing with stored blobs, or the error of modulus, key or exponent |
| Rsa.RawStoredOpens | ifd-jcecard/src/openpgp/applet.rs:1467-1481 | with stored distinct primes a raw signature opens under the stored public key |
| Rsa.RawExactly | ifd-jcecard/src/crypto/rsa.rs:180-198 | stored blobs sign raw if and only if the exponent has an inverse and the library accepts the key; the result is below n, in as few bytes as possible but an eighth of the key's size |
| KeyObjects.PointReads | ifd-jcecard/src/openpgp/applet.rs:1103-1113 | the point is extracted from its public key object |
| KeyObjects.RsaObjectReads | ifd-jcecard/src/openpgp/applet.rs:948-964 | modulus and exponent are read back from the public key object, as 81 and 82 in 7F49 |
| KeyObjects.NewRsaKeyReads | ifd-jcecard/src/crypto/rsa.rs:25-41 | a generated key's modulus and exponent read back from the blob that is stored |
| NumberTheory.Fermat | ifd-jcecard/src/crypto/rsa.rs:165-173 | a to the p equals a modulo a prime p, by the binomial theorem |
| NumberTheory.RsaIdentity | ifd-jcecard/src/crypto/rsa.rs:165-173 | raising to d and then to e is the identity modulo p*q |
| Tlv.FindIsFirst | ifd-jcecard/src/tlv/parser.rs:115-139 | the recursive search returns the first match in document order and misses none |
| TlvCodec.ParseLength | ifd-jcecard/src/tlv/parser.rs:331-365 | the accumulating loop reads the big-endian length, with the same errors |
| TlvCodec.ReadList | ifd-jcecard/src/tlv/parser.rs:220-243 | the consuming loop with its filler bytes and early stop returns the forest of the bytes |
| TlvCodec.ReadSingle | ifd-jcecard/src/tlv/parser.rs:246-290 | one object with its children and the rest, or the error |
| TlvCodec.EncodeTree | ifd-jcecard/src/tlv/encoder.rs:67-80 | the collecting loop is the recursive encoding of a tree |
| TlvCodec.TlvBuilder.Add | ifd-jcecard/src/tlv/encoder.rs:104-107 | one encoded object is appended |
| TlvCodec.TlvBuilder.AddRaw | ifd-jcecard/src/tlv/encoder.rs:110-113 | raw bytes are appended |
| TlvCodec.TlvBuilder.Wrap | ifd-jcecard/src/tlv/encoder.rs:116-119 | everything so far becomes the value of one object |
| TlvRoundTrip.LengthReads | ifd-jcecard/src/tlv/encoder.rs:36-64 | an encoded length below 2^32 is read back from any continuation |
| TlvRoundTrip.LengthShrinks | ifd-jcecard/src/tlv/parser.rs:331-365 | the encoder's length form never outgrows the one that was read |
| TlvRoundTrip.FrameReads | ifd-jcecard/src/tlv/encoder.rs:12-18 | an encoded object is parsed back, leaving exactly what followed it |
| TlvRoundTrip.ParseEncoded | ifd-jcecard/src/tlv/parser.rs:220-290 | parsing the encoding of any well-formed forest returns it, constructed values being their children's encodings |
| TlvRoundTrip.ParsedWellFormed | ifd-jcecard/src/tlv/parser.rs:220-365 | whatever was parsed is well formed and re-encodes to no more bytes |
| TlvRoundTrip.Normalises | ifd-jcecard/src/tlv/encoder.rs:12-80 | for every byte string, parse, encode, parse gives the same tags, shape and leaf values; re-encoding is idempotent and never longer |
| TlvRoundTrip.EncodingInjective | ifd-jcecard/src/tlv/encoder.rs:67-80 | well-formed forests with equal encodings have equal tags, shape and leaf values |
| TlvPython.ParseTagLoop | jcecard/tlv.py:300-332 | the loop over continuation bytes is the recursive reading of the tag |
| TlvPython.ParseOne | jcecard/tlv.py:258-297 | one object, or nothing on any malformed field |
| TlvPython.Parse | jcecard/tlv.py:209-237 | the loop over an offset returns the objects from there to the first error |
| TlvPython.FramesAgree | jcecard/tlv.py:258-380 | without a long tag both parsers read the same object and stop at the same byte, or both fail |
| TlvPython.ParsersAgree | jcecard/tlv.py:209-380 | the Python and Rust parsers return the same forest if and only if neither reads a tag of more than three bytes |
| Apdu.ParsedBounds | ifd-jcecard/src/apdu/mod.rs:117-272 | a parsed Le is 1 to 65536 and parsed data at most 65535 bytes |
| Apdu.ShortReads | ifd-jcecard/src/apdu/mod.rs:169-216 | the short parser accepts exactly the bodies of the four short cases, with these data and Le |
| Apdu.ZeroBeforeShort | ifd-jcecard/src/apdu/mod.rs:135-166 | what is not of extended shape is read as a short body, without a leading zero if it is one then |
| Apdu.BuildCommand | jcecard/apdu.py:375-429 | the builder's step-by-step result is header, length, data and Le of the chosen format |
| Apdu.ParseCommand | jcecard/apdu.py:251-366 | the parser's reassigned locals compute the specified reading, with its fallback from extended to short |
| Apdu.RustReadsBuilt | ifd-jcecard/src/apdu/mod.rs:117-272 | the Rust parser returns the fields given to the builder if and only if data and Le are in range and the format is not extended with neither |
| Apdu.ExtendedBareBuilt | jcecard/apdu.py:375-429 | an extended command without data reads back on the same condition; with neither data nor Le the Rust parser returns it with Le 256 |
| Apdu.PythonReadsBuilt | jcecard/apdu.py:251-366 | the Python parser inverts the builder, format and chaining bit included, under the same condition |
| PinManager.VerifyPin | ifd-jcecard/src/openpgp/pin_manager.rs:43-97 | blocked, wrong length, wrong hash and success, each with the counter it leaves |
| PinManager.ChangePin | ifd-jcecard/src/openpgp/pin_manager.rs:100-145 | a change counts a wrong old PIN, resets the counter on a right one, and stores the new hash and length only if the new length is allowed |
| PinManager.ResetPw1WithRc | ifd-jcecard/src/openpgp/pin_manager.rs:148-175 | the reset code is checked with its own counter before PW1 is replaced |
| PinManager.ResetPw1WithPw3 | ifd-jcecard/src/openpgp/pin_manager.rs:178-193 | PW1 is replaced and its counter refilled, or nothing changes |
| PinManager.SecurityState.SetVerified | ifd-jcecard/src/openpgp/security_state.rs:40-46 | exactly one flag is set |
| PinManager.SecurityState.ClearAll | ifd-jcecard/src/openpgp/security_state.rs:67-71 | the flags are cleared, the cached setting is not |
| PinManager.SecurityState.AfterSign | ifd-jcecard/src/openpgp/security_state.rs:75-79 | the signing flag goes only under the cached single-use setting |
| PinManager.SecurityState.SetPw1ValidMultiple | ifd-jcecard/src/openpgp/security_state.rs:82-84 | only the cached setting is replaced |
| OpenPgpApplet.ParseBerLength | ifd-jcecard/src/openpgp/applet.rs:1838-1861 | the loop keeps the last 64 bits of a long length |
| OpenPgpApplet.ParseCrtLengths | ifd-jcecard/src/openpgp/applet.rs:1807-1835 | the scan by offset reads the template's tag and length pairs in order |
| OpenPgpApplet.OpenPgpApplet.constructor | ifd-jcecard/src/openpgp/applet.rs:48-59 | a new applet has the stored data, no flag, no chain, no pending response and the cached setting for many signatures |
| OpenPgpApplet.OpenPgpApplet.ProcessApdu | ifd-jcecard/src/openpgp/applet.rs:62-127 | one command changes the whole applet and answers as the step function says |
| OpenPgpApplet.OpenPgpApplet.Route | ifd-jcecard/src/openpgp/applet.rs:103-127 | a terminated card refuses all but activation; otherwise the instruction decides |
| OpenPgpApplet.OpenPgpApplet.HandleCommandChaining | ifd-jcecard/src/openpgp/applet.rs:130-147 | a block opens, extends or breaks the chain |
| OpenPgpApplet.OpenPgpApplet.HandleGetResponse | ifd-jcecard/src/openpgp/applet.rs:150-173 | the next chunk, and the state that remains |
| OpenPgpApplet.OpenPgpApplet.MakeResponse | ifd-jcecard/src/openpgp/applet.rs:176-198 | a short answer at once, a long one as first chunk with the rest buffered |
| OpenPgpApplet.OpenPgpApplet.HandleGetData | ifd-jcecard/src/openpgp/applet.rs:223-319 | the access table is consulted first, then the value table, each with its status word |
| OpenPgpApplet.OpenPgpApplet.ReadObject | ifd-jcecard/src/openpgp/applet.rs:234-316 | the value of each tag, with 6E built step by step |
| OpenPgpApplet.OpenPgpApplet.HandleVerify | ifd-jcecard/src/openpgp/applet.rs:322-396 | VERIFY with its query form, stripping, counters and flags |
| OpenPgpApplet.OpenPgpApplet.HandleChangeReferenceData | ifd-jcecard/src/openpgp/applet.rs:399-438 | the split at the old PIN's stored length |
| OpenPgpApplet.OpenPgpApplet.HandleResetRetryCounter | ifd-jcecard/src/openpgp/applet.rs:441-481 | both forms, with the status of each failure |
| OpenPgpApplet.OpenPgpApplet.HandlePutData | ifd-jcecard/src/openpgp/applet.rs:484-672 | what each tag stores, under which PIN |
| OpenPgpApplet.OpenPgpApplet.StoreInCard | ifd-jcecard/src/openpgp/applet.rs:495-666 | each tag writes one field of the card, or is refused and writes nothing |
| OpenPgpApplet.OpenPgpApplet.HandlePutDataOdd | ifd-jcecard/src/openpgp/applet.rs:675-687 | key import is only for P1-P2 3FFF and PW3 |
| OpenPgpApplet.OpenPgpApplet.HandleKeyImport | ifd-jcecard/src/openpgp/applet.rs:690-902 | RSA and elliptic-curve import with every early error, and the panic of wrapping lengths |
| OpenPgpApplet.OpenPgpApplet.StoreRsaKey | ifd-jcecard/src/openpgp/applet.rs:766-808 | the sum of the 64-bit lengths is compared modulo 2^64, the slices are taken or panic, and the blobs are written piece by piece |
| OpenPgpApplet.OpenPgpApplet.ImportEccKey | ifd-jcecard/src/openpgp/applet.rs:811-897 | the private key is written before the public key is computed, and stays if that fails |
| OpenPgpApplet.OpenPgpApplet.HandleGenerateKey | ifd-jcecard/src/openpgp/applet.rs:905-1190 | reading a public key needs no PIN; generating needs PW3 and stores key, time and fingerprint in one slot |
| OpenPgpApplet.OpenPgpApplet.MakeKey | ifd-jcecard/src/openpgp/applet.rs:943-1096 | which algorithms and curves are generated, and how the key is encoded for storage and answer |
| OpenPgpApplet.OpenPgpApplet.HandlePso | ifd-jcecard/src/openpgp/applet.rs:1192-1198 | P1-P2 selects signature or decipherment |
| OpenPgpApplet.OpenPgpApplet.HandlePsoSign | ifd-jcecard/src/openpgp/applet.rs:1201-1277 | a signature needs the flag and a key; an RSA slot signs with the verified code, its panic included, others by algorithm and curve; the counter saturates and the flag is updated |
| OpenPgpApplet.OpenPgpApplet.HandlePsoDecipher | ifd-jcecard/src/openpgp/applet.rs:1280-1446 | PW1 82 and a key are needed; the padding byte must suit the slot; RSA key, ephemeral point and its size are checked |
| OpenPgpApplet.OpenPgpApplet.HandleInternalAuthenticate | ifd-jcecard/src/openpgp/applet.rs:1449-1516 | PW1 82 and a key are needed; an RSA slot signs raw with the verified code, others by algorithm and curve |
| OpenPgpApplet.OpenPgpApplet.HandleTerminate | ifd-jcecard/src/openpgp/applet.rs:1535-1550 | termination needs PW3, or both PINs blocked |
| OpenPgpApplet.OpenPgpApplet.HandleActivate | ifd-jcecard/src/openpgp/applet.rs:1553-1563 | factory data and a cleared session, whatever the card was before |
| OpenPgpApplet.OpenPgpApplet.BuildApplicationData | ifd-jcecard/src/openpgp/applet.rs:1582-1611 | the builder calls assemble the composite object |
| OpenPgpApplet.OpenPgpApplet.Reset | ifd-jcecard/src/openpgp/applet.rs:1796-1802 | a reset ends session and chains and keeps card and PINs |
| OpenPgpRuns.HandlerFrame | ifd-jcecard/src/openpgp/applet.rs:103-127 | which instructions can change flags, PINs and card data |
| OpenPgpRuns.ActivationState | ifd-jcecard/src/card/storage.rs:172-195 | after activation card and PINs are the factory's and the flags are cleared |
| OpenPgpSigning.FlagStep | ifd-jcecard/src/openpgp/security_state.rs:40-83 | what any one event does to the signing flag and the cached setting |
| OpenPgpSigning.SignaturesAreAuthorised | ifd-jcecard/src/openpgp/applet.rs:1201-1277 | in every run each signature has an earlier successful VERIFY 81 in the same session |
| OpenPgpSigning.SingleUseCounts | ifd-jcecard/src/openpgp/security_state.rs:75-83 | while the stored setting is single use and the flag was not stale, signatures never outnumber verifications |
| OpenPgpSigning.SingleUseExactly | ifd-jcecard/src/openpgp/security_state.rs:75-83 | that bound holds for all runs from a state if and only if its flag is not stale |
| OpenPgpSigning.StaleFlagArises | ifd-jcecard/src/openpgp/applet.rs:553-557 | from any state that allows many signatures, VERIFY 81 with the right PIN and then PUT DATA C4 00 make the flag stale |
| OpenPgpSigning.CounterIsTally | ifd-jcecard/src/openpgp/applet.rs:1250-1265 | in every run the signature counter is the number of signatures since the last activation, saturating at 2^32 - 1 |
| OpenPgpPins.PinStep | ifd-jcecard/src/openpgp/applet.rs:322-481 | what any one event does to a PIN record: refreshed, refilled by success, or one failed check |
| OpenPgpPins.CountersBounded | ifd-jcecard/src/openpgp/pin_manager.rs:43-193 | in every run the counters stay within their maxima |
| OpenPgpPins.ComparisonsBounded | ifd-jcecard/src/openpgp/pin_manager.rs:43-97 | between successes and refreshes at most as many hashes are compared as the counter showed |
| OpenPgpPins.BlockedStays | ifd-jcecard/src/openpgp/pin_manager.rs:43-193 | a blocked record, hash included, stays as it is until it is refreshed |
| OpenPgpPins.Pw3Unblocked | ifd-jcecard/src/openpgp/applet.rs:1553-1563 | a blocked PW3 changes only by activation |
| OpenPgpPins.Pw1Unblocked | ifd-jcecard/src/openpgp/applet.rs:441-481 | a blocked PW1 changes only by an accepted RESET RETRY COUNTER or activation |
| OpenPgpPins.ChangedPinVerifies | ifd-jcecard/src/openpgp/applet.rs:357-360 | a changed PIN verifies, under 81, 82 or 83, if and only if it has no 00 or FF byte or its stripped form has an allowed length and the same hash |
| OpenPgpPins.LongPinChanges | ifd-jcecard/src/openpgp/pin_manager.rs:122-140 | after a change to a new PIN, a change that starts with it is accepted if and only if it is shorter than 256 bytes or its first bytes have the same hash |
| OpenPgpPins.VerifyExactly | ifd-jcecard/src/openpgp/applet.rs:322-396 | VERIFY with a PIN is accepted exactly for a right one with tries left, refills the counter and sets its own flag; otherwise it costs one try, which the status word tells |
| OpenPgpPins.VerifyAsks | ifd-jcecard/src/openpgp/applet.rs:340-355 | VERIFY without data changes nothing and tells blocked, verified or the tries left |
| OpenPgpPins.ChangeAccepted | ifd-jcecard/src/openpgp/applet.rs:399-438 | CHANGE REFERENCE DATA is accepted if and only if the old PIN is right, with tries left, and the new one of an allowed length |
| OpenPgpPins.ChangeRefused | ifd-jcecard/src/openpgp/applet.rs:399-438 | a wrong old PIN costs a try, a right one with a bad new PIN refills the counter; the PIN stays |
| OpenPgpResets.ResetByCode | ifd-jcecard/src/openpgp/applet.rs:441-466 | the form with the reset code is accepted if and only if a code is set, not blocked, right and of an allowed length, and so is the new PIN; each refusal has its status word |
| OpenPgpResets.ResetByAdmin | ifd-jcecard/src/openpgp/applet.rs:466-478 | the form with PW3 is accepted if and only if PW3 is verified and the new PIN of an allowed length |
| OpenPgpResets.ResetPin | ifd-jcecard/src/openpgp/pin_manager.rs:148-193 | an accepted reset stores the hash and length of the new PIN, refills the counters and changes nothing else |
| OpenPgpResets.ResetPinVerifies | ifd-jcecard/src/openpgp/applet.rs:441-481 | after either form VERIFY 81 or 82 takes the new PIN if and only if it has no 00 or FF byte, or its stripped form has an allowed length and the same hash |
| OpenPgpResets.CodeStored | ifd-jcecard/src/openpgp/applet.rs:625-640 | PUT DATA D3 stores a code of the minimal length, clears it without data, and changes nothing else |
| OpenPgpResets.StoredCodeResets | ifd-jcecard/src/openpgp/applet.rs:625-640 | a stored code of up to 255 bytes is the one that RESET RETRY COUNTER takes, if and only if it does not exceed the maximal length |
| OpenPgpResets.LongCodeResets | ifd-jcecard/src/openpgp/applet.rs:625-640 | a longer code is split at the low byte of its length |
| OpenPgpAuthority.FlagsExactly | ifd-jcecard/src/openpgp/security_state.rs:40-79 | each flag is set by a VERIFY with its own right PIN alone, and cleared by the end of the session, that for signing also by a signature |
| OpenPgpAuthority.FlagHasPin | ifd-jcecard/src/openpgp/security_state.rs:40-71 | in every run a set flag has its right VERIFY behind it in the same session |
| OpenPgpAuthority.PutNeedsPin | ifd-jcecard/src/openpgp/applet.rs:1727-1756 | PUT DATA needs PW1 for 0101 and 0102 and PW3 for its other tags; without them it answers 6982 and changes nothing, with them it never does |
| OpenPgpAuthority.CardChangesAuthorised | ifd-jcecard/src/openpgp/applet.rs:103-127 | card data changes only by a command with the PIN it needs, or by activation |
| OpenPgpLifeCycle.TerminatesExactly | ifd-jcecard/src/openpgp/applet.rs:1535-1550 | TERMINATE DF is accepted if and only if PW3 is verified or both counters are zero, and otherwise changes nothing |
| OpenPgpLifeCycle.TerminationStep | ifd-jcecard/src/openpgp/applet.rs:1535-1563 | an event leaves the card terminated if and only if it is such a command, or the card was terminated and it is no activation |
| OpenPgpLifeCycle.TerminationHasCommand | ifd-jcecard/src/openpgp/applet.rs:1535-1563 | in every run a terminated card has an accepted TERMINATE DF behind it and no activation since |
| OpenPgpLifeCycle.TerminatedRefuses | ifd-jcecard/src/openpgp/applet.rs:103-127 | on a terminated card every command that would reach a handler answers 6985, but ACTIVATE FILE, and card, PINs and flags stay |
| OpenPgpLifeCycle.TerminatedStays | ifd-jcecard/src/openpgp/applet.rs:103-127 | so nothing changes until ACTIVATE FILE |
| OpenPgpChaining.TrafficCollects | ifd-jcecard/src/openpgp/applet.rs:130-173 | blocks only collect data, and GET RESPONSE between them neither disturbs them nor is disturbed |
| OpenPgpChaining.HandlersIgnoreChain | ifd-jcecard/src/openpgp/applet.rs:77-127 | no handler reads the chained instruction, only activation writes it |
| OpenPgpChaining.ChainedIsUnchained | ifd-jcecard/src/openpgp/applet.rs:62-147 | a chain with GET RESPONSE anywhere in it answers as one command with all data; the states agree if and only if there was no block, some data, or an activation |
| OpenPgpChaining.CommandKeepsNoChain | ifd-jcecard/src/openpgp/applet.rs:62-147 | every command keeps that no chained instruction means no buffered data |
| OpenPgpChaining.NoChainStaysEmpty | ifd-jcecard/src/openpgp/applet.rs:62-147 | so it holds in every state of every run |
| OpenPgpChaining.ChainBreaks | ifd-jcecard/src/openpgp/applet.rs:77-147 | another instruction breaks an open chain with 6985 and is not carried out |
| OpenPgpResponses.CommandKeepsBuffer | ifd-jcecard/src/openpgp/applet.rs:150-198 | every command keeps the response offset inside the buffer |
| OpenPgpResponses.OffsetStaysInside | ifd-jcecard/src/openpgp/applet.rs:150-173 | in every run the offset stays inside the buffer, so GET RESPONSE is refused only without a buffered response and the remainder never underflows |
| OpenPgpResponses.GetsAreCut | ifd-jcecard/src/openpgp/applet.rs:150-173 | the answers to any series of GET RESPONSE are the buffered bytes cut by the Le values |
| OpenPgpResponses.CutJoins | ifd-jcecard/src/openpgp/applet.rs:150-173 | the chunks joined are the first bytes that were asked for |
| OpenPgpResponses.CutFinishes | ifd-jcecard/src/openpgp/applet.rs:150-173 | 9000 is answered if and only if everything was asked for |
| OpenPgpResponses.ChunksTell | ifd-jcecard/src/openpgp/applet.rs:150-198 | the i-th answer is the chunk at its place, with 9000 for the last and before it 61 and the number of bytes left, 00 above 255 |
| OpenPgpResponses.ResponseDelivered | ifd-jcecard/src/openpgp/applet.rs:150-198 | a response cut by MakeResponse and fetched with positive Le values arrives complete, with 9000 exactly at the end |
| OpenPgpActivation.AlikeStep | ifd-jcecard/src/openpgp/security_state.rs:67-83 | states that differ only in an unobservable cached flag answer alike and stay alike |
| OpenPgpActivation.AlikeRuns | ifd-jcecard/src/openpgp/applet.rs:62-127 | so do whole runs with resets |
| OpenPgpActivation.ActivationForgets | ifd-jcecard/src/openpgp/applet.rs:1553-1563 | two cards with any histories, once activated, answer every later series of commands identically |
| OpenPgpActivation.FlagSurvives | ifd-jcecard/src/openpgp/security_state.rs:67-71 | activation leaves the cached flag as it was |
| OpenPgpComposite.ApplicationTree | ifd-jcecard/src/openpgp/applet.rs:1582-1611 | the bytes of 6E encode a well-formed tree |
| OpenPgpComposite.CompositeAgrees | ifd-jcecard/src/openpgp/applet.rs:223-319 | parsing GET DATA 6E and searching it for 4F, 5F52, C0 to C6 and CD gives what the single GET DATA commands return |
| OpenPgpComposite.FingerprintSlots | ifd-jcecard/src/card/state.rs:345-356 | C5 and C6 are 60 bytes that split into the slots' 20-byte objects C7 to CC |
| OpenPgpObjects.AlgorithmReads | ifd-jcecard/src/card/state.rs:255-308 | from_bytes recovers the attributes from to_bytes if and only if the fields of the other kind of key are empty and the sizes fit 16 bits |
| OpenPgpObjects.AlgorithmRewrites | ifd-jcecard/src/card/state.rs:255-308 | accepted attributes are written back unchanged, RSA ones cut to six bytes |
| OpenPgpObjects.PutThenGet | ifd-jcecard/src/openpgp/applet.rs:484-672 | for each stored tag: refused exactly for data of a wrong form, read back unchanged if and only if it is canonical, and every other single object reads as before |
| OpenPgpObjects.AccessMatchesValues | ifd-jcecard/src/openpgp/applet.rs:1701-1724 | the access table lets exactly the tags through that have a value; no tag needs a PIN, and 6A88 is never answered |
| OpenPgpObjects.StatusTells | ifd-jcecard/src/card/state.rs:543-554 | C4 is the single-use setting, the maximal lengths and the tries of PW1, reset code and PW3 |
| OpenPgpObjects.TimesTell | ifd-jcecard/src/card/state.rs:574-584 | CE, CF and D0 read as the generation times, and CD is the three in a row |
| OpenPgpObjects.CounterTells | ifd-jcecard/src/card/state.rs:586-592 | 93 reads as the signature counter modulo 2^24 |
| OpenPgpImport.HeaderReads | ifd-jcecard/src/tlv/parser.rs:220-290 | the nested parses of an Extended Header List give its reference template, length template and key data |
| OpenPgpImport.TemplateReads | ifd-jcecard/src/openpgp/applet.rs:1807-1861 | the length template gives the lengths of e, p and q |
| OpenPgpImport.SlotIsFirst | ifd-jcecard/src/openpgp/applet.rs:710-724 | the slot is that of the first B6, B8 or A4 among the objects, wherever it stands, and there is none without one |
| OpenPgpImport.ImportRecovers | ifd-jcecard/src/openpgp/applet.rs:690-810 | importing any (e, p, q) of 1 to 65535 bytes each stores blobs from which e, p, q are recovered, and n = p*q if and only if it is below 65536 bytes; nothing else changes |
| OpenPgpImport.ImportThenSign | ifd-jcecard/src/openpgp/applet.rs:1201-1277 | after PUT DATA with a key of distinct primes, PSO:CDS answers with a signature of the key's size that verifies under (p*q, e), sent by response chaining, if and only if PW1 is verified, a fingerprint is set, the key is usable and the DigestInfo fits; each refusal has its status word |
| OpenPgpImport.ImportEffect | ifd-jcecard/src/openpgp/applet.rs:690-902 | any import changes at most the key data of one slot; one that is refused or panics changes nothing, except after an elliptic-curve failure |
| OpenPgpImport.RefusedImport | ifd-jcecard/src/openpgp/applet.rs:846-892 | an import that does not succeed changes the card if and only if a new elliptic-curve key of the right size has no public key; then exactly the private key is new; a panic changes nothing |
| OpenPgpImport.HalfStoreArises | ifd-jcecard/src/openpgp/applet.rs:846-892 | a header list with such a key is an import of that kind |
| OpenPgpPanics.SplitPanics | ifd-jcecard/src/openpgp/applet.rs:766-781 | splitting key data panics if and only if the nonzero lengths add up to 2^64 or more and the wrapped sum is the data's size; it is refused exactly for a zero length or another sum |
| OpenPgpPanics.ImportPanicsExactly | ifd-jcecard/src/openpgp/applet.rs:690-810 | an import panics if and only if it brings an RSA slot such lengths, and then the card is unchanged |
| OpenPgpPanics.WrappingImportPanics | ifd-jcecard/src/openpgp/applet.rs:766-781 | for every RSA slot, the header list with lengths 2^64 - 1, 1 and 1 and one key byte panics |
| OpenPgpPanics.OperationsPanic | ifd-jcecard/src/crypto/rsa.rs:126-132 | signing and authenticating with a slot panic if and only if it is an RSA slot with a zero prime, and so does deciphering after padding byte 00 |
| OpenPgpPanics.ImportedZeroPrime | ifd-jcecard/src/openpgp/applet.rs:778-808 | after an accepted import the slot holds a zero prime if and only if p or q was sent as zero |
| OpenPgpPanics.ImportedKeyPanics | ifd-jcecard/src/openpgp/applet.rs:778-808 | key operations with the imported key panic under the same condition |
| OpenPgpPanics.PanicsExactly | ifd-jcecard/src/openpgp/applet.rs:62-127 | a command panics if and only if it is an authorised import with wrapping lengths or a permitted operation with a zero prime; card, PINs and flags stay as they were |
| OpenPgpAnswers.ChallengeExactly | ifd-jcecard/src/openpgp/applet.rs:1519-1532 | as many random bytes as Le asks for, eight without Le, 6700 above 255 |
| OpenPgpAnswers.ChangeParameters | ifd-jcecard/src/openpgp/applet.rs:399-425 | other reference bytes and too little data are refused without effect |
| OpenPgpAnswers.PutRefusals | ifd-jcecard/src/openpgp/applet.rs:520-622 | bad algorithm attributes answer 6A80, other data of a wrong size 6700 |
| OpenPgpAnswers.SettingStored | ifd-jcecard/src/openpgp/applet.rs:553-557 | C4 stores the setting from its first byte and nothing else |
| OpenPgpAnswers.ImportParameters | ifd-jcecard/src/openpgp/applet.rs:675-687 | parameters other than 3FFF answer 6B00, and without PW3 6982 |
| OpenPgpAnswers.RsaImportExactly | ifd-jcecard/src/openpgp/applet.rs:740-810 | an RSA import is accepted if and only if its nonzero lengths add up to the size of the key data; otherwise 6A80, or the panic |
| OpenPgpAnswers.NoTarget | ifd-jcecard/src/openpgp/applet.rs:690-735 | without header list, slot or key data 6A80 and no change |
| OpenPgpAnswers.GenerateExactly | ifd-jcecard/src/openpgp/applet.rs:905-1097 | every refusal of key generation in its order, and that it is accepted otherwise |
| OpenPgpGeneration.GeneratedIsStored | ifd-jcecard/src/openpgp/applet.rs:1098-1159 | an accepted generation changes one slot's key, time and fingerprint, and answers the public key |
| OpenPgpGeneration.GenerateThenRead | ifd-jcecard/src/openpgp/applet.rs:1160-1189 | reading the public key afterwards answers the same object, for RSA if and only if the stored blob can be read |
| OpenPgpGeneration.GeneratedFingerprint | ifd-jcecard/src/openpgp/applet.rs:1103-1155 | the stored fingerprint is that of the generated public parts and the time |
| OpenPgpGeneration.GenerateThenSign | ifd-jcecard/src/openpgp/applet.rs:1201-1277 | a generated key of distinct primes signs what verifies under its modulus and exponent, or the status word tells what is missing |
| OpenPgpGeneration.CipherTextReads | ifd-jcecard/src/openpgp/applet.rs:1349-1377 | the ephemeral point of an encoded ECDH cipher text is the one that is used |
| OpenPgpKeyRuns.KeyKept | ifd-jcecard/src/openpgp/applet.rs:103-127 | only import or generation for the slot, PUT DATA C1 and activation can replace the signature key |
| OpenPgpKeyRuns.KeyStays | ifd-jcecard/src/openpgp/applet.rs:62-127 | in every run without such a command the key stays |
| OpenPgpKeyRuns.SignsInRun | ifd-jcecard/src/openpgp/applet.rs:1201-1277 | at any point of such a run, PSO:CDS, chained or not, answers with a signature that verifies under the stored primes' product, or says what is missing |
| OpenPgpOperations.AuthenticatesInRun | ifd-jcecard/src/openpgp/applet.rs:1449-1516 | at any point of a run that keeps an RSA authentication key of distinct primes, INTERNAL AUTHENTICATE carries a number below n whose power to e is the data modulo n, or the status word tells what is missing |
| OpenPgpOperations.SignsEccInRun | ifd-jcecard/src/openpgp/applet.rs:1232-1272 | with an elliptic-curve slot PSO:CDS signs its data with exactly the stored private key |
| OpenPgpOperations.AuthenticatesEccInRun | ifd-jcecard/src/openpgp/applet.rs:1481-1512 | and so does INTERNAL AUTHENTICATE |
| OpenPgpOperations.DeciphersRsaInRun | ifd-jcecard/src/openpgp/applet.rs:1309-1342 | PSO:DECIPHER hands the bytes after 00 to the library, with the key that the slot's numbers determine |
| OpenPgpOperations.DeciphersEcdhInRun | ifd-jcecard/src/openpgp/applet.rs:1343-1440 | PSO:DECIPHER agrees on a built cipher text's point with the stored private key, if the point has the size of the curve |
| OpenPgpOperations.DecipherRefuses | ifd-jcecard/src/openpgp/applet.rs:1293-1440 | no data, other padding bytes and those of the wrong kind of slot answer 6A80 |
| OpenPgpOperations.EccImportStores | ifd-jcecard/src/openpgp/applet.rs:811-897 | an imported elliptic-curve key of the curve's size is stored as it came, an X25519 key in reverse, and the public key object holds the library's point |
| PivApplet.FindAlgorithm | ifd-jcecard/src/piv/applet.rs:514-525 | the scan finds the first algorithm entry |
| PivApplet.CollectTags | ifd-jcecard/src/piv/applet.rs:609-624 | the scan collects the template's entries, the last of a tag winning |
| PivApplet.PivApplet.constructor | ifd-jcecard/src/piv/applet.rs:45-65 | a new applet has the default management key, PIN and PUK, no keys, no authentication, witness, chain or pending response |
| PivApplet.PivApplet.ProcessApdu | ifd-jcecard/src/piv/applet.rs:68-142 | one command changes the whole applet and answers as the step function says |
| PivApplet.PivApplet.Route | ifd-jcecard/src/piv/applet.rs:125-142 | the instruction decides |
| PivApplet.PivApplet.HandleSelect | ifd-jcecard/src/piv/applet.rs:167-189 | selection by the PIV name ends authentication and drops the witness; another name changes nothing |
| PivApplet.PivApplet.HandleVerify | ifd-jcecard/src/piv/applet.rs:192-248 | VERIFY with its query form, padding and counter |
| PivApplet.PivApplet.HandleChangeReferenceData | ifd-jcecard/src/piv/applet.rs:251-306 | change of PIN or PUK under its own counter |
| PivApplet.PivApplet.HandleResetRetryCounter | ifd-jcecard/src/piv/applet.rs:309-342 | the PUK sets a new PIN and refills both counters |
| PivApplet.PivApplet.HandlePutData | ifd-jcecard/src/piv/applet.rs:426-494 | the object named by 5C receives the 53 value |
| PivApplet.PivApplet.HandleGenerateKey | ifd-jcecard/src/piv/applet.rs:497-597 | generation needs the management key, a known slot and algorithm; the public key object is answered and, but for the management key's slot, stored with the key |
| PivApplet.PivApplet.HandleGeneralAuthenticate | ifd-jcecard/src/piv/applet.rs:600-663 | management exchange or key operation, with the PIN needed for all slots but card authentication |
| PivApplet.PivApplet.UseSlotKey | ifd-jcecard/src/piv/applet.rs:632-663 | slot, PIN and key checks before signing or deciphering by the stored algorithm |
| PivApplet.PivApplet.AuthenticateMgmtKey | ifd-jcecard/src/piv/applet.rs:666-725 | the two steps of the exchange and every way to fail |
| PivApplet.PivApplet.HandleGetResponse | ifd-jcecard/src/piv/applet.rs:820-842 | the next chunk of a buffered response, or a refusal |
| PivApplet.PivApplet.Reset | ifd-jcecard/src/piv/applet.rs:155-164 | a reset ends the session and keeps an open chain |
| PivRuns.EventKinds | ifd-jcecard/src/piv/applet.rs:68-142 | every command is a direct one, a PUT DATA that ends a chain, or mere chain traffic that changes nothing stored |
| PivManagement.ExchangeStep | ifd-jcecard/src/piv/applet.rs:666-725 | what any one event does to authentication and the pending witness |
| PivManagement.ManagedHasExchange | ifd-jcecard/src/piv/applet.rs:666-725 | an authenticated state has a matching exchange behind it, since the last SELECT or reset |
| PivManagement.ObjectsChangeManaged | ifd-jcecard/src/piv/applet.rs:426-539 | only PUT DATA and key generation change objects, and only when authenticated |
| PivManagement.ObjectsChangeAuthorised | ifd-jcecard/src/piv/applet.rs:426-539 | in every run a change of objects has an exchange since the last SELECT or reset whose host witness equals the one issued by an earlier request |
| PivManagement.WitnessUsedOnce | ifd-jcecard/src/piv/applet.rs:690-722 | between two attempts that meet a pending witness there is a new request, so a witness serves one attempt, right or wrong |
| PivExchange.RequestExactly | ifd-jcecard/src/piv/applet.rs:668-687 | a request issues the witness and answers its encryption under the stored key |
| PivExchange.AttemptExactly | ifd-jcecard/src/piv/applet.rs:689-722 | an attempt authenticates if and only if it repeats the witness and its challenge can be encrypted, which is the answer; every refusal has its status word, and the witness is used up |
| PivExchange.ManagedExactly | ifd-jcecard/src/piv/applet.rs:666-725 | an event leaves the card authenticated if and only if it is such an attempt, or the card was and no SELECT or reset came |
| PivExchange.ManagedHasSuccess | ifd-jcecard/src/piv/applet.rs:666-725 | in every run an authenticated card has such an attempt behind it |
| PivExchange.AnswerReads | ifd-jcecard/src/piv/applet.rs:681-684 | the eight encrypted bytes are read from either answer |
| PivExchange.HostAuthenticates | ifd-jcecard/src/piv/applet.rs:666-725 | a host that decrypts under the stored key completes request and attempt, and reads its own challenge encrypted |
| PivExchange.HostWrites | ifd-jcecard/src/piv/applet.rs:426-494 | such a host, not authenticated before, then writes any object of 1 to 65535 bytes in any chained split and reads it back |
| PivSecrets.SecretsStep | ifd-jcecard/src/piv/applet.rs:192-342 | what any one event does to both counters and secrets |
| PivSecrets.CountersBounded | ifd-jcecard/src/piv/applet.rs:192-342 | in every run both counters stay at three or below |
| PivSecrets.BlockedPukStays | ifd-jcecard/src/piv/applet.rs:251-342 | a blocked PUK stays blocked for good, and so does a PIN blocked with it |
| PivSecrets.BlockedPinUnblocked | ifd-jcecard/src/piv/applet.rs:309-342 | a blocked PIN comes back only by RESET RETRY COUNTER with the right PUK |
| PivSecrets.NoResponseChaining | ifd-jcecard/src/piv/applet.rs:820-842 | nothing ever fills the response buffer, so a direct GET RESPONSE is refused in every reachable state |
| PivSecrets.ResetForgetsChain | ifd-jcecard/src/piv/applet.rs:155-164 | after a reset no command can tell whether a chain was open if and only if none was |
| PivSecrets.ChangedPukUnblocks | ifd-jcecard/src/piv/applet.rs:251-342 | a new PUK is right for RESET RETRY COUNTER only with its own field, and with it if and only if the field has no FF |
| PivSecrets.ChangedPinVerifies | ifd-jcecard/src/piv/applet.rs:192-306 | a new PIN verifies with the field it was set by |
| PivPins.VerifyPinExactly | ifd-jcecard/src/piv/applet.rs:192-223 | VERIFY of the PIN is right exactly if the field holds the stored PIN up to the first FF; it sets the flag and refills, a wrong one only costs a try |
| PivPins.VerifyPukExactly | ifd-jcecard/src/piv/applet.rs:224-248 | VERIFY of the PUK compares all bytes and sets no flag |
| PivPins.ChangePinExactly | ifd-jcecard/src/piv/applet.rs:251-306 | the right old PIN stores what the second field holds; a wrong one costs a try and changes nothing |
| PivPins.ChangePukExactly | ifd-jcecard/src/piv/applet.rs:251-306 | the same for the PUK |
| PivPins.ResetExactly | ifd-jcecard/src/piv/applet.rs:309-342 | the right PUK, all eight bytes, sets the new PIN and refills both counters; a wrong one costs a try |
| PivPins.TriesExactly | ifd-jcecard/src/piv/applet.rs:192-342 | what any event does to both counters, and that PIN and PUK change only with the right old value or PUK |
| PivPins.ComparisonsBounded | ifd-jcecard/src/piv/applet.rs:192-306 | between right values and resets each comparison of the PIN costs exactly one try |
| PivPins.FlagExactly | ifd-jcecard/src/piv/applet.rs:192-223 | an event leaves the PIN verified if and only if it is a direct VERIFY of the right PIN with tries left, or it was and no SELECT or reset came |
| PivPins.FlagHasPin | ifd-jcecard/src/piv/applet.rs:192-223 | in every run a verified PIN has such a VERIFY behind it |
| PivPins.KeyUseHasPin | ifd-jcecard/src/piv/applet.rs:632-663 | in every run each successful operation with a key other than 9E has such a VERIFY behind it, with no SELECT or reset between |
| PivKeys.AnswerReads | ifd-jcecard/src/piv/applet.rs:762-773 | the result is read back from its hand-written 7C template if and only if it has at most 125 or 128 to 252 bytes |
| PivKeys.ObjectHasNoModulus | ifd-jcecard/src/crypto/rsa.rs:207-216 | get_modulus finds nothing in a public key object if and only if that has fewer than 32587 bytes |
| PivKeys.GeneratedRsaUnusable | ifd-jcecard/src/piv/applet.rs:542-567 | unless modulus and exponent together have 32574 bytes or more, no GENERAL AUTHENTICATE with a generated RSA key ever succeeds |
| PivKeys.RsaNeverWorks | ifd-jcecard/src/piv/applet.rs:542-567 | in every run from a new applet, with library keys of up to 32573 bytes, no GENERAL AUTHENTICATE with an RSA key succeeds |
| PivKeys.GeneratedEccSigns | ifd-jcecard/src/piv/applet.rs:570-597 | a generated elliptic-curve key signs whatever the library signs with it |
| PivKeys.UsePanicsExactly | ifd-jcecard/src/piv/applet.rs:632-663 | key use panics if and only if it is permitted and the RSA key can be read and holds a zero prime |
| PivAnswers.SelectExactly | ifd-jcecard/src/piv/applet.rs:167-189 | the PIV name ends authentication and tells the application; other kinds and names are refused without effect |
| PivAnswers.GetExactly | ifd-jcecard/src/piv/applet.rs:345-423 | GET DATA by any complete name, and each refusal |
| PivAnswers.PutRefusals | ifd-jcecard/src/piv/applet.rs:426-452 | PUT DATA without management key, parameters or name is refused without effect |
| PivAnswers.PutNamed | ifd-jcecard/src/piv/applet.rs:452-494 | with a name it refuses an incomplete value, then an unknown name, and otherwise stores under that name |
| PivAnswers.ValueComplete | ifd-jcecard/src/piv/applet.rs:452-478 | a value is complete if and only if it is 53, a length of one of three forms, and at least that many bytes |
| PivAnswers.ScanFinds | ifd-jcecard/src/piv/applet.rs:514-525 | the scan over written entries finds the first of tag 80 with one byte |
| PivAnswers.GenerateExactly | ifd-jcecard/src/piv/applet.rs:497-597 | every refusal of key generation in its order, and the answered public key otherwise |
| PivAnswers.UseExactly | ifd-jcecard/src/piv/applet.rs:632-760 | every refusal of key use in its order, and signing with the slot's elliptic-curve key otherwise |
| PivObjects.ValueRead | ifd-jcecard/src/piv/applet.rs:426-494 | the value of a canonical 53 object is extracted if and only if it is at most 65535 bytes |
| PivObjects.PutThenGet | ifd-jcecard/src/piv/applet.rs:345-494 | GET DATA returns the object that was put if and only if it has 1 to 65535 bytes; no other object, key or secret changes |
| PivObjects.ChainedPutIsPut | ifd-jcecard/src/piv/applet.rs:76-123 | a chained PUT DATA is one with all data and the first message's parameters |
| PivObjects.ChainBreaks | ifd-jcecard/src/piv/applet.rs:76-123 | another instruction breaks an open chain with 6985, and a chain of anything but PUT DATA ends with 6D00 |
| PivObjects.ChainedPutThenGet | ifd-jcecard/src/piv/applet.rs:76-123 | in any chained split an object of 1 to 65535 bytes comes back, and the others are unchanged |
| VirtualCard.VirtualCard.constructor | ifd-jcecard/src/lib.rs:106-117 | a new card holds both applets, has no power and no active applet |
| VirtualCard.VirtualCard.ProcessApdu | ifd-jcecard/src/lib.rs:120-163 | unpowered, unparsable, SELECT, or routed to the active applet alone |
| VirtualCard.VirtualCard.HandleSelect | ifd-jcecard/src/lib.rs:166-198 | which applet a name selects and what the others answer |
| VirtualCard.VirtualCard.PowerUp | ifd-jcecard/src/lib.rs:210-215 | power on deselects and touches no applet |
| VirtualCard.VirtualCard.PowerDown | ifd-jcecard/src/lib.rs:217-223 | power off deselects and ends both sessions |
| VirtualCard.VirtualCard.Reset | ifd-jcecard/src/lib.rs:225-232 | a reset deselects, ends both sessions and leaves the card powered |
| Routing.ActiveExactly | ifd-jcecard/src/lib.rs:166-232 | an event leaves an applet selected if and only if it names it, or it was selected and neither a power event nor the other name came |
| Routing.SelectedByName | ifd-jcecard/src/lib.rs:166-232 | in every stream the selected applet was selected by its name, with power on, and nothing deselected it since |
| Routing.RoutesExactly | ifd-jcecard/src/lib.rs:120-198 | which commands change which applet, and that its response is the answer |
| Routing.OwnAnswers | ifd-jcecard/src/lib.rs:120-198 | what the card answers without power, without an applet, to no command and to other SELECTs |
| Isolation.StepShares | ifd-jcecard/src/lib.rs:120-232 | an event changes each applet only by its own part of the event |
| Isolation.AppletsAreIsolated | ifd-jcecard/src/lib.rs:120-232 | in any interleaved stream each applet ends in the state, and gives the answers, of a run of only what concerns it |
| Isolation.UnpoweredIgnores | ifd-jcecard/src/lib.rs:120-124 | commands to an unpowered card change nothing |
| EndToEnd.BuiltReachesApplet | ifd-jcecard/src/lib.rs:120-163 | the bytes that the builder writes for a command bring exactly that command to the selected applet, and its response back |
| EndToEnd.KeySurvives | ifd-jcecard/src/lib.rs:120-232 | a stream of commands to both applets, power changes and resets that does not replace the signature key keeps it |
| EndToEnd.SignedOverTheWire | ifd-jcecard/src/lib.rs:120-232 | a host sends the built import of a key of distinct primes, any such stream follows, and then the built PSO:CDS; if nothing is missing and Le leaves room, the card returns the signature and 9000, and the signature verifies under (p*q, e) |

## Left out

- The second card slot (`ifd-jcecard/src/nitrokey/`): it wraps another project's firmware.
- Storage on disk, JSON, migration and file permissions: the model has the state in memory, and
  only the assignments of a factory reset.
- The reader handler's foreign entry points, locks, logging and the ATR.
- Elliptic-curve, Ed25519, X25519, Triple-DES and hash computations, RSA key generation and
  decryption, fingerprints: library calls or packet building, here functions or step inputs. What the
  applets check and encode around them is modelled.
- The validation of a reassembled RSA key by the library: the parameter `accepts` of
  `Rsa.DecodePrivateKey`; of it the model only fixes that a modulus of zero is refused.
- The algorithm information object (FA) is a constant parameter, and the replacement of invalid
  UTF-8 in cardholder texts a function; `OpenPgpObjects.PutThenGet` says when it matters.
- The twin applets, PIN manager and servers written in Python: they repeat the Rust state machine.
- Accessors that only forward a tag to the search (`get_aid` and its like), tag class helpers and
  printing.
- Card data, key slots and PIV objects are values inside the applet classes: updates in place below
  the applet, and aliasing between them, are not captured. Integer fields are natural numbers; the
  casts, wraps and saturations that a command can bring about are written out.
- OpenPgpComposite.CompositeAgrees: stated for composite objects below 2^32 bytes, the longest length the encoding can express.
- OpenPgpApplet.OpenPgpApplet.HandleGenerateKey: the generated key itself is any that the library may return; GenerateThenSign says which ones sign.
- OpenPgpApplet.OpenPgpApplet.HandlePsoDecipher: RSA decryption and key agreement are arbitrary functions of key and input.
- PivApplet.PivApplet.HandleGenerateKey: the generated key itself is any that the library may return.
- PivApplet.PivApplet.HandleGeneralAuthenticate: elliptic-curve signing and RSA decryption are arbitrary functions of key and input.
- OpenPgpImport.ImportRecovers: stated for header lists in the encoder's own length form and for RSA slots; other accepted encodings are covered by ImportEffect and OpenPgpPanics.SplitPanics only.

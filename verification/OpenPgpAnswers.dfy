/** What the OpenPGP applet answers where nothing is stored or computed, and every refusal. */
module OpenPgpAnswers {
  import opened Wrappers
  import opened ByteStrings
  import opened Apdu
  import opened OpenPgpCard
  import opened KeyObjects
  import opened OpenPgpKeys
  import opened OpenPgp
  import OpenPgpAuthority
  import OpenPgpImport
  import OpenPgpPanics
  import Tlv

  predicate IsStatus(r: Reply, s: State, sw1: Byte, sw2: Byte) { r == Reply(s, Response([], sw1, sw2)) }

  /** SELECT by the OpenPGP name answers 9000, other names 6A82, other kinds 6B00. */
  lemma SelectExactly(cmd: Apdu)
    ensures Select(cmd)
         == if cmd.p1 != 0x04 then Response([], 0x6B, 0x00)
            else if [0xD2, 0x76, 0x00, 0x01, 0x24, 0x01] <= cmd.data then Response([], 0x90, 0x00)
            else Response([], 0x6A, 0x82)
  {}

  /** GET CHALLENGE answers as many random bytes as Le asks for, eight without Le, 255 at most. */
  lemma ChallengeExactly(cmd: Apdu, env: Env)
    ensures Challenge(cmd, env)
         == if cmd.le == None then Response(env.random(8), 0x90, 0x00)
            else if cmd.le.value > 255 then Response([], 0x67, 0x00)
            else Response(env.random(cmd.le.value), 0x90, 0x00)
  {}

  /** Instructions that do not exist answer 6D00, and PSO with other parameters 6B00. */
  lemma UnknownCommands(c: Crypto, s: State, cmd: Apdu, env: Env)
    requires !s.card.terminated
    ensures cmd.ins !in {0xA4, 0xCA, 0x20, 0x24, 0x2C, 0xDA, 0xDB, 0x47, 0x2A, 0x88, 0x84, 0xE6, 0x44} ==>
              IsStatus(Dispatch(c, s, cmd, env), s, 0x6D, 0x00)
    ensures cmd.ins == 0x2A && P1P2(cmd) !in {0x9E9A, 0x8086} ==> IsStatus(Dispatch(c, s, cmd, env), s, 0x6B, 0x00)
  {
    hide GetData, VerifyPw, ChangePw, ResetPw, PutData, PutDataOdd, GenerateKey, Authenticate, Terminate, Activate;
  }

  /** CHANGE REFERENCE DATA: other reference bytes answer 6B00, and data that is not longer than the
      old PIN 6700. */
  lemma ChangeParameters(c: Crypto, s: State, cmd: Apdu)
    ensures cmd.p2 !in {0x81, 0x83} ==> IsStatus(ChangePw(c, s, cmd), s, 0x6B, 0x00)
    ensures cmd.p2 == 0x81 && |cmd.data| <= s.pins.pw1.length ==> IsStatus(ChangePw(c, s, cmd), s, 0x67, 0x00)
    ensures cmd.p2 == 0x83 && |cmd.data| <= s.pins.pw3.length ==> IsStatus(ChangePw(c, s, cmd), s, 0x67, 0x00)
  {}

  /** PUT DATA refuses bad algorithm attributes with 6A80 and other data of a wrong size with 6700. */
  lemma PutRefusals(c: Crypto, s: State, tag: nat, data: Bytes)
    requires OpenPgpAuthority.MayPut(s.security, tag)
    ensures 0xC1 <= tag <= 0xC3 && (data == [] || |data| < if data[0] == 0x01 then 6 else 2) ==>
              IsStatus(PutData(c, s, tag, data), s, 0x6A, 0x80)
    ensures (0xC7 <= tag <= 0xCC && |data| != 20) || (0xCE <= tag <= 0xD0 && |data| != 4) ==>
              IsStatus(PutData(c, s, tag, data), s, 0x67, 0x00)
  {
    hide AccessGranted, PutAccess, ReadTimestamp;
    OpenPgpAuthority.AccessIs(s.security, tag);
    if 0xC1 <= tag <= 0xD0 {
      assert tag in {0xC1, 0xC2, 0xC3, 0xC4, 0xC5, 0xC6, 0xC7, 0xC8, 0xC9, 0xCA, 0xCB, 0xCC, 0xCD, 0xCE, 0xCF,
                     0xD0};
    }
  }

  /** PUT DATA C4 stores the setting from the first byte, if there is one, and nothing else. */
  lemma SettingStored(c: Crypto, s: State, data: Bytes)
    requires s.security.pw3
    ensures PutData(c, s, 0x00C4, data)
         == Reply(if data == [] then s else s.(pins := s.pins.(validMultiple := data[0] != 0)),
                  Response([], 0x90, 0x00))
  {
    hide StoreObject;
  }

  // ---------------------------------------------------------------- import

  /** The odd PUT DATA is for 3FFF only and needs PW3. */
  lemma ImportParameters(c: Crypto, s: State, cmd: Apdu)
    ensures cmd.p1 != 0x3F || cmd.p2 != 0xFF ==> IsStatus(PutDataOdd(c, s, cmd), s, 0x6B, 0x00)
    ensures cmd.p1 == 0x3F && cmd.p2 == 0xFF && !s.security.pw3 ==> IsStatus(PutDataOdd(c, s, cmd), s, 0x69, 0x82)
  {
    hide ImportKey;
  }

  /** An RSA import is accepted exactly for a header list with slot, length template and key data
      whose nonzero lengths add up to the data's size; anything else answers 6A80 or panics. */
  lemma RsaImportExactly(c: Crypto, card: Card, data: Bytes)
    requires OpenPgpImport.Target(data).Some?
    requires card.Slot(OpenPgpImport.Target(data).value.0).algorithm.id == 0x01
    ensures var key, t := OpenPgpImport.Target(data).value.1, OpenPgpPanics.TemplateOf(data);
      var response := ImportKey(c, card, data).response;
      if t == None then response == Response([], 0x6A, 0x80)
      else
        var l := CrtLengths(t.value, Lengths(0, 0, 0));
        if l.e == 0 || l.p == 0 || l.q == 0 || (l.e + l.p + l.q) % 0x1_0000_0000_0000_0000 != |key| then
          response == Response([], 0x6A, 0x80)
        else if l.e + l.p + l.q >= 0x1_0000_0000_0000_0000 then response == Response([], 0x00, 0x00)
        else response == Response([], 0x90, 0x00)
  {
    hide Tlv.Forest, CrtSlot, Tlv.FirstWith, CrtLengths, SplitRsa, ImportEcc;
    var (name, key) := OpenPgpImport.Target(data).value;
    if OpenPgpPanics.TemplateOf(data).Some? {
      var t := OpenPgpPanics.TemplateOf(data).value;
      LengthsAreWords(t, Lengths(0, 0, 0));
      OpenPgpPanics.SplitPanics(card.Slot(name), CrtLengths(t, Lengths(0, 0, 0)), key);
      OpenPgpPanics.SplitErrors(card.Slot(name), CrtLengths(t, Lengths(0, 0, 0)), key);
    }
  }

  /** Without header list, slot or key data an import answers 6A80 and changes nothing. */
  lemma NoTarget(c: Crypto, card: Card, data: Bytes)
    requires OpenPgpImport.Target(data) == None
    ensures ImportKey(c, card, data) == Imported(card, Response([], 0x6A, 0x80))
  {
    hide Tlv.Forest, CrtSlot, Tlv.FirstWith, ImportRsa, ImportEcc;
  }

  // ---------------------------------------------------------------- generation

  /** The curves that keys are generated on. */
  predicate Generates(a: Algorithm) {
    || a.id == 0x16
    || (a.id == 0x12 && a.curveOid in {X25519, NIST_P256, NIST_P384, NIST_P521, SECP256K1})
    || (a.id == 0x13 && a.curveOid in {NIST_P256, NIST_P384, NIST_P521, SECP256K1})
  }

  /** GENERATE ASYMMETRIC KEY PAIR: its refusals in their order. Generating is accepted exactly with
      PW3 and an algorithm that exists, when the library has a key. */
  lemma GenerateExactly(c: Crypto, s: State, cmd: Apdu, env: Env)
    ensures var r := GenerateKey(c, s, cmd, env);
      if cmd.p1 !in {0x80, 0x81} then IsStatus(r, s, 0x6B, 0x00)
      else if cmd.data == [] || cmd.data[0] !in {0xB6, 0xB8, 0xA4} then IsStatus(r, s, 0x6A, 0x80)
      else
        var slot := if cmd.data[0] == 0xB6 then s.card.sig else if cmd.data[0] == 0xB8 then s.card.dec else s.card.aut;
        if cmd.p1 == 0x81 then slot.publicKey == [] ==> IsStatus(r, s, 0x6A, 0x88)
        else if !s.security.pw3 then IsStatus(r, s, 0x69, 0x82)
        else if slot.algorithm.id != 0x01 && !Generates(slot.algorithm) then IsStatus(r, s, 0x6A, 0x81)
        else if (if slot.algorithm.id == 0x01 then env.rsaKey == None else env.eccKey == None) then
          IsStatus(r, s, 0x64, 0x00)
        else r.response.sw1 in {0x90, 0x61}
  {
    hide PublicKey, FingerprintOf, NewRsaKey, NewEccKey, Generated;
    if cmd.p1 == 0x80 && GenerateSlot(cmd.data).Some? {
      GeneratedExactly(s.card.Slot(GenerateSlot(cmd.data).value).algorithm, env);
    }
  }

  lemma GeneratedExactly(a: Algorithm, env: Env)
    ensures Generated(a, env.rsaKey, env.eccKey).Ok?
       <==> if a.id == 0x01 then env.rsaKey.Some? else Generates(a) && env.eccKey.Some?
    ensures a.id != 0x01 && !Generates(a) ==> Generated(a, env.rsaKey, env.eccKey) == Err(NotSupported)
    ensures a.id == 0x01 || Generates(a) ==>
              Generated(a, env.rsaKey, env.eccKey).Err? ==> Generated(a, env.rsaKey, env.eccKey) == Err(OperationFailed)
  {
    hide NewRsaKey, NewEccKey;
  }
}

/** Stored RSA keys, the private exponent and PKCS#1 v1.5 signatures. */
module Rsa {
  import opened Wrappers
  import opened ByteStrings
  import opened NumberTheory

  datatype PrivateKey = PrivateKey(n: nat, e: nat, d: nat, p: nat, q: nat)

  /** `Underflow` is the panic of an unsigned subtraction, for a stored prime of 0. */
  datatype RsaError = InvalidKey | InvalidData | Underflow

  // ---------------------------------------------------------------- modular inverse

  /** An unsigned magnitude with a sign flag; zero may carry either flag. */
  datatype SignedNat = SignedNat(size: nat, negative: bool) {
    function Value(): int { if negative then 0 - size else size }
  }

  datatype GcdResult = GcdResult(gcd: nat, coefficient: SignedNat)

  /** x - q * y on magnitudes and flags. */
  function Minus(x: SignedNat, q: nat, y: SignedNat): SignedNat {
    var qy := q * y.size;
    if x.negative != y.negative then SignedNat(x.size + qy, x.negative)
    else if x.size >= qy then SignedNat(x.size - qy, x.negative)
    else SignedNat(qy - x.size, !x.negative)
  }

  /** Extended Euclid from remainders oldR and r with coefficients x and y. */
  function EuclidFrom(oldR: nat, r: nat, x: SignedNat, y: SignedNat): GcdResult
    decreases r
  {
    if r == 0 then GcdResult(oldR, x) else EuclidFrom(r, oldR % r, y, Minus(x, oldR / r, y))
  }

  const ZERO := SignedNat(0, false)
  const ONE := SignedNat(1, false)

  /** The inverse of a modulo m, if there is one. */
  function Inverse(a: nat, m: nat): Option<nat> {
    var found := EuclidFrom(m, a, ZERO, ONE);
    if found.gcd != 1 then None
    else if found.coefficient.negative then
      CoefficientBounded(a, m);
      Some(m - found.coefficient.size)
    else Some(found.coefficient.size)
  }

  /** What a division step keeps: the determinant, alternating signs and the two congruences. */
  ghost predicate Euclid(oldR: nat, r: nat, x: SignedNat, y: SignedNat, a: nat, m: nat) {
    && y.size * oldR + x.size * r == m
    && (x.size == 0 || y.size == 0 || x.negative != y.negative)
    && Congruent(x.Value() * a, oldR, m)
    && Congruent(y.Value() * a, r, m)
    && (oldR == 0 ==> m == 0 && !y.negative)
    && (x.negative || m >= 1 ==> x.size <= m)
  }

  /** The quotient, and the remainder as x - quotient * y. */
  method Divide(x: nat, y: nat) returns (quotient: nat, rest: nat)
    requires y > 0
    ensures quotient == x / y && rest == x % y
    ensures x == quotient * y + rest && rest < y
  {
    quotient := x / y;
    assert x == y * (x / y) + x % y;
    rest := x - quotient * y;
  }

  /** The three branches of the sign tracking compute the signed difference; beside a zero or
      with different signs they add magnitudes and keep the signs different. */
  lemma MinusIsDifference(x: SignedNat, q: nat, y: SignedNat)
    ensures var z := Minus(x, q, y);
      && z.Value() == x.Value() - q * y.Value()
      && (x.size == 0 || y.size == 0 || x.negative != y.negative ==>
            z.size == x.size + q * y.size && (z.size == 0 || y.size == 0 || z.negative != y.negative))
  {
    assert q * (0 - y.size) == 0 - q * y.size;
  }

  /** The same step by step, on unsigned numbers. */
  method SubtractSigned(oldS: nat, oldSNeg: bool, quotient: nat, s: nat, sNeg: bool)
    returns (newS: nat, newSNeg: bool)
    ensures SignedNat(newS, newSNeg) == Minus(SignedNat(oldS, oldSNeg), quotient, SignedNat(s, sNeg))
    ensures SignedNat(newS, newSNeg).Value() == SignedNat(oldS, oldSNeg).Value() - quotient * SignedNat(s, sNeg).Value()
    ensures oldS == 0 || s == 0 || oldSNeg != sNeg ==>
              newS == oldS + quotient * s && (newS == 0 || s == 0 || newSNeg != sNeg)
  {
    var qs := quotient * s;
    if oldSNeg == sNeg {
      if oldS >= qs {
        newS, newSNeg := oldS - qs, oldSNeg;
      } else {
        newS, newSNeg := qs - oldS, !oldSNeg;
      }
    } else {
      newS, newSNeg := oldS + qs, oldSNeg;
    }
    MinusIsDifference(SignedNat(oldS, oldSNeg), quotient, SignedNat(s, sNeg));
  }

  /** Extended Euclid on unsigned numbers with separate sign flags. Every subtraction here
      and in SubtractSigned is on naturals, so verification shows that none underflows. */
  method ModInverse(a: nat, m: nat) returns (result: Option<nat>)
    ensures result == Inverse(a, m)
    ensures result.None? <==> Gcd(a, m) != 1
    ensures result.Some? ==> Congruent(a * result.value, 1, m)
    ensures result.Some? && m >= 1 ==> result.value <= m
    ensures result.Some? && m >= 2 ==> result.value < m
  {
    hide Congruent, Gcd, Minus;
    var oldR: nat, r: nat, oldS: nat, s: nat := m, a, 0, 1;
    var oldSNeg, sNeg := false, false;
    while r != 0
      invariant EuclidFrom(oldR, r, SignedNat(oldS, oldSNeg), SignedNat(s, sNeg)) == EuclidFrom(m, a, ZERO, ONE)
      decreases r
    {
      var quotient, newR := Divide(oldR, r);
      var newS, newSNeg := SubtractSigned(oldS, oldSNeg, quotient, s, sNeg);
      oldR, r := r, newR;
      oldS, oldSNeg := s, sNeg;
      s, sNeg := newS, newSNeg;
    }
    InverseIsInverse(a, m);
    if oldR != 1 {
      return None;
    }
    CoefficientBounded(a, m);
    if oldSNeg {
      result := Some(m - oldS);
    } else {
      result := Some(oldS);
    }
  }

  lemma EuclidStart(a: nat, m: nat)
    ensures Gcd(m, a) == Gcd(a, m) && Euclid(m, a, ZERO, ONE, a, m)
  {
    GcdSymmetric(a, m);
    DividesBy(m, -1, 0 * a - m);
    DividesBy(m, 0, 1 * a - a);
  }

  /** One division step. The three branches of the sign tracking all add magnitudes: equal
      signs only occur beside a zero. */
  lemma EuclidStep(oldR: nat, r: nat, x: SignedNat, y: SignedNat, a: nat, m: nat)
    requires r > 0 && Euclid(oldR, r, x, y, a, m)
    ensures Euclid(r, oldR % r, y, Minus(x, oldR / r, y), a, m) && Gcd(r, oldR % r) == Gcd(oldR, r)
  {
    hide Minus, Congruent, Euclid;
    assert oldR == r * (oldR / r) + oldR % r;
    MinusIsDifference(x, oldR / r, y);
    EuclidKeeps(oldR, r, x, y, oldR / r, oldR % r, Minus(x, oldR / r, y), a, m);
  }

  lemma EuclidKeeps(oldR: nat, r: nat, x: SignedNat, y: SignedNat, q: nat, newR: nat, z: SignedNat, a: nat, m: nat)
    requires r > 0 && oldR == r * q + newR && Euclid(oldR, r, x, y, a, m)
    requires z.Value() == x.Value() - q * y.Value()
    requires x.size == 0 || y.size == 0 || x.negative != y.negative ==>
               z.size == x.size + q * y.size && (z.size == 0 || y.size == 0 || z.negative != y.negative)
    ensures Euclid(r, newR, y, z, a, m)
  {
    Determinant(oldR, r, x.size, y.size, q);
    StepCongruence(oldR, r, x.Value(), y.Value(), q, a, m);
    MagnitudeBound(y.size, oldR, x.size, r, m);
  }

  /** The run ends with the gcd and a coefficient for it. */
  lemma {:induction false} EuclidRuns(oldR: nat, r: nat, x: SignedNat, y: SignedNat, a: nat, m: nat)
    requires Euclid(oldR, r, x, y, a, m)
    ensures var found := EuclidFrom(oldR, r, x, y);
      && found.gcd == Gcd(oldR, r) && Congruent(found.coefficient.Value() * a, found.gcd, m)
      && (found.coefficient.negative || m >= 1 ==> found.coefficient.size <= m)
    decreases r
  {
    hide Congruent, Minus;
    if r > 0 {
      EuclidStep(oldR, r, x, y, a, m);
      EuclidRuns(r, oldR % r, y, Minus(x, oldR / r, y), a, m);
    }
  }

  lemma CoefficientBounded(a: nat, m: nat)
    ensures var z := EuclidFrom(m, a, ZERO, ONE).coefficient; z.negative || m >= 1 ==> z.size <= m
  {
    EuclidStart(a, m);
    EuclidRuns(m, a, ZERO, ONE, a, m);
  }

  lemma InverseIsInverse(a: nat, m: nat)
    ensures var r := Inverse(a, m);
      && (r.None? <==> Gcd(a, m) != 1)
      && (r.Some? ==> Congruent(a * r.value, 1, m))
      && (r.Some? && m >= 1 ==> r.value <= m)
      && (r.Some? && m >= 2 ==> r.value < m)
  {
    hide EuclidFrom, Congruent, Gcd;
    EuclidStart(a, m);
    EuclidRuns(m, a, ZERO, ONE, a, m);
    var found := EuclidFrom(m, a, ZERO, ONE);
    if found.gcd == 1 { InverseFound(found.coefficient, a, m); }
  }

  lemma Determinant(oldR: int, r: int, oldS: int, s: int, q: int)
    ensures (oldS + q * s) * r + s * (oldR - q * r) == s * oldR + oldS * r
  {
    assert (q * s) * r == s * (q * r);
  }

  lemma StepCongruence(oldR: int, r: int, so: int, sn: int, q: int, a: int, m: int)
    requires Congruent(so * a, oldR, m) && Congruent(sn * a, r, m)
    ensures Congruent((so - q * sn) * a, oldR - q * r, m)
  {
    DividesProduct(m, sn * a - r, q);
    DividesSum(m, so * a - oldR, (sn * a - r) * q);
    StepDifference(oldR, r, so, sn, q, a);
  }

  lemma StepDifference(oldR: int, r: int, so: int, sn: int, q: int, a: int)
    ensures (so * a - oldR) - (sn * a - r) * q == (so - q * sn) * a - (oldR - q * r)
  {
    assert (sn * a) * q == (q * sn) * a;
  }

  lemma MagnitudeBound(s: nat, oldR: nat, oldS: nat, r: nat, m: int)
    requires s * oldR + oldS * r == m
    ensures oldR >= 1 ==> s <= m
  {}

  lemma InverseFound(x: SignedNat, a: nat, m: nat)
    requires Congruent(x.Value() * a, 1, m)
    requires x.negative || m >= 1 ==> x.size <= m
    ensures Congruent(a * (if x.negative then m - x.size else x.size), 1, m)
    ensures m >= 2 ==> if x.negative then x.size > 0 else x.size < m
  {
    hide Congruent;
    if x.negative { Complement(x.size, a, m); }
    if x.size == 0 || x.size == m { NoInverse(x, a, m); }
  }

  lemma Complement(size: nat, a: nat, m: nat)
    requires Congruent((0 - size) * a, 1, m)
    ensures Congruent(a * (m - size), 1, m)
  {
    var v := (0 - size) * a;
    DividesBy(m, a, m * a);
    DividesSum(m, v - 1, m * a);
    assert a * (m - size) - 1 == (v - 1) + m * a;
  }

  /** A multiple of m is no inverse modulo m. */
  lemma NoInverse(x: SignedNat, a: nat, m: nat)
    requires Congruent(x.Value() * a, 1, m)
    requires x.size == 0 || x.size == m
    ensures m < 2
  {
    var y := x.Value() * a;
    var k: int := if x.size == 0 then 0 else SignedNat(1, x.negative).Value() * a;
    DividesBy(m, k, y);
    DividesSum(m, y, y - 1);
    if m >= 2 { NotDividesOne(m); }
  }

  lemma NotDividesOne(m: nat)
    requires m >= 2
    ensures !Divides(m, 1)
  {
    DividesMod(m, 1);
    RemainderUnique(1, m, 0, 1);
  }

  // ---------------------------------------------------------------- stored keys

  function Prefixed(s: Bytes): Bytes { U16(|s|) + s }

  /** e, p and q, each behind a 16-bit length. */
  function PrivateBlob(e: Bytes, p: Bytes, q: Bytes): Bytes { Prefixed(e) + (Prefixed(p) + Prefixed(q)) }

  /** n and e, each behind a 16-bit length. */
  function PublicBlob(n: Bytes, e: Bytes): Bytes { Prefixed(n) + Prefixed(e) }

  /** One length-prefixed field and what follows it. */
  function ReadField(data: Bytes): Option<(Bytes, Bytes)> {
    if |data| < 2 then None
    else
      var k := ReadU16(data[0], data[1]);
      if 2 + k > |data| then None else Some((data[2..2 + k], data[2 + k..]))
  }

  function ReadFields(data: Bytes): Option<(Bytes, Bytes, Bytes)> {
    match ReadField(data)
    case None => None
    case Some((e, r)) =>
      match ReadField(r)
      case None => None
      case Some((p, r')) =>
        match ReadField(r')
        case None => None
        case Some((q, _)) => Some((e, p, q))
  }

  lemma ReadPrefixed(s: Bytes, rest: Bytes)
    requires |s| < 65536
    ensures ReadField(Prefixed(s) + rest) == Some((s, rest))
  {
    U16Reads(|s|);
    var d := Prefixed(s) + rest;
    assert d[0] == U16(|s|)[0] && d[1] == U16(|s|)[1];
    assert d[2..2 + |s|] == s && d[2 + |s|..] == rest;
  }

  /** A field that reads is short: 16 bits say its length. */
  lemma FieldIsShort(data: Bytes)
    ensures ReadField(data).Some? ==> |ReadField(data).value.0| < 65536
  {}

  /** The stored private key reads back exactly when no component outgrows its length field. */
  lemma PrivateBlobReads(e: Bytes, p: Bytes, q: Bytes)
    ensures ReadFields(PrivateBlob(e, p, q)) == Some((e, p, q)) <==> |e| < 65536 && |p| < 65536 && |q| < 65536
  {
    hide ReadField, Prefixed;
    FieldIsShort(PrivateBlob(e, p, q));
    if |e| < 65536 {
      ReadPrefixed(e, Prefixed(p) + Prefixed(q));
      FieldIsShort(Prefixed(p) + Prefixed(q));
      if |p| < 65536 {
        ReadPrefixed(p, Prefixed(q));
        FieldIsShort(Prefixed(q));
        assert Prefixed(q) + [] == Prefixed(q);
        if |q| < 65536 { ReadPrefixed(q, []); }
      }
    }
  }

  function GetModulus(data: Bytes): Option<Bytes> {
    if |data| < 4 then None
    else
      var n := ReadU16(data[0], data[1]);
      if |data| < 2 + n then None else Some(data[2..2 + n])
  }

  function GetExponent(data: Bytes): Option<Bytes> {
    if |data| < 4 then None
    else
      var offset := 2 + ReadU16(data[0], data[1]);
      if |data| < offset + 2 then None
      else
        var e := ReadU16(data[offset], data[offset + 1]);
        if |data| < offset + 2 + e then None else Some(data[offset + 2..offset + 2 + e])
  }

  /** The modulus reads back exactly when its length fits 16 bits; then so does a short exponent. */
  lemma PublicBlobReads(n: Bytes, e: Bytes)
    ensures GetModulus(PublicBlob(n, e)) == Some(n) <==> |n| < 65536
    ensures |n| < 65536 ==> (GetExponent(PublicBlob(n, e)) == Some(e) <==> |e| < 65536)
  {
    if |n| < 65536 {
      ReadPrefixed(n, Prefixed(e));
      var d := PublicBlob(n, e);
      U16Reads(|n|);
      assert d[..2] == U16(|n|);
      if |e| < 65536 {
        ReadPrefixed(e, []);
        assert d[2 + |n|..] == Prefixed(e) == Prefixed(e) + [];
        var o := 2 + |n|;
        assert d[o] == d[o..][0] && d[o + 1] == d[o..][1];
        assert d[o + 2..o + 2 + |e|] == d[o..][2..2 + |e|];
      }
    }
  }

  method EncodePrivateKey(key: PrivateKey) returns (data: Bytes)
    ensures data == PrivateBlob(ToBytes(key.e), ToBytes(key.p), ToBytes(key.q))
  {
    var e, p, q := ToBytes(key.e), ToBytes(key.p), ToBytes(key.q);
    data := [];
    data := data + U16(|e|);
    data := data + e;
    data := data + U16(|p|);
    data := data + p;
    data := data + U16(|q|);
    data := data + q;
  }

  method EncodePublicKey(n: nat, e: nat) returns (data: Bytes)
    ensures data == PublicBlob(ToBytes(n), ToBytes(e))
  {
    data := U16(|ToBytes(n)|);
    data := data + ToBytes(n);
    data := data + U16(|ToBytes(e)|);
    data := data + ToBytes(e);
  }

  function Totient(p: nat, q: nat): (phi: nat)
    requires p >= 1 && q >= 1
  {
    Monotone(p - 1, 0, q - 1);
    (p - 1) * (q - 1)
  }

  ghost predicate HasInverse(e: nat, d: nat, phi: nat) {
    Congruent(e * d, 1, phi) && (phi >= 2 ==> d < phi)
  }

  /** The outcome of decoding: the stored numbers, the inverse of e as d, and the library's
      own validation (`accepts`) last. */
  ghost predicate Decodes(data: Bytes, modulus: Bytes, accepts: PrivateKey -> bool, r: Result<PrivateKey, RsaError>) {
    match ReadFields(data)
    case None => r == Err(InvalidKey)
    case Some((eb, pb, qb)) =>
      var e, p, q := ToNat(eb), ToNat(pb), ToNat(qb);
      if p == 0 || q == 0 then r == Err(Underflow)
      else
        var phi := Totient(p, q);
        if Gcd(e, phi) != 1 then r == Err(InvalidKey)
        else exists d: nat ::
          && HasInverse(e, d, phi)
          && var key := PrivateKey(ToNat(modulus), e, d, p, q);
             r == if accepts(key) then Ok(key) else Err(InvalidKey)
  }

  /** The three fields by an advancing offset. */
  method SplitFields(data: Bytes) returns (r: Option<(Bytes, Bytes, Bytes)>)
    ensures r == ReadFields(data)
  {
    hide ReadU16;
    if |data| < 6 {
      ShortBlob(data);
      return None;
    }
    var offset := 0;
    var eLen := ReadU16(data[offset], data[offset + 1]);
    offset := offset + 2;
    if offset + eLen > |data| { return None; }
    var e := data[offset..offset + eLen];
    offset := offset + eLen;

    if offset + 2 > |data| { return None; }
    var pLen := ReadU16(data[offset], data[offset + 1]);
    FieldAt(data, offset);
    offset := offset + 2;
    if offset + pLen > |data| { return None; }
    var p := data[offset..offset + pLen];
    offset := offset + pLen;

    if offset + 2 > |data| { return None; }
    var qLen := ReadU16(data[offset], data[offset + 1]);
    FieldAt(data, offset);
    offset := offset + 2;
    if offset + qLen > |data| { return None; }
    r := Some((e, p, data[offset..offset + qLen]));
  }

  /** Decoding as a function: what DecodePrivateKey computes. */
  function Decoded(data: Bytes, modulus: Bytes, accepts: PrivateKey -> bool): Result<PrivateKey, RsaError> {
    match ReadFields(data)
    case None => Err(InvalidKey)
    case Some((eb, pb, qb)) =>
      var e, p, q := ToNat(eb), ToNat(pb), ToNat(qb);
      if p == 0 || q == 0 then Err(Underflow)
      else
        match Inverse(e, Totient(p, q))
        case None => Err(InvalidKey)
        case Some(d) =>
          var key := PrivateKey(ToNat(modulus), e, d, p, q);
          if accepts(key) then Ok(key) else Err(InvalidKey)
  }

  lemma DecodedDecodes(data: Bytes, modulus: Bytes, accepts: PrivateKey -> bool)
    ensures Decodes(data, modulus, accepts, Decoded(data, modulus, accepts))
  {
    hide ReadFields, Inverse, Congruent, Gcd;
    if ReadFields(data).Some? {
      var (eb, pb, qb) := ReadFields(data).value;
      var e, p, q := ToNat(eb), ToNat(pb), ToNat(qb);
      if p > 0 && q > 0 {
        InverseIsInverse(e, Totient(p, q));
        var d := Inverse(e, Totient(p, q));
        if d.Some? { assert HasInverse(e, d.value, Totient(p, q)); }
      }
    }
  }

  method DecodePrivateKey(data: Bytes, modulus: Bytes, accepts: PrivateKey -> bool)
    returns (r: Result<PrivateKey, RsaError>)
    ensures r == Decoded(data, modulus, accepts)
    ensures Decodes(data, modulus, accepts, r)
  {
    hide Inverse, Gcd, Congruent, Decodes, ReadFields;
    DecodedDecodes(data, modulus, accepts);
    var fields := SplitFields(data);
    if fields.None? { return Err(InvalidKey); }
    var e, p, q := ToNat(fields.value.0), ToNat(fields.value.1), ToNat(fields.value.2);
    var n := ToNat(modulus);
    if p == 0 || q == 0 { return Err(Underflow); }
    var phi := Totient(p, q);
    var d := ModInverse(e, phi);
    if d.None? { return Err(InvalidKey); }
    var key := PrivateKey(n, e, d.value, p, q);
    r := if accepts(key) then Ok(key) else Err(InvalidKey);
  }

  /** Reading a field behind an offset is reading it from the rest. */
  lemma FieldAt(data: Bytes, offset: nat)
    requires offset + 2 <= |data|
    ensures
      var k := ReadU16(data[offset], data[offset + 1]);
      ReadField(data[offset..])
      == if offset + 2 + k > |data| then None
         else Some((data[offset + 2..offset + 2 + k], data[offset + 2 + k..]))
  {
    var k := ReadU16(data[offset], data[offset + 1]);
    if offset + 2 + k <= |data| {
      assert data[offset..][2..2 + k] == data[offset + 2..offset + 2 + k];
      assert data[offset..][2 + k..] == data[offset + 2 + k..];
    }
  }

  lemma ShortBlob(data: Bytes)
    requires |data| < 6
    ensures ReadFields(data).None?
  {
    if ReadField(data).Some? {
      var r := ReadField(data).value.1;
      assert |r| < 4;
    }
  }

  // ---------------------------------------------------------------- signatures

  function KeySize(n: nat): nat { |Digits(n)| }

  /** The PKCS#1 v1.5 signature block of RFC 8017, section 9.2. */
  function Padded(k: nat, info: Bytes): Bytes
    requires |info| + 11 <= k
  {
    [0x00, 0x01] + seq(k - |info| - 3, _ => 0xFF) + [0x00] + info
  }

  /** The index of the first byte from i on that is not FF. */
  function PaddingEnd(block: Bytes, i: nat): nat
    requires i <= |block|
    decreases |block| - i
  {
    if i < |block| && block[i] == 0xFF then PaddingEnd(block, i + 1) else i
  }

  /** A verifier's reading of the block. */
  function Unpad(block: Bytes): Option<Bytes> {
    if |block| < 11 || block[0] != 0x00 || block[1] != 0x01 then None
    else
      var i := PaddingEnd(block, 2);
      if 10 <= i < |block| && block[i] == 0x00 then Some(block[i + 1..]) else None
  }

  /** x as exactly k bytes (RFC 8017, section 4.1). */
  function FixedBytes(x: nat, k: nat): Bytes
    requires |Digits(x)| <= k
  {
    Zeros(k - |Digits(x)|) + Digits(x)
  }

  /** RSASSA verification: the signature to the power e modulo n, unpadded. */
  function Verify(n: nat, e: nat, signature: Bytes): Option<Bytes>
    requires n > 0
  {
    var x := Pow(ToNat(signature), e) % n;
    if |Digits(x)| > KeySize(n) then None else Unpad(FixedBytes(x, KeySize(n)))
  }

  /** RSASSA signing (RFC 8017, section 8.2.1): the block to the power d modulo n, as k bytes. */
  function Signature(key: PrivateKey, info: Bytes): Result<Bytes, RsaError> {
    var k := KeySize(key.n);
    if |info| + 11 > k then Err(InvalidData)
    else
      var x: nat := Pow(ToNat(Padded(k, info)), key.d) % key.n;
      ResidueFits(x, key.n);
      Ok(FixedBytes(x, k))
  }

  lemma ResidueFits(x: nat, n: nat)
    requires x < n
    ensures |Digits(x)| <= KeySize(n)
  {
    DigitsBounds(n);
    DigitsFit(x, KeySize(n));
  }

  lemma FixedBytesValue(x: nat, k: nat)
    requires |Digits(x)| <= k
    ensures |FixedBytes(x, k)| == k && ToNat(FixedBytes(x, k)) == x
  {
    DigitsValue(x);
    LeadingZeros(k - |Digits(x)|, Digits(x));
  }

  method SignPkcs1v15(key: PrivateKey, info: Bytes) returns (r: Result<Bytes, RsaError>)
    ensures r == Signature(key, info)
    ensures r == Err(InvalidData) <==> |info| + 11 > KeySize(key.n)
    ensures r.Err? ==> r == Err(InvalidData)
    ensures r.Ok? ==> |r.value| == KeySize(key.n)
                      && ToNat(r.value) == Pow(ToNat(Padded(KeySize(key.n), info)), key.d) % key.n
  {
    hide Pow, ToNat, Power256;
    var keySize := KeySize(key.n);
    if |info| + 11 > keySize {
      return Err(InvalidData);
    }
    var paddingLen := keySize - |info| - 3;
    var padded: Bytes := [];
    padded := padded + [0x00];
    padded := padded + [0x01];
    padded := padded + seq(paddingLen, _ => 0xFF);
    padded := padded + [0x00];
    padded := padded + info;
    assert padded == Padded(keySize, info);

    var m := ToNat(padded);
    var signature: nat := Pow(m, key.d) % key.n;
    var bytes: Bytes := ToBytes(signature);
    ToBytesValue(signature);
    DigitsBounds(key.n);
    DigitsFit(signature, keySize);
    while |bytes| < keySize
      invariant |bytes| <= keySize && ToNat(bytes) == signature
    {
      LeadingZeros(1, bytes);
      assert Zeros(1) + bytes == [0] + bytes;
      bytes := [0] + bytes;
    }
    ResidueFits(signature, key.n);
    FixedBytesValue(signature, keySize);
    ToNatInjective(bytes, FixedBytes(signature, keySize));
    r := Ok(bytes);
  }

  lemma {:induction false} PaddingEndAt(block: Bytes, i: nat, j: nat)
    requires i <= j < |block| && block[j] != 0xFF
    requires forall t :: i <= t < j ==> block[t] == 0xFF
    ensures PaddingEnd(block, i) == j
    decreases j - i
  {
    if i < j { PaddingEndAt(block, i + 1, j); }
  }

  /** The DigestInfo is recovered from its block, so blocks determine it. */
  lemma UnpadPadded(k: nat, info: Bytes)
    requires |info| + 11 <= k
    ensures |Padded(k, info)| == k && Unpad(Padded(k, info)) == Some(info)
  {
    var block := Padded(k, info);
    PaddingEndAt(block, 2, k - |info| - 1);
    assert block[k - |info|..] == info;
  }

  /** A block of KeySize(n) bytes starting with zero is below n. */
  lemma PaddedBelow(n: nat, info: Bytes)
    requires |info| + 11 <= KeySize(n)
    ensures ToNat(Padded(KeySize(n), info)) < n
  {
    var k := KeySize(n);
    var block := Padded(k, info);
    assert block == Zeros(1) + block[1..];
    LeadingZeros(1, block[1..]);
    ToNatBound(block[1..]);
    DigitsBounds(n);
  }

  lemma FixedBytesOf(block: Bytes)
    ensures |Digits(ToNat(block))| <= |block| && FixedBytes(ToNat(block), |block|) == block
  {
    var x := ToNat(block);
    ToNatBound(block);
    DigitsFit(x, |block|);
    DigitsValue(x);
    LeadingZeros(|block| - |Digits(x)|, Digits(x));
    ToNatInjective(FixedBytes(x, |block|), block);
  }

  lemma TotientExponent(p: nat, q: nat, x: nat)
    requires Prime(p) && Prime(q) && p != q && Congruent(x, 1, (p - 1) * (q - 1))
    ensures x > 0
  {
    var phi := (p - 1) * (q - 1);
    Monotone(p - 1, 1, q - 1);
    Monotone(q - 1, 1, p - 1);
    assert phi >= 2;
    CongruentMod(x, 1, phi);
    RemainderUnique(1, phi, 0, 1);
    RemainderUnique(0, phi, 0, 0);
  }

  /** n is the product of two different primes. */
  ghost predicate RsaKey(p: nat, q: nat, n: nat) { Prime(p) && Prime(q) && p != q && n > 0 && n == p * q }

  /** Verification undoes signing: the DigestInfo comes back from any signature made with
      distinct primes and inverse exponents. */
  lemma SignThenVerify(key: PrivateKey, info: Bytes, signature: Bytes)
    requires RsaKey(key.p, key.q, key.n)
    requires Congruent(key.e * key.d, 1, (key.p - 1) * (key.q - 1))
    requires |info| + 11 <= KeySize(key.n)
    requires ToNat(signature) == Pow(ToNat(Padded(KeySize(key.n), info)), key.d) % key.n
    ensures Pow(ToNat(signature), key.e) % key.n == ToNat(Padded(KeySize(key.n), info))
    ensures Verify(key.n, key.e, signature) == Some(info)
  {
    var n, k := key.n, KeySize(key.n);
    var block := Padded(k, info);
    var m := ToNat(block);
    var s := Pow(m, key.d);
    PaddedBelow(n, info);
    TotientExponent(key.p, key.q, key.e * key.d);
    RsaIdentity(key.p, key.q, key.e, key.d, m);
    RemainderUnique(s % n, n, 0, s % n);
    CongruentMod(s % n, s, n);
    PowCongruent(s % n, s, key.e, n);
    CongruentTrans(Pow(s % n, key.e), Pow(s, key.e), m, n);
    CongruentMod(Pow(s % n, key.e), m, n);
    RemainderUnique(m, n, 0, m);
    UnpadPadded(k, info);
    FixedBytesOf(block);
  }

  lemma DecodedKey(data: Bytes, modulus: Bytes, accepts: PrivateKey -> bool, r: Result<PrivateKey, RsaError>)
    requires Decodes(data, modulus, accepts, r) && r.Ok?
    ensures ReadFields(data).Some? && r.value.n == ToNat(modulus)
    ensures var fields := ReadFields(data).value;
            r.value.e == ToNat(fields.0) && r.value.p == ToNat(fields.1) && r.value.q == ToNat(fields.2)
    ensures r.value.p >= 1 && r.value.q >= 1
    ensures Congruent(r.value.e * r.value.d, 1, (r.value.p - 1) * (r.value.q - 1))
  {}

  /** What is known of a signature made with stored blobs: it has the size of the public key
      and, if that belongs to the stored primes, verifies under it. */
  ghost predicate SignedStored(privateData: Bytes, publicData: Bytes, info: Bytes, signature: Bytes) {
    && ReadFields(privateData).Some? && GetModulus(publicData).Some?
    && var (e, p, q), n := ReadFields(privateData).value, ToNat(GetModulus(publicData).value);
       |signature| == KeySize(n)
       && (RsaKey(ToNat(p), ToNat(q), n) ==> Verify(n, ToNat(e), signature) == Some(info))
  }

  /** The key that the stored blobs of a slot stand for. */
  function StoredKey(privateData: Bytes, publicData: Bytes, accepts: PrivateKey -> bool)
    : Result<PrivateKey, RsaError>
  {
    match GetModulus(publicData)
    case None => Err(InvalidKey)
    case Some(modulus) => Decoded(privateData, modulus, accepts)
  }

  /** The blobs can be read and one of the stored primes is zero. */
  predicate ZeroPrime(privateData: Bytes, publicData: Bytes) {
    && GetModulus(publicData).Some? && ReadFields(privateData).Some?
    && var (_, p, q) := ReadFields(privateData).value; ToNat(p) == 0 || ToNat(q) == 0
  }

  /** Decoding underflows exactly for a readable blob with a zero prime; with stored blobs so do
      signing, raw signing and the key for deciphering. */
  lemma UnderflowsExactly(privateData: Bytes, publicData: Bytes, modulus: Bytes, info: Bytes,
                          accepts: PrivateKey -> bool)
    ensures Decoded(privateData, modulus, accepts) == Err(Underflow)
       <==> ReadFields(privateData).Some?
            && var (_, p, q) := ReadFields(privateData).value; ToNat(p) == 0 || ToNat(q) == 0
    ensures StoredKey(privateData, publicData, accepts) == Err(Underflow) <==> ZeroPrime(privateData, publicData)
    ensures SignatureStored(privateData, publicData, info, accepts) == Err(Underflow)
       <==> ZeroPrime(privateData, publicData)
    ensures RawSignatureStored(privateData, publicData, info, accepts) == Err(Underflow)
       <==> ZeroPrime(privateData, publicData)
  {
    hide ReadFields, GetModulus, ToNat, Inverse, Padded, FixedBytes, Pow, KeySize, RawSignature;
    if GetModulus(publicData).Some? {
      assert Decoded(privateData, GetModulus(publicData).value, accepts) == Err(Underflow)
        <==> ZeroPrime(privateData, publicData);
    }
  }

  /** Signing with stored blobs. */
  function SignatureStored(privateData: Bytes, publicData: Bytes, info: Bytes, accepts: PrivateKey -> bool)
    : Result<Bytes, RsaError>
  {
    match StoredKey(privateData, publicData, accepts) case Err(e) => Err(e) case Ok(key) => Signature(key, info)
  }

  /** PSO:CDS on an RSA slot: modulus from the public blob, key from the private blob,
      then the padded signature. */
  method SignStored(privateData: Bytes, publicData: Bytes, info: Bytes, accepts: PrivateKey -> bool)
    returns (r: Result<Bytes, RsaError>)
    ensures r == SignatureStored(privateData, publicData, info, accepts)
    ensures r.Ok? ==> SignedStored(privateData, publicData, info, r.value)
  {
    hide Decoded, Signature, Decodes, SignedStored, GetModulus;
    SignatureIsSigned(privateData, publicData, info, accepts);
    var modulus := GetModulus(publicData);
    if modulus.None? { return Err(InvalidKey); }
    var key := DecodePrivateKey(privateData, modulus.value, accepts);
    if key.Err? { return Err(key.error); }
    r := SignPkcs1v15(key.value, info);
  }

  /** Whatever is signed with stored blobs verifies under the stored public key. */
  lemma SignatureIsSigned(privateData: Bytes, publicData: Bytes, info: Bytes, accepts: PrivateKey -> bool)
    ensures var r := SignatureStored(privateData, publicData, info, accepts);
            r.Ok? ==> SignedStored(privateData, publicData, info, r.value)
  {
    hide Decoded, Decodes, GetModulus, ReadFields, Verify, Pow, ToNat, Padded, FixedBytes, Congruent, Prime;
    var key := StoredKey(privateData, publicData, accepts);
    if key.Ok? && Signature(key.value, info).Ok? {
      var modulus := GetModulus(publicData).value;
      DecodedDecodes(privateData, modulus, accepts);
      DecodedKey(privateData, modulus, accepts, Decoded(privateData, modulus, accepts));
      var k := KeySize(key.value.n);
      var x: nat := Pow(ToNat(Padded(k, info)), key.value.d) % key.value.n;
      ResidueFits(x, key.value.n);
      FixedBytesValue(x, k);
      if RsaKey(key.value.p, key.value.q, key.value.n) { SignThenVerify(key.value, info, FixedBytes(x, k)); }
    }
  }

  /** The exponent has an inverse and the library accepts the reassembled key. */
  predicate Usable(n: nat, e: nat, p: nat, q: nat, accepts: PrivateKey -> bool)
    requires p >= 1 && q >= 1
  {
    var d := Inverse(e, Totient(p, q));
    d.Some? && accepts(PrivateKey(n, e, d.value, p, q))
  }

  /** When stored blobs sign, by what they hold. */
  lemma SignsExactly(privateData: Bytes, publicData: Bytes, e: Bytes, p: Bytes, q: Bytes, n: Bytes, info: Bytes,
                     accepts: PrivateKey -> bool)
    requires ReadFields(privateData) == Some((e, p, q)) && GetModulus(publicData) == Some(n)
    requires ToNat(p) >= 1 && ToNat(q) >= 1
    ensures SignatureStored(privateData, publicData, info, accepts).Ok?
       <==> Usable(ToNat(n), ToNat(e), ToNat(p), ToNat(q), accepts) && |info| + 11 <= KeySize(ToNat(n))
    ensures Inverse(ToNat(e), Totient(ToNat(p), ToNat(q))).Some?
       <==> Gcd(ToNat(e), Totient(ToNat(p), ToNat(q))) == 1
  {
    hide ReadFields, GetModulus, ToNat, Gcd, Inverse, Padded, FixedBytes, Pow, KeySize;
    InverseIsInverse(ToNat(e), Totient(ToNat(p), ToNat(q)));
  }

  // ---------------------------------------------------------------- raw signatures

  /** `size().div_ceil(8)`: the size is already in bytes, so results are filled to an eighth of it. */
  function RawWidth(n: nat): nat { (KeySize(n) + 7) / 8 }

  function AtLeast(k: nat, s: Bytes): Bytes { if |s| >= k then s else Zeros(k - |s|) + s }

  /** The data as a number to the power d modulo n, as few bytes as possible but RawWidth(n). */
  function RawSignature(key: PrivateKey, data: Bytes): Bytes
    requires key.n > 0
  {
    AtLeast(RawWidth(key.n), ToBytes(Pow(ToNat(data), key.d) % key.n))
  }

  method RawSign(key: PrivateKey, data: Bytes) returns (bytes: Bytes)
    requires key.n > 0
    ensures bytes == RawSignature(key, data)
  {
    hide Pow, ToNat, ByteStrings.ToBytes;
    var signature: nat := Pow(ToNat(data), key.d) % key.n;
    var keySize := RawWidth(key.n);
    bytes := ByteStrings.ToBytes(signature);
    ghost var minimal := bytes;
    assert bytes == Zeros(0) + minimal;
    while |bytes| < keySize
      invariant |minimal| <= |bytes| && (|bytes| <= keySize || bytes == minimal)
      invariant bytes == Zeros(|bytes| - |minimal|) + minimal
    {
      assert [0] + Zeros(|bytes| - |minimal|) == Zeros(|bytes| + 1 - |minimal|);
      bytes := [0] + bytes;
    }
    assert |minimal| >= keySize ==> bytes == minimal;
  }

  /** For a key of distinct primes the raw signature opens to the data modulo n; it has the
      key's size exactly if its number needs that many bytes, since the filling is too short. */
  lemma RawSignatureOpens(key: PrivateKey, data: Bytes)
    requires RsaKey(key.p, key.q, key.n)
    requires Congruent(key.e * key.d, 1, (key.p - 1) * (key.q - 1))
    ensures var s := RawSignature(key, data);
      && Pow(ToNat(s), key.e) % key.n == ToNat(data) % key.n
      && (|s| == KeySize(key.n) <==> KeySize(key.n) == 1 || ToNat(s) >= Power256(KeySize(key.n) - 1))
  {
    hide Prime;
    var m, n, k := ToNat(data), key.n, KeySize(key.n);
    PowNonNegative(m, key.d);
    var power: nat := Pow(m, key.d);
    var x: nat := power % n;
    TotientExponent(key.p, key.q, key.e * key.d);
    RsaIdentity(key.p, key.q, key.e, key.d, m);
    RawOpens(power, x, key.e, m, n);
    AtLeastValue(RawWidth(n), x);
    RawLength(x, n);
  }

  lemma RawOpens(power: nat, x: nat, e: nat, m: nat, n: nat)
    requires n > 0 && x == power % n && Congruent(Pow(power, e), m, n)
    ensures Pow(x, e) % n == m % n
  {
    RemainderUnique(x, n, 0, x);
    CongruentMod(x, power, n);
    PowCongruent(x, power, e, n);
    CongruentTrans(Pow(x, e), Pow(power, e), m, n);
    CongruentMod(Pow(x, e), m, n);
  }

  lemma AtLeastValue(k: nat, x: nat)
    ensures ToNat(AtLeast(k, ByteStrings.ToBytes(x))) == x
  {
    ToBytesValue(x);
    var s := ByteStrings.ToBytes(x);
    if |s| < k { LeadingZeros(k - |s|, s); }
  }

  lemma RawLength(x: nat, n: nat)
    requires x < n
    ensures var k := KeySize(n);
      |AtLeast(RawWidth(n), ByteStrings.ToBytes(x))| == k <==> k == 1 || x >= Power256(k - 1)
  {
    hide Power256;
    var k := KeySize(n);
    DigitsBounds(n);
    ResidueFits(x, n);
    assert k >= 1;
    DigitsBounds(x);
    if x > 0 {
      if x < Power256(k - 1) { DigitsFit(x, k - 1); }
      if x >= Power256(k - 1) && |Digits(x)| < k { PowerMonotone(|Digits(x)|, k - 1); }
    } else if k > 1 {
      PowerMonotone(0, k - 1);
    }
  }

  /** INTERNAL AUTHENTICATE and PIV signing with stored blobs; a modulus of zero is refused by
      the library that the key is built with. */
  function RawSignatureStored(privateData: Bytes, publicData: Bytes, data: Bytes, accepts: PrivateKey -> bool)
    : Result<Bytes, RsaError>
  {
    match StoredKey(privateData, publicData, accepts)
    case Err(e) => Err(e)
    case Ok(key) => if key.n == 0 then Err(InvalidKey) else Ok(RawSignature(key, data))
  }

  /** With stored distinct primes the raw signature opens under the stored public key. */
  lemma RawStoredOpens(privateData: Bytes, publicData: Bytes, e: Bytes, p: Bytes, q: Bytes, data: Bytes,
                       accepts: PrivateKey -> bool)
    requires ReadFields(privateData) == Some((e, p, q)) && GetModulus(publicData).Some?
    requires var n := ToNat(GetModulus(publicData).value); RsaKey(ToNat(p), ToNat(q), n)
    ensures var r, n := RawSignatureStored(privateData, publicData, data, accepts), ToNat(GetModulus(publicData).value);
            r.Ok? ==> Pow(ToNat(r.value), ToNat(e)) % n == ToNat(data) % n
  {
    hide Decoded, Decodes, GetModulus, ReadFields, Pow, ToNat, RawSignature, Congruent, RsaKey;
    var modulus := GetModulus(publicData).value;
    var key := StoredKey(privateData, publicData, accepts);
    if key.Ok? {
      DecodedDecodes(privateData, modulus, accepts);
      DecodedKey(privateData, modulus, accepts, Decoded(privateData, modulus, accepts));
      assert RsaKey(key.value.p, key.value.q, key.value.n);
      RawSignatureOpens(key.value, data);
    }
  }

  /** When stored blobs sign raw, with which error they do not, and the size and range of the result. */
  lemma RawExactly(privateData: Bytes, publicData: Bytes, e: Bytes, p: Bytes, q: Bytes, n: Bytes, data: Bytes,
                   accepts: PrivateKey -> bool)
    requires ReadFields(privateData) == Some((e, p, q)) && GetModulus(publicData) == Some(n)
    requires ToNat(p) >= 1 && ToNat(q) >= 1 && ToNat(n) > 0
    ensures var r := RawSignatureStored(privateData, publicData, data, accepts);
      && (r.Ok? <==> Usable(ToNat(n), ToNat(e), ToNat(p), ToNat(q), accepts))
      && (r.Err? ==> r.error == InvalidKey)
      && (r.Ok? ==> ToNat(r.value) < ToNat(n)
                    && r.value == AtLeast((KeySize(ToNat(n)) + 7) / 8, ToBytes(ToNat(r.value))))
  {
    hide ReadFields, GetModulus, ToNat, Inverse, Pow, KeySize, ToBytes, AtLeast;
    var key := StoredKey(privateData, publicData, accepts);
    if key.Ok? {
      AtLeastValue(RawWidth(key.value.n), Pow(ToNat(data), key.value.d) % key.value.n);
    }
  }

  method RawSignStored(privateData: Bytes, publicData: Bytes, data: Bytes, accepts: PrivateKey -> bool)
    returns (r: Result<Bytes, RsaError>)
    ensures r == RawSignatureStored(privateData, publicData, data, accepts)
  {
    hide Decoded, Decodes, RawSignature, GetModulus;
    var modulus := GetModulus(publicData);
    if modulus.None? { return Err(InvalidKey); }
    var key := DecodePrivateKey(privateData, modulus.value, accepts);
    if key.Err? { return Err(key.error); }
    if key.value.n == 0 { return Err(InvalidKey); }
    var signature := RawSign(key.value, data);
    r := Ok(signature);
  }
}

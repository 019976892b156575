/** Bytes, 16-bit lengths and big-endian integers. */
module ByteStrings {
  type Byte = x: int | 0 <= x < 256

  type Bytes = seq<Byte>

  /** Bits of a byte: bit 0x20 marks a constructed tag, bit 0x10 a chained CLA. */
  predicate Bit20(b: Byte) { b / 32 % 2 == 1 }

  predicate Bit10(b: Byte) { b / 16 % 2 == 1 }

  /** `(len as u16).to_be_bytes()`: the cast wraps at 65536. */
  function U16(n: nat): Bytes { [n / 256 % 256, n % 256] }

  function ReadU16(hi: Byte, lo: Byte): nat { hi * 256 + lo }

  function ReadU24(a: Byte, b: Byte, c: Byte): nat { a * 65536 + b * 256 + c }

  function Power256(k: nat): nat { if k == 0 then 1 else 256 * Power256(k - 1) }

  /** `BigUint::from_bytes_be`. */
  function ToNat(s: Bytes): nat {
    if |s| == 0 then 0 else 256 * ToNat(s[..|s| - 1]) + s[|s| - 1]
  }

  /** The base-256 digits of n, most significant first; none for zero. */
  function Digits(n: nat): Bytes {
    if n == 0 then [] else Digits(n / 256) + [n % 256]
  }

  /** `BigUint::to_bytes_be`: zero is one zero byte. */
  function ToBytes(n: nat): Bytes { if n == 0 then [0] else Digits(n) }

  function Zeros(k: nat): Bytes { seq(k, _ => 0) }

  lemma {:induction false} DigitsValue(n: nat)
    ensures ToNat(Digits(n)) == n
  {
    if n > 0 {
      DigitsValue(n / 256);
      assert Digits(n)[..|Digits(n)| - 1] == Digits(n / 256);
    }
  }

  lemma ToBytesValue(n: nat)
    ensures |ToBytes(n)| >= 1 && ToNat(ToBytes(n)) == n
  {
    DigitsValue(n);
    if n == 0 { assert ToNat([0]) == 256 * ToNat([0][..0]) + 0; }
  }

  lemma {:induction false} ToNatBound(s: Bytes)
    ensures ToNat(s) < Power256(|s|)
  {
    if |s| > 0 { ToNatBound(s[..|s| - 1]); }
  }

  lemma {:induction false} DigitsBounds(n: nat)
    ensures n < Power256(|Digits(n)|)
    ensures n > 0 ==> |Digits(n)| >= 1 && Power256(|Digits(n)| - 1) <= n
  {
    if n > 0 {
      DigitsBounds(n / 256);
      assert |Digits(n)| == |Digits(n / 256)| + 1;
    }
  }

  lemma {:induction false} PowerMonotone(i: nat, j: nat)
    requires i <= j
    ensures Power256(i) <= Power256(j)
  {
    if i < j { PowerMonotone(i, j - 1); }
  }

  /** A number that fits in k bytes has at most k digits. */
  lemma DigitsFit(n: nat, k: nat)
    requires n < Power256(k)
    ensures |Digits(n)| <= k
  {
    DigitsBounds(n);
    PowerMonotone(k, if n > 0 && k < |Digits(n)| then |Digits(n)| - 1 else k);
  }

  lemma {:induction false} LeadingZeros(k: nat, s: Bytes)
    ensures ToNat(Zeros(k) + s) == ToNat(s)
  {
    if |s| > 0 {
      LeadingZeros(k, s[..|s| - 1]);
      assert (Zeros(k) + s)[..k + |s| - 1] == Zeros(k) + s[..|s| - 1];
    } else if k > 0 {
      LeadingZeros(k - 1, []);
      assert Zeros(k) + s == Zeros(k - 1) + [0];
      assert (Zeros(k) + s)[..k - 1] == Zeros(k - 1) + [];
    }
  }

  lemma {:induction false} ToNatInjective(s: Bytes, t: Bytes)
    requires |s| == |t| && ToNat(s) == ToNat(t)
    ensures s == t
  {
    if |s| > 0 {
      var n := |s| - 1;
      ToNatInjective(s[..n], t[..n]);
      assert s == s[..n] + [s[n]] && t == t[..n] + [t[n]];
    }
  }

  /** Reading back a 16-bit length prefix returns the length modulo 65536. */
  lemma U16Reads(n: nat)
    ensures |U16(n)| == 2 && ReadU16(U16(n)[0], U16(n)[1]) == n % 65536
    ensures n < 65536 ==> n % 65536 == n
  {
    assert n == 65536 * (n / 65536) + n % 65536;
    assert (n / 256) % 256 == n % 65536 / 256;
  }

  lemma DropDrop(s: Bytes, i: nat, j: nat)
    requires i + j <= |s|
    ensures s[i..][j..] == s[i + j..]
  {}
}

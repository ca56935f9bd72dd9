/**
 The arithmetic below the byte codec. Shifts, `|` and masks are defined bit by bit, on numbers that are
 wide enough, and shown to be the multiplication, addition and remainder that they stand for: a shift by
 eight bits is one byte, and values without a common bit are added by `|`. A number is then a list of
 bytes in either order, of any width: the list gives the number back modulo its width, its beginning is
 the list of the number without its low bytes, most significant first, or without its high bytes, least
 significant first, and each byte is the one that the codec's shift and mask select.
 */
module Bits {

  type byte = x: nat | x < 256

  // ---- Bits ---------------------------------------------------------------------------------------

  function Pow2(k: nat): (p: nat)
    ensures p > 0
  {
    if k == 0 then 1 else 2 * Pow2(k - 1)
  }

  /** `v << bits`, on numbers wide enough. */
  function ShiftLeft(v: nat, bits: nat): nat {
    if bits == 0 then v else 2 * ShiftLeft(v, bits - 1)
  }

  /** `v >> bits`. */
  function ShiftRight(v: nat, bits: nat): nat {
    if bits == 0 then v else ShiftRight(v / 2, bits - 1)
  }

  /** `a | b`, bit by bit. */
  function Or(a: nat, b: nat): nat {
    if a == 0 && b == 0 then 0 else 2 * Or(a / 2, b / 2) + (if a % 2 == 1 || b % 2 == 1 then 1 else 0)
  }

  lemma {:induction false} OrZero(b: nat)
    ensures Or(0, b) == b && Or(b, 0) == b
  {
    if b > 0 { OrZero(b / 2); }
  }

  /** Values without a common bit: one above bit `k`, the other below it. */
  lemma {:induction false} OrDisjoint(a: nat, b: nat, k: nat)
    requires b < Pow2(k)
    ensures Or(ShiftLeft(a, k), b) == ShiftLeft(a, k) + b == Or(b, ShiftLeft(a, k))
  {
    if k == 0 { OrZero(a); } else { OrDisjoint(a, b / 2, k - 1); }
  }

  lemma {:induction false} ShiftLeftAdds(v: nat, a: nat, b: nat)
    ensures ShiftLeft(ShiftLeft(v, a), b) == ShiftLeft(v, a + b)
  {
    if b > 0 { ShiftLeftAdds(v, a, b - 1); }
  }

  lemma {:induction false} ShiftRightAdds(v: nat, a: nat, b: nat)
    ensures ShiftRight(ShiftRight(v, a), b) == ShiftRight(v, a + b)
  {
    if a > 0 { ShiftRightAdds(v / 2, a - 1, b); }
  }

  lemma {:induction false} ShiftLeftSum(v: nat, w: nat, k: nat)
    ensures ShiftLeft(v + w, k) == ShiftLeft(v, k) + ShiftLeft(w, k)
  {
    if k > 0 { ShiftLeftSum(v, w, k - 1); }
  }

  lemma FourBits(v: nat)
    ensures ShiftLeft(v, 4) == 16 * v && ShiftRight(v, 4) == v / 16
  {
    assert ShiftLeft(v, 1) == 2 * v && ShiftLeft(v, 2) == 4 * v;
    assert ShiftLeft(v, 3) == 8 * v;
    assert ShiftRight(v, 4) == ShiftRight(v / 2, 3) == ShiftRight(v / 2 / 2, 2);
    assert ShiftRight(v / 2 / 2, 2) == ShiftRight(v / 2 / 2 / 2, 1) == v / 2 / 2 / 2 / 2;
  }

  /** A shift by eight is by a factor of 256. */
  lemma EightBits(v: nat)
    ensures ShiftLeft(v, 8) == 256 * v && ShiftRight(v, 8) == v / 256
  {
    FourBits(v);
    FourBits(16 * v);
    FourBits(v / 16);
    ShiftLeftAdds(v, 4, 4);
    ShiftRightAdds(v, 4, 4);
  }

  lemma {:induction false} Pow2IsShift(k: nat)
    ensures Pow2(k) == ShiftLeft(1, k)
  {
    if k > 0 { Pow2IsShift(k - 1); }
  }

  /** The weight of the byte above `bytes` others. */
  function Radix(bytes: nat): (p: nat)
    ensures p > 0
  {
    Pow2(8 * bytes)
  }

  lemma RadixNext(bytes: nat)
    ensures Radix(bytes + 1) == 256 * Radix(bytes) && Radix(0) == 1
  {
    Pow2IsShift(8 * bytes);
    Pow2IsShift(8 * (bytes + 1));
    ShiftLeftAdds(1, 8 * bytes, 8);
    EightBits(Radix(bytes));
  }

  /** Shifting out whole bytes, one byte first. */
  lemma ShiftByte(v: nat, bytes: nat)
    ensures ShiftRight(v / 256, 8 * bytes) == ShiftRight(v, 8 * (bytes + 1))
    ensures ShiftLeft(256 * v, 8 * bytes) == ShiftLeft(v, 8 * (bytes + 1)) == 256 * ShiftLeft(v, 8 * bytes)
  {
    EightBits(v);
    EightBits(ShiftLeft(v, 8 * bytes));
    ShiftRightAdds(v, 8, 8 * bytes);
    ShiftLeftAdds(v, 8, 8 * bytes);
    ShiftLeftAdds(v, 8 * bytes, 8);
  }

  lemma Below(m: nat, a: nat, b: nat, r: nat)
    requires a < b && r < m
    ensures m * a + r < m * b
  {
    var d := b - a - 1;
    assert b == a + 1 + d;
    assert m * b == m * a + m + m * d;
  }

  lemma DivUnique(m: nat, a: nat, b: nat, r: nat, s: nat)
    requires r < m && s < m && m * a + r == m * b + s
    ensures a == b && r == s
  {
    if a < b { Below(m, a, b, r); }
    if b < a { Below(m, b, a, s); }
  }

  lemma Remainder(v: nat, m: nat)
    requires m > 0
    ensures v == m * (v / m) + v % m && v / m >= 0
  {
  }

  lemma Factor(m: nat, x: nat)
    ensures (256 * m) * x == 256 * (m * x)
  {
  }

  /** The low byte, and the bytes above it. */
  lemma ModStep(v: nat, m: nat)
    requires m > 0
    ensures v % (256 * m) == v % 256 + 256 * (v / 256 % m)
  {
    var q := v / 256;
    Remainder(q, m);
    Factor(m, q / m);
    Remainder(v, 256 * m);
    DivUnique(256 * m, v / (256 * m), q / m, v % (256 * m), 256 * (q % m) + v % 256);
  }

  // ---- Values as bytes ----------------------------------------------------------------------------

  /** The low `n` bytes of `v`, most significant first. */
  function BigBytes(v: nat, n: nat): (s: seq<byte>)
    ensures |s| == n
  {
    if n == 0 then [] else BigBytes(v / 256, n - 1) + [v % 256]
  }

  /** The low `n` bytes of `v`, least significant first. */
  function LittleBytes(v: nat, n: nat): (s: seq<byte>)
    ensures |s| == n
  {
    if n == 0 then [] else [v % 256] + LittleBytes(v / 256, n - 1)
  }

  function BigValue(s: seq<byte>): nat {
    if s == [] then 0 else 256 * BigValue(s[..|s| - 1]) + s[|s| - 1]
  }

  function LittleValue(s: seq<byte>): nat {
    if s == [] then 0 else s[0] + 256 * LittleValue(s[1..])
  }

  lemma {:induction false} BigRoundTrip(v: nat, n: nat)
    ensures BigValue(BigBytes(v, n)) == v % Radix(n)
  {
    if n > 0 {
      BigRoundTrip(v / 256, n - 1);
      assert BigBytes(v, n)[..n - 1] == BigBytes(v / 256, n - 1);
      RadixNext(n - 1);
      ModStep(v, Radix(n - 1));
    }
  }

  lemma {:induction false} LittleRoundTrip(v: nat, n: nat)
    ensures LittleValue(LittleBytes(v, n)) == v % Radix(n)
  {
    if n > 0 {
      LittleRoundTrip(v / 256, n - 1);
      assert LittleBytes(v, n)[1..] == LittleBytes(v / 256, n - 1);
      RadixNext(n - 1);
      ModStep(v, Radix(n - 1));
    }
  }

  /** The leading bytes of a big-endian value are those of the value without its low bytes. */
  lemma {:induction false} BigPrefix(v: nat, n: nat, k: nat)
    requires k <= n
    ensures BigBytes(v, n)[..k] == BigBytes(ShiftRight(v, 8 * (n - k)), k)
    decreases n
  {
    if k < n {
      assert BigBytes(v, n)[..k] == BigBytes(v / 256, n - 1)[..k];
      BigPrefix(v / 256, n - 1, k);
      ShiftByte(v, n - 1 - k);
    }
  }

  lemma {:induction false} LittlePrefix(v: nat, n: nat, k: nat)
    requires k <= n
    ensures LittleBytes(v, n)[..k] == LittleBytes(v, k)
    decreases n
  {
    if k > 0 {
      LittlePrefix(v / 256, n - 1, k - 1);
      assert LittleBytes(v, n)[..k] == [v % 256] + LittleBytes(v / 256, n - 1)[..k - 1];
    }
  }

  /** The byte that `(val >> shift) & 0xff` writes, most significant first. */
  lemma BigAt(v: nat, n: nat, j: nat)
    requires j < n
    ensures BigBytes(v, n)[j] == ShiftRight(v, 8 * (n - 1 - j)) % 256
  {
    BigPrefix(v, n, j + 1);
    assert BigBytes(v, n)[j] == BigBytes(v, n)[..j + 1][j];
  }

  /** The byte that `(val >> shift) & 0xff` writes, least significant first. */
  lemma {:induction false} LittleAt(v: nat, n: nat, j: nat)
    requires j < n
    ensures LittleBytes(v, n)[j] == ShiftRight(v, 8 * j) % 256
    decreases n
  {
    if j > 0 {
      LittleAt(v / 256, n - 1, j - 1);
      ShiftByte(v, j - 1);
    }
  }

  lemma BigAppend(s: seq<byte>, x: byte)
    ensures BigValue(s + [x]) == 256 * BigValue(s) + x
  {
    assert (s + [x])[..|s|] == s;
  }

  lemma {:induction false} LittleAppend(s: seq<byte>, x: byte)
    ensures LittleValue(s + [x]) == LittleValue(s) + ShiftLeft(x, 8 * |s|)
    ensures LittleValue(s) < Radix(|s|)
  {
    if s == [] {
      assert ([x])[1..] == [];
    } else {
      assert (s + [x])[1..] == s[1..] + [x];
      LittleAppend(s[1..], x);
      RadixNext(|s| - 1);
      ShiftByte(x, |s| - 1);
    }
  }

  // ---- Remainders and shifts ----------------------------------------------------------------------

  lemma SmallMod(v: nat, m: nat)
    requires v < m
    ensures v % m == v
  {
  }

  lemma {:induction false} ShiftRightMod(v: nat, a: nat, b: nat)
    ensures ShiftRight(v % Pow2(a + b), b) == ShiftRight(v, b) % Pow2(a)
  {
    if b > 0 {
      HalfOfMod(v, Pow2(a + b - 1));
      ShiftRightMod(v / 2, a, b - 1);
    }
  }

  lemma HalfOfMod(v: nat, m: nat)
    requires m > 0
    ensures v % (2 * m) / 2 == v / 2 % m
  {
    HalfMod(v, m);
  }

  /** Shifting right and back clears the low bits. */
  lemma {:induction false} ShiftClears(v: nat, k: nat)
    ensures ShiftLeft(ShiftRight(v, k), k) == v - v % Pow2(k)
  {
    if k > 0 {
      ShiftClears(v / 2, k - 1);
      HalfMod(v, Pow2(k - 1));
    }
  }

  lemma HalfMod(v: nat, m: nat)
    requires m > 0
    ensures v % (2 * m) == v % 2 + 2 * (v / 2 % m)
  {
    var q := v / 2;
    Remainder(q, m);
    assert (2 * m) * (q / m) == 2 * (m * (q / m));
    Remainder(v, 2 * m);
    DivUnique(2 * m, v / (2 * m), q / m, v % (2 * m), 2 * (q % m) + v % 2);
  }

  lemma {:induction false} ShiftLeftBelow(x: byte, k: nat)
    ensures ShiftLeft(x, k) < Pow2(k + 8)
  {
    if k == 0 {
      EightBits(1);
      Pow2IsShift(8);
    } else {
      ShiftLeftBelow(x, k - 1);
    }
  }

  lemma {:induction false} ShiftZero(k: nat)
    ensures ShiftLeft(0, k) == 0
  {
    if k > 0 { ShiftZero(k - 1); }
  }
}

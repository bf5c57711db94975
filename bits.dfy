/**
 * JavaScript's bitwise operators on numbers. Every operand of `&`, `|`, `^`,
 * `~`, `<<` and `>>` is first converted to a signed 32-bit integer (ToInt32),
 * the operation is done on the 32-bit two's-complement pattern, and the
 * result is read back as a signed 32-bit integer. The emulator relies on these
 * operators throughout, on values that it never masks to 8 or 16 bits.
 */
module Bits {

  /** 2 to the power n. */
  function Pow2(n: nat): (r: nat)
    ensures r >= 1
    ensures n > 0 ==> r % 2 == 0
  {
    if n == 0 then 1 else 2 * Pow2(n - 1)
  }

  const Pow31: int := 0x8000_0000
  const Pow32: int := 0x1_0000_0000

  /** Bit k of the (unbounded) two's-complement pattern of v. */
  predicate Bit(v: int, k: nat)
    decreases k
  {
    if k == 0 then v % 2 == 1 else Bit(v / 2, k - 1)
  }

  /** The unsigned 32-bit pattern of v (ToUint32). */
  function ToUint32(v: int): (r: int)
    ensures 0 <= r < Pow32
  {
    v % Pow32
  }

  /** The signed 32-bit integer with the same low 32 bits as v (ToInt32). */
  function ToInt32(v: int): (r: int)
    ensures -Pow31 <= r < Pow31
  {
    var m := v % Pow32;
    if m >= Pow31 then m - Pow32 else m
  }

  /** Bitwise and, or and exclusive or of two naturals, bit by bit from the least significant. */
  function NatAnd(x: nat, y: nat): nat
  {
    if x == 0 || y == 0 then 0
    else 2 * NatAnd(x / 2, y / 2) + (if x % 2 == 1 && y % 2 == 1 then 1 else 0)
  }

  function NatOr(x: nat, y: nat): nat
  {
    if x == 0 then y
    else if y == 0 then x
    else 2 * NatOr(x / 2, y / 2) + (if x % 2 == 1 || y % 2 == 1 then 1 else 0)
  }

  function NatXor(x: nat, y: nat): nat
  {
    if x == 0 then y
    else if y == 0 then x
    else 2 * NatXor(x / 2, y / 2) + (if x % 2 != y % 2 then 1 else 0)
  }

  /** JavaScript `a & b`. */
  function And(a: int, b: int): int {
    ToInt32(NatAnd(ToUint32(a), ToUint32(b)))
  }

  /** JavaScript `a | b`. */
  function Or(a: int, b: int): int {
    ToInt32(NatOr(ToUint32(a), ToUint32(b)))
  }

  /** JavaScript `a ^ b`. */
  function Xor(a: int, b: int): int {
    ToInt32(NatXor(ToUint32(a), ToUint32(b)))
  }

  /** JavaScript `~a`: the complement of every one of the 32 bits. */
  function Not(a: int): int {
    ToInt32(Pow32 - 1 - ToUint32(a))
  }

  /** JavaScript `a << n` for a shift count below 32. */
  function Shl(a: int, n: nat): int
    requires n < 32
  {
    ToInt32(ToUint32(a) * Pow2(n))
  }

  /** JavaScript `a >> n` (sign-propagating) for a shift count below 32. */
  function Shr(a: int, n: nat): int
    requires n < 32
  {
    ToInt32(a) / Pow2(n)
  }

  // ---------------------------------------------------------------------
  // Arithmetic facts used below

  lemma Pow2Values()
    ensures Pow2(0) == 1 && Pow2(1) == 2 && Pow2(2) == 4 && Pow2(3) == 8 && Pow2(4) == 16
    ensures Pow2(5) == 32 && Pow2(6) == 64 && Pow2(7) == 128 && Pow2(8) == 256
    ensures Pow2(31) == Pow31 && Pow2(32) == Pow32
  {
    assert Pow2(8) == 256;
    assert Pow2(16) == 0x1_0000;
    assert Pow2(24) == 0x100_0000;
    assert Pow2(31) == Pow31;
  }

  lemma {:induction false} Pow2Add(a: nat, b: nat)
    ensures Pow2(a + b) == Pow2(a) * Pow2(b)
  {
    if a > 0 {
      Pow2Add(a - 1, b);
      MulAssoc(2, Pow2(a - 1), Pow2(b));
    }
  }

  lemma {:induction false} Pow2Monotone(a: nat, b: nat)
    requires a <= b
    ensures Pow2(a) <= Pow2(b)
  {
    if a < b {
      Pow2Monotone(a, b - 1);
    }
  }

  lemma MulAssoc(a: int, b: int, c: int)
    ensures (a * b) * c == a * (b * c)
  {
  }

  lemma MulDistrib(a: int, b: int, c: int)
    ensures a * (b + c) == a * b + a * c && (b + c) * a == b * a + c * a
  {
  }

  lemma MulMonotone(a: int, b: int, c: int)
    requires a <= b && 0 <= c
    ensures a * c <= b * c
  {
    MulDistrib(c, b - a, a);
  }

  lemma MulAtLeast(a: int, d: int)
    requires a >= 1 && d > 0
    ensures a * d >= d
  {
  }

  /** Quotient and remainder are the unique pair with x == q * d + r and 0 <= r < d. */
  lemma DivModUnique(x: int, d: int, q: int, r: int)
    requires d > 0 && 0 <= r < d && x == q * d + r
    ensures x / d == q && x % d == r
  {
    var q0, r0 := x / d, x % d;
    assert x == q0 * d + r0;
    MulDistrib(d, q, -q0);
    assert (q - q0) * d == r0 - r;
    if q > q0 {
      MulAtLeast(q - q0, d);
      assert false;
    }
    if q < q0 {
      MulAtLeast(q0 - q, d);
      assert false;
    }
  }

  /** The remainder modulo 2m, from the remainder of the halved value. */
  lemma ModTwice(z: int, m: int)
    requires m > 0
    ensures z % (2 * m) == 2 * ((z / 2) % m) + z % 2
    ensures z / (2 * m) == (z / 2) / m
  {
    var h := z / 2;
    var q, r := h / m, h % m;
    assert h == q * m + r;
    assert z == q * (2 * m) + (2 * r + z % 2);
    DivModUnique(z, 2 * m, q, 2 * r + z % 2);
  }

  /** Adding a multiple of 2^n changes no bit below n. */
  lemma {:induction false} BitOfShifted(v: int, q: int, n: nat, k: nat)
    requires k < n
    ensures Bit(v + Pow2(n) * q, k) == Bit(v, k)
    decreases k
  {
    var w := Pow2(n - 1) * q;
    assert Pow2(n) * q == 2 * w;
    DivModUnique(v + 2 * w, 2, v / 2 + w, v % 2);
    if k > 0 {
      BitOfShifted(v / 2, q, n - 1, k - 1);
    }
  }

  /** Bit k is the parity of v divided by 2^k. */
  lemma {:induction false} BitByDivision(v: int, k: nat)
    ensures Bit(v, k) == ((v / Pow2(k)) % 2 == 1)
    decreases k
  {
    if k > 0 {
      BitByDivision(v / 2, k - 1);
      ModTwice(v, Pow2(k - 1));
    }
  }

  // ---------------------------------------------------------------------
  // Bitwise operations, bit by bit

  lemma {:induction false} BitOfNatAnd(x: nat, y: nat, k: nat)
    ensures Bit(NatAnd(x, y), k) == (Bit(x, k) && Bit(y, k))
    decreases k
  {
    if k > 0 {
      if x != 0 && y != 0 {
        BitOfNatAnd(x / 2, y / 2, k - 1);
      } else {
        ZeroHasNoBits(k);
      }
    }
  }

  /** Dropping the last binary digit of 2q + b gives q back. */
  lemma HalveDigit(q: int, b: int)
    requires 0 <= b <= 1
    ensures (2 * q + b) / 2 == q
  {
  }

  lemma {:induction false} ZeroHasNoBits(k: nat)
    ensures !Bit(0, k)
  {
    if k > 0 {
      ZeroHasNoBits(k - 1);
    }
  }

  lemma {:induction false} BitOfNatOr(x: nat, y: nat, k: nat)
    ensures Bit(NatOr(x, y), k) == (Bit(x, k) || Bit(y, k))
    decreases k
  {
    if k > 0 {
      if x != 0 && y != 0 {
        HalveDigit(NatOr(x / 2, y / 2), if x % 2 == 1 || y % 2 == 1 then 1 else 0);
        BitOfNatOr(x / 2, y / 2, k - 1);
      } else {
        ZeroHasNoBits(k);
      }
    }
  }

  lemma {:induction false} BitOfNatXor(x: nat, y: nat, k: nat)
    ensures Bit(NatXor(x, y), k) == (Bit(x, k) != Bit(y, k))
    decreases k
  {
    if k > 0 {
      if x != 0 && y != 0 {
        BitOfNatXor(x / 2, y / 2, k - 1);
      } else {
        ZeroHasNoBits(k);
      }
    }
  }

  /** The three bitwise operations keep values below a power of two. */
  lemma {:induction false} NatOpsBounded(x: nat, y: nat, n: nat)
    requires x < Pow2(n) && y < Pow2(n)
    ensures NatAnd(x, y) < Pow2(n) && NatOr(x, y) < Pow2(n) && NatXor(x, y) < Pow2(n)
    ensures NatAnd(x, y) <= x
  {
    if n > 0 && x != 0 && y != 0 {
      NatOpsBounded(x / 2, y / 2, n - 1);
    }
  }

  /** Two naturals below 2^n with the same n low bits are equal. */
  lemma {:induction false} SameBits(x: nat, y: nat, n: nat)
    requires x < Pow2(n) && y < Pow2(n)
    requires forall k: nat | k < n :: Bit(x, k) == Bit(y, k)
    ensures x == y
  {
    if n > 0 {
      forall k: nat | k < n - 1 ensures Bit(x / 2, k) == Bit(y / 2, k) {
        assert Bit(x, k + 1) == Bit(y, k + 1);
      }
      SameBits(x / 2, y / 2, n - 1);
      assert Bit(x, 0) == Bit(y, 0);
    } else {
      assert x == 0 && y == 0;
    }
  }

  /** The bits of a power of two. */
  lemma {:induction false} BitOfPow2(j: nat, k: nat)
    ensures Bit(Pow2(j), k) == (j == k)
  {
    if k > 0 {
      if j > 0 {
        BitOfPow2(j - 1, k - 1);
      } else {
        ZeroHasNoBits(k - 1);
      }
    }
  }

  /** The bits of 2^n - 1: exactly the n low ones. */
  lemma {:induction false} BitOfLowMask(n: nat, k: nat)
    ensures Bit(Pow2(n) - 1, k) == (k < n)
  {
    if n == 0 {
      ZeroHasNoBits(k);
    } else if k > 0 {
      var m := Pow2(n - 1) - 1;
      assert Pow2(n) - 1 == 2 * m + 1;
      assert (Pow2(n) - 1) / 2 == m;
      BitOfLowMask(n - 1, k - 1);
    }
  }

  /** A value below 2^n has no bit at or above n. */
  lemma {:induction false} NoHighBits(x: nat, n: nat, k: nat)
    requires x < Pow2(n) && n <= k
    ensures !Bit(x, k)
  {
    if n == 0 {
      ZeroHasNoBits(k);
    } else {
      NoHighBits(x / 2, n - 1, k - 1);
    }
  }

  /** The value below 2^n made of the n low bits of x is x modulo 2^n. */
  lemma {:induction false} BitOfMod(x: int, n: nat, k: nat)
    requires k < n
    ensures Bit(x % Pow2(n), k) == Bit(x, k)
  {
    var p := Pow2(n);
    assert x == x % p + p * (x / p);
    BitOfShifted(x % p, x / p, n, k);
  }

  /** And with a low mask 2^k - 1 is the remainder modulo 2^k. */
  lemma {:induction false} NatAndLowMask(x: nat, k: nat)
    ensures NatAnd(x, Pow2(k) - 1) == x % Pow2(k)
  {
    if k > 0 {
      var p := Pow2(k - 1);
      assert Pow2(k) - 1 == 2 * (p - 1) + 1;
      NatAndOdd(x, p - 1);
      NatAndLowMask(x / 2, k - 1);
      ModTwice(x, p);
    }
  }

  lemma {:induction false} NatAndOdd(x: nat, z: nat)
    ensures NatAnd(x, 2 * z + 1) == 2 * NatAnd(x / 2, z) + x % 2
  {
  }

  /** And with a single bit 2^k isolates that bit. */
  lemma {:induction false} NatAndPow2(x: nat, k: nat)
    ensures NatAnd(x, Pow2(k)) == if Bit(x, k) then Pow2(k) else 0
  {
    if x == 0 {
      ZeroHasNoBits(k);
    } else if k > 0 {
      NatAndPow2(x / 2, k - 1);
    }
  }

  /** And with 2^n - 2^k clears the k low bits of a value below 2^n. */
  lemma {:induction false} NatAndHighMask(x: nat, n: nat, k: nat)
    requires k <= n && x < Pow2(n) && Pow2(k) <= Pow2(n)
    ensures NatAnd(x, Pow2(n) - Pow2(k)) == x - x % Pow2(k)
    decreases k
  {
    if k == 0 {
      HighMaskZero(x, n);
    } else if k == n {
      HighMaskFull(x, Pow2(n));
    } else {
      Pow2Monotone(k - 1, n - 1);
      HalfBelow(x, Pow2(n - 1));
      NatAndHighMask(x / 2, n - 1, k - 1);
      HighMaskLift(x, n, k);
    }
  }

  lemma HalfBelow(x: nat, p: nat)
    requires x < 2 * p
    ensures x / 2 < p
  {
  }

  lemma HighMaskZero(x: nat, n: nat)
    requires x < Pow2(n)
    ensures NatAnd(x, Pow2(n) - Pow2(0)) == x - x % Pow2(0)
  {
    NatAndLowMask(x, n);
    DivModUnique(x, Pow2(n), 0, x);
  }

  lemma HighMaskFull(x: nat, p: nat)
    requires x < p
    ensures NatAnd(x, p - p) == x - x % p
  {
    DivModUnique(x, p, 0, x);
  }

  lemma HighMaskLift(x: nat, n: nat, k: nat)
    requires 0 < k < n
    requires Pow2(k - 1) <= Pow2(n - 1)
    requires NatAnd(x / 2, Pow2(n - 1) - Pow2(k - 1)) == x / 2 - (x / 2) % Pow2(k - 1)
    ensures NatAnd(x, Pow2(n) - Pow2(k)) == x - x % Pow2(k)
  {
    HighMaskStep(x, Pow2(k - 1), Pow2(n - 1));
  }

  lemma HighMaskStep(x: nat, pk: nat, pn: nat)
    requires 1 <= pk <= pn && NatAnd(x / 2, pn - pk) == x / 2 - (x / 2) % pk
    ensures NatAnd(x, 2 * pn - 2 * pk) == x - x % (2 * pk)
  {
    var h, r := x / 2, (x / 2) % pk;
    assert NatAnd(x, 2 * pn - 2 * pk) == 2 * (h - r) by {
      assert 2 * pn - 2 * pk == 2 * (pn - pk);
      NatAndHalving(x, pn - pk);
    }
    assert x % (2 * pk) == 2 * r + x % 2 by {
      ModTwice(x, pk);
    }
  }

  lemma {:induction false} NatAndHalving(x: nat, z: nat)
    ensures NatAnd(x, 2 * z) == 2 * NatAnd(x / 2, z)
  {
  }

  /** A value whose k low bits are clear and a value below 2^k share no set bit. */
  lemma {:induction false} NatAndAligned(x: nat, y: nat, k: nat)
    requires x % Pow2(k) == 0 && y < Pow2(k)
    ensures NatAnd(x, y) == 0
  {
    if k > 0 && x != 0 && y != 0 {
      ModTwice(x, Pow2(k - 1));
      NatAndAligned(x / 2, y / 2, k - 1);
    }
  }

  /** Or of two values without a common set bit is their sum. */
  lemma {:induction false} NatOrDisjoint(x: nat, y: nat)
    requires NatAnd(x, y) == 0
    ensures NatOr(x, y) == x + y
  {
    if x != 0 && y != 0 {
      NatOrDisjoint(x / 2, y / 2);
    }
  }

  // ---------------------------------------------------------------------
  // The 32-bit conversions

  /** The conversions keep every bit below 32. */
  lemma BitOfUint32(v: int, k: nat)
    requires k < 32
    ensures Bit(ToUint32(v), k) == Bit(v, k)
  {
    Pow2Values();
    assert v == ToUint32(v) + Pow2(32) * (v / Pow32);
    BitOfShifted(ToUint32(v), v / Pow32, 32, k);
  }

  lemma BitOfInt32(v: int, k: nat)
    requires k < 32
    ensures Bit(ToInt32(v), k) == Bit(v, k)
  {
    Pow2Values();
    var m := v % Pow32;
    assert v == m + Pow2(32) * (v / Pow32);
    BitOfShifted(m, v / Pow32, 32, k);
    if m >= Pow31 {
      assert m == (m - Pow32) + Pow2(32) * 1;
      BitOfShifted(m - Pow32, 1, 32, k);
    }
  }

  /** Values that already fit in 31 bits are unchanged by the conversions. */
  lemma SmallIsInt32(v: int)
    requires 0 <= v < Pow31
    ensures ToUint32(v) == v && ToInt32(v) == v
  {
  }

  /** Values that differ by a multiple of 2^32 have the same ToInt32 and ToUint32. */
  lemma CongruentInt32(v: int, w: int, q: int)
    requires v == w + Pow32 * q
    ensures ToInt32(v) == ToInt32(w) && ToUint32(v) == ToUint32(w)
  {
    DivModUnique(v, Pow32, w / Pow32 + q, w % Pow32);
  }

  /** The conversions keep the remainder modulo any power of two up to 2^32. */
  lemma ModOfInt32(v: int, k: nat)
    requires k <= 32
    ensures ToInt32(v) % Pow2(k) == v % Pow2(k) && ToUint32(v) % Pow2(k) == v % Pow2(k)
  {
    Pow2Values();
    Pow2Add(k, 32 - k);
    ModOfMultiple(v, Pow2(k), Pow2(32 - k));
  }

  /** Reducing modulo p * t, and then possibly subtracting p * t, keeps the remainder modulo p. */
  lemma ModOfMultiple(v: int, p: int, t: int)
    requires p > 0 && t > 0
    ensures (v % (p * t)) % p == v % p
    ensures (v % (p * t) - p * t) % p == v % p
  {
    var m, Q := v % (p * t), v / (p * t);
    MulAssoc(p, t, Q);
    var a, b := m / p, m % p;
    assert m == a * p + b;
    assert v == (a + t * Q) * p + b;
    DivModUnique(v, p, a + t * Q, b);
    assert m - p * t == (a - t) * p + b;
    DivModUnique(m - p * t, p, a - t, b);
  }

  // ---------------------------------------------------------------------
  // The JavaScript operators

  /** On values below 2^n (n <= 31) the operators are the bitwise operations on naturals. */
  lemma SmallOps(a: int, b: int, n: nat)
    requires n <= 31 && 0 <= a < Pow2(n) && 0 <= b < Pow2(n)
    ensures And(a, b) == NatAnd(a, b) && Or(a, b) == NatOr(a, b) && Xor(a, b) == NatXor(a, b)
    ensures 0 <= And(a, b) < Pow2(n) && 0 <= Or(a, b) < Pow2(n) && 0 <= Xor(a, b) < Pow2(n)
    ensures And(a, b) <= a
  {
    Pow2Values();
    Pow2Monotone(n, 31);
    assert a < Pow31 && b < Pow31;
    SmallIsInt32(a);
    SmallIsInt32(b);
    NatOpsBounded(a, b, n);
    SmallIsInt32(NatAnd(a, b));
    SmallIsInt32(NatOr(a, b));
    SmallIsInt32(NatXor(a, b));
  }

  /** Every bit below 32 of a JavaScript and/or/xor/not is computed from the operands' bits. */
  lemma BitOfOps(a: int, b: int, k: nat)
    requires k < 32
    ensures Bit(And(a, b), k) == (Bit(a, k) && Bit(b, k))
    ensures Bit(Or(a, b), k) == (Bit(a, k) || Bit(b, k))
    ensures Bit(Xor(a, b), k) == (Bit(a, k) != Bit(b, k))
    ensures Bit(Not(a), k) == !Bit(a, k)
  {
    var u, w := ToUint32(a), ToUint32(b);
    BitOfUint32(a, k);
    BitOfUint32(b, k);
    assert Bit(And(a, b), k) == (Bit(a, k) && Bit(b, k)) by {
      BitOfInt32(NatAnd(u, w), k);
      BitOfNatAnd(u, w, k);
    }
    assert Bit(Or(a, b), k) == (Bit(a, k) || Bit(b, k)) by {
      BitOfInt32(NatOr(u, w), k);
      BitOfNatOr(u, w, k);
    }
    assert Bit(Xor(a, b), k) == (Bit(a, k) != Bit(b, k)) by {
      BitOfInt32(NatXor(u, w), k);
      BitOfNatXor(u, w, k);
    }
    assert Bit(Not(a), k) == !Bit(a, k) by {
      Pow2Values();
      BitOfInt32(Pow32 - 1 - u, k);
      BitOfComplement(u, 32, k);
    }
  }

  /** Subtracting from 2^n - 1 complements each of the n low bits. */
  lemma {:induction false} BitOfComplement(u: int, n: nat, k: nat)
    requires 0 <= u < Pow2(n) && k < n
    ensures Bit(Pow2(n) - 1 - u, k) == !Bit(u, k)
  {
    if k > 0 {
      var w := Pow2(n) - 1 - u;
      assert w == 2 * (Pow2(n - 1) - 1 - u / 2) + (1 - u % 2);
      DivModUnique(w, 2, Pow2(n - 1) - 1 - u / 2, 1 - u % 2);
      BitOfComplement(u / 2, n - 1, k - 1);
    }
  }

  /** Testing a single bit 2^k (k < 31) with `&` is testing bit k. */
  lemma AndSingleBit(a: int, k: nat)
    requires k < 31
    ensures And(a, Pow2(k)) == if Bit(a, k) then Pow2(k) else 0
    ensures (And(a, Pow2(k)) != 0) == Bit(a, k)
  {
    Pow2Values();
    Pow2Monotone(k, 30);
    SmallIsInt32(Pow2(k));
    BitOfUint32(a, k);
    NatAndPow2(ToUint32(a), k);
    SmallIsInt32(NatAnd(ToUint32(a), Pow2(k)));
  }

  /** `a & (2^k - 1)` is a modulo 2^k (k <= 31). */
  lemma AndLowMask(a: int, k: nat)
    requires k <= 31
    ensures And(a, Pow2(k) - 1) == a % Pow2(k)
  {
    Pow2Values();
    Pow2Monotone(k, 31);
    SmallIsInt32(Pow2(k) - 1);
    NatAndLowMask(ToUint32(a), k);
    ModOfInt32(a, k);
    assert 0 <= ToUint32(a) % Pow2(k) < Pow31;
    SmallIsInt32(ToUint32(a) % Pow2(k));
  }

  /** Or-ing a value below 2^k into a non-negative multiple of 2^k is addition. */
  lemma OrAligned(x: int, y: int, k: nat)
    requires 0 <= x && 0 <= y < Pow2(k) && k <= 31 && x % Pow2(k) == 0 && x + y < Pow31
    ensures Or(x, y) == x + y
  {
    Pow2Values();
    Pow2Monotone(k, 31);
    SmallIsInt32(x);
    SmallIsInt32(y);
    NatAndAligned(x, y, k);
    NatOrDisjoint(x, y);
    SmallIsInt32(x + y);
  }

  /** Or-ing a value below 2^k into a multiple of 2^k is addition, for negative multiples too. */
  lemma OrAlignedSigned(x: int, y: int, k: nat)
    requires -Pow31 <= x && 0 <= y < Pow2(k) && k <= 31 && x % Pow2(k) == 0 && x + y < Pow31
    ensures Or(x, y) == x + y
  {
    if x >= 0 {
      OrAligned(x, y, k);
    } else {
      NegativeAligned(x, Pow2(k));
      var u := Uint32OfNegative(x);
      AlignedAfterWrap(x, k);
      assert 0 <= y < Pow31 by {
        Pow2Values();
        Pow2Monotone(k, 31);
      }
      SmallIsInt32(y);
      NatAndAligned(u, y, k);
      NatOrDisjoint(u, y);
      Int32OfWrapped(u + y);
    }
  }

  lemma NegativeAligned(x: int, p: int)
    requires x < 0 && p > 0 && x % p == 0
    ensures x <= -p
  {
    var q := x / p;
    assert x == p * q;
    MulMonotone(q, -1, p);
  }

  lemma Uint32OfNegative(x: int) returns (u: int)
    requires -Pow31 <= x < 0
    ensures u == x + Pow32 && ToUint32(x) == u
  {
    u := x + Pow32;
    DivModUnique(x, Pow32, -1, u);
  }

  lemma AlignedAfterWrap(x: int, k: nat)
    requires k <= 31 && x % Pow2(k) == 0
    ensures (x + Pow32) % Pow2(k) == 0
  {
    Pow2Values();
    Pow2Add(k, 32 - k);
    MulModZero(x, Pow2(k), Pow2(32 - k));
  }

  lemma Int32OfWrapped(v: int)
    requires Pow31 <= v < Pow32
    ensures ToInt32(v) == v - Pow32
  {
    DivModUnique(v, Pow32, 0, v);
  }

  lemma MulModZero(x: int, p: int, t: int)
    requires p > 0 && x % p == 0
    ensures (x + p * t) % p == 0
  {
    var q := x / p;
    assert x == p * q;
    MulDistrib(p, q, t);
    DivModUnique(x + p * t, p, q + t, 0);
  }

  /** `a << n` is multiplication by 2^n, wrapped to 32 bits. */
  lemma ShlIsMultiply(a: int, n: nat)
    requires n < 32
    ensures Shl(a, n) == ToInt32(a * Pow2(n))
    ensures 0 <= a && a * Pow2(n) < Pow31 ==> Shl(a, n) == a * Pow2(n)
  {
    var q, u, p := a / Pow32, ToUint32(a), Pow2(n);
    assert a == u + Pow32 * q;
    MulDistrib(p, u, Pow32 * q);
    MulAssoc(Pow32, q, p);
    assert a * p == u * p + Pow32 * (q * p);
    CongruentInt32(a * p, u * p, q * p);
    if 0 <= a && a * p < Pow31 {
      SmallIsInt32(a * p);
    }
  }
}

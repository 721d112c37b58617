/**
 Why the words and functions of Fips180 are those of the Secure Hash Standard: its constants measured
 against the primes, its functions bit by bit.
 */
module HashConstants {
  import opened Arithmetic
  import opened Fips180
  import Sequences

  // Sections 4.2.2 and 5.3.3 of FIPS 180-4 say what the constants are: the first 32 bits of the fractional parts of
  // the cube roots and square roots of the first primes.  Section 4.1.2 says of each function which bits it mixes.

  // ---- the first primes ----

  ghost predicate IsPrime(n: nat) { n >= 2 && forall d | 2 <= d < n :: n % d != 0 }

  /** No prime below 18 divides n but n itself. */
  predicate Sifted(n: nat) {
    && n >= 2 && (n == 2 || n % 2 != 0) && (n == 3 || n % 3 != 0) && (n == 5 || n % 5 != 0) && (n == 7 || n % 7 != 0)
    && (n == 11 || n % 11 != 0) && (n == 13 || n % 13 != 0) && (n == 17 || n % 17 != 0)
  }

  lemma SmallFactor(n: nat, d: nat, m: nat)
    requires n == d * m && 2 <= d < n && d < 18
    ensures !Sifted(n)
  {
    if d % 2 == 0 {
      Multiple(n, d, m, 2);
    } else if d % 3 == 0 {
      Multiple(n, d, m, 3);
    } else if d == 5 || d == 15 {
      Multiple(n, d, m, 5);
    } else {
      Multiple(n, d, m, d);
    }
  }

  lemma Multiple(n: nat, d: nat, m: nat, e: nat)
    requires n == d * m && e > 0 && d % e == 0
    ensures n % e == 0
  {
    var k := d / e;
    Regroup(e, k, m);
    Remainder(e, k * m);
  }

  lemma Regroup(e: int, k: int, m: int)
    ensures (e * k) * m == e * (k * m)
  {
  }

  lemma Remainder(e: nat, k: nat)
    requires e > 0
    ensures (e * k) % e == 0
  {
    QuotientIs(e * k, e, k, 0);
    DivParts(e * k, e);
  }

  /** Of two factors of a number below 18 * 18, one is below 18. */
  lemma NotSifted(n: nat, d: nat)
    requires 2 <= d < n < 324 && n % d == 0
    ensures !Sifted(n)
  {
    hide Sifted;
    var m := n / d;
    DivParts(n, d);
    if d < 18 {
      SmallFactor(n, d, m);
    } else {
      Cofactor(n, d, m);
      SmallFactor(n, m, d);
    }
  }

  lemma PrimeExactlyWhenSifted(n: nat)
    requires n < 324
    ensures IsPrime(n) <==> Sifted(n)
  {
    forall d | 2 <= d < n && n % d == 0 ensures !Sifted(n) {
      NotSifted(n, d);
    }
  }

  lemma Cofactor(n: nat, d: nat, m: nat)
    requires 0 < n == d * m && 18 <= d < n < 324
    ensures 2 <= m < 18 && m < n && n == m * d
  {
    MulMono(m, 18, d);
    if m >= 18 {
      MulMono(d, 18, m);
    }
  }

  const P0: seq<nat> := [2, 3, 5, 7, 11, 13, 17, 19]
  const P1: seq<nat> := [23, 29, 31, 37, 41, 43, 47, 53]
  const P2: seq<nat> := [59, 61, 67, 71, 73, 79, 83, 89]
  const P3: seq<nat> := [97, 101, 103, 107, 109, 113, 127, 131]
  const P4: seq<nat> := [137, 139, 149, 151, 157, 163, 167, 173]
  const P5: seq<nat> := [179, 181, 191, 193, 197, 199, 211, 223]
  const P6: seq<nat> := [227, 229, 233, 239, 241, 251, 257, 263]
  const P7: seq<nat> := [269, 271, 277, 281, 283, 293, 307, 311]
  const PRIMES := P0 + P1 + P2 + P3 + P4 + P5 + P6 + P7

  /** Behind 5, the sieve leaves eight numbers in thirty. */
  lemma Wheel(n: nat)
    requires Sifted(n) && n > 5
    ensures n == 30 * (n / 30) + n % 30 && n % 30 in {1, 7, 11, 13, 17, 19, 23, 29}
  {
    assert n % 2 != 0 && n % 3 != 0 && n % 5 != 0;
    hide Sifted;
    DivParts(n, 30);
    Turned(n / 30, n % 30);
    Spokes(n % 30);
  }

  lemma Turned(q: nat, r: nat)
    ensures (30 * q + r) % 2 == r % 2 && (30 * q + r) % 3 == r % 3 && (30 * q + r) % 5 == r % 5
  {
    MultipleAdded(2, 15 * q, r);
    MultipleAdded(3, 10 * q, r);
    MultipleAdded(5, 6 * q, r);
  }

  lemma MultipleAdded(e: nat, m: nat, r: nat)
    requires e > 0
    ensures (e * m + r) % e == r % e
  {
    DivParts(r, e);
    assert e * m + r == e * (m + r / e) + r % e;
    QuotientIs(e * m + r, e, m + r / e, r % e);
    DivParts(e * m + r, e);
  }

  lemma Spokes(r: nat)
    requires r < 30 && r % 2 != 0 && r % 3 != 0 && r % 5 != 0
    ensures r in {1, 7, 11, 13, 17, 19, 23, 29}
  {
  }

  lemma Band0(n: nat)
    requires 2 <= n <= 19
    ensures Sifted(n) <==> n in P0
  {
    if Sifted(n) && n > 5 {
      Wheel(n);
    }
  }

  lemma Band1(n: nat)
    requires 20 <= n <= 53
    ensures Sifted(n) <==> n in P1
  {
    if Sifted(n) && n > 5 {
      Wheel(n);
    }
  }

  lemma Band2(n: nat)
    requires 54 <= n <= 89
    ensures Sifted(n) <==> n in P2
  {
    if Sifted(n) && n > 5 {
      Wheel(n);
    }
  }

  lemma Band3(n: nat)
    requires 90 <= n <= 131
    ensures Sifted(n) <==> n in P3
  {
    if Sifted(n) && n > 5 {
      Wheel(n);
    }
  }

  lemma Band4(n: nat)
    requires 132 <= n <= 173
    ensures Sifted(n) <==> n in P4
  {
    if Sifted(n) && n > 5 {
      Wheel(n);
    }
  }

  lemma Band5(n: nat)
    requires 174 <= n <= 223
    ensures Sifted(n) <==> n in P5
  {
    if Sifted(n) && n > 5 {
      Wheel(n);
    }
  }

  lemma Band6(n: nat)
    requires 224 <= n <= 263
    ensures Sifted(n) <==> n in P6
  {
    if Sifted(n) && n > 5 {
      Wheel(n);
    }
  }

  lemma Band7(n: nat)
    requires 264 <= n <= 311
    ensures Sifted(n) <==> n in P7
  {
    if Sifted(n) && n > 5 {
      Wheel(n);
    }
  }

  /** The table holds exactly the primes up to 311. */
  lemma FirstPrimes(n: nat)
    ensures n in PRIMES <==> n <= 311 && IsPrime(n)
  {
    InSomeRow(n);

    hide PRIMES;
    if 2 <= n <= 311 {
      PrimeExactlyWhenSifted(n);
      hide IsPrime, Sifted;
      InRow(n);
    }
  }

  lemma InRow(n: nat)
    requires 2 <= n <= 311
    ensures Sifted(n) <==> n in P0 || n in P1 || n in P2 || n in P3 || n in P4 || n in P5 || n in P6 || n in P7
  {
    if n <= 19 {
      Band0(n);
    } else if n <= 53 {
      Band1(n);
    } else if n <= 89 {
      Band2(n);
    } else if n <= 131 {
      Band3(n);
    } else if n <= 173 {
      Band4(n);
    } else if n <= 223 {
      Band5(n);
    } else if n <= 263 {
      Band6(n);
    } else {
      Band7(n);
    }
    hide Sifted;
  }

  lemma InSomeRow(n: nat)
    ensures n in PRIMES <==> n in P0 || n in P1 || n in P2 || n in P3 || n in P4 || n in P5 || n in P6 || n in P7
  {
    hide P0, P1, P2, P3, P4, P5, P6, P7;
  }

  predicate Ascends(s: seq<nat>) { forall i | 0 < i < |s| :: s[i - 1] < s[i] }

  lemma AscendOn(a: seq<nat>, b: seq<nat>)
    requires Ascends(a) && Ascends(b) && a != [] && b != [] && a[|a| - 1] < b[0]
    ensures Ascends(a + b)
  {
  }

  /** Each row ascends, and the next starts higher. */
  lemma RowsAscend()
    ensures Ascends(P0) && Ascends(P1) && Ascends(P2) && Ascends(P3)
    ensures Ascends(P4) && Ascends(P5) && Ascends(P6) && Ascends(P7)
    ensures P0[7] < P1[0] && P1[7] < P2[0] && P2[7] < P3[0] && P3[7] < P4[0]
    ensures P4[7] < P5[0] && P5[7] < P6[0] && P6[7] < P7[0]
  {
  }

  /** They ascend, so the i-th entry is the i-th prime. */
  lemma PrimesAscend()
    ensures |PRIMES| == 64 && Ascends(PRIMES)
  {
    RowsAscend();
    hide Ascends;
    AscendOn(P0, P1);
    AscendOn(P0 + P1, P2);
    AscendOn(P0 + P1 + P2, P3);
    AscendOn(P0 + P1 + P2 + P3, P4);
    AscendOn(P0 + P1 + P2 + P3 + P4, P5);
    AscendOn(P0 + P1 + P2 + P3 + P4 + P5, P6);
    AscendOn(P0 + P1 + P2 + P3 + P4 + P5 + P6, P7);
  }

  // ---- the constants ----

  function Cube(n: nat): nat { n * n * n }

  function Square(n: nat): nat { n * n }

  /** With some whole part, k is the fractional part of the cube root of p, cut off behind 32 bits. */
  ghost predicate IsCubeFraction(p: nat, k: Word) {
    exists whole: nat :: CubeRootIs(p, whole * 0x1_0000_0000 + k)
  }

  /** n is the cube root of p times 2^32, rounded down. */
  predicate CubeRootIs(p: nat, n: nat) { Cube(n) <= p * 0x1_0000_0000_0000_0000_0000_0000 < Cube(n + 1) }

  ghost predicate IsSquareFraction(p: nat, k: Word) {
    exists whole: nat :: SquareRootIs(p, whole * 0x1_0000_0000 + k)
  }

  predicate SquareRootIs(p: nat, n: nat) { Square(n) <= p * 0x1_0000_0000_0000_0000 < Square(n + 1) }

  /** No two words are that for one number. */
  lemma FractionsAreUnique(p: nat, k: Word, k': Word)
    ensures IsCubeFraction(p, k) && IsCubeFraction(p, k') ==> k == k'
    ensures IsSquareFraction(p, k) && IsSquareFraction(p, k') ==> k == k'
  {
    hide Cube, Square;
    if IsCubeFraction(p, k) && IsCubeFraction(p, k') {
      var w: nat :| CubeRootIs(p, w * 0x1_0000_0000 + k);
      var w': nat :| CubeRootIs(p, w' * 0x1_0000_0000 + k');
      Powers(w * 0x1_0000_0000 + k + 1, w' * 0x1_0000_0000 + k');
      Powers(w' * 0x1_0000_0000 + k' + 1, w * 0x1_0000_0000 + k);
    }
    if IsSquareFraction(p, k) && IsSquareFraction(p, k') {
      var w: nat :| SquareRootIs(p, w * 0x1_0000_0000 + k);
      var w': nat :| SquareRootIs(p, w' * 0x1_0000_0000 + k');
      Powers(w * 0x1_0000_0000 + k + 1, w' * 0x1_0000_0000 + k');
      Powers(w' * 0x1_0000_0000 + k' + 1, w * 0x1_0000_0000 + k);
    }
  }

  lemma Powers(a: nat, b: nat)
    ensures a <= b ==> Square(a) <= Square(b) && Cube(a) <= Cube(b)
  {
    if a <= b {
      MulMono(a, a, b);
      MulMono(b, a, b);
      MulMono(a * a, a, b);
      MulMono(b, a * a, b * b);
    }
  }

  /** The whole part of the cube root of a number below 343. */
  function CubeFloor(p: nat): nat {
    if p < 8 then 1 else if p < 27 then 2 else if p < 64 then 3 else if p < 125 then 4 else if p < 216 then 5 else 6
  }

  function SquareFloor(p: nat): nat { if p < 4 then 1 else if p < 9 then 2 else if p < 16 then 3 else 4 }

  predicate IsK(p: nat, k: Word) { CubeRootIs(p, CubeFloor(p) * 0x1_0000_0000 + k) }

  predicate IsH(p: nat, k: Word) { SquareRootIs(p, SquareFloor(p) * 0x1_0000_0000 + k) }

  predicate AreKs(ps: seq<nat>, ks: seq<Word>) {
    |ks| == |ps| && forall i {:trigger ps[i], ks[i]} | 0 <= i < |ps| :: IsK(ps[i], ks[i])
  }

  lemma RowOfK(ps: seq<nat>, ks: seq<Word>)
    requires |ps| == |ks| == 8
    requires IsK(ps[0], ks[0]) && IsK(ps[1], ks[1]) && IsK(ps[2], ks[2]) && IsK(ps[3], ks[3])
    requires IsK(ps[4], ks[4]) && IsK(ps[5], ks[5]) && IsK(ps[6], ks[6]) && IsK(ps[7], ks[7])
    ensures AreKs(ps, ks)
  {
    hide IsK;
  }

  lemma RowOfK0()
    ensures AreKs(P0, K0)
  {
    RowOfK(P0, K0);
  }

  lemma RowOfK1()
    ensures AreKs(P1, K1)
  {
    RowOfK(P1, K1);
  }

  lemma RowOfK2()
    ensures AreKs(P2, K2)
  {
    RowOfK(P2, K2);
  }

  lemma RowOfK3()
    ensures AreKs(P3, K3)
  {
    RowOfK(P3, K3);
  }

  lemma RowOfK4()
    ensures AreKs(P4, K4)
  {
    RowOfK(P4, K4);
  }

  lemma RowOfK5()
    ensures AreKs(P5, K5)
  {
    RowOfK(P5, K5);
  }

  lemma RowOfK6()
    ensures AreKs(P6, K6)
  {
    RowOfK(P6, K6);
  }

  lemma RowOfK7()
    ensures AreKs(P7, K7)
  {
    RowOfK(P7, K7);
  }

  lemma RowsOn(ps: seq<nat>, ks: seq<Word>, ps': seq<nat>, ks': seq<Word>)
    requires AreKs(ps, ks) && AreKs(ps', ks')
    ensures AreKs(ps + ps', ks + ks')
  {
    hide IsK;
  }

  lemma AllRows()
    ensures AreKs(PRIMES, K)
  {
    RowOfK0();
    RowOfK1();
    RowOfK2();
    RowOfK3();
    RowOfK4();
    RowOfK5();
    RowOfK6();
    RowOfK7();
    hide AreKs;
    RowsOn(P0, K0, P1, K1);
    RowsOn(P0 + P1, K0 + K1, P2, K2);
    RowsOn(P0 + P1 + P2, K0 + K1 + K2, P3, K3);
    RowsOn(P0 + P1 + P2 + P3, K0 + K1 + K2 + K3, P4, K4);
    RowsOn(P0 + P1 + P2 + P3 + P4, K0 + K1 + K2 + K3 + K4, P5, K5);
    RowsOn(P0 + P1 + P2 + P3 + P4 + P5, K0 + K1 + K2 + K3 + K4 + K5, P6, K6);
    RowsOn(P0 + P1 + P2 + P3 + P4 + P5 + P6, K0 + K1 + K2 + K3 + K4 + K5 + K6, P7, K7);
  }

  /** Section 4.2.2: the i-th constant comes from the cube root of the i-th prime. */
  lemma ConstantsAreCubeRoots(i: nat)
    requires i < 64
    ensures |PRIMES| == |K| == 64 && IsCubeFraction(PRIMES[i], K[i])
  {
    PrimesAscend();
    AllRows();
    hide PRIMES, K;
    assert IsK(PRIMES[i], K[i]);
  }

  /** Section 5.3.3: the words of the initial hash value come from the square roots of the first eight. */
  lemma InitialWordsAreSquareRoots(i: nat)
    requires i < 8
    ensures |PRIMES| == 64 && PRIMES[i] == P0[i] && |INITIAL| == 8 && IsSquareFraction(P0[i], INITIAL[i])
  {
    PrimesAscend();
    InitialRow();
    assert PRIMES[i] == P0[i];
    hide INITIAL;
    assert IsH(P0[i], INITIAL[i]);
  }

  lemma InitialRow()
    ensures forall i {:trigger P0[i], INITIAL[i]} | 0 <= i < 8 :: IsH(P0[i], INITIAL[i])
  {
    assert IsH(P0[0], INITIAL[0]) && IsH(P0[1], INITIAL[1]) && IsH(P0[2], INITIAL[2]) && IsH(P0[3], INITIAL[3]);
    assert IsH(P0[4], INITIAL[4]) && IsH(P0[5], INITIAL[5]) && IsH(P0[6], INITIAL[6]) && IsH(P0[7], INITIAL[7]);
    hide IsH;
  }

  // ---- the functions ----

  /** Bit k of x, counted from the low end. */
  predicate Bit(x: nat, k: nat) { x / Pow2(k) % 2 == 1 }

  lemma HalfBit(x: nat, k: nat)
    requires k > 0
    ensures Bit(x, k) == Bit(x / 2, k - 1)
  {
    DivDiv(x, 2, Pow2(k - 1));
  }

  lemma {:induction false} BitwiseBit(op: (bool, bool) -> bool, x: nat, y: nat, k: nat)
    requires !op(false, false)
    ensures Bit(Bitwise(op, x, y), k) == op(Bit(x, k), Bit(y, k))
  {
    var r := Bitwise(op, x, y);
    if x == 0 && y == 0 {
      ZeroBit(k);
    } else {
      var low := if op(x % 2 == 1, y % 2 == 1) then 1 else 0;
      assert r == 2 * Bitwise(op, x / 2, y / 2) + low && r / 2 == Bitwise(op, x / 2, y / 2);
      if k > 0 {
        HalfBit(x, k);
        HalfBit(y, k);
        HalfBit(r, k);
        BitwiseBit(op, x / 2, y / 2, k - 1);
      }
    }
  }

  lemma ZeroBit(k: nat)
    ensures !Bit(0, k)
  {
    DivSmall(0, Pow2(k));
  }

  /** Words with the same bits are the same. */
  lemma {:induction false} BitsDecide(x: nat, y: nat, n: nat)
    requires x < Pow2(n) && y < Pow2(n) && forall k | 0 <= k < n :: Bit(x, k) == Bit(y, k)
    ensures x == y
  {
    if n > 0 {
      assert Bit(x, 0) == Bit(y, 0);
      forall k | 0 <= k < n - 1 ensures Bit(x / 2, k) == Bit(y / 2, k) {
        HalfBit(x, k + 1);
        HalfBit(y, k + 1);
      }
      BitsDecide(x / 2, y / 2, n - 1);
    }
  }

  lemma LogicBits(x: Word, y: Word, k: nat)
    ensures Bit(And(x, y), k) == (Bit(x, k) && Bit(y, k)) && Bit(Or(x, y), k) == (Bit(x, k) || Bit(y, k))
    ensures Bit(Xor(x, y), k) == (Bit(x, k) != Bit(y, k))
  {
    BitwiseBit((p, q) => p && q, x, y, k);
    BitwiseBit((p, q) => p || q, x, y, k);
    BitwiseBit((p: bool, q: bool) => p != q, x, y, k);
    hide Bit, Bitwise;
  }

  /** Behind its place every bit of a complement is the other one. */
  lemma {:induction false} ComplementBit(x: nat, n: nat, k: nat)
    requires x < Pow2(n) && k < n
    ensures Bit(Pow2(n) - 1 - x, k) == !Bit(x, k)
  {
    var y := Pow2(n) - 1 - x;
    HalfComplement(x, Pow2(n - 1));
    LowBit(x);
    LowBit(y);
    if k > 0 {
      HalfBit(x, k);
      HalfBit(y, k);
      hide Bit;
      ComplementBit(x / 2, n - 1, k - 1);
    }
  }

  lemma HalfComplement(x: nat, p: nat)
    requires x < 2 * p
    ensures (2 * p - 1 - x) / 2 == p - 1 - x / 2 && x / 2 < p && (2 * p - 1 - x) % 2 == 1 - x % 2
  {
  }

  lemma LowBit(x: nat)
    ensures Bit(x, 0) <==> x % 2 == 1
  {
  }

  lemma {:induction false} Pow2Sum(a: nat, b: nat)
    ensures Pow2(a + b) == Pow2(a) * Pow2(b)
  {
    if a > 0 {
      Pow2Sum(a - 1, b);
    }
  }

  lemma ShrBit(x: Word, n: nat, k: nat)
    ensures Bit(Shr(x, n), k) == Bit(x, k + n)
  {
    DivDiv(x, Pow2(n), Pow2(k));
    Pow2Sum(n, k);
  }

  /** Shifting left by one moves every bit up. */
  lemma {:induction false} TimesBit(x: nat, n: nat, k: nat)
    ensures Bit(x * Pow2(n), k) == (k >= n && Bit(x, k - n))
  {
    if n > 0 {
      var y := x * Pow2(n - 1);
      Doubled(x, n);
      if k > 0 {
        HalfBit(2 * y, k);
        TimesBit(x, n - 1, k - 1);
      }
    }
  }

  lemma Doubled(x: nat, n: nat)
    requires n > 0
    ensures x * Pow2(n) == 2 * (x * Pow2(n - 1))
  {
  }

  /** Cutting a number off behind n bits keeps those below. */
  lemma {:induction false} CutBit(x: nat, n: nat, k: nat)
    requires k < n
    ensures Bit(x % Pow2(n), k) == Bit(x, k)
  {
    var y := x % Pow2(n);
    HalfCut(x, n);
    if k > 0 {
      HalfBit(x, k);
      HalfBit(y, k);
      CutBit(x / 2, n - 1, k - 1);
    }
  }

  lemma HalfCut(x: nat, n: nat)
    requires n > 0
    ensures x % Pow2(n) / 2 == x / 2 % Pow2(n - 1) && x % Pow2(n) % 2 == x % 2
  {
    var p, h := Pow2(n - 1), x / 2;
    DivParts(h, p);
    assert Pow2(n) == 2 * p;
    CutParts(x, p, h / p, h % p);
  }

  lemma CutParts(x: nat, p: nat, q: nat, r: nat)
    requires p > 0 && x / 2 == p * q + r && r < p
    ensures x % (2 * p) == 2 * r + x % 2
  {
    var s := 2 * r + x % 2;
    assert x == (2 * p) * q + s by {
      assert x == 2 * (p * q + r) + x % 2;
      Regrouped(p, q);
    }
    QuotientIs(x, 2 * p, q, s);
    DivParts(x, 2 * p);
  }

  lemma Regrouped(p: nat, q: nat)
    ensures 2 * (p * q) == (2 * p) * q
  {
  }

  lemma ShlBit(x: Word, n: nat, k: nat)
    requires k < 32
    ensures Bit(Shl(x, n), k) == (k >= n && Bit(x, k - n))
  {
    Pow2Of32();
    hide Pow2, Bit;
    CutBit(x * Pow2(n), 32, k);
    TimesBit(x, n, k);
  }

  /** Section 3.2: bit k of a rotation by n is bit k + n, around the word. */
  lemma RotrBit(x: Word, n: nat, k: nat)
    requires n < 32 && k < 32
    ensures Bit(Rotr(x, n), k) == Bit(x, (k + n) % 32)
  {
    hide Bit, Pow2, Shr, Shl, Or;
    LogicBits(Shr(x, n), Shl(x, 32 - n), k);
    ShrBit(x, n, k);
    ShlBit(x, 32 - n, k);
    if k + n >= 32 {
      HighBit(x, k + n);
    }
  }

  lemma HighBit(x: Word, k: nat)
    requires k >= 32
    ensures !Bit(x, k)
  {
    Pow2Sum(k - 32, 32);
    Pow2Of32();
    MulMono(Pow2(32), 1, Pow2(k - 32));
    DivSmall(x, Pow2(k));
  }

  ghost predicate Odd(a: bool, b: bool, c: bool) { (a != b) != c }

  /** Section 4.1.2: a choice by the bits of x, a majority, and the bits each of the four mixing functions adds up. */
  lemma FunctionBits(x: Word, y: Word, z: Word, k: nat)
    requires k < 32
    ensures Bit(Ch(x, y, z), k) == if Bit(x, k) then Bit(y, k) else Bit(z, k)
    ensures Bit(Maj(x, y, z), k) ==
            ((Bit(x, k) && Bit(y, k)) || (Bit(x, k) && Bit(z, k)) || (Bit(y, k) && Bit(z, k)))
    ensures Bit(BigSigma0(x), k) == Odd(Bit(x, (k + 2) % 32), Bit(x, (k + 13) % 32), Bit(x, (k + 22) % 32))
    ensures Bit(BigSigma1(x), k) == Odd(Bit(x, (k + 6) % 32), Bit(x, (k + 11) % 32), Bit(x, (k + 25) % 32))
    ensures Bit(SmallSigma0(x), k) ==
            Odd(Bit(x, (k + 7) % 32), Bit(x, (k + 18) % 32), k + 3 < 32 && Bit(x, k + 3))
    ensures Bit(SmallSigma1(x), k) ==
            Odd(Bit(x, (k + 17) % 32), Bit(x, (k + 19) % 32), k + 10 < 32 && Bit(x, k + 10))
  {
    ChBit(x, y, z, k);
    MajBit(x, y, z, k);
    BigSigmaBits(x, k);
    SmallSigmaBits(x, k);
    hide Bit, Ch, Maj, BigSigma0, BigSigma1, SmallSigma0, SmallSigma1;
  }

  lemma ChBit(x: Word, y: Word, z: Word, k: nat)
    requires k < 32
    ensures Bit(Ch(x, y, z), k) == if Bit(x, k) then Bit(y, k) else Bit(z, k)
  {
    Pow2Of32();
    ComplementBit(x, 32, k);
    assert Bit(Not(x), k) == !Bit(x, k);
    hide Bit, And, Xor, Not, Pow2;
    LogicBits(x, y, k);
    LogicBits(Not(x), z, k);
    LogicBits(And(x, y), And(Not(x), z), k);
  }

  lemma MajBit(x: Word, y: Word, z: Word, k: nat)
    ensures Bit(Maj(x, y, z), k) ==
            ((Bit(x, k) && Bit(y, k)) || (Bit(x, k) && Bit(z, k)) || (Bit(y, k) && Bit(z, k)))
  {
    hide Bit, And, Xor;
    LogicBits(x, y, k);
    LogicBits(x, z, k);
    LogicBits(y, z, k);
    LogicBits(And(x, y), And(x, z), k);
    LogicBits(Xor(And(x, y), And(x, z)), And(y, z), k);
  }

  lemma OddBits(a: Word, b: Word, c: Word, k: nat)
    ensures Bit(Xor(Xor(a, b), c), k) == Odd(Bit(a, k), Bit(b, k), Bit(c, k))
  {
    hide Bit, Xor;
    LogicBits(a, b, k);
    LogicBits(Xor(a, b), c, k);
  }

  lemma BigSigmaBits(x: Word, k: nat)
    requires k < 32
    ensures Bit(BigSigma0(x), k) == Odd(Bit(x, (k + 2) % 32), Bit(x, (k + 13) % 32), Bit(x, (k + 22) % 32))
    ensures Bit(BigSigma1(x), k) == Odd(Bit(x, (k + 6) % 32), Bit(x, (k + 11) % 32), Bit(x, (k + 25) % 32))
  {
    hide Bit, Xor, Odd, Rotr;
    RotrBit(x, 2, k);
    RotrBit(x, 13, k);
    RotrBit(x, 22, k);
    OddBits(Rotr(x, 2), Rotr(x, 13), Rotr(x, 22), k);
    RotrBit(x, 6, k);
    RotrBit(x, 11, k);
    RotrBit(x, 25, k);
    OddBits(Rotr(x, 6), Rotr(x, 11), Rotr(x, 25), k);
  }

  lemma SmallSigmaBits(x: Word, k: nat)
    requires k < 32
    ensures Bit(SmallSigma0(x), k) ==
            Odd(Bit(x, (k + 7) % 32), Bit(x, (k + 18) % 32), k + 3 < 32 && Bit(x, k + 3))
    ensures Bit(SmallSigma1(x), k) ==
            Odd(Bit(x, (k + 17) % 32), Bit(x, (k + 19) % 32), k + 10 < 32 && Bit(x, k + 10))
  {
    hide Bit, Xor, Odd, Rotr, Shr;
    RotrBit(x, 7, k);
    RotrBit(x, 18, k);
    ShiftedBit(x, 3, k);
    OddBits(Rotr(x, 7), Rotr(x, 18), Shr(x, 3), k);
    RotrBit(x, 17, k);
    RotrBit(x, 19, k);
    ShiftedBit(x, 10, k);
    OddBits(Rotr(x, 17), Rotr(x, 19), Shr(x, 10), k);
  }

  lemma ShiftedBit(x: Word, n: nat, k: nat)
    ensures Bit(Shr(x, n), k) == (k + n < 32 && Bit(x, k + n))
  {
    ShrBit(x, n, k);
    if k + n >= 32 {
      HighBit(x, k + n);
    }
    hide Bit, Shr;
  }

  // ---- rounds and schedule, undone ----

  /** The difference of two words: what Add adds back. */
  function Sub(x: Word, y: Word): (r: Word)
    ensures Add(r, y) == x
  {
    (x - y + 0x1_0000_0000) % 0x1_0000_0000
  }

  lemma SubUndoes(x: Word, y: Word)
    ensures Sub(Add(x, y), y) == x && Sub(Add(x, y), x) == y
  {
  }

  /** Section 6.2.2 step 3: what a round leaves, with its constant and its word, tells the variables it was given.
      Six of them have only moved on; T2 comes from a, b and c, T1 is what else went into the new a, and the old d and h
      are what T1 does not account for. */
  lemma RoundUndone(v: Vars, k: Word, w: Word)
    ensures var r := Round(v, k, w);
            var t1 := Sub(r.a, Add(BigSigma0(r.b), Maj(r.b, r.c, r.d)));
            var mixed := Add(Add(Add(BigSigma1(r.f), Ch(r.f, r.g, r.h)), k), w);
            v == Vars(r.b, r.c, r.d, Sub(r.e, t1), r.f, r.g, r.h, Sub(t1, mixed))
  {
    var t1 := Add(Add(Add(Add(v.h, BigSigma1(v.e)), Ch(v.e, v.f, v.g)), k), w);
    hide BigSigma0, BigSigma1, Maj, Ch;
    SubUndoes(t1, Add(BigSigma0(v.a), Maj(v.a, v.b, v.c)));
    SubUndoes(v.d, t1);
    AddRegroups(v.h, BigSigma1(v.e), Ch(v.e, v.f, v.g), k, w);
    SubUndoes(v.h, Add(Add(Add(BigSigma1(v.e), Ch(v.e, v.f, v.g)), k), w));
    hide Add, Sub;
  }

  lemma AddRegroups(h: Word, a: Word, b: Word, c: Word, d: Word)
    ensures Add(Add(Add(Add(h, a), b), c), d) == Add(h, Add(Add(Add(a, b), c), d))
  {
    AddAssoc(h, a, b);
    AddAssoc(h, Add(a, b), c);
    AddAssoc(h, Add(Add(a, b), c), d);
    hide Add;
  }

  lemma AddAssoc(x: Word, y: Word, z: Word)
    ensures Add(Add(x, y), z) == Add(x, Add(y, z))
  {
  }

  /** Section 6.2.2 step 1: any sixteen words of the schedule in a row tell the one in front of them. */
  lemma ScheduleUndone(w2: Word, w7: Word, w15: Word, w16: Word)
    ensures w16 == Sub(ScheduleWord(w2, w7, w15, w16), Add(Add(SmallSigma1(w2), w7), SmallSigma0(w15)))
  {
    hide SmallSigma0, SmallSigma1;
    SubUndoes(Add(Add(SmallSigma1(w2), w7), SmallSigma0(w15)), w16);
  }

  /** Section 5.2.1: the words of a block are its bytes, four at a time, as big-endian numbers. */
  lemma BlockWordValue(block: seq<Byte>, t: nat)
    requires |block| == 64 && t < 16
    ensures BlockWord(block, t) == ValueOf(block[4 * t..4 * t + 4])
  {
    var b0, b1, b2, b3 := block[4 * t], block[4 * t + 1], block[4 * t + 2], block[4 * t + 3];
    assert block[4 * t..4 * t + 4] == [] + [b0] + [b1] + [b2] + [b3];
    hide ValueOf;
    ValueOnNothing();
    ValueOn([], b0);
    ValueOn([] + [b0], b1);
    ValueOn([] + [b0] + [b1], b2);
    ValueOn([] + [b0] + [b1] + [b2], b3);
  }

  lemma ValueOnNothing()
    ensures ValueOf([]) == 0
  {
  }

  lemma ValueOn(bytes: seq<Byte>, b: Byte)
    ensures ValueOf(bytes + [b]) == 256 * ValueOf(bytes) + b
  {
    Sequences.Added(bytes, b);
  }
}

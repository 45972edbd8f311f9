/** Rounding a 64-bit word up to a power of two by smearing its highest digit downwards. */
module BitTrick {
  import opened Bits
  import opened Modular

  /** How many digits a number has. */
  function Len(v: nat): nat {
    if v == 0 then 0 else 1 + Len(v / 2)
  }

  function Spread(v: nat, k: nat): nat {
    Or(v, High(v, k))
  }

  function Smear(v: nat): nat {
    Spread(Spread(Spread(Spread(Spread(Spread(v, 1), 2), 4), 8), 16), 32)
  }

  /** Decrement and increment wrap around. */
  function RoundUp(v: nat): nat {
    var w := if v == 0 then Pow2(64) - 1 else v - 1;
    (Smear(w) + 1) % Pow2(64)
  }

  // ---------------------------------------------------------------- digits

  lemma {:induction false} LenBounds(v: nat)
    ensures v < Pow2(Len(v)) && (v > 0 ==> Pow2(Len(v) - 1) <= v)
  {
    if v > 0 { LenBounds(v / 2); }
  }

  lemma {:induction false} LenFits(v: nat, k: nat)
    requires v < Pow2(k)
    ensures Len(v) <= k
  {
    if v > 0 && k > 0 { LenFits(v / 2, k - 1); }
  }

  lemma {:induction false} HighHigh(v: nat, j: nat, k: nat)
    ensures High(High(v, j), k) == High(v, j + k)
  {
    if j > 0 { HighHigh(v / 2, j - 1, k); }
  }

  lemma {:induction false} HighOfZero(k: nat)
    ensures High(0, k) == 0
  {
    if k > 0 { HighOfZero(k - 1); }
  }

  lemma {:induction false} HighAll(v: nat, k: nat)
    requires Len(v) <= k
    ensures High(v, k) == 0
  {
    if v == 0 { HighOfZero(k); } else if k > 0 { HighAll(v / 2, k - 1); }
  }

  lemma {:induction false} HighLen(v: nat, k: nat)
    requires k <= Len(v)
    ensures Len(High(v, k)) == Len(v) - k
  {
    if k > 0 { HighLen(v / 2, k - 1); }
  }

  lemma OrHalves(a: nat, b: nat)
    ensures Or(a, b) / 2 == Or(a / 2, b / 2)
    ensures Or(a, b) % 2 == if a % 2 == 1 || b % 2 == 1 then 1 else 0
  {
  }

  lemma {:induction false} HighOr(a: nat, b: nat, k: nat)
    ensures High(Or(a, b), k) == Or(High(a, k), High(b, k))
  {
    if k > 0 {
      OrHalves(a, b);
      HighOr(a / 2, b / 2, k - 1);
    }
  }

  lemma {:induction false} OrLen(a: nat, b: nat)
    requires Len(b) <= Len(a)
    ensures Len(Or(a, b)) == Len(a)
  {
    if a > 0 && b > 0 {
      OrHalves(a, b);
      OrLen(a / 2, b / 2);
    }
  }

  /** The j lowest digits set, the others as they are. */
  lemma {:induction false} OrMask(x: nat, j: nat)
    ensures Or(x, Pow2(j) - 1) == High(x, j) * Pow2(j) + Pow2(j) - 1
  {
    if j > 0 {
      var m := Pow2(j - 1) - 1;
      OddMask(m);
      OrHalves(x, Pow2(j) - 1);
      OrMask(x / 2, j - 1);
      DoubleFactor(High(x / 2, j - 1), Pow2(j - 1));
    }
  }

  lemma {:induction false} PowSum(j: nat, k: nat)
    ensures Pow2(j) * Pow2(k) == Pow2(j + k)
  {
    if j > 0 {
      PowSum(j - 1, k);
      assert Pow2(j) * Pow2(k) == 2 * (Pow2(j - 1) * Pow2(k));
    }
  }

  lemma {:induction false} HighOfOnes(n: nat, k: nat)
    requires k <= n
    ensures High(Pow2(n) - 1, k) == Pow2(n - k) - 1
  {
    if k > 0 {
      OddMask(Pow2(n - 1) - 1);
      HighOfOnes(n - 1, k - 1);
    }
  }

  // ---------------------------------------------------------------- smearing

  /** The j highest digits of v are set (all of them, if it has fewer). */
  ghost predicate TopOnes(v: nat, j: nat) {
    var n := if j <= Len(v) then j else Len(v);
    High(v, Len(v) - n) == Pow2(n) - 1
  }

  /** Spreading by j doubles the number of digits known to be set. */
  lemma SpreadDoubles(v: nat, j: nat)
    requires TopOnes(v, j) && j > 0
    ensures Len(Spread(v, j)) == Len(v) && TopOnes(Spread(v, j), 2 * j)
  {
    var n, w := Len(v), Spread(v, j);
    if j >= n {
      HighAll(v, j);
    } else {
      HighLen(v, j);
      OrLen(v, High(v, j));
      var k := if 2 * j <= n then 2 * j else n;
      HighOr(v, High(v, j), n - k);
      HighHigh(v, j, n - k);
      HighHigh(v, n - k, k - j);
      HighHigh(v, n - j, 2 * j - k);
      SpreadOnes(v, j, n, k);
    }
  }

  /** Of the k top digits the upper j are set; those k - j below are what is spread. */
  lemma SpreadOnes(v: nat, j: nat, n: nat, k: nat)
    requires n == Len(v) && j < n && j <= k <= n && k <= 2 * j && High(v, n - j) == Pow2(j) - 1
    ensures Or(High(v, n - k), High(v, j + (n - k))) == Pow2(k) - 1
  {
    hide High, Or, Pow2, Len;
    var x := High(v, n - k);
    HighHigh(v, n - j, 2 * j - k);
    HighOfOnes(j, 2 * j - k);
    assert n - j + (2 * j - k) == j + (n - k);
    assert High(v, j + (n - k)) == Pow2(k - j) - 1;
    HighHigh(v, n - k, k - j);
    OrMask(x, k - j);
    assert n - k + (k - j) == n - j;
    assert High(x, k - j) == Pow2(j) - 1;
    PowSum(j, k - j);
    Distribute(Pow2(j), Pow2(k - j));
  }

  lemma Distribute(p: nat, q: nat)
    requires p >= 1
    ensures (p - 1) * q + q == p * q
  {
  }

  lemma AllOnes(v: nat, j: nat)
    requires TopOnes(v, j) && Len(v) <= j
    ensures v == Pow2(Len(v)) - 1
  {
  }

  /** The highest digit of a number is set. */
  lemma TopDigit(v: nat)
    ensures TopOnes(v, 1)
  {
    if v > 0 {
      HighLen(v, Len(v) - 1);
      LenBounds(High(v, Len(v) - 1));
      assert Pow2(1) == 2 && Pow2(0) == 1;
    } else {
      assert Pow2(0) == 1;
    }
  }

  lemma SmearIsOnes(v: nat)
    requires v < Pow2(64)
    ensures Smear(v) == Pow2(Len(v)) - 1
  {
    hide Pow2, Spread, High, Or, Len, TopOnes;
    LenFits(v, 64);
    TopDigit(v);
    SpreadDoubles(v, 1);
    var v1 := Spread(v, 1);
    SpreadDoubles(v1, 2);
    var v2 := Spread(v1, 2);
    SpreadDoubles(v2, 4);
    var v3 := Spread(v2, 4);
    SpreadDoubles(v3, 8);
    var v4 := Spread(v3, 8);
    SpreadDoubles(v4, 16);
    var v5 := Spread(v4, 16);
    SpreadDoubles(v5, 32);
    AllOnes(Spread(v5, 32), 64);
  }

  // ---------------------------------------------------------------- rounding

  /** From 1 to 2^63 the result is the least power of two that is large enough; 0, and everything
      above, gives 0. */
  lemma RoundUpIsLeast(v: nat)
    requires v < Pow2(64)
    ensures 1 <= v <= Pow2(63) ==> RoundUp(v) == Pow2(Len(v - 1)) && v <= RoundUp(v) && Len(v - 1) <= 63
    ensures 1 <= v <= Pow2(63) ==> forall k: nat :: v <= Pow2(k) ==> RoundUp(v) <= Pow2(k)
    ensures v == 0 || v > Pow2(63) ==> RoundUp(v) == 0
  {
    hide Pow2, Smear, Len;
    var w := if v == 0 then Pow2(64) - 1 else v - 1;
    SmearIsOnes(w);
    LenBounds(w);
    LenFits(w, 64);
    WordIsTwice(63);
    PowGrows(63, 64);
    Wrap(Pow2(Len(w)), Pow2(64));
    if 1 <= v <= Pow2(63) {
      LenFits(w, 63);
      PowGrows(Len(w), 63);
      forall k: nat | v <= Pow2(k) ensures Pow2(Len(w)) <= Pow2(k) {
        LenFits(w, k);
        PowGrows(Len(w), k);
      }
    } else {
      LongLen(w, 63);
      assert Len(w) == 64;
    }
  }

  lemma Wrap(x: nat, m: nat)
    requires m > 0
    ensures x < m ==> x % m == x
    ensures m % m == 0
  {
  }

  lemma WordIsTwice(k: nat)
    ensures Pow2(k + 1) == 2 * Pow2(k)
  {
  }

  lemma LongLen(w: nat, k: nat)
    requires Pow2(k) <= w
    ensures Len(w) > k
  {
    LenBounds(w);
    if Len(w) <= k {
      PowGrows(Len(w), k);
      assert false;
    }
  }

  /** The rounding as the source computes it, step by step. */
  method RoundUpToPowerOfTwo(value: nat) returns (v: nat)
    requires value < Pow2(64)
    ensures v == RoundUp(value)
    ensures 1 <= value <= Pow2(63) ==> v >= value && forall k: nat :: value <= Pow2(k) ==> v <= Pow2(k)
  {
    hide Pow2, Or, High;
    RoundUpIsLeast(value);
    v := if value == 0 then Pow2(64) - 1 else value - 1;
    v := Or(v, High(v, 1));
    v := Or(v, High(v, 2));
    v := Or(v, High(v, 4));
    v := Or(v, High(v, 8));
    v := Or(v, High(v, 16));
    v := Or(v, High(v, 32));
    v := (v + 1) % Pow2(64);
  }

  /** Rounding up to a multiple. */
  function RoundUpToMultiple(v: nat, m: nat): nat {
    if v == 0 || m == 0 || v % m == 0 then v else (v / m + 1) * m
  }

  /** The least multiple of m that is at least v. */
  lemma MultipleIsLeast(v: nat, m: nat, q: nat)
    requires m > 0
    ensures v <= RoundUpToMultiple(v, m) < v + m
    ensures RoundUpToMultiple(v, m) % m == 0
    ensures v <= q * m ==> RoundUpToMultiple(v, m) <= q * m
  {
    assert v == (v / m) * m + v % m;
    assert (v / m + 1) * m == (v / m) * m + m;
    TimesGrows(q, v / m, m);
    TimesGrows(v / m + 1, q, m);
    RemainderUnique((v / m + 1) * m, v / m + 1, 0, m);
  }

  lemma TimesGrows(a: nat, b: nat, m: nat)
    ensures a <= b ==> a * m <= b * m
  {
    if a <= b { assert b * m == a * m + (b - a) * m; }
  }
}

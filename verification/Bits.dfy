/** Machine words as natural numbers, with the bitwise operations written out digit by digit. */
module Bits {
  import opened Modular

  function Pow2(k: nat): (r: nat)
    ensures r >= 1
  {
    if k == 0 then 1 else 2 * Pow2(k - 1)
  }

  function BitAnd(a: nat, b: nat): nat {
    if a == 0 || b == 0 then 0
    else 2 * BitAnd(a / 2, b / 2) + if a % 2 == 1 && b % 2 == 1 then 1 else 0
  }

  function Or(a: nat, b: nat): nat {
    if a == 0 then b else if b == 0 then a
    else 2 * Or(a / 2, b / 2) + if a % 2 == 1 || b % 2 == 1 then 1 else 0
  }

  /** The digits of a that are not digits of b. */
  function AndNot(a: nat, b: nat): nat {
    if a == 0 || b == 0 then a
    else 2 * AndNot(a / 2, b / 2) + if a % 2 == 1 && b % 2 == 0 then 1 else 0
  }

  /** The k lowest digits of a word, and the digits above them. */
  function Low(p: nat, k: nat): nat {
    if k == 0 then 0 else 2 * Low(p / 2, k - 1) + p % 2
  }

  function High(p: nat, k: nat): nat {
    if k == 0 then p else High(p / 2, k - 1)
  }

  lemma DoubleFactor(h: nat, w: nat)
    ensures h * (2 * w) == 2 * (h * w)
  {
  }

  lemma {:induction false} SplitWord(p: nat, k: nat)
    ensures p == High(p, k) * Pow2(k) + Low(p, k) && Low(p, k) < Pow2(k)
  {
    if k > 0 {
      SplitWord(p / 2, k - 1);
      DoubleFactor(High(p / 2, k - 1), Pow2(k - 1));
    }
  }

  lemma {:induction false} MaskIsLow(p: nat, k: nat)
    ensures BitAnd(p, Pow2(k) - 1) == Low(p, k)
  {
    if p == 0 {
      LowOfZero(k);
    } else if k > 0 {
      var m := Pow2(k - 1) - 1;
      OddMask(m);
      MaskIsLow(p / 2, k - 1);
      assert BitAnd(p, 2 * m + 1) == 2 * BitAnd(p / 2, m) + p % 2;
    }
  }

  lemma OddMask(m: nat)
    ensures (2 * m + 1) / 2 == m && (2 * m + 1) % 2 == 1
  {
  }

  lemma LowOfZero(k: nat)
    ensures Low(0, k) == 0
  {
  }

  /** Masking with 2^k - 1 takes the remainder by 2^k. */
  lemma MaskIsRemainder(p: nat, k: nat)
    ensures BitAnd(p, Pow2(k) - 1) == p % Pow2(k)
  {
    MaskIsLow(p, k);
    SplitWord(p, k);
    RemainderUnique(p, High(p, k), Low(p, k), Pow2(k));
  }

  // ---------------------------------------------------------------- single digits

  function Digit(w: nat, k: nat): bool {
    if k == 0 then w % 2 == 1 else Digit(w / 2, k - 1)
  }

  lemma {:induction false} DigitOfZero(k: nat)
    ensures !Digit(0, k)
  {
    if k > 0 { DigitOfZero(k - 1); }
  }

  lemma {:induction false} DigitOr(a: nat, b: nat, k: nat)
    ensures Digit(Or(a, b), k) <==> Digit(a, k) || Digit(b, k)
  {
    DigitOfZero(k);
    if k > 0 && a > 0 && b > 0 { DigitOr(a / 2, b / 2, k - 1); }
  }

  lemma {:induction false} DigitAndNot(a: nat, b: nat, k: nat)
    ensures Digit(AndNot(a, b), k) <==> Digit(a, k) && !Digit(b, k)
  {
    DigitOfZero(k);
    if k > 0 && a > 0 && b > 0 { DigitAndNot(a / 2, b / 2, k - 1); }
  }

  lemma {:induction false} DigitAnd(a: nat, b: nat, k: nat)
    ensures Digit(BitAnd(a, b), k) <==> Digit(a, k) && Digit(b, k)
  {
    DigitOfZero(k);
    if k > 0 && a > 0 && b > 0 { DigitAnd(a / 2, b / 2, k - 1); }
  }

  lemma {:induction false} DigitPow2(i: nat, k: nat)
    ensures Digit(Pow2(i), k) <==> i == k
  {
    if k == 0 {
    } else if i == 0 {
      DigitOfZero(k - 1);
    } else {
      assert Pow2(i) / 2 == Pow2(i - 1);
      DigitPow2(i - 1, k - 1);
    }
  }

  /** A number below 2^n that is not zero has a digit below n. */
  lemma {:induction false} SomeDigit(w: nat, n: nat) returns (k: nat)
    requires 0 < w < Pow2(n)
    ensures k < n && Digit(w, k)
  {
    if w % 2 == 1 {
      k := 0;
    } else {
      k := SomeDigit(w / 2, n - 1);
      k := k + 1;
    }
  }

  lemma {:induction false} OrFits(a: nat, b: nat, n: nat)
    requires a < Pow2(n) && b < Pow2(n)
    ensures Or(a, b) < Pow2(n)
  {
    if a > 0 && b > 0 { OrFits(a / 2, b / 2, n - 1); }
  }

  lemma {:induction false} AndNotFits(a: nat, b: nat)
    ensures AndNot(a, b) <= a
  {
    if a > 0 && b > 0 { AndNotFits(a / 2, b / 2); }
  }

  lemma {:induction false} PowGrows(j: nat, k: nat)
    requires j <= k
    ensures Pow2(j) <= Pow2(k)
  {
    if j < k { PowGrows(j, k - 1); }
  }
}

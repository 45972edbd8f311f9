/** The signal word of a reader: 64 binary digits in one word.  What shifts and masks do to the word
    is here said as what they do to the set of its digits. */
module SignalWord {
  import opened Bits

  const WIDTH: nat := 64

  predicate IsWord(w: nat) {
    w < Pow2(WIDTH)
  }

  /** The digits that are on. */
  function Digits(w: nat): set<nat> {
    set k | 0 <= k < WIDTH && Digit(w, k)
  }

  lemma NoDigits(w: nat)
    requires IsWord(w)
    ensures Digits(w) == {} <==> w == 0
  {
    if w == 0 {
      forall k: nat ensures !Digit(w, k) { DigitOfZero(k); }
    } else {
      var k := SomeDigit(w, WIDTH);
      assert k in Digits(w);
    }
  }

  // ---------------------------------------------------------------- the operations

  /** Set one digit and clear another; exchange for a word; put one word for zero and another for
      anything else; add digits. */
  datatype Op =
    | SetAndClear(on: nat, off: nat)
    | Exchange(value: nat)
    | IfZero(zero: nat, other: nat)
    | Add(value: nat)

  predicate OpOk(op: Op) {
    match op
    case SetAndClear(on, off) => on < WIDTH && off < WIDTH
    case Exchange(value) => IsWord(value)
    case IfZero(zero, other) => IsWord(zero) && IsWord(other)
    case Add(value) => IsWord(value)
  }

  /** The word that the operation wants to store, computed from the one it has seen. */
  function Desired(op: Op, seen: nat): nat {
    match op
    case SetAndClear(on, off) => AndNot(Or(seen, Pow2(on)), Pow2(off))
    case Exchange(value) => value
    case IfZero(zero, other) => if seen == 0 then zero else other
    case Add(value) => Or(seen, value)
  }

  function Test(w: nat, k: nat): bool {
    BitAnd(w, Pow2(k)) != 0
  }

  /** The test by masking looks at one digit. */
  lemma TestIsDigit(w: nat, k: nat)
    requires IsWord(w) && k < WIDTH
    ensures Test(w, k) <==> k in Digits(w)
  {
    var m := BitAnd(w, Pow2(k));
    DigitAnd(w, Pow2(k), k);
    DigitPow2(k, k);
    DigitOfZero(k);
    if m != 0 && !Digit(w, k) {
      AndFits(w, Pow2(k));
      var j := SomeDigit(m, WIDTH);
      DigitAnd(w, Pow2(k), j);
      DigitPow2(k, j);
      assert false;
    }
  }

  lemma {:induction false} AndFits(a: nat, b: nat)
    ensures BitAnd(a, b) <= a
  {
    if a > 0 && b > 0 { AndFits(a / 2, b / 2); }
  }

  lemma DigitsOfOr(a: nat, b: nat)
    ensures Digits(Or(a, b)) == Digits(a) + Digits(b)
  {
    forall k: nat ensures Digit(Or(a, b), k) <==> Digit(a, k) || Digit(b, k) { DigitOr(a, b, k); }
  }

  lemma DigitsOfAndNot(a: nat, b: nat)
    ensures Digits(AndNot(a, b)) == Digits(a) - Digits(b)
  {
    forall k: nat ensures Digit(AndNot(a, b), k) <==> Digit(a, k) && !Digit(b, k) { DigitAndNot(a, b, k); }
  }

  lemma DigitsOfPow2(i: nat)
    requires i < WIDTH
    ensures Digits(Pow2(i)) == {i} && IsWord(Pow2(i))
  {
    hide Pow2;
    forall k: nat ensures Digit(Pow2(i), k) <==> i == k { DigitPow2(i, k); }
    Pow2IsWord(i);
  }

  lemma Pow2IsWord(i: nat)
    requires i < WIDTH
    ensures IsWord(Pow2(i))
  {
    assert Pow2(i) < Pow2(i + 1);
    hide Pow2;
    PowGrows(i + 1, WIDTH);
  }

  /** What an operation does to the set of digits. */
  function Meaning(op: Op, on: set<nat>): set<nat> {
    match op
    case SetAndClear(i, j) => on + {i} - {j}
    case Exchange(value) => Digits(value)
    case IfZero(zero, other) => if on == {} then Digits(zero) else Digits(other)
    case Add(value) => on + Digits(value)
  }

  /** The shifts and masks do that, and no more. */
  lemma DesiredIsMeant(op: Op, seen: nat)
    requires OpOk(op) && IsWord(seen)
    ensures Digits(Desired(op, seen)) == Meaning(op, Digits(seen)) && IsWord(Desired(op, seen))
  {
    hide Digits, Pow2, Or, AndNot;
    match op
    case SetAndClear(i, j) =>
      DigitsOfPow2(i);
      DigitsOfPow2(j);
      DigitsOfOr(seen, Pow2(i));
      DigitsOfAndNot(Or(seen, Pow2(i)), Pow2(j));
      OrFits(seen, Pow2(i), WIDTH);
      AndNotFits(Or(seen, Pow2(i)), Pow2(j));
    case Exchange(value) =>
    case IfZero(zero, other) => NoDigits(seen);
    case Add(value) =>
      DigitsOfOr(seen, value);
      OrFits(seen, value, WIDTH);
  }
}

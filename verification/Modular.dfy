/** Positions of a ring of `cap` cells. */
module Modular {

  /** The cell that serves position p. */
  function Cell(cap: nat, p: nat): (c: nat)
    requires cap > 0
    ensures c < cap
  {
    if p < cap then p else Cell(cap, p - cap)
  }

  lemma {:induction false} CellIsRemainder(cap: nat, p: nat)
    requires cap > 0
    ensures Cell(cap, p) == p % cap
  {
    if p < cap {
      RemainderUnique(p, 0, p, cap);
    } else {
      CellIsRemainder(cap, p - cap);
      var q := (p - cap) / cap;
      assert p == (q + 1) * cap + (p - cap) % cap;
      RemainderUnique(p, q + 1, (p - cap) % cap, cap);
    }
  }

  /** Two positions less than one lap apart that share a cell are the same position. */
  lemma {:induction false} SameCell(cap: nat, p: nat, q: nat)
    requires cap > 0 && Cell(cap, p) == Cell(cap, q)
    requires p < q + cap && q < p + cap
    ensures p == q
  {
    if p >= cap && q >= cap {
      SameCell(cap, p - cap, q - cap);
    }
  }

  /** Two different positions in one cell are at least one lap apart. */
  lemma {:induction false} LapsApart(cap: nat, p: nat, q: nat)
    requires cap > 0 && Cell(cap, p) == Cell(cap, q)
    ensures p == q || p + cap <= q || q + cap <= p
  {
    if p < q + cap && q < p + cap {
      SameCell(cap, p, q);
    }
  }

  /** A non-zero number of laps spans at least one lap. */
  lemma AtLeastOneLap(e: int, cap: int)
    requires cap > 0
    ensures e >= 1 ==> e * cap >= cap
    ensures e <= -1 ==> e * cap <= -cap
  {
  }

  lemma {:induction false} RemainderUnique(n: int, d: int, r: int, cap: int)
    requires cap > 0 && 0 <= r < cap && n == d * cap + r
    ensures n % cap == r && n / cap == d
  {
    var e, a := n / cap - d, n / cap;
    assert a * cap - d * cap == e * cap;
    AtLeastOneLap(e, cap);
  }
}

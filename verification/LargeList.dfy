/** The free list of large chunks in memory, and the pool of large chunks updated in place. */
module LargeLists {
  import opened Wrappers
  import opened LargeChunks
  import opened LargeAnswers

  /** The record that lies in a free chunk. */
  datatype Node = Node(next: Option<nat>, size: nat, prev: Option<nat>)

  type Heap = map<nat, Node>

  function AddrOpt(q: seq<Region>, i: int): Option<nat> {
    if 0 <= i < |q| then Some(q[i].addr) else None
  }

  ghost predicate NodeAt(h: Heap, q: seq<Region>, i: nat)
    requires i < |q|
  {
    q[i].addr in h && h[q[i].addr] == Node(AddrOpt(q, i + 1), q[i].size, AddrOpt(q, i - 1))
  }

  ghost predicate Rising(q: seq<Region>) {
    forall i, j :: 0 <= i < j < |q| ==> q[i].addr < q[j].addr
  }

  /** Memory holds the list of exactly these chunks, by ascending address. */
  ghost predicate ListOk(h: Heap, head: Option<nat>, q: seq<Region>) {
    (forall i :: 0 <= i < |q| ==> NodeAt(h, q, i)) && Rising(q) && head == AddrOpt(q, 0)
  }

  ghost predicate Known(h: Heap, p: Option<nat>) {
    p.Some? ==> p.value in h
  }

  function SetNext(h: Heap, p: Option<nat>, v: Option<nat>): Heap
    requires Known(h, p)
  {
    if p.None? then h else h[p.value := h[p.value].(next := v)]
  }

  function SetPrev(h: Heap, p: Option<nat>, v: Option<nat>): Heap
    requires Known(h, p)
  {
    if p.None? then h else h[p.value := h[p.value].(prev := v)]
  }

  ghost predicate Near(h: Heap, addr: nat) {
    addr in h && Known(h, h[addr].next) && Known(h, h[addr].prev)
  }

  lemma NearAt(h: Heap, head: Option<nat>, q: seq<Region>, i: nat)
    requires ListOk(h, head, q) && i < |q|
    ensures NodeAt(h, q, i) && Near(h, q[i].addr)
  {
    assert NodeAt(h, q, i);
    if i > 0 { assert NodeAt(h, q, i - 1); }
    if i + 1 < |q| { assert NodeAt(h, q, i + 1); }
  }

  // ---------------------------------------------------------------- unlinking

  function Detach(h: Heap, addr: nat): Heap
    requires Near(h, addr)
  {
    SetPrev(SetNext(h, h[addr].prev, h[addr].next), h[addr].next, h[addr].prev)
  }

  lemma DetachOk(h: Heap, head: Option<nat>, q: seq<Region>, k: nat)
    requires ListOk(h, head, q) && k < |q|
    ensures Near(h, q[k].addr)
    ensures ListOk(Detach(h, q[k].addr), if h[q[k].addr].prev.Some? then head else h[q[k].addr].next,
                   q[..k] + q[k + 1..])
  {
    NearAt(h, head, q, k);
    var h', q' := Detach(h, q[k].addr), q[..k] + q[k + 1..];
    hide Detach;
    forall i: nat | i < |q'| ensures NodeAt(h', q', i) { DetachNode(h, head, q, k, i); }
  }

  /** Only the two neighbours change, each in one word. */
  lemma DetachRecord(h: Heap, addr: nat, x: nat)
    requires Near(h, addr) && x in h && x != addr && h[addr].next != Some(addr) && h[addr].prev != Some(addr)
    ensures var r := h[addr];
      && x in Detach(h, addr)
      && Detach(h, addr)[x] == h[x].(next := if r.prev == Some(x) then r.next else h[x].next,
                                     prev := if r.next == Some(x) then r.prev else h[x].prev)
  {
  }

  lemma AddressesDiffer(q: seq<Region>, i: int, j: int)
    requires Rising(q)
    ensures i != j && 0 <= i < |q| && 0 <= j < |q| ==> q[i].addr != q[j].addr
  {
  }

  lemma CutAddr(q: seq<Region>, k: nat, d: int)
    requires k < |q|
    ensures AddrOpt(q[..k] + q[k + 1..], d) == AddrOpt(q, if d < k then d else d + 1)
  {
  }

  lemma DetachNode(h: Heap, head: Option<nat>, q: seq<Region>, k: nat, i: nat)
    requires ListOk(h, head, q) && k < |q| && i < |q| - 1 && Near(h, q[k].addr)
    ensures NodeAt(Detach(h, q[k].addr), q[..k] + q[k + 1..], i)
  {
    var j := if i < k then i else i + 1;
    assert (q[..k] + q[k + 1..])[i] == q[j];
    NearAt(h, head, q, j);
    NearAt(h, head, q, k);
    hide Detach;
    AddressesDiffer(q, j, k);
    AddressesDiffer(q, j, k - 1);
    AddressesDiffer(q, j, k + 1);
    AddressesDiffer(q, k, k - 1);
    AddressesDiffer(q, k, k + 1);
    hide ListOk, Rising;
    DetachRecord(h, q[k].addr, q[j].addr);
    CutAddr(q, k, i + 1);
    CutAddr(q, k, i - 1);
  }

  // ---------------------------------------------------------------- replacing

  /** The rest of a split chunk takes its place in the list. */
  function Replace(h: Heap, addr: nat, rest: nat, size: nat): Heap
    requires Near(h, addr)
  {
    var h1 := h[rest := Node(h[addr].next, size, h[addr].prev)];
    SetPrev(SetNext(h1, h1[rest].prev, Some(rest)), h1[rest].next, Some(rest))
  }

  lemma ReplaceOk(h: Heap, head: Option<nat>, q: seq<Region>, k: nat, r: Region)
    requires ListOk(h, head, q) && k < |q| && Rising(q[k := r])
    ensures Near(h, q[k].addr)
    ensures ListOk(Replace(h, q[k].addr, r.addr, r.size),
                   if h[q[k].addr].prev.Some? then head else Some(r.addr), q[k := r])
  {
    NearAt(h, head, q, k);
    var h', q' := Replace(h, q[k].addr, r.addr, r.size), q[k := r];
    assert q'[k] == r;
    if k > 0 { assert q'[k - 1].addr < r.addr; }
    if k + 1 < |q| { assert r.addr < q'[k + 1].addr; }
    forall i | 0 <= i < |q'| ensures NodeAt(h', q', i) {
      assert NodeAt(h, q, i);
      if i != k { assert q'[i].addr != r.addr; }
    }
  }

  // ---------------------------------------------------------------- inserting

  /** A chunk goes in front of `before`, or behind `last`. */
  function InsertLast(h: Heap, addr: nat, size: nat, last: nat): Heap
    requires last in h && addr != last
  {
    var h1 := h[addr := Node(None, size, Some(last))];
    h1[last := h1[last].(next := Some(addr))]
  }

  function InsertBefore(h: Heap, addr: nat, size: nat, before: nat): Heap
    requires Near(h, before) && addr != before
  {
    var h1 := h[addr := Node(Some(before), size, h[before].prev)];
    var h2 := h1[before := h1[before].(prev := Some(addr))];
    SetNext(h2, h2[addr].prev, Some(addr))
  }

  lemma InsertBeforeOk(h: Heap, head: Option<nat>, q: seq<Region>, k: nat, r: Region)
    requires ListOk(h, head, q) && k < |q| && Rising(q[..k] + [r] + q[k..])
    ensures Near(h, q[k].addr) && r.addr != q[k].addr
    ensures ListOk(InsertBefore(h, r.addr, r.size, q[k].addr),
                   if h[q[k].addr].prev.Some? then head else Some(r.addr), q[..k] + [r] + q[k..])
  {
    NearAt(h, head, q, k);
    var q' := q[..k] + [r] + q[k..];
    assert q'[k] == r && q'[k + 1] == q[k];
    var h' := InsertBefore(h, r.addr, r.size, q[k].addr);
    assert h' == InsertBefore(h, r.addr, r.size, q[k].addr);
    forall i: nat | i < |q'| ensures NodeAt(h', q', i) { InsertNode(h, head, q, k, r, i); }
  }

  lemma InsertNode(h: Heap, head: Option<nat>, q: seq<Region>, k: nat, r: Region, i: nat)
    requires ListOk(h, head, q) && k < |q| && Rising(q[..k] + [r] + q[k..]) && i < |q| + 1
    requires Near(h, q[k].addr) && r.addr != q[k].addr
    ensures NodeAt(InsertBefore(h, r.addr, r.size, q[k].addr), q[..k] + [r] + q[k..], i)
  {
    var q' := q[..k] + [r] + q[k..];
    NearAt(h, head, q, k);
    assert q'[k] == r && q'[k + 1] == q[k] && (k > 0 ==> q'[k - 1] == q[k - 1]);
    if i != k {
      var j := if i < k then i else i - 1;
      assert q'[i] == q[j] && q'[i].addr != r.addr;
      NearAt(h, head, q, j);
    }
  }

  lemma InsertLastOk(h: Heap, head: Option<nat>, q: seq<Region>, r: Region)
    requires ListOk(h, head, q) && Rising(q + [r]) && q != []
    ensures q[|q| - 1].addr in h && r.addr != q[|q| - 1].addr
    ensures ListOk(InsertLast(h, r.addr, r.size, q[|q| - 1].addr), head, q + [r])
  {
    var q', n := q + [r], |q|;
    NearAt(h, head, q, n - 1);
    assert q'[n] == r && q'[n - 1] == q[n - 1];
    var h' := InsertLast(h, r.addr, r.size, q[n - 1].addr);
    forall i | 0 <= i < |q'| ensures NodeAt(h', q', i) {
      if i < n { assert q'[i] == q[i] && NodeAt(h, q, i) && q'[i].addr != r.addr; }
    }
  }

  // ---------------------------------------------------------------- merging

  /** A chunk takes in the next one of the list. */
  function Absorb(h: Heap, addr: nat, next: nat): Heap
    requires Near(h, addr) && Near(h, next)
  {
    var h1 := h[addr := h[addr].(size := h[addr].size + h[next].size + WORD, next := h[next].next)];
    SetPrev(h1, h1[addr].next, Some(addr))
  }

  function AbsorbAt(q: seq<Region>, k: nat): seq<Region>
    requires k + 1 < |q|
  {
    q[..k] + [q[k].(size := q[k].size + q[k + 1].size + WORD)] + q[k + 2..]
  }

  lemma AbsorbOk(h: Heap, head: Option<nat>, q: seq<Region>, k: nat)
    requires ListOk(h, head, q) && k + 1 < |q|
    ensures Near(h, q[k].addr) && Near(h, q[k + 1].addr)
    ensures ListOk(Absorb(h, q[k].addr, q[k + 1].addr), head, AbsorbAt(q, k))
  {
    NearAt(h, head, q, k);
    NearAt(h, head, q, k + 1);
    var h', q' := Absorb(h, q[k].addr, q[k + 1].addr), AbsorbAt(q, k);
    AbsorbRises(q, k);
    hide Absorb;
    forall i: nat | i < |q'| ensures NodeAt(h', q', i) { AbsorbNode(h, head, q, k, i); }
  }

  lemma AbsorbRises(q: seq<Region>, k: nat)
    requires k + 1 < |q| && Rising(q)
    ensures Rising(AbsorbAt(q, k)) && AddrOpt(AbsorbAt(q, k), 0) == AddrOpt(q, 0)
  {
    var q' := AbsorbAt(q, k);
    forall i, j | 0 <= i < j < |q'| ensures q'[i].addr < q'[j].addr {
      assert q'[i].addr == q[if i <= k then i else i + 1].addr && q'[j].addr == q[if j <= k then j else j + 1].addr;
    }
  }

  lemma AbsorbAddr(q: seq<Region>, k: nat, d: int)
    requires k + 1 < |q|
    ensures AddrOpt(AbsorbAt(q, k), d) == AddrOpt(q, if d <= k then d else d + 1)
  {
  }

  lemma AbsorbNode(h: Heap, head: Option<nat>, q: seq<Region>, k: nat, i: nat)
    requires ListOk(h, head, q) && k + 1 < |q| && i < |q| - 1
    requires Near(h, q[k].addr) && Near(h, q[k + 1].addr)
    ensures NodeAt(Absorb(h, q[k].addr, q[k + 1].addr), AbsorbAt(q, k), i)
  {
    var j := if i <= k then i else i + 1;
    var q' := AbsorbAt(q, k);
    NearAt(h, head, q, j); NearAt(h, head, q, k); NearAt(h, head, q, k + 1);
    assert q'[i] == if i == k then q[k].(size := q[k].size + q[k + 1].size + WORD) else q[j];
    AbsorbAddr(q, k, i + 1);
    AbsorbAddr(q, k, i - 1);
    hide AbsorbAt;
  }

  // ---------------------------------------------------------------- the list of a layout

  /** The free chunks among the regions, in their order. */
  function FreeOf(s: seq<Region>): seq<Region> {
    if s == [] then [] else Bit(s[0]) + FreeOf(s[1..])
  }

  function Bit(r: Region): seq<Region> {
    if r.kind.Free? then [r] else []
  }

  lemma {:induction false} FreeOfConcat(a: seq<Region>, b: seq<Region>)
    ensures FreeOf(a + b) == FreeOf(a) + FreeOf(b)
  {
    if a == [] {
      assert a + b == b;
    } else {
      assert (a + b)[1..] == a[1..] + b;
      FreeOfConcat(a[1..], b);
      var x := Bit(a[0]);
      assert x + (FreeOf(a[1..]) + FreeOf(b)) == (x + FreeOf(a[1..])) + FreeOf(b);
    }
  }

  /** A free chunk that lies between two addresses. */
  predicate Between(r: Region, from: nat, to: nat) {
    r.kind.Free? && from <= r.addr && r.addr + Length(r) <= to
  }

  predicate AllBetween(q: seq<Region>, from: nat, to: nat) {
    forall i :: 0 <= i < |q| ==> Between(q[i], from, to)
  }

  /** Free chunks of a tiled stretch lie in it and rise. */
  lemma {:induction false} FreeOfRises(s: seq<Region>, from: nat)
    requires Tiles(s, from)
    ensures Rising(FreeOf(s)) && AllBetween(FreeOf(s), from, from + Span(s))
    decreases |s|
  {
    hide FreeOf, Rising, AllBetween, Length;
    FreeOfHead(s);
    if s != [] {
      FreeOfRises(s[1..], from + Length(s[0]));
      FreeOfMore(s[0], FreeOf(s[1..]), from, from + Length(s[0]), from + Span(s));
    }
  }

  lemma FreeOfHead(s: seq<Region>)
    ensures s == [] ==> FreeOf(s) == [] && Rising(FreeOf(s)) && forall from, to :: AllBetween(FreeOf(s), from, to)
    ensures s != [] ==> FreeOf(s) == if s[0].kind.Free? then [s[0]] + FreeOf(s[1..]) else FreeOf(s[1..])
  {
    if s != [] { assert [] + FreeOf(s[1..]) == FreeOf(s[1..]); }
  }

  lemma FreeOfMore(r: Region, q: seq<Region>, from: nat, mid: nat, to: nat)
    requires r.addr == from && mid == from + Length(r) <= to
    requires Rising(q) && AllBetween(q, mid, to)
    ensures var q' := if r.kind.Free? then [r] + q else q;
      Rising(q') && AllBetween(q', from, to)
  {
    forall i | 0 <= i < |q| ensures Between(q[i], from, to) && (r.kind.Free? ==> r.addr < q[i].addr) {
      assert Between(q[i], mid, to);
    }
    if r.kind.Free? {
      var q' := [r] + q;
      forall i | 0 <= i < |q'| ensures Between(q'[i], from, to) {
        if i > 0 { assert q'[i] == q[i - 1]; }
      }
      RisingCons(r, q);
    }
  }

  lemma RisingCons(r: Region, q: seq<Region>)
    requires Rising(q) && forall i :: 0 <= i < |q| ==> r.addr < q[i].addr
    ensures Rising([r] + q)
  {
    var q' := [r] + q;
    forall i, j | 0 <= i < j < |q'| ensures q'[i].addr < q'[j].addr {
      assert q'[j] == q[j - 1];
      assert i > 0 ==> q'[i] == q[i - 1];
    }
  }

  /** The first chunk of the list that is large enough. */
  function ListFit(q: seq<Region>, size: nat): (k: nat)
    ensures k <= |q| && (k < |q| ==> q[k].size >= size) && forall j :: 0 <= j < k ==> q[j].size < size
  {
    if q == [] || q[0].size >= size then 0
    else
      var k := ListFit(q[1..], size);
      assert forall j :: 1 <= j < k + 1 ==> q[j] == q[1..][j - 1];
      k + 1
  }

  /** Walking the list finds what first fit over all regions finds. */
  lemma {:induction false} ListFitIs(s: seq<Region>, size: nat)
    ensures var i := FirstFit(s, size);
      ListFit(FreeOf(s), size) == |FreeOf(s[..i])| && (i == |s| ==> ListFit(FreeOf(s), size) == |FreeOf(s)|)
  {
    if s != [] && !Fits(s[0], size) {
      ListFitIs(s[1..], size);
      var i := FirstFit(s[1..], size);
      FreeOfPrefix(s, i + 1);
      ListFitStep(s[0], FreeOf(s[1..]), size);
    } else if s != [] {
      ListFitStep(s[0], FreeOf(s[1..]), size);
    }
  }

  lemma ListFitStep(r: Region, q: seq<Region>, size: nat)
    ensures ListFit(Bit(r) + q, size) == if Fits(r, size) then 0 else |Bit(r)| + ListFit(q, size)
  {
    if r.kind.Free? { assert (Bit(r) + q)[1..] == q; } else { assert Bit(r) + q == q; }
  }

  lemma FreeOfPrefix(s: seq<Region>, i: nat)
    requires 0 < i <= |s|
    ensures FreeOf(s[..i]) == Bit(s[0]) + FreeOf(s[1..][..i - 1])
  {
    assert s[..i][1..] == s[1..][..i - 1];
  }

  lemma FreeOne(r: Region)
    ensures FreeOf([r]) == Bit(r)
  {
    assert [r][1..] == [];
  }

  lemma FreeOfParts(s: seq<Region>, i: nat)
    requires i < |s|
    ensures FreeOf(s) == FreeOf(s[..i]) + Bit(s[i]) + FreeOf(s[i + 1..])
  {
    hide FreeOf, Bit;
    FreeOfThree(s[..i], s[i], s[i + 1..]);
    Around(s, i);
  }

  lemma Around(s: seq<Region>, i: nat)
    requires i < |s|
    ensures s[..i] + [s[i]] + s[i + 1..] == s
  {
  }

  lemma FreeOfThree(a: seq<Region>, r: Region, c: seq<Region>)
    ensures FreeOf(a + [r] + c) == FreeOf(a) + Bit(r) + FreeOf(c)
  {
    hide FreeOf, Bit;
    FreeOfConcat(a + [r], c);
    FreeOfConcat(a, [r]);
    FreeOne(r);
  }

  /** The list after a grant. */
  lemma GrantList(s: seq<Region>, size: nat, i: nat)
    requires i < |s| && Fits(s[i], size)
    ensures var q, k := FreeOf(s), |FreeOf(s[..i])|;
      var q' := FreeOf(s[..i] + Granted(s[i], size) + s[i + 1..]);
      && k < |q| && q[k] == s[i]
      && if s[i].size > size && s[i].size - size > RECORD
         then q' == q[k := Region(s[i].addr + size + WORD, Free, s[i].size - size - WORD)]
         else q' == q[..k] + q[k + 1..]
  {
    hide FreeOf, Granted;
    var a, n, c := s[..i], Granted(s[i], size), s[i + 1..];
    FreeOfParts(s, i);
    FreeOfConcat(a + n, c);
    FreeOfConcat(a, n);
    GrantedFree(s[i], size);
    assert Bit(s[i]) == [s[i]];
    Swap(FreeOf(a), s[i], FreeOf(c));
    hide Bit;
    if FreeOf(n) == [] { Assoc(FreeOf(a), FreeOf(c)); } else { Swap2(FreeOf(a), s[i], FreeOf(n)[0], FreeOf(c)); }
  }

  lemma Swap(x: seq<Region>, r: Region, y: seq<Region>)
    ensures var q, k := x + [r] + y, |x|;
      k < |q| && q[k] == r && q[..k] + q[k + 1..] == x + y
  {
  }

  lemma Swap2(x: seq<Region>, r: Region, t: Region, y: seq<Region>)
    ensures (x + [r] + y)[|x| := t] == x + [t] + y
  {
  }

  lemma GrantedFree(r: Region, size: nat)
    requires Fits(r, size)
    ensures FreeOf(Granted(r, size)) ==
      if r.size > size && r.size - size > RECORD then [Region(r.addr + size + WORD, Free, r.size - size - WORD)] else []
  {
    var n := Granted(r, size);
    FreeOne(n[0]);
    if |n| == 1 {
      assert n == [n[0]];
    } else {
      FreeOne(n[1]);
      assert n == [n[0]] + [n[1]];
      FreeOfConcat([n[0]], [n[1]]);
    }
  }

  // ---------------------------------------------------------------- the list after a release

  function Freed(r: Region): Region {
    Region(r.addr, Free, r.size)
  }

  function WithFreed(s: seq<Region>, i: nat): seq<Region>
    requires i < |s|
  {
    FreeOf(s[..i]) + [Freed(s[i])] + FreeOf(s[i + 1..])
  }

  /** The place of a chunk in the list, and when its neighbours in the list touch it. */
  lemma FreedPlace(p: Pool, i: nat)
    requires Sound(p) && i < |p.regions| && p.regions[i].kind.Live?
    ensures var s := p.regions;
      var q, k, r := WithFreed(s, i), |FreeOf(s[..i])|, s[i];
      && Rising(q) && FreeOf(s) == q[..k] + q[k + 1..] && q[k] == Freed(r)
      && (JoinLeft(s, i) <==> k > 0 && q[k - 1].addr + q[k - 1].size + WORD == r.addr)
      && (JoinRight(s, i) <==> k + 1 < |q| && r.addr + r.size + WORD == q[k + 1].addr)
      && (JoinLeft(s, i) ==> q[k - 1] == s[i - 1] && FreeOf(s[..i - 1]) == q[..k - 1])
      && (JoinRight(s, i) ==> q[k + 1] == s[i + 1] && FreeOf(s[i + 2..]) == q[k + 2..])
  {
    var s := p.regions;
    hide FreeOf, Rising, Sound, JoinLeft, JoinRight;
    FreedSides(p, i);
    Place(FreeOf(s[..i]), Freed(s[i]), FreeOf(s[i + 1..]));
  }

  lemma FreedSides(p: Pool, i: nat)
    requires Sound(p) && i < |p.regions| && p.regions[i].kind.Live?
    ensures var s := p.regions;
      var x, y, r := FreeOf(s[..i]), FreeOf(s[i + 1..]), s[i];
      && Rising(x + [Freed(r)] + y) && FreeOf(s) == x + y
      && (JoinLeft(s, i) <==> x != [] && x[|x| - 1].addr + x[|x| - 1].size + WORD == r.addr)
      && (JoinRight(s, i) <==> y != [] && r.addr + r.size + WORD == y[0].addr)
      && (JoinLeft(s, i) ==> i > 0 && x[|x| - 1] == s[i - 1] && FreeOf(s[..i - 1]) == x[..|x| - 1])
      && (JoinRight(s, i) ==> i + 2 <= |s| && y[0] == s[i + 1] && FreeOf(s[i + 2..]) == y[1..])
  {
    var s := p.regions;
    var a, c := s[..i], s[i + 1..];
    FreedTiles(p, i);
    hide *;
    LeftSide(a, p.bump, s[i]);
    RightSide(c, s[i].addr + s[i].size + WORD);
    FreedOrder(a, p.bump, s[i], c);
    FreeOfParts(s, i);
    LiveBit(s[i]);
    assert JoinLeft(s, i) ==> i > 0 by { JoinBounds(s, i); }
    assert JoinRight(s, i) ==> i + 2 <= |s| by { JoinBounds(s, i); }
    Assoc(FreeOf(a), FreeOf(c));
  }

  lemma Assoc(x: seq<Region>, y: seq<Region>)
    ensures x + [] + y == x + y
  {
  }

  lemma LiveBit(r: Region)
    requires r.kind.Live?
    ensures Bit(r) == [] && Length(r) == r.size + WORD
  {
  }

  lemma JoinBounds(s: seq<Region>, i: nat)
    requires i < |s|
    ensures (JoinLeft(s, i) ==> i > 0) && (JoinRight(s, i) ==> i + 2 <= |s|)
  {
  }

  lemma LeftSide(a: seq<Region>, from: nat, r: Region)
    requires Tiles(a, from) && from + Span(a) == r.addr && forall j :: 0 <= j < |a| ==> RegionOk(a[j])
    ensures var x := FreeOf(a);
      && (FreeLast(a) <==> x != [] && x[|x| - 1].addr + x[|x| - 1].size + WORD == r.addr)
      && (FreeLast(a) ==> a != [] && x[|x| - 1] == a[|a| - 1] && FreeOf(a[..|a| - 1]) == x[..|x| - 1])
  {
    hide FreeOf, Tiles, Span;
    LastTouches(a, from);
  }

  lemma RightSide(c: seq<Region>, from: nat)
    requires Tiles(c, from) && forall j :: 0 <= j < |c| ==> RegionOk(c[j])
    ensures var y := FreeOf(c);
      && (FreeFirst(c) <==> y != [] && from == y[0].addr)
      && (FreeFirst(c) ==> c != [] && y[0] == c[0] && FreeOf(c[1..]) == y[1..])
  {
    hide FreeOf, Tiles;
    FirstTouches(c, from);
  }

  lemma FreedOrder(a: seq<Region>, from: nat, r: Region, c: seq<Region>)
    requires Tiles(a, from) && from + Span(a) == r.addr && r.kind.Live? && Tiles(c, r.addr + Length(r))
    requires forall j :: 0 <= j < |a| ==> RegionOk(a[j])
    ensures Rising(FreeOf(a) + [Freed(r)] + FreeOf(c))
  {
    hide FreeOf, Tiles, Span, Rising;
    FreeOfRises(a, from);
    FreeOfRises(c, r.addr + Length(r));
    RisingSnoc(FreeOf(a), Freed(r), FreeOf(c));
  }

  lemma Place(x: seq<Region>, r: Region, y: seq<Region>)
    ensures var q, k := x + [r] + y, |x|;
      && q[..k] == x && q[k + 1..] == y && q[k] == r && x + y == q[..k] + q[k + 1..]
      && (k > 0 ==> q[k - 1] == x[k - 1] && q[..k - 1] == x[..k - 1])
      && (y != [] ==> q[k + 1] == y[0] && q[k + 2..] == y[1..])
  {
  }

  lemma RisingSnoc(x: seq<Region>, r: Region, y: seq<Region>)
    requires Rising(x) && Rising(y)
    requires forall i :: 0 <= i < |x| ==> x[i].addr < r.addr
    requires forall i :: 0 <= i < |y| ==> r.addr < y[i].addr
    ensures Rising(x + [r] + y)
  {
  }

  /** The parts of the layout on both sides of a region. */
  lemma FreedTiles(p: Pool, i: nat)
    requires Sound(p) && i < |p.regions| && p.regions[i].kind.Live?
    ensures var s := p.regions;
      var a, c := s[..i], s[i + 1..];
      && Tiles(a, p.bump) && p.bump + Span(a) == s[i].addr && Tiles(c, s[i].addr + Length(s[i]))
      && (forall j :: 0 <= j < |a| ==> RegionOk(a[j])) && (forall j :: 0 <= j < |c| ==> RegionOk(c[j]))
      && FreeLast(a) == JoinLeft(s, i) && FreeFirst(c) == JoinRight(s, i)
      && (i > 0 ==> a[i - 1] == s[i - 1] && a[..i - 1] == s[..i - 1])
      && (c != [] ==> c[0] == s[i + 1] && c[1..] == s[i + 2..])
  {
    var s := p.regions;
    var a, c := s[..i], s[i + 1..];
    AddrAt(p, i);
    assert s == a + s[i..] && s[i..][1..] == c;
    TilesConcat(a, s[i..], p.bump);
    assert forall j :: 0 <= j < |s| ==> RegionOk(s[j]);
  }

  /** The last free chunk of a stretch reaches its end exactly if it is the last region. */
  lemma LastTouches(a: seq<Region>, from: nat)
    requires Tiles(a, from) && forall i :: 0 <= i < |a| ==> RegionOk(a[i])
    ensures var q := FreeOf(a);
      && (FreeLast(a) <==> q != [] && q[|q| - 1].addr + q[|q| - 1].size + WORD == from + Span(a))
      && (FreeLast(a) ==> q[|q| - 1] == a[|a| - 1] && FreeOf(a[..|a| - 1]) == q[..|q| - 1])
  {
    if a != [] {
      var n := |a| - 1;
      assert a == a[..n] + [a[n]];
      FreeOfConcat(a[..n], [a[n]]);
      FreeOne(a[n]);
      TilesConcat(a[..n], [a[n]], from);
      SpanConcat(a[..n], [a[n]]);
      One(a[n]);
      FreeOfRises(a[..n], from);
      assert RegionOk(a[n]);
    }
  }

  lemma FirstTouches(c: seq<Region>, from: nat)
    requires Tiles(c, from) && forall i :: 0 <= i < |c| ==> RegionOk(c[i])
    ensures var q := FreeOf(c);
      && (FreeFirst(c) <==> q != [] && q[0].addr == from)
      && (FreeFirst(c) ==> q[0] == c[0] && FreeOf(c[1..]) == q[1..])
  {
    if c != [] {
      FreeOfRises(c[1..], from + Length(c[0]));
      assert RegionOk(c[0]);
    }
  }

  /** Merging with the neighbours that touch. */
  function Merge(q: seq<Region>, k: nat, left: bool, right: bool): seq<Region>
    requires k < |q| && (left ==> k > 0) && (right ==> k + 1 < |q|)
  {
    var q1, k1 := if left then AbsorbAt(q, k - 1) else q, if left then k - 1 else k;
    if right then AbsorbAt(q1, k1) else q1
  }

  lemma ReleaseList(p: Pool, i: nat)
    requires Sound(p) && 0 < i < |p.regions| && p.regions[i].kind.Live?
    ensures var s := p.regions;
      var q, k := WithFreed(s, i), |FreeOf(s[..i])|;
      && k < |q| && (JoinLeft(s, i) ==> k > 0) && (JoinRight(s, i) ==> k + 1 < |q|)
      && FreeOf(Release(p, i).regions) == Merge(q, k, JoinLeft(s, i), JoinRight(s, i))
  {
    var s := p.regions;
    hide FreeOf, Rising, Sound, WithFreed, Merge;
    FreedPlace(p, i);
    ReleaseAs(p, i);
    var from, to := From(s, i), To(s, i);
    var j := Joined(s, i);
    FreeOfConcat(s[..from] + [j], s[to..]);
    FreeOfConcat(s[..from], [j]);
    FreeOne(j);
    var q, k := WithFreed(s, i), |FreeOf(s[..i])|;
    assert FreeOf(s[..i]) == q[..k] && FreeOf(s[i + 1..]) == q[k + 1..] by { FreedParts(s, i); }
    MergeIs(q, k, JoinLeft(s, i), JoinRight(s, i), j);
  }

  lemma FreedParts(s: seq<Region>, i: nat)
    requires i < |s|
    ensures var q, k := WithFreed(s, i), |FreeOf(s[..i])|;
      k < |q| && q[..k] == FreeOf(s[..i]) && q[k + 1..] == FreeOf(s[i + 1..])
  {
  }

  lemma MergeIs(q: seq<Region>, k: nat, left: bool, right: bool, j: Region)
    requires k < |q| && (left ==> k > 0) && (right ==> k + 1 < |q|) && q[k].kind.Free?
    requires j.size == q[k].size + (if left then q[k - 1].size + WORD else 0)
                       + (if right then q[k + 1].size + WORD else 0)
    requires j.addr == (if left then q[k - 1].addr else q[k].addr) && j.kind.Free? && (left ==> q[k - 1].kind.Free?)
    ensures Merge(q, k, left, right) == q[..if left then k - 1 else k] + [j] + q[if right then k + 2 else k + 1..]
  {
    var q1 := if left then AbsorbAt(q, k - 1) else q;
    var k1 := if left then k - 1 else k;
    assert q1[..k1] == q[..k1] && q1[k1 + 1..] == q[k + 1..];
    if right { assert q1[k1 + 1] == q[k + 1] && q1[k1 + 2..] == q[k + 2..]; }
  }

  /** Which records a client's address has. */
  ghost predicate Headed(headers: map<nat, nat>, s: seq<Region>) {
    forall i :: 0 <= i < |s| ==> HeadedAt(headers, s[i])
  }

  ghost predicate HeadedAt(headers: map<nat, nat>, r: Region) {
    r.kind.Live? ==> r.addr in headers && headers[r.addr] == r.size
  }

  class LargePool {
    const top: nat
    var floor: nat
    var bump: nat
    var freeList: Option<nat>
    var heap: Heap
    var headers: map<nat, nat>
    ghost var pool: Pool

    ghost predicate Valid()
      reads this
    {
      && Sound(pool) && pool.floor == floor && pool.top == top && pool.bump == bump
      && ListOk(heap, freeList, FreeOf(pool.regions)) && Headed(headers, pool.regions)
    }

    constructor (floor: nat, top: nat)
      requires floor <= top < SPACE
      ensures Valid() && Apart(pool) && pool == Pool(floor, top, top, [])
    {
      this.floor, this.top, bump := floor, top, top;
      freeList, heap, headers := None, map[], map[];
      pool := Pool(floor, top, top, []);
    }

    /** Walk the free list for the first chunk that is large enough. */
    method FindFit(size: nat) returns (found: Option<nat>)
      requires Valid()
      ensures var q := FreeOf(pool.regions);
        found == AddrOpt(q, ListFit(q, size))
    {
      found := freeList;
      ghost var q, k := FreeOf(pool.regions), 0;
      while found.Some?
        invariant 0 <= k <= |q| && found == AddrOpt(q, k) && forall j :: 0 <= j < k ==> q[j].size < size
        decreases |q| - k
      {
        NearAt(heap, freeList, q, k);
        if heap[found.value].size >= size {
          return;
        }
        found := heap[found.value].next;
        k := k + 1;
      }
    }

    /** A large chunk: the first free one that fits, split if enough is left, else from the bump
        pointer, in wrapping arithmetic.  The size word always says what was asked for. */
    method AllocateLarge(size: nat) returns (r: Outcome)
      requires Valid() && size < SPACE && size + WORD >= RECORD
      modifies this
      ensures Valid() <==> Safe(old(pool), size)
      ensures (pool, r) == Allocate(old(pool), size) && bump == pool.bump && floor == old(floor)
      ensures Safe(old(pool), size) && r.At? ==> r.addr >= WORD && Answered(old(pool), pool, size, r.addr)
      ensures r.At? && FirstFit(old(pool).regions, size) == |old(pool).regions| ==>
        headers == old(headers)[bump := size]
    {
      hide Sound, ListOk, Headed, FreeOf, Granted, Answered;
      ghost var i := FirstFit(pool.regions, size);
      if Safe(pool, size) { AllocateAnswers(pool, size); }
      FitFound(pool.regions, size);
      var found := FindFit(size);
      if found.Some? {
        TakeFree(i, found.value, size);
        return At(found.value + WORD);
      }
      bump := Word(bump - size - WORD);
      if bump < floor {
        bump := Word(bump + size + WORD);
        Restored(pool, size);
        return Exhausted;
      }
      AllocateKeepsIff(pool, size);
      if Bounded(pool, size) { BumpParts(headers, pool, size); }
      headers := headers[bump := size];
      pool := Allocate(pool, size).0;
      r := At(Word(bump + WORD));
    }

    /** Grant the free chunk at addr, whole or split. */
    method TakeFree(ghost i: nat, addr: nat, size: nat)
      requires Valid() && i < |pool.regions| && Fits(pool.regions[i], size) && addr == pool.regions[i].addr
      requires size + WORD >= RECORD
      modifies this
      ensures Valid() && bump == old(bump)
      ensures pool == old(pool).(regions := pool.regions)
      ensures var s := old(pool).regions;
        pool.regions == s[..i] + Granted(s[i], size) + s[i + 1..]
    {
      ghost var s := pool.regions;
      GrantMemory(heap, freeList, pool, i, size);
      AllocateFit(pool, size, i);
      HeadedGranted(headers, pool, i, size);
      hide Sound, Headed, FreeOf, Granted, ListOk, Near;
      var chunk := heap[addr];
      if chunk.size > size && chunk.size - size > RECORD {
        var rest := addr + size + WORD;
        if chunk.prev.None? {
          freeList := Some(rest);
        }
        heap := Replace(heap, addr, rest, chunk.size - size - WORD);
      } else {
        if chunk.prev.None? {
          freeList := chunk.next;
        }
        heap := Detach(heap, addr);
      }
      headers := headers[addr := size];
      pool := pool.(regions := s[..i] + Granted(s[i], size) + s[i + 1..]);
    }

    /** Put a free record for the chunk into the list, by address. */
    method InsertSorted(ghost q: seq<Region>, ghost k: nat, addr: nat, size: nat)
      requires ListOk(heap, freeList, q) && k <= |q| && Rising(q[..k] + [Region(addr, Free, size)] + q[k..])
      modifies this`heap, this`freeList
      ensures ListOk(heap, freeList, q[..k] + [Region(addr, Free, size)] + q[k..])
    {
      ghost var r := Region(addr, Free, size);
      PlaceOf(q, k, r);
      if freeList.None? {
        heap := heap[addr := Node(None, size, None)];
        freeList := Some(addr);
        assert q[..k] + [r] + q[k..] == [r];
        return;
      }
      hide ListOk, Rising;
      ListHead(heap, freeList, q);
      var list := freeList.value;
      ghost var i := 0;
      NearAt(heap, freeList, q, 0);
      while heap[list].next.Some? && list < addr
        invariant heap == old(heap) && freeList == old(freeList)
        invariant 0 <= i < |q| && list == q[i].addr && NodeAt(heap, q, i)
        invariant forall j :: 0 <= j < i ==> q[j].addr < addr
        decreases |q| - i
      {
        NearAt(heap, freeList, q, i + 1);
        list := heap[list].next.value;
        i := i + 1;
      }
      NearAt(heap, freeList, q, i);
      if heap[list].next.None? && list < addr {
        assert k == |q| && q[..k] + [r] + q[k..] == q + [r];
        InsertLastOk(heap, freeList, q, r);
        heap := InsertLast(heap, addr, size, list);
      } else {
        assert k == i;
        InsertBeforeOk(heap, freeList, q, k, r);
        if heap[list].prev.None? {
          freeList := Some(addr);
        }
        heap := InsertBefore(heap, addr, size, list);
      }
    }

    /** Merge the chunk with the neighbours in the list that touch it, the lower one first. */
    method MergeTouching(ghost q: seq<Region>, ghost k: nat, addr: nat)
      requires ListOk(heap, freeList, q) && k < |q| && addr == q[k].addr
      modifies this`heap
      ensures var left := k > 0 && q[k - 1].addr + q[k - 1].size + WORD == addr;
        var right := k + 1 < |q| && addr + q[k].size + WORD == q[k + 1].addr;
        ListOk(heap, freeList, Merge(q, k, left, right))
    {
      hide ListOk;
      NearAt(heap, freeList, q, k);
      if k > 0 { NearAt(heap, freeList, q, k - 1); }
      if k + 1 < |q| { NearAt(heap, freeList, q, k + 1); }
      var lc: nat := addr;
      ghost var q1: seq<Region>, k1: nat := q, k;
      var node := heap[addr];
      if node.prev.Some? && node.prev.value + heap[node.prev.value].size + WORD == addr {
        AbsorbOk(heap, freeList, q, k - 1);
        heap := Absorb(heap, node.prev.value, addr);
        lc := node.prev.value;
        q1, k1 := AbsorbAt(q, k - 1), k - 1;
      }
      NearAt(heap, freeList, q1, k1);
      if k1 + 1 < |q1| { NearAt(heap, freeList, q1, k1 + 1); }
      node := heap[lc];
      if node.next.Some? && lc + node.size + WORD == node.next.value {
        AbsorbOk(heap, freeList, q1, k1);
        heap := Absorb(heap, lc, node.next.value);
      }
    }

    /** Take the next stretch for blocks of small chunks.  The floor moves even if that fails, and
        then it is past the bump pointer. */
    method AllocateBlocks() returns (ok: bool, block: nat)
      requires Valid() && Apart(pool)
      modifies this`floor, this`pool
      ensures Valid() && (pool, ok) == Grow(old(pool)) && block == old(floor)
      ensures ok <==> Apart(pool)
      ensures ok && block + BIG < SPACE ==> block + BIG == floor <= bump
    {
      GrowKeeps(pool);
      hide Sound, ListOk, Headed, FreeOf;
      block := floor;
      floor := Word(floor + BIG);
      pool := Grow(pool).0;
      ok := floor <= bump;
    }

    /** Give back what was granted at `mem`: at the bump pointer by moving it, else by way of the free
        list. */
    method DeallocateLarge(mem: nat)
      requires Valid() && IndexOf(pool.regions, mem) < |pool.regions|
      modifies this
      ensures Valid() && pool == Release(old(pool), IndexOf(old(pool).regions, mem))
    {
      hide Sound, ListOk, Headed, FreeOf, Rising, Merge, WithFreed;
      ghost var s, i := pool.regions, IndexOf(pool.regions, mem);
      ReleaseKeeps(pool, i);
      ReleaseHeaded(headers, pool, i);
      var addr := mem - WORD;
      var size := headers[addr];
      if mem == bump + WORD {
        FirstAtBump(pool, i);
        bump := bump + size + WORD;
      } else {
        FirstAtBump(pool, i);
        FreedPlace(pool, i);
        ReleaseList(pool, i);
        ghost var k, q := |FreeOf(s[..i])|, WithFreed(s, i);
        FreedAround(FreeOf(s), q, k);
        InsertSorted(FreeOf(s), k, addr, size);
        MergeTouching(q, k, addr);
      }
      pool := Release(pool, i);
    }
  }

  /** What granting a free chunk does to the list in memory. */
  lemma GrantMemory(h: Heap, head: Option<nat>, p: Pool, i: nat, size: nat)
    requires Sound(p) && ListOk(h, head, FreeOf(p.regions)) && i < |p.regions| && Fits(p.regions[i], size)
    requires size + WORD >= RECORD
    ensures var s := p.regions;
      var addr, q' := s[i].addr, FreeOf(s[..i] + Granted(s[i], size) + s[i + 1..]);
      && Near(h, addr) && h[addr].size == s[i].size
      && if s[i].size > size && s[i].size - size > RECORD then
           var rest := addr + size + WORD;
           ListOk(Replace(h, addr, rest, s[i].size - size - WORD), if h[addr].prev.Some? then head else Some(rest), q')
         else ListOk(Detach(h, addr), if h[addr].prev.Some? then head else h[addr].next, q')
  {
    hide Sound, FreeOf, Granted, ListOk, Replace, Detach, Rising;
    var s := p.regions;
    var q, k := FreeOf(s), |FreeOf(s[..i])|;
    GrantList(s, size, i);
    NearAt(h, head, q, k);
    if s[i].size > size && s[i].size - size > RECORD {
      SplitRises(p, i, size);
      ReplaceOk(h, head, q, k, Region(s[i].addr + size + WORD, Free, s[i].size - size - WORD));
    } else {
      DetachOk(h, head, q, k);
    }
  }

  /** Taking the bump pointer back is exact, wrapped or not. */
  lemma Restored(p: Pool, size: nat)
    requires Sound(p)
    ensures Word(Bumped(p, size) + size + WORD) == p.bump
  {
  }

  lemma BumpParts(headers: map<nat, nat>, p: Pool, size: nat)
    requires Sound(p) && Headed(headers, p.regions) && p.bump >= size + WORD
    ensures Bumped(p, size) == p.bump - size - WORD
    ensures var r := Region(p.bump - size - WORD, Live, size);
      FreeOf([r] + p.regions) == FreeOf(p.regions) && Headed(headers[r.addr := size], [r] + p.regions)
  {
    var s, r := p.regions, Region(p.bump - size - WORD, Live, size);
    FreeOfConcat([r], s);
    FreeOne(r);
    assert [] + FreeOf(s) == FreeOf(s);
    forall i | 0 <= i < |s| ensures s[i].addr == r.addr || HeadedAt(headers[r.addr := size], s[i]) {
      assert HeadedAt(headers, s[i]);
    }
    HeadedNew(headers[r.addr := size], s, r, p.bump);
  }

  lemma FitFound(s: seq<Region>, size: nat)
    ensures var q, i := FreeOf(s), FirstFit(s, size);
      if i < |s| then AddrOpt(q, ListFit(q, size)) == Some(s[i].addr) else AddrOpt(q, ListFit(q, size)).None?
  {
    ListFitIs(s, size);
    var i := FirstFit(s, size);
    if i < |s| { GrantList(s, size, i); }
  }

  /** A new chunk below all others disturbs no size word. */
  lemma HeadedNew(headers: map<nat, nat>, s: seq<Region>, r: Region, from: nat)
    requires Tiles(s, from) && r.kind.Live? && r.addr in headers && headers[r.addr] == r.size
    requires r.addr < from && forall i :: 0 <= i < |s| ==> s[i].addr == r.addr || HeadedAt(headers, s[i])
    ensures Headed(headers, [r] + s)
  {
    forall i | 0 <= i < |s| ensures HeadedAt(headers, s[i]) {
      if i > 0 { RegionsLieApart(s, from, 0, i); }
    }
  }

  lemma HeadedGranted(headers: map<nat, nat>, p: Pool, i: nat, size: nat)
    requires Sound(p) && Headed(headers, p.regions) && i < |p.regions| && Fits(p.regions[i], size)
    ensures var s := p.regions;
      Headed(headers[s[i].addr := size], s[..i] + Granted(s[i], size) + s[i + 1..])
  {
    var s := p.regions;
    var h', t := headers[s[i].addr := size], s[..i] + Granted(s[i], size) + s[i + 1..];
    forall j | 0 <= j < |t| ensures HeadedAt(h', t[j]) {
      HeadedPart(headers, p, i, size, j);
    }
  }

  lemma HeadedPart(headers: map<nat, nat>, p: Pool, i: nat, size: nat, j: nat)
    requires Sound(p) && Headed(headers, p.regions) && i < |p.regions| && Fits(p.regions[i], size)
    requires j < |p.regions[..i] + Granted(p.regions[i], size) + p.regions[i + 1..]|
    ensures var s := p.regions;
      HeadedAt(headers[s[i].addr := size], (s[..i] + Granted(s[i], size) + s[i + 1..])[j])
  {
    var s, n := p.regions, |Granted(p.regions[i], size)|;
    var t := s[..i] + Granted(s[i], size) + s[i + 1..];
    if j < i {
      assert t[j] == s[j] && HeadedAt(headers, s[j]);
      RegionsLieApart(s, p.bump, j, i);
      assert RegionOk(s[j]);
    } else if j >= i + n {
      var k := j - n + 1;
      assert t[j] == s[k] && HeadedAt(headers, s[k]);
      RegionsLieApart(s, p.bump, i, k);
      assert RegionOk(s[i]);
    }
  }

  /** The rest of a split chunk keeps its place in the order. */
  lemma SplitRises(p: Pool, i: nat, size: nat)
    requires Sound(p) && i < |p.regions| && Fits(p.regions[i], size) && size + WORD >= RECORD
    requires p.regions[i].size > size && p.regions[i].size - size > RECORD
    ensures var s := p.regions;
      var k := |FreeOf(s[..i])|;
      && k < |FreeOf(s)|
      && Rising(FreeOf(s)[k := Region(s[i].addr + size + WORD, Free, s[i].size - size - WORD)])
  {
    AllocateFit(p, size, i);
    var s := p.regions;
    GrantList(s, size, i);
    FreeOfRises(s[..i] + Granted(s[i], size) + s[i + 1..], p.bump);
  }

  lemma ListHead(h: Heap, head: Option<nat>, q: seq<Region>)
    requires ListOk(h, head, q)
    ensures head == AddrOpt(q, 0)
  {
  }

  /** The place of a new chunk among the others. */
  lemma PlaceOf(q: seq<Region>, k: nat, r: Region)
    requires k <= |q| && Rising(q[..k] + [r] + q[k..])
    ensures forall j :: 0 <= j < k ==> q[j].addr < r.addr
    ensures forall j :: k <= j < |q| ==> r.addr < q[j].addr
  {
    var t := q[..k] + [r] + q[k..];
    assert t[k] == r;
    forall j | 0 <= j < k ensures q[j].addr < r.addr { assert t[j] == q[j]; }
    forall j | k <= j < |q| ensures r.addr < q[j].addr { assert t[j + 1] == q[j]; }
  }

  lemma FreedAround(f: seq<Region>, q: seq<Region>, k: nat)
    requires k < |q| && f == q[..k] + q[k + 1..]
    ensures f[..k] + [q[k]] + f[k..] == q
  {
  }

  /** Only the first region starts at the bump pointer; it has no free record. */
  lemma FirstAtBump(p: Pool, i: nat)
    requires Sound(p) && i < |p.regions| && p.regions[i].kind.Live?
    ensures p.regions[i].addr == p.bump <==> i == 0
    ensures i == 0 ==> FreeOf(p.regions[1..]) == FreeOf(p.regions) && Length(p.regions[0]) == p.regions[0].size + WORD
  {
    if i > 0 {
      RegionsLieApart(p.regions, p.bump, 0, i);
      assert RegionOk(p.regions[0]);
    }
  }

  lemma ReleaseHeaded(headers: map<nat, nat>, p: Pool, i: nat)
    requires Headed(headers, p.regions) && i < |p.regions| && p.regions[i].kind.Live?
    ensures p.regions[i].addr in headers && headers[p.regions[i].addr] == p.regions[i].size
    ensures Headed(headers, Release(p, i).regions)
  {
    var s, t := p.regions, Release(p, i).regions;
    assert HeadedAt(headers, s[i]);
    forall j | 0 <= j < |t| ensures HeadedAt(headers, t[j]) {
      if i == 0 {
        assert t[j] == s[j + 1] && HeadedAt(headers, s[j + 1]);
      } else if j < From(s, i) {
        assert t[j] == s[j] && HeadedAt(headers, s[j]);
      } else if j > From(s, i) {
        var k := j - From(s, i) - 1 + To(s, i);
        assert t[j] == s[k] && HeadedAt(headers, s[k]);
      }
    }
  }
}

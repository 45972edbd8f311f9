/** The upper part of the scalable allocator's pool, where large chunks live: the regions from the
    bump pointer to the top, one behind the other.  From below, up to `floor`, come the blocks for
    small chunks.  Addresses and sizes are 64-bit words. */
module LargeChunks {

  /** The size word in front of a chunk, and the record a free chunk must have room for. */
  const WORD: nat := 8
  const RECORD: nat := 24
  /** How much is taken at a time for blocks of small chunks. */
  const BIG: nat := 262144
  /** One more than the largest word. */
  const SPACE: nat := 0x1_0000_0000_0000_0000

  /** Unsigned arithmetic wraps. */
  function Word(x: int): nat {
    x % SPACE
  }

  /** A chunk of `size` bytes behind its size word; or a gap, bytes that were granted beyond the
      request and are never given back. */
  datatype Kind = Live | Free | Gap

  datatype Region = Region(addr: nat, kind: Kind, size: nat)

  function Length(r: Region): nat {
    if r.kind.Gap? then r.size else r.size + WORD
  }

  function Span(s: seq<Region>): nat {
    if s == [] then 0 else Length(s[0]) + Span(s[1..])
  }

  /** The bytes of one kind, size words included. */
  function Bytes(s: seq<Region>, kind: Kind): nat {
    if s == [] then 0 else (if s[0].kind == kind then Length(s[0]) else 0) + Bytes(s[1..], kind)
  }

  datatype Pool = Pool(floor: nat, bump: nat, top: nat, regions: seq<Region>)

  // ---------------------------------------------------------------- the layout

  ghost predicate Tiles(s: seq<Region>, from: nat) {
    s == [] || (s[0].addr == from && Tiles(s[1..], from + Length(s[0])))
  }

  predicate FreeFirst(s: seq<Region>) {
    s != [] && s[0].kind.Free?
  }

  predicate FreeLast(s: seq<Region>) {
    s != [] && s[|s| - 1].kind.Free?
  }

  ghost predicate Coalesced(s: seq<Region>) {
    s == [] || (!(s[0].kind.Free? && FreeFirst(s[1..])) && Coalesced(s[1..]))
  }

  /** Every chunk has room for a free record; a gap is not empty and smaller than a record plus one. */
  predicate RegionOk(r: Region) {
    if r.kind.Gap? then 0 < r.size <= RECORD else r.size + WORD >= RECORD
  }

  ghost predicate AllOk(s: seq<Region>) {
    forall i :: 0 <= i < |s| ==> RegionOk(s[i])
  }

  ghost predicate Sound(p: Pool) {
    && p.floor < SPACE && p.top < SPACE && Tiles(p.regions, p.bump) && p.bump + Span(p.regions) == p.top
    && Coalesced(p.regions) && AllOk(p.regions)
  }

  /** The two ends of the pool have not met. */
  predicate Apart(p: Pool) {
    p.floor <= p.bump
  }

  lemma {:induction false} SpanConcat(a: seq<Region>, b: seq<Region>)
    ensures Span(a + b) == Span(a) + Span(b)
    ensures forall kind :: Bytes(a + b, kind) == Bytes(a, kind) + Bytes(b, kind)
  {
    if a == [] {
      assert a + b == b;
    } else {
      assert (a + b)[1..] == a[1..] + b;
      SpanConcat(a[1..], b);
    }
  }

  lemma {:induction false} TilesConcat(a: seq<Region>, b: seq<Region>, from: nat)
    ensures Tiles(a + b, from) <==> Tiles(a, from) && Tiles(b, from + Span(a))
  {
    if a == [] {
      assert a + b == b;
    } else {
      assert (a + b)[1..] == a[1..] + b;
      TilesConcat(a[1..], b, from + Length(a[0]));
    }
  }

  lemma {:induction false} CoalescedConcat(a: seq<Region>, b: seq<Region>)
    ensures Coalesced(a + b) <==> Coalesced(a) && Coalesced(b) && !(FreeLast(a) && FreeFirst(b))
  {
    if a == [] {
      assert a + b == b;
    } else {
      assert (a + b)[1..] == a[1..] + b;
      CoalescedConcat(a[1..], b);
    }
  }

  /** The span is made of live, free and lost bytes. */
  lemma {:induction false} SpanIsAll(s: seq<Region>)
    ensures Span(s) == Bytes(s, Live) + Bytes(s, Free) + Bytes(s, Gap)
  {
    if s != [] { SpanIsAll(s[1..]); }
  }

  // ---------------------------------------------------------------- taking

  predicate Fits(r: Region, size: nat) {
    r.kind.Free? && r.size >= size
  }

  function FirstFit(s: seq<Region>, size: nat): (i: nat)
    ensures i <= |s| && (i < |s| ==> Fits(s[i], size)) && forall j :: 0 <= j < i ==> !Fits(s[j], size)
  {
    if s == [] || Fits(s[0], size) then 0
    else
      var i := FirstFit(s[1..], size);
      assert forall j :: 1 <= j < i + 1 ==> s[j] == s[1..][j - 1];
      i + 1
  }

  /** A free chunk that leaves room for another record is split, else it is granted whole and what
      is beyond the request is lost. */
  function Granted(r: Region, size: nat): seq<Region>
    requires Fits(r, size)
  {
    var live := Region(r.addr, Live, size);
    if r.size == size then [live]
    else if r.size - size > RECORD then [live, Region(r.addr + size + WORD, Free, r.size - size - WORD)]
    else [live, Region(r.addr + size + WORD, Gap, r.size - size)]
  }

  datatype Outcome = Exhausted | At(addr: nat)

  /** Where the bump pointer would go; the subtraction wraps. */
  function Bumped(p: Pool, size: nat): nat {
    Word(p.bump - size - WORD)
  }

  /** First fit, else from the bump pointer; the client's address is behind the size word. */
  function Allocate(p: Pool, size: nat): (Pool, Outcome) {
    var i := FirstFit(p.regions, size);
    if i < |p.regions| then
      (p.(regions := p.regions[..i] + Granted(p.regions[i], size) + p.regions[i + 1..]),
       At(p.regions[i].addr + WORD))
    else if Bumped(p, size) < p.floor then (p, Exhausted)
    else
      var bump := Bumped(p, size);
      (p.(bump := bump, regions := [Region(bump, Live, size)] + p.regions), At(Word(bump + WORD)))
  }

  /** The pool has a free chunk for the request, or the subtraction does not wrap, or the wrapped
      pointer is refused all the same. */
  predicate Bounded(p: Pool, size: nat) {
    FirstFit(p.regions, size) < |p.regions| || size + WORD <= p.bump || Bumped(p, size) < p.floor
  }

  /** No chunk is granted, or it has room for the record it needs when it is free. */
  predicate Roomy(p: Pool, size: nat) {
    size + WORD >= RECORD || (FirstFit(p.regions, size) == |p.regions| && Bumped(p, size) < p.floor)
  }

  /** The request leaves the pool in order. */
  predicate Safe(p: Pool, size: nat) {
    Bounded(p, size) && Roomy(p, size)
  }

  // ---------------------------------------------------------------- blocks for small chunks

  /** The floor moves up, and stays there even if the answer is that there was no room. */
  function Grow(p: Pool): (Pool, bool) {
    var q := p.(floor := Word(p.floor + BIG));
    (q, q.floor <= p.bump)
  }

  /** How a free tells large chunks from small ones. */
  predicate IsLarge(p: Pool, mem: nat) {
    mem > p.floor
  }

  // ---------------------------------------------------------------- giving back

  function JoinLeft(s: seq<Region>, i: nat): bool
    requires i < |s|
  {
    i > 0 && s[i - 1].kind.Free?
  }

  function JoinRight(s: seq<Region>, i: nat): bool
    requires i < |s|
  {
    i + 1 < |s| && s[i + 1].kind.Free?
  }

  function From(s: seq<Region>, i: nat): nat
    requires i < |s|
  {
    if JoinLeft(s, i) then i - 1 else i
  }

  function To(s: seq<Region>, i: nat): nat
    requires i < |s|
  {
    if JoinRight(s, i) then i + 2 else i + 1
  }

  /** The free chunk that takes the place of chunk i and its free neighbours. */
  function Joined(s: seq<Region>, i: nat): Region
    requires i < |s|
  {
    var size := s[i].size + (if JoinLeft(s, i) then s[i - 1].size + WORD else 0)
                + (if JoinRight(s, i) then s[i + 1].size + WORD else 0);
    Region(if JoinLeft(s, i) then s[i - 1].addr else s[i].addr, Free, size)
  }

  /** A chunk at the bump pointer moves it back, any other becomes free. */
  function Release(p: Pool, i: nat): Pool
    requires i < |p.regions|
  {
    if i == 0 then p.(bump := p.bump + Length(p.regions[0]), regions := p.regions[1..])
    else p.(regions := p.regions[..From(p.regions, i)] + [Joined(p.regions, i)] + p.regions[To(p.regions, i)..])
  }

  // ---------------------------------------------------------------- every operation keeps the layout

  lemma Splice(p: Pool, a: seq<Region>, m: seq<Region>, n: seq<Region>, c: seq<Region>)
    requires Sound(p) && p.regions == a + m + c
    requires Tiles(n, p.bump + Span(a)) && Span(n) == Span(m) && Coalesced(n) && n != [] && AllOk(n)
    requires !(FreeLast(a) && FreeFirst(n)) && !(FreeLast(n) && FreeFirst(c))
    ensures Sound(p.(regions := a + n + c))
    ensures forall k :: Bytes(a + n + c, k) + Bytes(m, k) == Bytes(p.regions, k) + Bytes(n, k)
  {
    hide Tiles, Span, Coalesced, AllOk, Bytes, FreeFirst, FreeLast;
    TilesSplice(a, m, n, c, p.bump);
    CoalescedSplice(a, m, n, c);
    AllOkConcat(a + m, c); AllOkConcat(a, m); AllOkConcat(a, n); AllOkConcat(a + n, c);
  }

  lemma TilesSplice(a: seq<Region>, m: seq<Region>, n: seq<Region>, c: seq<Region>, at: nat)
    requires Tiles(a + m + c, at) && Tiles(n, at + Span(a)) && Span(n) == Span(m)
    ensures Tiles(a + n + c, at) && Span(a + n + c) == Span(a + m + c)
    ensures forall k :: Bytes(a + n + c, k) + Bytes(m, k) == Bytes(a + m + c, k) + Bytes(n, k)
  {
    hide *;
    SpanConcat(a + m, c); SpanConcat(a, m); SpanConcat(a + n, c); SpanConcat(a, n);
    TilesConcat(a + m, c, at); TilesConcat(a, m, at); TilesConcat(a + n, c, at); TilesConcat(a, n, at);
  }

  lemma LastOf(a: seq<Region>, n: seq<Region>)
    requires n != []
    ensures FreeLast(a + n) == FreeLast(n)
  {
  }

  lemma CoalescedSplice(a: seq<Region>, m: seq<Region>, n: seq<Region>, c: seq<Region>)
    requires Coalesced(a + m + c) && Coalesced(n) && n != []
    requires !(FreeLast(a) && FreeFirst(n)) && !(FreeLast(n) && FreeFirst(c))
    ensures Coalesced(a + n + c)
  {
    hide Coalesced, FreeLast, FreeFirst;
    CoalescedConcat(a + m, c); CoalescedConcat(a, m); CoalescedConcat(a + n, c); CoalescedConcat(a, n);
    LastOf(a, n);
  }

  lemma AllOkConcat(a: seq<Region>, b: seq<Region>)
    ensures AllOk(a + b) <==> AllOk(a) && AllOk(b)
  {
    if AllOk(a) && AllOk(b) {
      forall i | 0 <= i < |a + b| ensures RegionOk((a + b)[i]) {}
    }
    if AllOk(a + b) {
      forall i | 0 <= i < |a| ensures RegionOk(a[i]) { assert RegionOk((a + b)[i]); }
      forall i | 0 <= i < |b| ensures RegionOk(b[i]) { assert RegionOk((a + b)[|a| + i]); }
    }
  }

  lemma One(r: Region)
    ensures Tiles([r], r.addr) && Span([r]) == Length(r) && Coalesced([r])
    ensures FreeLast([r]) == FreeFirst([r]) == r.kind.Free?
    ensures forall k :: Bytes([r], k) == if r.kind == k then Length(r) else 0
    ensures AllOk([r]) <==> RegionOk(r)
  {
    assert RegionOk([r][0]) == RegionOk(r);
  }

  lemma Two(r: Region, t: Region)
    requires t.addr == r.addr + Length(r) && r.kind.Live?
    ensures var n := [r, t];
      && Tiles(n, r.addr) && Span(n) == Length(r) + Length(t) && Coalesced(n)
      && !FreeFirst(n) && FreeLast(n) == t.kind.Free?
      && (forall k :: Bytes(n, k) == (if r.kind == k then Length(r) else 0) + (if t.kind == k then Length(t) else 0))
      && (AllOk(n) <==> RegionOk(r) && RegionOk(t))
  {
    One(t);
    assert [r, t][1..] == [t];
    assert RegionOk([r, t][0]) == RegionOk(r) && RegionOk([r, t][1]) == RegionOk(t);
  }

  lemma GrantedFacts(r: Region, size: nat)
    requires Fits(r, size) && size + WORD >= RECORD
    ensures var n := Granted(r, size);
      && Tiles(n, r.addr) && Span(n) == Length(r) && Coalesced(n) && AllOk(n) && n != []
      && !FreeFirst(n) && Bytes(n, Live) == size + WORD && Bytes(n, Gap) <= RECORD
  {
    var live := Region(r.addr, Live, size);
    if r.size == size { One(live); }
    else { Two(live, Granted(r, size)[1]); }
  }

  lemma {:induction false} CoalescedAt(s: seq<Region>, j: nat)
    requires Coalesced(s) && j + 1 < |s|
    ensures !(s[j].kind.Free? && s[j + 1].kind.Free?)
  {
    if j > 0 { CoalescedAt(s[1..], j - 1); }
  }

  lemma AddrAt(p: Pool, i: nat)
    requires Sound(p) && i < |p.regions|
    ensures p.regions[i].addr == p.bump + Span(p.regions[..i]) && Tiles(p.regions[i..], p.regions[i].addr)
  {
    var a, b := p.regions[..i], p.regions[i..];
    assert p.regions == a + b;
    TilesConcat(a, b, p.bump);
  }

  /** Granting keeps the layout; the live bytes grow by the request and its size word; the lost
      bytes grow by at most one record, and only when a chunk is granted whole. */
  lemma AllocateKeeps(p: Pool, size: nat)
    requires Sound(p) && size < SPACE && Safe(p, size)
    ensures var (q, r) := Allocate(p, size);
      && Sound(q) && q.top == p.top && q.floor == p.floor && (Apart(p) ==> Apart(q))
      && (r.Exhausted? ==> q == p)
      && (r.At? ==> Bytes(q.regions, Live) == Bytes(p.regions, Live) + size + WORD)
      && Bytes(p.regions, Gap) <= Bytes(q.regions, Gap) <= Bytes(p.regions, Gap) + RECORD
  {
    var i := FirstFit(p.regions, size);
    if i < |p.regions| {
      AllocateFit(p, size, i);
    } else if Bumped(p, size) >= p.floor {
      var r := Region(p.bump - size - WORD, Live, size);
      One(r);
      SpanConcat([r], p.regions);
      TilesConcat([r], p.regions, r.addr);
      CoalescedConcat([r], p.regions);
      AllOkConcat([r], p.regions);
    }
  }

  /** Exactly then: a request that is not bounded is granted with the bump pointer outside the
      pool's layout, and one of less than 16 bytes with less room than its record needs. */
  lemma AllocateKeepsIff(p: Pool, size: nat)
    requires Sound(p) && size < SPACE
    ensures Sound(Allocate(p, size).0) <==> Safe(p, size)
    ensures !Bounded(p, size) ==> Allocate(p, size).1.At? && Allocate(p, size).0.bump + size + WORD >= SPACE
  {
    if Safe(p, size) {
      AllocateKeeps(p, size);
    } else if Bounded(p, size) {
      TooSmall(p, size);
    } else {
      var q := Allocate(p, size).0;
      assert q.regions[1..] == p.regions;
      assert q.bump + size + WORD != p.bump;
      if p.regions != [] { assert q.regions[1].addr == p.bump; }
    }
  }

  lemma TooSmall(p: Pool, size: nat)
    requires !Roomy(p, size)
    ensures !Sound(Allocate(p, size).0)
  {
    var i, q := FirstFit(p.regions, size), Allocate(p, size).0;
    if i < |p.regions| {
      assert q.regions[i] == Region(p.regions[i].addr, Live, size);
      assert !RegionOk(q.regions[i]);
    } else {
      assert !RegionOk(q.regions[0]);
    }
  }

  /** The record that is written into a chunk when it is freed stays clear of the next region exactly
      if the chunk is of 16 bytes or more. */
  lemma RecordStaysClearIff(s: seq<Region>, from: nat, i: nat)
    requires Tiles(s, from) && i + 1 < |s| && s[i].kind.Live?
    ensures s[i].addr + RECORD <= s[i + 1].addr <==> s[i].size >= 16
  {
    NextTouches(s, from, i);
  }

  lemma {:induction false} NextTouches(s: seq<Region>, from: nat, i: nat)
    requires Tiles(s, from) && i + 1 < |s|
    ensures s[i + 1].addr == s[i].addr + Length(s[i])
    decreases |s|
  {
    if i > 0 { NextTouches(s[1..], from + Length(s[0]), i - 1); }
  }

  /** With a table whose last bin is 7 a request of 8 bytes is a large one.  After three of them the
      record that a free writes into the middle one, which is not at the bump pointer, reaches over
      the size word of the upper one. */
  lemma RecordOverNextChunk(p: Pool, size: nat, p1: Pool, p2: Pool, p3: Pool)
    requires p == Pool(0x10_0000, 0x18_0000, 0x18_0000, []) && size == 8
    requires p1 == Allocate(p, size).0 && p2 == Allocate(p1, size).0 && p3 == Allocate(p2, size).0
    ensures Sound(p) && !Sound(p1) && p1.bump + 16 == p.top && p2.bump + 16 == p1.bump && p3.bump + 16 == p2.bump
    ensures p3.regions == [Region(p3.bump, Live, 8), Region(p2.bump, Live, 8), Region(p1.bump, Live, 8)]
    ensures p3.bump < p2.bump && p2.bump + RECORD > p1.bump
  {
    hide Word, Sound, Allocate;
    EmptySound(p);
    FromBump(p, size);
    Wrapped(p.bump - 16);
    AllocateKeepsIff(p, size);
    NoFreeYet(p1, size);
    Wrapped(p1.bump - 16);
    NoFreeYet(p2, size);
    Wrapped(p2.bump - 16);
  }

  lemma NoFreeYet(p: Pool, size: nat)
    requires forall i :: 0 <= i < |p.regions| ==> p.regions[i].kind.Live?
    ensures var bump := Word(p.bump - size - WORD);
      bump >= p.floor ==> Allocate(p, size).0 == p.(bump := bump, regions := [Region(bump, Live, size)] + p.regions)
  {
  }

  lemma Wrapped(x: int)
    requires 0 <= x + SPACE && x < SPACE
    ensures (x < 0 ==> Word(x) == x + SPACE) && (x >= 0 ==> Word(x) == x)
  {
  }

  lemma FromBump(p: Pool, size: nat)
    requires p.regions == []
    ensures FirstFit(p.regions, size) == |p.regions|
    ensures var bump := Word(p.bump - size - WORD);
      Allocate(p, size) ==
        if bump < p.floor then (p, Exhausted)
        else (p.(bump := bump, regions := [Region(bump, Live, size)]), At(Word(bump + WORD)))
  {
    var bump := Word(p.bump - size - WORD);
    assert [Region(bump, Live, size)] + p.regions == [Region(bump, Live, size)];
  }

  lemma EmptySound(p: Pool)
    requires p.regions == [] && p.floor < SPACE && p.bump == p.top < SPACE
    ensures Sound(p)
  {
  }

  /** A pool of 2^30 bytes at 2^40, and a request of 2^64 - 16 bytes: it is granted, and the bump
      pointer is behind the top. */
  lemma WrappedGrant(p: Pool, size: nat)
    requires p == Pool(0x100_0000_0000, 0x100_4000_0000, 0x100_4000_0000, []) && size == SPACE - 16
    ensures Sound(p) && !Sound(Allocate(p, size).0)
    ensures Allocate(p, size).1 == At(p.top + 16) && Allocate(p, size).0.bump == p.top + 8
  {
    hide Word, Sound, Allocate, FirstFit;
    FromBump(p, size);
    EmptySound(p);
    AllocateKeepsIff(p, size);
    Wrapped(p.top - size - WORD);
    Wrapped(p.top + 16);
  }

  /** Growing keeps the upper part as it is; the ends stay apart exactly if there was room. */
  lemma GrowKeeps(p: Pool)
    requires Sound(p) && Apart(p)
    ensures var (q, ok) := Grow(p);
      && Sound(q) && q == p.(floor := q.floor) && (ok <==> Apart(q))
      && (HasRoom(p) <==> Apart(q) && q.floor == p.floor + BIG)
      && (p.floor + BIG < SPACE ==> (ok <==> HasRoom(p)))
  {
  }

  /** There is room for another stretch between the ends. */
  predicate HasRoom(p: Pool) {
    p.floor + BIG <= p.bump
  }

  /** While the ends are apart every chunk of the upper part is taken for a large one. */
  lemma LargeIsLarge(p: Pool, i: nat)
    requires Sound(p) && Apart(p) && i < |p.regions|
    ensures IsLarge(p, p.regions[i].addr + WORD)
  {
    AddrAt(p, i);
  }

  predicate AllKnown(p: Pool) {
    forall i :: 0 <= i < |p.regions| ==> IsLarge(p, p.regions[i].addr + WORD)
  }

  /** Every chunk of the upper part is taken for a large one exactly if the floor is below the first
      of them, its size word included. */
  lemma AllKnownIff(p: Pool)
    requires Sound(p)
    ensures AllKnown(p) <==> p.regions == [] || p.floor < p.bump + WORD
  {
    forall i | 0 <= i < |p.regions| && p.floor < p.bump + WORD ensures IsLarge(p, p.regions[i].addr + WORD) {
      AddrAt(p, i);
    }
    if p.regions != [] && AllKnown(p) { assert IsLarge(p, p.regions[0].addr + WORD); }
  }

  /** After a growth that failed a live chunk is taken for a small one exactly if it lies below the
      floor that was left there. */
  lemma MistakenIff(p: Pool, i: nat)
    requires Sound(p) && Apart(p) && i < |p.regions| && p.floor + BIG < SPACE && !Grow(p).1
    ensures var q := Grow(p).0;
      IsLarge(q, q.regions[i].addr + WORD) <==> p.floor + BIG < p.regions[i].addr + WORD
    ensures IsLarge(p, p.regions[i].addr + WORD)
  {
    LargeIsLarge(p, i);
  }

  /** A pool with room for one growth only: after the second the one chunk, just granted and large
      under the default table, is taken for a small one. */
  lemma MistakenChunk(p: Pool)
    requires p == Pool(0x10_0000, 0x18_0000, 0x18_0000, [])
    ensures var (p1, r) := Allocate(p, 8193);
      var (p2, ok1) := Grow(p1);
      var (p3, ok2) := Grow(p2);
      Sound(p) && r.At? && ok1 && !ok2 && IsLarge(p2, r.addr) && !IsLarge(p3, r.addr)
  {
    hide Word, Sound, Allocate;
    FromBump(p, 8193);
    Wrapped(p.bump - 8201);
    Wrapped(p.bump - 8193);
    Wrapped(p.floor + BIG);
    Wrapped(p.floor + BIG + BIG);
    EmptySound(p);
  }

  lemma AllocateFit(p: Pool, size: nat, i: nat)
    requires Sound(p) && size + WORD >= RECORD && i < |p.regions| && Fits(p.regions[i], size)
    ensures var s := p.regions;
      var n := s[..i] + Granted(s[i], size) + s[i + 1..];
      && Sound(p.(regions := n)) && Bytes(n, Live) == Bytes(s, Live) + size + WORD
      && Bytes(s, Gap) <= Bytes(n, Gap) <= Bytes(s, Gap) + RECORD
  {
    var s := p.regions;
    var a, c := s[..i], s[i + 1..];
    assert s == a + [s[i]] + c;
    AddrAt(p, i);
    GrantedFacts(s[i], size);
    if c != [] { CoalescedAt(s, i); }
    One(s[i]);
    hide Sound, Granted, Tiles, Coalesced, AllOk, Span, Bytes;
    Splice(p, a, [s[i]], Granted(s[i], size), c);
    var n := a + Granted(s[i], size) + c;
    assert Bytes(n, Live) + Bytes([s[i]], Live) == Bytes(s, Live) + Bytes(Granted(s[i], size), Live);
    assert Bytes(n, Gap) + Bytes([s[i]], Gap) == Bytes(s, Gap) + Bytes(Granted(s[i], size), Gap);
  }

  lemma ReleaseAs(p: Pool, i: nat)
    requires 0 < i < |p.regions|
    ensures var s := p.regions;
      var from, to := From(s, i), To(s, i);
      && s == s[..from] + s[from..to] + s[to..] && Release(p, i).regions == s[..from] + [Joined(s, i)] + s[to..]
      && s[from..to] == s[from..i] + [s[i]] + s[i + 1..to]
  {
  }

  lemma JoinedFacts(p: Pool, i: nat)
    requires Sound(p) && 0 < i < |p.regions| && p.regions[i].kind.Live?
    ensures var s := p.regions;
      var from, to := From(s, i), To(s, i);
      && Length(Joined(s, i)) == Span(s[from..to]) && Joined(s, i).addr == p.bump + Span(s[..from])
      && !FreeLast(s[..from]) && !FreeFirst(s[to..]) && RegionOk(Joined(s, i))
      && Bytes(s[from..to], Live) == Length(s[i]) && Bytes(s[from..to], Gap) == 0
  {
    var s := p.regions;
    var from, to := From(s, i), To(s, i);
    AddrAt(p, from);
    if JoinLeft(s, i) && i >= 2 { CoalescedAt(s, i - 2); }
    if JoinRight(s, i) && i + 2 < |s| { CoalescedAt(s, i + 1); }
    assert RegionOk(s[i]);
    hide Sound;
    StretchBytes(s, i);
  }

  lemma StretchBytes(s: seq<Region>, i: nat)
    requires 0 < i < |s| && s[i].kind.Live?
    ensures var m := s[From(s, i)..To(s, i)];
      Span(m) == Length(Joined(s, i)) && Bytes(m, Live) == Length(s[i]) && Bytes(m, Gap) == 0
  {
    var left, right := s[From(s, i)..i], s[i + 1..To(s, i)];
    assert s[From(s, i)..To(s, i)] == left + [s[i]] + right;
    SpanConcat(left + [s[i]], right);
    SpanConcat(left, [s[i]]);
    One(s[i]);
    if JoinLeft(s, i) { assert left == [s[i - 1]]; One(s[i - 1]); }
    if JoinRight(s, i) { assert right == [s[i + 1]]; One(s[i + 1]); }
  }

  /** Giving back keeps the layout: exactly the chunk's bytes leave the live side, none are lost. */
  lemma ReleaseKeeps(p: Pool, i: nat)
    requires Sound(p) && i < |p.regions| && p.regions[i].kind.Live?
    ensures var q := Release(p, i);
      && Sound(q) && q.top == p.top && Bytes(q.regions, Live) + Length(p.regions[i]) == Bytes(p.regions, Live)
      && Bytes(q.regions, Gap) == Bytes(p.regions, Gap)
  {
    if i == 0 {
      assert p.regions == [p.regions[0]] + p.regions[1..];
      AllOkConcat([p.regions[0]], p.regions[1..]);
    } else {
      ReleaseInside(p, i);
    }
  }

  lemma ReleaseInside(p: Pool, i: nat)
    requires Sound(p) && 0 < i < |p.regions| && p.regions[i].kind.Live?
    ensures var q := Release(p, i);
      && Sound(q) && q.top == p.top && Bytes(q.regions, Live) + Length(p.regions[i]) == Bytes(p.regions, Live)
      && Bytes(q.regions, Gap) == Bytes(p.regions, Gap)
  {
    var s := p.regions;
    var from, to := From(s, i), To(s, i);
    ReleaseAs(p, i);
    JoinedFacts(p, i);
    One(Joined(s, i));
    hide Sound, Tiles, Coalesced, AllOk, Span, Bytes, Joined, From, To;
    var a, m, n, c := s[..from], s[from..to], [Joined(s, i)], s[to..];
    Splice(p, a, m, n, c);
    assert Bytes(a + n + c, Live) + Bytes(m, Live) == Bytes(s, Live) + Bytes(n, Live);
    assert Bytes(a + n + c, Gap) + Bytes(m, Gap) == Bytes(s, Gap) + Bytes(n, Gap);
    assert Joined(s, i).kind.Free? by { JoinedIsFree(s, i); }
  }

  lemma JoinedIsFree(s: seq<Region>, i: nat)
    requires i < |s|
    ensures Joined(s, i).kind.Free?
  {
  }

  // ---------------------------------------------------------------- runs

  /** A client frees the address it was given; any other address is its own fault. */
  datatype Action = Take(size: nat) | Give(addr: nat) | Extend

  function IndexOf(s: seq<Region>, addr: nat): (i: nat)
    ensures i <= |s| && (i < |s| ==> s[i].kind.Live? && s[i].addr + WORD == addr)
    ensures forall j :: 0 <= j < i ==> !(s[j].kind.Live? && s[j].addr + WORD == addr)
  {
    if s == [] || (s[0].kind.Live? && s[0].addr + WORD == addr) then 0
    else
      var i := IndexOf(s[1..], addr);
      assert forall j :: 1 <= j < i + 1 ==> s[j] == s[1..][j - 1];
      i + 1
  }

  function Apply(p: Pool, a: Action): Pool {
    match a
    case Take(size) => Allocate(p, size).0
    case Give(addr) => if IndexOf(p.regions, addr) < |p.regions| then Release(p, IndexOf(p.regions, addr)) else p
    case Extend => Grow(p).0
  }

  /** Requests are words. */
  predicate IsWord(a: Action) {
    a.Take? ==> a.size < SPACE
  }

  predicate AllWords(schedule: seq<Action>) {
    forall k :: 0 <= k < |schedule| ==> IsWord(schedule[k])
  }

  ghost function Run(p: Pool, schedule: seq<Action>): Pool
    decreases |schedule|
  {
    if schedule == [] then p else Run(Apply(p, schedule[0]), schedule[1..])
  }

  /** The state holds before, between and after the steps of a run. */
  ghost predicate AllSound(p: Pool, schedule: seq<Action>)
    decreases |schedule|
  {
    Sound(p) && (schedule != [] ==> AllSound(Apply(p, schedule[0]), schedule[1..]))
  }

  /** Each request is safe when it comes. */
  ghost predicate AllSafe(p: Pool, schedule: seq<Action>)
    decreases |schedule|
  {
    schedule == [] ||
    ((schedule[0].Take? ==> Safe(p, schedule[0].size)) && AllSafe(Apply(p, schedule[0]), schedule[1..]))
  }

  lemma ApplyKeeps(p: Pool, a: Action)
    requires Sound(p) && IsWord(a)
    ensures Sound(Apply(p, a)) <==> (a.Take? ==> Safe(p, a.size))
    ensures var q := Apply(p, a);
      && (Sound(q) ==> q.top == p.top && Bytes(q.regions, Gap) <= Bytes(p.regions, Gap) + RECORD)
      && (Sound(q) && !a.Extend? && Apart(p) ==> Apart(q))
  {
    hide Bytes, Safe;
    match a {
      case Take(size) =>
        AllocateKeepsIff(p, size);
        if Safe(p, size) { AllocateKeeps(p, size); }
      case Give(addr) =>
        var i := IndexOf(p.regions, addr);
        if i < |p.regions| { ReleaseKeeps(p, i); }
      case Extend =>
    }
  }

  /** Over any run the layout holds all along exactly if every request is safe when it comes. */
  lemma {:induction false} LargeRunsSoundIff(p: Pool, schedule: seq<Action>)
    requires Sound(p) && AllWords(schedule)
    ensures AllSound(p, schedule) <==> AllSafe(p, schedule)
    decreases |schedule|
  {
    if schedule != [] {
      var a := schedule[0];
      assert IsWord(a);
      ApplyKeeps(p, a);
      hide Sound, Apply, Safe;
      if Sound(Apply(p, a)) { LargeRunsSoundIff(Apply(p, a), schedule[1..]); }
    }
  }

  /** Over any such run of requests, frees and growths: the space from the bump pointer to the top is
      exactly live, free and lost bytes; the free chunks are in ascending order, apart from the live
      ones, and no two of them adjacent; and at most one record is lost for each request. */
  lemma {:induction false} LargeRunsConserve(p: Pool, schedule: seq<Action>)
    requires Sound(p) && AllWords(schedule) && AllSafe(p, schedule)
    ensures var q := Run(p, schedule);
      && Sound(q) && q.top == p.top
      && q.top - q.bump == Bytes(q.regions, Live) + Bytes(q.regions, Free) + Bytes(q.regions, Gap)
      && Bytes(q.regions, Gap) <= Bytes(p.regions, Gap) + RECORD * |schedule|
    decreases |schedule|
  {
    SpanIsAll(p.regions);
    if schedule != [] {
      var a := schedule[0];
      assert IsWord(a);
      ApplyKeeps(p, a);
      hide Sound, Bytes, Apply, Safe;
      LargeRunsConserve(Apply(p, a), schedule[1..]);
    }
  }

  /** The ends are apart before, between and after the steps, and each growth moves the floor up by a
      whole stretch. */
  ghost predicate AllApart(p: Pool, schedule: seq<Action>)
    decreases |schedule|
  {
    && Apart(p)
    && (schedule != [] ==>
          var q := Apply(p, schedule[0]);
          (schedule[0].Extend? ==> q.floor == p.floor + BIG) && AllApart(q, schedule[1..]))
  }

  /** There is room for each growth when it comes. */
  ghost predicate AllHaveRoom(p: Pool, schedule: seq<Action>)
    decreases |schedule|
  {
    schedule == [] || ((schedule[0].Extend? ==> HasRoom(p)) && AllHaveRoom(Apply(p, schedule[0]), schedule[1..]))
  }

  /** The two ends of the pool stay apart all along exactly if there is room for each growth when it
      comes; and then every live chunk is known as a large one. */
  lemma {:induction false} EndsStayApartIff(p: Pool, schedule: seq<Action>)
    requires Sound(p) && Apart(p) && AllWords(schedule) && AllSafe(p, schedule)
    ensures AllApart(p, schedule) <==> AllHaveRoom(p, schedule)
    ensures AllHaveRoom(p, schedule) ==> Apart(Run(p, schedule)) && AllKnown(Run(p, schedule))
    decreases |schedule|
  {
    if schedule == [] {
      AllKnownIff(p);
    } else {
      var a := schedule[0];
      assert IsWord(a);
      ApplyKeeps(p, a);
      var q := Apply(p, a);
      assert a.Extend? ==> (HasRoom(p) <==> Apart(q) && q.floor == p.floor + BIG) by {
        if a.Extend? { GrowKeeps(p); }
      }
      hide Sound, Apply, Safe, IsLarge, HasRoom;
      if Apart(q) { EndsStayApartIff(q, schedule[1..]); }
    }
  }

  /** Freeing at once what was just granted from the bump pointer undoes it. */
  lemma ReleaseUndoesBump(p: Pool, size: nat)
    requires Sound(p) && FirstFit(p.regions, size) == |p.regions| && p.bump >= p.floor + size + WORD
    ensures var (q, r) := Allocate(p, size);
      r.At? && IndexOf(q.regions, r.addr) == 0 && Release(q, 0) == p
  {
    var (q, r) := Allocate(p, size);
    assert q.regions[0].kind.Live? && q.regions[1..] == p.regions;
  }

  /** Regions further on lie behind the earlier ones. */
  lemma {:induction false} RegionsLieApart(s: seq<Region>, from: nat, i: nat, j: nat)
    requires Tiles(s, from) && i < j < |s|
    ensures s[i].addr + Length(s[i]) <= s[j].addr && from <= s[i].addr
    decreases |s|
  {
    if i > 0 {
      RegionsLieApart(s[1..], from + Length(s[0]), i - 1, j - 1);
    } else if j > 1 {
      RegionsLieApart(s[1..], from + Length(s[0]), 0, j - 1);
    }
  }
}

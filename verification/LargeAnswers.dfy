/** What a request for a large chunk is answered: an address at which a chunk of just that size is now
    live, and that a free takes back. */
module LargeAnswers {
  import opened LargeChunks

  /** The live chunks, in the order of their addresses. */
  function Lives(s: seq<Region>): seq<Region> {
    if s == [] then [] else (if s[0].kind.Live? then [s[0]] else []) + Lives(s[1..])
  }

  lemma {:induction false} LivesConcat(a: seq<Region>, b: seq<Region>)
    ensures Lives(a + b) == Lives(a) + Lives(b)
  {
    if a == [] {
      assert a + b == b;
    } else {
      assert (a + b)[1..] == a[1..] + b;
      LivesConcat(a[1..], b);
      Assoc(if a[0].kind.Live? then [a[0]] else [], Lives(a[1..]), Lives(b));
    }
  }

  lemma Assoc(x: seq<Region>, y: seq<Region>, z: seq<Region>)
    ensures x + (y + z) == (x + y) + z
  {
  }

  lemma LivesOne(r: Region)
    ensures Lives([r]) == if r.kind.Live? then [r] else []
  {
    assert [r][1..] == [];
  }

  /** The live chunks other than the one in place i. */
  function Others(s: seq<Region>, i: nat): seq<Region>
    requires i < |s|
  {
    Lives(s[..i]) + Lives(s[i + 1..])
  }

  lemma LivesThree(a: seq<Region>, m: seq<Region>, c: seq<Region>)
    ensures Lives(a + m + c) == Lives(a) + Lives(m) + Lives(c)
  {
    LivesConcat(a + m, c);
    LivesConcat(a, m);
  }

  lemma NotLive(s: seq<Region>, i: nat)
    requires i < |s| && !s[i].kind.Live?
    ensures Lives(s) == Others(s, i)
  {
    assert s == s[..i] + [s[i]] + s[i + 1..];
    LivesThree(s[..i], [s[i]], s[i + 1..]);
    LivesOne(s[i]);
    assert Lives(s[..i]) + [] == Lives(s[..i]);
  }

  /** No two regions start at the same address. */
  lemma OneRegionAt(p: Pool, i: nat, j: nat)
    requires Sound(p) && i < |p.regions| && j < |p.regions| && p.regions[i].addr == p.regions[j].addr
    ensures i == j
  {
    assert RegionOk(p.regions[i]) && RegionOk(p.regions[j]);
    if i < j { RegionsLieApart(p.regions, p.bump, i, j); }
    if j < i { RegionsLieApart(p.regions, p.bump, j, i); }
  }

  lemma FoundAt(p: Pool, i: nat)
    requires Sound(p) && i < |p.regions| && p.regions[i].kind.Live?
    ensures IndexOf(p.regions, p.regions[i].addr + WORD) == i
  {
    var j := IndexOf(p.regions, p.regions[i].addr + WORD);
    assert !(j > i);
    OneRegionAt(p, i, j);
  }

  lemma NotFound(p: Pool, addr: nat)
    requires Sound(p)
    requires forall i :: 0 <= i < |p.regions| && p.regions[i].kind.Live? ==> p.regions[i].addr + WORD != addr
    ensures IndexOf(p.regions, addr) == |p.regions|
  {
  }

  /** What the answer to a request means. */
  ghost predicate Answered(p: Pool, q: Pool, size: nat, addr: nat) {
    var i := IndexOf(q.regions, addr);
    && i < |q.regions| && q.regions[i] == Region(addr - WORD, Live, size)
    && Others(q.regions, i) == Lives(p.regions)
    && IndexOf(p.regions, addr) == |p.regions|
  }

  /** A request that is granted is answered with the address of a chunk of exactly the size asked for,
      behind its size word, that was not live before; all other live chunks are as they were. */
  lemma AllocateAnswers(p: Pool, size: nat)
    requires Sound(p) && size < SPACE && Safe(p, size)
    ensures var (q, r) := Allocate(p, size);
      r.At? ==> r.addr >= WORD && Answered(p, q, size, r.addr)
  {
    hide *;
    StaysSound(p, size);
    CaseOfAnswer(p, size);
    var i := FirstFit(p.regions, size);
    if i < |p.regions| {
      FitAnswers(p, size, i);
    } else if Bumped(p, size) >= p.floor {
      BumpAnswers(p, size);
    }
  }

  lemma StaysSound(p: Pool, size: nat)
    requires Sound(p) && size < SPACE && Safe(p, size)
    ensures Sound(Allocate(p, size).0) && Bounded(p, size)
  {
    AllocateKeeps(p, size);
  }

  lemma CaseOfAnswer(p: Pool, size: nat)
    ensures var (i, r) := (FirstFit(p.regions, size), Allocate(p, size).1);
      && i <= |p.regions| && (i < |p.regions| ==> r == At(p.regions[i].addr + WORD))
      && (i == |p.regions| && Bumped(p, size) < p.floor ==> r.Exhausted?)
  {
  }

  /** No free chunk is as large as the request. */
  ghost predicate NoneFits(s: seq<Region>, size: nat) {
    forall i :: 0 <= i < |s| && s[i].kind.Free? ==> s[i].size < size
  }

  /** A request is refused exactly if no free chunk is as large and there is no room for it and its
      size word above the floor. */
  lemma RefusedIff(p: Pool, size: nat)
    requires Sound(p) && size < SPACE && Bounded(p, size)
    ensures Allocate(p, size).1.Exhausted? <==> NoneFits(p.regions, size) && p.bump < p.floor + size + WORD
  {
    var i := FirstFit(p.regions, size);
    if i < |p.regions| {
      assert Fits(p.regions[i], size);
    } else {
      assert NoneFits(p.regions, size) by {
        forall j | 0 <= j < |p.regions| && p.regions[j].kind.Free? ensures p.regions[j].size < size {
          assert !Fits(p.regions[j], size);
        }
      }
      InRoom(p, size);
    }
  }

  lemma InRoom(p: Pool, size: nat)
    requires Sound(p) && size < SPACE && Bounded(p, size) && FirstFit(p.regions, size) == |p.regions|
    ensures Bumped(p, size) < p.floor <==> p.bump < p.floor + size + WORD
  {
    if size + WORD <= p.bump { assert Bumped(p, size) == p.bump - size - WORD; }
  }

  /** A chunk that was freed before is preferred, and of those the lowest that is large enough. */
  lemma LowestIsTaken(p: Pool, size: nat, i: nat)
    requires Sound(p) && i < |p.regions| && Fits(p.regions[i], size)
    ensures var (q, r) := Allocate(p, size);
      r.At? && WORD <= r.addr <= p.regions[i].addr + WORD && q.bump == p.bump
  {
    var k := FirstFit(p.regions, size);
    if k < i { RegionsLieApart(p.regions, p.bump, k, i); }
  }

  /** Where the parts of a list are once n stands in place i. */
  lemma PutInPlace(s: seq<Region>, i: nat, n: seq<Region>, q: seq<Region>)
    requires i < |s| && n != [] && q == s[..i] + n + s[i + 1..]
    ensures i < |q| && q[i] == n[0] && q[..i] == s[..i] && q[i + 1..] == n[1..] + s[i + 1..]
  {
  }

  lemma GrantedLives(r: Region, size: nat)
    requires Fits(r, size)
    ensures Granted(r, size) != [] && Granted(r, size)[0] == Region(r.addr, Live, size)
    ensures Lives(Granted(r, size)[1..]) == []
  {
    var n := Granted(r, size);
    if |n| > 1 {
      assert n[1..] == [n[1]];
      LivesOne(n[1]);
    }
  }

  lemma FitAnswers(p: Pool, size: nat, i: nat)
    requires Sound(p) && i == FirstFit(p.regions, size) < |p.regions| && Sound(Allocate(p, size).0)
    ensures Answered(p, Allocate(p, size).0, size, p.regions[i].addr + WORD)
  {
    var q, s := Allocate(p, size).0, p.regions;
    var n := Granted(s[i], size);
    hide Sound, Granted, Others, Lives, FirstFit;
    GrantedLives(s[i], size);
    PutInPlace(s, i, n, q.regions);
    FoundAt(q, i);
    OthersOfGrant(s, i, n, q.regions);
    NewAddress(p, i);
  }

  lemma OthersOfGrant(s: seq<Region>, i: nat, n: seq<Region>, q: seq<Region>)
    requires i < |s| && !s[i].kind.Live? && i < |q| && n != [] && Lives(n[1..]) == []
    requires q[..i] == s[..i] && q[i + 1..] == n[1..] + s[i + 1..]
    ensures Others(q, i) == Lives(s)
  {
    hide Lives;
    LivesConcat(n[1..], s[i + 1..]);
    assert [] + Lives(s[i + 1..]) == Lives(s[i + 1..]);
    NotLive(s, i);
  }

  lemma NewAddress(p: Pool, i: nat)
    requires Sound(p) && i < |p.regions| && !p.regions[i].kind.Live?
    ensures IndexOf(p.regions, p.regions[i].addr + WORD) == |p.regions|
  {
    hide Sound;
    var s := p.regions;
    forall j | 0 <= j < |s| && s[j].kind.Live? ensures s[j].addr + WORD != s[i].addr + WORD {
      if s[j].addr == s[i].addr { OneRegionAt(p, i, j); }
    }
    NotFound(p, s[i].addr + WORD);
  }

  lemma BumpAnswers(p: Pool, size: nat)
    requires Sound(p) && FirstFit(p.regions, size) == |p.regions| && Bumped(p, size) >= p.floor
    requires Bounded(p, size) && Sound(Allocate(p, size).0) && size < SPACE
    ensures var (q, r) := Allocate(p, size);
      r.At? && r.addr >= WORD && Answered(p, q, size, r.addr)
  {
    var (q, r) := Allocate(p, size);
    BumpedPlain(p, size);
    hide Sound, Lives, FirstFit;
    assert q.regions[0] == Region(q.bump, Live, size) && q.regions[1..] == p.regions;
    FoundAt(q, 0);
    assert q.regions[..0] == [] && [] + Lives(p.regions) == Lives(p.regions);
    NoLives();
    forall j | 0 <= j < |p.regions| && p.regions[j].kind.Live? ensures p.regions[j].addr + WORD != r.addr {
      assert q.regions[j + 1] == p.regions[j];
      if p.regions[j].addr == q.bump { OneRegionAt(q, 0, j + 1); }
    }
    NotFound(p, r.addr);
  }

  lemma NoLives()
    ensures Lives([]) == []
  {
  }

  lemma BumpedPlain(p: Pool, size: nat)
    requires Sound(p) && FirstFit(p.regions, size) == |p.regions| && Bumped(p, size) >= p.floor
    requires Bounded(p, size)
    ensures var (q, r) := Allocate(p, size);
      r == At(q.bump + WORD)
  {
  }

  /** A free takes exactly its chunk from the live ones. */
  lemma ReleaseTakes(p: Pool, i: nat)
    requires Sound(p) && i < |p.regions| && p.regions[i].kind.Live?
    ensures Lives(Release(p, i).regions) == Others(p.regions, i)
  {
    var s := p.regions;
    if i == 0 {
      hide Lives;
      NoLives();
      assert s[..0] == [] && [] + Lives(s[1..]) == Lives(s[1..]);
    } else {
      JoinedIsNotLive(s, i);
      hide *;
      ReleaseAs(p, i);
      LivesThree(s[..From(s, i)], [Joined(s, i)], s[To(s, i)..]);
      OutsideJoined(s, i);
    }
  }

  lemma JoinedIsNotLive(s: seq<Region>, i: nat)
    requires i < |s|
    ensures Lives([Joined(s, i)]) == []
  {
    LivesOne(Joined(s, i));
  }

  lemma OutsideJoined(s: seq<Region>, i: nat)
    requires i < |s|
    ensures From(s, i) <= i < To(s, i) <= |s|
    ensures Lives(s[..From(s, i)]) + [] + Lives(s[To(s, i)..]) == Others(s, i)
  {
    NeighboursAreFree(s, i);
    var from, to := From(s, i), To(s, i);
    assert from <= i < to <= |s|;
    hide Lives, From, To;
    assert s[..i] == s[..from] + s[from..i] && s[i + 1..] == s[i + 1..to] + s[to..];
    LivesConcat(s[..from], s[from..i]);
    LivesConcat(s[i + 1..to], s[to..]);
  }

  lemma NeighboursAreFree(s: seq<Region>, i: nat)
    requires i < |s|
    ensures Lives(s[From(s, i)..i]) == [] && Lives(s[i + 1..To(s, i)]) == []
  {
    if JoinLeft(s, i) {
      assert s[From(s, i)..i] == [s[i - 1]];
      LivesOne(s[i - 1]);
    }
    if JoinRight(s, i) {
      assert s[i + 1..To(s, i)] == [s[i + 1]];
      LivesOne(s[i + 1]);
    }
  }

  /** Freeing the address just handed out leaves the live chunks as they were before the request,
      whether it came from a free chunk or from the bump pointer. */
  lemma FreeingGivesBack(p: Pool, size: nat)
    requires Sound(p) && size < SPACE && Safe(p, size)
    ensures var (q, r) := Allocate(p, size);
      r.At? ==> Lives(Apply(q, Give(r.addr)).regions) == Lives(p.regions)
  {
    var (q, r) := Allocate(p, size);
    AllocateKeeps(p, size);
    AllocateAnswers(p, size);
    if r.At? { ReleaseTakes(q, IndexOf(q.regions, r.addr)); }
  }

  /** Over any run each request leaves all live chunks alone but its own, and each free takes only its
      own: what a client holds it holds until it frees it. */
  lemma OthersAreLeftAlone(p: Pool, a: Action)
    requires Sound(p) && IsWord(a) && (a.Take? ==> Safe(p, a.size))
    ensures var q := Apply(p, a);
      match a
      case Take(size) =>
        (match Allocate(p, size).1
         case Exhausted => q == p
         case At(addr) => Answered(p, q, size, addr))
      case Give(addr) =>
        var i := IndexOf(p.regions, addr);
        if i < |p.regions| then Lives(q.regions) == Others(p.regions, i) else q == p
      case Extend => q.regions == p.regions
  {
    match a
    case Take(size) =>
      AllocateKeeps(p, size);
      AllocateAnswers(p, size);
    case Give(addr) =>
      var i := IndexOf(p.regions, addr);
      if i < |p.regions| { ReleaseTakes(p, i); }
    case Extend =>
  }
}

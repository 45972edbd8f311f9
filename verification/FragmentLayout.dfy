/** What the fragment allocator does to its blocks, and what it keeps. */
module FragmentLayout {
  import opened FragmentBlocks

  const CHUNK: nat := 1024
  const WORD: nat := 0x1_0000_0000_0000_0000

  /** The request rounded up to whole chunks, in 64-bit arithmetic. */
  function Rounded(size: nat): nat {
    if size % CHUNK != 0 then ((size / CHUNK + 1) * CHUNK) % WORD else size
  }

  function Total(s: seq<Block>): nat {
    if s == [] then 0 else s[0].size + Total(s[1..])
  }

  function Used(s: seq<Block>): nat {
    if s == [] then 0 else (if s[0].free then 0 else s[0].size) + Used(s[1..])
  }

  // ---------------------------------------------------------------- the layout

  /** The blocks lie one after the other, starting at `from`. */
  ghost predicate Tiles(s: seq<Block>, from: nat) {
    s == [] || (s[0].offset == from && Tiles(s[1..], from + s[0].size))
  }

  predicate FreeEnd(s: seq<Block>) {
    s != [] && s[|s| - 1].free
  }

  predicate FreeStart(s: seq<Block>) {
    s != [] && s[0].free
  }

  ghost predicate NoFreePair(s: seq<Block>) {
    s == [] || (!(s[0].free && FreeStart(s[1..])) && NoFreePair(s[1..]))
  }

  predicate WholeChunks(b: Block) {
    !b.free ==> b.size % CHUNK == 0
  }

  ghost predicate AllWhole(s: seq<Block>) {
    forall b :: b in s ==> WholeChunks(b)
  }

  ghost predicate Sound(s: seq<Block>, pool: nat) {
    Tiles(s, 0) && Total(s) == pool && NoFreePair(s) && AllWhole(s) && Distinct(s)
  }

  lemma {:induction false} TotalConcat(a: seq<Block>, b: seq<Block>)
    ensures Total(a + b) == Total(a) + Total(b) && Used(a + b) == Used(a) + Used(b)
  {
    if a == [] {
      assert a + b == b;
    } else {
      assert (a + b)[1..] == a[1..] + b;
      TotalConcat(a[1..], b);
    }
  }

  lemma {:induction false} TilesConcat(a: seq<Block>, b: seq<Block>, from: nat)
    ensures Tiles(a + b, from) <==> Tiles(a, from) && Tiles(b, from + Total(a))
  {
    if a == [] {
      assert a + b == b;
    } else {
      assert (a + b)[1..] == a[1..] + b;
      TilesConcat(a[1..], b, from + a[0].size);
    }
  }

  lemma {:induction false} NoFreePairConcat(a: seq<Block>, b: seq<Block>)
    ensures NoFreePair(a + b) <==> NoFreePair(a) && NoFreePair(b) && !(FreeEnd(a) && FreeStart(b))
  {
    if a == [] {
      assert a + b == b;
    } else {
      assert (a + b)[1..] == a[1..] + b;
      NoFreePairConcat(a[1..], b);
    }
  }

  lemma {:induction false} UsedIsWhole(s: seq<Block>)
    requires AllWhole(s)
    ensures Used(s) % CHUNK == 0 && Used(s) <= Total(s)
  {
    if s != [] {
      assert s[0] in s && WholeChunks(s[0]);
      assert AllWhole(s[1..]) by { assert forall b :: b in s[1..] ==> b in s; }
      hide AllWhole;
      UsedIsWhole(s[1..]);
      WholeSum(s[0].size, Used(s[1..]));
    }
  }

  lemma WholeSum(a: nat, b: nat)
    requires b % CHUNK == 0
    ensures a % CHUNK == 0 ==> (a + b) % CHUNK == 0
  {
  }

  /** What is in use never exceeds the whole chunks of the pool, so the free total, computed by
      subtraction in an unsigned word, does not wrap. */
  lemma AvailableNeverWraps(s: seq<Block>, pool: nat)
    requires Sound(s, pool)
    ensures Used(s) <= CHUNK * (pool / CHUNK)
  {
    UsedIsWhole(s);
  }

  /** Rounding covers the request exactly when the rounded value fits the word. */
  lemma RoundedCovers(size: nat)
    requires size < WORD
    ensures Rounded(size) % CHUNK == 0
    ensures Rounded(size) >= size <==> size <= WORD - CHUNK
    ensures size <= WORD - CHUNK ==> Rounded(size) < size + CHUNK
    ensures size > WORD - CHUNK ==> Rounded(size) == 0
  {
    if size % CHUNK != 0 {
      var up := (size / CHUNK + 1) * CHUNK;
      assert size < up < size + CHUNK;
      assert up % CHUNK == 0;
      if up < WORD { assert up % WORD == up; }
    }
  }

  // ---------------------------------------------------------------- finding a block

  predicate Fits(b: Block, size: nat) {
    b.free && b.size >= size
  }

  /** The first free block that is large enough, or the number of blocks. */
  function FirstFit(s: seq<Block>, size: nat): (i: nat)
    ensures i <= |s|
    ensures i < |s| ==> Fits(s[i], size)
    ensures forall j :: 0 <= j < i ==> !Fits(s[j], size)
  {
    if s == [] then 0
    else if Fits(s[0], size) then 0
    else
      var i := FirstFit(s[1..], size);
      assert forall j :: 1 <= j < i + 1 ==> s[j] == s[1..][j - 1];
      i + 1
  }

  // ---------------------------------------------------------------- taking and giving back

  function Taken(b: Block, size: nat, id: nat, ref: nat): Block {
    Block(id, false, b.offset, size, ref)
  }

  /** What remains of a free block after `size` bytes are cut off its front. */
  function Rest(b: Block, size: nat): seq<Block>
    requires size <= b.size
  {
    if b.size == size then [] else [b.(offset := b.offset + size, size := b.size - size)]
  }

  function Allot(s: seq<Block>, i: nat, size: nat, id: nat, ref: nat): seq<Block>
    requires i < |s| && size <= s[i].size
  {
    s[..i] + ([Taken(s[i], size, id, ref)] + Rest(s[i], size)) + s[i + 1..]
  }

  function LeftFree(s: seq<Block>, i: nat): bool
    requires i < |s|
  {
    i > 0 && s[i - 1].free
  }

  function RightFree(s: seq<Block>, i: nat): bool
    requires i < |s|
  {
    i + 1 < |s| && s[i + 1].free
  }

  /** Give block i back, merged with its free neighbours. */
  function Release(s: seq<Block>, i: nat): seq<Block>
    requires i < |s|
  {
    if LeftFree(s, i) && RightFree(s, i) then
      s[..i - 1]
        + [s[i].(free := true, offset := s[i - 1].offset, size := s[i - 1].size + s[i].size + s[i + 1].size)]
        + s[i + 2..]
    else if LeftFree(s, i) then
      s[..i - 1] + [s[i - 1].(size := s[i - 1].size + s[i].size)] + s[i + 1..]
    else if RightFree(s, i) then
      s[..i] + [s[i + 1].(offset := s[i].offset, size := s[i + 1].size + s[i].size)] + s[i + 2..]
    else s[..i] + [s[i].(free := true)] + s[i + 1..]
  }

  /** Replacing a stretch by one of the same length that keeps the borders legal. */
  lemma SoundSplice(a: seq<Block>, m: seq<Block>, n: seq<Block>, c: seq<Block>, pool: nat)
    requires Sound(a + m + c, pool) && Distinct(a + n + c)
    requires Tiles(n, Total(a)) && Total(n) == Total(m) && NoFreePair(n) && n != []
    requires !(FreeEnd(a) && FreeStart(n)) && !(FreeEnd(n) && FreeStart(c)) && AllWhole(n)
    ensures Sound(a + n + c, pool)
    ensures Used(a + n + c) + Used(m) == Used(a + m + c) + Used(n)
  {
    assert Tiles(a + m + c, 0) && NoFreePair(a + m + c) && AllWhole(a + m + c) && Total(a + m + c) == pool;
    hide Distinct, Tiles, NoFreePair, AllWhole, Total, Used;
    TilesSplice(a, m, n, c);
    PairSplice(a, m, n, c);
    WholeSplice(a, m, n, c);
  }

  lemma TilesSplice(a: seq<Block>, m: seq<Block>, n: seq<Block>, c: seq<Block>)
    requires Tiles(a + m + c, 0) && Tiles(n, Total(a)) && Total(n) == Total(m)
    ensures Tiles(a + n + c, 0) && Total(a + n + c) == Total(a + m + c)
    ensures Used(a + n + c) + Used(m) == Used(a + m + c) + Used(n)
  {
    hide *;
    TotalConcat(a + m, c); TotalConcat(a, m); TotalConcat(a + n, c); TotalConcat(a, n);
    TilesConcat(a + m, c, 0); TilesConcat(a, m, 0); TilesConcat(a + n, c, 0); TilesConcat(a, n, 0);
  }

  lemma PairSplice(a: seq<Block>, m: seq<Block>, n: seq<Block>, c: seq<Block>)
    requires NoFreePair(a + m + c) && NoFreePair(n) && n != []
    requires !(FreeEnd(a) && FreeStart(n)) && !(FreeEnd(n) && FreeStart(c))
    ensures NoFreePair(a + n + c)
  {
    hide NoFreePair;
    NoFreePairConcat(a + m, c); NoFreePairConcat(a, m);
    NoFreePairConcat(a + n, c); NoFreePairConcat(a, n);
  }

  lemma WholeSplice(a: seq<Block>, m: seq<Block>, n: seq<Block>, c: seq<Block>)
    requires AllWhole(a + m + c) && AllWhole(n)
    ensures AllWhole(a + n + c)
  {
    forall b | b in a + n + c ensures WholeChunks(b) {
      assert b in a + m + c || b in n;
    }
  }

  lemma DistinctReplace(a: seq<Block>, m: seq<Block>, n: seq<Block>, c: seq<Block>)
    requires Distinct(a + m + c) && Distinct(n)
    requires forall b :: b in n ==> b.id in Ids(m) || b.id !in Ids(a + m + c)
    ensures Distinct(a + n + c)
  {
    var s, s' := a + m + c, a + n + c;
    forall i, j | 0 <= i < j < |s'| ensures s'[i].id != s'[j].id {
      DistinctAt(a, m, n, c, i, j);
    }
  }

  lemma DistinctAt(a: seq<Block>, m: seq<Block>, n: seq<Block>, c: seq<Block>, i: nat, j: nat)
    requires Distinct(a + m + c) && Distinct(n)
    requires forall b :: b in n ==> b.id in Ids(m) || b.id !in Ids(a + m + c)
    requires i < j < |a + n + c|
    ensures (a + n + c)[i].id != (a + n + c)[j].id
  {
    var s, s' := a + m + c, a + n + c;
    var inA, inC := i < |a|, j >= |a| + |n|;
    if inA { assert s'[i] == s[i]; }
    if j < |a| { assert s'[j] == s[j]; }
    if inC { assert s'[j] == s[j - |n| + |m|]; }
    if i >= |a| + |n| { assert s'[i] == s[i - |n| + |m|]; }
    if |a| <= i < |a| + |n| && |a| <= j < |a| + |n| {
      assert s'[i] == n[i - |a|] && s'[j] == n[j - |a|];
    } else if |a| <= i < |a| + |n| {
      assert s'[i] == n[i - |a|];
      NotOutside(a, m, c, j - |n| + |m|, s'[i].id);
    } else if |a| <= j < |a| + |n| {
      assert s'[j] == n[j - |a|];
      NotOutside(a, m, c, i, s'[j].id);
    }
  }

  lemma NotOutside(a: seq<Block>, m: seq<Block>, c: seq<Block>, k: nat, id: nat)
    requires Distinct(a + m + c) && (id in Ids(m) || id !in Ids(a + m + c))
    requires k < |a| || |a| + |m| <= k < |a + m + c|
    ensures (a + m + c)[k].id != id
  {
    var s := a + m + c;
    if id in Ids(m) {
      var b :| b in m && b.id == id;
      var x :| 0 <= x < |m| && m[x] == b;
      assert s[|a| + x] == b;
    } else {
      assert s[k] in s;
    }
  }

  // ---------------------------------------------------------------- every operation keeps the layout

  lemma AllotParts(s: seq<Block>, i: nat)
    requires i < |s|
    ensures s == s[..i] + [s[i]] + s[i + 1..]
  {
  }

  /** Taking a block keeps the layout and moves its size, and nothing else, to the used side. */
  lemma AllotSound(s: seq<Block>, pool: nat, i: nat, size: nat, id: nat, ref: nat)
    requires Sound(s, pool) && i < |s| && Fits(s[i], size) && size % CHUNK == 0
    requires id !in Ids(s)
    ensures Sound(Allot(s, i, size, id, ref), pool)
    ensures Used(Allot(s, i, size, id, ref)) == Used(s) + size
  {
    var a, m, c := s[..i], [s[i]], s[i + 1..];
    var n := [Taken(s[i], size, id, ref)] + Rest(s[i], size);
    AllotParts(s, i);
    AllotBorders(s, pool, i);
    Single(s[i]);
    Pieces(s[i], size, id, ref);
    assert s[i] in s;
    hide Tiles, NoFreePair, Total, Used, Rest, AllWhole, FreeEnd, FreeStart;
    DistinctReplace(a, m, n, c);
    SoundSplice(a, m, n, c, pool);
  }

  lemma AllotBorders(s: seq<Block>, pool: nat, i: nat)
    requires Sound(s, pool) && i < |s| && s[i].free
    ensures s[i].offset == Total(s[..i]) && !FreeStart(s[i + 1..])
  {
    hide Distinct;
    var a, m, c := s[..i], [s[i]], s[i + 1..];
    assert s == a + m + c;
    TilesConcat(a + m, c, 0); TilesConcat(a, m, 0);
    if c != [] { NoFreePairAt(s, i); }
  }

  lemma Pieces(b: Block, size: nat, id: nat, ref: nat)
    requires Fits(b, size) && size % CHUNK == 0 && id != b.id
    ensures var n := [Taken(b, size, id, ref)] + Rest(b, size);
      && Tiles(n, b.offset) && Total(n) == b.size && Used(n) == size && NoFreePair(n)
      && !FreeStart(n) && AllWhole(n) && Distinct(n)
      && (forall x :: x in n ==> x.id == id || x.id == b.id)
  {
    var n := [Taken(b, size, id, ref)] + Rest(b, size);
    assert n[1..] == Rest(b, size);
    if b.size != size { Single(Rest(b, size)[0]); }
  }

  /** Which stretch a release replaces, and by what. */
  function ReleaseFrom(s: seq<Block>, i: nat): nat
    requires i < |s|
  {
    if LeftFree(s, i) then i - 1 else i
  }

  function ReleaseTo(s: seq<Block>, i: nat): nat
    requires i < |s|
  {
    if RightFree(s, i) then i + 2 else i + 1
  }

  function Merged(s: seq<Block>, i: nat): Block
    requires i < |s|
  {
    if LeftFree(s, i) && RightFree(s, i) then
      s[i].(free := true, offset := s[i - 1].offset, size := s[i - 1].size + s[i].size + s[i + 1].size)
    else if LeftFree(s, i) then s[i - 1].(size := s[i - 1].size + s[i].size)
    else if RightFree(s, i) then s[i + 1].(offset := s[i].offset, size := s[i + 1].size + s[i].size)
    else s[i].(free := true)
  }

  lemma ReleaseParts(s: seq<Block>, i: nat)
    requires i < |s|
    ensures var a, m, c := s[..ReleaseFrom(s, i)], s[ReleaseFrom(s, i)..ReleaseTo(s, i)], s[ReleaseTo(s, i)..];
      s == a + m + c && Release(s, i) == a + [Merged(s, i)] + c
  {
  }

  lemma {:induction false} NoFreePairAt(s: seq<Block>, j: nat)
    requires NoFreePair(s) && j + 1 < |s|
    ensures !(s[j].free && s[j + 1].free)
  {
    if j > 0 { NoFreePairAt(s[1..], j - 1); }
  }

  /** The merged block covers its stretch exactly, and has no free neighbour any more. */
  lemma StretchFacts(s: seq<Block>, i: nat)
    requires NoFreePair(s) && i < |s| && !s[i].free
    ensures var from, to := ReleaseFrom(s, i), ReleaseTo(s, i);
      && Total(s[from..to]) == Merged(s, i).size && Used(s[from..to]) == s[i].size
      && Merged(s, i).free && Merged(s, i).id in Ids(s[from..to])
      && !FreeEnd(s[..from]) && !FreeStart(s[to..])
      && (Tiles(s[from..to], Total(s[..from])) ==> Merged(s, i).offset == Total(s[..from]))
  {
    var from, to := ReleaseFrom(s, i), ReleaseTo(s, i);
    var m := s[from..to];
    if LeftFree(s, i) && i >= 2 { NoFreePairAt(s, i - 2); }
    if RightFree(s, i) && i + 2 < |s| { NoFreePairAt(s, i + 1); }
    StretchSums(s, i);
    assert s[i] in m && (LeftFree(s, i) ==> s[i - 1] in m) && (RightFree(s, i) ==> s[i + 1] in m) by {
      assert m[i - from] == s[i];
      assert LeftFree(s, i) ==> m[0] == s[i - 1];
      assert RightFree(s, i) ==> m[|m| - 1] == s[i + 1];
    }
    hide Total, Used, NoFreePair;
    assert Tiles(m, Total(s[..from])) ==> m[0].offset == Total(s[..from]);
  }

  lemma StretchSums(s: seq<Block>, i: nat)
    requires i < |s| && !s[i].free
    ensures var from, to := ReleaseFrom(s, i), ReleaseTo(s, i);
      Total(s[from..to]) == Merged(s, i).size && Used(s[from..to]) == s[i].size
  {
    var from, to := ReleaseFrom(s, i), ReleaseTo(s, i);
    var left, right := s[from..i], s[i + 1..to];
    assert s[from..to] == left + [s[i]] + right;
    TotalConcat(left + [s[i]], right);
    TotalConcat(left, [s[i]]);
    assert LeftFree(s, i) ==> left == [s[i - 1]];
    assert RightFree(s, i) ==> right == [s[i + 1]];
  }

  lemma Single(b: Block)
    ensures Tiles([b], b.offset) && Total([b]) == b.size && Used([b]) == (if b.free then 0 else b.size)
    ensures NoFreePair([b]) && FreeEnd([b]) == FreeStart([b]) == b.free
  {
  }

  /** Giving a block back keeps the layout: its size leaves the used side, and it becomes one
      free block with whatever free neighbours it has. */
  lemma ReleaseSound(s: seq<Block>, pool: nat, i: nat)
    requires Sound(s, pool) && i < |s| && !s[i].free
    ensures Sound(Release(s, i), pool) && Used(Release(s, i)) + s[i].size == Used(s) && Release(s, i) != []
  {
    hide Tiles, NoFreePair, Total, Used, Distinct, AllWhole, FreeEnd, FreeStart, Release, Merged;
    var from, to := ReleaseFrom(s, i), ReleaseTo(s, i);
    ReleaseParts(s, i);
    StretchTiles(s, from, to);
    StretchFacts(s, i);
    Single(Merged(s, i));
    MergedDistinct(s, i);
    hide ReleaseFrom, ReleaseTo;
    SoundSplice(s[..from], s[from..to], [Merged(s, i)], s[to..], pool);
  }

  lemma StretchTiles(s: seq<Block>, from: nat, to: nat)
    requires Tiles(s, 0) && from <= to <= |s|
    ensures Tiles(s[from..to], Total(s[..from]))
  {
    var a, m, c := s[..from], s[from..to], s[to..];
    assert s == a + m + c;
    hide Tiles, Total;
    TilesConcat(a + m, c, 0);
    TilesConcat(a, m, 0);
  }

  lemma MergedDistinct(s: seq<Block>, i: nat)
    requires Distinct(s) && i < |s| && !s[i].free && NoFreePair(s)
    ensures var from, to := ReleaseFrom(s, i), ReleaseTo(s, i);
      Distinct(s[..from] + [Merged(s, i)] + s[to..]) && AllWhole([Merged(s, i)])
  {
    hide NoFreePair, Merged, Distinct;
    var from, to := ReleaseFrom(s, i), ReleaseTo(s, i);
    StretchFacts(s, i);
    ReleaseParts(s, i);
    hide ReleaseFrom, ReleaseTo;
    DistinctReplace(s[..from], s[from..to], [Merged(s, i)], s[to..]);
  }

  /** What a block looks like, whatever record holds it. */
  function Shape(s: seq<Block>): seq<(bool, nat, nat)> {
    seq(|s|, i requires 0 <= i < |s| => (s[i].free, s[i].offset, s[i].size))
  }

  /** Giving back what was just taken restores the layout. */
  lemma ReleaseUndoesAllot(s: seq<Block>, pool: nat, i: nat, size: nat, id: nat, ref: nat)
    requires Sound(s, pool) && i < |s| && Fits(s[i], size)
    ensures Shape(Release(Allot(s, i, size, id, ref), i)) == Shape(s)
  {
    if i > 0 { NoFreePairAt(s, i - 1); }
    if i + 1 < |s| { NoFreePairAt(s, i); }
    hide Sound, NoFreePair;
    AllotAround(s, i, size, id, ref);
    hide Allot;
    var t := Allot(s, i, size, id, ref);
    var r := if size == s[i].size then t[i].(free := true)
      else t[i + 1].(offset := t[i].offset, size := t[i + 1].size + t[i].size);
    assert Release(t, i) == s[..i] + [r] + s[i + 1..];
  }

  /** What is around the block that was taken. */
  lemma AllotAround(s: seq<Block>, i: nat, size: nat, id: nat, ref: nat)
    requires i < |s| && Fits(s[i], size)
    ensures var t := Allot(s, i, size, id, ref);
      && i < |t| && t[i] == Taken(s[i], size, id, ref) && t[..i] == s[..i] && (i > 0 ==> t[i - 1] == s[i - 1])
      && if size == s[i].size then t[i + 1..] == s[i + 1..] && |t| == |s| && (i + 1 < |t| ==> t[i + 1] == s[i + 1])
         else |t| == |s| + 1 && t[i + 1] == Rest(s[i], size)[0] && t[i + 2..] == s[i + 1..]
  {
  }

  // ---------------------------------------------------------------- compaction

  /** The allocated blocks, in order, packed from `from` on. */
  function Packed(s: seq<Block>, from: nat): seq<Block> {
    if s == [] then []
    else if s[0].free then Packed(s[1..], from)
    else [s[0].(offset := from)] + Packed(s[1..], from + s[0].size)
  }

  /** Packed blocks and one free block for the rest, if there is any. */
  function Compacted(s: seq<Block>, id: nat): seq<Block> {
    Packed(s, 0) + Remainder(s, id)
  }

  function Remainder(s: seq<Block>, id: nat): seq<Block> {
    if Total(s) > Used(s) then [Block(id, true, Used(s), Total(s) - Used(s), 0)] else []
  }

  lemma {:induction false} PackedFacts(s: seq<Block>, from: nat)
    requires AllWhole(s) && Distinct(s)
    ensures var p := Packed(s, from);
      && Tiles(p, from) && Total(p) == Used(s) == Used(p) <= Total(s) && NoFreePair(p) && !FreeEnd(p) && !FreeStart(p)
      && AllWhole(p) && Distinct(p) && Ids(p) <= Ids(s) && (forall b :: b in p ==> !b.free)
    decreases |s|
  {
    hide *;
    PackedSums(s, from);
    PackedMembers(s, from);
  }

  lemma {:induction false} PackedSums(s: seq<Block>, from: nat)
    ensures var p := Packed(s, from);
      Tiles(p, from) && Total(p) == Used(s) == Used(p) <= Total(s) && NoFreePair(p)
    decreases |s|
  {
    if s != [] {
      PackedSums(s[1..], if s[0].free then from else from + s[0].size);
      if !s[0].free { assert Packed(s, from)[1..] == Packed(s[1..], from + s[0].size); }
    }
  }

  lemma {:induction false} PackedMembers(s: seq<Block>, from: nat)
    requires AllWhole(s) && Distinct(s)
    ensures var p := Packed(s, from);
      && AllWhole(p) && Distinct(p) && Ids(p) <= Ids(s) && (forall b :: b in p ==> !b.free) && !FreeEnd(p)
          && !FreeStart(p)
    decreases |s|
  {
    if s != [] {
      PartsWhole(s);
      PackedMembers(s[1..], if s[0].free then from else from + s[0].size);
      PackedStep(s, from);
    }
  }

  lemma PartsWhole(s: seq<Block>)
    requires AllWhole(s) && Distinct(s) && s != []
    ensures AllWhole(s[1..]) && Distinct(s[1..])
  {
    assert forall b :: b in s[1..] ==> b in s;
  }

  lemma PackedStep(s: seq<Block>, from: nat)
    requires s != [] && AllWhole(s) && Distinct(s)
    requires var p := Packed(s[1..], if s[0].free then from else from + s[0].size);
      && AllWhole(p) && Distinct(p) && Ids(p) <= Ids(s[1..]) && (forall b :: b in p ==> !b.free)
      && !FreeEnd(p) && !FreeStart(p)
    ensures var p := Packed(s, from);
      AllWhole(p) && Distinct(p) && Ids(p) <= Ids(s) && (forall b :: b in p ==> !b.free) && !FreeEnd(p) && !FreeStart(p)
  {
    assert s[0] in s && forall b :: b in s[1..] ==> b in s;
    if !s[0].free {
      var q := Packed(s[1..], from + s[0].size);
      assert s[0].id !in Ids(s[1..]);
      assert WholeChunks(s[0]);
      Cons(s[0].(offset := from), q);
    }
  }

  lemma Cons(b: Block, q: seq<Block>)
    requires AllWhole(q) && Distinct(q) && (forall x :: x in q ==> !x.free) && !FreeEnd(q)
    requires !b.free && WholeChunks(b) && b.id !in Ids(q)
    ensures var p := [b] + q;
      && AllWhole(p) && Distinct(p) && (forall x :: x in p ==> !x.free) && !FreeEnd(p) && !FreeStart(p)
      && Ids(p) == Ids(q) + {b.id}
  {
    var p := [b] + q;
    assert forall x :: x in p <==> x == b || x in q;
    assert forall j :: 0 < j < |p| ==> p[j] == q[j - 1] && p[j] in q && p[j].id in Ids(q);
  }

  /** Compaction keeps the layout and what is in use. */
  lemma CompactedSound(s: seq<Block>, pool: nat, id: nat)
    requires Sound(s, pool) && id !in Ids(s)
    ensures Sound(Compacted(s, id), pool) && Used(Compacted(s, id)) == Used(s)
  {
    var p, r := Packed(s, 0), Remainder(s, id);
    PackedFacts(s, 0);
    RemainderFacts(s, id);
    hide Tiles, NoFreePair, Total, Used, Packed, Remainder, AllWhole, Distinct, Ids, FreeEnd, FreeStart;
    assert Ids(p) !! Ids(r);
    TilesConcat(p, r, 0);
    TotalConcat(p, r);
    NoFreePairConcat(p, r);
    JoinedWhole(p, r);
  }

  lemma RemainderFacts(s: seq<Block>, id: nat)
    requires Used(s) <= Total(s)
    ensures var r := Remainder(s, id);
      && Tiles(r, Used(s)) && Total(r) == Total(s) - Used(s) && Used(r) == 0 && NoFreePair(r)
      && AllWhole(r) && Distinct(r) && Ids(r) <= {id}
  {
    var r := Remainder(s, id);
    if r != [] { Single(r[0]); }
  }

  lemma JoinedWhole(p: seq<Block>, r: seq<Block>)
    requires AllWhole(p) && AllWhole(r) && Distinct(p) && Distinct(r) && Ids(p) !! Ids(r)
    ensures AllWhole(p + r) && Distinct(p + r)
  {
    forall i, j | 0 <= i < j < |p + r| ensures (p + r)[i].id != (p + r)[j].id {
      if i < |p| <= j { assert p[i] in p && r[j - |p|] in r && p[i].id in Ids(p) && r[j - |p|].id in Ids(r); }
    }
    assert forall b :: b in p + r ==> b in p || b in r;
  }

  /** After compaction a request other than zero succeeds exactly when it fits into what is not in
      use: fragmentation is gone. */
  lemma CompactedFits(s: seq<Block>, pool: nat, id: nat, size: nat)
    requires Sound(s, pool) && size > 0
    ensures FirstFit(Compacted(s, id), size) < |Compacted(s, id)| <==> size <= pool - Used(s)
  {
    PackedFacts(s, 0);
    hide Tiles, NoFreePair, Total, Used, Packed, AllWhole, Distinct, Ids, FreeEnd, FreeStart;
    OnlyLastFits(Packed(s, 0), Remainder(s, id), size);
  }

  lemma OnlyLastFits(p: seq<Block>, r: seq<Block>, size: nat)
    requires |r| <= 1 && forall b :: b in p ==> !b.free
    ensures FirstFit(p + r, size) < |p + r| <==> r != [] && Fits(r[0], size)
  {
    var t := p + r;
    assert forall j :: 0 <= j < |p| ==> t[j] == p[j] && p[j] in p;
    if r != [] { assert t[|p|] == r[0] && |t| == |p| + 1; }
  }

  // ---------------------------------------------------------------- the bytes

  /** Copy `size` bytes from `src` to `dst`; the two may overlap. */
  function Move<T>(m: seq<T>, dst: nat, src: nat, size: nat): seq<T>
    requires dst <= src && src + size <= |m|
  {
    m[..dst] + m[src..src + size] + m[dst + size..]
  }

  function BytesOf<T>(b: Block, m: seq<T>): seq<T> {
    if b.offset + b.size <= |m| then m[b.offset..b.offset + b.size] else []
  }

  /** The bytes of the allocated blocks, in order. */
  function Contents<T>(s: seq<Block>, m: seq<T>): seq<seq<T>> {
    if s == [] then []
    else (if s[0].free then [] else [BytesOf(s[0], m)]) + Contents(s[1..], m)
  }

  /** A block that does not move is not copied. */
  function Shift<T>(m: seq<T>, from: nat, cur: nat, size: nat): seq<T>
    requires from <= cur && cur + size <= |m|
  {
    if from < cur then Move(m, from, cur, size) else m
  }

  /** The moves of compaction, in the order of the blocks. */
  function MoveAll<T>(s: seq<Block>, cur: nat, from: nat, m: seq<T>): seq<T>
    requires Tiles(s, cur) && from <= cur && cur + Total(s) <= |m|
    decreases |s|
  {
    if s == [] then m
    else if s[0].free then MoveAll(s[1..], cur + s[0].size, from, m)
    else
      MoveOnce(m, from, cur, s[0].size);
      MoveAll(s[1..], cur + s[0].size, from + s[0].size, Shift(m, from, cur, s[0].size))
  }

  lemma {:induction false} SameContents<T>(s: seq<Block>, from: nat, m: seq<T>, m1: seq<T>)
    requires Tiles(s, from) && from + Total(s) <= |m| == |m1| && m[from..] == m1[from..]
    ensures Contents(s, m) == Contents(s, m1)
    decreases |s|
  {
    if s != [] {
      var o, e := s[0].offset, s[0].offset + s[0].size;
      assert m[o..e] == m[from..][..e - o] == m1[from..][..e - o] == m1[o..e];
      assert m[e..] == m[from..][e - o..] == m1[from..][e - o..] == m1[e..];
      SameContents(s[1..], e, m, m1);
    }
  }

  /** Moving the blocks down one after the other keeps every allocated block's bytes, though
      source and destination overlap. */
  lemma {:induction false} MovesKeepBytes<T>(s: seq<Block>, cur: nat, from: nat, m: seq<T>)
    requires Tiles(s, cur) && from <= cur && cur + Total(s) <= |m|
    ensures var m' := MoveAll(s, cur, from, m);
      |m'| == |m| && m'[..from] == m[..from] && Contents(Packed(s, from), m') == Contents(s, m)
    decreases |s|
  {
    hide Shift, BytesOf;
    if s == [] {
    } else if s[0].free {
      MovesKeepBytes(s[1..], cur + s[0].size, from, m);
    } else {
      hide Contents, Packed, MoveAll;
      var z := s[0].size;
      var m1 := Shift(m, from, cur, z);
      FirstMove(s, cur, from, m);
      SameContents(s[1..], cur + z, m, m1);
      MovesKeepBytes(s[1..], cur + z, from + z, m1);
      LiveFirst(s, cur, from, m, m1, MoveAll(s, cur, from, m));
    }
  }

  /** The moves from the first block on. */
  lemma FirstMove<T>(s: seq<Block>, cur: nat, from: nat, m: seq<T>)
    requires Tiles(s, cur) && from <= cur && cur + Total(s) <= |m| && s != [] && !s[0].free
    ensures var z := s[0].size;
      var m1 := Shift(m, from, cur, z);
      && s[0].offset == cur && Tiles(s[1..], cur + z) && cur + z + Total(s[1..]) <= |m1| == |m|
      && m1[cur + z..] == m[cur + z..] && m1[..from] == m[..from] && m1[from..from + z] == m[cur..cur + z]
      && MoveAll(s, cur, from, m) == MoveAll(s[1..], cur + z, from + z, m1)
  {
    hide Shift;
    MoveOnce(m, from, cur, s[0].size);
  }

  lemma LiveFirst<T>(s: seq<Block>, cur: nat, from: nat, m: seq<T>, m1: seq<T>, m': seq<T>)
    requires s != [] && !s[0].free && s[0].offset == cur
    requires from <= cur && cur + s[0].size <= |m| == |m1| == |m'|
    requires var z := s[0].size;
      && m1[..from] == m[..from] && m1[from..from + z] == m[cur..cur + z]
      && m'[..from + z] == m1[..from + z]
      && Contents(Packed(s[1..], from + z), m') == Contents(s[1..], m1) == Contents(s[1..], m)
    ensures m'[..from] == m[..from] && Contents(Packed(s, from), m') == Contents(s, m)
  {
    var p, z := Packed(s, from), s[0].size;
    assert p[0] == s[0].(offset := from) && p[1..] == Packed(s[1..], from + z);
    Shorter(m', m1, from, z);
    hide Packed;
    assert BytesOf(p[0], m') == BytesOf(s[0], m);
  }

  lemma MoveOnce<T>(m: seq<T>, from: nat, cur: nat, z: nat)
    requires from <= cur && cur + z <= |m|
    ensures var m1 := Shift(m, from, cur, z);
      && |m1| == |m| && m1[cur + z..] == m[cur + z..] && m1[..from] == m[..from]
      && m1[from..from + z] == m[cur..cur + z]
  {
  }

  lemma Shorter<T>(a: seq<T>, b: seq<T>, from: nat, z: nat)
    requires from + z <= |a| == |b| && a[..from + z] == b[..from + z]
    ensures a[..from] == b[..from] && a[from..from + z] == b[from..from + z]
  {
    assert a[..from] == a[..from + z][..from] && b[..from] == b[..from + z][..from];
    assert a[from..from + z] == a[..from + z][from..] && b[from..from + z] == b[..from + z][from..];
  }

  lemma {:induction false} PackedConcat(a: seq<Block>, b: seq<Block>, from: nat)
    ensures Packed(a + b, from) == Packed(a, from) + Packed(b, from + Used(a))
    decreases |a|
  {
    if a == [] {
      assert a + b == b;
    } else {
      assert (a + b)[1..] == a[1..] + b;
      if a[0].free {
        PackedConcat(a[1..], b, from);
      } else {
        PackedConcat(a[1..], b, from + a[0].size);
        var x, p, q := [a[0].(offset := from)], Packed(a[1..], from + a[0].size), Packed(b, from + Used(a));
        assert x + (p + q) == (x + p) + q;
      }
    }
  }

  /** One step of compaction: block k is dropped, or packed behind those before it. */
  lemma PackedSnoc(s: seq<Block>, k: nat)
    requires k < |s|
    ensures Packed(s[..k + 1], 0) == Packed(s[..k], 0) + if s[k].free then [] else [s[k].(offset := Used(s[..k]))]
    ensures Used(s[..k + 1]) == Used(s[..k]) + if s[k].free then 0 else s[k].size
    ensures Total(s[..k + 1]) == Total(s[..k]) + s[k].size
  {
    assert s[..k + 1] == s[..k] + [s[k]];
    PackedConcat(s[..k], [s[k]], 0);
    TotalConcat(s[..k], [s[k]]);
    Single(s[k]);
    assert Packed([s[k]], Used(s[..k])) == if s[k].free then [] else [s[k].(offset := Used(s[..k]))] by {
      assert [s[k]][1..] == [];
    }
  }

  // ---------------------------------------------------------------- pointers after compaction

  /** The address kept for each allocated block is its offset. */
  ghost predicate Agrees(s: seq<Block>, data: map<nat, nat>) {
    forall b :: b in s ==> AgreesOn(b, data)
  }

  predicate AgreesOn(b: Block, data: map<nat, nat>) {
    !b.free ==> b.ref in data && data[b.ref] == b.offset
  }

  /** No allocated block has a free byte before it; `gap` free bytes were seen already. */
  predicate Compact(s: seq<Block>, gap: nat) {
    s == []
    || (if s[0].free then Compact(s[1..], gap + s[0].size) else gap == 0 && Compact(s[1..], gap))
  }

  /** Compaction moves bytes but not the addresses kept for them: afterwards these are right
      exactly when there was nothing to compact. */
  lemma {:induction false} AddressesStayRightIff(s: seq<Block>, at: nat, from: nat, data: map<nat, nat>)
    requires Tiles(s, at) && from <= at && Agrees(s, data)
    ensures Agrees(Packed(s, from), data) <==> Compact(s, at - from)
    decreases |s|
  {
    if s != [] {
      assert s[0] in s && AgreesOn(s[0], data);
      assert Agrees(s[1..], data) by { assert forall b :: b in s[1..] ==> b in s; }
      if s[0].free {
        AddressesStayRightIff(s[1..], at + s[0].size, from, data);
      } else {
        AddressesStayRightIff(s[1..], at + s[0].size, from + s[0].size, data);
        var p := Packed(s, from);
        assert p[0] in p && p[1..] == Packed(s[1..], from + s[0].size);
        assert forall b :: b in p <==> b == p[0] || b in p[1..];
        assert AgreesOn(p[0], data) <==> at == from;
      }
    }
  }

  /** A free block of one chunk before an allocated one: after compaction the block lies at 0, the
      address kept for it is still 1024. */
  lemma StaleAddressExample()
    ensures var s := [Block(0, true, 0, 1024, 0), Block(1, false, 1024, 1024, 7)];
      Sound(s, 2048) && Agrees(s, map[7 := 1024]) && !Agrees(Compacted(s, 2), map[7 := 1024])
  {
    var s := [Block(0, true, 0, 1024, 0), Block(1, false, 1024, 1024, 7)];
    assert s[1..] == [s[1]] && s[1..][1..] == [];
    Single(s[0]);
    Single(s[1]);
    assert Packed(s, 0) == [s[1].(offset := 0)];
    assert Compacted(s, 2)[0] in Compacted(s, 2);
    assert !AgreesOn(Compacted(s, 2)[0], map[7 := 1024]);
  }

  // ---------------------------------------------------------------- moves by the kept addresses

  /** Each allocated block has a kept address, not below its offset, from which its size is still in
      the pool. */
  ghost predicate InPool(s: seq<Block>, data: map<nat, nat>, pool: nat) {
    forall b :: b in s ==> KeptOn(b, data, pool)
  }

  predicate KeptOn(b: Block, data: map<nat, nat>, pool: nat) {
    !b.free ==> b.ref in data && b.offset <= data[b.ref] && data[b.ref] + b.size <= pool
  }

  lemma InPoolTail(s: seq<Block>, data: map<nat, nat>, pool: nat)
    requires InPool(s, data, pool) && s != []
    ensures KeptOn(s[0], data, pool) && InPool(s[1..], data, pool)
  {
    assert s[0] in s && forall b :: b in s[1..] ==> b in s;
  }

  /** The bytes are taken from the kept address, and go down by the free space seen. */
  function ShiftKept<T>(m: seq<T>, from: nat, cur: nat, kept: nat, size: nat): seq<T>
    requires from <= cur <= kept && kept + size <= |m|
  {
    if from < cur then Move(m, kept - (cur - from), kept, size) else m
  }

  lemma ShiftKeptFacts<T>(m: seq<T>, from: nat, cur: nat, kept: nat, size: nat)
    requires from <= cur <= kept && kept + size <= |m|
    ensures var m1 := ShiftKept(m, from, cur, kept, size);
      && |m1| == |m| && m1[..from] == m[..from]
      && (from < cur < kept ==> m1[from] == m[from])
      && (from == cur || size == 0 || kept == cur ==> m1 == Shift(m, from, cur, size))
  {
  }

  /** The moves that compaction makes, in the order of the blocks. */
  function MoveKept<T>(s: seq<Block>, cur: nat, from: nat, data: map<nat, nat>, m: seq<T>): seq<T>
    requires Tiles(s, cur) && from <= cur && InPool(s, data, |m|)
    decreases |s|
  {
    if s == [] then m
    else
      InPoolTail(s, data, |m|);
      if s[0].free then MoveKept(s[1..], cur + s[0].size, from, data, m)
      else
        ShiftKeptFacts(m, from, cur, data[s[0].ref], s[0].size);
        MoveKept(s[1..], cur + s[0].size, from + s[0].size, data, ShiftKept(m, from, cur, data[s[0].ref], s[0].size))
  }

  /** Every block that is moved, and is not empty, is where its kept address says. */
  predicate RightWhereMoved(s: seq<Block>, gap: nat, data: map<nat, nat>) {
    s == []
    || (if s[0].free then RightWhereMoved(s[1..], gap + s[0].size, data)
        else
          && (gap == 0 || s[0].size == 0 || (s[0].ref in data && data[s[0].ref] == s[0].offset))
          && RightWhereMoved(s[1..], gap, data))
  }

  lemma {:induction false} AgreesIsRight(s: seq<Block>, gap: nat, data: map<nat, nat>)
    requires Agrees(s, data)
    ensures RightWhereMoved(s, gap, data)
    decreases |s|
  {
    if s != [] {
      assert s[0] in s && AgreesOn(s[0], data);
      assert Agrees(s[1..], data) by { assert forall b :: b in s[1..] ==> b in s; }
      AgreesIsRight(s[1..], if s[0].free then gap + s[0].size else gap, data);
    }
  }

  lemma {:induction false} RightMoves<T>(s: seq<Block>, cur: nat, from: nat, data: map<nat, nat>, m: seq<T>)
    requires Tiles(s, cur) && from <= cur && cur + Total(s) <= |m| && InPool(s, data, |m|)
    requires RightWhereMoved(s, cur - from, data)
    ensures MoveKept(s, cur, from, data, m) == MoveAll(s, cur, from, m)
    decreases |s|
  {
    hide InPool, Shift, ShiftKept;
    if s != [] {
      InPoolTail(s, data, |m|);
      if s[0].free {
        RightMoves(s[1..], cur + s[0].size, from, data, m);
      } else {
        StepKept(s, cur, from, data, m);
        hide MoveKept;
        RightMoves(s[1..], cur + s[0].size, from + s[0].size, data, Shift(m, from, cur, s[0].size));
      }
    }
  }

  lemma {:induction false} NothingBelow<T>(s: seq<Block>, cur: nat, from: nat, data: map<nat, nat>, m: seq<T>)
    requires Tiles(s, cur) && from <= cur && InPool(s, data, |m|)
    ensures var m' := MoveKept(s, cur, from, data, m);
      |m'| == |m| && (from <= |m| ==> m'[..from] == m[..from])
    decreases |s|
  {
    if s != [] {
      InPoolTail(s, data, |m|);
      hide InPool, ShiftKept;
      if s[0].free {
        NothingBelow(s[1..], cur + s[0].size, from, data, m);
      } else {
        var z := s[0].size;
        var m1 := ShiftKept(m, from, cur, data[s[0].ref], z);
        ShiftKeptFacts(m, from, cur, data[s[0].ref], z);
        NothingBelow(s[1..], cur + z, from + z, data, m1);
        var m' := MoveKept(s, cur, from, data, m);
        assert m'[..from] == m'[..from + z][..from] == m1[..from + z][..from] == m1[..from];
      }
    }
  }

  /** Of the first block that is moved from a wrong address: where its first byte should go, and
      where it is. */
  function BadAt(s: seq<Block>, cur: nat, from: nat, data: map<nat, nat>): (r: (nat, nat))
    requires from <= cur && Tiles(s, cur) && !RightWhereMoved(s, cur - from, data)
    ensures from <= r.0 < r.1 < cur + Total(s) && cur <= r.1
    decreases |s|
  {
    if s[0].free then BadAt(s[1..], cur + s[0].size, from, data)
    else if from < cur && s[0].size > 0 && !(s[0].ref in data && data[s[0].ref] == s[0].offset) then (from, cur)
    else
      var r := BadAt(s[1..], cur + s[0].size, from + s[0].size, data);
      r
  }

  ghost predicate KeepsBytes<T>(s: seq<Block>, cur: nat, from: nat, data: map<nat, nat>, m: seq<T>)
    requires Tiles(s, cur) && from <= cur && InPool(s, data, |m|)
  {
    Contents(Packed(s, from), MoveKept(s, cur, from, data, m)) == Contents(s, m)
  }

  /** That byte is lost. */
  lemma {:induction false} BadMoveLoses<T>(s: seq<Block>, cur: nat, from: nat, data: map<nat, nat>, m: seq<T>)
    requires Tiles(s, cur) && from <= cur && cur + Total(s) <= |m| && InPool(s, data, |m|)
    requires !RightWhereMoved(s, cur - from, data)
    requires var (p, o) := BadAt(s, cur, from, data); m[p] != m[o]
    ensures !KeepsBytes(s, cur, from, data, m)
    decreases |s|, 1
  {
    hide InPool, ShiftKept, Shift;
    InPoolTail(s, data, |m|);
    if s[0].free {
      BadMoveLoses(s[1..], cur + s[0].size, from, data, m);
    } else if from < cur && s[0].size > 0 && data[s[0].ref] != cur {
      BadFirst(s, cur, from, data, m);
    } else {
      BadNext(s, cur, from, data, m);
    }
  }

  lemma BadNext<T>(s: seq<Block>, cur: nat, from: nat, data: map<nat, nat>, m: seq<T>)
    requires Tiles(s, cur) && from <= cur && cur + Total(s) <= |m| && InPool(s, data, |m|) && s != []
    requires !RightWhereMoved(s, cur - from, data) && KeptOn(s[0], data, |m|)
    requires !s[0].free && (from == cur || s[0].size == 0 || data[s[0].ref] == cur)
    requires var (p, o) := BadAt(s, cur, from, data); m[p] != m[o]
    ensures !KeepsBytes(s, cur, from, data, m)
    decreases |s|, 0
  {
    hide InPool, ShiftKept, Shift, BadAt, RightWhereMoved, MoveKept, Packed, Contents, BytesOf;
    BadIsLater(s, cur, from, data);
    StepKept(s, cur, from, data, m);
    var z := s[0].size;
    var m1 := Shift(m, from, cur, z);
    var (p, o) := BadAt(s, cur, from, data);
    Untouched(m, from, cur, z, p);
    Untouched(m, from, cur, z, o);
    SameContents(s[1..], cur + z, m, m1);
    BadMoveLoses(s[1..], cur + z, from + z, data, m1);
    TailLost(s, cur, from, m, MoveKept(s, cur, from, data, m));
  }

  lemma BadFirst<T>(s: seq<Block>, cur: nat, from: nat, data: map<nat, nat>, m: seq<T>)
    requires Tiles(s, cur) && from < cur && cur + Total(s) <= |m| && InPool(s, data, |m|) && s != []
    requires KeptOn(s[0], data, |m|)
    requires !s[0].free && s[0].size > 0 && data[s[0].ref] != cur && m[from] != m[cur]
    ensures !KeepsBytes(s, cur, from, data, m)
  {
    InPoolTail(s, data, |m|);
    hide InPool, ShiftKept, Shift, Packed, Contents;
    var z, kept := s[0].size, data[s[0].ref];
    var m1 := ShiftKept(m, from, cur, kept, z);
    ShiftKeptFacts(m, from, cur, kept, z);
    NothingBelow(s[1..], cur + z, from + z, data, m1);
    FirstLost(s, cur, from, m, MoveKept(s, cur, from, data, m));
  }

  /** The first block is moved right, or not at all; what is bad comes later. */
  lemma BadIsLater(s: seq<Block>, cur: nat, from: nat, data: map<nat, nat>)
    requires Tiles(s, cur) && from <= cur && s != [] && !RightWhereMoved(s, cur - from, data)
    requires !s[0].free && s[0].ref in data && (from == cur || s[0].size == 0 || data[s[0].ref] == cur)
    ensures var z := s[0].size;
      && Tiles(s[1..], cur + z) && !RightWhereMoved(s[1..], cur - from, data)
      && BadAt(s[1..], cur + z, from + z, data) == BadAt(s, cur, from, data)
  {
  }

  lemma StepKept<T>(s: seq<Block>, cur: nat, from: nat, data: map<nat, nat>, m: seq<T>)
    requires Tiles(s, cur) && from <= cur && cur + Total(s) <= |m| && InPool(s, data, |m|) && s != []
    requires !s[0].free && KeptOn(s[0], data, |m|) && (from == cur || s[0].size == 0 || data[s[0].ref] == cur)
    ensures var z := s[0].size;
      var m1 := Shift(m, from, cur, z);
      && cur + z + Total(s[1..]) <= |m1| == |m| && InPool(s[1..], data, |m1|) && Tiles(s[1..], cur + z)
      && MoveKept(s, cur, from, data, m) == MoveKept(s[1..], cur + z, from + z, data, m1)
      && m1[cur + z..] == m[cur + z..]
  {
    hide InPool, ShiftKept, Shift;
    InPoolTail(s, data, |m|);
    ShiftKeptFacts(m, from, cur, data[s[0].ref], s[0].size);
    MoveOnce(m, from, cur, s[0].size);
  }

  lemma Untouched<T>(m: seq<T>, from: nat, cur: nat, z: nat, p: nat)
    requires from <= cur && cur + z <= |m| && from + z <= p < |m|
    ensures |Shift(m, from, cur, z)| == |m| && Shift(m, from, cur, z)[p] == m[p]
  {
  }

  lemma FirstLost<T>(s: seq<Block>, cur: nat, from: nat, m: seq<T>, m': seq<T>)
    requires s != [] && !s[0].free && s[0].size > 0 && s[0].offset == cur && from < cur
    requires cur + s[0].size <= |m| == |m'|
    requires m'[from] == m[from] != m[cur]
    ensures Contents(Packed(s, from), m') != Contents(s, m)
  {
    var p := Packed(s, from);
    assert p[0] == s[0].(offset := from);
    assert BytesOf(p[0], m')[0] == m'[from] && BytesOf(s[0], m)[0] == m[cur];
    assert Contents(p, m')[0] == BytesOf(p[0], m') && Contents(s, m)[0] == BytesOf(s[0], m);
  }

  lemma TailLost<T>(s: seq<Block>, cur: nat, from: nat, m: seq<T>, m': seq<T>)
    requires s != [] && !s[0].free
    requires Contents(Packed(s[1..], from + s[0].size), m') != Contents(s[1..], m)
    ensures Contents(Packed(s, from), m') != Contents(s, m)
  {
    var p := Packed(s, from);
    assert p[0] == s[0].(offset := from) && p[1..] == Packed(s[1..], from + s[0].size);
    var x, y := Contents(p, m'), Contents(s, m);
    assert x[1..] == Contents(p[1..], m') && y[1..] == Contents(s[1..], m);
  }

  /** Compaction keeps the bytes of every allocated block, whatever they are, exactly if each block
      that it moves is where its kept address says. */
  lemma CompactionKeepsIff(s: seq<Block>, pool: nat, data: map<nat, nat>)
    requires Tiles(s, 0) && Total(s) == pool && InPool(s, data, pool)
    ensures (forall m: seq<bv8> :: |m| == pool ==> KeepsBytes(s, 0, 0, data, m)) <==> RightWhereMoved(s, 0, data)
  {
    if RightWhereMoved(s, 0, data) {
      forall m: seq<bv8> | |m| == pool ensures KeepsBytes(s, 0, 0, data, m) {
        RightMoves(s, 0, 0, data, m);
        MovesKeepBytes(s, 0, 0, m);
      }
    } else {
      var o := BadAt(s, 0, 0, data).1;
      var m: seq<bv8> := seq(pool, i => if i == o then 1 else 0);
      BadMoveLoses(s, 0, 0, data, m);
    }
  }

  /** A free block before two allocated ones: a compaction, a free of the first and another
      compaction lose bytes of the second. */
  lemma SecondCompactionExample(s: seq<Block>, data: map<nat, nat>)
    requires s == [Block(0, true, 0, 1024, 0), Block(1, false, 1024, 1024, 7), Block(2, false, 2048, 1024, 8)]
    requires data == map[7 := 1024, 8 := 2048]
    ensures Agrees(s, data) && RightWhereMoved(s, 0, data) && |Compacted(s, 3)| == 3
    ensures !Compacted(s, 3)[0].free && !RightWhereMoved(Release(Compacted(s, 3), 0), 0, data - {7})
  {
    AgreesIsRight(s, 0, data);
    var b, c := s[1].(offset := 0), s[2].(offset := 1024);
    var s1, s2 := s[1..], s[2..];
    assert s1[1..] == s2 && s2[1..] == [];
    assert s2 == [s[2]];
    Single(s[2]);
    assert Packed(s2, 1024) == [c] && Total(s2) == 1024 && Used(s2) == 1024;
    assert Packed(s1, 0) == [b, c] && Total(s1) == 2048 && Used(s1) == 2048;
    assert Packed(s, 0) == [b, c] && Total(s) == 3072 && Used(s) == 2048;
    var t := Compacted(s, 3);
    assert t == [b, c, Block(3, true, 2048, 1024, 0)];
    var u := Release(t, 0);
    assert u == [Block(1, true, 0, 1024, u[0].ref)] + t[1..];
    assert u[0].free && u[0].size == 1024 && u[1..][0] == c;
  }

  // ---------------------------------------------------------------- kept addresses in every state

  lemma AllotKept(s: seq<Block>, i: nat, size: nat, id: nat, ref: nat, data: map<nat, nat>, pool: nat)
    requires i < |s| && Fits(s[i], size) && s[i].offset + s[i].size <= pool && ref !in data
    requires InPool(s, data, pool)
    ensures var s', data' := Allot(s, i, size, id, ref), data[ref := s[i].offset];
      InPool(s', data', pool) && (Agrees(s, data) ==> Agrees(s', data'))
  {
    var s', data' := Allot(s, i, size, id, ref), data[ref := s[i].offset];
    forall b | b in s' ensures KeptOn(b, data', pool) && (Agrees(s, data) ==> AgreesOn(b, data')) {
      assert b in s || b == Taken(s[i], size, id, ref) || b.free;
      if b in s { assert KeptOn(b, data, pool) && (Agrees(s, data) ==> AgreesOn(b, data)); }
    }
  }

  /** No two allocated blocks have the same reference. */
  ghost predicate RefsApart(s: seq<Block>) {
    forall i, j :: 0 <= i < j < |s| && !s[i].free && !s[j].free ==> s[i].ref != s[j].ref
  }

  lemma ReleaseKept(s: seq<Block>, i: nat, data: map<nat, nat>, pool: nat)
    requires i < |s| && !s[i].free && RefsApart(s) && InPool(s, data, pool)
    ensures var s', data' := Release(s, i), data - {s[i].ref};
      InPool(s', data', pool) && (Agrees(s, data) ==> Agrees(s', data'))
  {
    hide Release;
    var s', data' := Release(s, i), data - {s[i].ref};
    forall b | b in s' ensures KeptOn(b, data', pool) && (Agrees(s, data) ==> AgreesOn(b, data')) {
      if !b.free {
        var j := OtherBlock(s, i, b);
        assert s[j] in s && KeptOn(s[j], data, pool) && (Agrees(s, data) ==> AgreesOn(s[j], data));
      }
    }
  }

  /** An allocated block after a release was another one before. */
  lemma OtherBlock(s: seq<Block>, i: nat, b: Block) returns (j: nat)
    requires i < |s| && !s[i].free && !b.free && b in Release(s, i)
    ensures j < |s| && j != i && s[j] == b
  {
    var from, to := ReleaseFrom(s, i), ReleaseTo(s, i);
    ReleaseParts(s, i);
    assert Merged(s, i).free;
    hide Release, Merged;
    j := OtherIndex(s, from, to, b);
  }

  lemma OtherIndex(s: seq<Block>, from: nat, to: nat, b: Block) returns (j: nat)
    requires from <= to <= |s| && (b in s[..from] || b in s[to..])
    ensures j < |s| && s[j] == b && (j < from || to <= j)
  {
    if b in s[..from] {
      j :| 0 <= j < from && s[..from][j] == b;
    } else {
      var k :| 0 <= k < |s| - to && s[to..][k] == b;
      j := to + k;
    }
  }

  /** Compaction lowers the offsets and leaves the kept addresses. */
  lemma {:induction false} PackedKept(s: seq<Block>, cur: nat, from: nat, data: map<nat, nat>, pool: nat)
    requires Tiles(s, cur) && from <= cur && InPool(s, data, pool)
    ensures InPool(Packed(s, from), data, pool)
    decreases |s|
  {
    if s != [] {
      InPoolTail(s, data, pool);
      if s[0].free {
        PackedKept(s[1..], cur + s[0].size, from, data, pool);
      } else {
        PackedKept(s[1..], cur + s[0].size, from + s[0].size, data, pool);
        var b := s[0].(offset := from);
        assert KeptOn(b, data, pool);
        assert forall x :: x in Packed(s, from) ==> x == b || x in Packed(s[1..], from + s[0].size);
      }
    }
  }
}

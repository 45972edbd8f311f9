/** The pointer surgery of the fragment allocator, one function per branch, each shown to do to
    memory what `FragmentLayout` says of the blocks. */
module FragmentHeap {
  import opened Wrappers
  import opened FragmentBlocks
  import opened FragmentLayout

  function SetNextBlock(h: Heap, p: Option<nat>, v: Option<nat>): Heap
    requires Known(h, p)
  {
    if p.None? then h else h[p.value := h[p.value].(nextBlock := v)]
  }

  function SetPrevBlock(h: Heap, p: Option<nat>, v: Option<nat>): Heap
    requires Known(h, p)
  {
    if p.None? then h else h[p.value := h[p.value].(prevBlock := v)]
  }

  function SetNextFree(h: Heap, p: Option<nat>, v: Option<nat>): Heap
    requires Known(h, p)
  {
    if p.None? then h else h[p.value := h[p.value].(nextFree := v)]
  }

  function SetPrevFree(h: Heap, p: Option<nat>, v: Option<nat>): Heap
    requires Known(h, p)
  {
    if p.None? then h else h[p.value := h[p.value].(prevFree := v)]
  }

  // ---------------------------------------------------------------- the surgery

  /** A new allocated block is linked in to the left of the free one. */
  function InsertBefore(h: Heap, cur: nat, size: nat, id: nat, ref: nat): Heap
    requires Near(h, cur) && id !in h
  {
    var h1 := h[id := Record(false, h[cur].offset, size, None, None, Some(cur), h[cur].prevBlock, Some(ref))];
    var h2 := SetNextBlock(h1, h1[cur].prevBlock, Some(id));
    h2[cur := h2[cur].(prevBlock := Some(id))]
  }

  function CutFront(h: Heap, cur: nat, size: nat): Heap
    requires cur in h && h[cur].size >= size
  {
    h[cur := h[cur].(offset := h[cur].offset + size, size := h[cur].size - size)]
  }

  /** The free block is used up: it leaves both lists. */
  function DropFree(h: Heap, cur: nat): Heap
    requires Near(h, cur)
  {
    var h1 := SetNextFree(h, h[cur].prevFree, h[cur].nextFree);
    var h2 := SetPrevFree(h1, h1[cur].nextFree, h1[cur].prevFree);
    var h3 := SetNextBlock(h2, h2[cur].prevBlock, h2[cur].nextBlock);
    var h4 := SetPrevBlock(h3, h3[cur].nextBlock, h3[cur].prevBlock);
    h4 - {cur}
  }

  /** Both neighbours are free: the block takes their places. */
  function JoinBoth(h: Heap, cur: nat, prev: nat, next: nat): Heap
    requires Near(h, cur) && Near(h, prev) && Near(h, next)
  {
    var p, n := h[prev], h[next];
    var h1 := h[cur := h[cur].(prevFree := p.prevFree, nextFree := n.nextFree, prevBlock := p.prevBlock,
      nextBlock := n.nextBlock)];
    var h2 := SetNextFree(h1, p.prevFree, Some(cur));
    var h3 := SetPrevFree(h2, n.nextFree, Some(cur));
    var h4 := SetNextBlock(h3, p.prevBlock, Some(cur));
    var h5 := SetPrevBlock(h4, n.nextBlock, Some(cur));
    var h6 := h5[cur := h5[cur].(free := true, offset := p.offset, size := p.size + h[cur].size + n.size)];
    h6 - {prev, next}
  }

  function JoinLeft(h: Heap, cur: nat, prev: nat): Heap
    requires Near(h, cur) && Near(h, prev)
  {
    var next := h[cur].nextBlock;
    var h1 := h[prev := h[prev].(nextBlock := next)];
    var h2 := SetPrevBlock(h1, next, Some(prev));
    var h3 := h2[prev := h2[prev].(size := h2[prev].size + h2[cur].size)];
    h3 - {cur}
  }

  function JoinRight(h: Heap, cur: nat, next: nat): Heap
    requires Near(h, cur) && Near(h, next)
  {
    var prev := h[cur].prevBlock;
    var h1 := h[next := h[next].(prevBlock := prev)];
    var h2 := SetNextBlock(h1, prev, Some(next));
    var h3 := h2[next := h2[next].(offset := h2[cur].offset, size := h2[next].size + h2[cur].size)];
    h3 - {cur}
  }

  /** No neighbour is free; `left` is the nearest free block to the left. */
  function LinkAfter(h: Heap, cur: nat, left: nat): Heap
    requires cur in h && Near(h, left)
  {
    var h1 := h[cur := h[cur].(free := true)];
    var next := h1[left].nextFree;
    var h2 := h1[left := h1[left].(nextFree := Some(cur))];
    var h3 := h2[cur := h2[cur].(prevFree := Some(left), nextFree := next)];
    SetPrevFree(h3, next, Some(cur))
  }

  /** No free block to the left; `right` is the nearest one to the right, if any. */
  function LinkFirst(h: Heap, cur: nat, right: Option<nat>): Heap
    requires cur in h && Known(h, right)
  {
    var h1 := h[cur := h[cur].(free := true, prevFree := None)];
    match right
    case None => h1[cur := h1[cur].(nextFree := None)]
    case Some(r) =>
      var prev := h1[r].prevFree;
      var h2 := h1[r := h1[r].(prevFree := Some(cur))];
      h2[cur := h2[cur].(prevFree := prev, nextFree := right)]
  }

  // ---------------------------------------------------------------- names

  lemma IdsConcat(a: seq<Block>, b: seq<Block>)
    ensures Ids(a + b) == Ids(a) + Ids(b)
  {
    forall x ensures x in Ids(a + b) <==> x in Ids(a) + Ids(b) {
      assert forall y :: y in a + b <==> y in a || y in b;
    }
  }

  lemma Disjoint(a: seq<Block>, b: seq<Block>)
    requires Distinct(a + b)
    ensures Ids(a) !! Ids(b)
  {
    forall x, y | x in a && y in b ensures x.id != y.id {
      var i :| 0 <= i < |a| && a[i] == x;
      var j :| 0 <= j < |b| && b[j] == y;
      assert (a + b)[i] == x && (a + b)[|a| + j] == y;
    }
  }

  lemma PartIds(a: seq<Block>, m: seq<Block>, c: seq<Block>)
    requires Distinct(a + m + c)
    ensures Ids(a) !! Ids(m) && Ids(a) !! Ids(c) && Ids(m) !! Ids(c)
    ensures Ids(a + m + c) == Ids(a) + Ids(m) + Ids(c)
    ensures forall b :: b in a ==> b.id in Ids(a)
    ensures forall b :: b in m ==> b.id in Ids(m)
    ensures forall b :: b in c ==> b.id in Ids(c)
  {
    IdsConcat(a + m, c);
    IdsConcat(a, m);
    Disjoint(a + m, c);
    assert Distinct(a + m) by {
      var s := a + m + c;
      assert forall i :: 0 <= i < |a + m| ==> (a + m)[i] == s[i];
    }
    Disjoint(a, m);
  }

  /** The last block of a, and its last free one, are in a. */
  lemma EndsIn(a: seq<Block>)
    ensures LastId(a).Some? ==> LastId(a).value in Ids(a)
    ensures LastFree(a).Some? ==> LastFree(a).value in Ids(a)
    ensures FirstId(a).Some? ==> FirstId(a).value in Ids(a)
    ensures FirstFree(a).Some? ==> FirstFree(a).value in Ids(a)
  {
    LastFreeIn(a);
    FirstFreeIn(a);
    assert a != [] ==> a[0] in a && a[|a| - 1] in a;
  }

  /** What every branch starts from: the stretch m between a and c, and the names apart. */
  ghost predicate Setting(h: Heap, a: seq<Block>, m: seq<Block>, c: seq<Block>) {
    && Rep(h, a + m + c) && h.Keys == Ids(a) + Ids(m) + Ids(c)
    && Ids(a) !! Ids(m) && Ids(a) !! Ids(c) && Ids(m) !! Ids(c)
    && (forall b :: b in a ==> b.id in Ids(a) && LeftEnd(h, a, m + c, b))
    && (forall b :: b in c ==> b.id in Ids(c) && RightEnd(h, a + m, c, b))
  }

  ghost predicate LeftEnd(h: Heap, a: seq<Block>, rest: seq<Block>, b: Block) {
    && b.id in h
    && (LastId(a) == Some(b.id) ==> h[b.id].nextBlock == FirstId(rest))
    && (LastFree(a) == Some(b.id) ==> h[b.id].nextFree == FirstFree(rest))
  }

  ghost predicate RightEnd(h: Heap, front: seq<Block>, c: seq<Block>, b: Block) {
    && b.id in h
    && (FirstId(c) == Some(b.id) ==> h[b.id].prevBlock == LastId(front))
    && (FirstFree(c) == Some(b.id) ==> h[b.id].prevFree == LastFree(front))
  }

  lemma Set(h: Heap, a: seq<Block>, m: seq<Block>, c: seq<Block>)
    requires Rep(h, a + m + c)
    ensures Setting(h, a, m, c)
  {
    PartIds(a, m, c);
    hide Ids, Distinct;
    forall b | b in a ensures LeftEnd(h, a, m + c, b) {
      assert a + m + c == a + (m + c);
      LeftBorder(h, a, m + c, b);
    }
    forall b | b in c ensures RightEnd(h, a + m, c, b) {
      RightBorder(h, a + m, c, b);
    }
  }

  /** Splicing from a setting: what is left to show of a branch. */
  lemma Conclude(h: Heap, h': Heap, a: seq<Block>, m: seq<Block>, n: seq<Block>, c: seq<Block>)
    requires Setting(h, a, m, c)
    requires Distinct(n) && forall b :: b in n ==> b.id in Ids(m) || b.id !in h
    requires h'.Keys == Ids(a) + Ids(n) + Ids(c)
    requires forall b :: b in a ==> KeptLeft(h, h', b, a, n + c)
    requires forall b :: b in c ==> KeptRight(h, h', b, c, a + n)
    requires forall j :: 0 <= j < |n| ==> RecordOk(h', n[j], a + n[..j], n[j + 1..] + c)
    ensures Rep(h', a + n + c)
  {
    hide KeptLeft, KeptRight, RecordOk, LeftEnd, RightEnd;
    IdsConcat(a + m, c); IdsConcat(a, m);
    DistinctReplace(a, m, n, c);
    IdsConcat(a + n, c); IdsConcat(a, n);
    Splice(h, h', a, m, n, c);
  }

  // ---------------------------------------------------------------- taking

  function Split(h: Heap, cur: nat, size: nat, id: nat, ref: nat): Heap
    requires Near(h, cur) && id !in h && h[cur].size >= size
  {
    CutFront(InsertBefore(h, cur, size, id, ref), cur, size)
  }

  lemma SplitAt(h: Heap, cur: nat, size: nat, id: nat, ref: nat, x: nat)
    requires Near(h, cur) && id !in h && h[cur].size >= size && x in h && h[cur].prevBlock != Some(cur)
    ensures Split(h, cur, size, id, ref).Keys == h.Keys + {id}
    ensures var r := Split(h, cur, size, id, ref)[x];
      r == if x == cur then h[x].(prevBlock := Some(id), offset := h[x].offset + size, size := h[x].size - size)
           else h[x].(nextBlock := if h[cur].prevBlock == Some(x) then Some(id) else h[x].nextBlock)
    ensures Split(h, cur, size, id, ref)[id]
      == Record(false, h[cur].offset, size, None, None, Some(cur), h[cur].prevBlock, Some(ref))
  {
  }

  lemma SplitRep(h: Heap, s: seq<Block>, i: nat, size: nat, id: nat, ref: nat)
    requires Rep(h, s) && i < |s| && Fits(s[i], size) && size != s[i].size && id !in h
    ensures Near(h, s[i].id) && h[s[i].id].size == s[i].size
    ensures Rep(Split(h, s[i].id, size, id, ref), Allot(s, i, size, id, ref))
  {
    NearAt(h, s, i);
    var a, c := s[..i], s[i + 1..];
    assert s == a + [s[i]] + c && RecordAt(h, s, i);
    Set(h, a, [s[i]], c);
    hide Rep;
    SplitRecords(h, a, s[i], c, size, id, ref);
  }

  lemma SplitEnds(a: seq<Block>, b0: Block, c: seq<Block>, size: nat, id: nat, ref: nat)
    requires Fits(b0, size) && size != b0.size && id != b0.id
    ensures var m, n := [b0], [Taken(b0, size, id, ref)] + Rest(b0, size);
      && Ids(m) == {b0.id} && Ids(n) == {id, b0.id} && Distinct(n)
      && FirstFree(n + c) == FirstFree(m + c) == Some(b0.id) == LastFree(a + n) == LastFree(a + m)
      && FirstId(n + c) == Some(id) && LastId(a + n) == Some(b0.id) == LastId(a + m)
      && FirstFree(n[1..] + c) == Some(b0.id) && FirstId(n[1..] + c) == Some(b0.id)
      && LastFree(a + n[..1]) == LastFree(a) && LastId(a + n[..1]) == Some(id)
      && n[2..] + c == c && a + n[..0] == a
  {
    var m, n := [b0], [Taken(b0, size, id, ref)] + Rest(b0, size);
    assert m[0] in m && n[0] in n && n[1] in n;
    FirstFreeConcat(m, c); FirstFreeConcat(n, c); FirstFreeConcat(n[1..], c);
    LastFreeConcat(a, m); LastFreeConcat(a, n); LastFreeConcat(a, n[..1]);
    assert LastFree(n[..1]).None? && FirstFree(n[1..]) == Some(b0.id);
  }

  lemma SplitRecords(h: Heap, a: seq<Block>, b0: Block, c: seq<Block>, size: nat, id: nat, ref: nat)
    requires Setting(h, a, [b0], c) && RecordOk(h, b0, a, c) && Near(h, b0.id)
    requires Fits(b0, size) && size != b0.size && id !in h
    ensures Rep(Split(h, b0.id, size, id, ref), a + ([Taken(b0, size, id, ref)] + Rest(b0, size)) + c)
  {
    hide Split, FirstFree, LastFree, FirstId, LastId, Near, Rep, Ids, Distinct;
    var cur, m := b0.id, [b0];
    var n := [Taken(b0, size, id, ref)] + Rest(b0, size);
    var h' := Split(h, cur, size, id, ref);
    EndsIn(a);
    SplitEnds(a, b0, c, size, id, ref);
    SplitAt(h, cur, size, id, ref, cur);
    forall b | b in a ensures KeptLeft(h, h', b, a, n + c) {
      assert LeftEnd(h, a, m + c, b);
      SplitAt(h, cur, size, id, ref, b.id);
    }
    forall b | b in c ensures KeptRight(h, h', b, c, a + n) {
      assert RightEnd(h, a + m, c, b);
      SplitAt(h, cur, size, id, ref, b.id);
    }
    assert RecordOk(h', n[0], a + n[..0], n[1..] + c);
    assert RecordOk(h', n[1], a + n[..1], n[2..] + c);
    hide Setting, KeptLeft, KeptRight, RecordOk;
    Conclude(h, h', a, m, n, c);
  }

  // ---------------------------------------------------------------- taking a whole block

  function TakeWhole(h: Heap, cur: nat, size: nat, id: nat, ref: nat): Heap
    requires Near(h, cur) && id !in h
  {
    var h1 := InsertBefore(h, cur, size, id, ref);
    DropFree(h1, cur)
  }

  /** None of the links of a record leads back to it. */
  ghost predicate Outward(h: Heap, ids: set<nat>, p: Option<nat>) {
    p.Some? ==> p.value in h && p.value !in ids
  }

  lemma TakeWholeAt(h: Heap, cur: nat, size: nat, id: nat, ref: nat, x: nat)
    requires Near(h, cur) && id !in h && x in h && x != cur
    requires var r := h[cur];
      Outward(h, {cur}, r.nextBlock) && Outward(h, {cur}, r.prevBlock) && Outward(h, {cur}, r.nextFree)
        && Outward(h, {cur}, r.prevFree)
    ensures var h', r := TakeWhole(h, cur, size, id, ref), h[cur];
      && h'.Keys == h.Keys + {id} - {cur}
      && h'[id] == Record(false, r.offset, size, None, None, r.nextBlock, r.prevBlock, Some(ref))
      && h'[x] == h[x].(
        nextBlock := if r.prevBlock == Some(x) then Some(id) else h[x].nextBlock,
        prevBlock := if r.nextBlock == Some(x) then Some(id) else h[x].prevBlock,
        nextFree := if r.prevFree == Some(x) then r.nextFree else h[x].nextFree,
        prevFree := if r.nextFree == Some(x) then r.prevFree else h[x].prevFree)
  {
  }

  lemma OneEnds(a: seq<Block>, b: Block, c: seq<Block>)
    ensures FirstFree([b] + c) == (if b.free then Some(b.id) else FirstFree(c)) && FirstId([b] + c) == Some(b.id)
    ensures LastFree(a + [b]) == (if b.free then Some(b.id) else LastFree(a)) && LastId(a + [b]) == Some(b.id)
    ensures Ids([b]) == {b.id} && Distinct([b]) && a + [b][..0] == a && [b][1..] + c == c
  {
    assert ([b] + c)[1..] == c && (a + [b])[..|a|] == a && [b][0] in [b];
  }

  lemma TwoEnds(a: seq<Block>, b: Block, d: Block, c: seq<Block>)
    ensures var m := [b, d];
      && FirstFree(m + c) == (if b.free then Some(b.id) else if d.free then Some(d.id) else FirstFree(c))
      && LastFree(a + m) == (if d.free then Some(d.id) else if b.free then Some(b.id) else LastFree(a))
      && FirstId(m + c) == Some(b.id) && LastId(a + m) == Some(d.id) && Ids(m) == {b.id, d.id}
  {
    OneEnds(a, b, [d] + c);
    OneEnds(a + [b], d, c);
    assert [b, d] + c == [b] + ([d] + c) && a + [b, d] == a + [b] + [d];
    OneEnds(a, b, []);
    OneEnds([], d, c);
    assert [d] + c == [d] + c && [b, d][0] == b && [b, d][1] == d;
  }

  lemma WholeRep(h: Heap, s: seq<Block>, i: nat, size: nat, id: nat, ref: nat)
    requires Rep(h, s) && i < |s| && s[i].free && size == s[i].size && id !in h
    ensures Near(h, s[i].id)
    ensures Rep(TakeWhole(h, s[i].id, size, id, ref), Allot(s, i, size, id, ref))
  {
    NearAt(h, s, i);
    var a, c := s[..i], s[i + 1..];
    assert s == a + [s[i]] + c && RecordAt(h, s, i);
    Set(h, a, [s[i]], c);
    hide Rep;
    WholeRecords(h, a, s[i], c, size, id, ref);
    assert Rest(s[i], size) == [];
    assert [Taken(s[i], size, id, ref)] + Rest(s[i], size) == [Taken(s[i], size, id, ref)];
  }

  lemma WholeRecords(h: Heap, a: seq<Block>, b0: Block, c: seq<Block>, size: nat, id: nat, ref: nat)
    requires Setting(h, a, [b0], c) && RecordOk(h, b0, a, c) && Near(h, b0.id)
    requires b0.free && size == b0.size && id !in h
    ensures Rep(TakeWhole(h, b0.id, size, id, ref), a + [Taken(b0, size, id, ref)] + c)
  {
    hide TakeWhole, FirstFree, LastFree, FirstId, LastId, Near, Rep, Ids, Distinct;
    var cur, m, n := b0.id, [b0], [Taken(b0, size, id, ref)];
    var h' := TakeWhole(h, cur, size, id, ref);
    EndsIn(a); EndsIn(c);
    OneEnds(a, b0, c);
    OneEnds(a, n[0], c);
    WholeKeys(h, cur, size, id, ref);
    forall b | b in a ensures KeptLeft(h, h', b, a, n + c) {
      assert LeftEnd(h, a, m + c, b);
      TakeWholeAt(h, cur, size, id, ref, b.id);
    }
    forall b | b in c ensures KeptRight(h, h', b, c, a + n) {
      assert RightEnd(h, a + m, c, b);
      TakeWholeAt(h, cur, size, id, ref, b.id);
    }
    assert RecordOk(h', n[0], a + n[..0], n[1..] + c);
    hide Setting, KeptLeft, KeptRight, RecordOk;
    Conclude(h, h', a, m, n, c);
  }

  lemma WholeKeys(h: Heap, cur: nat, size: nat, id: nat, ref: nat)
    requires Near(h, cur) && id !in h
    requires var r := h[cur];
      Outward(h, {cur}, r.nextBlock) && Outward(h, {cur}, r.prevBlock) && Outward(h, {cur}, r.nextFree)
        && Outward(h, {cur}, r.prevFree)
    ensures var h', r := TakeWhole(h, cur, size, id, ref), h[cur];
      && h'.Keys == h.Keys + {id} - {cur}
      && h'[id] == Record(false, r.offset, size, None, None, r.nextBlock, r.prevBlock, Some(ref))
  {
  }

  // ---------------------------------------------------------------- giving back

  lemma JoinLeftAt(h: Heap, cur: nat, prev: nat)
    requires Near(h, cur) && Near(h, prev) && cur != prev && Outward(h, {cur, prev}, h[cur].nextBlock)
    ensures var h' := JoinLeft(h, cur, prev);
      && h'.Keys == h.Keys - {cur}
      && h'[prev] == h[prev].(nextBlock := h[cur].nextBlock, size := h[prev].size + h[cur].size)
      && forall x :: x in h' && x != prev ==>
          h'[x] == h[x].(prevBlock := if h[cur].nextBlock == Some(x) then Some(prev) else h[x].prevBlock)
  {
  }

  lemma JoinLeftRecords(h: Heap, a: seq<Block>, p: Block, b0: Block, c: seq<Block>)
    requires Setting(h, a, [p, b0], c) && RecordOk(h, b0, a + [p], c) && RecordOk(h, p, a, [b0] + c)
    requires p.free && !b0.free && !FreeStart(c) && Near(h, b0.id) && Near(h, p.id) && p.id != b0.id
    ensures Rep(JoinLeft(h, b0.id, p.id), a + [p.(size := p.size + b0.size)] + c)
  {
    hide JoinLeft, FirstFree, LastFree, FirstId, LastId, Near, Rep, Ids, Distinct;
    var m, n := [p, b0], [p.(size := p.size + b0.size)];
    var h' := JoinLeft(h, b0.id, p.id);
    EndsIn(c);
    TwoEnds(a, p, b0, c);
    OneEnds(a, b0, c);
    OneEnds(a, n[0], c);
    JoinLeftAt(h, b0.id, p.id);
    forall b | b in a ensures KeptLeft(h, h', b, a, n + c) {
      assert LeftEnd(h, a, m + c, b);
    }
    forall b | b in c ensures KeptRight(h, h', b, c, a + n) {
      assert RightEnd(h, a + m, c, b);
    }
    assert RecordOk(h', n[0], a + n[..0], n[1..] + c);
    hide Setting, KeptLeft, KeptRight, RecordOk;
    Conclude(h, h', a, m, n, c);
  }

  lemma JoinRightAt(h: Heap, cur: nat, next: nat)
    requires Near(h, cur) && Near(h, next) && cur != next && Outward(h, {cur, next}, h[cur].prevBlock)
    ensures var h' := JoinRight(h, cur, next);
      && h'.Keys == h.Keys - {cur}
      && h'[next] == h[next].(prevBlock := h[cur].prevBlock, offset := h[cur].offset,
          size := h[next].size + h[cur].size)
      && forall x :: x in h' && x != next ==>
          h'[x] == h[x].(nextBlock := if h[cur].prevBlock == Some(x) then Some(next) else h[x].nextBlock)
  {
  }

  lemma JoinRightRecords(h: Heap, a: seq<Block>, b0: Block, d: Block, c: seq<Block>)
    requires Setting(h, a, [b0, d], c) && RecordOk(h, b0, a, [d] + c) && RecordOk(h, d, a + [b0], c)
    requires d.free && !b0.free && Near(h, b0.id) && Near(h, d.id) && d.id != b0.id
    ensures Rep(JoinRight(h, b0.id, d.id), a + [d.(offset := b0.offset, size := d.size + b0.size)] + c)
  {
    hide JoinRight, FirstFree, LastFree, FirstId, LastId, Near, Rep, Ids, Distinct;
    var m, n := [b0, d], [d.(offset := b0.offset, size := d.size + b0.size)];
    var h' := JoinRight(h, b0.id, d.id);
    EndsIn(a);
    TwoEnds(a, b0, d, c);
    OneEnds(a, b0, c);
    OneEnds(a, n[0], c);
    JoinRightAt(h, b0.id, d.id);
    forall b | b in a ensures KeptLeft(h, h', b, a, n + c) {
      assert LeftEnd(h, a, m + c, b);
    }
    forall b | b in c ensures KeptRight(h, h', b, c, a + n) {
      assert RightEnd(h, a + m, c, b);
    }
    assert RecordOk(h', n[0], a + n[..0], n[1..] + c);
    hide Setting, KeptLeft, KeptRight, RecordOk;
    Conclude(h, h', a, m, n, c);
  }

  lemma JoinBothAt(h: Heap, cur: nat, prev: nat, next: nat)
    requires Near(h, cur) && Near(h, prev) && Near(h, next) && |{cur, prev, next}| == 3
    requires var gone := {cur, prev, next};
      && Outward(h, gone, h[prev].prevFree) && Outward(h, gone, h[next].nextFree)
      && Outward(h, gone, h[prev].prevBlock) && Outward(h, gone, h[next].nextBlock)
    ensures var h', p, n := JoinBoth(h, cur, prev, next), h[prev], h[next];
      && h'.Keys == h.Keys - {prev, next}
      && h'[cur] == h[cur].(prevFree := p.prevFree, nextFree := n.nextFree, prevBlock := p.prevBlock,
          nextBlock := n.nextBlock, free := true, offset := p.offset, size := p.size + h[cur].size + n.size)
  {
  }

  lemma JoinBothElse(h: Heap, cur: nat, prev: nat, next: nat, x: nat)
    requires Near(h, cur) && Near(h, prev) && Near(h, next) && x in h && x !in {cur, prev, next}
    requires var gone := {cur, prev, next};
      && Outward(h, gone, h[prev].prevFree) && Outward(h, gone, h[next].nextFree)
      && Outward(h, gone, h[prev].prevBlock) && Outward(h, gone, h[next].nextBlock)
    ensures var h', p, n := JoinBoth(h, cur, prev, next), h[prev], h[next];
      && x in h'
      && h'[x] == h[x].(
        nextFree := if p.prevFree == Some(x) then Some(cur) else h[x].nextFree,
        prevFree := if n.nextFree == Some(x) then Some(cur) else h[x].prevFree,
        nextBlock := if p.prevBlock == Some(x) then Some(cur) else h[x].nextBlock,
        prevBlock := if n.nextBlock == Some(x) then Some(cur) else h[x].prevBlock)
  {
  }

  lemma ThreeEnds(a: seq<Block>, p: Block, b: Block, d: Block, c: seq<Block>)
    requires p.free && d.free && !b.free
    ensures var m := [p, b, d];
      && FirstFree(m + c) == Some(p.id) && LastFree(a + m) == Some(d.id)
      && FirstId(m + c) == Some(p.id) && LastId(a + m) == Some(d.id) && Ids(m) == {p.id, b.id, d.id}
  {
    var m := [p, b, d];
    OneEnds(a, p, [b, d] + c);
    OneEnds(a + [p, b], d, c);
    assert m + c == [p] + ([b, d] + c) && a + m == a + [p, b] + [d];
    assert m[0] in m && m[1] in m && m[2] in m;
  }

  lemma JoinBothRecords(h: Heap, a: seq<Block>, p: Block, b0: Block, d: Block, c: seq<Block>)
    requires Setting(h, a, [p, b0, d], c)
    requires RecordOk(h, p, a, [b0, d] + c) && b0.id in h && RecordOk(h, d, a + [p, b0], c)
    requires h[b0.id].size == b0.size && Near(h, b0.id) && Near(h, p.id) && Near(h, d.id)
    requires p.free && d.free && !b0.free && p.id != b0.id && b0.id != d.id && p.id != d.id
    ensures Rep(JoinBoth(h, b0.id, p.id, d.id),
                a + [b0.(free := true, offset := p.offset, size := p.size + b0.size + d.size)] + c)
  {
    hide JoinBoth, FirstFree, LastFree, FirstId, LastId, Near, Rep, Ids, Distinct;
    var m, n := [p, b0, d], [b0.(free := true, offset := p.offset, size := p.size + b0.size + d.size)];
    var h' := JoinBoth(h, b0.id, p.id, d.id);
    EndsIn(a); EndsIn(c);
    ThreeEnds(a, p, b0, d, c);
    OneEnds(a, n[0], c);
    assert |{b0.id, p.id, d.id}| == 3;
    JoinBothAt(h, b0.id, p.id, d.id);
    forall b | b in a ensures KeptLeft(h, h', b, a, n + c) {
      assert LeftEnd(h, a, m + c, b);
      JoinBothElse(h, b0.id, p.id, d.id, b.id);
    }
    forall b | b in c ensures KeptRight(h, h', b, c, a + n) {
      assert RightEnd(h, a + m, c, b);
      JoinBothElse(h, b0.id, p.id, d.id, b.id);
    }
    assert RecordOk(h', n[0], a + n[..0], n[1..] + c);
    hide Setting, KeptLeft, KeptRight, RecordOk;
    Conclude(h, h', a, m, n, c);
  }

  lemma LinkAfterAt(h: Heap, cur: nat, left: nat)
    requires cur in h && Near(h, left) && cur != left && Outward(h, {cur, left}, h[left].nextFree)
    ensures var h', next := LinkAfter(h, cur, left), h[left].nextFree;
      && h'.Keys == h.Keys
      && h'[cur] == h[cur].(free := true, prevFree := Some(left), nextFree := next)
      && forall x :: x in h && x != cur ==>
          h'[x] == h[x].(nextFree := if x == left then Some(cur) else h[x].nextFree,
                         prevFree := if next == Some(x) then Some(cur) else h[x].prevFree)
  {
  }

  lemma LinkAfterRecords(h: Heap, a: seq<Block>, b0: Block, c: seq<Block>, left: nat)
    requires Setting(h, a, [b0], c) && RecordOk(h, b0, a, c) && !b0.free
    requires LastFree(a) == Some(left) && Near(h, left)
    ensures Rep(LinkAfter(h, b0.id, left), a + [b0.(free := true)] + c)
  {
    hide LinkAfter, FirstFree, LastFree, FirstId, LastId, Near, Rep, Ids, Distinct;
    var m, n := [b0], [b0.(free := true)];
    var h' := LinkAfter(h, b0.id, left);
    EndsIn(a); EndsIn(c);
    OneEnds(a, b0, c);
    OneEnds(a, n[0], c);
    LastFreeIn(a);
    assert h[left].nextFree == FirstFree(c) by {
      var j :| 0 <= j < |a| && a[j].id == left;
      assert LeftEnd(h, a, m + c, a[j]);
    }
    LinkAfterAt(h, b0.id, left);
    forall b | b in a ensures KeptLeft(h, h', b, a, n + c) {
      assert LeftEnd(h, a, m + c, b);
    }
    forall b | b in c ensures KeptRight(h, h', b, c, a + n) {
      assert RightEnd(h, a + m, c, b);
    }
    assert RecordOk(h', n[0], a + n[..0], n[1..] + c);
    hide Setting, KeptLeft, KeptRight, RecordOk;
    Conclude(h, h', a, m, n, c);
  }

  lemma LinkFirstAt(h: Heap, cur: nat, right: Option<nat>)
    requires cur in h && Outward(h, {cur}, right)
    ensures var h' := LinkFirst(h, cur, right);
      && h'.Keys == h.Keys
      && h'[cur] ==
         h[cur].(free := true, prevFree := if right.Some? then h[right.value].prevFree else None, nextFree := right)
      && forall x :: x in h && x != cur ==>
          h'[x] == h[x].(prevFree := if right == Some(x) then Some(cur) else h[x].prevFree)
  {
  }

  lemma LinkFirstRecords(h: Heap, a: seq<Block>, b0: Block, c: seq<Block>)
    requires Setting(h, a, [b0], c) && RecordOk(h, b0, a, c) && !b0.free
    requires LastFree(a).None?
    ensures Known(h, FirstFree(c))
    ensures Rep(LinkFirst(h, b0.id, FirstFree(c)), a + [b0.(free := true)] + c)
  {
    hide LinkFirst, FirstFree, LastFree, FirstId, LastId, Near, Rep, Ids, Distinct;
    EndsIn(a); EndsIn(c);
    OneEnds(a, b0, c);
    var m, n, right := [b0], [b0.(free := true)], FirstFree(c);
    OneEnds(a, n[0], c);
    FirstFreeIn(c);
    assert right.Some? ==> right.value in h && h[right.value].prevFree.None? by {
      if right.Some? {
        var j :| 0 <= j < |c| && c[j].id == right.value;
        assert RightEnd(h, a + m, c, c[j]);
      }
    }
    var h' := LinkFirst(h, b0.id, right);
    LinkFirstAt(h, b0.id, right);
    forall b | b in a ensures KeptLeft(h, h', b, a, n + c) {
      assert LeftEnd(h, a, m + c, b);
    }
    forall b | b in c ensures KeptRight(h, h', b, c, a + n) {
      assert RightEnd(h, a + m, c, b);
    }
    assert RecordOk(h', n[0], a + n[..0], n[1..] + c);
    hide Setting, KeptLeft, KeptRight, RecordOk;
    Conclude(h, h', a, m, n, c);
  }

  // ---------------------------------------------------------------- the branches of a release

  lemma RecordIn(h: Heap, s: seq<Block>, i: nat, before: seq<Block>, after: seq<Block>)
    requires Rep(h, s) && i < |s| && s[..i] == before && s[i + 1..] == after
    ensures RecordOk(h, s[i], before, after) && Near(h, s[i].id)
  {
    assert RecordAt(h, s, i);
    NearAt(h, s, i);
  }

  /** The records of two, or three, neighbours. */
  lemma TwoRecords(h: Heap, a: seq<Block>, b: Block, d: Block, c: seq<Block>)
    requires Rep(h, a + [b, d] + c)
    ensures RecordOk(h, b, a, [d] + c) && Near(h, b.id) && RecordOk(h, d, a + [b], c) && Near(h, d.id) && b.id != d.id
  {
    var s, i := a + [b, d] + c, |a|;
    assert s[i] == b && s[i + 1] == d && s[..i] == a && s[i + 1..] == [d] + c;
    assert s[..i + 1] == a + [b] && s[i + 1 + 1..] == c;
    hide Rep, RecordOk, Near;
    RecordIn(h, s, i, a, [d] + c);
    RecordIn(h, s, i + 1, a + [b], c);
    assert Distinct(s) by { RepDistinct(h, s); }
  }

  lemma RepDistinct(h: Heap, s: seq<Block>)
    requires Rep(h, s)
    ensures Distinct(s) && h.Keys == Ids(s)
  {
  }

  lemma ThreeRecords(h: Heap, a: seq<Block>, p: Block, b: Block, d: Block, c: seq<Block>)
    requires Rep(h, a + [p, b, d] + c)
    ensures RecordOk(h, p, a, [b, d] + c) && RecordOk(h, b, a + [p], [d] + c) && RecordOk(h, d, a + [p, b], c)
    ensures Near(h, p.id) && Near(h, b.id) && Near(h, d.id) && p.id != b.id && b.id != d.id && p.id != d.id
  {
    assert a + [p, b, d] + c == a + [p, b] + ([d] + c) && a + [p, b, d] + c == (a + [p]) + [b, d] + c;
    assert [b] + ([d] + c) == [b, d] + c && a + [p] + [b] == a + [p, b];
    hide Rep, RecordOk, Near;
    TwoRecords(h, a, p, b, [d] + c);
    TwoRecords(h, a + [p], b, d, c);
    assert Distinct(a + [p, b, d] + c) by { RepDistinct(h, a + [p, b, d] + c); }
    assert (a + [p, b, d] + c)[|a|] == p && (a + [p, b, d] + c)[|a| + 2] == d;
  }

  lemma LeftRep(h: Heap, s: seq<Block>, i: nat)
    requires Rep(h, s) && i < |s| && !s[i].free && LeftFree(s, i) && !RightFree(s, i)
    ensures Near(h, s[i].id) && Near(h, s[i - 1].id)
    ensures Rep(JoinLeft(h, s[i].id, s[i - 1].id), Release(s, i))
  {
    var a, p, b0, c := s[..i - 1], s[i - 1], s[i], s[i + 1..];
    assert p.free && !FreeStart(c);
    assert s == a + [p, b0] + c;
    assert Release(s, i) == a + [p.(size := p.size + b0.size)] + c;
    hide *;
    TwoRecords(h, a, p, b0, c);
    Set(h, a, [p, b0], c);
    JoinLeftRecords(h, a, p, b0, c);
  }

  lemma RightRep(h: Heap, s: seq<Block>, i: nat)
    requires Rep(h, s) && i < |s| && !s[i].free && !LeftFree(s, i) && RightFree(s, i)
    ensures Near(h, s[i].id) && Near(h, s[i + 1].id)
    ensures Rep(JoinRight(h, s[i].id, s[i + 1].id), Release(s, i))
  {
    var a, b0, d, c := s[..i], s[i], s[i + 1], s[i + 2..];
    assert d.free;
    assert s == a + [b0, d] + c;
    assert Release(s, i) == a + [d.(offset := b0.offset, size := d.size + b0.size)] + c;
    hide *;
    TwoRecords(h, a, b0, d, c);
    Set(h, a, [b0, d], c);
    JoinRightRecords(h, a, b0, d, c);
  }

  lemma BothRep(h: Heap, s: seq<Block>, i: nat)
    requires Rep(h, s) && i < |s| && !s[i].free && LeftFree(s, i) && RightFree(s, i)
    ensures Near(h, s[i].id) && Near(h, s[i - 1].id) && Near(h, s[i + 1].id)
    ensures Rep(JoinBoth(h, s[i].id, s[i - 1].id, s[i + 1].id), Release(s, i))
  {
    var a, p, b0, d, c := s[..i - 1], s[i - 1], s[i], s[i + 1], s[i + 2..];
    assert p.free && d.free;
    assert s == a + [p, b0, d] + c;
    assert Release(s, i) == a + [b0.(free := true, offset := p.offset, size := p.size + b0.size + d.size)] + c;
    ThreeRecords(h, a, p, b0, d, c);
    assert h[b0.id].size == b0.size;
    hide *;
    Set(h, a, [p, b0, d], c);
    JoinBothRecords(h, a, p, b0, d, c);
  }

  /** No neighbour is free: link the block in between its nearest free ones. */
  lemma AloneRep(h: Heap, s: seq<Block>, i: nat)
    requires Rep(h, s) && i < |s| && !s[i].free && !LeftFree(s, i) && !RightFree(s, i)
    ensures s[i].id in h
    ensures var left := LastFree(s[..i]);
      if left.Some? then
        Near(h, left.value) && Rep(LinkAfter(h, s[i].id, left.value), Release(s, i))
      else
        var right := FirstFree(s[i + 1..]);
        Known(h, right) && Rep(LinkFirst(h, s[i].id, right), Release(s, i))
  {
    var a, c := s[..i], s[i + 1..];
    assert s == a + [s[i]] + c;
    RecordIn(h, s, i, a, c);
    Set(h, a, [s[i]], c);
    LastFreeIn(a);
    if LastFree(a).Some? {
      var j :| 0 <= j < |a| && a[j].id == LastFree(a).value && a[j].free;
      assert s[j] == a[j];
      NearAt(h, s, j);
      hide Rep, RecordOk, Near, Setting;
      LinkAfterRecords(h, a, s[i], c, LastFree(a).value);
    } else {
      hide Rep, RecordOk, Near, Setting;
      LinkFirstRecords(h, a, s[i], c);
    }
  }

  // ---------------------------------------------------------------- compaction

  function IdAt(s: seq<Block>, i: int): Option<nat> {
    if 0 <= i < |s| then Some(s[i].id) else None
  }

  /** During compaction only the list of all blocks is kept; the free links are left as they are. */
  ghost predicate ChainedAt(h: Heap, s: seq<Block>, i: nat)
    requires i < |s|
  {
    && s[i].id in h
    && var r := h[s[i].id];
    && r.free == s[i].free && r.offset == s[i].offset && r.size == s[i].size
    && r.nextBlock == IdAt(s, i + 1) && r.prevBlock == IdAt(s, i - 1)
    && (!s[i].free ==> r.nextFree.None? && r.prevFree.None? && r.ref == Some(s[i].ref))
  }

  ghost predicate Chained(h: Heap, s: seq<Block>) {
    (forall i :: 0 <= i < |s| ==> ChainedAt(h, s, i)) && Distinct(s) && h.Keys == Ids(s)
  }

  lemma RepIsChained(h: Heap, s: seq<Block>)
    requires Rep(h, s)
    ensures Chained(h, s)
  {
    forall i | 0 <= i < |s| ensures ChainedAt(h, s, i) {
      assert RecordAt(h, s, i);
    }
  }

  function Unlink(h: Heap, cur: nat): Heap
    requires cur in h && Known(h, h[cur].prevBlock) && Known(h, h[cur].nextBlock)
  {
    var h1 := SetNextBlock(h, h[cur].prevBlock, h[cur].nextBlock);
    var h2 := SetPrevBlock(h1, h1[cur].nextBlock, h1[cur].prevBlock);
    h2 - {cur}
  }

  lemma NeighboursDiffer(s: seq<Block>, i: nat, j: nat)
    requires Distinct(s) && i < |s| && j < |s| && i != j
    ensures s[i].id != s[j].id
  {
  }

  lemma ChainedKnown(h: Heap, s: seq<Block>, i: nat)
    requires Chained(h, s) && i < |s|
    ensures s[i].id in h && Known(h, h[s[i].id].prevBlock) && Known(h, h[s[i].id].nextBlock)
  {
    assert ChainedAt(h, s, i);
    if i > 0 { assert ChainedAt(h, s, i - 1); }
    if i + 1 < |s| { assert ChainedAt(h, s, i + 1); }
  }

  lemma UnlinkChained(h: Heap, s: seq<Block>, k: nat)
    requires Chained(h, s) && k < |s|
    ensures s[k].id in h && Known(h, h[s[k].id].prevBlock) && Known(h, h[s[k].id].nextBlock)
    ensures Chained(Unlink(h, s[k].id), s[..k] + s[k + 1..])
  {
    ChainedKnown(h, s, k);
    CutIds(s, k);
    var h', s' := Unlink(h, s[k].id), s[..k] + s[k + 1..];
    assert h'.Keys == h.Keys - {s[k].id};
    hide Unlink, ChainedAt, Distinct, Ids;
    forall i: nat | i < |s'| ensures ChainedAt(h', s', i) {
      UnlinkAt(h, s, k, i);
    }
  }

  lemma CutIds(s: seq<Block>, k: nat)
    requires Distinct(s) && k < |s|
    ensures Distinct(s[..k] + s[k + 1..]) && Ids(s[..k] + s[k + 1..]) == Ids(s) - {s[k].id}
  {
    assert s == s[..k] + [s[k]] + s[k + 1..];
    PartIds(s[..k], [s[k]], s[k + 1..]);
    IdsConcat(s[..k], s[k + 1..]);
    OneEnds([], s[k], []);
  }

  lemma UnlinkAt(h: Heap, s: seq<Block>, k: nat, i: nat)
    requires Chained(h, s) && k < |s| && i < |s| - 1
    requires s[k].id in h && Known(h, h[s[k].id].prevBlock) && Known(h, h[s[k].id].nextBlock)
    ensures ChainedAt(Unlink(h, s[k].id), s[..k] + s[k + 1..], i)
  {
    hide Unlink, Distinct, Ids;
    var j := if i < k then i else i + 1;
    assert (s[..k] + s[k + 1..])[i] == s[j];
    CutIdAt(s, k, i - 1);
    CutIdAt(s, k, i + 1);
    assert ChainedAt(h, s, k) && ChainedAt(h, s, j);
    NeighboursDiffer(s, j, k);
    if k > 0 && j != k - 1 { NeighboursDiffer(s, j, k - 1); }
    if k + 1 < |s| && j != k + 1 { NeighboursDiffer(s, j, k + 1); }
    if k > 0 { NeighboursDiffer(s, k - 1, k); }
    if k + 1 < |s| { NeighboursDiffer(s, k + 1, k); }
    hide Chained;
    UnlinkRecord(h, s[k].id, s[j].id);
  }

  lemma CutIdAt(s: seq<Block>, k: nat, d: int)
    requires k < |s|
    ensures IdAt(s[..k] + s[k + 1..], d) == IdAt(s, if d < k then d else d + 1)
  {
  }

  lemma UnlinkRecord(h: Heap, cur: nat, x: nat)
    requires cur in h && Known(h, h[cur].prevBlock) && Known(h, h[cur].nextBlock) && x in h && x != cur
    requires h[cur].prevBlock != Some(cur) && h[cur].nextBlock != Some(cur)
    ensures var h' := Unlink(h, cur);
      x in h' && h'[x] == h[x].(
        nextBlock := if h[cur].prevBlock == Some(x) then h[cur].nextBlock else h[x].nextBlock,
        prevBlock := if h[cur].nextBlock == Some(x) then h[cur].prevBlock else h[x].prevBlock)
  {
  }

  lemma MoveChained(h: Heap, s: seq<Block>, k: nat, offset: nat)
    requires Chained(h, s) && k < |s|
    ensures s[k].id in h
    ensures Chained(h[s[k].id := h[s[k].id].(offset := offset)], s[k := s[k].(offset := offset)])
  {
    assert ChainedAt(h, s, k);
    var h', s' := h[s[k].id := h[s[k].id].(offset := offset)], s[k := s[k].(offset := offset)];
    forall i | 0 <= i < |s'| ensures ChainedAt(h', s', i) {
      assert ChainedAt(h, s, i);
      if i != k { NeighboursDiffer(s, i, k); }
      assert forall j :: IdAt(s', j) == IdAt(s, j);
    }
    assert Distinct(s') by { assert forall i :: 0 <= i < |s| ==> s'[i].id == s[i].id; }
    IdsUpdate(s, k, offset);
  }

  lemma IdsUpdate(s: seq<Block>, k: nat, offset: nat)
    requires k < |s|
    ensures Ids(s[k := s[k].(offset := offset)]) == Ids(s)
  {
    var s' := s[k := s[k].(offset := offset)];
    forall b | b in s ensures b.id in Ids(s') {
      var i :| 0 <= i < |s| && s[i] == b;
      assert s'[i] in s';
    }
    forall b | b in s' ensures b.id in Ids(s) {
      var i :| 0 <= i < |s'| && s'[i] == b;
      assert s[i] in s;
    }
  }

  /** A free block is appended behind the last block, which exists. */
  function Append(h: Heap, last: nat, id: nat, offset: nat, size: nat): Heap
    requires last in h && id !in h
  {
    var h1 := h[id := Record(true, offset, size, None, None, None, Some(last), None)];
    h1[last := h1[last].(nextBlock := Some(id))]
  }

  ghost predicate AllLive(s: seq<Block>) {
    forall b :: b in s ==> !b.free
  }

  lemma {:induction false} LiveEnds(s: seq<Block>)
    requires AllLive(s)
    ensures FirstFree(s).None? && LastFree(s).None?
  {
    FirstFreeIn(s);
    LastFreeIn(s);
  }

  lemma AppendRep(h: Heap, s: seq<Block>, id: nat, offset: nat, size: nat)
    requires Chained(h, s) && AllLive(s) && s != [] && id !in h
    ensures s[|s| - 1].id in h
    ensures Rep(Append(h, s[|s| - 1].id, id, offset, size), s + [Block(id, true, offset, size, 0)])
  {
    hide Append, ChainedAt, RecordAt, Distinct, Ids, Chained;
    AppendIds(h, s, id, offset, size);
    var h', s' := Append(h, s[|s| - 1].id, id, offset, size), s + [Block(id, true, offset, size, 0)];
    forall i: nat | i < |s'| ensures RecordAt(h', s', i) {
      AppendAt(h, s, id, offset, size, i);
    }
  }

  lemma AppendIds(h: Heap, s: seq<Block>, id: nat, offset: nat, size: nat)
    requires Chained(h, s) && s != [] && id !in h
    ensures s[|s| - 1].id in h
    ensures var h', s' := Append(h, s[|s| - 1].id, id, offset, size), s + [Block(id, true, offset, size, 0)];
      Distinct(s') && h'.Keys == Ids(s')
  {
    assert ChainedAt(h, s, |s| - 1);
    hide ChainedAt, Distinct, Ids;
    SnocIds(s, Block(id, true, offset, size, 0));
  }

  lemma SnocIds(s: seq<Block>, b: Block)
    requires Distinct(s) && b.id !in Ids(s)
    ensures Distinct(s + [b]) && Ids(s + [b]) == Ids(s) + {b.id}
  {
    IdsConcat(s, [b]);
    OneEnds([], b, []);
    assert Ids([b]) == {b.id};
    SnocDistinct(s, b);
  }

  lemma SnocDistinct(s: seq<Block>, b: Block)
    requires Distinct(s) && b.id !in Ids(s)
    ensures Distinct(s + [b])
  {
    forall i | 0 <= i < |s| ensures s[i].id != b.id { assert s[i] in s; }
  }

  lemma AppendAt(h: Heap, s: seq<Block>, id: nat, offset: nat, size: nat, i: nat)
    requires Chained(h, s) && AllLive(s) && s != [] && id !in h && i <= |s|
    requires s[|s| - 1].id in h
    ensures RecordAt(Append(h, s[|s| - 1].id, id, offset, size), s + [Block(id, true, offset, size, 0)], i)
  {
    var n := |s|;
    var s' := s + [Block(id, true, offset, size, 0)];
    if i < n {
      assert ChainedAt(h, s, i);
      assert s[i] in s;
      if i < n - 1 { NeighboursDiffer(s, i, n - 1); }
    } else {
      assert s'[..n] == s && s'[n + 1..] == [];
      LiveEnds(s);
    }
  }

  /** A list without free blocks needs no free links. */
  lemma LiveRep(h: Heap, s: seq<Block>)
    requires Chained(h, s) && AllLive(s)
    ensures Rep(h, s)
  {
    forall i | 0 <= i < |s| ensures RecordAt(h, s, i) {
      assert ChainedAt(h, s, i);
      assert s[i] in s;
    }
  }
}

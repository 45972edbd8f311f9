/** The blocks of the fragment allocator as a sequence, and the two linked lists that stand for it
    in memory: one through all blocks, one through the free ones. */
module FragmentBlocks {
  import opened Wrappers

  /** `ref` is the pointer wrapper of an allocated block. */
  datatype Block = Block(id: nat, free: bool, offset: nat, size: nat, ref: nat)

  datatype Record = Record(
    free: bool,
    offset: nat,
    size: nat,
    nextFree: Option<nat>,
    prevFree: Option<nat>,
    nextBlock: Option<nat>,
    prevBlock: Option<nat>,
    ref: Option<nat>
  )

  type Heap = map<nat, Record>

  function FirstId(s: seq<Block>): Option<nat> {
    if s == [] then None else Some(s[0].id)
  }

  function LastId(s: seq<Block>): Option<nat> {
    if s == [] then None else Some(s[|s| - 1].id)
  }

  function FirstFree(s: seq<Block>): Option<nat> {
    if s == [] then None else if s[0].free then Some(s[0].id) else FirstFree(s[1..])
  }

  function LastFree(s: seq<Block>): Option<nat> {
    if s == [] then None
    else
      var last := s[|s| - 1];
      if last.free then Some(last.id) else LastFree(s[..|s| - 1])
  }

  function Ids(s: seq<Block>): set<nat> {
    set b | b in s :: b.id
  }

  ghost predicate Distinct(s: seq<Block>) {
    forall i, j :: 0 <= i < j < |s| ==> s[i].id != s[j].id
  }

  // ---------------------------------------------------------------- the lists in memory

  /** The record of block b between the blocks before it and after it. */
  ghost predicate RecordOk(h: Heap, b: Block, before: seq<Block>, after: seq<Block>) {
    && b.id in h
    && var r := h[b.id];
    && r.free == b.free && r.offset == b.offset && r.size == b.size
    && r.nextBlock == FirstId(after) && r.prevBlock == LastId(before)
    && r.nextFree == (if b.free then FirstFree(after) else None)
    && r.prevFree == (if b.free then LastFree(before) else None)
    && (!b.free ==> r.ref == Some(b.ref))
  }

  ghost predicate RecordAt(h: Heap, s: seq<Block>, i: nat)
    requires i < |s|
  {
    RecordOk(h, s[i], s[..i], s[i + 1..])
  }

  /** Memory holds exactly the records of these blocks, linked in their order. */
  ghost predicate Rep(h: Heap, s: seq<Block>) {
    (forall i :: 0 <= i < |s| ==> RecordAt(h, s, i)) && Distinct(s) && h.Keys == Ids(s)
  }

  // ---------------------------------------------------------------- ends of a concatenation

  lemma {:induction false} FirstFreeConcat(a: seq<Block>, b: seq<Block>)
    ensures FirstFree(a + b) == if FirstFree(a).Some? then FirstFree(a) else FirstFree(b)
  {
    if a == [] {
      assert a + b == b;
    } else {
      assert (a + b)[1..] == a[1..] + b;
      FirstFreeConcat(a[1..], b);
    }
  }

  lemma {:induction false} LastFreeConcat(a: seq<Block>, b: seq<Block>)
    ensures LastFree(a + b) == if LastFree(b).Some? then LastFree(b) else LastFree(a)
  {
    if b == [] {
      assert a + b == a;
    } else {
      assert (a + b)[..|a + b| - 1] == a + b[..|b| - 1];
      LastFreeConcat(a, b[..|b| - 1]);
    }
  }

  /** The last free block is the one with no free block behind it. */
  lemma {:induction false} LastFreeIs(s: seq<Block>, i: nat)
    requires Distinct(s) && i < |s| && s[i].free
    ensures LastFree(s) == Some(s[i].id) <==> FirstFree(s[i + 1..]).None?
  {
    var n := |s| - 1;
    if i < n {
      FirstFreeConcat(s[i + 1..n], [s[n]]);
      assert s[i + 1..] == s[i + 1..n] + [s[n]];
      assert FirstFree([s[n]]).Some? <==> s[n].free;
      if !s[n].free {
        LastFreeIs(s[..n], i);
        assert s[..n][i + 1..] == s[i + 1..n];
      }
    }
  }

  lemma {:induction false} FirstFreeIs(s: seq<Block>, i: nat)
    requires Distinct(s) && i < |s| && s[i].free
    ensures FirstFree(s) == Some(s[i].id) <==> LastFree(s[..i]).None?
  {
    if i > 0 {
      LastFreeConcat([s[0]], s[1..i]);
      assert s[..i] == [s[0]] + s[1..i];
      assert LastFree([s[0]]).Some? <==> s[0].free by { assert [s[0]][..0] == []; }
      if !s[0].free {
        FirstFreeIs(s[1..], i - 1);
        assert s[1..][..i - 1] == s[1..i];
      }
    }
  }

  // ---------------------------------------------------------------- replacing a stretch

  /** A record to the left of the stretch: only its links across the border may change. */
  ghost predicate KeptLeft(h: Heap, h': Heap, b: Block, a: seq<Block>, after: seq<Block>) {
    && b.id in h && b.id in h'
    && h'[b.id] == h[b.id].(
         nextBlock := if LastId(a) == Some(b.id) then FirstId(after) else h[b.id].nextBlock,
         nextFree := if LastFree(a) == Some(b.id) then FirstFree(after) else h[b.id].nextFree)
  }

  ghost predicate KeptRight(h: Heap, h': Heap, b: Block, c: seq<Block>, before: seq<Block>) {
    && b.id in h && b.id in h'
    && h'[b.id] == h[b.id].(
         prevBlock := if FirstId(c) == Some(b.id) then LastId(before) else h[b.id].prevBlock,
         prevFree := if FirstFree(c) == Some(b.id) then LastFree(before) else h[b.id].prevFree)
  }

  lemma LeftRecord(h: Heap, h': Heap, a: seq<Block>, rest: seq<Block>, rest': seq<Block>, i: nat)
    requires i < |a| && RecordAt(h, a + rest, i) && Distinct(a)
    requires KeptLeft(h, h', a[i], a, rest')
    ensures RecordAt(h', a + rest', i)
  {
    var tail := a[i + 1..];
    assert (a + rest)[..i] == a[..i] == (a + rest')[..i];
    assert (a + rest)[i + 1..] == tail + rest && (a + rest')[i + 1..] == tail + rest';
    FirstFreeConcat(tail, rest);
    FirstFreeConcat(tail, rest');
    if a[i].free { LastFreeIs(a, i); }
    else { LastFreeNot(a, i); }
  }

  lemma {:induction false} LastFreeNot(s: seq<Block>, i: nat)
    requires Distinct(s) && i < |s| && !s[i].free
    ensures LastFree(s) != Some(s[i].id)
  {
    if i < |s| - 1 && !s[|s| - 1].free { LastFreeNot(s[..|s| - 1], i); }
    else if i == |s| - 1 { LastFreeIn(s[..|s| - 1]); }
  }

  lemma {:induction false} LastFreeIn(s: seq<Block>)
    ensures LastFree(s).Some? ==> exists j :: 0 <= j < |s| && s[j].id == LastFree(s).value && s[j].free
  {
    if s != [] && !s[|s| - 1].free {
      LastFreeIn(s[..|s| - 1]);
      assert forall j :: 0 <= j < |s| - 1 ==> s[..|s| - 1][j] == s[j];
    }
  }

  lemma {:induction false} FirstFreeIn(s: seq<Block>)
    ensures FirstFree(s).Some? ==> exists j :: 0 <= j < |s| && s[j].id == FirstFree(s).value && s[j].free
  {
    if s != [] && !s[0].free {
      FirstFreeIn(s[1..]);
      assert forall j :: 0 <= j < |s| - 1 ==> s[1..][j] == s[j + 1];
    }
  }

  lemma {:induction false} FirstFreeNot(s: seq<Block>, i: nat)
    requires Distinct(s) && i < |s| && !s[i].free
    ensures FirstFree(s) != Some(s[i].id)
  {
    if i > 0 && !s[0].free { FirstFreeNot(s[1..], i - 1); }
    else if i == 0 { FirstFreeIn(s[1..]); }
  }

  lemma RightRecord(h: Heap, h': Heap, c: seq<Block>, front: seq<Block>, front': seq<Block>, i: nat)
    requires i < |c| && RecordAt(h, front + c, |front| + i) && Distinct(c)
    requires KeptRight(h, h', c[i], c, front')
    ensures RecordAt(h', front' + c, |front'| + i)
  {
    var head := c[..i];
    assert (front + c)[..|front| + i] == front + head && (front' + c)[..|front'| + i] == front' + head;
    assert (front + c)[|front| + i + 1..] == c[i + 1..] == (front' + c)[|front'| + i + 1..];
    LastFreeConcat(front, head);
    LastFreeConcat(front', head);
    if c[i].free { FirstFreeIs(c, i); }
    else { FirstFreeNot(c, i); }
  }

  /** Replacing the stretch m by n between a and c: the records of n are new, those of a and c
      change only at the border. */
  lemma Splice(h: Heap, h': Heap, a: seq<Block>, m: seq<Block>, n: seq<Block>, c: seq<Block>)
    requires Rep(h, a + m + c) && Distinct(a + n + c) && h'.Keys == Ids(a + n + c)
    requires forall b :: b in a ==> KeptLeft(h, h', b, a, n + c)
    requires forall b :: b in c ==> KeptRight(h, h', b, c, a + n)
    requires forall j :: 0 <= j < |n| ==> RecordOk(h', n[j], a + n[..j], n[j + 1..] + c)
    ensures Rep(h', a + n + c)
  {
    hide KeptLeft, KeptRight, RecordOk;
    forall i: nat | i < |a + n + c| ensures RecordAt(h', a + n + c, i) {
      SpliceAt(h, h', a, m, n, c, i);
    }
  }

  lemma SpliceAt(h: Heap, h': Heap, a: seq<Block>, m: seq<Block>, n: seq<Block>, c: seq<Block>, i: nat)
    requires Rep(h, a + m + c) && Distinct(a + n + c) && i < |a + n + c|
    requires forall b :: b in a ==> KeptLeft(h, h', b, a, n + c)
    requires forall b :: b in c ==> KeptRight(h, h', b, c, a + n)
    requires forall j :: 0 <= j < |n| ==> RecordOk(h', n[j], a + n[..j], n[j + 1..] + c)
    ensures RecordAt(h', a + n + c, i)
  {
    DistinctParts(a, n, c);
    hide *;
    if i < |a| { SpliceLeft(h, h', a, m, n, c, i); }
    else if i < |a| + |n| {
      var j := i - |a|;
      SpliceMiddle(h', a, n, c, j);
      assert |a| + j == i;
    }
    else {
      var j := i - |a| - |n|;
      SpliceRight(h, h', a, m, n, c, j);
      assert |a| + |n| + j == i;
    }
  }

  lemma SpliceLeft(h: Heap, h': Heap, a: seq<Block>, m: seq<Block>, n: seq<Block>, c: seq<Block>, i: nat)
    requires Rep(h, a + m + c) && Distinct(a) && i < |a|
    requires forall b :: b in a ==> KeptLeft(h, h', b, a, n + c)
    ensures RecordAt(h', a + n + c, i)
  {
    assert RecordAt(h, a + m + c, i);
    assert a + m + c == a + (m + c) && a + n + c == a + (n + c);
    assert a[i] in a;
    hide Rep, RecordOk, KeptLeft;
    LeftRecord(h, h', a, m + c, n + c, i);
  }

  lemma SpliceMiddle(h': Heap, a: seq<Block>, n: seq<Block>, c: seq<Block>, j: nat)
    requires j < |n| && RecordOk(h', n[j], a + n[..j], n[j + 1..] + c)
    ensures RecordAt(h', a + n + c, |a| + j)
  {
    hide RecordOk;
    var s' := a + n + c;
    assert s'[..|a| + j] == a + n[..j];
    assert s'[|a| + j + 1..] == n[j + 1..] + c;
    assert s'[|a| + j] == n[j];
  }

  lemma SpliceRight(h: Heap, h': Heap, a: seq<Block>, m: seq<Block>, n: seq<Block>, c: seq<Block>, j: nat)
    requires Rep(h, a + m + c) && Distinct(c) && j < |c|
    requires forall b :: b in c ==> KeptRight(h, h', b, c, a + n)
    ensures RecordAt(h', a + n + c, |a| + |n| + j)
  {
    assert RecordAt(h, a + m + c, |a + m| + j);
    assert c[j] in c;
    hide Rep, RecordOk, KeptRight;
    RightRecord(h, h', c, a + m, a + n, j);
  }

  lemma DistinctParts(a: seq<Block>, n: seq<Block>, c: seq<Block>)
    requires Distinct(a + n + c)
    ensures Distinct(a) && Distinct(n) && Distinct(c)
  {
    var s := a + n + c;
    assert forall i :: 0 <= i < |a| ==> s[i] == a[i];
    assert forall i :: 0 <= i < |n| ==> s[|a| + i] == n[i];
    assert forall i :: 0 <= i < |c| ==> s[|a| + |n| + i] == c[i];
  }

  // ---------------------------------------------------------------- what a record points to

  ghost predicate Known(h: Heap, p: Option<nat>) {
    p.Some? ==> p.value in h
  }

  /** The record is there and so is everything it points to. */
  ghost predicate Near(h: Heap, id: nat) {
    id in h && Known(h, h[id].nextFree) && Known(h, h[id].prevFree) && Known(h, h[id].nextBlock)
      && Known(h, h[id].prevBlock)
  }

  lemma NearAt(h: Heap, s: seq<Block>, i: nat)
    requires Rep(h, s) && i < |s|
    ensures Near(h, s[i].id)
  {
    assert RecordAt(h, s, i);
    FirstFreeIn(s[i + 1..]);
    LastFreeIn(s[..i]);
    assert forall b :: b in s ==> b.id in h.Keys;
    hide Rep, Ids;
    assert forall b :: b in s[i + 1..] ==> b in s;
    assert forall b :: b in s[..i] ==> b in s;
  }

  /** Across the border between a and what follows, the links are those of the two ends. */
  lemma LeftBorder(h: Heap, a: seq<Block>, rest: seq<Block>, b: Block)
    requires Rep(h, a + rest) && b in a
    ensures b.id in h
    ensures LastId(a) == Some(b.id) ==> h[b.id].nextBlock == FirstId(rest)
    ensures LastFree(a) == Some(b.id) ==> h[b.id].nextFree == FirstFree(rest)
  {
    var i :| 0 <= i < |a| && a[i] == b;
    var s := a + rest;
    assert RecordAt(h, s, i) && s[i] == b;
    assert s[i + 1..] == a[i + 1..] + rest;
    FirstFreeConcat(a[i + 1..], rest);
    DistinctParts(a, rest, []);
    assert a + rest + [] == s;
    if b.free { LastFreeIs(a, i); } else { LastFreeNot(a, i); }
    if LastId(a) == Some(b.id) { assert i == |a| - 1; assert s[i + 1..] == rest; }
  }

  lemma RightBorder(h: Heap, front: seq<Block>, c: seq<Block>, b: Block)
    requires Rep(h, front + c) && b in c
    ensures b.id in h
    ensures FirstId(c) == Some(b.id) ==> h[b.id].prevBlock == LastId(front)
    ensures FirstFree(c) == Some(b.id) ==> h[b.id].prevFree == LastFree(front)
  {
    var i :| 0 <= i < |c| && c[i] == b;
    var s := front + c;
    var k := |front| + i;
    assert RecordAt(h, s, k) && s[k] == b;
    assert s[..k] == front + c[..i];
    LastFreeConcat(front, c[..i]);
    DistinctParts(front, c, []);
    assert front + c + [] == s;
    if b.free { FirstFreeIs(c, i); } else { FirstFreeNot(c, i); }
    if FirstId(c) == Some(b.id) { assert i == 0; assert s[..k] == front; }
  }
}

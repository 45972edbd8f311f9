/** The fragment allocator, updated in place: a heap of block records, two list heads, the map from
    pointer wrappers to blocks, and the bytes of the pool. */
module FragmentAllocation {
  import opened Wrappers
  import opened FragmentBlocks
  import opened FragmentLayout
  import opened FragmentHeap

  /** What a client holds; its reference may be null. */
  datatype Handle = Handle(reference: Option<nat>)

  // ---------------------------------------------------------------- the pointer map

  ghost predicate Listed(pointers: map<nat, nat>, b: Block) {
    !b.free ==> b.ref in pointers && pointers[b.ref] == b.id
  }

  ghost predicate Owned(s: seq<Block>, ref: nat, id: nat) {
    exists b :: b in s && !b.free && b.ref == ref && b.id == id
  }

  /** The map is a bijection between the references it knows and the allocated blocks. */
  ghost predicate Bijection(pointers: map<nat, nat>, s: seq<Block>) {
    && (forall b :: b in s ==> Listed(pointers, b))
    && (forall ref :: ref in pointers ==> Owned(s, ref, pointers[ref]))
  }

  lemma AllotBijection(pointers: map<nat, nat>, s: seq<Block>, i: nat, size: nat, id: nat, ref: nat)
    requires Bijection(pointers, s) && i < |s| && Fits(s[i], size) && ref !in pointers
    ensures Bijection(pointers[ref := id], Allot(s, i, size, id, ref))
  {
    var p', s' := pointers[ref := id], Allot(s, i, size, id, ref);
    assert s'[i] == Taken(s[i], size, id, ref) && s'[i] in s';
    forall b | b in s' ensures Listed(p', b) {
      if b != s'[i] && !b.free { assert b in s; assert Listed(pointers, b); }
    }
    forall r | r in p' ensures Owned(s', r, p'[r]) {
      if r != ref {
        assert Owned(s, r, pointers[r]);
        var b :| b in s && !b.free && b.ref == r && b.id == pointers[r];
        var k :| 0 <= k < |s| && s[k] == b;
        assert k != i;
        assert b in s[..i] || b in s[i + 1..] by {
          if k < i { assert s[..i][k] == b; } else { assert s[i + 1..][k - i - 1] == b; }
        }
        assert b in s';
      }
    }
  }

  lemma ReleaseBijection(pointers: map<nat, nat>, s: seq<Block>, i: nat)
    requires Bijection(pointers, s) && i < |s| && !s[i].free && Distinct(s)
    ensures Bijection(pointers - {s[i].ref}, Release(s, i))
  {
    hide Release, Listed, Owned, Distinct;
    var s', p' := Release(s, i), pointers - {s[i].ref};
    forall b | b in s' ensures Listed(p', b) { ReleaseListed(pointers, s, i, b); }
    ReleaseOwned(pointers, s, i);
  }

  lemma ReleaseListed(pointers: map<nat, nat>, s: seq<Block>, i: nat, b: Block)
    requires Bijection(pointers, s) && i < |s| && !s[i].free && Distinct(s) && b in Release(s, i)
    ensures Listed(pointers - {s[i].ref}, b)
  {
    hide Release, Owned;
    if !b.free {
      var j := OtherBlock(s, i, b);
      assert s[i] in s && Listed(pointers, s[i]);
      assert s[j] in s && Listed(pointers, s[j]);
    }
  }

  lemma ReleaseOwned(pointers: map<nat, nat>, s: seq<Block>, i: nat)
    requires Bijection(pointers, s) && i < |s| && !s[i].free
    ensures var p' := pointers - {s[i].ref}; forall r :: r in p' ==> Owned(Release(s, i), r, p'[r])
  {
    var from, to := ReleaseFrom(s, i), ReleaseTo(s, i);
    var m := s[from..to];
    ReleaseParts(s, i);
    var s', p' := Release(s, i), pointers - {s[i].ref};
    hide Release, Listed, ReleaseFrom, ReleaseTo;
    forall r | r in p' ensures Owned(s', r, p'[r]) {
      assert Owned(s, r, pointers[r]);
      var b :| b in s && !b.free && b.ref == r && b.id == pointers[r];
      assert b !in m by { OnlyLive(s, i, b); }
      assert b in s';
    }
  }

  lemma OnlyLive(s: seq<Block>, i: nat, b: Block)
    requires i < |s| && !s[i].free && !b.free && b.ref != s[i].ref
    ensures b !in s[ReleaseFrom(s, i)..ReleaseTo(s, i)]
  {
  }

  /** The block a reference stands for. */
  function IndexOf(s: seq<Block>, ref: nat): (i: nat)
    ensures i <= |s|
    ensures i < |s| ==> !s[i].free && s[i].ref == ref
    ensures (exists b :: b in s && !b.free && b.ref == ref) ==> i < |s|
  {
    if s == [] then 0
    else if !s[0].free && s[0].ref == ref then 0
    else
      var i := IndexOf(s[1..], ref);
      assert forall b :: b in s ==> b == s[0] || b in s[1..];
      i + 1
  }

  // ---------------------------------------------------------------- walking the lists

  /** From block i on, the first free one. */
  function FreeFrom(s: seq<Block>, i: nat): (k: nat)
    requires i <= |s|
    ensures i <= k <= |s| && (k < |s| ==> s[k].free) && forall j :: i <= j < k ==> !s[j].free
    decreases |s| - i
  {
    if i == |s| || s[i].free then i else FreeFrom(s, i + 1)
  }

  lemma FirstFreeIndex(s: seq<Block>, i: nat)
    requires i <= |s|
    ensures FirstFree(s[i..]) == if FreeFrom(s, i) < |s| then Some(s[FreeFrom(s, i)].id) else None
    decreases |s| - i
  {
    if i < |s| {
      assert s[i..][1..] == s[i + 1..];
      if !s[i].free { FirstFreeIndex(s, i + 1); }
    }
  }

  predicate NoneFits(s: seq<Block>, i: nat, size: nat) {
    i <= |s| && forall j :: 0 <= j < i ==> !Fits(s[j], size)
  }

  lemma WalkStarts(s: seq<Block>, size: nat)
    ensures NoneFits(s, FreeFrom(s, 0), size) && FirstFree(s) == IdAt(s, FreeFrom(s, 0))
  {
    FirstFreeIndex(s, 0);
    assert s[0..] == s;
  }

  /** From one free block to the next. */
  lemma WalkStep(h: Heap, s: seq<Block>, i: nat, size: nat)
    requires Rep(h, s) && i < |s| && s[i].free && NoneFits(s, i, size)
    ensures s[i].id in h && h[s[i].id].size == s[i].size && h[s[i].id].nextFree == IdAt(s, FreeFrom(s, i + 1))
    ensures if Fits(s[i], size) then FirstFit(s, size) == i else NoneFits(s, FreeFrom(s, i + 1), size)
  {
    assert RecordAt(h, s, i);
    FirstFreeIndex(s, i + 1);
  }

  lemma WalkEnds(s: seq<Block>, i: nat, size: nat)
    requires i == |s| && NoneFits(s, i, size)
    ensures FirstFit(s, size) == |s|
  {
  }

  class FragmentAllocator {
    const pool: nat
    const chunks: nat
    var heap: Heap
    var head: Option<nat>
    var headFree: Option<nat>
    var pointers: map<nat, nat>
    var data: map<nat, nat>
    var used: nat
    var memory: seq<bv8>
    ghost var blocks: seq<Block>

    ghost predicate Linked()
      reads this
    {
      Rep(heap, blocks) && head == FirstId(blocks) && headFree == FirstFree(blocks)
    }

    ghost predicate Valid()
      reads this
    {
      && Linked() && Sound(blocks, pool) && blocks != [] && chunks == pool / CHUNK
      && used == Used(blocks) && Bijection(pointers, blocks) && data.Keys == pointers.Keys
      && |memory| == pool && InPool(blocks, data, pool)
    }

    /** `id` is the address of the first block record. */
    constructor (size: nat, id: nat, memory: seq<bv8>)
      requires size > 0 && |memory| == size
      ensures Valid() && pool == size && blocks == [Block(id, true, 0, size, 0)] && pointers == map[]
      ensures Agrees(blocks, data)
    {
      pool := size;
      chunks := size / CHUNK;
      heap := map[id := Record(true, 0, size, None, None, None, None, None)];
      head, headFree := Some(id), Some(id);
      pointers, data, used := map[], map[], 0;
      this.memory := memory;
      blocks := [Block(id, true, 0, size, 0)];
      new;
      assert RecordAt(heap, blocks, 0);
      assert blocks[0] in blocks;
      Single(blocks[0]);
    }

    /** The subtraction is of unsigned words and never wraps. */
    method Available() returns (r: nat)
      requires Valid()
      ensures r == CHUNK * (pool / CHUNK) - Used(blocks)
    {
      AvailableNeverWraps(blocks, pool);
      r := CHUNK * chunks - used;
    }

    method IsValid(pointer: Handle) returns (r: bool)
      requires Valid()
      ensures r <==> pointer.reference.Some? && IndexOf(blocks, pointer.reference.value) < |blocks|
    {
      r := pointer.reference.Some? && pointer.reference.value in pointers;
      if pointer.reference.Some? { KnownRef(pointers, blocks, pointer.reference.value); }
    }

    /** Walk the free list for the first block that is large enough. */
    method FindFit(size: nat) returns (found: Option<nat>)
      requires Linked()
      ensures var i := FirstFit(blocks, size);
        found == if i < |blocks| then Some(blocks[i].id) else None
    {
      found := headFree;
      ghost var i := FreeFrom(blocks, 0);
      WalkStarts(blocks, size);
      hide Rep, FirstFree, FirstId, NoneFits;
      while found.Some?
        invariant i <= |blocks| && NoneFits(blocks, i, size) && found == IdAt(blocks, i)
        invariant i < |blocks| ==> blocks[i].free
        decreases |blocks| - i
      {
        WalkStep(heap, blocks, i, size);
        if heap[found.value].size >= size {
          return;
        }
        found := heap[found.value].nextFree;
        i := FreeFrom(blocks, i + 1);
      }
      WalkEnds(blocks, i, size);
    }

    /** Link a new block in before the free one and cut it off, or take the free one's place. */
    method Take(ghost i: nat, cur: nat, size: nat, id: nat, ref: nat)
      requires Linked() && i < |blocks| && cur == blocks[i].id && Fits(blocks[i], size) && id !in heap
      modifies this`heap, this`head, this`headFree, this`blocks
      ensures Linked() && blocks == Allot(old(blocks), i, size, id, ref)
      ensures id in heap && heap[id].offset == old(blocks)[i].offset
    {
      ghost var s := blocks;
      NearAt(heap, s, i);
      assert RecordAt(heap, s, i);
      AllotEnds(s, i, size, id, ref);
      hide Rep, Allot, InsertBefore, CutFront, DropFree, RecordAt, Near;
      if heap[cur].size == size {
        WholeRep(heap, s, i, size, id, ref);
        if headFree == Some(cur) {
          headFree := heap[cur].nextFree;
        }
        heap := TakeWhole(heap, cur, size, id, ref);
      } else {
        SplitRep(heap, s, i, size, id, ref);
        heap := Split(heap, cur, size, id, ref);
      }
      if head == Some(cur) {
        head := Some(id);
      }
      blocks := Allot(s, i, size, id, ref);
      TakenRecord(heap, s, i, size, id, ref);
    }

    /** Fails, changing nothing, exactly when no free block holds the rounded request; else takes it
        from the first that does.  `id` and `ref` are what `new` returned. */
    method Allocate(size: nat, id: nat, ref: nat) returns (pointer: Option<Handle>)
      requires Valid() && size < WORD && id !in heap && ref !in data
      modifies this
      ensures Valid()
      ensures var i, s := FirstFit(old(blocks), Rounded(size)), old(blocks);
        if i < |s| then
          && pointer == Some(Handle(Some(ref))) && blocks == Allot(s, i, Rounded(size), id, ref)
          && data == old(data)[ref := s[i].offset] && pointers == old(pointers)[ref := id]
        else
          pointer == None && blocks == s && data == old(data) && pointers == old(pointers)
      ensures memory == old(memory)
      ensures Agrees(old(blocks), old(data)) ==> Agrees(blocks, data)
    {
      hide Rep, Sound, Bijection, InPool, Agrees, Used, Allot, FirstId, FirstFree, Tiles, Distinct;
      if headFree.None? {
        NoFree(blocks, Rounded(size));
        return None;
      }
      var r := if size % CHUNK != 0 then ((size / CHUNK + 1) * CHUNK) % WORD else size;
      var found := FindFit(r);
      if found.None? {
        return None;
      }
      var cur := found.value;
      ghost var s, i := blocks, FirstFit(blocks, r);
      RoundedCovers(size);
      assert Ids(s) == heap.Keys by { RepIds(heap, s); }
      AllotAll(s, pool, i, r, id, ref, pointers, data);
      Take(i, cur, r, id, ref);
      data := data[ref := heap[id].offset];
      pointers := pointers[ref := id];
      used := used + r;
      pointer := Some(Handle(Some(ref)));
    }

    /** Walk left from block i to the nearest free block. */
    method FindLeft(ghost i: nat, from: Option<nat>) returns (left: Option<nat>)
      requires Linked() && i <= |blocks| && from == LastId(blocks[..i])
      ensures left == LastFree(blocks[..i])
    {
      left := from;
      ghost var k := i;
      while left.Some? && !heap[left.value].free
        invariant 0 <= k <= i && left == LastId(blocks[..k]) && LastFree(blocks[..k]) == LastFree(blocks[..i])
        invariant Known(heap, left) && (k > 0 ==> RecordAt(heap, blocks, k - 1))
        decreases k
      {
        assert blocks[..k][..k - 1] == blocks[..k - 1] && blocks[..k][k - 1] == blocks[k - 1];
        left := heap[left.value].prevBlock;
        k := k - 1;
      }
    }

    /** Walk right from block i - 1 to the nearest free block. */
    method FindRight(ghost i: nat, from: Option<nat>) returns (right: Option<nat>)
      requires Linked() && i <= |blocks| && from == FirstId(blocks[i..])
      ensures right == FirstFree(blocks[i..])
    {
      right := from;
      ghost var k := i;
      while right.Some? && !heap[right.value].free
        invariant i <= k <= |blocks| && right == FirstId(blocks[k..])
        invariant FirstFree(blocks[k..]) == FirstFree(blocks[i..])
        invariant Known(heap, right) && (k < |blocks| ==> RecordAt(heap, blocks, k))
        decreases |blocks| - k
      {
        assert blocks[k..][1..] == blocks[k + 1..] && blocks[k..][0] == blocks[k];
        right := heap[right.value].nextBlock;
        k := k + 1;
      }
    }

    /** Give the block back: merge with both neighbours, the left one, the right one, or none. */
    method GiveBack(ghost i: nat, cur: nat)
      requires Linked() && i < |blocks| && cur == blocks[i].id && !blocks[i].free
      modifies this`heap, this`head, this`headFree, this`blocks
      ensures Linked() && blocks == Release(old(blocks), i)
    {
      ghost var s := blocks;
      Neighbours(heap, s, i);
      ReleaseEnds(s, i);
      hide Rep, Release, RecordAt, Near, FirstFree, LastFree, FirstId, LastId;
      var prev, next := heap[cur].prevBlock, heap[cur].nextBlock;
      var prevFree := prev.Some? && heap[prev.value].free;
      var nextFree := next.Some? && heap[next.value].free;
      if prevFree && nextFree {
        BothRep(heap, s, i);
        heap := JoinBoth(heap, cur, prev.value, next.value);
        if headFree == prev {
          headFree := Some(cur);
        }
        if head == prev {
          head := Some(cur);
        }
      } else if prevFree {
        LeftRep(heap, s, i);
        heap := JoinLeft(heap, cur, prev.value);
      } else if nextFree {
        RightRep(heap, s, i);
        heap := JoinRight(heap, cur, next.value);
        if head == Some(cur) {
          head := next;
        }
      } else {
        AloneRep(heap, s, i);
        var left := FindLeft(i, prev);
        if left.Some? {
          heap := LinkAfter(heap, cur, left.value);
        } else {
          var right := FindRight(i + 1, next);
          headFree := Some(cur);
          heap := LinkFirst(heap, cur, right);
        }
      }
      blocks := Release(s, i);
    }

    /** Fails, changing nothing, for a null pointer, a null reference, or a reference of no
        allocated block. */
    method Deallocate(pointer: Option<Handle>) returns (ok: bool)
      requires Valid()
      modifies this
      ensures Valid()
      ensures ok <==> pointer.Some? && pointer.value.reference.Some?
                      && IndexOf(old(blocks), pointer.value.reference.value) < |old(blocks)|
      ensures !ok ==> blocks == old(blocks) && pointers == old(pointers) && data == old(data)
      ensures memory == old(memory)
      ensures ok ==> var ref := pointer.value.reference.value;
        && blocks == Release(old(blocks), IndexOf(old(blocks), ref))
        && pointers == old(pointers) - {ref} && data == old(data) - {ref}
      ensures Agrees(old(blocks), old(data)) ==> Agrees(blocks, data)
    {
      hide Rep, RecordAt, Release, Sound, Bijection, Listed, Used, FirstId, FirstFree, InPool, Agrees, RefsApart;
      if pointer.None? || pointer.value.reference.None? {
        return false;
      }
      var ref := pointer.value.reference.value;
      KnownRef(pointers, blocks, ref);
      if ref !in pointers {
        return false;
      }
      ghost var i := IndexOf(blocks, ref);
      var cur := pointers[ref];
      RecordIn(heap, blocks, i, blocks[..i], blocks[i + 1..]);
      assert Distinct(blocks) by { SoundDistinct(blocks, pool); }
      ReleaseSound(blocks, pool, i);
      ReleaseBijection(pointers, blocks, i);
      RefsAreApart(pointers, blocks);
      ReleaseKept(blocks, i, data, pool);
      pointers := pointers - {ref};
      data := data - {ref};
      used := used - heap[cur].size;
      GiveBack(i, cur);
      ok := true;
    }

    /** Compaction of s has come to block k: those before it are packed, the others untouched. */
    ghost predicate Compacting(s: seq<Block>, k: nat, bytes: seq<bv8>)
      reads this
      requires Tiles(s, 0)
    {
      && k <= |s| && Chained(heap, Packed(s[..k], 0) + s[k..]) && head == FirstId(Packed(s[..k], 0) + s[k..])
      && MovesLeft(s, k, data, memory, bytes)
    }

    /** The block under the cursor is free: it goes. */
    method DropStep(ghost s: seq<Block>, ghost k: nat, cur: nat, ghost bytes: seq<bv8>) returns (next: Option<nat>)
      requires Tiles(s, 0) && Compacting(s, k, bytes)
      requires k < |s| && cur == s[k].id && s[k].free
      modifies this`heap, this`head
      ensures Compacting(s, k + 1, bytes) && next == FirstId(s[k + 1..])
    {
      hide Chained, ChainedAt, Unlink, MovesLeft, Tiles, Packed, Total, Used, FirstId;
      DropLists(heap, s, k);
      MovesStep(s, k, data, memory, bytes);
      next := heap[cur].nextBlock;
      if Some(cur) == head {
        head := next;
      }
      heap := Unlink(heap, cur);
    }

    /** The block under the cursor is in use: the bytes at its kept address move down by the free space
        before it. */
    method MoveStep(ghost s: seq<Block>, ghost k: nat, cur: nat, free: nat, ghost bytes: seq<bv8>)
      returns (next: Option<nat>)
      requires Tiles(s, 0) && Compacting(s, k, bytes)
      requires k < |s| && cur == s[k].id && !s[k].free
      requires Used(s[..k]) + free == Total(s[..k])
      modifies this`heap, this`memory
      ensures Compacting(s, k + 1, bytes) && next == FirstId(s[k + 1..])
    {
      hide Chained, ChainedAt, MovesLeft, Tiles, Packed, Total, Used, FirstId;
      MoveLists(heap, s, k);
      MovesStep(s, k, data, memory, bytes);
      var ref := heap[cur].ref.value;
      next := heap[cur].nextBlock;
      if free > 0 {
        var dst, src := data[ref] - free, data[ref];
        memory := Move(memory, dst, src, heap[cur].size);
        heap := heap[cur := heap[cur].(offset := heap[cur].offset - free)];
      } else {
        assert heap[cur := heap[cur].(offset := Used(s[..k]))] == heap;
      }
    }

    /** Sweep over all blocks once. */
    method Sweep(ghost s: seq<Block>, ghost bytes: seq<bv8>) returns (sumOffset: nat, sumFree: nat, last: Option<nat>)
      requires Tiles(s, 0) && s != [] && Compacting(s, 0, bytes)
      requires head == Some(s[0].id)
      modifies this`heap, this`head, this`memory
      ensures Compacting(s, |s|, bytes)
      ensures sumOffset == Used(s) && sumOffset + sumFree == Total(s) && last == LastId(Packed(s, 0))
    {
      var cur := head.value;
      ghost var k := 0;
      sumOffset, sumFree, last := 0, 0, None;
      StartSums(s);
      hide Compacting, Packed, FirstId, LastId, Used, Total, Tiles, MovesLeft, Chained, Summed;
      while true
        invariant 0 <= k < |s| && cur == s[k].id && Compacting(s, k, bytes)
        invariant Summed(s, k, sumOffset, sumFree, last)
        decreases |s| - k
      {
        StepSums(s, k, sumOffset, sumFree, last);
        CursorRecord(heap, s, k, head, memory, bytes);
        var next: Option<nat>;
        if heap[cur].free {
          sumFree := sumFree + heap[cur].size;
          next := DropStep(s, k, cur, bytes);
        } else {
          last := Some(cur);
          sumOffset := sumOffset + heap[cur].size;
          next := MoveStep(s, k, cur, sumFree, bytes);
        }
        k := k + 1;
        if next.None? {
          break;
        }
        cur := next.value;
      }
      EndSums(s, sumOffset, sumFree, last);
    }

    /** Pack all allocated blocks at the front, in their order, and leave one free block, of record
        `id`, for the rest.  The bytes are moved from the addresses kept in `data`, which stay as
        they are; the bytes of the blocks are kept if each block that moves is at its address. */
    method Defragment(id: nat)
      requires Valid() && id !in heap
      requires exists b :: b in blocks && !b.free
      modifies this
      ensures Valid() && blocks == Compacted(old(blocks), id)
      ensures Tiles(old(blocks), 0) && InPool(old(blocks), data, |old(memory)|)
      ensures memory == MoveKept(old(blocks), 0, 0, data, old(memory))
      ensures RightWhereMoved(old(blocks), 0, data) ==>
        Contents(Packed(old(blocks), 0), memory) == Contents(old(blocks), old(memory))
      ensures data == old(data) && pointers == old(pointers)
    {
      hide *;
      ghost var s, bytes := blocks, memory;
      ValidParts();
      StartCompacting(heap, s, pool, data, bytes);
      CompactedValid(pointers, s, pool, id);
      CompactedKept(s, id, data, pool);
      StartsCompacting(s, bytes);
      var sumOffset, sumFree, last := Sweep(s, bytes);
      LinkRest(s, bytes, id, sumOffset, sumFree, last);
      blocks := Compacted(s, id);
      PartsValid();
    }

    /** The blocks are packed: link the free block for the rest behind the last of them. */
    method LinkRest(ghost s: seq<Block>, ghost bytes: seq<bv8>, id: nat, sumOffset: nat, sumFree: nat,
      last: Option<nat>)
      requires Tiles(s, 0) && Distinct(s) && AllWhole(s) && Compacting(s, |s|, bytes) && id !in Ids(s)
      requires exists b :: b in s && !b.free
      requires sumOffset == Used(s) && sumOffset + sumFree == Total(s) && last == LastId(Packed(s, 0))
      modifies this`heap, this`headFree
      ensures InPool(s, data, |bytes|) && |memory| == |bytes| && memory == MoveKept(s, 0, 0, data, bytes)
      ensures var t := Compacted(s, id);
        t != [] && Rep(heap, t) && head == FirstId(t) && headFree == FirstFree(t)
    {
      hide *;
      CompactingParts(s, bytes);
      EndCompacting(heap, s, id, data, memory, bytes, head);
      if sumFree > 0 {
        heap := Append(heap, last.value, id, sumOffset, sumFree);
        headFree := Some(id);
      } else {
        headFree := None;
      }
    }

    lemma ValidParts()
      requires Valid()
      ensures Rep(heap, blocks) && head == FirstId(blocks) && Distinct(blocks) && AllWhole(blocks)
      ensures heap.Keys == Ids(blocks)
      ensures Sound(blocks, pool) && Bijection(pointers, blocks) && InPool(blocks, data, pool) && blocks != []
      ensures |memory| == pool && used == Used(blocks) && chunks == pool / CHUNK && data.Keys == pointers.Keys
    {
      SoundDistinct(blocks, pool);
      RepDistinct(heap, blocks);
    }

    lemma PartsValid()
      requires Rep(heap, blocks) && head == FirstId(blocks) && headFree == FirstFree(blocks) && blocks != []
      requires Sound(blocks, pool) && Bijection(pointers, blocks) && InPool(blocks, data, pool) && |memory| == pool
      requires used == Used(blocks) && chunks == pool / CHUNK && data.Keys == pointers.Keys
      ensures Valid()
    {
    }

    lemma CompactingParts(s: seq<Block>, bytes: seq<bv8>)
      requires Tiles(s, 0) && Compacting(s, |s|, bytes)
      ensures Chained(heap, Packed(s[..|s|], 0) + s[|s|..]) && head == FirstId(Packed(s[..|s|], 0) + s[|s|..])
      ensures MovesLeft(s, |s|, data, memory, bytes)
    {
    }

    lemma StartsCompacting(s: seq<Block>, bytes: seq<bv8>)
      requires Tiles(s, 0) && Packed(s[..0], 0) == [] && [] + s[0..] == s && Chained(heap, s) && head == FirstId(s)
      requires MovesLeft(s, 0, data, memory, bytes)
      ensures Compacting(s, 0, bytes)
    {
    }
  }

  lemma KnownRef(pointers: map<nat, nat>, s: seq<Block>, ref: nat)
    requires Bijection(pointers, s)
    ensures ref in pointers <==> IndexOf(s, ref) < |s|
    ensures ref in pointers ==> pointers[ref] == s[IndexOf(s, ref)].id
  {
    var i := IndexOf(s, ref);
    if i < |s| {
      assert s[i] in s;
      assert Listed(pointers, s[i]);
    }
    if ref in pointers {
      assert Owned(s, ref, pointers[ref]);
    }
  }

  lemma RepIds(h: Heap, s: seq<Block>)
    requires Rep(h, s)
    ensures Ids(s) == h.Keys
  {
  }

  /** All that an allocation keeps. */
  lemma AllotAll(s: seq<Block>, pool: nat, i: nat, size: nat, id: nat, ref: nat, pointers: map<nat, nat>,
    data: map<nat, nat>)
    requires Sound(s, pool) && i < |s| && Fits(s[i], size) && size % CHUNK == 0 && id !in Ids(s)
    requires ref !in pointers && ref !in data && Bijection(pointers, s) && InPool(s, data, pool)
    ensures var s', data' := Allot(s, i, size, id, ref), data[ref := s[i].offset];
      && Sound(s', pool) && Used(s') == Used(s) + size && s' != [] && Bijection(pointers[ref := id], s')
      && InPool(s', data', pool) && (Agrees(s, data) ==> Agrees(s', data'))
  {
    hide *;
    AllotSound(s, pool, i, size, id, ref);
    AllotBijection(pointers, s, i, size, id, ref);
    FitInPool(s, i, pool);
    AllotKept(s, i, size, id, ref, data, pool);
    AllotSome(s, i, size, id, ref);
  }

  lemma AllotSome(s: seq<Block>, i: nat, size: nat, id: nat, ref: nat)
    requires i < |s| && Fits(s[i], size)
    ensures Allot(s, i, size, id, ref) != []
  {
  }

  lemma NoFree(s: seq<Block>, size: nat)
    requires FirstFree(s).None?
    ensures FirstFit(s, size) == |s|
  {
    FirstFreeIndex(s, 0);
    assert s[0..] == s;
  }

  lemma TakenRecord(h: Heap, s: seq<Block>, i: nat, size: nat, id: nat, ref: nat)
    requires i < |s| && Fits(s[i], size) && Rep(h, Allot(s, i, size, id, ref))
    ensures id in h && h[id].offset == s[i].offset
  {
    var s' := Allot(s, i, size, id, ref);
    assert s'[i] == Taken(s[i], size, id, ref);
    assert RecordAt(h, s', i);
  }

  /** The heads of the two lists after a block is taken. */
  lemma AllotEnds(s: seq<Block>, i: nat, size: nat, id: nat, ref: nat)
    requires Distinct(s) && i < |s| && Fits(s[i], size)
    ensures var s' := Allot(s, i, size, id, ref);
      && FirstId(s') == (if FirstId(s) == Some(s[i].id) then Some(id) else FirstId(s))
      && FirstFree(s') ==
         if size == s[i].size && FirstFree(s) == Some(s[i].id) then FirstFree(s[i + 1..]) else FirstFree(s)
  {
    var a, c := s[..i], s[i + 1..];
    var n := [Taken(s[i], size, id, ref)] + Rest(s[i], size);
    AllotAs(s, i, size, id, ref);
    FirstFreeNotIn(s, i);
    PiecesFirstFree(s[i], c, size, id, ref);
    hide *;
    OneEnds(a, s[i], c);
    HeadOf(a, [s[i]] + c);
    HeadOf(a, n + c);
  }

  lemma AllotAs(s: seq<Block>, i: nat, size: nat, id: nat, ref: nat)
    requires i < |s| && Fits(s[i], size)
    ensures s == s[..i] + ([s[i]] + s[i + 1..])
    ensures Allot(s, i, size, id, ref) == s[..i] + (([Taken(s[i], size, id, ref)] + Rest(s[i], size)) + s[i + 1..])
    ensures FirstId(([Taken(s[i], size, id, ref)] + Rest(s[i], size)) + s[i + 1..]) == Some(id)
  {
  }

  lemma HeadOf(a: seq<Block>, x: seq<Block>)
    ensures FirstId(a + x) == if a == [] then FirstId(x) else FirstId(a)
    ensures FirstFree(a + x) == if FirstFree(a).Some? then FirstFree(a) else FirstFree(x)
  {
    FirstFreeConcat(a, x);
  }

  lemma PiecesFirstFree(b: Block, c: seq<Block>, size: nat, id: nat, ref: nat)
    requires Fits(b, size)
    ensures FirstFree([Taken(b, size, id, ref)] + Rest(b, size) + c)
      == if b.size == size then FirstFree(c) else Some(b.id)
  {
    var t := Taken(b, size, id, ref);
    OneEnds([], t, Rest(b, size) + c);
    assert [t] + Rest(b, size) + c == [t] + (Rest(b, size) + c);
    if b.size == size { assert Rest(b, size) + c == c; } else { OneEnds([], Rest(b, size)[0], c); }
  }

  lemma FirstFreeNotIn(s: seq<Block>, i: nat)
    requires Distinct(s) && i < |s|
    ensures FirstFree(s[..i]) != Some(s[i].id) && FirstId(s[..i]) != Some(s[i].id)
    ensures s[..i] == [] <==> FirstId(s[..i]).None?
  {
    FirstFreeIn(s[..i]);
    assert forall j :: 0 <= j < i ==> s[..i][j] == s[j];
  }

  /** What the record of an allocated block says of its neighbours. */
  lemma Neighbours(h: Heap, s: seq<Block>, i: nat)
    requires Rep(h, s) && i < |s|
    ensures s[i].id in h && Near(h, s[i].id)
    ensures h[s[i].id].prevBlock == LastId(s[..i]) && h[s[i].id].nextBlock == FirstId(s[i + 1..])
    ensures i > 0 ==> s[i - 1].id in h && LastId(s[..i]) == Some(s[i - 1].id) && h[s[i - 1].id].free == s[i - 1].free
    ensures i == 0 ==> LastId(s[..i]).None?
    ensures i + 1 < |s| ==>
      s[i + 1].id in h && FirstId(s[i + 1..]) == Some(s[i + 1].id) && h[s[i + 1].id].free == s[i + 1].free
    ensures i + 1 == |s| ==> FirstId(s[i + 1..]).None?
  {
    NearAt(h, s, i);
    assert RecordAt(h, s, i);
    if i > 0 { assert RecordAt(h, s, i - 1); }
    if i + 1 < |s| { assert RecordAt(h, s, i + 1); }
  }

  /** The heads of the two lists after a block is given back. */
  lemma ReleaseEnds(s: seq<Block>, i: nat)
    requires Distinct(s) && i < |s| && !s[i].free
    ensures var t := Release(s, i);
      && FirstId(t) == (if LeftFree(s, i) && RightFree(s, i) && FirstId(s) == Some(s[i - 1].id) then Some(s[i].id)
                        else if !LeftFree(s, i) && RightFree(s, i) && FirstId(s) == Some(s[i].id) then Some(s[i + 1].id)
                        else FirstId(s))
      && FirstFree(t) == (if LeftFree(s, i) && RightFree(s, i) && FirstFree(s) == Some(s[i - 1].id) then Some(s[i].id)
                          else if !LeftFree(s, i) && !RightFree(s, i) && LastFree(s[..i]).None? then Some(s[i].id)
                          else FirstFree(s))
  {
    var from, to := ReleaseFrom(s, i), ReleaseTo(s, i);
    var a, m, c := s[..from], s[from..to], s[to..];
    ReleaseAs(s, i);
    ReleaseHead(s, i);
    FirstFreeNotIn(s, from);
    StretchHead(s, i);
    NoneFree(a);
    hide Distinct, FirstId, FirstFree, LastFree, Release, ReleaseFrom, ReleaseTo, Merged, LeftFree, RightFree;
    HeadOf(a, m + c);
    HeadOf(a, [Merged(s, i)] + c);
    OneEnds(a, Merged(s, i), c);
  }

  lemma ReleaseAs(s: seq<Block>, i: nat)
    requires i < |s|
    ensures var from, to := ReleaseFrom(s, i), ReleaseTo(s, i);
      var a, m, c := s[..from], s[from..to], s[to..];
      s == a + (m + c) && Release(s, i) == a + ([Merged(s, i)] + c)
  {
    ReleaseParts(s, i);
  }

  lemma ReleaseHead(s: seq<Block>, i: nat)
    requires i < |s| && !s[i].free
    ensures Merged(s, i).free
    ensures !LeftFree(s, i) ==> ReleaseFrom(s, i) == i
    ensures LeftFree(s, i) ==> ReleaseFrom(s, i) == i - 1
    ensures Merged(s, i).id == if LeftFree(s, i) && !RightFree(s, i) then s[i - 1].id
                               else if !LeftFree(s, i) && RightFree(s, i) then s[i + 1].id else s[i].id
  {
  }

  lemma NoneFree(a: seq<Block>)
    ensures LastFree(a).None? <==> FirstFree(a).None?
  {
    FirstFreeIn(a);
    LastFreeIn(a);
    if FirstFree(a).Some? {
      var j :| 0 <= j < |a| && a[j].free && a[j].id == FirstFree(a).value;
      SomeLast(a, j);
    }
    if LastFree(a).Some? {
      var j :| 0 <= j < |a| && a[j].free && a[j].id == LastFree(a).value;
      SomeFirst(a, j);
    }
  }

  lemma {:induction false} SomeLast(a: seq<Block>, j: nat)
    requires j < |a| && a[j].free
    ensures LastFree(a).Some?
  {
    if j < |a| - 1 && !a[|a| - 1].free { SomeLast(a[..|a| - 1], j); }
  }

  lemma {:induction false} SomeFirst(a: seq<Block>, j: nat)
    requires j < |a| && a[j].free
    ensures FirstFree(a).Some?
  {
    if j > 0 && !a[0].free { SomeFirst(a[1..], j - 1); }
  }

  /** The stretch a release replaces starts with the left neighbour if that is free. */
  lemma StretchHead(s: seq<Block>, i: nat)
    requires i < |s| && !s[i].free
    ensures var from, to := ReleaseFrom(s, i), ReleaseTo(s, i);
      var m, c := s[from..to], s[to..];
      && FirstId(m + c) == Some(if LeftFree(s, i) then s[i - 1].id else s[i].id)
      && FirstFree(m + c) ==
         (if LeftFree(s, i) then Some(s[i - 1].id) else if RightFree(s, i) then Some(s[i + 1].id) else FirstFree(c))
  {
    var from, to := ReleaseFrom(s, i), ReleaseTo(s, i);
    var m, c := s[from..to], s[to..];
    assert m + c == s[from..];
    if LeftFree(s, i) {
      assert s[from..][0] == s[i - 1];
    } else {
      assert s[from..][0] == s[i] && s[from..][1..] == s[i + 1..];
      if RightFree(s, i) { assert s[i + 1..][0] == s[i + 1]; }
    }
  }

  lemma SoundDistinct(s: seq<Block>, pool: nat)
    requires Sound(s, pool)
    ensures Distinct(s) && NoFreePair(s) && Tiles(s, 0) && Total(s) == pool && AllWhole(s)
  {
  }

  /** The moves still to come from block k on end where all the moves would. */
  ghost predicate MovesLeft(s: seq<Block>, k: nat, data: map<nat, nat>, memory: seq<bv8>, bytes: seq<bv8>)
    requires Tiles(s, 0) && k <= |s|
  {
    && Tiles(s[k..], Total(s[..k])) && Used(s[..k]) <= Total(s[..k]) && |memory| == |bytes|
    && InPool(s, data, |bytes|) && InPool(s[k..], data, |memory|)
    && MoveKept(s[k..], Total(s[..k]), Used(s[..k]), data, memory) == MoveKept(s, 0, 0, data, bytes)
  }

  lemma MovesStep(s: seq<Block>, k: nat, data: map<nat, nat>, memory: seq<bv8>, bytes: seq<bv8>)
    requires Tiles(s, 0) && k < |s| && MovesLeft(s, k, data, memory, bytes)
    ensures s[k].offset == Total(s[..k]) && Used(s[..k]) <= s[k].offset && KeptOn(s[k], data, |memory|)
    ensures s[k].free ==> MovesLeft(s, k + 1, data, memory, bytes)
    ensures !s[k].free ==>
      MovesLeft(s, k + 1, data, ShiftKept(memory, Used(s[..k]), s[k].offset, data[s[k].ref], s[k].size), bytes)
  {
    hide ShiftKept, Packed, MoveKept, Tiles, Total, Used, InPool;
    assert s[k..][1..] == s[k + 1..] && s[k..][0] == s[k];
    PackedSnoc(s, k);
    TilesStep(s[k..], Total(s[..k]));
    InPoolTail(s[k..], data, |memory|);
    MoveKeptStep(s[k..], Total(s[..k]), Used(s[..k]), data, memory);
  }

  lemma TilesStep(t: seq<Block>, at: nat)
    requires Tiles(t, at) && t != []
    ensures t[0].offset == at && Tiles(t[1..], at + t[0].size)
  {
  }

  lemma MoveKeptStep(t: seq<Block>, at: nat, from: nat, data: map<nat, nat>, m: seq<bv8>)
    requires Tiles(t, at) && t != [] && from <= at && InPool(t, data, |m|)
    requires t[0].offset == at && KeptOn(t[0], data, |m|)
    ensures Tiles(t[1..], at + t[0].size) && InPool(t[1..], data, |m|)
    ensures t[0].free ==> MoveKept(t, at, from, data, m) == MoveKept(t[1..], at + t[0].size, from, data, m)
    ensures !t[0].free ==>
      var m1 := ShiftKept(m, from, at, data[t[0].ref], t[0].size);
      && |m1| == |m| && InPool(t[1..], data, |m1|)
      && MoveKept(t, at, from, data, m) == MoveKept(t[1..], at + t[0].size, from + t[0].size, data, m1)
  {
    hide ShiftKept, InPool;
    InPoolTail(t, data, |m|);
    if !t[0].free { ShiftKeptFacts(m, from, at, data[t[0].ref], t[0].size); }
  }

  lemma DropLists(h: Heap, s: seq<Block>, k: nat)
    requires k < |s| && s[k].free && Chained(h, Packed(s[..k], 0) + s[k..])
    ensures var cur, l, l' := s[k].id, Packed(s[..k], 0) + s[k..], Packed(s[..k + 1], 0) + s[k + 1..];
      && cur in h && Known(h, h[cur].prevBlock) && Known(h, h[cur].nextBlock)
      && h[cur].nextBlock == FirstId(s[k + 1..]) && Chained(Unlink(h, cur), l')
      && FirstId(l') == if FirstId(l) == Some(cur) then FirstId(s[k + 1..]) else FirstId(l)
  {
    var l, i := Packed(s[..k], 0) + s[k..], |Packed(s[..k], 0)|;
    hide *;
    StepLists(s, k);
    ChainedRecord(h, l, i);
    UnlinkChained(h, l, i);
    DropFirst(s, k);
  }

  lemma DropFirst(s: seq<Block>, k: nat)
    requires k < |s| && s[k].free && Distinct(Packed(s[..k], 0) + s[k..])
    ensures var l, l' := Packed(s[..k], 0) + s[k..], Packed(s[..k + 1], 0) + s[k + 1..];
      FirstId(l') == if FirstId(l) == Some(s[k].id) then FirstId(s[k + 1..]) else FirstId(l)
  {
    var p := Packed(s[..k], 0);
    PackedSnoc(s, k);
    hide Packed;
    assert p + [] == p;
    if p != [] {
      assert (p + s[k..])[0] == p[0] && (p + s[k..])[|p|] == s[k];
      NeighboursDiffer(p + s[k..], 0, |p|);
    } else {
      assert p + s[k + 1..] == s[k + 1..];
    }
  }

  lemma ChainedRecord(h: Heap, s: seq<Block>, i: nat)
    requires Chained(h, s) && i < |s|
    ensures Distinct(s) && s[i].id in h && h[s[i].id].nextBlock == IdAt(s, i + 1)
  {
    assert ChainedAt(h, s, i);
  }

  lemma MoveLists(h: Heap, s: seq<Block>, k: nat)
    requires k < |s| && !s[k].free && Chained(h, Packed(s[..k], 0) + s[k..])
    ensures var cur, l, l' := s[k].id, Packed(s[..k], 0) + s[k..], Packed(s[..k + 1], 0) + s[k + 1..];
      && cur in h && h[cur].nextBlock == FirstId(s[k + 1..])
      && h[cur].offset == s[k].offset && h[cur].size == s[k].size && h[cur].ref == Some(s[k].ref)
      && Chained(h[cur := h[cur].(offset := Used(s[..k]))], l') && FirstId(l') == FirstId(l)
  {
    var p := Packed(s[..k], 0);
    var l := p + s[k..];
    StepLists(s, k);
    assert ChainedAt(h, l, |p|);
    hide ChainedAt;
    MoveChained(h, l, |p|, Used(s[..k]));
  }

  /** The list before and after the step at block k. */
  lemma StepLists(s: seq<Block>, k: nat)
    requires k < |s|
    ensures var p := Packed(s[..k], 0);
      var l, i := p + s[k..], |p|;
      && l[i] == s[k] && FirstId(l) == (if p == [] then Some(s[k].id) else FirstId(p))
      && IdAt(l, i + 1) == FirstId(s[k + 1..])
      && (s[k].free ==> l[..i] + l[i + 1..] == Packed(s[..k + 1], 0) + s[k + 1..])
      && (!s[k].free ==> l[i := s[k].(offset := Used(s[..k]))] == Packed(s[..k + 1], 0) + s[k + 1..])
  {
    var p := Packed(s[..k], 0);
    var l, i := p + s[k..], |p|;
    PackedSnoc(s, k);
    assert l[..i] == p && l[i + 1..] == s[k + 1..];
    hide Packed, Used, Total;
    if !s[k].free {
      var b := s[k].(offset := Used(s[..k]));
      assert l[i := b] == p + [b] + s[k + 1..];
    }
  }

  lemma StartCompacting(h: Heap, s: seq<Block>, pool: nat, data: map<nat, nat>, bytes: seq<bv8>)
    requires Rep(h, s) && Sound(s, pool) && |bytes| == pool && s != [] && InPool(s, data, pool)
    ensures Tiles(s, 0) && Total(s) == pool && Packed(s[..0], 0) == [] && [] + s[0..] == s && Chained(h, s)
    ensures Used(s[..0]) == Total(s[..0]) == 0 && LastId([]) == None && FirstId(s) == Some(s[0].id)
    ensures MovesLeft(s, 0, data, bytes, bytes)
    ensures RightWhereMoved(s, 0, data) ==> Contents(Packed(s, 0), MoveKept(s, 0, 0, data, bytes)) == Contents(s, bytes)
  {
    RepIsChained(h, s);
    hide RightWhereMoved, MoveKept, Contents, InPool;
    MovesKeepBytes(s, 0, 0, bytes);
    if RightWhereMoved(s, 0, data) { RightMoves(s, 0, 0, data, bytes); }
  }

  lemma FitInPool(s: seq<Block>, i: nat, pool: nat)
    requires Sound(s, pool) && i < |s|
    ensures s[i].offset + s[i].size <= pool
  {
    assert s == s[..i] + s[i..];
    TilesConcat(s[..i], s[i..], 0);
    TotalConcat(s[..i], s[i..]);
  }

  lemma RefsAreApart(pointers: map<nat, nat>, s: seq<Block>)
    requires Bijection(pointers, s) && Distinct(s)
    ensures RefsApart(s)
  {
    forall i, j | 0 <= i < j < |s| && !s[i].free && !s[j].free ensures s[i].ref != s[j].ref {
      assert s[i] in s && s[j] in s && Listed(pointers, s[i]) && Listed(pointers, s[j]);
    }
  }

  lemma CompactedKept(s: seq<Block>, id: nat, data: map<nat, nat>, pool: nat)
    requires Sound(s, pool) && InPool(s, data, pool)
    ensures InPool(Compacted(s, id), data, pool)
  {
    PackedKept(s, 0, 0, data, pool);
    hide Packed, Sound;
    assert forall b :: b in Compacted(s, id) ==> b in Packed(s, 0) || b.free;
  }

  /** What the sweep has added up before block k. */
  ghost predicate Summed(s: seq<Block>, k: nat, sumOffset: nat, sumFree: nat, last: Option<nat>) {
    && k <= |s| && sumOffset == Used(s[..k]) && sumOffset + sumFree == Total(s[..k])
    && last == LastId(Packed(s[..k], 0))
  }

  lemma StepSums(s: seq<Block>, k: nat, sumOffset: nat, sumFree: nat, last: Option<nat>)
    requires k < |s| && Summed(s, k, sumOffset, sumFree, last)
    ensures Used(s[..k]) + sumFree == Total(s[..k])
    ensures if s[k].free then Summed(s, k + 1, sumOffset, sumFree + s[k].size, last)
      else Summed(s, k + 1, sumOffset + s[k].size, sumFree, Some(s[k].id))
    ensures FirstId(s[k + 1..]) == if k + 1 < |s| then Some(s[k + 1].id) else None
  {
    PackedSnoc(s, k);
    hide Packed, Used, Total;
  }

  lemma EndSums(s: seq<Block>, sumOffset: nat, sumFree: nat, last: Option<nat>)
    requires Summed(s, |s|, sumOffset, sumFree, last)
    ensures sumOffset == Used(s) && sumOffset + sumFree == Total(s) && last == LastId(Packed(s, 0))
  {
    assert s[..|s|] == s;
  }

  /** What compaction leaves is valid again. */
  lemma CompactedValid(pointers: map<nat, nat>, s: seq<Block>, pool: nat, id: nat)
    requires Sound(s, pool) && id !in Ids(s) && Bijection(pointers, s)
    ensures Sound(Compacted(s, id), pool) && Used(Compacted(s, id)) == Used(s)
    ensures Bijection(pointers, Compacted(s, id))
  {
    CompactedSound(s, pool, id);
    PackedBijection(pointers, s, 0);
    var t := Compacted(s, id);
    assert forall b :: b in t ==> b in Packed(s, 0) || b in Remainder(s, id);
    hide Packed, Sound;
    forall b | b in t ensures Listed(pointers, b) {}
    forall r | r in pointers ensures Owned(t, r, pointers[r]) {
      assert Owned(Packed(s, 0), r, pointers[r]);
    }
  }

  /** Packing keeps which block stands for which reference. */
  lemma {:induction false} PackedBijection(pointers: map<nat, nat>, s: seq<Block>, from: nat)
    ensures (forall b :: b in s ==> Listed(pointers, b)) ==> forall b :: b in Packed(s, from) ==> Listed(pointers, b)
    ensures forall r, i :: Owned(s, r, i) ==> Owned(Packed(s, from), r, i)
    decreases |s|
  {
    if s != [] {
      var from' := if s[0].free then from else from + s[0].size;
      PackedBijection(pointers, s[1..], from');
      var p, q := Packed(s, from), Packed(s[1..], from');
      assert forall b :: b in s ==> b == s[0] || b in s[1..];
      assert s[0] in s && forall b :: b in s[1..] ==> b in s;
      assert forall b :: b in p ==> (!s[0].free && b == s[0].(offset := from)) || b in q;
      assert forall b :: b in q ==> b in p;
      forall r, i | Owned(s, r, i) ensures Owned(p, r, i) {
        var b :| b in s && !b.free && b.ref == r && b.id == i;
        if b == s[0] {
          assert p[0] in p && p[0].ref == r;
        } else {
          assert b in s[1..];
          assert Owned(s[1..], r, i);
          assert Owned(q, r, i);
        }
      }
    }
  }

  lemma StartSums(s: seq<Block>)
    ensures Summed(s, 0, 0, 0, None)
  {
  }

  /** The sweep is through: what is left to do depends on whether any space was free. */
  lemma EndCompacting(h: Heap, s: seq<Block>, id: nat, data: map<nat, nat>, memory: seq<bv8>, bytes: seq<bv8>,
                      head: Option<nat>)
    requires Tiles(s, 0) && Distinct(s) && AllWhole(s)
    requires Chained(h, Packed(s[..|s|], 0) + s[|s|..]) && head == FirstId(Packed(s[..|s|], 0) + s[|s|..])
    requires MovesLeft(s, |s|, data, memory, bytes) && id !in Ids(s)
    requires exists b :: b in s && !b.free
    ensures InPool(s, data, |bytes|) && |memory| == |bytes| && memory == MoveKept(s, 0, 0, data, bytes)
    ensures var p, t := Packed(s, 0), Compacted(s, id);
      && t != [] && head == FirstId(t)
      && if Total(s) > Used(s) then
           && p != [] && LastId(p) == Some(p[|p| - 1].id) && p[|p| - 1].id in h && id !in h
           && Rep(Append(h, p[|p| - 1].id, id, Used(s), Total(s) - Used(s)), t) && FirstFree(t) == Some(id)
         else Rep(h, t) && FirstFree(t).None?
  {
    hide Tiles, MoveKept, InPool, MovesLeft, Distinct, Chained, Rep, Packed, AllWhole, NoFreePair, Append, Ids,
      FirstFree;
    assert s[..|s|] == s && s[|s|..] == [];
    var p := Packed(s, 0);
    assert p + [] == p;
    PackedFacts(s, 0);
    SomeLive(s);
    LiveEnds(p);
    assert id !in h by { ChainedKeys(h, p); }
    if Total(s) > Used(s) {
      AppendRep(h, p, id, Used(s), Total(s) - Used(s));
      RemainderEnds(s, id);
    } else {
      LiveRep(h, p);
      assert Compacted(s, id) == p;
    }
    NothingLeft(s, data, memory, bytes);
  }

  lemma RemainderEnds(s: seq<Block>, id: nat)
    requires Total(s) > Used(s) && FirstFree(Packed(s, 0)).None? && Packed(s, 0) != []
    ensures FirstFree(Compacted(s, id)) == Some(id) && FirstId(Compacted(s, id)) == FirstId(Packed(s, 0))
  {
    hide Packed, Total, Used;
    var r := Remainder(s, id);
    OneEnds([], r[0], []);
    assert [r[0]] + [] == r;
    HeadOf(Packed(s, 0), r);
  }

  lemma ChainedKeys(h: Heap, s: seq<Block>)
    requires Chained(h, s)
    ensures h.Keys == Ids(s)
  {
  }

  lemma NothingLeft(s: seq<Block>, data: map<nat, nat>, memory: seq<bv8>, bytes: seq<bv8>)
    requires Tiles(s, 0) && MovesLeft(s, |s|, data, memory, bytes)
    ensures InPool(s, data, |bytes|) && |memory| == |bytes| && memory == MoveKept(s, 0, 0, data, bytes)
  {
    assert s[|s|..] == [];
  }

  lemma {:induction false} SomeLive(s: seq<Block>)
    requires exists b :: b in s && !b.free
    ensures forall from :: Packed(s, from) != []
    decreases |s|
  {
    if s[0].free {
      var b :| b in s && !b.free;
      assert b in s[1..];
      SomeLive(s[1..]);
    }
  }

  lemma CursorRecord(h: Heap, s: seq<Block>, k: nat, head: Option<nat>, memory: seq<bv8>, bytes: seq<bv8>)
    requires k < |s| && Chained(h, Packed(s[..k], 0) + s[k..])
    ensures s[k].id in h && h[s[k].id].free == s[k].free && h[s[k].id].size == s[k].size
  {
    var p := Packed(s[..k], 0);
    var l := p + s[k..];
    assert l[|p|] == s[k];
    assert ChainedAt(h, l, |p|);
  }
}

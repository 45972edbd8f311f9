/** One block of the scalable allocator as its owner works on it, in place: chunks by address, the
    bump pointer going down from the end of the block. */
module SmallBlocks {
  import opened Wrappers
  import opened MailBoxes

  /** The addresses, as offsets in the block, of a list of chunks. */
  function Addresses(blk: Block, q: seq<nat>): seq<int> {
    seq(|q|, k requires 0 <= k < |q| => Address(blk, q[k]))
  }

  class SmallBlock {
    const chunkSize: nat
    var bump: Option<int>
    var freeList: seq<int>
    var openList: seq<int>
    var count: nat
    var full: bool
    ghost var model: Block

    ghost predicate Valid()
      reads this
    {
      && Partition(model) && model.chunkSize == chunkSize > 0 && model.taken == []
      && bump == BumpPointer(model) && count == model.count
      && freeList == Addresses(model, model.free) && openList == Addresses(model, model.open)
    }

    /** A block that has just been taken over; whether a chunk fits is not looked at. */
    constructor (chunkSize: nat)
      requires 0 < chunkSize
      ensures Valid() && model == Block(Some(0), Bin(0), chunkSize, 0, [], [], [], 0, {})
    {
      this.chunkSize := chunkSize;
      bump := Some(BLOCK_SIZE - chunkSize);
      freeList, openList, count, full := [], [], 0, false;
      model := Block(Some(0), Bin(0), chunkSize, 0, [], [], [], 0, {});
      FreshBlock(Some(0), Bin(0), chunkSize);
    }

    method AllocateFromFreeList() returns (r: Option<int>)
      requires Valid()
      modifies this`freeList, this`count, this`model
      ensures Valid()
      ensures old(model).free == [] ==> r.None? && model == old(model)
      ensures old(model).free != [] ==> r == Some(Address(model, old(model).free[0])) && model == TakeFree(old(model))
    {
      if freeList == [] {
        return None;
      }
      KeepTakeFree(model);
      r := Some(freeList[0]);
      freeList := freeList[1..];
      count := count + 1;
      model := TakeFree(model);
    }

    method AllocateFromBumpPtr() returns (r: Option<int>)
      requires Valid()
      modifies this`bump, this`count, this`model
      ensures Valid() && (r.Some? <==> CanCarve(old(model)))
      ensures r.None? ==> model == old(model)
      ensures r.Some? ==> r == Some(Address(model, old(model).carved)) && model == CarveOne(old(model))
    {
      r := bump;
      NextAddress(model, model.carved);
      if r.Some? {
        KeepCarve(model);
        var next := r.value - chunkSize;
        bump := if next < HEADER then None else Some(next);
        count := count + 1;
        model := CarveOne(model);
      }
    }

    /** A chunk that nobody has: a private free one if there is one, else a new one.  Only when
        there is neither does it fail, and then the block is marked full. */
    method AllocateFromBlock() returns (r: Option<int>)
      requires Valid()
      modifies this
      ensures Valid()
      ensures r.None? <==> old(model).free == [] && !CanCarve(old(model))
      ensures r.None? ==> full && model == old(model)
      ensures r.Some? ==>
        exists c: nat ::
          c !in old(model).live && model.live == old(model).live + {c} && r == Some(Address(model, c))
    {
      ghost var before := model;
      r := AllocateFromFreeList();
      if r.Some? {
        Fresh(before, before.free[0]);
        return;
      }
      r := AllocateFromBumpPtr();
      if r.Some? {
        Fresh(before, before.carved);
        return;
      }
      full := true;
    }

    /** The owner gives a chunk of its own back. */
    method FreeOwn(ghost c: nat, address: int)
      requires Valid() && c in model.live && address == Address(model, c)
      modifies this`freeList, this`count, this`model
      ensures Valid() && model == GiveFree(old(model), c)
    {
      KeepGiveFree(model, c);
      freeList := [address] + freeList;
      count := count - 1;
      model := GiveFree(model, c);
    }

    /** Take the whole public list, count its chunks off one by one, put it before the private one. */
    method Privatize()
      requires Valid()
      modifies this`openList, this`freeList, this`count, this`model
      ensures Valid() && model == Settle(TakeOpen(old(model)))
      ensures openList == [] && freeList == old(openList) + old(freeList)
    {
      var list := openList;
      openList := [];
      ghost var before := model;
      KeepTakeOpen(model);
      KeepSettle(TakeOpen(model));
      SettleMoves(model);
      hide Partition, Addresses, TakeOpen, Settle;
      model := Settle(TakeOpen(model));
      if list != [] {
        count := count - 1;
        var k := 1;
        while k < |list|
          modifies this`count
          invariant 1 <= k <= |list| == |before.open| && count == before.count - k
        {
          count := count - 1;
          k := k + 1;
        }
      }
      freeList := list + freeList;
    }
  }

  /** What making the public list private does to a block. */
  lemma SettleMoves(blk: Block)
    requires Partition(blk) && blk.taken == []
    ensures var r := Settle(TakeOpen(blk));
      && r.taken == [] && r.chunkSize == blk.chunkSize && BumpPointer(r) == BumpPointer(blk)
      && |Addresses(blk, blk.open)| == |blk.open| <= blk.count && r.count == blk.count - |blk.open|
      && Addresses(r, r.open) == [] && Addresses(r, r.free) == Addresses(blk, blk.open) + Addresses(blk, blk.free)
      && (Addresses(blk, blk.open) == [] <==> blk.open == [])
  {
    var r := Settle(TakeOpen(blk));
    var x, y, z := Addresses(r, r.free), Addresses(blk, blk.open), Addresses(blk, blk.free);
    assert r.free == blk.open + blk.free && |x| == |y| + |z|;
    forall k | 0 <= k < |x| ensures x[k] == (y + z)[k] {
      assert Address(r, r.free[k]) == Address(blk, r.free[k]);
    }
  }

  lemma Fresh(blk: Block, c: nat)
    requires Partition(blk) && (c == blk.carved || (blk.free != [] && c == blk.free[0]))
    ensures c !in blk.live
  {
    assert Places(blk, c) == if c < blk.carved then 1 else 0;
    if blk.free != [] && c == blk.free[0] { assert multiset(blk.free)[c] >= 1; }
  }
}

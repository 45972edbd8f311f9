/** Freeing across threads in the scalable allocator.  Each bin belongs to one thread; a block
    belongs to one bin or to nobody.  The owner allocates and frees without locks; any other
    thread pushes a chunk on the block's public list and, if that was empty, posts the block in
    the bin's mailbox.  The word `next` of a block is its bin, or the next block in the mailbox. */
module MailBoxes {
  import opened Wrappers

  const BLOCK_SIZE: nat := 16384
  /** The size of a block's header. */
  const HEADER: nat := 80

  datatype Pointer = Null | Bin(bin: nat) | Blk(block: nat)

  /** Chunks are numbered in the order they are carved.  `live` are with clients; `taken` were
      removed from the public list and are not yet counted off. */
  datatype Block = Block(
    owner: Option<nat>,
    next: Pointer,
    chunkSize: nat,
    carved: nat,
    free: seq<nat>,
    open: seq<nat>,
    taken: seq<nat>,
    count: nat,
    live: set<nat>
  )

  /** The owner between taking a block out of its mailbox and having made its chunks private. */
  datatype OwnerPc = Working | Popped(block: nat) | Settling(block: nat)

  /** A thread that frees: `Pushed` found the public list empty and has to read the block's bin,
      `Mailing` has read it. */
  datatype FreerPc = Elsewhere | Pushed(block: nat) | Mailing(block: nat, bin: nat) | Lost(block: nat)

  /** `mail` is history: the blocks in each mailbox, in order. */
  datatype State = State(
    blocks: seq<Block>,
    mailboxes: seq<Pointer>,
    owners: seq<OwnerPc>,
    freers: seq<FreerPc>,
    mail: seq<seq<nat>>
  )

  datatype Action =
    | Acquire(i: nat, b: nat, chunkSize: nat)
    | Reuse(i: nat, b: nat)
    | Carve(i: nat, b: nat)
    | FreeOwn(i: nat, b: nat, chunk: nat)
    | Restore(i: nat, b: nat)
    | Return(i: nat, b: nat)
    | OpenMail(i: nat)
    | Privatize(i: nat)
    | FreeForeign(f: nat, b: nat, chunk: nat)
    | Freer(f: nat)

  function Unused(): Block {
    Block(None, Null, 0, 0, [], [], [], 0, {})
  }

  function Init(blocks: nat, bins: nat, freers: nat): State {
    State(seq(blocks, i => Unused()), seq(bins, i => Null), seq(bins, i => Working),
          seq(freers, i => Elsewhere), seq(bins, i => []))
  }

  // ---------------------------------------------------------------- one block

  function Owns(blk: Block, i: nat): bool {
    blk.owner == Some(i)
  }

  /** Whether a further chunk fits between the header and the chunks carved so far is looked at
      after each carve; nothing is looked at before the first. */
  predicate CanCarve(blk: Block) {
    blk.carved == 0 || HEADER + (blk.carved + 1) * blk.chunkSize <= BLOCK_SIZE
  }

  function CarveOne(blk: Block): Block {
    blk.(carved := blk.carved + 1, count := blk.count + 1, live := blk.live + {blk.carved})
  }

  function TakeFree(blk: Block): Block
    requires blk.free != []
  {
    blk.(free := blk.free[1..], count := blk.count + 1, live := blk.live + {blk.free[0]})
  }

  function GiveFree(blk: Block, chunk: nat): Block {
    blk.(free := [chunk] + blk.free, count := if blk.count > 0 then blk.count - 1 else 0, live := blk.live - {chunk})
  }

  function GiveOpen(blk: Block, chunk: nat): Block {
    blk.(open := [chunk] + blk.open, live := blk.live - {chunk})
  }

  /** The whole public list is taken at once, under its lock. */
  function TakeOpen(blk: Block): Block {
    blk.(taken := blk.open, open := [])
  }

  /** One decrement of the count for each chunk taken, then the chunks go in front of the private
      list. */
  function Settle(blk: Block): Block {
    blk.(count := if blk.count >= |blk.taken| then blk.count - |blk.taken| else 0,
         free := blk.taken + blk.free, taken := [])
  }

  /** An empty block starts over. */
  function Restored(blk: Block): Block {
    blk.(carved := 0, free := [])
  }

  function SetBlock(s: State, b: nat, blk: Block): State
    requires b < |s.blocks|
  {
    s.(blocks := s.blocks[b := blk])
  }

  // ---------------------------------------------------------------- the steps

  /** The owner takes the first block out of its mailbox, if there is one. */
  function OpenStep(s: State, i: nat): State
    requires i < |s.owners| && i < |s.mailboxes| && i < |s.mail|
  {
    match s.mailboxes[i]
    case Blk(b) =>
      if b < |s.blocks| && s.mail[i] != [] then
        SetBlock(s, b, s.blocks[b].(next := Bin(i)))
          .(mailboxes := s.mailboxes[i := s.blocks[b].next], owners := s.owners[i := Popped(b)],
            mail := s.mail[i := s.mail[i][1..]])
      else s
    case _ => s
  }

  function PrivatizeStep(s: State, i: nat): State
    requires i < |s.owners|
  {
    match s.owners[i]
    case Working => s
    case Popped(b) =>
      if b < |s.blocks| then SetBlock(s, b, TakeOpen(s.blocks[b])).(owners := s.owners[i := Settling(b)]) else s
    case Settling(b) =>
      if b < |s.blocks| then SetBlock(s, b, Settle(s.blocks[b])).(owners := s.owners[i := Working]) else s
  }

  /** The freeing thread reads the word `next` of the block as its bin, then posts the block there,
      overwriting that word.  If the word is null the block is not posted at all. */
  function FreerStep(s: State, f: nat): State
    requires f < |s.freers|
  {
    match s.freers[f]
    case Pushed(b) =>
      if b < |s.blocks| then
        match s.blocks[b].next
        case Bin(i) => s.(freers := s.freers[f := Mailing(b, i)])
        case _ => s.(freers := s.freers[f := Lost(b)])
      else s
    case Mailing(b, i) =>
      if b < |s.blocks| && i < |s.mailboxes| && i < |s.mail| then
        SetBlock(s, b, s.blocks[b].(next := s.mailboxes[i]))
          .(mailboxes := s.mailboxes[i := Blk(b)], freers := s.freers[f := Elsewhere],
            mail := s.mail[i := [b] + s.mail[i]])
      else s
    case _ => s
  }

  predicate Active(s: State, i: nat, b: nat) {
    i < |s.owners| && b < |s.blocks| && s.owners[i] == Working && Owns(s.blocks[b], i)
  }

  function Apply(s: State, a: Action): State
    requires |s.owners| == |s.mailboxes| == |s.mail|
  {
    match a
    case Acquire(i, b, size) =>
      if i < |s.owners| && b < |s.blocks| && s.blocks[b].owner.None? && size > 0 then
        SetBlock(s, b, Block(Some(i), Bin(i), size, 0, [], [], [], 0, {}))
      else s
    case Reuse(i, b) => if Active(s, i, b) && s.blocks[b].free != [] then SetBlock(s, b, TakeFree(s.blocks[b])) else s
    case Carve(i, b) => if Active(s, i, b) && CanCarve(s.blocks[b]) then SetBlock(s, b, CarveOne(s.blocks[b])) else s
    case FreeOwn(i, b, c) =>
      if Active(s, i, b) && c in s.blocks[b].live then SetBlock(s, b, GiveFree(s.blocks[b], c)) else s
    case Restore(i, b) =>
      if Active(s, i, b) && s.blocks[b].count == 0 && s.blocks[b].open == [] then
        SetBlock(s, b, Restored(s.blocks[b]))
      else s
    case Return(i, b) =>
      if Active(s, i, b) && s.blocks[b].count == 0 && s.blocks[b].open == [] then SetBlock(s, b, Unused()) else s
    case OpenMail(i) => if i < |s.owners| && s.owners[i] == Working then OpenStep(s, i) else s
    case Privatize(i) => if i < |s.owners| then PrivatizeStep(s, i) else s
    case FreeForeign(f, b, c) =>
      if f < |s.freers| && b < |s.blocks| && s.freers[f] == Elsewhere && c in s.blocks[b].live then
        SetBlock(s, b, GiveOpen(s.blocks[b], c))
          .(freers := s.freers[f := if s.blocks[b].open == [] then Pushed(b) else Elsewhere])
      else s
    case Freer(f) => if f < |s.freers| then FreerStep(s, f) else s
  }

  // ---------------------------------------------------------------- the invariant

  /** How often chunk c stands in the lists of a block or with a client. */
  function Places(blk: Block, c: nat): nat {
    multiset(blk.free)[c] + multiset(blk.open)[c] + multiset(blk.taken)[c] + if c in blk.live then 1 else 0
  }

  /** Every carved chunk is in exactly one place, no other chunk is anywhere; the count is of the
      chunks that are not private. */
  ghost predicate Partition(blk: Block) {
    && (forall c: nat :: Places(blk, c) == if c < blk.carved then 1 else 0)
    && blk.count == |blk.live| + |blk.open| + |blk.taken|
    && (blk.carved > 1 ==> HEADER + blk.carved * blk.chunkSize <= BLOCK_SIZE)
  }

  ghost function Holding(freers: seq<FreerPc>, b: nat): nat {
    if freers == [] then 0
    else
      var last := freers[|freers| - 1];
      Holding(freers[..|freers| - 1], b) + if last == Pushed(b) || (last.Mailing? && last.block == b) then 1 else 0
  }

  /** The ways in which block b is on its way back to its owner. */
  ghost function Tokens(s: State, b: nat): nat
    requires b < |s.blocks| && |s.owners| == |s.mail|
  {
    Holding(s.freers, b)
    + match s.blocks[b].owner {
        case None => 0
        case Some(i) =>
          if i < |s.owners| then multiset(s.mail[i])[b] + (if s.owners[i] == Popped(b) then 1 else 0) else 0
      }
  }

  ghost predicate BlockOk(s: State, b: nat)
    requires b < |s.blocks| && |s.owners| == |s.mail|
  {
    var blk := s.blocks[b];
    && Partition(blk)
    && (match blk.owner
        case None => blk == Unused()
        case Some(i) =>
          && i < |s.owners|
          && (b !in s.mail[i] ==> blk.next == Bin(i))
          && (blk.taken != [] ==> s.owners[i] == Settling(b)))
    && Tokens(s, b) == if blk.open == [] then 0 else 1
  }

  /** The mailbox of bin i: its word points to the first block, each block's word to the next. */
  ghost predicate BoxOk(s: State, i: nat)
    requires |s.owners| == |s.mailboxes| == |s.mail| && i < |s.owners|
  {
    && s.mailboxes[i] == Head(s.mail[i])
    && (forall k :: 0 <= k < |s.mail[i]| ==> MailAt(s, i, k))
    && (s.owners[i] != Working ==> s.owners[i].block < |s.blocks| && Owns(s.blocks[s.owners[i].block], i))
  }

  function Head(q: seq<nat>): Pointer {
    if q == [] then Null else Blk(q[0])
  }

  ghost predicate MailAt(s: State, i: nat, k: nat)
    requires i < |s.mail| && k < |s.mail[i]|
  {
    var b := s.mail[i][k];
    b < |s.blocks| && Owns(s.blocks[b], i) && s.blocks[b].next == Head(s.mail[i][k + 1..])
  }

  ghost predicate FreerOk(s: State, f: nat)
    requires f < |s.freers|
  {
    match s.freers[f]
    case Elsewhere => true
    case Pushed(b) => b < |s.blocks| && s.blocks[b].owner.Some?
    case Mailing(b, i) => b < |s.blocks| && Owns(s.blocks[b], i)
    case Lost(_) => false
  }

  ghost predicate Inv(s: State) {
    && |s.owners| == |s.mailboxes| == |s.mail|
    && (forall b :: 0 <= b < |s.blocks| ==> BlockOk(s, b))
    && (forall i :: 0 <= i < |s.owners| ==> BoxOk(s, i))
    && (forall f :: 0 <= f < |s.freers| ==> FreerOk(s, f))
  }

  // ---------------------------------------------------------------- one block keeps its chunks

  lemma FreshBlock(owner: Option<nat>, next: Pointer, size: nat)
    ensures Partition(Block(owner, next, size, 0, [], [], [], 0, {}))
  {
  }

  lemma KeepNext(blk: Block, next: Pointer)
    requires Partition(blk)
    ensures Partition(blk.(next := next))
  {
    forall c: nat ensures Places(blk.(next := next), c) == if c < blk.carved then 1 else 0 {
      assert Places(blk, c) == if c < blk.carved then 1 else 0;
    }
  }

  lemma KeepCarve(blk: Block)
    requires Partition(blk) && CanCarve(blk)
    ensures Partition(CarveOne(blk))
  {
    var r := CarveOne(blk);
    assert Places(blk, blk.carved) == 0;
    forall c: nat ensures Places(r, c) == if c < r.carved then 1 else 0 {
      assert Places(blk, c) == if c < blk.carved then 1 else 0;
    }
  }

  lemma KeepTakeFree(blk: Block)
    requires Partition(blk) && blk.free != []
    ensures Partition(TakeFree(blk))
  {
    var r, x := TakeFree(blk), blk.free[0];
    assert blk.free == [x] + blk.free[1..];
    assert Places(blk, x) == if x < blk.carved then 1 else 0;
    forall c: nat ensures Places(r, c) == if c < r.carved then 1 else 0 {
      assert Places(blk, c) == if c < blk.carved then 1 else 0;
      assert multiset(blk.free)[c] == multiset([x])[c] + multiset(blk.free[1..])[c];
    }
  }

  lemma KeepGiveFree(blk: Block, x: nat)
    requires Partition(blk) && x in blk.live
    ensures Partition(GiveFree(blk, x)) && blk.count > 0
  {
    var r := GiveFree(blk, x);
    assert Places(blk, x) == if x < blk.carved then 1 else 0;
    forall c: nat ensures Places(r, c) == if c < r.carved then 1 else 0 {
      assert Places(blk, c) == if c < blk.carved then 1 else 0;
      assert multiset([x] + blk.free)[c] == multiset([x])[c] + multiset(blk.free)[c];
    }
    assert blk.live == r.live + {x};
  }

  lemma KeepGiveOpen(blk: Block, x: nat)
    requires Partition(blk) && x in blk.live
    ensures Partition(GiveOpen(blk, x))
  {
    var r := GiveOpen(blk, x);
    assert Places(blk, x) == if x < blk.carved then 1 else 0;
    forall c: nat ensures Places(r, c) == if c < r.carved then 1 else 0 {
      assert Places(blk, c) == if c < blk.carved then 1 else 0;
      assert multiset([x] + blk.open)[c] == multiset([x])[c] + multiset(blk.open)[c];
    }
    assert blk.live == r.live + {x};
  }

  lemma KeepTakeOpen(blk: Block)
    requires Partition(blk) && blk.taken == []
    ensures Partition(TakeOpen(blk))
  {
    forall c: nat ensures Places(TakeOpen(blk), c) == if c < blk.carved then 1 else 0 {
      assert Places(blk, c) == if c < blk.carved then 1 else 0;
    }
  }

  lemma KeepSettle(blk: Block)
    requires Partition(blk)
    ensures Partition(Settle(blk))
  {
    forall c: nat ensures Places(Settle(blk), c) == if c < blk.carved then 1 else 0 {
      assert Places(blk, c) == if c < blk.carved then 1 else 0;
      assert multiset(blk.taken + blk.free)[c] == multiset(blk.taken)[c] + multiset(blk.free)[c];
    }
  }

  /** With nothing out, every carved chunk is private: the block may start over. */
  lemma KeepRestored(blk: Block)
    requires Partition(blk) && blk.count == 0
    ensures Partition(Restored(blk)) && blk.live == {} && blk.open == [] && blk.taken == []
  {
    assert |blk.live| == 0;
    assert blk.live == {};
  }

  // ---------------------------------------------------------------- tokens

  lemma {:induction false} HoldingUpdate(fs: seq<FreerPc>, f: nat, pc: FreerPc, b: nat)
    requires f < |fs|
    ensures Holding(fs[f := pc], b) + HeldBy(fs[f], b) == Holding(fs, b) + HeldBy(pc, b)
  {
    var n := |fs| - 1;
    if f < n {
      assert fs[f := pc][..n] == fs[..n][f := pc];
      HoldingUpdate(fs[..n], f, pc, b);
    } else {
      assert fs[f := pc][..n] == fs[..n];
    }
  }

  function HeldBy(pc: FreerPc, b: nat): nat {
    if pc == Pushed(b) || (pc.Mailing? && pc.block == b) then 1 else 0
  }

  lemma {:induction false} HoldingAtLeast(fs: seq<FreerPc>, f: nat, b: nat)
    requires f < |fs|
    ensures HeldBy(fs[f], b) <= Holding(fs, b)
  {
    if f < |fs| - 1 { HoldingAtLeast(fs[..|fs| - 1], f, b); }
  }

  lemma {:induction false} NobodyHolds(n: nat, b: nat)
    ensures Holding(seq(n, i => Elsewhere), b) == 0
  {
    if n > 0 {
      assert seq(n, i => Elsewhere)[..n - 1] == seq(n - 1, i => Elsewhere);
      NobodyHolds(n - 1, b);
    }
  }

  lemma InvInit(blocks: nat, bins: nat, freers: nat)
    ensures Inv(Init(blocks, bins, freers))
  {
    forall b: nat ensures Holding(Init(blocks, bins, freers).freers, b) == 0 { NobodyHolds(freers, b); }
    FreshBlock(None, Null, 0);
  }

  // ---------------------------------------------------------------- steps on one block

  /** The block changes, its owner, its word and whether its public list is empty do not. */
  lemma InvSetBlock(s: State, b: nat, blk: Block)
    requires Inv(s) && b < |s.blocks| && Partition(blk)
    requires var old_ := s.blocks[b];
      && old_.owner.Some? && blk.owner == old_.owner && blk.next == old_.next
      && (blk.open == [] <==> old_.open == []) && (blk.taken != [] ==> old_.taken != [])
    ensures Inv(SetBlock(s, b, blk))
  {
    hide Partition, Holding;
    var s' := SetBlock(s, b, blk);
    assert BlockOk(s, b);
    forall x | 0 <= x < |s.blocks| ensures BlockOk(s', x) {
      assert BlockOk(s, x);
      assert Tokens(s', x) == Tokens(s, x);
    }
    forall i | 0 <= i < |s.owners| ensures BoxOk(s', i) {
      assert BoxOk(s, i);
      forall k | 0 <= k < |s.mail[i]| ensures MailAt(s', i, k) { assert MailAt(s, i, k); }
    }
    forall f | 0 <= f < |s.freers| ensures FreerOk(s', f) { assert FreerOk(s, f); }
  }

  lemma InMail(s: State, i: nat, b: nat)
    requires Inv(s) && i < |s.owners| && b < |s.blocks|
    ensures b in s.mail[i] ==> Owns(s.blocks[b], i) && multiset(s.mail[i])[b] > 0
  {
    assert BoxOk(s, i);
    assert forall k :: 0 <= k < |s.mail[i]| ==> MailAt(s, i, k) && Owns(s.blocks[s.mail[i][k]], i);
  }

  /** A block comes into or goes out of ownership; no mailbox and no freeing thread knows it. */
  lemma InvOwnership(s: State, b: nat, blk: Block)
    requires Inv(s) && b < |s.blocks| && Partition(blk) && blk.open == [] && blk.taken == []
    requires Tokens(s, b) == 0
    requires var o := s.blocks[b].owner; o.Some? ==> o.value < |s.owners| && s.owners[o.value] == Working
    requires blk == Unused() || (s.blocks[b].owner.None? && blk.owner.Some? && blk.owner.value < |s.owners|
      && blk.next == Bin(blk.owner.value))
    ensures Inv(SetBlock(s, b, blk))
  {
    hide Partition;
    var s' := SetBlock(s, b, blk);
    assert BlockOk(s, b);
    forall i | 0 <= i < |s.owners| ensures b !in s.mail[i] && BoxOk(s', i) {
      assert BoxOk(s, i);
      InMail(s, i, b);
      forall k | 0 <= k < |s.mail[i]| ensures MailAt(s', i, k) { assert MailAt(s, i, k); }
    }
    forall f | 0 <= f < |s.freers| ensures FreerOk(s', f) {
      assert FreerOk(s, f);
      HoldingAtLeast(s.freers, f, b);
    }
    forall x | 0 <= x < |s.blocks| ensures BlockOk(s', x) {
      assert BlockOk(s, x);
      if x != b { assert Tokens(s', x) == Tokens(s, x); }
      else if blk.owner.Some? {
        assert BoxOk(s, blk.owner.value);
        assert multiset(s.mail[blk.owner.value])[b] == 0;
      }
    }
  }

  // ---------------------------------------------------------------- the mailbox

  lemma MailTail(s: State, i: nat)
    requires Inv(s) && i < |s.owners| && s.mail[i] != []
    ensures var b := s.mail[i][0];
      && b < |s.blocks| && Owns(s.blocks[b], i) && s.mailboxes[i] == Blk(b)
      && s.blocks[b].next == Head(s.mail[i][1..])
  {
    assert BoxOk(s, i) && MailAt(s, i, 0);
  }

  /** A block stands in at most one mailbox, and there once. */
  lemma MailOnce(s: State, i: nat, k: nat, j: nat, l: nat)
    requires Inv(s) && i < |s.owners| && j < |s.owners| && k < |s.mail[i]| && l < |s.mail[j]|
    requires s.mail[i][k] == s.mail[j][l]
    ensures i == j && k == l
  {
    assert BoxOk(s, i) && BoxOk(s, j) && MailAt(s, i, k) && MailAt(s, j, l);
    var b := s.mail[i][k];
    assert BlockOk(s, b);
    if k != l {
      var q := s.mail[i];
      CountTwice(q, k, l);
    }
  }

  lemma CountTwice(q: seq<nat>, k: nat, l: nat)
    requires k < |q| && l < |q| && k != l && q[k] == q[l]
    ensures multiset(q)[q[k]] >= 2
  {
    var lo, hi := if k < l then k else l, if k < l then l else k;
    assert q == q[..hi] + [q[hi]] + q[hi + 1..];
    assert q[lo] in q[..hi];
    assert multiset(q[..hi])[q[lo]] >= 1;
  }

  lemma InvOpen(s: State, i: nat)
    requires Inv(s) && i < |s.owners| && s.owners[i] == Working
    ensures Inv(OpenStep(s, i))
  {
    assert BoxOk(s, i);
    if s.mail[i] != [] {
      MailTail(s, i);
      var b := s.mail[i][0];
      var s' := OpenStep(s, i);
      assert s.mail[i] == [b] + s.mail[i][1..];
      forall x | 0 <= x < |s.blocks| ensures BlockOk(s', x) { OpenBlock(s, i, x); }
      forall j | 0 <= j < |s.owners| ensures BoxOk(s', j) { OpenBox(s, i, j); }
      forall f | 0 <= f < |s.freers| ensures FreerOk(s', f) { assert FreerOk(s, f); }
    }
  }

  lemma OpenBlock(s: State, i: nat, x: nat)
    requires Inv(s) && i < |s.owners| && s.owners[i] == Working && s.mail[i] != [] && x < |s.blocks|
    ensures |OpenStep(s, i).blocks| == |s.blocks| && BlockOk(OpenStep(s, i), x)
  {
    MailTail(s, i);
    assert |s.owners| == |s.mail| == |s.mailboxes|;
    hide Partition, Holding, Inv;
    var b, q := s.mail[i][0], s.mail[i];
    var s' := OpenStep(s, i);
    assert BlockOk(s, x) && BlockOk(s, b) by { InvBlocks(s, x); InvBlocks(s, b); }
    assert q == [b] + q[1..];
    assert multiset(q)[x] == multiset([b])[x] + multiset(q[1..])[x];
    assert x in q <==> multiset(q)[x] > 0;
    assert x in q[1..] <==> multiset(q[1..])[x] > 0;
    assert s.blocks[b].owner == Some(i);
    KeepNext(s.blocks[x], s'.blocks[x].next);
    assert Tokens(s', x) == Tokens(s, x);
  }

  lemma InvBlocks(s: State, x: nat)
    requires Inv(s) && x < |s.blocks|
    ensures BlockOk(s, x)
  {
  }

  lemma OpenBox(s: State, i: nat, j: nat)
    requires Inv(s) && i < |s.owners| && s.owners[i] == Working && s.mail[i] != [] && j < |s.owners|
    ensures |OpenStep(s, i).owners| == |s.owners| == |OpenStep(s, i).mail| == |OpenStep(s, i).mailboxes|
    ensures BoxOk(OpenStep(s, i), j)
  {
    MailTail(s, i);
    var s' := OpenStep(s, i);
    assert BoxOk(s, j) && BoxOk(s, i);
    forall k | 0 <= k < |s'.mail[j]| ensures MailAt(s', j, k) {
      var k0 := if j == i then k + 1 else k;
      assert MailAt(s, j, k0);
      assert s'.mail[j][k] == s.mail[j][k0] && s'.mail[j][k + 1..] == s.mail[j][k0 + 1..];
      if s.mail[j][k0] == s.mail[i][0] { MailOnce(s, j, k0, i, 0); }
    }
    if i == j { assert s'.mailboxes[i] == Head(s'.mail[i]); }
  }

  lemma InvPrivatize(s: State, i: nat)
    requires Inv(s) && i < |s.owners|
    ensures Inv(PrivatizeStep(s, i))
  {
    if s.owners[i] != Working {
      assert BoxOk(s, i);
      var b := s.owners[i].block;
      assert BlockOk(s, b);
      hide Partition;
      var s' := PrivatizeStep(s, i);
      if s.owners[i].Popped? { KeepTakeOpen(s.blocks[b]); } else { KeepSettle(s.blocks[b]); }
      forall x | 0 <= x < |s.blocks| ensures BlockOk(s', x) {
        assert BlockOk(s, x);
        if x != b { assert Tokens(s', x) == Tokens(s, x); }
      }
      forall j | 0 <= j < |s.owners| ensures BoxOk(s', j) {
        assert BoxOk(s, j);
        forall k | 0 <= k < |s.mail[j]| ensures MailAt(s', j, k) { assert MailAt(s, j, k); }
      }
      forall f | 0 <= f < |s.freers| ensures FreerOk(s', f) { assert FreerOk(s, f); }
    }
  }

  lemma InvFreeForeign(s: State, f: nat, b: nat, c: nat)
    requires Inv(s) && f < |s.freers| && b < |s.blocks| && s.freers[f] == Elsewhere && c in s.blocks[b].live
    ensures Inv(Apply(s, FreeForeign(f, b, c)))
  {
    assert BlockOk(s, b);
    KeepGiveOpen(s.blocks[b], c);
    hide Partition;
    var s' := Apply(s, FreeForeign(f, b, c));
    forall x | 0 <= x < |s.blocks| ensures BlockOk(s', x) {
      assert BlockOk(s, x);
      HoldingUpdate(s.freers, f, s'.freers[f], x);
    }
    forall j | 0 <= j < |s.owners| ensures BoxOk(s', j) {
      assert BoxOk(s, j);
      forall k | 0 <= k < |s.mail[j]| ensures MailAt(s', j, k) { assert MailAt(s, j, k); }
    }
    forall g | 0 <= g < |s.freers| ensures FreerOk(s', g) { assert FreerOk(s, g); }
  }

  /** A freeing thread that has still to post its block finds the block's word to be its bin. */
  lemma PushedSeesBin(s: State, f: nat)
    requires Inv(s) && f < |s.freers| && (s.freers[f].Pushed? || s.freers[f].Mailing?)
    ensures var b := s.freers[f].block;
      && b < |s.blocks| && s.blocks[b].owner.Some? && s.blocks[b].owner.value < |s.owners|
      && s.blocks[b].next == Bin(s.blocks[b].owner.value) && b !in s.mail[s.blocks[b].owner.value]
      && (s.freers[f].Mailing? ==> s.freers[f].bin == s.blocks[b].owner.value)
  {
    assert FreerOk(s, f);
    var b := s.freers[f].block;
    HoldingAtLeast(s.freers, f, b);
    hide Holding, Partition;
    assert BlockOk(s, b);
    var i := s.blocks[b].owner.value;
    assert b in s.mail[i] <==> multiset(s.mail[i])[b] > 0;
  }

  lemma InvFreer(s: State, f: nat)
    requires Inv(s) && f < |s.freers|
    ensures Inv(FreerStep(s, f))
  {
    assert FreerOk(s, f);
    match s.freers[f]
    case Elsewhere =>
    case Pushed(b) => PushedSeesBin(s, f); InvRead(s, f);
    case Mailing(b, i) => PushedSeesBin(s, f); InvPost(s, f);
  }

  lemma InvRead(s: State, f: nat)
    requires Inv(s) && f < |s.freers| && s.freers[f].Pushed?
    ensures Inv(FreerStep(s, f))
  {
    PushedSeesBin(s, f);
    hide Partition;
    var s' := FreerStep(s, f);
    forall x | 0 <= x < |s.blocks| ensures BlockOk(s', x) {
      assert BlockOk(s, x);
      HoldingUpdate(s.freers, f, s'.freers[f], x);
    }
    forall j | 0 <= j < |s.owners| ensures BoxOk(s', j) {
      assert BoxOk(s, j);
      forall k | 0 <= k < |s.mail[j]| ensures MailAt(s', j, k) { assert MailAt(s, j, k); }
    }
    forall g | 0 <= g < |s.freers| ensures FreerOk(s', g) { assert FreerOk(s, g); }
  }

  lemma InvPost(s: State, f: nat)
    requires Inv(s) && f < |s.freers| && s.freers[f].Mailing?
    ensures Inv(FreerStep(s, f))
  {
    PushedSeesBin(s, f);
    hide Partition;
    var s' := FreerStep(s, f);
    forall x | 0 <= x < |s.blocks| ensures BlockOk(s', x) { PostBlock(s, f, x); }
    forall j | 0 <= j < |s.owners| ensures BoxOk(s', j) { PostBox(s, f, j); }
    forall g | 0 <= g < |s.freers| ensures FreerOk(s', g) { assert FreerOk(s, g); }
  }

  lemma PostBlock(s: State, f: nat, x: nat)
    requires Inv(s) && f < |s.freers| && s.freers[f].Mailing? && x < |s.blocks|
    ensures var s' := FreerStep(s, f); |s'.blocks| == |s.blocks| && |s'.owners| == |s'.mail| && BlockOk(s', x)
  {
    PushedSeesBin(s, f);
    InvBlocks(s, x);
    hide Partition, Inv;
    var s' := FreerStep(s, f);
    HoldingUpdate(s.freers, f, Elsewhere, x);
    KeepNext(s.blocks[x], s'.blocks[x].next);
    hide Holding;
    var b, i := s.freers[f].block, s.freers[f].bin;
    assert multiset([b] + s.mail[i])[x] == multiset([b])[x] + multiset(s.mail[i])[x];
    assert x != b ==> (x in [b] + s.mail[i] <==> x in s.mail[i]);
  }

  lemma PostBox(s: State, f: nat, j: nat)
    requires Inv(s) && f < |s.freers| && s.freers[f].Mailing? && j < |s.owners|
    ensures var s' := FreerStep(s, f); |s'.owners| == |s.owners| == |s'.mail| == |s'.mailboxes| && BoxOk(s', j)
  {
    PushedSeesBin(s, f);
    hide Partition, BlockOk;
    var s' := FreerStep(s, f);
    var b, i := s.freers[f].block, s.freers[f].bin;
    assert BoxOk(s, j) && BoxOk(s, i);
    forall k: nat | k < |s'.mail[j]| ensures MailAt(s', j, k) { PostMail(s, f, j, k); }
  }

  lemma PostMail(s: State, f: nat, j: nat, k: nat)
    requires Inv(s) && f < |s.freers| && s.freers[f].Mailing? && j < |s.owners|
    requires var s' := FreerStep(s, f); |s'.mail| == |s.mail| && k < |s'.mail[j]|
    ensures MailAt(FreerStep(s, f), j, k)
  {
    PushedSeesBin(s, f);
    hide Partition, BlockOk, FreerOk;
    var s' := FreerStep(s, f);
    var b, i := s.freers[f].block, s.freers[f].bin;
    assert BoxOk(s, j) && BoxOk(s, i);
    if j == i && k == 0 {
      assert s'.mail[j][1..] == s.mail[i];
    } else {
      var k0 := if j == i then k - 1 else k;
      assert s'.mail[j][k] == s.mail[j][k0] && s'.mail[j][k + 1..] == s.mail[j][k0 + 1..];
      assert MailAt(s, j, k0);
      assert s.mail[j][k0] != b;
    }
  }

  lemma InvStep(s: State, a: Action)
    requires Inv(s)
    ensures Inv(Apply(s, a))
  {
    match a
    case Acquire(i, b, size) =>
      if i < |s.owners| && b < |s.blocks| && s.blocks[b].owner.None? && size > 0 {
        assert BlockOk(s, b);
        FreshBlock(Some(i), Bin(i), size);
        InvOwnership(s, b, Block(Some(i), Bin(i), size, 0, [], [], [], 0, {}));
      }
    case Reuse(i, b) =>
      if Active(s, i, b) && s.blocks[b].free != [] {
        assert BlockOk(s, b);
        KeepTakeFree(s.blocks[b]);
        InvSetBlock(s, b, TakeFree(s.blocks[b]));
      }
    case Carve(i, b) =>
      if Active(s, i, b) && CanCarve(s.blocks[b]) {
        assert BlockOk(s, b);
        KeepCarve(s.blocks[b]);
        InvSetBlock(s, b, CarveOne(s.blocks[b]));
      }
    case FreeOwn(i, b, c) =>
      if Active(s, i, b) && c in s.blocks[b].live {
        assert BlockOk(s, b);
        KeepGiveFree(s.blocks[b], c);
        InvSetBlock(s, b, GiveFree(s.blocks[b], c));
      }
    case Restore(i, b) =>
      if Active(s, i, b) && s.blocks[b].count == 0 && s.blocks[b].open == [] {
        assert BlockOk(s, b);
        KeepRestored(s.blocks[b]);
        InvSetBlock(s, b, Restored(s.blocks[b]));
      }
    case Return(i, b) =>
      if Active(s, i, b) && s.blocks[b].count == 0 && s.blocks[b].open == [] {
        assert BlockOk(s, b);
        FreshBlock(None, Null, 0);
        InvOwnership(s, b, Unused());
      }
    case OpenMail(i) => if i < |s.owners| && s.owners[i] == Working { InvOpen(s, i); }
    case Privatize(i) => if i < |s.owners| { InvPrivatize(s, i); }
    case FreeForeign(f, b, c) =>
      if f < |s.freers| && b < |s.blocks| && s.freers[f] == Elsewhere && c in s.blocks[b].live {
        InvFreeForeign(s, f, b, c);
      }
    case Freer(f) => if f < |s.freers| { InvFreer(s, f); }
  }

  // ---------------------------------------------------------------- runs

  ghost function Run(s: State, schedule: seq<Action>): (r: State)
    requires Inv(s)
    ensures Inv(r)
    decreases |schedule|
  {
    if schedule == [] then s
    else
      InvStep(s, schedule[0]);
      Run(Apply(s, schedule[0]), schedule[1..])
  }

  ghost function Reached(blocks: nat, bins: nat, freers: nat, schedule: seq<Action>): (s: State)
    ensures Inv(s)
  {
    InvInit(blocks, bins, freers);
    Run(Init(blocks, bins, freers), schedule)
  }

  /** Of an owned block the public list is not empty exactly when one, and only one, of these
      holds: the block is in its bin's mailbox, one freeing thread is between pushing and posting,
      the owner has taken the block out and not yet made its chunks private. */
  lemma FreedChunksAreOnTheirWay(blocks: nat, bins: nat, freers: nat, schedule: seq<Action>, b: nat)
    requires b < |Reached(blocks, bins, freers, schedule).blocks|
    requires Reached(blocks, bins, freers, schedule).blocks[b].owner.Some?
    ensures var s := Reached(blocks, bins, freers, schedule);
      var i := s.blocks[b].owner.value;
      && i < |s.owners| == |s.mail|
      && multiset(s.mail[i])[b] + Holding(s.freers, b) + (if s.owners[i] == Popped(b) then 1 else 0)
         == if s.blocks[b].open == [] then 0 else 1
  {
    var s := Reached(blocks, bins, freers, schedule);
    assert BlockOk(s, b);
  }

  /** Every chunk carved from a block is in exactly one place, and the count is of those that are
      with clients, on the public list, or just taken from it. */
  lemma ChunksAreConserved(blocks: nat, bins: nat, freers: nat, schedule: seq<Action>, b: nat, c: nat)
    requires b < |Reached(blocks, bins, freers, schedule).blocks|
    ensures var blk := Reached(blocks, bins, freers, schedule).blocks[b];
      && multiset(blk.free)[c] + multiset(blk.open)[c] + multiset(blk.taken)[c] + (if c in blk.live then 1 else 0)
         == (if c < blk.carved then 1 else 0)
      && blk.count == |blk.live| + |blk.open| + |blk.taken|
  {
    var s := Reached(blocks, bins, freers, schedule);
    assert BlockOk(s, b);
    assert Places(s.blocks[b], c) == if c < s.blocks[b].carved then 1 else 0;
  }

  predicate PointsHome(blk: Block) {
    blk.owner.Some? && blk.next == Bin(blk.owner.value)
  }

  /** A freeing thread that has to post a block never reads anything but the owner's bin from the
      word that also chains the mailbox, and the mailbox chain is what was posted, in order. */
  lemma WordIsNeverMistaken(blocks: nat, bins: nat, freers: nat, schedule: seq<Action>, f: nat, i: nat)
    requires f < |Reached(blocks, bins, freers, schedule).freers|
    requires i < |Reached(blocks, bins, freers, schedule).owners|
    ensures var s := Reached(blocks, bins, freers, schedule);
      && !s.freers[f].Lost?
      && (s.freers[f].Pushed? ==> s.freers[f].block < |s.blocks| && PointsHome(s.blocks[s.freers[f].block]))
      && i < |s.mail| == |s.mailboxes| && s.mailboxes[i] == Head(s.mail[i])
      && (forall k :: 0 <= k < |s.mail[i]| ==> MailAt(s, i, k))
  {
    var s := Reached(blocks, bins, freers, schedule);
    assert FreerOk(s, f) && BoxOk(s, i);
    if s.freers[f].Pushed? { PushedSeesBin(s, f); }
  }

  /** A block given back by its owner is in no mailbox and known to no freeing thread. */
  lemma ReturnedBlockIsForgotten(blocks: nat, bins: nat, freers: nat, schedule: seq<Action>, b: nat, i: nat)
    requires b < |Reached(blocks, bins, freers, schedule).blocks|
    requires i < |Reached(blocks, bins, freers, schedule).owners|
    requires Reached(blocks, bins, freers, schedule).blocks[b].owner.None?
    ensures var s := Reached(blocks, bins, freers, schedule);
      i < |s.mail| && b !in s.mail[i] && Holding(s.freers, b) == 0 && s.owners[i] != Popped(b)
        && s.owners[i] != Settling(b)
  {
    var s := Reached(blocks, bins, freers, schedule);
    assert BlockOk(s, b) && BoxOk(s, i);
    InMail(s, i, b);
  }

  // ---------------------------------------------------------------- nothing freed is lost

  /** The owner goes once through its mailbox. */
  function Rounds(i: nat, n: nat): seq<Action> {
    if n == 0 then [] else [OpenMail(i), Privatize(i), Privatize(i)] + Rounds(i, n - 1)
  }

  ghost predicate Quiet(s: State) {
    forall f :: 0 <= f < |s.freers| ==> s.freers[f] == Elsewhere
  }

  lemma {:induction false} QuietHoldsNothing(fs: seq<FreerPc>, b: nat)
    requires forall f :: 0 <= f < |fs| ==> fs[f] == Elsewhere
    ensures Holding(fs, b) == 0
  {
    if fs != [] { QuietHoldsNothing(fs[..|fs| - 1], b); }
  }

  lemma OneRound(s: State, i: nat)
    requires Inv(s) && Quiet(s) && i < |s.owners| && s.owners[i] == Working && s.mail[i] != []
    ensures var t := Run(s, [OpenMail(i), Privatize(i), Privatize(i)]);
      Quiet(t) && |t.owners| == |s.owners| && t.owners[i] == Working && |t.mail[i]| == |s.mail[i]| - 1
  {
    MailTail(s, i);
    var s1 := Apply(s, OpenMail(i));
    InvStep(s, OpenMail(i));
    var s2 := Apply(s1, Privatize(i));
    InvStep(s1, Privatize(i));
    var s3 := Apply(s2, Privatize(i));
    InvStep(s2, Privatize(i));
    assert [OpenMail(i), Privatize(i), Privatize(i)][1..] == [Privatize(i), Privatize(i)];
    assert [Privatize(i), Privatize(i)][1..] == [Privatize(i)];
    hide Inv;
    assert Run(s2, [Privatize(i)]) == Run(s3, []);
  }

  lemma {:induction false} RunConcat(s: State, a: seq<Action>, b: seq<Action>)
    requires Inv(s)
    ensures Run(s, a + b) == Run(Run(s, a), b)
    decreases |a|
  {
    if a == [] {
      assert a + b == b;
    } else {
      InvStep(s, a[0]);
      assert (a + b)[1..] == a[1..] + b;
      RunConcat(Apply(s, a[0]), a[1..], b);
    }
  }

  /** With no free under way, one pass of the owner over its mailbox leaves no chunk of its blocks
      on a public list: whatever was freed from outside is private again. */
  lemma {:induction false} OwnerCollectsEverything(s: State, i: nat, b: nat)
    requires Inv(s) && Quiet(s) && i < |s.owners| && s.owners[i] == Working
    ensures var t := Run(s, Rounds(i, |s.mail[i]|));
      b < |t.blocks| && Owns(t.blocks[b], i) ==> t.blocks[b].open == [] && t.blocks[b].taken == []
    decreases |s.mail[i]|
  {
    if s.mail[i] == [] {
      if b < |s.blocks| && Owns(s.blocks[b], i) {
        assert BlockOk(s, b);
        QuietHoldsNothing(s.freers, b);
      }
    } else {
      OneRound(s, i);
      var round := [OpenMail(i), Privatize(i), Privatize(i)];
      RunConcat(s, round, Rounds(i, |s.mail[i]| - 1));
      OwnerCollectsEverything(Run(s, round), i, b);
    }
  }

  // ---------------------------------------------------------------- where the chunks lie

  /** Chunk c, as an offset in the block: carving goes downwards from the end. */
  function Address(blk: Block, c: nat): int {
    BLOCK_SIZE - (c + 1) * blk.chunkSize
  }

  /** The bump pointer of the block: in a fresh block one chunk below the end; later null when the
      next chunk would reach into the header. */
  function BumpPointer(blk: Block): Option<int> {
    if blk.carved > 0 && Address(blk, blk.carved) < HEADER then None else Some(Address(blk, blk.carved))
  }

  predicate BehindHeader(blk: Block, c: nat) {
    HEADER <= Address(blk, c)
  }

  /** Among the carved chunks no two overlap, all end inside the block, and all but the first lie
      behind the header; the first does exactly if there is room for one chunk.  A null bump pointer
      means that no further chunk fits. */
  lemma BlockChunks(blk: Block, c: nat, d: nat)
    requires Partition(blk) && c < blk.carved
    ensures Address(blk, c) + blk.chunkSize <= BLOCK_SIZE
    ensures BehindHeader(blk, c) <==> HEADER + blk.chunkSize <= BLOCK_SIZE
    ensures c < d < blk.carved ==> BehindHeader(blk, d) && Address(blk, d) + blk.chunkSize <= Address(blk, c)
    ensures BumpPointer(blk).None? <==> !CanCarve(blk)
  {
    PartitionAddress(blk);
    Below(blk, 0, c);
    Below(blk, c, d);
    Below(blk, c, blk.carved - 1);
    Below(blk, d, blk.carved - 1);
    NextAddress(blk, blk.carved);
    hide Partition, Address;
  }

  lemma PartitionAddress(blk: Block)
    requires Partition(blk)
    ensures blk.carved > 1 ==> HEADER <= Address(blk, blk.carved - 1)
    ensures Address(blk, 0) == BLOCK_SIZE - blk.chunkSize
  {
  }

  lemma NextAddress(blk: Block, c: nat)
    ensures Address(blk, c + 1) == Address(blk, c) - blk.chunkSize
    ensures HEADER <= Address(blk, c) <==> HEADER + (c + 1) * blk.chunkSize <= BLOCK_SIZE
  {
    assert (c + 2) * blk.chunkSize == (c + 1) * blk.chunkSize + blk.chunkSize;
  }

  lemma {:induction false} Below(blk: Block, c: nat, d: int)
    ensures c < d ==> Address(blk, d) + blk.chunkSize <= Address(blk, c)
    decreases d - c
  {
    if c < d {
      NextAddress(blk, d - 1);
      Below(blk, c, d - 1);
    }
  }

  /** In any state: carved chunks lie inside the block, apart from each other, and behind the header
      exactly if one chunk of that size has room there. */
  lemma ChunksLieApart(blocks: nat, bins: nat, freers: nat, schedule: seq<Action>, b: nat, c: nat, d: nat)
    requires b < |Reached(blocks, bins, freers, schedule).blocks|
    requires c < Reached(blocks, bins, freers, schedule).blocks[b].carved
    ensures var blk := Reached(blocks, bins, freers, schedule).blocks[b];
      && Address(blk, c) + blk.chunkSize <= BLOCK_SIZE
      && (BehindHeader(blk, c) <==> HEADER + blk.chunkSize <= BLOCK_SIZE)
      && (c < d < blk.carved ==> BehindHeader(blk, d) && Address(blk, d) + blk.chunkSize <= Address(blk, c))
      && (BumpPointer(blk).None? <==> !CanCarve(blk))
  {
    var s := Reached(blocks, bins, freers, schedule);
    assert BlockOk(s, b);
    BlockChunks(s.blocks[b], c, d);
  }

  /** Whatever happens, every chunk of this size lies behind the header of its block. */
  ghost predicate AlwaysBehind(size: nat) {
    forall blocks: nat, bins: nat, freers: nat, schedule: seq<Action> ::
      AllBehind(Reached(blocks, bins, freers, schedule), size)
  }

  predicate AllBehind(s: State, size: nat) {
    forall b, c: nat ::
      0 <= b < |s.blocks| && s.blocks[b].chunkSize == size && c < s.blocks[b].carved ==> BehindHeader(s.blocks[b], c)
  }

  /** A bin size is safe exactly if it is at most the block without its header, 16304 bytes; the
      sizes come from the caller's table and are not looked at. */
  lemma SafeBinSizes(size: nat)
    requires size > 0
    ensures AlwaysBehind(size) <==> size <= BLOCK_SIZE - HEADER
  {
    if size <= BLOCK_SIZE - HEADER {
      forall blocks: nat, bins: nat, freers: nat, schedule: seq<Action>
        ensures AllBehind(Reached(blocks, bins, freers, schedule), size)
      {
        var s := Reached(blocks, bins, freers, schedule);
        forall b, c: nat | 0 <= b < |s.blocks| && s.blocks[b].chunkSize == size && c < s.blocks[b].carved
          ensures BehindHeader(s.blocks[b], c)
        {
          assert BlockOk(s, b);
          BlockChunks(s.blocks[b], c, c);
        }
      }
    } else {
      FirstCarve(size);
      var s := Reached(1, 1, 0, [Acquire(0, 0, size), Carve(0, 0)]);
      assert !BehindHeader(s.blocks[0], 0);
      assert !AllBehind(s, size);
    }
  }

  lemma FirstCarve(size: nat)
    requires size > 0
    ensures var s := Reached(1, 1, 0, [Acquire(0, 0, size), Carve(0, 0)]);
      && |s.blocks| == 1 && s.blocks[0].carved == 1 && s.blocks[0].chunkSize == size
      && s.blocks[0].live == {0} && Address(s.blocks[0], 0) == BLOCK_SIZE - size
  {
    hide Inv;
    InvInit(1, 1, 0);
    var s0 := Init(1, 1, 0);
    InvStep(s0, Acquire(0, 0, size));
    var s1 := Apply(s0, Acquire(0, 0, size));
    InvStep(s1, Carve(0, 0));
    var s2 := Apply(s1, Carve(0, 0));
    assert [Acquire(0, 0, size), Carve(0, 0)][1..] == [Carve(0, 0)];
    assert Run(s1, [Carve(0, 0)]) == Run(s2, []);
  }

  /** A bin of 20000 bytes: its first chunk is handed out 3616 bytes before its block. */
  lemma ChunkBeforeItsBlock()
    ensures var s := Reached(1, 1, 0, [Acquire(0, 0, 20000), Carve(0, 0)]);
      |s.blocks| == 1 && s.blocks[0].live == {0} && Address(s.blocks[0], 0) == -3616
  {
    FirstCarve(20000);
  }
}

/** The queue of chunks under the pipe.  Memory is explicit: `heap` holds exactly the chunks
    obtained and not yet freed, so a step that followed a stale pointer would not be defined. */
module ChunkQueue {

  /** Addresses; 0 is the null pointer. */
  type Ptr = nat

  datatype Chunk<T> = Chunk(values: seq<T>, prev: Ptr, next: Ptr)

  /** The address of one value. */
  datatype Slot = Slot(chunk: Ptr, pos: nat)

  /** What malloc returns: an address not in use, with arbitrary contents. */
  datatype Malloc<T> = Malloc(address: Ptr, contents: Chunk<T>)

  /** `made` is the chunk that the writer has and has not linked yet, `left` the one that the
      reader has unlinked or is about to free; 0 between operations.  `first` is history: for each
      linked chunk the position, counted over the life of the queue, of its slot 0. */
  datatype Queue<T> = Queue(
    size: nat,
    heap: map<Ptr, Chunk<T>>,
    beginChunk: Ptr,
    beginPos: nat,
    backChunk: Ptr,
    backPos: nat,
    endChunk: Ptr,
    endPos: nat,
    spare: Ptr,
    made: Ptr,
    left: Ptr,
    first: map<Ptr, nat>
  )

  // ---------------------------------------------------------------- the invariant

  ghost function Index<T>(q: Queue<T>, s: Slot): nat
    requires s.chunk in q.first
  {
    q.first[s.chunk] + s.pos
  }

  ghost predicate InChunks<T>(q: Queue<T>, s: Slot) {
    s.chunk in q.first && s.pos < q.size
  }

  function FrontSlot<T>(q: Queue<T>): Slot { Slot(q.beginChunk, q.beginPos) }
  function BackSlot<T>(q: Queue<T>): Slot { Slot(q.backChunk, q.backPos) }
  function EndSlot<T>(q: Queue<T>): Slot { Slot(q.endChunk, q.endPos) }

  /** A linked chunk continues the positions of its predecessor and is continued by its
      successor. */
  ghost predicate LinkOk<T>(q: Queue<T>, c: Ptr) {
    && c in q.heap && c in q.first && q.beginChunk in q.first && q.endChunk in q.first
    && q.first[q.beginChunk] <= q.first[c] <= q.first[q.endChunk]
    && (c != q.endChunk ==>
          q.heap[c].next in q.first && q.first[q.heap[c].next] == q.first[c] + q.size)
    && (c != q.beginChunk ==>
          q.heap[c].prev in q.first && q.first[q.heap[c].prev] + q.size == q.first[c])
  }

  ghost predicate Chained<T>(q: Queue<T>) {
    && q.beginChunk in q.first && q.endChunk in q.first && q.first.Keys <= q.heap.Keys
    && (forall c {:trigger LinkOk(q, c)} :: c in q.first ==> LinkOk(q, c))
  }

  /** Different chunks hold different positions. */
  ghost predicate ApartOk<T>(q: Queue<T>, c: Ptr, d: Ptr) {
    c in q.first && d in q.first && c != d ==>
      q.first[c] + q.size <= q.first[d] || q.first[d] + q.size <= q.first[c]
  }

  ghost predicate Apart<T>(q: Queue<T>) {
    forall c, d :: ApartOk(q, c, d)
  }

  function Held(p: Ptr): set<Ptr> {
    if p == 0 then {} else {p}
  }

  /** Every chunk in memory is linked, spare, with the writer or with the reader, and only one of
      these. */
  ghost predicate Owned<T>(q: Queue<T>) {
    && 0 !in q.heap && q.spare !in q.first && q.made !in q.first && q.left !in q.first
    && Held(q.spare) !! Held(q.made) !! Held(q.left)
    && q.heap.Keys == q.first.Keys + Held(q.spare) + Held(q.made) + Held(q.left)
    && (forall c :: c in q.heap ==> |q.heap[c].values| == q.size)
  }

  ghost predicate Sound<T>(q: Queue<T>) {
    q.size > 0 && Chained(q) && Apart(q) && Owned(q)
  }

  /** At every moment the back slot is in the window and the end is one further, at most just past
      its chunk. */
  ghost predicate Inv<T>(q: Queue<T>) {
    && Sound(q)
    && InChunks(q, FrontSlot(q)) && InChunks(q, BackSlot(q)) && q.endChunk in q.first && q.endPos <= q.size
    && Index(q, FrontSlot(q)) <= Index(q, BackSlot(q))
    && Index(q, BackSlot(q)) + 1 == Index(q, EndSlot(q))
  }

  /** The writer is not in the middle of an operation. */
  predicate Settled<T>(q: Queue<T>) {
    q.endPos < q.size && q.made == 0
  }

  /** Inside the linked chunks equal addresses and equal positions are the same thing. */
  lemma AddressIsPosition<T>(q: Queue<T>, a: Slot, b: Slot)
    requires Apart(q) && InChunks(q, a) && InChunks(q, b)
    ensures a == b <==> Index(q, a) == Index(q, b)
  {
    assert ApartOk(q, a.chunk, b.chunk);
  }

  /** Chunks linked before and after keep their positions and their values. */
  ghost predicate Keeps<T>(q: Queue<T>, q': Queue<T>) {
    && q.first.Keys <= q.heap.Keys && q'.first.Keys <= q'.heap.Keys
    && (forall c :: c in q.first && c in q'.first ==>
          q'.first[c] == q.first[c] && q'.heap[c].values == q.heap[c].values)
  }

  // ---------------------------------------------------------------- push

  ghost predicate Obtainable<T>(q: Queue<T>, m: Malloc<T>) {
    m.address != 0 && m.address !in q.heap && |m.contents.values| == q.size
  }

  /** The back slot moves to the end, the end moves on by one. */
  function Advance<T>(q: Queue<T>): Queue<T> {
    q.(backChunk := q.endChunk, backPos := q.endPos, endPos := q.endPos + 1)
  }

  /** The exchange of the spare chunk for null; if there was none, a chunk from malloc. */
  function Take<T>(q: Queue<T>, m: Malloc<T>): Queue<T> {
    if q.spare != 0 then q.(spare := 0, made := q.spare)
    else q.(heap := q.heap[m.address := m.contents], made := m.address)
  }

  /** Link the chunk behind the end chunk. */
  function Link<T>(q: Queue<T>): Queue<T>
    requires q.endChunk in q.heap && q.endChunk in q.first && q.made in q.heap
  {
    var heap1 := q.heap[q.endChunk := q.heap[q.endChunk].(next := q.made)];
    var heap2 := heap1[q.made := heap1[q.made].(prev := q.endChunk)];
    q.(heap := heap2, endChunk := q.made, endPos := 0, made := 0,
       first := q.first[q.made := q.first[q.endChunk] + q.size])
  }

  /** The end chunk is full: link the spare chunk, or a new one, behind it. */
  function Extend<T>(q: Queue<T>, m: Malloc<T>): Queue<T>
    requires q.endChunk in q.heap && q.endChunk in q.first && (q.spare != 0 ==> q.spare in q.heap)
  {
    Link(Take(q, m))
  }

  function Push<T>(q: Queue<T>, m: Malloc<T>): Queue<T>
    requires q.endChunk in q.heap && q.endChunk in q.first && (q.spare != 0 ==> q.spare in q.heap)
  {
    var q1 := Advance(q);
    if q1.endPos != q.size then q1 else Extend(q1, m)
  }

  lemma ChainedLink<T>(q: Queue<T>)
    requires Sound(q) && q.made != 0
    ensures Chained(Link(q))
  {
    var q' := Link(q);
    assert LinkOk(q, q.endChunk) && LinkOk(q, q.beginChunk);
    forall c | c in q'.first ensures LinkOk(q', c) {
      if c in q.first { assert LinkOk(q, c); }
    }
  }

  lemma ApartLink<T>(q: Queue<T>)
    requires Sound(q) && q.made != 0
    ensures Apart(Link(q))
  {
    var q' := Link(q);
    forall c, d ensures ApartOk(q', c, d) {
      assert ApartOk(q, c, d);
      assert c in q.first ==> LinkOk(q, c);
      assert d in q.first ==> LinkOk(q, d);
    }
  }

  lemma OwnedLink<T>(q: Queue<T>)
    requires Sound(q) && q.made != 0
    ensures Owned(Link(q)) && Keeps(q, Link(q))
  {
  }

  /** The chain and its accounts do not depend on the offsets. */
  lemma CoreFrame<T>(q: Queue<T>, q': Queue<T>)
    requires Sound(q)
    requires q' == q.(beginPos := q'.beginPos, backChunk := q'.backChunk, backPos := q'.backPos,
                      endPos := q'.endPos)
    ensures Sound(q') && Keeps(q, q')
  {
    forall c | c in q'.first ensures LinkOk(q', c) { assert LinkOk(q, c); }
    forall c, d ensures ApartOk(q', c, d) { assert ApartOk(q, c, d); }
  }

  /** Nor does it depend on who has the chunks that are not linked. */
  lemma HandsFrame<T>(q: Queue<T>, q': Queue<T>)
    requires Sound(q) && Owned(q')
    requires q' == q.(spare := q'.spare, made := q'.made, left := q'.left, heap := q'.heap)
    requires forall c :: c in q.first ==> q'.heap[c] == q.heap[c]
    ensures Sound(q') && Keeps(q, q')
  {
    forall c | c in q'.first ensures LinkOk(q', c) { assert LinkOk(q, c); }
    forall c, d ensures ApartOk(q', c, d) { assert ApartOk(q, c, d); }
  }

  lemma KeepsSame<T>(q: Queue<T>, q1: Queue<T>, q2: Queue<T>)
    requires Keeps(q1, q2) && q.first == q1.first && q.heap == q1.heap
    ensures Keeps(q, q2)
  {
  }

  /** The pointers that a push follows are in memory. */
  lemma PushIsDefined<T>(q: Queue<T>)
    requires Inv(q)
    ensures q.endChunk in q.heap && q.endChunk in q.first && (q.spare != 0 ==> q.spare in q.heap)
  {
  }

  lemma InvAdvance<T>(q: Queue<T>)
    requires Inv(q) && Settled(q)
    ensures var q' := Advance(q);
      && Inv(q') && q'.heap == q.heap && q'.first == q.first && Keeps(q, q')
      && Index(q', BackSlot(q')) == Index(q, BackSlot(q)) + 1
  {
    CoreFrame(q, Advance(q));
  }

  /** Taking the chunk: the spare one if there is one, and then nothing is asked of malloc. */
  lemma InvTake<T>(q: Queue<T>, m: Malloc<T>)
    requires Inv(q) && q.made == 0 && (q.spare == 0 ==> Obtainable(q, m))
    ensures var q' := Take(q, m);
      && Inv(q') && Keeps(q, q') && q'.first == q.first && q'.spare == 0
      && q'.made == (if q.spare != 0 then q.spare else m.address) != 0
      && q'.heap.Keys == q.heap.Keys + {q'.made}
  {
    HandsFrame(q, Take(q, m));
  }

  lemma InvLink<T>(q: Queue<T>)
    requires Inv(q) && q.made != 0 && q.endPos == q.size
    ensures var q' := Link(q);
      && Inv(q') && Settled(q') && Keeps(q, q') && q'.spare == q.spare
      && q'.heap.Keys == q.heap.Keys && q'.first.Keys == q.first.Keys + {q.made}
      && Index(q', BackSlot(q')) == Index(q, BackSlot(q))
      && Index(q', FrontSlot(q')) == Index(q, FrontSlot(q))
  {
    ChainedLink(q);
    OwnedLink(q);
    ApartLink(q);
  }

  /** A whole push: the back slot moves to the end; at a chunk border the spare chunk is linked,
      or a new one. */
  lemma InvPush<T>(q: Queue<T>, m: Malloc<T>)
    requires Inv(q) && Settled(q) && Obtainable(q, m)
    ensures var q' := Push(q, m);
      && Inv(q') && Settled(q') && Keeps(q, q') && q'.size == q.size && q'.left == q.left
      && BackSlot(q') == EndSlot(q) && FrontSlot(q') == FrontSlot(q)
      && Index(q', BackSlot(q')) == Index(q, BackSlot(q)) + 1
      && Index(q', FrontSlot(q')) == Index(q, FrontSlot(q))
      && if q.endPos + 1 < q.size then q'.heap == q.heap && q'.first == q.first && q'.spare == q.spare
         else
           var sc := if q.spare != 0 then q.spare else m.address;
           && q'.heap.Keys == q.heap.Keys + {sc} && q'.first.Keys == q.first.Keys + {sc}
           && q'.endChunk == sc && q'.spare == 0
  {
    hide Apart, Chained, Owned, Keeps;
    var q1 := Advance(q);
    InvAdvance(q);
    if q1.endPos == q.size {
      InvTake(q1, m);
      InvLink(Take(q1, m));
      KeepsVia(q, Take(q1, m), Link(Take(q1, m)));
    }
  }

  lemma KeepsVia<T>(q: Queue<T>, q1: Queue<T>, q2: Queue<T>)
    requires Keeps(q, q1) && Keeps(q1, q2) && q.first.Keys <= q1.first.Keys
    ensures Keeps(q, q2)
  {
  }

  // ---------------------------------------------------------------- unpush

  function StepBack<T>(q: Queue<T>): Queue<T>
    requires q.size > 0 && (q.backPos == 0 ==> q.backChunk in q.heap)
  {
    if q.backPos > 0 then q.(backPos := q.backPos - 1)
    else q.(backPos := q.size - 1, backChunk := q.heap[q.backChunk].prev)
  }

  /** The pointers that `Retract` follows are in memory. */
  ghost predicate Retractable<T>(q: Queue<T>) {
    && q.size > 0 && q.endChunk in q.heap
    && var e := q.heap[q.endChunk].prev;
    && e in q.heap && q.heap[e].next in q.heap && q.heap[e].next != e
  }

  /** The end leaves its chunk, which is freed. */
  function Retract<T>(q: Queue<T>): Queue<T>
    requires Retractable(q)
  {
    var e := q.heap[q.endChunk].prev;
    var heap1 := q.heap - {q.heap[e].next};
    q.(endPos := q.size - 1, endChunk := e, heap := heap1[e := heap1[e].(next := 0)],
       first := q.first - {q.endChunk})
  }

  function Unpush<T>(q: Queue<T>): Queue<T>
    requires Inv(q) && Settled(q) && Index(q, FrontSlot(q)) < Index(q, BackSlot(q))
  {
    UnpushIsDefined(q);
    var q1 := StepBack(q);
    if q1.endPos > 0 then q1.(endPos := q1.endPos - 1) else Retract(q1)
  }

  lemma UnpushIsDefined<T>(q: Queue<T>)
    requires Inv(q) && Settled(q) && Index(q, FrontSlot(q)) < Index(q, BackSlot(q))
    ensures q.backPos == 0 ==> q.backChunk != q.beginChunk
    ensures q.endPos == 0 ==> Retractable(q) && q.endChunk != q.beginChunk
  {
    assert LinkOk(q, q.backChunk) && LinkOk(q, q.endChunk);
    if q.endPos == 0 {
      var e := q.heap[q.endChunk].prev;
      assert LinkOk(q, e);
      assert ApartOk(q, q.heap[e].next, q.endChunk);
    }
  }

  lemma RetractDefined<T>(q: Queue<T>)
    requires Sound(q) && q.endChunk != q.beginChunk
    ensures Retractable(q)
    ensures var e := q.heap[q.endChunk].prev;
      && e in q.first && q.first[e] + q.size == q.first[q.endChunk] && q.heap[e].next == q.endChunk
      && LinkOk(q, e) && LinkOk(q, q.endChunk)
  {
    var e := q.heap[q.endChunk].prev;
    assert LinkOk(q, q.endChunk) && LinkOk(q, e);
    assert ApartOk(q, q.heap[e].next, q.endChunk);
  }

  lemma ChainedRetract<T>(q: Queue<T>)
    requires Sound(q) && q.endChunk != q.beginChunk && Retractable(q)
    ensures Chained(Retract(q))
  {
    RetractDefined(q);
    var e, q' := q.heap[q.endChunk].prev, Retract(q);
    forall c | c in q'.first ensures LinkOk(q', c) {
      assert LinkOk(q, c);
      assert ApartOk(q, c, q.endChunk) && ApartOk(q, c, e);
      assert c != e ==> ApartOk(q, q.heap[c].next, q.endChunk);
      assert c != q.beginChunk ==> ApartOk(q, q.heap[c].prev, q.endChunk);
    }
  }

  lemma InvRetract<T>(q: Queue<T>)
    requires Sound(q) && q.endChunk != q.beginChunk
    ensures Retractable(q) && Sound(Retract(q)) && Keeps(q, Retract(q))
    ensures var q' := Retract(q);
      && q'.endChunk in q.first && q.first[q'.endChunk] + q.size == q.first[q.endChunk]
      && q'.heap.Keys == q.heap.Keys - {q.endChunk}
  {
    RetractDefined(q);
    ChainedRetract(q);
    hide Chained, LinkOk;
    var q' := Retract(q);
    forall c, d ensures ApartOk(q', c, d) { assert ApartOk(q, c, d); }
  }

  lemma InvStepBack<T>(q: Queue<T>)
    requires Inv(q) && Index(q, FrontSlot(q)) < Index(q, BackSlot(q))
    ensures q.backPos == 0 ==> q.backChunk in q.heap
    ensures var q' := StepBack(q);
      InChunks(q', BackSlot(q')) && Index(q', BackSlot(q')) + 1 == Index(q, BackSlot(q))
  {
    assert LinkOk(q, q.backChunk);
  }

  /** A whole unpush: back and end move back by one; the chunk that the end leaves is freed, no
      other, and the spare chunk stays. */
  lemma InvUnpush<T>(q: Queue<T>)
    requires Inv(q) && Settled(q) && Index(q, FrontSlot(q)) < Index(q, BackSlot(q))
    ensures var q' := Unpush(q);
      && Inv(q') && Settled(q') && Keeps(q, q') && q'.size == q.size
      && FrontSlot(q') == FrontSlot(q) && EndSlot(q') == BackSlot(q)
      && Index(q', BackSlot(q')) + 1 == Index(q, BackSlot(q))
      && Index(q', FrontSlot(q')) == Index(q, FrontSlot(q))
      && q'.spare == q.spare && q'.left == q.left
      && (if q.endPos > 0 then q'.heap == q.heap && q'.first == q.first
          else q'.heap.Keys == q.heap.Keys - {q.endChunk} && q'.first.Keys == q.first.Keys - {q.endChunk})
  {
    InvStepBack(q);
    UnpushIsDefined(q);
    var q1 := StepBack(q);
    CoreFrame(q, q1);
    if q1.endPos > 0 {
      CoreFrame(q, q1.(endPos := q1.endPos - 1));
    } else {
      InvRetract(q1);
      KeepsSame(q, q1, Retract(q1));
    }
    AddressIsPosition(q, EndSlot(Unpush(q)), BackSlot(q));
  }

  // ---------------------------------------------------------------- pop

  ghost predicate Leavable<T>(q: Queue<T>) {
    q.beginChunk in q.heap && q.heap[q.beginChunk].next in q.heap
  }

  /** The front chunk is used up: the front moves to the next one. */
  function Leave<T>(q: Queue<T>): Queue<T>
    requires Leavable(q)
  {
    var o := q.beginChunk;
    var b := q.heap[o].next;
    q.(beginChunk := b, beginPos := 0, left := o, first := q.first - {o}, heap := q.heap[b := q.heap[b].(prev := 0)])
  }

  /** The exchange of the spare chunk for the one that was left. */
  function Swap<T>(q: Queue<T>): Queue<T> {
    q.(spare := q.left, left := q.spare)
  }

  /** The chunk that was spare is freed. */
  function Drop<T>(q: Queue<T>): Queue<T> {
    q.(heap := q.heap - Held(q.left), left := 0)
  }

  /** The front moves on by one, as far as nobody else can notice. */
  function StepFront<T>(q: Queue<T>): Queue<T>
    requires Inv(q) && Index(q, FrontSlot(q)) < Index(q, BackSlot(q))
  {
    var q1 := q.(beginPos := q.beginPos + 1);
    if q1.beginPos != q.size then q1
    else
      PopIsDefined(q);
      Leave(q1)
  }

  function Pop<T>(q: Queue<T>): Queue<T>
    requires Inv(q) && Index(q, FrontSlot(q)) < Index(q, BackSlot(q))
  {
    if q.beginPos + 1 != q.size then StepFront(q) else Drop(Swap(StepFront(q)))
  }

  lemma PopIsDefined<T>(q: Queue<T>)
    requires Inv(q) && Index(q, FrontSlot(q)) < Index(q, BackSlot(q)) && q.beginPos + 1 == q.size
    ensures Leavable(q) && q.beginChunk != q.endChunk
  {
    assert LinkOk(q, q.beginChunk) && LinkOk(q, q.backChunk);
  }

  lemma InvLeave<T>(q: Queue<T>)
    requires Sound(q) && q.endChunk != q.beginChunk && q.left == 0
    ensures Leavable(q) && Sound(Leave(q)) && Keeps(q, Leave(q))
    ensures var q' := Leave(q);
      && q'.beginChunk in q.first && q.first[q'.beginChunk] == q.first[q.beginChunk] + q.size
      && q'.heap.Keys == q.heap.Keys
  {
    LeaveDefined(q);
    ChainedLeave(q);
    OwnedLeave(q);
    var q' := Leave(q);
    forall c, d ensures ApartOk(q', c, d) { assert ApartOk(q, c, d); }
  }

  lemma LeaveDefined<T>(q: Queue<T>)
    requires Sound(q) && q.endChunk != q.beginChunk
    ensures Leavable(q)
    ensures var b := q.heap[q.beginChunk].next;
      b in q.first && q.first[b] == q.first[q.beginChunk] + q.size && LinkOk(q, b)
  {
    assert LinkOk(q, q.beginChunk);
    assert LinkOk(q, q.heap[q.beginChunk].next);
  }

  lemma ChainedLeave<T>(q: Queue<T>)
    requires Sound(q) && Leavable(q) && q.endChunk != q.beginChunk
    ensures Chained(Leave(q))
  {
    LeaveDefined(q);
    var o, b, q' := q.beginChunk, q.heap[q.beginChunk].next, Leave(q);
    forall c | c in q'.first ensures LinkOk(q', c) {
      assert LinkOk(q, c) && ApartOk(q, c, o) && ApartOk(q, c, b);
      assert c != q.endChunk ==> ApartOk(q, q.heap[c].next, o);
      assert c != b ==> ApartOk(q, q.heap[c].prev, o);
    }
  }

  lemma OwnedLeave<T>(q: Queue<T>)
    requires Sound(q) && Leavable(q) && q.endChunk != q.beginChunk && q.left == 0
    ensures Owned(Leave(q)) && Keeps(q, Leave(q))
  {
    LeaveDefined(q);
    hide Apart;
  }

  lemma InvStepFront<T>(q: Queue<T>)
    requires Inv(q) && Index(q, FrontSlot(q)) < Index(q, BackSlot(q)) && q.left == 0
    ensures var q' := StepFront(q);
      && Inv(q') && Keeps(q, q') && q'.size == q.size && q'.spare == q.spare && q'.made == q.made
      && BackSlot(q') == BackSlot(q) && EndSlot(q') == EndSlot(q)
      && Index(q', BackSlot(q')) == Index(q, BackSlot(q))
      && Index(q', FrontSlot(q')) == Index(q, FrontSlot(q)) + 1
      && q'.heap.Keys == q.heap.Keys
      && if q.beginPos + 1 < q.size then q'.heap == q.heap && q'.first == q.first && q'.left == 0
         else q'.first.Keys == q.first.Keys - {q.beginChunk} && q'.left == q.beginChunk != 0
  {
    hide Chained, Keeps, LinkOk;
    var q1 := q.(beginPos := q.beginPos + 1);
    CoreFrame(q, q1);
    if q1.beginPos == q.size {
      PopIsDefined(q);
      InvLeave(q1);
      KeepsSame(q, q1, Leave(q1));
      assert ApartOk(q, q.backChunk, q.beginChunk) && ApartOk(q, q.endChunk, q.beginChunk);
    }
  }

  lemma InvSwap<T>(q: Queue<T>)
    requires Inv(q)
    ensures Inv(Swap(q)) && Keeps(q, Swap(q))
  {
    HandsFrame(q, Swap(q));
  }

  lemma InvDrop<T>(q: Queue<T>)
    requires Inv(q)
    ensures Inv(Drop(q)) && Keeps(q, Drop(q)) && Drop(q).heap.Keys == q.heap.Keys - Held(q.left)
  {
    HandsFrame(q, Drop(q));
  }

  /** A whole pop: the front moves on by one; a chunk that is used up becomes the spare one, and the
      old spare chunk is freed, no other. */
  lemma InvPop<T>(q: Queue<T>)
    requires Inv(q) && Index(q, FrontSlot(q)) < Index(q, BackSlot(q)) && q.left == 0
    ensures var q' := Pop(q);
      && Inv(q') && Keeps(q, q') && q'.size == q.size && q'.made == q.made && q'.left == 0
      && BackSlot(q') == BackSlot(q) && EndSlot(q') == EndSlot(q)
      && Index(q', BackSlot(q')) == Index(q, BackSlot(q))
      && Index(q', FrontSlot(q')) == Index(q, FrontSlot(q)) + 1
      && if q.beginPos + 1 < q.size then q'.heap == q.heap && q'.first == q.first && q'.spare == q.spare
         else
           && q'.first.Keys == q.first.Keys - {q.beginChunk} && q'.spare == q.beginChunk
           && q'.heap.Keys == q.heap.Keys - Held(q.spare)
  {
    hide Apart, Chained, Owned, Keeps;
    InvStepFront(q);
    if q.beginPos + 1 == q.size {
      var q1 := StepFront(q);
      InvSwap(q1);
      InvDrop(Swap(q1));
      KeepsOver(q, q1, Drop(Swap(q1)));
    }
  }

  lemma KeepsOver<T>(q: Queue<T>, q1: Queue<T>, q2: Queue<T>)
    requires Keeps(q, q1) && q1.first == q2.first && Inv(q2)
    requires forall c :: c in q2.first ==> q2.heap[c] == q1.heap[c]
    ensures Keeps(q, q2)
  {
  }

  // ---------------------------------------------------------------- values

  function ValueAt<T>(q: Queue<T>, s: Slot): T
    requires s.chunk in q.heap && s.pos < |q.heap[s.chunk].values|
  {
    q.heap[s.chunk].values[s.pos]
  }

  /** Storing through the back slot. */
  function StoreBack<T>(q: Queue<T>, v: T): Queue<T>
    requires q.backChunk in q.heap && q.backPos < |q.heap[q.backChunk].values|
  {
    var c := q.heap[q.backChunk];
    q.(heap := q.heap[q.backChunk := c.(values := c.values[q.backPos := v])])
  }

  lemma InvStoreBack<T>(q: Queue<T>, v: T)
    requires Inv(q)
    ensures q.backChunk in q.heap && q.backPos < |q.heap[q.backChunk].values|
    ensures var q' := StoreBack(q, v);
      && Inv(q') && q' == q.(heap := q'.heap) && q'.heap.Keys == q.heap.Keys
      && (forall s :: InChunks(q, s) ==>
            ValueAt(q', s) == if s == BackSlot(q) then v else ValueAt(q, s))
  {
    var q' := StoreBack(q, v);
    forall c | c in q'.first ensures LinkOk(q', c) { assert LinkOk(q, c); }
    forall c, d ensures ApartOk(q', c, d) { assert ApartOk(q, c, d); }
  }

  // ---------------------------------------------------------------- the beginning and the end

  /** A new queue after its first push. */
  function Create<T>(size: nat, m: Malloc<T>, m1: Malloc<T>): Queue<T> {
    var q := Queue(size, map[m.address := m.contents], m.address, 0, 0, 0, m.address, 0, 0,
                   0, 0, map[m.address := 0]);
    Push(q, m1)
  }

  lemma InvCreate<T>(size: nat, m: Malloc<T>, m1: Malloc<T>)
    requires size > 0 && m.address != 0 && |m.contents.values| == size
    requires m1.address != 0 && m1.address != m.address && |m1.contents.values| == size
    ensures var q := Create(size, m, m1);
      && Inv(q) && Settled(q) && q.size == size && q.spare == 0 && q.left == 0
      && FrontSlot(q) == BackSlot(q) && Index(q, FrontSlot(q)) == 0
      && q.heap.Keys == if size == 1 then {m.address, m1.address} else {m.address}
  {
    var q := Queue(size, map[m.address := m.contents], m.address, 0, m.address, 0, m.address, 1, 0,
                   0, 0, map[m.address := 0]);
    assert Sound(q);
    if size == 1 {
      InvTake(q, m1);
      InvLink(Take(q, m1));
    }
  }

  /** The destructor's loop: free the chunks one by one. */
  function FreeChain<T>(q: Queue<T>): map<Ptr, Chunk<T>>
    requires Sound(q)
    decreases q.first.Keys
  {
    if q.beginChunk == q.endChunk then q.heap - {q.beginChunk}
    else
      FreeOneSound(q);
      FreeChain(FreeOne(q))
  }

  /** The whole destructor: the loop, then the spare chunk. */
  function Destroyed<T>(q: Queue<T>): map<Ptr, Chunk<T>>
    requires Sound(q)
  {
    FreeChain(q) - Held(q.spare)
  }

  /** One round of that loop: `begin` moves on and the chunk it left is freed. */
  function FreeOne<T>(q: Queue<T>): Queue<T>
    requires q.beginChunk in q.heap
  {
    q.(beginChunk := q.heap[q.beginChunk].next, heap := q.heap - {q.beginChunk},
       first := q.first - {q.beginChunk})
  }

  lemma FreeOneSound<T>(q: Queue<T>)
    requires Sound(q) && q.beginChunk != q.endChunk
    ensures Sound(FreeOne(q)) && q.spare !in q.first && q.beginChunk in q.heap
  {
    var b := q.heap[q.beginChunk].next;
    assert LinkOk(q, q.beginChunk) && LinkOk(q, b) && LinkOk(q, q.endChunk);
    var q' := FreeOne(q);
    forall c | c in q'.first ensures LinkOk(q', c) {
      assert LinkOk(q, c);
      assert ApartOk(q, c, q.beginChunk) && ApartOk(q, c, b);
      assert c != q.endChunk ==> ApartOk(q, q.heap[c].next, q.beginChunk);
      assert c != b ==> ApartOk(q, q.heap[c].prev, q.beginChunk);
    }
    forall c, d ensures ApartOk(q', c, d) { assert ApartOk(q, c, d); }
  }

  /** The loop frees every linked chunk, each of them once, and no other. */
  lemma {:induction false} LoopFreesLinked<T>(q: Queue<T>)
    requires Sound(q)
    ensures FreeChain(q).Keys == q.heap.Keys - q.first.Keys
    decreases q.first.Keys
  {
    if q.beginChunk == q.endChunk {
      forall c | c in q.first ensures c == q.beginChunk {
        assert LinkOk(q, c) && ApartOk(q, c, q.beginChunk);
      }
    } else {
      FreeOneSound(q);
      LoopFreesLinked(FreeOne(q));
    }
  }

  /** With no operation in progress the destructor leaves nothing: it frees every linked chunk once
      and then the spare one, which is still in memory. */
  lemma DestructorFreesAll<T>(q: Queue<T>)
    requires Sound(q) && q.made == 0 && q.left == 0
    ensures Held(q.spare) <= FreeChain(q).Keys && Destroyed(q) == map[]
  {
    LoopFreesLinked(q);
  }
}

/** The pipe as it lies in memory: four pointers into the chunk queue, compared as addresses.
    Every operation does to the memory what `Pipe` says in positions. */
module PipeMemory {
  import opened Wrappers
  import opened ChunkQueue
  import Pipe

  /** Where the reader stands in a pop that uses up a chunk: `Leaving` it has the chunk it left,
      `Dropping` the one that was spare before. */
  datatype Popping = Still | Leaving | Dropping

  /** `growing` says that the writer is in a push that has to link another chunk, and whether the
      value is incomplete.  `read` is history: the values handed to the reader. */
  datatype State<T> = State(
    queue: Queue<T>,
    w: Slot,
    r: Option<Slot>,
    f: Slot,
    c: Option<Slot>,
    storing: bool,
    growing: Option<bool>,
    popping: Popping,
    read: seq<T>
  )

  // ---------------------------------------------------------------- the operations

  function Create<T>(size: nat, m: Malloc<T>, m1: Malloc<T>): State<T> {
    var q := ChunkQueue.Create(size, m, m1);
    var b := BackSlot(q);
    State(q, b, Some(b), b, Some(b), false, None, Still, [])
  }

  /** A write up to the exchange of the spare chunk, or to its end if no chunk is needed. */
  function BeginWrite<T>(p: State<T>, v: T, incomplete: bool): State<T>
    requires Inv(p.queue)
  {
    var p1 := p.(queue := Advance(StoreBack(p.queue, v)));
    if p1.queue.endPos == p1.queue.size then p1.(growing := Some(incomplete)) else EndWrite(p1, incomplete)
  }

  /** The exchange. */
  function TakeChunk<T>(p: State<T>, m: Malloc<T>): State<T> {
    p.(queue := Take(p.queue, m))
  }

  /** The new chunk is linked and the write comes to its end. */
  function LinkChunk<T>(p: State<T>): State<T>
    requires Inv(p.queue) && p.queue.made != 0 && p.growing.Some?
  {
    EndWrite(p.(queue := Link(p.queue)), p.growing.value)
  }

  function EndWrite<T>(p: State<T>, incomplete: bool): State<T> {
    p.(growing := None, f := if incomplete then p.f else BackSlot(p.queue))
  }

  /** A whole write with nothing in between. */
  function Write<T>(p: State<T>, v: T, incomplete: bool, m: Malloc<T>): State<T>
    requires Inv(p.queue) && Settled(p.queue)
  {
    InvStoreBack(p.queue, v);
    var p1 := p.(queue := Push(StoreBack(p.queue, v), m));
    EndWrite(p1, incomplete)
  }

  function Unwrite<T>(p: State<T>): (State<T>, Option<T>)
    requires Inv(p.queue) && Settled(p.queue)
    requires p.f != BackSlot(p.queue) ==> Index(p.queue, FrontSlot(p.queue)) < Index(p.queue, BackSlot(p.queue))
  {
    if p.f == BackSlot(p.queue) then (p, None)
    else
      InvUnpush(p.queue);
      var q := Unpush(p.queue);
      (p.(queue := q), Some(ValueAt(q, BackSlot(q))))
  }

  function FlushExchange<T>(p: State<T>): (State<T>, Option<bool>) {
    if p.w == p.f then (p, Some(true))
    else if p.c == Some(p.w) then (p.(c := Some(p.f), w := p.f), Some(true))
    else (p.(storing := true), None)
  }

  function FlushStore<T>(p: State<T>): State<T> {
    p.(c := Some(p.f), w := p.f, storing := false)
  }

  function CheckRead<T>(p: State<T>): (State<T>, bool) {
    var front := FrontSlot(p.queue);
    if p.r.Some? && p.r.value != front then (p, true)
    else
      var s := p.(r := p.c, c := if p.c == Some(front) then None else p.c);
      (s, !(s.r == Some(front) || s.r.None?))
  }

  /** A read up to the exchange of the spare chunk, or to its end if no chunk is left. */
  function BeginRead<T>(p: State<T>): (State<T>, Option<T>)
    requires Inv(p.queue)
    requires CheckRead(p).1 ==> Index(p.queue, FrontSlot(p.queue)) < Index(p.queue, BackSlot(p.queue))
  {
    var (s, ok) := CheckRead(p);
    if !ok then (s, None)
    else
      (TakeFront(s), Some(ValueAt(s.queue, FrontSlot(s.queue))))
  }

  function TakeFront<T>(p: State<T>): State<T>
    requires Inv(p.queue) && Index(p.queue, FrontSlot(p.queue)) < Index(p.queue, BackSlot(p.queue))
  {
    var v := ValueAt(p.queue, FrontSlot(p.queue));
    var p1 := p.(queue := StepFront(p.queue), read := p.read + [v]);
    if p.queue.beginPos + 1 == p.queue.size then p1.(popping := Leaving) else p1
  }

  /** The exchange; the old spare chunk, if there was one, is still to be freed. */
  function SwapChunk<T>(p: State<T>): State<T> {
    p.(queue := Swap(p.queue), popping := if p.queue.spare == 0 then Still else Dropping)
  }

  function DropChunk<T>(p: State<T>): State<T> {
    p.(queue := Drop(p.queue), popping := Still)
  }

  /** A whole read with nothing in between. */
  function Read<T>(p: State<T>): (State<T>, Option<T>)
    requires Inv(p.queue)
    requires CheckRead(p).1 ==> Index(p.queue, FrontSlot(p.queue)) < Index(p.queue, BackSlot(p.queue))
  {
    var (s, ok) := CheckRead(p);
    if !ok then (s, None)
    else
      var v := ValueAt(s.queue, FrontSlot(s.queue));
      (s.(queue := Pop(s.queue), read := s.read + [v]), Some(v))
  }

  // ---------------------------------------------------------------- memory and positions

  /** The slot lies in the window from front to back and is the one of position k. */
  ghost predicate At<T>(q: Queue<T>, s: Slot, k: nat) {
    && InChunks(q, s) && q.beginChunk in q.first && q.backChunk in q.first
    && Index(q, s) == k && Index(q, FrontSlot(q)) <= k <= Index(q, BackSlot(q))
  }

  ghost predicate AtOption<T>(q: Queue<T>, s: Option<Slot>, k: Option<nat>) {
    match s
    case None => k.None?
    case Some(slot) => k.Some? && At(q, slot, k.value)
  }

  ghost predicate ValueOk<T>(q: Queue<T>, s: Slot, items: seq<T>) {
    InChunks(q, s) && q.beginChunk in q.first && Index(q, FrontSlot(q)) <= Index(q, s) < |items| ==>
      s.chunk in q.heap && s.pos < |q.heap[s.chunk].values| && ValueAt(q, s) == items[Index(q, s)]
  }

  ghost predicate Holds<T>(q: Queue<T>, items: seq<T>) {
    forall s :: ValueOk(q, s, items)
  }

  /** What the queue looks like while writer and reader are in the middle of something. */
  ghost predicate Busy<T>(p: State<T>) {
    && (p.growing.None? ==> Settled(p.queue))
    && (p.growing.Some? ==> p.queue.endPos == p.queue.size && !p.storing)
    && (p.popping.Still? <==> p.queue.left == 0)
  }

  /** The memory stands for the abstract pipe: each pointer that is not null points into the
      live window, at the position of its counterpart.  Only `f` lags behind while a complete
      value is being written. */
  ghost predicate Stands<T>(p: State<T>, a: Pipe.Pipe<T>) {
    && Inv(p.queue) && Pipe.Inv(a) && Busy(p) && p.storing == a.storing && p.read == a.read
    && At(p.queue, FrontSlot(p.queue), a.front) && At(p.queue, BackSlot(p.queue), |a.items|)
    && At(p.queue, p.w, a.w)
    && (if p.growing == Some(false) then a.f == |a.items| else At(p.queue, p.f, a.f))
    && AtOption(p.queue, p.r, a.r) && AtOption(p.queue, p.c, a.c)
    && Holds(p.queue, a.items)
  }

  /** Comparing pointers is comparing positions. */
  lemma SameSlot<T>(q: Queue<T>, s: Slot, t: Slot, j: nat, k: nat)
    requires Inv(q) && At(q, s, j) && At(q, t, k)
    ensures s == t <==> j == k
  {
    AddressIsPosition(q, s, t);
  }

  lemma CreateStands<T>(size: nat, m: Malloc<T>, m1: Malloc<T>)
    requires size > 0 && m.address != 0 && |m.contents.values| == size
    requires m1.address != 0 && m1.address != m.address && |m1.contents.values| == size
    ensures Stands(Create(size, m, m1), Pipe.Empty())
  {
    InvCreate(size, m, m1);
    var p := Create(size, m, m1);
    forall s ensures ValueOk(p.queue, s, []) {}
  }

  /** Slots that stay in the window stay where they are, and so do the values. */
  ghost predicate Undisturbed<T>(q: Queue<T>, q': Queue<T>) {
    && Inv(q) && Inv(q') && Keeps(q, q') && q'.size == q.size
    && Index(q, FrontSlot(q)) <= Index(q', FrontSlot(q')) && Index(q', BackSlot(q')) <= Index(q, BackSlot(q)) + 1
    && (forall c :: c in q.first && c !in q'.first ==> Outside(q, q', c))
    && (forall c :: c in q'.first && c !in q.first ==> q'.first[c] > Index(q, BackSlot(q)))
  }

  /** The chunk lies wholly before the new front or after the new back. */
  ghost predicate Outside<T>(q: Queue<T>, q': Queue<T>, c: Ptr) {
    c in q.first && Inv(q') ==>
      q.first[c] + q.size <= Index(q', FrontSlot(q')) || Index(q', BackSlot(q')) < q.first[c]
  }

  lemma Stays<T>(q: Queue<T>, q': Queue<T>, s: Slot, k: nat)
    requires Undisturbed(q, q') && At(q, s, k)
    requires Index(q', FrontSlot(q')) <= k <= Index(q', BackSlot(q'))
    ensures At(q', s, k)
  {
    assert Outside(q, q', s.chunk) || s.chunk in q'.first;
  }

  lemma HoldsOn<T>(q: Queue<T>, q': Queue<T>, items: seq<T>)
    requires Undisturbed(q, q') && Holds(q, items) && |items| <= Index(q, BackSlot(q)) + 1
    ensures Holds(q', items)
  {
    forall s ensures ValueOk(q', s, items) {
      assert ValueOk(q, s, items);
    }
  }

  /** A position of the abstract pipe is in the window. */
  ghost predicate Within<T>(q: Queue<T>, k: nat)
    requires Inv(q)
  {
    Index(q, FrontSlot(q)) <= k <= Index(q, BackSlot(q))
  }

  ghost predicate AllWithin<T>(q: Queue<T>, a: Pipe.Pipe<T>)
    requires Inv(q)
  {
    && Within(q, a.w) && Within(q, a.f)
    && (a.r.Some? ==> Within(q, a.r.value)) && (a.c.Some? ==> Within(q, a.c.value))
  }

  /** Pointers to what is still in the window still point there. */
  lemma PointersStay<T>(p: State<T>, q': Queue<T>, a: Pipe.Pipe<T>)
    requires Stands(p, a) && Undisturbed(p.queue, q') && AllWithin(q', a)
    ensures At(q', FrontSlot(q'), Index(q', FrontSlot(q'))) && At(q', BackSlot(q'), Index(q', BackSlot(q')))
    ensures At(q', p.w, a.w) && (p.growing != Some(false) ==> At(q', p.f, a.f))
    ensures AtOption(q', p.r, a.r) && AtOption(q', p.c, a.c)
  {
    hide Sound, Keeps, Pipe.Inv, Holds, Busy, Outside;
    var q := p.queue;
    Stays(q, q', p.w, a.w);
    if p.growing != Some(false) { Stays(q, q', p.f, a.f); }
    if p.r.Some? { Stays(q, q', p.r.value, a.r.value); }
    if p.c.Some? { Stays(q, q', p.c.value, a.c.value); }
  }

  // ---------------------------------------------------------------- the writer

  lemma StoreBackStands<T>(p: State<T>, a: Pipe.Pipe<T>, v: T)
    requires Stands(p, a)
    ensures p.queue.backChunk in p.queue.heap && p.queue.backPos < |p.queue.heap[p.queue.backChunk].values|
    ensures var q := StoreBack(p.queue, v);
      && Inv(p.queue) && Inv(q) && (p.growing.None? ==> Settled(p.queue) && Settled(q)) && Stands(p.(queue := q), a)
          && Holds(q, a.items + [v])
      && forall m :: Obtainable(p.queue, m) ==> Obtainable(q, m)
  {
    hide Sound, Holds, StoreBack;
    InvStoreBack(p.queue, v);
    StoreBackHolds(p.queue, a.items, v);
  }

  lemma StoreBackHolds<T>(q: Queue<T>, items: seq<T>, v: T)
    requires Inv(q) && Holds(q, items) && |items| == Index(q, BackSlot(q))
    ensures var q' := StoreBack(q, v); Holds(q', items) && Holds(q', items + [v])
  {
    InvStoreBack(q, v);
    var q' := StoreBack(q, v);
    hide StoreBack;
    forall s ensures ValueOk(q', s, items) && ValueOk(q', s, items + [v]) {
      assert ValueOk(q, s, items);
      if InChunks(q, s) { AddressIsPosition(q, s, BackSlot(q)); }
    }
  }

  lemma AdvanceDisturbsNothing<T>(q: Queue<T>)
    requires Inv(q) && Settled(q)
    ensures Undisturbed(q, Advance(q))
  {
    InvAdvance(q);
  }

  lemma BeginWriteStands<T>(p: State<T>, a: Pipe.Pipe<T>, v: T, incomplete: bool)
    requires Stands(p, a) && !p.storing && p.growing.None?
    ensures Stands(BeginWrite(p, v, incomplete), Pipe.Write(a, v, incomplete))
  {
    hide Sound, Keeps, Holds, Undisturbed, StoreBack;
    StoreBackStands(p, a, v);
    InvStoreBack(p.queue, v);
    var q := StoreBack(p.queue, v);
    AdvanceDisturbsNothing(q);
    InvAdvance(q);
    HoldsOn(q, Advance(q), a.items + [v]);
    PointersStay(p.(queue := q), Advance(q), a);
    Pipe.InvStep(a, Pipe.DoWrite(v, incomplete));
  }

  lemma TakeStands<T>(p: State<T>, a: Pipe.Pipe<T>, m: Malloc<T>)
    requires Stands(p, a) && p.growing.Some? && p.queue.made == 0 && (p.queue.spare == 0 ==> Obtainable(p.queue, m))
    ensures Stands(TakeChunk(p, m), a) && TakeChunk(p, m).queue.made != 0
  {
    var q, q' := p.queue, Take(p.queue, m);
    InvTake(q, m);
    assert Undisturbed(q, q');
    HoldsOn(q, q', a.items);
    PointersStay(p, q', a);
  }

  lemma LinkStands<T>(p: State<T>, a: Pipe.Pipe<T>)
    requires Stands(p, a) && p.growing.Some? && p.queue.made != 0
    ensures Stands(LinkChunk(p), a) && LinkChunk(p).growing.None?
  {
    var q, q' := p.queue, Link(p.queue);
    InvLink(q);
    assert Undisturbed(q, q');
    HoldsOn(q, q', a.items);
    PointersStay(p, q', a);
  }

  lemma WriteStands<T>(p: State<T>, a: Pipe.Pipe<T>, v: T, incomplete: bool, m: Malloc<T>)
    requires Stands(p, a) && Obtainable(p.queue, m) && !a.storing && p.growing.None?
    ensures Stands(Write(p, v, incomplete, m), Pipe.Write(a, v, incomplete))
  {
    var a' := Pipe.Write(a, v, incomplete);
    BeginWriteStands(p, a, v, incomplete);
    StoreBackStands(p, a, v);
    var p1 := BeginWrite(p, v, incomplete);
    hide Inv, Pipe.Inv, Holds, At, AtOption, Link;
    if p1.growing.Some? {
      TakeStands(p1, a', m);
      LinkStands(TakeChunk(p1, m), a');
    }
  }

  lemma UnpushDisturbsNothing<T>(q: Queue<T>)
    requires Inv(q) && Settled(q) && Index(q, FrontSlot(q)) < Index(q, BackSlot(q))
    ensures Undisturbed(q, Unpush(q))
  {
    InvUnpush(q);
    hide Sound, Unpush, Keeps;
  }

  lemma UnpushHolds<T>(q: Queue<T>, items: seq<T>)
    requires Inv(q) && Settled(q) && Index(q, FrontSlot(q)) < Index(q, BackSlot(q)) && Holds(q, items)
    requires |items| == Index(q, BackSlot(q))
    ensures var q', n := Unpush(q), |items| - 1;
      && BackSlot(q').chunk in q'.heap && BackSlot(q').pos < |q'.heap[BackSlot(q').chunk].values|
      && Holds(q', items[..n]) && ValueAt(q', BackSlot(q')) == items[n]
  {
    InvUnpush(q);
    var q', kept := Unpush(q), items[..|items| - 1];
    UnpushDisturbsNothing(q);
    HoldsOn(q, q', items);
    hide Sound, Unpush, Keeps, Undisturbed;
    forall s ensures ValueOk(q', s, kept) { assert ValueOk(q', s, items); }
    assert ValueOk(q', BackSlot(q'), items);
  }

  lemma UnwriteStands<T>(p: State<T>, a: Pipe.Pipe<T>)
    requires Stands(p, a) && !a.storing && p.growing.None?
    ensures Inv(p.queue) && Settled(p.queue)
    ensures p.f != BackSlot(p.queue) ==>
      && Index(p.queue, FrontSlot(p.queue)) < Index(p.queue, BackSlot(p.queue))
      && var q := Unpush(p.queue);
         q.backChunk in q.heap && q.backPos < |q.heap[q.backChunk].values|
    ensures Stands(Unwrite(p).0, Pipe.Unwrite(a).0) && Unwrite(p).1 == Pipe.Unwrite(a).1
  {
    hide Sound, Holds, Undisturbed, Keeps, Unpush, ValueAt;
    SameSlot(p.queue, p.f, BackSlot(p.queue), a.f, |a.items|);
    if p.f != BackSlot(p.queue) {
      Pipe.InvStep(a, Pipe.DoUnwrite);
      InvUnpush(p.queue);
      UnpushDisturbsNothing(p.queue);
      UnpushHolds(p.queue, a.items);
      PointersStay(p, Unpush(p.queue), a);
    }
  }

  lemma FlushStands<T>(p: State<T>, a: Pipe.Pipe<T>)
    requires Stands(p, a) && p.growing.None?
    ensures !a.storing ==>
      Stands(FlushExchange(p).0, Pipe.FlushExchange(a).0) && FlushExchange(p).1 == Pipe.FlushExchange(a).1
    ensures a.storing ==> Stands(FlushStore(p), Pipe.FlushStore(a))
  {
    SameSlot(p.queue, p.w, p.f, a.w, a.f);
    if p.c.Some? { SameSlot(p.queue, p.c.value, p.w, a.c.value, a.w); }
    if a.storing {
      Pipe.InvStep(a, Pipe.DoFlushStore);
    } else {
      Pipe.InvStep(a, Pipe.DoFlushExchange);
    }
  }

  // ---------------------------------------------------------------- the reader

  lemma CheckReadStands<T>(p: State<T>, a: Pipe.Pipe<T>)
    requires Stands(p, a)
    ensures Stands(CheckRead(p).0, Pipe.CheckRead(a).0) && CheckRead(p).1 == Pipe.CheckRead(a).1
    ensures CheckRead(p).0.queue == p.queue
  {
    var front := FrontSlot(p.queue);
    if p.r.Some? { SameSlot(p.queue, p.r.value, front, a.r.value, a.front); }
    if p.c.Some? { SameSlot(p.queue, p.c.value, front, a.c.value, a.front); }
    Pipe.InvStep(a, Pipe.DoCheckRead);
  }

  lemma StepFrontDisturbsNothing<T>(q: Queue<T>)
    requires Inv(q) && Index(q, FrontSlot(q)) < Index(q, BackSlot(q)) && q.left == 0
    ensures Undisturbed(q, StepFront(q))
  {
    InvStepFront(q);
    hide Sound, StepFront, Keeps;
  }

  lemma FrontValue<T>(q: Queue<T>, items: seq<T>)
    requires Inv(q) && Holds(q, items) && Index(q, FrontSlot(q)) < |items|
    ensures var s := FrontSlot(q);
      s.chunk in q.heap && s.pos < |q.heap[s.chunk].values| && ValueAt(q, s) == items[Index(q, s)]
  {
    assert ValueOk(q, FrontSlot(q), items);
  }

  lemma TakeFrontStands<T>(p: State<T>, a: Pipe.Pipe<T>, a': Pipe.Pipe<T>)
    requires Stands(p, a) && p.popping.Still? && a.front < a.w
    requires (a.r.Some? ==> a.front < a.r.value) && (a.c.Some? ==> a.front < a.c.value)
    requires Pipe.Inv(a') && a' == a.(front := a.front + 1, read := a.read + [a.items[a.front]])
    ensures Index(p.queue, FrontSlot(p.queue)) < Index(p.queue, BackSlot(p.queue))
    ensures Stands(TakeFront(p), a')
  {
    hide Sound, Keeps, Holds, StepFront, Undisturbed;
    var q := p.queue;
    InvStepFront(q);
    StepFrontDisturbsNothing(q);
    FrontValue(q, a.items);
    HoldsOn(q, StepFront(q), a.items);
    PointersStay(p, StepFront(q), a);
  }

  lemma BeginReadStands<T>(p: State<T>, a: Pipe.Pipe<T>)
    requires Stands(p, a) && p.popping.Still?
    ensures CheckRead(p).1 ==>
      Index(p.queue, FrontSlot(p.queue)) < Index(p.queue, BackSlot(p.queue))
    ensures Stands(BeginRead(p).0, Pipe.Read(a).0) && BeginRead(p).1 == Pipe.Read(a).1
  {
    hide Sound, Holds, TakeFront;
    CheckReadStands(p, a);
    Pipe.LookFindsFlushed(a);
    if CheckRead(p).1 {
      Pipe.InvStep(a, Pipe.DoRead);
      FrontValue(p.queue, a.items);
      TakeFrontStands(CheckRead(p).0, Pipe.CheckRead(a).0, Pipe.Read(a).0);
    }
  }

  lemma SwapStands<T>(p: State<T>, a: Pipe.Pipe<T>)
    requires Stands(p, a) && p.popping.Leaving?
    ensures Stands(SwapChunk(p), a)
  {
    var q, q' := p.queue, Swap(p.queue);
    InvSwap(q);
    assert Undisturbed(q, q');
    HoldsOn(q, q', a.items);
    PointersStay(p, q', a);
  }

  lemma DropStands<T>(p: State<T>, a: Pipe.Pipe<T>)
    requires Stands(p, a) && p.popping.Dropping?
    ensures Stands(DropChunk(p), a) && DropChunk(p).popping.Still?
  {
    var q, q' := p.queue, Drop(p.queue);
    InvDrop(q);
    assert Undisturbed(q, q');
    HoldsOn(q, q', a.items);
    PointersStay(p, q', a);
  }

  lemma ReadStands<T>(p: State<T>, a: Pipe.Pipe<T>)
    requires Stands(p, a) && p.popping.Still?
    ensures CheckRead(p).1 ==>
      Index(p.queue, FrontSlot(p.queue)) < Index(p.queue, BackSlot(p.queue))
    ensures Stands(Read(p).0, Pipe.Read(a).0) && Read(p).1 == Pipe.Read(a).1
  {
    hide Sound, Pipe.Inv, Holds, At, AtOption, StepFront, ValueAt;
    var a' := Pipe.Read(a).0;
    BeginReadStands(p, a);
    var p1 := BeginRead(p).0;
    if p1.popping.Leaving? {
      SwapStands(p1, a');
      assert p1.queue.heap - {} == p1.queue.heap;
      if SwapChunk(p1).popping.Dropping? { DropStands(SwapChunk(p1), a'); }
    }
  }

  // ---------------------------------------------------------------- runs

  /** One step of the writer or the reader; between two of them the other side may do anything.  A
      write or read goes up to its exchange of the spare chunk; the exchange and what follows it are
      steps of their own. */
  datatype Step<T> =
    | Call(step: Pipe.Step<T>)
    | ExchangeForNull(m: Malloc<T>)
    | LinkIt
    | ExchangeForLeft
    | FreeIt

  /** Writer and reader each do one thing after the other. */
  predicate Enabled<T>(p: State<T>, x: Step<T>) {
    match x
    case Call(step) =>
      (match step
       case DoFlushStore => p.storing
       case DoCheckRead => p.popping.Still?
       case DoRead => p.popping.Still?
       case _ => !p.storing && p.growing.None?)
    case ExchangeForNull(_) => p.growing.Some? && p.queue.made == 0
    case LinkIt => p.growing.Some? && p.queue.made != 0
    case ExchangeForLeft => p.popping.Leaving?
    case FreeIt => p.popping.Dropping?
  }

  function Apply<T>(p: State<T>, ghost a: Pipe.Pipe<T>, x: Step<T>): State<T>
    requires Stands(p, a)
  {
    if !Enabled(p, x) then p
    else
      match x
      case Call(step) => ApplyCall(p, a, step)
      case ExchangeForNull(m) => TakeChunk(p, m)
      case LinkIt => LinkChunk(p)
      case ExchangeForLeft => SwapChunk(p)
      case FreeIt => DropChunk(p)
  }

  function ApplyCall<T>(p: State<T>, ghost a: Pipe.Pipe<T>, step: Pipe.Step<T>): State<T>
    requires Stands(p, a) && Enabled(p, Call(step))
  {
    match step
    case DoWrite(v, incomplete) => BeginWrite(p, v, incomplete)
    case DoUnwrite =>
      UnwriteStands(p, a);
      Unwrite(p).0
    case DoFlushExchange => FlushExchange(p).0
    case DoFlushStore => FlushStore(p)
    case DoCheckRead => CheckRead(p).0
    case DoRead =>
      BeginReadStands(p, a);
      BeginRead(p).0
  }

  /** What malloc promises: if it is called, what it returns is not in use. */
  ghost predicate Served<T>(p: State<T>, x: Step<T>) {
    x.ExchangeForNull? && Enabled(p, x) && p.queue.spare == 0 ==> Obtainable(p.queue, x.m)
  }

  /** What the step is to the abstract pipe. */
  function Meaning<T>(p: State<T>, a: Pipe.Pipe<T>, x: Step<T>): Pipe.Pipe<T>
    requires Pipe.Inv(a)
  {
    if x.Call? && Enabled(p, x) then Pipe.Apply(a, x.step) else a
  }

  lemma StepStands<T>(p: State<T>, a: Pipe.Pipe<T>, x: Step<T>)
    requires Stands(p, a) && Served(p, x)
    ensures Stands(Apply(p, a, x), Meaning(p, a, x))
  {
    hide Sound, Holds, Inv, Pipe.Inv, At, AtOption, Obtainable;
    if Enabled(p, x) {
      match x
      case Call(step) => CallStands(p, a, step);
      case ExchangeForNull(m) => TakeStands(p, a, m);
      case LinkIt => LinkStands(p, a);
      case ExchangeForLeft => SwapStands(p, a);
      case FreeIt => DropStands(p, a);
    }
  }

  lemma CallStands<T>(p: State<T>, a: Pipe.Pipe<T>, step: Pipe.Step<T>)
    requires Stands(p, a) && Enabled(p, Call(step))
    ensures Stands(ApplyCall(p, a, step), Pipe.Apply(a, step))
  {
    hide Sound, Holds, Inv, Pipe.Inv, At, AtOption, Obtainable;
    match step
    case DoWrite(v, incomplete) => BeginWriteStands(p, a, v, incomplete);
    case DoUnwrite => UnwriteStands(p, a);
    case DoFlushExchange => FlushStands(p, a);
    case DoFlushStore => FlushStands(p, a);
    case DoCheckRead => CheckReadStands(p, a);
    case DoRead => BeginReadStands(p, a);
  }

  /** Malloc keeps its promise all through the schedule. */
  ghost predicate Servable<T>(p: State<T>, a: Pipe.Pipe<T>, schedule: seq<Step<T>>)
    requires Stands(p, a)
    decreases |schedule|
  {
    schedule == [] ||
    (&& Served(p, schedule[0])
     && (StepStands(p, a, schedule[0]);
         Servable(Apply(p, a, schedule[0]), Meaning(p, a, schedule[0]), schedule[1..])))
  }

  /** The memory after the schedule. */
  function Run<T>(p: State<T>, ghost a: Pipe.Pipe<T>, schedule: seq<Step<T>>): State<T>
    requires Stands(p, a) && Servable(p, a, schedule)
    decreases |schedule|
  {
    if schedule == [] then p
    else
      StepStands(p, a, schedule[0]);
      Run(Apply(p, a, schedule[0]), Meaning(p, a, schedule[0]), schedule[1..])
  }

  /** The calls that the schedule makes, in order. */
  ghost function Calls<T>(p: State<T>, a: Pipe.Pipe<T>, schedule: seq<Step<T>>): seq<Pipe.Step<T>>
    requires Stands(p, a) && Servable(p, a, schedule)
    decreases |schedule|
  {
    if schedule == [] then []
    else
      var x := schedule[0];
      StepStands(p, a, x);
      (if x.Call? && Enabled(p, x) then [x.step] else []) + Calls(Apply(p, a, x), Meaning(p, a, x), schedule[1..])
  }

  /** Whatever is interleaved, the memory stands for the pipe after the same calls. */
  lemma {:induction false} RunStands<T>(p: State<T>, a: Pipe.Pipe<T>, schedule: seq<Step<T>>)
    requires Stands(p, a) && Servable(p, a, schedule)
    ensures Stands(Run(p, a, schedule), Pipe.Run(a, Calls(p, a, schedule)))
    decreases |schedule|
  {
    hide Served, Apply, Inv, Pipe.Inv, At, AtOption, Holds, Busy, Pipe.Apply;
    if schedule != [] {
      var x := schedule[0];
      StepStands(p, a, x);
      RunStands(Apply(p, a, x), Meaning(p, a, x), schedule[1..]);
      var rest := Calls(Apply(p, a, x), Meaning(p, a, x), schedule[1..]);
      if x.Call? { assert ([x.step] + rest)[1..] == rest; }
      assert [] + rest == rest;
    }
  }

  /** What malloc gives for the first two chunks. */
  ghost predicate Obtained<T>(size: nat, m: Malloc<T>, m1: Malloc<T>) {
    && size > 0 && m.address != 0 && |m.contents.values| == size
    && m1.address != 0 && m1.address != m.address && |m1.contents.values| == size
  }

  ghost predicate ServableFromNew<T>(size: nat, m: Malloc<T>, m1: Malloc<T>, schedule: seq<Step<T>>)
    requires Obtained(size, m, m1)
  {
    CreateStands(size, m, m1);
    Servable(Create(size, m, m1), Pipe.Empty(), schedule)
  }

  /** For every interleaving of the memory steps of one writer and one reader, from creation:
      what the reader was handed is a prefix of what the writer had flushed; every pointer that the
      other side follows lies in the live window, so that no freed or recycled slot is reached; and
      whenever both are between operations the destructor frees exactly what is in memory. */
  lemma MemoryDeliversInOrder<T>(size: nat, m: Malloc<T>, m1: Malloc<T>, schedule: seq<Step<T>>)
    requires Obtained(size, m, m1) && ServableFromNew(size, m, m1, schedule)
    ensures Stands(Create(size, m, m1), Pipe.Empty())
    ensures var p0, p := Create(size, m, m1), Run(Create(size, m, m1), Pipe.Empty(), schedule);
      var a := Pipe.Run(Pipe.Empty(), Calls(p0, Pipe.Empty(), schedule));
      && p.read == a.items[..a.front] && a.front <= a.w <= |a.items|
      && Inv(p.queue)
      && InWindow(p.queue, p.w) && (p.growing.None? ==> InWindow(p.queue, p.f))
      && (p.r.Some? ==> InWindow(p.queue, p.r.value))
      && (p.c.Some? ==> InWindow(p.queue, p.c.value))
      && (p.growing.None? && p.popping.Still? ==> Destroyed(p.queue) == map[])
  {
    CreateStands(size, m, m1);
    RunStands(Create(size, m, m1), Pipe.Empty(), schedule);
    var p := Run(Create(size, m, m1), Pipe.Empty(), schedule);
    if p.growing.None? && p.popping.Still? { DestructorFreesAll(p.queue); }
  }

  ghost predicate InWindow<T>(q: Queue<T>, s: Slot) {
    && InChunks(q, s) && q.beginChunk in q.first && q.backChunk in q.first
    && Index(q, FrontSlot(q)) <= Index(q, s) <= Index(q, BackSlot(q))
  }

  // ---------------------------------------------------------------- every schedule can be served

  /** Some address is free, whatever is in use. */
  lemma {:induction false} FreeAddress(used: set<Ptr>) returns (n: Ptr)
    ensures n != 0 && forall p :: p in used ==> p < n
    decreases used
  {
    if used == {} {
      n := 1;
    } else {
      var p :| p in used;
      var rest := FreeAddress(used - {p});
      n := if p < rest then rest else p + 1;
      forall c | c in used ensures c < n { assert c == p || c in used - {p}; }
    }
  }

  /** The schedules differ in what malloc returns, and in nothing else. */
  predicate SameButMalloc<T(==)>(x: Step<T>, y: Step<T>) {
    x == y || (x.ExchangeForNull? && y.ExchangeForNull?)
  }

  /** No schedule is ruled out: malloc can serve every interleaving. */
  lemma {:induction false} EveryScheduleIsServable<T>(p: State<T>, a: Pipe.Pipe<T>, schedule: seq<Step<T>>)
    returns (served: seq<Step<T>>)
    requires Stands(p, a)
    ensures Servable(p, a, served) && |served| == |schedule|
    ensures forall i :: 0 <= i < |schedule| ==> SameButMalloc(schedule[i], served[i])
    decreases |schedule|
  {
    hide Inv, At, AtOption, Holds, Busy, Pipe.Inv, Apply, Meaning, Served;
    if schedule == [] {
      served := [];
    } else {
      var x := ServedStep(p, a, schedule[0]);
      StepStands(p, a, x);
      var rest := EveryScheduleIsServable(Apply(p, a, x), Meaning(p, a, x), schedule[1..]);
      served := [x] + rest;
      assert served[1..] == rest;
    }
  }

  lemma ServedStep<T>(p: State<T>, a: Pipe.Pipe<T>, x: Step<T>) returns (y: Step<T>)
    requires Stands(p, a)
    ensures Served(p, y) && SameButMalloc(x, y)
  {
    if x.ExchangeForNull? {
      var n := FreeAddress(p.queue.heap.Keys);
      y := ExchangeForNull(Malloc(n, p.queue.heap[p.queue.beginChunk]));
    } else {
      y := x;
    }
  }

  // ---------------------------------------------------------------- nobody is stuck

  /** The writer may begin any call it is not in the middle of, and the reader too: a call that has
      begun is cut short only where a chunk changes hands. */
  lemma SomethingIsEnabled<T>(p: State<T>, a: Pipe.Pipe<T>, step: Pipe.Step<T>, m: Malloc<T>)
    requires Stands(p, a)
    ensures if step.DoCheckRead? || step.DoRead? then
        Enabled(p, Call(step)) || Enabled(p, ExchangeForLeft) || Enabled(p, FreeIt)
      else if p.storing then Enabled(p, Call(Pipe.DoFlushStore))
      else step.DoFlushStore? || Enabled(p, Call(step)) || Enabled(p, ExchangeForNull(m)) || Enabled(p, LinkIt)
  {
  }

  /** A write that has to link a chunk is at its end two steps of the writer later, and the abstract
      pipe is no other for them. */
  lemma WriterFinishes<T>(p: State<T>, a: Pipe.Pipe<T>, m: Malloc<T>)
    requires Stands(p, a) && p.growing.Some? && Served(p, ExchangeForNull(m))
    ensures var q := Apply(p, a, ExchangeForNull(m));
      Stands(q, a) && Apply(q, a, LinkIt).growing.None? && Stands(Apply(q, a, LinkIt), a)
  {
    hide Stands;
    StepStands(p, a, ExchangeForNull(m));
    StepStands(Apply(p, a, ExchangeForNull(m)), a, LinkIt);
  }

  /** A read that uses up a chunk is at its end two steps of the reader later. */
  lemma ReaderFinishes<T>(p: State<T>, a: Pipe.Pipe<T>)
    requires Stands(p, a)
    ensures var q := Apply(p, a, ExchangeForLeft);
      Stands(q, a) && Apply(q, a, FreeIt).popping.Still? && Stands(Apply(q, a, FreeIt), a)
  {
    StepStands(p, a, ExchangeForLeft);
    StepStands(Apply(p, a, ExchangeForLeft), a, FreeIt);
  }
}

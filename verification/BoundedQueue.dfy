/** The bounded multi-producer multi-consumer queue: any number of threads, each call cut at
    its atomic accesses, every access one sequentially consistent step. */
module BoundedQueue {
  import opened Modular
  import opened Bits

  type ThreadId = nat

  /** Where a thread stands; a constructor is named after the access that comes next.
      `floor` remembers the shared counter as it was when the call began. */
  datatype Pc<T> =
    | Idle
    | PushLoadPos(value: T, floor: nat)
    | PushLoadSeq(value: T, floor: nat, pos: nat)
    | PushCas(value: T, floor: nat, pos: nat)
    | PushStoreData(value: T, floor: nat, pos: nat)
    | PushStoreSeq(value: T, floor: nat, pos: nat)
    | PopLoadPos(floor: nat)
    | PopLoadSeq(floor: nat, pos: nat)
    | PopCas(floor: nat, pos: nat)
    | PopLoadData(floor: nat, pos: nat)
    | PopStoreSeq(value: T, floor: nat, pos: nat)

  datatype PushClaim<T> = PushClaim(thread: ThreadId, pos: nat, value: T)
  datatype PopClaim = PopClaim(thread: ThreadId, pos: nat)
  datatype Delivery<T> = Delivery(thread: ThreadId, pos: nat, value: T)

  /** `sequence`, `data`, `enqueue` and `dequeue` are the queue's own memory.  The rest is
      history: `turn[i]` is the position cell i is serving, and the three logs record claims
      and deliveries in the order in which they happened. */
  datatype State<T> = State(
    cap: nat,
    sequence: seq<nat>,
    data: seq<T>,
    enqueue: nat,
    dequeue: nat,
    threads: map<ThreadId, Pc<T>>,
    turn: seq<nat>,
    pushes: seq<PushClaim<T>>,
    pops: seq<PopClaim>,
    deliveries: seq<Delivery<T>>
  )

  datatype Action<T> =
    | BeginPush(thread: ThreadId, value: T)
    | BeginPop(thread: ThreadId)
    | Advance(thread: ThreadId, spurious: bool)

  // ---------------------------------------------------------------- the step function

  function PcOf<T>(s: State<T>, t: ThreadId): Pc<T> {
    if t in s.threads then s.threads[t] else Idle
  }

  function Goto<T>(s: State<T>, t: ThreadId, pc: Pc<T>): State<T> {
    s.(threads := s.threads[t := pc])
  }

  ghost predicate Shape<T>(s: State<T>) {
    s.cap >= 2 && |s.sequence| == |s.data| == |s.turn| == s.cap
  }

  function Init<T>(cap: nat, garbage: seq<T>): State<T> {
    State(cap, seq(cap, i => i), garbage, 0, 0, map[], seq(cap, i => i), [], [], [])
  }

  /** The sequence load of a push: claim, give up, or read the counter again. */
  function AfterPushSeq<T>(s: State<T>, pc: Pc<T>): Pc<T>
    requires Shape(s) && pc.PushLoadSeq?
  {
    var dif := s.sequence[Cell(s.cap, pc.pos)] as int - pc.pos as int;
    if dif == 0 then PushCas(pc.value, pc.floor, pc.pos)
    else if dif < 0 then Idle
    else PushLoadPos(pc.value, pc.floor)
  }

  function AfterPopSeq<T>(s: State<T>, pc: Pc<T>): Pc<T>
    requires Shape(s) && pc.PopLoadSeq?
  {
    var dif := s.sequence[Cell(s.cap, pc.pos)] as int - (pc.pos + 1) as int;
    if dif == 0 then PopCas(pc.floor, pc.pos)
    else if dif < 0 then Idle
    else PopLoadPos(pc.floor)
  }

  /** A weak compare-exchange may fail although the value matches; a failure reloads `pos`. */
  function StepPushCas<T>(s: State<T>, t: ThreadId, pc: Pc<T>, spurious: bool): State<T>
    requires pc.PushCas?
  {
    if s.enqueue == pc.pos && !spurious then
      Goto(s, t, PushStoreData(pc.value, pc.floor, pc.pos)).(
        enqueue := pc.pos + 1,
        pushes := s.pushes + [PushClaim(t, pc.pos, pc.value)])
    else
      Goto(s, t, PushLoadSeq(pc.value, pc.floor, s.enqueue))
  }

  function StepPopCas<T>(s: State<T>, t: ThreadId, pc: Pc<T>, spurious: bool): State<T>
    requires pc.PopCas?
  {
    if s.dequeue == pc.pos && !spurious then
      Goto(s, t, PopLoadData(pc.floor, pc.pos)).(
        dequeue := pc.pos + 1,
        pops := s.pops + [PopClaim(t, pc.pos)])
    else
      Goto(s, t, PopLoadSeq(pc.floor, s.dequeue))
  }

  function StepPublish<T>(s: State<T>, t: ThreadId, pc: Pc<T>): State<T>
    requires Shape(s) && pc.PushStoreSeq?
  {
    Goto(s, t, Idle).(sequence := s.sequence[Cell(s.cap, pc.pos) := pc.pos + 1])
  }

  function StepRelease<T>(s: State<T>, t: ThreadId, pc: Pc<T>): State<T>
    requires Shape(s) && pc.PopStoreSeq?
  {
    var c := Cell(s.cap, pc.pos);
    Goto(s, t, Idle).(
      sequence := s.sequence[c := pc.pos + s.cap],
      turn := s.turn[c := pc.pos + s.cap],
      deliveries := s.deliveries + [Delivery(t, pc.pos, pc.value)])
  }

  function StepThread<T>(s: State<T>, t: ThreadId, spurious: bool): State<T>
    requires Shape(s)
  {
    var pc := PcOf(s, t);
    match pc
    case Idle => s
    case PushLoadPos(v, floor) => Goto(s, t, PushLoadSeq(v, floor, s.enqueue))
    case PushLoadSeq(v, floor, pos) => Goto(s, t, AfterPushSeq(s, pc))
    case PushCas(v, floor, pos) => StepPushCas(s, t, pc, spurious)
    case PushStoreData(v, floor, pos) =>
      Goto(s, t, PushStoreSeq(v, floor, pos)).(data := s.data[Cell(s.cap, pos) := v])
    case PushStoreSeq(v, floor, pos) => StepPublish(s, t, pc)
    case PopLoadPos(floor) => Goto(s, t, PopLoadSeq(floor, s.dequeue))
    case PopLoadSeq(floor, pos) => Goto(s, t, AfterPopSeq(s, pc))
    case PopCas(floor, pos) => StepPopCas(s, t, pc, spurious)
    case PopLoadData(floor, pos) => Goto(s, t, PopStoreSeq(s.data[Cell(s.cap, pos)], floor, pos))
    case PopStoreSeq(v, floor, pos) => StepRelease(s, t, pc)
  }

  /** One scheduled action.  A thread begins a call only when it has none in progress. */
  function Apply<T>(s: State<T>, a: Action<T>): State<T>
    requires Shape(s)
  {
    match a
    case BeginPush(t, v) => if PcOf(s, t).Idle? then Goto(s, t, PushLoadPos(v, s.enqueue)) else s
    case BeginPop(t) => if PcOf(s, t).Idle? then Goto(s, t, PopLoadPos(s.dequeue)) else s
    case Advance(t, spurious) => StepThread(s, t, spurious)
  }

  // ---------------------------------------------------------------- the invariant

  ghost predicate Filling<T>(pc: Pc<T>) { pc.PushStoreData? || pc.PushStoreSeq? }

  ghost predicate Emptying<T>(pc: Pc<T>) { pc.PopLoadData? || pc.PopStoreSeq? }

  /** Between the claim of a position and the store that hands its cell over. */
  ghost predicate AtCell<T>(pc: Pc<T>) { Filling(pc) || Emptying(pc) }

  ghost predicate LogsOk<T>(s: State<T>) {
    && |s.pushes| == s.enqueue && |s.pops| == s.dequeue
    && s.dequeue <= s.enqueue <= s.dequeue + s.cap
    && (forall k :: 0 <= k < |s.pushes| ==> s.pushes[k].pos == k)
    && (forall k :: 0 <= k < |s.pops| ==> s.pops[k].pos == k)
  }

  /** Cell i serves one position at a time and its sequence number is that position, or that
      position plus one once the value is there. */
  ghost predicate CellOk<T>(s: State<T>, i: nat)
    requires Shape(s) && i < s.cap
  {
    && Cell(s.cap, s.turn[i]) == i
    && s.turn[i] <= s.sequence[i] <= s.turn[i] + 1
    && s.turn[i] < s.dequeue + s.cap
    && (s.sequence[i] == s.turn[i] + 1 ==>
          s.turn[i] < |s.pushes| && s.data[i] == s.pushes[s.turn[i]].value)
  }

  /** A claimed position is being served or has been served. */
  ghost predicate TurnOk<T>(s: State<T>, p: nat)
    requires Shape(s)
  {
    p < s.enqueue ==> s.turn[Cell(s.cap, p)] >= p
  }

  ghost predicate PcOk<T>(s: State<T>, t: ThreadId, pc: Pc<T>)
    requires Shape(s)
  {
    match pc
    case Idle => true
    case PushLoadPos(v, floor) => floor <= s.enqueue
    case PushLoadSeq(v, floor, pos) => floor <= pos <= s.enqueue
    case PushCas(v, floor, pos) => floor <= pos <= s.enqueue && s.sequence[Cell(s.cap, pos)] >= pos
    case PushStoreData(v, floor, pos) => floor <= pos && FillOk(s, t, v, pos)
    case PushStoreSeq(v, floor, pos) =>
      floor <= pos && FillOk(s, t, v, pos) && s.data[Cell(s.cap, pos)] == v
    case PopLoadPos(floor) => floor <= s.dequeue
    case PopLoadSeq(floor, pos) => floor <= pos <= s.dequeue
    case PopCas(floor, pos) => floor <= pos <= s.dequeue && s.sequence[Cell(s.cap, pos)] >= pos + 1
    case PopLoadData(floor, pos) => floor <= pos && EmptyOk(s, t, pos)
    case PopStoreSeq(v, floor, pos) =>
      floor <= pos && EmptyOk(s, t, pos) && v == s.pushes[pos].value
  }

  ghost predicate FillOk<T>(s: State<T>, t: ThreadId, v: T, pos: nat)
    requires Shape(s)
  {
    && s.dequeue <= pos < |s.pushes| && s.pushes[pos] == PushClaim(t, pos, v)
    && s.turn[Cell(s.cap, pos)] == s.sequence[Cell(s.cap, pos)] == pos
  }

  ghost predicate EmptyOk<T>(s: State<T>, t: ThreadId, pos: nat)
    requires Shape(s)
  {
    && pos < |s.pops| && pos < |s.pushes| && s.pops[pos] == PopClaim(t, pos)
    && s.turn[Cell(s.cap, pos)] == pos && s.sequence[Cell(s.cap, pos)] == pos + 1
  }

  /** A claimed position that is not published has its producer still at work. */
  ghost predicate FillOwned<T>(s: State<T>, p: nat)
    requires Shape(s)
  {
    s.dequeue <= p < |s.pushes| && s.sequence[Cell(s.cap, p)] == p ==>
      Filling(PcOf(s, s.pushes[p].thread)) && PcOf(s, s.pushes[p].thread).pos == p
  }

  /** A popped position has its consumer still at work or its value delivered. */
  ghost predicate EmptyOwned<T>(s: State<T>, p: nat)
    requires Shape(s)
  {
    p < |s.pops| && s.turn[Cell(s.cap, p)] == p ==>
      Emptying(PcOf(s, s.pops[p].thread)) && PcOf(s, s.pops[p].thread).pos == p
  }

  ghost predicate Delivered<T>(s: State<T>, p: nat) {
    exists k :: 0 <= k < |s.deliveries| && s.deliveries[k].pos == p
  }

  ghost predicate DeliveryOk<T>(s: State<T>, k: nat)
    requires Shape(s) && k < |s.deliveries|
  {
    var d := s.deliveries[k];
    && d.pos < |s.pops| && d.pos < |s.pushes|
    && s.pops[d.pos].thread == d.thread && s.pushes[d.pos].value == d.value
    && s.turn[Cell(s.cap, d.pos)] > d.pos
  }

  ghost predicate DeliveriesOk<T>(s: State<T>)
    requires Shape(s)
  {
    && (forall k :: 0 <= k < |s.deliveries| ==> DeliveryOk(s, k))
    && (forall j, k :: 0 <= j < k < |s.deliveries| ==> s.deliveries[j].pos != s.deliveries[k].pos)
    && (forall p: nat :: p < s.dequeue && s.turn[Cell(s.cap, p)] > p ==> Delivered(s, p))
  }

  ghost predicate Cells<T>(s: State<T>)
    requires Shape(s)
  {
    forall i :: 0 <= i < s.cap ==> CellOk(s, i)
  }

  ghost predicate Turns<T>(s: State<T>)
    requires Shape(s)
  {
    forall p: nat :: TurnOk(s, p)
  }

  ghost predicate Threads<T>(s: State<T>)
    requires Shape(s)
  {
    forall t: ThreadId :: PcOk(s, t, PcOf(s, t))
  }

  ghost predicate Owned<T>(s: State<T>)
    requires Shape(s)
  {
    forall p: nat :: FillOwned(s, p) && EmptyOwned(s, p)
  }

  ghost predicate Inv<T>(s: State<T>) {
    && Shape(s) && LogsOk(s) && Cells(s) && Turns(s) && Threads(s) && Owned(s) && DeliveriesOk(s)
  }

  // ---------------------------------------------------------------- every step keeps it

  lemma InvInit<T>(cap: nat, garbage: seq<T>)
    requires cap >= 2 && |garbage| == cap
    ensures Inv(Init(cap, garbage))
  {
  }

  lemma TurnsFrame<T>(s: State<T>, s': State<T>)
    requires Shape(s) && Shape(s') && s'.cap == s.cap && Turns(s)
    requires s'.enqueue == s.enqueue
    requires forall i :: 0 <= i < s.cap ==> s'.turn[i] >= s.turn[i]
    ensures Turns(s')
  {
    forall p: nat ensures TurnOk(s', p) { assert TurnOk(s, p); }
  }

  lemma DeliveriesFrame<T>(s: State<T>, s': State<T>)
    requires Shape(s) && Shape(s') && s'.cap == s.cap && DeliveriesOk(s)
    requires s.pushes <= s'.pushes && s.pops <= s'.pops
    requires s'.deliveries == s.deliveries && s'.turn == s.turn
    requires forall p: nat :: s.dequeue <= p < s'.dequeue ==> s.turn[Cell(s.cap, p)] <= p
    ensures DeliveriesOk(s')
  {
    forall k | 0 <= k < |s.deliveries| ensures DeliveryOk(s', k) { assert DeliveryOk(s, k); }
    forall p: nat | p < s'.dequeue && s'.turn[Cell(s.cap, p)] > p ensures Delivered(s', p) {
      assert Delivered(s, p);
    }
  }

  lemma CellsFrame<T>(s: State<T>, s': State<T>)
    requires Shape(s) && Shape(s') && s'.cap == s.cap && Cells(s)
    requires s'.sequence == s.sequence && s'.turn == s.turn && s'.data == s.data
    requires s.dequeue <= s'.dequeue && s.pushes <= s'.pushes
    ensures Cells(s')
  {
    forall i | 0 <= i < s.cap ensures CellOk(s', i) { assert CellOk(s, i); }
  }

  /** A thread whose cell is left alone keeps its own part of the invariant: the logs, the
      counters and every sequence number only grow. */
  lemma PcFrame<T>(s: State<T>, s': State<T>, u: ThreadId, pc: Pc<T>)
    requires Shape(s) && Shape(s') && s'.cap == s.cap && PcOk(s, u, pc)
    requires s.pushes <= s'.pushes && s.pops <= s'.pops
    requires s.enqueue <= s'.enqueue && s.dequeue <= s'.dequeue
    requires forall i :: 0 <= i < s.cap ==> s'.sequence[i] >= s.sequence[i]
    requires AtCell(pc) ==>
      var c := Cell(s.cap, pc.pos);
      s'.turn[c] == s.turn[c] && s'.sequence[c] == s.sequence[c] && s'.data[c] == s.data[c]
    requires Filling(pc) ==> s'.dequeue <= pc.pos
    ensures PcOk(s', u, pc)
  {
  }

  /** Two threads at work on one cell are the same thread. */
  lemma OneThreadPerCell<T>(s: State<T>, t: ThreadId, u: ThreadId)
    requires Shape(s) && PcOk(s, t, PcOf(s, t)) && PcOk(s, u, PcOf(s, u))
    requires AtCell(PcOf(s, t)) && AtCell(PcOf(s, u))
    requires Cell(s.cap, PcOf(s, t).pos) == Cell(s.cap, PcOf(s, u).pos)
    ensures t == u
  {
  }

  lemma OwnedFrame<T>(s: State<T>, s': State<T>, t: ThreadId)
    requires Shape(s) && Shape(s') && s'.cap == s.cap && Owned(s)
    requires s'.pushes == s.pushes && s'.pops == s.pops && s'.dequeue == s.dequeue
    requires s'.sequence == s.sequence && s'.turn == s.turn
    requires forall u: ThreadId :: u != t ==> PcOf(s', u) == PcOf(s, u)
    requires Filling(PcOf(s, t)) ==> Filling(PcOf(s', t)) && PcOf(s', t).pos == PcOf(s, t).pos
    requires Emptying(PcOf(s, t)) ==> Emptying(PcOf(s', t)) && PcOf(s', t).pos == PcOf(s, t).pos
    ensures Owned(s')
  {
    forall p: nat ensures FillOwned(s', p) && EmptyOwned(s', p) {
      assert FillOwned(s, p) && EmptyOwned(s, p);
    }
  }

  /** A step that only moves one program counter, not out of a claimed section. */
  lemma InvGoto<T>(s: State<T>, t: ThreadId, pc: Pc<T>)
    requires Inv(s) && PcOk(s, t, pc)
    requires Filling(PcOf(s, t)) ==> Filling(pc) && pc.pos == PcOf(s, t).pos
    requires Emptying(PcOf(s, t)) ==> Emptying(pc) && pc.pos == PcOf(s, t).pos
    ensures Inv(Goto(s, t, pc))
  {
    var s' := Goto(s, t, pc);
    forall u: ThreadId ensures PcOk(s', u, PcOf(s', u)) {
      assert u != t ==> PcOk(s, u, PcOf(s, u));
    }
    OwnedFrame(s, s', t);
    CellsFrame(s, s');
    TurnsFrame(s, s');
    DeliveriesFrame(s, s');
  }

  /** The successful compare-exchange of a push claims the position that its cell is serving. */
  lemma PushClaimsFreeCell<T>(s: State<T>, t: ThreadId)
    requires Shape(s) && LogsOk(s) && Cells(s)
    requires PcOf(s, t).PushCas? && PcOf(s, t).pos == s.enqueue && PcOk(s, t, PcOf(s, t))
    ensures var c := Cell(s.cap, s.enqueue);
      s.turn[c] == s.sequence[c] == s.enqueue && s.enqueue < s.dequeue + s.cap
  {
    var e := s.enqueue;
    var c := Cell(s.cap, e);
    assert CellOk(s, c);
    LapsApart(s.cap, s.turn[c], e);
  }

  lemma PopClaimsFullCell<T>(s: State<T>, t: ThreadId)
    requires Shape(s) && LogsOk(s) && Cells(s)
    requires PcOf(s, t).PopCas? && PcOf(s, t).pos == s.dequeue && PcOk(s, t, PcOf(s, t))
    ensures var c := Cell(s.cap, s.dequeue);
      s.turn[c] == s.dequeue && s.sequence[c] == s.dequeue + 1 && s.dequeue < s.enqueue
  {
    var d := s.dequeue;
    var c := Cell(s.cap, d);
    assert CellOk(s, c);
    LapsApart(s.cap, s.turn[c], d);
  }

  lemma OwnedPushClaim<T>(s: State<T>, t: ThreadId)
    requires Shape(s) && LogsOk(s) && Owned(s) && PcOf(s, t).PushCas? && PcOf(s, t).pos == s.enqueue
    ensures Owned(StepPushCas(s, t, PcOf(s, t), false))
  {
    var s' := StepPushCas(s, t, PcOf(s, t), false);
    forall p: nat ensures FillOwned(s', p) && EmptyOwned(s', p) {
      assert FillOwned(s, p) && EmptyOwned(s, p);
    }
  }

  lemma InvPushCas<T>(s: State<T>, t: ThreadId, spurious: bool)
    requires Inv(s) && PcOf(s, t).PushCas?
    ensures Inv(StepPushCas(s, t, PcOf(s, t), spurious))
  {
    var pc := PcOf(s, t);
    assert PcOk(s, t, pc);
    if s.enqueue != pc.pos || spurious {
      InvGoto(s, t, PushLoadSeq(pc.value, pc.floor, s.enqueue));
    } else {
      PushClaimsFreeCell(s, t);
      OwnedPushClaim(s, t);
      var s' := StepPushCas(s, t, pc, spurious);
      forall u: ThreadId ensures PcOk(s', u, PcOf(s', u)) {
        if u != t { PcFrame(s, s', u, PcOf(s, u)); }
      }
      forall p: nat ensures TurnOk(s', p) { assert TurnOk(s, p); }
      CellsFrame(s, s');
      DeliveriesFrame(s, s');
    }
  }

  lemma OwnedPopClaim<T>(s: State<T>, t: ThreadId)
    requires Shape(s) && LogsOk(s) && Owned(s) && PcOf(s, t).PopCas? && PcOf(s, t).pos == s.dequeue
    ensures Owned(StepPopCas(s, t, PcOf(s, t), false))
  {
    var s' := StepPopCas(s, t, PcOf(s, t), false);
    forall p: nat ensures FillOwned(s', p) && EmptyOwned(s', p) {
      assert FillOwned(s, p) && EmptyOwned(s, p);
    }
  }

  lemma InvPopCas<T>(s: State<T>, t: ThreadId, spurious: bool)
    requires Inv(s) && PcOf(s, t).PopCas?
    ensures Inv(StepPopCas(s, t, PcOf(s, t), spurious))
  {
    var pc := PcOf(s, t);
    assert PcOk(s, t, pc);
    if s.dequeue != pc.pos || spurious {
      InvGoto(s, t, PopLoadSeq(pc.floor, s.dequeue));
    } else {
      PopClaimsFullCell(s, t);
      OwnedPopClaim(s, t);
      var s' := StepPopCas(s, t, pc, spurious);
      forall u: ThreadId ensures PcOk(s', u, PcOf(s', u)) {
        if u != t { PcFrame(s, s', u, PcOf(s, u)); }
      }
      CellsFrame(s, s');
      TurnsFrame(s, s');
      DeliveriesFrame(s, s');
    }
  }

  lemma InvStoreData<T>(s: State<T>, t: ThreadId)
    requires Inv(s) && PcOf(s, t).PushStoreData?
    ensures Inv(StepThread(s, t, false))
  {
    var pc, s' := PcOf(s, t), StepThread(s, t, false);
    assert PcOk(s, t, pc);
    forall u: ThreadId ensures PcOk(s', u, PcOf(s', u)) {
      if u != t {
        assert PcOk(s, u, PcOf(s, u));
        if AtCell(PcOf(s, u)) && Cell(s.cap, PcOf(s, u).pos) == Cell(s.cap, pc.pos) {
          OneThreadPerCell(s, t, u);
        }
        PcFrame(s, s', u, PcOf(s, u));
      }
    }
    CellsStoreData(s, t);
    OwnedFrame(s, s', t);
    TurnsFrame(s, s');
    DeliveriesFrame(s, s');
  }

  lemma CellsStoreData<T>(s: State<T>, t: ThreadId)
    requires Shape(s) && Cells(s) && PcOf(s, t).PushStoreData? && PcOk(s, t, PcOf(s, t))
    ensures Cells(StepThread(s, t, false))
  {
    var s' := StepThread(s, t, false);
    forall i | 0 <= i < s.cap ensures CellOk(s', i) { assert CellOk(s, i); }
  }

  lemma CellsPublish<T>(s: State<T>, t: ThreadId)
    requires Shape(s) && LogsOk(s) && Cells(s) && PcOf(s, t).PushStoreSeq? && PcOk(s, t, PcOf(s, t))
    ensures Cells(StepPublish(s, t, PcOf(s, t)))
  {
    var s' := StepPublish(s, t, PcOf(s, t));
    forall i | 0 <= i < s.cap ensures CellOk(s', i) { assert CellOk(s, i); }
  }

  lemma OwnedPublish<T>(s: State<T>, t: ThreadId)
    requires Shape(s) && LogsOk(s) && Owned(s) && PcOf(s, t).PushStoreSeq? && PcOk(s, t, PcOf(s, t))
    requires forall p: nat :: s.dequeue <= p < s.enqueue && p != PcOf(s, t).pos ==>
      Cell(s.cap, p) != Cell(s.cap, PcOf(s, t).pos)
    ensures Owned(StepPublish(s, t, PcOf(s, t)))
  {
    var s' := StepPublish(s, t, PcOf(s, t));
    forall p: nat ensures FillOwned(s', p) && EmptyOwned(s', p) {
      assert FillOwned(s, p) && EmptyOwned(s, p);
    }
  }

  lemma InvPublish<T>(s: State<T>, t: ThreadId)
    requires Inv(s) && PcOf(s, t).PushStoreSeq?
    ensures Inv(StepPublish(s, t, PcOf(s, t)))
  {
    var pc, s' := PcOf(s, t), StepPublish(s, t, PcOf(s, t));
    assert PcOk(s, t, pc);
    forall u: ThreadId ensures PcOk(s', u, PcOf(s', u)) {
      if u != t {
        assert PcOk(s, u, PcOf(s, u));
        if AtCell(PcOf(s, u)) && Cell(s.cap, PcOf(s, u).pos) == Cell(s.cap, pc.pos) {
          OneThreadPerCell(s, t, u);
        }
        PcFrame(s, s', u, PcOf(s, u));
      }
    }
    forall p: nat | s.dequeue <= p < s.enqueue && p != pc.pos
      ensures Cell(s.cap, p) != Cell(s.cap, pc.pos)
    {
      if Cell(s.cap, p) == Cell(s.cap, pc.pos) { SameCell(s.cap, p, pc.pos); }
    }
    OwnedPublish(s, t);
    CellsPublish(s, t);
    TurnsFrame(s, s');
    DeliveriesFrame(s, s');
  }

  lemma CellsRelease<T>(s: State<T>, t: ThreadId)
    requires Shape(s) && LogsOk(s) && Cells(s) && PcOf(s, t).PopStoreSeq? && PcOk(s, t, PcOf(s, t))
    ensures Cells(StepRelease(s, t, PcOf(s, t)))
  {
    var pos, s' := PcOf(s, t).pos, StepRelease(s, t, PcOf(s, t));
    assert Cell(s.cap, pos + s.cap) == Cell(s.cap, pos);
    forall i | 0 <= i < s.cap ensures CellOk(s', i) { assert CellOk(s, i); }
  }

  lemma OwnedRelease<T>(s: State<T>, t: ThreadId)
    requires Shape(s) && LogsOk(s) && Owned(s) && PcOf(s, t).PopStoreSeq? && PcOk(s, t, PcOf(s, t))
    requires TurnOk(s, PcOf(s, t).pos + s.cap)
    ensures Owned(StepRelease(s, t, PcOf(s, t)))
  {
    var pos, s' := PcOf(s, t).pos, StepRelease(s, t, PcOf(s, t));
    assert Cell(s.cap, pos + s.cap) == Cell(s.cap, pos);
    forall p: nat ensures FillOwned(s', p) && EmptyOwned(s', p) {
      assert FillOwned(s, p) && EmptyOwned(s, p);
    }
  }

  lemma DeliveriesRelease<T>(s: State<T>, t: ThreadId)
    requires Shape(s) && LogsOk(s) && Turns(s) && DeliveriesOk(s)
    requires PcOf(s, t).PopStoreSeq? && PcOk(s, t, PcOf(s, t))
    ensures DeliveriesOk(StepRelease(s, t, PcOf(s, t)))
  {
    var pos, s' := PcOf(s, t).pos, StepRelease(s, t, PcOf(s, t));
    forall k | 0 <= k < |s'.deliveries| ensures DeliveryOk(s', k) {
      if k < |s.deliveries| { assert DeliveryOk(s, k); }
    }
    forall j, k | 0 <= j < k < |s'.deliveries|
      ensures s'.deliveries[j].pos != s'.deliveries[k].pos
    {
      assert DeliveryOk(s, j);
    }
    forall p: nat | p < s'.dequeue && s'.turn[Cell(s.cap, p)] > p ensures Delivered(s', p) {
      if s.turn[Cell(s.cap, p)] > p {
        assert Delivered(s, p);
        var k :| 0 <= k < |s.deliveries| && s.deliveries[k].pos == p;
        assert s'.deliveries[k].pos == p;
      } else {
        assert TurnOk(s, p);
        assert s'.deliveries[|s.deliveries|].pos == p;
      }
    }
  }

  lemma InvRelease<T>(s: State<T>, t: ThreadId)
    requires Inv(s) && PcOf(s, t).PopStoreSeq?
    ensures Inv(StepRelease(s, t, PcOf(s, t)))
  {
    var pc, s' := PcOf(s, t), StepRelease(s, t, PcOf(s, t));
    assert PcOk(s, t, pc);
    forall u: ThreadId ensures PcOk(s', u, PcOf(s', u)) {
      if u != t {
        assert PcOk(s, u, PcOf(s, u));
        if AtCell(PcOf(s, u)) && Cell(s.cap, PcOf(s, u).pos) == Cell(s.cap, pc.pos) {
          OneThreadPerCell(s, t, u);
        }
        PcFrame(s, s', u, PcOf(s, u));
      }
    }
    assert TurnOk(s, pc.pos + s.cap);
    OwnedRelease(s, t);
    CellsRelease(s, t);
    TurnsFrame(s, s');
    DeliveriesRelease(s, t);
  }

  lemma InvStep<T>(s: State<T>, a: Action<T>)
    requires Inv(s)
    ensures Inv(Apply(s, a)) && Apply(s, a).cap == s.cap
  {
    match a
    case BeginPush(t, v) => if PcOf(s, t).Idle? { InvGoto(s, t, PushLoadPos(v, s.enqueue)); }
    case BeginPop(t) => if PcOf(s, t).Idle? { InvGoto(s, t, PopLoadPos(s.dequeue)); }
    case Advance(t, spurious) => InvThread(s, t, spurious);
  }

  lemma InvThread<T>(s: State<T>, t: ThreadId, spurious: bool)
    requires Inv(s)
    ensures Inv(StepThread(s, t, spurious))
  {
    var pc := PcOf(s, t);
    assert PcOk(s, t, pc);
    match pc
    case Idle =>
    case PushLoadPos(v, floor) => InvGoto(s, t, PushLoadSeq(v, floor, s.enqueue));
    case PushLoadSeq(v, floor, pos) => InvGoto(s, t, AfterPushSeq(s, pc));
    case PushCas(v, floor, pos) => InvPushCas(s, t, spurious);
    case PushStoreData(v, floor, pos) => InvStoreData(s, t);
    case PushStoreSeq(v, floor, pos) => InvPublish(s, t);
    case PopLoadPos(floor) => InvGoto(s, t, PopLoadSeq(floor, s.dequeue));
    case PopLoadSeq(floor, pos) => InvGoto(s, t, AfterPopSeq(s, pc));
    case PopCas(floor, pos) => InvPopCas(s, t, spurious);
    case PopLoadData(floor, pos) =>
      assert CellOk(s, Cell(s.cap, pos));
      InvGoto(s, t, PopStoreSeq(s.data[Cell(s.cap, pos)], floor, pos));
    case PopStoreSeq(v, floor, pos) => InvRelease(s, t);
  }

  // ---------------------------------------------------------------- runs

  /** The state after a schedule: any finite interleaving of any number of threads. */
  ghost function Run<T>(s: State<T>, schedule: seq<Action<T>>): (r: State<T>)
    requires Inv(s)
    ensures Inv(r) && r.cap == s.cap
  {
    if schedule == [] then s
    else
      var before := Run(s, schedule[..|schedule| - 1]);
      InvStep(before, schedule[|schedule| - 1]);
      Apply(before, schedule[|schedule| - 1])
  }

  ghost function Reached<T>(cap: nat, garbage: seq<T>, schedule: seq<Action<T>>): (s: State<T>)
    requires cap >= 2 && |garbage| == cap
    ensures Inv(s)
  {
    InvInit(cap, garbage);
    Run(Init(cap, garbage), schedule)
  }

  /** Positions are claimed 0, 1, 2, ... by pushes and by pops, each exactly once; every value
      handed out is the value of the push that claimed the same position, and no position is
      handed out twice. */
  lemma FifoByPosition<T>(cap: nat, garbage: seq<T>, schedule: seq<Action<T>>)
    requires cap >= 2 && |garbage| == cap
    ensures var s := Reached(cap, garbage, schedule);
      && (forall k :: 0 <= k < |s.pushes| ==> s.pushes[k].pos == k)
      && (forall k :: 0 <= k < |s.pops| ==> s.pops[k].pos == k)
      && |s.pops| <= |s.pushes| <= |s.pops| + cap
      && (forall k :: 0 <= k < |s.deliveries| ==>
            var d := s.deliveries[k];
            d.pos < |s.pops| && d.value == s.pushes[d.pos].value
            && d.thread == s.pops[d.pos].thread)
      && (forall j, k :: 0 <= j < k < |s.deliveries| ==> s.deliveries[j].pos != s.deliveries[k].pos)
  {
    var s := Reached(cap, garbage, schedule);
    forall k | 0 <= k < |s.deliveries|
      ensures s.deliveries[k].pos < |s.pops| && s.deliveries[k].pos < |s.pushes|
        && s.deliveries[k].value == s.pushes[s.deliveries[k].pos].value
        && s.deliveries[k].thread == s.pops[s.deliveries[k].pos].thread
    {
      assert DeliveryOk(s, k);
    }
  }

  /** No two threads touch the data of one cell at once, and what a consumer is about to read
      is in place: the section runs from the claim to the store of the sequence number. */
  lemma CellsAreExclusive<T>(cap: nat, garbage: seq<T>, schedule: seq<Action<T>>, t: ThreadId, u: ThreadId)
    requires cap >= 2 && |garbage| == cap
    ensures var s := Reached(cap, garbage, schedule);
      var a, b := PcOf(s, t), PcOf(s, u);
      && (AtCell(a) && AtCell(b) && Cell(cap, a.pos) == Cell(cap, b.pos) ==> t == u)
      && (Emptying(a) ==> a.pos < |s.pushes| && s.data[Cell(cap, a.pos)] == s.pushes[a.pos].value)
  {
    var s := Reached(cap, garbage, schedule);
    var a, b := PcOf(s, t), PcOf(s, u);
    assert PcOk(s, t, a) && PcOk(s, u, b);
    if AtCell(a) && AtCell(b) && Cell(cap, a.pos) == Cell(cap, b.pos) {
      OneThreadPerCell(s, t, u);
    }
    if Emptying(a) {
      assert CellOk(s, Cell(s.cap, a.pos));
    }
  }

  /** A call in progress began with at least n push and m pop claims made. */
  ghost predicate BegunAfter<T>(pc: Pc<T>, n: nat, m: nat) {
    match pc
    case Idle => true
    case PushLoadPos(_, floor) => n <= floor
    case PushLoadSeq(_, floor, _) => n <= floor
    case PushCas(_, floor, _) => n <= floor
    case PushStoreData(_, floor, _) => n <= floor
    case PushStoreSeq(_, floor, _) => n <= floor
    case PopLoadPos(floor) => m <= floor
    case PopLoadSeq(floor, _) => m <= floor
    case PopCas(floor, _) => m <= floor
    case PopLoadData(floor, _) => m <= floor
    case PopStoreSeq(_, floor, _) => m <= floor
  }

  lemma LogsGrow<T>(s: State<T>, a: Action<T>)
    requires Shape(s)
    ensures s.pushes <= Apply(s, a).pushes && s.pops <= Apply(s, a).pops
  {
  }

  lemma BegunStep<T>(s: State<T>, a: Action<T>, t: ThreadId, n: nat, m: nat)
    requires Shape(s) && n <= s.enqueue && m <= s.dequeue && BegunAfter(PcOf(s, t), n, m)
    ensures BegunAfter(PcOf(Apply(s, a), t), n, m)
  {
    hide Cell, Shape;
    if a.thread == t && a.Advance? { BegunThread(s, t, a.spurious, n, m); }
  }

  lemma BegunThread<T>(s: State<T>, t: ThreadId, spurious: bool, n: nat, m: nat)
    requires Shape(s) && n <= s.enqueue && m <= s.dequeue && BegunAfter(PcOf(s, t), n, m)
    ensures BegunAfter(PcOf(StepThread(s, t, spurious), t), n, m)
  {
    hide Cell;
  }

  /** What holds of thread t, idle in the earlier state, at any later time. */
  ghost predicate Later<T>(s: State<T>, s': State<T>, t: ThreadId) {
    s.pushes <= s'.pushes && s.pops <= s'.pops && BegunAfter(PcOf(s', t), |s.pushes|, |s.pops|)
  }

  lemma {:induction false} RunLater<T>(s: State<T>, early: seq<Action<T>>, late: seq<Action<T>>, t: ThreadId)
    requires Inv(s) && PcOf(Run(s, early), t).Idle?
    ensures Later(Run(s, early), Run(s, early + late), t)
    decreases |late|
  {
    if late == [] {
      assert early + late == early;
    } else {
      var n := |late| - 1;
      RunLater(s, early, late[..n], t);
      assert (early + late)[..|early + late| - 1] == early + late[..n];
      var before := Run(s, early + late[..n]);
      assert LogsOk(before);
      LogsGrow(before, late[n]);
      BegunStep(before, late[n], t, |Run(s, early).pushes|, |Run(s, early).pops|);
      hide Inv, BegunAfter, Apply;
      assert Run(s, early + late) == Apply(before, late[n]);
    }
  }

  /** Positions follow real time: whatever was claimed when a thread had not yet begun its call has
      an earlier position than what that call claims. */
  lemma ClaimsFollowCallOrder<T>(cap: nat, garbage: seq<T>, early: seq<Action<T>>, late: seq<Action<T>>, t: ThreadId)
    requires cap >= 2 && |garbage| == cap && PcOf(Reached(cap, garbage, early), t).Idle?
    ensures var s, s' := Reached(cap, garbage, early), Reached(cap, garbage, early + late);
      && s.pushes <= s'.pushes && s.pops <= s'.pops
      && (Filling(PcOf(s', t)) ==> forall k :: 0 <= k < |s.pushes| ==> s.pushes[k].pos < PcOf(s', t).pos)
      && (Emptying(PcOf(s', t)) ==> forall k :: 0 <= k < |s.pops| ==> s.pops[k].pos < PcOf(s', t).pos)
  {
    InvInit(cap, garbage);
    RunLater(Init(cap, garbage), early, late, t);
    var s, s' := Reached(cap, garbage, early), Reached(cap, garbage, early + late);
    assert LogsOk(s) && PcOk(s', t, PcOf(s', t));
  }

  /** A push gives up exactly when the counter still stands at its position and the cell is
      serving the position one lap earlier, which nobody has released yet. */
  lemma PushFailsIffLapBehind<T>(s: State<T>, t: ThreadId)
    requires Inv(s) && PcOf(s, t).PushLoadSeq?
    ensures var pos := PcOf(s, t).pos;
      AfterPushSeq(s, PcOf(s, t)).Idle? <==>
        s.enqueue == pos && pos >= s.cap && s.turn[Cell(s.cap, pos)] == pos - s.cap
  {
    var pos := PcOf(s, t).pos;
    var c := Cell(s.cap, pos);
    assert PcOk(s, t, PcOf(s, t)) && CellOk(s, c) && TurnOk(s, pos);
    LapsApart(s.cap, s.turn[c], pos);
    if pos >= s.cap {
      assert Cell(s.cap, pos) == Cell(s.cap, pos - s.cap);
      assert TurnOk(s, pos - s.cap);
    }
  }

  ghost predicate BeingFilled<T>(s: State<T>, pos: nat)
    requires pos < |s.pushes|
  {
    var pc := PcOf(s, s.pushes[pos].thread);
    Filling(pc) && pc.pos == pos
  }

  /** A pop gives up exactly when the counter still stands at its position and that position
      has not been published. */
  lemma PopFailsIffUnpublished<T>(s: State<T>, t: ThreadId)
    requires Inv(s) && PcOf(s, t).PopLoadSeq?
    ensures var pos := PcOf(s, t).pos;
      AfterPopSeq(s, PcOf(s, t)).Idle? <==> s.dequeue == pos && (pos == s.enqueue || BeingFilled(s, pos))
  {
    var pos := PcOf(s, t).pos;
    var c := Cell(s.cap, pos);
    assert PcOk(s, t, PcOf(s, t)) && CellOk(s, c) && TurnOk(s, pos) && FillOwned(s, pos);
    LapsApart(s.cap, s.turn[c], pos);
    if pos < s.dequeue {
      assert EmptyOwned(s, pos) && PcOk(s, s.pops[pos].thread, PcOf(s, s.pops[pos].thread));
    } else if pos < s.enqueue {
      assert PcOk(s, s.pushes[pos].thread, PcOf(s, s.pushes[pos].thread));
    }
  }

  ghost predicate Quiescent<T>(s: State<T>) {
    forall t: ThreadId :: PcOf(s, t).Idle?
  }

  /** With no call in progress nothing is lost: every popped position has been delivered and
      the cells hold the rest. */
  lemma QuiescentConservation<T>(s: State<T>)
    requires Inv(s) && Quiescent(s)
    ensures forall p: nat :: p < s.dequeue ==> Delivered(s, p)
    ensures forall p: nat :: s.dequeue <= p < s.enqueue ==>
      s.sequence[Cell(s.cap, p)] == p + 1 && s.data[Cell(s.cap, p)] == s.pushes[p].value
  {
    forall p: nat | p < s.dequeue ensures Delivered(s, p) {
      assert TurnOk(s, p) && EmptyOwned(s, p);
    }
    forall p: nat | s.dequeue <= p < s.enqueue
      ensures s.sequence[Cell(s.cap, p)] == p + 1 && s.data[Cell(s.cap, p)] == s.pushes[p].value
    {
      var c := Cell(s.cap, p);
      assert TurnOk(s, p) && FillOwned(s, p) && CellOk(s, c);
      LapsApart(s.cap, s.turn[c], p);
    }
  }

  /** With no other call in progress false means exactly full, or exactly empty. */
  lemma AloneFalseMeansFullOrEmpty<T>(s: State<T>, t: ThreadId)
    requires Inv(s) && forall u: ThreadId :: u != t ==> PcOf(s, u).Idle?
    ensures PcOf(s, t).PushLoadSeq? && PcOf(s, t).pos == s.enqueue ==>
      (AfterPushSeq(s, PcOf(s, t)).Idle? <==> s.enqueue == s.dequeue + s.cap)
    ensures PcOf(s, t).PopLoadSeq? && PcOf(s, t).pos == s.dequeue ==>
      (AfterPopSeq(s, PcOf(s, t)).Idle? <==> s.enqueue == s.dequeue)
  {
    if PcOf(s, t).PushLoadSeq? && PcOf(s, t).pos == s.enqueue {
      PushFailsIffLapBehind(s, t);
      if s.enqueue >= s.cap {
        var p := s.enqueue - s.cap;
        assert Cell(s.cap, s.enqueue) == Cell(s.cap, p);
        assert EmptyOwned(s, p) && TurnOk(s, p) && CellOk(s, Cell(s.cap, p));
        LapsApart(s.cap, s.turn[Cell(s.cap, p)], p);
      }
    }
    if PcOf(s, t).PopLoadSeq? && PcOf(s, t).pos == s.dequeue {
      PopFailsIffUnpublished(s, t);
    }
  }

  // ---------------------------------------------------------------- the class itself

  ghost predicate Alone<T>(s: State<T>, me: ThreadId) {
    forall u: ThreadId :: u != me ==> PcOf(s, u).Idle?
  }

  /** The values between the two counters, oldest first. */
  ghost function Waiting<T>(s: State<T>): (q: seq<T>)
    requires LogsOk(s)
    ensures |q| == s.enqueue - s.dequeue
  {
    seq(s.enqueue - s.dequeue, i requires 0 <= i < s.enqueue - s.dequeue => s.pushes[s.dequeue + i].value)
  }

  lemma AloneStep<T>(s: State<T>, me: ThreadId, a: Action<T>)
    requires Inv(s) && Alone(s, me) && a.thread == me
    ensures Inv(Apply(s, a)) && Alone(Apply(s, a), me)
    ensures PcOf(Apply(s, a), me).Idle? ==> Quiescent(Apply(s, a))
  {
    InvStep(s, a);
    hide Inv;
    var s' := Apply(s, a);
    forall u: ThreadId | u != me ensures PcOf(s', u).Idle? {
      assert PcOf(s, u).Idle?;
      OthersStay(s, a, u);
    }
  }

  lemma OthersStay<T>(s: State<T>, a: Action<T>, u: ThreadId)
    requires Shape(s) && a.thread != u
    ensures PcOf(Apply(s, a), u) == PcOf(s, u)
  {
    hide Cell;
  }

  /** The compare-exchange that wins a position and the two accesses that follow it. */
  ghost function Finish<T>(s: State<T>, me: ThreadId): State<T>
    requires Shape(s)
  {
    StepThread(StepThread(StepThread(s, me, false), me, false), me, false)
  }

  lemma PushStores<T>(s: State<T>, me: ThreadId)
    requires Shape(s) && LogsOk(s) && PcOf(s, me).PushCas? && PcOf(s, me).pos == s.enqueue
    requires s.enqueue < s.dequeue + s.cap
    ensures var s3, c := Finish(s, me), Cell(s.cap, s.enqueue);
      && LogsOk(s3) && s3.cap == s.cap && PcOf(s3, me).Idle?
      && s3.enqueue == s.enqueue + 1 && s3.dequeue == s.dequeue
      && s3.sequence == s.sequence[c := s.enqueue + 1]
      && s3.data == s.data[c := PcOf(s, me).value]
      && Waiting(s3) == Waiting(s) + [PcOf(s, me).value]
  {
  }

  lemma PopStores<T>(s: State<T>, me: ThreadId)
    requires Shape(s) && LogsOk(s) && PcOf(s, me).PopCas? && PcOf(s, me).pos == s.dequeue
    requires s.dequeue < s.enqueue
    ensures var s3, c := Finish(s, me), Cell(s.cap, s.dequeue);
      && LogsOk(s3) && s3.cap == s.cap && PcOf(s3, me).Idle?
      && s3.enqueue == s.enqueue && s3.dequeue == s.dequeue + 1
      && s3.sequence == s.sequence[c := s.dequeue + s.cap] && s3.data == s.data
      && Waiting(s3) == Waiting(s)[1..]
  {
  }

  lemma FinishQuietly<T>(s: State<T>, me: ThreadId)
    requires Inv(s) && Alone(s, me)
    ensures Inv(Finish(s, me))
    ensures PcOf(Finish(s, me), me).Idle? ==> Quiescent(Finish(s, me))
  {
    hide Cells, Turns, Threads, Owned, DeliveriesOk, LogsOk;
    var a := Advance(me, false);
    AloneStep(s, me, a);
    AloneStep(Apply(s, a), me, a);
    AloneStep(Apply(Apply(s, a), a), me, a);
  }

  lemma FinishPush<T>(s: State<T>, me: ThreadId)
    requires Inv(s) && Alone(s, me) && PcOf(s, me).PushCas? && PcOf(s, me).pos == s.enqueue
    ensures var s3, c := Finish(s, me), Cell(s.cap, s.enqueue);
      && Inv(s3) && Quiescent(s3) && s3.cap == s.cap && s.enqueue < s.dequeue + s.cap
      && s3.enqueue == s.enqueue + 1 && s3.dequeue == s.dequeue
      && s3.sequence == s.sequence[c := s.enqueue + 1]
      && s3.data == s.data[c := PcOf(s, me).value]
      && Waiting(s3) == Waiting(s) + [PcOf(s, me).value]
  {
    hide Turns, Owned, DeliveriesOk, Finish;
    assert PcOk(s, me, PcOf(s, me));
    PushClaimsFreeCell(s, me);
    PushStores(s, me);
    FinishQuietly(s, me);
  }

  lemma FinishPop<T>(s: State<T>, me: ThreadId)
    requires Inv(s) && Alone(s, me) && PcOf(s, me).PopCas? && PcOf(s, me).pos == s.dequeue
    ensures var s3, c := Finish(s, me), Cell(s.cap, s.dequeue);
      && Inv(s3) && Quiescent(s3) && s3.cap == s.cap && s.dequeue < s.enqueue
      && s3.enqueue == s.enqueue && s3.dequeue == s.dequeue + 1
      && s3.sequence == s.sequence[c := s.dequeue + s.cap] && s3.data == s.data
      && s.data[c] == Waiting(s)[0] && Waiting(s3) == Waiting(s)[1..]
  {
    hide Turns, Owned, DeliveriesOk, Finish;
    assert PcOk(s, me, PcOf(s, me));
    PopClaimsFullCell(s, me);
    assert CellOk(s, Cell(s.cap, s.dequeue));
    PopStores(s, me);
    FinishQuietly(s, me);
  }

  /** The queue's memory and its two retry loops.  `model` follows every atomic access with the
      same step of the protocol above; run by one thread, the loops are a bounded FIFO queue. */
  class AtomicBoundedQueue<T> {
    const bufferMask: nat
    const sequence: array<nat>
    const data: array<T>
    var enqueuePos: nat
    var dequeuePos: nat
    ghost const log2: nat
    ghost var model: State<T>

    ghost predicate Tied()
      reads this, sequence, data
    {
      && Inv(model) && model.cap == bufferMask + 1 == Pow2(log2)
      && sequence as object != data && sequence.Length == data.Length == model.cap
      && sequence[..] == model.sequence && data[..] == model.data
      && enqueuePos == model.enqueue && dequeuePos == model.dequeue
    }

    ghost predicate Valid()
      reads this, sequence, data
    {
      Tied() && Quiescent(model)
    }

    ghost function Contents(): seq<T>
      reads this, sequence, data
      requires Tied()
    {
      Waiting(model)
    }

    constructor (bufferSize: nat, ghost k: nat, filler: T)
      requires bufferSize >= 2 && bufferSize == Pow2(k)
      ensures Valid() && Contents() == [] && bufferMask == bufferSize - 1
      ensures fresh(sequence) && fresh(data)
    {
      bufferMask := bufferSize - 1;
      sequence := new nat[bufferSize](i => i);
      data := new T[bufferSize](i => filler);
      enqueuePos, dequeuePos := 0, 0;
      log2 := k;
      model := Init(bufferSize, seq(bufferSize, i => filler));
      new;
      InvInit(bufferSize, seq(bufferSize, i => filler));
      assert sequence[..] == model.sequence;
    }

    /** The cell of a position, by masking. */
    method Locate(pos: nat) returns (c: nat)
      requires Tied()
      ensures c == Cell(model.cap, pos)
    {
      c := BitAnd(pos, bufferMask);
      MaskIsRemainder(pos, log2);
      CellIsRemainder(model.cap, pos);
    }

    /** `spurious` bounds how often the weak compare-exchange fails without cause. */
    method Push(me: ThreadId, value: T, spurious: nat) returns (ok: bool)
      requires Valid()
      modifies this, sequence, data
      ensures Valid()
      ensures ok <==> |old(Contents())| < bufferMask + 1
      ensures Contents() == if ok then old(Contents()) + [value] else old(Contents())
    {
      hide Cells, Turns, Threads, Owned, DeliveriesOk, LogsOk, StepThread, Apply, Waiting;
      PushStarts(model, me, value);
      model := StepThread(Apply(model, BeginPush(me, value)), me, false);
      var pos := enqueuePos;
      var failures := spurious;
      while true
        invariant Tied() && Alone(model, me) && SameMemory(old(model), model)
        invariant pos == enqueuePos && PcOf(model, me) == PushLoadSeq(value, pos, pos)
        decreases failures
      {
        var c := Locate(pos);
        var dif := sequence[c] as int - pos as int;
        PushLooks(model, me);
        model := StepThread(model, me, false);
        if dif == 0 {
          if failures == 0 {
            break;
          }
          PushRetries(model, me);
          model := StepThread(model, me, true);
          failures := failures - 1;
        } else if dif < 0 {
          WaitingIsMemory(old(model), model);
          return false;
        } else {
          // With no other call in progress the counter cannot have moved on.
          assert false;
        }
      }
      WaitingIsMemory(old(model), model);
      Publish(me, value, pos);
      ok := true;
    }

    /** The last try of the loop, whose compare-exchange succeeds, and the two stores. */
    method Publish(me: ThreadId, value: T, pos: nat)
      requires Tied() && Alone(model, me) && pos == enqueuePos
      requires PcOf(model, me) == PushCas(value, pos, pos)
      modifies this, sequence, data
      ensures Valid() && |old(Contents())| < bufferMask + 1
      ensures Contents() == old(Contents()) + [value]
    {
      hide Cells, Turns, Threads, Owned, DeliveriesOk, StepThread, Finish;
      var c := Locate(pos);
      FinishPush(model, me);
      model := Finish(model, me);
      enqueuePos := pos + 1;
      data[c] := value;
      sequence[c] := pos + 1;
      assert data[..] == old(data[..])[c := value];
      assert sequence[..] == old(sequence[..])[c := pos + 1];
    }

    method Pop(me: ThreadId, spurious: nat) returns (ok: bool, value: T)
      requires Valid()
      modifies this, sequence, data
      ensures Valid()
      ensures ok <==> old(Contents()) != []
      ensures ok ==> value == old(Contents())[0] && Contents() == old(Contents())[1..]
      ensures !ok ==> Contents() == old(Contents())
    {
      hide Cells, Turns, Threads, Owned, DeliveriesOk, LogsOk, StepThread, Apply, Waiting;
      PopStarts(model, me);
      model := StepThread(Apply(model, BeginPop(me)), me, false);
      var pos := dequeuePos;
      var failures := spurious;
      while true
        invariant Tied() && Alone(model, me) && SameMemory(old(model), model)
        invariant pos == dequeuePos && PcOf(model, me) == PopLoadSeq(pos, pos)
        decreases failures
      {
        var c := Locate(pos);
        var dif := sequence[c] as int - (pos + 1) as int;
        PopLooks(model, me);
        model := StepThread(model, me, false);
        if dif == 0 {
          if failures == 0 {
            break;
          }
          PopRetries(model, me);
          model := StepThread(model, me, true);
          failures := failures - 1;
        } else if dif < 0 {
          WaitingIsMemory(old(model), model);
          return false, data[c];
        } else {
          // With no other call in progress the counter cannot have moved on.
          assert false;
        }
      }
      WaitingIsMemory(old(model), model);
      value := Release(me, pos);
      ok := true;
    }

    method Release(me: ThreadId, pos: nat) returns (value: T)
      requires Tied() && Alone(model, me) && pos == dequeuePos
      requires PcOf(model, me) == PopCas(pos, pos)
      modifies this, sequence, data
      ensures Valid() && old(Contents()) != []
      ensures value == old(Contents())[0] && Contents() == old(Contents())[1..]
    {
      hide Cells, Turns, Threads, Owned, DeliveriesOk, StepThread, Finish;
      var c := Locate(pos);
      FinishPop(model, me);
      model := Finish(model, me);
      dequeuePos := pos + 1;
      value := data[c];
      sequence[c] := pos + bufferMask + 1;
      assert sequence[..] == old(sequence[..])[c := pos + bufferMask + 1];
    }
  }

  ghost predicate SameMemory<T>(s: State<T>, s': State<T>) {
    && s'.cap == s.cap && s'.sequence == s.sequence && s'.data == s.data
    && s'.enqueue == s.enqueue && s'.dequeue == s.dequeue && s'.pushes == s.pushes
  }

  lemma WaitingIsMemory<T>(s: State<T>, s': State<T>)
    requires LogsOk(s) && LogsOk(s') && SameMemory(s, s')
    ensures Waiting(s') == Waiting(s) && |Waiting(s)| == s.enqueue - s.dequeue
  {
  }

  lemma PushStarts<T>(s: State<T>, me: ThreadId, value: T)
    requires Inv(s) && Quiescent(s)
    ensures Inv(Apply(s, BeginPush(me, value)))
    ensures var s' := StepThread(Apply(s, BeginPush(me, value)), me, false);
      && Inv(s') && Alone(s', me) && SameMemory(s, s')
      && PcOf(s', me) == PushLoadSeq(value, s.enqueue, s.enqueue)
  {
    hide Cells, Turns, Threads, Owned, DeliveriesOk, LogsOk;
    AloneStep(s, me, BeginPush(me, value));
    AloneStep(Apply(s, BeginPush(me, value)), me, Advance(me, false));
  }

  /** Run alone, the sequence load of a push sees its position exactly when there is room. */
  lemma PushLooks<T>(s: State<T>, me: ThreadId)
    requires Inv(s) && Alone(s, me) && PcOf(s, me).PushLoadSeq? && PcOf(s, me).pos == s.enqueue
    ensures var pc, s' := PcOf(s, me), StepThread(s, me, false);
      && Inv(s') && Alone(s', me) && SameMemory(s, s')
      && s.sequence[Cell(s.cap, s.enqueue)] <= s.enqueue
      && (s.sequence[Cell(s.cap, s.enqueue)] == s.enqueue <==> s.enqueue < s.dequeue + s.cap)
      && (if s.enqueue < s.dequeue + s.cap
          then PcOf(s', me) == PushCas(pc.value, pc.floor, pc.pos) else Quiescent(s'))
  {
    hide Turns, Threads, Owned, DeliveriesOk;
    var c := Cell(s.cap, s.enqueue);
    assert CellOk(s, c);
    LapsApart(s.cap, s.turn[c], s.enqueue);
    AloneFalseMeansFullOrEmpty(s, me);
    AloneStep(s, me, Advance(me, false));
  }

  lemma PushRetries<T>(s: State<T>, me: ThreadId)
    requires Inv(s) && Alone(s, me) && PcOf(s, me).PushCas? && PcOf(s, me).pos == s.enqueue
    ensures var pc, s' := PcOf(s, me), StepThread(s, me, true);
      && Inv(s') && Alone(s', me) && SameMemory(s, s')
      && PcOf(s', me) == PushLoadSeq(pc.value, pc.floor, pc.pos)
  {
    hide Cells, Turns, Threads, Owned, DeliveriesOk, LogsOk;
    AloneStep(s, me, Advance(me, true));
  }

  lemma PopStarts<T>(s: State<T>, me: ThreadId)
    requires Inv(s) && Quiescent(s)
    ensures Inv(Apply(s, BeginPop(me)))
    ensures var s' := StepThread(Apply(s, BeginPop(me)), me, false);
      && Inv(s') && Alone(s', me) && SameMemory(s, s')
      && PcOf(s', me) == PopLoadSeq(s.dequeue, s.dequeue)
  {
    hide Cells, Turns, Threads, Owned, DeliveriesOk, LogsOk;
    AloneStep(s, me, BeginPop(me));
    AloneStep(Apply(s, BeginPop(me)), me, Advance(me, false));
  }

  /** Run alone, the sequence load of a pop sees its position published exactly when there is
      something to take. */
  lemma PopLooks<T>(s: State<T>, me: ThreadId)
    requires Inv(s) && Alone(s, me) && PcOf(s, me).PopLoadSeq? && PcOf(s, me).pos == s.dequeue
    ensures var pc, s' := PcOf(s, me), StepThread(s, me, false);
      && Inv(s') && Alone(s', me) && SameMemory(s, s')
      && s.sequence[Cell(s.cap, s.dequeue)] <= s.dequeue + 1
      && (s.sequence[Cell(s.cap, s.dequeue)] == s.dequeue + 1 <==> s.dequeue < s.enqueue)
      && (if s.dequeue < s.enqueue then PcOf(s', me) == PopCas(pc.floor, pc.pos) else Quiescent(s'))
  {
    hide Turns, Threads, Owned, DeliveriesOk;
    var c := Cell(s.cap, s.dequeue);
    assert CellOk(s, c);
    LapsApart(s.cap, s.turn[c], s.dequeue);
    AloneFalseMeansFullOrEmpty(s, me);
    AloneStep(s, me, Advance(me, false));
  }

  lemma PopRetries<T>(s: State<T>, me: ThreadId)
    requires Inv(s) && Alone(s, me) && PcOf(s, me).PopCas? && PcOf(s, me).pos == s.dequeue
    ensures var pc, s' := PcOf(s, me), StepThread(s, me, true);
      && Inv(s') && Alone(s', me) && SameMemory(s, s')
      && PcOf(s', me) == PopLoadSeq(pc.floor, pc.pos)
  {
    hide Cells, Turns, Threads, Owned, DeliveriesOk, LogsOk;
    AloneStep(s, me, Advance(me, true));
  }
}

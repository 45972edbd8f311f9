/** The event count with its lists as they lie in memory: the wait set is a linked list through
    the threads' own nodes, a notifier keeps a local list or one node and walks by pointer.  A
    step that would touch a node that is not in memory has no result. */
module EventCountMemory {
  import opened Wrappers
  import opened NodeList
  import EC = EventCount

  /** List 0 is the wait set, list k + 1 the local list of notifier k. */
  function Own(k: nat): nat {
    k + 1
  }

  datatype NotifierPc =
    | Out
    | Checking(kind: EC.Kind)
    | Entering(kind: EC.Kind)
    | Inside(kind: EC.Kind)
    | Popped(node: Option<Node>, cleared: bool)
    | PostingOne(node: Option<Node>)
    | Scanning(cursor: Node, picked: Option<Node>)
    | ClearingAll(cursor: Node)
    | Walking(cursor: Node)

  datatype State = State(
    threads: seq<EC.Thread>,
    notifiers: seq<NotifierPc>,
    memory: Memory,
    size: nat,
    epoch: nat,
    lock: Option<nat>,
    condition: bool,
    setter: nat
  )

  function Nodes(threads: nat): Memory {
    map t: nat | t < threads :: Thread(t) := Link(None, None)
  }

  function Init(threads: nat, notifiers: nat): State {
    State(seq(threads, i => EC.Thread(EC.Idle, false, false, 0, 0, false)), seq(notifiers, i => Out),
          Reset(Nodes(threads), 0), 0, 0, None, false, 0)
  }

  // ---------------------------------------------------------------- the steps

  function SetThread(s: State, t: nat, th: EC.Thread): State
    requires t < |s.threads|
  {
    s.(threads := s.threads[t := th])
  }

  function SetNotifier(s: State, k: nat, pc: NotifierPc): State
    requires k < |s.notifiers|
  {
    s.(notifiers := s.notifiers[k := pc])
  }

  /** The thread whose record holds the node, if the record is still there. */
  function RecordOf(s: State, n: Node): Option<nat> {
    if n.Thread? && n in s.memory && n.t < |s.threads| then Some(n.t) else None
  }

  /** A thread that is gone takes its node with it. */
  function Die(s: State, t: nat): State
    requires t < |s.threads|
  {
    if s.threads[t].pc == EC.Dead then s.(memory := s.memory - {Thread(t)}) else s
  }

  function Down(s: State, t: nat, then_: EC.ThreadPc): State
    requires t < |s.threads|
  {
    var th := s.threads[t];
    if th.semaphore == 0 then s
    else SetThread(s, t, th.(semaphore := th.semaphore - 1, pc := then_, sawUnset := false))
  }

  function PushStep(s: State, t: nat): Option<State>
    requires t < |s.threads|
  {
    if HasFirst(s.memory, 0) && Thread(t) in s.memory then
      Some(SetThread(s, t, s.threads[t].(epoch := s.epoch, pc := EC.Prepared))
             .(memory := Push(s.memory, 0, Thread(t)), size := s.size + 1))
    else None
  }

  function RemoveStep(s: State, t: nat): Option<State>
    requires t < |s.threads|
  {
    if Inner(s.memory, Thread(t)) && s.size > 0 then
      var th := s.threads[t].(inWaitset := false, spurious := false, pc := EC.Idle, sawUnset := false);
      Some(SetThread(s, t, th).(memory := Remove(s.memory, Thread(t)), size := s.size - 1))
    else None
  }

  function ThreadStep(s: State, t: nat): Option<State>
    requires t < |s.threads|
  {
    var th := s.threads[t];
    match th.pc
    case Pumping => Some(Down(s, t, EC.Marking))
    case Marking => Some(SetThread(s, t, th.(inWaitset := true, pc := EC.Pushing)))
    case Pushing => if s.lock.Some? then Some(s) else PushStep(s, t)
    case Sleeping => Some(Down(s, t, EC.Idle))
    case Retiring => Some(SetThread(s, t, th.(spurious := true, pc := EC.Looking)))
    case Looking =>
      Some(SetThread(s, t, if th.inWaitset then th.(pc := EC.Locking) else th.(pc := EC.Idle, sawUnset := false)))
    case Locking =>
      if s.lock.Some? then Some(s)
      else if th.inWaitset then RemoveStep(s, t)
      else Some(SetThread(s, t, th.(pc := EC.Idle, sawUnset := false)))
    case Leaving => Some(Die(Down(s, t, EC.Dead), t))
    case _ => Some(s)
  }

  /** One of the moves a thread makes of its own accord; they are the abstract ones. */
  function Choose(s: State, t: nat, a: EC.Action): State
    requires t < |s.threads| && a in {EC.Prepare(t), EC.Exit(t), EC.Check(t), EC.Wait(t), EC.Retire(t)}
  {
    var th := s.threads[t];
    if a.Prepare? && th.pc == EC.Idle then
      SetThread(s, t, if th.spurious then th.(spurious := false, pc := EC.Pumping) else th.(pc := EC.Marking))
    else if a.Exit? && th.pc == EC.Idle then
      Die(SetThread(s, t, th.(pc := if th.spurious then EC.Leaving else EC.Dead)), t)
    else if a.Check? && th.pc == EC.Prepared then
      SetThread(s, t, if s.condition then th.(pc := EC.Retiring) else th.(sawUnset := true))
    else if a.Wait? && th.pc == EC.Prepared then
      SetThread(s, t, th.(pc := if th.epoch == s.epoch then EC.Sleeping else EC.Retiring))
    else if a.Retire? && th.pc == EC.Prepared then SetThread(s, t, th.(pc := EC.Retiring))
    else s
  }

  /** `pop`: unlink and return the first node, or the null pointer. */
  function PopStep(s: State, k: nat): Option<State>
    requires k < |s.notifiers|
  {
    if s.size == 0 then Some(SetNotifier(s, k, Popped(None, false)))
    else if HasFirst(s.memory, 0) && Inner(s.memory, s.memory[Head(0)].next.value) then
      var n := s.memory[Head(0)].next.value;
      Some(SetNotifier(s, k, Popped(Some(n), false)).(memory := Remove(s.memory, n), size := s.size - 1))
    else None
  }

  function TakeStep(s: State, k: nat): Option<State>
    requires k < |s.notifiers| && s.notifiers[k].Inside?
  {
    match s.notifiers[k].kind
    case One => PopStep(s, k)
    case Select =>
      if HasFirst(s.memory, 0) then Some(SetNotifier(s, k, Scanning(s.memory[Head(0)].next.value, None))) else None
    case All =>
      if !CanFlush(s.memory, 0, Own(k)) then None
      else
        var m := FlushTo(s.memory, 0, Own(k), s.size);
        if HasFirst(m, Own(k)) then
          Some(SetNotifier(s, k, ClearingAll(m[Head(Own(k))].next.value)).(memory := m, size := 0))
        else None
  }

  function ClearFlag(s: State, n: Node): Option<State> {
    match RecordOf(s, n)
    case None => None
    case Some(t) => Some(SetThread(s, t, s.threads[t].(inWaitset := false)))
  }

  function Post(s: State, n: Node): Option<State> {
    match RecordOf(s, n)
    case None => None
    case Some(t) => Some(SetThread(s, t, s.threads[t].(semaphore := s.threads[t].semaphore + 1)))
  }

  /** Leave the locked section and start to walk the local list. */
  function Unlock(s: State, k: nat): Option<State>
    requires k < |s.notifiers|
  {
    if HasFirst(s.memory, Own(k)) then
      Some(SetNotifier(s, k, Walking(s.memory[Head(Own(k))].next.value)).(lock := None))
    else None
  }

  /** Look at the node under the cursor; `next` is read before the node changes lists. */
  function ScanStep(s: State, k: nat, n: Node, pick: bool): Option<State>
    requires k < |s.notifiers|
  {
    if n !in s.memory then None
    else
      match s.memory[n].next
      case None => Unlock(s, k)
      case Some(next) =>
        if !pick then Some(SetNotifier(s, k, Scanning(next, None)))
        else if Inner(s.memory, n) && s.size > 0 && n != Head(Own(k)) && HasFirst(Remove(s.memory, n), Own(k)) then
          Some(SetNotifier(s, k, Scanning(next, Some(n)))
                 .(memory := Push(Remove(s.memory, n), Own(k), n), size := s.size - 1))
        else None
  }

  function NotifierStep(s: State, k: nat, pick: bool): Option<State>
    requires k < |s.notifiers|
  {
    match s.notifiers[k]
    case Out => Some(s)
    case Checking(kind) =>
      if s.size == 0 then Some(SetNotifier(s, k, Out))
      else
        Some(SetNotifier(s, k, Entering(kind))
               .(memory := if kind.One? then s.memory else Reset(s.memory, Own(k))))
    case Entering(kind) =>
      if s.lock.Some? then Some(s)
      else Some(SetNotifier(s, k, Inside(kind)).(lock := Some(k), epoch := (s.epoch + 1) % 0x1_0000_0000))
    case Inside(_) => TakeStep(s, k)
    case Popped(None, _) => Some(SetNotifier(s, k, PostingOne(None)).(lock := None))
    case Popped(Some(n), true) => Some(SetNotifier(s, k, PostingOne(Some(n))).(lock := None))
    case Popped(Some(n), false) => ClearFlag(SetNotifier(s, k, Popped(Some(n), true)), n)
    case PostingOne(None) => Some(SetNotifier(s, k, Out))
    case PostingOne(Some(n)) => Post(SetNotifier(s, k, PostingOne(None)), n)
    case Scanning(n, Some(picked)) => ClearFlag(SetNotifier(s, k, Scanning(n, None)), picked)
    case Scanning(n, None) => ScanStep(s, k, n, pick)
    case ClearingAll(n) =>
      if n !in s.memory then None
      else if s.memory[n].next.None? then Unlock(s, k)
      else ClearFlag(SetNotifier(s, k, ClearingAll(s.memory[n].next.value)), n)
    case Walking(n) =>
      if n !in s.memory then None
      else if s.memory[n].next.None? then
        Some(SetNotifier(s, k, Out).(memory := s.memory - {Head(Own(k)), Tail(Own(k))}))
      else Post(SetNotifier(s, k, Walking(s.memory[n].next.value)), n)
  }

  function Apply(s: State, a: EC.Action): Option<State> {
    match a
    case Prepare(t) => Some(if t < |s.threads| then Choose(s, t, a) else s)
    case Exit(t) => Some(if t < |s.threads| then Choose(s, t, a) else s)
    case Check(t) => Some(if t < |s.threads| then Choose(s, t, a) else s)
    case Wait(t) => Some(if t < |s.threads| then Choose(s, t, a) else s)
    case Retire(t) => Some(if t < |s.threads| then Choose(s, t, a) else s)
    case Continue(t) => if t < |s.threads| then ThreadStep(s, t) else Some(s)
    case Notify(k, kind) =>
      Some(if k < |s.notifiers| && s.notifiers[k].Out? then SetNotifier(s, k, Checking(kind)) else s)
    case SetAndNotifyAll(k) =>
      Some(if k < |s.notifiers| && s.notifiers[k].Out? then
             SetNotifier(s, k, Checking(EC.All)).(condition := true, setter := if s.condition then s.setter else k)
           else s)
    case Proceed(k, pick) => if k < |s.notifiers| then NotifierStep(s, k, pick) else Some(s)
  }

  // ---------------------------------------------------------------- memory and protocol

  ghost predicate LocalEmpty(m: Memory, k: nat, kind: EC.Kind) {
    !kind.One? ==> IsList(m, Own(k), [])
  }

  /** The notifier's pointers and local list stand for the threads of the protocol. */
  ghost predicate Pointers(m: Memory, k: nat, pc: NotifierPc, apc: EC.NotifierPc) {
    match pc
    case Out => apc == EC.Out
    case Checking(kind) => apc == EC.Checking(kind)
    case Entering(kind) => apc == EC.Entering(kind) && LocalEmpty(m, k, kind)
    case Inside(kind) => apc == EC.Inside(kind) && LocalEmpty(m, k, kind)
    case Popped(None, _) => apc == EC.Clearing([], [], [])
    case Popped(Some(n), cleared) => n.Thread? && apc == EC.Clearing([], if cleared then [] else [n.t], [n.t])
    case PostingOne(None) => apc == EC.Posting([])
    case PostingOne(Some(n)) => n.Thread? && apc == EC.Posting([n.t])
    case Scanning(n, picked) =>
      && apc.Clearing? && n == Cursor(0, apc.rest) && IsList(m, Own(k), apc.owed)
      && match picked { case None => apc.pending == [] case Some(p) => p.Thread? && apc.pending == [p.t] }
    case ClearingAll(n) =>
      && apc.Clearing? && apc.rest == [] && n == Cursor(Own(k), apc.pending)
      && EC.IsSuffix(apc.pending, apc.owed) && IsList(m, Own(k), apc.owed)
    case Walking(n) =>
      apc.Posting? && n == Cursor(Own(k), apc.owed) && Chain(m, Own(k), apc.owed) && Ends(m, Own(k))
  }

  ghost predicate PointersAt(s: State, a: EC.State, k: nat)
    requires k < |s.notifiers| == |a.notifiers|
  {
    Pointers(s.memory, k, s.notifiers[k], a.notifiers[k])
  }

  ghost predicate Alive(s: State, t: nat)
    requires t < |s.threads|
  {
    s.threads[t].pc != EC.Dead <==> Thread(t) in s.memory
  }

  ghost predicate Stands(s: State, a: EC.State) {
    && s.threads == a.threads && |s.notifiers| == |a.notifiers|
    && s.epoch == a.epoch && s.lock == a.lock && s.condition == a.condition && s.setter == a.setter
    && s.size == |a.waitset| && IsList(s.memory, 0, a.waitset)
    && (forall t :: 0 <= t < |s.threads| ==> Alive(s, t))
    && (forall k :: 0 <= k < |s.notifiers| ==> PointersAt(s, a, k))
  }

  // ---------------------------------------------------------------- who may touch what

  lemma {:induction false} OwedTwice(ns: seq<EC.NotifierPc>, j: nat, k: nat, t: nat)
    requires j < |ns| && k < |ns| && j != k
    ensures multiset(EC.OwedBy(ns[j]))[t] + multiset(EC.OwedBy(ns[k]))[t] <= EC.Owed(ns, t)
  {
    hide EC.OwedBy;
    var n := |ns| - 1;
    if j == n { EC.OwedAtLeast(ns[..n], k, t); }
    else if k == n { EC.OwedAtLeast(ns[..n], j, t); }
    else { OwedTwice(ns[..n], j, k, t); }
  }

  /** The nodes a step may change while every notifier but k goes on undisturbed. */
  ghost predicate Touchable(a: EC.State, k: int, n: Node) {
    match n
    case Head(l) => l == 0 || l == k + 1
    case Tail(l) => l == 0 || l == k + 1
    case Thread(t) => EC.Owed(a.notifiers, t) == 0 || (0 <= k < |a.notifiers| && t in EC.OwedBy(a.notifiers[k]))
  }

  ghost predicate Kept(m: Memory, m': Memory, n: Node) {
    n in m ==> n in m' && m'[n] == m[n]
  }

  ghost predicate OnlyTouches(m: Memory, m': Memory, a: EC.State, k: int) {
    forall n {:trigger Kept(m, m', n)} :: !Touchable(a, k, n) ==> Kept(m, m', n)
  }

  lemma PointersFrame(m: Memory, m': Memory, j: nat, pc: NotifierPc, apc: EC.NotifierPc)
    requires Pointers(m, j, pc, apc)
    requires Kept(m, m', Head(Own(j))) && Kept(m, m', Tail(Own(j)))
    requires forall t :: t in EC.OwedBy(apc) ==> Kept(m, m', Thread(t))
    ensures Pointers(m', j, pc, apc)
  {
    hide IsList, Chain;
    var l := Own(j);
    match pc
    case Entering(kind) => if !kind.One? { ListFrame(m, m', l, []); }
    case Inside(kind) => if !kind.One? { ListFrame(m, m', l, []); }
    case Scanning(n, picked) => ListFrame(m, m', l, apc.owed);
    case ClearingAll(n) => ListFrame(m, m', l, apc.owed);
    case Walking(n) => ChainFrame(m, m', l, apc.owed);
    case _ =>
  }

  lemma Undisturbed(s: State, a: EC.State, m': Memory, k: int, j: nat)
    requires Stands(s, a) && EC.Inv(a) && j < |s.notifiers| && j != k
    requires OnlyTouches(s.memory, m', a, k)
    ensures Pointers(m', j, s.notifiers[j], a.notifiers[j])
  {
    var apc := a.notifiers[j];
    assert PointersAt(s, a, j);
    forall t | t in EC.OwedBy(apc) ensures Kept(s.memory, m', Thread(t)) {
      assert multiset(EC.OwedBy(apc))[t] > 0;
      assert EC.NotifierOk(a, j);
      assert EC.ThreadInv(a, t);
      EC.OwedAtLeast(a.notifiers, j, t);
      if 0 <= k < |a.notifiers| {
        OwedTwice(a.notifiers, j, k, t);
        assert t in EC.OwedBy(a.notifiers[k]) <==> multiset(EC.OwedBy(a.notifiers[k]))[t] > 0;
      }
      assert !Touchable(a, k, Thread(t));
    }
    assert Kept(s.memory, m', Head(Own(j))) && Kept(s.memory, m', Tail(Own(j)));
    PointersFrame(s.memory, m', j, s.notifiers[j], apc);
  }

  /** A thread in the wait set is owed nothing. */
  lemma WaitingOwedNothing(a: EC.State, t: nat)
    requires EC.Inv(a) && t in a.waitset
    ensures t < |a.threads| && EC.Owed(a.notifiers, t) == 0 && a.threads[t].pc != EC.Dead
  {
    assert EC.ThreadInv(a, t);
    assert multiset(a.waitset)[t] > 0;
  }

  // ---------------------------------------------------------------- threads

  lemma SetThreadStands(s: State, a: EC.State, t: nat, th: EC.Thread)
    requires Stands(s, a) && t < |s.threads| && (th.pc == EC.Dead <==> s.threads[t].pc == EC.Dead)
    ensures Stands(SetThread(s, t, th), EC.SetThread(a, t, th))
  {
    var s', a' := SetThread(s, t, th), EC.SetThread(a, t, th);
    forall u | 0 <= u < |s.threads| ensures Alive(s', u) { assert Alive(s, u); }
    forall k | 0 <= k < |s.notifiers| ensures PointersAt(s', a', k) { assert PointersAt(s, a, k); }
  }

  lemma PushStands(s: State, a: EC.State, t: nat)
    requires Stands(s, a) && EC.Inv(a) && t < |s.threads| && s.threads[t].pc == EC.Pushing
    ensures PushStep(s, t).Some? && Stands(PushStep(s, t).value, EC.PushStep(a, t))
  {
    var m, q := s.memory, a.waitset;
    assert EC.ThreadInv(a, t) && Alive(s, t);
    assert t in q <==> multiset(a.waitset)[t] > 0;
    PushKeeps(m, 0, q, t);
    var m' := Push(m, 0, Thread(t));
    forall n | !Touchable(a, -1, n) ensures Kept(m, m', n) {
      forall u | u in q ensures EC.Owed(a.notifiers, u) == 0 { WaitingOwedNothing(a, u); }
      if n in m { PushTouches(m, 0, q, t, n); }
    }
    var s', a' := PushStep(s, t).value, EC.PushStep(a, t);
    forall u | 0 <= u < |s.threads| ensures Alive(s', u) { assert Alive(s, u); }
    forall k | 0 <= k < |s.notifiers| ensures PointersAt(s', a', k) { Undisturbed(s, a, m', -1, k); }
  }

  lemma {:induction false} RemoveIsCut(q: seq<nat>, i: nat)
    requires Distinct(q) && i < |q|
    ensures EC.Remove(q, q[i]) == q[..i] + q[i + 1..]
  {
    if i > 0 {
      RemoveIsCut(q[1..], i - 1);
      assert q[1..][..i - 1] == q[1..i] && q[..i] == [q[0]] + q[1..i];
    }
  }

  /** Taking a thread of the wait set out leaves every notifier's list as it is. */
  lemma CutTouches(s: State, a: EC.State, i: nat)
    requires Stands(s, a) && EC.Inv(a) && i < |a.waitset|
    ensures Inner(s.memory, Thread(a.waitset[i])) && Remove(s.memory, Thread(a.waitset[i])).Keys == s.memory.Keys
    ensures IsList(Remove(s.memory, Thread(a.waitset[i])), 0, EC.Remove(a.waitset, a.waitset[i]))
    ensures OnlyTouches(s.memory, Remove(s.memory, Thread(a.waitset[i])), a, -1)
    ensures |EC.Remove(a.waitset, a.waitset[i])| == |a.waitset| - 1
  {
    var m, q := s.memory, a.waitset;
    RemoveKeeps(m, 0, q, i);
    RemoveIsCut(q, i);
    forall n | !Touchable(a, -1, n) ensures Kept(m, Remove(m, Thread(q[i])), n) {
      forall u | u in q ensures EC.Owed(a.notifiers, u) == 0 { WaitingOwedNothing(a, u); }
      if n in m { RemoveTouches(m, 0, q, i, n); }
    }
  }

  lemma RemoveStands(s: State, a: EC.State, t: nat)
    requires Stands(s, a) && EC.Inv(a) && t < |s.threads| && s.threads[t].pc == EC.Locking
    requires s.threads[t].inWaitset && s.lock.None?
    ensures RemoveStep(s, t).Some? && Stands(RemoveStep(s, t).value, EC.RemoveStep(a, t))
  {
    assert EC.ThreadInv(a, t);
    var i :| 0 <= i < |a.waitset| && a.waitset[i] == t;
    CutTouches(s, a, i);
    hide IsList, EC.Inv, Remove;
    var s', a' := RemoveStep(s, t).value, EC.RemoveStep(a, t);
    forall u | 0 <= u < |s.threads| ensures Alive(s', u) { assert Alive(s, u); }
    forall k | 0 <= k < |s.notifiers| ensures PointersAt(s', a', k) { Undisturbed(s, a, s'.memory, -1, k); }
  }

  /** A thread that dies is in no list, so its node may go with it. */
  lemma DieStands(s: State, a: EC.State, t: nat, th: EC.Thread)
    requires Stands(s, a) && EC.Inv(a) && t < |s.threads| && th.pc == EC.Dead
    requires EC.Owed(a.notifiers, t) == 0 && t !in a.waitset
    ensures Stands(Die(SetThread(s, t, th), t), EC.SetThread(a, t, th))
  {
    var s', a' := Die(SetThread(s, t, th), t), EC.SetThread(a, t, th);
    forall u | 0 <= u < |s.threads| ensures Alive(s', u) { assert Alive(s, u); }
    ListFrame(s.memory, s'.memory, 0, a.waitset);
    assert OnlyTouches(s.memory, s'.memory, a, -1);
    forall k | 0 <= k < |s.notifiers| ensures PointersAt(s', a', k) { Undisturbed(s, a, s'.memory, -1, k); }
  }

  lemma LeaveStands(s: State, a: EC.State, t: nat)
    requires Stands(s, a) && EC.Inv(a) && t < |s.threads| && s.threads[t].pc == EC.Leaving
    ensures Stands(Die(Down(s, t, EC.Dead), t), EC.Down(a, t, EC.Dead))
  {
    assert EC.ThreadInv(a, t);
    var th := s.threads[t];
    if th.semaphore > 0 {
      assert t in a.waitset <==> multiset(a.waitset)[t] > 0;
      DieStands(s, a, t, th.(semaphore := th.semaphore - 1, pc := EC.Dead, sawUnset := false));
    }
  }

  lemma ThreadStands(s: State, a: EC.State, t: nat)
    requires Stands(s, a) && EC.Inv(a) && t < |s.threads|
    ensures ThreadStep(s, t).Some? && Stands(ThreadStep(s, t).value, EC.ThreadStep(a, t))
  {
    hide Stands, EC.Inv;
    assert s.threads == a.threads && s.lock == a.lock by { ThreadsAgree(s, a); }
    var th := s.threads[t];
    match th.pc
    case Pushing => if s.lock.None? { PushStands(s, a, t); }
    case Leaving => LeaveStands(s, a, t);
    case Locking =>
      if s.lock.None? {
        if th.inWaitset { RemoveStands(s, a, t); }
        else { SetThreadStands(s, a, t, th.(pc := EC.Idle, sawUnset := false)); }
      }
    case Pumping => DownStands(s, a, t, EC.Marking);
    case Sleeping => DownStands(s, a, t, EC.Idle);
    case Marking => SetThreadStands(s, a, t, th.(inWaitset := true, pc := EC.Pushing));
    case Retiring => SetThreadStands(s, a, t, th.(spurious := true, pc := EC.Looking));
    case Looking =>
      if th.inWaitset { SetThreadStands(s, a, t, th.(pc := EC.Locking)); }
      else { SetThreadStands(s, a, t, th.(pc := EC.Idle, sawUnset := false)); }
    case _ =>
  }

  lemma ThreadsAgree(s: State, a: EC.State)
    requires Stands(s, a)
    ensures s.threads == a.threads && |s.notifiers| == |a.notifiers| && s.size == |a.waitset|
    ensures s.epoch == a.epoch && s.lock == a.lock && s.condition == a.condition && s.setter == a.setter
  {
  }

  lemma DownStands(s: State, a: EC.State, t: nat, then_: EC.ThreadPc)
    requires Stands(s, a) && t < |s.threads| && s.threads[t].pc != EC.Dead && then_ != EC.Dead
    ensures Stands(Down(s, t, then_), EC.Down(a, t, then_))
  {
    var th := s.threads[t];
    if th.semaphore > 0 {
      SetThreadStands(s, a, t, th.(semaphore := th.semaphore - 1, pc := then_, sawUnset := false));
    }
  }

  lemma ExitStands(s: State, a: EC.State, t: nat)
    requires Stands(s, a) && EC.Inv(a) && t < |s.threads|
    ensures Stands(Choose(s, t, EC.Exit(t)), EC.Apply(a, EC.Exit(t)))
  {
    assert EC.ThreadInv(a, t);
    var th := s.threads[t];
    if th.pc == EC.Idle {
      if th.spurious {
        SetThreadStands(s, a, t, th.(pc := EC.Leaving));
      } else {
        assert t in a.waitset <==> multiset(a.waitset)[t] > 0;
        DieStands(s, a, t, th.(pc := EC.Dead));
      }
    }
  }

  lemma ChooseStands(s: State, a: EC.State, t: nat, act: EC.Action)
    requires Stands(s, a) && EC.Inv(a) && t < |s.threads|
    requires act in {EC.Prepare(t), EC.Exit(t), EC.Check(t), EC.Wait(t), EC.Retire(t)}
    ensures Stands(Choose(s, t, act), EC.Apply(a, act))
  {
    if act.Exit? { ExitStands(s, a, t); }
    else {
      ThreadsAgree(s, a);
      var th' := Choose(s, t, act).threads[t];
      hide Stands, EC.Inv;
      SetThreadStands(s, a, t, th');
      assert EC.Apply(a, act) == EC.SetThread(a, t, th');
      assert Choose(s, t, act) == SetThread(s, t, th');
    }
  }

  // ---------------------------------------------------------------- notifiers

  /** What the protocol knows of the shared words stays as it is, and so does the wait set. */
  ghost predicate Shared(s: State, a: EC.State) {
    && s.threads == a.threads && |s.notifiers| == |a.notifiers|
    && s.epoch == a.epoch && s.lock == a.lock && s.condition == a.condition && s.setter == a.setter
    && s.size == |a.waitset|
  }

  /** A step of notifier k stands when its own pointers and the wait set do and it touches
      nothing else. */
  lemma NotifierStands(s: State, a: EC.State, s': State, a': EC.State, k: nat)
    requires Stands(s, a) && EC.Inv(a) && k < |s.notifiers| == |s'.notifiers| == |a'.notifiers|
    requires Shared(s', a') && IsList(s'.memory, 0, a'.waitset)
    requires s'.notifiers == s.notifiers[k := s'.notifiers[k]] && a'.notifiers == a.notifiers[k := a'.notifiers[k]]
    requires PointersAt(s', a', k)
    requires OnlyTouches(s.memory, s'.memory, a, k)
    requires forall t: nat :: Thread(t) in s'.memory <==> Thread(t) in s.memory
    requires |s'.threads| == |s.threads|
    requires forall t :: 0 <= t < |s.threads| ==> s'.threads[t].pc == s.threads[t].pc
    ensures Stands(s', a')
  {
    forall u | 0 <= u < |s.threads| ensures Alive(s', u) { assert Alive(s, u); }
    forall j | 0 <= j < |s.notifiers| ensures PointersAt(s', a', j) {
      if j != k { Undisturbed(s, a, s'.memory, k, j); }
    }
  }

  /** A step that changes no memory. */
  lemma SameMemoryStands(s: State, a: EC.State, s': State, a': EC.State, k: nat)
    requires Stands(s, a) && EC.Inv(a) && k < |s.notifiers| == |s'.notifiers| == |a'.notifiers|
    requires Shared(s', a') && s'.memory == s.memory && a'.waitset == a.waitset
    requires s'.notifiers == s.notifiers[k := s'.notifiers[k]] && a'.notifiers == a.notifiers[k := a'.notifiers[k]]
    requires PointersAt(s', a', k)
    requires |s'.threads| == |s.threads|
    requires forall t :: 0 <= t < |s.threads| ==> s'.threads[t].pc == s.threads[t].pc
    ensures Stands(s', a')
  {
    forall n ensures Kept(s.memory, s'.memory, n) {}
    NotifierStands(s, a, s', a', k);
  }

  /** A fresh local list. */
  lemma CheckStands(s: State, a: EC.State, k: nat, pick: bool)
    requires Stands(s, a) && EC.Inv(a) && k < |s.notifiers| && s.notifiers[k].Checking?
    ensures NotifierStep(s, k, pick).Some? && Stands(NotifierStep(s, k, pick).value, EC.NotifierStep(a, k, pick))
  {
    assert PointersAt(s, a, k);
    hide EC.Inv;
    var s', a' := NotifierStep(s, k, pick).value, EC.NotifierStep(a, k, pick);
    ResetEmpties(s.memory, Own(k));
    if s.size > 0 {
      ListFrame(s.memory, s'.memory, 0, a.waitset);
    }
    NotifierStands(s, a, s', a', k);
  }

  lemma EnterStands(s: State, a: EC.State, k: nat, pick: bool)
    requires Stands(s, a) && EC.Inv(a) && k < |s.notifiers| && s.notifiers[k].Entering?
    ensures NotifierStep(s, k, pick).Some? && Stands(NotifierStep(s, k, pick).value, EC.NotifierStep(a, k, pick))
  {
    assert PointersAt(s, a, k);
    ThreadsAgree(s, a);
    var s', a' := NotifierStep(s, k, pick).value, EC.NotifierStep(a, k, pick);
    hide EC.Inv, Stands;
    if s.lock.None? { SameMemoryStands(s, a, s', a', k); }
  }

  lemma PopStands(s: State, a: EC.State, k: nat)
    requires Stands(s, a) && EC.Inv(a) && k < |s.notifiers| && s.notifiers[k] == Inside(EC.One)
    requires k < |a.notifiers| && a.notifiers[k] == EC.Inside(EC.One)
    ensures TakeStep(s, k).Some? && Stands(TakeStep(s, k).value, EC.TakeStep(a, k))
  {
    assert PointersAt(s, a, k);
    var q := a.waitset;
    if q == [] {
      SameMemoryStands(s, a, TakeStep(s, k).value, EC.TakeStep(a, k), k);
    } else {
      CutTouches(s, a, 0);
      assert JoinedAt(s.memory, 0, q, 0);
      hide EC.Inv, Remove;
      assert EC.Remove(q, q[0]) == q[1..];
      var s', a' := TakeStep(s, k).value, EC.TakeStep(a, k);
      forall n | !Touchable(a, k, n) ensures Kept(s.memory, s'.memory, n) { assert !Touchable(a, -1, n); }
      NotifierStands(s, a, s', a', k);
    }
  }

  lemma SelectStands(s: State, a: EC.State, k: nat)
    requires Stands(s, a) && EC.Inv(a) && k < |s.notifiers| && s.notifiers[k] == Inside(EC.Select)
    requires k < |a.notifiers| && a.notifiers[k] == EC.Inside(EC.Select)
    ensures TakeStep(s, k).Some? && Stands(TakeStep(s, k).value, EC.TakeStep(a, k))
  {
    assert PointersAt(s, a, k) && JoinedAt(s.memory, 0, a.waitset, 0);
    ThreadsAgree(s, a);
    hide EC.Inv, Stands, IsList;
    SameMemoryStands(s, a, TakeStep(s, k).value, EC.TakeStep(a, k), k);
  }

  lemma FlushTouches(m: Memory, l: nat, k: nat, q: seq<nat>, n: Node)
    requires IsList(m, l, q) && IsList(m, k, []) && l != k
    requires n in m && n !in {Head(l), Tail(l), Head(k), Tail(k)} && (n.Thread? ==> n.t !in q)
    ensures CanFlush(m, l, k) && n in FlushTo(m, l, k, |q|) && FlushTo(m, l, k, |q|)[n] == m[n]
  {
    FlushKeeps(m, l, k, q);
    assert JoinedAt(m, l, q, 0) && JoinedAt(m, l, q, |q|);
  }

  lemma TakeAllStands(s: State, a: EC.State, k: nat)
    requires Stands(s, a) && EC.Inv(a) && k < |s.notifiers| && s.notifiers[k] == Inside(EC.All)
    requires k < |a.notifiers| && a.notifiers[k] == EC.Inside(EC.All)
    ensures TakeStep(s, k).Some? && Stands(TakeStep(s, k).value, EC.TakeStep(a, k))
  {
    var m, q, l := s.memory, a.waitset, Own(k);
    assert PointersAt(s, a, k);
    FlushKeeps(m, 0, l, q);
    var m' := FlushTo(m, 0, l, s.size);
    assert JoinedAt(m', l, q, 0);
    forall n | !Touchable(a, k, n) ensures Kept(m, m', n) {
      forall u | u in q ensures EC.Owed(a.notifiers, u) == 0 { WaitingOwedNothing(a, u); }
      if n in m { FlushTouches(m, 0, l, q, n); }
    }
    FlushKeys(m, 0, l, s.size);
    assert q[0..] == q;
    hide EC.Inv, FlushTo, IsList;
    NotifierStands(s, a, TakeStep(s, k).value, EC.TakeStep(a, k), k);
  }

  lemma FlushKeys(m: Memory, l: nat, k: nat, size: nat)
    requires CanFlush(m, l, k)
    ensures FlushTo(m, l, k, size).Keys == m.Keys
  {
  }

  // ---------------------------------------------------------------- flags and posts

  lemma OwedIsAlive(s: State, a: EC.State, k: nat, t: nat)
    requires Stands(s, a) && EC.Inv(a) && k < |s.notifiers| && t in EC.OwedBy(a.notifiers[k])
    ensures RecordOf(s, Thread(t)) == Some(t)
  {
    assert EC.NotifierOk(a, k);
    assert EC.ThreadInv(a, t) && Alive(s, t);
    assert multiset(EC.OwedBy(a.notifiers[k]))[t] > 0;
    EC.OwedAtLeast(a.notifiers, k, t);
  }

  /** Clearing the flag of the first pending thread, in any of the forms. */
  lemma ClearFlagStands(s: State, a: EC.State, k: nat, pc: NotifierPc)
    requires Stands(s, a) && EC.Inv(a) && k < |s.notifiers| && a.notifiers[k].Clearing?
    requires a.notifiers[k].pending != []
    requires Pointers(s.memory, k, pc, a.notifiers[k].(pending := a.notifiers[k].pending[1..]))
    ensures var x := a.notifiers[k].pending[0];
      && x < |a.threads| && ClearFlag(SetNotifier(s, k, pc), Thread(x)).Some?
      && Stands(ClearFlag(SetNotifier(s, k, pc), Thread(x)).value, EC.ClearFlag(a, k))
  {
    var pending := a.notifiers[k].pending;
    var x := pending[0];
    EC.InvClearFlag(a, k);
    assert EC.NotifierOk(a, k);
    assert multiset(pending)[x] > 0;
    OwedIsAlive(s, a, k, x);
    hide EC.Inv, IsList, Chain;
    var s1 := SetNotifier(s, k, pc);
    assert RecordOf(s1, Thread(x)) == Some(x);
    SameMemoryStands(s, a, ClearFlag(s1, Thread(x)).value, EC.ClearFlag(a, k), k);
  }

  /** Posting the first thread owed, in either form. */
  lemma PostStands(s: State, a: EC.State, k: nat, pc: NotifierPc)
    requires Stands(s, a) && EC.Inv(a) && k < |s.notifiers| && a.notifiers[k].Posting?
    requires a.notifiers[k].owed != []
    requires Pointers(s.memory, k, pc, EC.Posting(a.notifiers[k].owed[1..]))
    ensures var x := a.notifiers[k].owed[0];
      && Post(SetNotifier(s, k, pc), Thread(x)).Some?
      && Stands(Post(SetNotifier(s, k, pc), Thread(x)).value, EC.PostStep(a, k))
  {
    var x := a.notifiers[k].owed[0];
    OwedIsAlive(s, a, k, x);
    hide EC.Inv, IsList, Chain;
    var s1 := SetNotifier(s, k, pc);
    assert RecordOf(s1, Thread(x)) == Some(x);
    SameMemoryStands(s, a, Post(s1, Thread(x)).value, EC.PostStep(a, k), k);
  }

  lemma OneStands(s: State, a: EC.State, k: nat, pick: bool)
    requires Stands(s, a) && EC.Inv(a) && k < |s.notifiers|
    requires s.notifiers[k].Popped? || s.notifiers[k].PostingOne?
    ensures NotifierStep(s, k, pick).Some? && Stands(NotifierStep(s, k, pick).value, EC.NotifierStep(a, k, pick))
  {
    assert PointersAt(s, a, k);
    match s.notifiers[k]
    case Popped(Some(n), false) => ClearFlagStands(s, a, k, Popped(Some(n), true));
    case PostingOne(Some(n)) => PostStands(s, a, k, PostingOne(None));
    case Popped(None, _) => OneRest(s, a, k, pick);
    case Popped(Some(n), true) => OneRest(s, a, k, pick);
    case PostingOne(None) => OneRest(s, a, k, pick);
  }

  lemma OneRest(s: State, a: EC.State, k: nat, pick: bool)
    requires Stands(s, a) && EC.Inv(a) && k < |s.notifiers|
    requires var pc := s.notifiers[k];
      (pc.Popped? && (pc.node.None? || pc.cleared)) || pc == PostingOne(None)
    ensures NotifierStep(s, k, pick).Some? && Stands(NotifierStep(s, k, pick).value, EC.NotifierStep(a, k, pick))
  {
    assert PointersAt(s, a, k);
    ThreadsAgree(s, a);
    hide EC.Inv, Stands;
    SameMemoryStands(s, a, NotifierStep(s, k, pick).value, EC.NotifierStep(a, k, pick), k);
  }

  /** Leaving the locked section at the end of the wait set or of the local list. */
  lemma UnlockStands(s: State, a: EC.State, k: nat)
    requires Stands(s, a) && EC.Inv(a) && k < |s.notifiers|
    requires a.notifiers[k].Clearing? && IsList(s.memory, Own(k), a.notifiers[k].owed)
    ensures Unlock(s, k).Some? && Stands(Unlock(s, k).value, EC.Unlock(a, k))
  {
    var owed := a.notifiers[k].owed;
    assert JoinedAt(s.memory, Own(k), owed, 0);
    ListIsChain(s.memory, Own(k), owed, 0);
    assert owed[0..] == owed;
    ThreadsAgree(s, a);
    hide EC.Inv, Stands, IsList, Chain;
    SameMemoryStands(s, a, Unlock(s, k).value, EC.Unlock(a, k), k);
  }

  /** The suffix of a list that a cursor stands before. */
  lemma SuffixIsChain(m: Memory, l: nat, q: seq<nat>, rest: seq<nat>)
    requires IsList(m, l, q) && EC.IsSuffix(rest, q)
    ensures Chain(m, l, rest)
  {
    ListIsChain(m, l, q, |q| - |rest|);
  }

  lemma ClearAllStands(s: State, a: EC.State, k: nat, pick: bool)
    requires Stands(s, a) && EC.Inv(a) && k < |s.notifiers| && s.notifiers[k].ClearingAll?
    ensures NotifierStep(s, k, pick).Some? && Stands(NotifierStep(s, k, pick).value, EC.NotifierStep(a, k, pick))
  {
    assert PointersAt(s, a, k);
    var rest, pending, owed := a.notifiers[k].rest, a.notifiers[k].pending, a.notifiers[k].owed;
    SuffixIsChain(s.memory, Own(k), owed, pending);
    if pending == [] {
      UnlockStands(s, a, k);
    } else {
      assert EC.IsSuffix(pending[1..], owed);
      ClearFlagStands(s, a, k, ClearingAll(Cursor(Own(k), pending[1..])));
    }
  }

  lemma WalkStands(s: State, a: EC.State, k: nat, pick: bool)
    requires Stands(s, a) && EC.Inv(a) && k < |s.notifiers| && s.notifiers[k].Walking?
    ensures NotifierStep(s, k, pick).Some? && Stands(NotifierStep(s, k, pick).value, EC.NotifierStep(a, k, pick))
  {
    assert PointersAt(s, a, k);
    var owed := a.notifiers[k].owed;
    if owed == [] {
      var s', a' := NotifierStep(s, k, pick).value, EC.NotifierStep(a, k, pick);
      ListFrame(s.memory, s'.memory, 0, a.waitset);
      NotifierStands(s, a, s', a', k);
    } else {
      PostStands(s, a, k, Walking(Cursor(Own(k), owed[1..])));
    }
  }

  // ---------------------------------------------------------------- moving a node

  /** The node under the cursor goes from the wait set to the local list. */
  lemma PickMemory(s: State, a: EC.State, k: nat)
    requires Stands(s, a) && EC.Inv(a) && k < |s.notifiers|
    requires s.notifiers[k].Scanning? && s.notifiers[k].picked.None?
    requires k < |a.notifiers| && a.notifiers[k].Clearing? && a.notifiers[k].rest != []
    ensures var n := s.notifiers[k].cursor;
      var rest, pending, owed := a.notifiers[k].rest, a.notifiers[k].pending, a.notifiers[k].owed;
      && n == Thread(rest[0]) && Inner(s.memory, n) && HasFirst(Remove(s.memory, n), Own(k)) && s.size > 0
      && var m := Push(Remove(s.memory, n), Own(k), n);
      && IsList(m, 0, EC.Remove(a.waitset, rest[0])) && IsList(m, Own(k), [rest[0]] + owed)
      && OnlyTouches(s.memory, m, a, k) && m.Keys == s.memory.Keys
      && |EC.Remove(a.waitset, rest[0])| == |a.waitset| - 1
  {
    assert PointersAt(s, a, k);
    var rest, pending, owed := a.notifiers[k].rest, a.notifiers[k].pending, a.notifiers[k].owed;
    var x, i := rest[0], |a.waitset| - |rest|;
    assert EC.NotifierOk(a, k);
    assert a.waitset[i] == x;
    CutTouches(s, a, i);
    var m1 := Remove(s.memory, Thread(x));
    OwedStays(s, a, k, m1, x);
    PushKeeps(m1, Own(k), owed, x);
    PickRest(s, a, k, m1, x, owed);
  }

  /** What the notifier has is not touched while one of the wait set is cut out. */
  lemma OwedStays(s: State, a: EC.State, k: nat, m1: Memory, x: nat)
    requires EC.Inv(a) && k < |a.notifiers| && x in a.waitset && OnlyTouches(s.memory, m1, a, -1)
    requires IsList(s.memory, Own(k), EC.OwedBy(a.notifiers[k]))
    ensures IsList(m1, Own(k), EC.OwedBy(a.notifiers[k])) && x !in EC.OwedBy(a.notifiers[k])
  {
    var owed := EC.OwedBy(a.notifiers[k]);
    WaitingOwedNothing(a, x);
    assert multiset(EC.OwedBy(a.notifiers[k]))[x] == 0 by { EC.OwedAtLeast(a.notifiers, k, x); }
    forall u | u in owed ensures Kept(s.memory, m1, Thread(u)) {
      assert multiset(EC.OwedBy(a.notifiers[k]))[u] > 0;
      EC.OwedAtLeast(a.notifiers, k, u);
      assert !Touchable(a, -1, Thread(u));
    }
    assert !Touchable(a, -1, Head(Own(k))) && !Touchable(a, -1, Tail(Own(k)));
    assert Kept(s.memory, m1, Head(Own(k))) && Kept(s.memory, m1, Tail(Own(k)));
    ListFrame(s.memory, m1, Own(k), owed);
  }

  /** Who else waits is not the one picked and not owed anything by this notifier. */
  lemma RestIsApart(a: EC.State, k: nat, x: nat)
    requires EC.Inv(a) && k < |a.notifiers| && x in a.waitset
    ensures forall u :: u in EC.Remove(a.waitset, x) ==> u != x && u !in EC.OwedBy(a.notifiers[k])
  {
    WaitingOwedNothing(a, x);
    EC.RemoveCounts(a.waitset, x);
    assert EC.ThreadInv(a, x);
    var q' := EC.Remove(a.waitset, x);
    assert x !in q' by { assert multiset(EC.Remove(a.waitset, x))[x] == 0; }
    forall u | u in q' ensures u != x && u !in EC.OwedBy(a.notifiers[k]) {
      assert multiset(EC.Remove(a.waitset, x))[u] > 0;
      assert u in a.waitset;
      WaitingOwedNothing(a, u);
      EC.OwedAtLeast(a.notifiers, k, u);
      assert multiset(EC.OwedBy(a.notifiers[k]))[u] == 0;
    }
  }

  lemma PickRest(s: State, a: EC.State, k: nat, m1: Memory, x: nat, owed: seq<nat>)
    requires Stands(s, a) && EC.Inv(a) && k < |s.notifiers| && k < |a.notifiers| && owed == EC.OwedBy(a.notifiers[k])
    requires x in a.waitset && x !in owed && Thread(x) in m1
    requires IsList(m1, Own(k), owed) && IsList(m1, 0, EC.Remove(a.waitset, x)) && OnlyTouches(s.memory, m1, a, -1)
    requires HasFirst(m1, Own(k))
    ensures var m := Push(m1, Own(k), Thread(x));
      IsList(m, 0, EC.Remove(a.waitset, x)) && OnlyTouches(s.memory, m, a, k)
  {
    hide EC.Remove, EC.Inv, Stands, Push;
    var q' := EC.Remove(a.waitset, x);
    var m := Push(m1, Own(k), Thread(x));
    RestIsApart(a, k, x);
    WaitingOwedNothing(a, x);
    forall n | n == Head(0) || n == Tail(0) || (n.Thread? && n.t in q') ensures Kept(m1, m, n) {
      if n in m1 { PushTouches(m1, Own(k), owed, x, n); }
    }
    ListFrame(m1, m, 0, q');
    forall n | !Touchable(a, k, n) ensures Kept(s.memory, m, n) {
      assert !Touchable(a, -1, n);
      assert Kept(s.memory, m1, n);
      if n in m1 { PushTouches(m1, Own(k), owed, x, n); }
    }
  }

  lemma ScanStands(s: State, a: EC.State, k: nat, pick: bool)
    requires Stands(s, a) && EC.Inv(a) && k < |s.notifiers| && s.notifiers[k].Scanning?
    ensures NotifierStep(s, k, pick).Some? && Stands(NotifierStep(s, k, pick).value, EC.NotifierStep(a, k, pick))
  {
    assert PointersAt(s, a, k);
    var Scanning(n, picked) := s.notifiers[k];
    var rest, pending, owed := a.notifiers[k].rest, a.notifiers[k].pending, a.notifiers[k].owed;
    if picked.Some? {
      ClearFlagStands(s, a, k, Scanning(n, None));
    } else {
      assert EC.NotifierOk(a, k);
      SuffixIsChain(s.memory, 0, a.waitset, rest);
      if rest == [] { UnlockStands(s, a, k); }
      else if !pick {
        hide EC.Inv, IsList;
        SameMemoryStands(s, a, ScanStep(s, k, n, pick).value, EC.ScanStep(a, k, pick), k);
      } else {
        PickMemory(s, a, k);
        assert s.memory[n].next == Some(Cursor(0, rest[1..]));
        hide EC.Inv, IsList, Remove, Push, OnlyTouches, EC.Remove, Chain;
        NotifierStands(s, a, ScanStep(s, k, n, pick).value, EC.ScanStep(a, k, pick), k);
      }
    }
  }

  lemma StepStands(s: State, a: EC.State, k: nat, pick: bool)
    requires Stands(s, a) && EC.Inv(a) && k < |s.notifiers|
    ensures NotifierStep(s, k, pick).Some? && Stands(NotifierStep(s, k, pick).value, EC.NotifierStep(a, k, pick))
  {
    assert PointersAt(s, a, k);
    ThreadsAgree(s, a);
    hide Stands, EC.Inv;
    match s.notifiers[k]
    case Out =>
    case Checking(_) => CheckStands(s, a, k, pick);
    case Entering(_) => EnterStands(s, a, k, pick);
    case Inside(One) => PopStands(s, a, k);
    case Inside(Select) => SelectStands(s, a, k);
    case Inside(All) => TakeAllStands(s, a, k);
    case Popped(_, _) => OneStands(s, a, k, pick);
    case PostingOne(_) => OneStands(s, a, k, pick);
    case Scanning(_, _) => ScanStands(s, a, k, pick);
    case ClearingAll(_) => ClearAllStands(s, a, k, pick);
    case Walking(_) => WalkStands(s, a, k, pick);
  }

  lemma BeginStands(s: State, a: EC.State, act: EC.Action)
    requires Stands(s, a) && EC.Inv(a) && (act.Notify? || act.SetAndNotifyAll?)
    ensures Apply(s, act).Some? && Stands(Apply(s, act).value, EC.Apply(a, act))
  {
    ThreadsAgree(s, a);
    if act.k < |s.notifiers| {
      assert PointersAt(s, a, act.k);
      hide Stands, EC.Inv;
      if s.notifiers[act.k].Out? { SameMemoryStands(s, a, Apply(s, act).value, EC.Apply(a, act), act.k); }
    }
  }

  /** Whatever the protocol does next, the memory can do it without touching a node that is gone,
      and stands for the protocol's new state. */
  lemma ApplyStands(s: State, a: EC.State, act: EC.Action)
    requires Stands(s, a) && EC.Inv(a)
    ensures Apply(s, act).Some? && Stands(Apply(s, act).value, EC.Apply(a, act))
  {
    ThreadsAgree(s, a);
    hide Stands, EC.Inv;
    match act
    case Continue(t) => if t < |s.threads| { ThreadStands(s, a, t); }
    case Proceed(k, pick) => if k < |s.notifiers| { StepStands(s, a, k, pick); }
    case Notify(_, _) => BeginStands(s, a, act);
    case SetAndNotifyAll(_) => BeginStands(s, a, act);
    case Prepare(t) => if t < |s.threads| { ChooseStands(s, a, t, act); }
    case Exit(t) => if t < |s.threads| { ChooseStands(s, a, t, act); }
    case Check(t) => if t < |s.threads| { ChooseStands(s, a, t, act); }
    case Wait(t) => if t < |s.threads| { ChooseStands(s, a, t, act); }
    case Retire(t) => if t < |s.threads| { ChooseStands(s, a, t, act); }
  }

  lemma InitStands(threads: nat, notifiers: nat)
    ensures Stands(Init(threads, notifiers), EC.Init(threads, notifiers))
  {
    var s, a := Init(threads, notifiers), EC.Init(threads, notifiers);
    ResetEmpties(Nodes(threads), 0);
    forall k | 0 <= k < notifiers ensures PointersAt(s, a, k) {}
    forall t | 0 <= t < threads ensures Alive(s, t) {}
  }

  // ---------------------------------------------------------------- runs

  /** None: some step touched a node that was not in memory. */
  function Run(s: State, schedule: seq<EC.Action>): Option<State>
    decreases |schedule|
  {
    if schedule == [] then Some(s)
    else match Apply(s, schedule[0])
      case None => None
      case Some(s1) => Run(s1, schedule[1..])
  }

  lemma {:induction false} RunStands(s: State, a: EC.State, schedule: seq<EC.Action>)
    requires Stands(s, a) && EC.Inv(a)
    ensures Run(s, schedule).Some? && Stands(Run(s, schedule).value, EC.Run(a, schedule))
    decreases |schedule|
  {
    if schedule != [] {
      hide Stands, EC.Inv;
      ApplyStands(s, a, schedule[0]);
      EC.InvStep(a, schedule[0]);
      RunStands(Apply(s, schedule[0]).value, EC.Apply(a, schedule[0]), schedule[1..]);
    }
  }

  /** In every interleaving, threads reusing their nodes and dying as they please, no step ever
      touches a node that is gone, and the linked lists hold exactly what the protocol says. */
  lemma NodesAreNeverMisused(threads: nat, notifiers: nat, schedule: seq<EC.Action>)
    ensures Run(Init(threads, notifiers), schedule).Some?
    ensures Stands(Run(Init(threads, notifiers), schedule).value, EC.Reached(threads, notifiers, schedule))
  {
    InitStands(threads, notifiers);
    EC.InvInit(threads, notifiers);
    RunStands(Init(threads, notifiers), EC.Init(threads, notifiers), schedule);
  }
}

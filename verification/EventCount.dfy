/** The event count: threads that announce a wait, then sleep or change their mind; notifiers that
    take threads out of the wait set under the lock and post their semaphores outside it.  Each
    unlocked access and each locked section is one step; a notifier's locked section is several,
    because the threads' flags and the epoch are read without the lock. */
module EventCount {
  import opened Wrappers

  /** What a thread does next.  Idle to Prepared is `prepare_wait`, Prepared to Idle is `wait`
      or `retire_wait`, Leaving to Dead is the destructor. */
  datatype ThreadPc =
    | Idle | Pumping | Marking | Pushing
    | Prepared | Sleeping | Retiring | Looking | Locking
    | Leaving | Dead

  /** `sawUnset` is history: since it last announced a wait the thread saw the condition unset. */
  datatype Thread = Thread(
    pc: ThreadPc,
    inWaitset: bool,
    spurious: bool,
    semaphore: nat,
    epoch: nat,
    sawUnset: bool
  )

  /** Whom a notifier wakes: the first of the wait set, those its predicate picks, everyone. */
  datatype Kind = One | Select | All

  /** `rest` is the part of the wait set a selecting notifier has not looked at, `pending` the
      threads whose flag is still to be cleared, `owed` those whose semaphore is still to be
      posted (the notifier's local list). */
  datatype NotifierPc =
    | Out
    | Checking(kind: Kind)
    | Entering(kind: Kind)
    | Inside(kind: Kind)
    | Clearing(rest: seq<nat>, pending: seq<nat>, owed: seq<nat>)
    | Posting(owed: seq<nat>)

  /** `condition` is what the threads wait for, set once by `setter` just before it notifies. */
  datatype State = State(
    threads: seq<Thread>,
    notifiers: seq<NotifierPc>,
    waitset: seq<nat>,
    epoch: nat,
    lock: Option<nat>,
    condition: bool,
    setter: nat
  )

  datatype Action =
    | Prepare(t: nat) | Exit(t: nat) | Check(t: nat) | Wait(t: nat) | Retire(t: nat)
    | Continue(t: nat)
    | Notify(k: nat, kind: Kind)
    | SetAndNotifyAll(k: nat)
    | Proceed(k: nat, pick: bool)

  function Init(threads: nat, notifiers: nat): State {
    State(seq(threads, i => Thread(Idle, false, false, 0, 0, false)), seq(notifiers, i => Out), [], 0, None, false, 0)
  }

  // ---------------------------------------------------------------- sequences of threads

  function Remove(q: seq<nat>, t: nat): seq<nat> {
    if q == [] then []
    else if q[0] == t then q[1..]
    else [q[0]] + Remove(q[1..], t)
  }

  // ---------------------------------------------------------------- the steps

  function SetThread(s: State, t: nat, th: Thread): State
    requires t < |s.threads|
  {
    s.(threads := s.threads[t := th])
  }

  function SetNotifier(s: State, k: nat, pc: NotifierPc): State
    requires k < |s.notifiers|
  {
    s.(notifiers := s.notifiers[k := pc])
  }

  /** Waiting at the own semaphore: no step while it is zero. */
  function Down(s: State, t: nat, then_: ThreadPc): State
    requires t < |s.threads|
  {
    var th := s.threads[t];
    if th.semaphore == 0 then s
    else SetThread(s, t, th.(semaphore := th.semaphore - 1, pc := then_, sawUnset := false))
  }

  function PushStep(s: State, t: nat): State
    requires t < |s.threads|
  {
    var th := s.threads[t];
    SetThread(s, t, th.(epoch := s.epoch, pc := Prepared)).(waitset := [t] + s.waitset)
  }

  function RemoveStep(s: State, t: nat): State
    requires t < |s.threads|
  {
    var th := s.threads[t];
    SetThread(s, t, th.(inWaitset := false, spurious := false, pc := Idle, sawUnset := false))
      .(waitset := Remove(s.waitset, t))
  }

  function ThreadStep(s: State, t: nat): State
    requires t < |s.threads|
  {
    var th := s.threads[t];
    match th.pc
    case Pumping => Down(s, t, Marking)
    case Marking => SetThread(s, t, th.(inWaitset := true, pc := Pushing))
    case Pushing => if s.lock.Some? then s else PushStep(s, t)
    case Sleeping => Down(s, t, Idle)
    case Retiring => SetThread(s, t, th.(spurious := true, pc := Looking))
    case Looking => SetThread(s, t, if th.inWaitset then th.(pc := Locking) else th.(pc := Idle, sawUnset := false))
    case Locking =>
      if s.lock.Some? then s
      else if th.inWaitset then RemoveStep(s, t)
      else SetThread(s, t, th.(pc := Idle, sawUnset := false))
    case Leaving => Down(s, t, Dead)
    case _ => s
  }

  /** A new wait first pays for the last spurious wake-up; so does the destructor. */
  function PrepareStep(s: State, t: nat): State
    requires t < |s.threads|
  {
    var th := s.threads[t];
    SetThread(s, t, if th.spurious then th.(spurious := false, pc := Pumping) else th.(pc := Marking))
  }

  /** What a notifier does first under the lock.  Flags and posts come later. */
  function TakeStep(s: State, k: nat): State
    requires k < |s.notifiers| && s.notifiers[k].Inside?
  {
    var q := s.waitset;
    match s.notifiers[k].kind
    case One =>
      if q == [] then SetNotifier(s, k, Clearing([], [], []))
      else SetNotifier(s, k, Clearing([], [q[0]], [q[0]])).(waitset := q[1..])
    case Select => SetNotifier(s, k, Clearing(q, [], []))
    case All => SetNotifier(s, k, Clearing([], q, q)).(waitset := [])
  }

  function ClearFlag(s: State, k: nat): State
    requires k < |s.notifiers| && s.notifiers[k].Clearing? && s.notifiers[k].pending != []
    requires s.notifiers[k].pending[0] < |s.threads|
  {
    var pc := s.notifiers[k];
    SetThread(SetNotifier(s, k, pc.(pending := pc.pending[1..])), pc.pending[0],
              s.threads[pc.pending[0]].(inWaitset := false))
  }

  /** Look at the next thread of the wait set; if picked, it moves to the front of the local list. */
  function ScanStep(s: State, k: nat, pick: bool): State
    requires k < |s.notifiers| && s.notifiers[k].Clearing? && s.notifiers[k].rest != []
  {
    var Clearing(rest, pending, owed) := s.notifiers[k];
    if pick then
      SetNotifier(s, k, Clearing(rest[1..], [rest[0]], [rest[0]] + owed))
        .(waitset := Remove(s.waitset, rest[0]))
    else SetNotifier(s, k, Clearing(rest[1..], pending, owed))
  }

  function Unlock(s: State, k: nat): State
    requires k < |s.notifiers| && s.notifiers[k].Clearing?
  {
    SetNotifier(s, k, Posting(s.notifiers[k].owed)).(lock := None)
  }

  function ClearStep(s: State, k: nat, pick: bool): State
    requires k < |s.notifiers| && s.notifiers[k].Clearing?
  {
    var Clearing(rest, pending, owed) := s.notifiers[k];
    if pending != [] then (if pending[0] < |s.threads| then ClearFlag(s, k) else s)
    else if rest != [] then ScanStep(s, k, pick)
    else Unlock(s, k)
  }

  function PostStep(s: State, k: nat): State
    requires k < |s.notifiers| && s.notifiers[k].Posting?
  {
    var owed := s.notifiers[k].owed;
    if owed == [] then SetNotifier(s, k, Out)
    else if owed[0] < |s.threads| then
      SetThread(SetNotifier(s, k, Posting(owed[1..])), owed[0],
                s.threads[owed[0]].(semaphore := s.threads[owed[0]].semaphore + 1))
    else s
  }

  function NotifierStep(s: State, k: nat, pick: bool): State
    requires k < |s.notifiers|
  {
    match s.notifiers[k]
    case Out => s
    case Checking(kind) => SetNotifier(s, k, if s.waitset == [] then Out else Entering(kind))
    case Entering(kind) =>
      if s.lock.Some? then s
      else SetNotifier(s, k, Inside(kind)).(lock := Some(k), epoch := (s.epoch + 1) % 0x1_0000_0000)
    case Inside(kind) => TakeStep(s, k)
    case Clearing(_, _, _) => ClearStep(s, k, pick)
    case Posting(_) => PostStep(s, k)
  }

  function Apply(s: State, a: Action): State {
    match a
    case Prepare(t) => if t < |s.threads| && s.threads[t].pc == Idle then PrepareStep(s, t) else s
    case Exit(t) =>
      if t < |s.threads| && s.threads[t].pc == Idle then
        SetThread(s, t, s.threads[t].(pc := if s.threads[t].spurious then Leaving else Dead))
      else s
    case Check(t) =>
      if t < |s.threads| && s.threads[t].pc == Prepared then
        SetThread(s, t, if s.condition then s.threads[t].(pc := Retiring) else s.threads[t].(sawUnset := true))
      else s
    case Wait(t) =>
      if t < |s.threads| && s.threads[t].pc == Prepared then
        SetThread(s, t, s.threads[t].(pc := if s.threads[t].epoch == s.epoch then Sleeping else Retiring))
      else s
    case Retire(t) =>
      if t < |s.threads| && s.threads[t].pc == Prepared then SetThread(s, t, s.threads[t].(pc := Retiring))
      else s
    case Continue(t) => if t < |s.threads| then ThreadStep(s, t) else s
    case Notify(k, kind) =>
      if k < |s.notifiers| && s.notifiers[k].Out? then SetNotifier(s, k, Checking(kind)) else s
    case SetAndNotifyAll(k) =>
      if k < |s.notifiers| && s.notifiers[k].Out? then
        SetNotifier(s, k, Checking(All)).(condition := true, setter := if s.condition then s.setter else k)
      else s
    case Proceed(k, pick) => if k < |s.notifiers| then NotifierStep(s, k, pick) else s
  }

  // ---------------------------------------------------------------- the invariant

  function OwedBy(pc: NotifierPc): seq<nat> {
    if pc.Clearing? || pc.Posting? then pc.owed else []
  }

  /** How many posts thread t is owed. */
  ghost function Owed(notifiers: seq<NotifierPc>, t: nat): nat {
    if notifiers == [] then 0
    else Owed(notifiers[..|notifiers| - 1], t) + multiset(OwedBy(notifiers[|notifiers| - 1]))[t]
  }

  /** Is a wake-up due to this thread: it announced a wait and has not finished with it, or it
      finished without consuming the wake-up and the debt is still open. */
  function Due(th: Thread): nat {
    match th.pc
    case Idle => if th.spurious then 1 else 0
    case Marking => 0
    case Pushing => 0
    case Dead => 0
    case _ => 1
  }

  ghost predicate Conserved(s: State, t: nat)
    requires t < |s.threads|
  {
    multiset(s.waitset)[t] + Owed(s.notifiers, t) + s.threads[t].semaphore == Due(s.threads[t])
  }

  /** The threads whose flag the holder of the lock has yet to clear. */
  ghost function Pending(s: State): seq<nat> {
    if s.lock.Some? && s.lock.value < |s.notifiers| && s.notifiers[s.lock.value].Clearing?
    then s.notifiers[s.lock.value].pending else []
  }

  predicate Waits(pc: ThreadPc) {
    pc.Prepared? || pc.Sleeping? || pc.Retiring? || pc.Looking? || pc.Locking?
  }

  ghost predicate ThreadOk(s: State, t: nat)
    requires t < |s.threads|
  {
    var th := s.threads[t];
    && (th.inWaitset <==> t in s.waitset || th.pc == Pushing || t in Pending(s))
    && (t in s.waitset ==> Waits(th.pc))
    && (th.spurious ==> th.pc.Idle? || th.pc.Looking? || th.pc.Locking? || th.pc.Leaving? || th.pc.Dead?)
    && (th.pc.Looking? || th.pc.Locking? ==> th.spurious)
    && (th.sawUnset ==> Waits(th.pc))
  }

  /** The notifier still has its locked section before it and will take everyone. */
  ghost predicate WillTakeAll(s: State, k: nat) {
    && k < |s.notifiers|
    && (s.notifiers[k] == Checking(All) || s.notifiers[k] == Entering(All) || s.notifiers[k] == Inside(All))
  }

  ghost predicate NotLost(s: State, t: nat)
    requires t < |s.threads|
  {
    s.condition && s.threads[t].sawUnset && t in s.waitset ==> WillTakeAll(s, s.setter)
  }

  ghost predicate IsSuffix(rest: seq<nat>, q: seq<nat>) {
    |rest| <= |q| && q[|q| - |rest|..] == rest
  }

  ghost predicate NotifierOk(s: State, k: nat)
    requires k < |s.notifiers|
  {
    var pc := s.notifiers[k];
    && (pc.Inside? || pc.Clearing? <==> s.lock == Some(k))
    && (pc.Clearing? ==> multiset(pc.pending) <= multiset(pc.owed) && IsSuffix(pc.rest, s.waitset))
    && (forall t :: t in OwedBy(pc) ==> t < |s.threads|)
  }

  ghost predicate ThreadInv(s: State, t: nat)
    requires t < |s.threads|
  {
    Conserved(s, t) && ThreadOk(s, t) && NotLost(s, t)
  }

  ghost predicate Inv(s: State) {
    && (forall t :: 0 <= t < |s.threads| ==> ThreadInv(s, t))
    && (forall k :: 0 <= k < |s.notifiers| ==> NotifierOk(s, k))
    && (forall t :: t in s.waitset ==> t < |s.threads|)
    && (s.lock.Some? ==> s.lock.value < |s.notifiers|)
  }

  // ---------------------------------------------------------------- every step keeps it

  lemma {:induction false} OwedUpdate(ns: seq<NotifierPc>, k: nat, pc: NotifierPc, t: nat)
    requires k < |ns|
    ensures Owed(ns[k := pc], t) + multiset(OwedBy(ns[k]))[t] == Owed(ns, t) + multiset(OwedBy(pc))[t]
  {
    var n := |ns| - 1;
    if k < n {
      assert ns[k := pc][..n] == ns[..n][k := pc];
      OwedUpdate(ns[..n], k, pc, t);
    } else {
      assert ns[k := pc][..n] == ns[..n];
    }
  }

  lemma {:induction false} OwedAtLeast(ns: seq<NotifierPc>, k: nat, t: nat)
    requires k < |ns|
    ensures multiset(OwedBy(ns[k]))[t] <= Owed(ns, t)
  {
    if k < |ns| - 1 { OwedAtLeast(ns[..|ns| - 1], k, t); }
  }

  lemma {:induction false} NoneOwed(n: nat, t: nat)
    ensures Owed(seq(n, i => Out), t) == 0
  {
    if n > 0 {
      assert seq(n, i => Out)[..n - 1] == seq(n - 1, i => Out);
      NoneOwed(n - 1, t);
    }
  }

  lemma {:induction false} RemoveCounts(q: seq<nat>, t: nat)
    requires t in q
    ensures multiset(Remove(q, t)) == multiset(q) - multiset{t}
  {
    assert q == [q[0]] + q[1..];
    if q[0] != t { RemoveCounts(q[1..], t); }
  }

  /** Removing the head of a suffix leaves its tail a suffix, when the head stands only there. */
  lemma {:induction false} RemoveSuffixHead(q: seq<nat>, rest: seq<nat>)
    requires IsSuffix(rest, q) && rest != [] && multiset(q)[rest[0]] <= 1
    ensures IsSuffix(rest[1..], Remove(q, rest[0]))
  {
    assert q == [q[0]] + q[1..];
    if |q| > |rest| {
      assert IsSuffix(rest, q[1..]);
      assert rest[0] in q[1..];
      RemoveSuffixHead(q[1..], rest);
    }
  }

  lemma InvInit(threads: nat, notifiers: nat)
    ensures Inv(Init(threads, notifiers))
  {
    forall t: nat ensures Owed(Init(threads, notifiers).notifiers, t) == 0 { NoneOwed(notifiers, t); }
  }

  /** A step of thread t that leaves wait set, notifiers and lock alone. */
  lemma InvSetThread(s: State, t: nat, th: Thread)
    requires Inv(s) && t < |s.threads| && ThreadInv(SetThread(s, t, th), t)
    ensures Inv(SetThread(s, t, th))
  {
    var s' := SetThread(s, t, th);
    forall u | 0 <= u < |s.threads| ensures ThreadInv(s', u) {
      assert ThreadInv(s, u);
    }
    forall k | 0 <= k < |s.notifiers| ensures NotifierOk(s', k) {
      assert NotifierOk(s, k);
    }
  }

  lemma InvPush(s: State, t: nat)
    requires Inv(s) && t < |s.threads| && s.threads[t].pc == Pushing && s.lock.None?
    ensures Inv(PushStep(s, t))
  {
    var s' := PushStep(s, t);
    forall u | 0 <= u < |s.threads| ensures ThreadInv(s', u) {
      assert ThreadInv(s, u);
      assert multiset(s'.waitset) == multiset{t} + multiset(s.waitset);
    }
    forall k | 0 <= k < |s.notifiers| ensures NotifierOk(s', k) {
      assert NotifierOk(s, k);
    }
  }

  lemma RemoveKeeps(s: State, t: nat, u: nat)
    requires t < |s.threads| && u < |s.threads| && ThreadInv(s, t) && ThreadInv(s, u)
    requires s.threads[t].pc == Locking && s.threads[t].inWaitset && s.lock.None?
    ensures ThreadInv(RemoveStep(s, t), u)
  {
    hide Owed, Remove;
    var s' := RemoveStep(s, t);
    RemoveCounts(s.waitset, t);
    assert u in s'.waitset <==> multiset(s'.waitset)[u] > 0;
    assert u in s.waitset <==> multiset(s.waitset)[u] > 0;
    assert Pending(s) == Pending(s') == [];
    assert Conserved(s', u);
    assert NotLost(s', u);
  }

  lemma InvRemove(s: State, t: nat)
    requires Inv(s) && t < |s.threads| && s.threads[t].pc == Locking && s.threads[t].inWaitset && s.lock.None?
    ensures Inv(RemoveStep(s, t))
  {
    assert t in s.waitset by { assert ThreadInv(s, t); }
    RemoveCounts(s.waitset, t);
    hide ThreadInv, Owed, Remove;
    var s' := RemoveStep(s, t);
    forall u | 0 <= u < |s.threads| ensures ThreadInv(s', u) {
      RemoveKeeps(s, t, u);
    }
    forall k | 0 <= k < |s.notifiers| ensures NotifierOk(s', k) {
      assert NotifierOk(s, k);
    }
    forall u | u in s'.waitset ensures u < |s.threads| {
      assert multiset(s'.waitset)[u] > 0;
      assert u in s.waitset;
    }
  }

  lemma InvPrivate(s: State, t: nat)
    requires Inv(s) && t < |s.threads| && s.threads[t].pc in {Marking, Retiring, Looking}
    ensures Inv(ThreadStep(s, t))
  {
    var th := s.threads[t];
    assert ThreadInv(s, t);
    hide Inv, Owed;
    var th' := if th.pc == Marking then th.(inWaitset := true, pc := Pushing)
               else if th.pc == Retiring then th.(spurious := true, pc := Looking)
               else if th.inWaitset then th.(pc := Locking) else th.(pc := Idle, sawUnset := false);
    var s' := SetThread(s, t, th');
    assert Pending(s') == Pending(s) && th.semaphore == th'.semaphore;
    assert Due(th') == Due(th);
    assert ThreadOk(s', t);
    assert NotLost(s', t) by {
      assert th'.sawUnset ==> th.sawUnset;
      assert forall k :: WillTakeAll(s', k) == WillTakeAll(s, k);
    }
    InvSetThread(s, t, th');
  }

  lemma InvThread(s: State, t: nat)
    requires Inv(s) && t < |s.threads|
    ensures Inv(ThreadStep(s, t))
  {
    var th := s.threads[t];
    match th.pc
    case Pushing => if s.lock.None? { InvPush(s, t); }
    case Locking =>
      if s.lock.None? {
        if th.inWaitset { InvRemove(s, t); } else { InvGiveUp(s, t); }
      }
    case Pumping => InvDown(s, t, Marking);
    case Sleeping => InvDown(s, t, Idle);
    case Leaving => InvDown(s, t, Dead);
    case Marking => InvPrivate(s, t);
    case Retiring => InvPrivate(s, t);
    case Looking => InvPrivate(s, t);
    case _ =>
  }

  lemma InvGiveUp(s: State, t: nat)
    requires Inv(s) && t < |s.threads| && s.threads[t].pc == Locking && !s.threads[t].inWaitset
    ensures Inv(SetThread(s, t, s.threads[t].(pc := Idle, sawUnset := false)))
  {
    assert ThreadInv(s, t);
    InvSetThread(s, t, s.threads[t].(pc := Idle, sawUnset := false));
  }

  lemma InvDown(s: State, t: nat, then_: ThreadPc)
    requires Inv(s) && t < |s.threads| && Due(s.threads[t]) == 1
    requires (s.threads[t].pc, then_) in {(Pumping, Marking), (Sleeping, Idle), (Leaving, Dead)}
    ensures Inv(Down(s, t, then_))
  {
    assert ThreadInv(s, t);
    var th := s.threads[t];
    hide Inv, Owed;
    if th.semaphore > 0 {
      var s' := Down(s, t, then_);
      assert Pending(s') == Pending(s);
      assert Conserved(s', t);
      assert t in s.waitset <==> multiset(s.waitset)[t] > 0;
      InvSetThread(s, t, th.(semaphore := th.semaphore - 1, pc := then_, sawUnset := false));
    }
  }

  /** A step of notifier k within its pc; wait set and lock untouched. */
  lemma InvSetNotifier(s: State, k: nat, pc: NotifierPc)
    requires Inv(s) && k < |s.notifiers|
    requires OwedBy(pc) == OwedBy(s.notifiers[k]) == [] && !pc.Clearing? && !s.notifiers[k].Clearing?
    requires pc.Inside? <==> s.notifiers[k].Inside?
    requires s.waitset != [] && WillTakeAll(s, k) ==> WillTakeAll(SetNotifier(s, k, pc), k)
    ensures Inv(SetNotifier(s, k, pc))
  {
    hide Owed;
    var s' := SetNotifier(s, k, pc);
    forall t | 0 <= t < |s.threads| ensures ThreadInv(s', t) {
      assert ThreadInv(s, t);
      OwedUpdate(s.notifiers, k, pc, t);
      assert Pending(s') == Pending(s);
    }
    forall j | 0 <= j < |s.notifiers| ensures NotifierOk(s', j) {
      assert NotifierOk(s, j);
    }
  }

  function Enter(s: State, k: nat, kind: Kind, epoch: nat): State
    requires k < |s.notifiers|
  {
    SetNotifier(s, k, Inside(kind)).(lock := Some(k), epoch := epoch)
  }

  lemma InvEnter(s: State, k: nat, epoch: nat)
    requires Inv(s) && k < |s.notifiers| && s.notifiers[k].Entering? && s.lock.None?
    ensures Inv(Enter(s, k, s.notifiers[k].kind, epoch))
  {
    hide Owed;
    var pc := Inside(s.notifiers[k].kind);
    var s' := Enter(s, k, s.notifiers[k].kind, epoch);
    forall t | 0 <= t < |s.threads| ensures ThreadInv(s', t) {
      assert ThreadInv(s, t);
      OwedUpdate(s.notifiers, k, pc, t);
      assert Pending(s') == Pending(s);
    }
    forall j | 0 <= j < |s.notifiers| ensures NotifierOk(s', j) {
      assert NotifierOk(s, j);
    }
  }

  /** What a notifier under the lock may do to thread t: move it from the wait set to the local
      list.  Its flag stays on while the clearing is pending. */
  lemma MoveKeeps(s: State, s': State, k: nat, t: nat)
    requires k < |s.notifiers| == |s'.notifiers| && t < |s.threads| && ThreadInv(s, t)
    requires s'.threads == s.threads && s'.notifiers == s.notifiers[k := s'.notifiers[k]]
    requires s'.condition == s.condition && s'.setter == s.setter
    requires multiset(s'.waitset)[t] + multiset(OwedBy(s'.notifiers[k]))[t]
      == multiset(s.waitset)[t] + multiset(OwedBy(s.notifiers[k]))[t]
    requires t in s.waitset || t in Pending(s) <==> t in s'.waitset || t in Pending(s')
    requires t in s'.waitset ==> t in s.waitset && !WillTakeAll(s, k)
    ensures ThreadInv(s', t)
  {
    OwedUpdate(s.notifiers, k, s'.notifiers[k], t);
    hide Owed;
    assert s.setter != k ==> WillTakeAll(s', s.setter) == WillTakeAll(s, s.setter);
  }

  lemma OthersOk(s: State, s': State, k: nat)
    requires Inv(s) && k < |s.notifiers| == |s'.notifiers| && |s'.threads| == |s.threads|
    requires s'.notifiers == s.notifiers[k := s'.notifiers[k]]
    requires s.lock == Some(k) && (s'.lock == s.lock || s'.lock.None?)
    requires NotifierOk(s', k)
    ensures forall j :: 0 <= j < |s'.notifiers| ==> NotifierOk(s', j)
  {
    forall j | 0 <= j < |s'.notifiers| ensures NotifierOk(s', j) {
      assert NotifierOk(s, j);
    }
  }

  lemma InvTake(s: State, k: nat)
    requires Inv(s) && k < |s.notifiers| && s.notifiers[k].Inside?
    ensures Inv(TakeStep(s, k))
  {
    hide ThreadInv, Owed;
    var s' := TakeStep(s, k);
    assert NotifierOk(s, k);
    TakeOk(s, k);
    OthersOk(s, s', k);
    forall t | 0 <= t < |s.threads| ensures ThreadInv(s', t) {
      hide Inv, NotifierOk;
      TakeMoves(s, k, t);
      MoveKeeps(s, s', k, t);
    }
  }

  lemma TakeMoves(s: State, k: nat, t: nat)
    requires k < |s.notifiers| && s.notifiers[k].Inside? && s.lock == Some(k)
    ensures var s' := TakeStep(s, k);
      && multiset(s'.waitset)[t] + multiset(OwedBy(s'.notifiers[k]))[t] == multiset(s.waitset)[t]
      && (t in s.waitset <==> t in s'.waitset || t in Pending(s'))
      && (t in s'.waitset ==> s.notifiers[k].kind != All)
  {
    var q := s.waitset;
    match s.notifiers[k].kind
    case One =>
      if q != [] {
        assert q == [q[0]] + q[1..];
        assert multiset(q) == multiset([q[0]]) + multiset(q[1..]);
      }
    case Select =>
    case All =>
  }

  lemma TakeOk(s: State, k: nat)
    requires k < |s.notifiers| && s.notifiers[k].Inside? && NotifierOk(s, k)
    requires forall t :: t in s.waitset ==> t < |s.threads|
    ensures NotifierOk(TakeStep(s, k), k)
    ensures forall t :: t in TakeStep(s, k).waitset ==> t < |s.threads|
  {
    var q := s.waitset;
    var s' := TakeStep(s, k);
    assert forall u :: u in q ==> u < |s.threads|;
    assert IsSuffix([], s'.waitset) by { assert s'.waitset[|s'.waitset|..] == []; }
    hide NotifierOk;
    match s.notifiers[k].kind
    case One =>
      if q != [] {
        assert q[0] in q && forall u :: u in q[1..] ==> u in q;
        TookOk(s, s', k, [], [q[0]]);
      } else {
        TookOk(s, s', k, [], []);
      }
    case Select =>
      assert q[0..] == q;
      TookOk(s, s', k, q, []);
    case All => TookOk(s, s', k, [], q);
  }

  lemma TookOk(s: State, s': State, k: nat, rest: seq<nat>, taken: seq<nat>)
    requires k < |s.notifiers| == |s'.notifiers| && s'.notifiers[k] == Clearing(rest, taken, taken)
    requires s'.lock == Some(k) && |s'.threads| == |s.threads|
    requires (forall u :: u in taken ==> u < |s.threads|) && IsSuffix(rest, s'.waitset)
    ensures NotifierOk(s', k)
  {
  }

  lemma InvUnlock(s: State, k: nat)
    requires Inv(s) && k < |s.notifiers| && s.notifiers[k].Clearing? && s.notifiers[k].pending == []
    ensures Inv(Unlock(s, k))
  {
    hide ThreadInv, Owed;
    var s' := Unlock(s, k);
    assert NotifierOk(s, k);
    forall t | 0 <= t < |s.threads| ensures ThreadInv(s', t) {
      assert Pending(s) == Pending(s') == [];
      MoveKeeps(s, s', k, t);
    }
    assert OwedBy(s'.notifiers[k]) == OwedBy(s.notifiers[k]);
    OthersOk(s, s', k);
  }

  lemma InvPass(s: State, k: nat)
    requires Inv(s) && k < |s.notifiers| && s.notifiers[k].Clearing?
    requires s.notifiers[k].pending == [] && s.notifiers[k].rest != []
    ensures Inv(ScanStep(s, k, false))
  {
    hide ThreadInv, Owed;
    var s' := ScanStep(s, k, false);
    assert NotifierOk(s, k);
    forall t | 0 <= t < |s.threads| ensures ThreadInv(s', t) {
      assert Pending(s) == Pending(s') == [];
      MoveKeeps(s, s', k, t);
    }
    assert OwedBy(s'.notifiers[k]) == OwedBy(s.notifiers[k]);
    OthersOk(s, s', k);
  }

  lemma PickMoves(s: State, k: nat, t: nat)
    requires k < |s.notifiers| && s.notifiers[k].Clearing? && s.lock == Some(k)
    requires s.notifiers[k].pending == [] && s.notifiers[k].rest != []
    requires s.notifiers[k].rest[0] in s.waitset
    ensures var s' := ScanStep(s, k, true);
      && multiset(s'.waitset)[t] + multiset(OwedBy(s'.notifiers[k]))[t]
          == multiset(s.waitset)[t] + multiset(OwedBy(s.notifiers[k]))[t]
      && (t in s.waitset <==> t in s'.waitset || t in Pending(s'))
      && (t in s'.waitset ==> t in s.waitset)
  {
    var s' := ScanStep(s, k, true);
    var x := s.notifiers[k].rest[0];
    RemoveCounts(s.waitset, x);
    hide Remove;
    assert Pending(s') == [x];
    assert t in s.waitset <==> multiset(s.waitset)[t] > 0;
    assert t in s'.waitset <==> multiset(s'.waitset)[t] > 0;
  }

  lemma PickHead(s: State, k: nat)
    requires Inv(s) && k < |s.notifiers| && s.notifiers[k].Clearing? && s.notifiers[k].rest != []
    ensures var rest := s.notifiers[k].rest;
      rest[0] in s.waitset && IsSuffix(rest[1..], Remove(s.waitset, rest[0])) && rest[0] < |s.threads|
  {
    var q, rest := s.waitset, s.notifiers[k].rest;
    assert NotifierOk(s, k);
    assert rest[0] == q[|q| - |rest|] && rest[0] in q;
    assert ThreadInv(s, rest[0]);
    RemoveSuffixHead(q, rest);
  }

  lemma InvPick(s: State, k: nat)
    requires Inv(s) && k < |s.notifiers| && s.notifiers[k].Clearing?
    requires s.notifiers[k].pending == [] && s.notifiers[k].rest != []
    ensures Inv(ScanStep(s, k, true))
  {
    PickHead(s, k);
    hide ThreadInv, Owed, Remove;
    var s' := ScanStep(s, k, true);
    assert NotifierOk(s, k);
    assert Pending(s) == [];
    PickOk(s, k);
    OthersOk(s, s', k);
    forall t | 0 <= t < |s.threads| ensures ThreadInv(s', t) {
      hide NotifierOk;
      PickMoves(s, k, t);
      MoveKeeps(s, s', k, t);
    }
    forall u | u in s'.waitset ensures u < |s.threads| {
      PickMoves(s, k, u);
    }
  }

  lemma PickOk(s: State, k: nat)
    requires k < |s.notifiers| && s.notifiers[k].Clearing? && NotifierOk(s, k)
    requires s.notifiers[k].pending == [] && s.notifiers[k].rest != []
    requires s.notifiers[k].rest[0] < |s.threads|
    requires IsSuffix(s.notifiers[k].rest[1..], Remove(s.waitset, s.notifiers[k].rest[0]))
    ensures NotifierOk(ScanStep(s, k, true), k)
  {
    hide Remove;
    var Clearing(rest, pending, owed) := s.notifiers[k];
    assert multiset([rest[0]]) <= multiset([rest[0]] + owed);
    assert forall t :: t in owed ==> t in OwedBy(s.notifiers[k]);
  }

  /** A thread whose flag is pending is owed exactly one post, so it is pending only once. */
  lemma PendingOnce(s: State, k: nat, t: nat)
    requires k < |s.notifiers| && t < |s.threads| && s.notifiers[k].Clearing?
    requires NotifierOk(s, k) && Conserved(s, t) && s.notifiers[k].pending != []
    ensures var pending := s.notifiers[k].pending;
      t in pending[1..] <==> t in pending && t != pending[0]
  {
    var Clearing(rest, pending, owed) := s.notifiers[k];
    OwedAtLeast(s.notifiers, k, t);
    hide Owed;
    assert pending == [pending[0]] + pending[1..];
    assert multiset(pending)[t] <= multiset(owed)[t] <= 1;
    assert multiset(pending)[t] == multiset([pending[0]])[t] + multiset(pending[1..])[t];
    assert t in pending[1..] <==> multiset(pending[1..])[t] > 0;
  }

  /** What a notifier past its taking may do to thread t: hand over a post, clear the flag. */
  lemma HandOver(s: State, s': State, k: nat, t: nat, semaphore: nat, inWaitset: bool)
    requires k < |s.notifiers| == |s'.notifiers| && (s.notifiers[k].Clearing? || s.notifiers[k].Posting?)
    requires t < |s.threads| == |s'.threads| && ThreadInv(s, t)
    requires s'.notifiers == s.notifiers[k := s'.notifiers[k]] && s'.waitset == s.waitset
    requires s'.condition == s.condition && s'.setter == s.setter
    requires s'.threads[t] == s.threads[t].(semaphore := semaphore, inWaitset := inWaitset)
    requires multiset(OwedBy(s'.notifiers[k]))[t] + semaphore
      == multiset(OwedBy(s.notifiers[k]))[t] + s.threads[t].semaphore
    requires inWaitset <==> t in s.waitset || s.threads[t].pc == Pushing || t in Pending(s')
    ensures ThreadInv(s', t)
  {
    OwedUpdate(s.notifiers, k, s'.notifiers[k], t);
    hide Owed;
    assert Conserved(s', t) && ThreadOk(s', t);
    assert s.setter != k ==> WillTakeAll(s', s.setter) == WillTakeAll(s, s.setter);
  }

  lemma ClearKeeps(s: State, k: nat, t: nat)
    requires k < |s.notifiers| && s.notifiers[k].Clearing? && NotifierOk(s, k)
    requires s.notifiers[k].pending != [] && s.notifiers[k].pending[0] < |s.threads|
    requires t < |s.threads| && ThreadInv(s, t)
    ensures ThreadInv(ClearFlag(s, k), t)
  {
    var s' := ClearFlag(s, k);
    PendingOnce(s, k, t);
    PendingMeansGone(s, k, t);
    assert Pending(s') == s.notifiers[k].pending[1..];
    hide Conserved, NotLost;
    HandOver(s, s', k, t, s.threads[t].semaphore, s'.threads[t].inWaitset);
  }

  lemma PendingMeansGone(s: State, k: nat, t: nat)
    requires k < |s.notifiers| && s.notifiers[k].Clearing? && NotifierOk(s, k)
    requires t < |s.threads| && ThreadInv(s, t)
    ensures t in s.notifiers[k].pending ==> t !in s.waitset && s.threads[t].pc != Pushing
  {
    OwedAtLeast(s.notifiers, k, t);
    hide Owed;
    var Clearing(rest, pending, owed) := s.notifiers[k];
    assert multiset(pending)[t] <= multiset(owed)[t];
    assert t in pending <==> multiset(pending)[t] > 0;
    assert t in s.waitset <==> multiset(s.waitset)[t] > 0;
  }

  lemma PostKeeps(s: State, k: nat, t: nat)
    requires k < |s.notifiers| && s.notifiers[k].Posting? && NotifierOk(s, k)
    requires s.notifiers[k].owed != [] ==> s.notifiers[k].owed[0] < |s.threads|
    requires t < |s.threads| && ThreadInv(s, t)
    ensures ThreadInv(PostStep(s, k), t)
  {
    var s' := PostStep(s, k);
    var owed := s.notifiers[k].owed;
    if owed != [] {
      assert owed == [owed[0]] + owed[1..];
      assert multiset(owed)[t] == multiset([owed[0]])[t] + multiset(owed[1..])[t];
    }
    assert Pending(s') == Pending(s);
    hide Conserved, NotLost;
    HandOver(s, s', k, t, s'.threads[t].semaphore, s.threads[t].inWaitset);
  }

  lemma InvClearFlag(s: State, k: nat)
    requires Inv(s) && k < |s.notifiers| && s.notifiers[k].Clearing? && s.notifiers[k].pending != []
    ensures s.notifiers[k].pending[0] < |s.threads|
    ensures Inv(ClearFlag(s, k))
  {
    hide ThreadInv;
    var Clearing(rest, pending, owed) := s.notifiers[k];
    assert NotifierOk(s, k);
    assert pending == [pending[0]] + pending[1..];
    assert multiset(pending)[pending[0]] > 0;
    assert pending[0] in OwedBy(s.notifiers[k]);
    var s' := ClearFlag(s, k);
    forall t | 0 <= t < |s.threads| ensures ThreadInv(s', t) {
      ClearKeeps(s, k, t);
    }
    forall j | 0 <= j < |s.notifiers| ensures NotifierOk(s', j) {
      if j == k { ClearOk(s, k); } else { assert NotifierOk(s, j); }
    }
  }

  lemma ClearOk(s: State, k: nat)
    requires k < |s.notifiers| && s.notifiers[k].Clearing? && NotifierOk(s, k)
    requires s.notifiers[k].pending != [] && s.notifiers[k].pending[0] < |s.threads|
    ensures NotifierOk(ClearFlag(s, k), k)
  {
    var s' := ClearFlag(s, k);
    var Clearing(rest, pending, owed) := s.notifiers[k];
    assert pending == [pending[0]] + pending[1..];
    assert multiset(pending) == multiset([pending[0]]) + multiset(pending[1..]);
    assert s'.notifiers[k] == Clearing(rest, pending[1..], owed);
    assert OwedBy(s'.notifiers[k]) == OwedBy(s.notifiers[k]);
  }

  lemma InvClear(s: State, k: nat, pick: bool)
    requires Inv(s) && k < |s.notifiers| && s.notifiers[k].Clearing?
    ensures Inv(ClearStep(s, k, pick))
  {
    hide Inv;
    var Clearing(rest, pending, owed) := s.notifiers[k];
    if pending != [] { InvClearFlag(s, k); }
    else if rest == [] { InvUnlock(s, k); }
    else if pick { InvPick(s, k); }
    else { InvPass(s, k); }
  }

  lemma InvPost(s: State, k: nat)
    requires Inv(s) && k < |s.notifiers| && s.notifiers[k].Posting?
    ensures Inv(PostStep(s, k))
  {
    hide ThreadInv;
    var s' := PostStep(s, k);
    assert NotifierOk(s, k);
    assert s.notifiers[k].owed != [] ==> s.notifiers[k].owed[0] in OwedBy(s.notifiers[k]);
    forall t | 0 <= t < |s.threads| ensures ThreadInv(s', t) {
      PostKeeps(s, k, t);
    }
    assert |s'.threads| == |s.threads|;
    assert forall t :: t in OwedBy(s'.notifiers[k]) ==> t in OwedBy(s.notifiers[k]);
    forall j | 0 <= j < |s.notifiers| ensures NotifierOk(s', j) {
      assert NotifierOk(s, j);
    }
  }

  lemma InvNotifier(s: State, k: nat, pick: bool)
    requires Inv(s) && k < |s.notifiers|
    ensures Inv(NotifierStep(s, k, pick))
  {
    hide Inv, NotifierOk, ThreadInv;
    match s.notifiers[k]
    case Out =>
    case Checking(kind) => InvSetNotifier(s, k, if s.waitset == [] then Out else Entering(kind));
    case Entering(kind) => if s.lock.None? { InvEnter(s, k, (s.epoch + 1) % 0x1_0000_0000); }
    case Inside(kind) => InvTake(s, k);
    case Clearing(_, _, _) => InvClear(s, k, pick);
    case Posting(_) => InvPost(s, k);
  }

  lemma InvSetAndNotifyAll(s: State, k: nat)
    requires Inv(s) && k < |s.notifiers| && s.notifiers[k].Out?
    ensures Inv(Apply(s, SetAndNotifyAll(k)))
  {
    InvSetNotifier(s, k, Checking(All));
    var s1 := SetNotifier(s, k, Checking(All));
    var s' := Apply(s, SetAndNotifyAll(k));
    forall t | 0 <= t < |s'.threads| ensures ThreadInv(s', t) {
      assert ThreadInv(s1, t);
      assert Pending(s') == Pending(s1);
      assert WillTakeAll(s', k);
      assert s.condition ==> WillTakeAll(s', s'.setter) == WillTakeAll(s1, s1.setter);
    }
    forall j | 0 <= j < |s.notifiers| ensures NotifierOk(s', j) {
      assert NotifierOk(s1, j);
    }
  }

  lemma InvChoose(s: State, a: Action, t: nat)
    requires Inv(s) && t < |s.threads| && a in {Prepare(t), Exit(t), Check(t), Wait(t), Retire(t)}
    ensures Inv(Apply(s, a))
  {
    assert ThreadInv(s, t);
    var s' := Apply(s, a);
    if s' != s {
      hide Inv, Owed;
      var th' := s'.threads[t];
      assert s' == SetThread(s, t, th');
      assert Conserved(s', t);
      assert Pending(s') == Pending(s);
      assert ThreadOk(s', t);
      assert WillTakeAll(s', s.setter) == WillTakeAll(s, s.setter);
      assert NotLost(s', t);
      InvSetThread(s, t, th');
    }
  }

  lemma InvStep(s: State, a: Action)
    requires Inv(s)
    ensures Inv(Apply(s, a))
  {
    hide Inv;
    match a
    case Prepare(t) => if t < |s.threads| { InvChoose(s, a, t); }
    case Exit(t) => if t < |s.threads| { InvChoose(s, a, t); }
    case Check(t) => if t < |s.threads| { InvChoose(s, a, t); }
    case Wait(t) => if t < |s.threads| { InvChoose(s, a, t); }
    case Retire(t) => if t < |s.threads| { InvChoose(s, a, t); }
    case Continue(t) => if t < |s.threads| { InvThread(s, t); }
    case Notify(k, kind) =>
      if k < |s.notifiers| && s.notifiers[k].Out? { InvSetNotifier(s, k, Checking(kind)); }
    case SetAndNotifyAll(k) =>
      if k < |s.notifiers| && s.notifiers[k].Out? { InvSetAndNotifyAll(s, k); }
    case Proceed(k, pick) => if k < |s.notifiers| { InvNotifier(s, k, pick); }
  }

  // ---------------------------------------------------------------- runs

  ghost function Run(s: State, schedule: seq<Action>): (r: State)
    requires Inv(s)
    ensures Inv(r)
    decreases |schedule|
  {
    if schedule == [] then s
    else
      InvStep(s, schedule[0]);
      Run(Apply(s, schedule[0]), schedule[1..])
  }

  ghost function Reached(threads: nat, notifiers: nat, schedule: seq<Action>): (s: State)
    ensures Inv(s)
  {
    InvInit(threads, notifiers);
    Run(Init(threads, notifiers), schedule)
  }

  /** In every interleaving, for every thread: its places in the wait set, the posts it is owed
      and its semaphore together are one if it announced a wait it has not finished, or carries
      a debt from a wait it gave up, and zero otherwise. */
  lemma WakeupsConserved(threads: nat, notifiers: nat, schedule: seq<Action>, t: nat)
    requires t < |Reached(threads, notifiers, schedule).threads|
    ensures var s := Reached(threads, notifiers, schedule);
      var th := s.threads[t];
      && multiset(s.waitset)[t] + Owed(s.notifiers, t) + th.semaphore == Due(th)
      && th.semaphore <= 1
  {
    var s := Reached(threads, notifiers, schedule);
    assert ThreadInv(s, t);
  }

  /** A thread about to push its node, and one that is gone, stand in no list: neither in the
      wait set nor in what a notifier still holds. */
  lemma NodeIsFree(threads: nat, notifiers: nat, schedule: seq<Action>, t: nat, k: nat)
    requires t < |Reached(threads, notifiers, schedule).threads|
    requires k < |Reached(threads, notifiers, schedule).notifiers|
    requires Reached(threads, notifiers, schedule).threads[t].pc in {Marking, Pushing, Dead}
    ensures var s := Reached(threads, notifiers, schedule);
      t !in s.waitset && t !in OwedBy(s.notifiers[k])
  {
    var s := Reached(threads, notifiers, schedule);
    assert ThreadInv(s, t);
    OwedAtLeast(s.notifiers, k, t);
    hide Owed;
    assert t in s.waitset <==> multiset(s.waitset)[t] > 0;
    assert t in OwedBy(s.notifiers[k]) <==> multiset(OwedBy(s.notifiers[k]))[t] > 0;
  }

  /** The condition is set and nobody who saw it unset is still in the wait set. */
  ghost predicate Passed(s: State) {
    s.condition && forall t :: 0 <= t < |s.threads| ==> CannotWait(s, t)
  }

  ghost predicate CannotWait(s: State, t: nat)
    requires t < |s.threads|
  {
    s.threads[t].sawUnset ==> t !in s.waitset
  }

  /** What a step may do to a thread: it comes into the wait set only by its own push, and once the
      condition is set it does not see it unset any more. */
  ghost predicate NoWayBack(s: State, s': State, t: nat)
    requires t < |s.threads| == |s'.threads|
  {
    && (t in s'.waitset ==> t in s.waitset || s.threads[t].pc == Pushing)
    && (s.condition && s'.threads[t].sawUnset ==> s.threads[t].sawUnset)
  }

  lemma {:induction false} RemoveIn(q: seq<nat>, x: nat, t: nat)
    requires t in Remove(q, x)
    ensures t in q
  {
    if q[0] != x && t != q[0] { RemoveIn(q[1..], x, t); }
  }

  lemma ThreadNoWayBack(s: State, u: nat, t: nat)
    requires u < |s.threads| && t < |s.threads|
    ensures |ThreadStep(s, u).threads| == |s.threads| && ThreadStep(s, u).condition == s.condition
    ensures NoWayBack(s, ThreadStep(s, u), t)
  {
    hide Remove;
    if t in Remove(s.waitset, u) { RemoveIn(s.waitset, u, t); }
  }

  lemma NotifierNoWayBack(s: State, k: nat, pick: bool, t: nat)
    requires k < |s.notifiers| && t < |s.threads|
    ensures var s' := NotifierStep(s, k, pick);
      |s'.threads| == |s.threads| && s'.condition == s.condition && NoWayBack(s, s', t)
  {
    hide Remove;
    if s.notifiers[k].Clearing? && s.notifiers[k].rest != [] {
      var x := s.notifiers[k].rest[0];
      if t in Remove(s.waitset, x) { RemoveIn(s.waitset, x, t); }
    }
  }

  lemma PassedStep(s: State, a: Action)
    requires Inv(s) && Passed(s)
    ensures Passed(Apply(s, a))
  {
    hide ThreadInv, NotifierOk, ThreadStep, NotifierStep, CannotWait;
    var s' := Apply(s, a);
    StepKeepsThreads(s, a);
    forall t | 0 <= t < |s'.threads| ensures CannotWait(s', t) { StillOut(s, a, t); }
  }

  lemma StepKeepsThreads(s: State, a: Action)
    ensures |Apply(s, a).threads| == |s.threads| && (s.condition ==> Apply(s, a).condition)
  {
    hide ThreadStep, NotifierStep;
    if a.Continue? && a.t < |s.threads| { ThreadNoWayBack(s, a.t, a.t); }
    if a.Proceed? && a.k < |s.notifiers| { NotifierKeepsThreads(s, a.k, a.pick); }
  }

  lemma StillOut(s: State, a: Action, t: nat)
    requires s.condition && t < |s.threads| && ThreadInv(s, t) && CannotWait(s, t)
    ensures t < |Apply(s, a).threads| && CannotWait(Apply(s, a), t)
  {
    hide ThreadStep, NotifierStep, Conserved, NotLost;
    if a.Continue? && a.t < |s.threads| { ThreadNoWayBack(s, a.t, t); }
    if a.Proceed? && a.k < |s.notifiers| { NotifierNoWayBack(s, a.k, a.pick, t); }
    StepKeepsThreads(s, a);
    assert NoWayBack(s, Apply(s, a), t);
  }

  lemma NotifierKeepsThreads(s: State, k: nat, pick: bool)
    requires k < |s.notifiers|
    ensures |NotifierStep(s, k, pick).threads| == |s.threads| && NotifierStep(s, k, pick).condition == s.condition
  {
    hide Remove;
  }

  lemma {:induction false} RunConcat(s: State, early: seq<Action>, late: seq<Action>)
    requires Inv(s)
    ensures Run(s, early + late) == Run(Run(s, early), late)
    decreases |early|
  {
    if early == [] {
      assert early + late == late;
    } else {
      InvStep(s, early[0]);
      assert (early + late)[1..] == early[1..] + late;
      RunConcat(Apply(s, early[0]), early[1..], late);
    }
  }

  lemma {:induction false} PassedStays(s: State, schedule: seq<Action>)
    requires Inv(s) && Passed(s)
    ensures Passed(Run(s, schedule))
    decreases |schedule|
  {
    if schedule != [] {
      InvStep(s, schedule[0]);
      PassedStep(s, schedule[0]);
      hide Inv, Passed, Apply;
      PassedStays(Apply(s, schedule[0]), schedule[1..]);
    }
  }

  /** No wake-up is lost: once the condition is set and the notifier that set it has been through its
      locked section, from then on, whatever anyone does later, a thread that saw the condition unset
      and sleeps is out of the wait set, with exactly one post owed or delivered. */
  lemma NoLostWakeup(threads: nat, notifiers: nat, early: seq<Action>, late: seq<Action>, t: nat)
    requires var s := Reached(threads, notifiers, early); s.condition && !WillTakeAll(s, s.setter)
    requires t < |Reached(threads, notifiers, early + late).threads|
    requires var th := Reached(threads, notifiers, early + late).threads[t]; th.pc.Sleeping? && th.sawUnset
    ensures var s := Reached(threads, notifiers, early + late);
      t !in s.waitset && Owed(s.notifiers, t) + s.threads[t].semaphore == 1
  {
    InvInit(threads, notifiers);
    RunConcat(Init(threads, notifiers), early, late);
    var s0, s := Reached(threads, notifiers, early), Reached(threads, notifiers, early + late);
    forall u | 0 <= u < |s0.threads| ensures CannotWait(s0, u) { assert ThreadInv(s0, u); }
    PassedStays(s0, late);
    assert CannotWait(s, t) && ThreadInv(s, t);
    assert t in s.waitset <==> multiset(s.waitset)[t] > 0;
  }

  /** A thread that waits to pay a debt is never stuck: with every notifier out its semaphore is
      up.  The same holds of a sleeper that was taken out of the wait set. */
  lemma DebtsArePayable(threads: nat, notifiers: nat, schedule: seq<Action>, t: nat)
    requires t < |Reached(threads, notifiers, schedule).threads|
    requires var s := Reached(threads, notifiers, schedule);
      && (forall k :: 0 <= k < |s.notifiers| ==> s.notifiers[k].Out?)
      && (s.threads[t].pc in {Pumping, Leaving} || (s.threads[t].pc == Sleeping && t !in s.waitset))
    ensures Reached(threads, notifiers, schedule).threads[t].semaphore == 1
  {
    var s := Reached(threads, notifiers, schedule);
    assert ThreadInv(s, t);
    NobodyOwes(s.notifiers, t);
    assert t in s.waitset <==> multiset(s.waitset)[t] > 0;
  }

  lemma {:induction false} NobodyOwes(ns: seq<NotifierPc>, t: nat)
    requires forall k :: 0 <= k < |ns| ==> ns[k].Out?
    ensures Owed(ns, t) == 0
  {
    if ns != [] { NobodyOwes(ns[..|ns| - 1], t); }
  }

  /** The flag a thread reads without the lock is never wrongly off: while its node is in the
      wait set the flag is on, so a thread that finds it off gives up without touching the list. */
  lemma FlagCoversWaitset(threads: nat, notifiers: nat, schedule: seq<Action>, t: nat)
    requires t < |Reached(threads, notifiers, schedule).threads|
    ensures var s := Reached(threads, notifiers, schedule);
      && (t in s.waitset ==> s.threads[t].inWaitset)
      && (s.lock.None? && s.threads[t].inWaitset && s.threads[t].pc != Pushing ==> t in s.waitset)
  {
    assert ThreadInv(Reached(threads, notifiers, schedule), t);
  }
}

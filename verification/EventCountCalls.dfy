/** What a notification does while other threads and notifiers run: whom it takes out of the wait set,
    whom it posts; when a waiting thread sleeps; and that nobody who goes on is stuck. */
module EventCountCalls {
  import opened Wrappers
  import opened EventCount

  // ---------------------------------------------------------------- watching a notifier

  /** What one call of a notifier was seen to do: the wait set when it looked at it without the lock
      and when it acted under the lock, the threads it was shown with the answer of its predicate, the
      threads that left the wait set by it, those whose semaphore went up by it. */
  datatype Watch = Watch(
    kind: Kind,
    looked: Option<seq<nat>>,
    entered: Option<seq<nat>>,
    shown: seq<(nat, bool)>,
    taken: seq<nat>,
    posted: seq<nat>
  )

  /** The members of q that are not in r. */
  function Left(q: seq<nat>, r: seq<nat>): seq<nat> {
    if q == [] then [] else (if q[0] in r then [] else [q[0]]) + Left(q[1..], r)
  }

  /** The threads, from number t on, whose semaphore is higher. */
  function Risen(a: seq<Thread>, b: seq<Thread>, t: nat): seq<nat>
    requires |a| == |b|
    decreases |a| - t
  {
    if t >= |a| then [] else (if b[t].semaphore > a[t].semaphore then [t] else []) + Risen(a, b, t + 1)
  }

  predicate Begins(s: State, k: nat, a: Action) {
    k < |s.notifiers| && s.notifiers[k].Out? && ((a.Notify? && a.k == k) || (a.SetAndNotifyAll? && a.k == k))
  }

  /** What is seen of the action that leads from s to s'. */
  function Observe(w: Option<Watch>, s: State, s': State, k: nat, a: Action): Option<Watch>
    requires |s'.threads| == |s.threads|
  {
    if Begins(s, k, a) then Some(Watch(if a.Notify? then a.kind else All, None, None, [], [], []))
    else if a.Proceed? && a.k == k < |s.notifiers| && w.Some? then
      var pc := s.notifiers[k];
      var shows := pc.Clearing? && pc.pending == [] && pc.rest != [];
      Some(w.value.(
        looked := if pc.Checking? then Some(s.waitset) else w.value.looked,
        entered := if pc.Inside? then Some(s.waitset) else w.value.entered,
        shown := w.value.shown + (if shows then [(pc.rest[0], a.pick)] else []),
        taken := w.value.taken + Left(s.waitset, s'.waitset),
        posted := w.value.posted + Risen(s.threads, s'.threads, 0)))
    else w
  }

  ghost function Watched(s: State, w: Option<Watch>, k: nat, schedule: seq<Action>): Option<Watch>
    requires Inv(s)
    decreases |schedule|
  {
    if schedule == [] then w
    else
      InvStep(s, schedule[0]);
      StepKeepsThreads(s, schedule[0]);
      Watched(Apply(s, schedule[0]), Observe(w, s, Apply(s, schedule[0]), k, schedule[0]), k, schedule[1..])
  }

  function Threads(shown: seq<(nat, bool)>): seq<nat> {
    if shown == [] then [] else Threads(shown[..|shown| - 1]) + [shown[|shown| - 1].0]
  }

  function Picked(shown: seq<(nat, bool)>): seq<nat> {
    if shown == [] then []
    else Picked(shown[..|shown| - 1]) + if shown[|shown| - 1].1 then [shown[|shown| - 1].0] else []
  }

  /** Of a wait set q with `rest` still to be shown the right threads have been taken: the first, or all,
      or those picked of the ones shown. */
  ghost predicate RightlyTaken(w: Watch, q: seq<nat>, rest: seq<nat>) {
    match w.kind
    case One => w.taken == (if q == [] then [] else [q[0]]) && rest == []
    case All => w.taken == q && rest == []
    case Select => Threads(w.shown) + rest == q && w.taken == Picked(w.shown)
  }

  /** The call is over.  Nobody is taken if the wait set was empty when it looked; else the right threads
      of the wait set it found under the lock, and each of them was posted once. */
  ghost predicate Done(w: Watch) {
    && w.looked.Some?
    && (if w.looked.value == [] then w.entered.None? && w.taken == [] && w.posted == []
        else
          && w.entered.Some? && RightlyTaken(w, w.entered.value, [])
          && multiset(w.posted) == multiset(w.taken))
  }

  ghost predicate Fresh(w: Watch) {
    w.entered.None? && w.shown == [] && w.taken == [] && w.posted == []
  }

  ghost predicate WatchOk(pc: NotifierPc, watch: Option<Watch>) {
    match pc
    case Out => watch.Some? ==> Done(watch.value)
    case Checking(kind) => watch.Some? ==> Fresh(watch.value) && watch.value.looked.None? && watch.value.kind == kind
    case Entering(kind) => watch.Some? ==> Fresh(watch.value) && SawSome(watch.value) && watch.value.kind == kind
    case Inside(kind) => watch.Some? ==> Fresh(watch.value) && SawSome(watch.value) && watch.value.kind == kind
    case Clearing(rest, pending, owed) =>
      watch.Some? ==>
        && SawSome(watch.value) && watch.value.entered.Some? && watch.value.posted == []
        && RightlyTaken(watch.value, watch.value.entered.value, rest)
        && multiset(owed) == multiset(watch.value.taken)
    case Posting(owed) =>
      watch.Some? ==>
        && SawSome(watch.value) && watch.value.entered.Some?
        && RightlyTaken(watch.value, watch.value.entered.value, [])
        && multiset(owed) + multiset(watch.value.posted) == multiset(watch.value.taken)
  }

  predicate SawSome(w: Watch) {
    w.looked.Some? && w.looked.value != []
  }

  // ---------------------------------------------------------------- differences

  lemma {:induction false} LeftNone(q: seq<nat>, r: seq<nat>)
    requires forall t :: t in q ==> t in r
    ensures Left(q, r) == []
  {
    if q != [] {
      assert q[0] in q && forall t :: t in q[1..] ==> t in q;
      LeftNone(q[1..], r);
    }
  }

  lemma {:induction false} LeftAll(q: seq<nat>)
    ensures Left(q, []) == q
  {
    if q != [] { LeftAll(q[1..]); }
  }

  /** Only x, which stands in q once, is missing. */
  lemma {:induction false} LeftOne(q: seq<nat>, r: seq<nat>, x: nat)
    requires multiset(q)[x] == 1 && x !in r && forall t :: t in q && t != x ==> t in r
    ensures Left(q, r) == [x]
  {
    assert q == [q[0]] + q[1..];
    assert q[0] in q && forall t :: t in q[1..] ==> t in q;
    if q[0] == x {
      assert multiset(q[1..])[x] == 0;
      LeftNone(q[1..], r);
    } else {
      LeftOne(q[1..], r, x);
    }
  }

  lemma {:induction false} RisenNone(a: seq<Thread>, b: seq<Thread>, t: nat)
    requires |a| == |b| && forall u :: t <= u < |a| ==> b[u].semaphore <= a[u].semaphore
    ensures Risen(a, b, t) == []
    decreases |a| - t
  {
    if t < |a| { RisenNone(a, b, t + 1); }
  }

  lemma {:induction false} RisenOne(a: seq<Thread>, b: seq<Thread>, t: nat, x: nat)
    requires |a| == |b| && t <= x < |a| && b[x].semaphore > a[x].semaphore
    requires forall u :: t <= u < |a| && u != x ==> b[u].semaphore <= a[u].semaphore
    ensures Risen(a, b, t) == [x]
    decreases |a| - t
  {
    if t == x { RisenNone(a, b, t + 1); } else { RisenOne(a, b, t + 1, x); }
  }

  lemma ShownOne(shown: seq<(nat, bool)>, e: (nat, bool))
    ensures Threads(shown + [e]) == Threads(shown) + [e.0]
    ensures Picked(shown + [e]) == Picked(shown) + if e.1 then [e.0] else []
  {
    assert (shown + [e])[..|shown|] == shown;
  }

  // ---------------------------------------------------------------- every step agrees with the watch

  /** No thread stands twice in the wait set. */
  lemma StandsOnce(s: State, t: nat)
    requires Inv(s) && t in s.waitset
    ensures multiset(s.waitset)[t] == 1 && t < |s.threads|
  {
    assert ThreadInv(s, t);
    assert multiset(s.waitset)[t] > 0;
  }

  lemma TakeEffect(s: State, k: nat)
    requires Inv(s) && k < |s.notifiers| && s.notifiers[k].Inside?
    ensures var s', q := TakeStep(s, k), s.waitset;
      && s'.threads == s.threads && |s'.notifiers| == |s.notifiers|
      && match s.notifiers[k].kind
         case One =>
           var x := if q == [] then [] else [q[0]];
           Left(q, s'.waitset) == x && s'.notifiers[k] == Clearing([], x, x)
         case Select => Left(q, s'.waitset) == [] && s'.notifiers[k] == Clearing(q, [], [])
         case All => Left(q, s'.waitset) == q && s'.notifiers[k] == Clearing([], q, q)
  {
    var q := s.waitset;
    match s.notifiers[k].kind
    case One =>
      if q != [] {
        StandsOnce(s, q[0]);
        assert q == [q[0]] + q[1..];
        LeftOne(q, q[1..], q[0]);
      }
    case Select => LeftNone(q, q);
    case All => LeftAll(q);
  }

  lemma TakeWatched(s: State, k: nat, w: Watch)
    requires Inv(s) && k < |s.notifiers| && s.notifiers[k].Inside? && WatchOk(s.notifiers[k], Some(w))
    ensures var s' := TakeStep(s, k);
      && s'.threads == s.threads && |s'.notifiers| == |s.notifiers|
      && WatchOk(s'.notifiers[k], Some(w.(entered := Some(s.waitset), taken := w.taken + Left(s.waitset, s'.waitset))))
  {
    hide Inv, TakeStep, Left;
    TakeEffect(s, k);
    assert [] + s.waitset == s.waitset;
  }

  lemma ScanEffect(s: State, k: nat, pick: bool)
    requires Inv(s) && k < |s.notifiers| && s.notifiers[k].Clearing? && s.notifiers[k].rest != []
    ensures var s', pc := ScanStep(s, k, pick), s.notifiers[k];
      var x := pc.rest[0];
      && s'.threads == s.threads && |s'.notifiers| == |s.notifiers|
      && Left(s.waitset, s'.waitset) == (if pick then [x] else [])
      && s'.notifiers[k] == if pick then Clearing(pc.rest[1..], [x], [x] + pc.owed) else pc.(rest := pc.rest[1..])
  {
    var x, rest := s.notifiers[k].rest[0], s.notifiers[k].rest;
    if pick {
      assert NotifierOk(s, k);
      assert s.waitset[|s.waitset| - |rest|] == x;
      StandsOnce(s, x);
      RemovedOnly(s.waitset, x);
      LeftOne(s.waitset, Remove(s.waitset, x), x);
    } else {
      LeftNone(s.waitset, s.waitset);
    }
  }

  /** Showing one thread more keeps what was taken right. */
  lemma ShowOne(w: Watch, rest: seq<nat>, pending: seq<nat>, owed: seq<nat>, pick: bool)
    requires rest != [] && WatchOk(Clearing(rest, pending, owed), Some(w))
    ensures var x := rest[0];
      WatchOk(if pick then Clearing(rest[1..], [x], [x] + owed) else Clearing(rest[1..], pending, owed),
              Some(w.(shown := w.shown + [(x, pick)], taken := w.taken + if pick then [x] else [])))
  {
    var x := rest[0];
    hide *;
    ShownRight(w, w.entered, rest, pick);
    Together([x], owed);
    Together(w.taken, [x]);
    ShowOneHeld(w, rest, pending, owed, pick);
  }

  lemma ShowOneHeld(w: Watch, rest: seq<nat>, pending: seq<nat>, owed: seq<nat>, pick: bool)
    requires rest != [] && WatchOk(Clearing(rest, pending, owed), Some(w))
    requires var x := rest[0];
      && multiset([x] + owed) == multiset([x]) + multiset(owed)
      && multiset(w.taken + [x]) == multiset(w.taken) + multiset([x])
    requires var x := rest[0];
      w.entered.Some? ==> RightlyTaken(
        w.(shown := w.shown + [(x, pick)], taken := w.taken + if pick then [x] else []), w.entered.value, rest[1..])
    ensures var x := rest[0];
      WatchOk(if pick then Clearing(rest[1..], [x], [x] + owed) else Clearing(rest[1..], pending, owed),
              Some(w.(shown := w.shown + [(x, pick)], taken := w.taken + if pick then [x] else [])))
  {
    hide RightlyTaken;
    assert w.taken + [] == w.taken;
  }

  lemma ShownRight(w: Watch, q: Option<seq<nat>>, rest: seq<nat>, pick: bool)
    requires rest != [] && (q.Some? ==> RightlyTaken(w, q.value, rest))
    ensures var x := rest[0];
      q.Some? ==> RightlyTaken(
        w.(shown := w.shown + [(x, pick)], taken := w.taken + if pick then [x] else []), q.value, rest[1..])
  {
    var x := rest[0];
    ShownOne(w.shown, (x, pick));
    assert Threads(w.shown) + rest == Threads(w.shown) + [x] + rest[1..];
    assert w.taken + [] == w.taken;
    hide Threads, Picked;
  }

  lemma ScanWatched(s: State, k: nat, pick: bool, w: Watch)
    requires Inv(s) && k < |s.notifiers| && s.notifiers[k].Clearing? && s.notifiers[k].rest != []
    requires WatchOk(s.notifiers[k], Some(w))
    ensures var s', x := ScanStep(s, k, pick), s.notifiers[k].rest[0];
      && s'.threads == s.threads && |s'.notifiers| == |s.notifiers|
      && WatchOk(s'.notifiers[k],
                 Some(w.(shown := w.shown + [(x, pick)], taken := w.taken + Left(s.waitset, s'.waitset))))
  {
    hide Inv, WatchOk, Left, ScanStep;
    ScanEffect(s, k, pick);
    ShowOne(w, s.notifiers[k].rest, s.notifiers[k].pending, s.notifiers[k].owed, pick);
  }

  lemma Together(a: seq<nat>, b: seq<nat>)
    ensures multiset(a + b) == multiset(a) + multiset(b)
  {
  }

  lemma RemovedOnly(q: seq<nat>, x: nat)
    requires multiset(q)[x] == 1
    ensures x !in Remove(q, x) && forall t :: t in q && t != x ==> t in Remove(q, x)
  {
    assert x in q;
    RemoveCounts(q, x);
    assert multiset(Remove(q, x))[x] == 0;
    forall t | t in q && t != x ensures t in Remove(q, x) { assert multiset(Remove(q, x))[t] == multiset(q)[t] > 0; }
  }

  lemma PostWatched(s: State, k: nat, w: Watch)
    requires Inv(s) && k < |s.notifiers| && s.notifiers[k].Posting? && WatchOk(s.notifiers[k], Some(w))
    ensures var s' := PostStep(s, k);
      && |s'.threads| == |s.threads| && |s'.notifiers| == |s.notifiers| && s'.waitset == s.waitset
      && WatchOk(s'.notifiers[k], Some(w.(posted := w.posted + Risen(s.threads, s'.threads, 0))))
  {
    var owed := s.notifiers[k].owed;
    if owed == [] {
      RisenNone(s.threads, s.threads, 0);
      assert w.posted + [] == w.posted;
    } else {
      assert NotifierOk(s, k) && owed[0] in OwedBy(s.notifiers[k]);
      RisenOne(s.threads, PostStep(s, k).threads, 0, owed[0]);
      assert owed == [owed[0]] + owed[1..];
    }
  }

  /** The steps of the notifier that neither take nor post. */
  lemma QuietEffect(s: State, k: nat, pick: bool)
    requires k < |s.notifiers|
    requires s.notifiers[k].Clearing? ==> s.notifiers[k].pending != [] || s.notifiers[k].rest == []
    requires !s.notifiers[k].Inside? && !s.notifiers[k].Posting?
    ensures var s', pc := NotifierStep(s, k, pick), s.notifiers[k];
      && |s'.threads| == |s.threads| && |s'.notifiers| == |s.notifiers| && s'.waitset == s.waitset
      && (forall u :: 0 <= u < |s.threads| ==> s'.threads[u].semaphore == s.threads[u].semaphore)
      && match pc
         case Out => s'.notifiers[k] == pc
         case Checking(kind) => s'.notifiers[k] == if s.waitset == [] then Out else Entering(kind)
         case Entering(kind) => s'.notifiers[k] == Inside(kind) || s'.notifiers[k] == pc
         case Clearing(rest, pending, owed) =>
           if pending != [] then s'.notifiers[k] == pc.(pending := pending[1..]) || s'.notifiers[k] == pc
           else s'.notifiers[k] == Posting(owed)
         case _ => true
  {
    hide Remove;
  }

  lemma QuietWatched(s: State, k: nat, pick: bool, w: Watch)
    requires k < |s.notifiers|
    requires s.notifiers[k].Clearing? ==> s.notifiers[k].pending != [] || s.notifiers[k].rest == []
    requires !s.notifiers[k].Inside? && !s.notifiers[k].Posting? && WatchOk(s.notifiers[k], Some(w))
    ensures var s' := NotifierStep(s, k, pick);
      && |s'.threads| == |s.threads| && |s'.notifiers| == |s.notifiers|
      && Left(s.waitset, s'.waitset) == [] && Risen(s.threads, s'.threads, 0) == []
      && WatchOk(s'.notifiers[k],
                 Some(if s.notifiers[k].Checking? then w.(looked := Some(s.waitset)) else w))
  {
    QuietEffect(s, k, pick);
    hide NotifierStep;
    LeftNone(s.waitset, s.waitset);
    RisenNone(s.threads, NotifierStep(s, k, pick).threads, 0);
  }

  lemma ProceedWatched(s: State, s': State, k: nat, pick: bool, w: Watch)
    requires Inv(s) && k < |s.notifiers| && WatchOk(s.notifiers[k], Some(w)) && s' == NotifierStep(s, k, pick)
    ensures |s'.threads| == |s.threads| && k < |s'.notifiers|
    ensures WatchOk(s'.notifiers[k], Observe(Some(w), s, s', k, Proceed(k, pick)))
  {
    hide Inv, WatchOk, Left, Risen, TakeStep, PostStep, ScanStep;
    var pc := s.notifiers[k];
    assert w.taken + [] == w.taken && w.posted + [] == w.posted && w.shown + [] == w.shown;
    if pc.Inside? {
      TakeWatched(s, k, w);
      RisenNone(s.threads, s.threads, 0);
    } else if pc.Posting? {
      PostWatched(s, k, w);
      LeftNone(s.waitset, s.waitset);
    } else if pc.Clearing? && pc.pending == [] && pc.rest != [] {
      ScanWatched(s, k, pick, w);
      RisenNone(s.threads, s.threads, 0);
    } else {
      QuietWatched(s, k, pick, w);
    }
  }

  lemma WatchStep(s: State, w: Option<Watch>, k: nat, a: Action)
    requires Inv(s) && k < |s.notifiers| && WatchOk(s.notifiers[k], w)
    ensures |Apply(s, a).threads| == |s.threads| && |Apply(s, a).notifiers| == |s.notifiers|
    ensures WatchOk(Apply(s, a).notifiers[k], Observe(w, s, Apply(s, a), k, a))
  {
    StepKeepsThreads(s, a);
    NotifiersStay(s, a, k);
    hide Inv, WatchOk, NotifierStep, ThreadStep;
    if a.Proceed? && a.k == k {
      if w.Some? { ProceedWatched(s, Apply(s, a), k, a.pick, w.value); } else { NoWatch(s, k, a.pick); }
    } else if Begins(s, k, a) {
      FreshWatch(s, k, a);
    }
  }

  lemma NoWatch(s: State, k: nat, pick: bool)
    requires k < |s.notifiers|
    ensures k < |NotifierStep(s, k, pick).notifiers| && WatchOk(NotifierStep(s, k, pick).notifiers[k], None)
  {
    hide Remove;
  }

  lemma FreshWatch(s: State, k: nat, a: Action)
    requires Begins(s, k, a)
    ensures var s' := Apply(s, a);
      var kind := if a.Notify? then a.kind else All;
      k < |s'.notifiers| && WatchOk(s'.notifiers[k], Some(Watch(kind, None, None, [], [], [])))
  {
  }

  lemma NotifiersStay(s: State, a: Action, k: nat)
    requires k < |s.notifiers|
    ensures |Apply(s, a).notifiers| == |s.notifiers|
    ensures !(a.Proceed? && a.k == k) && !Begins(s, k, a) ==> Apply(s, a).notifiers[k] == s.notifiers[k]
  {
    hide ThreadStep, NotifierStep;
    if a.Continue? && a.t < |s.threads| { ThreadLeavesNotifiers(s, a.t); }
    if a.Proceed? && a.k < |s.notifiers| { NotifierLeavesOthers(s, a.k, a.pick); }
  }

  lemma ThreadLeavesNotifiers(s: State, t: nat)
    requires t < |s.threads|
    ensures ThreadStep(s, t).notifiers == s.notifiers
  {
    hide Remove;
  }

  lemma NotifierLeavesOthers(s: State, j: nat, pick: bool)
    requires j < |s.notifiers|
    ensures var ns := NotifierStep(s, j, pick).notifiers; |ns| == |s.notifiers| && ns == s.notifiers[j := ns[j]]
  {
    hide Remove;
  }

  lemma {:induction false} WatchRun(s: State, w: Option<Watch>, k: nat, schedule: seq<Action>)
    requires Inv(s) && k < |s.notifiers| && WatchOk(s.notifiers[k], w)
    ensures |Run(s, schedule).notifiers| == |s.notifiers|
    ensures WatchOk(Run(s, schedule).notifiers[k], Watched(s, w, k, schedule))
    decreases |schedule|
  {
    if schedule != [] {
      var a := schedule[0];
      InvStep(s, a);
      WatchStep(s, w, k, a);
      hide Inv, Apply, WatchOk, Observe;
      WatchRun(Apply(s, a), Observe(w, s, Apply(s, a), k, a), k, schedule[1..]);
    }
  }

  /** In every interleaving, of a notifier that is out: its last call saw an empty wait set and did
      nothing; or it found a wait set under the lock and took of it the first thread, or all, or of all
      of them shown to its predicate the picked ones, and posted each of them once. */
  lemma NotifierWakes(threads: nat, notifiers: nat, schedule: seq<Action>, k: nat)
    requires k < notifiers
    ensures Inv(Init(threads, notifiers))
    ensures var s, w := Reached(threads, notifiers, schedule), Watched(Init(threads, notifiers), None, k, schedule);
      k < |s.notifiers| && (s.notifiers[k].Out? && w.Some? ==> Done(w.value))
  {
    InvInit(threads, notifiers);
    WatchRun(Init(threads, notifiers), None, k, schedule);
  }

  /** The watch misses no call: it starts with the call, and a notifier that never called is out. */
  lemma {:induction false} CallsAreWatched(s: State, w: Option<Watch>, k: nat, schedule: seq<Action>)
    requires Inv(s) && k < |s.notifiers| && (w.None? ==> s.notifiers[k].Out?)
    ensures |Run(s, schedule).notifiers| == |s.notifiers|
    ensures Watched(s, w, k, schedule).None? ==> Run(s, schedule).notifiers[k].Out?
    decreases |schedule|
  {
    if schedule != [] {
      var a := schedule[0];
      InvStep(s, a);
      StepKeepsThreads(s, a);
      NotifiersStay(s, a, k);
      hide Inv, Left, Risen;
      CallsAreWatched(Apply(s, a), Observe(w, s, Apply(s, a), k, a), k, schedule[1..]);
    }
  }

  /** A call that is made to a notifier which is out begins, whatever goes on. */
  lemma CallBegins(s: State, k: nat, kind: Kind)
    requires k < |s.notifiers| && s.notifiers[k].Out?
    ensures !Apply(s, Notify(k, kind)).notifiers[k].Out?
    ensures !Apply(s, SetAndNotifyAll(k)).notifiers[k].Out? && Apply(s, SetAndNotifyAll(k)).condition
  {
  }

  // ---------------------------------------------------------------- when a wait sleeps

  const EPOCHS: nat := 0x1_0000_0000

  /** How many locked sections were entered since thread t pushed its node. */
  function Since(n: nat, s: State, t: nat, a: Action): nat {
    if a == Continue(t) && t < |s.threads| && s.threads[t].pc == Pushing && s.lock.None? then 0
    else if a.Proceed? && a.k < |s.notifiers| && s.notifiers[a.k].Entering? && s.lock.None? then n + 1
    else n
  }

  ghost function SinceRun(n: nat, s: State, t: nat, schedule: seq<Action>): nat
    requires Inv(s)
    decreases |schedule|
  {
    if schedule == [] then n
    else
      InvStep(s, schedule[0]);
      SinceRun(Since(n, s, t, schedule[0]), Apply(s, schedule[0]), t, schedule[1..])
  }

  ghost predicate EpochOk(s: State, t: nat, n: nat) {
    && s.epoch < EPOCHS
    && (t < |s.threads| && s.threads[t].pc.Prepared? ==>
          s.threads[t].epoch < EPOCHS && s.epoch == (s.threads[t].epoch + n) % EPOCHS)
  }

  lemma EpochThread(s: State, t: nat, u: nat, n: nat)
    requires u < |s.threads| && EpochOk(s, t, n)
    ensures EpochOk(ThreadStep(s, u), t, Since(n, s, t, Continue(u)))
  {
    hide Remove;
  }

  lemma EpochNotifier(s: State, t: nat, k: nat, pick: bool, n: nat)
    requires k < |s.notifiers| && EpochOk(s, t, n)
    ensures EpochOk(NotifierStep(s, k, pick), t, Since(n, s, t, Proceed(k, pick)))
  {
    hide Remove;
    if s.notifiers[k].Entering? && s.lock.None? && t < |s.threads| && s.threads[t].pc.Prepared? {
      OneMore(s.threads[t].epoch + n);
    }
  }

  lemma OneMore(x: nat)
    ensures (x % EPOCHS + 1) % EPOCHS == (x + 1) % EPOCHS
  {
  }

  lemma EpochStep(s: State, t: nat, n: nat, a: Action)
    requires EpochOk(s, t, n)
    ensures EpochOk(Apply(s, a), t, Since(n, s, t, a))
  {
    hide ThreadStep, NotifierStep, Since;
    match a
    case Continue(u) => if u < |s.threads| { EpochThread(s, t, u, n); } else { SinceSame(n, s, t, a); }
    case Proceed(k, pick) => if k < |s.notifiers| { EpochNotifier(s, t, k, pick, n); } else { SinceSame(n, s, t, a); }
    case _ => SinceSame(n, s, t, a);
  }

  lemma SinceSame(n: nat, s: State, t: nat, a: Action)
    requires (a.Continue? ==> a.t >= |s.threads|) && (a.Proceed? ==> a.k >= |s.notifiers|)
    ensures Since(n, s, t, a) == n
  {
  }

  lemma {:induction false} EpochRun(s: State, t: nat, n: nat, schedule: seq<Action>)
    requires Inv(s) && EpochOk(s, t, n)
    ensures EpochOk(Run(s, schedule), t, SinceRun(n, s, t, schedule))
    decreases |schedule|
  {
    if schedule != [] {
      InvStep(s, schedule[0]);
      EpochStep(s, t, n, schedule[0]);
      hide Inv, Apply, Since, EpochOk;
      EpochRun(Apply(s, schedule[0]), t, Since(n, s, t, schedule[0]), schedule[1..]);
    }
  }

  /** In every interleaving a thread that commits to its wait sleeps exactly if the number of locked
      sections entered since it pushed its node is a multiple of 2^32: with fewer than that, exactly if
      there was none.  Else it gives the wait up. */
  lemma WaitSleepsIff(threads: nat, notifiers: nat, schedule: seq<Action>, t: nat)
    requires t < |Reached(threads, notifiers, schedule).threads|
    requires Reached(threads, notifiers, schedule).threads[t].pc.Prepared?
    ensures Inv(Init(threads, notifiers))
    ensures var s, n := Reached(threads, notifiers, schedule), SinceRun(0, Init(threads, notifiers), t, schedule);
      var s' := Apply(s, Wait(t));
      && |s'.threads| == |s.threads|
      && s'.threads[t].pc == (if n % EPOCHS == 0 then Sleeping else Retiring)
      && (n < EPOCHS ==> (s'.threads[t].pc.Sleeping? <==> n == 0))
  {
    InvInit(threads, notifiers);
    EpochRun(Init(threads, notifiers), t, 0, schedule);
    var s, n := Reached(threads, notifiers, schedule), SinceRun(0, Init(threads, notifiers), t, schedule);
    SameEpoch(s.threads[t].epoch, n);
  }

  lemma SameEpoch(e: nat, n: nat)
    requires e < EPOCHS
    ensures (e + n) % EPOCHS == e <==> n % EPOCHS == 0
  {
    var r := n % EPOCHS;
    assert (e + n) % EPOCHS == (e + r) % EPOCHS;
    if e + r >= EPOCHS { assert (e + r) % EPOCHS == e + r - EPOCHS; }
  }

  // ---------------------------------------------------------------- nobody is stuck

  /** Thread t goes on for n steps, the others stand still. */
  function Solo(s: State, t: nat, n: nat): State
    requires t < |s.threads|
    decreases n
  {
    if n == 0 then s
    else
      StepKeepsThreads(s, Continue(t));
      Solo(Apply(s, Continue(t)), t, n - 1)
  }

  lemma Solo3(s: State, t: nat)
    requires t < |s.threads|
    ensures var s1 := ThreadStep(s, t);
      && |s1.threads| == |s.threads| && |ThreadStep(s1, t).threads| == |s.threads|
      && Solo(s, t, 3) == ThreadStep(ThreadStep(s1, t), t)
  {
    hide ThreadStep;
    var s1 := Apply(s, Continue(t));
    StepKeepsThreads(s, Continue(t));
    var s2 := Apply(s1, Continue(t));
    StepKeepsThreads(s1, Continue(t));
    var s3 := Apply(s2, Continue(t));
    StepKeepsThreads(s2, Continue(t));
    assert Solo(s2, t, 1) == Solo(s3, t, 0);
  }

  /** Announcing a wait. */
  lemma WaitIsAnnounced(s: State, t: nat)
    requires t < |s.threads| && s.lock.None? && s.threads[t].pc in {Pumping, Marking, Pushing}
    requires s.threads[t].pc.Pumping? ==> s.threads[t].semaphore > 0
    ensures var s' := Solo(s, t, 3);
      && t < |s'.threads| && s'.threads[t].pc.Prepared? && s'.threads[t].epoch == s.epoch
      && s'.waitset == [t] + s.waitset
  {
    Solo3(s, t);
    hide Solo, RemoveStep;
  }

  /** Waking up, and leaving. */
  lemma SleepEnds(s: State, t: nat)
    requires t < |s.threads| && s.threads[t].semaphore > 0 && s.threads[t].pc in {Sleeping, Leaving}
    ensures var s' := Solo(s, t, 3);
      && t < |s'.threads| && s'.threads[t].semaphore == s.threads[t].semaphore - 1 && s'.waitset == s.waitset
      && s'.threads[t].pc == if s.threads[t].pc.Sleeping? then Idle else Dead
  {
    Solo3(s, t);
    hide Solo, RemoveStep, PushStep;
  }

  /** The flag is right, as it is while nobody holds the lock, and the node stands once. */
  ghost predicate FlagIsRight(s: State, t: nat)
    requires t < |s.threads|
  {
    && s.lock.None? && (s.threads[t].inWaitset <==> t in s.waitset) && multiset(s.waitset)[t] <= 1
    && (s.threads[t].pc in {Looking, Locking} ==> s.threads[t].spurious)
  }

  ghost predicate GivenUp(s: State, s': State, t: nat) {
    && t < |s'.threads| && s'.threads[t].pc.Idle? && t !in s'.waitset
    && (s'.threads[t].spurious <==> t !in s.waitset)
  }

  lemma GiveUpStep(s: State, t: nat)
    requires t < |s.threads| && FlagIsRight(s, t) && s.threads[t].pc in {Retiring, Looking, Locking}
    ensures var s' := ThreadStep(s, t);
      && |s'.threads| == |s.threads|
      && (GivenUp(s, s', t)
          || (s'.waitset == s.waitset && FlagIsRight(s', t)
              && s'.threads[t].pc == if s.threads[t].pc.Retiring? then Looking else Locking))
      && (s.threads[t].pc.Locking? ==> GivenUp(s, s', t))
  {
    if t in s.waitset { RemovedOnly(s.waitset, t); }
    hide Remove;
  }

  lemma IdleStays(s: State, t: nat)
    requires t < |s.threads| && s.threads[t].pc.Idle?
    ensures ThreadStep(s, t) == s
  {
  }

  /** Giving a wait up: the thread is out of the wait set, and in debt exactly if it was out before. */
  lemma WaitIsGivenUp(s: State, t: nat)
    requires Inv(s) && t < |s.threads| && s.lock.None? && s.threads[t].pc in {Retiring, Looking, Locking}
    ensures GivenUp(s, Solo(s, t, 3), t)
  {
    assert ThreadInv(s, t);
    assert FlagIsRight(s, t) by {
      assert Pending(s) == [];
      if t in s.waitset { StandsOnce(s, t); }
    }
    Solo3(s, t);
    hide Inv, ThreadInv, Solo, ThreadStep, FlagIsRight;
    GiveUpStep(s, t);
    var s1 := ThreadStep(s, t);
    if s1.threads[t].pc.Idle? {
      IdleStays(s1, t);
    } else {
      GiveUpStep(s1, t);
      var s2 := ThreadStep(s1, t);
      if s2.threads[t].pc.Idle? { IdleStays(s2, t); } else { GiveUpStep(s2, t); }
    }
  }

  /** What a thread begins, it begins: a wait, its end, giving a wait up. */
  lemma ThreadBegins(s: State, t: nat)
    requires t < |s.threads|
    ensures s.threads[t].pc.Idle? ==>
      && t < |Apply(s, Prepare(t)).threads| && t < |Apply(s, Exit(t)).threads|
      && Apply(s, Prepare(t)).threads[t].pc == (if s.threads[t].spurious then Pumping else Marking)
      && Apply(s, Exit(t)).threads[t].pc == (if s.threads[t].spurious then Leaving else Dead)
    ensures s.threads[t].pc.Prepared? ==>
      && t < |Apply(s, Retire(t)).threads| && Apply(s, Retire(t)).threads[t].pc.Retiring?
      && t < |Apply(s, Check(t)).threads| && (Apply(s, Check(t)).threads[t].pc.Retiring? <==> s.condition)
  {
  }

  function Rank(pc: NotifierPc): nat {
    match pc
    case Out => 0
    case Posting(_) => 1
    case Clearing(_, _, _) => 2
    case Inside(_) => 3
    case Entering(_) => 4
    case Checking(_) => 5
  }

  function Size(pc: NotifierPc): nat {
    match pc
    case Posting(owed) => |owed|
    case Clearing(rest, pending, owed) => |pending| + 2 * |rest|
    case _ => 0
  }

  lemma NotifierNears(s: State, k: nat, pick: bool)
    requires Inv(s) && k < |s.notifiers| && !s.notifiers[k].Out? && (s.lock.None? || s.lock == Some(k))
    ensures var s', pc := NotifierStep(s, k, pick), s.notifiers[k];
      && |s'.notifiers| == |s.notifiers| && (s'.lock.None? || s'.lock == Some(k))
      && (Rank(s'.notifiers[k]) < Rank(pc) || (Rank(s'.notifiers[k]) == Rank(pc) && Size(s'.notifiers[k]) < Size(pc)))
  {
    assert NotifierOk(s, k);
    var pc := s.notifiers[k];
    if pc.Clearing? && pc.pending != [] {
      assert pc.pending[0] in multiset(pc.pending) && pc.pending[0] in pc.owed;
      assert pc.owed == OwedBy(pc);
    }
    if pc.Posting? && pc.owed != [] { assert pc.owed[0] in OwedBy(pc); }
    hide Inv, Remove;
  }

  /** A notifier that does not have to wait for the lock comes to the end of its call, whatever its
      predicate answers. */
  lemma {:induction false} NotifierFinishes(s: State, k: nat, pick: nat -> bool) returns (schedule: seq<Action>)
    requires Inv(s) && k < |s.notifiers| && (s.lock.None? || s.lock == Some(k))
    ensures (forall i :: 0 <= i < |schedule| ==> schedule[i].Proceed? && schedule[i].k == k)
    ensures |Run(s, schedule).notifiers| == |s.notifiers| && Run(s, schedule).notifiers[k].Out?
    decreases Rank(s.notifiers[k]), Size(s.notifiers[k])
  {
    if s.notifiers[k].Out? {
      schedule := [];
    } else {
      var pc := s.notifiers[k];
      var a := Proceed(k, pc.Clearing? && pc.rest != [] && pick(pc.rest[0]));
      NotifierNears(s, k, a.pick);
      InvStep(s, a);
      var rest := NotifierFinishes(Apply(s, a), k, pick);
      schedule := [a] + rest;
      assert schedule[1..] == rest;
    }
  }
}

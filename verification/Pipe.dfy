/** The pipe between one writer and one reader, by positions: slot k of the pipe is the k-th
    slot ever pushed.  Each step touches the shared word `c` at most once. */
module Pipe {
  import opened Wrappers

  /** `items` are the values written and not taken back; `front` is how many were read.
      `f` ends the last complete batch, `w` the last flushed one; `r` bounds what the reader may
      take without looking, and `c` is the shared word, None standing for the null pointer.
      `storing` says that the writer's compare-exchange found null and its store is still to
      come.  The rest is history: the batch ends, the values read, whether the reader's last
      look put the pipe to sleep. */
  datatype Pipe<T> = Pipe(
    items: seq<T>,
    front: nat,
    f: nat,
    w: nat,
    r: Option<nat>,
    c: Option<nat>,
    storing: bool,
    ends: set<nat>,
    read: seq<T>,
    asleep: bool
  )

  function Empty<T>(): Pipe<T> {
    Pipe([], 0, 0, 0, Some(0), Some(0), false, {0}, [], false)
  }

  function Write<T>(p: Pipe<T>, v: T, incomplete: bool): Pipe<T> {
    var items := p.items + [v];
    if incomplete then p.(items := items)
    else p.(items := items, f := |items|, ends := p.ends + {|items|})
  }

  function Unwrite<T>(p: Pipe<T>): (Pipe<T>, Option<T>)
    requires p.f <= |p.items|
  {
    if p.f == |p.items| then (p, None)
    else (p.(items := p.items[..|p.items| - 1]), Some(p.items[|p.items| - 1]))
  }

  /** The compare-exchange of a flush.  None: it found null and the store is still to come. */
  function FlushExchange<T>(p: Pipe<T>): (Pipe<T>, Option<bool>) {
    if p.w == p.f then (p, Some(true))
    else if p.c == Some(p.w) then (p.(c := Some(p.f), w := p.f), Some(true))
    else (p.(storing := true), None)
  }

  /** The plain store that follows a compare-exchange that found null; the flush returns false. */
  function FlushStore<T>(p: Pipe<T>): Pipe<T> {
    p.(c := Some(p.f), w := p.f, storing := false, asleep := false)
  }

  function CheckRead<T>(p: Pipe<T>): (Pipe<T>, bool) {
    if p.r.Some? && p.r.value != p.front then (p, true)
    else
      var sleep := p.c == Some(p.front);
      var q := p.(r := p.c, c := if sleep then None else p.c, asleep := p.asleep || sleep);
      (q, !(q.r == Some(p.front) || q.r.None?))
  }

  function Read<T>(p: Pipe<T>): (Pipe<T>, Option<T>)
    requires Inv(p)
  {
    var (q, ok) := CheckRead(p);
    if !ok then (q, None)
    else (q.(front := q.front + 1, read := q.read + [q.items[q.front]]), Some(q.items[q.front]))
  }

  datatype Step<T> =
    | DoWrite(value: T, incomplete: bool)
    | DoUnwrite
    | DoFlushExchange
    | DoFlushStore
    | DoCheckRead
    | DoRead

  /** One scheduled step.  A writer between exchange and store can only store. */
  function Apply<T>(p: Pipe<T>, a: Step<T>): Pipe<T>
    requires Inv(p)
  {
    match a
    case DoWrite(v, incomplete) => if p.storing then p else Write(p, v, incomplete)
    case DoUnwrite => if p.storing then p else Unwrite(p).0
    case DoFlushExchange => if p.storing then p else FlushExchange(p).0
    case DoFlushStore => if p.storing then FlushStore(p) else p
    case DoCheckRead => CheckRead(p).0
    case DoRead => Read(p).0
  }

  // ---------------------------------------------------------------- the invariant

  ghost predicate Inv<T>(p: Pipe<T>) {
    && p.front <= p.w <= p.f <= |p.items|
    && (p.c == Some(p.w) || p.c.None?)
    && (p.asleep <==> p.c.None?)
    && (p.c.None? ==> p.front == p.w && (p.r.Some? ==> p.r.value == p.front))
    && (p.storing ==> p.c.None? && p.w < p.f)
    && (p.r.Some? ==> p.front <= p.r.value <= p.w && p.r.value in p.ends)
    && p.w in p.ends && p.f in p.ends && 0 in p.ends
    && (forall e :: e in p.ends ==> e <= p.f)
    && p.read == p.items[..p.front]
  }

  /** What a step may do to the past: flushed values stay, the reader only moves forward. */
  ghost predicate Extends<T>(p: Pipe<T>, q: Pipe<T>) {
    && |p.items| >= p.f && |q.items| >= p.f && q.items[..p.f] == p.items[..p.f]
    && p.f <= q.f && p.w <= q.w && p.front <= q.front && p.read <= q.read && p.ends <= q.ends
  }

  lemma InvStep<T>(p: Pipe<T>, a: Step<T>)
    requires Inv(p)
    ensures Inv(Apply(p, a)) && Extends(p, Apply(p, a))
  {
    match a
    case DoWrite(v, incomplete) =>
    case DoUnwrite =>
    case DoFlushExchange =>
    case DoFlushStore =>
    case DoCheckRead =>
    case DoRead => ReadStep(p);
  }

  lemma ReadStep<T>(p: Pipe<T>)
    requires Inv(p)
    ensures Inv(Read(p).0) && Extends(p, Read(p).0)
    ensures Read(p).1.Some? <==> p.front < p.w
    ensures p.front < p.w ==> Read(p).1 == Some(p.items[p.front]) && Read(p).0.front == p.front + 1
  {
    var q := CheckRead(p).0;
    assert Inv(q);
    if CheckRead(p).1 {
      assert q.items[..q.front + 1] == q.items[..q.front] + [q.items[q.front]];
    }
  }

  // ---------------------------------------------------------------- runs

  /** The state after a schedule: any interleaving of writer steps and reader steps. */
  ghost function Run<T>(p: Pipe<T>, schedule: seq<Step<T>>): (q: Pipe<T>)
    requires Inv(p)
    ensures Inv(q)
    decreases |schedule|
  {
    if schedule == [] then p
    else
      InvStep(p, schedule[0]);
      Run(Apply(p, schedule[0]), schedule[1..])
  }

  lemma {:induction false} RunExtends<T>(p: Pipe<T>, schedule: seq<Step<T>>)
    requires Inv(p)
    ensures Extends(p, Run(p, schedule))
    decreases |schedule|
  {
    if schedule != [] {
      InvStep(p, schedule[0]);
      RunExtends(Apply(p, schedule[0]), schedule[1..]);
      ExtendsTransitive(p, Apply(p, schedule[0]), Run(p, schedule));
    }
  }

  lemma ExtendsTransitive<T>(p: Pipe<T>, q: Pipe<T>, s: Pipe<T>)
    requires Extends(p, q) && Extends(q, s)
    ensures Extends(p, s)
  {
    assert s.items[..p.f] == s.items[..q.f][..p.f] == q.items[..q.f][..p.f] == q.items[..p.f];
  }

  /** Whatever has been read is, in order, a prefix of what had been flushed, and stays so: the
      values read by the end of a run start the values flushed by then, and a value flushed
      early is never changed later. */
  lemma ReadIsPrefixOfFlushed<T>(early: seq<Step<T>>, late: seq<Step<T>>)
    ensures var p := Run(Empty(), early);
      var q := Run(p, late);
      && p.read == p.items[..p.front] && p.front <= p.w <= |p.items|
      && p.read <= q.read && p.w <= |q.items| && q.items[..p.w] == p.items[..p.w]
  {
    var p := Run(Empty(), early);
    var q := Run(p, late);
    RunExtends(p, late);
    assert p.items[..p.w] == p.items[..p.f][..p.w] == q.items[..p.f][..p.w] == q.items[..p.w];
  }

  /** The published boundary, be it the shared word or the reader's private bound, only ever
      stands at the end of a complete batch, and no value past it is ever read. */
  lemma BoundaryEndsBatch<T>(schedule: seq<Step<T>>)
    ensures var p := Run(Empty(), schedule);
      && (p.c.Some? ==> p.c.value in p.ends && p.c.value <= |p.items|)
      && (p.r.Some? ==> p.r.value in p.ends && p.front <= p.r.value <= p.w)
      && |p.read| <= p.w
  {
  }

  /** A flush returns false exactly when there is something to publish and the reader has put
      the pipe to sleep; then the store wakes it up with everything flushed readable. */
  lemma FlushFalseIffAsleep<T>(p: Pipe<T>)
    requires Inv(p) && !p.storing
    ensures FlushExchange(p).1.None? <==> p.w != p.f && p.asleep
    ensures FlushExchange(p).1.None? ==>
      var q := FlushStore(FlushExchange(p).0);
      !q.asleep && q.c == Some(p.f) && CheckRead(q).1
  {
  }

  /** A look finds something exactly when a flushed value is unread, and a look that finds
      nothing leaves the pipe asleep. */
  lemma LookFindsFlushed<T>(p: Pipe<T>)
    requires Inv(p)
    ensures CheckRead(p).1 <==> p.front < p.w
    ensures !CheckRead(p).1 ==> CheckRead(p).0.asleep
  {
  }

  // ---------------------------------------------------------------- batches

  /** A batch: all but the last message are written as incomplete. */
  function WriteBatch<T>(p: Pipe<T>, batch: seq<T>): Pipe<T>
    requires batch != []
    decreases |batch|
  {
    if |batch| == 1 then Write(p, batch[0], false) else WriteBatch(Write(p, batch[0], true), batch[1..])
  }

  /** A batch appends its messages and adds a single place where a published boundary may stand:
      its end.  So a reader sees all of a batch or nothing of it. */
  lemma {:induction false} BatchAddsOneEnd<T>(p: Pipe<T>, batch: seq<T>)
    requires batch != []
    ensures var end := |p.items| + |batch|;
      WriteBatch(p, batch) == p.(items := p.items + batch, f := end, ends := p.ends + {end})
    decreases |batch|
  {
    if |batch| == 1 {
      assert batch == [batch[0]];
    } else {
      BatchAddsOneEnd(Write(p, batch[0], true), batch[1..]);
      assert p.items + [batch[0]] + batch[1..] == p.items + batch;
    }
  }

  method WriteMessages<T>(p: Pipe<T>, batch: seq<T>) returns (q: Pipe<T>)
    requires batch != []
    ensures q == WriteBatch(p, batch)
  {
    q := p;
    var i := 0;
    while i < |batch| - 1
      invariant 0 <= i <= |batch| - 1 && WriteBatch(p, batch) == WriteBatch(q, batch[i..])
    {
      assert batch[i..][1..] == batch[i + 1..];
      q := Write(q, batch[i], true);
      i := i + 1;
    }
    q := Write(q, batch[i], false);
  }
}

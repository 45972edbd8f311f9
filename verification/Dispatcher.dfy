/** One destination of the dispatcher: a pipe from every source, the signal bitmap with its wait
    bit, the semaphore, any interleaving of the writers and the reader. */
module Dispatcher {
  import opened Modular
  import opened Wrappers
  import Pipe

  /** The wait bit; sources are numbered below it. */
  const WAIT: nat := 63

  /** What writer i does next. */
  datatype WriterPc = Ready | Exchanging | Storing | Signalling | Posting

  /** What the reader does next: `Waiting` is committed to the semaphore, `Draining` stands at
      source i of the loop with n of `count` messages read, `Restoring` gives back bits. */
  datatype ReaderPc =
    | Outside
    | Waiting(count: nat)
    | Woken(count: nat)
    | Draining(signals: set<nat>, i: nat, n: nat, count: nat)
    | Restoring(signals: set<nat>)

  datatype State<T> = State(
    pipes: seq<Pipe.Pipe<T>>,
    writers: seq<WriterPc>,
    bitmap: set<nat>,
    semaphore: nat,
    reader: ReaderPc,
    delivered: seq<(nat, T)>
  )

  datatype Action<T> =
    | Write(source: nat, message: T, incomplete: bool)
    | Writer(source: nat)
    | BeginRead(count: nat, blocking: bool)
    | Reader

  function Init<T>(sources: nat): State<T> {
    State(seq(sources, i => Pipe.Empty()), seq(sources, i => Ready), {}, 0, Outside, [])
  }

  // ---------------------------------------------------------------- the steps

  function SetPipe<T>(s: State<T>, i: nat, p: Pipe.Pipe<T>, pc: WriterPc): State<T>
    requires i < |s.pipes| == |s.writers|
  {
    s.(pipes := s.pipes[i := p], writers := s.writers[i := pc])
  }

  /** Set the source's bit, clear the wait bit, and post if the wait bit was set. */
  function SignalStep<T>(s: State<T>, i: nat): State<T>
    requires i < |s.writers|
  {
    s.(bitmap := s.bitmap + {i} - {WAIT},
       writers := s.writers[i := if WAIT in s.bitmap then Posting else Ready])
  }

  function WriterStep<T>(s: State<T>, i: nat): State<T>
    requires Shape(s) && i < |s.pipes|
  {
    match s.writers[i]
    case Ready => s
    case Exchanging =>
      var (p, done) := Pipe.FlushExchange(s.pipes[i]);
      SetPipe(s, i, p, if done.Some? then Signalling else Storing)
    case Storing => SetPipe(s, i, Pipe.FlushStore(s.pipes[i]), Signalling)
    case Signalling => SignalStep(s, i)
    case Posting => s.(semaphore := s.semaphore + 1, writers := s.writers[i := Ready])
  }

  function StartDrain(signals: set<nat>, count: nat): ReaderPc {
    if signals == {} then Outside else Draining(signals, 0, 0, count)
  }

  /** A blocking read polls (zero becomes the wait bit), any other takes what is there. */
  function BeginStep<T>(s: State<T>, count: nat, blocking: bool): State<T> {
    if blocking && s.bitmap == {} then s.(bitmap := {WAIT}, reader := Waiting(count))
    else s.(bitmap := {}, reader := StartDrain(s.bitmap, count))
  }

  function DrainStep<T>(s: State<T>): State<T>
    requires Shape(s) && s.reader.Draining? && PipesOk(s)
  {
    var Draining(signals, i, n, count) := s.reader;
    if i >= |s.pipes| || n >= count then s.(reader := Restoring(signals))
    else if i !in signals then s.(reader := Draining(signals, i + 1, n, count))
    else
      assert PipeOk(s, i);
      var (p, v) := Pipe.Read(s.pipes[i]);
      var s1 := s.(pipes := s.pipes[i := p]);
      match v
      case None => s1.(reader := Draining(signals - {i}, i + 1, n, count))
      case Some(m) =>
        s1.(reader := Draining(signals, i, n + 1, count), delivered := s.delivered + [(i, m)])
  }

  /** A reader at the semaphore moves only when it is positive. */
  function ReaderStep<T>(s: State<T>): State<T>
    requires Shape(s) && PipesOk(s)
  {
    match s.reader
    case Outside => s
    case Waiting(count) =>
      if s.semaphore == 0 then s else s.(semaphore := s.semaphore - 1, reader := Woken(count))
    case Woken(count) => s.(bitmap := {}, reader := StartDrain(s.bitmap, count))
    case Draining(_, _, _, _) => DrainStep(s)
    case Restoring(signals) => s.(bitmap := s.bitmap + signals, reader := Outside)
  }

  function Apply<T>(s: State<T>, a: Action<T>): State<T>
    requires Inv(s)
  {
    match a
    case Write(i, m, incomplete) =>
      if i < |s.pipes| && s.writers[i] == Ready then
        SetPipe(s, i, Pipe.Write(s.pipes[i], m, incomplete), if incomplete then Ready else Exchanging)
      else s
    case Writer(i) => if i < |s.pipes| then WriterStep(s, i) else s
    case BeginRead(count, blocking) => if s.reader.Outside? then BeginStep(s, count, blocking) else s
    case Reader => ReaderStep(s)
  }

  // ---------------------------------------------------------------- the invariant

  ghost predicate Shape<T>(s: State<T>) {
    |s.pipes| == |s.writers| <= WAIT
  }

  /** Writer i and its pipe: the store is pending exactly between exchange and store, and
      outside a flush every complete batch is published. */
  ghost predicate PipeOk<T>(s: State<T>, i: nat)
    requires Shape(s) && i < |s.pipes|
  {
    && Pipe.Inv(s.pipes[i])
    && (s.pipes[i].storing <==> s.writers[i] == Storing)
    && (s.writers[i] != Exchanging && s.writers[i] != Storing ==> s.pipes[i].w == s.pipes[i].f)
  }

  ghost predicate PipesOk<T>(s: State<T>)
    requires Shape(s)
  {
    forall i :: 0 <= i < |s.pipes| ==> PipeOk(s, i)
  }

  /** The bits the reader holds in its hands. */
  function Held(r: ReaderPc): set<nat> {
    if r.Draining? || r.Restoring? then r.signals else {}
  }

  /** A source with a flushed unread message has its bit in the bitmap or in the reader's hands,
      or is about to signal. */
  ghost predicate NotStranded<T>(s: State<T>, i: nat)
    requires i < |s.pipes| && i < |s.writers|
  {
    s.pipes[i].front < s.pipes[i].w ==>
      i in s.bitmap || i in Held(s.reader) || s.writers[i] == Signalling
  }

  ghost predicate NoneStranded<T>(s: State<T>)
    requires Shape(s)
  {
    forall i :: 0 <= i < |s.pipes| ==> NotStranded(s, i)
  }

  ghost function Postings(writers: seq<WriterPc>): nat {
    if writers == [] then 0
    else Postings(writers[..|writers| - 1]) + if writers[|writers| - 1] == Posting then 1 else 0
  }

  /** The wait bit, the posts still owed and the semaphore together make one exactly while the
      reader is committed to wait, else zero. */
  ghost predicate WakeupLaw<T>(s: State<T>) {
    (if WAIT in s.bitmap then 1 else 0) + Postings(s.writers) + s.semaphore
      == if s.reader.Waiting? then 1 else 0
  }

  ghost predicate BitsOk<T>(s: State<T>) {
    && (forall b :: b in s.bitmap ==> b < |s.pipes| || b == WAIT)
    && (forall b :: b in Held(s.reader) ==> b < |s.pipes|)
    && (WAIT in s.bitmap ==> s.bitmap == {WAIT})
    && (s.reader.Waiting? || s.reader.Woken? ==> s.bitmap != {})
  }

  /** The messages delivered from source i, in order. */
  ghost function From<T>(delivered: seq<(nat, T)>, i: nat): seq<T> {
    if delivered == [] then []
    else
      var last := delivered[|delivered| - 1];
      From(delivered[..|delivered| - 1], i) + if last.0 == i then [last.1] else []
  }

  ghost predicate DeliveredOk<T>(s: State<T>) {
    forall i :: 0 <= i < |s.pipes| ==> From(s.delivered, i) == s.pipes[i].read
  }

  ghost predicate Inv<T>(s: State<T>) {
    Shape(s) && PipesOk(s) && NoneStranded(s) && WakeupLaw(s) && BitsOk(s) && DeliveredOk(s)
  }

  // ---------------------------------------------------------------- every step keeps it

  lemma InvInit<T>(sources: nat)
    requires sources <= WAIT
    ensures Inv(Init<T>(sources))
  {
    NoPostings(sources);
  }

  lemma {:induction false} NoPostings(n: nat)
    ensures Postings(seq(n, i => Ready)) == 0
  {
    if n > 0 {
      assert seq(n, i => Ready)[..n - 1] == seq(n - 1, i => Ready);
      NoPostings(n - 1);
    }
  }

  lemma {:induction false} PostingsUpdate(writers: seq<WriterPc>, i: nat, pc: WriterPc)
    requires i < |writers|
    ensures Postings(writers[i := pc]) + (if writers[i] == Posting then 1 else 0)
      == Postings(writers) + (if pc == Posting then 1 else 0)
  {
    var n := |writers| - 1;
    if i < n {
      assert writers[i := pc][..n] == writers[..n][i := pc];
      PostingsUpdate(writers[..n], i, pc);
    } else {
      assert writers[i := pc][..n] == writers[..n];
    }
  }

  /** A step of writer i that leaves bitmap and semaphore alone. */
  lemma InvSetPipe<T>(s: State<T>, i: nat, p: Pipe.Pipe<T>, pc: WriterPc)
    requires Inv(s) && i < |s.pipes| && s.writers[i] != Posting && pc != Posting
    requires PipeOk(SetPipe(s, i, p, pc), i) && NotStranded(SetPipe(s, i, p, pc), i)
    requires p.read == s.pipes[i].read
    ensures Inv(SetPipe(s, i, p, pc))
  {
    var s' := SetPipe(s, i, p, pc);
    forall j | 0 <= j < |s.pipes| ensures PipeOk(s', j) && NotStranded(s', j) {
      assert PipeOk(s, j) && NotStranded(s, j);
    }
    PostingsUpdate(s.writers, i, pc);
  }

  lemma InvWriter<T>(s: State<T>, i: nat)
    requires Inv(s) && i < |s.pipes|
    ensures Inv(WriterStep(s, i))
  {
    var p := s.pipes[i];
    assert PipeOk(s, i) && NotStranded(s, i);
    match s.writers[i]
    case Ready =>
    case Exchanging =>
      Pipe.InvStep(p, Pipe.DoFlushExchange);
      var (q, done) := Pipe.FlushExchange(p);
      InvSetPipe(s, i, q, if done.Some? then Signalling else Storing);
    case Storing =>
      Pipe.InvStep(p, Pipe.DoFlushStore);
      InvSetPipe(s, i, Pipe.FlushStore(p), Signalling);
    case Signalling => InvSignal(s, i);
    case Posting => InvPost(s, i);
  }

  lemma InvSignal<T>(s: State<T>, i: nat)
    requires Inv(s) && i < |s.pipes| && s.writers[i] == Signalling
    ensures Inv(SignalStep(s, i))
  {
    var s' := SignalStep(s, i);
    forall j | 0 <= j < |s.pipes| ensures PipeOk(s', j) && NotStranded(s', j) {
      assert PipeOk(s, j) && NotStranded(s, j);
    }
    PostingsUpdate(s.writers, i, s'.writers[i]);
    assert i in s'.bitmap;
  }

  lemma InvPost<T>(s: State<T>, i: nat)
    requires Inv(s) && i < |s.pipes| && s.writers[i] == Posting
    ensures Inv(WriterStep(s, i))
  {
    var s' := WriterStep(s, i);
    forall j | 0 <= j < |s.pipes| ensures PipeOk(s', j) && NotStranded(s', j) {
      assert PipeOk(s, j) && NotStranded(s, j);
    }
    PostingsUpdate(s.writers, i, Ready);
  }

  lemma InvWrite<T>(s: State<T>, i: nat, m: T, incomplete: bool)
    requires Inv(s) && i < |s.pipes| && s.writers[i] == Ready
    ensures Inv(SetPipe(s, i, Pipe.Write(s.pipes[i], m, incomplete), if incomplete then Ready else Exchanging))
  {
    assert PipeOk(s, i) && NotStranded(s, i);
    Pipe.InvStep(s.pipes[i], Pipe.DoWrite(m, incomplete));
    InvSetPipe(s, i, Pipe.Write(s.pipes[i], m, incomplete), if incomplete then Ready else Exchanging);
  }

  /** A step of the reader that leaves the pipes and the writers alone. */
  lemma InvReader<T>(s: State<T>, s': State<T>)
    requires Inv(s) && s'.pipes == s.pipes && s'.writers == s.writers && s'.delivered == s.delivered
    requires WakeupLaw(s') && BitsOk(s')
    requires forall b :: (b in s.bitmap || b in Held(s.reader)) && b < |s.pipes| ==>
      b in s'.bitmap || b in Held(s'.reader)
    ensures Inv(s')
  {
    forall j | 0 <= j < |s.pipes| ensures PipeOk(s', j) && NotStranded(s', j) {
      assert PipeOk(s, j) && NotStranded(s, j);
    }
  }

  lemma InvBegin<T>(s: State<T>, count: nat, blocking: bool)
    requires Inv(s) && s.reader.Outside?
    ensures Inv(BeginStep(s, count, blocking))
  {
    hide PipesOk, NoneStranded, DeliveredOk;
    InvReader(s, BeginStep(s, count, blocking));
  }

  lemma ReadOnce<T>(s: State<T>, i: nat)
    requires Inv(s) && i < |s.pipes|
    ensures Pipe.Inv(s.pipes[i])
    ensures var q := Pipe.Read(s.pipes[i]).0;
      && PipeOk(s.(pipes := s.pipes[i := q]), i)
      && q.w == s.pipes[i].w && q.f == s.pipes[i].f && q.items == s.pipes[i].items
      && q.front >= s.pipes[i].front
      && (Pipe.Read(s.pipes[i]).1.None? <==> s.pipes[i].front == s.pipes[i].w)
      && (match Pipe.Read(s.pipes[i]).1
          case None => q.front == q.w && q.read == s.pipes[i].read
          case Some(m) => q.read == s.pipes[i].read + [m])
  {
    assert PipeOk(s, i);
    Pipe.ReadStep(s.pipes[i]);
  }

  lemma FromAppend<T>(delivered: seq<(nat, T)>, d: (nat, T), j: nat)
    ensures From(delivered + [d], j) == From(delivered, j) + if d.0 == j then [d.1] else []
  {
    assert (delivered + [d])[..|delivered|] == delivered;
  }

  lemma InvDrainPipe<T>(s: State<T>)
    requires Inv(s) && s.reader.Draining? && s.reader.i < |s.pipes| && s.reader.n < s.reader.count
    requires s.reader.i in s.reader.signals
    ensures Inv(DrainStep(s))
  {
    hide Pipe.Inv, Pipe.Read;
    var i := s.reader.i;
    ReadOnce(s, i);
    var s' := DrainStep(s);
    assert Held(s'.reader) <= Held(s.reader);
    forall j | 0 <= j < |s.pipes| ensures PipeOk(s', j) && NotStranded(s', j) {
      assert PipeOk(s, j) && NotStranded(s, j);
    }
    forall j | 0 <= j < |s.pipes| ensures From(s'.delivered, j) == s'.pipes[j].read {
      if Pipe.Read(s.pipes[i]).1.Some? {
        FromAppend(s.delivered, (i, Pipe.Read(s.pipes[i]).1.value), j);
      }
    }
  }

  lemma InvReaderStep<T>(s: State<T>)
    requires Inv(s)
    ensures Inv(ReaderStep(s))
  {
    hide PipesOk, NoneStranded, DeliveredOk;
    match s.reader
    case Outside =>
    case Draining(signals, i, n, count) =>
      if i < |s.pipes| && n < count && i in signals {
        InvDrainPipe(s);
      } else {
        assert Held(s.reader) == signals == Held(DrainStep(s).reader);
        InvReader(s, DrainStep(s));
      }
    case Restoring(signals) =>
      assert Held(s.reader) == signals;
      InvReader(s, ReaderStep(s));
    case Waiting(count) => InvReader(s, ReaderStep(s));
    case Woken(count) =>
      assert WAIT !in s.bitmap;
      assert Held(ReaderStep(s).reader) == s.bitmap;
      InvReader(s, ReaderStep(s));
  }

  lemma InvStep<T>(s: State<T>, a: Action<T>)
    requires Inv(s)
    ensures Inv(Apply(s, a))
  {
    match a
    case Write(i, m, incomplete) =>
      if i < |s.pipes| && s.writers[i] == Ready { InvWrite(s, i, m, incomplete); }
    case Writer(i) => if i < |s.pipes| { InvWriter(s, i); }
    case BeginRead(count, blocking) => if s.reader.Outside? { InvBegin(s, count, blocking); }
    case Reader => InvReaderStep(s);
  }

  // ---------------------------------------------------------------- runs

  ghost function Run<T>(s: State<T>, schedule: seq<Action<T>>): (r: State<T>)
    requires Inv(s)
    ensures Inv(r)
    decreases |schedule|
  {
    if schedule == [] then s
    else
      InvStep(s, schedule[0]);
      Run(Apply(s, schedule[0]), schedule[1..])
  }

  ghost function Reached<T>(sources: nat, schedule: seq<Action<T>>): (s: State<T>)
    requires sources <= WAIT
    ensures Inv(s)
  {
    InvInit<T>(sources);
    Run(Init(sources), schedule)
  }

  /** No message is stranded, in any interleaving, through partial drains and restored bits: a
      source with a flushed unread message has its bit in the bitmap or in the reader's hands,
      or its writer is about to signal. */
  lemma NoMessageStranded<T>(sources: nat, schedule: seq<Action<T>>, i: nat)
    requires sources <= WAIT && i < |Reached(sources, schedule).pipes|
    ensures var s := Reached(sources, schedule);
      s.pipes[i].front < s.pipes[i].w ==>
        i in s.bitmap || i in Held(s.reader) || s.writers[i] == Signalling
  {
    assert NotStranded(Reached(sources, schedule), i);
  }

  /** The wait bit is on only while the reader waits, and then alone; each wait is owed exactly
      one post, so the semaphore never exceeds one; and a poll never comes back with nothing. */
  lemma WakeupsMatchSleeps<T>(sources: nat, schedule: seq<Action<T>>)
    requires sources <= WAIT
    ensures var s := Reached(sources, schedule);
      && (WAIT in s.bitmap ==> s.reader.Waiting? && s.bitmap == {WAIT})
      && (s.reader.Waiting? <==> WAIT in s.bitmap || Postings(s.writers) + s.semaphore > 0)
      && (WAIT in s.bitmap ==> Postings(s.writers) + s.semaphore == 0)
      && Postings(s.writers) + s.semaphore <= 1
      && (s.reader.Woken? ==> s.bitmap != {} && ReaderStep(s).reader.Draining?)
      && (s.reader.Outside? ==> BeginStep(s, 1, true).reader.Waiting?
                                || BeginStep(s, 1, true).reader.Draining?)
  {
  }

  /** A reader asleep with every writer at rest has received every complete message. */
  lemma AsleepMeansAllDelivered<T>(sources: nat, schedule: seq<Action<T>>, i: nat)
    requires sources <= WAIT && i < |Reached(sources, schedule).pipes|
    requires var s := Reached(sources, schedule);
      && s.reader.Waiting? && s.semaphore == 0
      && forall j :: 0 <= j < |s.writers| ==> s.writers[j] == Ready
    ensures var s := Reached(sources, schedule);
      s.pipes[i].f <= |s.pipes[i].items| && From(s.delivered, i) == s.pipes[i].items[..s.pipes[i].f]
  {
    var s := Reached(sources, schedule);
    NobodyPosts(s.writers);
    assert PipeOk(s, i) && NotStranded(s, i);
  }

  lemma {:induction false} NobodyPosts(writers: seq<WriterPc>)
    requires forall j :: 0 <= j < |writers| ==> writers[j] == Ready
    ensures Postings(writers) == 0
  {
    if writers != [] { NobodyPosts(writers[..|writers| - 1]); }
  }

  /** What the reader received from one source is, in order, a prefix of what that source
      flushed. */
  lemma DeliveryIsFifo<T>(sources: nat, schedule: seq<Action<T>>, i: nat)
    requires sources <= WAIT && i < |Reached(sources, schedule).pipes|
    ensures var s := Reached(sources, schedule);
      var p := s.pipes[i];
      p.front <= p.w <= p.f <= |p.items| && From(s.delivered, i) == p.items[..p.front]
  {
    assert PipeOk(Reached(sources, schedule), i);
  }

  /** The pipes of different (source, destination) pairs lie in different entries of the matrix. */
  lemma MatrixIsInjective(threads: nat, s: nat, d: nat, s': nat, d': nat)
    requires d < threads && d' < threads && s * threads + d == s' * threads + d'
    ensures s == s' && d == d'
  {
    RemainderUnique(s * threads + d, s, d, threads);
    RemainderUnique(s * threads + d, s', d', threads);
  }
}

/** What the dispatcher delivers: every message of an accepted write is kept, and once the writers
    are at rest a read takes everything that is complete. */
module DispatcherDelivery {
  import opened Wrappers
  import Pipe
  import opened Dispatcher

  ghost predicate AtRest<T>(s: State<T>) {
    forall i :: 0 <= i < |s.writers| ==> s.writers[i] == Ready
  }

  /** No pipe holds a flushed unread message. */
  ghost predicate AllRead<T>(s: State<T>) {
    forall i :: 0 <= i < |s.pipes| ==> s.pipes[i].front == s.pipes[i].w
  }

  /** The writers' side of a pipe is untouched. */
  ghost predicate SamePipe<T>(p: Pipe.Pipe<T>, q: Pipe.Pipe<T>) {
    p.items == q.items && p.f == q.f && p.w == q.w
  }

  ghost predicate SameWritten<T>(s: State<T>, t: State<T>) {
    |s.pipes| == |t.pipes| && forall i :: 0 <= i < |s.pipes| ==> SamePipe(s.pipes[i], t.pipes[i])
  }

  lemma Resting<T>(s: State<T>, i: nat)
    requires Inv(s) && AtRest(s) && i < |s.pipes|
    ensures Shape(s) && s.writers[i] == Ready && Pipe.Inv(s.pipes[i]) && s.pipes[i].w == s.pipes[i].f && i < WAIT
  {
    assert PipeOk(s, i);
  }

  /** The two steps from the semaphore to the loop: some bit is on, and all are taken. */
  lemma WakeUp<T>(s: State<T>)
    requires Inv(s) && s.reader.Waiting? && s.semaphore > 0
    ensures var t := s.(bitmap := {}, semaphore := s.semaphore - 1, reader := StartDrain(s.bitmap, s.reader.count));
      s.bitmap != {} && Inv(t) && SameWritten(s, t)
    ensures Shape(s) && PipesOk(s) && Inv(ReaderStep(s))
    ensures Shape(ReaderStep(s)) && PipesOk(ReaderStep(s))
    ensures ReaderStep(ReaderStep(s))
      == s.(bitmap := {}, semaphore := s.semaphore - 1, reader := StartDrain(s.bitmap, s.reader.count))
  {
    InvReaderStep(s);
    InvReaderStep(ReaderStep(s));
  }

  /** With all writers at rest a reader that sleeps has one post exactly if the wait bit is off. */
  lemma OnePost<T>(s: State<T>, i: nat)
    requires Inv(s) && AtRest(s) && s.reader.Waiting? && i in s.bitmap && i != WAIT
    ensures s.semaphore == 1
  {
    NobodyPosts(s.writers);
  }

  lemma AsleepFacts<T>(s: State<T>)
    requires Inv(s) && AtRest(s) && s.reader.Waiting? && s.bitmap == {WAIT}
    ensures s.semaphore == 0 && AllRead(s)
  {
    NobodyPosts(s.writers);
    forall i | 0 <= i < |s.pipes| ensures s.pipes[i].front == s.pipes[i].w {
      assert PipeOk(s, i) && NotStranded(s, i);
    }
  }

  lemma DrainOne<T>(s: State<T>)
    requires Inv(s) && s.reader.Draining? && s.reader.i < |s.pipes| && s.reader.n < s.reader.count
    requires s.reader.i in s.reader.signals
    ensures Shape(s) && PipesOk(s) && Inv(DrainStep(s)) && Pipe.Inv(s.pipes[s.reader.i]) && SameWritten(s, DrainStep(s))
    ensures var Draining(signals, i, n, count) := s.reader;
      var (p, v) := Pipe.Read(s.pipes[i]);
      var pipes := s.pipes[i := p];
      DrainStep(s) == match v
        case None => s.(pipes := pipes, reader := Draining(signals - {i}, i + 1, n, count))
        case Some(m) =>
          s.(pipes := pipes, reader := Draining(signals, i, n + 1, count), delivered := s.delivered + [(i, m)])
  {
    hide Pipe.Inv, Pipe.Read;
    ReadOnce(s, s.reader.i);
    InvDrainPipe(s);
  }

  lemma DrainSkip<T>(s: State<T>)
    requires Inv(s) && s.reader.Draining? && s.reader.i < |s.pipes| && s.reader.n < s.reader.count
    requires s.reader.i !in s.reader.signals
    ensures Shape(s) && PipesOk(s) && Inv(DrainStep(s))
    ensures DrainStep(s) == s.(reader := s.reader.(i := s.reader.i + 1)) && SameWritten(s, DrainStep(s))
  {
    InvReaderStep(s);
  }

  /** Leaving the loop and giving the bits back. */
  lemma Finish<T>(s: State<T>)
    requires Inv(s) && s.reader.Draining? && s.bitmap == {}
    requires s.reader.i >= |s.pipes| || s.reader.n >= s.reader.count
    ensures Shape(s) && PipesOk(s) && Inv(DrainStep(s))
    ensures var t := s.(reader := Outside, bitmap := s.reader.signals);
      Inv(t) && t == ReaderStep(DrainStep(s))
    ensures forall b :: b in s.reader.signals ==> b < |s.pipes|
  {
    InvReaderStep(s);
    InvReaderStep(DrainStep(s));
    assert Held(s.reader) == s.reader.signals == s.bitmap + s.reader.signals;
  }

  lemma SamePipes<T>(s: State<T>, t: State<T>, u: State<T>)
    requires SameWritten(s, t) && u.pipes == t.pipes
    ensures SameWritten(s, u)
  {
  }

  lemma SameWrittenTrans<T>(s: State<T>, t: State<T>, u: State<T>)
    requires SameWritten(s, t) && SameWritten(t, u)
    ensures SameWritten(s, u)
  {
    forall i | 0 <= i < |s.pipes| ensures SamePipe(s.pipes[i], u.pipes[i]) {
      assert SamePipe(s.pipes[i], t.pipes[i]) && SamePipe(t.pipes[i], u.pipes[i]);
    }
  }

  /** With no bit on and every writer at rest nothing is left unread. */
  lemma NothingPending<T>(s: State<T>)
    requires Inv(s) && AtRest(s) && s.bitmap == {} && Held(s.reader) == {}
    ensures AllRead(s)
  {
    forall i | 0 <= i < |s.pipes| ensures s.pipes[i].front == s.pipes[i].w {
      assert PipeOk(s, i) && NotStranded(s, i);
    }
  }

  // ---------------------------------------------------------------- what was written

  predicate Accepts<T>(s: State<T>, a: Action<T>, i: nat) {
    a.Write? && a.source == i < |s.pipes| && i < |s.writers| && s.writers[i] == Ready
  }

  /** The writes accepted from source i, in order: message, and whether it is incomplete. */
  ghost function Accepted<T>(s: State<T>, schedule: seq<Action<T>>, i: nat): seq<(T, bool)>
    requires Inv(s)
    decreases |schedule|
  {
    if schedule == [] then []
    else
      var a := schedule[0];
      InvStep(s, a);
      (if Accepts(s, a, i) then [(a.message, a.incomplete)] else []) + Accepted(Apply(s, a), schedule[1..], i)
  }

  function Messages<T>(writes: seq<(T, bool)>): seq<T> {
    seq(|writes|, k requires 0 <= k < |writes| => writes[k].0)
  }

  /** How many messages there are up to the last complete one. */
  function UpToComplete<T>(writes: seq<(T, bool)>): (n: nat)
    ensures n <= |writes|
  {
    if writes == [] then 0
    else if !writes[|writes| - 1].1 then |writes|
    else UpToComplete(writes[..|writes| - 1])
  }

  /** Items and batch end of a pipe after these writes. */
  ghost predicate After<T>(p: Pipe.Pipe<T>, q: Pipe.Pipe<T>, writes: seq<(T, bool)>) {
    && q.items == p.items + Messages(writes)
    && q.f == if UpToComplete(writes) == 0 then p.f else |p.items| + UpToComplete(writes)
  }

  lemma ReaderKeepsWritten<T>(s: State<T>)
    requires Inv(s)
    ensures Shape(s) && PipesOk(s) && SameWritten(s, ReaderStep(s))
  {
    if s.reader.Draining? && s.reader.i < |s.pipes| && s.reader.n < s.reader.count && s.reader.i in s.reader.signals {
      DrainOne(s);
    }
  }

  lemma WriterKeepsWritten<T>(s: State<T>, k: nat, i: nat)
    requires Inv(s) && k < |s.pipes| && i < |s.pipes|
    ensures Shape(s) && |WriterStep(s, k).pipes| == |s.pipes|
    ensures var p, q := s.pipes[i], WriterStep(s, k).pipes[i]; q.items == p.items && q.f == p.f
  {
    ShapeOf(s);
    hide Inv;
  }

  lemma ShapeOf<T>(s: State<T>)
    requires Inv(s)
    ensures Shape(s) && PipesOk(s)
  {
  }

  /** One action: an accepted write adds its message, at the end; nothing else adds or takes any. */
  lemma OneAction<T>(s: State<T>, a: Action<T>, i: nat)
    requires Inv(s) && i < |s.pipes|
    ensures |Apply(s, a).pipes| == |s.pipes|
    ensures After(s.pipes[i], Apply(s, a).pipes[i], if Accepts(s, a, i) then [(a.message, a.incomplete)] else [])
  {
    var p, q := s.pipes[i], Apply(s, a).pipes[i];
    var w := if Accepts(s, a, i) then [(a.message, a.incomplete)] else [];
    assert w == [] ==> p.items + Messages(w) == p.items;
    assert w != [] ==> Messages(w) == [a.message] && w[..0] == [];
    ShapeOf(s);
    hide Inv, WriterStep, ReaderStep;
    match a
    case Write(k, m, incomplete) =>
    case Writer(k) => if k < |s.pipes| { WriterKeepsWritten(s, k, i); }
    case BeginRead(_, _) =>
    case Reader =>
      ReaderKeepsWritten(s);
      assert SamePipe(s.pipes[i], ReaderStep(s).pipes[i]);
  }

  lemma {:induction false} UpToCompleteConcat<T>(a: seq<(T, bool)>, b: seq<(T, bool)>)
    ensures UpToComplete(a + b) == if UpToComplete(b) > 0 then |a| + UpToComplete(b) else UpToComplete(a)
    decreases |b|
  {
    if b == [] {
      assert a + b == a;
    } else {
      assert (a + b)[..|a + b| - 1] == a + b[..|b| - 1];
      UpToCompleteConcat(a, b[..|b| - 1]);
    }
  }

  lemma AfterBoth<T>(p: Pipe.Pipe<T>, q: Pipe.Pipe<T>, r: Pipe.Pipe<T>, a: seq<(T, bool)>, b: seq<(T, bool)>)
    requires After(p, q, a) && After(q, r, b)
    ensures After(p, r, a + b)
  {
    UpToCompleteConcat(a, b);
    assert Messages(a + b) == Messages(a) + Messages(b);
    assert p.items + Messages(a) + Messages(b) == p.items + (Messages(a) + Messages(b));
  }

  lemma {:induction false} RunKeepsWrites<T>(s: State<T>, schedule: seq<Action<T>>, i: nat)
    requires Inv(s) && i < |s.pipes|
    ensures |Run(s, schedule).pipes| == |s.pipes|
    ensures After(s.pipes[i], Run(s, schedule).pipes[i], Accepted(s, schedule, i))
    decreases |schedule|
  {
    if schedule == [] {
      assert s.pipes[i].items + Messages<T>([]) == s.pipes[i].items;
    } else {
      var a := schedule[0];
      InvStep(s, a);
      OneAction(s, a, i);
      RunKeepsWrites(Apply(s, a), schedule[1..], i);
      var w := if Accepts(s, a, i) then [(a.message, a.incomplete)] else [];
      hide Inv, After, Apply;
      var q, r := Apply(s, a), Run(s, schedule);
      AfterBoth(s.pipes[i], q.pipes[i], r.pipes[i], w, Accepted(q, schedule[1..], i));
    }
  }

  /** In every interleaving the messages in the pipe of a source are those of the writes accepted from
      it, in order and no others; and as long as its writer is not in the middle of a flush everything
      up to the last complete one is flushed. */
  lemma WritesAreKept<T>(sources: nat, schedule: seq<Action<T>>, i: nat)
    requires i < sources <= WAIT
    ensures Inv(Init<T>(sources))
    ensures var s, writes := Reached(sources, schedule), Accepted(Init(sources), schedule, i);
      && |s.pipes| == |s.writers| == sources && s.pipes[i].items == Messages(writes)
      && s.pipes[i].f == UpToComplete(writes)
      && (s.writers[i] == Ready ==> s.pipes[i].w == UpToComplete(writes))
  {
    InvInit<T>(sources);
    RunKeepsWrites(Init(sources), schedule, i);
    var s := Reached(sources, schedule);
    assert [] + Messages(Accepted(Init(sources), schedule, i)) == Messages(Accepted(Init(sources), schedule, i));
    assert PipeOk(s, i);
  }

  /** A reader asleep with every writer at rest has received from each source every accepted message up
      to the last complete one. */
  lemma AsleepMeansAllReceived<T>(sources: nat, schedule: seq<Action<T>>, i: nat)
    requires i < sources <= WAIT
    requires var s := Reached(sources, schedule); s.reader.Waiting? && s.semaphore == 0 && AtRest(s)
    ensures Inv(Init<T>(sources))
    ensures var writes := Accepted(Init(sources), schedule, i);
      From(Reached(sources, schedule).delivered, i) == Messages(writes)[..UpToComplete(writes)]
  {
    WritesAreKept(sources, schedule, i);
    AsleepMeansAllDelivered(sources, schedule, i);
  }

  // ---------------------------------------------------------------- the writers come to rest

  function Settle<T>(n: nat): seq<Action<T>> {
    if n == 0 then [] else Settle<T>(n - 1) + Goes<T>(n - 1, 4)
  }

  /** Writer k goes on for n steps. */
  function Goes<T>(k: nat, n: nat): seq<Action<T>> {
    if n == 0 then [] else [Writer(k)] + Goes<T>(k, n - 1)
  }

  lemma {:induction false} RunConcat<T>(s: State<T>, a: seq<Action<T>>, b: seq<Action<T>>)
    requires Inv(s)
    ensures Run(s, a + b) == Run(Run(s, a), b)
    decreases |a|
  {
    if a == [] {
      assert a + b == b;
    } else {
      InvStep(s, a[0]);
      assert (a + b)[1..] == a[1..] + b;
      RunConcat(Apply(s, a[0]), a[1..], b);
    }
  }

  /** What a writer that goes on leaves alone. */
  ghost predicate OnlyWriter<T>(s: State<T>, s': State<T>, k: nat) {
    && |s'.pipes| == |s.pipes| && |s'.writers| == |s.writers| && s'.reader == s.reader && s'.delivered == s.delivered
    && (forall i :: 0 <= i < |s.writers| && i != k ==> s'.writers[i] == s.writers[i])
    && (forall i :: 0 <= i < |s.pipes| ==> SameItems(s.pipes[i], s'.pipes[i]))
  }

  ghost predicate SameItems<T>(p: Pipe.Pipe<T>, q: Pipe.Pipe<T>) {
    q.items == p.items && q.f == p.f && q.front == p.front && q.read == p.read
  }

  lemma OneWriterStep<T>(s: State<T>, k: nat)
    requires Inv(s) && k < |s.pipes|
    ensures var s' := Apply(s, Writer(k));
      && Inv(s') && Shape(s) && OnlyWriter(s, s', k)
      && Rank(s'.writers[k]) <= (if Rank(s.writers[k]) > 0 then Rank(s.writers[k]) - 1 else 0)
  {
    InvStep(s, Writer(k));
    ShapeOf(s);
    hide Inv;
  }

  /** How many steps the writer has before it at most. */
  function Rank(pc: WriterPc): nat {
    match pc
    case Ready => 0
    case Posting => 1
    case Signalling => 2
    case Storing => 3
    case Exchanging => 4
  }

  lemma {:induction false} WriterSettles<T>(s: State<T>, k: nat, n: nat)
    requires Inv(s) && k < |s.pipes| && k < |s.writers| && Rank(s.writers[k]) <= n
    ensures var s' := Run(s, Goes(k, n));
      OnlyWriter(s, s', k) && k < |s'.writers| && s'.writers[k] == Ready
    decreases n
  {
    if n > 0 {
      OneWriterStep(s, k);
      var s1 := Apply(s, Writer(k));
      WriterSettles(s1, k, n - 1);
      assert Goes<T>(k, n)[1..] == Goes<T>(k, n - 1);
      hide Inv, Apply, OnlyWriter;
      assert Run(s, Goes(k, n)) == Run(s1, Goes(k, n - 1));
      OnlyBoth(s, s1, Run(s1, Goes(k, n - 1)), k);
    }
  }

  lemma OnlyBoth<T>(s: State<T>, s1: State<T>, s2: State<T>, k: nat)
    requires OnlyWriter(s, s1, k) && OnlyWriter(s1, s2, k)
    ensures OnlyWriter(s, s2, k)
  {
    forall i | 0 <= i < |s.pipes| ensures SameItems(s.pipes[i], s2.pipes[i]) {
      assert SameItems(s.pipes[i], s1.pipes[i]) && SameItems(s1.pipes[i], s2.pipes[i]);
    }
  }

  /** The first n writers are at rest; nothing is lost on the way. */
  ghost predicate SettledTo<T>(s: State<T>, s': State<T>, n: nat) {
    && |s'.pipes| == |s.pipes| == |s'.writers| && n <= |s.pipes| && s'.reader == s.reader && s'.delivered == s.delivered
    && (forall i :: 0 <= i < n ==> s'.writers[i] == Ready)
    && (forall i :: 0 <= i < |s.pipes| ==> SameItems(s.pipes[i], s'.pipes[i]))
  }

  lemma SettleOne<T>(s: State<T>, s1: State<T>, s2: State<T>, k: nat)
    requires SettledTo(s, s1, k) && OnlyWriter(s1, s2, k) && k < |s2.writers| && s2.writers[k] == Ready
    ensures SettledTo(s, s2, k + 1)
  {
    forall i | 0 <= i < |s.pipes| ensures SameItems(s.pipes[i], s2.pipes[i]) {
      assert SameItems(s.pipes[i], s1.pipes[i]) && SameItems(s1.pipes[i], s2.pipes[i]);
    }
  }

  /** From any reached state at most four steps of each writer bring all of them to rest, with nothing
      lost. */
  lemma {:induction false} WritersSettle<T>(s: State<T>, n: nat)
    requires Inv(s) && n <= |s.pipes|
    ensures SettledTo(s, Run(s, Settle(n)), n)
  {
    ShapeOf(s);
    hide Inv;
    if n > 0 {
      var k := n - 1;
      WritersSettle(s, k);
      RunConcat(s, Settle(k), Goes<T>(k, 4));
      var s1 := Run(s, Settle(k));
      WriterSettles(s1, k, 4);
      hide OnlyWriter, Run;
      SettleOne(s, s1, Run(s1, Goes(k, 4)), k);
    }
  }

  // ---------------------------------------------------------------- a read takes everything

  /** How many flushed messages are unread. */
  ghost function Unread<T>(pipes: seq<Pipe.Pipe<T>>): nat {
    if pipes == [] then 0
    else
      var p := pipes[|pipes| - 1];
      Unread(pipes[..|pipes| - 1]) + if p.front < p.w then p.w - p.front else 0
  }

  lemma {:induction false} UnreadUpdate<T>(pipes: seq<Pipe.Pipe<T>>, i: nat, q: Pipe.Pipe<T>)
    requires i < |pipes| && pipes[i].front <= pipes[i].w && q.front <= q.w
    ensures Unread(pipes[i := q]) + (pipes[i].w - pipes[i].front) == Unread(pipes) + (q.w - q.front)
  {
    var n := |pipes| - 1;
    if i < n {
      assert pipes[i := q][..n] == pipes[..n][i := q];
      UnreadUpdate(pipes[..n], i, q);
    } else {
      assert pipes[i := q][..n] == pipes[..n];
    }
  }

  /** A read under way with the writers at rest; there are `total` messages for it. */
  ghost predicate Reading<T>(s: State<T>, total: nat) {
    && Inv(s) && AtRest(s) && s.bitmap == {} && s.reader.Draining?
    && s.reader.n + Unread(s.pipes) == total < s.reader.count
    && (forall j :: 0 <= j < s.reader.i ==> j !in s.reader.signals)
  }

  lemma ReadingStep<T>(s: State<T>, total: nat)
    requires Reading(s, total) && s.reader.i < |s.pipes|
    ensures var s' := Apply(s, Reader);
      && Reading(s', total) && SameWritten(s, s') && |s'.pipes| == |s.pipes|
      && s'.reader.i + s'.reader.n == s.reader.i + s.reader.n + 1
  {
    hide Inv, Pipe.Inv, Pipe.Read, DrainStep, Shape, PipesOk, Unread;
    var i := s.reader.i;
    if i in s.reader.signals {
      DrainOne(s);
      ReadFront(s.pipes[i]);
      UnreadUpdate(s.pipes, i, Pipe.Read(s.pipes[i]).0);
    } else {
      DrainSkip(s);
    }
  }

  lemma ReadFront<T>(p: Pipe.Pipe<T>)
    requires Pipe.Inv(p)
    ensures var (q, v) := Pipe.Read(p);
      && q.front == p.front + (if v.Some? then 1 else 0) && q.w == p.w && p.front <= p.w && q.front <= q.w
      && (v.None? ==> p.front == p.w)
  {
    Pipe.ReadStep(p);
  }

  function Again<T>(n: nat): seq<Action<T>> {
    if n == 0 then [] else [Reader] + Again<T>(n - 1)
  }

  /** The loop comes to its end, and then nothing is left. */
  lemma {:induction false} ReadingEnds<T>(s: State<T>, total: nat) returns (n: nat)
    requires Reading(s, total)
    ensures var s' := Run(s, Again(n));
      Inv(s') && s'.reader.Outside? && AtRest(s') && AllRead(s') && SameWritten(s, s') && s'.bitmap == {}
    decreases (if s.reader.i < |s.pipes| then |s.pipes| - s.reader.i else 0) + (s.reader.count - s.reader.n)
  {
    ShapeOf(s);
    assert forall k: nat :: k > 0 ==> Again<T>(k)[1..] == Again<T>(k - 1);
    if s.reader.i < |s.pipes| {
      ReadingStep(s, total);
      var s1 := Apply(s, Reader);
      InvStep(s, Reader);
      var m := ReadingEnds(s1, total);
      n := m + 1;
      hide Inv, Apply, AllRead, AtRest;
      SameWrittenTrans(s, s1, Run(s1, Again(m)));
    } else {
      n := 2;
      LastSteps(s, total);
    }
  }

  lemma LastSteps<T>(s: State<T>, total: nat)
    requires Reading(s, total) && s.reader.i >= |s.pipes|
    ensures var s' := Run(s, Again(2));
      Inv(s') && s'.reader.Outside? && AtRest(s') && AllRead(s') && SameWritten(s, s') && s'.bitmap == {}
  {
    Finish(s);
    InvStep(s, Reader);
    var s1 := Apply(s, Reader);
    InvStep(s1, Reader);
    var s2 := Apply(s1, Reader);
    assert Again<T>(2)[1..] == Again<T>(1) && Again<T>(1)[1..] == [];
    assert s2 == s.(reader := Outside, bitmap := s.reader.signals);
    assert s.reader.signals == {};
    NothingPending(s2);
    hide Inv, Apply;
    assert Run(s1, Again(1)) == Run(s2, []);
  }

  /** A read that begins with the writers at rest and is asked for more than there is: it comes back,
      having delivered everything that is flushed.  A blocking one does the same if any bit is on, and
      else goes to sleep. */
  lemma ReadTakesAll<T>(s: State<T>, count: nat, blocking: bool) returns (n: nat)
    requires Inv(s) && s.reader.Outside? && AtRest(s) && count > Unread(s.pipes)
    ensures var s' := Run(s, [BeginRead(count, blocking)] + Again(n));
      && Inv(s') && AtRest(s') && AllRead(s') && SameWritten(s, s')
      && s'.reader == if blocking && s.bitmap == {} then Waiting(count) else Outside
  {
    var a := BeginRead(count, blocking);
    InvStep(s, a);
    var s1 := Apply(s, a);
    ShapeOf(s);
    if s.bitmap == {} {
      n := 0;
      NothingPending(s);
      assert ([a] + Again(0))[1..] == [];
      assert Run(s, [a] + Again(0)) == Run(s1, []);
    } else {
      assert Reading(s1, Unread(s.pipes));
      n := ReadingEnds(s1, Unread(s.pipes));
      assert ([a] + Again(n))[1..] == Again(n);
      hide Inv, Apply, AllRead, AtRest;
      SameWrittenTrans(s, s1, Run(s1, Again(n)));
    }
  }

  /** From any state with the reader outside: let the writers come to rest, then read.  The read comes
      back, and what was delivered from a source is everything complete that was written to it. */
  lemma EverythingArrives<T>(s: State<T>, count: nat) returns (n: nat)
    requires Inv(s) && s.reader.Outside? && count > Unread(Run(s, Settle(|s.pipes|)).pipes)
    ensures var s' := Run(Run(s, Settle(|s.pipes|)), [BeginRead(count, false)] + Again(n));
      && s'.reader.Outside? && |s'.pipes| == |s.pipes|
      && (forall i :: 0 <= i < |s.pipes| ==> Arrived(s, s', i))
  {
    WritersSettle(s, |s.pipes|);
    var s1 := Run(s, Settle(|s.pipes|));
    n := ReadTakesAll(s1, count, false);
    var s' := Run(s1, [BeginRead(count, false)] + Again(n));
    forall i | 0 <= i < |s.pipes| ensures Arrived(s, s', i) {
      assert SameItems(s.pipes[i], s1.pipes[i]) && SamePipe(s1.pipes[i], s'.pipes[i]);
      assert PipeOk(s', i) && s'.pipes[i].front == s'.pipes[i].w;
    }
  }

  ghost predicate Arrived<T>(s: State<T>, s': State<T>, i: nat)
    requires i < |s.pipes|
  {
    s.pipes[i].f <= |s.pipes[i].items| && From(s'.delivered, i) == s.pipes[i].items[..s.pipes[i].f]
  }

  /** The same, said of what was accepted: after any run with the reader outside the writers come to
      rest, and a read that is asked for enough has then delivered from each source every accepted
      message up to the last complete one. */
  lemma AcceptedMeansDelivered<T>(sources: nat, schedule: seq<Action<T>>, count: nat) returns (n: nat)
    requires sources <= WAIT && Reached(sources, schedule).reader.Outside?
    requires var s := Reached(sources, schedule); count > Unread(Run(s, Settle(|s.pipes|)).pipes)
    ensures Inv(Init<T>(sources))
    ensures var s := Reached(sources, schedule);
      var s' := Run(Run(s, Settle(|s.pipes|)), [BeginRead(count, false)] + Again(n));
      && s'.reader.Outside?
      && forall i :: 0 <= i < sources ==>
           ReceivedAll(s'.delivered, i, Accepted(Init(sources), schedule, i))
  {
    InvInit<T>(sources);
    var s := Reached(sources, schedule);
    n := EverythingArrives(s, count);
    var s' := Run(Run(s, Settle(|s.pipes|)), [BeginRead(count, false)] + Again(n));
    forall i | 0 <= i < sources ensures ReceivedAll(s'.delivered, i, Accepted(Init(sources), schedule, i)) {
      WritesAreKept(sources, schedule, i);
      assert Arrived(s, s', i);
    }
  }

  ghost predicate ReceivedAll<T>(delivered: seq<(nat, T)>, i: nat, writes: seq<(T, bool)>) {
    From(delivered, i) == Messages(writes)[..UpToComplete(writes)]
  }
}

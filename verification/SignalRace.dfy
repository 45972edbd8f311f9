/** Any number of threads at one signal word, each in a loop around a compare-exchange: they act as
    if each operation happened at one moment. */
module SignalRace {
  import opened Bits
  import opened SignalWord

  /** `at` is history: how many operations had been completed when the word was seen. */
  datatype Pc = Idle | Called(op: Op) | Seen(op: Op, seen: nat, at: nat)

  /** `log` is history: the operations completed, each with the word it returned. */
  datatype State = State(word: nat, threads: seq<Pc>, log: seq<(Op, nat)>)

  datatype Action = Call(thread: nat, op: Op) | Step(thread: nat)

  function Init(threads: nat): State {
    State(0, seq(threads, i => Idle), [])
  }

  function Complete(s: State, t: nat, op: Op): State
    requires t < |s.threads|
  {
    State(Desired(op, s.word), s.threads[t := Idle], s.log + [(op, s.word)])
  }

  /** A plain exchange is one step.  Any other operation loads the word, then tries to exchange it;
      a compare-exchange that fails loads it anew. */
  function Apply(s: State, a: Action): State {
    match a
    case Call(t, op) =>
      if t < |s.threads| && s.threads[t] == Idle && OpOk(op) then s.(threads := s.threads[t := Called(op)]) else s
    case Step(t) =>
      if t >= |s.threads| then s
      else
        match s.threads[t]
        case Idle => s
        case Called(op) =>
          if op.Exchange? then Complete(s, t, op)
          else s.(threads := s.threads[t := Seen(op, s.word, |s.log|)])
        case Seen(op, seen, _) =>
          if s.word == seen then Complete(s, t, op)
          else s.(threads := s.threads[t := Seen(op, s.word, |s.log|)])
  }

  function Run(s: State, schedule: seq<Action>): State
    decreases |schedule|
  {
    if schedule == [] then s else Run(Apply(s, schedule[0]), schedule[1..])
  }

  /** The set of digits after the first n operations, one after the other. */
  function After(log: seq<(Op, nat)>, n: nat): set<nat>
    requires n <= |log|
  {
    if n == 0 then {} else Meaning(log[n - 1].0, After(log, n - 1))
  }

  ghost predicate ThreadOk(s: State, t: nat)
    requires t < |s.threads|
  {
    match s.threads[t]
    case Idle => true
    case Called(op) => OpOk(op)
    case Seen(op, seen, at) => OpOk(op) && at <= |s.log| && (at == |s.log| ==> seen == s.word)
  }

  ghost predicate LogOk(s: State, k: nat)
    requires k < |s.log|
  {
    Digits(s.log[k].1) == After(s.log, k)
  }

  ghost predicate Inv(s: State) {
    && IsWord(s.word) && Digits(s.word) == After(s.log, |s.log|)
    && (forall t :: 0 <= t < |s.threads| ==> ThreadOk(s, t))
    && (forall k :: 0 <= k < |s.log| ==> LogOk(s, k))
  }

  lemma {:induction false} AfterAppend(log: seq<(Op, nat)>, e: (Op, nat), n: nat)
    requires n <= |log|
    ensures After(log + [e], n) == After(log, n)
  {
    if n > 0 { AfterAppend(log, e, n - 1); }
  }

  lemma InvComplete(s: State, t: nat, op: Op)
    requires Inv(s) && t < |s.threads| && OpOk(op)
    ensures Inv(Complete(s, t, op))
  {
    hide Digits, Desired, Meaning, Pow2;
    var s', n := Complete(s, t, op), |s.log|;
    DesiredIsMeant(op, s.word);
    AfterAppend(s.log, (op, s.word), n);
    forall k | 0 <= k < |s'.log| ensures LogOk(s', k) {
      if k < n {
        assert LogOk(s, k);
        AfterAppend(s.log, (op, s.word), k);
      }
    }
    forall u | 0 <= u < |s'.threads| ensures ThreadOk(s', u) { assert ThreadOk(s, u); }
  }

  lemma InvStep(s: State, a: Action)
    requires Inv(s)
    ensures Inv(Apply(s, a))
  {
    hide Digits, Desired, Meaning, Pow2;
    var s' := Apply(s, a);
    var t := a.thread;
    if t < |s.threads| {
      assert ThreadOk(s, t);
      if s'.log == s.log {
        forall u | 0 <= u < |s'.threads| ensures ThreadOk(s', u) { assert ThreadOk(s, u); }
        forall k | 0 <= k < |s'.log| ensures LogOk(s', k) { assert LogOk(s, k); }
      } else {
        InvComplete(s, t, s.threads[t].op);
      }
    }
  }

  lemma InvInit(threads: nat)
    ensures Inv(Init(threads))
  {
    NoDigits(0);
    assert Pow2(WIDTH) >= 1;
    hide Digits;
  }

  lemma {:induction false} InvRun(s: State, schedule: seq<Action>)
    requires Inv(s)
    ensures Inv(Run(s, schedule))
    decreases |schedule|
  {
    if schedule != [] {
      InvStep(s, schedule[0]);
      InvRun(Apply(s, schedule[0]), schedule[1..]);
    }
  }

  /** Whatever is interleaved, the completed operations stand in one order in which each returned
      exactly the digits that those before it had left, and the word holds what all of them left:
      no set or cleared digit is ever lost to a race. */
  lemma ExchangesAreAtomic(threads: nat, schedule: seq<Action>, k: nat)
    ensures var s := Run(Init(threads), schedule);
      && Digits(s.word) == After(s.log, |s.log|)
      && (k < |s.log| ==> Digits(s.log[k].1) == After(s.log, k))
  {
    InvInit(threads);
    InvRun(Init(threads), schedule);
    var s := Run(Init(threads), schedule);
    assert k < |s.log| ==> LogOk(s, k);
  }

  /** A compare-exchange that fails does so because another operation was completed since the word
      was seen: some thread always gets on. */
  lemma RetryMeansProgress(threads: nat, schedule: seq<Action>, t: nat)
    requires t < |Run(Init(threads), schedule).threads|
    ensures var s := Run(Init(threads), schedule);
      s.threads[t].Seen? && s.threads[t].seen != s.word ==> s.threads[t].at < |s.log|
  {
    InvInit(threads);
    InvRun(Init(threads), schedule);
    assert ThreadOk(Run(Init(threads), schedule), t);
  }

  /** A thread that is not in an operation may begin any; a thread comes back from its operation only
      by completing it, with the word it found; and nothing else completes anything. */
  lemma CallsAreCompleted(s: State, a: Action)
    requires Inv(s) && a.thread < |s.threads|
    ensures var s' := Apply(s, a);
      var (before, after) := (s.threads[a.thread], s'.threads[a.thread]);
      && |s'.threads| == |s.threads|
      && (forall u :: 0 <= u < |s.threads| && u != a.thread ==> s'.threads[u] == s.threads[u])
      && (a.Call? && before.Idle? && OpOk(a.op) ==> after == Called(a.op) && s'.log == s.log)
      && (!before.Idle? && after.Idle? ==> s'.log == s.log + [(before.op, s.word)])
      && (before.Idle? || !after.Idle? ==> s'.log == s.log && s'.word == s.word)
      && (!before.Idle? && !after.Idle? ==> after.op == before.op)
  {
  }

  /** Whatever happened before, a thread that is in an operation completes it within two steps of its
      own if no other thread steps in between. */
  lemma AloneCompletes(s: State, t: nat)
    requires Inv(s) && t < |s.threads| && !s.threads[t].Idle?
    ensures exists n :: 1 <= n <= 2 && CompletedIn(s, t, n)
  {
    var s1 := Apply(s, Step(t));
    Alone(s, t, 1);
    Alone(s, t, 2);
    assert s.threads[t := s1.threads[t]][t := Idle] == s.threads[t := Idle];
    if s1.threads[t].Idle? {
      assert CompletedIn(s, t, 1);
    } else {
      assert CompletedIn(s, t, 2);
    }
  }

  lemma Alone(s: State, t: nat, n: nat)
    requires 1 <= n <= 2
    ensures Run(s, seq(n, _ => Step(t))) == if n == 1 then Apply(s, Step(t)) else Apply(Apply(s, Step(t)), Step(t))
  {
    var a, s1 := Step(t), Apply(s, Step(t));
    var steps := seq(n, _ => Step(t));
    assert steps[1..] == if n == 1 then [] else [a];
    if n == 2 {
      assert [a][1..] == [];
      assert Run(s1, [a]) == Apply(s1, a);
    }
  }

  /** After n steps of its own the operation is done, on the word as it stands in s. */
  ghost predicate CompletedIn(s: State, t: nat, n: nat)
    requires t < |s.threads| && !s.threads[t].Idle?
  {
    var op := s.threads[t].op;
    Run(s, seq(n, _ => Step(t))) == State(Desired(op, s.word), s.threads[t := Idle], s.log + [(op, s.word)])
  }
}

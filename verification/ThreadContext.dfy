/** The signaler and the reading side of a thread context, updated in place. */
module ThreadContext {
  import opened Wrappers
  import Pipe
  import opened Dispatcher
  import opened DispatcherDelivery
  import opened Bits
  import opened SignalWord

  /** The signal word and the semaphore. */
  class DispatcherThreadSignaler {
    var word: nat
    var semaphore: nat

    constructor ()
      ensures word == 0 && semaphore == 0
    {
      word, semaphore := 0, 0;
    }

    method CompareExchange(expected: nat, desired: nat) returns (seen: nat)
      modifies this`word
      ensures seen == old(word) && word == if seen == expected then desired else old(word)
    {
      seen := word;
      if seen == expected {
        word := desired;
      }
    }

    /** Load, compute, exchange, and again until the exchange works.  Before attempt k other threads
        make the word others[k].  What is stored is computed from the word that was there at that
        moment, and it is returned. */
    method Update(op: Op, others: seq<nat>) returns (seen: nat)
      requires IsWord(word) && OpOk(op) && forall k :: 0 <= k < |others| ==> IsWord(others[k])
      modifies this`word
      ensures IsWord(seen) && (seen == old(word) || seen in others) && (others == [] ==> seen == old(word))
      ensures IsWord(word) && Digits(word) == Meaning(op, Digits(seen))
    {
      hide Digits, Desired, Meaning, IsWord;
      seen := word;
      var k := 0;
      var done := false;
      while !done
        invariant 0 <= k <= |others| && IsWord(seen) && (seen == old(word) || seen in others)
        invariant !done ==> IsWord(word) && (word == old(word) || word in others)
        invariant others == [] ==> seen == old(word) && (!done ==> word == seen)
        invariant done ==> word == Desired(op, seen)
        decreases !done, |others| - k, if seen == word then 0 else 1
      {
        if k < |others| {
          word := others[k];
          k := k + 1;
        }
        var got := CompareExchange(seen, Desired(op, seen));
        if got == seen {
          done := true;
        } else {
          seen := got;
        }
      }
      DesiredIsMeant(op, seen);
    }

    /** Turn the source's bit on and the wait bit off, and post if that was on. */
    method Signal(i: nat)
      requires IsWord(word) && i < WAIT
      modifies this
      ensures IsWord(word) && Digits(word) == Digits(old(word)) + {i} - {WAIT}
      ensures semaphore == old(semaphore) + if WAIT in Digits(old(word)) then 1 else 0
    {
      hide Digits;
      var seen := Update(SetAndClear(i, WAIT), []);
      TestIsDigit(seen, WAIT);
      if Test(seen, WAIT) {
        semaphore := semaphore + 1;
      }
    }

    /** Take all bits. */
    method Check() returns (signals: nat)
      requires IsWord(word)
      modifies this`word
      ensures signals == old(word) && word == 0 && Digits(word) == {}
    {
      NoDigits(0);
      signals := word;
      word := 0;
    }

    /** The first half of a poll: take all bits, or, if there are none, turn the wait bit on.  The
        second half is a wait and a `Check`. */
    method TakeOrWait() returns (signals: nat)
      requires IsWord(word)
      modifies this`word
      ensures signals == old(word) && IsWord(word)
      ensures Digits(word) == if Digits(signals) == {} then {WAIT} else {}
    {
      NoDigits(0);
      DigitsOfPow2(WAIT);
      hide Digits;
      signals := Update(IfZero(Pow2(WAIT), 0), []);
    }

    method BitOr(signals: nat)
      requires IsWord(word) && IsWord(signals)
      modifies this`word
      ensures IsWord(word) && Digits(word) == Digits(old(word)) + Digits(signals)
    {
      hide Digits;
      var seen := Update(Add(signals), []);
    }
  }

  /** The reading side, with the pipes of its column of the matrix.  `model` follows every access
      with a step of the protocol. */
  class DispatcherThreadContext<T> {
    const signaler: DispatcherThreadSignaler
    var pipes: seq<Pipe.Pipe<T>>
    ghost var model: State<T>

    ghost predicate Tied()
      reads this, signaler
    {
      && Inv(model) && pipes == model.pipes && IsWord(signaler.word)
      && Digits(signaler.word) == model.bitmap && signaler.semaphore == model.semaphore
    }

    /** No writer is in the middle of a write; the reader is outside, or asleep in a read. */
    ghost predicate Valid()
      reads this, signaler
    {
      Tied() && (model.reader.Outside? || model.reader.Waiting?) && AtRest(model)
    }

    constructor (sources: nat)
      requires sources <= WAIT
      ensures Valid() && model.reader.Outside? && |pipes| == sources && fresh(signaler)
    {
      signaler := new DispatcherThreadSignaler();
      pipes := seq(sources, i => Pipe.Empty());
      model := Init(sources);
      new;
      NoDigits(0);
      InvInit<T>(sources);
    }

    /** A write from source i: the message goes into the pipe; if that completes a batch everything
        complete is flushed, the source's bit is on, and a reader that is asleep has its post. */
    method Write(i: nat, message: T, incomplete: bool)
      requires Valid() && i < |pipes|
      modifies this, signaler
      ensures Valid() && model.reader == old(model).reader
      ensures model.delivered == old(model).delivered && |pipes| == |old(pipes)|
      ensures pipes[i].items == old(pipes)[i].items + [message]
      ensures forall j :: 0 <= j < |pipes| && j != i ==> pipes[j] == old(pipes)[j]
      ensures incomplete ==> signaler.word == old(signaler.word) && pipes[i].w == old(pipes)[i].w
      ensures !incomplete ==> i in Digits(signaler.word) && pipes[i].w == pipes[i].f == |pipes[i].items|
      ensures !incomplete && model.reader.Waiting? ==> signaler.semaphore == 1
    {
      hide Inv, Pipe.Inv, Digits;
      Resting(model, i);
      ghost var action := Dispatcher.Write(i, message, incomplete);
      InvStep(model, action);
      pipes := pipes[i := Pipe.Write(pipes[i], message, incomplete)];
      model := Apply(model, action);
      if !incomplete {
        Flush(i);
        Signal(i);
        if model.reader.Waiting? { OnePost(model, i); }
      }
    }

    /** Nothing but writer i is at work. */
    ghost predicate Alone(i: nat, pc: WriterPc)
      reads this, signaler
    {
      Tied() && i < |model.writers| && model.writers == Others(model.writers, i, pc)
    }

    /** Publish what is complete: the exchange and, if that found null, the store. */
    method Flush(i: nat)
      requires Alone(i, Exchanging) && i < |pipes|
      modifies this`pipes, this`model
      ensures Alone(i, Signalling) && model == old(model).(pipes := pipes, writers := model.writers)
      ensures |pipes| == |old(pipes)| && pipes[i].items == old(pipes)[i].items
      ensures pipes[i].w == pipes[i].f == old(pipes)[i].f
      ensures forall j :: 0 <= j < |pipes| && j != i ==> pipes[j] == old(pipes)[j]
    {
      hide Inv, Pipe.Inv, Digits, PipesOk;
      ShapeHolds(model);
      InvStep(model, Writer(i));
      ghost var model1 := Apply(model, Writer(i));
      var (p, done) := Pipe.FlushExchange(pipes[i]);
      pipes := pipes[i := p];
      model := model1;
      if done.None? {
        InvStep(model, Writer(i));
        ghost var model2 := Apply(model, Writer(i));
        pipes := pipes[i := Pipe.FlushStore(pipes[i])];
        model := model2;
      }
    }

    /** Signal the reader: both steps, the word and the post. */
    method Signal(i: nat)
      requires Alone(i, Signalling) && i < |pipes| && i < WAIT
      modifies this`model, signaler
      ensures Tied() && AtRest(model) && model.pipes == old(model).pipes && i in Digits(signaler.word)
      ensures model.reader == old(model).reader && model.delivered == old(model).delivered
    {
      hide Inv, Digits, PipesOk;
      ShapeHolds(model);
      InvStep(model, Writer(i));
      ghost var model1 := Apply(model, Writer(i));
      InvStep(model1, Writer(i));
      signaler.Signal(i);
      model := Apply(model1, Writer(i));
    }

    /** The loop stands at source i (unless it has its fill), as the protocol does. */
    ghost predicate Progress(before: State<T>, signals: nat, i: nat, messages: seq<(nat, T)>, count: nat)
      reads this, signaler
    {
      && Tied() && AtRest(model) && SameWritten(before, model)
      && i <= |pipes| && |messages| <= count && IsWord(signals)
      && model.reader.Draining? && model.reader.signals == Digits(signals)
      && model.reader.n == |messages| && model.reader.count == count
      && (|messages| < count ==> model.reader.i == i)
      && model.bitmap == {} && model.delivered == before.delivered + messages
    }

    /** The inner loop: read source i until it has nothing or the count is reached. */
    method Drain(ghost before: State<T>, i: nat, signals: nat, messages: seq<(nat, T)>, count: nat)
      returns (left: nat, all: seq<(nat, T)>)
      requires i < |pipes| < WIDTH && Progress(before, signals, i, messages, count) && |messages| < count
      requires InOrder(messages, i)
      modifies this`pipes, this`model
      ensures InOrder(all, i)
      ensures |pipes| == |old(pipes)| && Progress(before, left, i + 1, all, count)
      ensures Digits(left) == Digits(signals) || Digits(left) == Digits(signals) - {i}
      ensures |all| < count ==> i !in Digits(left)
    {
      hide Inv, DrainStep, Pipe.Read, SameWritten, Digits, Test, AndNot, InOrder;
      left, all := signals, messages;
      TestIsDigit(left, i);
      var more := Test(left, i);
      if !more {
        DrainSkip(model);
        SameWrittenTrans(before, model, DrainStep(model));
        model := DrainStep(model);
      }
      while more && |all| < count
        invariant |pipes| == |old(pipes)| && Progress(before, left, if more then i else i + 1, all, count)
        invariant more ==> i in Digits(left)
        invariant InOrder(all, i)
        invariant Digits(left) == if more || i !in Digits(signals) then Digits(signals) else Digits(signals) - {i}
        decreases count - |all|, more
      {
        DrainOne(model);
        SameWrittenTrans(before, model, DrainStep(model));
        model := DrainStep(model);
        var (p, v) := Pipe.Read(pipes[i]);
        pipes := pipes[i := p];
        match v
        case None =>
          left := Without(left, i);
          more := false;
        case Some(m) =>
          StaysInOrder(all, i, m);
          all := all + [(i, m)];
      }
    }

    /** The bits of sources that may have more go back into the word. */
    method GiveBack(ghost before: State<T>, left: nat)
      requires Tied() && AtRest(model) && SameWritten(before, model) && IsWord(left)
      requires model.reader.Draining? && model.reader.signals == Digits(left) && model.bitmap == {}
      requires model.reader.i >= |model.pipes| || model.reader.n >= model.reader.count
      modifies this`model, signaler
      ensures Valid() && model.reader.Outside? && model == old(model).(reader := Outside, bitmap := Digits(left))
      ensures SameWritten(before, model) && forall b :: b in Digits(left) ==> b < |model.pipes|
    {
      hide Inv, DrainStep, ReaderStep, Digits, SameWritten;
      Finish(model);
      SamePipes(before, model, model.(reader := Outside, bitmap := model.reader.signals));
      model := model.(reader := Outside, bitmap := model.reader.signals);
      signaler.BitOr(left);
    }

    /** Read the sources whose bits were taken, and give back the bits of those that may have more. */
    method DrainAll(ghost before: State<T>, signals: nat, count: nat) returns (messages: seq<(nat, T)>)
      requires Tied() && AtRest(model) && SameWritten(before, model) && IsWord(signals)
      requires model.bitmap == {} && model.reader == StartDrain(Digits(signals), count)
      requires model.delivered == before.delivered && signaler.word == 0
      modifies this, signaler
      ensures Valid() && model.reader.Outside? && |messages| <= count
      ensures model.delivered == before.delivered + messages && SameWritten(before, model)
      ensures |messages| < count ==> AllRead(model)
      ensures InOrder(messages, |pipes|)
    {
      hide Inv, DrainStep, AllRead, ReaderStep, Digits, SameWritten;
      messages := [];
      NoDigits(signals);
      if signals != 0 {
        ShapeHolds(model);
        var i, left := 0, signals;
        while i < |pipes| && |messages| < count
          invariant |pipes| < WIDTH && Progress(before, left, i, messages, count)
          invariant signaler.word == 0 && InOrder(messages, i) && i <= |pipes|
          invariant |messages| < count ==> forall j :: 0 <= j < i ==> j !in Digits(left)
        {
          left, messages := Drain(before, i, left, messages, count);
          InOrderOn(messages, i, i + 1);
          i := i + 1;
        }
        InOrderOn(messages, i, |pipes|);
        GiveBack(before, left);
      }
      if |messages| < count {
        NothingPending(model);
      }
    }

    /** A read: at most `count` messages, each the next one of its source; if there are fewer then
        nothing that was flushed is left unread.  A blocking read that finds no bit on goes to
        sleep; `Resume` is the rest of it.  `some` is the answer; `n` is what the caller's count
        becomes: the number of messages, except that without a bit on it stays what it was. */
    method Read(count: nat, blocking: bool) returns (messages: seq<(nat, T)>, asleep: bool, some: bool, n: nat)
      requires Valid() && model.reader.Outside?
      modifies this, signaler
      ensures Valid() && |messages| <= count && model.delivered == old(model).delivered + messages
      ensures SameWritten(old(model), model)
      ensures asleep <==> blocking && Digits(old(signaler.word)) == {}
      ensures asleep ==> messages == [] && model.reader == Waiting(count) && signaler.semaphore == 0
      ensures !asleep ==> model.reader.Outside?
      ensures some <==> messages != []
      ensures n == if Digits(old(signaler.word)) == {} then count else |messages|
      ensures |messages| < count ==> AllRead(model)
      ensures InOrder(messages, |pipes|)
    {
      hide Inv, DrainStep, AllRead, ReaderStep, Digits;
      InvStep(model, BeginRead(count, blocking));
      model := Apply(model, BeginRead(count, blocking));
      var signals;
      if blocking {
        signals := signaler.TakeOrWait();
      } else {
        signals := signaler.Check();
      }
      NoDigits(signals);
      asleep := blocking && signals == 0;
      if asleep {
        messages := [];
        AsleepFacts(model);
      } else {
        NoDigits(signaler.word);
        messages := DrainAll(old(model), signals, count);
      }
      some, n := messages != [], count;
      if signals != 0 {
        n := |messages|;
      }
    }

    /** What a blocking read does once the semaphore lets it through. */
    method Resume(count: nat) returns (messages: seq<(nat, T)>, some: bool, n: nat)
      requires Valid() && model.reader == Waiting(count) && signaler.semaphore > 0
      modifies this, signaler
      ensures Valid() && model.reader.Outside? && |messages| <= count
      ensures model.delivered == old(model).delivered + messages && SameWritten(old(model), model)
      ensures |messages| < count ==> AllRead(model)
      ensures InOrder(messages, |pipes|)
      ensures (some <==> messages != []) && n == |messages|
    {
      hide Inv, DrainStep, ReaderStep, AllRead, Digits, PipesOk, SameWritten;
      WakeUp(model);
      model := model.(bitmap := {}, semaphore := model.semaphore - 1, reader := StartDrain(model.bitmap, count));
      signaler.semaphore := signaler.semaphore - 1;
      var signals := signaler.Check();
      messages := DrainAll(old(model), signals, count);
      NoDigits(signals);
      some, n := messages != [], count;
      if signals != 0 {
        n := |messages|;
      }
    }
  }

  /** The messages come source by source, in ascending order, none from a source after i. */
  ghost predicate InOrder<T>(messages: seq<(nat, T)>, i: nat) {
    && (forall a, b :: 0 <= a < b < |messages| ==> messages[a].0 <= messages[b].0)
    && (forall a :: 0 <= a < |messages| ==> messages[a].0 <= i)
  }

  lemma StaysInOrder<T>(messages: seq<(nat, T)>, i: nat, m: T)
    requires InOrder(messages, i)
    ensures InOrder(messages + [(i, m)], i)
  {
  }

  lemma InOrderOn<T>(messages: seq<(nat, T)>, i: nat, j: nat)
    requires InOrder(messages, i) && i <= j
    ensures InOrder(messages, j)
  {
  }

  method Without(signals: nat, i: nat) returns (left: nat)
    requires IsWord(signals) && i < WIDTH
    ensures IsWord(left) && Digits(left) == Digits(signals) - {i}
  {
    hide Digits;
    DigitsOfPow2(i);
    DigitsOfAndNot(signals, Pow2(i));
    AndNotFits(signals, Pow2(i));
    left := AndNot(signals, Pow2(i));
  }

  /** All at rest but one. */
  ghost function Others(writers: seq<WriterPc>, i: nat, pc: WriterPc): seq<WriterPc>
    requires i < |writers|
  {
    seq(|writers|, j => if j == i then pc else Ready)
  }

  lemma ShapeHolds<T>(s: State<T>)
    requires Inv(s)
    ensures Shape(s) && PipesOk(s) && |s.pipes| < WIDTH
  {
  }
}

/** What becomes of a call of the bounded queue while any other calls stand anywhere. */
module BoundedQueueCalls {
  import opened Modular
  import opened BoundedQueue

  // ---------------------------------------------------------------- giving up

  predicate BeforeClaim<T>(pc: Pc<T>) { pc.PushLoadPos? || pc.PushLoadSeq? || pc.PushCas? }

  ghost predicate InPush<T>(pc: Pc<T>) { BeforeClaim(pc) || Filling(pc) }

  predicate BeforeTake<T>(pc: Pc<T>) { pc.PopLoadPos? || pc.PopLoadSeq? || pc.PopCas? }

  ghost predicate InPop<T>(pc: Pc<T>) { BeforeTake(pc) || Emptying(pc) }

  /** The cell of this position still serves the one a lap earlier. */
  predicate LapBehind<T>(s: State<T>, pos: nat)
    requires s.cap > 0 && |s.turn| == s.cap
  {
    pos >= s.cap && s.turn[Cell(s.cap, pos)] == pos - s.cap
  }

  /** Nothing to take at this position: no push has claimed it, or one has and is not through. */
  ghost predicate NotThere<T>(s: State<T>, pos: nat)
    requires pos <= s.enqueue == |s.pushes|
  {
    pos == s.enqueue || BeingFilled(s, pos)
  }

  /** A call begins exactly as asked for, and disturbs nothing. */
  lemma CallBegins<T>(s: State<T>, t: ThreadId, v: T)
    requires Inv(s) && PcOf(s, t).Idle?
    ensures var s' := Apply(s, BeginPush(t, v));
      && BeforeClaim(PcOf(s', t)) && PcOf(s', t).value == v && SameMemory(s, s', t) && Inv(s')
    ensures var s' := Apply(s, BeginPop(t));
      BeforeTake(PcOf(s', t)) && SameMemory(s, s', t) && Inv(s')
  {
    InvStep(s, BeginPush(t, v));
    InvStep(s, BeginPop(t));
  }

  /** Whatever the others do, a push that has claimed nothing comes to its end only at its sequence
      load, and does so exactly if the counter still stands at its position and the cell is a lap
      behind.  A lost exchange is never the end. */
  lemma PushGivesUpIff<T>(s: State<T>, a: Action<T>, t: ThreadId)
    requires Inv(s) && InPush(PcOf(s, t)) && !PcOf(s, t).PushStoreSeq?
    ensures var pc := PcOf(s, t);
      PcOf(Apply(s, a), t).Idle? <==>
        a.Advance? && a.thread == t && pc.PushLoadSeq? && s.enqueue == pc.pos && LapBehind(s, pc.pos)
  {
    if a.thread != t {
      OthersStay(s, a, t);
    } else if PcOf(s, t).PushLoadSeq? {
      PushFailsIffLapBehind(s, t);
    }
  }

  lemma PopGivesUpIff<T>(s: State<T>, a: Action<T>, t: ThreadId)
    requires Inv(s) && InPop(PcOf(s, t)) && !PcOf(s, t).PopStoreSeq?
    ensures var pc := PcOf(s, t);
      && (pc.PopLoadSeq? ==> pc.pos <= s.enqueue == |s.pushes|)
      && (PcOf(Apply(s, a), t).Idle? <==>
            a.Advance? && a.thread == t && pc.PopLoadSeq? && s.dequeue == pc.pos && NotThere(s, pc.pos))
  {
    assert PcOk(s, t, PcOf(s, t));
    if a.thread != t {
      OthersStay(s, a, t);
    } else if PcOf(s, t).PopLoadSeq? {
      PopFailsIffUnpublished(s, t);
    }
  }

  /** A push claims a position only as its own exchange, for its own value; and an exchange that is
      lost, other than without cause, was lost to another claim of that position. */
  lemma ExchangeClaimsOrLost<T>(s: State<T>, t: ThreadId)
    requires Inv(s)
    ensures var s', pc := Apply(s, Advance(t, false)), PcOf(s, t);
      && (pc.PushCas? ==>
            if pc.pos == s.enqueue then s'.pushes == s.pushes + [PushClaim(t, pc.pos, pc.value)]
            else s'.pushes == s.pushes && pc.pos < |s.pushes| && BeforeClaim(PcOf(s', t))
                 && PcOf(s', t).value == pc.value)
      && (pc.PopCas? ==>
            if pc.pos == s.dequeue then s'.pops == s.pops + [PopClaim(t, pc.pos)]
            else s'.pops == s.pops && pc.pos < |s.pops| && BeforeTake(PcOf(s', t)))
  {
    assert PcOk(s, t, PcOf(s, t)) && LogsOk(s);
    hide Inv;
  }

  // ---------------------------------------------------------------- one thread goes on

  /** The other threads stand still. */
  ghost function Solo<T>(s: State<T>, t: ThreadId, n: nat): (r: State<T>)
    requires Inv(s)
    ensures Inv(r) && r.cap == s.cap
    decreases n
  {
    if n == 0 then s
    else
      InvStep(s, Advance(t, false));
      Solo(Apply(s, Advance(t, false)), t, n - 1)
  }

  /** Only thread t has moved. */
  ghost predicate SameMemory<T>(s: State<T>, s': State<T>, t: ThreadId) {
    s' == s.(threads := s'.threads) && OthersStand(s, s', t)
  }

  ghost predicate OthersStand<T>(s: State<T>, s': State<T>, t: ThreadId) {
    forall u: ThreadId :: u != t ==> PcOf(s', u) == PcOf(s, u)
  }

  ghost predicate Published<T>(s: State<T>, pos: nat, v: T)
    requires Shape(s)
  {
    s.sequence[Cell(s.cap, pos)] == pos + 1 && s.data[Cell(s.cap, pos)] == v
  }

  /** A push of v is over: it has given up at a full queue, or has put its value at the next
      position. */
  ghost predicate Pushed<T>(s: State<T>, s': State<T>, t: ThreadId, v: T)
    requires Shape(s) && Shape(s')
  {
    && PcOf(s', t).Idle? && OthersStand(s, s', t) && s'.pops == s.pops && s'.deliveries == s.deliveries
    && if LapBehind(s, s.enqueue) then SameMemory(s, s', t)
       else s'.pushes == s.pushes + [PushClaim(t, s.enqueue, v)] && Published(s', s.enqueue, v)
  }

  ghost predicate Popped<T>(s: State<T>, s': State<T>, t: ThreadId)
    requires Shape(s) && Shape(s') && s.dequeue <= s.enqueue == |s.pushes|
  {
    && PcOf(s', t).Idle? && OthersStand(s, s', t) && s'.pushes == s.pushes
    && if NotThere(s, s.dequeue) then SameMemory(s, s', t)
       else
         && s'.pops == s.pops + [PopClaim(t, s.dequeue)]
         && s'.deliveries == s.deliveries + [Delivery(t, s.dequeue, s.pushes[s.dequeue].value)]
  }

  lemma {:induction false} IdleStays<T>(s: State<T>, t: ThreadId, n: nat)
    requires Inv(s) && PcOf(s, t).Idle?
    ensures Solo(s, t, n) == s
    decreases n
  {
    if n > 0 { IdleStays(s, t, n - 1); }
  }

  lemma OneStep<T>(s: State<T>, t: ThreadId, n: nat)
    requires Inv(s) && n > 0
    ensures var s' := StepThread(s, t, false);
      Inv(s') && s'.cap == s.cap && Solo(s, t, n) == Solo(s', t, n - 1) && OthersStand(s, s', t)
  {
    InvStep(s, Advance(t, false));
    forall u: ThreadId | u != t ensures PcOf(StepThread(s, t, false), u) == PcOf(s, u) {
      OthersStay(s, Advance(t, false), u);
    }
    hide Inv, StepThread;
  }

  lemma Standing<T>(s: State<T>, t: ThreadId)
    requires Inv(s)
    ensures Shape(s) && LogsOk(s) && PcOk(s, t, PcOf(s, t)) && s.dequeue <= s.enqueue == |s.pushes|
  {
  }

  /** After its claim a push stores its value and publishes it. */
  lemma FillingEnds<T>(s: State<T>, t: ThreadId, n: nat)
    requires Inv(s) && Filling(PcOf(s, t)) && n >= 2
    ensures var s' := Solo(s, t, n);
      && Shape(s') && PcOf(s', t).Idle? && OthersStand(s, s', t) && Published(s', PcOf(s, t).pos, PcOf(s, t).value)
      && s'.pushes == s.pushes && s'.pops == s.pops && s'.deliveries == s.deliveries
  {
    hide Inv, OthersStand;
    Standing(s, t);
    OneStep(s, t, n);
    var s1 := StepThread(s, t, false);
    if PcOf(s, t).PushStoreSeq? {
      IdleStays(s1, t, n - 1);
    } else {
      OneStep(s1, t, n - 1);
      var s2 := StepThread(s1, t, false);
      StandBoth(s, s1, s2, t);
      IdleStays(s2, t, n - 2);
    }
  }

  lemma StandBoth<T>(s: State<T>, s1: State<T>, s2: State<T>, t: ThreadId)
    requires OthersStand(s, s1, t) && OthersStand(s1, s2, t)
    ensures OthersStand(s, s2, t)
  {
  }

  /** The sequence number of the next cell is never ahead of the counter. */
  lemma NotAhead<T>(s: State<T>)
    requires Inv(s)
    ensures s.sequence[Cell(s.cap, s.enqueue)] <= s.enqueue
    ensures s.dequeue < s.enqueue ==> s.sequence[Cell(s.cap, s.dequeue)] <= s.dequeue + 1
  {
    var c, d := Cell(s.cap, s.enqueue), Cell(s.cap, s.dequeue);
    assert CellOk(s, c) && CellOk(s, d);
    LapsApart(s.cap, s.turn[c], s.enqueue);
    LapsApart(s.cap, s.turn[d], s.dequeue);
  }

  /** From a position just read the sequence load gives up or goes on to the exchange. */
  lemma FreshLoad<T>(s: State<T>, t: ThreadId)
    requires Inv(s) && PcOf(s, t).PushLoadSeq? && PcOf(s, t).pos == s.enqueue
    ensures var pc := PcOf(s, t);
      StepThread(s, t, false) ==
        Goto(s, t, if LapBehind(s, s.enqueue) then Idle else PushCas(pc.value, pc.floor, pc.pos))
  {
    PushFailsIffLapBehind(s, t);
    NotAhead(s);
    hide Inv;
  }

  lemma FreshPush<T>(s: State<T>, t: ThreadId, n: nat)
    requires Inv(s) && PcOf(s, t).PushLoadSeq? && PcOf(s, t).pos == s.enqueue && n >= 4
    ensures Shape(Solo(s, t, n)) && Pushed(s, Solo(s, t, n), t, PcOf(s, t).value)
  {
    var v := PcOf(s, t).value;
    FreshLoad(s, t);
    Standing(s, t);
    OneStep(s, t, n);
    hide Inv, Solo, StepThread, OthersStand, LogsOk, PcOk, Cell;
    var s1 := StepThread(s, t, false);
    if LapBehind(s, s.enqueue) {
      IdleStays(s1, t, n - 1);
    } else {
      CasPush(s1, t, n - 1);
      SameOutcome(s, s1, Solo(s1, t, n - 1), t, v);
    }
  }

  lemma SameOutcome<T>(s0: State<T>, s: State<T>, s': State<T>, t: ThreadId, v: T)
    requires Shape(s0) && Shape(s) && Shape(s') && SameMemory(s0, s, t)
    ensures Pushed(s, s', t, v) ==> Pushed(s0, s', t, v)
  {
  }

  /** Wherever the others stand, and whatever they have claimed meanwhile, a push left to itself is
      over after at most six steps: it has published its value, at the position it had claimed or
      else at the next one, unless at that moment the cell of the next position is a lap behind. */
  lemma SoloPush<T>(s: State<T>, t: ThreadId)
    requires Inv(s) && InPush(PcOf(s, t))
    ensures var s', pc := Solo(s, t, 6), PcOf(s, t);
      && Shape(s') && PcOf(s', t).Idle? && OthersStand(s, s', t)
      && (if Filling(pc) then s'.pushes == s.pushes && Published(s', pc.pos, pc.value)
          else Pushed(s, s', t, pc.value))
  {
    var pc := PcOf(s, t);
    if Filling(pc) {
      FillingEnds(s, t, 6);
    } else if pc.PushLoadSeq? && pc.pos == s.enqueue {
      FreshPush(s, t, 6);
    } else {
      SoloRetry(s, t, 6);
    }
  }

  /** From a position that is out of date, or none: at most two steps to a fresh one. */
  lemma SoloRetry<T>(s: State<T>, t: ThreadId, n: nat)
    requires Inv(s) && BeforeClaim(PcOf(s, t)) && n >= 6 && !(PcOf(s, t).PushLoadSeq? && PcOf(s, t).pos == s.enqueue)
    ensures Shape(Solo(s, t, n)) && Pushed(s, Solo(s, t, n), t, PcOf(s, t).value)
  {
    hide Inv, Cell;
    var pc := PcOf(s, t);
    Standing(s, t);
    if pc.PushCas? && pc.pos == s.enqueue {
      CasPush(s, t, n);
    } else {
      OneStep(s, t, n);
      var s1 := StepThread(s, t, false);
      assert SameMemory(s, s1, t);
      if pc.PushLoadSeq? {
        StaleLoad(s, t);
        OneStep(s1, t, n - 1);
        var s2 := StepThread(s1, t, false);
        assert SameMemory(s, s2, t);
        FreshPush(s2, t, n - 2);
        SameOutcome(s, s2, Solo(s2, t, n - 2), t, pc.value);
      } else {
        FreshPush(s1, t, n - 1);
        SameOutcome(s, s1, Solo(s1, t, n - 1), t, pc.value);
      }
    }
  }

  /** An old position: its cell is not behind. */
  lemma StaleLoad<T>(s: State<T>, t: ThreadId)
    requires Inv(s) && PcOf(s, t).PushLoadSeq? && PcOf(s, t).pos < s.enqueue
    ensures var pc := AfterPushSeq(s, PcOf(s, t)); BeforeClaim(pc) && !pc.PushLoadSeq? && pc.value == PcOf(s, t).value
    ensures var pc := AfterPushSeq(s, PcOf(s, t)); pc.PushCas? ==> pc.pos < s.enqueue
  {
    var pos := PcOf(s, t).pos;
    assert TurnOk(s, pos) && CellOk(s, Cell(s.cap, pos));
  }

  /** The exchange wins. */
  lemma CasPush<T>(s: State<T>, t: ThreadId, n: nat)
    requires Inv(s) && PcOf(s, t).PushCas? && PcOf(s, t).pos == s.enqueue && n >= 3
    ensures Shape(Solo(s, t, n)) && Pushed(s, Solo(s, t, n), t, PcOf(s, t).value)
  {
    var v := PcOf(s, t).value;
    assert PcOk(s, t, PcOf(s, t)) && CellOk(s, Cell(s.cap, s.enqueue));
    OneStep(s, t, n);
    var s1 := StepThread(s, t, false);
    assert PcOf(s1, t) == PushStoreData(v, PcOf(s, t).floor, s.enqueue);
    FillingEnds(s1, t, n - 1);
  }

  // ---------------------------------------------------------------- the same for pop

  lemma EmptyingEnds<T>(s: State<T>, t: ThreadId, n: nat)
    requires Inv(s) && Emptying(PcOf(s, t)) && n >= 2
    ensures var s', pos := Solo(s, t, n), PcOf(s, t).pos;
      && Shape(s') && PcOf(s', t).Idle? && OthersStand(s, s', t) && s'.pushes == s.pushes && s'.pops == s.pops
      && pos < |s.pushes| && s'.deliveries == s.deliveries + [Delivery(t, pos, s.pushes[pos].value)]
  {
    hide Inv, OthersStand;
    Standing(s, t);
    OneStep(s, t, n);
    var s1 := StepThread(s, t, false);
    if PcOf(s, t).PopStoreSeq? {
      IdleStays(s1, t, n - 1);
    } else {
      Standing(s1, t);
      OneStep(s1, t, n - 1);
      var s2 := StepThread(s1, t, false);
      StandBoth(s, s1, s2, t);
      IdleStays(s2, t, n - 2);
    }
  }

  lemma FreshPopLoad<T>(s: State<T>, t: ThreadId)
    requires Inv(s) && PcOf(s, t).PopLoadSeq? && PcOf(s, t).pos == s.dequeue
    ensures s.dequeue <= s.enqueue == |s.pushes|
    ensures var pc := PcOf(s, t);
      StepThread(s, t, false) == Goto(s, t, if NotThere(s, s.dequeue) then Idle else PopCas(pc.floor, pc.pos))
  {
    Standing(s, t);
    PopFailsIffUnpublished(s, t);
    NotAhead(s);
    hide Inv;
  }

  lemma FreshPop<T>(s: State<T>, t: ThreadId, n: nat)
    requires Inv(s) && PcOf(s, t).PopLoadSeq? && PcOf(s, t).pos == s.dequeue && n >= 4
    ensures s.dequeue <= s.enqueue == |s.pushes| && Shape(Solo(s, t, n)) && Popped(s, Solo(s, t, n), t)
  {
    FreshPopLoad(s, t);
    Standing(s, t);
    OneStep(s, t, n);
    hide Inv, Solo, StepThread, OthersStand, LogsOk, PcOk, Cell;
    var s1 := StepThread(s, t, false);
    if NotThere(s, s.dequeue) {
      IdleStays(s1, t, n - 1);
    } else {
      CasPop(s1, t, n - 1);
      SamePopOutcome(s, s1, Solo(s1, t, n - 1), t);
    }
  }

  /** Wherever the others stand a pop left to itself is over after at most six steps: it has handed
      out the value of the position it had claimed, or else of the next one, unless at that moment
      nothing is there. */
  lemma SoloPop<T>(s: State<T>, t: ThreadId)
    requires Inv(s) && InPop(PcOf(s, t))
    ensures s.dequeue <= s.enqueue == |s.pushes|
    ensures var s', pc := Solo(s, t, 6), PcOf(s, t);
      && Shape(s') && PcOf(s', t).Idle? && OthersStand(s, s', t)
      && (if Emptying(pc) then
            && pc.pos < |s.pushes| && s'.pops == s.pops
            && s'.deliveries == s.deliveries + [Delivery(t, pc.pos, s.pushes[pc.pos].value)]
          else Popped(s, s', t))
  {
    var pc := PcOf(s, t);
    assert LogsOk(s);
    if Emptying(pc) {
      EmptyingEnds(s, t, 6);
    } else if pc.PopLoadSeq? && pc.pos == s.dequeue {
      FreshPop(s, t, 6);
    } else {
      SoloPopRetry(s, t, 6);
    }
  }

  lemma SamePopOutcome<T>(s0: State<T>, s: State<T>, s': State<T>, t: ThreadId)
    requires Shape(s0) && Shape(s) && Shape(s') && SameMemory(s0, s, t) && s.dequeue <= s.enqueue == |s.pushes|
    requires BeforeTake(PcOf(s0, t)) && BeforeTake(PcOf(s, t))
    ensures Popped(s, s', t) ==> Popped(s0, s', t)
  {
    if s.dequeue < s.enqueue {
      var u := s.pushes[s.dequeue].thread;
      assert u != t ==> PcOf(s, u) == PcOf(s0, u);
    }
  }

  lemma SoloPopRetry<T>(s: State<T>, t: ThreadId, n: nat)
    requires Inv(s) && BeforeTake(PcOf(s, t)) && n >= 6 && !(PcOf(s, t).PopLoadSeq? && PcOf(s, t).pos == s.dequeue)
    ensures s.dequeue <= s.enqueue == |s.pushes| && Shape(Solo(s, t, n)) && Popped(s, Solo(s, t, n), t)
  {
    hide Inv, Cell;
    var pc := PcOf(s, t);
    Standing(s, t);
    if pc.PopCas? && pc.pos == s.dequeue {
      CasPop(s, t, n);
    } else {
      OneStep(s, t, n);
      var s1 := StepThread(s, t, false);
      assert SameMemory(s, s1, t);
      if pc.PopLoadSeq? {
        StalePopLoad(s, t);
        OneStep(s1, t, n - 1);
        var s2 := StepThread(s1, t, false);
        assert SameMemory(s, s2, t);
        FreshPop(s2, t, n - 2);
        SamePopOutcome(s, s2, Solo(s2, t, n - 2), t);
      } else {
        FreshPop(s1, t, n - 1);
        SamePopOutcome(s, s1, Solo(s1, t, n - 1), t);
      }
    }
  }

  lemma StalePopLoad<T>(s: State<T>, t: ThreadId)
    requires Inv(s) && PcOf(s, t).PopLoadSeq? && PcOf(s, t).pos < s.dequeue
    ensures var pc := AfterPopSeq(s, PcOf(s, t)); BeforeTake(pc) && !pc.PopLoadSeq?
    ensures var pc := AfterPopSeq(s, PcOf(s, t)); pc.PopCas? ==> pc.pos < s.dequeue
  {
    PopFailsIffUnpublished(s, t);
  }

  lemma CasPop<T>(s: State<T>, t: ThreadId, n: nat)
    requires Inv(s) && PcOf(s, t).PopCas? && PcOf(s, t).pos == s.dequeue && n >= 3
    ensures s.dequeue <= s.enqueue == |s.pushes| && Shape(Solo(s, t, n)) && Popped(s, Solo(s, t, n), t)
  {
    assert LogsOk(s) && PcOk(s, t, PcOf(s, t));
    CasIsThere(s, t);
    OneStep(s, t, n);
    var s1 := StepThread(s, t, false);
    assert PcOf(s1, t) == PopLoadData(PcOf(s, t).floor, s.dequeue);
    EmptyingEnds(s1, t, n - 1);
  }

  /** Whose sequence load went well finds its position there as long as the counter stands. */
  lemma CasIsThere<T>(s: State<T>, t: ThreadId)
    requires Inv(s) && PcOf(s, t).PopCas? && PcOf(s, t).pos == s.dequeue
    ensures s.dequeue < s.enqueue == |s.pushes| && !BeingFilled(s, s.dequeue)
  {
    var c := Cell(s.cap, s.dequeue);
    assert PcOk(s, t, PcOf(s, t)) && CellOk(s, c) && TurnOk(s, s.dequeue) && LogsOk(s);
    LapsApart(s.cap, s.turn[c], s.dequeue);
    if s.dequeue < s.enqueue {
      var u := s.pushes[s.dequeue].thread;
      assert PcOk(s, u, PcOf(s, u));
    }
  }
}

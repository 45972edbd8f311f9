/** The chunk queue and the pipe as objects whose methods update them in place. */
module AtomicPipe {
  import opened Wrappers
  import opened ChunkQueue
  import Pipe
  import Memory = PipeMemory

  /** The chunk queue, updated in place statement by statement.  Nothing else goes on meanwhile: no
      chunk is in anyone's hands before or after. */
  class AtomicQueue<T> {
    const size: nat
    var heap: map<Ptr, Chunk<T>>
    var beginChunk: Ptr
    var beginPos: nat
    var backChunk: Ptr
    var backPos: nat
    var endChunk: Ptr
    var endPos: nat
    var spareChunk: Ptr
    ghost var first: map<Ptr, nat>

    ghost function View(): Queue<T>
      reads this
    {
      Queue(size, heap, beginChunk, beginPos, backChunk, backPos, endChunk, endPos, spareChunk, 0, 0, first)
    }

    constructor (size: nat, m: Malloc<T>)
      ensures this.size == size
      ensures View() == Queue(size, map[m.address := m.contents], m.address, 0, 0, 0, m.address, 0, 0,
                              0, 0, map[m.address := 0])
    {
      this.size := size;
      heap := map[m.address := m.contents];
      beginChunk, beginPos, backChunk, backPos := m.address, 0, 0, 0;
      endChunk, endPos, spareChunk := m.address, 0, 0;
      first := map[m.address := 0];
    }

    method Push(m: Malloc<T>)
      requires endChunk in heap && endChunk in first && (spareChunk != 0 ==> spareChunk in heap)
      modifies this
      ensures View() == ChunkQueue.Push(old(View()), m)
    {
      backChunk := endChunk;
      backPos := endPos;
      endPos := endPos + 1;
      if endPos == size {
        Extend(m);
      }
    }

    method Extend(m: Malloc<T>)
      requires endChunk in heap && endChunk in first && (spareChunk != 0 ==> spareChunk in heap)
      modifies this
      ensures View() == ChunkQueue.Extend(old(View()), m)
    {
      var sc := spareChunk;
      spareChunk := 0;
      first := first[if sc != 0 then sc else m.address := first[endChunk] + size];
      if sc != 0 {
        heap := heap[endChunk := heap[endChunk].(next := sc)];
        heap := heap[sc := heap[sc].(prev := endChunk)];
      } else {
        heap := heap[m.address := m.contents];
        heap := heap[endChunk := heap[endChunk].(next := m.address)];
        heap := heap[m.address := heap[m.address].(prev := endChunk)];
      }
      endChunk := if sc != 0 then sc else m.address;
      endPos := 0;
    }

    method Unpush()
      requires Inv(View()) && Settled(View()) && Index(View(), FrontSlot(View())) < Index(View(), BackSlot(View()))
      modifies this
      ensures View() == ChunkQueue.Unpush(old(View()))
    {
      UnpushIsDefined(View());
      InvStepBack(View());
      hide Inv, Index, Sound, ChunkQueue.Retract, Retractable;
      if backPos > 0 {
        backPos := backPos - 1;
      } else {
        backPos := size - 1;
        backChunk := heap[backChunk].prev;
      }
      if endPos > 0 {
        endPos := endPos - 1;
      } else {
        RetractableFrame(old(View()), View());
        Retract();
      }
    }

    /** The end leaves its chunk, which is freed. */
    method Retract()
      requires Retractable(View())
      modifies this
      ensures View() == ChunkQueue.Retract(old(View()))
    {
      first := first - {endChunk};
      endPos := size - 1;
      endChunk := heap[endChunk].prev;
      heap := heap - {heap[endChunk].next};
      heap := heap[endChunk := heap[endChunk].(next := 0)];
    }

    method Pop()
      requires Inv(View()) && Index(View(), FrontSlot(View())) < Index(View(), BackSlot(View()))
      modifies this
      ensures View() == ChunkQueue.Pop(old(View()))
    {
      beginPos := beginPos + 1;
      if beginPos == size {
        PopIsDefined(old(View()));
        hide Inv, Index;
        Recycle();
      }
    }

    /** The front leaves its chunk, which is exchanged for the spare one; that is freed. */
    method Recycle()
      requires Leavable(View())
      modifies this
      ensures View() == Drop(Swap(Leave(old(View()))))
    {
      var o := beginChunk;
      beginChunk := heap[beginChunk].next;
      heap := heap[beginChunk := heap[beginChunk].(prev := 0)];
      beginPos := 0;
      first := first - {o};
      var cs := spareChunk;
      spareChunk := o;
      if cs != 0 {
        heap := heap - {cs};
      } else {
        assert heap - {} == heap;
      }
    }
  }

  /** A read by positions: the oldest flushed unread item, if there is one; the writer's side is
      untouched. */
  lemma ReadMeans<T>(p: Pipe.Pipe<T>)
    requires Pipe.Inv(p)
    ensures var (q, v) := Pipe.Read(p);
      && (v.Some? <==> p.front < p.w) && (v.Some? ==> v.value == p.items[p.front])
      && q.read == p.read + (if v.Some? then [v.value] else [])
      && q.front == p.front + (if v.Some? then 1 else 0)
      && q.items == p.items && q.w == p.w && q.f == p.f
      && (v.None? ==> q == Pipe.CheckRead(p).0)
  {
    Pipe.ReadStep(p);
  }

  lemma RetractableFrame<T>(q: Queue<T>, q': Queue<T>)
    requires Retractable(q) && q' == q.(backPos := q'.backPos, backChunk := q'.backChunk)
    ensures Retractable(q')
  {
  }

  /** The pipe of one writer and one reader.  `model` is the abstract pipe it stands for; each
      method is one atomic step, `Flush` two: an exchange and, if that found null, a store. */
  class AtomicPipe<T> {
    const queue: AtomicQueue<T>
    var w: Slot
    var r: Option<Slot>
    var f: Slot
    var c: Option<Slot>
    ghost var storing: bool
    ghost var handed: seq<T>
    ghost var model: Pipe.Pipe<T>

    ghost function View(): Memory.State<T>
      reads this, queue
    {
      Memory.State(queue.View(), w, r, f, c, storing, None, Memory.Still, handed)
    }

    ghost predicate Valid()
      reads this, queue
    {
      Memory.Stands(View(), model)
    }

    constructor (size: nat, m: Malloc<T>, m1: Malloc<T>)
      requires size > 0 && m.address != 0 && |m.contents.values| == size
      requires m1.address != 0 && m1.address != m.address && |m1.contents.values| == size
      ensures Valid() && model == Pipe.Empty() && !storing && fresh(queue)
    {
      var q := new AtomicQueue<T>(size, m);
      q.Push(m1);
      queue := q;
      w := Slot(q.backChunk, q.backPos);
      f := Slot(q.backChunk, q.backPos);
      r := Some(Slot(q.backChunk, q.backPos));
      c := Some(Slot(q.backChunk, q.backPos));
      storing, handed, model := false, [], Pipe.Empty();
      new;
      Memory.CreateStands(size, m, m1);
    }

    lemma ModelFacts()
      requires Valid()
      ensures storing == model.storing && model.f <= |model.items|
    {
    }

    method StoreThroughBack(v: T)
      requires Valid()
      modifies queue
      ensures View() == old(View()).(queue := StoreBack(old(queue.View()), v))
    {
      var b := queue.heap[queue.backChunk];
      queue.heap := queue.heap[queue.backChunk := b.(values := b.values[queue.backPos := v])];
    }

    method Write(v: T, incomplete: bool, m: Malloc<T>)
      requires Valid() && !storing && Obtainable(queue.View(), m)
      modifies this, queue
      ensures Valid() && model == Pipe.Write(old(model), v, incomplete)
    {
      hide Memory.Stands, Inv, Settled, Pipe.Inv, Obtainable, StoreBack, ChunkQueue.Push, Pipe.Write;
      ModelFacts();
      Memory.WriteStands(View(), model, v, incomplete, m);
      Memory.StoreBackStands(View(), model, v);
      PushIsDefined(StoreBack(queue.View(), v));
      StoreThroughBack(v);
      queue.Push(m);
      if !incomplete {
        f := Slot(queue.backChunk, queue.backPos);
      }
      model := Pipe.Write(model, v, incomplete);
    }

    method Unwrite() returns (v: Option<T>)
      requires Valid() && !storing
      modifies this, queue
      ensures Valid() && model == Pipe.Unwrite(old(model)).0 && v == Pipe.Unwrite(old(model)).1
    {
      hide Memory.Stands, Inv, Settled, Index, Pipe.Inv, ChunkQueue.Unpush, Pipe.Unwrite;
      ModelFacts();
      Memory.UnwriteStands(View(), model);
      v := None;
      if f != Slot(queue.backChunk, queue.backPos) {
        queue.Unpush();
        v := Some(queue.heap[queue.backChunk].values[queue.backPos]);
      }
      model := Pipe.Unwrite(model).0;
    }

    /** The compare-exchange; `done` says that the flush is over and has returned true. */
    method FlushExchange() returns (done: bool)
      requires Valid() && !storing
      modifies this
      ensures Valid() && model == Pipe.FlushExchange(old(model)).0
      ensures done == Pipe.FlushExchange(old(model)).1.Some?
    {
      Memory.FlushStands(View(), model);
      hide Sound, Memory.Holds, Memory.At, Memory.AtOption, Pipe.Inv;
      model := Pipe.FlushExchange(model).0;
      if w == f {
        return true;
      }
      if c == Some(w) {
        c := Some(f);
        w := f;
        return true;
      }
      storing := true;
      return false;
    }

    method FlushStore()
      requires Valid() && storing
      modifies this
      ensures Valid() && model == Pipe.FlushStore(old(model))
    {
      Memory.FlushStands(View(), model);
      hide Sound, Memory.Holds, Memory.At, Memory.AtOption, Pipe.Inv;
      model := Pipe.FlushStore(model);
      c := Some(f);
      w := f;
      storing := false;
    }

    /** Both steps with nothing in between: everything complete is published, and the answer is
        false exactly when the reader had put the pipe to sleep. */
    method Flush() returns (awake: bool)
      requires Valid() && !storing
      modifies this
      ensures Valid() && !storing && model.w == model.f == old(model).f && model.items == old(model).items
      ensures awake <==> old(model).w == old(model).f || !old(model).asleep
    {
      awake := FlushExchange();
      if !awake {
        FlushStore();
      }
    }

    method CheckRead() returns (ok: bool)
      requires Valid()
      modifies this
      ensures Valid() && model == Pipe.CheckRead(old(model)).0
      ensures ok <==> old(model).front < old(model).w
      ensures View() == Memory.CheckRead(old(View())).0 && ok == Memory.CheckRead(old(View())).1
    {
      Memory.CheckReadStands(View(), model);
      Pipe.LookFindsFlushed(model);
      hide Sound, Memory.Holds, Memory.At, Memory.AtOption, Pipe.Inv;
      model := Pipe.CheckRead(model).0;
      var front := Slot(queue.beginChunk, queue.beginPos);
      if r.Some? && r.value != front {
        return true;
      }
      var seen := c;
      if c == Some(front) {
        c := None;
      }
      r := seen;
      ok := !(r == Some(front) || r.None?);
    }

    method Read() returns (v: Option<T>)
      requires Valid()
      modifies this, queue
      ensures Valid()
      ensures v.Some? <==> old(model).front < old(model).w
      ensures v.Some? ==> v.value == old(model).items[old(model).front]
      ensures model.read == old(model).read + if v.Some? then [v.value] else []
      ensures model.front == old(model).front + if v.Some? then 1 else 0
      ensures model.items == old(model).items && model.w == old(model).w && model.f == old(model).f
      ensures (model, v) == Pipe.Read(old(model))
    {
      Memory.ReadStands(View(), model);
      ReadMeans(model);
      hide Inv, Index, Memory.Stands, Pop, Pipe.Inv, Pipe.Extends, ValueAt, Pipe.Read, Pipe.CheckRead;
      ghost var before := model;
      var ok := CheckRead();
      if !ok {
        return None;
      }
      var front := TakeFront();
      model := Pipe.Read(before).0;
      v := Some(front);
    }

    method TakeFront() returns (v: T)
      requires var q := queue.View();
        && Inv(q) && Index(q, FrontSlot(q)) < Index(q, BackSlot(q))
      modifies this`handed, queue
      ensures var q := old(queue.View());
        && Inv(q) && v == ValueAt(q, FrontSlot(q))
        && View() == old(View()).(queue := Pop(q), read := old(handed) + [v])
    {
      v := queue.heap[queue.beginChunk].values[queue.beginPos];
      queue.Pop();
      handed := handed + [v];
    }
  }
}

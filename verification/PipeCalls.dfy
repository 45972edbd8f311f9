/** What the calls of a pipe come to: what is taken back, what a flush publishes, what is read. */
module PipeCalls {
  import opened Wrappers
  import opened Pipe

  // ---------------------------------------------------------------- taking back

  /** Taking back undoes an incomplete write and returns what it wrote; what was written as complete
      is not taken back. */
  lemma UnwriteUndoesWrite<T>(p: Pipe<T>, v: T)
    requires Inv(p)
    ensures Unwrite(Write(p, v, true)) == (p, Some(v))
    ensures Unwrite(Write(p, v, false)) == (Write(p, v, false), None)
  {
    assert (p.items + [v])[..|p.items|] == p.items;
  }

  function WriteOpen<T>(p: Pipe<T>, values: seq<T>): Pipe<T>
    decreases |values|
  {
    if values == [] then p else WriteOpen(Write(p, values[0], true), values[1..])
  }

  /** Take back until the pipe says that there is nothing. */
  function TakeBack<T>(p: Pipe<T>): (Pipe<T>, seq<T>)
    requires p.f <= |p.items|
    decreases |p.items|
  {
    var (q, v) := Unwrite(p);
    if v.None? then (q, [])
    else
      var (last, values) := TakeBack(q);
      (last, [v.value] + values)
  }

  function Reversed<T>(s: seq<T>): seq<T> {
    if s == [] then [] else Reversed(s[1..]) + [s[0]]
  }

  /** Whatever incomplete values follow the last complete one, taking back until there is nothing
      returns them, the last written first, and restores the pipe: no complete value is lost. */
  lemma {:induction false} TakeBackUndoes<T>(p: Pipe<T>, values: seq<T>)
    requires Inv(p) && p.f == |p.items|
    ensures WriteOpen(p, values) == p.(items := p.items + values)
    ensures TakeBack(WriteOpen(p, values)) == (p, Reversed(values))
    decreases |values|
  {
    OpenItems(p, values);
    if values != [] {
      var n := |values| - 1;
      var q := WriteOpen(p, values);
      assert q.items[..|q.items| - 1] == p.items + values[..n];
      OpenItems(p, values[..n]);
      TakeBackUndoes(p, values[..n]);
      ReversedLast(values);
    } else {
      assert p.items + values == p.items;
    }
  }

  lemma {:induction false} OpenItems<T>(p: Pipe<T>, values: seq<T>)
    ensures WriteOpen(p, values) == p.(items := p.items + values)
    decreases |values|
  {
    if values == [] {
      assert p.items + values == p.items;
    } else {
      OpenItems(Write(p, values[0], true), values[1..]);
      assert p.items + [values[0]] + values[1..] == p.items + values;
    }
  }

  lemma {:induction false} ReversedLast<T>(s: seq<T>)
    requires s != []
    ensures Reversed(s) == [s[|s| - 1]] + Reversed(s[..|s| - 1])
  {
    if |s| > 1 {
      ReversedLast(s[1..]);
      assert s[1..][..|s| - 2] == s[..|s| - 1][1..];
    }
  }

  // ---------------------------------------------------------------- publishing and reading

  /** Both steps of a flush. */
  function Flush<T>(p: Pipe<T>): Pipe<T> {
    var (q, done) := FlushExchange(p);
    if done.Some? then q else FlushStore(q)
  }

  /** Read until the pipe says that there is nothing. */
  ghost function ReadAll<T>(p: Pipe<T>): (r: (Pipe<T>, seq<T>))
    requires Inv(p)
    ensures Inv(r.0)
    decreases p.w - p.front
  {
    ReadStep(p);
    var (q, v) := Read(p);
    if v.None? then (q, [])
    else
      var (last, values) := ReadAll(q);
      (last, [v.value] + values)
  }

  /** Reading until there is nothing returns everything flushed and not yet read, in order, and
      leaves the pipe asleep with what the writer has as it was. */
  lemma {:induction false} ReadAllTakesAll<T>(p: Pipe<T>)
    requires Inv(p)
    ensures var (q, values) := ReadAll(p);
      && values == p.items[p.front..p.w] && q.read == p.items[..p.w] && q.asleep
      && q.items == p.items && q.f == p.f && q.w == p.w && q.front == p.w
    decreases p.w - p.front
  {
    ReadStep(p);
    if p.front < p.w {
      ReadAllTakesAll(Read(p).0);
      assert p.items[p.front..p.w] == [p.items[p.front]] + p.items[p.front + 1..p.w];
    }
  }

  /** Whatever happened before: once the writer has flushed, reading until there is nothing has
      delivered every value up to the last complete one, each once and in order. */
  lemma FlushedIsDelivered<T>(schedule: seq<Step<T>>)
    ensures var p := Run(Empty(), schedule);
      !p.storing ==>
        var q := Flush(p);
        && Inv(q) && q.w == p.f && q.items == p.items && ReadAll(q).0.read == p.items[..p.f]
  {
    var p := Run(Empty(), schedule);
    if !p.storing { ReadAllTakesAll(Flush(p)); }
  }

  /** A batch that was written and flushed is what a reader that had read everything gets. */
  lemma BatchIsDelivered<T>(p: Pipe<T>, batch: seq<T>)
    requires Inv(p) && !p.storing && p.front == p.w == p.f == |p.items| && batch != []
    ensures var q := Flush(WriteBatch(p, batch));
      Inv(q) && ReadAll(q).1 == batch
  {
    BatchAddsOneEnd(p, batch);
    var q := WriteBatch(p, batch);
    assert Inv(q) by {
      assert q.items[..p.front] == p.items[..p.front];
    }
    assert Inv(Flush(q)) && Flush(q).w == q.f && Flush(q).items == q.items && Flush(q).front == p.front;
    ReadAllTakesAll(Flush(q));
    assert q.items[|p.items|..] == batch;
  }
}

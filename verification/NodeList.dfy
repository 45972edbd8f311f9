/** The doubly linked list of the event count: nodes that live inside the thread records, so a
    node can be in one list at a time and is used again and again.  Memory is explicit: touching
    a node that is not in it cannot be proved. */
module NodeList {
  import opened Wrappers

  /** A thread's node, or one of the two sentinels of list `list`. */
  datatype Node = Thread(t: nat) | Head(list: nat) | Tail(list: nat)

  datatype Link = Link(prev: Option<Node>, next: Option<Node>)

  type Memory = map<Node, Link>

  // ---------------------------------------------------------------- what memory holds

  /** The i-th stop on the way from head to tail of list l holding the threads q. */
  function Stop(l: nat, q: seq<nat>, i: nat): Node {
    if i == 0 then Head(l) else if i <= |q| then Thread(q[i - 1]) else Tail(l)
  }

  ghost predicate Joined(m: Memory, a: Node, b: Node) {
    a in m && b in m && m[a].next == Some(b) && m[b].prev == Some(a)
  }

  ghost predicate JoinedAt(m: Memory, l: nat, q: seq<nat>, i: nat) {
    Joined(m, Stop(l, q, i), Stop(l, q, i + 1))
  }

  ghost predicate Distinct(q: seq<nat>) {
    forall i, j :: 0 <= i < j < |q| ==> q[i] != q[j]
  }

  ghost predicate Ends(m: Memory, l: nat) {
    Head(l) in m && Tail(l) in m && m[Head(l)].prev.None? && m[Tail(l)].next.None?
  }

  /** In memory m list l holds exactly the threads q, in this order, linked both ways. */
  ghost predicate IsList(m: Memory, l: nat, q: seq<nat>) {
    && (forall i :: 0 <= i <= |q| ==> JoinedAt(m, l, q, i))
    && Ends(m, l) && Distinct(q)
  }

  /** Where a walk that has the threads q before it stands. */
  function Cursor(l: nat, q: seq<nat>): Node {
    if q == [] then Tail(l) else Thread(q[0])
  }

  /** Following `next` from the cursor meets exactly q and then the tail. */
  ghost predicate Chain(m: Memory, l: nat, q: seq<nat>)
    decreases |q|
  {
    && Cursor(l, q) in m
    && if q == [] then m[Tail(l)].next.None?
       else m[Thread(q[0])].next == Some(Cursor(l, q[1..])) && Chain(m, l, q[1..])
  }

  // ---------------------------------------------------------------- the operations

  function Reset(m: Memory, l: nat): Memory {
    m[Head(l) := Link(None, Some(Tail(l)))][Tail(l) := Link(Some(Head(l)), None)]
  }

  predicate HasFirst(m: Memory, l: nat) {
    Head(l) in m && m[Head(l)].next.Some? && m[Head(l)].next.value in m
  }

  function Push(m: Memory, l: nat, n: Node): Memory
    requires HasFirst(m, l) && n in m && n != Head(l)
  {
    var first := m[Head(l)].next.value;
    var m1 := m[n := Link(Some(Head(l)), Some(first))];
    var m2 := m1[first := m1[first].(prev := Some(n))];
    m2[Head(l) := m2[Head(l)].(next := Some(n))]
  }

  predicate Inner(m: Memory, n: Node) {
    n in m && m[n].prev.Some? && m[n].next.Some? && m[n].prev.value in m && m[n].next.value in m
  }

  /** The removed node keeps its own stale links. */
  function Remove(m: Memory, n: Node): Memory
    requires Inner(m, n)
  {
    var (before, after) := (m[n].prev.value, m[n].next.value);
    var m1 := m[before := m[before].(next := Some(after))];
    m1[after := m1[after].(prev := Some(before))]
  }

  predicate HasLast(m: Memory, l: nat) {
    Tail(l) in m && m[Tail(l)].prev.Some? && m[Tail(l)].prev.value in m
  }

  predicate CanFlush(m: Memory, l: nat, k: nat) {
    HasFirst(m, l) && HasLast(m, l) && Head(k) in m && Tail(k) in m
  }

  /** Hand all nodes of list l over to list k. */
  function FlushTo(m: Memory, l: nat, k: nat, size: nat): Memory
    requires CanFlush(m, l, k)
  {
    if size == 0 then Reset(Reset(m, k), l)
    else
      var first := m[Head(l)].next.value;
      var m1 := m[Head(k) := m[Head(k)].(next := Some(first))];
      var m2 := m1[first := m1[first].(prev := Some(Head(k)))];
      var last := m2[Tail(l)].prev.value;
      var m3 := m2[Tail(k) := m2[Tail(k)].(prev := Some(last))];
      var m4 := m3[last := m3[last].(next := Some(Tail(k)))];
      Reset(m4, l)
  }

  // ---------------------------------------------------------------- what they do to the list

  lemma StopsDiffer(l: nat, q: seq<nat>, i: nat, j: nat)
    requires Distinct(q) && i < j <= |q| + 1
    ensures Stop(l, q, i) != Stop(l, q, j)
  {
  }

  lemma ResetEmpties(m: Memory, l: nat)
    ensures IsList(Reset(m, l), l, [])
  {
    assert JoinedAt(Reset(m, l), l, [], 0);
  }

  lemma ListIsChain(m: Memory, l: nat, q: seq<nat>, i: nat)
    requires IsList(m, l, q) && i <= |q|
    ensures Chain(m, l, q[i..]) && Cursor(l, q[i..]) == Stop(l, q, i + 1)
    decreases |q| - i
  {
    if i < |q| {
      ListIsChain(m, l, q, i + 1);
      assert q[i..][1..] == q[i + 1..];
      assert JoinedAt(m, l, q, i + 1);
    } else {
      assert JoinedAt(m, l, q, i);
    }
  }

  lemma PushKeeps(m: Memory, l: nat, q: seq<nat>, t: nat)
    requires IsList(m, l, q) && Thread(t) in m && t !in q
    ensures HasFirst(m, l) && IsList(Push(m, l, Thread(t)), l, [t] + q)
  {
    assert JoinedAt(m, l, q, 0) && JoinedAt(m, l, q, |q|);
    var m' := Push(m, l, Thread(t));
    forall i | 0 <= i <= |q| + 1 ensures JoinedAt(m', l, [t] + q, i) {
      if i >= 2 {
        assert JoinedAt(m, l, q, i - 1);
        StopsDiffer(l, q, 0, i - 1);
        StopsDiffer(l, q, 1, i);
      }
    }
  }

  lemma RemoveKeeps(m: Memory, l: nat, q: seq<nat>, i: nat)
    requires IsList(m, l, q) && i < |q|
    ensures Inner(m, Thread(q[i])) && IsList(Remove(m, Thread(q[i])), l, q[..i] + q[i + 1..])
  {
    assert JoinedAt(m, l, q, i) && JoinedAt(m, l, q, i + 1);
    assert JoinedAt(m, l, q, 0) && JoinedAt(m, l, q, |q|);
    var m' := Remove(m, Thread(q[i]));
    var q' := q[..i] + q[i + 1..];
    forall j | 0 <= j <= |q'| ensures JoinedAt(m', l, q', j) {
      if j < i {
        assert JoinedAt(m, l, q, j);
        StopsDiffer(l, q, j, i);
        StopsDiffer(l, q, j + 1, i + 2);
      } else if j > i {
        assert JoinedAt(m, l, q, j + 1);
        StopsDiffer(l, q, i, j + 1);
        StopsDiffer(l, q, i + 2, j + 2);
      }
    }
  }

  lemma FlushKeeps(m: Memory, l: nat, k: nat, q: seq<nat>)
    requires IsList(m, l, q) && IsList(m, k, []) && l != k
    ensures CanFlush(m, l, k)
    ensures IsList(FlushTo(m, l, k, |q|), k, q) && IsList(FlushTo(m, l, k, |q|), l, [])
  {
    assert JoinedAt(m, l, q, 0) && JoinedAt(m, l, q, |q|) && JoinedAt(m, k, [], 0);
    var m' := FlushTo(m, l, k, |q|);
    assert JoinedAt(m', l, [], 0);
    forall j | 0 <= j <= |q| ensures JoinedAt(m', k, q, j) {
      assert JoinedAt(m, l, q, j);
      if j > 0 { StopsDiffer(l, q, 1, j + 1); }
      if j < |q| { StopsDiffer(l, q, j, |q|); }
    }
  }

  // ---------------------------------------------------------------- what they leave alone

  /** A walk is not disturbed by changes to other nodes. */
  lemma {:induction false} ChainFrame(m: Memory, m': Memory, l: nat, q: seq<nat>)
    requires Chain(m, l, q)
    requires forall t :: t in q && Thread(t) in m ==> Thread(t) in m' && m'[Thread(t)] == m[Thread(t)]
    requires Tail(l) in m' && m'[Tail(l)].next.None?
    ensures Chain(m', l, q)
    decreases |q|
  {
    if q != [] { ChainFrame(m, m', l, q[1..]); }
  }

  /** A list is not disturbed by changes to nodes that are not its own. */
  lemma ListFrame(m: Memory, m': Memory, l: nat, q: seq<nat>)
    requires IsList(m, l, q)
    requires forall i :: 0 <= i <= |q| + 1 && Stop(l, q, i) in m ==>
      Stop(l, q, i) in m' && m'[Stop(l, q, i)] == m[Stop(l, q, i)]
    ensures IsList(m', l, q)
  {
    assert Stop(l, q, 0) == Head(l) && Stop(l, q, |q| + 1) == Tail(l);
    forall i | 0 <= i <= |q| ensures JoinedAt(m', l, q, i) {
      assert JoinedAt(m, l, q, i);
    }
  }

  /** Only nodes of the list and the node itself change. */
  lemma PushTouches(m: Memory, l: nat, q: seq<nat>, t: nat, n: Node)
    requires IsList(m, l, q) && Thread(t) in m && t !in q
    requires n in m && n != Thread(t) && n != Head(l) && n != Tail(l) && (n.Thread? ==> n.t !in q)
    ensures HasFirst(m, l)
    ensures n in Push(m, l, Thread(t)) && Push(m, l, Thread(t))[n] == m[n]
  {
    assert JoinedAt(m, l, q, 0);
  }

  lemma RemoveTouches(m: Memory, l: nat, q: seq<nat>, i: nat, n: Node)
    requires IsList(m, l, q) && i < |q|
    requires n in m && n != Head(l) && n != Tail(l) && (n.Thread? ==> n.t !in q)
    ensures Inner(m, Thread(q[i]))
    ensures n in Remove(m, Thread(q[i])) && Remove(m, Thread(q[i]))[n] == m[n]
  {
    assert JoinedAt(m, l, q, i) && JoinedAt(m, l, q, i + 1);
  }

  /** Pushing a free node and removing any node leaves a walk along another list undisturbed,
      when the two have no node in common. */
  lemma ReuseIsSafe(m: Memory, l: nat, q: seq<nat>, t: nat, k: nat, owed: seq<nat>)
    requires IsList(m, l, q) && Thread(t) in m && t !in q && Chain(m, k, owed) && Tail(k) in m && l != k
    requires m[Tail(k)].next.None?
    requires forall u :: u in owed ==> u !in q && u != t
    ensures HasFirst(m, l) && Chain(Push(m, l, Thread(t)), k, owed)
  {
    assert JoinedAt(m, l, q, 0);
    var m' := Push(m, l, Thread(t));
    ChainFrame(m, m', k, owed);
  }
}

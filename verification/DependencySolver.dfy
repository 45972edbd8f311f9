/** Which nodes a node requires, directly or not, and in which order they load. */
module DependencySolving {
  import opened Wrappers

  /** An edge goes from a node to one it requires. */
  type Edges = set<(string, string)>

  function Succ(edges: Edges, v: string): set<string> {
    set e | e in edges && e.0 == v :: e.1
  }

  function Flip(edges: Edges): Edges {
    set e | e in edges :: (e.1, e.0)
  }

  // ---------------------------------------------------------------- reachability

  ghost predicate IsPath(edges: Edges, p: seq<string>) {
    |p| >= 2 && forall i :: 0 <= i < |p| - 1 ==> EdgeAt(edges, p, i)
  }

  predicate EdgeAt(edges: Edges, p: seq<string>, i: nat)
    requires i + 1 < |p|
  {
    (p[i], p[i + 1]) in edges
  }

  /** By one edge or more. */
  ghost predicate Reaches(edges: Edges, v: string, w: string) {
    exists p :: IsPath(edges, p) && p[0] == v && p[|p| - 1] == w
  }

  ghost predicate Acyclic(edges: Edges) {
    forall v :: !Reaches(edges, v, v)
  }

  lemma EdgeReaches(edges: Edges, v: string, w: string)
    requires (v, w) in edges
    ensures Reaches(edges, v, w)
  {
    var p := [v, w];
    assert EdgeAt(edges, p, 0);
    assert IsPath(edges, p);
  }

  lemma ReachesOn(edges: Edges, u: string, v: string, w: string)
    requires (u, v) in edges && Reaches(edges, v, w)
    ensures Reaches(edges, u, w)
  {
    var p :| IsPath(edges, p) && p[0] == v && p[|p| - 1] == w;
    var q := [u] + p;
    forall i | 0 <= i < |q| - 1 ensures EdgeAt(edges, q, i) {
      if i > 0 { assert EdgeAt(edges, p, i - 1); }
    }
    assert IsPath(edges, q);
  }

  /** A set that contains what v requires and all that its own members require contains everything
      that v reaches. */
  lemma {:induction false} ClosedContainsPath(edges: Edges, marked: set<string>, p: seq<string>)
    requires IsPath(edges, p) && Succ(edges, p[0]) <= marked && forall x :: x in marked ==> Succ(edges, x) <= marked
    ensures p[|p| - 1] in marked
    decreases |p|
  {
    assert EdgeAt(edges, p, 0);
    assert p[1] in Succ(edges, p[0]);
    if |p| > 2 {
      var q := p[1..];
      forall i | 0 <= i < |q| - 1 ensures EdgeAt(edges, q, i) { assert EdgeAt(edges, p, i + 1); }
      ClosedContainsPath(edges, marked, q);
    }
  }

  /** What a marking from v does to the marks, on any graph: everything marked newly is reached from
      v, and nothing required by v or by a newly marked node is left out. */
  ghost predicate Marked(edges: Edges, v: string, before: set<string>, after: set<string>) {
    && before <= after
    && (forall x :: x in after && x !in before ==> Reaches(edges, v, x))
    && Succ(edges, v) <= after
    && (forall x :: x in after && x !in before ==> Succ(edges, x) <= after)
  }

  /** Starting without marks, exactly what v reaches is marked. */
  lemma MarksWhatIsReached(edges: Edges, v: string, after: set<string>)
    requires Marked(edges, v, {}, after)
    ensures forall x :: x in after <==> Reaches(edges, v, x)
  {
    forall x | Reaches(edges, v, x) ensures x in after {
      var p :| IsPath(edges, p) && p[0] == v && p[|p| - 1] == x;
      ClosedContainsPath(edges, after, p);
    }
  }

  // ---------------------------------------------------------------- orders

  function IndexIn(s: seq<string>, x: string): (i: nat)
    ensures i <= |s| && (i < |s| <==> x in s) && (i < |s| ==> s[i] == x)
  {
    if s == [] || s[0] == x then 0 else 1 + IndexIn(s[1..], x)
  }

  ghost predicate Distinct(s: seq<string>) {
    forall i, j :: 0 <= i < j < |s| ==> s[i] != s[j]
  }

  /** What topological sorting returns: every node once, before all it requires. */
  ghost predicate Topological(nodes: set<string>, edges: Edges, order: seq<string>) {
    && Distinct(order) && (forall x :: x in order <==> x in nodes)
    && forall i, j :: 0 <= i < |order| && 0 <= j < |order| && (order[i], order[j]) in edges ==> i < j
  }

  function Filter(s: seq<string>, marked: set<string>): seq<string> {
    if s == [] then [] else (if s[0] in marked then [s[0]] else []) + Filter(s[1..], marked)
  }

  function Reverse(s: seq<string>): seq<string> {
    if s == [] then [] else Reverse(s[1..]) + [s[0]]
  }

  lemma {:induction false} FilterSnoc(s: seq<string>, x: string, marked: set<string>)
    ensures Filter(s + [x], marked) == Filter(s, marked) + if x in marked then [x] else []
  {
    if s == [] {
      assert s + [x] == [x];
    } else {
      assert (s + [x])[1..] == s[1..] + [x];
      FilterSnoc(s[1..], x, marked);
    }
  }

  lemma {:induction false} ReverseSnoc(s: seq<string>, x: string)
    ensures Reverse(s + [x]) == [x] + Reverse(s)
  {
    if s == [] {
      assert s + [x] == [x];
    } else {
      assert (s + [x])[1..] == s[1..] + [x];
      ReverseSnoc(s[1..], x);
    }
  }

  lemma {:induction false} FilterMembers(s: seq<string>, marked: set<string>)
    requires Distinct(s)
    ensures Distinct(Filter(s, marked)) && forall x :: x in Filter(s, marked) <==> x in s && x in marked
  {
    if s != [] {
      assert s == [s[0]] + s[1..];
      assert s[0] !in s[1..];
      FilterMembers(s[1..], marked);
    }
  }

  /** Filtering keeps who comes before whom. */
  ghost predicate Ordered(edges: Edges, s: seq<string>) {
    forall i, j :: 0 <= i < |s| && 0 <= j < |s| && (s[i], s[j]) in edges ==> i < j
  }

  lemma {:induction false} FilterOrdered(edges: Edges, s: seq<string>, marked: set<string>)
    requires Ordered(edges, s) && Distinct(s)
    ensures Ordered(edges, Filter(s, marked))
  {
    if s != [] {
      assert forall i :: 0 <= i < |s[1..]| ==> s[1..][i] == s[i + 1];
      FilterOrdered(edges, s[1..], marked);
      FilterMembers(s[1..], marked);
      var t, u := Filter(s, marked), Filter(s[1..], marked);
      if s[0] in marked {
        assert t == [s[0]] + u;
        forall i, j | 0 <= i < |t| && 0 <= j < |t| && (t[i], t[j]) in edges ensures i < j {
          NoneBack(edges, s, marked, i, j);
        }
      }
    }
  }

  lemma NoneBack(edges: Edges, s: seq<string>, marked: set<string>, i: nat, j: nat)
    requires s != [] && s[0] in marked && Ordered(edges, s) && Distinct(s) && Ordered(edges, Filter(s[1..], marked))
    requires forall x :: x in Filter(s[1..], marked) <==> x in s[1..] && x in marked
    requires var t := [s[0]] + Filter(s[1..], marked); i < |t| && j < |t| && (t[i], t[j]) in edges
    ensures i < j
  {
    var u := Filter(s[1..], marked);
    var t := [s[0]] + u;
    assert forall x :: x in s ==> (x, s[0]) !in edges;
    assert forall x :: x in u ==> x in s;
    assert t[i] in s && t[0] == s[0];
    if i > 0 && j > 0 {
      assert t[i] == u[i - 1] && t[j] == u[j - 1];
    }
  }

  lemma {:induction false} ReverseAt(s: seq<string>)
    ensures |Reverse(s)| == |s| && forall i :: 0 <= i < |s| ==> Reverse(s)[i] == s[|s| - 1 - i]
  {
    if s != [] {
      ReverseAt(s[1..]);
      var r := Reverse(s);
      forall i | 0 <= i < |s| ensures r[i] == s[|s| - 1 - i] {
        if i < |s| - 1 { assert r[i] == Reverse(s[1..])[i] == s[1..][|s| - 2 - i]; }
      }
    }
  }

  // ---------------------------------------------------------------- the lists

  /** Everything in the list is reached from `id`, nothing that is reached is missing, nothing is
      there twice, and each stands after all it requires. */
  ghost predicate LoadList(edges: Edges, id: string, list: seq<string>) {
    && (forall x :: x in list <==> Reaches(edges, id, x))
    && Distinct(list)
    && forall i, j :: 0 <= i < |list| && 0 <= j < |list| && (list[i], list[j]) in edges ==> j < i
  }

  lemma RequireList(nodes: set<string>, edges: Edges, order: seq<string>, id: string, marked: set<string>)
    requires Topological(nodes, edges, order) && forall x :: x in marked <==> Reaches(edges, id, x)
    requires forall e :: e in edges ==> e.0 in nodes && e.1 in nodes
    ensures LoadList(edges, id, Reverse(Filter(order, marked)))
  {
    var f := Filter(order, marked);
    FilterMembers(order, marked);
    FilterOrdered(edges, order, marked);
    ReverseAt(f);
    var r := Reverse(f);
    forall x ensures x in r <==> Reaches(edges, id, x) {
      if x in r {
        var i :| 0 <= i < |r| && r[i] == x;
        assert f[|f| - 1 - i] == x;
      }
      if Reaches(edges, id, x) {
        ReachedIsNode(nodes, edges, id, x);
        assert x in f;
        var i :| 0 <= i < |f| && f[i] == x;
        assert r[|f| - 1 - i] == x;
      }
    }
    forall i, j | 0 <= i < |r| && 0 <= j < |r| && (r[i], r[j]) in edges ensures j < i {
      assert r[i] == f[|f| - 1 - i] && r[j] == f[|f| - 1 - j];
    }
  }

  /** Everything that reaches `id`, once, each before all it requires. */
  ghost predicate UnloadList(edges: Edges, id: string, list: seq<string>) {
    && (forall x :: x in list <==> Reaches(edges, x, id))
    && Distinct(list) && Ordered(edges, list)
  }

  lemma DependentList(nodes: set<string>, edges: Edges, order: seq<string>, id: string, marked: set<string>)
    requires Topological(nodes, edges, order) && forall x :: x in marked <==> Reaches(Flip(edges), id, x)
    requires forall e :: e in edges ==> e.0 in nodes && e.1 in nodes
    ensures UnloadList(edges, id, Filter(order, marked))
  {
    FilterMembers(order, marked);
    FilterOrdered(edges, order, marked);
    forall x ensures x in Filter(order, marked) <==> Reaches(edges, x, id) {
      FlipReaches(edges, x, id);
      if Reaches(edges, x, id) { ReacherIsNode(nodes, edges, x, id); }
    }
  }

  lemma ReacherIsNode(nodes: set<string>, edges: Edges, v: string, w: string)
    requires Reaches(edges, v, w) && forall e :: e in edges ==> e.0 in nodes && e.1 in nodes
    ensures v in nodes
  {
    var p :| IsPath(edges, p) && p[0] == v && p[|p| - 1] == w;
    assert EdgeAt(edges, p, 0);
  }

  lemma ReachedIsNode(nodes: set<string>, edges: Edges, v: string, w: string)
    requires Reaches(edges, v, w) && forall e :: e in edges ==> e.0 in nodes && e.1 in nodes
    ensures w in nodes
  {
    var p :| IsPath(edges, p) && p[0] == v && p[|p| - 1] == w;
    assert EdgeAt(edges, p, |p| - 2);
  }

  /** Along a path the place in the order grows. */
  lemma {:induction false} OrderGrows(nodes: set<string>, edges: Edges, order: seq<string>, p: seq<string>)
    requires Topological(nodes, edges, order) && IsPath(edges, p)
    requires forall e :: e in edges ==> e.0 in nodes && e.1 in nodes
    ensures IndexIn(order, p[0]) < IndexIn(order, p[|p| - 1]) < |order|
    decreases |p|
  {
    assert EdgeAt(edges, p, 0);
    assert p[0] in order && p[1] in order;
    var i, j := IndexIn(order, p[0]), IndexIn(order, p[1]);
    assert (order[i], order[j]) in edges;
    if |p| > 2 {
      var q := p[1..];
      forall k | 0 <= k < |q| - 1 ensures EdgeAt(edges, q, k) { assert EdgeAt(edges, p, k + 1); }
      OrderGrows(nodes, edges, order, q);
    }
  }

  /** A graph that can be sorted has no cycle, so no node requires itself. */
  lemma SortedIsAcyclic(nodes: set<string>, edges: Edges, order: seq<string>)
    requires Topological(nodes, edges, order) && forall e :: e in edges ==> e.0 in nodes && e.1 in nodes
    ensures Acyclic(edges)
  {
    forall v ensures !Reaches(edges, v, v) {
      if Reaches(edges, v, v) {
        var p :| IsPath(edges, p) && p[0] == v && p[|p| - 1] == v;
        OrderGrows(nodes, edges, order, p);
        assert false;
      }
    }
  }

  // ---------------------------------------------------------------- the mirror

  lemma FlipEdge(edges: Edges, v: string, w: string)
    ensures (v, w) in Flip(edges) <==> (w, v) in edges
  {
  }

  lemma {:induction false} ReversePath(edges: Edges, p: seq<string>)
    requires IsPath(edges, p)
    ensures |Reverse(p)| == |p| && IsPath(Flip(edges), Reverse(p)) && Reverse(p)[0] == p[|p| - 1]
    ensures Reverse(p)[|p| - 1] == p[0]
  {
    ReverseAt(p);
    var r := Reverse(p);
    forall i | 0 <= i < |r| - 1 ensures EdgeAt(Flip(edges), r, i) {
      assert EdgeAt(edges, p, |p| - 2 - i);
      FlipEdge(edges, r[i], r[i + 1]);
    }
  }

  /** v is reached backwards from w exactly if w is reached from v. */
  lemma FlipReaches(edges: Edges, v: string, w: string)
    ensures Reaches(Flip(edges), w, v) <==> Reaches(edges, v, w)
  {
    if Reaches(edges, v, w) {
      var p :| IsPath(edges, p) && p[0] == v && p[|p| - 1] == w;
      ReversePath(edges, p);
      ReverseAt(p);
    }
    if Reaches(Flip(edges), w, v) {
      var p :| IsPath(Flip(edges), p) && p[0] == w && p[|p| - 1] == v;
      ReversePath(Flip(edges), p);
      ReverseAt(p);
      assert Flip(Flip(edges)) == edges by {
        forall e ensures e in Flip(Flip(edges)) <==> e in edges {
          FlipEdge(Flip(edges), e.0, e.1);
          FlipEdge(edges, e.1, e.0);
        }
      }
    }
  }

  // ---------------------------------------------------------------- the solver

  datatype Outcome = Listed(list: seq<string>) | NotAcyclic | UnknownNode

  class DependencySolver {
    var nodes: set<string>
    var edges: Edges
    var flags: set<string>

    ghost predicate Valid()
      reads this
    {
      forall e :: e in edges ==> e.0 in nodes && e.1 in nodes
    }

    constructor ()
      ensures Valid() && nodes == {} && edges == {}
    {
      nodes, edges, flags := {}, {}, {};
    }

    /** False, changing nothing, if the node is there already. */
    method AddNode(id: string) returns (ok: bool)
      requires Valid()
      modifies this`nodes
      ensures Valid() && (ok <==> id !in old(nodes)) && nodes == old(nodes) + {id}
    {
      ok := id !in nodes;
      nodes := nodes + {id};
    }

    /** Mark, depth first, everything v requires that is not marked. */
    method FindRequireNode(v: string)
      requires Valid() && v in nodes && flags <= nodes
      modifies this`flags
      ensures flags <= nodes && Marked(edges, v, old(flags), flags)
      decreases |nodes - flags|
    {
      var rest := Succ(edges, v);
      while rest != {}
        invariant flags <= nodes && rest <= Succ(edges, v) && old(flags) <= flags
        invariant Succ(edges, v) - rest <= flags
        invariant forall x :: x in flags && x !in old(flags) ==> Reaches(edges, v, x) && Succ(edges, x) <= flags
        decreases |rest|
      {
        var w :| w in rest;
        rest := rest - {w};
        if w !in flags {
          ghost var before := flags;
          Fewer(nodes, flags, w);
          Fewest(nodes, old(flags), flags);
          flags := flags + {w};
          FindRequireNode(w);
          Marks(edges, v, w, before, flags);
        }
      }
    }

    /** The same against the edges: everything that requires v. */
    method FindDependentNode(v: string)
      requires Valid() && v in nodes && flags <= nodes
      modifies this`flags
      ensures flags <= nodes && Marked(Flip(edges), v, old(flags), flags)
      decreases |nodes - flags|
    {
      var rest := Succ(Flip(edges), v);
      while rest != {}
        invariant flags <= nodes && rest <= Succ(Flip(edges), v) && old(flags) <= flags
        invariant Succ(Flip(edges), v) - rest <= flags
        invariant forall x :: x in flags && x !in old(flags) ==>
          Reaches(Flip(edges), v, x) && Succ(Flip(edges), x) <= flags
        decreases |rest|
      {
        var w :| w in rest;
        rest := rest - {w};
        if w !in flags {
          ghost var before := flags;
          Fewer(nodes, flags, w);
          Fewest(nodes, old(flags), flags);
          flags := flags + {w};
          FindDependentNode(w);
          Marks(Flip(edges), v, w, before, flags);
        }
      }
    }

    /** All that `id` requires, each after everything it requires itself, in front of what the list
        held.  `sorted` is what topological sorting returned: an order, or that there is none. */
    method CompileRequireNodes(id: string, sorted: Option<seq<string>>, held: seq<string>) returns (r: Outcome)
      requires Valid()
      requires if sorted.Some? then Topological(nodes, edges, sorted.value) else !Acyclic(edges)
      modifies this`flags
      ensures r == UnknownNode <==> id !in nodes
      ensures id in nodes ==> (r == NotAcyclic <==> sorted.None?)
      ensures r.Listed? ==>
        Acyclic(edges) && exists list :: r.list == list + held && LoadList(edges, id, list) && id !in list
    {
      flags := {};
      if id !in nodes {
        return UnknownNode;
      }
      FindRequireNode(id);
      MarksWhatIsReached(edges, id, flags);
      if sorted.None? {
        return NotAcyclic;
      }
      hide Filter, Reverse, Topological, Acyclic, Reaches, Distinct, LoadList;
      var result := PushFrontMarked(sorted.value, flags, held);
      RequireList(nodes, edges, sorted.value, id, flags);
      SortedIsAcyclic(nodes, edges, sorted.value);
      NotItself(edges, id);
      r := Listed(result);
    }

    /** All that requires `id`, each after everything that requires it itself, behind what the list
        held. */
    method CompileDependentNodes(id: string, sorted: Option<seq<string>>, held: seq<string>) returns (r: Outcome)
      requires Valid()
      requires if sorted.Some? then Topological(nodes, edges, sorted.value) else !Acyclic(edges)
      modifies this`flags
      ensures r == UnknownNode <==> id !in nodes
      ensures id in nodes ==> (r == NotAcyclic <==> sorted.None?)
      ensures r.Listed? ==>
        Acyclic(edges) && exists list :: r.list == held + list && UnloadList(edges, id, list) && id !in list
    {
      flags := {};
      if id !in nodes {
        return UnknownNode;
      }
      FindDependentNode(id);
      MarksWhatIsReached(Flip(edges), id, flags);
      if sorted.None? {
        return NotAcyclic;
      }
      hide Filter, Topological, Acyclic, Reaches, Distinct, UnloadList;
      var result := PushBackMarked(sorted.value, flags, held);
      DependentList(nodes, edges, sorted.value, id, flags);
      SortedIsAcyclic(nodes, edges, sorted.value);
      NotItself(edges, id);
      r := Listed(result);
    }
  }

  /** Push the marked nodes of the order to the front, one after the other. */
  method PushFrontMarked(order: seq<string>, marked: set<string>, held: seq<string>) returns (result: seq<string>)
    ensures result == Reverse(Filter(order, marked)) + held
  {
    result := held;
    var i := 0;
    assert order[..0] == [];
    while i < |order|
      invariant 0 <= i <= |order| && result == Reverse(Filter(order[..i], marked)) + held
    {
      assert order[..i + 1] == order[..i] + [order[i]];
      FilterSnoc(order[..i], order[i], marked);
      ghost var f := Filter(order[..i], marked);
      ReverseSnoc(f, order[i]);
      assert f + [] == f && [order[i]] + (Reverse(f) + held) == ([order[i]] + Reverse(f)) + held;
      if order[i] in marked {
        result := [order[i]] + result;
      }
      i := i + 1;
    }
    assert order[..i] == order;
  }

  method PushBackMarked(order: seq<string>, marked: set<string>, held: seq<string>) returns (result: seq<string>)
    ensures result == held + Filter(order, marked)
  {
    result := held;
    var i := 0;
    assert order[..0] == [];
    while i < |order|
      invariant 0 <= i <= |order| && result == held + Filter(order[..i], marked)
    {
      assert order[..i + 1] == order[..i] + [order[i]];
      FilterSnoc(order[..i], order[i], marked);
      if order[i] in marked {
        result := result + [order[i]];
      }
      i := i + 1;
    }
    assert order[..i] == order;
  }

  lemma NotItself(edges: Edges, id: string)
    requires Acyclic(edges)
    ensures forall list :: LoadList(edges, id, list) || UnloadList(edges, id, list) ==> id !in list
  {
  }

  /** Marking a node makes the unmarked ones fewer. */
  lemma Fewer(nodes: set<string>, flags: set<string>, w: string)
    requires w in nodes && w !in flags
    ensures |nodes - (flags + {w})| < |nodes - flags|
  {
    assert nodes - flags == (nodes - (flags + {w})) + {w};
  }

  lemma Fewest(nodes: set<string>, before: set<string>, after: set<string>)
    requires before <= after
    ensures |nodes - after| <= |nodes - before|
  {
    Cardinality(nodes - after, nodes - before);
  }

  lemma {:induction false} Cardinality(a: set<string>, b: set<string>)
    requires a <= b
    ensures |a| <= |b|
    decreases a
  {
    if a != {} {
      var x :| x in a;
      Cardinality(a - {x}, b - {x});
    }
  }

  /** What a marking from a neighbour w of v, itself just marked, adds. */
  lemma Marks(edges: Edges, v: string, w: string, before: set<string>, after: set<string>)
    requires (v, w) in edges && Marked(edges, w, before + {w}, after)
    ensures w in after && forall x :: x in after && x !in before ==> Reaches(edges, v, x) && Succ(edges, x) <= after
  {
    EdgeReaches(edges, v, w);
    forall x | x in after && x !in before && x != w ensures Reaches(edges, v, x) {
      ReachesOn(edges, v, w, x);
    }
  }
}

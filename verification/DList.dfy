/** The intrusive list and the notifying side of the event count, updated in place. */
module DLists {
  import opened Wrappers
  import opened NodeList
  import EC = EventCount
  import EventCountMemory

  /** The memory the nodes and the sentinels lie in. */
  class NodeMemory {
    var links: Memory

    constructor (threads: nat)
      ensures links == map t: nat | t < threads :: Thread(t) := Link(None, None)
    {
      links := map t: nat | t < threads :: Thread(t) := Link(None, None);
    }
  }

  class DList {
    const memory: NodeMemory
    const list: nat
    var size: nat
    ghost var contents: seq<nat>

    ghost predicate Valid()
      reads this, memory
    {
      IsList(memory.links, list, contents) && size == |contents|
    }

    constructor (memory: NodeMemory, list: nat)
      modifies memory
      ensures Valid() && contents == [] && this.memory == memory && this.list == list
      ensures memory.links == Reset(old(memory.links), list)
    {
      this.memory, this.list, size, contents := memory, list, 0, [];
      new;
      memory.links := memory.links[Head(list) := Link(None, Some(Tail(list)))];
      memory.links := memory.links[Tail(list) := Link(Some(Head(list)), None)];
      ResetEmpties(old(memory.links), list);
    }

    /** The node must be in no list. */
    method Push(t: nat)
      requires Valid() && Thread(t) in memory.links && t !in contents
      modifies this, memory
      ensures Valid() && contents == [t] + old(contents)
      ensures HasFirst(old(memory.links), list) && memory.links == NodeList.Push(old(memory.links), list, Thread(t))
    {
      PushKeeps(memory.links, list, contents, t);
      var n, head := Thread(t), Head(list);
      size := size + 1;
      var first := memory.links[head].next.value;
      memory.links := memory.links[n := Link(Some(head), Some(first))];
      memory.links := memory.links[first := memory.links[first].(prev := Some(n))];
      memory.links := memory.links[head := memory.links[head].(next := Some(n))];
      contents := [t] + contents;
    }

    /** The node must be in this list. */
    method Remove(t: nat)
      requires Valid() && t in contents
      modifies this, memory
      ensures Valid() && contents == EC.Remove(old(contents), t)
      ensures Inner(old(memory.links), Thread(t)) && memory.links == NodeList.Remove(old(memory.links), Thread(t))
    {
      ghost var i :| 0 <= i < |contents| && contents[i] == t;
      RemoveKeeps(memory.links, list, contents, i);
      EventCountMemory.RemoveIsCut(contents, i);
      var n := Thread(t);
      size := size - 1;
      var before, after := memory.links[n].prev.value, memory.links[n].next.value;
      memory.links := memory.links[before := memory.links[before].(next := Some(after))];
      memory.links := memory.links[after := memory.links[after].(prev := Some(before))];
      contents := EC.Remove(contents, t);
    }

    /** Null when the list is empty. */
    method Pop() returns (t: Option<nat>)
      requires Valid()
      modifies this, memory
      ensures Valid() && (t.None? <==> old(contents) == [])
      ensures t.None? ==> contents == old(contents) && memory.links == old(memory.links)
      ensures t.Some? ==> [t.value] + contents == old(contents)
    {
      if size == 0 {
        return None;
      }
      assert JoinedAt(memory.links, list, contents, 0);
      var n := memory.links[Head(list)].next.value;
      t := Some(n.t);
      assert EC.Remove(contents, n.t) == contents[1..];
      Remove(n.t);
    }

    /** Every node goes to the target, whose old contents are forgotten. */
    method FlushTo(target: DList)
      requires Valid() && target.Valid() && target.contents == []
      requires target.memory == memory && target.list != list
      modifies this, target, memory
      ensures Valid() && target.Valid() && contents == [] && target.contents == old(contents)
      ensures CanFlush(old(memory.links), list, target.list)
      ensures memory.links == NodeList.FlushTo(old(memory.links), list, target.list, |old(contents)|)
    {
      FlushKeeps(memory.links, list, target.list, contents);
      var l, k, links := list, target.list, memory.links;
      if size > 0 {
        target.size := size;
        var first := links[Head(l)].next.value;
        links := links[Head(k) := links[Head(k)].(next := Some(first))];
        links := links[first := links[first].(prev := Some(Head(k)))];
        var last := links[Tail(l)].prev.value;
        links := links[Tail(k) := links[Tail(k)].(prev := Some(last))];
        links := links[last := links[last].(next := Some(Tail(k)))];
      } else {
        target.size := 0;
        links := Reset(links, k);
      }
      size := 0;
      memory.links := Reset(links, l);
      target.contents, contents := contents, [];
    }
  }

  /** The threads' records after the flags of some threads are cleared, or one post for each. */
  function Cleared(threads: seq<EC.Thread>, q: seq<nat>): seq<EC.Thread> {
    seq(|threads|, i requires 0 <= i < |threads| => if i in q then threads[i].(inWaitset := false) else threads[i])
  }

  function Posted(threads: seq<EC.Thread>, q: seq<nat>): seq<EC.Thread> {
    seq(|threads|, i requires 0 <= i < |threads| =>
      if i in q then threads[i].(semaphore := threads[i].semaphore + 1) else threads[i])
  }

  /** The notifying operations with nothing else going on. */
  class Eventcount {
    const memory: NodeMemory
    const waitset: DList
    var threads: seq<EC.Thread>
    var epoch: nat

    ghost predicate Valid()
      reads this, memory, waitset
    {
      && waitset.memory == memory && waitset.list == 0 && waitset.Valid()
      && forall t :: t in waitset.contents ==> t < |threads|
    }

    constructor (count: nat)
      ensures Valid() && waitset.contents == [] && |threads| == count
    {
      var m := new NodeMemory(count);
      var w := new DList(m, 0);
      memory, waitset := m, w;
      threads := seq(count, i => EC.Thread(EC.Idle, false, false, 0, 0, false));
      epoch := 0;
    }

    /** The longest waiting is served last: the wait set is a stack. */
    method NotifyOne()
      requires Valid()
      modifies this, waitset, memory
      ensures Valid()
      ensures old(waitset.contents) == [] ==> threads == old(threads) && waitset.contents == [] && epoch == old(epoch)
      ensures var q := old(waitset.contents);
        q != [] ==> waitset.contents == q[1..] && threads == Posted(Cleared(old(threads), [q[0]]), [q[0]])
    {
      if waitset.size == 0 {
        return;
      }
      epoch := (epoch + 1) % 0x1_0000_0000;
      var n := waitset.Pop();
      var t := n.value;
      assert old(waitset.contents)[0] == t && t in old(waitset.contents);
      assert forall u :: u in waitset.contents ==> u in old(waitset.contents);
      threads := threads[t := threads[t].(inWaitset := false)];
      assert threads == Cleared(old(threads), [t]);
      threads := threads[t := threads[t].(semaphore := threads[t].semaphore + 1)];
      assert threads == Posted(Cleared(old(threads), [t]), [t]);
    }

    /** Everyone who waits is woken exactly once, nobody else is. */
    method NotifyAll()
      requires Valid()
      modifies this, waitset, memory
      ensures Valid() && waitset.contents == []
      ensures threads == Posted(Cleared(old(threads), old(waitset.contents)), old(waitset.contents))
    {
      if waitset.size == 0 {
        assert threads == Posted(Cleared(threads, []), []);
        return;
      }
      ghost var q := waitset.contents;
      ListFrame(memory.links, Reset(memory.links, 1), 0, q);
      var temp := new DList(memory, 1);
      epoch := (epoch + 1) % 0x1_0000_0000;
      waitset.FlushTo(temp);
      threads := ClearAll(memory.links, threads, q);
      threads := PostAll(memory.links, threads, q);
    }
  }

  /** The walk of the local list that clears the flags. */
  method ClearAll(links: Memory, threads: seq<EC.Thread>, ghost q: seq<nat>) returns (r: seq<EC.Thread>)
    requires IsList(links, 1, q) && forall t :: t in q ==> t < |threads|
    ensures r == Cleared(threads, q)
  {
    r := threads;
    assert JoinedAt(links, 1, q, 0);
    var n := links[Head(1)].next.value;
    ghost var i := 0;
    while n.Thread?
      invariant i <= |q| && n == Stop(1, q, i + 1) && r == Cleared(threads, q[..i])
      decreases |q| - i
    {
      assert JoinedAt(links, 1, q, i + 1);
      assert q[..i + 1] == q[..i] + [q[i]] && q[i] in q;
      r := r[n.t := r[n.t].(inWaitset := false)];
      n := links[n].next.value;
      i := i + 1;
    }
    assert q[..i] == q;
  }

  /** The walk that posts; the next node is looked up before the post. */
  method PostAll(links: Memory, threads: seq<EC.Thread>, ghost q: seq<nat>) returns (r: seq<EC.Thread>)
    requires IsList(links, 1, q) && forall t :: t in q ==> t < |threads|
    ensures r == Posted(threads, q)
  {
    r := threads;
    assert JoinedAt(links, 1, q, 0);
    var n := links[Head(1)].next.value;
    ghost var i := 0;
    while n.Thread?
      invariant i <= |q| && n == Stop(1, q, i + 1) && r == Posted(threads, q[..i])
      decreases |q| - i
    {
      assert JoinedAt(links, 1, q, i + 1);
      assert q[..i + 1] == q[..i] + [q[i]] && q[i] !in q[..i] && q[i] in q;
      var next := links[n].next.value;
      r := r[n.t := r[n.t].(semaphore := r[n.t].semaphore + 1)];
      n := next;
      i := i + 1;
    }
    assert q[..i] == q;
  }
}

/** What each call to the scalable allocator does to the chunks while other threads go on, and that
    whatever is freed comes back to its owner. */
module MailBoxCalls {
  import opened Wrappers
  import opened MailBoxes

  /** Nothing but block b has changed among the blocks. */
  predicate OnlyBlock(s: State, s': State, b: nat) {
    |s'.blocks| == |s.blocks| && forall d :: 0 <= d < |s.blocks| && d != b ==> s'.blocks[d] == s.blocks[d]
  }

  /** Where chunk c stands, besides being with a client. */
  function InLists(blk: Block, c: nat): nat {
    multiset(blk.free)[c] + multiset(blk.open)[c] + multiset(blk.taken)[c]
  }

  // ---------------------------------------------------------------- every call takes effect

  /** In every reached state a free from another thread takes the chunk from its client and puts it on
      the public list, whether that was empty or not; and exactly if it was, the thread has to post. */
  lemma ForeignFreeTakesEffect(s: State, f: nat, b: nat, c: nat)
    requires Inv(s) && f < |s.freers| && b < |s.blocks| && s.freers[f] == Elsewhere && c in s.blocks[b].live
    ensures var s' := Apply(s, FreeForeign(f, b, c));
      && Inv(s') && OnlyBlock(s, s', b) && |s'.freers| == |s.freers|
      && var blk, blk' := s.blocks[b], s'.blocks[b];
      && blk'.live == blk.live - {c} && c !in blk'.live
      && multiset(blk'.open) == multiset(blk.open) + multiset([c]) && multiset(blk'.open)[c] == 1
      && blk'.free == blk.free && blk'.taken == blk.taken && blk'.carved == blk.carved && blk'.owner == blk.owner
      && s'.freers[f] == if blk.open == [] then Pushed(b) else Elsewhere
  {
    InvStep(s, FreeForeign(f, b, c));
    assert BlockOk(s, b);
    assert Places(s.blocks[b], c) == if c < s.blocks[b].carved then 1 else 0;
    Joined([c], s.blocks[b].open);
  }

  lemma Joined(a: seq<nat>, b: seq<nat>)
    ensures multiset(a + b) == multiset(a) + multiset(b)
  {
  }

  /** The owner's own free makes the chunk private at once. */
  lemma OwnFreeTakesEffect(s: State, i: nat, b: nat, c: nat)
    requires Inv(s) && Active(s, i, b) && c in s.blocks[b].live
    ensures var s' := Apply(s, FreeOwn(i, b, c));
      && Inv(s') && OnlyBlock(s, s', b)
      && var blk, blk' := s.blocks[b], s'.blocks[b];
      && blk'.live == blk.live - {c} && blk'.free == [c] + blk.free && multiset(blk'.free)[c] == 1
      && blk'.open == blk.open && blk'.taken == blk.taken && blk'.carved == blk.carved && blk'.count + 1 == blk.count
  {
    InvStep(s, FreeOwn(i, b, c));
    assert BlockOk(s, b);
    assert Places(s.blocks[b], c) == if c < s.blocks[b].carved then 1 else 0;
    KeepGiveFree(s.blocks[b], c);
    Joined([c], s.blocks[b].free);
  }

  /** Handing out: a private chunk if there is one to take, or the next one carved; nobody had it. */
  lemma HandingOutTakesEffect(s: State, i: nat, b: nat)
    requires Inv(s) && Active(s, i, b)
    ensures s.blocks[b].free != [] ==>
      var s', x := Apply(s, Reuse(i, b)), s.blocks[b].free[0];
      && b < |s'.blocks| && OnlyBlock(s, s', b) && x !in s.blocks[b].live
      && s'.blocks[b].live == s.blocks[b].live + {x} && s'.blocks[b].free == s.blocks[b].free[1..]
      && s'.blocks[b].open == s.blocks[b].open && s'.blocks[b].carved == s.blocks[b].carved
    ensures CanCarve(s.blocks[b]) ==>
      var s', x := Apply(s, Carve(i, b)), s.blocks[b].carved;
      && b < |s'.blocks| && OnlyBlock(s, s', b) && x !in s.blocks[b].live
      && s'.blocks[b].live == s.blocks[b].live + {x} && s'.blocks[b].carved == x + 1
      && s'.blocks[b].free == s.blocks[b].free && s'.blocks[b].open == s.blocks[b].open
  {
    assert BlockOk(s, b);
    assert Places(s.blocks[b], s.blocks[b].carved) == 0;
    if s.blocks[b].free != [] {
      var x := s.blocks[b].free[0];
      assert multiset(s.blocks[b].free)[x] >= 1;
      assert Places(s.blocks[b], x) == if x < s.blocks[b].carved then 1 else 0;
    }
  }

  /** A block that belongs to nobody can be had, and an owner gets rid of one that is not in use. */
  lemma TakingOverTakesEffect(s: State, i: nat, b: nat, size: nat)
    requires Inv(s) && i < |s.owners| && b < |s.blocks|
    ensures s.blocks[b].owner.None? && size > 0 ==>
      var s' := Apply(s, Acquire(i, b, size));
      b < |s'.blocks| && Owns(s'.blocks[b], i) && s'.blocks[b].chunkSize == size && s'.blocks[b].carved == 0
    ensures Active(s, i, b) && s.blocks[b].count == 0 && s.blocks[b].open == [] ==>
      var s1, s2 := Apply(s, Return(i, b)), Apply(s, Restore(i, b));
      && b < |s1.blocks| && s1.blocks[b].owner.None?
      && b < |s2.blocks| && Owns(s2.blocks[b], i) && s2.blocks[b].carved == 0 && s2.blocks[b].free == []
  {
  }

  // ---------------------------------------------------------------- what is freed stays free

  predicate Restarts(a: Action, b: nat) {
    match a
    case Acquire(_, d, _) => d == b
    case Restore(_, d) => d == b
    case Return(_, d) => d == b
    case _ => false
  }

  /** Only handing it out brings a chunk to a client; and only starting a block over forgets one. */
  lemma OnlyHandedOut(s: State, a: Action, b: nat, c: nat)
    requires Inv(s) && b < |s.blocks|
    ensures |Apply(s, a).blocks| == |s.blocks|
    ensures var blk, blk' := s.blocks[b], Apply(s, a).blocks[b];
      && (c in blk'.live && c !in blk.live ==>
            (a.Reuse? && a.b == b && blk.free != [] && blk.free[0] == c) || (a.Carve? && a.b == b && c == blk.carved))
      && (!Restarts(a, b) ==> blk'.carved >= blk.carved)
  {
    hide BlockOk, BoxOk, FreerOk, Partition;
  }

  lemma {:induction false} CarvedStays(s: State, schedule: seq<Action>, b: nat)
    requires Inv(s) && b < |s.blocks| && forall k :: 0 <= k < |schedule| ==> !Restarts(schedule[k], b)
    ensures |Run(s, schedule).blocks| == |s.blocks| && Run(s, schedule).blocks[b].carved >= s.blocks[b].carved
    decreases |schedule|
  {
    if schedule != [] {
      var a := schedule[0];
      InvStep(s, a);
      OnlyHandedOut(s, a, b, 0);
      hide Inv, Apply;
      CarvedStays(Apply(s, a), schedule[1..], b);
    }
  }

  /** A chunk that was freed and, later, is with no client stands in exactly one of the lists of its
      block, as long as the block is not started over: no free is ever lost. */
  lemma FreedIsSomewhere(s: State, f: nat, b: nat, c: nat, schedule: seq<Action>)
    requires Inv(s) && f < |s.freers| && b < |s.blocks| && s.freers[f] == Elsewhere && c in s.blocks[b].live
    requires forall k :: 0 <= k < |schedule| ==> !Restarts(schedule[k], b)
    ensures Inv(Apply(s, FreeForeign(f, b, c)))
    ensures var t := Run(Apply(s, FreeForeign(f, b, c)), schedule);
      b < |t.blocks| && (c !in t.blocks[b].live ==> InLists(t.blocks[b], c) == 1)
  {
    ForeignFreeTakesEffect(s, f, b, c);
    var s1 := Apply(s, FreeForeign(f, b, c));
    CarvedStays(s1, schedule, b);
    var t := Run(s1, schedule);
    assert BlockOk(s, b) && BlockOk(t, b);
    assert Places(s.blocks[b], c) == if c < s.blocks[b].carved then 1 else 0;
    assert Places(t.blocks[b], c) == if c < t.blocks[b].carved then 1 else 0;
  }

  // ---------------------------------------------------------------- everything comes back

  /** A freeing thread goes on for two steps. */
  function Frees(n: nat): seq<Action> {
    if n == 0 then [] else Frees(n - 1) + [Freer(n - 1), Freer(n - 1)]
  }

  /** What freeing threads and an owner on their way leave alone: the chunks with clients, and who owns
      what. */
  ghost predicate SameClients(s: State, t: State) {
    && |t.blocks| == |s.blocks| && |t.owners| == |s.owners| && |t.freers| == |s.freers|
    && forall b :: 0 <= b < |s.blocks| ==> SameClientsOf(s.blocks[b], t.blocks[b])
  }

  predicate SameClientsOf(blk: Block, blk': Block) {
    blk'.live == blk.live && blk'.carved == blk.carved && blk'.owner == blk.owner
  }

  lemma SameClientsTrans(s: State, t: State, u: State)
    requires SameClients(s, t) && SameClients(t, u)
    ensures SameClients(s, u)
  {
    forall b | 0 <= b < |s.blocks| ensures SameClientsOf(s.blocks[b], u.blocks[b]) {
      assert SameClientsOf(s.blocks[b], t.blocks[b]) && SameClientsOf(t.blocks[b], u.blocks[b]);
    }
  }

  lemma FreerGoesOn(s: State, f: nat)
    requires Inv(s) && f < |s.freers|
    ensures var s' := Apply(s, Freer(f));
      && Inv(s') && SameClients(s, s') && s'.owners == s.owners
      && (s.freers[f] == Elsewhere || s.freers[f].Mailing? ==> s'.freers[f] == Elsewhere)
      && (s.freers[f].Pushed? ==> s'.freers[f].Mailing?)
      && (forall g :: 0 <= g < |s.freers| && g != f ==> s'.freers[g] == s.freers[g])
  {
    InvStep(s, Freer(f));
    assert FreerOk(s, f);
    if s.freers[f].Pushed? || s.freers[f].Mailing? { PushedSeesBin(s, f); }
    hide BlockOk, BoxOk, Partition;
  }

  lemma FreerSettles(s: State, f: nat)
    requires Inv(s) && f < |s.freers|
    ensures var t := Run(s, [Freer(f), Freer(f)]);
      && SameClients(s, t) && t.owners == s.owners && t.freers[f] == Elsewhere
      && (forall g :: 0 <= g < |s.freers| && g != f ==> t.freers[g] == s.freers[g])
  {
    FreerGoesOn(s, f);
    assert FreerOk(s, f);
    var s1 := Apply(s, Freer(f));
    FreerGoesOn(s1, f);
    var s2 := Apply(s1, Freer(f));
    assert [Freer(f), Freer(f)][1..] == [Freer(f)];
    hide Inv, Apply;
    assert Run(s1, [Freer(f)]) == Run(s2, []);
    SameClientsTrans(s, s1, s2);
  }

  /** After at most two steps of each freeing thread none is under way. */
  lemma {:induction false} FreersSettle(s: State, n: nat)
    requires Inv(s) && n <= |s.freers|
    ensures var t := Run(s, Frees(n));
      SameClients(s, t) && t.owners == s.owners && forall f :: 0 <= f < n ==> t.freers[f] == Elsewhere
  {
    hide Inv;
    if n > 0 {
      var f := n - 1;
      FreersSettle(s, f);
      var s1 := Run(s, Frees(f));
      RunConcat(s, Frees(f), [Freer(f), Freer(f)]);
      FreerSettles(s1, f);
      hide Run;
      SameClientsTrans(s, s1, Run(s1, [Freer(f), Freer(f)]));
    }
  }

  lemma OwnerGoesOn(s: State, i: nat)
    requires Inv(s) && i < |s.owners|
    ensures var s' := Apply(s, Privatize(i));
      && Inv(s') && SameClients(s, s') && s'.freers == s.freers
      && (s.owners[i].Popped? ==> s'.owners[i].Settling?)
      && (!s.owners[i].Popped? ==> s'.owners[i] == Working)
  {
    InvStep(s, Privatize(i));
    assert BoxOk(s, i);
    hide BlockOk, FreerOk, Partition;
  }

  lemma OpeningKeepsClients(s: State, i: nat)
    requires Inv(s) && i < |s.owners|
    ensures var s' := Apply(s, OpenMail(i));
      Inv(s') && SameClients(s, s') && s'.freers == s.freers
  {
    InvStep(s, OpenMail(i));
    hide BlockOk, FreerOk, Partition;
  }

  lemma OwnerSettles(s: State, i: nat)
    requires Inv(s) && i < |s.owners|
    ensures var t := Run(s, [Privatize(i), Privatize(i)]);
      SameClients(s, t) && t.freers == s.freers && t.owners[i] == Working
  {
    OwnerGoesOn(s, i);
    var s1 := Apply(s, Privatize(i));
    OwnerGoesOn(s1, i);
    var s2 := Apply(s1, Privatize(i));
    assert [Privatize(i), Privatize(i)][1..] == [Privatize(i)];
    hide Inv, Apply;
    assert Run(s1, [Privatize(i)]) == Run(s2, []);
    SameClientsTrans(s, s1, s2);
  }

  lemma RoundKeepsClients(s: State, i: nat)
    requires Inv(s) && i < |s.owners|
    ensures SameClients(s, Run(s, [OpenMail(i), Privatize(i), Privatize(i)]))
  {
    OpeningKeepsClients(s, i);
    var s1 := Apply(s, OpenMail(i));
    OwnerSettles(s1, i);
    assert [OpenMail(i), Privatize(i), Privatize(i)][1..] == [Privatize(i), Privatize(i)];
    hide Inv, Apply;
    SameClientsTrans(s, s1, Run(s1, [Privatize(i), Privatize(i)]));
  }

  lemma {:induction false} RoundsKeepClients(s: State, i: nat, n: nat)
    requires Inv(s) && i < |s.owners|
    ensures SameClients(s, Run(s, Rounds(i, n)))
    decreases n
  {
    hide Inv;
    if n > 0 {
      var round := [OpenMail(i), Privatize(i), Privatize(i)];
      RoundKeepsClients(s, i);
      RunConcat(s, round, Rounds(i, n - 1));
      RoundsKeepClients(Run(s, round), i, n - 1);
      hide Run;
      SameClientsTrans(s, Run(s, round), Run(Run(s, round), Rounds(i, n - 1)));
    }
  }

  /** What an owner and the freeing threads have to do: the frees under way, its own step under way, one
      pass over its mailbox. */
  ghost function ComeBack(s: State, i: nat): seq<Action>
    requires Inv(s) && i < |s.owners|
  {
    var settled := Frees(|s.freers|) + [Privatize(i), Privatize(i)];
    FreersSettle(s, |s.freers|);
    RunConcat(s, Frees(|s.freers|), [Privatize(i), Privatize(i)]);
    OwnerSettles(Run(s, Frees(|s.freers|)), i);
    settled + Rounds(i, |Run(s, settled).mail[i]|)
  }

  /** From any reached state: when the frees under way are through and the owner has gone once through
      its mailbox, every chunk of its blocks that is with no client is private again, and the clients
      have what they had. */
  lemma EverythingComesBack(s: State, i: nat, b: nat, c: nat)
    requires Inv(s) && i < |s.owners| && b < |s.blocks| && Owns(s.blocks[b], i)
    ensures var t := Run(s, ComeBack(s, i));
      && b < |t.blocks| && SameClientsOf(s.blocks[b], t.blocks[b]) && t.blocks[b].open == [] && t.blocks[b].taken == []
      && (c < t.blocks[b].carved && c !in t.blocks[b].live ==> multiset(t.blocks[b].free)[c] == 1)
  {
    var frees, two := Frees(|s.freers|), [Privatize(i), Privatize(i)];
    FreersSettle(s, |s.freers|);
    RunConcat(s, frees, two);
    var s1 := Run(s, frees);
    OwnerSettles(s1, i);
    var s2 := Run(s1, two);
    assert s2 == Run(s, frees + two);
    var rounds := Rounds(i, |s2.mail[i]|);
    RunConcat(s, frees + two, rounds);
    RoundsKeepClients(s2, i, |s2.mail[i]|);
    var t := Run(s2, rounds);
    SameClientsTrans(s, s1, s2);
    SameClientsTrans(s, s2, t);
    assert SameClientsOf(s.blocks[b], t.blocks[b]);
    assert Quiet(s2);
    OwnerCollectsEverything(s2, i, b);
    assert BlockOk(t, b);
    assert Places(t.blocks[b], c) == if c < t.blocks[b].carved then 1 else 0;
  }
}

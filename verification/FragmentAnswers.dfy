/** What a client of the fragment allocator has: the allocated blocks, and what each operation does to
    them. */
module FragmentAnswers {
  import opened FragmentBlocks
  import opened FragmentLayout

  /** The allocated blocks, by ascending offset. */
  function Lives(s: seq<Block>): seq<Block> {
    if s == [] then [] else (if s[0].free then [] else [s[0]]) + Lives(s[1..])
  }

  lemma {:induction false} LivesConcat(a: seq<Block>, b: seq<Block>)
    ensures Lives(a + b) == Lives(a) + Lives(b)
  {
    if a == [] {
      assert a + b == b;
    } else {
      assert (a + b)[1..] == a[1..] + b;
      LivesConcat(a[1..], b);
      Assoc(if a[0].free then [] else [a[0]], Lives(a[1..]), Lives(b));
    }
  }

  lemma Assoc(x: seq<Block>, y: seq<Block>, z: seq<Block>)
    ensures x + (y + z) == (x + y) + z
  {
  }

  lemma LivesOne(b: Block)
    ensures Lives([b]) == if b.free then [] else [b]
  {
    assert [b][1..] == [];
  }

  lemma LivesThree(a: seq<Block>, m: seq<Block>, c: seq<Block>)
    ensures Lives(a + m + c) == Lives(a) + Lives(m) + Lives(c)
  {
    LivesConcat(a + m, c);
    LivesConcat(a, m);
  }

  /** The allocated blocks other than the one in place i. */
  function Others(s: seq<Block>, i: nat): seq<Block>
    requires i < |s|
  {
    Lives(s[..i]) + Lives(s[i + 1..])
  }

  lemma WithAndWithout(s: seq<Block>, i: nat)
    requires i < |s|
    ensures Lives(s) == Lives(s[..i]) + (if s[i].free then [] else [s[i]]) + Lives(s[i + 1..])
    ensures s[i].free ==> Lives(s) == Others(s, i)
  {
    hide *;
    AllotParts(s, i);
    LivesAround(s[..i], s[i], s[i + 1..]);
    NoneBetween(Lives(s[..i]), Lives(s[i + 1..]));
    OthersAre(s, i);
  }

  lemma LivesAround(a: seq<Block>, b: Block, c: seq<Block>)
    ensures Lives(a + [b] + c) == Lives(a) + (if b.free then [] else [b]) + Lives(c)
  {
    LivesOne(b);
    LivesThree(a, [b], c);
  }

  lemma NoneBetween(x: seq<Block>, y: seq<Block>)
    ensures x + [] + y == x + y
  {
  }

  lemma OthersAre(s: seq<Block>, i: nat)
    requires i < |s|
    ensures Others(s, i) == Lives(s[..i]) + Lives(s[i + 1..])
  {
  }

  /** A request adds one allocated block, of exactly the size and reference asked for, at the start of
      a free one that could hold it; all others are as they were. */
  lemma AllotAdds(s: seq<Block>, i: nat, size: nat, id: nat, ref: nat)
    requires i < |s| && Fits(s[i], size)
    ensures Lives(s) == Others(s, i)
    ensures var block := Block(id, false, s[i].offset, size, ref);
      Lives(Allot(s, i, size, id, ref)) == Lives(s[..i]) + [block] + Lives(s[i + 1..])
  {
    var block := Taken(s[i], size, id, ref);
    TakenLives(s[i], size, id, ref);
    hide Lives, Rest;
    WithAndWithout(s, i);
    LivesThree(s[..i], [block] + Rest(s[i], size), s[i + 1..]);
  }

  lemma TakenLives(b: Block, size: nat, id: nat, ref: nat)
    requires Fits(b, size)
    ensures Lives([Taken(b, size, id, ref)] + Rest(b, size)) == [Taken(b, size, id, ref)]
  {
    var block, rest := Taken(b, size, id, ref), Rest(b, size);
    LivesConcat([block], rest);
    LivesOne(block);
    if rest != [] { LivesOne(rest[0]); }
  }

  /** Giving a block back takes exactly that one from the allocated blocks, in each of the four cases. */
  lemma ReleaseTakes(s: seq<Block>, i: nat)
    requires i < |s| && !s[i].free
    ensures Lives(Release(s, i)) == Others(s, i)
    ensures Lives(s) == Lives(s[..i]) + [s[i]] + Lives(s[i + 1..])
  {
    MergedIsFree(s, i);
    OutsideMerged(s, i);
    hide *;
    ReleaseParts(s, i);
    LivesThree(s[..ReleaseFrom(s, i)], [Merged(s, i)], s[ReleaseTo(s, i)..]);
    WithAndWithout(s, i);
  }

  lemma MergedIsFree(s: seq<Block>, i: nat)
    requires i < |s|
    ensures Lives([Merged(s, i)]) == []
  {
    LivesOne(Merged(s, i));
  }

  lemma OutsideMerged(s: seq<Block>, i: nat)
    requires i < |s|
    ensures ReleaseFrom(s, i) <= i < ReleaseTo(s, i) <= |s|
    ensures Lives(s[..ReleaseFrom(s, i)]) + [] + Lives(s[ReleaseTo(s, i)..]) == Others(s, i)
  {
    NeighboursAreFree(s, i);
    var from, to := ReleaseFrom(s, i), ReleaseTo(s, i);
    assert from <= i < to <= |s|;
    hide Lives, ReleaseFrom, ReleaseTo;
    assert s[..i] == s[..from] + s[from..i] && s[i + 1..] == s[i + 1..to] + s[to..];
    LivesConcat(s[..from], s[from..i]);
    LivesConcat(s[i + 1..to], s[to..]);
  }

  lemma NeighboursAreFree(s: seq<Block>, i: nat)
    requires i < |s|
    ensures Lives(s[ReleaseFrom(s, i)..i]) == [] && Lives(s[i + 1..ReleaseTo(s, i)]) == []
  {
    if LeftFree(s, i) {
      assert s[ReleaseFrom(s, i)..i] == [s[i - 1]];
      LivesOne(s[i - 1]);
    }
    if RightFree(s, i) {
      assert s[i + 1..ReleaseTo(s, i)] == [s[i + 1]];
      LivesOne(s[i + 1]);
    }
  }

  /** Compaction keeps every allocated block, in the same order, and moves each to the sum of the sizes
      of those before it. */
  lemma CompactedLives(s: seq<Block>, id: nat, k: nat)
    ensures |Lives(Compacted(s, id))| == |Lives(s)|
    ensures k < |Lives(s)| ==>
      Lives(Compacted(s, id))[k] == Lives(s)[k].(offset := Total(Lives(s)[..k]))
  {
    RemainderIsFree(s, id);
    hide Remainder;
    LivesConcat(Packed(s, 0), Remainder(s, id));
    PackedLives(s, 0, k);
  }

  lemma RemainderIsFree(s: seq<Block>, id: nat)
    ensures Lives(Remainder(s, id)) == []
  {
    if Remainder(s, id) != [] { LivesOne(Remainder(s, id)[0]); }
  }

  /** Block k of y is block k of x, moved to the sum of the sizes of those before it. */
  ghost predicate MovedDown(x: seq<Block>, y: seq<Block>, from: nat, k: nat) {
    |y| == |x| && (k < |x| ==> y[k] == x[k].(offset := from + Total(x[..k])))
  }

  lemma {:induction false} PackedLives(s: seq<Block>, from: nat, k: nat)
    ensures MovedDown(Lives(s), Lives(Packed(s, from)), from, k)
    decreases |s|
  {
    if s != [] {
      PackedFirst(s, from);
      var j := if k > 0 then k - 1 else 0;
      hide *;
      if s[0].free {
        PackedLives(s[1..], from, k);
      } else {
        PackedLives(s[1..], from + s[0].size, j);
        OneMore(s[0], Lives(s[1..]), Lives(Packed(s[1..], from + s[0].size)), from, k);
      }
    }
  }

  lemma PackedFirst(s: seq<Block>, from: nat)
    requires s != []
    ensures !s[0].free ==> Lives(s) == [s[0]] + Lives(s[1..])
    ensures !s[0].free ==>
      Lives(Packed(s, from)) == [s[0].(offset := from)] + Lives(Packed(s[1..], from + s[0].size))
    ensures s[0].free ==> Lives(s) == Lives(s[1..]) && Packed(s, from) == Packed(s[1..], from)
  {
    if s[0].free {
      assert [] + Lives(s[1..]) == Lives(s[1..]);
    } else {
      assert Packed(s, from)[1..] == Packed(s[1..], from + s[0].size);
    }
  }

  lemma OneMore(t: Block, x: seq<Block>, y: seq<Block>, from: nat, k: nat)
    requires MovedDown(x, y, from + t.size, if k > 0 then k - 1 else 0)
    ensures MovedDown([t] + x, [t.(offset := from)] + y, from, k)
  {
    if 0 < k <= |x| {
      TotalFirst(t, x, k);
      assert ([t] + x)[k] == x[k - 1] && ([t.(offset := from)] + y)[k] == y[k - 1];
    }
  }

  lemma TotalFirst(t: Block, rest: seq<Block>, k: nat)
    requires 0 < k <= |rest|
    ensures Total(([t] + rest)[..k]) == t.size + Total(rest[..k - 1])
  {
    assert ([t] + rest)[..k][1..] == rest[..k - 1];
  }
}

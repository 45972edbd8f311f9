/** Which bin of the scalable allocator serves a request. */
module BinTable {

  ghost predicate Ascending(bins: seq<nat>) {
    forall i, j :: 0 <= i < j < |bins| ==> bins[i] <= bins[j]
  }

  /** The decision tree over `width` bins from `low` on, written out in the source down to pairs.
      A node goes left if the table ends before its right half, or by size. */
  function Descend(bins: seq<nat>, low: nat, width: nat, size: nat): nat
    requires low < |bins| && width in {2, 4, 8, 16, 32}
    decreases width
  {
    if width == 2 then (if size <= bins[low] then low else low + 1)
    else
      var half := width / 2;
      if |bins| < low + half + 1 || size <= bins[low + half - 1] then Descend(bins, low, half, size)
      else Descend(bins, low + half, half, size)
  }

  function Index(bins: seq<nat>, size: nat): nat
    requires 1 <= |bins| <= 32
  {
    Descend(bins, 0, 32, size)
  }

  /** Requests of this size and above are served as large chunks. */
  function MinLarge(bins: seq<nat>): nat
    requires bins != []
  {
    bins[|bins| - 1] + 1
  }

  /** Bin k, in the range of the node, is large enough; all bins before the range are too small. */
  lemma {:induction false} DescendFinds(bins: seq<nat>, low: nat, width: nat, size: nat, k: nat)
    requires Ascending(bins) && low < |bins| && width in {2, 4, 8, 16, 32}
    requires forall j :: 0 <= j < low ==> bins[j] < size
    requires low <= k < |bins| && k < low + width && size <= bins[k]
    ensures var i := Descend(bins, low, width, size);
      i < |bins| && size <= bins[i] && forall j :: 0 <= j < i ==> bins[j] < size
    decreases width
  {
    if width > 2 {
      var half := width / 2;
      if |bins| < low + half + 1 {
        DescendFinds(bins, low, half, size, k);
      } else if size <= bins[low + half - 1] {
        DescendFinds(bins, low, half, size, low + half - 1);
      } else {
        assert forall j :: 0 <= j < low + half ==> bins[j] <= bins[low + half - 1];
        DescendFinds(bins, low + half, half, size, k);
      }
    }
  }

  /** For every ascending table of 1 to 32 bins and every small request the tree finds the first
      bin that is large enough. */
  lemma TreeFindsFirstFit(bins: seq<nat>, size: nat)
    requires 1 <= |bins| <= 32 && Ascending(bins) && size < MinLarge(bins)
    ensures var i := Index(bins, size);
      i < |bins| && size <= bins[i] && forall j :: 0 <= j < i ==> bins[j] < size
  {
    assert size <= bins[|bins| - 1] && |bins| - 1 < 0 + 32;
    DescendFinds(bins, 0, 32, size, |bins| - 1);
  }

  /** The table used when none is given. */
  const DEFAULT: seq<nat> := [8, 16, 32, 64, 80, 96, 112, 128, 160, 192, 224, 256, 320, 384, 448, 512, 640, 768, 896,
    1024, 1280, 1536, 1792, 2048, 2560, 3072, 3584, 4096, 5120, 6144, 7168, 8192]

  predicate StepUp(bins: seq<nat>, i: nat) {
    i + 1 < |bins| ==> bins[i] < bins[i + 1]
  }

  lemma {:induction false} StepsAscend(bins: seq<nat>, i: nat, j: nat)
    requires (forall k: nat :: StepUp(bins, k)) && i <= j < |bins|
    ensures bins[i] <= bins[j]
    decreases j - i
  {
    if i < j {
      StepsAscend(bins, i, j - 1);
      assert StepUp(bins, j - 1);
    }
  }

  predicate QuarterStep(bins: seq<nat>, i: nat) {
    4 <= i < |bins| ==> 4 * bins[i] <= 5 * bins[i - 1]
  }

  /** In a table that grows by at most a quarter from bin 4 on, a request larger than bin 3 wastes
      less than a quarter of its size. */
  lemma SmallWaste(bins: seq<nat>, size: nat)
    requires 4 <= |bins| <= 32 && Ascending(bins) && bins[3] < size < MinLarge(bins)
    requires forall k: nat :: QuarterStep(bins, k)
    ensures Index(bins, size) < |bins| && 4 * bins[Index(bins, size)] < 5 * size
  {
    TreeFindsFirstFit(bins, size);
    assert QuarterStep(bins, Index(bins, size));
  }

  lemma DefaultTable()
    ensures |DEFAULT| == 32 && Ascending(DEFAULT) && DEFAULT[3] == 64 && MinLarge(DEFAULT) == 8193
    ensures forall k: nat :: QuarterStep(DEFAULT, k)
  {
    assert forall k: nat :: StepUp(DEFAULT, k);
    forall i, j | 0 <= i < j < |DEFAULT| ensures DEFAULT[i] <= DEFAULT[j] {
      StepsAscend(DEFAULT, i, j);
    }
  }
}

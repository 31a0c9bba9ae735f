/**
 * The bookkeeping behind the two pruning commands. Both remove entries one at a time,
 * highest first, and renumber the references above each removed entry. A ghost map
 * `where` follows every original index to its current one; the step lemmas show that
 * a single removal keeps the map exact, so that after the last removal every reference
 * still denotes the entry it denoted before.
 */
module Pruning {
  import opened Common
  import opened Tracker
  import opened Usage

  ghost predicate Decreasing(d: seq<int>)
  {
    forall a, b :: 0 <= a < b < |d| ==> d[a] > d[b]
  }

  /** `Vec::reverse`. */
  function Reverse(s: seq<u8>): (r: seq<u8>)
    ensures |r| == |s|
    ensures forall k :: 0 <= k < |s| ==> r[k] == s[|s| - 1 - k]
  {
    seq(|s|, k requires 0 <= k < |s| => s[|s| - 1 - k])
  }

  /** `Vec::remove`: the sequence without its entry at `i`. */
  function RemoveAt<T>(s: seq<T>, i: nat): (r: seq<T>)
    requires i < |s|
    ensures |r| == |s| - 1
    ensures forall k :: 0 <= k < i ==> r[k] == s[k]
    ensures forall k :: i <= k < |r| ==> r[k] == s[k + 1]
  {
    s[..i] + s[i + 1..]
  }

  // ---------------------------------------------------------------------------------
  // Patterns
  // ---------------------------------------------------------------------------------

  /** The play-order pass after removing pattern `i`: active entries above `i` move down by one. */
  function ShiftDown(pos: seq<u8>, L: nat, i: nat): (r: seq<u8>)
    ensures |r| == |pos|
    ensures forall j :: 0 <= j < |pos| ==> r[j] as int == if j < L && pos[j] > i then pos[j] - 1 else pos[j]
  {
    seq(|pos|, j requires 0 <= j < |pos| => if j < L && pos[j] > i then pos[j] - 1 else pos[j])
  }

  /** The map `where` after the entry currently at `i`, which is original entry `i`, is removed. */
  function NextWhere(where: seq<int>, i: nat): (r: seq<int>)
    ensures |r| == |where|
    ensures forall x :: 0 <= x < |where| ==>
              r[x] == if x == i then -1 else if where[x] > i then where[x] - 1 else where[x]
  {
    seq(|where|, x requires 0 <= x < |where| => if x == i then -1 else if where[x] > i then where[x] - 1 else where[x])
  }

  /** The removal list: strictly descending, below the pattern count, and never played. */
  ghost predicate PatternDropList(D: seq<u8>, N: nat, A0: seq<u8>, L: nat)
  {
    && Decreasing(D)
    && L <= |A0|
    && (forall t :: 0 <= t < |D| ==> D[t] < N && D[t] !in A0[..L])
  }

  /**
   * After the first `k` removals of `D` from the original patterns `P0`: original pattern
   * `x` is gone exactly when it was removed, and otherwise sits at `where[x]`; entries
   * below the last removed index have not moved; `where` keeps the original order; and
   * every current index is `where` of some original one, namely `inv` of it.
   */
  ghost predicate PatternsTracked(P0: seq<Pattern>, D: seq<u8>, k: nat, pats: seq<Pattern>, where: seq<int>, inv: seq<int>)
  {
    var N := |P0|;
    && k <= |D| && |where| == N && |pats| + k == N && |inv| == |pats|
    && (forall x :: 0 <= x < N ==> (where[x] < 0 <==> x in D[..k]))
    && (forall x :: 0 <= x < N && where[x] >= 0 ==> where[x] < |pats| && pats[where[x]] == P0[x])
    && (forall x :: 0 <= x < N && (k == 0 || x < D[k - 1]) ==> where[x] == x)
    && (forall x, y :: 0 <= x < y < N && where[x] >= 0 && where[y] >= 0 ==> where[x] < where[y])
    && (forall y :: 0 <= y < |pats| ==> 0 <= inv[y] < N && where[inv[y]] == y)
  }

  /**
   * The play order after `k` removals: an active entry that named an existing pattern
   * names where that pattern is now, an active entry beyond the table has dropped by
   * `k`, and the inactive tail is untouched.
   */
  ghost predicate PositionsTracked(A0: seq<u8>, L: nat, k: nat, pos: seq<u8>, where: seq<int>)
  {
    && L <= |A0| == |pos|
    && (forall j :: 0 <= j < L && A0[j] < |where| ==> pos[j] as int == where[A0[j]])
    && (forall j :: 0 <= j < L && A0[j] >= |where| ==> pos[j] as int == A0[j] - k)
    && (forall j :: L <= j < |pos| ==> pos[j] == A0[j])
  }

  lemma PatternsTrackedInit(P0: seq<Pattern>, D: seq<u8>, A0: seq<u8>, L: nat)
    requires L <= |A0|
    ensures PatternsTracked(P0, D, 0, P0, seq(|P0|, x => x), seq(|P0|, x => x))
    ensures PositionsTracked(A0, L, 0, A0, seq(|P0|, x => x))
  {
  }

  /** The next pattern to remove is still where it started, and within the table. */
  lemma NextDropInPlace(P0: seq<Pattern>, D: seq<u8>, k: nat, pats: seq<Pattern>, where: seq<int>, inv: seq<int>, A0: seq<u8>, L: nat)
    requires PatternDropList(D, |P0|, A0, L)
    requires PatternsTracked(P0, D, k, pats, where, inv)
    requires k < |D|
    ensures where[D[k]] == D[k] < |pats|
  {
    var i := D[k];
    assert k > 0 ==> D[k - 1] > i;
    assert where[i] == i;
    forall t | 0 <= t < k
      ensures D[t] != i
    {
      assert D[t] > D[k];
    }
  }

  /** One removal keeps every surviving pattern reachable through the next map. */
  lemma ContentsStep(P0: seq<Pattern>, D: seq<u8>, k: nat, pats: seq<Pattern>, where: seq<int>, inv: seq<int>, A0: seq<u8>, L: nat)
    requires PatternDropList(D, |P0|, A0, L)
    requires PatternsTracked(P0, D, k, pats, where, inv)
    requires k < |D|
    requires where[D[k]] == D[k] < |pats|
    ensures var pats', where' := RemoveAt(pats, D[k]), NextWhere(where, D[k]);
            forall x :: 0 <= x < |P0| && where'[x] >= 0 ==> where'[x] < |pats'| && pats'[where'[x]] == P0[x]
  {
    var i := D[k];
    var pats', where' := RemoveAt(pats, i), NextWhere(where, i);
    forall x | 0 <= x < |P0| && where'[x] >= 0
      ensures where'[x] < |pats'| && pats'[where'[x]] == P0[x]
    {
      assert x != i;
      assert x < i ==> where[x] < where[i];
      assert x > i ==> where[x] > where[i];
    }
  }

  /** One removal keeps every current index the image of an original one. */
  lemma InverseStep(P0: seq<Pattern>, D: seq<u8>, k: nat, pats: seq<Pattern>, where: seq<int>, inv: seq<int>)
    requires PatternsTracked(P0, D, k, pats, where, inv)
    requires k < |D|
    requires D[k] as int < |P0| && where[D[k]] == D[k] < |pats|
    ensures var where', inv' := NextWhere(where, D[k]), RemoveAt(inv, D[k]);
            forall y :: 0 <= y < |pats| - 1 ==> 0 <= inv'[y] < |P0| && where'[inv'[y]] == y
  {
    var i := D[k];
    var where', inv' := NextWhere(where, i), RemoveAt(inv, i);
    forall y | 0 <= y < |pats| - 1
      ensures 0 <= inv'[y] < |P0| && where'[inv'[y]] == y
    {
      if y < i {
        assert inv'[y] == inv[y];
        assert where[inv[y]] == y;
      } else {
        assert inv'[y] == inv[y + 1];
        assert where[inv[y + 1]] == y + 1;
      }
    }
  }

  /** One removal keeps the pattern map exact. */
  lemma PatternStep(P0: seq<Pattern>, D: seq<u8>, k: nat, pats: seq<Pattern>, where: seq<int>, inv: seq<int>, A0: seq<u8>, L: nat)
    requires PatternDropList(D, |P0|, A0, L)
    requires PatternsTracked(P0, D, k, pats, where, inv)
    requires k < |D|
    ensures D[k] < |pats|
    ensures PatternsTracked(P0, D, k + 1, RemoveAt(pats, D[k]), NextWhere(where, D[k]), RemoveAt(inv, D[k]))
  {
    var i := D[k];
    NextDropInPlace(P0, D, k, pats, where, inv, A0, L);
    var where' := NextWhere(where, i);
    assert D[..k + 1] == D[..k] + [i];
    ContentsStep(P0, D, k, pats, where, inv, A0, L);
    InverseStep(P0, D, k, pats, where, inv);
    forall x | 0 <= x < |P0| && x < D[k]
      ensures where'[x] == x
    {
      assert k > 0 ==> D[k - 1] > D[k];
    }
  }

  /** One removal keeps the play order tracking the pattern map. */
  lemma PositionsStep(P0: seq<Pattern>, D: seq<u8>, k: nat, pats: seq<Pattern>, where: seq<int>, inv: seq<int>, A0: seq<u8>, L: nat, pos: seq<u8>)
    requires PatternDropList(D, |P0|, A0, L)
    requires PatternsTracked(P0, D, k, pats, where, inv)
    requires PositionsTracked(A0, L, k, pos, where)
    requires k < |D|
    requires D[k] < |pats|
    ensures PositionsTracked(A0, L, k + 1, ShiftDown(pos, L, D[k]), NextWhere(where, D[k]))
  {
    var i := D[k];
    var where' := NextWhere(where, i);
    var pos' := ShiftDown(pos, L, i);
    forall j | 0 <= j < L && A0[j] < |where|
      ensures pos'[j] as int == where'[A0[j]]
    {
      assert A0[j] in A0[..L];
      assert A0[j] != i;
    }
  }

  /** The loop state of `remove_unused_patterns` after `k` removals. */
  ghost predicate PruneState(P0: seq<Pattern>, A0: seq<u8>, L: nat, D: seq<u8>, k: nat,
                             pats: seq<Pattern>, pos: seq<u8>, where: seq<int>, inv: seq<int>)
  {
    Both(PatternDropList(D, |P0|, A0, L), Both(PatternsTracked(P0, D, k, pats, where, inv), PositionsTracked(A0, L, k, pos, where)))
  }

  /** One iteration: remove pattern `D[k]` and shift the play order. */
  lemma PruneStep(P0: seq<Pattern>, A0: seq<u8>, L: nat, D: seq<u8>, k: nat,
                  pats: seq<Pattern>, pos: seq<u8>, where: seq<int>, inv: seq<int>)
    requires PruneState(P0, A0, L, D, k, pats, pos, where, inv)
    requires k < |D|
    ensures D[k] < |pats|
    ensures PruneState(P0, A0, L, D, k + 1, RemoveAt(pats, D[k]), ShiftDown(pos, L, D[k]),
                       NextWhere(where, D[k]), RemoveAt(inv, D[k]))
  {
    PatternStep(P0, D, k, pats, where, inv, A0, L);
    PositionsStep(P0, D, k, pats, where, inv, A0, L, pos);
  }

  lemma ReverseMembership(s: seq<u8>)
    ensures forall x :: x in Reverse(s) <==> x in s
  {
    var r := Reverse(s);
    forall x
      ensures x in r <==> x in s
    {
      if x in r {
        var t :| 0 <= t < |r| && r[t] == x;
        assert s[|s| - 1 - t] == x;
      }
      if x in s {
        var t :| 0 <= t < |s| && s[t] == x;
        assert r[|s| - 1 - t] == x;
      }
    }
  }

  lemma ReverseDecreasing(s: seq<u8>)
    requires StrictlyIncreasing(s)
    ensures Decreasing(Reverse(s))
  {
    var r := Reverse(s);
    forall a, b | 0 <= a < b < |r|
      ensures r[a] > r[b]
    {
      assert s[|s| - 1 - a] > s[|s| - 1 - b];
    }
  }

  /** The unused list of `remove_unused_patterns`, reversed, is a valid removal list. */
  lemma UnusedDropList(A0: seq<u8>, L: nat, N: nat)
    requires L <= |A0|
    ensures var U := FindUnusedPatterns(A0[..L], N);
            && PatternDropList(Reverse(U), N, A0, L)
            && (forall x :: x in Reverse(U) <==> x in U)
  {
    var U := FindUnusedPatterns(A0[..L], N);
    ReverseMembership(U);
    ReverseDecreasing(U);
    var D := Reverse(U);
    forall t | 0 <= t < |D|
      ensures D[t] as int < N && D[t] !in A0[..L]
    {
      assert D[t] in U;
    }
  }

  /**
   * After the last removal: every active entry that named a pattern names the same
   * contents, and entries keep their relative order.
   */
  lemma EntriesFollow(P0: seq<Pattern>, D: seq<u8>, pats: seq<Pattern>, where: seq<int>, inv: seq<int>, A0: seq<u8>, L: nat, pos: seq<u8>)
    requires PatternDropList(D, |P0|, A0, L)
    requires PatternsTracked(P0, D, |D|, pats, where, inv)
    requires PositionsTracked(A0, L, |D|, pos, where)
    ensures forall j :: 0 <= j < L && A0[j] as int < |P0| ==> pos[j] as int < |pats| && pats[pos[j]] == P0[A0[j]]
    ensures forall j1, j2 :: 0 <= j1 < L && 0 <= j2 < L && A0[j1] < A0[j2] ==> pos[j1] < pos[j2]
  {
    assert D[..|D|] == D;
    forall j | 0 <= j < L && A0[j] as int < |P0|
      ensures pos[j] as int < |pats| && pats[pos[j]] == P0[A0[j]]
    {
      assert A0[j] in A0[..L];
    }
    forall j1, j2 | 0 <= j1 < L && 0 <= j2 < L && A0[j1] < A0[j2]
      ensures pos[j1] < pos[j2]
    {
      assert A0[j1] in A0[..L] && A0[j2] in A0[..L];
    }
  }

  /**
   * Once every listed pattern is removed, and the list held every pattern the play order
   * missed, each remaining pattern is named by some active entry.
   */
  lemma EveryPatternPlayed(P0: seq<Pattern>, D: seq<u8>, pats: seq<Pattern>, where: seq<int>, inv: seq<int>, A0: seq<u8>, L: nat, pos: seq<u8>)
    requires PatternsTracked(P0, D, |D|, pats, where, inv)
    requires PositionsTracked(A0, L, |D|, pos, where)
    requires forall x :: 0 <= x < |P0| && x !in D ==> x in A0[..L]
    ensures forall y :: 0 <= y < |pats| ==> y in pos[..L]
  {
    assert D[..|D|] == D;
    forall y | 0 <= y < |pats|
      ensures y in pos[..L]
    {
      var x := inv[y];
      assert x in A0[..L];
      var j :| 0 <= j < L && A0[j] == x;
      assert pos[j] as int == y;
    }
  }

  /**
   * With fewer than 256 patterns, so that the index range did not wrap, pruning leaves
   * no unused pattern behind.
   */
  lemma NothingLeftUnused(P0: seq<Pattern>, D: seq<u8>, pats: seq<Pattern>, where: seq<int>, inv: seq<int>, A0: seq<u8>, L: nat, pos: seq<u8>)
    requires |P0| < 0x100 && L <= |A0|
    requires D == Reverse(FindUnusedPatterns(A0[..L], |P0|))
    requires PatternsTracked(P0, D, |D|, pats, where, inv)
    requires PositionsTracked(A0, L, |D|, pos, where)
    ensures FindUnusedPatterns(pos[..L], |pats|) == []
  {
    ReverseMembership(FindUnusedPatterns(A0[..L], |P0|));
    EveryPatternPlayed(P0, D, pats, where, inv, A0, L, pos);
    NoUnusedPatterns(pos[..L], |pats|);
  }

  /**
   * `pats` is `P0` with the patterns at the indices in `U` taken out, the rest kept in
   * their original order: `kept` lists, ascending, the original index of each survivor,
   * and names every index not in `U`.
   */
  ghost predicate KeptInOrder(P0: seq<Pattern>, U: seq<u8>, pats: seq<Pattern>, kept: seq<int>)
  {
    && |kept| == |pats|
    && (forall y :: 0 <= y < |kept| ==> 0 <= kept[y] < |P0| && kept[y] !in U && pats[y] == P0[kept[y]])
    && StrictlyIncreasing(kept)
    && (forall x :: 0 <= x < |P0| && x !in U ==> x in kept)
  }

  /** Every active entry that named pattern `x` now names the survivor `kept` maps to `x`. */
  ghost predicate EntriesRenamed(N: nat, A0: seq<u8>, L: nat, pos: seq<u8>, kept: seq<int>)
  {
    && L <= |A0| == |pos|
    && forall j :: 0 <= j < L && A0[j] as int < N ==> pos[j] as int < |kept| && kept[pos[j]] == A0[j] as int
  }

  /** Once every listed pattern is removed, `inv` lists the survivors in their old order. */
  lemma SurvivorsKept(P0: seq<Pattern>, U: seq<u8>, D: seq<u8>, pats: seq<Pattern>, where: seq<int>, inv: seq<int>,
                      A0: seq<u8>, L: nat, pos: seq<u8>)
    requires D == Reverse(U)
    requires PatternDropList(D, |P0|, A0, L)
    requires PatternsTracked(P0, D, |D|, pats, where, inv)
    requires PositionsTracked(A0, L, |D|, pos, where)
    ensures KeptInOrder(P0, U, pats, inv)
    ensures EntriesRenamed(|P0|, A0, L, pos, inv)
  {
    assert D[..|D|] == D;
    ReverseMembership(U);
    forall y | 0 <= y < |inv|
      ensures 0 <= inv[y] < |P0| && inv[y] !in U && pats[y] == P0[inv[y]]
    {
      assert where[inv[y]] == y;
    }
    forall y1, y2 | 0 <= y1 < y2 < |inv|
      ensures inv[y1] < inv[y2]
    {
      assert where[inv[y1]] == y1 && where[inv[y2]] == y2;
    }
    forall x | 0 <= x < |P0| && x !in U
      ensures x in inv
    {
      var y := where[x];
      assert 0 <= y < |inv| && where[inv[y]] == y;
      assert inv[y] == x;
    }
    forall j | 0 <= j < L && A0[j] as int < |P0|
      ensures pos[j] as int < |inv| && inv[pos[j]] == A0[j] as int
    {
      assert A0[j] in A0[..L];
      var y := where[A0[j]];
      assert 0 <= y < |inv| && where[inv[y]] == y;
    }
  }

  /**
   * What `remove_unused_patterns` promises for patterns `P0` and play order `A0` (the
   * first `L` entries active), with `pats` and `pos` the result: the patterns the scan
   * reports unused are gone and the rest are kept, in order; every active entry that
   * named a pattern names that pattern's new index, so it finds the same contents, and
   * the order between entries is kept; an entry beyond the table drops by the number
   * removed; the inactive tail is untouched; and, when the index range did not wrap, no
   * unused pattern remains.
   */
  ghost predicate PatternsPruned(P0: seq<Pattern>, A0: seq<u8>, L: nat, pats: seq<Pattern>, pos: seq<u8>)
  {
    && L <= |A0| == |pos|
    && var U := FindUnusedPatterns(A0[..L], |P0|);
    && |pats| == |P0| - |U|
    && (exists kept :: KeptInOrder(P0, U, pats, kept) && EntriesRenamed(|P0|, A0, L, pos, kept))
    && (forall j :: 0 <= j < L && A0[j] as int < |P0| ==> pos[j] as int < |pats| && pats[pos[j]] == P0[A0[j]])
    && (forall j1, j2 :: 0 <= j1 < L && 0 <= j2 < L && A0[j1] < A0[j2] ==> pos[j1] < pos[j2])
    && (forall j :: 0 <= j < L && A0[j] as int >= |P0| ==> pos[j] as int == A0[j] as int - |U|)
    && (forall j :: L <= j < |pos| ==> pos[j] == A0[j])
    && (|P0| < 0x100 ==> FindUnusedPatterns(pos[..L], |pats|) == [])
  }

  /** The loop's final state is the promised outcome. */
  lemma PruneResult(P0: seq<Pattern>, A0: seq<u8>, L: nat, D: seq<u8>,
                    pats: seq<Pattern>, pos: seq<u8>, where: seq<int>, inv: seq<int>)
    requires L <= |A0|
    requires D == Reverse(FindUnusedPatterns(A0[..L], |P0|))
    requires PruneState(P0, A0, L, D, |D|, pats, pos, where, inv)
    ensures PatternsPruned(P0, A0, L, pats, pos)
  {
    EntriesFollow(P0, D, pats, where, inv, A0, L, pos);
    SurvivorsKept(P0, FindUnusedPatterns(A0[..L], |P0|), D, pats, where, inv, A0, L, pos);
    if |P0| < 0x100 {
      NothingLeftUnused(P0, D, pats, where, inv, A0, L, pos);
    }
  }

  /** An ascending list of `|kept|` indices below `N` skips at most `N - |kept|` of them. */
  lemma {:induction false} AscendingBounds(kept: seq<int>, N: nat, y: nat)
    requires forall t :: 0 <= t < |kept| ==> 0 <= kept[t] < N
    requires StrictlyIncreasing(kept)
    requires y < |kept|
    ensures y <= kept[y] <= N - |kept| + y
  {
    AscendingFloor(kept, y);
    AscendingCeiling(kept, N, y);
  }

  lemma {:induction false} AscendingFloor(kept: seq<int>, y: nat)
    requires forall t :: 0 <= t < |kept| ==> 0 <= kept[t]
    requires StrictlyIncreasing(kept)
    requires y < |kept|
    ensures y <= kept[y]
  {
    if y > 0 {
      AscendingFloor(kept, y - 1);
    }
  }

  lemma {:induction false} AscendingCeiling(kept: seq<int>, N: nat, y: nat)
    requires forall t :: 0 <= t < |kept| ==> kept[t] < N
    requires StrictlyIncreasing(kept)
    requires y < |kept|
    ensures kept[y] <= N - |kept| + y
    decreases |kept| - y
  {
    if y + 1 < |kept| {
      AscendingCeiling(kept, N, y + 1);
    }
  }

  /**
   * When the scan reports nothing unused, pruning changes nothing: the patterns and the
   * whole play order come back as they were.
   */
  lemma NothingReportedNothingChanged(P0: seq<Pattern>, A0: seq<u8>, L: nat, pats: seq<Pattern>, pos: seq<u8>)
    requires PatternsPruned(P0, A0, L, pats, pos)
    requires FindUnusedPatterns(A0[..L], |P0|) == []
    ensures pats == P0
    ensures pos == A0
  {
    var U := FindUnusedPatterns(A0[..L], |P0|);
    var kept :| KeptInOrder(P0, U, pats, kept) && EntriesRenamed(|P0|, A0, L, pos, kept);
    forall y | 0 <= y < |kept|
      ensures kept[y] == y
    {
      AscendingBounds(kept, |P0|, y);
    }
    forall j | 0 <= j < |pos|
      ensures pos[j] == A0[j]
    {
      if j < L && A0[j] as int < |P0| {
        assert kept[pos[j]] == pos[j] as int;
      }
    }
  }

  /**
   * With 256 patterns or more, the scan's index range wraps: every pattern from
   * `|P0| % 256` on survives, played or not.
   */
  lemma WrappedRangeSurvives(P0: seq<Pattern>, A0: seq<u8>, L: nat, pats: seq<Pattern>, pos: seq<u8>, x: nat)
    requires PatternsPruned(P0, A0, L, pats, pos)
    requires |P0| % 0x100 <= x < |P0|
    ensures P0[x] in pats
  {
    var U := FindUnusedPatterns(A0[..L], |P0|);
    var kept :| KeptInOrder(P0, U, pats, kept) && EntriesRenamed(|P0|, A0, L, pos, kept);
    assert x !in U;
    var y :| 0 <= y < |kept| && kept[y] == x;
    assert pats[y] == P0[x];
  }

  // ---------------------------------------------------------------------------------
  // Samples
  // ---------------------------------------------------------------------------------

  /** A removed sample's record: kept with its name, finetune and volume, but emptied. */
  function Cleared(si: SampleInfo): (r: SampleInfo)
    ensures r.name == si.name && r.finetune == si.finetune && r.volume == si.volume
    ensures r.length == 0 && r.repeatStart == 0 && r.repeatLength == 0 && r.data == []
  {
    si.(length := 0, repeatStart := 0, repeatLength := 0, data := [])
  }

  /** The table pass for removing sample number `i`: its record moves, cleared, to the end. */
  function Recycle(sis: seq<SampleInfo>, i: nat): (r: seq<SampleInfo>)
    requires 1 <= i <= |sis|
    ensures |r| == |sis|
    ensures forall k :: 0 <= k < i - 1 ==> r[k] == sis[k]
    ensures forall k :: i - 1 <= k < |sis| - 1 ==> r[k] == sis[k + 1]
    ensures r[|sis| - 1] == Cleared(sis[i - 1])
  {
    RemoveAt(sis, i - 1) + [Cleared(sis[i - 1])]
  }

  /** The cell pass for removing sample number `i`: a reference above `i` moves down by one. */
  function DecrementSample(ch: Channel, i: nat): (r: Channel)
    ensures r.period == ch.period && r.effect == ch.effect
    ensures ch.sampleNumber as int > i ==> r.sampleNumber as int == ch.sampleNumber as int - 1 >= i
    ensures ch.sampleNumber as int <= i ==> r == ch
  {
    if ch.sampleNumber > i then ch.(sampleNumber := ch.sampleNumber - 1) else ch
  }

  /** The cell rewrite as a value, for the traversal that applies it to a whole pattern. */
  function Decrement(i: nat): Channel -> Channel
  {
    ch => DecrementSample(ch, i)
  }

  /** `pats'` has the shape of `pats`, with every cell passed through `DecrementSample(_, i)`. */
  ghost predicate AllDecremented(pats: seq<Pattern>, pats': seq<Pattern>, i: nat)
  {
    && |pats'| == |pats|
    && (forall p :: 0 <= p < |pats| ==> PatternImage(pats'[p], pats[p], Decrement(i)))
  }

  /** The sample-number map after removing number `i`. */
  function NextSampleWhere(where: seq<u8>, i: nat): (r: seq<u8>)
    ensures |r| == |where|
    ensures forall s :: 0 <= s < |where| ==> r[s] as int == if where[s] > i then where[s] - 1 else where[s]
  {
    seq(|where|, s requires 0 <= s < |where| => if where[s] > i then where[s] - 1 else where[s])
  }

  /** The removal list: strictly descending sample numbers of the table that no cell uses. */
  ghost predicate SampleDropList(D: seq<u8>, M: nat, P0: seq<Pattern>)
  {
    && Decreasing(D)
    && (forall t :: 0 <= t < |D| ==> 1 <= D[t] <= M && !Refers(P0, D[t]))
  }

  /** `pats` has the shape of `P0`, and each cell is `P0`'s with its sample number sent through `where`. */
  ghost predicate Renumbered(P0: seq<Pattern>, pats: seq<Pattern>, where: seq<u8>)
  {
    && |where| == 256
    && |pats| == |P0|
    && (forall p :: 0 <= p < |P0| ==> |pats[p]| == |P0[p]|)
    && (forall p, r :: 0 <= p < |P0| && 0 <= r < |P0[p]| ==> |pats[p][r]| == |P0[p][r]|)
    && (forall p, r, c :: 0 <= p < |P0| && 0 <= r < |P0[p]| && 0 <= c < |P0[p][r]| ==>
          pats[p][r][c] == P0[p][r][c].(sampleNumber := where[P0[p][r][c].sampleNumber]))
  }

  /**
   * After the first `k` removals of `D` from the table `S0` referenced by `P0`: sample
   * number 0 still means no sample; a kept sample `s` is now number `where[s]`, within the
   * first `M - k` records, and its record is unchanged; a number beyond the table has
   * dropped by `k`; numbers below the last removed one have not moved; the renumbering
   * keeps the original order; the removed records sit, cleared, at the end in removal
   * order; and every cell holds its original contents with the renumbered sample.
   */
  ghost predicate SamplesTracked(S0: seq<SampleInfo>, P0: seq<Pattern>, D: seq<u8>, k: nat,
                                 sis: seq<SampleInfo>, pats: seq<Pattern>, where: seq<u8>)
  {
    Both(TableTracked(S0, D, k, sis, where), Renumbered(P0, pats, where))
  }

  /**
   * A conjunction held as a single fact, so that a loop invariant built from it is
   * re-established as one obligation rather than one per conjunct of its parts.
   */
  predicate Both(a: bool, b: bool)
  {
    a && b
  }

  /** The table part of `SamplesTracked`. */
  ghost predicate TableTracked(S0: seq<SampleInfo>, D: seq<u8>, k: nat, sis: seq<SampleInfo>, where: seq<u8>)
  {
    var M := |S0|;
    && M < 256 && k <= |D| && k <= M && |sis| == M && |where| == 256
    && where[0] == 0
    && (forall s :: 1 <= s <= M && s !in D[..k] ==> 1 <= where[s] && where[s] as int <= M - k && sis[where[s] - 1] == S0[s - 1])
    && (forall s :: M < s < 256 ==> where[s] as int == s - k)
    && (forall s :: 0 <= s < 256 && (k == 0 || s < D[k - 1]) ==> where[s] as int == s)
    && (forall s, t :: 1 <= s < t <= M && s !in D[..k] && t !in D[..k] ==> where[s] < where[t])
    && (forall t :: 0 <= t < k ==> 1 <= D[t] as int <= M && sis[M - k + t] == Cleared(S0[D[t] - 1]))
  }

  lemma SamplesTrackedInit(S0: seq<SampleInfo>, P0: seq<Pattern>, D: seq<u8>)
    requires |S0| < 256
    ensures SamplesTracked(S0, P0, D, 0, S0, P0, seq(256, s requires 0 <= s < 256 => s as u8))
  {
    var where: seq<u8> := seq(256, s requires 0 <= s < 256 => s as u8);
    forall p, r, c | 0 <= p < |P0| && 0 <= r < |P0[p]| && 0 <= c < |P0[p][r]|
      ensures P0[p][r][c] == P0[p][r][c].(sampleNumber := where[P0[p][r][c].sampleNumber])
    {
    }
  }

  /** The next sample to remove still has its original number, and lies within the kept records. */
  lemma NextSampleInPlace(S0: seq<SampleInfo>, P0: seq<Pattern>, D: seq<u8>, k: nat,
                          sis: seq<SampleInfo>, pats: seq<Pattern>, where: seq<u8>)
    requires SampleDropList(D, |S0|, P0)
    requires SamplesTracked(S0, P0, D, k, sis, pats, where)
    requires k < |D|
    ensures where[D[k]] == D[k] && D[k] as int <= |S0| - k && D[k] !in D[..k]
    ensures sis[D[k] - 1] == S0[D[k] - 1]
  {
    var i := D[k];
    assert k > 0 ==> D[k - 1] > i;
    forall t | 0 <= t < k
      ensures D[t] != i
    {
      assert D[t] > D[k];
    }
  }

  /** One removal renumbers every cell through the next sample map. */
  lemma CellsStep(P0: seq<Pattern>, pats: seq<Pattern>, where: seq<u8>, pats': seq<Pattern>, i: nat)
    requires Renumbered(P0, pats, where)
    requires AllDecremented(pats, pats', i)
    ensures Renumbered(P0, pats', NextSampleWhere(where, i))
  {
    var where' := NextSampleWhere(where, i);
    forall p, r, c | 0 <= p < |P0| && 0 <= r < |P0[p]| && 0 <= c < |P0[p][r]|
      ensures pats'[p][r][c] == P0[p][r][c].(sampleNumber := where'[P0[p][r][c].sampleNumber])
    {
      assert PatternImage(pats'[p], pats[p], Decrement(i));
      assert pats'[p][r][c] == DecrementSample(pats[p][r][c], i);
    }
  }

  /** One removal keeps every kept sample's record reachable through the next map. */
  lemma KeptStep(S0: seq<SampleInfo>, P0: seq<Pattern>, D: seq<u8>, k: nat,
                 sis: seq<SampleInfo>, pats: seq<Pattern>, where: seq<u8>)
    requires SampleDropList(D, |S0|, P0)
    requires SamplesTracked(S0, P0, D, k, sis, pats, where)
    requires k < |D|
    requires 1 <= D[k] as int <= |sis|
    ensures var sis', where' := Recycle(sis, D[k]), NextSampleWhere(where, D[k]);
            forall s :: 1 <= s <= |S0| && s !in D[..k + 1] ==>
              1 <= where'[s] && where'[s] as int <= |S0| - (k + 1) && sis'[where'[s] - 1] == S0[s - 1]
  {
    var i := D[k];
    var M := |S0|;
    NextSampleInPlace(S0, P0, D, k, sis, pats, where);
    var sis', where' := Recycle(sis, i), NextSampleWhere(where, i);
    assert D[..k + 1] == D[..k] + [i];
    forall s | 1 <= s <= M && s !in D[..k + 1]
      ensures 1 <= where'[s] && where'[s] as int <= M - (k + 1) && sis'[where'[s] - 1] == S0[s - 1]
    {
      assert s < i ==> where[s] < where[i];
      assert s > i ==> where[s] > where[i];
    }
  }

  /** One removal appends the removed record, cleared, behind the ones removed before. */
  lemma TailStep(S0: seq<SampleInfo>, P0: seq<Pattern>, D: seq<u8>, k: nat,
                 sis: seq<SampleInfo>, pats: seq<Pattern>, where: seq<u8>)
    requires SampleDropList(D, |S0|, P0)
    requires SamplesTracked(S0, P0, D, k, sis, pats, where)
    requires k < |D|
    requires 1 <= D[k] as int <= |sis| && k < |S0|
    ensures var sis' := Recycle(sis, D[k]);
            forall t :: 0 <= t < k + 1 ==> 1 <= D[t] as int <= |S0| && sis'[|S0| - (k + 1) + t] == Cleared(S0[D[t] - 1])
  {
    var i := D[k];
    var M := |S0|;
    NextSampleInPlace(S0, P0, D, k, sis, pats, where);
    var sis' := Recycle(sis, i);
    forall t | 0 <= t < k + 1
      ensures 1 <= D[t] as int <= M && sis'[M - (k + 1) + t] == Cleared(S0[D[t] - 1])
    {
      if t < k {
        assert sis'[M - (k + 1) + t] == sis[M - k + t];
      }
    }
  }

  /** One removal keeps the map's fixed points, its shift beyond the table, and its order. */
  lemma WhereStep(S0: seq<SampleInfo>, P0: seq<Pattern>, D: seq<u8>, k: nat,
                  sis: seq<SampleInfo>, pats: seq<Pattern>, where: seq<u8>)
    requires SampleDropList(D, |S0|, P0)
    requires SamplesTracked(S0, P0, D, k, sis, pats, where)
    requires k < |D|
    ensures var where' := NextSampleWhere(where, D[k]);
            && where'[0] == 0
            && (forall s :: |S0| < s < 256 ==> where'[s] as int == s - (k + 1))
            && (forall s :: 0 <= s < 256 && s < D[k] ==> where'[s] as int == s)
            && (forall s, t :: 1 <= s < t <= |S0| && s !in D[..k + 1] && t !in D[..k + 1] ==> where'[s] < where'[t])
  {
    var i := D[k];
    NextSampleInPlace(S0, P0, D, k, sis, pats, where);
    var where' := NextSampleWhere(where, i);
    assert D[..k + 1] == D[..k] + [i];
    forall s | 0 <= s < 256 && s < i
      ensures where'[s] as int == s
    {
      assert k > 0 ==> D[k - 1] > D[k];
    }
    forall s, t | 1 <= s < t <= |S0| && s !in D[..k + 1] && t !in D[..k + 1]
      ensures where'[s] < where'[t]
    {
      assert s < i ==> where[s] < where[i];
      assert s > i ==> where[s] > where[i];
      assert t < i ==> where[t] < where[i];
      assert t > i ==> where[t] > where[i];
    }
  }

  /** One removal keeps the sample map exact. */
  lemma SampleStep(S0: seq<SampleInfo>, P0: seq<Pattern>, D: seq<u8>, k: nat,
                   sis: seq<SampleInfo>, pats: seq<Pattern>, where: seq<u8>, pats': seq<Pattern>)
    requires SampleDropList(D, |S0|, P0)
    requires SamplesTracked(S0, P0, D, k, sis, pats, where)
    requires k < |D|
    requires AllDecremented(pats, pats', D[k])
    ensures 1 <= D[k] as int <= |sis|
    ensures SamplesTracked(S0, P0, D, k + 1, Recycle(sis, D[k]), pats', NextSampleWhere(where, D[k]))
  {
    var i := D[k];
    NextSampleInPlace(S0, P0, D, k, sis, pats, where);
    KeptStep(S0, P0, D, k, sis, pats, where);
    TailStep(S0, P0, D, k, sis, pats, where);
    WhereStep(S0, P0, D, k, sis, pats, where);
    CellsStep(P0, pats, where, pats', i);
  }

  /** The unused list of `remove_unused_samples`, reversed, is a valid removal list. */
  lemma UnusedSampleDropList(P0: seq<Pattern>, M: nat)
    requires M <= 31
    ensures var U := FindUnusedSamples(P0, M);
            && SampleDropList(Reverse(U), M, P0)
            && (forall x :: x in Reverse(U) <==> x in U)
  {
    var U := FindUnusedSamples(P0, M);
    ReverseMembership(U);
    ReverseDecreasing(U);
    var D := Reverse(U);
    forall t | 0 <= t < |D|
      ensures 1 <= D[t] as int <= M && !Refers(P0, D[t])
    {
      assert D[t] in U;
    }
  }

  /**
   * What `remove_unused_samples` promises for the table `S0` referenced by the patterns
   * `P0`, with `sis` and `pats` the result: the table keeps its size and ends with the
   * unused records, cleared, highest number first; every cell keeps its pitch and command;
   * no sample stays no sample; a cell that used sample `s` uses a number within the kept
   * records whose record is `s`'s; a number beyond the table drops by the number removed;
   * and the renumbering keeps the order of sample numbers.
   */
  ghost predicate SamplesPruned(S0: seq<SampleInfo>, P0: seq<Pattern>, sis: seq<SampleInfo>, pats: seq<Pattern>)
  {
    && |S0| <= 31
    && var U := FindUnusedSamples(P0, |S0|);
    && RecordsRecycled(S0, U, sis)
    && CellsRenumbered(S0, P0, sis, pats, |U|)
  }

  /** The table keeps its size and ends with the records of `U`, cleared, in reverse. */
  ghost predicate RecordsRecycled(S0: seq<SampleInfo>, U: seq<u8>, sis: seq<SampleInfo>)
  {
    && |sis| == |S0| && |U| <= |S0|
    && (forall u :: 0 <= u < |U| ==> 1 <= U[u] as int <= |S0| && sis[|S0| - 1 - u] == Cleared(S0[U[u] - 1]))
  }

  /**
   * Every cell of `pats` is the cell of `P0` with only its sample number changed: 0 stays
   * 0, a sample of the table moves to a number within the first `|S0| - removed` records
   * whose record is its own, and a number beyond the table drops by `removed`.
   */
  ghost predicate CellsRenumbered(S0: seq<SampleInfo>, P0: seq<Pattern>, sis: seq<SampleInfo>, pats: seq<Pattern>, removed: nat)
  {
    && |pats| == |P0|
    && (forall p :: 0 <= p < |P0| ==> |pats[p]| == |P0[p]|)
    && (forall p, r :: 0 <= p < |P0| && 0 <= r < |P0[p]| ==> |pats[p][r]| == |P0[p][r]|)
    && (forall p, r, c :: 0 <= p < |P0| && 0 <= r < |P0[p]| && 0 <= c < |P0[p][r]| ==>
          var s0, s := P0[p][r][c].sampleNumber, pats[p][r][c].sampleNumber;
          && pats[p][r][c] == P0[p][r][c].(sampleNumber := s)
          && (s0 == 0 ==> s == 0)
          && (1 <= s0 as int <= |S0| ==> 1 <= s as int <= |S0| - removed && s as int <= |sis| && sis[s - 1] == S0[s0 - 1])
          && (s0 as int > |S0| ==> s as int == s0 as int - removed))
  }

  /** The renumbering keeps the order of the sample numbers the cells use. */
  ghost predicate SampleOrderKept(S0: seq<SampleInfo>, P0: seq<Pattern>, pats: seq<Pattern>)
  {
    && |pats| == |P0|
    && (forall p :: 0 <= p < |P0| ==> |pats[p]| == |P0[p]|)
    && (forall p, r :: 0 <= p < |P0| && 0 <= r < |P0[p]| ==> |pats[p][r]| == |P0[p][r]|)
    && forall p1, r1, c1, p2, r2, c2 ::
         && 0 <= p1 < |P0| && 0 <= r1 < |P0[p1]| && 0 <= c1 < |P0[p1][r1]|
         && 0 <= p2 < |P0| && 0 <= r2 < |P0[p2]| && 0 <= c2 < |P0[p2][r2]|
         && P0[p1][r1][c1].sampleNumber < P0[p2][r2][c2].sampleNumber
         ==> pats[p1][r1][c1].sampleNumber < pats[p2][r2][c2].sampleNumber
  }

  /** A sample number some cell uses is never removed. */
  lemma ReferencedKept(P0: seq<Pattern>, D: seq<u8>, M: nat, p: int, r: int, c: int)
    requires M <= 31
    requires D == Reverse(FindUnusedSamples(P0, M))
    requires 0 <= p < |P0| && 0 <= r < |P0[p]| && 0 <= c < |P0[p][r]|
    requires 1 <= P0[p][r][c].sampleNumber as int <= M
    ensures P0[p][r][c].sampleNumber !in D
  {
    ReverseMembership(FindUnusedSamples(P0, M));
    assert Refers(P0, P0[p][r][c].sampleNumber);
  }

  /** Once all are removed, the removed records sit, cleared, at the end of the table. */
  lemma TailResult(S0: seq<SampleInfo>, U: seq<u8>, sis: seq<SampleInfo>)
    requires |sis| == |S0| && |U| <= |S0|
    requires forall t :: 0 <= t < |U| ==>
               1 <= Reverse(U)[t] as int <= |S0| && sis[|S0| - |U| + t] == Cleared(S0[Reverse(U)[t] - 1])
    ensures RecordsRecycled(S0, U, sis)
  {
    var D := Reverse(U);
    forall u | 0 <= u < |U|
      ensures 1 <= U[u] as int <= |S0| && sis[|S0| - 1 - u] == Cleared(S0[U[u] - 1])
    {
      var t := |U| - 1 - u;
      assert D[t] == U[u];
    }
  }

  /** In the final state every cell holds its original contents with the renumbered sample. */
  lemma CellsResult(S0: seq<SampleInfo>, P0: seq<Pattern>, D: seq<u8>, sis: seq<SampleInfo>, pats: seq<Pattern>, where: seq<u8>)
    requires |S0| <= 31
    requires D == Reverse(FindUnusedSamples(P0, |S0|))
    requires SamplesTracked(S0, P0, D, |D|, sis, pats, where)
    ensures CellsRenumbered(S0, P0, sis, pats, |D|)
  {
    var M := |S0|;
    assert D[..|D|] == D;
    forall p, r, c | 0 <= p < |P0| && 0 <= r < |P0[p]| && 0 <= c < |P0[p][r]|
      ensures 1 <= P0[p][r][c].sampleNumber as int <= M ==> P0[p][r][c].sampleNumber !in D[..|D|]
    {
      if 1 <= P0[p][r][c].sampleNumber as int <= M {
        ReferencedKept(P0, D, M, p, r, c);
      }
    }
  }

  /** The loop's final state is the promised outcome. */
  lemma SampleResult(S0: seq<SampleInfo>, P0: seq<Pattern>, D: seq<u8>, sis: seq<SampleInfo>, pats: seq<Pattern>, where: seq<u8>)
    requires |S0| <= 31
    requires D == Reverse(FindUnusedSamples(P0, |S0|))
    requires SamplesTracked(S0, P0, D, |D|, sis, pats, where)
    ensures SamplesPruned(S0, P0, sis, pats)
  {
    TailResult(S0, FindUnusedSamples(P0, |S0|), sis);
    CellsResult(S0, P0, D, sis, pats, where);
  }

  /** In the final state the map is increasing on every number a cell can hold. */
  lemma WhereIncreasing(S0: seq<SampleInfo>, P0: seq<Pattern>, D: seq<u8>, sis: seq<SampleInfo>, pats: seq<Pattern>, where: seq<u8>, s1: u8, s2: u8)
    requires SamplesTracked(S0, P0, D, |D|, sis, pats, where)
    requires s1 < s2
    requires s1 !in D && s2 !in D
    ensures where[s1] < where[s2]
  {
    assert D[..|D|] == D;
  }

  /** The renumbering of the final state keeps the order of the numbers cells use. */
  lemma SampleOrderResult(S0: seq<SampleInfo>, P0: seq<Pattern>, D: seq<u8>, sis: seq<SampleInfo>, pats: seq<Pattern>, where: seq<u8>)
    requires |S0| <= 31
    requires D == Reverse(FindUnusedSamples(P0, |S0|))
    requires SamplesTracked(S0, P0, D, |D|, sis, pats, where)
    ensures SampleOrderKept(S0, P0, pats)
  {
    var M := |S0|;
    assert D[..|D|] == D;
    forall p1, r1, c1, p2, r2, c2 |
         && 0 <= p1 < |P0| && 0 <= r1 < |P0[p1]| && 0 <= c1 < |P0[p1][r1]|
         && 0 <= p2 < |P0| && 0 <= r2 < |P0[p2]| && 0 <= c2 < |P0[p2][r2]|
         && P0[p1][r1][c1].sampleNumber < P0[p2][r2][c2].sampleNumber
      ensures pats[p1][r1][c1].sampleNumber < pats[p2][r2][c2].sampleNumber
    {
      var s1, s2 := P0[p1][r1][c1].sampleNumber, P0[p2][r2][c2].sampleNumber;
      ReverseMembership(FindUnusedSamples(P0, M));
      assert Refers(P0, s1) && Refers(P0, s2);
      WhereIncreasing(S0, P0, D, sis, pats, where, s1, s2);
    }
  }
}

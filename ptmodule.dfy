/**
 * The module being edited and the commands of modtool that change it in place:
 * pruning unused patterns and samples, merging another module's patterns and play
 * order, and inserting the E81 marker into every pattern.
 */
module ModTool {
  import opened Common
  import opened Tracker
  import opened Usage
  import opened Pruning
  import Sync
  import Marker

  /** `after` is `before`, passed cell by cell through the sync filter when `sync` is set. */
  ghost predicate SyncedFrom(before: seq<Pattern>, after: seq<Pattern>, sync: bool)
  {
    && |after| == |before|
    && (!sync ==> after == before)
    && (sync ==> forall p :: 0 <= p < |before| ==> PatternImage(after[p], before[p], Sync.SyncChannel))
  }

  /**
   * The module (`pats`, `pos`, `len`) is the target (`P`, `A`, first `L` played) with the
   * patterns `Q` and the first `LQ` play-order entries `B` of the source appended, each
   * appended entry offset by the target's pattern count taken as a byte; the rest of the
   * table is untouched.
   */
  ghost predicate MergedInto(P: seq<Pattern>, A: seq<u8>, L: nat, Q: seq<Pattern>, B: seq<u8>, LQ: nat,
                             pats: seq<Pattern>, pos: seq<u8>, len: nat)
  {
    && |pos| == |A| && L + LQ <= |A| && LQ <= |B|
    && pats == P + Q
    && len == L + LQ
    && (forall j :: 0 <= j < L ==> pos[j] == A[j])
    && (forall j :: 0 <= j < LQ ==> pos[L + j] as int == B[j] as int + |P| % 0x100)
    && (forall j :: len <= j < |pos| ==> pos[j] == A[j])
  }

  /**
   * After a merge without wrap-around (fewer than 256 target patterns), every played
   * entry of either module that named a pattern names the same contents as before.
   */
  lemma MergedPlayback(P: seq<Pattern>, A: seq<u8>, L: nat, Q: seq<Pattern>, B: seq<u8>, LQ: nat,
                       pats: seq<Pattern>, pos: seq<u8>, len: nat)
    requires MergedInto(P, A, L, Q, B, LQ, pats, pos, len)
    requires |P| < 0x100
    ensures forall j :: 0 <= j < L && A[j] as int < |P| ==> pos[j] as int < |pats| && pats[pos[j]] == P[A[j]]
    ensures forall j :: 0 <= j < LQ && B[j] as int < |Q| ==> pos[L + j] as int < |pats| && pats[pos[L + j]] == Q[B[j]]
  {
    assert |P| % 0x100 == |P|;
  }

  /** The cell pass of `remove_unused_samples`: every reference above `i` moves down by one. */
  method RenumberSamples(pats: seq<Pattern>, i: u8) returns (res: seq<Pattern>)
    ensures AllDecremented(pats, res, i as nat)
  {
    res := pats;
    var p := 0;
    while p < |res|
      invariant 0 <= p <= |res| == |pats|
      invariant forall q :: 0 <= q < p ==> PatternImage(res[q], pats[q], Decrement(i as nat))
      invariant forall q :: p <= q < |res| ==> res[q] == pats[q]
    {
      var pat := MapPatternCells(res[p], Decrement(i as nat));
      res := res[p := pat];
      p := p + 1;
    }
  }

  /**
   * One pass of `remove_unused_samples` for sample number `i`: its record is taken out,
   * cleared and pushed to the end of the table, then the cells are renumbered.
   */
  method RemoveSample(sis: seq<SampleInfo>, pats: seq<Pattern>, i: u8) returns (sis': seq<SampleInfo>, pats': seq<Pattern>)
    requires 1 <= i as int <= |sis|
    ensures sis' == Recycle(sis, i as nat)
    ensures AllDecremented(pats, pats', i as nat)
  {
    var index := i as nat - 1;
    var si := sis[index];
    sis' := RemoveAt(sis, index);
    si := si.(length := 0, repeatStart := 0, repeatLength := 0, data := []);
    sis' := sis' + [si];
    pats' := RenumberSamples(pats, i);
  }

  /**
   * The loop of `remove_unused_samples`: every sample number of the table that no cell
   * uses is removed, highest first; its record is cleared and moved to the end of the
   * table, and every cell reference above it moves down by one. The list comes ascending
   * from `find_unused_samples`, so the source's sort leaves it as it is. The source
   * rewrites the table and the cells in place; here they are rebuilt as values.
   */
  method PruneSamples(sampleInfo: seq<SampleInfo>, patterns: seq<Pattern>) returns (sis: seq<SampleInfo>, pats: seq<Pattern>)
    requires |sampleInfo| <= 31
    ensures SamplesPruned(sampleInfo, patterns, sis, pats)
    ensures SampleOrderKept(sampleInfo, patterns, pats)
  {
    var unused := FindUnusedSamples(patterns, |sampleInfo|);
    unused := Reverse(unused);
    UnusedSampleDropList(patterns, |sampleInfo|);
    ghost var where;
    sis, pats, where := RemoveListedSamples(sampleInfo, patterns, unused);
    SampleResult(sampleInfo, patterns, unused, sis, pats, where);
    SampleOrderResult(sampleInfo, patterns, unused, sis, pats, where);
  }

  /**
   * The removal loop proper, for any descending list `D` of unused sample numbers: each
   * round keeps the bookkeeping of `SamplesTracked` exact, with `where` the ghost map from
   * original to current sample numbers.
   */
  method RemoveListedSamples(sampleInfo: seq<SampleInfo>, patterns: seq<Pattern>, D: seq<u8>)
      returns (sis: seq<SampleInfo>, pats: seq<Pattern>, ghost where: seq<u8>)
    requires |sampleInfo| < 256
    requires SampleDropList(D, |sampleInfo|, patterns)
    ensures SamplesTracked(sampleInfo, patterns, D, |D|, sis, pats, where)
  {
    sis, pats := sampleInfo, patterns;
    where := seq(256, s requires 0 <= s < 256 => s as u8);
    SamplesTrackedInit(sampleInfo, patterns, D);

    var k := 0;
    while k < |D|
      invariant 0 <= k <= |D|
      invariant SamplesTracked(sampleInfo, patterns, D, k, sis, pats, where)
    {
      var i := D[k];
      sis, pats := SampleRound(sampleInfo, patterns, D, k, sis, pats, where, i);
      where := NextSampleWhere(where, i as nat);
      k := k + 1;
    }
  }

  /** One round of the removal loop, for the `k`-th number `i` of the list. */
  method SampleRound(ghost S0: seq<SampleInfo>, ghost P0: seq<Pattern>, ghost D: seq<u8>, ghost k: nat,
                     sis: seq<SampleInfo>, pats: seq<Pattern>, ghost where: seq<u8>, i: u8)
      returns (sis': seq<SampleInfo>, pats': seq<Pattern>)
    requires SampleDropList(D, |S0|, P0)
    requires SamplesTracked(S0, P0, D, k, sis, pats, where)
    requires k < |D| && i == D[k]
    ensures SamplesTracked(S0, P0, D, k + 1, sis', pats', NextSampleWhere(where, i as nat))
  {
    NextSampleInPlace(S0, P0, D, k, sis, pats, where);
    sis', pats' := RemoveSample(sis, pats, i);
    SampleStep(S0, P0, D, k, sis, pats, where, pats');
  }

  /**
   * A decoded module. `positions` is the fixed play-order table of 128 pattern indices,
   * of which the first `length` are played; sample number `n` denotes `sampleInfo[n - 1]`.
   */
  class PTModule {
    var name: string
    var length: u8
    var positions: array<u8>
    var patterns: seq<Pattern>
    var sampleInfo: seq<SampleInfo>

    ghost predicate Valid()
      reads this
    {
      positions.Length == 128 && length <= 128
    }

    /** The module as the decoder hands it over. */
    constructor (name: string, length: u8, positions: seq<u8>, patterns: seq<Pattern>, sampleInfo: seq<SampleInfo>)
      requires |positions| == 128 && length <= 128
      ensures Valid() && fresh(this.positions)
      ensures this.name == name && this.length == length && this.positions[..] == positions
      ensures this.patterns == patterns && this.sampleInfo == sampleInfo
    {
      this.name := name;
      this.length := length;
      this.positions := new u8[128](j requires 0 <= j < 128 => positions[j]);
      this.patterns := patterns;
      this.sampleInfo := sampleInfo;
    }

    /**
     * `remove_unused_patterns`: remove every pattern the play order does not name,
     * highest index first, moving each active entry above a removed index down by one.
     * Every entry that named a pattern names the same pattern contents afterwards, in
     * the same relative order, and when the index range did not wrap (fewer than 256
     * patterns) no unused pattern is left.
     */
    method RemoveUnusedPatterns()
      requires Valid()
      modifies this, positions
      ensures Valid() && positions == old(positions) && length == old(length)
      ensures name == old(name) && sampleInfo == old(sampleInfo)
      ensures PatternsPruned(old(patterns), old(positions[..]), length as nat, patterns, positions[..])
    {
      var unused := FindUnusedPatterns(positions[..length], |patterns|);
      unused := Reverse(unused);
      ghost var P0, A0, L := patterns, positions[..], length as nat;
      ghost var where: seq<int> := seq(|P0|, x => x);
      ghost var inv: seq<int> := seq(|P0|, x => x);
      PatternsTrackedInit(P0, unused, A0, L);
      assert A0[..L] == positions[..length];
      UnusedDropList(A0, L, |P0|);

      var k := 0;
      while k < |unused|
        invariant 0 <= k <= |unused|
        invariant Valid() && positions == old(positions) && length == old(length)
        invariant name == old(name) && sampleInfo == old(sampleInfo)
        invariant PruneState(P0, A0, L, unused, k, patterns, positions[..], where, inv)
      {
        var i := unused[k];
        PruneStep(P0, A0, L, unused, k, patterns, positions[..], where, inv);
        patterns := RemoveAt(patterns, i as nat);
        ShiftPositions(i);
        where := NextWhere(where, i as nat);
        inv := RemoveAt(inv, i as nat);
        k := k + 1;
      }
      PruneResult(P0, A0, L, unused, patterns, positions[..], where, inv);
    }

    /** The play-order pass of `remove_unused_patterns`: active entries above `i` move down by one. */
    method ShiftPositions(i: u8)
      requires Valid()
      modifies positions
      ensures positions[..] == ShiftDown(old(positions[..]), length as nat, i as nat)
    {
      var j := 0;
      while j < length
        invariant 0 <= j <= length
        invariant forall j' :: 0 <= j' < j ==> positions[j'] as int == if old(positions[j']) > i then old(positions[j']) - 1 else old(positions[j'])
        invariant forall j' :: j <= j' < 128 ==> positions[j'] == old(positions[j'])
      {
        if positions[j] > i {
          positions[j] := positions[j] - 1;
        }
        j := j + 1;
      }
    }

    /**
     * `remove_unused_samples` on the module: the table and the cells are replaced by the
     * result of `PruneSamples`; nothing else changes.
     */
    method RemoveUnusedSamples()
      requires Valid() && |sampleInfo| <= 31
      modifies this
      ensures Valid() && positions == old(positions) && length == old(length) && name == old(name)
      ensures SamplesPruned(old(sampleInfo), old(patterns), sampleInfo, patterns)
      ensures SampleOrderKept(old(sampleInfo), old(patterns), patterns)
    {
      sampleInfo, patterns := PruneSamples(sampleInfo, patterns);
    }

    /**
     * One step of `merge`: the patterns of `src` are appended, passed through the sync
     * filter first in sync mode (which rewrites them in `src` as well), and the active
     * play order of `src` is appended, each entry offset by the pattern count before the
     * append, cast to a byte. The source indexes the 128-entry table and adds bytes
     * without a check: an index past the table always panics, and a byte sum past 255
     * panics in a debug build and wraps in a release build. Both are excluded here.
     */
    method Merge(src: PTModule, sync: bool)
      requires Valid() && src.Valid() && src != this && src.positions != positions
      requires length as int + src.length as int <= 128
      requires forall j :: 0 <= j < src.length ==> src.positions[j] as int + |patterns| % 0x100 < 0x100
      modifies this, positions, src
      ensures Valid() && positions == old(positions) && name == old(name) && sampleInfo == old(sampleInfo)
      ensures src.positions == old(src.positions) && src.length == old(src.length)
      ensures src.name == old(src.name) && src.sampleInfo == old(src.sampleInfo)
      ensures SyncedFrom(old(src.patterns), src.patterns, sync)
      ensures MergedInto(old(patterns), old(positions[..]), old(length) as nat,
                         src.patterns, src.positions[..], src.length as nat,
                         patterns, positions[..], length as nat)
    {
      var newOffset := (|patterns| % 0x100) as u8;
      AppendPatterns(src, sync);
      AppendPositions(src, newOffset);
    }

    /** The pattern loop of `merge`: each pattern of `src`, synced in place first in sync mode, is appended. */
    method AppendPatterns(src: PTModule, sync: bool)
      requires src != this
      modifies this, src
      ensures positions == old(positions) && length == old(length) && name == old(name) && sampleInfo == old(sampleInfo)
      ensures src.positions == old(src.positions) && src.length == old(src.length)
      ensures src.name == old(src.name) && src.sampleInfo == old(src.sampleInfo)
      ensures SyncedFrom(old(src.patterns), src.patterns, sync)
      ensures patterns == old(patterns) + src.patterns
    {
      ghost var srcBefore := src.patterns;
      var p := 0;
      while p < |src.patterns|
        invariant 0 <= p <= |src.patterns| == |srcBefore|
        invariant positions == old(positions) && length == old(length) && name == old(name) && sampleInfo == old(sampleInfo)
        invariant src.positions == old(src.positions) && src.length == old(src.length)
        invariant src.name == old(src.name) && src.sampleInfo == old(src.sampleInfo)
        invariant SyncedFrom(srcBefore[..p], src.patterns[..p], sync)
        invariant forall q :: p <= q < |srcBefore| ==> src.patterns[q] == srcBefore[q]
        invariant patterns == old(patterns) + src.patterns[..p]
      {
        if sync {
          var pat := MapPatternCells(src.patterns[p], Sync.SyncChannel);
          src.patterns := src.patterns[p := pat];
        }
        patterns := patterns + [src.patterns[p]];
        assert src.patterns[..p + 1] == src.patterns[..p] + [src.patterns[p]];
        assert srcBefore[..p + 1] == srcBefore[..p] + [srcBefore[p]];
        p := p + 1;
      }
      assert src.patterns[..p] == src.patterns && srcBefore[..p] == srcBefore;
    }

    /** The play-order loop of `merge`: the active entries of `src`, each plus `offset`, go after the active entries here. */
    method AppendPositions(src: PTModule, offset: u8)
      requires Valid() && src.Valid() && src != this && src.positions != positions
      requires length as int + src.length as int <= 128
      requires forall j :: 0 <= j < src.length ==> src.positions[j] as int + offset as int < 0x100
      modifies this, positions
      ensures Valid() && positions == old(positions) && name == old(name) && sampleInfo == old(sampleInfo)
      ensures patterns == old(patterns)
      ensures length as int == old(length) as int + src.length as int
      ensures forall j :: 0 <= j < old(length) ==> positions[j] == old(positions[j])
      ensures forall j :: 0 <= j < src.length ==> positions[old(length) as int + j] as int == src.positions[j] as int + offset as int
      ensures forall j :: length <= j < 128 ==> positions[j] == old(positions[j])
    {
      var i := 0;
      while i < src.length
        invariant 0 <= i <= src.length
        invariant Valid() && positions == old(positions) && name == old(name) && sampleInfo == old(sampleInfo)
        invariant patterns == old(patterns)
        invariant length as int == old(length) as int + i as int
        invariant forall j :: 0 <= j < old(length) ==> positions[j] == old(positions[j])
        invariant forall j :: 0 <= j < i ==> positions[old(length) as int + j] as int == src.positions[j] as int + offset as int
        invariant forall j :: length <= j < 128 ==> positions[j] == old(positions[j])
      {
        positions[length] := src.positions[i] + offset;
        length := length + 1;
        i := i + 1;
      }
    }

    /**
     * The `insert` command over the whole module: each pattern is treated as
     * `Marker.InsertMarker` specifies, and the reported outcome of each is returned.
     */
    method InsertMarkers() returns (outcomes: seq<Marker.Outcome>)
      modifies this
      ensures positions == old(positions) && length == old(length) && name == old(name) && sampleInfo == old(sampleInfo)
      ensures |patterns| == |old(patterns)| == |outcomes|
      ensures forall p :: 0 <= p < |patterns| ==> Marker.MarkerResult(old(patterns)[p], patterns[p], outcomes[p])
    {
      outcomes := [];
      var p := 0;
      while p < |patterns|
        invariant 0 <= p <= |patterns| == |old(patterns)| && |outcomes| == p
        invariant positions == old(positions) && length == old(length) && name == old(name) && sampleInfo == old(sampleInfo)
        invariant forall q :: 0 <= q < p ==> Marker.MarkerResult(old(patterns)[q], patterns[q], outcomes[q])
        invariant forall q :: p <= q < |patterns| ==> patterns[q] == old(patterns)[q]
      {
        var pat, outcome := Marker.InsertMarker(patterns[p]);
        patterns := patterns[p := pat];
        outcomes := outcomes + [outcome];
        p := p + 1;
      }
    }
  }
}

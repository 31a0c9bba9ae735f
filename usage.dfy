/**
 * Usage scanning: which patterns the play order never reaches, which sample numbers
 * no cell refers to, and which patterns hold nothing at all.
 */
module Usage {
  import opened Common
  import opened Tracker

  ghost predicate StrictlyIncreasing(s: seq<int>)
  {
    forall a, b :: 0 <= a < b < |s| ==> s[a] < s[b]
  }

  /** The indices below `n` that are absent from `active`, in ascending order. */
  function UnusedBelow(active: seq<u8>, n: nat): (r: seq<u8>)
    requires n <= 0x100
    ensures StrictlyIncreasing(r)
    ensures forall k :: 0 <= k < |r| ==> r[k] < n
    ensures forall i :: i in r <==> 0 <= i < n && i !in active
  {
    if n == 0 then []
    else
      var init := UnusedBelow(active, n - 1);
      if (n - 1) in active then init else init + [n - 1]
  }

  /**
   * find_unused_patterns: the pattern indices that no active play-order entry names.
   * The loop bound is `num_patterns as u8`, so the index range wraps modulo 256.
   */
  function FindUnusedPatterns(active: seq<u8>, numPatterns: nat): (r: seq<u8>)
    ensures StrictlyIncreasing(r)
    ensures forall i :: i in r <==> 0 <= i < numPatterns % 0x100 && i !in active
    ensures numPatterns < 0x100 ==> forall i :: i in r <==> 0 <= i < numPatterns && i !in active
  {
    UnusedBelow(active, numPatterns % 0x100)
  }

  /** When the play order names every index below `n`, nothing is unused. */
  lemma {:induction false} AllPlayedNoneUnused(active: seq<u8>, n: nat)
    requires n <= 0x100
    requires forall y :: 0 <= y < n ==> y in active
    ensures UnusedBelow(active, n) == []
  {
    if n > 0 {
      AllPlayedNoneUnused(active, n - 1);
    }
  }

  /** Without wrap-around, a play order that names every pattern leaves none unused. */
  lemma NoUnusedPatterns(active: seq<u8>, numPatterns: nat)
    requires numPatterns < 0x100
    requires forall y :: 0 <= y < numPatterns ==> y in active
    ensures FindUnusedPatterns(active, numPatterns) == []
  {
    AllPlayedNoneUnused(active, numPatterns);
    assert numPatterns % 0x100 == numPatterns;
  }

  /** Some cell of some pattern carries sample number `n`. */
  predicate Refers(ps: seq<Pattern>, n: int)
  {
    exists p, r, c :: 0 <= p < |ps| && 0 <= r < |ps[p]| && 0 <= c < |ps[p][r]| && ps[p][r][c].sampleNumber == n
  }

  /** The sample numbers 1..=n that no cell refers to, in ascending order. */
  function UnreferencedUpTo(ps: seq<Pattern>, n: nat): (r: seq<u8>)
    requires n <= 31
    ensures StrictlyIncreasing(r)
    ensures forall k :: 0 <= k < |r| ==> r[k] <= n
    ensures forall s :: s in r <==> 1 <= s <= n && !Refers(ps, s)
  {
    if n == 0 then []
    else
      var init := UnreferencedUpTo(ps, n - 1);
      if Refers(ps, n) then init else init + [n]
  }

  /**
   * find_unused_samples: the 1-based sample numbers up to `numSamples` that no cell refers
   * to. The `used` table has 32 entries, so the source indexes out of bounds when there are
   * more than 31 sample records; references above 31 are only reported and never mark a
   * sample used, which cannot matter since every candidate number is at most 31.
   */
  function FindUnusedSamples(ps: seq<Pattern>, numSamples: nat): (r: seq<u8>)
    requires numSamples <= 31
    ensures StrictlyIncreasing(r)
    ensures forall s :: s in r ==> 1 <= s <= numSamples
    ensures forall s :: 1 <= s <= numSamples ==> (s in r <==> !Refers(ps, s))
  {
    UnreferencedUpTo(ps, numSamples)
  }

  /** A cell with no pitch, no sample and no command. */
  predicate BlankCell(ch: Channel)
  {
    ch.period == 0 && ch.sampleNumber == 0 && ch.effect == 0
  }

  /** A pattern every cell of which is blank. */
  predicate IsEmptyPattern(pat: Pattern)
  {
    forall r, c :: 0 <= r < |pat| && 0 <= c < |pat[r]| ==> BlankCell(pat[r][c])
  }

  /** The scan with an `empty` flag that stops at the first non-blank cell. */
  method ScanEmpty(pat: Pattern) returns (empty: bool)
    ensures empty <==> IsEmptyPattern(pat)
  {
    empty := true;
    var r := 0;
    while r < |pat|
      invariant 0 <= r <= |pat|
      invariant empty <==> forall k, c :: 0 <= k < r && 0 <= c < |pat[k]| ==> BlankCell(pat[k][c])
    {
      var c := 0;
      while c < |pat[r]|
        invariant 0 <= c <= |pat[r]|
        invariant empty <==>
          (forall k, j :: 0 <= k < r && 0 <= j < |pat[k]| ==> BlankCell(pat[k][j])) &&
          (forall j :: 0 <= j < c ==> BlankCell(pat[r][j]))
      {
        if !BlankCell(pat[r][c]) {
          empty := false;
        }
        if !empty {
          break;
        }
        c := c + 1;
      }
      if !empty {
        break;
      }
      r := r + 1;
    }
  }

  /** The indices below `n` of the empty patterns, in ascending order. */
  function EmptyBelow(ps: seq<Pattern>, n: nat): (r: seq<nat>)
    requires n <= |ps|
    ensures StrictlyIncreasing(r)
    ensures forall k :: 0 <= k < |r| ==> r[k] < n
    ensures forall i :: i in r <==> 0 <= i < n && IsEmptyPattern(ps[i])
  {
    if n == 0 then []
    else
      var init := EmptyBelow(ps, n - 1);
      if IsEmptyPattern(ps[n - 1]) then init + [n - 1] else init
  }

  /** The "Empty patterns" listing: every pattern index whose cells are all blank. */
  function EmptyPatterns(ps: seq<Pattern>): (r: seq<nat>)
    ensures StrictlyIncreasing(r)
    ensures forall i :: i in r <==> 0 <= i < |ps| && IsEmptyPattern(ps[i])
  {
    EmptyBelow(ps, |ps|)
  }
}

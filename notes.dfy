/**
 * The "Used periods" part of the pattern report: the tally of every nonzero period in
 * the note cells, and, for each period, the nearest entry of the period table, which
 * names the note (prefixed "~" when the match is not exact).
 */
module Notes {
  import opened Common
  import opened Tracker

  function Abs(x: int): nat
  {
    if x < 0 then -x else x
  }

  /** How many of `cells` carry period `key`. */
  function PeriodCount(cells: seq<Channel>, key: int): (n: nat)
    ensures n <= |cells|
  {
    if |cells| == 0 then 0
    else PeriodCount(cells[..|cells| - 1], key) + (if cells[|cells| - 1].period == key then 1 else 0)
  }

  lemma {:induction false} PeriodCountConcat(a: seq<Channel>, b: seq<Channel>, key: int)
    ensures PeriodCount(a + b, key) == PeriodCount(a, key) + PeriodCount(b, key)
  {
    if |b| > 0 {
      PeriodCountConcat(a, b[..|b| - 1], key);
      assert (a + b)[..|a + b| - 1] == a + b[..|b| - 1];
    } else {
      assert a + b == a;
    }
  }

  /** A period is counted at least once exactly when some cell carries it. */
  lemma {:induction false} PeriodCountPositive(cells: seq<Channel>, key: int)
    ensures PeriodCount(cells, key) > 0 <==> exists k :: 0 <= k < |cells| && cells[k].period == key
  {
    if |cells| > 0 {
      var init := cells[..|cells| - 1];
      PeriodCountPositive(init, key);
      if exists k :: 0 <= k < |cells| && cells[k].period == key {
        var k :| 0 <= k < |cells| && cells[k].period == key;
        if k < |cells| - 1 {
          assert init[k].period == key;
        }
      }
      if PeriodCount(init, key) > 0 {
        var k :| 0 <= k < |init| && init[k].period == key;
        assert cells[k].period == key;
      }
    }
  }

  /** `counts` holds, for every nonzero period of `cells` and only for those, how many cells carry it. */
  ghost predicate Tally(counts: map<u16, nat>, cells: seq<Channel>)
  {
    && (forall k: u16 :: k in counts <==> k > 0 && PeriodCount(cells, k) > 0)
    && (forall k :: k in counts ==> counts[k] == PeriodCount(cells, k))
  }

  /** The innermost loop of the tally: count the nonzero periods of one row. */
  method CountRow(counts: map<u16, nat>, row: Row, ghost cells: seq<Channel>) returns (res: map<u16, nat>)
    requires Tally(counts, cells)
    ensures Tally(res, cells + row)
  {
    res := counts;
    var c := 0;
    assert cells + row[..c] == cells;
    while c < |row|
      invariant 0 <= c <= |row|
      invariant Tally(res, cells + row[..c])
    {
      var period := row[c].period;
      assert (cells + row[..c + 1])[..|cells + row[..c + 1]| - 1] == cells + row[..c];
      if period > 0 {
        var count := if period in res then res[period] else 0;
        res := res[period := count + 1];
      }
      c := c + 1;
    }
    assert row[..c] == row;
  }

  /**
   * The period tally of the report: every nonzero period of the module, each with the
   * number of cells that carry it. The report lists the keys in ascending order.
   */
  method CountPeriods(ps: seq<Pattern>) returns (counts: map<u16, nat>)
    ensures forall k: u16 :: k in counts <==> k > 0 && PeriodCount(Cells(ps), k) > 0
    ensures forall k :: k in counts ==> counts[k] == PeriodCount(Cells(ps), k)
  {
    counts := map[];
    var p := 0;
    while p < |ps|
      invariant 0 <= p <= |ps|
      invariant Tally(counts, Cells(ps[..p]))
    {
      var pattern := ps[p];
      var r := 0;
      assert Cells(ps[..p]) + PatternCells(pattern[..r]) == Cells(ps[..p]);
      while r < |pattern|
        invariant 0 <= r <= |pattern|
        invariant Tally(counts, Cells(ps[..p]) + PatternCells(pattern[..r]))
      {
        ghost var before := Cells(ps[..p]) + PatternCells(pattern[..r]);
        counts := CountRow(counts, pattern[r], before);
        assert pattern[..r + 1][..r] == pattern[..r];
        assert before + pattern[r] == Cells(ps[..p]) + PatternCells(pattern[..r + 1]);
        r := r + 1;
      }
      assert pattern[..r] == pattern;
      assert ps[..p + 1][..p] == ps[..p];
      p := p + 1;
    }
    assert ps[..p] == ps;
  }

  /** A period is a key of the tally exactly when it is nonzero and sits in some cell of the module. */
  lemma TallyKeys(ps: seq<Pattern>, key: u16)
    ensures key > 0 && PeriodCount(Cells(ps), key) > 0 <==>
            key > 0 && exists p, r, c :: 0 <= p < |ps| && 0 <= r < |ps[p]| && 0 <= c < |ps[p][r]| && ps[p][r][c].period == key
  {
    var cells := Cells(ps);
    PeriodCountPositive(cells, key);
    if PeriodCount(cells, key) > 0 {
      var k :| 0 <= k < |cells| && cells[k].period == key;
      CellsMembership(ps, cells[k]);
    }
    if exists p, r, c :: 0 <= p < |ps| && 0 <= r < |ps[p]| && 0 <= c < |ps[p][r]| && ps[p][r][c].period == key {
      var p, r, c :| 0 <= p < |ps| && 0 <= r < |ps[p]| && 0 <= c < |ps[p][r]| && ps[p][r][c].period == key;
      CellsMembership(ps, ps[p][r][c]);
    }
  }

  /** Index `i` of the table is the first entry at the smallest distance from `key`. */
  ghost predicate IsNearest(key: int, periods: seq<u16>, i: int)
  {
    && 0 <= i < |periods|
    && (forall j :: 0 <= j < |periods| ==> Abs(key - periods[i]) <= Abs(key - periods[j]))
    && (forall j :: 0 <= j < i ==> Abs(key - periods[j]) > Abs(key - periods[i]))
  }

  /** The nearest entry is unique: the strict comparison keeps the first of equally near entries. */
  lemma NearestUnique(key: int, periods: seq<u16>, i: int, j: int)
    requires IsNearest(key, periods, i) && IsNearest(key, periods, j)
    ensures i == j
  {
    var di, dj := Abs(key - periods[i]), Abs(key - periods[j]);
    assert i < j ==> di > dj;
    assert j < i ==> dj > di;
  }

  /**
   * The scan for the nearest table entry: `found` starts at -1 and `minDiff` at 65536, and
   * an entry replaces the best so far only when strictly nearer. With 16-bit periods every
   * distance is below 65536, so any nonempty table yields an index.
   */
  method NearestPeriod(key: u16, periods: seq<u16>) returns (found: int, minDiff: int)
    ensures |periods| == 0 ==> found == -1 && minDiff == 65536
    ensures |periods| > 0 ==> IsNearest(key, periods, found) && minDiff == Abs(key - periods[found])
  {
    found := -1;
    minDiff := 65536;
    var i := 0;
    while i < |periods|
      invariant 0 <= i <= |periods|
      invariant i == 0 ==> found == -1 && minDiff == 65536
      invariant i > 0 ==> 0 <= found < i && minDiff == Abs(key - periods[found])
      invariant forall j :: 0 <= j < i ==> minDiff <= Abs(key - periods[j])
      invariant forall j :: 0 <= j < found ==> Abs(key - periods[j]) > minDiff
    {
      var diff := Abs(key - periods[i]);
      if diff < minDiff {
        minDiff := diff;
        found := i;
      }
      i := i + 1;
    }
  }

  /** An exact match in the table is found with distance 0, so the note is not marked approximate. */
  lemma ExactMatchHasZeroDistance(key: u16, periods: seq<u16>, found: int)
    requires IsNearest(key, periods, found)
    ensures Abs(key - periods[found]) == 0 <==> key in periods
  {
    if key in periods {
      var j :| 0 <= j < |periods| && periods[j] == key;
      assert Abs(key - periods[j]) == 0;
    }
  }

  /** A note name with its octave; `approx` is the "~" prefix of an inexact match. */
  datatype NoteLabel = NoteLabel(approx: bool, name: string, octave: int)

  /**
   * The label printed beside a period: None when the table is empty (the report then
   * says it failed to find a note name); otherwise the nearest entry's name, its octave
   * (index / 12, plus 2 in scientific pitch notation) and "~" unless the match is exact.
   */
  method ResolveNote(key: u16, periods: seq<u16>, names: seq<string>, useSpn: bool) returns (note: Option<NoteLabel>)
    requires |names| == 12
    ensures note.None? <==> |periods| == 0
    ensures note.Some? ==>
              exists i :: IsNearest(key, periods, i) &&
                note.value == NoteLabel(key !in periods, names[i % 12], i / 12 + (if useSpn then 2 else 0))
  {
    var found, minDiff := NearestPeriod(key, periods);
    if found == -1 {
      note := None;
    } else {
      var octave := found / 12;
      if useSpn {
        octave := octave + 2;
      }
      var noteIndex := found % 12;
      ExactMatchHasZeroDistance(key, periods, found);
      note := Some(NoteLabel(minDiff != 0, names[noteIndex], octave));
    }
  }
}

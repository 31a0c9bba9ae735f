/**
 * The `insert` command: every pattern without an E8x command gets the command 0x0E81
 * written into its first cell (in row-major order) whose effect is empty.
 */
module Marker {
  import opened Tracker

  /** The E8x command: extended family 0xE, sub-command 8, any parameter nibble. */
  predicate IsE8(e: bv16)
  {
    e & 0x0ff0 == 0x0e80
  }

  /** The command the tool writes. */
  const MARKER: bv16 := 0x0e81

  /** Some cell of the pattern already carries an E8x command. */
  predicate HasE8(pat: Pattern)
  {
    exists r, c :: 0 <= r < |pat| && 0 <= c < |pat[r]| && IsE8(pat[r][c].effect)
  }

  /** Some cell of the pattern has an empty effect. */
  predicate HasFreeCell(pat: Pattern)
  {
    exists r, c :: 0 <= r < |pat| && 0 <= c < |pat[r]| && pat[r][c].effect == 0
  }

  /** (r, c) is the first cell in row-major order whose effect is empty. */
  ghost predicate FirstFree(pat: Pattern, r: int, c: int)
  {
    && 0 <= r < |pat| && 0 <= c < |pat[r]| && pat[r][c].effect == 0
    && (forall r', c' :: 0 <= r' < r && 0 <= c' < |pat[r']| ==> pat[r'][c'].effect != 0)
    && (forall c' :: 0 <= c' < c ==> pat[r][c'].effect != 0)
  }

  /** The pattern with the marker written into cell (r, c) and nothing else changed. */
  function SetMarker(pat: Pattern, r: nat, c: nat): (res: Pattern)
    requires r < |pat| && c < |pat[r]|
    ensures |res| == |pat| && forall k :: 0 <= k < |pat| ==> |res[k]| == |pat[k]|
    ensures res[r][c] == pat[r][c].(effect := MARKER)
    ensures forall r', c' :: 0 <= r' < |pat| && 0 <= c' < |pat[r']| && (r', c') != (r, c) ==> res[r'][c'] == pat[r'][c']
  {
    pat[r := pat[r][c := pat[r][c].(effect := MARKER)]]
  }

  /** `res` is `pat` with the marker in its first free cell, (r, c). */
  ghost predicate InsertedAt(pat: Pattern, res: Pattern, r: int, c: int)
  {
    FirstFree(pat, r, c) && res == SetMarker(pat, r, c)
  }

  /** What the command reports for one pattern. */
  datatype Outcome = AlreadyMarked | Inserted | NoFreeCell

  /** The specification of one pattern's treatment: `res` and `outcome` for input `pat`. */
  ghost predicate MarkerResult(pat: Pattern, res: Pattern, outcome: Outcome)
  {
    && (outcome == AlreadyMarked <==> HasE8(pat))
    && (outcome == NoFreeCell <==> !HasE8(pat) && !HasFreeCell(pat))
    && (outcome != Inserted ==> res == pat)
    && (outcome == Inserted ==> exists r, c :: InsertedAt(pat, res, r, c))
  }

  /** The first loop of the command: does the pattern already carry an E8x command? */
  method ScanForE8(pat: Pattern) returns (hasE8: bool)
    ensures hasE8 <==> HasE8(pat)
  {
    hasE8 := false;
    var r := 0;
    while r < |pat|
      invariant 0 <= r <= |pat|
      invariant !hasE8 ==> forall r', c' :: 0 <= r' < r && 0 <= c' < |pat[r']| ==> !IsE8(pat[r'][c'].effect)
      invariant hasE8 ==> HasE8(pat)
    {
      var row := pat[r];
      var c := 0;
      while c < |row|
        invariant 0 <= c <= |row|
        invariant !hasE8 ==> forall c' :: 0 <= c' < c ==> !IsE8(row[c'].effect)
        invariant hasE8 ==> HasE8(pat)
      {
        if row[c].effect & 0x0ff0 == 0x0e80 {
          hasE8 := true;
          break;
        }
        c := c + 1;
      }
      if hasE8 {
        break;
      }
      r := r + 1;
    }
  }

  /** The second loop: write the marker into the first empty effect, if there is one. */
  method PlaceMarker(pat: Pattern) returns (res: Pattern, added: bool)
    ensures added <==> HasFreeCell(pat)
    ensures !added ==> res == pat
    ensures added ==> exists r, c :: InsertedAt(pat, res, r, c)
  {
    res := pat;
    added := false;
    var r := 0;
    while r < |pat|
      invariant 0 <= r <= |pat|
      invariant !added ==> res == pat
      invariant !added ==> forall r', c' :: 0 <= r' < r && 0 <= c' < |pat[r']| ==> pat[r'][c'].effect != 0
      invariant added ==> exists r', c' :: InsertedAt(pat, res, r', c')
    {
      var row := pat[r];
      var c := 0;
      while c < |row|
        invariant 0 <= c <= |row|
        invariant !added ==> res == pat
        invariant !added ==> forall c' :: 0 <= c' < c ==> row[c'].effect != 0
        invariant added ==> exists r', c' :: InsertedAt(pat, res, r', c')
      {
        if row[c].effect == 0 {
          assert FirstFree(pat, r, c);
          res := SetMarker(pat, r, c);
          assert InsertedAt(pat, res, r, c);
          added := true;
          break;
        }
        c := c + 1;
      }
      if added {
        break;
      }
      r := r + 1;
    }
  }

  /** One pattern of the `insert` command: skip it if marked, else mark its first free cell. */
  method InsertMarker(pat: Pattern) returns (res: Pattern, outcome: Outcome)
    ensures MarkerResult(pat, res, outcome)
  {
    var hasE8 := ScanForE8(pat);
    if hasE8 {
      return pat, AlreadyMarked;
    }
    var added;
    res, added := PlaceMarker(pat);
    outcome := if added then Inserted else NoFreeCell;
  }

  /** The marker written by the command is itself an E8x command. */
  lemma MarkerIsE8()
    ensures IsE8(MARKER)
  {
  }

  /** The first free cell is unique. */
  lemma FirstFreeUnique(pat: Pattern, r1: int, c1: int, r2: int, c2: int)
    requires FirstFree(pat, r1, c1) && FirstFree(pat, r2, c2)
    ensures r1 == r2 && c1 == c2
  {
    var e1, e2 := pat[r1][c1].effect, pat[r2][c2].effect;
    assert r1 < r2 ==> e1 != 0;
    assert r2 < r1 ==> e2 != 0;
    assert r1 == r2 && c1 < c2 ==> e1 != 0;
    assert r1 == r2 && c2 < c1 ==> e2 != 0;
  }

  /** After a successful insertion the pattern carries an E8x command. */
  lemma InsertedIsMarked(pat: Pattern, res: Pattern)
    requires MarkerResult(pat, res, Inserted)
    ensures HasE8(res)
  {
    var r, c :| InsertedAt(pat, res, r, c);
    assert IsE8(res[r][c].effect);
  }

  /** Running the command twice changes nothing the second time: every pattern it could mark is marked. */
  lemma InsertIdempotent(pat: Pattern, res: Pattern, outcome: Outcome, res2: Pattern, outcome2: Outcome)
    requires MarkerResult(pat, res, outcome)
    requires MarkerResult(res, res2, outcome2)
    ensures res2 == res
    ensures outcome != NoFreeCell ==> outcome2 == AlreadyMarked
  {
    if outcome == Inserted {
      InsertedIsMarked(pat, res);
    }
  }
}

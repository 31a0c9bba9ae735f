/**
 * The decoded tracker module as the engine sees it: note cells, rows, patterns and
 * sample records, plus the row-major order in which every scan visits the cells.
 */
module Tracker {
  import opened Common

  /** One note cell. `effect` is the packed command: family in bits 8..11, parameter in bits 0..7. */
  datatype Channel = Channel(period: u16, sampleNumber: u8, effect: bv16)

  /** A row holds one cell per channel; a pattern is a sequence of rows. */
  type Row = seq<Channel>
  type Pattern = seq<Row>

  /** A sample record; `length`, `repeatStart` and `repeatLength` count 16-bit words. */
  datatype SampleInfo = SampleInfo(
    name: string,
    length: u16,
    finetune: int,
    volume: u8,
    repeatStart: u16,
    repeatLength: u16,
    data: seq<u8>)

  /** The cells of one pattern in row-major order. */
  function PatternCells(pat: Pattern): seq<Channel>
  {
    if |pat| == 0 then [] else PatternCells(pat[..|pat| - 1]) + pat[|pat| - 1]
  }

  /** The cells of all patterns, pattern by pattern, each in row-major order. */
  function Cells(ps: seq<Pattern>): seq<Channel>
  {
    if |ps| == 0 then [] else Cells(ps[..|ps| - 1]) + PatternCells(ps[|ps| - 1])
  }

  lemma {:induction false} PatternCellsMembership(pat: Pattern, ch: Channel)
    ensures ch in PatternCells(pat) <==>
            exists r, c :: 0 <= r < |pat| && 0 <= c < |pat[r]| && pat[r][c] == ch
  {
    if |pat| > 0 {
      var init := pat[..|pat| - 1];
      PatternCellsMembership(init, ch);
      if ch in PatternCells(pat) {
        if ch !in PatternCells(init) {
          var c :| 0 <= c < |pat[|pat| - 1]| && pat[|pat| - 1][c] == ch;
          assert pat[|pat| - 1][c] == ch;
        } else {
          var r, c :| 0 <= r < |init| && 0 <= c < |init[r]| && init[r][c] == ch;
          assert pat[r][c] == ch;
        }
      } else {
        forall r, c | 0 <= r < |pat| && 0 <= c < |pat[r]| ensures pat[r][c] != ch {
          if r < |pat| - 1 {
            assert init[r][c] == pat[r][c];
          } else {
            assert pat[r][c] in pat[|pat| - 1];
          }
        }
      }
    }
  }

  /** A cell value occurs in the row-major scan iff it sits at some pattern, row and channel. */
  lemma {:induction false} CellsMembership(ps: seq<Pattern>, ch: Channel)
    ensures ch in Cells(ps) <==>
            exists p, r, c :: 0 <= p < |ps| && 0 <= r < |ps[p]| && 0 <= c < |ps[p][r]| && ps[p][r][c] == ch
  {
    if |ps| > 0 {
      var init := ps[..|ps| - 1];
      var last := ps[|ps| - 1];
      CellsMembership(init, ch);
      PatternCellsMembership(last, ch);
      if ch in Cells(ps) {
        if ch in Cells(init) {
          var p, r, c :| 0 <= p < |init| && 0 <= r < |init[p]| && 0 <= c < |init[p][r]| && init[p][r][c] == ch;
          assert ps[p][r][c] == ch;
        } else {
          var r, c :| 0 <= r < |last| && 0 <= c < |last[r]| && last[r][c] == ch;
          assert ps[|ps| - 1][r][c] == ch;
        }
      } else {
        forall p, r, c | 0 <= p < |ps| && 0 <= r < |ps[p]| && 0 <= c < |ps[p][r]| ensures ps[p][r][c] != ch {
          if p < |ps| - 1 {
            assert init[p][r][c] == ps[p][r][c];
          } else {
            assert last[r][c] == ps[p][r][c];
          }
        }
      }
    }
  }

  /** `res` has the shape of `pat` and holds `f` of each of its cells. */
  ghost predicate PatternImage(res: Pattern, pat: Pattern, f: Channel -> Channel)
  {
    && |res| == |pat|
    && (forall r :: 0 <= r < |pat| ==> |res[r]| == |pat[r]|)
    && (forall r, c :: 0 <= r < |pat| && 0 <= c < |pat[r]| ==> res[r][c] == f(pat[r][c]))
  }

  /**
   * The in-place `for row in &mut pattern.rows { for channel in &mut row.channels { .. } }`
   * rewrite that both the sample renumbering and the sync-mode merge perform.
   */
  method MapPatternCells(pat: Pattern, f: Channel -> Channel) returns (res: Pattern)
    ensures PatternImage(res, pat, f)
  {
    res := pat;
    var r := 0;
    while r < |res|
      invariant 0 <= r <= |res| == |pat|
      invariant forall k :: 0 <= k < |pat| ==> |res[k]| == |pat[k]|
      invariant forall k, c :: 0 <= k < r && 0 <= c < |pat[k]| ==> res[k][c] == f(pat[k][c])
      invariant forall k :: r <= k < |pat| ==> res[k] == pat[k]
    {
      var row := res[r];
      var c := 0;
      while c < |row|
        invariant 0 <= c <= |row| == |pat[r]|
        invariant forall j :: 0 <= j < c ==> row[j] == f(pat[r][j])
        invariant forall j :: c <= j < |row| ==> row[j] == pat[r][j]
      {
        row := row[c := f(row[c])];
        c := c + 1;
      }
      res := res[r := row];
      r := r + 1;
    }
  }
}

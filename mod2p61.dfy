/**
 * The converter's own pass over the re-read module: the 32-flag effect scan, the mask
 * loop and the finetune loop of `get_usecode`, and the joining of the converted song
 * data with the sample data before it is re-read.
 */
module Mod2P61 {
  import opened Common
  import opened Tracker
  import U = Usecode

  /** The slot the loop body computes from a packed effect is the slot `Family` names. */
  lemma SlotOfEffect(e: bv16)
    ensures ((e & 0x0f00) >> 8 == 0 && e & 0x00ff == 0) <==> U.Family(e).None?
    ensures U.Family(e).Some? ==>
              U.Family(e).value ==
                (if (e & 0x0f00) >> 8 == 0xe then ((e & 0x00f0) >> 4) + 16 else (e & 0x0f00) >> 8) as int
  {
  }

  lemma {:induction false} FamiliesOfConcat(a: seq<Channel>, b: seq<Channel>)
    ensures U.FamiliesOf(a + b) == U.FamiliesOf(a) + U.FamiliesOf(b)
  {
    if |b| > 0 {
      var init := b[..|b| - 1];
      FamiliesOfConcat(a, init);
      assert (a + b)[..|a + b| - 1] == a + init;
    } else {
      assert a + b == a;
    }
  }

  /** The innermost loop of the scan: mark the slot of every command cell of one row. */
  method MarkRow(effects: array<bool>, row: Row)
    requires effects.Length == 32
    modifies effects
    ensures forall k :: 0 <= k < 32 ==> (effects[k] <==> old(effects[k]) || k in U.FamiliesOf(row))
  {
    var c := 0;
    while c < |row|
      invariant 0 <= c <= |row|
      invariant forall k :: 0 <= k < 32 ==> (effects[k] <==> old(effects[k]) || k in U.FamiliesOf(row[..c]))
    {
      var e := row[c].effect;
      var effect := (e & 0x0f00) >> 8;
      SlotOfEffect(e);
      assert row[..c + 1][..c] == row[..c];
      if effect == 0 && e & 0x00ff == 0 {
        // Not a command: the cell leaves the table as it is.
      } else {
        if effect == 0xe {
          effect := ((e & 0x00f0) >> 4) + 16;
        }
        effects[effect as int] := true;
      }
      c := c + 1;
    }
    assert row[..c] == row;
  }

  /**
   * The first phase of `get_usecode`: the 32-entry effect table, marked cell by cell in
   * row-major order; a cell with no real command leaves it unchanged.
   */
  method MarkEffects(ps: seq<Pattern>) returns (effects: array<bool>)
    ensures fresh(effects) && effects.Length == 32
    ensures forall k :: 0 <= k < 32 ==> (effects[k] <==> k in U.FamiliesOf(Cells(ps)))
  {
    effects := new bool[32](_ => false);
    var p := 0;
    while p < |ps|
      invariant 0 <= p <= |ps|
      invariant forall k :: 0 <= k < 32 ==> (effects[k] <==> k in U.FamiliesOf(Cells(ps[..p])))
    {
      var pattern := ps[p];
      var r := 0;
      assert Cells(ps[..p]) + PatternCells(pattern[..r]) == Cells(ps[..p]);
      while r < |pattern|
        invariant 0 <= r <= |pattern|
        invariant forall k :: 0 <= k < 32 ==>
                    (effects[k] <==> k in U.FamiliesOf(Cells(ps[..p]) + PatternCells(pattern[..r])))
      {
        ghost var before := Cells(ps[..p]) + PatternCells(pattern[..r]);
        MarkRow(effects, pattern[r]);
        assert pattern[..r + 1][..r] == pattern[..r];
        assert before + pattern[r] == Cells(ps[..p]) + PatternCells(pattern[..r + 1]);
        FamiliesOfConcat(before, pattern[r]);
        r := r + 1;
      }
      assert pattern[..r] == pattern;
      assert ps[..p + 1][..p] == ps[..p];
      p := p + 1;
    }
    assert ps[..p] == ps;
  }

  /**
   * `get_usecode`: mark the effect table, turn the marks into bits (slot 0 reported as
   * bit 8), then set bit 0 at the first sample with a nonzero finetune. The result is
   * the usecode of the module, bit by bit as `Usecode.UsecodeBits` reads it.
   */
  method GetUsecode(ps: seq<Pattern>, sis: seq<SampleInfo>) returns (usecode: U.Word)
    ensures usecode == U.ModuleUsecode(ps, sis)
    ensures |usecode| == 32
    ensures forall b :: 0 <= b < 32 ==>
              (usecode[b] <==>
                 || (b == 0 && U.UsesFinetune(sis))
                 || (b == 8 && (U.FamilyOccurs(ps, 0) || U.FamilyOccurs(ps, 8)))
                 || (b != 0 && b != 8 && U.FamilyOccurs(ps, b)))
  {
    var effects := MarkEffects(ps);
    ghost var slots := U.FamiliesOf(Cells(ps));

    usecode := U.Zero();
    var i := 0;
    while i < 32
      invariant 0 <= i <= 32
      invariant usecode == U.MaskBelow(slots, i)
    {
      if effects[i] {
        if i == 0 {
          usecode := usecode[8 := true];
        } else {
          usecode := usecode[i := true];
        }
      }
      i := i + 1;
    }

    var k := 0;
    while k < |sis|
      invariant 0 <= k <= |sis|
      invariant forall j :: 0 <= j < k ==> sis[j].finetune == 0
      invariant usecode == U.MaskBelow(slots, 32)
    {
      if sis[k].finetune != 0 {
        usecode := usecode[0 := true];
        break;
      }
      k := k + 1;
    }
    forall b | 0 <= b < 32 {
      U.UsecodeBits(ps, sis, b);
    }
  }

  /** The two output buffers copied byte by byte into one buffer, song data first. */
  method ConcatBytes(data: seq<u8>, samples: seq<u8>) returns (all: seq<u8>)
    ensures |all| == |data| + |samples|
    ensures all[..|data|] == data && all[|data|..] == samples
  {
    all := [];
    var i := 0;
    while i < |data|
      invariant 0 <= i <= |data|
      invariant all == data[..i]
    {
      all := all + [data[i]];
      i := i + 1;
    }
    var j := 0;
    while j < |samples|
      invariant 0 <= j <= |samples|
      invariant all == data + samples[..j]
    {
      all := all + [samples[j]];
      j := j + 1;
    }
  }
}

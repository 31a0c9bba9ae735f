/**
 * The Player "usecode": a 32-bit capability mask derived from the effect families that
 * occur in the note cells and from whether any sample uses finetune. This is the
 * flags-then-mask computation of the pattern-info report; the imperative copy in the
 * converter is proved equal to it in module Mod2P61.
 */
module Usecode {
  import opened Common
  import opened Tracker

  /**
   * The slot of the 32-entry effect table that a packed effect marks, or None when the
   * cell carries no real command (family 0 with a zero parameter byte). Extended commands
   * (family 0xE) are spread over slots 16..31 by their sub-command nibble.
   */
  function Family(e: bv16): (r: Option<nat>)
    ensures r.None? <==> e & 0x0fff == 0
    ensures r.Some? ==> r.value < 32 && r.value != 14
  {
    var family := ((e & 0x0f00) >> 8) as nat;
    if family == 0 && e & 0x00ff == 0 then None
    else if family == 0xe then Some(((e & 0x00f0) >> 4) as nat + 16)
    else Some(family)
  }

  function FamilySet(ch: Channel): set<nat>
  {
    match Family(ch.effect)
    case None => {}
    case Some(f) => {f}
  }

  /** The marked slots of the effect table after scanning `cells`. */
  function FamiliesOf(cells: seq<Channel>): (r: set<nat>)
    ensures forall f :: f in r ==> f < 32 && f != 14
    ensures |cells| == 0 ==> r == {}
  {
    if |cells| == 0 then {}
    else FamiliesOf(cells[..|cells| - 1]) + FamilySet(cells[|cells| - 1])
  }

  /** The bit that a marked slot contributes: slot 0 is reported as bit 8 (The Player runs command 0 as 8). */
  function Target(slot: nat): (b: nat)
    ensures b != 0
    ensures slot < 32 ==> b < 32
    ensures slot != 0 ==> b == slot
  {
    if slot == 0 then 8 else slot
  }

  /**
   * A 32-bit word as its bits: `w[k]` is bit `k`, worth `1 << k`. Setting bit `k`
   * (Rust `w |= 1 << k`) is `w[k := true]`.
   */
  type Word = seq<bool>

  /** The word 0. */
  function Zero(): (w: Word)
    ensures |w| == 32 && forall k :: 0 <= k < 32 ==> !w[k]
  {
    seq(32, _ => false)
  }

  /** The value of `1 << k`. */
  function Pow2(k: nat): (r: nat)
    ensures r >= 1
  {
    if k == 0 then 1 else 2 * Pow2(k - 1)
  }

  /** The unsigned number a word denotes: the sum of `1 << k` over its set bits. */
  function Value(w: Word): nat
  {
    if |w| == 0 then 0 else (if w[0] then 1 else 0) + 2 * Value(w[1..])
  }

  /** The mask built from slots `0..i` of the effect table. */
  function MaskBelow(slots: set<nat>, i: nat): (w: Word)
    requires i <= 32
    ensures |w| == 32
  {
    if i == 0 then Zero()
    else
      var m := MaskBelow(slots, i - 1);
      if i - 1 in slots then m[Target(i - 1) := true] else m
  }

  /** Some sample record has a nonzero finetune. */
  predicate UsesFinetune(sis: seq<SampleInfo>)
  {
    exists k :: 0 <= k < |sis| && sis[k].finetune != 0
  }

  /** The usecode of a module with patterns `ps` and sample records `sis`. */
  function ModuleUsecode(ps: seq<Pattern>, sis: seq<SampleInfo>): (w: Word)
    ensures |w| == 32
  {
    UsecodeOf(FamiliesOf(Cells(ps)), UsesFinetune(sis))
  }

  /** The usecode for a given set of marked slots and finetune flag. */
  function UsecodeOf(slots: set<nat>, finetune: bool): (w: Word)
    ensures |w| == 32
  {
    var m := MaskBelow(slots, 32);
    if finetune then m[0 := true] else m
  }

  /** Some cell of the module marks slot `f`. */
  predicate FamilyOccurs(ps: seq<Pattern>, f: nat)
  {
    exists p, r, c :: 0 <= p < |ps| && 0 <= r < |ps[p]| && 0 <= c < |ps[p][r]| && Family(ps[p][r][c].effect) == Some(f)
  }

  lemma {:induction false} FamiliesOfMembership(cells: seq<Channel>, f: nat)
    ensures f in FamiliesOf(cells) <==> exists k :: 0 <= k < |cells| && Family(cells[k].effect) == Some(f)
  {
    if |cells| > 0 {
      var init := cells[..|cells| - 1];
      FamiliesOfMembership(init, f);
      if f in FamiliesOf(cells) && f !in FamiliesOf(init) {
        assert Family(cells[|cells| - 1].effect) == Some(f);
      }
      if exists k :: 0 <= k < |cells| && Family(cells[k].effect) == Some(f) {
        var k :| 0 <= k < |cells| && Family(cells[k].effect) == Some(f);
        if k < |cells| - 1 {
          assert init[k] == cells[k];
        }
      }
    }
  }

  /** The scanned slots are exactly the slots some cell of the module marks. */
  lemma FamiliesOfModule(ps: seq<Pattern>, f: nat)
    ensures f in FamiliesOf(Cells(ps)) <==> FamilyOccurs(ps, f)
  {
    var cells := Cells(ps);
    FamiliesOfMembership(cells, f);
    if f in FamiliesOf(cells) {
      var k :| 0 <= k < |cells| && Family(cells[k].effect) == Some(f);
      CellsMembership(ps, cells[k]);
      var p, r, c :| 0 <= p < |ps| && 0 <= r < |ps[p]| && 0 <= c < |ps[p][r]| && ps[p][r][c] == cells[k];
      assert Family(ps[p][r][c].effect) == Some(f);
    }
    if FamilyOccurs(ps, f) {
      var p, r, c :| 0 <= p < |ps| && 0 <= r < |ps[p]| && 0 <= c < |ps[p][r]| && Family(ps[p][r][c].effect) == Some(f);
      CellsMembership(ps, ps[p][r][c]);
      var k :| 0 <= k < |cells| && cells[k] == ps[p][r][c];
    }
  }

  /** Bit `b` of the partial mask is set exactly when some scanned slot below `i` targets it. */
  lemma {:induction false} MaskBelowBits(slots: set<nat>, i: nat, b: nat)
    requires i <= 32 && b < 32
    ensures MaskBelow(slots, i)[b] <==> exists j :: 0 <= j < i && j in slots && Target(j) == b
  {
    if i > 0 {
      MaskBelowBits(slots, i - 1, b);
      if MaskBelow(slots, i)[b] && !MaskBelow(slots, i - 1)[b] {
        assert Target(i - 1) == b;
      }
    }
  }

  /** Bit `b` of the full mask: bit 8 stands for slots 0 and 8, bit 0 for nothing, any other bit for its own slot. */
  lemma FullMaskBits(slots: set<nat>, b: nat)
    requires b < 32
    ensures MaskBelow(slots, 32)[b] <==>
            || (b == 8 && (0 in slots || 8 in slots))
            || (b != 0 && b != 8 && b in slots)
  {
    MaskBelowBits(slots, 32, b);
    if b == 8 {
      if 0 in slots {
        assert Target(0) == 8;
      }
      if 8 in slots {
        assert Target(8) == 8;
      }
    } else if b != 0 && b in slots {
      assert Target(b) == b;
    }
  }

  /** Bit `b` of the usecode for a slot set and a finetune flag. */
  lemma UsecodeOfBits(slots: set<nat>, finetune: bool, b: nat)
    requires b < 32
    ensures UsecodeOf(slots, finetune)[b] <==>
            || (b == 0 && finetune)
            || (b == 8 && (0 in slots || 8 in slots))
            || (b != 0 && b != 8 && b in slots)
  {
    FullMaskBits(slots, b);
  }

  /**
   * Bit by bit: bit 0 means finetune, bit 8 means command 0 or 8, and every other bit `b`
   * means that slot `b` is marked by some cell. Only which slots occur matters.
   */
  lemma UsecodeBits(ps: seq<Pattern>, sis: seq<SampleInfo>, b: nat)
    requires b < 32
    ensures ModuleUsecode(ps, sis)[b] <==>
            || (b == 0 && UsesFinetune(sis))
            || (b == 8 && (FamilyOccurs(ps, 0) || FamilyOccurs(ps, 8)))
            || (b != 0 && b != 8 && FamilyOccurs(ps, b))
  {
    UsecodeOfBits(FamiliesOf(Cells(ps)), UsesFinetune(sis), b);
    FamiliesOfModule(ps, 0);
    FamiliesOfModule(ps, 8);
    FamiliesOfModule(ps, b);
  }

  /** Effects never produce bit 14: no slot 14 exists, because family 0xE moves to 16..31. */
  lemma NoBit14(ps: seq<Pattern>, sis: seq<SampleInfo>)
    ensures !ModuleUsecode(ps, sis)[14]
  {
    UsecodeBits(ps, sis, 14);
    assert !FamilyOccurs(ps, 14);
  }

  /** A cell with family 0 and a nonzero parameter sets bit 8; bit 0 still only reflects finetune. */
  lemma BareCommandSetsBit8(ps: seq<Pattern>, sis: seq<SampleInfo>, p: nat, r: nat, c: nat)
    requires p < |ps| && r < |ps[p]| && c < |ps[p][r]|
    requires ps[p][r][c].effect & 0x0f00 == 0 && ps[p][r][c].effect & 0x00ff != 0
    ensures ModuleUsecode(ps, sis)[8]
    ensures ModuleUsecode(ps, sis)[0] <==> UsesFinetune(sis)
  {
    assert Family(ps[p][r][c].effect) == Some(0);
    assert FamilyOccurs(ps, 0);
    UsecodeBits(ps, sis, 8);
    UsecodeBits(ps, sis, 0);
  }

  /** An extended command 0xEsx sets bit 16 + s. */
  lemma ExtendedCommandBit(ps: seq<Pattern>, sis: seq<SampleInfo>, p: nat, r: nat, c: nat)
    requires p < |ps| && r < |ps[p]| && c < |ps[p][r]|
    requires ps[p][r][c].effect & 0x0f00 == 0x0e00
    ensures ModuleUsecode(ps, sis)[16 + ((ps[p][r][c].effect & 0x00f0) >> 4) as nat]
  {
    var s := 16 + ((ps[p][r][c].effect & 0x00f0) >> 4) as nat;
    assert Family(ps[p][r][c].effect) == Some(s);
    assert FamilyOccurs(ps, s);
    UsecodeBits(ps, sis, s);
  }

  /** Any other family f (not 0, not 0xE) sets bit f. */
  lemma PlainCommandBit(ps: seq<Pattern>, sis: seq<SampleInfo>, p: nat, r: nat, c: nat)
    requires p < |ps| && r < |ps[p]| && c < |ps[p][r]|
    requires var f := (ps[p][r][c].effect & 0x0f00) >> 8; f != 0 && f != 0xe
    ensures ModuleUsecode(ps, sis)[((ps[p][r][c].effect & 0x0f00) >> 8) as nat]
  {
    var f := ((ps[p][r][c].effect & 0x0f00) >> 8) as nat;
    assert Family(ps[p][r][c].effect) == Some(f);
    assert FamilyOccurs(ps, f);
    UsecodeBits(ps, sis, f);
  }

  lemma {:induction false} MaskBelowEmpty(i: nat)
    requires i <= 32
    ensures MaskBelow({}, i) == Zero()
  {
    if i > 0 {
      MaskBelowEmpty(i - 1);
    }
  }

  lemma {:induction false} MaskBelowSingleton(f: nat, i: nat)
    requires f < 32 && i <= 32
    ensures MaskBelow({f}, i) == if i <= f then Zero() else Zero()[Target(f) := true]
  {
    if i > 0 {
      MaskBelowSingleton(f, i - 1);
    }
  }

  /** A word of 32 bits denotes a number below 2^32: the usecode fits the program's u32. */
  lemma {:induction false} ValueBound(w: Word)
    ensures Value(w) < Pow2(|w|)
  {
    if |w| > 0 {
      ValueBound(w[1..]);
    }
  }

  /** A word with no bit set denotes 0. */
  lemma {:induction false} ValueNoBits(w: Word)
    requires forall k :: 0 <= k < |w| ==> !w[k]
    ensures Value(w) == 0
  {
    if |w| > 0 {
      ValueNoBits(w[1..]);
    }
  }

  /** Setting a clear bit `k` adds `1 << k` to the number. */
  lemma {:induction false} ValueSetBit(w: Word, k: nat)
    requires k < |w| && !w[k]
    ensures Value(w[k := true]) == Value(w) + Pow2(k)
  {
    if k == 0 {
      assert w[k := true][1..] == w[1..];
    } else {
      assert w[k := true][1..] == w[1..][k - 1 := true];
      ValueSetBit(w[1..], k - 1);
    }
  }

  lemma {:induction false} Pow2Add(a: nat, b: nat)
    ensures Pow2(a + b) == Pow2(a) * Pow2(b)
  {
    if a > 0 {
      Pow2Add(a - 1, b);
    }
  }

  lemma Pow2Of32()
    ensures Pow2(32) == 0x1_0000_0000
  {
    Pow2Add(8, 8);
    Pow2Add(16, 16);
  }

  /** The usecode, read as a number, fits in 32 bits. */
  lemma UsecodeFitsU32(ps: seq<Pattern>, sis: seq<SampleInfo>)
    ensures Value(ModuleUsecode(ps, sis)) <= U32_MAX
  {
    ValueBound(ModuleUsecode(ps, sis));
    Pow2Of32();
  }

  /** A module without commands and without finetune has usecode 0. */
  lemma SilentModuleUsecode(ps: seq<Pattern>, sis: seq<SampleInfo>)
    requires forall p, r, c :: 0 <= p < |ps| && 0 <= r < |ps[p]| && 0 <= c < |ps[p][r]| ==> ps[p][r][c].effect == 0
    requires forall k :: 0 <= k < |sis| ==> sis[k].finetune == 0
    ensures Value(ModuleUsecode(ps, sis)) == 0
  {
    var slots := FamiliesOf(Cells(ps));
    forall f | f in slots ensures false {
      FamiliesOfModule(ps, f);
    }
    assert slots == {};
    MaskBelowEmpty(32);
    ValueNoBits(ModuleUsecode(ps, sis));
  }

  /** A module whose only command is 0x0A01, without finetune, has usecode 0x400 (bit 10). */
  lemma SingleVolumeSlideUsecode(ps: seq<Pattern>, sis: seq<SampleInfo>, p: nat, r: nat, c: nat)
    requires forall p, r, c :: 0 <= p < |ps| && 0 <= r < |ps[p]| && 0 <= c < |ps[p][r]| ==>
               ps[p][r][c].effect == 0 || ps[p][r][c].effect == 0x0A01
    requires p < |ps| && r < |ps[p]| && c < |ps[p][r]| && ps[p][r][c].effect == 0x0A01
    requires forall k :: 0 <= k < |sis| ==> sis[k].finetune == 0
    ensures Value(ModuleUsecode(ps, sis)) == 0x400
  {
    var slots := FamiliesOf(Cells(ps));
    forall f | f in slots ensures f == 10 {
      FamiliesOfModule(ps, f);
    }
    assert FamilyOccurs(ps, 10) by {
      assert Family(ps[p][r][c].effect) == Some(10);
    }
    FamiliesOfModule(ps, 10);
    assert slots == {10};
    MaskBelowSingleton(10, 32);
    ValueNoBits(Zero());
    ValueSetBit(Zero(), 10);
  }

  /** The marked slots below `i`, in ascending order. */
  function SlotsBelow(slots: set<nat>, i: nat): (r: seq<nat>)
    ensures forall k :: 0 <= k < |r| ==> r[k] < i
    ensures forall k, l :: 0 <= k < l < |r| ==> r[k] < r[l]
    ensures forall s :: s in r <==> s < i && s in slots
  {
    if i == 0 then [] else SlotsBelow(slots, i - 1) + (if i - 1 in slots then [i - 1] else [])
  }

  /**
   * The effect-table slots the report lists under "Used effects" (one effect name per
   * slot), in table order: exactly the slots some cell of the module marks.
   */
  function UsedEffects(ps: seq<Pattern>): (r: seq<nat>)
    ensures forall k, l :: 0 <= k < l < |r| ==> r[k] < r[l]
    ensures forall s :: s in r <==> s < 32 && FamilyOccurs(ps, s)
  {
    var slots := FamiliesOf(Cells(ps));
    assert forall s :: s in slots <==> FamilyOccurs(ps, s) by {
      forall s ensures s in slots <==> FamilyOccurs(ps, s) {
        FamiliesOfModule(ps, s);
      }
    }
    SlotsBelow(slots, 32)
  }

  /** Reordering or repeating cells cannot change the usecode: it depends on the set of cells only. */
  lemma UsecodeDependsOnCellSet(ps1: seq<Pattern>, ps2: seq<Pattern>, sis: seq<SampleInfo>)
    requires forall ch :: ch in Cells(ps1) <==> ch in Cells(ps2)
    ensures ModuleUsecode(ps1, sis) == ModuleUsecode(ps2, sis)
  {
    var a, b := Cells(ps1), Cells(ps2);
    forall f ensures f in FamiliesOf(a) <==> f in FamiliesOf(b) {
      FamiliesOfMembership(a, f);
      FamiliesOfMembership(b, f);
      if f in FamiliesOf(a) {
        var k :| 0 <= k < |a| && Family(a[k].effect) == Some(f);
        assert a[k] in b;
      }
      if f in FamiliesOf(b) {
        var k :| 0 <= k < |b| && Family(b[k].effect) == Some(f);
        assert b[k] in a;
      }
    }
    assert FamiliesOf(a) == FamiliesOf(b);
  }
}

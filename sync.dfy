/**
 * The sync filter of the `merge` command: every cell of a merged pattern loses its
 * pitch and sample, and keeps its command only when the command steers playback
 * (pattern delay marker E8x, set speed, pattern break, position jump).
 */
module Sync {
  import opened Tracker
  import opened Marker
  import U = Usecode

  /** The command family nibble, bits 8..11. */
  function Nibble(e: bv16): bv16
  {
    (e & 0x0f00) >> 8
  }

  /** The commands sync mode keeps: E8x, and the families 0xB, 0xD and 0xF. */
  predicate SteersPlayback(e: bv16)
  {
    IsE8(e) || Nibble(e) in {0xb, 0xd, 0xf}
  }

  /**
   * The effect a synced cell keeps. The source tests bit masks (`e & 0x0d00 == 0x0d00`
   * holds for family 0xF as well as 0xD), and the union of the four tests is exactly
   * the set of steering commands.
   */
  function SyncEffect(e: bv16): (r: bv16)
    ensures SteersPlayback(e) ==> r == e
    ensures !SteersPlayback(e) ==> r == 0
  {
    if e & 0x0ff0 == 0x0e80 then e
    else if e & 0x0f00 == 0x0f00 then e
    else if e & 0x0d00 == 0x0d00 then e
    else if e & 0x0b00 == 0x0b00 then e
    else 0
  }

  /** A cell after the sync filter: no pitch, no sample, only a steering command. */
  function SyncChannel(ch: Channel): (r: Channel)
    ensures r.period == 0 && r.sampleNumber == 0
    ensures r.effect == 0 || r.effect == ch.effect
    ensures r.effect == ch.effect <==> SteersPlayback(ch.effect) || ch.effect == 0
  {
    Channel(0, 0, SyncEffect(ch.effect))
  }

  /** Filtering a filtered cell changes nothing. */
  lemma SyncIdempotent(ch: Channel)
    ensures SyncChannel(SyncChannel(ch)) == SyncChannel(ch)
  {
  }

  /** The marker the `insert` command writes survives the sync filter. */
  lemma SyncKeepsMarker(ch: Channel)
    requires IsE8(ch.effect)
    ensures SyncChannel(ch).effect == ch.effect
  {
  }

  /**
   * A synced cell marks at most one of the effect-table slots 11, 13, 15 and 24 (the
   * E8x slot), so merged patterns add nothing else to the usecode.
   */
  lemma SyncedFamilies(ch: Channel)
    ensures U.Family(SyncChannel(ch).effect).Some? ==> U.Family(SyncChannel(ch).effect).value in {11, 13, 15, 24}
  {
    var e := SyncChannel(ch).effect;
    if U.Family(e).Some? {
      assert SteersPlayback(ch.effect);
    }
  }
}

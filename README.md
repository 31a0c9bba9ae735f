# modtool core in Dafny

This project models the module-editing and analysis engine of `modtool`, a tool for
ProTracker modules and for the packed The Player 6.1A format derived from them. The engine
works on an already-decoded module. A module holds:

- a play order: 128 pattern-index bytes, of which the first `length` are active;
- patterns, each made of rows of note cells;
- up to 31 sample records.

A cell carries a period (pitch), a 1-based sample number (0 means none) and a packed effect.
In the effect, bits 8..11 hold the command family, and the extended family 0xE splits its
parameter into a sub-command nibble.

The model covers these operations:

- **Unused and empty patterns** (`Usage`). The pattern indices the active play order never
  names, with the tool's `as u8` truncation of the pattern count written out. The sample
  numbers no cell refers to. The patterns whose every cell is blank.
- **Pattern pruning** (`Pruning`, `ModTool.PTModule.RemoveUnusedPatterns`). The unused
  patterns are removed from the highest index down. After every removal, each active
  play-order entry above the removed index moves down by one. The result is proved to be
  the old pattern table without exactly the patterns the scan reported, the others in
  their old order. Every active entry is proved to name its pattern's new index, so the
  module plays the same patterns in the same order. For a module of fewer than 256
  patterns it is also proved to leave no pattern unused. From 256 patterns on, the scan's
  `as u8` truncation of the count hides the patterns from `count mod 256` on, and these
  are proved to survive. When the scan reports nothing (at exactly 256 patterns, for
  example), the module is proved unchanged.
- **Sample pruning** (`Pruning`, `ModTool.PTModule.RemoveUnusedSamples`). Unused sample
  numbers are removed from the highest down. Each removed record moves, emptied, to the end
  of the table. Every cell reference above it moves down by one. Each cell is proved to keep
  its contents and to name the same sample record as before. The order of the numbers in use
  is proved unchanged.
- **Usecode** (`Usecode`, `Mod2P61`). The 32-bit mask of effect families a module uses, as
  `modtool` prints it and as `mod2p61` prints it after the conversion. The
  imperative scan over a 32-entry table is proved equal to a bit-level specification.
- **Periods and note names** (`Notes`). The tally of how many cells use each period. The
  nearest-entry lookup in a period table, which keeps the first of equally near entries.
  The note label with its octave.
- **Merge with optional sync** (`Sync`, `ModTool.PTModule.Merge`). The patterns of a second
  module are appended, and its play order follows the first one's with indices offset. In
  sync mode every cell keeps only the commands that steer playback.
- **Marker insertion** (`Marker`, `ModTool.PTModule.InsertMarkers`). Every pattern without
  an E8x command gets E81 in its first cell whose effect is empty.
- **Statistics** (`Statistics.Stats`). The streaming minimum, maximum, sum and truncated
  average behind the sample statistics report.
- **Sample-number checks** (`SampleArgs`). The command line's checks of a sample number.
- **JSON pretty-printer** (`Pretty.PrettyFormatter2`). A formatter that prints scalar
  array items 16 to a line. Each call is specified by one pure step function over the
  formatter's state, and whole call sequences are proved to produce the intended layout.

The play order is a fixed 128-byte `array`. Operations that rewrite patterns, positions or
the table in place are methods of the class `ModTool.PTModule` with `modifies` clauses. The
scans that only compute are functions, or methods with loop invariants where the source
loops.

## Model

| member | source | states |
|---|---|---|
| Usage.UnusedBelow | src/bin/modtool.rs:211-222 | the indices below `n` absent from the play order, strictly ascending: `i` is listed iff `i < n` and `i` is not played |
| Usage.FindUnusedPatterns | src/bin/modtool.rs:211-222 | unused pattern indices, with the count truncated to `u8`: `i` is listed iff `i < count mod 256` and unplayed; the same without the truncation when the count is below 256 |
| Usage.AllPlayedNoneUnused | src/main.rs:156-163 | if the play order names every index below `n`, the unused list below `n` is empty |
| Usage.NoUnusedPatterns | src/bin/modtool.rs:211-222 | a play order naming every one of fewer than 256 patterns leaves none unused |
| Usage.UnreferencedUpTo | src/bin/modtool.rs:420-451 | the sample numbers 1..n that no cell refers to, strictly ascending, and exactly those |
| Usage.FindUnusedSamples | src/bin/modtool.rs:420-451 | for every number `1 <= s <= count`: `s` is listed iff no cell of any pattern carries it; the list is strictly ascending |
| Usage.ScanEmpty | src/bin/modtool.rs:241-262 | the early-exit scan's flag is true iff every cell of the pattern has period 0, sample 0 and effect 0 |
| Usage.EmptyBelow | src/main.rs:165-187 | the empty pattern indices below `n`, strictly ascending, and exactly those |
| Usage.EmptyPatterns | src/main.rs:165-187 | the "Empty patterns" listing holds `i` iff pattern `i` exists and is blank |
| Pruning.Reverse | src/bin/modtool.rs:401-418 | `Vec::reverse`: same length, element `k` is element `n-1-k` of the input |
| Pruning.RemoveAt | src/bin/modtool.rs:408 | `Vec::remove`: one shorter; entries before `i` kept, later ones shifted down by one |
| Pruning.ShiftDown | src/bin/modtool.rs:411-416 | each active play-order entry above `i` is one lower afterwards; every other entry is unchanged |
| Pruning.NextWhere | src/bin/modtool.rs:408-416 | the index map after one pattern removal: surviving indices above the removed one drop by one |
| Pruning.PatternsTrackedInit | src/bin/modtool.rs:401-418 | before any removal, the identity map tracks patterns and play order |
| Pruning.NextDropInPlace | src/bin/modtool.rs:405-408 | because removals run from the highest index down, the next index to remove still denotes its original pattern and is in range |
| Pruning.ContentsStep | src/bin/modtool.rs:408 | after one removal, every surviving original pattern is still found through the updated map |
| Pruning.InverseStep | src/bin/modtool.rs:408 | after one removal, every current index is still the image of exactly one surviving original pattern |
| Pruning.PatternStep | src/bin/modtool.rs:408 | one removal keeps the pattern map exact: survivors reachable, removed ones gone, indices below fixed |
| Pruning.PositionsStep | src/bin/modtool.rs:411-416 | one play-order shift keeps every active entry equal to the map's image of its original pattern |
| Pruning.PruneStep | src/bin/modtool.rs:406-417 | one loop iteration preserves the whole pruning invariant |
| Pruning.ReverseMembership | src/bin/modtool.rs:403 | reversing keeps exactly the same members |
| Pruning.ReverseDecreasing | src/bin/modtool.rs:403 | the reverse of a strictly ascending list is strictly descending |
| Pruning.UnusedDropList | src/bin/modtool.rs:402-403 | the reversed unused list is strictly descending, within the pattern count and never played |
| Pruning.EntriesFollow | src/bin/modtool.rs:401-418 | after pruning, every active entry plays the same pattern as before, and the relative order of the pattern indices is kept |
| Pruning.EveryPatternPlayed | src/bin/modtool.rs:401-418 | when every unplayed pattern was removed (each pattern kept is played), every remaining pattern is played |
| Pruning.NothingLeftUnused | src/bin/modtool.rs:401-418 | for a module of fewer than 256 patterns, the unused scan of the pruned module finds nothing |
| Pruning.PruneResult | src/bin/modtool.rs:401-418 | the final state of the loop is the promised result: exactly the patterns the scan reported gone, the rest kept in order, play order renumbered onto the new indices |
| Pruning.SurvivorsKept | src/bin/modtool.rs:401-418 | at the end of the loop, the inverse map lists the surviving original indices in ascending order, covering every index the scan did not report, and each active entry names the survivor of its old pattern |
| Pruning.NothingReportedNothingChanged | src/bin/modtool.rs:401-418 | when the scan reports no unused pattern, pruning leaves the patterns and the whole play order unchanged |
| Pruning.WrappedRangeSurvives | src/bin/modtool.rs:401-418 | every pattern at index `count mod 256` or above survives pruning, played or not |
| Pruning.KeptInOrder | src/bin/modtool.rs:401-418 | definition: the pattern table is the old one with the listed indices taken out, the survivors in ascending original order, every unlisted index among them |
| Pruning.EntriesRenamed | src/bin/modtool.rs:411-416 | definition: every active entry that named an existing pattern now names that pattern's position among the survivors |
| Pruning.PatternsPruned | src/bin/modtool.rs:401-418 | definition of the promised pattern-pruning outcome: the result is the old table without exactly the patterns the scan reported, the rest in their old order; every active entry names its pattern's new index; the order of pattern indices kept; out-of-range entries lowered by the number removed; inactive entries untouched; nothing left unused below 256 patterns |
| Pruning.Recycle | src/bin/modtool.rs:460-469 | the table pass for removing sample `i`: same length; records before `i` stay, later ones move up by one, and record `i` sits last with its length, repeat and data cleared |
| Pruning.NextSampleWhere | src/bin/modtool.rs:473-482 | the sample-number map after removing `i`: numbers above `i` drop by one, the rest stay |
| Pruning.Cleared | src/bin/modtool.rs:465-468 | a removed record keeps its name, finetune and volume, and has length, repeat start, repeat length and data cleared |
| Pruning.DecrementSample | src/bin/modtool.rs:476-479 | the cell rewrite for removing sample `i`: a number above `i` drops by one and stays at least `i`; period, effect and any other number are unchanged |
| Pruning.SamplesPruned | src/bin/modtool.rs:453-484 | definition of the promised sample-pruning outcome: same table size; the unused records cleared at the end, the lowest number last; every cell renumbered onto the same record as before |
| Pruning.SamplesTrackedInit | src/bin/modtool.rs:453-484 | before any removal, the identity map tracks table and cells |
| Pruning.NextSampleInPlace | src/bin/modtool.rs:457-469 | removing from the highest number down, the next number still denotes its original record |
| Pruning.CellsStep | src/bin/modtool.rs:473-482 | one cell pass renumbers every cell through the next sample map |
| Pruning.KeptStep | src/bin/modtool.rs:460-469 | after one removal, each kept record is found through the next map |
| Pruning.TailStep | src/bin/modtool.rs:460-469 | one removal appends the cleared record behind those removed before |
| Pruning.WhereStep | src/bin/modtool.rs:473-482 | one removal keeps the fixed points of the map, its shift beyond the table and its order |
| Pruning.SampleStep | src/bin/modtool.rs:458-483 | one loop iteration preserves the whole sample-pruning invariant |
| Pruning.UnusedSampleDropList | src/bin/modtool.rs:454-457 | the reversed unused list is strictly descending, within the table and never referred to |
| Pruning.ReferencedKept | src/bin/modtool.rs:453-484 | a sample number some cell uses is never removed |
| Pruning.TailResult | src/bin/modtool.rs:454-469 | at the end, the removed records sit, cleared, at the end of the table in removal order (highest number first), that is, in reverse of the ascending unused list |
| Pruning.CellsResult | src/bin/modtool.rs:473-482 | at the end, every cell holds its original contents, and its sample number names the same record as before |
| Pruning.SampleResult | src/bin/modtool.rs:453-484 | the final state is the promised result: same table size, kept records first, cleared records last, cells renumbered |
| Pruning.WhereIncreasing | src/bin/modtool.rs:473-482 | the final map is strictly increasing on the numbers that were kept |
| Pruning.SampleOrderResult | src/bin/modtool.rs:453-484 | renumbering keeps the order of the sample numbers the cells use |
| ModTool.RenumberSamples | src/bin/modtool.rs:473-482 | the cell pass: same shape; every sample number above `i` drops by one; nothing else changes |
| ModTool.RemoveSample | src/bin/modtool.rs:460-482 | one removal: the table becomes `Recycle(sis, i)` and every cell is decremented |
| ModTool.PruneSamples | src/bin/modtool.rs:453-484 | the whole operation on values: the sample-pruning result holds, and the order of used numbers is kept |
| ModTool.RemoveListedSamples | src/bin/modtool.rs:457-483 | removing a valid descending list one by one ends in the invariant's final state |
| ModTool.SampleRound | src/bin/modtool.rs:458-483 | one round moves the invariant from `k` removals to `k + 1` |
| ModTool.PTModule.constructor | src/bin/modtool.rs:401-418 | stands for the decoded `ptmf::PTModule` the codec hands over, whose fields the pruning (also 453-484) and merge (651-679) operations use: fields as given, with a 128-byte play order |
| ModTool.PTModule.RemoveUnusedPatterns | src/bin/modtool.rs:401-418 | in place: exactly the patterns the scan reported (the unplayed ones below `count mod 256`) removed, the rest kept in order, play order renumbered onto the new indices; samples, name and length untouched |
| ModTool.PTModule.ShiftPositions | src/bin/modtool.rs:411-416 | the play-order array becomes `ShiftDown` of its old contents |
| ModTool.PTModule.RemoveUnusedSamples | src/bin/modtool.rs:453-484 | in place: the sample-pruning result, and order of used numbers kept; play order and name untouched |
| ModTool.MergedPlayback | src/bin/modtool.rs:651-679 | after a merge, the first module's entries play their old patterns, and the second's entries play its (synced) patterns |
| ModTool.SyncedFrom | src/bin/modtool.rs:653-672 | definition: the patterns after the loop are those before it, passed cell by cell through the sync filter in sync mode and unchanged otherwise |
| ModTool.MergedInto | src/bin/modtool.rs:651-679 | definition of the merge outcome: patterns concatenated, play orders concatenated with the second offset by the first pattern count mod 256, lengths added |
| ModTool.PTModule.Merge | src/bin/modtool.rs:651-679 | patterns appended (synced in sync mode); the second play order follows the first with indices offset by the old count mod 256; length is the sum |
| ModTool.PTModule.AppendPatterns | src/bin/modtool.rs:653-674 | every pattern of the source, filtered in sync mode, appended in order |
| ModTool.PTModule.AppendPositions | src/bin/modtool.rs:676-679 | the source's active entries plus the offset land after the active entries here; everything else is unchanged |
| ModTool.PTModule.InsertMarkers | src/bin/modtool.rs:711-752 | each pattern gets the one-pattern treatment, with an outcome reported per pattern; nothing else changes |
| Sync.SyncEffect | src/bin/modtool.rs:660-669 | E8x and families 0xB, 0xD, 0xF pass unchanged; any other effect becomes 0 |
| Sync.SteersPlayback | src/bin/modtool.rs:660-668 | definition of the commands sync mode keeps: E8x and the families 0xB, 0xD and 0xF |
| Sync.SyncChannel | src/bin/modtool.rs:657-669 | a synced cell has no period and no sample, and keeps its effect iff that effect steers playback or is already 0 |
| Sync.SyncIdempotent | src/bin/modtool.rs:657-669 | filtering twice is filtering once |
| Sync.SyncKeepsMarker | src/bin/modtool.rs:660-668 | the E8x marker of `insert` survives the sync filter |
| Sync.SyncedFamilies | src/bin/modtool.rs:660-668 | a synced cell can only mark usecode slots 11, 13, 15 or 24 |
| Marker.SetMarker | src/bin/modtool.rs:738 | the pattern with E81 in cell (r, c) and every other cell unchanged |
| Marker.FirstFree | src/bin/modtool.rs:735-741 | definition: (r, c) holds an empty effect and every cell before it in row-major order holds a command |
| Marker.MarkerResult | src/bin/modtool.rs:711-752 | definition of one pattern's outcome: already marked iff it has an E8x command; otherwise marked at its first free cell, or "no free cell" and unchanged |
| Marker.ScanForE8 | src/bin/modtool.rs:714-725 | the flag is true iff some cell carries an E8x command |
| Marker.PlaceMarker | src/bin/modtool.rs:734-746 | writes E81 into the first cell in row-major order whose effect is 0; reports false and changes nothing if there is none |
| Marker.InsertMarker | src/bin/modtool.rs:711-752 | one pattern: already marked means unchanged; otherwise marked at its first free cell, or unchanged with "no free cell" |
| Marker.MarkerIsE8 | src/bin/modtool.rs:738 | the written command E81 is itself an E8x command |
| Marker.FirstFreeUnique | src/bin/modtool.rs:734-746 | the first free cell is unique |
| Marker.InsertedIsMarked | src/bin/modtool.rs:711-752 | after an insertion the pattern carries an E8x command |
| Marker.InsertIdempotent | src/bin/modtool.rs:711-752 | a second run changes nothing; every pattern that was or became marked reports "already marked" |
| Usecode.Family | src/bin/modtool.rs:322-332 | no slot iff the effect's family and parameter are both 0; otherwise a slot below 32 that is never 14 |
| Usecode.FamiliesOf | src/bin/modtool.rs:315-335 | the slots the 32-entry table marks after a scan of `cells`: each below 32 and never 14; none for no cells |
| Usecode.Target | src/bin/modtool.rs:345-350 | the bit a marked slot sets: its own number, except slot 0, which sets bit 8; never bit 0, and below 32 for a slot below 32 |
| Usecode.UsesFinetune | src/bin/modtool.rs:354-360 | definition of the finetune test: some sample record has a nonzero finetune |
| Usecode.Zero | src/bin/modtool.rs:337 | the 32-bit word with no bit set |
| Usecode.Pow2 | src/bin/modtool.rs:347-349 | the value of `1 << k`, at least 1 |
| Usecode.MaskBelow | src/bin/modtool.rs:337-352 | the partial mask is 32 bits wide |
| Usecode.ModuleUsecode | src/bin/modtool.rs:314-360 | the module's usecode, a 32-bit word; `Usecode.UsecodeBits` gives each of its bits |
| Usecode.UsecodeOf | src/bin/modtool.rs:337-360 | the usecode for a slot set is 32 bits wide |
| Usecode.FamiliesOfMembership | src/bin/modtool.rs:315-335 | slot `f` is marked iff some scanned cell's effect maps to `f` |
| Usecode.FamiliesOfModule | src/bin/modtool.rs:315-335 | the marked slots are exactly the slots some cell of some pattern uses |
| Usecode.MaskBelowBits | src/bin/modtool.rs:337-352 | bit `b` of the partial mask is set iff a marked slot below `i` targets it, slot 0 targeting bit 8 |
| Usecode.FullMaskBits | src/bin/modtool.rs:337-352 | bit 8 stands for slots 0 and 8, bit 0 for no slot, any other bit for its own slot |
| Usecode.UsecodeOfBits | src/bin/modtool.rs:337-360 | bit 0 is the finetune flag; the other bits are the mask's |
| Usecode.UsecodeBits | src/bin/modtool.rs:314-360 | bit `b` of a module's usecode, in terms of the cells and the sample records |
| Usecode.NoBit14 | src/bin/modtool.rs:322-332 | bit 14 is never set, because family 0xE moves to bits 16..31 |
| Usecode.BareCommandSetsBit8 | src/bin/modtool.rs:345-347 | family 0 with a nonzero parameter sets bit 8, and leaves bit 0 to the finetune flag |
| Usecode.ExtendedCommandBit | src/bin/modtool.rs:329-331 | an extended command 0xEsx sets bit 16 + s |
| Usecode.PlainCommandBit | src/bin/modtool.rs:322-332 | any other nonzero family `f` sets bit `f` |
| Usecode.MaskBelowEmpty | src/bin/modtool.rs:337-352 | no marked slot gives the zero mask |
| Usecode.MaskBelowSingleton | src/bin/modtool.rs:337-352 | a single marked slot gives exactly its target bit, once the scan passes it |
| Usecode.ValueBound | src/bin/modtool.rs:337-352 | a word of `n` bits denotes a number below 2^n |
| Usecode.ValueNoBits | src/bin/modtool.rs:337 | a word with no bit set denotes 0 |
| Usecode.ValueSetBit | src/bin/modtool.rs:345-350 | setting a clear bit `k` adds `1 << k` |
| Usecode.UsecodeFitsU32 | src/bin/modtool.rs:337-360 | the usecode, read as a number, fits the `u32` it is kept in |
| Usecode.SilentModuleUsecode | src/bin/modtool.rs:314-360 | a module without commands and without finetune has usecode 0 |
| Usecode.SingleVolumeSlideUsecode | src/bin/modtool.rs:314-360 | a module whose only command is 0x0A01, without finetune, has usecode 0x400 |
| Usecode.SlotsBelow | src/bin/modtool.rs:337-352 | the marked slots below `i`, strictly ascending, and exactly those |
| Usecode.UsedEffects | src/bin/modtool.rs:337-352 | the listed effect slots are strictly ascending, and are exactly the slots below 32 some cell uses |
| Usecode.UsecodeDependsOnCellSet | src/bin/modtool.rs:314-360 | reordering or repeating cells cannot change the usecode |
| Mod2P61.SlotOfEffect | src/bin/mod2p61.rs:164-174 | the slot the converter's loop body computes is the slot `Usecode.Family` names |
| Mod2P61.FamiliesOfConcat | src/bin/mod2p61.rs:157-177 | the slots marked by two runs of cells are the union of the slots each run marks |
| Mod2P61.MarkRow | src/bin/mod2p61.rs:162-175 | after one row, a table entry is set iff it was set before or some cell of the row marks it |
| Mod2P61.MarkEffects | src/bin/mod2p61.rs:157-177 | a fresh 32-entry table whose entry `k` is set iff some cell of the module marks slot `k` |
| Mod2P61.GetUsecode | src/bin/mod2p61.rs:155-201 | the converter's usecode equals the one `modtool` reports, bit for bit |
| Mod2P61.ConcatBytes | src/bin/mod2p61.rs:104-112 | the song data followed by the sample data, each byte in place |
| Tracker.PatternCellsMembership | src/bin/modtool.rs:318-320 | a cell value is in the row-major scan of a pattern iff it sits at some row and channel |
| Tracker.CellsMembership | src/bin/modtool.rs:316-320 | a cell value is in the module scan iff it sits at some pattern, row and channel |
| Tracker.MapPatternCells | src/bin/modtool.rs:473-482 | the cell-by-cell rewrite of one pattern: same shape, `f` of each cell |
| Notes.PeriodCountConcat | src/bin/modtool.rs:266-279 | counting a period over two runs of cells adds the counts |
| Notes.PeriodCount | src/bin/modtool.rs:271-276 | how many cells carry a period, at most the number of cells |
| Notes.Tally | src/bin/modtool.rs:266-279 | definition of an exact tally: the keys are the nonzero periods in use, each mapped to its count |
| Notes.PeriodCountPositive | src/bin/modtool.rs:266-279 | a period is counted at least once iff some cell carries it |
| Notes.CountRow | src/bin/modtool.rs:271-277 | the tally stays exact when one more row is counted |
| Notes.CountPeriods | src/bin/modtool.rs:266-279 | the keys are exactly the nonzero periods in use, each with the number of cells that carry it |
| Notes.TallyKeys | src/bin/modtool.rs:266-279 | a period is a key iff it is nonzero and carried by some cell |
| Notes.NearestUnique | src/bin/modtool.rs:283-292 | the nearest entry is unique, because the strict comparison keeps the first of equally near entries |
| Notes.NearestPeriod | src/bin/modtool.rs:283-292 | with an empty table: -1 and 65536; otherwise the first entry at the least distance, with that distance |
| Notes.ExactMatchHasZeroDistance | src/bin/modtool.rs:303-306 | the nearest distance is 0 iff the period is in the table |
| Notes.ResolveNote | src/bin/modtool.rs:294-308 | no label iff the table is empty; otherwise the nearest entry's name, octave `i / 12` (+2 in scientific pitch notation) and "~" iff inexact |
| Statistics.MinOfIsLeast | src/bin/modtool.rs:128 | the running minimum bounds every value from below, and is one of them when there is any |
| Statistics.MinOf | src/bin/modtool.rs:128 | definition of the running minimum, starting from `u32::MAX`; its meaning is given by `Statistics.MinOfIsLeast` |
| Statistics.MaxOf | src/bin/modtool.rs:129 | definition of the running maximum, starting from 0; its meaning is given by `Statistics.MaxOfIsGreatest` |
| Statistics.SumOf | src/bin/modtool.rs:130 | definition of the running sum; bounded by `Statistics.SumAtLeast` and `Statistics.SumAtMost` |
| Statistics.MaxOfIsGreatest | src/bin/modtool.rs:129 | the running maximum bounds every value from above, and is one of them when there is any |
| Statistics.SumAtLeast | src/bin/modtool.rs:130 | a lower bound of each value bounds the sum by `n` copies of it |
| Statistics.SumAtMost | src/bin/modtool.rs:130 | an upper bound of each value bounds the sum by `n` copies of it |
| Statistics.DivBetween | src/bin/modtool.rs:135-137 | the truncated quotient of a sum between `n*lo` and `n*hi` lies between `lo` and `hi` |
| Statistics.AverageBetween | src/bin/modtool.rs:135-137 | the truncated average lies between the minimum and the maximum |
| Statistics.Stats.constructor | src/bin/modtool.rs:123-125 | minimum `u32::MAX`, everything else 0, empty history |
| Statistics.Stats.Update | src/main.rs:71-77 | the history gains the value; minimum, maximum, sum and count still summarise it; the value lies between minimum and maximum |
| Statistics.Stats.Done | src/main.rs:79-81 | the average is the sum divided by the count, truncated, and lies between minimum and maximum |
| SampleArgs.CheckNumber | src/main.rs:203-209 | accepted iff 1 <= number <= 31 |
| SampleArgs.SaveChoice | src/main.rs:278-282 | invalid iff the range check fails; "not available" iff valid but beyond the samples held; otherwise the zero-based index `number - 1` |
| SampleArgs.EverySampleSavable | src/main.rs:278-282 | every held sample among the first 31 is saved under its one-based number |
| Pretty.RepeatLength | src/pretty/mod.rs:5-14 | the indentation for level `n` is `n` units long |
| Pretty.Repeat | src/pretty/mod.rs:5-14 | definition of `n` copies of the indent unit; `Pretty.RepeatLength` and `Pretty.RepeatAdd` give its length and composition |
| Pretty.RepeatAdd | src/pretty/mod.rs:5-14 | `a + b` levels of indentation are `a` levels then `b` |
| Pretty.DefaultIndentIsSpaces | src/pretty/mod.rs:26-28 | with the default unit, level `n` is `2n` spaces |
| Pretty.WriteIndent | src/pretty/mod.rs:5-14 | the loop writes exactly `n` copies of the unit |
| Pretty.WriteLineBreak | src/pretty/mod.rs:64-70 | writes `\n` (first entry) or `,\n`, then the indentation |
| Pretty.LineBreak | src/pretty/mod.rs:64-70 | definition of `\n` (first entry) or `,\n`, followed by the indentation for the level |
| Pretty.Closing | src/pretty/mod.rs:56-61 | definition of a closing bracket, preceded by a newline and the indentation when the container holds a value |
| Pretty.Writer.WriteAll | src/pretty/mod.rs:10 | `write_all`: the stream gains exactly the given bytes, appended |
| Pretty.Step | src/pretty/mod.rs:47-110 | a call fails (a panic in a debug build) iff it closes a container at depth 0; otherwise the depth changes by +1/-1/0 as the call opens, closes or neither, and the item counter stays below 16 |
| Pretty.RunOne | src/pretty/mod.rs:47-110 | a run of one call is that call's step |
| Pretty.RunCons | src/pretty/mod.rs:47-110 | a run is its first step followed by the rest |
| Pretty.RunConcat | src/pretty/mod.rs:47-110 | a run of `a + b` is a run of `a` followed by a run of `b` |
| Pretty.NetFront | src/pretty/mod.rs:47-110 | the net depth change of a call sequence is the first call's plus the rest's |
| Pretty.RunDepth | src/pretty/mod.rs:47-110 | a call sequence runs without failing (a panic in a debug build) iff no prefix closes more than is open, and then ends at the start depth plus its net change |
| Pretty.RunItemCount | src/pretty/mod.rs:63-80 | the item counter stays within 0..15 under any call sequence |
| Pretty.CounterStep | src/pretty/mod.rs:77-80 | the counter's wrap-around at 16 agrees with counting modulo 16 |
| Pretty.ArrayItemHead | src/pretty/mod.rs:63-80 | one scalar array item writes its separator then its text, and advances the counter |
| Pretty.ArrayItemsRun | src/pretty/mod.rs:63-80 | scalar items write their text with a line break and indentation before every 16th item and `, ` between the others |
| Pretty.FlatArray | src/pretty/mod.rs:47-80 | a flat array of scalars is `[`, the items laid out 16 to a line, a newline and indentation, then `]`; an empty one is `[]` |
| Pretty.ObjectEntryHead | src/pretty/mod.rs:96-110 | one entry writes its key on a new indented line, `: `, then its value |
| Pretty.ObjectEntriesRun | src/pretty/mod.rs:96-110 | entries write each key on its own indented line, `: ` and the value, with `,` between entries |
| Pretty.FlatObject | src/pretty/mod.rs:81-110 | a flat object is `{`, its entries one per line, a newline and indentation, then `}`; an empty one is `{}` |
| Pretty.PrettyFormatter2.New | src/pretty/mod.rs:26-28 | two-space indentation, depth 0, no value, counter 0 |
| Pretty.PrettyFormatter2.WithIndent | src/pretty/mod.rs:31-38 | the given indentation unit, depth 0, no value, counter 0 |
| Pretty.PrettyFormatter2.BeginArray | src/pretty/mod.rs:47-52 | state and output as `Step` gives for opening an array: depth +1, no value yet, `[` written |
| Pretty.PrettyFormatter2.EndArray | src/pretty/mod.rs:53-62 | state and output as `Step` gives for closing an array: depth -1, and `]` on a new line if it held a value |
| Pretty.PrettyFormatter2.BeginArrayValue | src/pretty/mod.rs:63-76 | as `Step` gives: a line break and indentation when the counter is 0, `, ` otherwise; the counter advances modulo 16 |
| Pretty.PrettyFormatter2.EndArrayValue | src/pretty/mod.rs:77-80 | as `Step` gives: nothing written, the container marked as holding a value, the counter unchanged |
| Pretty.PrettyFormatter2.BeginObject | src/pretty/mod.rs:81-85 | as `Step` gives: depth +1, no value yet, `{` written |
| Pretty.PrettyFormatter2.EndObject | src/pretty/mod.rs:86-95 | as `Step` gives: depth -1, and `}` on a new line if it held a value |
| Pretty.PrettyFormatter2.BeginObjectKey | src/pretty/mod.rs:96-103 | as `Step` gives: `\n` or `,\n`, then the indentation; the state is unchanged |
| Pretty.PrettyFormatter2.BeginObjectValue | src/pretty/mod.rs:104-106 | as `Step` gives: `: ` written, the state unchanged |
| Pretty.PrettyFormatter2.EndObjectValue | src/pretty/mod.rs:107-110 | as `Step` gives: nothing written, value recorded |

## Left out

- Reading and writing modules: the ProTracker and The Player codecs, sample-data packing, and
  `mod2p61`'s re-read of its own output. They are external collaborators. Only the byte
  concatenation before the re-read is modelled.
- Console output: the report texts and their layout are not modelled, only the values the
  reports print.
- The `docopt` argument parsing and `usize::from_str(...).unwrap()`: a sample number arrives
  already parsed.
- The period table and the note names come from the codec crate. They are parameters of
  `Notes.NearestPeriod` and `Notes.ResolveNote`.
- Notes.CountPeriods: the tally's counts are unbounded (`nat`), whereas the source keeps
  them as `u16` in a `BTreeMap`, which could overflow past 65535 cells with one period.
- Statistics.Stats.Update: `sum` is unbounded, where the source's `usize` could in
  principle overflow. The count is kept a `u32`, and Update requires room for one more.
- Statistics.Stats.Done: requires at least one value, because the source divides by the
  count. `show_sample_stats`, which creates and feeds the accumulators, is not part of this
  model, and neither is `show_summary`. That caller feeds only samples of nonzero length
  and then calls `done` on every accumulator, so for a module whose samples all have
  length 0 the tool divides by zero and panics (src/bin/modtool.rs:166-193, src/main.rs:131).
- ModTool.PruneSamples: rebuilds the table and the cells as values inside the method. The
  source mutates the records and the cells in place. The class method
  `ModTool.PTModule.RemoveUnusedSamples` assigns the results back to the object's fields.
- Usage.FindUnusedSamples: requires at most 31 sample records. The source indexes its
  32-entry table of used samples by every record number, which panics above 31.
- ModTool.PTModule.RemoveUnusedSamples: requires at most 31 sample records. The source's
  32-entry table of used samples panics on a record number above 31.
- ModTool.PTModule.Merge: requires that the merged play order fits 128 entries, and that each
  offset entry stays below 256. In the source, the first overflows the position array, and
  the second overflows the `u8` addition. The first panics in every build; the second panics
  in a debug build and wraps in a release build. The `as u8` truncation of the
  offset is modelled.
- ModTool.PTModule.Merge: the `merge` command's loop over several files is not modelled. One
  call models one file.
- Sample-data related reports: the statistics over sample lengths, and the warnings about
  sample numbers above 31, are not part of this model.
- Pretty: serde's own formatting of scalars and of keys is abstracted as an opaque byte string
  per scalar (`Event.Scalar`).
- Pretty: the writer's `io::Result` errors are not modelled. Every write succeeds.
- Pretty: the depth is unbounded, where the source uses `usize`. Closing at depth 0 panics in
  a debug build of the source and wraps in a release build. `EndArray` and `EndObject`
  require a positive depth, and `Step` returns None there; the wrapped state is not modelled.
- Pretty.RunItemCount: the item counter is shared by nested arrays and is not reset by
  `begin_object`, as in the source. The exact layout is proved only for flat arrays and
  objects of scalars.

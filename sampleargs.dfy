/**
 * The checks on the sample number given on the command line: the number must name
 * one of the 31 sample slots, and the `save` command further needs that sample to be
 * present in the module.
 */
module SampleArgs {

  /** The number of sample slots of a ProTracker module. */
  const SAMPLE_SLOTS: nat := 31

  /** What the checks make of a requested sample number. */
  datatype SampleChoice =
    | InvalidNumber               // outside 1..31: rejected before any file is read
    | NotAvailable(count: nat)    // a valid number beyond the samples the module holds
    | Index(index: nat)           // the zero-based sample to write out

  /** The up-front check: only the numbers 1 to 31 are accepted. */
  function CheckNumber(number: nat): (ok: bool)
    ensures ok <==> 1 <= number <= SAMPLE_SLOTS
  {
    !(number < 1 || number > SAMPLE_SLOTS)
  }

  /**
   * The `save` command: the up-front check, then the zero-based index `number - 1` is
   * compared with the number of samples the module holds.
   */
  function SaveChoice(number: nat, count: nat): (r: SampleChoice)
    ensures r.InvalidNumber? <==> !CheckNumber(number)
    ensures r.NotAvailable? ==> r.count == count && CheckNumber(number)
    ensures r.Index? <==> CheckNumber(number) && number <= count
    ensures r.Index? ==> r.index < count && r.index < SAMPLE_SLOTS && r.index + 1 == number
  {
    if !CheckNumber(number) then InvalidNumber
    else
      var index := number - 1;
      if index >= count then NotAvailable(count) else Index(index)
  }

  /** Every sample the module holds, up to the 31st, can be saved under its one-based number. */
  lemma EverySampleSavable(count: nat, index: nat)
    requires index < count && index < SAMPLE_SLOTS
    ensures SaveChoice(index + 1, count) == Index(index)
  {
  }
}

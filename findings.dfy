/** The journal loop bound as the driver writes it. Under Python 2.7
    `math.ceil` returns a float, so the ratio is a float; when it is below
    the journal partitions still owed it becomes the bound of `range`, and
    `range` refuses a float bound with a TypeError. Only the other branch,
    which takes the integer count still owed, yields a usable bound. */
module Findings {
  import opened Wrappers
  import opened NailgunLayout

  /** The bound of the journal loop as written: `None` stands for the
      TypeError `range` raises on the float ratio. */
  function JournalEndAsWritten(ratio: nat, journalsLeft: nat): (r: Option<nat>)
    ensures r.Some? ==> r.value == JournalEnd(ratio, journalsLeft)
  {
    if ratio < journalsLeft then None else Some(journalsLeft)
  }

  /** Five OSD volumes and two journal volumes: the ratio is 3, the first
      journal device fails as written, while the intended bound spreads
      the journals 3 and 2 over the two devices, as the driver's own
      comment describes. */
  lemma FiveOsdsTwoJournals()
    ensures Ratio(5, 2) == 3
    ensures JournalEndAsWritten(Ratio(5, 2), 5).None?
    ensures JournalEnd(Ratio(5, 2), 5) == 3 && JournalEnd(Ratio(5, 2), 5 - 3) == 2
  {
    assert Ratio(1, 2) == 1;
    assert Ratio(3, 2) == 2;
  }

  /** As written, the loop bound fails exactly when more than one journal
      device is still to be filled, i.e. whenever the ratio is below the
      journal partitions owed; the intended bound is defined for every
      ratio. */
  lemma AsWrittenFailsIff(ratio: nat, journalsLeft: nat)
    ensures JournalEndAsWritten(ratio, journalsLeft).None? <==> JournalEnd(ratio, journalsLeft) < journalsLeft
  {
  }
}

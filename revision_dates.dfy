/** The fixed spaced-repetition offsets of Backend/utils/revisionDates.js. */
module RevisionDates {

  /** The date of revision `step` for a task first assigned on `baseDate`: steps 1, 2
      and 3 fall 3, 6 and 15 days after the base; any other step leaves the base date. */
  function RevisionDate(baseDate: int, step: int): (date: int)
    ensures baseDate <= date <= baseDate + 15
    ensures date == baseDate <==> step != 1 && step != 2 && step != 3
  {
    if step == 1 then baseDate + 3
    else if step == 2 then baseDate + 6
    else if step == 3 then baseDate + 15
    else baseDate
  }

  /** Each offset is measured from the original base, not from the previous step, so
      steps 1 to 3 give strictly increasing dates and step 3 is 15 days out (not 3 + 6 + 15). */
  lemma RevisionDatesIncreasing(baseDate: int)
    ensures RevisionDate(baseDate, 1) < RevisionDate(baseDate, 2) < RevisionDate(baseDate, 3)
    ensures RevisionDate(baseDate, 3) - baseDate == 15
    ensures RevisionDate(baseDate, 2) != RevisionDate(RevisionDate(baseDate, 1), 2)
  {
  }
}

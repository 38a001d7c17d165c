/** The card that displays one schedule row. It recomputes the days until due
    from the row's date on its own, ignoring the engine's derived fields and
    the row's status, and its overdue rule differs from the engine's. */
module VaccineCard {

  import opened Common
  import opened CivilDates
  import opened Records
  import opened VaccinationService

  /** What the card shows for a row at the instant `now`. */
  datatype Card = Card(daysUntilDue: int, isOverdue: bool, isDueSoon: bool, daysText: Option<string>, showApplyButton: bool)

  /** `!vaccine.completed_date`: absent and empty text are both falsy. */
  predicate NoCompletedDate(row: ScheduleRow)
  {
    row.completedDate.None? || row.completedDate.value == ""
  }

  function CardOf(row: ScheduleRow, now: int): (c: Card)
    ensures c.daysUntilDue == DaysUntil(row.scheduledDate, now)
    // overdue: the whole scheduled day has passed
    ensures c.isOverdue <==> DayStart(row.scheduledDate) + MsPerDay <= now
    // due soon: from seven days before the scheduled date until that day ends
    ensures c.isDueSoon <==> DayStart(row.scheduledDate) - 7 * MsPerDay <= now < DayStart(row.scheduledDate) + MsPerDay
    ensures !(c.isOverdue && c.isDueSoon)
    ensures c.daysText.Some? <==> NoCompletedDate(row)
    ensures c.daysText.Some? && c.isOverdue ==> c.daysText.value == NatToString(-c.daysUntilDue) + " dias em atraso"
    ensures c.daysText.Some? && !c.isOverdue ==> c.daysUntilDue >= 0 && c.daysText.value == NatToString(c.daysUntilDue) + " dias"
    ensures c.showApplyButton <==> row.status == Pending
  {
    var d := DaysUntil(row.scheduledDate, now);
    var overdue := d < 0;
    var dueSoon := d <= 7 && d >= 0;
    var text := if overdue then IntToString(if d < 0 then -d else d) + " dias em atraso" else IntToString(d) + " dias";
    Card(d, overdue, dueSoon, if NoCompletedDate(row) then Some(text) else None, row.status == Pending)
  }

  /** For a pending row the card's overdue flag implies the engine's, and both
      rules agree on due soon. */
  lemma CardAgreesWithEngine(row: ScheduleRow, calendar: seq<CalendarEntry>, child: ChildInfo, now: int)
    requires row.status == Pending
    ensures CardOf(row, now).isOverdue ==> ViewOf(row, calendar, child, now).isOverdue
    ensures CardOf(row, now).isDueSoon == ViewOf(row, calendar, child, now).isDueSoon
    ensures CardOf(row, now).daysUntilDue == ViewOf(row, calendar, child, now).daysUntilDue.value
  {
  }

  /** On the scheduled day itself, after midnight, the engine calls a pending
      dose overdue while the card shows it due soon, with zero days to go. */
  lemma RulesDisagreeOnTheDay(row: ScheduleRow, calendar: seq<CalendarEntry>, child: ChildInfo)
    requires row.status == Pending
    ensures var now := DayStart(row.scheduledDate) + 1;
            && ViewOf(row, calendar, child, now).isOverdue
            && !CardOf(row, now).isOverdue
            && CardOf(row, now).isDueSoon
            && CardOf(row, now).daysUntilDue == 0
  {
  }

  /** The card ignores status: a completed dose from the past is overdue on
      the card, while the engine raises no alert for it. */
  lemma CompletedRowsLookOverdueOnTheCard(row: ScheduleRow, calendar: seq<CalendarEntry>, child: ChildInfo, now: int)
    requires row.status == Completed
    requires DayStart(row.scheduledDate) + MsPerDay <= now
    ensures CardOf(row, now).isOverdue && !ViewOf(row, calendar, child, now).isOverdue
  {
  }
}

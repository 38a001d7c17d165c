/** The vaccination schedule engine: it projects the active reference calendar
    onto a child's birth date, stores one pending row per dose, derives the
    overdue / due-soon state of each row on read, and counts statistics over
    that read view. The two tables are fields of `VaccinationStore`. */
module VaccinationService {

  import opened Common
  import opened CivilDates
  import opened Sorting
  import opened Records

  datatype ServiceError = AlreadyExists | BabyNotFound | BabyLookupFailed

  /** The text of the `Error` each failure throws. */
  function ErrorMessage(e: ServiceError): string
  {
    match e
    case AlreadyExists => "Já existe um cronograma de vacinação para este bebê"
    case BabyNotFound => "Bebê não encontrado"
    case BabyLookupFailed => "Erro ao buscar dados do bebê"
  }

  datatype Result<T> = Ok(value: T) | Err(error: ServiceError)

  datatype Outcome = Pass | Fail(error: ServiceError)

  // ---------------------------------------------------------------------------
  // Keys and orderings

  function EntryId(e: CalendarEntry): Id { e.id }
  function BabyId(b: Baby): Id { b.id }
  function RowId(r: ScheduleRow): Id { r.id }
  function DoseKey(r: ScheduleRow): (Id, Id) { (r.childId, r.calendarId) }

  /** `.order('age_months', { ascending: true })`. */
  function ByAge(a: CalendarEntry, b: CalendarEntry): bool { a.ageMonths <= b.ageMonths }

  /** `.order('scheduled_date', { ascending: true })`. */
  function ByDate(a: ScheduleRow, b: ScheduleRow): bool { a.scheduledDate <= b.scheduledDate }

  lemma OrderingsArePreorders()
    ensures TotalPreorder(ByAge) && TotalPreorder(ByDate)
  {
  }

  // ---------------------------------------------------------------------------
  // The reference calendar

  predicate IsActive(e: CalendarEntry) { e.isActive }

  lemma ActiveCalendarFacts(calendar: seq<CalendarEntry>)
    ensures forall e :: multiset(Filter(calendar, IsActive))[e] == if e.isActive then multiset(calendar)[e] else 0
    ensures DistinctBy(calendar, EntryId) ==> DistinctBy(SortBy(Filter(calendar, IsActive), ByAge), EntryId)
  {
    forall e ensures multiset(Filter(calendar, IsActive))[e] == if e.isActive then multiset(calendar)[e] else 0 {
      FilterMultiset(calendar, IsActive, e);
    }
    if DistinctBy(calendar, EntryId) {
      FilterKeepsDistinct(calendar, IsActive, EntryId);
      SortByKeepsDistinct(Filter(calendar, IsActive), ByAge, EntryId);
    }
  }

  /** `.eq('is_active', true).order('age_months', { ascending: true })`. */
  function ActiveCalendar(calendar: seq<CalendarEntry>): (r: seq<CalendarEntry>)
    ensures SortedBy(r, ByAge)
    ensures forall i :: 0 <= i < |r| ==> r[i].isActive && r[i] in calendar
    ensures forall e :: multiset(r)[e] == if e.isActive then multiset(calendar)[e] else 0
    ensures DistinctBy(calendar, EntryId) ==> DistinctBy(r, EntryId)
  {
    var active := Filter(calendar, IsActive);
    OrderingsArePreorders();
    SortBySorted(active, ByAge);
    ActiveCalendarFacts(calendar);
    var r := SortBy(active, ByAge);
    assert forall i :: 0 <= i < |r| ==> r[i] in multiset(active);
    r
  }

  /** `calendar?.find(c => c.id === item.vaccination_calendar_id)`. */
  function FindEntry(calendar: seq<CalendarEntry>, id: Id): (r: Option<CalendarEntry>)
    ensures r.Some? ==> r.value in calendar && r.value.id == id
    ensures r.None? <==> forall i :: 0 <= i < |calendar| ==> calendar[i].id != id
  {
    Find(calendar, (e: CalendarEntry) => e.id == id)
  }

  // ---------------------------------------------------------------------------
  // Schedule generation

  /** The identifier the store assigns to the `n`-th row it ever inserts. */
  function RowIdFor(n: nat): Id
  {
    NatToString(n)
  }

  /** The row built for one calendar entry: pending, dated birth date plus the entry's age in months. */
  function NewRow(childId: Id, birth: CivilDate, e: CalendarEntry, id: Id): ScheduleRow
    requires 1 <= birth.month <= 12
  {
    ScheduleRow(id, childId, e.id, AddMonths(birth, e.ageMonths), Pending, None, None, None)
  }

  /** `calendar.map(vaccine => ({ ... }))`: one new row per entry, in entry order. */
  function NewSchedule(childId: Id, birth: CivilDate, entries: seq<CalendarEntry>, firstId: nat): seq<ScheduleRow>
    requires 1 <= birth.month <= 12
  {
    seq(|entries|, i requires 0 <= i < |entries| => NewRow(childId, birth, entries[i], RowIdFor(firstId + i)))
  }

  /** Entries in ascending age order give rows in ascending date order. */
  lemma BatchSorted(childId: Id, birth: CivilDate, entries: seq<CalendarEntry>, firstId: nat)
    requires 1 <= birth.month <= 12
    requires SortedBy(entries, ByAge)
    ensures SortedBy(NewSchedule(childId, birth, entries, firstId), ByDate)
  {
    var batch := NewSchedule(childId, birth, entries, firstId);
    forall i, j | 0 <= i < j < |batch| ensures ByDate(batch[i], batch[j]) {
      assert ByAge(entries[i], entries[j]);
      if entries[i].ageMonths < entries[j].ageMonths {
        AddMonthsIncreasing(birth, entries[i].ageMonths, entries[j].ageMonths);
      }
    }
  }

  lemma BatchFields(childId: Id, birth: CivilDate, entries: seq<CalendarEntry>, firstId: nat)
    requires 1 <= birth.month <= 12
    ensures var batch := NewSchedule(childId, birth, entries, firstId);
            && |batch| == |entries|
            && (forall i :: 0 <= i < |batch| ==>
                  && batch[i].id == RowIdFor(firstId + i)
                  && batch[i].childId == childId
                  && batch[i].calendarId == entries[i].id
                  && batch[i].scheduledDate == AddMonths(birth, entries[i].ageMonths)
                  && batch[i].status == Pending
                  && batch[i].completedDate.None? && batch[i].location.None? && batch[i].notes.None?)
  {
  }

  /** What generation inserts: one pending row per active entry, in ascending
      age order, dated by month addition, with ascending dates. */
  lemma GeneratedRows(childId: Id, birth: CivilDate, calendar: seq<CalendarEntry>, firstId: nat)
    requires 1 <= birth.month <= 12
    ensures var entries := ActiveCalendar(calendar);
            var batch := NewSchedule(childId, birth, entries, firstId);
            && |batch| == Count(calendar, IsActive)
            && (forall i :: 0 <= i < |batch| ==>
                  && batch[i].childId == childId
                  && batch[i].calendarId == entries[i].id
                  && batch[i].scheduledDate == AddMonths(birth, entries[i].ageMonths)
                  && batch[i].status == Pending
                  && batch[i].completedDate.None? && batch[i].location.None? && batch[i].notes.None?)
            && SortedBy(batch, ByDate)
  {
    var entries := ActiveCalendar(calendar);
    assert |entries| == Count(calendar, IsActive) by {
      assert entries == SortBy(Filter(calendar, IsActive), ByAge);
    }
    BatchSorted(childId, birth, entries, firstId);
    BatchFields(childId, birth, entries, firstId);
  }

  // ---------------------------------------------------------------------------
  // Mark as applied

  /** A member of a JSON request body as it reaches an update: missing
      (`undefined`, which the update drops), an explicit `null`, or text. */
  datatype BodyField = Absent | Null | Text(text: string)

  /** The column after an update that carries `value`: a missing member leaves
      it as it was, `null` clears it, and text is written. */
  function Patched(column: Option<string>, value: BodyField): Option<string>
  {
    match value
    case Absent => column
    case Null => None
    case Text(t) => Some(t)
  }

  /** `.update({ status: 'completed', completed_date, location, notes }).eq('id', vaccineId)`. */
  function MarkApplied(rows: seq<ScheduleRow>, id: Id, completedDate: BodyField,
                       location: BodyField, notes: BodyField): (r: seq<ScheduleRow>)
    ensures |r| == |rows|
    ensures forall i :: 0 <= i < |rows| && rows[i].id != id ==> r[i] == rows[i]
    ensures forall i :: 0 <= i < |rows| && rows[i].id == id ==>
              && r[i].status == Completed
              && (completedDate.Text? ==> r[i].completedDate == Some(completedDate.text))
              && (completedDate.Null? ==> r[i].completedDate.None?)
              && (completedDate.Absent? ==> r[i].completedDate == rows[i].completedDate)
              && (location.Text? ==> r[i].location == Some(location.text))
              && (location.Null? ==> r[i].location.None?)
              && (location.Absent? ==> r[i].location == rows[i].location)
              && (notes.Text? ==> r[i].notes == Some(notes.text))
              && (notes.Null? ==> r[i].notes.None?)
              && (notes.Absent? ==> r[i].notes == rows[i].notes)
              && r[i].(status := rows[i].status, completedDate := rows[i].completedDate,
                       location := rows[i].location, notes := rows[i].notes) == rows[i]
    ensures (forall i :: 0 <= i < |rows| ==> rows[i].id != id) ==> r == rows
  {
    seq(|rows|, i requires 0 <= i < |rows| =>
      if rows[i].id == id then
        rows[i].(status := Completed,
                 completedDate := Patched(rows[i].completedDate, completedDate),
                 location := Patched(rows[i].location, location),
                 notes := Patched(rows[i].notes, notes))
      else rows[i])
  }

  // ---------------------------------------------------------------------------
  // The derived read view

  /** A schedule row as the engine returns it: the stored row, its derived
      fields, and the joined calendar entry and child identity. */
  datatype DoseView = DoseView(
    row: ScheduleRow,
    daysUntilDue: Option<int>,
    isOverdue: bool,
    isDueSoon: bool,
    vaccine: Option<CalendarEntry>,
    child: ChildInfo)

  /** `Math.ceil((scheduledDate.getTime() - today.getTime()) / (1000 * 60 * 60 * 24))`. */
  function DaysUntil(scheduledDate: int, now: int): (d: int)
    ensures MsPerDay * (d - 1) < DayStart(scheduledDate) - now <= MsPerDay * d
  {
    CeilDiv(DayStart(scheduledDate) - now, MsPerDay)
  }

  /** The derived fields of one row at the instant `now`. */
  function ViewOf(row: ScheduleRow, calendar: seq<CalendarEntry>, child: ChildInfo, now: int): (v: DoseView)
    ensures v.row == row && v.child == child && v.vaccine == FindEntry(calendar, row.calendarId)
    ensures row.status != Pending ==> v.daysUntilDue.None? && !v.isOverdue && !v.isDueSoon
    ensures row.status == Pending ==> v.daysUntilDue == Some(DaysUntil(row.scheduledDate, now))
    // overdue: the row's date began strictly before `now`
    ensures v.isOverdue <==> row.status == Pending && DayStart(row.scheduledDate) < now
    // due soon: from seven days before the row's date until that day ends
    ensures v.isDueSoon <==> row.status == Pending &&
                             DayStart(row.scheduledDate) - 7 * MsPerDay <= now < DayStart(row.scheduledDate) + MsPerDay
    ensures v.isOverdue ==> v.daysUntilDue.value <= 0
  {
    var pending := row.status == Pending;
    var diffDays := DaysUntil(row.scheduledDate, now);
    DoseView(row,
             if pending then Some(diffDays) else None,
             pending && DayStart(row.scheduledDate) < now,
             pending && diffDays >= 0 && diffDays <= 7,
             FindEntry(calendar, row.calendarId),
             child)
  }

  /** A pending dose dated today, read at any instant after midnight, is both overdue and due soon. */
  lemma DueTodayIsOverdueAndDueSoon(row: ScheduleRow, calendar: seq<CalendarEntry>, child: ChildInfo, now: int)
    requires row.status == Pending
    requires DayStart(row.scheduledDate) < now < DayStart(row.scheduledDate) + MsPerDay
    ensures var v := ViewOf(row, calendar, child, now);
            v.isOverdue && v.isDueSoon && v.daysUntilDue == Some(0)
  {
  }

  function Rows(views: seq<DoseView>): (r: seq<ScheduleRow>)
    ensures |r| == |views| && forall i :: 0 <= i < |r| ==> r[i] == views[i].row
  {
    seq(|views|, i requires 0 <= i < |views| => views[i].row)
  }

  /** Only pending rows raise alerts. */
  ghost predicate AlertsOnlyWhenPending(views: seq<DoseView>)
  {
    forall i :: 0 <= i < |views| ==> (views[i].isOverdue || views[i].isDueSoon) ==> views[i].row.status == Pending
  }

  /** The read view of rows already in order: one view per row, in the same order. */
  function ViewsOf(rows: seq<ScheduleRow>, calendar: seq<CalendarEntry>, child: ChildInfo, now: int): (views: seq<DoseView>)
    ensures Rows(views) == rows
    ensures forall i :: 0 <= i < |views| ==> views[i] == ViewOf(rows[i], calendar, child, now)
    ensures AlertsOnlyWhenPending(views)
  {
    var views := seq(|rows|, i requires 0 <= i < |rows| => ViewOf(rows[i], calendar, child, now));
    assert Rows(views) == rows;
    views
  }

  // ---------------------------------------------------------------------------
  // Statistics

  datatype Stats = Stats(total: nat, completed: nat, pending: nat, overdue: nat, dueThisMonth: nat, dueNextMonth: nat)

  predicate IsCompleted(v: DoseView) { v.row.status == Completed }
  predicate IsPending(v: DoseView) { v.row.status == Pending }
  predicate IsOverdueView(v: DoseView) { v.isOverdue }
  predicate IsDueSoonView(v: DoseView) { v.isDueSoon }

  lemma StatsFacts(views: seq<DoseView>)
    ensures AlertsOnlyWhenPending(views) ==>
              Count(views, IsOverdueView) <= Count(views, IsPending) && Count(views, IsDueSoonView) <= Count(views, IsPending)
    ensures (forall i :: 0 <= i < |views| ==> views[i].row.status != Overdue) ==>
              Count(views, IsCompleted) + Count(views, IsPending) == |views|
  {
    if AlertsOnlyWhenPending(views) {
      CountMonotone(views, IsOverdueView, IsPending);
      CountMonotone(views, IsDueSoonView, IsPending);
    }
    if forall i :: 0 <= i < |views| ==> views[i].row.status != Overdue {
      CountSplit(views, IsCompleted, IsPending);
    }
  }

  /** The counts `getVaccinationStats` takes over a read view. */
  function StatsOf(views: seq<DoseView>): (s: Stats)
    ensures s.total == |views| && s.dueNextMonth == 0
    ensures s.completed <= s.total && s.pending <= s.total
    ensures AlertsOnlyWhenPending(views) ==> s.overdue <= s.pending && s.dueThisMonth <= s.pending
    ensures (forall i :: 0 <= i < |views| ==> views[i].row.status != Overdue) ==> s.total == s.completed + s.pending
  {
    StatsFacts(views);
    Stats(|views|, Count(views, IsCompleted), Count(views, IsPending),
          Count(views, IsOverdueView), Count(views, IsDueSoonView), 0)
  }

  /** The states of a stored row at the instant `now` that the statistics count. */
  predicate CompletedRow(r: ScheduleRow) { r.status == Completed }
  predicate PendingRow(r: ScheduleRow) { r.status == Pending }

  function OverdueAt(now: int): ScheduleRow -> bool
  {
    (r: ScheduleRow) => r.status == Pending && DayStart(r.scheduledDate) < now
  }

  function DueSoonAt(now: int): ScheduleRow -> bool
  {
    (r: ScheduleRow) => r.status == Pending &&
                        DayStart(r.scheduledDate) - 7 * MsPerDay <= now < DayStart(r.scheduledDate) + MsPerDay
  }

  /** Over a read view, each count is the number of stored rows in that state
      at `now`: `dueThisMonth` counts the rows due soon and `overdue` the
      pending rows whose day has begun. */
  lemma StatsCountRows(views: seq<DoseView>, calendar: seq<CalendarEntry>, child: ChildInfo, now: int)
    requires forall i :: 0 <= i < |views| ==> views[i] == ViewOf(views[i].row, calendar, child, now)
    ensures StatsOf(views).completed == Count(Rows(views), CompletedRow)
    ensures StatsOf(views).pending == Count(Rows(views), PendingRow)
    ensures StatsOf(views).overdue == Count(Rows(views), OverdueAt(now))
    ensures StatsOf(views).dueThisMonth == Count(Rows(views), DueSoonAt(now))
  {
    var rs := Rows(views);
    CountCorresponding(views, IsCompleted, rs, CompletedRow);
    CountCorresponding(views, IsPending, rs, PendingRow);
    CountCorresponding(views, IsOverdueView, rs, OverdueAt(now));
    CountCorresponding(views, IsDueSoonView, rs, DueSoonAt(now));
  }

  /** The same counts, over any ordering of the view's rows. */
  lemma StatsCountPermutedRows(views: seq<DoseView>, rows: seq<ScheduleRow>, calendar: seq<CalendarEntry>, child: ChildInfo, now: int)
    requires forall i :: 0 <= i < |views| ==> views[i] == ViewOf(views[i].row, calendar, child, now)
    requires multiset(Rows(views)) == multiset(rows)
    ensures StatsOf(views).completed == Count(rows, CompletedRow)
    ensures StatsOf(views).pending == Count(rows, PendingRow)
    ensures StatsOf(views).overdue == Count(rows, OverdueAt(now))
    ensures StatsOf(views).dueThisMonth == Count(rows, DueSoonAt(now))
  {
    StatsCountRows(views, calendar, child, now);
    CountPermutation(Rows(views), rows, CompletedRow);
    CountPermutation(Rows(views), rows, PendingRow);
    CountPermutation(Rows(views), rows, OverdueAt(now));
    CountPermutation(Rows(views), rows, DueSoonAt(now));
  }

  // ---------------------------------------------------------------------------
  // Invariants of the schedule table

  /** Every row id was issued by the store below `nextId`. */
  ghost predicate IdsIssuedBelow(rows: seq<ScheduleRow>, nextId: nat)
  {
    forall i :: 0 <= i < |rows| ==> DigitsValue(rows[i].id) < nextId && rows[i].id == RowIdFor(DigitsValue(rows[i].id))
  }

  /** A child's rows are one contiguous block: they were inserted by one batch. */
  ghost predicate OneBatchPerChild(rows: seq<ScheduleRow>)
  {
    forall i, j, k :: 0 <= i < j < k < |rows| && rows[i].childId == rows[k].childId ==> rows[j].childId == rows[i].childId
  }

  /** Pending rows carry no completion data. */
  ghost predicate PendingUncompleted(rows: seq<ScheduleRow>)
  {
    forall i :: 0 <= i < |rows| && rows[i].status == Pending ==>
      rows[i].completedDate.None? && rows[i].location.None? && rows[i].notes.None?
  }

  ghost predicate RowsWellFormed(rows: seq<ScheduleRow>, nextId: nat)
  {
    && DistinctBy(rows, RowId)
    && DistinctBy(rows, DoseKey)
    && IdsIssuedBelow(rows, nextId)
    && OneBatchPerChild(rows)
    && PendingUncompleted(rows)
  }

  /** A permutation of rows drawn from a table keeps their number and keeps every status any row of the table lacks. */
  lemma PermutedRows(a: seq<ScheduleRow>, b: seq<ScheduleRow>, rows: seq<ScheduleRow>)
    requires multiset(a) == multiset(b)
    requires forall i :: 0 <= i < |b| ==> b[i] in rows
    ensures |a| == |b|
    ensures (forall i :: 0 <= i < |rows| ==> rows[i].status != Overdue) ==>
              forall i :: 0 <= i < |a| ==> a[i].status != Overdue
  {
    assert |multiset(a)| == |multiset(b)|;
    forall i | 0 <= i < |a| ensures a[i] in rows {
      assert a[i] in multiset(b);
    }
  }

  predicate HasChild(childId: Id, r: ScheduleRow) { r.childId == childId }

  /** `.from('child_vaccination_schedule').select(...).eq('child_id', childId)` in table order. */
  function RowsOf(rows: seq<ScheduleRow>, childId: Id): (r: seq<ScheduleRow>)
    ensures forall i :: 0 <= i < |r| ==> r[i] in rows && r[i].childId == childId
    ensures forall i :: 0 <= i < |rows| && rows[i].childId == childId ==> rows[i] in r
  {
    Filter(rows, (r: ScheduleRow) => HasChild(childId, r))
  }

  /** A child's rows in date order are exactly that child's rows. */
  lemma SortedRowsOf(rows: seq<ScheduleRow>, childId: Id)
    ensures var sorted := SortBy(RowsOf(rows, childId), ByDate);
            && multiset(sorted) == multiset(RowsOf(rows, childId))
            && SortedBy(sorted, ByDate)
            && forall i :: 0 <= i < |sorted| ==> sorted[i].childId == childId
  {
    var sorted := SortBy(RowsOf(rows, childId), ByDate);
    OrderingsArePreorders();
    SortBySorted(RowsOf(rows, childId), ByDate);
    assert forall i :: 0 <= i < |sorted| ==> sorted[i] in multiset(RowsOf(rows, childId));
  }

  lemma BatchKeepsIds(rows: seq<ScheduleRow>, nextId: nat, childId: Id, birth: CivilDate, entries: seq<CalendarEntry>)
    requires 1 <= birth.month <= 12
    requires DistinctBy(rows, RowId) && IdsIssuedBelow(rows, nextId)
    ensures var all := rows + NewSchedule(childId, birth, entries, nextId);
            DistinctBy(all, RowId) && IdsIssuedBelow(all, nextId + |entries|)
  {
    var batch := NewSchedule(childId, birth, entries, nextId);
    var all := rows + batch;
    forall i | 0 <= i < |batch| ensures DigitsValue(batch[i].id) == nextId + i {
      NatToStringRoundTrip(nextId + i);
    }
    forall i, j | 0 <= i < j < |all| ensures RowId(all[i]) != RowId(all[j]) {
      if j >= |rows| && i < |rows| {
        assert DigitsValue(all[i].id) < nextId <= DigitsValue(all[j].id);
      } else if i >= |rows| {
        assert DigitsValue(all[i].id) < DigitsValue(all[j].id);
      }
    }
  }

  lemma BatchKeepsDoses(rows: seq<ScheduleRow>, childId: Id, birth: CivilDate, entries: seq<CalendarEntry>, firstId: nat)
    requires 1 <= birth.month <= 12
    requires DistinctBy(rows, DoseKey) && OneBatchPerChild(rows)
    requires DistinctBy(entries, EntryId)
    requires forall i :: 0 <= i < |rows| ==> rows[i].childId != childId
    ensures var all := rows + NewSchedule(childId, birth, entries, firstId);
            DistinctBy(all, DoseKey) && OneBatchPerChild(all)
  {
    var batch := NewSchedule(childId, birth, entries, firstId);
    var all := rows + batch;
    forall i, j | 0 <= i < j < |all| ensures DoseKey(all[i]) != DoseKey(all[j]) {
      if i >= |rows| {
        assert EntryId(entries[i - |rows|]) != EntryId(entries[j - |rows|]);
      }
    }
    forall i, j, k | 0 <= i < j < k < |all| && all[i].childId == all[k].childId
      ensures all[j].childId == all[i].childId
    {
      if k < |rows| {
        assert rows[j].childId == rows[i].childId;
      }
    }
  }

  /** Appending a generated batch for a child without rows keeps the table well formed. */
  lemma BatchKeepsWellFormed(rows: seq<ScheduleRow>, nextId: nat, childId: Id, birth: CivilDate, entries: seq<CalendarEntry>)
    requires 1 <= birth.month <= 12
    requires RowsWellFormed(rows, nextId)
    requires DistinctBy(entries, EntryId)
    requires forall i :: 0 <= i < |rows| ==> rows[i].childId != childId
    ensures RowsWellFormed(rows + NewSchedule(childId, birth, entries, nextId), nextId + |entries|)
  {
    BatchKeepsIds(rows, nextId, childId, birth, entries);
    BatchKeepsDoses(rows, childId, birth, entries, nextId);
  }

  /** Marking a row applied keeps the table well formed. */
  lemma MarkKeepsWellFormed(rows: seq<ScheduleRow>, nextId: nat, id: Id, completedDate: BodyField,
                            location: BodyField, notes: BodyField)
    requires RowsWellFormed(rows, nextId)
    ensures RowsWellFormed(MarkApplied(rows, id, completedDate, location, notes), nextId)
  {
    var r := MarkApplied(rows, id, completedDate, location, notes);
    assert forall i :: 0 <= i < |r| ==> RowId(r[i]) == RowId(rows[i]) && DoseKey(r[i]) == DoseKey(rows[i])
                                             && r[i].childId == rows[i].childId;
    assert PendingUncompleted(r) by {
      assert PendingUncompleted(rows);
    }
    SameKeysKeepWellFormed(rows, r, nextId);
  }

  /** A table whose rows keep their ids, dose keys and children position by
      position, and whose pending rows carry no completion data, stays well formed. */
  lemma SameKeysKeepWellFormed(rows: seq<ScheduleRow>, r: seq<ScheduleRow>, nextId: nat)
    requires RowsWellFormed(rows, nextId)
    requires |r| == |rows|
    requires forall i :: 0 <= i < |r| ==> RowId(r[i]) == RowId(rows[i]) && DoseKey(r[i]) == DoseKey(rows[i])
                                             && r[i].childId == rows[i].childId
    requires PendingUncompleted(r)
    ensures RowsWellFormed(r, nextId)
  {
    assert DistinctBy(r, RowId) by {
      assert DistinctBy(rows, RowId);
    }
    assert DistinctBy(r, DoseKey) by {
      assert DistinctBy(rows, DoseKey);
    }
    assert IdsIssuedBelow(r, nextId) by {
      assert IdsIssuedBelow(rows, nextId);
    }
    assert OneBatchPerChild(r) by {
      assert OneBatchPerChild(rows);
    }
  }

  // ---------------------------------------------------------------------------
  // The store

  /** With unique baby ids, looking up a stored baby's id finds that baby. */
  lemma StoredBabyFound(babies: seq<Baby>, k: nat)
    requires DistinctBy(babies, BabyId) && k < |babies|
    ensures FindBaby(babies, babies[k].id) == Some(babies[k])
  {
    var r := FindBaby(babies, babies[k].id);
    assert r.Some?;
    var i :| 0 <= i < |babies| && babies[i] == r.value;
    assert BabyId(babies[i]) == BabyId(babies[k]);
  }

  /** A baby found in a table of valid birth dates has a valid birth date. */
  lemma FoundBirthDateValid(babies: seq<Baby>, id: Id)
    requires forall i :: 0 <= i < |babies| ==> ValidDate(babies[i].birthDate)
    requires FindBaby(babies, id).Some?
    ensures ValidDate(FindBaby(babies, id).value.birthDate)
  {
    var b := FindBaby(babies, id).value;
    var k :| 0 <= k < |babies| && babies[k] == b;
  }

  /** Primary keys are unique, stored birth dates are real dates, and the schedule table is well formed. */
  ghost predicate StoreValid(calendar: seq<CalendarEntry>, babies: seq<Baby>, rows: seq<ScheduleRow>, nextId: nat)
  {
    && DistinctBy(calendar, EntryId)
    && DistinctBy(babies, BabyId)
    && (forall i :: 0 <= i < |babies| ==> ValidDate(babies[i].birthDate))
    && RowsWellFormed(rows, nextId)
  }

  /** Generating the schedule of a child without rows keeps the store valid. */
  lemma GenerateKeepsValid(calendar: seq<CalendarEntry>, babies: seq<Baby>, rows: seq<ScheduleRow>, nextId: nat,
                           childId: Id, birth: CivilDate, entries: seq<CalendarEntry>)
    requires StoreValid(calendar, babies, rows, nextId)
    requires 1 <= birth.month <= 12
    requires forall i :: 0 <= i < |rows| ==> rows[i].childId != childId
    requires entries == ActiveCalendar(calendar)
    ensures StoreValid(calendar, babies, rows + NewSchedule(childId, birth, entries, nextId), nextId + |entries|)
  {
    BatchKeepsWellFormed(rows, nextId, childId, birth, entries);
  }

  /** The `vaccination_calendar`, `bebe` and `child_vaccination_schedule`
      tables, and the counter from which the store issues row ids. */
  class VaccinationStore {
    var calendar: seq<CalendarEntry>
    var babies: seq<Baby>
    var rows: seq<ScheduleRow>
    var nextId: nat

    ghost predicate Valid()
      reads this
    {
      StoreValid(calendar, babies, rows, nextId)
    }

    constructor (calendar: seq<CalendarEntry>, babies: seq<Baby>)
      requires DistinctBy(calendar, EntryId) && DistinctBy(babies, BabyId)
      requires forall i :: 0 <= i < |babies| ==> ValidDate(babies[i].birthDate)
      ensures Valid()
      ensures this.calendar == calendar && this.babies == babies && rows == [] && nextId == 0
    {
      this.calendar := calendar;
      this.babies := babies;
      rows := [];
      nextId := 0;
    }

    /** `hasVaccinationSchedule`: a `limit(1)` probe for any row of the child. */
    function HasVaccinationSchedule(childId: Id): (b: bool)
      reads this
      ensures b <==> exists i :: 0 <= i < |rows| && rows[i].childId == childId
    {
      var found := RowsOf(rows, childId);
      assert found != [] ==> found[0] in rows;
      |found| > 0
    }

    /** `getVaccinationSchedule`: the child's rows in ascending date order, each
        with its derived fields at `now`. An empty schedule is returned before
        the child is looked up; a non-empty one fails if the child is missing. */
    function GetVaccinationSchedule(childId: Id, now: int): (r: Result<seq<DoseView>>)
      reads this
      ensures r.Err? <==> RowsOf(rows, childId) != [] && FindBaby(babies, childId).None?
      ensures r.Err? ==> r.error == BabyLookupFailed
      ensures r.Ok? ==> multiset(Rows(r.value)) == multiset(RowsOf(rows, childId))
      ensures r.Ok? ==> SortedBy(Rows(r.value), ByDate)
      ensures r.Ok? ==> forall i :: 0 <= i < |r.value| ==>
                r.value[i].row.childId == childId &&
                r.value[i] == ViewOf(r.value[i].row, calendar, InfoOf(FindBaby(babies, childId).value), now)
      ensures r.Ok? ==> AlertsOnlyWhenPending(r.value)
    {
      var sorted := SortBy(RowsOf(rows, childId), ByDate);
      SortedRowsOf(rows, childId);
      if sorted == [] then
        Ok([])
      else
        match FindBaby(babies, childId)
        case None => Err(BabyLookupFailed)
        case Some(b) => Ok(ViewsOf(sorted, calendar, InfoOf(b), now))
    }

    /** `getVaccinationStats`: counts taken over the read view. */
    function GetVaccinationStats(childId: Id, now: int): (r: Result<Stats>)
      reads this
      ensures r.Err? <==> GetVaccinationSchedule(childId, now).Err?
      ensures r.Ok? ==> r.value == StatsOf(GetVaccinationSchedule(childId, now).value)
      ensures r.Ok? ==> var mine := RowsOf(rows, childId);
                        var s := r.value;
                        && s.total == |mine|
                        && s.completed == Count(mine, CompletedRow)
                        && s.pending == Count(mine, PendingRow)
                        && s.overdue == Count(mine, OverdueAt(now))
                        && s.dueThisMonth == Count(mine, DueSoonAt(now))
                        && s.dueNextMonth == 0
                        && s.overdue <= s.pending && s.dueThisMonth <= s.pending
                        && ((forall i :: 0 <= i < |rows| ==> rows[i].status != Overdue) ==> s.total == s.completed + s.pending)
    {
      match GetVaccinationSchedule(childId, now)
      case Err(e) => Err(e)
      case Ok(views) =>
        var mine := RowsOf(rows, childId);
        PermutedRows(Rows(views), mine, rows);
        var child := if FindBaby(babies, childId).Some? then InfoOf(FindBaby(babies, childId).value)
                     else ChildInfo(childId, "", CivilDate(1970, 1, 1));
        StatsCountPermutedRows(views, mine, calendar, child, now);
        Ok(StatsOf(views))
    }

    /** `getVaccinationCalendar`: the active entries in ascending age order. */
    function GetVaccinationCalendar(): (r: seq<CalendarEntry>)
      reads this
      ensures SortedBy(r, ByAge)
      ensures forall i :: 0 <= i < |r| ==> r[i].isActive && r[i] in calendar
      ensures forall i :: 0 <= i < |calendar| && calendar[i].isActive ==> calendar[i] in r
    {
      var r := ActiveCalendar(calendar);
      assert forall i :: 0 <= i < |calendar| && calendar[i].isActive ==> multiset(r)[calendar[i]] > 0;
      r
    }

    /** `generateVaccinationSchedule`: refuses a child that already has rows or
        that is not in `bebe`; otherwise inserts, as one batch, one pending row
        per active calendar entry in ascending age order. */
    method GenerateVaccinationSchedule(childId: Id) returns (r: Outcome)
      requires Valid()
      modifies this
      ensures Valid()
      ensures calendar == old(calendar) && babies == old(babies)
      ensures old(HasVaccinationSchedule(childId)) ==> r == Fail(AlreadyExists)
      ensures !old(HasVaccinationSchedule(childId)) && FindBaby(babies, childId).None? ==> r == Fail(BabyNotFound)
      ensures !old(HasVaccinationSchedule(childId)) && FindBaby(babies, childId).Some? ==> r == Pass
      ensures r.Fail? ==> rows == old(rows) && nextId == old(nextId)
      ensures r.Pass? ==>
                var entries := ActiveCalendar(calendar);
                && rows == old(rows) + NewSchedule(childId, FindBaby(babies, childId).value.birthDate, entries, old(nextId))
                && nextId == old(nextId) + |entries|
    {
      var hasSchedule := HasVaccinationSchedule(childId);
      if hasSchedule {
        return Fail(AlreadyExists);
      }
      var bebe := FindBaby(babies, childId);
      if bebe.None? {
        return Fail(BabyNotFound);
      }
      FoundBirthDateValid(babies, childId);
      InsertSchedule(childId, bebe.value.birthDate);
      r := Pass;
    }

    /** `.from('child_vaccination_schedule').insert(scheduleData)`: appends one
        pending row per active calendar entry, as one batch, with fresh ids. */
    method InsertSchedule(childId: Id, birth: CivilDate)
      requires Valid()
      requires 1 <= birth.month <= 12
      requires forall i :: 0 <= i < |rows| ==> rows[i].childId != childId
      modifies this
      ensures Valid()
      ensures calendar == old(calendar) && babies == old(babies)
      ensures rows == old(rows) + NewSchedule(childId, birth, ActiveCalendar(calendar), old(nextId))
      ensures nextId == old(nextId) + |ActiveCalendar(calendar)|
    {
      var entries := ActiveCalendar(calendar);
      GenerateKeepsValid(calendar, babies, rows, nextId, childId, birth, entries);
      rows, nextId := rows + NewSchedule(childId, birth, entries, nextId), nextId + |entries|;
    }

    /** `markVaccineAsApplied`: completes every row with that id, whatever its
        status; an unknown id changes nothing. */
    method MarkVaccineAsApplied(vaccineId: Id, completedDate: BodyField, location: BodyField, notes: BodyField)
      requires Valid()
      modifies this
      ensures Valid()
      ensures rows == MarkApplied(old(rows), vaccineId, completedDate, location, notes)
      ensures calendar == old(calendar) && babies == old(babies) && nextId == old(nextId)
    {
      MarkKeepsWellFormed(rows, nextId, vaccineId, completedDate, location, notes);
      rows := MarkApplied(rows, vaccineId, completedDate, location, notes);
    }
  }
}

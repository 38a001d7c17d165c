/** The stored records the vaccination engine reads and writes: rows of the
    `vaccination_calendar`, `child_vaccination_schedule` and `bebe` tables. */
module Records {

  import opened Common
  import opened CivilDates

  /** A row of the reference calendar: one recommended dose at an age in months. */
  datatype CalendarEntry = CalendarEntry(
    id: Id,
    vaccineName: string,
    ageMonths: nat,
    doseNumber: int,
    minimumIntervalDays: Option<int>,
    description: string,
    isActive: bool)

  /** The stored status column; `overdue` is a legal stored value although the engine never writes it. */
  datatype Status = Pending | Completed | Overdue

  /** A row of a child's schedule. `scheduledDate` is a day number (the
      `YYYY-MM-DD` column read at UTC midnight); the completion columns are
      nullable text. */
  datatype ScheduleRow = ScheduleRow(
    id: Id,
    childId: Id,
    calendarId: Id,
    scheduledDate: int,
    status: Status,
    completedDate: Option<string>,
    location: Option<string>,
    notes: Option<string>)

  /** A row of the `bebe` table, reduced to the columns the engine and its callers use. */
  datatype Baby = Baby(id: Id, userId: Id, name: string, birthDate: CivilDate)

  /** The child identity joined onto every schedule row that is read. */
  datatype ChildInfo = ChildInfo(id: Id, name: string, birthDate: CivilDate)

  function InfoOf(b: Baby): ChildInfo
  {
    ChildInfo(b.id, b.name, b.birthDate)
  }

  /** `.from('bebe').select(...).eq('id', id).single()` over a table whose ids are unique. */
  function FindBaby(babies: seq<Baby>, id: Id): (r: Option<Baby>)
    ensures r.Some? ==> r.value in babies && r.value.id == id
    ensures r.None? <==> forall i :: 0 <= i < |babies| ==> babies[i].id != id
  {
    Find(babies, (b: Baby) => b.id == id)
  }

  /** `.from('bebe').select('*').eq('user_id', userId)`: a user's babies in table order. */
  function BabiesOf(babies: seq<Baby>, userId: Id): (r: seq<Baby>)
    ensures forall i :: 0 <= i < |r| ==> r[i] in babies && r[i].userId == userId
    ensures forall i :: 0 <= i < |babies| && babies[i].userId == userId ==> babies[i] in r
  {
    Filter(babies, (b: Baby) => b.userId == userId)
  }

  /** `.from('bebe').select('*').eq('id', id).eq('user_id', userId).single()`:
      the baby with that id, provided it belongs to that user. */
  function OwnedBaby(babies: seq<Baby>, userId: Id, id: Id): (r: Option<Baby>)
    ensures r.Some? ==> r.value in babies && r.value.id == id && r.value.userId == userId
    ensures r.None? <==> forall i :: 0 <= i < |babies| ==> !(babies[i].id == id && babies[i].userId == userId)
  {
    Find(babies, (b: Baby) => b.id == id && b.userId == userId)
  }

  /** Looking an id up among a user's babies finds the baby `OwnedBaby` finds. */
  lemma FindAmongOwn(babies: seq<Baby>, userId: Id, id: Id)
    ensures FindBaby(BabiesOf(babies, userId), id) == OwnedBaby(babies, userId, id)
  {
    FindFiltered(babies, (b: Baby) => b.userId == userId, (b: Baby) => b.id == id,
                 (b: Baby) => b.id == id && b.userId == userId);
  }
}

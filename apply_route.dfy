/** The `/api/vaccines/apply` handler: after its guards it marks one schedule
    row as applied with the completion data of the request body. */
module ApplyRoute {

  import opened Common
  import opened Http
  import opened Records
  import opened VaccinationService

  /** The JSON body. A `vaccineId` that is missing or `null` is `None`; the
      completion members keep the difference between missing and `null`,
      since the update drops the first and writes the second. */
  datatype ApplyRequest = ApplyRequest(vaccineId: Option<string>, completedDate: BodyField,
                                       location: BodyField, notes: BodyField)

  const VaccineIdRequired := "ID da vacina é obrigatório"
  const VaccineMissing := "Vacina não encontrada"
  const Applied := "Vacina marcada como aplicada com sucesso"

  /** `.from('child_vaccination_schedule').select(...).eq('id', vaccineId).single()`. */
  function FindRow(rows: seq<ScheduleRow>, id: Id): (r: Option<ScheduleRow>)
    ensures r.Some? ==> r.value in rows && r.value.id == id
    ensures r.None? <==> forall i :: 0 <= i < |rows| ==> rows[i].id != id
  {
    Find(rows, (row: ScheduleRow) => row.id == id)
  }

  /** The guards, in order: 401 without a user, 400 without a `vaccineId`,
      404 for an unknown row, 403 when the row's child belongs to another
      user. A row whose child is missing from `bebe` joins to `null`, and
      reading its owner throws, which the handler answers with 500. */
  function ApplyVerdict(store: VaccinationStore, caller: Option<Id>, req: ApplyRequest): (v: Verdict<(), ScheduleRow>)
    reads store
    ensures caller.None? ==> v == Reject(ErrorResponse(401, Unauthorized))
    ensures caller.Some? && (req.vaccineId.None? || req.vaccineId.value == "") ==>
              v == Reject(ErrorResponse(400, VaccineIdRequired))
    ensures caller.Some? && req.vaccineId.Some? && req.vaccineId.value != "" ==>
              match FindRow(store.rows, req.vaccineId.value)
              case None => v == Reject(ErrorResponse(404, VaccineMissing))
              case Some(row) =>
                match FindBaby(store.babies, row.childId)
                case None => v == Reject(ErrorResponse(500, InternalError))
                case Some(child) =>
                  if child.userId != caller.value then v == Reject(ErrorResponse(403, Unauthorized))
                  else v == Proceed(row)
    ensures v.Proceed? ==>
              && req.vaccineId == Some(v.arg.id) && v.arg in store.rows
              && exists child :: child in store.babies && child.id == v.arg.childId && Some(child.userId) == caller
  {
    if caller.None? then Reject(ErrorResponse(401, Unauthorized))
    else if req.vaccineId.None? || req.vaccineId.value == "" then Reject(ErrorResponse(400, VaccineIdRequired))
    else match FindRow(store.rows, req.vaccineId.value)
      case None => Reject(ErrorResponse(404, VaccineMissing))
      case Some(row) =>
        match FindBaby(store.babies, row.childId)
        case None => Reject(ErrorResponse(500, InternalError))
        case Some(child) =>
          if child.userId != caller.value then Reject(ErrorResponse(403, Unauthorized))
          else Proceed(row)
  }

  /** `POST`: every refused request leaves the store as it was; an accepted
      one marks the row with the requested id, passing the body's completion
      data through. */
  method Apply(store: VaccinationStore, caller: Option<Id>, req: ApplyRequest) returns (r: Response<()>)
    requires store.Valid()
    modifies store
    ensures store.Valid()
    ensures old(ApplyVerdict(store, caller, req)).Reject? ==>
              r == old(ApplyVerdict(store, caller, req)).response && unchanged(store)
    ensures old(ApplyVerdict(store, caller, req)).Proceed? ==>
              && r == MessageResponse(Applied)
              && store.rows == MarkApplied(old(store.rows), req.vaccineId.value, req.completedDate, req.location, req.notes)
              && store.calendar == old(store.calendar) && store.babies == old(store.babies) && store.nextId == old(store.nextId)
  {
    var v := ApplyVerdict(store, caller, req);
    if v.Reject? {
      return v.response;
    }
    store.MarkVaccineAsApplied(req.vaccineId.value, req.completedDate, req.location, req.notes);
    r := MessageResponse(Applied);
  }

  /** On a store with unique row ids, applying changes exactly the row the
      guards found, and no other. */
  lemma ApplyTouchesOneRow(rows: seq<ScheduleRow>, found: ScheduleRow, req: ApplyRequest)
    requires DistinctBy(rows, RowId)
    requires found in rows && req.vaccineId == Some(found.id)
    ensures var after := MarkApplied(rows, found.id, req.completedDate, req.location, req.notes);
            forall i :: 0 <= i < |rows| ==> (after[i] != rows[i] ==> rows[i] == found) && (rows[i] == found ==> after[i].status == Completed)
  {
    forall i | 0 <= i < |rows| && rows[i].id == found.id ensures rows[i] == found {
      var k :| 0 <= k < |rows| && rows[k] == found;
      assert RowId(rows[i]) == RowId(rows[k]);
    }
  }
}

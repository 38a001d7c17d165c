/** The `/api/vaccines/schedule` handlers: GET reads the schedule of one of
    the caller's babies, POST generates a schedule for one of them. The
    caller is `None` when no authenticated user is found. */
module ScheduleRoute {

  import opened Common
  import opened Http
  import opened Records
  import opened VaccinationService

  /** The JSON payload of a successful GET. */
  datatype SchedulePage = SchedulePage(schedule: seq<DoseView>, stats: Option<Stats>, selectedChild: Baby, hasSchedule: bool)

  const NoBabies := "Nenhum bebê encontrado"
  const BabyMissing := "Bebê não encontrado"
  const ScheduleReadFailed := "Erro ao buscar cronograma de vacinação"
  const ChildIdRequired := "ID da criança é obrigatório"
  const Created := "Cronograma de vacinação criado com sucesso"

  /** `childId || bebes[0].id`: an absent or empty `childId` parameter falls back to the first baby. */
  function TargetChild(mine: seq<Baby>, childParam: Option<string>): (t: Id)
    requires mine != []
    ensures childParam.Some? && childParam.value != "" ==> t == childParam.value
    ensures (childParam.None? || childParam.value == "") ==> t == mine[0].id
  {
    if childParam.Some? && childParam.value != "" then childParam.value else mine[0].id
  }

  /** The guards of `GET` before the schedule is read: 401 without a user,
      404 when the user has no baby, 404 when the target is not theirs. */
  function SelectChild(babies: seq<Baby>, caller: Option<Id>, childParam: Option<string>): (v: Verdict<SchedulePage, Baby>)
    ensures caller.None? ==> v == Reject(ErrorResponse(401, Unauthorized))
    ensures caller.Some? && BabiesOf(babies, caller.value) == [] ==> v == Reject(ErrorResponse(404, NoBabies))
    ensures caller.Some? && BabiesOf(babies, caller.value) != [] ==>
              var owned := OwnedBaby(babies, caller.value, TargetChild(BabiesOf(babies, caller.value), childParam));
              && (v.Proceed? <==> owned.Some?)
              && (v.Proceed? ==> v.arg == owned.value)
              && (v.Reject? ==> v == Reject(ErrorResponse(404, BabyMissing)))
    ensures v.Proceed? ==> v.arg in babies && v.arg.userId == caller.value
  {
    if caller.None? then Reject(ErrorResponse(401, Unauthorized))
    else
      var mine := BabiesOf(babies, caller.value);
      if mine == [] then Reject(ErrorResponse(404, NoBabies))
      else
        var target := TargetChild(mine, childParam);
        FindAmongOwn(babies, caller.value, target);
        match FindBaby(mine, target)
        case None => Reject(ErrorResponse(404, BabyMissing))
        case Some(b) => Proceed(b)
  }

  /** The has-schedule branch of `GET`: a child without rows gets an empty
      page, otherwise the read view and its statistics; a failed read gives 500. */
  function SchedulePageOf(store: VaccinationStore, b: Baby, now: int): (r: Response<SchedulePage>)
    reads store
    ensures !store.HasVaccinationSchedule(b.id) ==> r == Response(200, Data(SchedulePage([], None, b, false)))
    ensures store.HasVaccinationSchedule(b.id) && store.GetVaccinationSchedule(b.id, now).Ok? ==>
              r == Response(200, Data(SchedulePage(store.GetVaccinationSchedule(b.id, now).value,
                                                   Some(store.GetVaccinationStats(b.id, now).value), b, true)))
    ensures store.HasVaccinationSchedule(b.id) && store.GetVaccinationSchedule(b.id, now).Err? ==>
              r == ErrorResponse(500, ScheduleReadFailed)
  {
    if !store.HasVaccinationSchedule(b.id) then
      Response(200, Data(SchedulePage([], None, b, false)))
    else
      var views, stats := store.GetVaccinationSchedule(b.id, now), store.GetVaccinationStats(b.id, now);
      if views.Ok? && stats.Ok? then Response(200, Data(SchedulePage(views.value, Some(stats.value), b, true)))
      else ErrorResponse(500, ScheduleReadFailed)
  }

  /** `GET`. */
  function GetSchedule(store: VaccinationStore, caller: Option<Id>, childParam: Option<string>, now: int): (r: Response<SchedulePage>)
    reads store
    ensures caller.None? ==> r.status == 401
    ensures r.status == 200 && r.body.Data? ==>
              var page := r.body.data;
              && page.selectedChild in store.babies && page.selectedChild.userId == caller.value
              && (page.hasSchedule <==> store.HasVaccinationSchedule(page.selectedChild.id))
              && (!page.hasSchedule ==> page.schedule == [] && page.stats.None?)
              && (page.hasSchedule ==> page.stats.Some? && page.stats.value.total == |page.schedule|)
  {
    match SelectChild(store.babies, caller, childParam)
    case Reject(response) => response
    case Proceed(b) => SchedulePageOf(store, b, now)
  }

  /** For a consistent store, `GET` never reaches the 500 branch: the target
      child was found among the user's babies, so the schedule read finds it too. */
  lemma GetNeverFailsOnValidStore(store: VaccinationStore, caller: Option<Id>, childParam: Option<string>, now: int)
    requires store.Valid()
    ensures GetSchedule(store, caller, childParam, now).status != 500
  {
    var v := SelectChild(store.babies, caller, childParam);
    if v.Proceed? {
      var b := v.arg;
      var k :| 0 <= k < |store.babies| && store.babies[k] == b;
      StoredBabyFound(store.babies, k);
      assert store.GetVaccinationSchedule(b.id, now).Ok?;
      assert GetSchedule(store, caller, childParam, now) == SchedulePageOf(store, b, now);
    } else {
      assert GetSchedule(store, caller, childParam, now) == v.response;
    }
  }

  /** The guards of `POST`, in order: 401 without a user, 400 without a
      `childId`, 404 unless the user owns that baby, 409 when it already has
      a schedule. */
  function PostVerdict(store: VaccinationStore, caller: Option<Id>, childId: Option<string>): (v: Verdict<(), Baby>)
    reads store
    ensures caller.None? ==> v == Reject(ErrorResponse(401, Unauthorized))
    ensures caller.Some? && (childId.None? || childId.value == "") ==> v == Reject(ErrorResponse(400, ChildIdRequired))
    ensures caller.Some? && childId.Some? && childId.value != "" ==>
              var owned := OwnedBaby(store.babies, caller.value, childId.value);
              && (owned.None? ==> v == Reject(ErrorResponse(404, BabyMissing)))
              && (owned.Some? && store.HasVaccinationSchedule(childId.value) ==>
                    v == Reject(ErrorResponse(409, ErrorMessage(AlreadyExists))))
              && (owned.Some? && !store.HasVaccinationSchedule(childId.value) ==> v == Proceed(owned.value))
    ensures v.Proceed? ==> v.arg in store.babies && Some(v.arg.userId) == caller && !store.HasVaccinationSchedule(v.arg.id)
  {
    if caller.None? then Reject(ErrorResponse(401, Unauthorized))
    else if childId.None? || childId.value == "" then Reject(ErrorResponse(400, ChildIdRequired))
    else match OwnedBaby(store.babies, caller.value, childId.value)
      case None => Reject(ErrorResponse(404, BabyMissing))
      case Some(b) =>
        if store.HasVaccinationSchedule(childId.value) then Reject(ErrorResponse(409, ErrorMessage(AlreadyExists)))
        else Proceed(b)
  }

  /** `POST`: a refused request changes nothing; an accepted one generates the
      child's schedule and answers with the success message. */
  method PostSchedule(store: VaccinationStore, caller: Option<Id>, childId: Option<string>) returns (r: Response<()>)
    requires store.Valid()
    modifies store
    ensures store.Valid()
    ensures old(PostVerdict(store, caller, childId)).Reject? ==>
              r == old(PostVerdict(store, caller, childId)).response && unchanged(store)
    ensures old(PostVerdict(store, caller, childId)).Proceed? ==>
              var b := old(PostVerdict(store, caller, childId)).arg;
              && r == MessageResponse(Created)
              && store.calendar == old(store.calendar) && store.babies == old(store.babies)
              && store.rows == old(store.rows) + NewSchedule(b.id, b.birthDate, ActiveCalendar(store.calendar), old(store.nextId))
              && store.nextId == old(store.nextId) + |ActiveCalendar(store.calendar)|
  {
    var v := PostVerdict(store, caller, childId);
    if v.Reject? {
      return v.response;
    }
    var b := v.arg;
    ghost var k :| 0 <= k < |store.babies| && store.babies[k] == b;
    StoredBabyFound(store.babies, k);
    var outcome := store.GenerateVaccinationSchedule(b.id);
    r := MessageResponse(Created);
  }
}

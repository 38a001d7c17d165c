/** The vaccines page: the babies it loads and selects, its status filter,
    and the arguments it passes when a dose is marked applied. */
module VacinasPage {

  import opened Common
  import opened CivilDates
  import opened Sorting
  import opened Records
  import opened VaccinationService

  datatype FilterKind = All | PendingOnly | CompletedOnly | OverdueOnly

  /** The `switch` inside `vaccines.filter`. */
  predicate Keeps(filter: FilterKind, v: DoseView)
  {
    match filter
    case PendingOnly => v.row.status == Pending
    case CompletedOnly => v.row.status == Completed
    case OverdueOnly => v.isOverdue
    case All => true
  }

  /** `filteredVaccines`: the views the filter keeps, in schedule order. */
  function FilteredVaccines(vaccines: seq<DoseView>, filter: FilterKind): (r: seq<DoseView>)
    ensures IsSubsequence(r, vaccines)
    ensures forall i :: 0 <= i < |r| ==> Keeps(filter, r[i])
    ensures forall i :: 0 <= i < |vaccines| && Keeps(filter, vaccines[i]) ==> vaccines[i] in r
    ensures filter == All ==> r == vaccines
  {
    var keep := (v: DoseView) => Keeps(filter, v);
    FilterIsSubsequence(vaccines, keep);
    if filter == All then
      FilterAll(vaccines, keep);
      Filter(vaccines, keep)
    else
      Filter(vaccines, keep)
  }

  /** Each filtered tab holds as many doses as the matching statistic counts. */
  lemma FilterMatchesStats(vaccines: seq<DoseView>)
    ensures |FilteredVaccines(vaccines, All)| == StatsOf(vaccines).total
    ensures |FilteredVaccines(vaccines, PendingOnly)| == StatsOf(vaccines).pending
    ensures |FilteredVaccines(vaccines, CompletedOnly)| == StatsOf(vaccines).completed
    ensures |FilteredVaccines(vaccines, OverdueOnly)| == StatsOf(vaccines).overdue
  {
    FilterCongruent(vaccines, (v: DoseView) => Keeps(PendingOnly, v), IsPending);
    FilterCongruent(vaccines, (v: DoseView) => Keeps(CompletedOnly, v), IsCompleted);
    FilterCongruent(vaccines, (v: DoseView) => Keeps(OverdueOnly, v), IsOverdueView);
  }

  /** `new Date().toISOString().split('T')[0]`: the UTC calendar date in the
      date-time string format of ECMAScript, whose years outside 0..9999 take
      a sign and six digits. */
  function IsoDate(today: CivilDate): string
    requires ValidDate(today)
  {
    YearText(today.year) + "-" + PadZeros(NatToString(today.month), 2) + "-" + PadZeros(NatToString(today.day), 2)
  }

  function YearText(y: int): string
  {
    if 0 <= y <= 9999 then PadZeros(NatToString(y), 4)
    else (if y < 0 then "-" else "+") + PadZeros(NatToString(if y < 0 then -y else y), 6)
  }

  lemma FourDigitYear(y: int)
    requires 0 <= y <= 9999
    ensures YearText(y) == PadZeros(NatToString(y), 4)
  {
  }

  /** The fields of `YYYY-MM-DD` text sit at fixed positions. */
  lemma DateTextFields(year: string, month: string, day: string)
    requires |year| == 4 && |month| == 2 && |day| == 2
    ensures var r := year + "-" + month + "-" + day;
            && |r| == 10 && r[4] == '-' && r[7] == '-'
            && r[..4] == year && r[5..7] == month && r[8..] == day
  {
    var a := year + "-";
    var b := a + month;
    var c := b + "-";
    var r := c + day;
    assert r[..8] == c;
    assert c[..7] == b && c[..5] == a;
    assert b[5..] == month;
  }

  /** A four-digit-year date prints as `YYYY-MM-DD`, and its fields read back as the date. */
  lemma IsoDateRoundTrip(today: CivilDate)
    requires ValidDate(today) && 0 <= today.year <= 9999
    ensures var r := IsoDate(today);
            && |r| == 10 && r[4] == '-' && r[7] == '-'
            && DigitsValue(r[..4]) == today.year
            && DigitsValue(r[5..7]) == today.month
            && DigitsValue(r[8..]) == today.day
  {
    DayBound(today);
    Padded(today.year, 4);
    Padded(today.month, 2);
    Padded(today.day, 2);
    FourDigitYear(today.year);
    DateTextFields(YearText(today.year), PadZeros(NatToString(today.month), 2),
                   PadZeros(NatToString(today.day), 2));
  }

  lemma DayBound(d: CivilDate)
    requires ValidDate(d)
    ensures d.day <= 31
  {
  }

  /** A number with at most `w` digits pads to exactly `w` digits and reads back. */
  lemma Padded(n: nat, w: nat)
    requires w == 2 || w == 4
    requires n < (if w == 2 then 100 else 10000)
    ensures |PadZeros(NatToString(n), w)| == w
    ensures DigitsValue(PadZeros(NatToString(n), w)) == n
  {
    assert Pow10(2) == 100 && Pow10(4) == 10000;
    DigitsBound(n, w);
    PaddedRoundTrip(n, w);
  }

  /** A number below `10^w` prints in at most `w` digits. */
  lemma {:induction false} DigitsBound(n: nat, w: nat)
    requires 1 <= w && n < Pow10(w)
    ensures |NatToString(n)| <= w
  {
    if n >= 10 {
      assert NatToString(n) == NatToString(n / 10) + [DigitChar(n % 10)];
      assert w >= 2;
      assert n / 10 < Pow10(w - 1);
      DigitsBound(n / 10, w - 1);
    }
  }

  function Pow10(w: nat): (p: nat)
    ensures p >= 1
  {
    if w == 0 then 1 else 10 * Pow10(w - 1)
  }

  /** The request `handleMarkAsApplied` sends for a dose: today's date, the
      fixed location and the fixed note. */
  datatype MarkArgs = MarkArgs(vaccineId: Id, completedDate: string, location: string, notes: string)

  function MarkAsAppliedArgs(vaccineId: Id, today: CivilDate): (a: MarkArgs)
    requires ValidDate(today)
    ensures a.vaccineId == vaccineId && a.completedDate == IsoDate(today)
    ensures a.location == "Posto de Saúde" && a.notes == "Aplicada conforme cronograma"
  {
    MarkArgs(vaccineId, IsoDate(today), "Posto de Saúde", "Aplicada conforme cronograma")
  }

  /** The page's state: the signed-in user, the user's babies, the selected baby and the loading flag. */
  class Page {
    var user: Option<Id>
    var bebes: seq<Baby>
    var selectedBebe: Option<Id>
    var loading: bool

    constructor ()
      ensures user.None? && bebes == [] && selectedBebe.None? && loading
      ensures ShowsSpinner()
    {
      user := None;
      bebes := [];
      selectedBebe := None;
      loading := true;
    }

    /** `if (loading || !user)`: the page shows only the spinner. */
    predicate ShowsSpinner()
      reads this
    {
      loading || user.None?
    }

    /** `fetchUserAndBebes` over the stored `babies`; `queryFails` says the
        babies query answered with an error. Without a user or on a failed
        query only the loading flag and the stored user change; otherwise the
        list becomes the user's babies and its first baby is selected when
        there is one. */
    method FetchUserAndBebes(user: Option<Id>, babies: seq<Baby>, queryFails: bool)
      modifies this
      ensures this.user == user && !loading
      ensures ShowsSpinner() <==> user.None?
      ensures user.Some? && !queryFails ==> bebes == BabiesOf(babies, user.value)
      ensures user.Some? && !queryFails ==>
                && (forall i :: 0 <= i < |bebes| ==> bebes[i] in babies && bebes[i].userId == user.value)
                && (forall i :: 0 <= i < |babies| && babies[i].userId == user.value ==> babies[i] in bebes)
      ensures user.Some? && !queryFails && bebes != [] ==> selectedBebe == Some(bebes[0].id)
      ensures user.None? || queryFails || bebes == [] ==> selectedBebe == old(selectedBebe)
      ensures user.None? || queryFails ==> bebes == old(bebes)
    {
      this.user := user;
      if user.Some? && !queryFails {
        var found := BabiesOf(babies, user.value);
        bebes := found;
        if |found| > 0 {
          selectedBebe := Some(found[0].id);
        }
      }
      loading := false;
    }
  }
}

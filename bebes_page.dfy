/** The babies list page: the age text shown for each baby, and the list
    update after a delete. */
module BebesPage {

  import opened Common
  import opened CivilDates
  import opened Records

  /** `Math.floor((today - birth) / (1000 * 60 * 60 * 24))`, timestamps in milliseconds. */
  function AgeInDays(birth: int, now: int): (d: int)
    ensures MsPerDay * d <= now - birth < MsPerDay * (d + 1)
  {
    FloorDiv(now - birth, MsPerDay)
  }

  /** The unit `calculateAge` chooses and the count it prints. */
  datatype Age = Days(days: int) | Months(months: nat) | Years(years: nat)

  function AgeOf(days: int): (a: Age)
    ensures days < 30 ==> a == Days(days)
    ensures 30 <= days < 365 ==> a.Months? && 1 <= a.months <= 12 && 30 * a.months <= days < 30 * (a.months + 1)
    ensures days >= 365 ==> a.Years? && a.years >= 1 && 365 * a.years <= days < 365 * (a.years + 1)
  {
    if days < 30 then Days(days)
    else if days < 365 then Months(FloorDiv(days, 30))
    else Years(FloorDiv(days, 365))
  }

  function AgeText(a: Age): string
  {
    match a
    case Days(d) => IntToString(d) + " dias"
    case Months(m) => NatToString(m) + " " + (if m == 1 then "mês" else "meses")
    case Years(y) => NatToString(y) + " " + (if y == 1 then "ano" else "anos")
  }

  /** `calculateAge`. */
  function CalculateAge(birth: int, now: int): (text: string)
  {
    AgeText(AgeOf(AgeInDays(birth, now)))
  }

  /** The singular unit is used exactly when the count is one. */
  lemma SingularExactlyForOne(days: int)
    requires days >= 30
    ensures var a := AgeOf(days);
            var text := AgeText(a);
            && (a.Months? ==> (text == "1 mês" <==> a.months == 1))
            && (a.Years? ==> (text == "1 ano" <==> a.years == 1))
  {
    var a := AgeOf(days);
    if a.Months? && a.months != 1 {
      NoDigitSpace(NatToString(a.months), "meses", "1 mês");
    }
    if a.Years? && a.years != 1 {
      NoDigitSpace(NatToString(a.years), "anos", "1 ano");
    }
  }

  /** `n + " " + unit` differs from `"1 " + other` whenever the digits differ or the units differ. */
  lemma NoDigitSpace(digits: string, unit: string, other: string)
    requires |digits| >= 1 && forall i :: 0 <= i < |digits| ==> IsDigit(digits[i])
    requires |other| >= 2 && other[1] == ' '
    requires unit != other[2..]
    ensures digits + " " + unit != other
  {
    var t := digits + " " + unit;
    if |digits| == 1 {
      assert t[2..] == unit;
    } else {
      assert t[1] == digits[1];
    }
  }

  /** How the delete request ends. */
  datatype DeleteResponse = Deleted | Refused(error: Option<string>) | NetworkFailure

  predicate Keeps(id: Id, b: Baby) { b.id != id }

  /** The page's list, its error text and the id being deleted. */
  class Page {
    var bebes: seq<Baby>
    var error: string
    var deletingId: Option<Id>

    constructor (bebes: seq<Baby>)
      ensures this.bebes == bebes && error == "" && deletingId.None?
    {
      this.bebes := bebes;
      error := "";
      deletingId := None;
    }

    /** `handleDelete`: a declined confirmation changes nothing; a successful
        request removes the babies with that id, keeping the others in order;
        a refused or failed one reports an error and keeps the list. */
    method HandleDelete(id: Id, confirmed: bool, response: DeleteResponse)
      modifies this
      ensures !confirmed ==> bebes == old(bebes) && error == old(error) && deletingId == old(deletingId)
      ensures confirmed ==> deletingId.None?
      ensures confirmed && response.Deleted? ==>
                bebes == Filter(old(bebes), (b: Baby) => Keeps(id, b)) && error == old(error)
      ensures confirmed && response.Refused? ==>
                bebes == old(bebes) &&
                error == (if response.error.Some? && response.error.value != "" then response.error.value else "Erro ao deletar bebê")
      ensures confirmed && response.NetworkFailure? ==> bebes == old(bebes) && error == "Erro ao deletar bebê"
    {
      if !confirmed {
        return;
      }
      deletingId := Some(id);
      match response {
        case Deleted =>
          bebes := Filter(bebes, (b: Baby) => Keeps(id, b));
        case Refused(e) =>
          error := if e.Some? && e.value != "" then e.value else "Erro ao deletar bebê";
        case NetworkFailure =>
          error := "Erro ao deletar bebê";
      }
      deletingId := None;
    }
  }

  /** The list after a successful delete: no baby with that id, every other
      baby kept, in the original order. */
  lemma DeleteRemovesExactlyThatId(bebes: seq<Baby>, id: Id)
    ensures var after := Filter(bebes, (b: Baby) => Keeps(id, b));
            && IsSubsequence(after, bebes)
            && (forall i :: 0 <= i < |after| ==> after[i].id != id)
            && (forall i :: 0 <= i < |bebes| && bebes[i].id != id ==> bebes[i] in after)
            && ((forall i :: 0 <= i < |bebes| ==> bebes[i].id != id) ==> after == bebes)
  {
    var keep := (b: Baby) => Keeps(id, b);
    FilterIsSubsequence(bebes, keep);
    if forall i :: 0 <= i < |bebes| ==> bebes[i].id != id {
      FilterAll(bebes, keep);
    }
  }
}

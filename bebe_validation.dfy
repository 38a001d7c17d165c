/** The baby form. The birth date arrives as text that JavaScript's `Date`
    parses; here it arrives as that parse's timestamp, `None` for an invalid date. */
module BebeValidation {

  import opened Common
  import opened CivilDates
  import opened Validation

  const BloodTypes: seq<string> := ["A+", "A-", "B+", "B-", "AB+", "AB-", "O+", "O-"]

  /** `new Date('1900-01-01')`: a date-only text is read at UTC midnight. */
  const Start1900: int := -25567 * MsPerDay

  lemma Start1900IsNewYear1900()
    ensures Start1900 == DayStart(DayNumber(1900, 1, 1))
  {
  }

  // The messages the schema reports.
  const NameTooShort := "Nome deve ter pelo menos 2 caracteres"
  const NameTooLong := "Nome deve ter no máximo 100 caracteres"
  const BirthDateInvalid := "Data de nascimento deve ser uma data válida e não pode ser no futuro"
  const BloodTypeInvalid := "Tipo sanguíneo deve ser um dos valores válidos"
  const BirthPlaceTooShort := "Local de nascimento deve ter pelo menos 2 caracteres"
  const BirthPlaceTooLong := "Local de nascimento deve ter no máximo 200 caracteres"
  const FatherTooShort := "Nome do pai deve ter pelo menos 2 caracteres"
  const FatherTooLong := "Nome do pai deve ter no máximo 100 caracteres"
  const MotherTooShort := "Nome da mãe deve ter pelo menos 2 caracteres"
  const MotherTooLong := "Nome da mãe deve ter no máximo 100 caracteres"
  const GrandfatherTooShort := "Nome do avô paterno deve ter pelo menos 2 caracteres"
  const GrandfatherTooLong := "Nome do avô paterno deve ter no máximo 100 caracteres"
  const GrandmotherTooShort := "Nome da avó materna deve ter pelo menos 2 caracteres"
  const GrandmotherTooLong := "Nome da avó materna deve ter no máximo 100 caracteres"
  const UuidInvalid := "ID deve ser um UUID válido"

  datatype BebeInput = BebeInput(
    nome: string,
    dataNascimento: Option<int>,
    tipoSanguineo: string,
    localNascimento: string,
    nomePai: string,
    nomeMae: string,
    nomeAvoPaterno: Option<string>,
    nomeAvoMaterno: Option<string>)

  /** The birth-date refinement: a valid date, not after `now`, after the first of January 1900. */
  predicate BirthDateOk(parsed: Option<int>, now: int)
  {
    parsed.Some? && parsed.value <= now && parsed.value > Start1900
  }

  function Name(s: string, path: string, tooShort: string, tooLong: string): (r: seq<Issue>)
    ensures r == [] <==> 2 <= |s| <= 100
  {
    Length(s, 2, 100, path, tooShort, tooLong)
  }

  function PaternalGrandfather(s: string): (r: seq<Issue>)
    ensures r == [] <==> 2 <= |s| <= 100
  {
    Name(s, "nome_avo_paterno", GrandfatherTooShort, GrandfatherTooLong)
  }

  function MaternalGrandmother(s: string): (r: seq<Issue>)
    ensures r == [] <==> 2 <= |s| <= 100
  {
    Name(s, "nome_avo_materno", GrandmotherTooShort, GrandmotherTooLong)
  }

  /** The first four keys of `bebeSchema`. */
  function BirthIssues(x: BebeInput, now: int): (r: seq<Issue>)
    ensures r == [] <==>
              && 2 <= |x.nome| <= 100
              && BirthDateOk(x.dataNascimento, now)
              && x.tipoSanguineo in BloodTypes
              && 2 <= |x.localNascimento| <= 200
  {
    Name(x.nome, "nome", NameTooShort, NameTooLong)
      + Check(BirthDateOk(x.dataNascimento, now), "data_nascimento", BirthDateInvalid)
      + Check(x.tipoSanguineo in BloodTypes, "tipo_sanguineo", BloodTypeInvalid)
      + Length(x.localNascimento, 2, 200, "local_nascimento", BirthPlaceTooShort, BirthPlaceTooLong)
  }

  /** The family keys of `bebeSchema`. */
  function FamilyIssues(x: BebeInput): (r: seq<Issue>)
    ensures r == [] <==>
              && 2 <= |x.nomePai| <= 100 && 2 <= |x.nomeMae| <= 100
              && (x.nomeAvoPaterno.Some? ==> 2 <= |x.nomeAvoPaterno.value| <= 100)
              && (x.nomeAvoMaterno.Some? ==> 2 <= |x.nomeAvoMaterno.value| <= 100)
  {
    Name(x.nomePai, "nome_pai", FatherTooShort, FatherTooLong)
      + Name(x.nomeMae, "nome_mae", MotherTooShort, MotherTooLong)
      + Optional(x.nomeAvoPaterno, PaternalGrandfather)
      + Optional(x.nomeAvoMaterno, MaternalGrandmother)
  }

  /** `bebeSchema`. */
  function BebeIssues(x: BebeInput, now: int): (r: seq<Issue>)
    ensures r == [] <==>
              && 2 <= |x.nome| <= 100 && 2 <= |x.nomePai| <= 100 && 2 <= |x.nomeMae| <= 100
              && BirthDateOk(x.dataNascimento, now)
              && x.tipoSanguineo in BloodTypes
              && 2 <= |x.localNascimento| <= 200
              && (x.nomeAvoPaterno.Some? ==> 2 <= |x.nomeAvoPaterno.value| <= 100)
              && (x.nomeAvoMaterno.Some? ==> 2 <= |x.nomeAvoMaterno.value| <= 100)
  {
    BirthIssues(x, now) + FamilyIssues(x)
  }

  /** `bebeUpdateSchema`: the same fields and a UUID `id`. */
  function BebeUpdateIssues(x: BebeInput, id: string, now: int, isUuid: string -> bool): (r: seq<Issue>)
    ensures r == [] <==> BebeIssues(x, now) == [] && isUuid(id)
    ensures BebeIssues(x, now) <= r
  {
    BebeIssues(x, now) + Check(isUuid(id), "id", UuidInvalid)
  }
}

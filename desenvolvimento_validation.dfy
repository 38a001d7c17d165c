/** The growth-measurement form. The measurement date arrives as the
    timestamp JavaScript's `Date` parses from it, `None` for an invalid date;
    weight and length are numbers. */
module DesenvolvimentoValidation {

  import opened Common
  import opened CivilDates
  import opened Validation

  // The messages the schema reports.
  const NotesTooLong := "Observações devem ter no máximo 500 caracteres"
  const BabyIdInvalid := "ID do bebê deve ser um UUID válido"
  const DateInvalid := "Data da medição deve ser hoje ou uma data passada"
  const WeightTooLow := "Peso deve ser pelo menos 0.5 kg"
  const WeightTooHigh := "Peso deve ser no máximo 50.0 kg"
  const LengthTooLow := "Comprimento deve ser pelo menos 30 cm"
  const LengthTooHigh := "Comprimento deve ser no máximo 200 cm"
  const UuidInvalid := "ID deve ser um UUID válido"

  datatype DesenvolvimentoInput = DesenvolvimentoInput(
    bebeId: string,
    dataMedicao: Option<int>,
    pesoKg: real,
    comprimentoCm: real,
    observacoes: Option<string>)

  /** The date refinement: a valid date no later than the last millisecond of today. */
  predicate DateOk(parsed: Option<int>, now: int)
  {
    parsed.Some? && parsed.value <= EndOfDay(now)
  }

  /** `z.number().min(lo, m1).max(hi, m2)`, both bounds inclusive. */
  function Range(x: real, lo: real, hi: real, path: string, tooSmall: string, tooLarge: string): (r: seq<Issue>)
    ensures r == [] <==> lo <= x <= hi
  {
    Check(x >= lo, path, tooSmall) + Check(x <= hi, path, tooLarge)
  }

  /** `desenvolvimentoSchema`. */
  function DesenvolvimentoIssues(x: DesenvolvimentoInput, now: int, isUuid: string -> bool): (r: seq<Issue>)
    ensures r == [] <==>
              && isUuid(x.bebeId)
              && DateOk(x.dataMedicao, now)
              && 0.5 <= x.pesoKg <= 50.0
              && 30.0 <= x.comprimentoCm <= 200.0
              && (x.observacoes.None? || |x.observacoes.value| <= 500)
  {
    Check(isUuid(x.bebeId), "bebe_id", BabyIdInvalid)
      + Check(DateOk(x.dataMedicao, now), "data_medicao", DateInvalid)
      + Range(x.pesoKg, 0.5, 50.0, "peso_kg", WeightTooLow, WeightTooHigh)
      + Range(x.comprimentoCm, 30.0, 200.0, "comprimento_cm", LengthTooLow, LengthTooHigh)
      + OptionalOrEmpty(x.observacoes, s => MaxLength(s, 500, "observacoes", NotesTooLong))
  }

  /** A measurement taken at any instant of today is accepted by the date rule,
      and one dated tomorrow is not. */
  lemma TodayAcceptedTomorrowRejected(now: int, t: int)
    ensures StartOfDay(now) <= t < StartOfDay(now) + MsPerDay ==> DateOk(Some(t), now)
    ensures t >= StartOfDay(now) + MsPerDay ==> !DateOk(Some(t), now)
  {
  }

  /** `desenvolvimentoUpdateSchema`: the same fields and a UUID `id`. */
  function DesenvolvimentoUpdateIssues(x: DesenvolvimentoInput, id: string, now: int, isUuid: string -> bool): (r: seq<Issue>)
    ensures r == [] <==> DesenvolvimentoIssues(x, now, isUuid) == [] && isUuid(id)
    ensures DesenvolvimentoIssues(x, now, isUuid) <= r
  {
    DesenvolvimentoIssues(x, now, isUuid) + Check(isUuid(id), "id", UuidInvalid)
  }
}

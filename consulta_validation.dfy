/** The appointment form, with its `HH:MM` time pattern. The appointment
    date arrives as the timestamp JavaScript's `Date` parses from it, `None`
    for an invalid date. */
module ConsultaValidation {

  import opened Common
  import opened CivilDates
  import opened Validation

  // The messages the schema reports.
  const NotesTooLong := "Anotações devem ter no máximo 500 caracteres"
  const BabyIdInvalid := "ID do bebê deve ser um UUID válido"
  const DoctorIdInvalid := "ID do médico deve ser um UUID válido"
  const DateInvalid := "Data da consulta deve ser hoje ou uma data futura"
  const TimeInvalid := "Hora deve estar no formato HH:MM"
  const PlaceTooShort := "Local deve ter pelo menos 2 caracteres"
  const PlaceTooLong := "Local deve ter no máximo 200 caracteres"
  const EnumExpected := "Invalid enum value. Expected 'agendada' | 'realizada' | 'cancelada' | 'remarcada', received '"
  const UuidInvalid := "ID deve ser um UUID válido"

  /** `/^([0-1]?[0-9]|2[0-3]):[0-5][0-9]$/`: an hour of one digit, of two
      digits starting 0 or 1, or 20 to 23; a colon; two minute digits 00 to 59. */
  predicate MatchesTime(s: string)
  {
    || (|s| == 4 && IsDigit(s[0]) && s[1] == ':' && '0' <= s[2] <= '5' && IsDigit(s[3]))
    || (&& |s| == 5
        && (('0' <= s[0] <= '1' && IsDigit(s[1])) || (s[0] == '2' && '0' <= s[1] <= '3'))
        && s[2] == ':' && '0' <= s[3] <= '5' && IsDigit(s[4]))
  }

  /** Two-digit text of a number below 100, as `padStart(2, '0')` gives it. */
  function TwoDigits(n: nat): (r: string)
    requires n < 100
    ensures |r| == 2 && DigitsValue(r) == n && IsDigit(r[0]) && IsDigit(r[1])
    ensures DigitValue(r[0]) == n / 10 && DigitValue(r[1]) == n % 10
  {
    ShortDigits(DigitChar(n / 10), DigitChar(n % 10));
    [DigitChar(n / 10), DigitChar(n % 10)]
  }

  /** The hour and minute a matching text denotes. */
  function Hour(s: string): nat
    requires MatchesTime(s)
  {
    DigitsValue(s[..|s| - 3])
  }

  function Minute(s: string): nat
    requires MatchesTime(s)
  {
    DigitsValue(s[|s| - 2..])
  }

  lemma DigitRoundTrip(c: char)
    requires IsDigit(c)
    ensures DigitChar(DigitValue(c)) == c
  {
  }

  /** The last two characters of a matching text are the minute's two digits. */
  lemma MinuteDigits(s: string)
    requires MatchesTime(s)
    ensures Minute(s) <= 59 && s[|s| - 2..] == TwoDigits(Minute(s))
  {
    var n := |s|;
    assert s[n - 2..] == [s[n - 2], s[n - 1]];
    ShortDigits(s[n - 2], s[n - 1]);
    DigitRoundTrip(s[n - 2]);
    DigitRoundTrip(s[n - 1]);
  }

  lemma ShortTimeIsValid(s: string)
    requires MatchesTime(s) && |s| == 4
    ensures Minute(s) <= 59 && Hour(s) <= 9 && s == [DigitChar(Hour(s))] + ":" + TwoDigits(Minute(s))
  {
    assert s[..1] == [s[0]];
    ShortDigits(s[0], s[1]);
    DigitRoundTrip(s[0]);
    MinuteDigits(s);
    assert s == [s[0]] + ":" + s[2..];
  }

  lemma LongTimeIsValid(s: string)
    requires MatchesTime(s) && |s| == 5
    ensures Minute(s) <= 59 && Hour(s) <= 23 && s == TwoDigits(Hour(s)) + ":" + TwoDigits(Minute(s))
  {
    assert s[..2] == [s[0], s[1]];
    ShortDigits(s[0], s[1]);
    DigitRoundTrip(s[0]);
    DigitRoundTrip(s[1]);
    MinuteDigits(s);
    assert s == [s[0], s[1]] + ":" + s[3..];
  }

  /** Every matching text is `H:MM` with a one-digit hour or `HH:MM`, for an
      hour 0..23 and a minute 0..59. */
  lemma MatchedTimeIsValid(s: string)
    requires MatchesTime(s)
    ensures Hour(s) <= 23 && Minute(s) <= 59
    ensures |s| == 4 ==> Hour(s) <= 9 && s == [DigitChar(Hour(s))] + ":" + TwoDigits(Minute(s))
    ensures |s| == 5 ==> s == TwoDigits(Hour(s)) + ":" + TwoDigits(Minute(s))
  {
    MinuteDigits(s);
    if |s| == 4 {
      ShortTimeIsValid(s);
    } else {
      LongTimeIsValid(s);
    }
  }

  /** Every hour 0..23 and minute 0..59 is accepted in the two-digit form, and
      in the one-digit form when the hour has one digit; both read back. */
  lemma ValidTimeMatches(h: nat, m: nat)
    requires h <= 23 && m <= 59
    ensures var s := TwoDigits(h) + ":" + TwoDigits(m);
            MatchesTime(s) && Hour(s) == h && Minute(s) == m
    ensures h <= 9 ==> var s := [DigitChar(h)] + ":" + TwoDigits(m);
                       MatchesTime(s) && Hour(s) == h && Minute(s) == m
  {
    var s := TwoDigits(h) + ":" + TwoDigits(m);
    assert s[..2] == TwoDigits(h) && s[3..] == TwoDigits(m);
    if h <= 9 {
      var t := [DigitChar(h)] + ":" + TwoDigits(m);
      assert t[..1] == [DigitChar(h)] && t[2..] == TwoDigits(m);
      ShortDigits(DigitChar(h), DigitChar(h));
    }
  }

  /** `9:05` is accepted and `24:00` is not. */
  lemma TimeExamples()
    ensures MatchesTime("9:05") && MatchesTime("09:05") && MatchesTime("23:59")
    ensures !MatchesTime("24:00") && !MatchesTime("9:5") && !MatchesTime("12:60")
  {
  }

  const Statuses: seq<string> := ["agendada", "realizada", "cancelada", "remarcada"]

  datatype ConsultaInput = ConsultaInput(
    bebeId: string,
    medicoId: string,
    dataConsulta: Option<int>,
    horaConsulta: string,
    local: string,
    anotacoes: Option<string>,
    status: Option<string>)

  /** `.default('agendada')`: an absent status becomes `agendada` before the enum check. */
  function StatusOf(x: ConsultaInput): string
  {
    if x.status.None? then "agendada" else x.status.value
  }

  /** The date refinement: a valid date no earlier than the start of today. */
  predicate DateOk(parsed: Option<int>, now: int)
  {
    parsed.Some? && parsed.value >= StartOfDay(now)
  }

  /** The identity keys of `consultaSchema`. */
  function WhoIssues(x: ConsultaInput, isUuid: string -> bool): (r: seq<Issue>)
    ensures r == [] <==> isUuid(x.bebeId) && isUuid(x.medicoId)
  {
    Check(isUuid(x.bebeId), "bebe_id", BabyIdInvalid)
      + Check(isUuid(x.medicoId), "medico_id", DoctorIdInvalid)
  }

  /** The schedule keys of `consultaSchema`. */
  function WhenIssues(x: ConsultaInput, now: int): (r: seq<Issue>)
    ensures r == [] <==> DateOk(x.dataConsulta, now) && MatchesTime(x.horaConsulta) && 2 <= |x.local| <= 200
  {
    Check(DateOk(x.dataConsulta, now), "data_consulta", DateInvalid)
      + Check(MatchesTime(x.horaConsulta), "hora_consulta", TimeInvalid)
      + Length(x.local, 2, 200, "local", PlaceTooShort, PlaceTooLong)
  }

  /** The enum check, with zod's message for a value outside the enum. */
  function StatusIssues(x: ConsultaInput): (r: seq<Issue>)
    ensures r == [] <==> StatusOf(x) in Statuses
  {
    Check(StatusOf(x) in Statuses, "status",
          EnumExpected + StatusOf(x) + "'")
  }

  /** `consultaSchema`. */
  function ConsultaIssues(x: ConsultaInput, now: int, isUuid: string -> bool): (r: seq<Issue>)
    ensures r == [] <==>
              && isUuid(x.bebeId) && isUuid(x.medicoId)
              && DateOk(x.dataConsulta, now)
              && MatchesTime(x.horaConsulta)
              && 2 <= |x.local| <= 200
              && (x.anotacoes.None? || |x.anotacoes.value| <= 500)
              && (x.status.None? || x.status.value in Statuses)
  {
    WhoIssues(x, isUuid) + WhenIssues(x, now) + OptionalOrEmpty(x.anotacoes, s => MaxLength(s, 500, "anotacoes", NotesTooLong)) + StatusIssues(x)
  }

  /** An absent status is never the reason a form fails. */
  lemma AbsentStatusDefaults(x: ConsultaInput)
    requires x.status.None?
    ensures StatusOf(x) == "agendada" && StatusIssues(x) == []
  {
  }

  /** `consultaUpdateSchema`: the same fields and a UUID `id`. */
  function ConsultaUpdateIssues(x: ConsultaInput, id: string, now: int, isUuid: string -> bool): (r: seq<Issue>)
    ensures r == [] <==> ConsultaIssues(x, now, isUuid) == [] && isUuid(id)
    ensures ConsultaIssues(x, now, isUuid) <= r
  {
    ConsultaIssues(x, now, isUuid) + Check(isUuid(id), "id", UuidInvalid)
  }
}

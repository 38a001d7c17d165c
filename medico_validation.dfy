/** The doctor form. */
module MedicoValidation {

  import opened Common
  import opened Validation

  // The messages the schema reports.
  const InvalidEmail := "E-mail inválido"
  const AddressTooLong := "Endereço deve ter no máximo 200 caracteres"
  const NameTooShort := "Nome deve ter pelo menos 2 caracteres"
  const NameTooLong := "Nome deve ter no máximo 100 caracteres"
  const SpecialtyTooShort := "Especialidade deve ter pelo menos 2 caracteres"
  const SpecialtyTooLong := "Especialidade deve ter no máximo 100 caracteres"
  const PhoneTooShort := "Telefone deve ter pelo menos 10 dígitos"
  const PhoneTooLong := "Telefone deve ter no máximo 15 dígitos"
  const UuidInvalid := "ID deve ser um UUID válido"

  datatype MedicoInput = MedicoInput(
    nome: string,
    especialidade: string,
    crm: Option<string>,
    telefone: string,
    email: Option<string>,
    endereco: Option<string>)

  function EmailIssues(isEmail: string -> bool): string -> seq<Issue>
  {
    (s: string) => Check(isEmail(s), "email", InvalidEmail)
  }

  /** `medicoSchema`. */
  function MedicoIssues(x: MedicoInput, isEmail: string -> bool): (r: seq<Issue>)
    ensures r == [] <==>
              && 2 <= |x.nome| <= 100 && 2 <= |x.especialidade| <= 100
              && 10 <= |x.telefone| <= 15
              && (x.email.None? || x.email.value == "" || isEmail(x.email.value))
              && (x.endereco.None? || |x.endereco.value| <= 200)
    ensures x.email.Some? && x.email.value != "" && !isEmail(x.email.value) ==> Issue("email", InvalidEmail) in r
  {
    Length(x.nome, 2, 100, "nome", NameTooShort, NameTooLong)
      + Length(x.especialidade, 2, 100, "especialidade", SpecialtyTooShort, SpecialtyTooLong)
      + Length(x.telefone, 10, 15, "telefone", PhoneTooShort, PhoneTooLong)
      + OptionalOrEmpty(x.email, EmailIssues(isEmail))
      + OptionalOrEmpty(x.endereco, s => MaxLength(s, 200, "endereco", AddressTooLong))
  }

  /** The CRM number is never checked. */
  lemma CrmUnconstrained(x: MedicoInput, crm: Option<string>, isEmail: string -> bool)
    ensures MedicoIssues(x.(crm := crm), isEmail) == MedicoIssues(x, isEmail)
  {
  }

  /** `medicoUpdateSchema`: the same fields and a UUID `id`. */
  function MedicoUpdateIssues(x: MedicoInput, id: string, isEmail: string -> bool, isUuid: string -> bool): (r: seq<Issue>)
    ensures r == [] <==> MedicoIssues(x, isEmail) == [] && isUuid(id)
    ensures MedicoIssues(x, isEmail) <= r
  {
    MedicoIssues(x, isEmail) + Check(isUuid(id), "id", UuidInvalid)
  }
}

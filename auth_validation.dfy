/** The account forms: sign-in, registration, password-reset request and profile update. */
module AuthValidation {

  import opened Validation

  const InvalidEmail := "E-mail inválido"
  const PasswordTooShort := "Senha deve ter pelo menos 6 caracteres"
  const NameTooShort := "Nome deve ter pelo menos 2 caracteres"
  const PasswordsDiffer := "Senhas não coincidem"

  /** The minimum password length of every password rule. */
  const MinPassword := 6

  datatype LoginInput = LoginInput(email: string, password: string)

  /** `loginSchema`. */
  function LoginIssues(x: LoginInput, isEmail: string -> bool): (r: seq<Issue>)
    ensures r == [] <==> isEmail(x.email) && |x.password| >= MinPassword
    ensures !isEmail(x.email) ==> r[0] == Issue("email", InvalidEmail)
  {
    Check(isEmail(x.email), "email", InvalidEmail) + Check(|x.password| >= MinPassword, "password", PasswordTooShort)
  }

  datatype RegisterInput = RegisterInput(name: string, email: string, password: string, confirmPassword: string)

  /** `registerSchema`: the field checks, then the confirmation refinement,
      which also runs when a field check has failed. */
  function RegisterIssues(x: RegisterInput, isEmail: string -> bool): (r: seq<Issue>)
    ensures r == [] <==> |x.name| >= 2 && isEmail(x.email) && |x.password| >= MinPassword && x.password == x.confirmPassword
    ensures x.password != x.confirmPassword ==> r != [] && r[|r| - 1] == Issue("confirmPassword", PasswordsDiffer)
    ensures x.password == x.confirmPassword ==> forall i :: 0 <= i < |r| ==> r[i].path != "confirmPassword"
  {
    Check(|x.name| >= 2, "name", NameTooShort)
      + Check(isEmail(x.email), "email", InvalidEmail)
      + Check(|x.password| >= MinPassword, "password", PasswordTooShort)
      + Check(x.password == x.confirmPassword, "confirmPassword", PasswordsDiffer)
  }

  /** A registration whose fields all pass fails on a differing confirmation alone. */
  lemma MismatchAloneFails(x: RegisterInput, isEmail: string -> bool)
    requires |x.name| >= 2 && isEmail(x.email) && |x.password| >= MinPassword
    requires x.password != x.confirmPassword
    ensures RegisterIssues(x, isEmail) == [Issue("confirmPassword", PasswordsDiffer)]
  {
  }

  /** `resetPasswordSchema`: only the e-mail. */
  function ResetIssues(email: string, isEmail: string -> bool): (r: seq<Issue>)
    ensures r == [] <==> isEmail(email)
  {
    Check(isEmail(email), "email", InvalidEmail)
  }

  datatype ProfileInput = ProfileInput(name: string, email: string)

  /** `updateProfileSchema`. */
  function ProfileIssues(x: ProfileInput, isEmail: string -> bool): (r: seq<Issue>)
    ensures r == [] <==> |x.name| >= 2 && isEmail(x.email)
  {
    Check(|x.name| >= 2, "name", NameTooShort) + Check(isEmail(x.email), "email", InvalidEmail)
  }
}

/** The new-password page: two field checkers whose messages the form shows,
    and the submit handler, which needs the token the page obtains when the
    session check succeeds. */
module ResetPasswordPage {

  import opened Common

  const PasswordRequired := "Senha é obrigatória"
  const PasswordTooShort := "Senha deve ter pelo menos 6 caracteres"
  const ConfirmationRequired := "Confirmação de senha é obrigatória"
  const PasswordsDiffer := "Senhas não coincidem"
  const TokenMissing := "Token de redefinição não encontrado"
  const ResetFailed := "Erro ao redefinir senha"

  /** `resetPasswordSchema.password`: `None` is JavaScript's `null`, no error. */
  function PasswordError(value: string): (e: Option<string>)
    ensures value == "" <==> e == Some(PasswordRequired)
    ensures e == Some(PasswordTooShort) <==> 0 < |value| < 6
    ensures e.None? <==> |value| >= 6
  {
    if value == "" then Some(PasswordRequired)
    else if |value| < 6 then Some(PasswordTooShort)
    else None
  }

  /** `resetPasswordSchema.confirmPassword`: emptiness is checked before equality. */
  function ConfirmError(value: string, password: string): (e: Option<string>)
    ensures value == "" <==> e == Some(ConfirmationRequired)
    ensures e == Some(PasswordsDiffer) <==> value != "" && value != password
    ensures e.None? <==> value != "" && value == password
  {
    if value == "" then Some(ConfirmationRequired)
    else if value != password then Some(PasswordsDiffer)
    else None
  }

  /** An empty confirmation reports the required error even when the password is empty too. */
  lemma EmptyConfirmationBeforeMismatch(password: string)
    ensures ConfirmError("", password) == Some(ConfirmationRequired)
  {
  }

  /** How `updatePassword` ends: it returns, throws an `Error` with a message,
      or throws a value that is not an `Error`. */
  datatype UpdateOutcome = Updated | ThrewError(message: string) | ThrewOther

  /** The page's state, and the calls it has made to `updatePassword`. */
  class Page {
    var token: Option<string>
    var loading: bool
    var error: string
    var success: bool
    var updateCalls: seq<(string, string)>

    constructor (token: Option<string>)
      ensures this.token == token && !loading && error == "" && !success && updateCalls == []
    {
      this.token := token;
      loading := false;
      error := "";
      success := false;
      updateCalls := [];
    }

    /** The page holds a usable token: present and not empty. */
    predicate HasToken()
      reads this
    {
      token.Some? && token.value != ""
    }

    /** `onSubmit`: without a token it only reports the missing token;
        otherwise it calls `updatePassword` once and records how that ended. */
    method OnSubmit(password: string, outcome: UpdateOutcome)
      modifies this
      ensures token == old(token)
      ensures !old(HasToken()) ==>
                error == TokenMissing && updateCalls == old(updateCalls) &&
                success == old(success) && loading == old(loading)
      ensures old(HasToken()) ==>
                && updateCalls == old(updateCalls) + [(password, token.value)]
                && !loading
                && (outcome.Updated? ==> success && error == "")
                && (outcome.ThrewError? ==> success == old(success) && error == outcome.message)
                && (outcome.ThrewOther? ==> success == old(success) && error == ResetFailed)
    {
      if !HasToken() {
        error := TokenMissing;
        return;
      }
      loading := true;
      error := "";
      updateCalls := updateCalls + [(password, token.value)];
      match outcome {
        case Updated => success := true;
        case ThrewError(message) => error := message;
        case ThrewOther => error := ResetFailed;
      }
      loading := false;
    }
  }
}

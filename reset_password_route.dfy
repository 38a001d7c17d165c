/** The `/api/auth/reset-password` handler. The password is validated before
    the caller's identity is looked up. */
module ResetPasswordRoute {

  import opened Common
  import opened Http

  const PasswordRequired := "Senha é obrigatória"
  const PasswordTooShort := "Senha deve ter pelo menos 6 caracteres"
  const NotAuthenticated := "Usuário não autenticado"
  const Updated := "Senha atualizada com sucesso"

  /** `POST`: `password` is the body member (`None` when absent), `user` the
      authenticated user, and `updateError` the error the account service
      answers the update with. */
  function ResetPassword(password: Option<string>, user: Option<Id>, updateError: Option<string>): (r: Response<()>)
    ensures password.None? || password.value == "" ==> r == ErrorResponse(400, PasswordRequired)
    ensures password.Some? && 0 < |password.value| < 6 ==> r == ErrorResponse(400, PasswordTooShort)
    ensures password.Some? && |password.value| >= 6 ==>
              && (user.None? ==> r == ErrorResponse(401, NotAuthenticated))
              && (user.Some? && updateError.Some? ==> r == ErrorResponse(400, updateError.value))
              && (user.Some? && updateError.None? ==> r == MessageResponse(Updated))
    ensures r.status == 200 <==> password.Some? && |password.value| >= 6 && user.Some? && updateError.None?
  {
    if password.None? || password.value == "" then ErrorResponse(400, PasswordRequired)
    else if |password.value| < 6 then ErrorResponse(400, PasswordTooShort)
    else if user.None? then ErrorResponse(401, NotAuthenticated)
    else if updateError.Some? then ErrorResponse(400, updateError.value)
    else MessageResponse(Updated)
  }

  /** An invalid password is refused with 400 whether or not anyone is signed in. */
  lemma PasswordCheckedBeforeIdentity(password: Option<string>, updateError: Option<string>, someone: Id)
    requires password.None? || |password.value| < 6
    ensures ResetPassword(password, None, updateError) == ResetPassword(password, Some(someone), updateError)
    ensures ResetPassword(password, None, updateError).status == 400
  {
  }
}

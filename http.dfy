/** The JSON responses the route handlers return: a status code and a body
    that carries an `error` text, a `message` text, or a payload. */
module Http {

  datatype Body<T> = Error(error: string) | Message(message: string) | Data(data: T)

  datatype Response<T> = Response(status: nat, body: Body<T>)

  /** `NextResponse.json({ error }, { status })`. */
  function ErrorResponse<T>(status: nat, error: string): Response<T>
  {
    Response(status, Error(error))
  }

  /** `NextResponse.json({ message })`: status 200. */
  function MessageResponse<T>(message: string): Response<T>
  {
    Response(200, Message(message))
  }

  /** A route handler's early-return guard chain: either a response, or leave to go on. */
  datatype Verdict<T, A> = Reject(response: Response<T>) | Proceed(arg: A)

  const Unauthorized := "Não autorizado"
  const InternalError := "Erro interno do servidor"
}

/** The response envelope shared by every handler of the user controller,
    the truthiness test the handlers apply to request fields, and the
    mapping from identity-provider errors to replies. */
module Http {

  /** The fixed local messages the controller sends. */
  const InvalidBody: string := "Invalid request body"
  const ProviderServerError: string := "Firebase Server Error"
  const DatabaseError: string := "Database Error"
  const ServerError: string := "Server Error"
  const InternalServerError: string := "Internal Server Error"
  const SignUpDatabaseError: string := "Sign Up successful Database error"

  /** What a handler sends back: a 200 reply with a body, an error reply
      `{status, message}`, or `Unanswered` when the handler throws outside
      any `try`. Whether and how the request is then answered is up to the
      runtime, which the controller does not fix. */
  datatype Reply<T> = Ok(body: T) | Fail(status: nat, message: string) | Unanswered

  /** A request-body field as the handler destructures it: absent or a string. */
  type Field = Option<string>

  datatype Option<T> = None | Some(value: T)

  /** JavaScript truthiness of a string field: `!x` holds for `undefined`
      and for the empty string. */
  predicate Present(f: Field) {
    f.Some? && f.value != ""
  }

  /** How a call to the identity provider failed, as the `catch` block sees
      it: an error body whose `message` may be missing or empty, or no
      error body at all (a network failure, or a non-provider error page). */
  datatype ProviderError = ErrorBody(message: Option<string>) | NoErrorBody

  /** The outcome of one call to the identity provider. */
  datatype Provider<T> = Granted(value: T) | Rejected(error: ProviderError)

  /** The reply of the `catch (firebaseErr)` block shared by the handlers:
      the provider's message with status 400 when it has one, otherwise
      500 'Firebase Server Error'. Without an error body the dereference
      `firebaseErr.response.data.error.message` throws inside the `catch`,
      and the handler throws. */
  function ProviderFailure<T>(e: ProviderError): (r: Reply<T>)
    ensures e.NoErrorBody? <==> r.Unanswered?
    ensures e.ErrorBody? && Present(e.message) <==> r.Fail? && r.status == 400
    ensures e.ErrorBody? && Present(e.message) ==> r.message == e.message.value
    ensures e.ErrorBody? && !Present(e.message) <==> r == Fail(500, ProviderServerError)
    ensures !r.Ok?
  {
    match e
    case NoErrorBody => Unanswered
    case ErrorBody(m) =>
      if Present(m) then Fail(400, m.value) else Fail(500, ProviderServerError)
  }
}

/** The error layer of the HTTP server: the four named errors the application
    raises and the error handler that turns anything thrown into a reply. */
module Fastify {
  import opened Results
  import Schemas

  /** The errors created with `createError(code, message, statusCode)`. */
  datatype NamedError = Unauthorized | NotFound | BadRequest | InternalServerError

  function Code(e: NamedError): string
  {
    match e
    case Unauthorized => "UNAUTHORIZED"
    case NotFound => "NOT_FOUND"
    case BadRequest => "BAD_REQUEST"
    case InternalServerError => "INTERNAL_SERVER_ERROR"
  }

  function Message(e: NamedError): string
  {
    match e
    case Unauthorized => "Unauthorized"
    case NotFound => "Not Found"
    case BadRequest => "Bad Request"
    case InternalServerError => "Internal Server Error"
  }

  function StatusCode(e: NamedError): int
  {
    match e
    case Unauthorized => 401
    case NotFound => 404
    case BadRequest => 400
    case InternalServerError => 500
  }

  /** Whatever reaches the error handler. `zodIssues` is present exactly when
      the value is a Zod validation error; `statusCode` and `code` are the
      properties of that name, if the value has them (the framework also sets
      them on validation errors, so a Zod error may carry both). */
  datatype Thrown = Thrown(
    zodIssues: Option<seq<Schemas.Issue>>,
    statusCode: Option<int>,
    code: Option<string>,
    message: string)

  /** A fresh instance of a named error: not a validation error, with a
      truthy status and code, and the error's fixed message. */
  function Raise(e: NamedError): (t: Thrown)
    ensures t.zodIssues.None?
    ensures CarriesStatus(t)
    ensures t.message == Message(e)
  {
    Thrown(None, Some(StatusCode(e)), Some(Code(e)), Message(e))
  }

  /** The error response `{statusCode, code, message?, issues?}`. A `message`
      of `None` means the model does not fix it. */
  datatype Reply = Reply(
    statusCode: int,
    code: string,
    message: Option<string>,
    issues: Option<seq<Schemas.Issue>>)

  /** JavaScript truthiness of the two properties the handler tests: `0` and
      the empty string are falsy. */
  predicate CarriesStatus(t: Thrown)
  {
    && t.statusCode.Some? && t.statusCode.value != 0
    && t.code.Some? && t.code.value != ""
  }

  /** The error handler: Zod errors first, then errors carrying a status and
      a code, and an internal error for everything else. */
  function HandleError(t: Thrown): (r: Reply)
    ensures r.issues.Some? <==> t.zodIssues.Some?
    ensures r.issues.Some? ==> r.issues == t.zodIssues
    ensures t.zodIssues.Some? ==> r.statusCode == 400 && r.code == "BAD_REQUEST"
    ensures t.zodIssues.None? && CarriesStatus(t) ==>
      r.statusCode == t.statusCode.value && r.code == t.code.value && r.message == Some(t.message)
    ensures t.zodIssues.None? && !CarriesStatus(t) ==> r.statusCode == 500 && r.code == "INTERNAL_SERVER_ERROR"
  {
    if t.zodIssues.Some? then
      Reply(400, "BAD_REQUEST", Some("Bad Request"), t.zodIssues)
    else if CarriesStatus(t) then
      Reply(t.statusCode.value, t.code.value, Some(t.message), None)
    else
      Reply(StatusCode(InternalServerError), Code(InternalServerError), None, None)
  }

  /** Each named error is answered with its own status, code and message, and
      without an issue list. */
  lemma RaisedErrorReply(e: NamedError)
    ensures HandleError(Raise(e)) == Reply(StatusCode(e), Code(e), Some(Message(e)), None)
  {
  }

  /** The four named errors have distinct codes and statuses, all of them
      client or server error statuses. */
  lemma NamedErrorsDistinct()
    ensures forall a: NamedError, b: NamedError :: Code(a) == Code(b) ==> a == b
    ensures forall a: NamedError, b: NamedError :: StatusCode(a) == StatusCode(b) ==> a == b
    ensures forall a: NamedError :: 400 <= StatusCode(a) <= 599
  {
  }

  /** A validation error is answered as a bad request with its issues even
      when it also carries a status and a code of its own. */
  lemma ValidationCheckedFirst(issues: seq<Schemas.Issue>, status: Option<int>, code: Option<string>, message: string)
    ensures HandleError(Thrown(Some(issues), status, code, message))
         == Reply(StatusCode(BadRequest), Code(BadRequest), Some(Message(BadRequest)), Some(issues))
  {
  }

  /** A plain error, or one whose status or code is falsy, becomes a 500. */
  lemma UnknownErrorIsInternal(t: Thrown)
    requires t.zodIssues.None?
    requires t.statusCode.None? || t.statusCode == Some(0) || t.code.None? || t.code == Some("")
    ensures HandleError(t).statusCode == StatusCode(InternalServerError)
    ensures HandleError(t).code == Code(InternalServerError)
    ensures HandleError(t).issues.None?
  {
  }

  /** Every reply the handler gives to a validation error, a named error or
      an error without status and code has the status and code of one of the
      four named errors. */
  lemma ReplyStatusIsNamed(t: Thrown)
    requires t.zodIssues.Some? || !CarriesStatus(t) || exists e: NamedError :: t == Raise(e)
    ensures exists e: NamedError :: HandleError(t).statusCode == StatusCode(e) && HandleError(t).code == Code(e)
  {
    if t.zodIssues.Some? {
      assert HandleError(t).statusCode == StatusCode(BadRequest);
    } else if CarriesStatus(t) {
      var e :| t == Raise(e);
      RaisedErrorReply(e);
    } else {
      assert HandleError(t).statusCode == StatusCode(InternalServerError);
    }
  }
}

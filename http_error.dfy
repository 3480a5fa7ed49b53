/** The typed error every failed request is turned into, and the classifier
    that derives it from what axios reports. */
module HttpErrors {
  import opened Wrappers
  import opened JsValues
  import opened Http

  datatype HttpErrorType =
    | Network
    | Unauthorized
    | Forbidden
    | NotFound
    | Validation
    | Business   // declared by the library, produced by nothing in it
    | Server
    | Unknown

  /** `new HttpError(message, type, status?, details?)`: the constructor keeps
      its arguments as they are; an omitted status is `None`, omitted details
      are `Undefined`. */
  datatype HttpError = HttpError(message: string, kind: HttpErrorType, status: Option<int>, details: JsValue)

  const StatusBadRequest := 400
  const StatusUnauthorized := 401
  const StatusForbidden := 403
  const StatusNotFound := 404
  const StatusInternalServerError := 500

  /** The kinds whose message is fixed and whose error carries no details. */
  predicate IsFixedKind(k: HttpErrorType) {
    k.Unauthorized? || k.Forbidden? || k.NotFound? || k.Server?
  }

  /** The status code a fixed kind stands for (section 15 of RFC 9110). */
  function FixedStatus(k: HttpErrorType): int
    requires IsFixedKind(k)
  {
    match k
    case Unauthorized => StatusUnauthorized
    case Forbidden => StatusForbidden
    case NotFound => StatusNotFound
    case Server => StatusInternalServerError
  }

  /** mapAxiosError, on `error.response`. */
  function MapAxiosError(response: Option<Response>): (e: HttpError)
    ensures response.None? <==> e.kind == Network
    ensures response.None? ==> e == HttpError("Network error", Network, None, Undefined)
    ensures response.Some? ==> e.status == Some(response.value.status)
    ensures e.kind != Business
  {
    match response
    case None => HttpError("Network error", Network, None, Undefined)
    case Some(Response(status, data)) =>
      if status == StatusBadRequest then HttpError(OrElse(MessageOf(data), "Validation error"), Validation, Some(status), data)
      else if status == StatusUnauthorized then HttpError("Unauthorized", Unauthorized, Some(status), Undefined)
      else if status == StatusForbidden then HttpError("Forbidden", Forbidden, Some(status), Undefined)
      else if status == StatusNotFound then HttpError("Not found", NotFound, Some(status), Undefined)
      else if status == StatusInternalServerError then HttpError("Server error", Server, Some(status), Undefined)
      else HttpError(OrElse(MessageOf(data), "Unknown error"), Unknown, Some(status), data)
  }

  /** With a response, the kind is fixed by the status alone, in both
      directions: 400 is Validation, the four fixed kinds are their own
      status codes, and every other status is Unknown. */
  lemma ClassifiedByStatus(r: Response)
    ensures var e := MapAxiosError(Some(r));
            && (e.kind == Validation <==> r.status == StatusBadRequest)
            && (IsFixedKind(e.kind) ==> r.status == FixedStatus(e.kind))
            && (e.kind == Unknown <==> r.status !in {StatusBadRequest, StatusUnauthorized, StatusForbidden, StatusNotFound, StatusInternalServerError})
  {
  }

  /** The table of fixed outcomes: 401, 403, 404 and 500 each give their
      own kind and fixed message, keep the status and carry no details. */
  lemma FixedOutcomes(data: JsValue)
    ensures MapAxiosError(Some(Response(StatusUnauthorized, data))) == HttpError("Unauthorized", Unauthorized, Some(StatusUnauthorized), Undefined)
    ensures MapAxiosError(Some(Response(StatusForbidden, data))) == HttpError("Forbidden", Forbidden, Some(StatusForbidden), Undefined)
    ensures MapAxiosError(Some(Response(StatusNotFound, data))) == HttpError("Not found", NotFound, Some(StatusNotFound), Undefined)
    ensures MapAxiosError(Some(Response(StatusInternalServerError, data))) == HttpError("Server error", Server, Some(StatusInternalServerError), Undefined)
  {
  }

  /** Two responses classified into the same fixed kind had the same status;
      the kind and status of any error never disagree. */
  lemma FixedKindDeterminesStatus(r1: Response, r2: Response)
    requires MapAxiosError(Some(r1)).kind == MapAxiosError(Some(r2)).kind
    requires IsFixedKind(MapAxiosError(Some(r1)).kind)
    ensures r1.status == r2.status
  {
    ClassifiedByStatus(r1);
    ClassifiedByStatus(r2);
  }

  /** The body reaches the error exactly for 400 and for unlisted statuses:
      as details, and as the message when `body.message` is truthy. */
  lemma BodyCarriedFor(r: Response)
    ensures var e := MapAxiosError(Some(r));
            && (e.kind == Validation || e.kind == Unknown ==> e.details == r.data)
            && (IsFixedKind(e.kind) ==> e.details == Undefined)
            && (e.kind == Validation || e.kind == Unknown ==>
                  e.message == if Truthy(MessageOf(r.data)) then ToString(MessageOf(r.data))
                               else if e.kind == Validation then "Validation error" else "Unknown error")
  {
  }

  /** A string `message` property of the body becomes the error's message. */
  lemma ServerMessageKept(status: int, props: map<string, JsValue>, m: string)
    requires status !in {StatusUnauthorized, StatusForbidden, StatusNotFound, StatusInternalServerError}
    requires "message" in props && props["message"] == Str(m) && m != ""
    ensures MapAxiosError(Some(Response(status, Obj(props)))).message == m
  {
  }
}

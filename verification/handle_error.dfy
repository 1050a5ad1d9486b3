/**
 * The translation of an error into an HTTP status and a `{code, message}` JSON body, as every
 * handler does once the service has failed.
 */
module HttpError {
  import opened Wrappers
  import opened AppErr

  datatype ErrorBody = ErrorBody(code: string, message: string)

  /** A status line and its JSON error body. */
  datatype Reply = Reply(status: int, body: ErrorBody)

  /** The only body a 500 ever carries: nothing of the original error is exposed. */
  const InternalBody := ErrorBody("INTERNAL_ERROR", "internal error")

  /** The status each kind answers with when it decides the response. */
  function StatusOf(k: Kind): int {
    match k
    case InvalidArgument => 400
    case NotFound => 404
    case AlreadyExists => 409
    case NotAuthorized => 401
    case Internal => 500
  }

  /** The body for a domain error that decides the response: its own code and message. */
  function BodyOf(x: Error): ErrorBody
    requires x.AppError?
  {
    ErrorBody(Code(x.kind), x.msg)
  }

  /** The response for the first error of kind `k` found along the chain. */
  function Answer(x: Error, k: Kind): Reply
    requires IsKind(x, k)
  {
    Reply(StatusOf(k), BodyOf(x))
  }

  /**
   * `handleError`. The four kinds InvalidArgument, NotFound, AlreadyExists and NotAuthorized are
   * looked for in that order along the whole unwrap chain; the first kind present anywhere
   * decides the status, and the body is the code and message of the first error of that kind.
   * Everything else, Internal included, is a 500 with a fixed body.
   */
  function HandleError(e: Error): (r: Reply)
    ensures r.status in {400, 404, 409, 401, 500}
    ensures r.status == 400 <==> HasKind(e, InvalidArgument)
    ensures r.status == 404 <==> !HasKind(e, InvalidArgument) && HasKind(e, NotFound)
    ensures r.status == 409 <==>
      !HasKind(e, InvalidArgument) && !HasKind(e, NotFound) && HasKind(e, AlreadyExists)
    ensures r.status == 401 <==>
      !HasKind(e, InvalidArgument) && !HasKind(e, NotFound) && !HasKind(e, AlreadyExists)
      && HasKind(e, NotAuthorized)
    ensures r.status == 500 ==> r.body == InternalBody
    ensures r.status != 500 ==>
      exists k: Kind, x: Error | IsKind(x, k) && StatusOf(k) == r.status ::
        FirstAt(Chain(e), x, k) && r.body == ErrorBody(Code(k), x.msg)
  {
    match FindKind(e, InvalidArgument)
    case Some(inv) => Answer(inv, InvalidArgument)
    case None =>
      match FindKind(e, NotFound)
      case Some(nf) => Answer(nf, NotFound)
      case None =>
        match FindKind(e, AlreadyExists)
        case Some(ae) => Answer(ae, AlreadyExists)
        case None =>
          match FindKind(e, NotAuthorized)
          case Some(na) => Answer(na, NotAuthorized)
          case None => Reply(500, InternalBody)
  }

  /**
   * A domain error whose cause is a storage error (no domain error below it) is answered by its
   * own kind: 400, 404, 409 or 401 with its own code and message, and a 500 with the fixed body
   * for Internal.
   */
  lemma {:induction false} HandleStorageWrapped(k: Kind, msg: string, cause: Option<Error>)
    requires cause.Some? ==> IsForeign(cause.value)
    ensures HandleError(AppError(k, msg, cause)) ==
      if k == Internal then Reply(500, InternalBody) else Reply(StatusOf(k), ErrorBody(Code(k), msg))
  {
    var e := AppError(k, msg, cause);
    var chain := Chain(e);
    assert IsKind(chain[0], k);
    forall i | 1 <= i < |chain| ensures !chain[i].AppError? {
      assert chain == [e] + Chain(cause.value);
      assert chain[i] == Chain(cause.value)[i - 1];
    }
    forall j: Kind, i | j != k && 0 <= i < |chain| ensures !IsKind(chain[i], j) {
    }
    if k != Internal {
      assert FindKind(e, k) == Some(e) by { assert HasKind(e, k); }
    }
  }
}

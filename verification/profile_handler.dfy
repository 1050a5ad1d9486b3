/**
 * The HTTP handlers for device profiles: each runs its request checks in a fixed order, answers
 * the first failure itself with a 400, and otherwise calls the service and turns its result into
 * a response. A missing identity does not stop a handler: `userContext` writes a 401 but returns
 * no error, so create and update go on to a 400 and list and delete reach a service that panics. Binding and validating the request body belong to the
 * web framework and the validator; here they are inputs: the bound body, or None when the body
 * does not bind, and the validator's error text, or None when the request passes its tags.
 */
module HttpProfile {
  import opened Wrappers
  import opened Uuids
  import opened Entity
  import opened AppErr
  import opened HttpError
  import opened HttpMapper
  import Strconv
  import ProfileRepo
  import ProfileUsecase
  import AuthMiddleware

  /** A response body: an error object, one profile, a list of profiles, or nothing. */
  datatype Body =
    | ErrorJson(error: ErrorBody)
    | ProfileJson(profile: ProfileResponse)
    | ProfileListJson(profiles: seq<ProfileResponse>)
    | NoBody

  /**
   * What a handler leaves the client with: a status and a body, or a Go panic (the server installs
   * no recover middleware, so no response of the handler's making is sent).
   */
  datatype Response = Response(status: int, body: Body) | Panic

  /** `badRequest`: 400 with code INVALID_ARGUMENT and the given message. */
  function BadRequest(msg: string): Response {
    Response(400, ErrorJson(ErrorBody("INVALID_ARGUMENT", msg)))
  }

  /** The answer `userContext` writes when the request carries no usable identity. */
  const Unauthorized := Response(401, ErrorJson(ErrorBody("NOT_AUTHORIZED", "unauthorized")))

  /** `handleError` written to the response. */
  function ErrorResponse(e: Error): Response {
    var r := HandleError(e);
    Response(r.status, ErrorJson(r.body))
  }

  /** `c.Query(key, dflt)`: an absent or empty query parameter gives the default. */
  function QueryOr(q: Option<string>, dflt: string): string {
    if q.None? || q.value == "" then dflt else q.value
  }

  /**
   * `parsePagination`: both values must read as integers of at least 1, the page first. They
   * come back as read, with no upper bound.
   */
  function ParsePagination(pageStr: string, sizeStr: string): (r: Result<(int, int), string>)
    ensures r.Ok? <==>
      && Strconv.Atoi(pageStr).Some? && Strconv.Atoi(pageStr).value >= 1
      && Strconv.Atoi(sizeStr).Some? && Strconv.Atoi(sizeStr).value >= 1
    ensures r.Ok? ==> r.value == (Strconv.Atoi(pageStr).value, Strconv.Atoi(sizeStr).value)
    ensures r.Err? ==> r.error in {"invalid page parameter", "invalid page_size parameter"}
    ensures r.Err? ==> (r.error == "invalid page parameter" <==> Strconv.Atoi(pageStr).None? || Strconv.Atoi(pageStr).value < 1)
  {
    var page := Strconv.Atoi(pageStr);
    if page.None? || page.value < 1 then Err("invalid page parameter")
    else
      var size := Strconv.Atoi(sizeStr);
      if size.None? || size.value < 1 then Err("invalid page_size parameter")
      else Ok((page.value, size.value))
  }

  /** Every pair of positive 64-bit integers written in decimal is accepted as it is, however large the page size. */
  lemma {:induction false} PaginationRoundTrip(page: int, size: int)
    requires 1 <= page <= Strconv.MaxInt64 && 1 <= size <= Strconv.MaxInt64
    ensures ParsePagination(Strconv.Itoa(page), Strconv.Itoa(size)) == Ok((page, size))
  {
    Strconv.AtoiOfItoa(page);
    Strconv.AtoiOfItoa(size);
  }

  /** Absent or empty paging parameters mean page 1 of size 20. */
  lemma {:induction false} PaginationDefaults(page: Option<string>, pageSize: Option<string>)
    requires page in {None, Some("")} && pageSize in {None, Some("")}
    ensures ParsePagination(QueryOr(page, "1"), QueryOr(pageSize, "20")) == Ok((1, 20))
  {
    assert QueryOr(page, "1") == Strconv.Itoa(1);
    assert QueryOr(pageSize, "20") == Strconv.Itoa(20) by {
      assert Strconv.Digits(20) == Strconv.Digits(2) + ['0'];
    }
    PaginationRoundTrip(1, 20);
  }

  /** The request carries a usable identity: a non-empty string under `auth_user_id`. */
  predicate HasIdentity(locals: map<string, AuthMiddleware.Local>) {
    && AuthMiddleware.AuthUserIdKey in locals
    && locals[AuthMiddleware.AuthUserIdKey].LString?
    && locals[AuthMiddleware.AuthUserIdKey].s != ""
  }

  /**
   * `userContext` as written: the identity the authentication middleware stored, carried in a
   * new context; `None` is the nil context, with an empty identity. Without a usable identity it
   * writes the 401 answer, but the error it returns is that of `c.JSON`, which is nil once the
   * body is written, so its callers go on.
   */
  function UserContext(locals: map<string, AuthMiddleware.Local>): (r: Option<string>)
    ensures r.Some? <==> HasIdentity(locals)
    ensures r.Some? ==> r.value == locals[AuthMiddleware.AuthUserIdKey].s
  {
    var key := AuthMiddleware.AuthUserIdKey;
    if key in locals && locals[key].LString? && locals[key].s != "" then Some(locals[key].s)
    else None
  }

  /** The identity text `userContext` hands its caller: empty for the nil context. */
  function IdentityText(ctx: Option<string>): string {
    if ctx.Some? then ctx.value else ""
  }

  /**
   * `userContext` as evidently intended: the 401 answer is returned as the handler's result, so
   * a request without a usable identity ends there.
   */
  function UserContextIntended(locals: map<string, AuthMiddleware.Local>): (r: Result<string, Response>)
    ensures r.Ok? <==> HasIdentity(locals)
    ensures r.Ok? ==> r.value == locals[AuthMiddleware.AuthUserIdKey].s
    ensures r.Err? ==> r.error == Unauthorized
  {
    match UserContext(locals)
    case Some(uid) => Ok(uid)
    case None => Err(Unauthorized)
  }

  /**
   * The code as written and as intended agree on every request that carries an identity, which
   * is every request that passed the authentication middleware; they differ on the others.
   */
  lemma {:induction false} UserContextAsIntendedWithIdentity(locals: map<string, AuthMiddleware.Local>)
    ensures HasIdentity(locals) ==> UserContextIntended(locals) == Ok(UserContext(locals).value)
    ensures !HasIdentity(locals) ==> UserContext(locals) == None && UserContextIntended(locals) == Err(Unauthorized)
  {
  }

  /** What the middleware stores on success is exactly what the handlers read back. */
  lemma UserContextAfterMiddleware(locals: map<string, AuthMiddleware.Local>, id: string)
    requires id != ""
    ensures UserContext(locals[AuthMiddleware.AuthUserIdKey := AuthMiddleware.LString(id)]) == Some(id)
    ensures UserContextIntended(locals[AuthMiddleware.AuthUserIdKey := AuthMiddleware.LString(id)]) == Ok(id)
  {
  }

  // ---------------------------------------------------------------- checks before the service

  /**
   * The list handler's checks: pagination, then identity. Without an identity the service is
   * called with the nil context and panics on `ctx.Value` before any repository call. `Ok` holds
   * the caller, page and size.
   */
  function ListChecks(page: Option<string>, pageSize: Option<string>, locals: map<string, AuthMiddleware.Local>)
    : Result<(string, int, int), Response>
  {
    match ParsePagination(QueryOr(page, "1"), QueryOr(pageSize, "20"))
    case Err(msg) => Err(BadRequest(msg))
    case Ok((p, n)) =>
      match UserContext(locals)
      case None => Err(Panic)
      case Some(uid) => Ok((uid, p, n))
  }

  /**
   * The create handler's checks: the body binds, passes validation, the identity text is a UUID
   * (the empty text of a missing identity is not), and the request maps to an entity. `Ok` holds
   * the caller and the entity.
   */
  function CreateChecks(body: Option<CreateRequest>, violation: Option<string>, locals: map<string, AuthMiddleware.Local>)
    : Result<(string, DeviceProfile), Response>
  {
    if body.None? then Err(BadRequest("invalid request body"))
    else if violation.Some? then Err(BadRequest("validation failed: " + violation.value))
    else
      var uid := IdentityText(UserContext(locals));
      match Parse(uid)
      case None => Err(BadRequest("invalid user id in context"))
      case Some(owner) =>
        match MapCreate(body.value, owner)
        case Err(e) => Err(BadRequest(ErrorText(e)))
        case Ok(dp) => Ok((uid, dp))
  }

  /**
   * The update handler's checks: the path id is a UUID, the body binds, sets some field, passes
   * validation, and the identity text is a UUID. `Ok` holds the caller and the entity.
   */
  function UpdateChecks(idParam: string, body: Option<UpdateRequest>, violation: Option<string>,
                        locals: map<string, AuthMiddleware.Local>)
    : Result<(string, DeviceProfile), Response>
  {
    match Parse(idParam)
    case None => Err(BadRequest("invalid device profile id"))
    case Some(id) =>
      if body.None? then Err(BadRequest("invalid request body"))
      else if IsEmptyUpdateRequest(body.value) then Err(BadRequest("no fields supplied for update"))
      else if violation.Some? then Err(BadRequest("validation failed: " + violation.value))
      else
        var uid := IdentityText(UserContext(locals));
        match Parse(uid)
        case None => Err(BadRequest("invalid user id in context"))
        case Some(owner) => Ok((uid, MapUpdate(body.value, id, owner)))
  }

  /**
   * The delete handler's checks: the path id is a UUID, then identity. Without an identity the
   * service is called with the nil context and panics on `ctx.Value` before it validates the id.
   * `Ok` holds the caller.
   */
  function DeleteChecks(idParam: string, locals: map<string, AuthMiddleware.Local>): Result<string, Response> {
    if Parse(idParam).None? then Err(BadRequest("invalid device profile id"))
    else
      match UserContext(locals)
      case None => Err(Panic)
      case Some(uid) => Ok(uid)
  }

  /**
   * The update checks come in a fixed order: a bad path id is reported before anything about
   * the body, and a body problem (unbindable, empty, invalid) before the identity. A missing
   * identity is not a 401: its empty text fails to parse, so it is 400 "invalid user id in
   * context". Every failure is a 400 INVALID_ARGUMENT.
   */
  lemma {:induction false} UpdateCheckOrder(idParam: string, body: Option<UpdateRequest>, violation: Option<string>,
                                            locals: map<string, AuthMiddleware.Local>)
    ensures Parse(idParam).None? ==> UpdateChecks(idParam, body, violation, locals) == Err(BadRequest("invalid device profile id"))
    ensures Parse(idParam).Some? && body.Some? && IsEmptyUpdateRequest(body.value) ==>
      UpdateChecks(idParam, body, violation, locals) == Err(BadRequest("no fields supplied for update"))
    ensures Parse(idParam).Some? && body.Some? && !IsEmptyUpdateRequest(body.value) && violation.None? && !HasIdentity(locals) ==>
      UpdateChecks(idParam, body, violation, locals) == Err(BadRequest("invalid user id in context"))
    ensures UpdateChecks(idParam, body, violation, locals).Err? ==>
      var e := UpdateChecks(idParam, body, violation, locals).error;
      e.Response? && e.status == 400 && e.body.ErrorJson? && e.body.error.code == "INVALID_ARGUMENT"
    ensures UpdateChecks(idParam, body, violation, locals).Ok? ==>
      var (uid, dp) := UpdateChecks(idParam, body, violation, locals).value;
      && Some(dp.id) == Parse(idParam) && Parse(uid) == Some(dp.userId) && UserContext(locals) == Some(uid)
  {
    assert Parse("").None?;
  }

  /**
   * Without an identity, and with a request that passes every earlier check, create and update
   * answer 400 "invalid user id in context" while list and delete panic; none of them reaches
   * the store. The intended answer for all four is the 401 of `UserContextIntended`.
   */
  lemma {:induction false} NoIdentityAnswers(page: Option<string>, pageSize: Option<string>, idParam: string,
                                             create: Option<CreateRequest>, update: Option<UpdateRequest>,
                                             violation: Option<string>, locals: map<string, AuthMiddleware.Local>)
    requires !HasIdentity(locals)
    ensures ParsePagination(QueryOr(page, "1"), QueryOr(pageSize, "20")).Ok? ==>
      ListChecks(page, pageSize, locals) == Err(Panic)
    ensures create.Some? && violation.None? ==>
      CreateChecks(create, violation, locals) == Err(BadRequest("invalid user id in context"))
    ensures Parse(idParam).Some? && update.Some? && !IsEmptyUpdateRequest(update.value) && violation.None? ==>
      UpdateChecks(idParam, update, violation, locals) == Err(BadRequest("invalid user id in context"))
    ensures Parse(idParam).Some? ==> DeleteChecks(idParam, locals) == Err(Panic)
    ensures UserContextIntended(locals) == Err(Unauthorized)
  {
    assert Parse("").None?;
  }

  // ---------------------------------------------------------------- answers after the service

  function ListReply(r: Result<seq<DeviceProfile>, Error>): Response {
    match r
    case Err(e) => ErrorResponse(e)
    case Ok(items) => Response(200, ProfileListJson(seq(|items|, i requires 0 <= i < |items| => ToResponse(items[i]))))
  }

  function CreateReply(r: Result<DeviceProfile, Error>): Response {
    match r
    case Err(e) => ErrorResponse(e)
    case Ok(dp) => Response(201, ProfileJson(ToResponse(dp)))
  }

  function UpdateReply(r: Result<DeviceProfile, Error>): Response {
    match r
    case Err(e) => ErrorResponse(e)
    case Ok(dp) => Response(200, ProfileJson(ToResponse(dp)))
  }

  function DeleteReply(err: Option<Error>): Response {
    match err
    case Some(e) => ErrorResponse(e)
    case None => Response(204, NoBody)
  }

  /**
   * A storage failure classified by the service reaches the client as: 404 for
   * record-not-found, 409 for a unique violation, 400 for a foreign-key or check violation, each
   * with the action as message, and 500 with the fixed body for anything else.
   */
  lemma {:induction false} StorageErrorResponse(action: string, e: Error)
    requires IsForeign(e)
    ensures var r := ErrorResponse(ProfileUsecase.MapRepoErr(action, e));
      var notFound := RecordNotFound in Chain(e);
      && (notFound ==> r == Response(404, ErrorJson(ErrorBody("NOT_FOUND", action))))
      && (!notFound && PgCode(e) == Some("23505") ==> r == Response(409, ErrorJson(ErrorBody("ALREADY_EXISTS", action))))
      && (!notFound && PgCode(e) in {Some("23503"), Some("23514")} ==> r == Response(400, ErrorJson(ErrorBody("INVALID_ARGUMENT", action))))
      && (!notFound && (!HasPgError(e) || PgCode(e).value !in {"23505", "23503", "23514"}) ==> r == Response(500, ErrorJson(InternalBody)))
  {
    var m := ProfileUsecase.MapRepoErr(action, e);
    HandleStorageWrapped(m.kind, action, Some(e));
  }

  /**
   * Creating, without a template, a valid profile whose owner already has one of that name is
   * answered 409 ALREADY_EXISTS with the action as message, and stores nothing.
   */
  lemma {:induction false} CreateDuplicateNameIs409(svc: ProfileUsecase.ProfileService, rows: seq<DeviceProfile>, userId: string,
                                                    dp: DeviceProfile, freshId: Uuid, now: Timestamp, i: nat)
    requires freshId != Nil && i < |rows|
    requires ValidProfile(dp) && dp.templateId.None?
    requires rows[i].userId == dp.userId && rows[i].name == dp.name
    ensures CreateReply(svc.CreateOutcome(rows, userId, dp, freshId, now).0)
      == Response(409, ErrorJson(ErrorBody("ALREADY_EXISTS", "create device profile")))
    ensures svc.CreateOutcome(rows, userId, dp, freshId, now).1 == rows
  {
    ProfileRepo.CreateDuplicateNameFails(rows, dp, freshId, now, i);
    svc.CreateDuplicateIsAlreadyExists(rows, userId, dp, freshId, now, i);
    assert Chain(ProfileRepo.UniqueViolation) == [ProfileRepo.UniqueViolation];
    StorageErrorResponse("create device profile", ProfileRepo.UniqueViolation);
  }

  /**
   * A create from a template is answered 201 with the request's own entity, not the stored row:
   * the body carries the nil id, zero timestamps, the request's fields and the template link,
   * while the stored row has the generated id, the template's fields and no link.
   */
  lemma {:induction false} CreateFromTemplateAnswersWithRequest(svc: ProfileUsecase.ProfileService, rows: seq<DeviceProfile>,
                                                                req: CreateRequest, owner: Uuid, userId: string,
                                                                freshId: Uuid, now: Timestamp)
    requires ProfileRepo.Constraints(rows) && ProfileRepo.IdsSet(rows)
    requires freshId != Nil && ProfileRepo.IdFree(rows, freshId)
    requires MapCreate(req, owner).Ok? && MapCreate(req, owner).value.templateId.Some?
    requires svc.CreateOutcome(rows, userId, MapCreate(req, owner).value, freshId, now).0.Ok?
    ensures var dp := MapCreate(req, owner).value;
      var after := svc.CreateOutcome(rows, userId, dp, freshId, now).1;
      && CreateReply(svc.CreateOutcome(rows, userId, dp, freshId, now).0) == Response(201, ProfileJson(ToResponse(dp)))
      && ToResponse(dp).id == Nil && ToResponse(dp).createdAt == 0 && ToResponse(dp).name == req.name
      && |after| == |rows| + 1
      && after[|rows|].id == freshId && after[|rows|].templateId.None?
  {
    var dp := MapCreate(req, owner).value;
    svc.CreateOutcomeStores(rows, userId, dp, freshId, now);
    svc.PrepareOutcomes(userId, dp, now);
    var p := svc.Prepare(userId, dp, now).value;
    assert p.id == Nil;
    assert ProfileRepo.Inserted(p, freshId, now).id == freshId;
  }

  /**
   * A full update names every column, so an update request that sets only the name stores a
   * row that keeps the id and the caller as owner, has that name, and has every other field
   * reset: no template link, empty device type, no dimensions, user agent, country code or
   * headers, and a zero creation time.
   */
  lemma {:induction false} UpdateWipesOmittedFields(rows: seq<DeviceProfile>, userId: string, name: string,
                                                    id: Uuid, owner: Uuid, freshId: Uuid, now: Timestamp, i: nat)
    requires ProfileRepo.Constraints(rows) && freshId != Nil
    requires i < |rows| && rows[i].id == id
    requires ProfileUsecase.UpdateOutcome(rows, userId,
               MapUpdate(UpdateRequest(None, Some(name), None, None, None, None, None, None), id, owner), freshId, now).0.Ok?
    ensures var after := ProfileUsecase.UpdateOutcome(rows, userId,
               MapUpdate(UpdateRequest(None, Some(name), None, None, None, None, None, None), id, owner), freshId, now).1;
      after[i] == Blank(id, owner).(name := name, updatedAt := now)
  {
    var req := UpdateRequest(None, Some(name), None, None, None, None, None, None);
    var dp := MapUpdate(req, id, owner);
    assert dp == Blank(id, owner).(name := name);
    ProfileUsecase.UpdateTakesOverStoredRow(rows, userId, dp, freshId, now, i);
  }

  /**
   * The update handler names the caller as the owner of the entity it hands to the service, so
   * the service's ownership gate compares the caller with the caller: a successful update of a
   * row that belongs to someone else answers 200 and gives the row to the caller.
   */
  lemma {:induction false} UpdateIgnoresStoredOwner(rows: seq<DeviceProfile>, idParam: string, body: Option<UpdateRequest>,
                                                    violation: Option<string>, locals: map<string, AuthMiddleware.Local>,
                                                    freshId: Uuid, now: Timestamp, i: nat)
    requires ProfileRepo.Constraints(rows) && freshId != Nil
    requires UpdateChecks(idParam, body, violation, locals).Ok?
    requires i < |rows| && Parse(idParam) == Some(rows[i].id)
    requires var (uid, dp) := UpdateChecks(idParam, body, violation, locals).value;
      ProfileUsecase.UpdateOutcome(rows, uid, dp, freshId, now).0.Ok?
    ensures var (uid, dp) := UpdateChecks(idParam, body, violation, locals).value;
      var (r, after) := ProfileUsecase.UpdateOutcome(rows, uid, dp, freshId, now);
      && Parse(uid) == Some(after[i].userId)
      && after[i].id == rows[i].id
      && UpdateReply(r).status == 200
  {
    var (uid, dp) := UpdateChecks(idParam, body, violation, locals).value;
    UpdateCheckOrder(idParam, body, violation, locals);
    ProfileUsecase.UpdateTakesOverStoredRow(rows, uid, dp, freshId, now, i);
  }

  /**
   * Once the path id is a UUID and the identity is there, a delete is answered 204 whenever the
   * id is a version-4 UUID in canonical text, whether or not a row has it, and 400 "invalid id"
   * otherwise. It is never a 404.
   */
  lemma {:induction false} DeleteAnswers(rows: seq<DeviceProfile>, idParam: string)
    requires Parse(idParam).Some?
    ensures IsUuid4Text(idParam) ==> DeleteReply(ProfileUsecase.DeleteOutcome(rows, idParam).0) == Response(204, NoBody)
    ensures !IsUuid4Text(idParam) ==>
      DeleteReply(ProfileUsecase.DeleteOutcome(rows, idParam).0) == BadRequest("invalid id")
    ensures DeleteReply(ProfileUsecase.DeleteOutcome(rows, idParam).0).status != 404
  {
    ProfileUsecase.DeleteOutcomeNeverNotFound(rows, idParam);
    if !IsUuid4Text(idParam) {
      assert Chain(ProfileUsecase.ValidationError) == [ProfileUsecase.ValidationError];
      HandleStorageWrapped(InvalidArgument, "invalid id", Some(ProfileUsecase.ValidationError));
    }
  }

  // ---------------------------------------------------------------- the handlers

  class ProfileHandler {
    const svc: ProfileUsecase.ProfileService

    predicate Valid()
      reads this, svc, svc.store
    {
      svc.Valid()
    }

    constructor(svc: ProfileUsecase.ProfileService)
      requires svc.Valid()
      ensures this.svc == svc && Valid()
    {
      this.svc := svc;
    }

    /** `ListDeviceProfilesByUserID`: the checks, then the service with the caller, page and size as read. */
    method ListDeviceProfilesByUserId(page: Option<string>, pageSize: Option<string>, locals: map<string, AuthMiddleware.Local>)
      returns (resp: Response)
      modifies svc
      ensures ListChecks(page, pageSize, locals).Err? ==>
        resp == ListChecks(page, pageSize, locals).error && svc.calls == old(svc.calls)
      ensures ListChecks(page, pageSize, locals).Ok? ==>
        var (uid, p, n) := ListChecks(page, pageSize, locals).value;
        && svc.calls == old(svc.calls) + [ProfileUsecase.RepoList(uid, p, n)]
        && resp == ListReply(ProfileUsecase.ListOutcome(svc.store.rows, uid, p, n))
    {
      var parsed := ParsePagination(QueryOr(page, "1"), QueryOr(pageSize, "20"));
      if parsed.Err? {
        return BadRequest(parsed.error);
      }
      var caller := UserContext(locals);
      if caller.None? {
        // the service reads the caller from the nil context and panics
        return Panic;
      }
      var items := svc.ListDeviceProfilesByUserId(caller.value, parsed.value.0, parsed.value.1);
      resp := ListReply(items);
    }

    /** `CreateDeviceProfile`: the checks, then the service; 201 with the entity the service hands back. */
    method CreateDeviceProfile(body: Option<CreateRequest>, violation: Option<string>, locals: map<string, AuthMiddleware.Local>,
                               freshId: Uuid, now: Timestamp)
      returns (resp: Response)
      requires Valid()
      requires freshId != Nil && ProfileRepo.IdFree(svc.store.rows, freshId)
      modifies svc, svc.store
      ensures Valid()
      ensures CreateChecks(body, violation, locals).Err? ==>
        && resp == CreateChecks(body, violation, locals).error
        && svc.calls == old(svc.calls) && svc.store.rows == old(svc.store.rows)
      ensures CreateChecks(body, violation, locals).Ok? ==>
        var (uid, dp) := CreateChecks(body, violation, locals).value;
        var (r, after) := svc.CreateOutcome(old(svc.store.rows), uid, dp, freshId, now);
        && svc.calls == old(svc.calls) + svc.CreateCalls(uid, dp, now)
        && svc.store.rows == after
        && resp == CreateReply(r)
    {
      if body.None? {
        return BadRequest("invalid request body");
      }
      if violation.Some? {
        return BadRequest("validation failed: " + violation.value);
      }
      var uid := IdentityText(UserContext(locals));
      var owner := Parse(uid);
      if owner.None? {
        return BadRequest("invalid user id in context");
      }
      var mapped := MapCreate(body.value, owner.value);
      if mapped.Err? {
        return BadRequest(ErrorText(mapped.error));
      }
      var r := svc.CreateDeviceProfile(uid, mapped.value, freshId, now);
      resp := CreateReply(r);
    }

    /** `UpdateDeviceProfile`: the checks, then the service; 200 with the profile it returns. */
    method UpdateDeviceProfile(idParam: string, body: Option<UpdateRequest>, violation: Option<string>,
                               locals: map<string, AuthMiddleware.Local>, freshId: Uuid, now: Timestamp)
      returns (resp: Response)
      requires Valid()
      requires freshId != Nil && ProfileRepo.IdFree(svc.store.rows, freshId)
      modifies svc, svc.store
      ensures Valid()
      ensures UpdateChecks(idParam, body, violation, locals).Err? ==>
        && resp == UpdateChecks(idParam, body, violation, locals).error
        && svc.calls == old(svc.calls) && svc.store.rows == old(svc.store.rows)
      ensures UpdateChecks(idParam, body, violation, locals).Ok? ==>
        var (uid, dp) := UpdateChecks(idParam, body, violation, locals).value;
        var (r, after) := ProfileUsecase.UpdateOutcome(old(svc.store.rows), uid, dp, freshId, now);
        && svc.calls == old(svc.calls) + (if ProfileUsecase.UpdateGate(uid, dp).None? then [ProfileUsecase.RepoUpdate(dp)] else [])
        && svc.store.rows == after
        && resp == UpdateReply(r)
    {
      var id := Parse(idParam);
      if id.None? {
        return BadRequest("invalid device profile id");
      }
      if body.None? {
        return BadRequest("invalid request body");
      }
      if IsEmptyUpdateRequest(body.value) {
        return BadRequest("no fields supplied for update");
      }
      if violation.Some? {
        return BadRequest("validation failed: " + violation.value);
      }
      var uid := IdentityText(UserContext(locals));
      var owner := Parse(uid);
      if owner.None? {
        return BadRequest("invalid user id in context");
      }
      var dp := MapUpdate(body.value, id.value, owner.value);
      var r := svc.UpdateDeviceProfile(uid, dp, freshId, now);
      resp := UpdateReply(r);
    }

    /** `DeleteDeviceProfile`: the checks, then the service with the path id as text; 204 on success. */
    method DeleteDeviceProfile(idParam: string, locals: map<string, AuthMiddleware.Local>) returns (resp: Response)
      requires Valid()
      modifies svc, svc.store
      ensures Valid()
      ensures DeleteChecks(idParam, locals).Err? ==>
        && resp == DeleteChecks(idParam, locals).error
        && svc.calls == old(svc.calls) && svc.store.rows == old(svc.store.rows)
      ensures DeleteChecks(idParam, locals).Ok? ==>
        var uid := DeleteChecks(idParam, locals).value;
        var (err, after) := ProfileUsecase.DeleteOutcome(old(svc.store.rows), idParam);
        && svc.calls == old(svc.calls) + (if IsUuid4Text(idParam) then [ProfileUsecase.RepoDelete(uid, idParam)] else [])
        && svc.store.rows == after
        && resp == DeleteReply(err)
    {
      if Parse(idParam).None? {
        return BadRequest("invalid device profile id");
      }
      var caller := UserContext(locals);
      if caller.None? {
        // the service reads the caller from the nil context and panics
        return Panic;
      }
      var err := svc.DeleteDeviceProfile(caller.value, idParam);
      resp := DeleteReply(err);
    }
  }
}

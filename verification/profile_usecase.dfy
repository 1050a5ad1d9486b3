/**
 * The device-profile service: create (optionally materialised from a template), list, update
 * behind an ownership gate, and delete, over the profile store; storage failures are sorted into
 * the five domain kinds. The caller's identity, which the source reads from the request context,
 * is an explicit `userId` argument.
 */
module ProfileUsecase {
  import opened Wrappers
  import opened Uuids
  import opened Entity
  import opened AppErr
  import ProfileRepo

  /** SQLSTATEs of class 23 (integrity constraint violation) that the classifier knows. */
  const UniqueViolationCode := "23505"
  const ForeignKeyViolationCode := "23503"
  const CheckViolationCode := "23514"

  /** The error the validator returns for a struct or field that breaks its tags. */
  const ValidationError: Error := Plain("validation failed")

  /**
   * `mapRepoErr`: wraps a storage error as the cause of a domain error whose message is the
   * action. Record-not-found anywhere in the chain is NotFound; otherwise the first PostgreSQL
   * error decides: 23505 is AlreadyExists, 23503 and 23514 are InvalidArgument, any other code is
   * Internal; an error with no PostgreSQL error in its chain is Internal.
   */
  function MapRepoErr(action: string, err: Error): (r: Error)
    ensures r.AppError? && r.msg == action && r.cause == Some(err)
    ensures r.kind == NotFound <==> RecordNotFound in Chain(err)
    ensures r.kind == AlreadyExists <==> !(RecordNotFound in Chain(err)) && PgCode(err) == Some(UniqueViolationCode)
    ensures r.kind == InvalidArgument <==>
      !(RecordNotFound in Chain(err)) && PgCode(err) in {Some(ForeignKeyViolationCode), Some(CheckViolationCode)}
    ensures r.kind == Internal <==>
      !(RecordNotFound in Chain(err))
      && (!HasPgError(err) || PgCode(err).value !in {UniqueViolationCode, ForeignKeyViolationCode, CheckViolationCode})
    ensures r.kind != NotAuthorized
  {
    if IsRecordNotFound(err) then AppError(NotFound, action, Some(err))
    else
      match PgCode(err)
      case Some(code) =>
        if code == UniqueViolationCode then AppError(AlreadyExists, action, Some(err))
        else if code == ForeignKeyViolationCode || code == CheckViolationCode then AppError(InvalidArgument, action, Some(err))
        else AppError(Internal, action, Some(err))
      case None => AppError(Internal, action, Some(err))
  }

  /** The text of a classified error is the kind's tag, the action, and the storage error's own text. */
  lemma MapRepoErrText(action: string, err: Error)
    ensures ErrorText(MapRepoErr(action, err)) == Tag(MapRepoErr(action, err).kind) + action + ": " + ErrorText(err)
  {
  }

  /**
   * `createDeviceProfileByTemplate`: a fresh profile carrying the template's name, device type,
   * dimensions, user agent, country code and default headers, no template link, no owner yet,
   * and creation time now.
   */
  function FromTemplate(t: DeviceTemplate, now: Timestamp): DeviceProfile {
    DeviceProfile(
      id := Nil, userId := Nil, templateId := None,
      name := t.name, deviceType := t.deviceType, width := t.width, height := t.height,
      userAgent := Some(t.userAgent), countryCode := t.countryCode,
      customHeaders := t.defaultHeaders, createdAt := now, updatedAt := 0)
  }

  /** A valid template given an owner yields a valid profile: the template's user agent is never empty. */
  lemma {:induction false} MaterialisedProfileIsValid(t: DeviceTemplate, now: Timestamp, uid: Uuid)
    requires ValidTemplate(t) && uid != Nil
    ensures ValidProfile(FromTemplate(t, now).(userId := uid))
    ensures FromTemplate(t, now).userAgent == Some(t.userAgent) && |t.userAgent| >= 1
  {
    var p := FromTemplate(t, now).(userId := uid);
    assert IsOptionalText(p.userAgent);
  }

  /**
   * The update gate, in the order the service checks: the caller must be the profile's owner
   * (compared on the owner's text), then the id and the owner must each pass `uuid4`.
   * `None` means the gate lets the update through to the store.
   */
  function UpdateGate(userId: string, dp: DeviceProfile): Option<Error> {
    var owner := ToString(dp.userId);
    if owner == "" || userId != owner then Some(AppError(NotAuthorized, "NotAuthorizedErr", None))
    else if !IsUuid4(dp.id) then Some(AppError(InvalidArgument, "invalid id", Some(ValidationError)))
    else if !IsUuid4(dp.userId) then Some(AppError(InvalidArgument, "invalid user id", Some(ValidationError)))
    else None
  }

  /**
   * An update passes the gate only for the owner, with well-formed version-4 ids. A caller whose
   * text is not the owner's canonical lower-case text is refused as NotAuthorized whatever the
   * ids are, even when it parses to the owner. The owner is then told "invalid id" before
   * "invalid user id".
   */
  lemma {:induction false} UpdateGateOwnership(userId: string, dp: DeviceProfile)
    ensures UpdateGate(userId, dp).None? <==> Parse(userId) == Some(dp.userId) && IsUuid4Text(userId) && IsUuid4(dp.id)
    ensures Parse(userId) != Some(dp.userId) ==> UpdateGate(userId, dp) == Some(AppError(NotAuthorized, "NotAuthorizedErr", None))
    ensures userId != ToString(dp.userId) <==> UpdateGate(userId, dp) == Some(AppError(NotAuthorized, "NotAuthorizedErr", None))
    ensures userId == ToString(dp.userId) && !IsUuid4(dp.id) ==>
      UpdateGate(userId, dp) == Some(AppError(InvalidArgument, "invalid id", Some(ValidationError)))
    ensures userId == ToString(dp.userId) && IsUuid4(dp.id) && !IsUuid4(dp.userId) ==>
      UpdateGate(userId, dp) == Some(AppError(InvalidArgument, "invalid user id", Some(ValidationError)))
  {
    ParseToString(dp.userId);
    if userId == ToString(dp.userId) {
      Uuid4Digits(dp.userId);
      if IsUuid4(dp.userId) {
        Uuid4TextParses(userId);
      }
    } else if Parse(userId) == Some(dp.userId) {
      ToStringOfParse(userId);
      assert IsUuid4Text(userId) ==> Ascii.LowerString(userId) == userId;
    }
  }

  /** How the service reports the store's outcome of a delete. */
  function DeleteErr(err: Error): Error {
    if IsRecordNotFound(err) then AppError(NotFound, "device profile not found", Some(err))
    else MapRepoErr("delete device profile", err)
  }

  /** Every storage failure of a delete is reported as a domain error wrapping it, never as NotAuthorized. */
  lemma DeleteErrWraps(err: Error)
    ensures DeleteErr(err).AppError? && DeleteErr(err).cause == Some(err)
    ensures DeleteErr(err).kind == NotFound <==> RecordNotFound in Chain(err)
    ensures DeleteErr(err).kind != NotAuthorized
  {
  }

  /** The result of a list on table `rows`: the store's page, or its failure classified. */
  function ListOutcome(rows: seq<DeviceProfile>, userId: string, page: int, pageSize: int): Result<seq<DeviceProfile>, Error> {
    match ProfileRepo.ListResult(rows, userId, page, pageSize)
    case Ok(items) => Ok(items)
    case Err(e) => Err(MapRepoErr("list device profiles", e))
  }

  /**
   * The result of a full update on table `rows`, and the table after it: the gate's refusal,
   * or the store's save with its failure classified.
   */
  function UpdateOutcome(rows: seq<DeviceProfile>, userId: string, dp: DeviceProfile, freshId: Uuid, now: Timestamp)
    : (Result<DeviceProfile, Error>, seq<DeviceProfile>)
    requires freshId != Nil
  {
    match UpdateGate(userId, dp)
    case Some(e) => (Err(e), rows)
    case None =>
      var w := ProfileRepo.Save(rows, dp, freshId, now);
      if w.err.Some? then (Err(MapRepoErr("update device profile", w.err.value)), w.rows)
      else (Ok(w.saved), w.rows)
  }

  /** The result of a delete on table `rows`, and the table after it. */
  function DeleteOutcome(rows: seq<DeviceProfile>, id: string): (Option<Error>, seq<DeviceProfile>) {
    if !IsUuid4Text(id) then (Some(AppError(InvalidArgument, "invalid id", Some(ValidationError))), rows)
    else
      var (e, after) := ProfileRepo.Delete(rows, id);
      (if e.Some? then Some(DeleteErr(e.value)) else None, after)
  }

  /** A call the service makes on one of its two repositories, with the arguments it passes. */
  datatype PortCall =
    | TemplateLookup(templateId: Uuid)
    | RepoCreate(profile: DeviceProfile)
    | RepoList(userId: string, page: int, pageSize: int)
    | RepoUpdate(profile: DeviceProfile)
    | RepoDelete(userId: string, id: string)

  class ProfileService {
    /** The profile repository. */
    const store: ProfileRepo.ProfileStore
    /** `GetDeviceTemplateByID`: a template, or whatever error the template repository reports. */
    const lookupTemplate: Uuid -> Result<DeviceTemplate, Error>
    /** The repository calls made so far, in order. */
    var calls: seq<PortCall>

    predicate Valid()
      reads this, store
    {
      store.Valid()
    }

    constructor(store: ProfileRepo.ProfileStore, lookupTemplate: Uuid -> Result<DeviceTemplate, Error>)
      requires store.Valid()
      ensures this.store == store && this.lookupTemplate == lookupTemplate && calls == []
      ensures Valid()
    {
      this.store := store;
      this.lookupTemplate := lookupTemplate;
      calls := [];
    }

    /**
     * The steps of a create before the store: structural validation, then, with a template id,
     * the template lookup and the parse of the caller's id. `Ok` holds the profile handed to the
     * store.
     */
    function Prepare(userId: string, dp: DeviceProfile, now: Timestamp): Result<DeviceProfile, Error> {
      if !ValidProfile(dp) then Err(AppError(InvalidArgument, "invalid payload", Some(ValidationError)))
      else
        match dp.templateId
        case None => Ok(dp)
        case Some(tid) =>
          match lookupTemplate(tid)
          case Err(e) => Err(AppError(NotFound, "device template not found", Some(e)))
          case Ok(t) =>
            match Parse(userId)
            case None => Err(AppError(InvalidArgument, "invalid user id", Some(ProfileRepo.UuidParseError)))
            case Some(uid) => Ok(FromTemplate(t, now).(userId := uid))
    }

    /** The repository calls a create makes. */
    function CreateCalls(userId: string, dp: DeviceProfile, now: Timestamp): seq<PortCall> {
      (if ValidProfile(dp) && dp.templateId.Some? then [TemplateLookup(dp.templateId.value)] else [])
      + (if Prepare(userId, dp, now).Ok? then [RepoCreate(Prepare(userId, dp, now).value)] else [])
    }

    /**
     * An invalid candidate is InvalidArgument with no repository call. Any template lookup
     * failure is NotFound, whatever the failure was. A found template with a caller id that does
     * not parse is InvalidArgument "invalid user id"; in both cases the store is not called. Without a template the candidate goes to
     * the store as given, owner included. With one, the store gets the template's fields, no
     * template link, and the parsed caller as owner.
     */
    lemma {:induction false} PrepareOutcomes(userId: string, dp: DeviceProfile, now: Timestamp)
      ensures !ValidProfile(dp) ==>
        Prepare(userId, dp, now).Err? && Prepare(userId, dp, now).error.kind == InvalidArgument
        && CreateCalls(userId, dp, now) == []
      ensures ValidProfile(dp) && dp.templateId.Some? && lookupTemplate(dp.templateId.value).Err? ==>
        Prepare(userId, dp, now) == Err(AppError(NotFound, "device template not found", Some(lookupTemplate(dp.templateId.value).error)))
        && CreateCalls(userId, dp, now) == [TemplateLookup(dp.templateId.value)]
      ensures ValidProfile(dp) && dp.templateId.Some? && lookupTemplate(dp.templateId.value).Ok? && Parse(userId).None? ==>
        Prepare(userId, dp, now) == Err(AppError(InvalidArgument, "invalid user id", Some(ProfileRepo.UuidParseError)))
        && CreateCalls(userId, dp, now) == [TemplateLookup(dp.templateId.value)]
      ensures ValidProfile(dp) && dp.templateId.None? ==>
        Prepare(userId, dp, now) == Ok(dp) && CreateCalls(userId, dp, now) == [RepoCreate(dp)]
      ensures Prepare(userId, dp, now).Ok? && dp.templateId.Some? ==>
        var t := lookupTemplate(dp.templateId.value).value;
        var p := Prepare(userId, dp, now).value;
        && lookupTemplate(dp.templateId.value).Ok?
        && Parse(userId) == Some(p.userId)
        && p.templateId.None?
        && p.name == t.name && p.deviceType == t.deviceType
        && p.width == t.width && p.height == t.height
        && p.userAgent == Some(t.userAgent) && p.countryCode == t.countryCode
        && p.customHeaders == t.defaultHeaders
    {
    }

    /**
     * The result of a create on table `rows`, and the table after it. On success the result is
     * the caller's entity as it stands after the call: the row the store inserted when there is
     * no template, and the untouched request entity when the service built a new one from a
     * template.
     */
    function CreateOutcome(rows: seq<DeviceProfile>, userId: string, dp: DeviceProfile, freshId: Uuid, now: Timestamp)
      : (Result<DeviceProfile, Error>, seq<DeviceProfile>)
      requires freshId != Nil
    {
      match Prepare(userId, dp, now)
      case Err(e) => (Err(e), rows)
      case Ok(p) =>
        var w := ProfileRepo.Create(rows, p, freshId, now);
        if w.err.Some? then (Err(MapRepoErr("create device profile", w.err.value)), w.rows)
        else (if dp.templateId.None? then Ok(w.saved) else Ok(dp), w.rows)
    }

    /**
     * A create without a template stores the candidate and answers with the stored row. With a
     * template it stores the template's fields under the caller's id, and answers with the
     * request entity as given: the stored row's id, timestamps and fields are not in the answer.
     */
    lemma {:induction false} CreateOutcomeStores(rows: seq<DeviceProfile>, userId: string, dp: DeviceProfile, freshId: Uuid, now: Timestamp)
      requires ProfileRepo.Constraints(rows) && ProfileRepo.IdsSet(rows)
      requires freshId != Nil && ProfileRepo.IdFree(rows, freshId)
      ensures var (r, after) := CreateOutcome(rows, userId, dp, freshId, now);
        && ProfileRepo.Constraints(after) && ProfileRepo.IdsSet(after)
        && (r.Err? ==> after == rows)
        && (r.Ok? ==> |after| == |rows| + 1 && after[..|rows|] == rows)
        && (r.Ok? && dp.templateId.None? ==> r.value == after[|rows|] && UniqueKey(r.value) == UniqueKey(dp))
        && (r.Ok? && dp.templateId.Some? ==>
              && r == Ok(dp)
              && after[|rows|].templateId.None?
              && Parse(userId) == Some(after[|rows|].userId)
              && after[|rows|].name == lookupTemplate(dp.templateId.value).value.name)
    {
      match Prepare(userId, dp, now)
      case Err(e) =>
      case Ok(p) =>
        ProfileRepo.CreateStoresProfile(rows, p, freshId, now);
        PrepareOutcomes(userId, dp, now);
    }

    /**
     * Creating a valid profile, without a template, under a name its owner already uses is
     * AlreadyExists and stores nothing.
     */
    lemma {:induction false} CreateDuplicateIsAlreadyExists(rows: seq<DeviceProfile>, userId: string, dp: DeviceProfile, freshId: Uuid, now: Timestamp, i: nat)
      requires freshId != Nil && i < |rows|
      requires ValidProfile(dp) && dp.templateId.None?
      requires rows[i].userId == dp.userId && rows[i].name == dp.name
      ensures CreateOutcome(rows, userId, dp, freshId, now).1 == rows
      ensures CreateOutcome(rows, userId, dp, freshId, now).0.Err?
      ensures CreateOutcome(rows, userId, dp, freshId, now).0.error.kind == AlreadyExists
    {
      ProfileRepo.CreateDuplicateNameFails(rows, dp, freshId, now, i);
      var w := ProfileRepo.Create(rows, dp, freshId, now);
      assert Chain(w.err.value) == [w.err.value];
    }

    /** `CreateDeviceProfile`, as `CreateOutcome` describes it, with the repository calls it makes. */
    method CreateDeviceProfile(userId: string, dp: DeviceProfile, freshId: Uuid, now: Timestamp) returns (r: Result<DeviceProfile, Error>)
      requires Valid()
      requires freshId != Nil && ProfileRepo.IdFree(store.rows, freshId)
      modifies this, store
      ensures Valid()
      ensures calls == old(calls) + CreateCalls(userId, dp, now)
      ensures (r, store.rows) == CreateOutcome(old(store.rows), userId, dp, freshId, now)
    {
      if !ValidProfile(dp) {
        return Err(AppError(InvalidArgument, "invalid payload", Some(ValidationError)));
      }
      var candidate := dp;
      if dp.templateId.Some? {
        calls := calls + [TemplateLookup(dp.templateId.value)];
        var found := lookupTemplate(dp.templateId.value);
        if found.Err? {
          return Err(AppError(NotFound, "device template not found", Some(found.error)));
        }
        candidate := FromTemplate(found.value, now);
        var uid := Parse(userId);
        if uid.None? {
          return Err(AppError(InvalidArgument, "invalid user id", Some(ProfileRepo.UuidParseError)));
        }
        candidate := candidate.(userId := uid.value);
      }
      calls := calls + [RepoCreate(candidate)];
      var saved, err := store.CreateDeviceProfile(candidate, freshId, now);
      if err.Some? {
        return Err(MapRepoErr("create device profile", err.value));
      }
      r := if dp.templateId.None? then Ok(saved) else Ok(dp);
    }

    /** `ListDeviceProfilesByUserID`: forwards the caller and the paging unchanged, and maps a store failure. */
    method ListDeviceProfilesByUserId(userId: string, page: int, pageSize: int) returns (r: Result<seq<DeviceProfile>, Error>)
      modifies this
      ensures calls == old(calls) + [RepoList(userId, page, pageSize)]
      ensures r == ListOutcome(store.rows, userId, page, pageSize)
    {
      calls := calls + [RepoList(userId, page, pageSize)];
      var items := store.ListDeviceProfiles(userId, page, pageSize);
      if items.Err? {
        return Err(MapRepoErr("list device profiles", items.error));
      }
      r := Ok(items.value);
    }

    /**
     * `UpdateDeviceProfile`: the gate first, with no repository call when it refuses; then a full
     * save. On success the result is the profile passed in, with the update time the store set.
     */
    method UpdateDeviceProfile(userId: string, dp: DeviceProfile, freshId: Uuid, now: Timestamp) returns (r: Result<DeviceProfile, Error>)
      requires Valid()
      requires freshId != Nil && ProfileRepo.IdFree(store.rows, freshId)
      modifies this, store
      ensures Valid()
      ensures calls == old(calls) + (if UpdateGate(userId, dp).None? then [RepoUpdate(dp)] else [])
      ensures (r, store.rows) == UpdateOutcome(old(store.rows), userId, dp, freshId, now)
    {
      var owner := ToString(dp.userId);
      if owner == "" || userId != owner {
        return Err(AppError(NotAuthorized, "NotAuthorizedErr", None));
      }
      if !IsUuid4(dp.id) {
        return Err(AppError(InvalidArgument, "invalid id", Some(ValidationError)));
      }
      if !IsUuid4(dp.userId) {
        return Err(AppError(InvalidArgument, "invalid user id", Some(ValidationError)));
      }
      calls := calls + [RepoUpdate(dp)];
      var saved, err := store.UpdateDeviceProfile(dp, freshId, now);
      if err.Some? {
        return Err(MapRepoErr("update device profile", err.value));
      }
      r := Ok(saved);
    }

    /**
     * `DeleteDeviceProfile`: an id failing `uuid4` is InvalidArgument with no repository call;
     * otherwise the repository is asked to delete `(userId, id)`. The store as written takes
     * only the id, so the owner is dropped there.
     */
    method DeleteDeviceProfile(userId: string, id: string) returns (err: Option<Error>)
      requires Valid()
      modifies this, store
      ensures Valid()
      ensures calls == old(calls) + (if IsUuid4Text(id) then [RepoDelete(userId, id)] else [])
      ensures (err, store.rows) == DeleteOutcome(old(store.rows), id)
    {
      if !IsUuid4Text(id) {
        return Some(AppError(InvalidArgument, "invalid id", Some(ValidationError)));
      }
      calls := calls + [RepoDelete(userId, id)];
      var e := store.DeleteDeviceProfile(id);
      if e.Some? {
        if IsRecordNotFound(e.value) {
          return Some(AppError(NotFound, "device profile not found", Some(e.value)));
        }
        return Some(MapRepoErr("delete device profile", e.value));
      }
      err := None;
    }
  }

  /**
   * A delete fails only for an id that is not a version-4 UUID in canonical text, and then
   * changes nothing. Otherwise it always succeeds: the row with that id is gone, whoever owned
   * it, every other row stays, and an id no row has is not reported as NotFound.
   */
  lemma {:induction false} DeleteOutcomeNeverNotFound(rows: seq<DeviceProfile>, id: string)
    ensures DeleteOutcome(rows, id).0.None? <==> IsUuid4Text(id)
    ensures !IsUuid4Text(id) ==> DeleteOutcome(rows, id).1 == rows && DeleteOutcome(rows, id).0.value.kind == InvalidArgument
    ensures IsUuid4Text(id) ==>
      && ProfileRepo.IdFree(DeleteOutcome(rows, id).1, Parse(id).value)
      && forall p | p in rows && p.id != Parse(id).value :: p in DeleteOutcome(rows, id).1
  {
    if IsUuid4Text(id) {
      Uuid4TextParses(id);
      ProfileRepo.DeleteRemovesOnlyThatId(rows, id);
    }
  }

  /** A caller who is not the profile's owner is refused as NotAuthorized, and the table is untouched. */
  lemma {:induction false} UpdateByOtherCallerRefused(rows: seq<DeviceProfile>, userId: string, dp: DeviceProfile, freshId: Uuid, now: Timestamp)
    requires freshId != Nil
    requires Parse(userId) != Some(dp.userId)
    ensures UpdateOutcome(rows, userId, dp, freshId, now) == (Err(AppError(NotAuthorized, "NotAuthorizedErr", None)), rows)
  {
    UpdateGateOwnership(userId, dp);
  }

  /**
   * The gate compares the caller only with the owner named in the request, not with the stored
   * row's owner: a successful update of an id whose row belongs to someone else replaces that
   * row, owner included, so the row passes to the caller.
   */
  lemma {:induction false} UpdateTakesOverStoredRow(rows: seq<DeviceProfile>, userId: string, dp: DeviceProfile, freshId: Uuid, now: Timestamp, i: nat)
    requires ProfileRepo.Constraints(rows) && freshId != Nil
    requires i < |rows| && rows[i].id == dp.id
    requires UpdateOutcome(rows, userId, dp, freshId, now).0.Ok?
    ensures Parse(userId) == Some(dp.userId)
    ensures UpdateOutcome(rows, userId, dp, freshId, now).1[i] == dp.(updatedAt := now)
    ensures |UpdateOutcome(rows, userId, dp, freshId, now).1| == |rows|
  {
    UpdateGateOwnership(userId, dp);
    Uuid4Digits(dp.id);
    ProfileRepo.SaveReplacesWholeRow(rows, dp, freshId, now, i);
  }
}

/**
 * The HTTP layer's conversions between request and response shapes and the profile entity.
 */
module HttpMapper {
  import opened Wrappers
  import opened Uuids
  import opened Entity
  import opened AppErr

  /** A partial update: every field is optional, and an absent field is nil. */
  datatype UpdateRequest = UpdateRequest(
    templateId: Option<string>,
    name: Option<string>,
    deviceType: Option<string>,
    width: Option<int>,
    height: Option<int>,
    userAgent: Option<string>,
    countryCode: Option<string>,
    customHeaders: Option<JsonMap>)

  /** A create request: name and device type are plain strings, the rest optional. */
  datatype CreateRequest = CreateRequest(
    templateId: Option<string>,
    name: string,
    deviceType: string,
    width: Option<int>,
    height: Option<int>,
    userAgent: Option<string>,
    countryCode: Option<string>,
    customHeaders: Option<JsonMap>)

  /** The JSON shape of a profile in responses: headers are plain strings. */
  datatype ProfileResponse = ProfileResponse(
    id: Uuid,
    userId: Uuid,
    templateId: Option<Uuid>,
    name: string,
    deviceType: string,
    width: Option<int>,
    height: Option<int>,
    userAgent: Option<string>,
    countryCode: Option<string>,
    customHeaders: map<string, string>,
    createdAt: Timestamp,
    updatedAt: Timestamp)

  /** The string-valued entries of a header map; entries of any other JSON type are dropped. */
  function StringHeaders(h: Option<JsonMap>): (r: map<string, string>)
    ensures forall k :: k in r <==> h.Some? && k in h.value && h.value[k].JString?
    ensures forall k | k in r :: r[k] == h.value[k].text
  {
    match h
    case None => map[]
    case Some(m) => map k | k in m && m[k].JString? :: m[k].text
  }

  /** A map of strings as a JSON header map. */
  function AsJson(m: map<string, string>): JsonMap {
    map k | k in m :: JString(m[k])
  }

  /** Headers that are all strings come back unchanged in a response. */
  lemma StringHeadersOfJson(m: map<string, string>)
    ensures StringHeaders(Some(AsJson(m))) == m
  {
  }

  /** Only the string entries of the stored headers matter to the response. */
  lemma {:induction false} StringHeadersIgnoreOthers(h: JsonMap, k: string, v: JsonValue)
    requires !v.JString?
    ensures StringHeaders(Some(h[k := v])) == StringHeaders(Some(h)) - {k}
  {
    var a := StringHeaders(Some(h[k := v]));
    var b := StringHeaders(Some(h)) - {k};
    assert forall x :: x in a <==> x in b;
    assert forall x | x in a :: a[x] == b[x];
  }

  /** `mapToDeviceProfileResponse`: every field copied as it is, headers reduced to the string ones. */
  function ToResponse(e: DeviceProfile): (r: ProfileResponse)
    ensures r.customHeaders == StringHeaders(e.customHeaders)
    ensures r.id == e.id && r.userId == e.userId && r.templateId == e.templateId
    ensures r.name == e.name && r.deviceType == e.deviceType && r.width == e.width && r.height == e.height
    ensures r.userAgent == e.userAgent && r.countryCode == e.countryCode
    ensures r.createdAt == e.createdAt && r.updatedAt == e.updatedAt
  {
    ProfileResponse(e.id, e.userId, e.templateId, e.name, e.deviceType, e.width, e.height,
      e.userAgent, e.countryCode, StringHeaders(e.customHeaders), e.createdAt, e.updatedAt)
  }

  /** A profile whose headers are all strings can be rebuilt from its response. */
  function FromResponse(r: ProfileResponse): DeviceProfile {
    DeviceProfile(r.id, r.userId, r.templateId, r.name, r.deviceType, r.width, r.height,
      r.userAgent, r.countryCode, Some(AsJson(r.customHeaders)), r.createdAt, r.updatedAt)
  }

  /** The response loses nothing of a profile whose headers exist and are all strings. */
  lemma {:induction false} ResponseRoundTrip(e: DeviceProfile)
    requires e.customHeaders.Some? && forall k | k in e.customHeaders.value :: e.customHeaders.value[k].JString?
    ensures FromResponse(ToResponse(e)) == e
  {
    var h := e.customHeaders.value;
    assert AsJson(StringHeaders(e.customHeaders)) == h;
  }

  /** The entity a profile of nothing but `id` and `userId` becomes. */
  function Blank(id: Uuid, userId: Uuid): DeviceProfile {
    DeviceProfile(id, userId, None, "", "", None, None, None, None, None, 0, 0)
  }

  /**
   * `mapDeviceProfileUpdateRequestToEntity`: id and owner from the arguments, each present
   * field copied, each absent field left zero or nil. An empty template id is nil; any other
   * template id is parsed with its error ignored, so text that is not a UUID becomes the nil UUID.
   */
  function MapUpdate(req: UpdateRequest, id: Uuid, userId: Uuid): (dp: DeviceProfile)
    ensures dp.id == id && dp.userId == userId
    ensures dp.createdAt == 0 && dp.updatedAt == 0
    ensures dp.customHeaders == req.customHeaders
    ensures req.templateId.None? || req.templateId == Some("") ==> dp.templateId.None?
    ensures req.templateId.Some? && req.templateId.value != "" ==>
      dp.templateId == Some(Parse(req.templateId.value).GetOr(Nil))
    ensures dp.name == req.name.GetOr("") && dp.deviceType == req.deviceType.GetOr("")
    ensures dp.width == req.width && dp.height == req.height
    ensures dp.userAgent == req.userAgent && dp.countryCode == req.countryCode
  {
    var tid :=
      match req.templateId
      case None => None
      case Some(t) => if t == "" then None else Some(Parse(t).GetOr(Nil));
    DeviceProfile(id, userId, tid, req.name.GetOr(""), req.deviceType.GetOr(""),
      req.width, req.height, req.userAgent, req.countryCode,
      req.customHeaders, 0, 0)
  }

  /** `isEmptyUpdateRequest`: all eight optional fields are absent. */
  predicate IsEmptyUpdateRequest(req: UpdateRequest) {
    && req.templateId.None? && req.name.None? && req.deviceType.None?
    && req.width.None? && req.height.None? && req.userAgent.None?
    && req.countryCode.None? && req.customHeaders.None?
  }

  /**
   * An empty update request maps to the blank profile; any other request sets at least one
   * field, except a request whose only fields are an empty template id, an empty name or device
   * type, which still maps to the blank profile.
   */
  lemma {:induction false} EmptyRequestMapsToBlank(req: UpdateRequest, id: Uuid, userId: Uuid)
    ensures IsEmptyUpdateRequest(req) ==> MapUpdate(req, id, userId) == Blank(id, userId)
    ensures MapUpdate(req, id, userId) == Blank(id, userId) ==>
      && req.templateId in {None, Some("")} && req.name in {None, Some("")} && req.deviceType in {None, Some("")}
      && req.width.None? && req.height.None? && req.userAgent.None?
      && req.countryCode.None? && req.customHeaders.None?
  {
  }

  /** The error for a non-empty template id that is not a UUID. */
  const InvalidTemplateId: Error := Plain("invalid template_id")

  /**
   * `mapDeviceProfileCreateRequestToEntity`: owner from the argument, fields copied, no id, and
   * a header map that always exists and holds exactly the request's headers. An absent or empty
   * template id is nil; any other one must parse.
   */
  function MapCreate(req: CreateRequest, userId: Uuid): (r: Result<DeviceProfile, Error>)
    ensures r.Err? <==> req.templateId.Some? && req.templateId.value != "" && Parse(req.templateId.value).None?
    ensures r.Err? ==> r.error == InvalidTemplateId
    ensures r.Ok? ==>
      && r.value.id == Nil && r.value.userId == userId
      && r.value.name == req.name && r.value.deviceType == req.deviceType
      && r.value.width == req.width && r.value.height == req.height
      && r.value.userAgent == req.userAgent && r.value.countryCode == req.countryCode
      && r.value.customHeaders == Some(req.customHeaders.GetOr(map[]))
      && r.value.createdAt == 0 && r.value.updatedAt == 0
      && (r.value.templateId.Some? <==> req.templateId.Some? && req.templateId.value != "")
      && (r.value.templateId.Some? ==> Some(r.value.templateId.value) == Parse(req.templateId.value))
  {
    var dp := DeviceProfile(Nil, userId, None, req.name, req.deviceType, req.width, req.height,
      req.userAgent, req.countryCode, Some(req.customHeaders.GetOr(map[])), 0, 0);
    if req.templateId.Some? && req.templateId.value != "" then
      match Parse(req.templateId.value)
      case None => Err(InvalidTemplateId)
      case Some(tid) => Ok(dp.(templateId := Some(tid)))
    else
      Ok(dp)
  }
}

/**
 * The persisted records: device profiles (owned by a user), device templates (shared presets)
 * and users, with the rules their `validate` struct tags impose.
 */
module Entity {
  import opened Wrappers
  import opened Uuids
  import Ascii

  /** A JSON value held in a `jsonb` header map; only strings survive into responses. */
  datatype JsonValue =
    | JString(text: string)
    | JNumber(literal: string)
    | JBool(b: bool)
    | JNull
    | JComposite(literal: string)  // an array or object, kept as its JSON text

  /** A `datatypes.JSONMap`. */
  type JsonMap = map<string, JsonValue>

  /** An instant as the database or clock gives it; 0 is Go's zero `time.Time`. */
  type Timestamp = int

  datatype DeviceProfile = DeviceProfile(
    id: Uuid,
    userId: Uuid,
    templateId: Option<Uuid>,
    name: string,
    deviceType: string,
    width: Option<int>,
    height: Option<int>,
    userAgent: Option<string>,
    countryCode: Option<string>,
    customHeaders: Option<JsonMap>,  // None is a nil map, stored as SQL NULL
    createdAt: Timestamp,
    updatedAt: Timestamp)

  datatype DeviceTemplate = DeviceTemplate(
    id: Uuid,
    name: string,
    deviceType: string,
    width: Option<int>,
    height: Option<int>,
    userAgent: string,
    countryCode: Option<string>,
    defaultHeaders: Option<JsonMap>,
    createdAt: Timestamp)

  datatype User = User(id: Uuid, username: string, passwordHash: string, createdAt: Timestamp)

  /** `oneof=desktop mobile`. */
  predicate IsDeviceType(t: string) {
    t == "desktop" || t == "mobile"
  }

  /** `required,min=1,max=100` on a string (the validator counts characters). */
  predicate IsName(s: string) {
    1 <= |s| <= 100
  }

  /** `omitempty,gt=0` on an `*int`: nil passes, a present value must be positive. */
  predicate IsDimension(d: Option<int>) {
    d.Some? ==> d.value > 0
  }

  /** `omitempty,min=1` on a `*string`: nil passes, a present string must be non-empty. */
  predicate IsOptionalText(s: Option<string>) {
    s.Some? ==> |s.value| >= 1
  }

  /**
   * `uppercase`: the string equals its own upper-casing, where only ASCII letters are upper-cased.
   * The validator upper-cases with Unicode rules, so a non-ASCII lower-case letter such as `é`
   * fails there and passes here.
   */
  predicate IsUppercase(s: string) {
    s == Ascii.UpperString(s)
  }

  /** `omitempty,len=2,uppercase` on a `*string`. */
  predicate IsCountryCode(cc: Option<string>) {
    cc.Some? ==> |cc.value| == 2 && IsUppercase(cc.value)
  }

  /** The struct tags of DeviceProfile; template id, headers and timestamps carry none. */
  predicate ValidProfile(p: DeviceProfile) {
    && p.userId != Nil
    && IsName(p.name)
    && IsDeviceType(p.deviceType)
    && IsDimension(p.width)
    && IsDimension(p.height)
    && IsOptionalText(p.userAgent)
    && IsCountryCode(p.countryCode)
  }

  /** The struct tags of DeviceTemplate; the template has no owner and its headers are free. */
  predicate ValidTemplate(t: DeviceTemplate) {
    && IsName(t.name)
    && IsDeviceType(t.deviceType)
    && IsDimension(t.width)
    && IsDimension(t.height)
    && |t.userAgent| >= 1
    && IsCountryCode(t.countryCode)
  }

  /** The columns of the `idx_user_name` unique index. */
  function UniqueKey(p: DeviceProfile): (Uuid, string) {
    (p.userId, p.name)
  }

  /**
   * `uppercase`, as modelled, forbids exactly the ASCII lower-case letters: digits and every other
   * ASCII character are allowed, so "12" is a valid country code while "us" and "Us" are not.
   */
  lemma {:induction false} UppercaseMeansNoLowerLetter(s: string)
    ensures IsUppercase(s) <==> forall i | 0 <= i < |s| :: !Ascii.IsLower(s[i])
  {
    if IsUppercase(s) {
      forall i | 0 <= i < |s| ensures !Ascii.IsLower(s[i]) {
        assert Ascii.UpperString(s)[i] == s[i];
      }
    } else {
      var i :| 0 <= i < |s| && Ascii.UpperString(s)[i] != s[i];
      assert Ascii.IsLower(s[i]);
    }
  }
}

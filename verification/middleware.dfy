/**
 * The Basic authentication middleware (section 2 of RFC 7617): it reads the `Authorization`
 * header, decodes `user:password`, asks the credential check, and on success stores the user's
 * id in the request's locals and passes the request on. Any failure is a 401. Go strings are
 * byte strings; here each character stands for one byte.
 */
module AuthMiddleware {
  import opened Wrappers
  import Ascii
  import Uuids
  import Base64
  import Entity
  import opened AuthUsecase

  /** The key under which the authenticated user's id is stored. */
  const AuthUserIdKey := "auth_user_id"

  /** A value held in the request's locals: a string, or anything else. */
  datatype Local = LString(s: string) | LOther

  /** The position of the first `c` in `s`, if any. */
  function FirstIndex(s: string, c: char): (r: Option<nat>)
    ensures r.Some? ==> r.value < |s| && s[r.value] == c && c !in s[..r.value]
    ensures r.None? ==> c !in s
  {
    if |s| == 0 then None
    else if s[0] == c then Some(0)
    else
      match FirstIndex(s[1..], c)
      case None => None
      case Some(i) =>
        assert s[..i + 1] == [s[0]] + s[1..][..i];
        Some(i + 1)
  }

  /** A first occurrence is found wherever it sits behind text without that character. */
  lemma {:induction false} FirstIndexAfter(a: string, c: char, b: string)
    requires c !in a
    ensures FirstIndex(a + [c] + b, c) == Some(|a|)
  {
    var s := a + [c] + b;
    assert s[|a|] == c;
    assert forall i | 0 <= i < |a| :: s[i] == a[i];
    var k := FirstIndex(s, c).value;
    forall j | 0 <= j < k ensures s[j] != c {
      assert s[..k][j] == s[j];
    }
  }

  /** `strings.SplitN(h, " ", 2)` when it gives two parts: the text before the first space and after it. */
  function SplitAtSpace(h: string): (r: Option<(string, string)>)
    ensures r.Some? <==> ' ' in h
    ensures r.Some? ==> ' ' !in r.value.0 && h == r.value.0 + " " + r.value.1
  {
    match FirstIndex(h, ' ')
    case None => None
    case Some(i) =>
      assert h == h[..i] + " " + h[i + 1..];
      Some((h[..i], h[i + 1..]))
  }

  /** Text whose every character is a byte. */
  predicate IsByteText(s: string) {
    forall i | 0 <= i < |s| :: s[i] as int < 256
  }

  /** `string(b)`: bytes as text. */
  function ToText(bs: seq<Base64.byte>): (s: string)
    ensures |s| == |bs| && IsByteText(s)
  {
    seq(|bs|, i requires 0 <= i < |bs| => (bs[i] as int) as char)
  }

  /** `[]byte(s)`: text as bytes. */
  function ToBytes(s: string): (bs: seq<Base64.byte>)
    requires IsByteText(s)
    ensures ToText(bs) == s
  {
    seq(|s|, i requires 0 <= i < |s| => (s[i] as int) as Base64.byte)
  }

  lemma ToBytesOfText(bs: seq<Base64.byte>)
    ensures ToBytes(ToText(bs)) == bs
  {
  }

  /**
   * The header steps of the middleware: a non-empty header, split at its first space into a
   * scheme equal to "Basic" ignoring case and a payload; the payload in padded base64; the
   * decoded text split at its first colon into a non-empty user and a non-empty password (which
   * may hold further colons). The result, when there is one, is what the header carries.
   */
  function ParseBasic(h: string): (r: Option<(string, string)>)
    ensures r.Some? ==> r.value.0 != "" && r.value.1 != "" && ':' !in r.value.0
    ensures r.Some? ==>
      && IsByteText(r.value.0 + ":" + r.value.1)
      && SplitAtSpace(h).Some?
      && Ascii.EqualFold(SplitAtSpace(h).value.0, "Basic")
      && Base64.Decode(SplitAtSpace(h).value.1) == Some(ToBytes(r.value.0 + ":" + r.value.1))
  {
    if h == "" then None
    else
      match SplitAtSpace(h)
      case None => None
      case Some((scheme, payload)) =>
        if !Ascii.EqualFold(scheme, "Basic") then None
        else
          match Base64.Decode(payload)
          case None => None
          case Some(bs) =>
            var creds := ToText(bs);
            match FirstIndex(creds, ':')
            case None => None
            case Some(i) =>
              if i == 0 then None
              else
                var user, pass := creds[..i], creds[i + 1..];
                if user == "" || pass == "" then None
                else
                  assert creds == user + ":" + pass;
                  ToBytesOfText(bs);
                  Some((user, pass))
  }

  /** The validator's `required,uuid4` rule on a string. */
  predicate RequiredUuid4(s: string) {
    s != "" && Uuids.IsUuid4Text(s)
  }

  /**
   * The middleware's decision for an `Authorization` header: the id it stores, or None for a
   * 401. The id check refuses only an id that is empty and fails `required,uuid4`, which is any
   * empty id; a non-empty id is taken as it is.
   */
  function Admit(h: string, verify: (string, string) -> Verdict): (r: Option<string>)
    ensures r.Some? <==>
      && ParseBasic(h).Some?
      && verify(ParseBasic(h).value.0, ParseBasic(h).value.1).err.None?
      && verify(ParseBasic(h).value.0, ParseBasic(h).value.1).userId != ""
    ensures r.Some? ==> r.value == verify(ParseBasic(h).value.0, ParseBasic(h).value.1).userId
  {
    match ParseBasic(h)
    case None => None
    case Some((user, pass)) =>
      var v := verify(user, pass);
      if v.err.Some? then None
      else if v.userId == "" && !RequiredUuid4(v.userId) then None
      else Some(v.userId)
  }

  /**
   * A header made of a scheme equal to "Basic" ignoring case, a space, and the base64 of
   * `user:password` hands exactly that user and password to the credential check, whatever
   * colons the password holds.
   */
  lemma {:induction false} BasicHeaderRoundTrip(scheme: string, user: string, pass: string)
    requires Ascii.EqualFold(scheme, "Basic")
    requires user != "" && ':' !in user && pass != ""
    requires IsByteText(user + ":" + pass)
    ensures ParseBasic(scheme + " " + Base64.Encode(ToBytes(user + ":" + pass))) == Some((user, pass))
  {
    var creds := user + ":" + pass;
    var payload := Base64.Encode(ToBytes(creds));
    var h := scheme + " " + payload;
    assert ' ' !in scheme by {
      forall i | 0 <= i < |scheme| ensures scheme[i] != ' ' {
        assert Ascii.LowerString(scheme)[i] == "basic"[i];
      }
    }
    FirstIndexAfter(scheme, ' ', payload);
    assert h[..|scheme|] == scheme && h[|scheme| + 1..] == payload;
    Base64.DecodeEncode(ToBytes(creds));
    FirstIndexAfter(user, ':', pass);
    assert creds == user + [':'] + pass;
    assert creds[..|user|] == user && creds[|user| + 1..] == pass;
  }

  /**
   * Any non-empty id the credential check returns without an error is let through, whether or
   * not it is a version-4 UUID: the `uuid4` rule is applied only to an empty id.
   */
  lemma {:induction false} AdmitTakesAnyNonEmptyId(h: string, verify: (string, string) -> Verdict, id: string)
    requires ParseBasic(h).Some? && id != ""
    requires verify(ParseBasic(h).value.0, ParseBasic(h).value.1) == Verdict(id, None)
    ensures Admit(h, verify) == Some(id)
  {
  }

  /**
   * Wired to the credential check, the middleware lets a request through exactly when the
   * stored user is complete and the password matches, and stores the stored id; a wrong
   * password, which the check answers with an empty id and no error, is a 401.
   */
  lemma {:induction false} AdmitWithCredentialCheck(h: string, user: string, pass: string,
                                                    retrieve: Entity.User -> Retrieved, hashMatches: (string, string) -> bool)
    requires ParseBasic(h) == Some((user, pass))
    ensures var s := retrieve(CredentialQuery(user));
      var verify := (u, p) => CheckCredentials(u, p, retrieve, hashMatches);
      && (Admit(h, verify).Some? <==> s.err.None? && s.userId != "" && s.passwordHash != "" && hashMatches(s.passwordHash, pass))
      && (Admit(h, verify).Some? ==> Admit(h, verify) == Some(s.userId))
  {
    var verify := (u, p) => CheckCredentials(u, p, retrieve, hashMatches);
    assert verify(user, pass) == CheckCredentials(user, pass, retrieve, hashMatches);
  }

  /** The request as the middleware sees it: its locals and whether the next handler ran. */
  class RequestCtx {
    var locals: map<string, Local>
    var nextCalled: bool

    constructor(locals: map<string, Local>)
      ensures this.locals == locals && !nextCalled
    {
      this.locals := locals;
      nextCalled := false;
    }
  }

  /**
   * `BasicAuthCheckMiddleware` on one request: refuses with 401 whenever `Admit` does, changing
   * nothing; otherwise stores the admitted id under `auth_user_id` and runs the next handler.
   */
  method BasicAuthCheck(ctx: RequestCtx, authorization: string, verify: (string, string) -> Verdict)
    returns (unauthorized: bool)
    modifies ctx
    ensures unauthorized <==> Admit(authorization, verify).None?
    ensures unauthorized ==> ctx.locals == old(ctx.locals) && ctx.nextCalled == old(ctx.nextCalled)
    ensures !unauthorized ==>
      ctx.locals == old(ctx.locals)[AuthUserIdKey := LString(Admit(authorization, verify).value)] && ctx.nextCalled
  {
    var creds := ParseBasic(authorization);
    if creds.None? {
      return true;
    }
    var (user, pass) := creds.value;
    var v := verify(user, pass);
    if v.err.Some? {
      return true;
    }
    if v.userId == "" && !RequiredUuid4(v.userId) {
      return true;
    }
    ctx.locals := ctx.locals[AuthUserIdKey := LString(v.userId)];
    ctx.nextCalled := true;
    unauthorized := false;
  }
}

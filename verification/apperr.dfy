/**
 * The application's error taxonomy: five kinds of domain error, each carrying a message and an
 * optional cause, next to the foreign errors that can appear in a cause chain (the ORM's
 * record-not-found sentinel, a PostgreSQL error, a wrapped or plain error).
 */
module AppErr {
  import opened Wrappers

  datatype Kind = InvalidArgument | NotFound | AlreadyExists | NotAuthorized | Internal

  datatype Error =
    | AppError(kind: Kind, msg: string, cause: Option<Error>)
    | RecordNotFound                              // gorm.ErrRecordNotFound
    | PgError(severity: string, message: string, code: string)  // *pgconn.PgError with its SQLSTATE
    | Wrapped(prefix: string, inner: Error)       // fmt.Errorf("<prefix>: %w", inner)
    | Plain(text: string)                         // any other error, with nothing to unwrap

  /** `Code()` of each kind. */
  function Code(k: Kind): string {
    match k
    case InvalidArgument => "INVALID_ARGUMENT"
    case NotFound => "NOT_FOUND"
    case AlreadyExists => "ALREADY_EXISTS"
    case NotAuthorized => "NOT_AUTHORIZED"
    case Internal => "INTERNAL_ERROR"
  }

  /** The `[CODE] ` prefix every domain error's text starts with. */
  function Tag(k: Kind): string {
    "[" + Code(k) + "] "
  }

  /** `Unwrap()`: the cause of a domain error, the inner error of a wrapped one, nothing otherwise. */
  function Unwrap(e: Error): (r: Option<Error>)
    ensures r.Some? ==> r.value < e
  {
    match e
    case AppError(_, _, cause) => cause
    case Wrapped(_, inner) => Some(inner)
    case _ => None
  }

  /** `Error()`: the text of an error, with the texts of its causes appended. */
  function ErrorText(e: Error): string {
    match e
    case AppError(k, msg, None) => Tag(k) + msg
    case AppError(k, msg, Some(c)) => Tag(k) + msg + ": " + ErrorText(c)
    case RecordNotFound => "record not found"
    case PgError(severity, message, code) => severity + ": " + message + " (SQLSTATE " + code + ")"
    case Wrapped(prefix, inner) => prefix + ": " + ErrorText(inner)
    case Plain(text) => text
  }

  /** The chain `errors.Is` and `errors.As` walk: the error itself, then each successive `Unwrap()`. */
  function Chain(e: Error): (c: seq<Error>)
    ensures |c| >= 1 && c[0] == e
  {
    match Unwrap(e)
    case None => [e]
    case Some(inner) => [e] + Chain(inner)
  }

  predicate IsKind(e: Error, k: Kind) {
    e.AppError? && e.kind == k
  }

  /** Some error of kind `k` sits somewhere in the chain of `e`. */
  predicate HasKind(e: Error, k: Kind) {
    exists i | 0 <= i < |Chain(e)| :: IsKind(Chain(e)[i], k)
  }

  /**
   * `errors.As(e, &target)` for the domain error type of kind `k`: the first error of that kind
   * along the chain, if there is one.
   */
  function FindKind(e: Error, k: Kind): (r: Option<Error>)
    ensures r.Some? <==> HasKind(e, k)
    ensures r.Some? ==> IsKind(r.value, k) && FirstAt(Chain(e), r.value, k)
  {
    if IsKind(e, k) then
      assert Chain(e)[0] == e;
      Some(e)
    else
      match Unwrap(e)
      case None => None
      case Some(inner) =>
        var r := FindKind(inner, k);
        FindKindStep(e, inner, k, r);
        r
  }

  /** `x` occurs in `chain` with no error of kind `k` before it. */
  predicate FirstAt(chain: seq<Error>, x: Error, k: Kind) {
    exists i | 0 <= i < |chain| :: chain[i] == x && forall j | 0 <= j < i :: !IsKind(chain[j], k)
  }

  /** Moving one link down a chain whose head is not of kind `k` keeps the first error of that kind. */
  lemma FindKindStep(e: Error, inner: Error, k: Kind, r: Option<Error>)
    requires !IsKind(e, k) && Unwrap(e) == Some(inner)
    requires r.Some? <==> HasKind(inner, k)
    requires r.Some? ==> IsKind(r.value, k) && FirstAt(Chain(inner), r.value, k)
    ensures r.Some? <==> HasKind(e, k)
    ensures r.Some? ==> FirstAt(Chain(e), r.value, k)
  {
    var c, ci := Chain(e), Chain(inner);
    assert c == [e] + ci;
    if r.Some? {
      var i :| 0 <= i < |ci| && ci[i] == r.value && forall j | 0 <= j < i :: !IsKind(ci[j], k);
      assert c[i + 1] == r.value && IsKind(c[i + 1], k);
      forall j | 0 <= j < i + 1 ensures !IsKind(c[j], k) {
        if j > 0 { assert c[j] == ci[j - 1]; }
      }
    } else {
      forall i | 0 <= i < |c| ensures !IsKind(c[i], k) {
        if i > 0 { assert c[i] == ci[i - 1]; }
      }
    }
  }

  /** `errors.Is(e, gorm.ErrRecordNotFound)`. */
  predicate IsRecordNotFound(e: Error) {
    RecordNotFound in Chain(e)
  }

  /** Some PostgreSQL error sits somewhere in the chain of `e`. */
  predicate HasPgError(e: Error) {
    exists i | 0 <= i < |Chain(e)| :: Chain(e)[i].PgError?
  }

  /** A PostgreSQL error with SQLSTATE `code` sits in `chain`. */
  predicate PgCodeIn(chain: seq<Error>, code: string) {
    exists i | 0 <= i < |chain| :: chain[i].PgError? && chain[i].code == code
  }

  /** `errors.As(e, &pgErr)`: the SQLSTATE of the first PostgreSQL error along the chain. */
  function PgCode(e: Error): (r: Option<string>)
    ensures r.Some? <==> HasPgError(e)
    ensures r.Some? ==> PgCodeIn(Chain(e), r.value)
  {
    if e.PgError? then
      assert Chain(e)[0] == e;
      Some(e.code)
    else
      match Unwrap(e)
      case None => None
      case Some(inner) =>
        var r := PgCode(inner);
        PgCodeStep(e, inner, r);
        r
  }

  /** Moving one link down a chain whose head is not a PostgreSQL error keeps the code found below. */
  lemma PgCodeStep(e: Error, inner: Error, r: Option<string>)
    requires !e.PgError? && Unwrap(e) == Some(inner)
    requires r.Some? <==> HasPgError(inner)
    requires r.Some? ==> PgCodeIn(Chain(inner), r.value)
    ensures r.Some? <==> HasPgError(e)
    ensures r.Some? ==> PgCodeIn(Chain(e), r.value)
  {
    var c, ci := Chain(e), Chain(inner);
    assert c == [e] + ci;
    if r.Some? {
      var i :| 0 <= i < |ci| && ci[i].PgError? && ci[i].code == r.value;
      assert c[i + 1] == ci[i];
    } else {
      forall i | 0 <= i < |c| ensures !c[i].PgError? {
        if i > 0 { assert c[i] == ci[i - 1]; }
      }
    }
  }

  /** A storage error: nothing along its chain is a domain error. */
  predicate IsForeign(e: Error) {
    forall i | 0 <= i < |Chain(e)| :: !Chain(e)[i].AppError?
  }

  /** The kind whose `Code()` is `code`, if any: the inverse of `Code`. */
  function KindOfCode(code: string): (r: Option<Kind>)
    ensures r.Some? ==> Code(r.value) == code
    ensures forall k :: Code(k) == code ==> r == Some(k)
  {
    if code == "INVALID_ARGUMENT" then Some(InvalidArgument)
    else if code == "NOT_FOUND" then Some(NotFound)
    else if code == "ALREADY_EXISTS" then Some(AlreadyExists)
    else if code == "NOT_AUTHORIZED" then Some(NotAuthorized)
    else if code == "INTERNAL_ERROR" then Some(Internal)
    else None
  }

  /** The kind named by a `[CODE] ` prefix at the head of an error text, if there is one. */
  function KindOfText(text: string): Option<Kind> {
    if |text| >= 2 && text[0] == '[' && ']' in text[1..] then
      var close := IndexOf(text, ']', 1);
      if close + 1 < |text| && text[close + 1] == ' ' then KindOfCode(text[1..close]) else None
    else
      None
  }

  /** The first position at or after `from` holding `c`, which must occur there. */
  function IndexOf(s: string, c: char, from: nat): (i: nat)
    requires from <= |s| && c in s[from..]
    ensures from <= i < |s| && s[i] == c
    ensures forall j | from <= j < i :: s[j] != c
    decreases |s| - from
  {
    if s[from] == c then from
    else
      assert s[from..] == [s[from]] + s[from + 1..];
      IndexOf(s, c, from + 1)
  }

  /** The kind of a domain error can be read back from the `[CODE] ` prefix of its text. */
  lemma {:induction false} KindOfErrorText(k: Kind, msg: string, cause: Option<Error>)
    ensures KindOfText(ErrorText(AppError(k, msg, cause))) == Some(k)
  {
    var rest := if cause.None? then msg else msg + ": " + ErrorText(cause.value);
    assert ErrorText(AppError(k, msg, cause)) == Tag(k) + rest;
    KindOfTaggedText(k, rest);
  }

  /** Whatever follows a `[CODE] ` prefix, the prefix names its kind. */
  lemma {:induction false} KindOfTaggedText(k: Kind, rest: string)
    ensures KindOfText(Tag(k) + rest) == Some(k)
  {
    var code := Code(k);
    var text := Tag(k) + rest;
    assert text == "[" + code + "] " + rest;
    assert forall j | 0 <= j < |code| :: code[j] != ']';
    assert text[1..|code| + 1] == code;
    assert text[|code| + 1] == ']' && text[|code| + 2] == ' ';
    assert ']' in text[1..] by { assert text[1..][|code|] == ']'; }
    var close := IndexOf(text, ']', 1);
    assert close == |code| + 1 by {
      forall j | 1 <= j < |code| + 1 ensures text[j] != ']' {
        assert text[j] == code[j - 1];
      }
    }
  }

  /** The five codes are pairwise distinct, so a code names exactly one kind. */
  lemma CodesDistinct(a: Kind, b: Kind)
    ensures Code(a) == Code(b) <==> a == b
  {
  }
}

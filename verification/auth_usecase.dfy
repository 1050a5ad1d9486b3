/**
 * The credential check behind Basic authentication: look the user up by name, then compare the
 * stored password hash with the password given. The user store and the hash comparison are
 * collaborators, passed in as functions.
 */
module AuthUsecase {
  import opened Wrappers
  import opened Uuids
  import opened Entity
  import opened AppErr

  /**
   * What `RetrieveCredentials` returns: the stored id as text, the stored hash, and an error. An
   * unknown username gives two empty strings and no error.
   */
  datatype Retrieved = Retrieved(userId: string, passwordHash: string, err: Option<Error>)

  /** The answer of `CheckCredentials`: an id (empty when refused) and an error. */
  datatype Verdict = Verdict(userId: string, err: Option<Error>)

  /** The user value the lookup receives: the username and nothing else. */
  function CredentialQuery(username: string): (u: User)
    ensures u.username == username && u.id == Nil && u.passwordHash == "" && u.createdAt == 0
  {
    User(Nil, username, "", 0)
  }

  /** The refusal for a failed lookup or an incomplete stored user: NotAuthorized "Unauthorized". */
  function Refusal(cause: Option<Error>): Error {
    AppError(NotAuthorized, "Unauthorized", cause)
  }

  /**
   * `CheckCredentials`. A lookup error is NotAuthorized wrapping it; an empty stored id or hash
   * is NotAuthorized with no cause; a hash that does not match the password is an empty id with
   * no error; otherwise the stored id.
   */
  function CheckCredentials(username: string, password: string,
                            retrieve: User -> Retrieved, hashMatches: (string, string) -> bool): (r: Verdict)
    ensures var s := retrieve(CredentialQuery(username));
      && (r.err.Some? <==> s.err.Some? || s.userId == "" || s.passwordHash == "")
      && (r.err.Some? ==> r == Verdict("", Some(Refusal(s.err))))
      && (r.userId != "" <==>
            s.err.None? && s.userId != "" && s.passwordHash != "" && hashMatches(s.passwordHash, password))
      && (r.userId != "" ==> r == Verdict(s.userId, None))
  {
    var s := retrieve(CredentialQuery(username));
    if s.err.Some? then Verdict("", Some(Refusal(s.err)))
    else if s.userId == "" || s.passwordHash == "" then Verdict("", Some(Refusal(s.err)))
    else if !hashMatches(s.passwordHash, password) then Verdict("", None)
    else Verdict(s.userId, None)
  }
}

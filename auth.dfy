/** The credential table and the session gates of controllers/auth.py. */
module Auth {
  import opened Wrappers

  /** The fixed table of accepted user names and passwords. */
  const Users: map<string, string> := map["mark" := "pass123", "luke" := "pass456"]

  /** `verify_credentials`: the user is in the table and the password is the one stored for it. */
  predicate VerifyCredentials(username: string, password: string) {
    username in Users && Users[username] == password
  }

  /** Exactly two name/password pairs are accepted. */
  lemma AcceptedPairs(username: string, password: string)
    ensures VerifyCredentials(username, password) <==>
              (username == "mark" && password == "pass123") || (username == "luke" && password == "pass456")
  {
  }

  /** A user missing from the table is rejected whatever the password. */
  lemma UnknownUserRejected(username: string, password: string)
    requires username !in Users
    ensures !VerifyCredentials(username, password)
  {
  }

  /** One user's password does not open the other user's account. */
  lemma SwappedPasswordsRejected()
    ensures !VerifyCredentials("mark", "pass456") && !VerifyCredentials("luke", "pass123")
  {
  }

  /** `request.session.get("username")`: `None` when the session holds no user name. */
  type Session = Option<string>

  /** Python truthiness of the session value: present and non-empty. */
  predicate LoggedIn(session: Session) {
    session.Some? && session.value != ""
  }

  datatype HttpError = HttpError(status: int, detail: string)

  /** What `get_current_user` produces: the user name, or the `HTTPException` it raises. */
  datatype CurrentUser = User(name: string) | Raises(error: HttpError)

  /** What `require_login` returns: the user name, or a `RedirectResponse`. */
  datatype Gate = Proceed(username: string) | Redirect(url: string, status: int)

  /** `get_current_user`: the session's user name unchanged, or 401 "Not authenticated". */
  function GetCurrentUser(session: Session): (r: CurrentUser)
    ensures r.User? <==> LoggedIn(session)
    ensures r.User? ==> r.name == session.value
    ensures r.Raises? ==> r.error == HttpError(401, "Not authenticated")
  {
    if !LoggedIn(session) then Raises(HttpError(401, "Not authenticated")) else User(session.value)
  }

  /** `require_login`: the session's user name unchanged, or a 303 redirect to `/login`. */
  function RequireLogin(session: Session): (r: Gate)
    ensures r.Proceed? <==> LoggedIn(session)
    ensures r.Proceed? ==> r.username == session.value && r.username != ""
    ensures r.Redirect? ==> r == Redirect("/login", 303)
  {
    if !LoggedIn(session) then Redirect("/login", 303) else Proceed(session.value)
  }

  /** The two gates let the same sessions through, with the same user name. */
  lemma GatesAgree(session: Session)
    ensures RequireLogin(session).Proceed? <==> GetCurrentUser(session).User?
    ensures RequireLogin(session).Proceed? ==> RequireLogin(session).username == GetCurrentUser(session).name
  {
  }
}

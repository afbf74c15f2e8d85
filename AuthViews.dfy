/** The handlers of app/auth/views.py that decide something or change a user
    row: the presence ping before every request, the login decision and its
    redirect rule, the password reset reached from a mailed token, account
    confirmation, the administrator's user editor, and soft deletion.
    Password hashing and token signing are parameters: a password check, a
    token extraction, and the hash a new password was given. */
module AuthViews {
  import opened Wrappers
  import opened Models
  import opened Http
  import opened Decorators

  /** `check_password_hash(stored_hash, password)`. */
  type PasswordOracle = (string, string) -> bool

  // ---------------------------------------------------------------------------
  // before_request

  /** `before_request`: a signed-in user is pinged; the anonymous user has no
      row and nothing changes. */
  method BeforeRequest(c: Principal, now: int)
    modifies if c.Authenticated? then {c.user} else {}
    ensures c.Authenticated? ==> c.user.Record() == old(c.user.Record()).(lastSeen := now)
  {
    if c.Authenticated? {
      c.user.Ping(now);
    }
  }

  // ---------------------------------------------------------------------------
  // The login redirect

  /** `s.startswith(prefix)`. */
  predicate StartsWith(s: string, prefix: string)
  {
    |prefix| <= |s| && s[..|prefix|] == prefix
  }

  /** The redirect after a successful login as written: `next` is followed
      whenever it starts with a slash. */
  function LoginRedirectAsWritten(next: Option<string>): (e: Endpoint)
    ensures e == IndexPosts || (next.Some? && e == Literal(next.value))
    ensures e != IndexPosts <==> next.Some? && |next.value| > 0 && next.value[0] == '/'
  {
    if next.None? || !StartsWith(next.value, "/") then IndexPosts else Literal(next.value)
  }

  /** A path on this site: a single leading slash. A second slash or a
      backslash after it makes browsers read the rest as a host name. */
  predicate IsSitePath(url: string)
  {
    |url| > 0 && url[0] == '/' && !(|url| > 1 && (url[1] == '/' || url[1] == '\\'))
  }

  /** The redirect after a successful login as intended: `next` is followed
      only when it is a path on this site. */
  function SafeLoginRedirect(next: Option<string>): (e: Endpoint)
    ensures e != IndexPosts ==> next.Some? && e == Literal(next.value) && IsSitePath(next.value)
    ensures next.Some? && IsSitePath(next.value) ==> e == Literal(next.value)
  {
    if next.Some? && IsSitePath(next.value) then Literal(next.value) else IndexPosts
  }

  /** As written, a protocol-relative `next` such as `//evil.example` is
      followed, although it leaves the site; the intended rule refuses it. */
  lemma OpenRedirectAsWritten()
    ensures LoginRedirectAsWritten(Some("//evil.example")) == Literal("//evil.example")
    ensures !IsSitePath("//evil.example")
    ensures SafeLoginRedirect(Some("//evil.example")) == IndexPosts
  {
    assert StartsWith("//evil.example", "/");
  }

  /** The intended rule only narrows the written one: both agree except on a
      `next` that starts with `//` or `/\`, which only the written rule follows. */
  lemma SafeRedirectNarrowsWritten(next: Option<string>)
    ensures SafeLoginRedirect(next) != IndexPosts ==> SafeLoginRedirect(next) == LoginRedirectAsWritten(next)
    ensures SafeLoginRedirect(next) != LoginRedirectAsWritten(next) <==>
      next.Some? && |next.value| > 1 && next.value[0] == '/' && (next.value[1] == '/' || next.value[1] == '\\')
  {
  }

  // ---------------------------------------------------------------------------
  // login

  /** The filter `username == name OR email == name`. */
  predicate MatchesLogin(u: User, name: string)
    reads u
  {
    u.username == name || u.email == name
  }

  /** `.first()` of that filter over the table in its row order: the index of
      the first matching user, or None when no user matches. */
  function FindLoginUser(users: seq<User>, name: string): (r: Option<nat>)
    reads set u | u in users
    ensures r.Some? ==> r.value < |users| && MatchesLogin(users[r.value], name)
    ensures r.Some? ==> forall j | 0 <= j < r.value :: !MatchesLogin(users[j], name)
    ensures r.None? ==> forall j | 0 <= j < |users| :: !MatchesLogin(users[j], name)
  {
    if users == [] then None
    else if MatchesLogin(users[0], name) then Some(0)
    else match FindLoginUser(users[1..], name)
      case None => None
      case Some(i) => Some(i + 1)
  }

  /** A validated `LoginForm`; "remember me" only affects the session cookie. */
  datatype LoginForm = LoginForm(username: string, password: string)

  /** `login`. `form` is None when the form did not validate (a GET or an
      invalid submission). `signedIn` is the user passed to `login_user`. */
  method Login(users: seq<User>, form: Option<LoginForm>, next: Option<string>, checkPassword: PasswordOracle)
    returns (resp: Response, notice: Notice, signedIn: Option<User>)
    ensures signedIn.Some? <==>
      && form.Some?
      && FindLoginUser(users, form.value.username).Some?
      && checkPassword(users[FindLoginUser(users, form.value.username).value].hashedPassword, form.value.password)
    ensures signedIn.Some? ==>
      && signedIn.value == users[FindLoginUser(users, form.value.username).value]
      && signedIn.value in users
      && MatchesLogin(signedIn.value, form.value.username)
      && resp == Redirect(SafeLoginRedirect(next))
      && notice == NoNotice
    ensures signedIn.None? ==> resp == Render("auth/login-page.html")
    ensures signedIn.None? ==> (notice == InvalidCredentials <==> form.Some?)
  {
    if form.Some? {
      var found := FindLoginUser(users, form.value.username);
      if found.Some? && checkPassword(users[found.value].hashedPassword, form.value.password) {
        return Redirect(SafeLoginRedirect(next)), NoNotice, Some(users[found.value]);
      }
      return Render("auth/login-page.html"), InvalidCredentials, None;
    }
    return Render("auth/login-page.html"), NoNotice, None;
  }

  // ---------------------------------------------------------------------------
  // account_reset

  /** `account_reset(token)`. `password` is the validated new password, or
      None when the form did not validate; `newHash` is the salted hash it
      was given. `signedIn` is the user passed to `login_user`. */
  method AccountReset(db: Store, extract: TokenOracle, token: string, password: Option<string>, newHash: string)
    returns (resp: Response, notice: Notice, signedIn: Option<User>)
    modifies db.users.Values
    ensures extract(token).None? || extract(token).value !in db.users ==>
      && resp == Redirect(AccountRecover) && notice == NoNotice && signedIn.None?
      && forall u | u in db.users.Values :: u.Record() == old(u.Record())
    ensures extract(token).Some? && extract(token).value in db.users && password.None? ==>
      && resp == Render("auth/reset-password-page.html") && notice == NoNotice && signedIn.None?
      && forall u | u in db.users.Values :: u.Record() == old(u.Record())
    ensures extract(token).Some? && extract(token).value in db.users && password.Some? ==>
      && resp == Redirect(BlogIndex) && notice == PasswordReset
      && signedIn == Some(db.users[extract(token).value])
      && db.users[extract(token).value].Record() == old(db.users[extract(token).value].Record()).(hashedPassword := newHash)
      && forall u | u in db.users.Values && u != db.users[extract(token).value] :: u.Record() == old(u.Record())
  {
    var userId := extract(token);
    if userId.None? || userId.value !in db.users {
      return Redirect(AccountRecover), NoNotice, None;
    }
    var user := db.users[userId.value];
    if password.Some? {
      user.hashedPassword := newHash;
      return Redirect(BlogIndex), PasswordReset, Some(user);
    }
    return Render("auth/reset-password-page.html"), NoNotice, None;
  }

  // ---------------------------------------------------------------------------
  // confirm

  /** `confirm(token)` for the signed-in user. */
  method Confirm(current: User, extract: TokenOracle, token: string) returns (resp: Response, notice: Notice)
    modifies current`confirmed
    ensures current.confirmed == (old(current.confirmed) || current.CheckToken(extract, token))
    ensures notice == AccountConfirmed <==> !old(current.confirmed) && current.CheckToken(extract, token)
    ensures current.confirmed ==> resp == Redirect(Confirmed)
    ensures !current.confirmed ==> resp == Redirect(BlogIndex) && notice == ConfirmationInvalid
    ensures old(current.confirmed) ==> notice == NoNotice
  {
    notice := NoNotice;
    if !current.confirmed && current.CheckToken(extract, token) {
      current.confirmed := true;
      notice := AccountConfirmed;
    }
    if current.confirmed {
      return Redirect(Confirmed), notice;
    }
    return Redirect(BlogIndex), ConfirmationInvalid;
  }

  // ---------------------------------------------------------------------------
  // edit_user

  /** The columns of a validated `EditUserForm` this model keeps; an empty
      password means "leave it". `role` is None for the blank choice. */
  datatype EditUserForm = EditUserForm(username: string, email: string, role: Role?, password: string)

  /** `edit_user(identifier)`, behind `@admin_required`. `user` is the row
      `get_or_404` found, or null; `newHash` is the salted hash of the
      submitted password. */
  method EditUser(current: User, user: User?, form: Option<EditUserForm>, newHash: string) returns (resp: Response)
    modifies user
    ensures !old(current.IsAdministrator()) ==> resp == Abort(403) && (user != null ==> user.Record() == old(user.Record()))
    ensures old(current.IsAdministrator()) && user == null ==> resp == Abort(404)
    ensures old(current.IsAdministrator()) && user != null ==> resp == Render("auth/edit-user-page.html")
    ensures old(current.IsAdministrator()) && user != null && form.None? ==> user.Record() == old(user.Record())
    ensures old(current.IsAdministrator()) && user != null && form.Some? ==>
      user.Record() == old(user.Record()).(
        username := form.value.username, email := form.value.email, role := form.value.role,
        hashedPassword := if form.value.password != "" then newHash else old(user.hashedPassword))
  {
    var gate := CheckPerm(Authenticated(current), AdminRequired());
    AdminRequiredIsEqAdmin(Authenticated(current));
    if gate.Deny? {
      return Abort(gate.status);
    }
    if user == null {
      return Abort(404);
    }
    if form.Some? {
      user.role := form.value.role;
      user.email := form.value.email;
      user.username := form.value.username;
      if form.value.password != "" {
        user.hashedPassword := newHash;
      }
    }
    return Render("auth/edit-user-page.html");
  }

  // ---------------------------------------------------------------------------
  // delete_user and undelete_user

  /** `delete_user(identifier)`: soft deletion, refused for an administrator.
      The route carries `login_required` only. */
  method DeleteUser(user: User?, now: int) returns (resp: Response, notice: Notice)
    modifies user
    ensures user == null ==> resp == Abort(404) && notice == NoNotice
    ensures user != null ==> resp == Redirect(IndexUsers)
    ensures user != null && old(user.IsAdministrator()) ==> user.Record() == old(user.Record()) && notice == CannotDeleteAdministrator
    ensures user != null && !old(user.IsAdministrator()) ==> user.Record() == old(user.Record()).(deletedAt := Some(now)) && notice == UserDeleted
  {
    if user == null {
      return Abort(404), NoNotice;
    }
    if !user.IsAdministrator() {
      user.deletedAt := Some(now);
      notice := UserDeleted;
    } else {
      notice := CannotDeleteAdministrator;
    }
    resp := Redirect(IndexUsers);
  }

  /** `undelete_user(identifier)`: clears the soft deletion, refused (with the
      same message) for an administrator. The route carries `login_required`
      only. */
  method UndeleteUser(user: User?) returns (resp: Response, notice: Notice)
    modifies user
    ensures user == null ==> resp == Abort(404) && notice == NoNotice
    ensures user != null ==> resp == Redirect(IndexUsers)
    ensures user != null && old(user.IsAdministrator()) ==> user.Record() == old(user.Record()) && notice == CannotDeleteAdministrator
    ensures user != null && !old(user.IsAdministrator()) ==> user.Record() == old(user.Record()).(deletedAt := None) && notice == UserUndeleted
  {
    if user == null {
      return Abort(404), NoNotice;
    }
    if !user.IsAdministrator() {
      user.deletedAt := None;
      notice := UserUndeleted;
    } else {
      notice := CannotDeleteAdministrator;
    }
    resp := Redirect(IndexUsers);
  }
}

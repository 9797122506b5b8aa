/**
 * Account rules of the authentication service: the registration request
 * checks (username, email shape, password composition), the order of the
 * registration, login and change-password checks, and the user table they
 * update.
 *
 * Java semantics that matter here and are modelled explicitly:
 *  - `String.trim()` strips every leading and trailing character at or below
 *    U+0020, so `trim().isEmpty()` holds exactly for strings of such characters;
 *  - `String.matches` must match the whole string, and the regular-expression
 *    `.` matches any character except the five line terminators.
 * BCrypt is not interpreted: `hashpw` and `checkpw` are parameters, and the
 * salt from `gensalt` is a parameter too.
 */
module Auth {
  import opened Common

  const MinUsernameLength: int := 3
  const MaxUsernameLength: int := 50
  const MinPasswordLength: int := 8

  /** A value of the user-type enumeration (its constants are not part of this model). */
  datatype UserType = UserType(name: string)

  /** One row of the `users` table. */
  datatype User = User(
    id: int,
    username: string,
    email: string,
    passwordHash: string,
    userType: Option<UserType>,
    createdAt: Timestamp,
    updatedAt: Timestamp)

  /** The fields of a registration request the service reads; any may be `null`. */
  datatype CreateUserRequest = CreateUserRequest(
    username: Option<string>, email: Option<string>, password: Option<string>)

  datatype LoginRequest = LoginRequest(username: Option<string>, password: Option<string>)

  /** The fields of a password-change request; the new password may be `null`. */
  datatype ChangePasswordRequest = ChangePasswordRequest(currentPassword: string, newPassword: Option<string>)

  /** A `ValidationException`: the offending field, when one is named, and the rule's message. */
  datatype Violation = Violation(field: Option<string>, message: string)

  /** The exceptions the service raises. */
  datatype AuthError =
    | Invalid(violation: Violation)              // ValidationException
    | DuplicateUsername                          // DuplicateResourceException on username
    | DuplicateEmail                             // DuplicateResourceException on email
    | AuthenticationFailed(message: Option<string>)  // AuthenticationException
    | UserNotFound                               // ResourceNotFoundException

  /** The user table: rows in store order and the next identity value. */
  datatype UserTable = UserTable(rows: seq<User>, nextId: int)

  datatype UserStep<T> = UserStep(outcome: Result<T, AuthError>, table: UserTable)

  // ---------------------------------------------------------------------------
  // Characters and strings as Java sees them

  /** The characters the regular-expression `.` does not match. */
  predicate IsLineTerminator(c: char) {
    c == '\n' || c == '\r' || c == '\U{85}' || c == '\U{2028}' || c == '\U{2029}'
  }

  predicate NoLineTerminator(s: string) {
    forall i :: 0 <= i < |s| ==> !IsLineTerminator(s[i])
  }

  /** What `trim()` leaves empty: every character is at or below U+0020. */
  predicate IsBlank(s: string) {
    forall i :: 0 <= i < |s| ==> s[i] <= ' '
  }

  /** Drops the leading characters at or below U+0020. */
  function TrimStart(s: string): (r: string)
    ensures |r| <= |s| && r == s[|s| - |r|..]
    ensures r == [] <==> IsBlank(s)
    ensures r != [] ==> r[0] > ' '
  {
    if s != [] && s[0] <= ' ' then TrimStart(s[1..]) else s
  }

  /** Drops the trailing characters at or below U+0020. */
  function TrimEnd(s: string): (r: string)
    ensures |r| <= |s| && r == s[..|r|]
    ensures r == [] <==> IsBlank(s)
    ensures r != [] ==> r[|r| - 1] > ' '
  {
    if s != [] && s[|s| - 1] <= ' ' then TrimEnd(s[..|s| - 1]) else s
  }

  /** `String.trim()`: the result is empty exactly for blank strings, and starts and ends above U+0020 otherwise. */
  function Trim(s: string): (r: string)
    ensures r == [] <==> IsBlank(s)
    ensures r != [] ==> r[0] > ' ' && r[|r| - 1] > ' '
    ensures |r| <= |s|
  {
    TrimEnd(TrimStart(s))
  }

  /** The character classes `[A-Z]`, `[a-z]` and `\d` (ASCII digits only, without UNICODE_CHARACTER_CLASS). */
  datatype CharClass = Upper | Lower | Digit

  predicate InClass(c: char, k: CharClass) {
    match k
    case Upper => 'A' <= c <= 'Z'
    case Lower => 'a' <= c <= 'z'
    case Digit => '0' <= c <= '9'
  }

  /**
   * `s.matches(".*[X].*")`: a whole-string match, so every character must be
   * consumed by `.` or by the class; the string holds a character of the class
   * and no line terminator (a line terminator anywhere defeats the match).
   */
  function MatchesSomeOf(s: string, k: CharClass): (r: bool)
    ensures r <==> NoLineTerminator(s) && exists i :: 0 <= i < |s| && InClass(s[i], k)
  {
    if s == [] then false
    else if IsLineTerminator(s[0]) then false
    else if InClass(s[0], k) then NoLineTerminator(s[1..])
    else
      assert forall i :: 0 < i < |s| ==> s[i] == s[1..][i - 1];
      MatchesSomeOf(s[1..], k)
  }

  /** The local-part characters `[A-Za-z0-9+_.-]` of the email pattern. */
  predicate IsLocalChar(c: char) {
    InClass(c, Upper) || InClass(c, Lower) || InClass(c, Digit) || c == '+' || c == '_' || c == '.' || c == '-'
  }

  /** Length of the longest prefix made of local-part characters. */
  function LocalPartLength(s: string): (n: nat)
    ensures n <= |s|
    ensures forall i :: 0 <= i < n ==> IsLocalChar(s[i])
    ensures n < |s| ==> !IsLocalChar(s[n])
  {
    if s != [] && IsLocalChar(s[0]) then 1 + LocalPartLength(s[1..]) else 0
  }

  /**
   * `email.matches("^[A-Za-z0-9+_.-]+@(.+)$")`: a non-empty local part over
   * the local-part characters, then '@', then at least one character, none of
   * them a line terminator.
   */
  function MatchesEmailPattern(s: string): (r: bool)
    ensures r <==> exists k :: 0 < k < |s| - 1 && s[k] == '@'
                              && (forall i :: 0 <= i < k ==> IsLocalChar(s[i]))
                              && NoLineTerminator(s[k + 1..])
  {
    var n := LocalPartLength(s);
    var r := 0 < n < |s| - 1 && s[n] == '@' && NoLineTerminator(s[n + 1..]);
    if r then r
    else
      assert forall k :: 0 < k < |s| - 1 && s[k] == '@' && (forall i :: 0 <= i < k ==> IsLocalChar(s[i])) ==> k == n by {
        forall k | 0 < k < |s| - 1 && s[k] == '@' && (forall i :: 0 <= i < k ==> IsLocalChar(s[i]))
          ensures k == n
        {
          assert !IsLocalChar(s[k]);
        }
      }
      r
  }

  /** A string that matches the email pattern is never blank, so the blank check only picks the message. */
  lemma EmailPatternIsNotBlank(s: string)
    requires MatchesEmailPattern(s)
    ensures !IsBlank(s)
  {
    assert IsLocalChar(s[0]);
  }

  // ---------------------------------------------------------------------------
  // Validation

  /**
   * `validatePassword`: the first rule broken, in the order non-empty, at least
   * 8 characters, an uppercase letter, a lowercase letter, a digit.
   */
  function ValidatePassword(password: Option<string>): (v: Option<Violation>)
    ensures v.None? <==>
      && password.Some? && |password.value| >= MinPasswordLength
      && NoLineTerminator(password.value)
      && (exists i :: 0 <= i < |password.value| && InClass(password.value[i], Upper))
      && (exists i :: 0 <= i < |password.value| && InClass(password.value[i], Lower))
      && (exists i :: 0 <= i < |password.value| && InClass(password.value[i], Digit))
    ensures v.Some? ==> v.value.field == Some("password")
    ensures v == Some(Violation(Some("password"), "must not be empty")) <==>
      password.None? || password.value == []
    ensures v == Some(Violation(Some("password"), "must be at least 8 characters long")) <==>
      password.Some? && 0 < |password.value| < MinPasswordLength
    ensures v == Some(Violation(Some("password"), "must contain at least one uppercase letter")) <==>
      password.Some? && |password.value| >= MinPasswordLength
      && !MatchesSomeOf(password.value, Upper)
    ensures v == Some(Violation(Some("password"), "must contain at least one lowercase letter")) <==>
      password.Some? && |password.value| >= MinPasswordLength
      && MatchesSomeOf(password.value, Upper) && !MatchesSomeOf(password.value, Lower)
    ensures v == Some(Violation(Some("password"), "must contain at least one digit")) <==>
      password.Some? && |password.value| >= MinPasswordLength
      && MatchesSomeOf(password.value, Upper) && MatchesSomeOf(password.value, Lower)
      && !MatchesSomeOf(password.value, Digit)
  {
    if password.None? || |password.value| == 0 then Some(Violation(Some("password"), "must not be empty"))
    else if |password.value| < MinPasswordLength then Some(Violation(Some("password"), "must be at least 8 characters long"))
    else if !MatchesSomeOf(password.value, Upper) then Some(Violation(Some("password"), "must contain at least one uppercase letter"))
    else if !MatchesSomeOf(password.value, Lower) then Some(Violation(Some("password"), "must contain at least one lowercase letter"))
    else if !MatchesSomeOf(password.value, Digit) then Some(Violation(Some("password"), "must contain at least one digit"))
    else None
  }

  /** The username rules: not blank after trimming, and 3 to 50 characters before trimming. */
  predicate UsernameAcceptable(username: Option<string>) {
    username.Some? && !IsBlank(username.value)
    && MinUsernameLength <= |username.value| <= MaxUsernameLength
  }

  /**
   * `validateCreateUserRequest`: the first violation, checking in order the
   * request itself, the username, the email and then the password.
   */
  function ValidateCreateUserRequest(req: Option<CreateUserRequest>): (v: Option<Violation>)
    ensures v.None? <==>
      && req.Some? && UsernameAcceptable(req.value.username)
      && req.value.email.Some? && MatchesEmailPattern(req.value.email.value)
      && ValidatePassword(req.value.password).None?
    ensures req.Some? && !UsernameAcceptable(req.value.username) ==>
      v.Some? && v.value.field == Some("username")
    ensures req.Some? && UsernameAcceptable(req.value.username) && !(req.value.email.Some? && MatchesEmailPattern(req.value.email.value)) ==>
      v.Some? && v.value.field == Some("email")
    ensures req.Some? && UsernameAcceptable(req.value.username)
            && req.value.email.Some? && MatchesEmailPattern(req.value.email.value) ==>
      v == ValidatePassword(req.value.password)
    ensures v == Some(Violation(None, "User data cannot be null")) <==> req.None?
    ensures v == Some(Violation(Some("username"), "must not be empty")) <==>
      req.Some? && (req.value.username.None? || IsBlank(req.value.username.value))
    ensures v == Some(Violation(Some("username"), "must be between 3 and 50 characters")) <==>
      && req.Some? && req.value.username.Some? && !IsBlank(req.value.username.value)
      && !(MinUsernameLength <= |req.value.username.value| <= MaxUsernameLength)
    ensures v == Some(Violation(Some("email"), "must not be empty")) <==>
      && req.Some? && UsernameAcceptable(req.value.username)
      && (req.value.email.None? || IsBlank(req.value.email.value))
    ensures v == Some(Violation(Some("email"), "must be a valid email address")) <==>
      && req.Some? && UsernameAcceptable(req.value.username)
      && req.value.email.Some? && !IsBlank(req.value.email.value)
      && !MatchesEmailPattern(req.value.email.value)
  {
    if req.None? then Some(Violation(None, "User data cannot be null"))
    else
      var r := req.value;
      if r.username.None? || |Trim(r.username.value)| == 0 then
        Some(Violation(Some("username"), "must not be empty"))
      else if |r.username.value| < MinUsernameLength || |r.username.value| > MaxUsernameLength then
        Some(Violation(Some("username"), "must be between 3 and 50 characters"))
      else if r.email.None? || |Trim(r.email.value)| == 0 then
        Some(Violation(Some("email"), "must not be empty"))
      else if !MatchesEmailPattern(r.email.value) then
        Some(Violation(Some("email"), "must be a valid email address"))
      else
        assert !IsBlank(r.email.value);
        ValidatePassword(r.password)
  }

  // ---------------------------------------------------------------------------
  // The user table

  /** Ids, usernames and emails are each unique, and every id was issued by the counter. */
  predicate ValidUsers(t: UserTable) {
    && (forall i, j :: 0 <= i < |t.rows| && 0 <= j < |t.rows| && i != j ==>
          t.rows[i].id != t.rows[j].id
          && t.rows[i].username != t.rows[j].username
          && t.rows[i].email != t.rows[j].email)
    && (forall i :: 0 <= i < |t.rows| ==> t.rows[i].id < t.nextId)
  }

  /** `existsByUsername`, also the query `isUsernameTaken`. */
  predicate UsernameTaken(rows: seq<User>, username: string) {
    exists i :: 0 <= i < |rows| && rows[i].username == username
  }

  /** `existsByEmail`, also the query `isEmailTaken`. */
  predicate EmailTaken(rows: seq<User>, email: string) {
    exists i :: 0 <= i < |rows| && rows[i].email == email
  }

  /** `findByUsername`: the first row with this username. */
  function FindByUsername(rows: seq<User>, username: string): (r: Option<User>)
    ensures r.Some? ==> r.value in rows && r.value.username == username
    ensures r.None? <==> !UsernameTaken(rows, username)
  {
    if rows == [] then None
    else if rows[0].username == username then Some(rows[0])
    else
      assert forall i :: 0 < i < |rows| ==> rows[i] == rows[1..][i - 1];
      FindByUsername(rows[1..], username)
  }

  /** `findById`: the position of the first row with this id. */
  function IndexOfUser(rows: seq<User>, id: int): (r: Option<nat>)
    ensures r.Some? ==> r.value < |rows| && rows[r.value].id == id
    ensures r.None? ==> forall i :: 0 <= i < |rows| ==> rows[i].id != id
  {
    if rows == [] then None
    else if rows[0].id == id then Some(0)
    else match IndexOfUser(rows[1..], id)
      case Some(i) => Some(i + 1)
      case None => None
  }

  /** A user with a fresh username, a fresh email and the next id can be appended to a valid table. */
  lemma AppendingNewUserKeepsTableValid(t: UserTable, u: User)
    requires !UsernameTaken(t.rows, u.username) && !EmailTaken(t.rows, u.email) && u.id == t.nextId
    ensures ValidUsers(t) ==> ValidUsers(UserTable(t.rows + [u], t.nextId + 1))
  {
    var rows' := t.rows + [u];
    if ValidUsers(t) {
      forall i, j | 0 <= i < |rows'| && 0 <= j < |rows'| && i != j
        ensures rows'[i].id != rows'[j].id && rows'[i].username != rows'[j].username && rows'[i].email != rows'[j].email
      {
        if i == |t.rows| {
          assert rows'[j] == t.rows[j];
        } else if j == |t.rows| {
          assert rows'[i] == t.rows[i];
        } else {
          assert rows'[i] == t.rows[i] && rows'[j] == t.rows[j];
        }
      }
    }
  }

  // ---------------------------------------------------------------------------
  // Operations, as functions of the table

  /**
   * Both `registerUser` overloads: validation, then the duplicate-username
   * check, then the duplicate-email check; the table is unchanged on any failure.
   * A new user stores the hash of the password and both timestamps.
   */
  function RegisterStep(t: UserTable, req: Option<CreateUserRequest>, userType: Option<UserType>,
                        hashpw: (string, string) -> string, salt: string, now: Timestamp): (r: UserStep<User>)
    ensures ValidateCreateUserRequest(req).Some? ==>
      r == UserStep(Failure(Invalid(ValidateCreateUserRequest(req).value)), t)
    ensures ValidateCreateUserRequest(req).None? && UsernameTaken(t.rows, req.value.username.value) ==>
      r == UserStep(Failure(DuplicateUsername), t)
    ensures ValidateCreateUserRequest(req).None? && !UsernameTaken(t.rows, req.value.username.value)
            && EmailTaken(t.rows, req.value.email.value) ==>
      r == UserStep(Failure(DuplicateEmail), t)
    ensures r.outcome.Failure? ==> r.table == t
    ensures r.outcome.Success? ==>
      var u := r.outcome.value;
      && ValidateCreateUserRequest(req).None?
      && r.table == UserTable(t.rows + [u], t.nextId + 1)
      && u == User(t.nextId, req.value.username.value, req.value.email.value,
                   hashpw(req.value.password.value, salt), userType, now, now)
    ensures ValidUsers(t) ==> ValidUsers(r.table)
  {
    match ValidateCreateUserRequest(req)
    case Some(violation) => UserStep(Failure(Invalid(violation)), t)
    case None =>
      var request := req.value;
      if UsernameTaken(t.rows, request.username.value) then UserStep(Failure(DuplicateUsername), t)
      else if EmailTaken(t.rows, request.email.value) then UserStep(Failure(DuplicateEmail), t)
      else
        var user := User(t.nextId, request.username.value, request.email.value,
                         hashpw(request.password.value, salt), userType, now, now);
        AppendingNewUserKeepsTableValid(t, user);
        UserStep(Success(user), UserTable(t.rows + [user], t.nextId + 1))
  }

  /**
   * `login`: a blank username or an empty password is a validation error; an
   * unknown username and a wrong password raise the same authentication error.
   */
  function Login(rows: seq<User>, req: LoginRequest, checkpw: (string, string) -> bool): (r: Result<User, AuthError>)
    ensures req.username.None? || IsBlank(req.username.value) ==>
      r == Failure(Invalid(Violation(None, "Username cannot be empty")))
    ensures req.username.Some? && !IsBlank(req.username.value) && (req.password.None? || req.password.value == []) ==>
      r == Failure(Invalid(Violation(None, "Password cannot be empty")))
    ensures r.Success? <==>
      && req.username.Some? && !IsBlank(req.username.value)
      && req.password.Some? && req.password.value != []
      && UsernameTaken(rows, req.username.value)
      && checkpw(req.password.value, FindByUsername(rows, req.username.value).value.passwordHash)
    ensures r.Success? ==> r.value in rows && r.value.username == req.username.value
    ensures r.Failure? && !r.error.Invalid? ==> r.error == AuthenticationFailed(None)
  {
    if req.username.None? || |Trim(req.username.value)| == 0 then
      Failure(Invalid(Violation(None, "Username cannot be empty")))
    else if req.password.None? || |req.password.value| == 0 then
      Failure(Invalid(Violation(None, "Password cannot be empty")))
    else
      match FindByUsername(rows, req.username.value)
      case None => Failure(AuthenticationFailed(None))
      case Some(user) =>
        if !checkpw(req.password.value, user.passwordHash) then Failure(AuthenticationFailed(None))
        else Success(user)
  }

  /** Looking up a username that only the appended user carries finds that user. */
  lemma {:induction false} FindAppendedUsername(rows: seq<User>, u: User)
    requires !UsernameTaken(rows, u.username)
    ensures FindByUsername(rows + [u], u.username) == Some(u)
    decreases |rows|
  {
    if rows == [] {
      assert rows + [u] == [u];
    } else {
      assert (rows + [u])[0] == rows[0];
      assert (rows + [u])[1..] == rows[1..] + [u];
      forall i | 0 <= i < |rows[1..]|
        ensures rows[1..][i].username != u.username
      {
        assert rows[1..][i] == rows[i + 1];
      }
      FindAppendedUsername(rows[1..], u);
    }
  }

  /**
   * A user who has just registered can log in with the same username and
   * password, provided the password checks against its own hash.
   */
  lemma RegisteredUserCanLogIn(t: UserTable, req: CreateUserRequest, userType: Option<UserType>,
                               hashpw: (string, string) -> string, salt: string, now: Timestamp,
                               checkpw: (string, string) -> bool)
    requires RegisterStep(t, Some(req), userType, hashpw, salt, now).outcome.Success?
    requires checkpw(req.password.value, hashpw(req.password.value, salt))
    ensures var s := RegisterStep(t, Some(req), userType, hashpw, salt, now);
      Login(s.table.rows, LoginRequest(req.username, req.password), checkpw) == Success(s.outcome.value)
  {
    var s := RegisterStep(t, Some(req), userType, hashpw, salt, now);
    FindAppendedUsername(t.rows, s.outcome.value);
  }

  /**
   * `changePassword`: an unknown user fails first; the current password is
   * checked before the new one is validated; success changes only the user's
   * password hash and `updatedAt`.
   */
  function ChangePasswordStep(t: UserTable, userId: int, req: ChangePasswordRequest,
                              checkpw: (string, string) -> bool, hashpw: (string, string) -> string,
                              salt: string, now: Timestamp): (r: UserStep<()>)
    ensures IndexOfUser(t.rows, userId).None? ==> r == UserStep(Failure(UserNotFound), t)
    ensures IndexOfUser(t.rows, userId).Some?
            && !checkpw(req.currentPassword, t.rows[IndexOfUser(t.rows, userId).value].passwordHash) ==>
      r == UserStep(Failure(AuthenticationFailed(Some("Current password is incorrect"))), t)
    ensures r.outcome.Failure? ==> r.table == t
    ensures r.outcome.Success? <==>
      && IndexOfUser(t.rows, userId).Some?
      && checkpw(req.currentPassword, t.rows[IndexOfUser(t.rows, userId).value].passwordHash)
      && ValidatePassword(req.newPassword).None?
    ensures IndexOfUser(t.rows, userId).Some?
            && checkpw(req.currentPassword, t.rows[IndexOfUser(t.rows, userId).value].passwordHash)
            && ValidatePassword(req.newPassword).Some? ==>
      r == UserStep(Failure(Invalid(ValidatePassword(req.newPassword).value)), t)
    ensures r.outcome.Success? ==>
      var i := IndexOfUser(t.rows, userId).value;
      r.table == UserTable(t.rows[i := t.rows[i].(passwordHash := hashpw(req.newPassword.value, salt), updatedAt := now)], t.nextId)
    ensures ValidUsers(t) ==> ValidUsers(r.table)
  {
    match IndexOfUser(t.rows, userId)
    case None => UserStep(Failure(UserNotFound), t)
    case Some(i) =>
      var user := t.rows[i];
      if !checkpw(req.currentPassword, user.passwordHash) then
        UserStep(Failure(AuthenticationFailed(Some("Current password is incorrect"))), t)
      else
        match ValidatePassword(req.newPassword)
        case Some(violation) => UserStep(Failure(Invalid(violation)), t)
        case None =>
          var user' := user.(passwordHash := hashpw(req.newPassword.value, salt), updatedAt := now);
          UserStep(Success(()), UserTable(t.rows[i := user'], t.nextId))
  }

  // ---------------------------------------------------------------------------
  // The service, updating its table in place

  class AuthService {
    var rows: seq<User>
    var nextId: int

    ghost predicate Valid()
      reads this
    {
      ValidUsers(UserTable(rows, nextId))
    }

    constructor ()
      ensures Valid() && rows == [] && nextId == 1
    {
      rows := [];
      nextId := 1;
    }

    /** `registerUser(request)`: the mapper picks the user type, which this model does not record. */
    method RegisterUser(req: Option<CreateUserRequest>, hashpw: (string, string) -> string, salt: string, now: Timestamp)
      returns (res: Result<User, AuthError>)
      requires Valid()
      modifies this
      ensures Valid()
      ensures UserStep(res, UserTable(rows, nextId)) == RegisterStep(UserTable(old(rows), old(nextId)), req, None, hashpw, salt, now)
    {
      res := Register(req, None, hashpw, salt, now);
    }

    /** `registerUser(request, userType)`. */
    method RegisterUserWithType(req: Option<CreateUserRequest>, userType: UserType,
                                hashpw: (string, string) -> string, salt: string, now: Timestamp)
      returns (res: Result<User, AuthError>)
      requires Valid()
      modifies this
      ensures Valid()
      ensures UserStep(res, UserTable(rows, nextId)) == RegisterStep(UserTable(old(rows), old(nextId)), req, Some(userType), hashpw, salt, now)
    {
      res := Register(req, Some(userType), hashpw, salt, now);
    }

    /** The body both overloads share. */
    method Register(req: Option<CreateUserRequest>, userType: Option<UserType>,
                    hashpw: (string, string) -> string, salt: string, now: Timestamp)
      returns (res: Result<User, AuthError>)
      requires Valid()
      modifies this
      ensures Valid()
      ensures UserStep(res, UserTable(rows, nextId)) == RegisterStep(UserTable(old(rows), old(nextId)), req, userType, hashpw, salt, now)
    {
      var violation := ValidateCreateUserRequest(req);
      if violation.Some? {
        return Failure(Invalid(violation.value));
      }
      var request := req.value;
      if UsernameTaken(rows, request.username.value) {
        return Failure(DuplicateUsername);
      }
      if EmailTaken(rows, request.email.value) {
        return Failure(DuplicateEmail);
      }
      var user := User(nextId, request.username.value, request.email.value, "", userType, 0, 0);
      user := user.(passwordHash := hashpw(request.password.value, salt));
      user := user.(createdAt := now);
      user := user.(updatedAt := now);
      AppendingNewUserKeepsTableValid(UserTable(rows, nextId), user);
      rows := rows + [user];
      nextId := nextId + 1;
      res := Success(user);
    }

    method ChangePassword(userId: int, req: ChangePasswordRequest,
                          checkpw: (string, string) -> bool, hashpw: (string, string) -> string,
                          salt: string, now: Timestamp)
      returns (res: Result<(), AuthError>)
      requires Valid()
      modifies this
      ensures Valid()
      ensures UserStep(res, UserTable(rows, nextId))
           == ChangePasswordStep(UserTable(old(rows), old(nextId)), userId, req, checkpw, hashpw, salt, now)
    {
      var found := IndexOfUser(rows, userId);
      if found.None? {
        return Failure(UserNotFound);
      }
      var i := found.value;
      var user := rows[i];
      if !checkpw(req.currentPassword, user.passwordHash) {
        return Failure(AuthenticationFailed(Some("Current password is incorrect")));
      }
      var violation := ValidatePassword(req.newPassword);
      if violation.Some? {
        return Failure(Invalid(violation.value));
      }
      user := user.(passwordHash := hashpw(req.newPassword.value, salt));
      user := user.(updatedAt := now);
      rows := rows[i := user];
      res := Success(());
    }
  }
}

/**
 * The account handlers of `authController`: user and administrator login,
 * logout, the partial profile update and the password change. Password
 * checking (`bcrypt.compare`), hashing (`bcrypt.hash`) and token signing
 * (`jwt.sign`) are parameters: the model decides what is compared, hashed and
 * signed, never how.
 */
module AuthController {
  import opened Wrappers
  import opened Strings
  import opened Tables
  import opened Database
  import opened Profiles

  /** `{ email, password }` of the request body; an absent field is "". */
  datatype Credentials = Credentials(email: string, password: string)

  datatype LoginError =
    | CredentialsRequired   // 400 请提供邮箱和密码
    | InvalidCredentials    // 401 用户名或密码错误

  function LoginStatus(e: LoginError): nat {
    match e
    case CredentialsRequired => 400
    case InvalidCredentials => 401
  }

  /** The `user` object of a login response: `{ id, email, username, type }`. */
  datatype UserSummary = UserSummary(id: int, email: string, username: string, role: Role)

  datatype Grant = Grant(token: string, user: UserSummary)

  /** `expiresIn: '24h'` */
  const TokenLifetimeHours: nat := 24

  /** `jwt.sign(claims, secret, { expiresIn })`, with the secret fixed. */
  type Signer = (Claims, nat) -> string

  function ClaimsOf(u: User): Claims {
    Claims(u.id, u.email, u.role)
  }

  function LoginSummary(u: User): UserSummary {
    UserSummary(u.id, u.email, u.username, u.role)
  }

  /**
   * The guard chain of `userLogin` (role `Customer`) and `adminLogin` (role
   * `Administrator`): both fields required, then the first row with that email
   * and role, then the password check.
   */
  function LoginDecision(rows: seq<User>, role: Role, cred: Credentials,
                         compare: (string, string) -> bool, sign: Signer): (r: Result<Grant, LoginError>)
    ensures r == Err(CredentialsRequired) <==> !Truthy(cred.email) || !Truthy(cred.password)
    ensures r.Ok? <==>
      && Truthy(cred.email) && Truthy(cred.password)
      && FindLogin(rows, cred.email, role).Some?
      && compare(cred.password, rows[FindLogin(rows, cred.email, role).value].passwordHash)
    ensures r.Ok? ==>
      var u := rows[FindLogin(rows, cred.email, role).value];
      && u.email == cred.email && u.role == role
      && r.value.token == sign(Claims(u.id, u.email, role), TokenLifetimeHours)
      && r.value.user == UserSummary(u.id, cred.email, u.username, role)
    ensures r.Err? ==> LoginStatus(r.error) == (if !Truthy(cred.email) || !Truthy(cred.password) then 400 else 401)
  {
    if !Truthy(cred.email) || !Truthy(cred.password) then Err(CredentialsRequired)
    else match FindLogin(rows, cred.email, role)
      case None => Err(InvalidCredentials)
      case Some(k) =>
        if !compare(cred.password, rows[k].passwordHash) then Err(InvalidCredentials)
        else Ok(Grant(sign(ClaimsOf(rows[k]), TokenLifetimeHours), LoginSummary(rows[k])))
  }

  /**
   * An unknown email and a wrong password give the same answer: once both
   * fields are present, every failure is `InvalidCredentials`.
   */
  lemma LoginFailureUniform(rows: seq<User>, role: Role, cred: Credentials,
                            compare: (string, string) -> bool, sign: Signer)
    requires Truthy(cred.email) && Truthy(cred.password)
    requires FindLogin(rows, cred.email, role).None? ||
             !compare(cred.password, rows[FindLogin(rows, cred.email, role).value].passwordHash)
    ensures LoginDecision(rows, role, cred, compare, sign) == Err(InvalidCredentials)
  {
  }

  /** A password never leaves the server: the summary carries no field derived from the hash. */
  lemma SummaryHidesPassword(u: User, hash: string)
    ensures LoginSummary(u.(passwordHash := hash)) == LoginSummary(u)
    ensures ClaimsOf(u.(passwordHash := hash)) == ClaimsOf(u)
  {
  }

  /**
   * Login and its `UPDATE users SET last_login = NOW() WHERE id = ?`: on success
   * the matched account, and every row sharing its id, is stamped with the
   * clock; on failure the table is untouched.
   */
  method Login(db: Db, role: Role, cred: Credentials,
               compare: (string, string) -> bool, sign: Signer) returns (r: Result<Grant, LoginError>)
    modifies db`users
    ensures r == LoginDecision(old(db.users), role, cred, compare, sign)
    ensures r.Err? ==> db.users == old(db.users)
    ensures r.Ok? ==> |db.users| == |old(db.users)|
    ensures r.Ok? ==> forall i :: 0 <= i < |db.users| ==>
      db.users[i] == if old(db.users)[i].id == r.value.user.id
                     then old(db.users)[i].(lastLogin := Some(db.clock))
                     else old(db.users)[i]
  {
    r := LoginDecision(db.users, role, cred, compare, sign);
    if r.Ok? {
      db.users := UpdateWhereId(db.users, r.value.user.id, StampLastLogin(db.clock));
    }
  }

  /** `userLogin`: only accounts of type `user` can log in here. */
  method UserLogin(db: Db, cred: Credentials,
                   compare: (string, string) -> bool, sign: Signer) returns (r: Result<Grant, LoginError>)
    modifies db`users
    ensures r == LoginDecision(old(db.users), Customer, cred, compare, sign)
    ensures r.Ok? ==> r.value.user.role == Customer
    ensures r.Err? ==> db.users == old(db.users)
    ensures r.Ok? ==> db.users == UpdateWhereId(old(db.users), r.value.user.id, StampLastLogin(db.clock))
  {
    r := Login(db, Customer, cred, compare, sign);
  }

  /** `adminLogin`: only accounts of type `admin` can log in here. */
  method AdminLogin(db: Db, cred: Credentials,
                    compare: (string, string) -> bool, sign: Signer) returns (r: Result<Grant, LoginError>)
    modifies db`users
    ensures r == LoginDecision(old(db.users), Administrator, cred, compare, sign)
    ensures r.Ok? ==> r.value.user.role == Administrator
    ensures r.Err? ==> db.users == old(db.users)
    ensures r.Ok? ==> db.users == UpdateWhereId(old(db.users), r.value.user.id, StampLastLogin(db.clock))
  {
    r := Login(db, Administrator, cred, compare, sign);
  }

  /** `logout`: stamps `last_login` when the request carries a truthy user id, and always answers success. */
  method Logout(db: Db, user: Option<Claims>)
    modifies db`users
    ensures user.Some? && user.value.id != 0 ==>
      db.users == UpdateWhereId(old(db.users), user.value.id, StampLastLogin(db.clock))
    ensures user.None? || user.value.id == 0 ==> db.users == old(db.users)
  {
    if user.Some? && user.value.id != 0 {
      db.users := UpdateWhereId(db.users, user.value.id, StampLastLogin(db.clock));
    }
  }

  // ---- profile update ----

  /**
   * `updateUserInfo`: the shared profile patch, then `id, username, email,
   * phone` of the caller's row read back (`users[0]`, absent when the caller
   * has no row).
   */
  method UpdateUserInfo(db: Db, userId: int, body: ProfileFields) returns (r: Result<Option<ProfileSummary>, ProfileError>)
    modifies db`users
    ensures r.Err? <==> PresentColumns(body) == []
    ensures r.Err? ==> db.users == old(db.users)
    ensures r.Ok? ==> |db.users| == |old(db.users)|
    ensures r.Ok? ==> forall i :: 0 <= i < |db.users| ==>
      db.users[i] == if old(db.users)[i].id == userId then Patched(old(db.users)[i], body) else old(db.users)[i]
    ensures r.Ok? ==> r.value == match FindUser(old(db.users), userId)
      case None => None
      case Some(u) => Some(SummaryOf(Patched(u, body)))
  {
    var patched := PatchProfile(db, userId, body);
    if patched.Fail? {
      return Err(patched.error);
    }
    match FindUser(db.users, userId)
    case None => r := Ok(None);
    case Some(u) => r := Ok(Some(SummaryOf(u)));
  }

  // ---- password change ----

  datatype PasswordError =
    | PasswordsRequired   // 400 请提供原密码和新密码
    | UserNotFound        // 404 用户不存在
    | WrongOldPassword    // 401 原密码错误

  function PasswordStatus(e: PasswordError): nat {
    match e
    case PasswordsRequired => 400
    case UserNotFound => 404
    case WrongOldPassword => 401
  }

  /** The guard chain of `changePassword`, in its order: both passwords, the caller's row, the old password. */
  function PasswordDecision(rows: seq<User>, userId: int, oldPassword: string, newPassword: string,
                            compare: (string, string) -> bool): (r: Outcome<PasswordError>)
    ensures r == Fail(PasswordsRequired) <==> !Truthy(oldPassword) || !Truthy(newPassword)
    ensures r == Fail(UserNotFound) <==>
      Truthy(oldPassword) && Truthy(newPassword) && forall i :: 0 <= i < |rows| ==> rows[i].id != userId
    ensures r == Fail(WrongOldPassword) <==>
      Truthy(oldPassword) && Truthy(newPassword) && FindUser(rows, userId).Some? &&
      !compare(oldPassword, FindUser(rows, userId).value.passwordHash)
    ensures r.Pass? <==>
      Truthy(oldPassword) && Truthy(newPassword) && FindUser(rows, userId).Some? &&
      compare(oldPassword, FindUser(rows, userId).value.passwordHash)
    ensures r.Fail? ==>
      PasswordStatus(r.error) == (if !Truthy(oldPassword) || !Truthy(newPassword) then 400
                                  else if FindUser(rows, userId).None? then 404
                                  else 401)
  {
    if !Truthy(oldPassword) || !Truthy(newPassword) then Fail(PasswordsRequired)
    else match FindUser(rows, userId)
      case None => Fail(UserNotFound)
      case Some(u) =>
        if !compare(oldPassword, u.passwordHash) then Fail(WrongOldPassword) else Pass
  }

  /**
   * `changePassword`: on success the caller's hash becomes `hash(newPassword)`
   * and nothing else changes; on any failure the table is untouched.
   */
  method ChangePassword(db: Db, userId: int, oldPassword: string, newPassword: string,
                        compare: (string, string) -> bool, hash: string -> string) returns (r: Outcome<PasswordError>)
    modifies db`users
    ensures r == PasswordDecision(old(db.users), userId, oldPassword, newPassword, compare)
    ensures r.Fail? ==> db.users == old(db.users)
    ensures r.Pass? ==> |db.users| == |old(db.users)|
    ensures r.Pass? ==> forall i :: 0 <= i < |db.users| ==>
      db.users[i] == if old(db.users)[i].id == userId
                     then old(db.users)[i].(passwordHash := hash(newPassword))
                     else old(db.users)[i]
  {
    r := PasswordDecision(db.users, userId, oldPassword, newPassword, compare);
    if r.Pass? {
      db.users := UpdateWhereId(db.users, userId, SetPasswordHash(hash(newPassword)));
    }
  }

  /**
   * With a `compare` that accepts exactly the password a hash was made from,
   * and emails unique as the `users` table declares them, after a password
   * change the account logs in with the new password and no longer with the
   * old one.
   */
  lemma ChangeThenLogin(rows: seq<User>, userId: int, role: Role, oldPassword: string, newPassword: string,
                        compare: (string, string) -> bool, hash: string -> string, sign: Signer)
    requires forall p, q :: compare(p, hash(q)) <==> p == q
    requires UniqueEmails(rows)
    requires PasswordDecision(rows, userId, oldPassword, newPassword, compare).Pass?
    requires oldPassword != newPassword
    requires FindUser(rows, userId).value.role == role
    requires Truthy(FindUser(rows, userId).value.email)
    ensures var after := UpdateWhereId(rows, userId, SetPasswordHash(hash(newPassword)));
      var email := FindUser(rows, userId).value.email;
      && LoginDecision(after, role, Credentials(email, newPassword), compare, sign).Ok?
      && !LoginDecision(after, role, Credentials(email, oldPassword), compare, sign).Ok?
  {
    var w := SetPasswordHash(hash(newPassword));
    var after := UpdateWhereId(rows, userId, w);
    var j := First(rows, IdIs(userId)).value;
    var u := rows[j];
    assert FindUser(rows, userId) == Some(u);
    FindLoginAfterWrite(rows, userId, w, u.email, role);
    var k := FindLogin(rows, u.email, role).value;
    assert k == j;
    assert after[k] == u.(passwordHash := hash(newPassword));
    assert compare(newPassword, after[k].passwordHash);
    assert !compare(oldPassword, after[k].passwordHash);
  }
}

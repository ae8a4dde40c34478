/**
 * The browser-side session store: three reactive fields (`token`, `userType`,
 * `userInfo`) mirrored by two `localStorage` keys. The answers of the login,
 * logout and user-info calls are parameters; the store only decides what to
 * keep from them.
 */
module SessionStore {
  import opened Wrappers
  import opened Strings

  /** A JSON object as the store keeps it: field name to text. */
  type Info = map<string, string>

  /** The `data` of a login answer; `user` is absent when the server left it out. */
  datatype LoginData = LoginData(token: string, user: Option<Info>)

  /** The login call either answers (with or without `data`) or throws. */
  datatype LoginReply = Answered(data: Option<LoginData>) | Rejected

  /** The user-info call answers (with or without `data`) or throws, with the HTTP status when there was a response. */
  datatype InfoReply = InfoAnswered(info: Option<Info>) | InfoFailed(status: Option<int>)

  /** `user.type`; a user object without that field gives the empty type. */
  function TypeOf(user: Info): string {
    if "type" in user then user["type"] else ""
  }

  class UserSession {
    var token: string
    var userType: string
    var userInfo: Info
    /** The `token` and `userType` keys of `localStorage`; `None` when removed. */
    var storedToken: Option<string>
    var storedUserType: Option<string>

    /** `!!token` */
    predicate IsLoggedIn()
      reads this
    {
      Truthy(token)
    }

    /** `userType === 'admin'` */
    predicate IsAdmin()
      reads this
    {
      userType == "admin"
    }

    /** The persisted keys hold what the fields hold (a removed key reads as empty). */
    predicate Synced()
      reads this
    {
      storedToken.GetOr("") == token && storedUserType.GetOr("") == userType
    }

    /** The store starts from what `localStorage` holds, `''` for a missing key, and an empty `userInfo`. */
    constructor (storedToken: Option<string>, storedUserType: Option<string>)
      ensures this.storedToken == storedToken && this.storedUserType == storedUserType
      ensures IsLoggedIn() <==> storedToken.Some? && storedToken.value != ""
      ensures IsAdmin() <==> storedUserType == Some("admin")
      ensures userInfo == map[]
      ensures Synced()
    {
      token := storedToken.GetOr("");
      userType := storedUserType.GetOr("");
      userInfo := map[];
      this.storedToken := storedToken;
      this.storedUserType := storedUserType;
    }

    /**
     * `login`: an answer with `data` and a user takes token, type and user and
     * persists the first two, returning true; no `data`, or a thrown call,
     * returns false with nothing changed. An answer whose `data` lacks `user`
     * has already stored the token when reading `user.type` throws, so it
     * returns false with only the token field changed.
     */
    method Login(reply: LoginReply) returns (ok: bool)
      modifies this
      ensures ok <==> reply.Answered? && reply.data.Some? && reply.data.value.user.Some?
      ensures ok ==> var d := reply.data.value;
        && token == d.token && userType == TypeOf(d.user.value) && userInfo == d.user.value
        && storedToken == Some(d.token) && storedUserType == Some(TypeOf(d.user.value))
        && Synced()
        && (IsAdmin() <==> TypeOf(d.user.value) == "admin")
      ensures (reply.Rejected? || reply.data.None?) ==>
        && token == old(token) && userType == old(userType) && userInfo == old(userInfo)
        && storedToken == old(storedToken) && storedUserType == old(storedUserType)
      ensures reply.Answered? && reply.data.Some? && reply.data.value.user.None? ==>
        && token == reply.data.value.token && userType == old(userType) && userInfo == old(userInfo)
        && storedToken == old(storedToken) && storedUserType == old(storedUserType)
    {
      if reply.Rejected? {
        return false;
      }
      match reply.data
      case None =>
        ok := false;
      case Some(d) =>
        token := d.token;
        match d.user
        case None =>
          ok := false;
        case Some(user) =>
          userType := TypeOf(user);
          userInfo := user;
          storedToken := Some(d.token);
          storedUserType := Some(TypeOf(user));
          ok := true;
    }

    /**
     * `logout`: calls the server only when a token is present, and whatever that
     * call does, ends with empty fields and both keys removed.
     */
    method Logout() returns (apiCalled: bool)
      modifies this
      ensures apiCalled <==> old(IsLoggedIn())
      ensures token == "" && userType == "" && userInfo == map[]
      ensures storedToken == None && storedUserType == None
      ensures !IsLoggedIn() && !IsAdmin() && Synced()
    {
      apiCalled := IsLoggedIn();
      token := "";
      userType := "";
      userInfo := map[];
      storedToken := None;
      storedUserType := None;
    }

    /**
     * `fetchUserInfo`: nothing without a token; otherwise `data` replaces
     * `userInfo`, and a failure with status 401 logs out.
     */
    method FetchUserInfo(reply: InfoReply) returns (apiCalled: bool)
      modifies this
      ensures apiCalled <==> old(IsLoggedIn())
      ensures !apiCalled || (reply.InfoAnswered? && reply.info.None?) || (reply.InfoFailed? && reply.status != Some(401)) ==>
        && token == old(token) && userType == old(userType) && userInfo == old(userInfo)
        && storedToken == old(storedToken) && storedUserType == old(storedUserType)
      ensures apiCalled && reply.InfoAnswered? && reply.info.Some? ==>
        && userInfo == reply.info.value
        && token == old(token) && userType == old(userType)
        && storedToken == old(storedToken) && storedUserType == old(storedUserType)
      ensures apiCalled && reply == InfoFailed(Some(401)) ==>
        && token == "" && userType == "" && userInfo == map[]
        && storedToken == None && storedUserType == None
      ensures old(Synced()) ==> Synced()
    {
      apiCalled := IsLoggedIn();
      if !apiCalled {
        return;
      }
      match reply
      case InfoAnswered(info) =>
        if info.Some? {
          userInfo := info.value;
        }
      case InfoFailed(status) =>
        if status == Some(401) {
          var _ := Logout();
        }
    }
  }
}

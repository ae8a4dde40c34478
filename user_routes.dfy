/**
 * The caller's own routes under `/users`, all behind the token gate: the
 * profile read and patch, the caller's orders and the caller's ten most recent
 * browsing-history entries. Each selects by `req.user.id` and nothing else.
 */
module UserRoutes {
  import opened Wrappers
  import opened Ordering
  import opened Tables
  import opened Database
  import opened Profiles
  import OrderController

  datatype UserError = UserNotFound   // 404 用户不存在

  /** `GET /users/profile`: the caller's row without its password hash, or 404. */
  function GetProfile(rows: seq<User>, userId: int): (r: Result<Profile, UserError>)
    ensures r.Err? <==> forall i :: 0 <= i < |rows| ==> rows[i].id != userId
    ensures r.Ok? ==> r.value.id == userId
    ensures r.Ok? ==> exists i :: 0 <= i < |rows| && rows[i].id == userId && r.value == ProfileOf(rows[i])
  {
    match FindUser(rows, userId)
    case None => Err(UserNotFound)
    case Some(u) => Ok(ProfileOf(u))
  }

  /**
   * `PUT /users/profile`: the shared profile patch, then the caller's row read
   * back with the columns of `GET /users/profile` (absent when the caller has no row).
   */
  method PutProfile(db: Db, userId: int, body: ProfileFields) returns (r: Result<Option<Profile>, ProfileError>)
    modifies db`users
    ensures r.Err? <==> PresentColumns(body) == []
    ensures r.Err? ==> db.users == old(db.users)
    ensures r.Ok? ==> |db.users| == |old(db.users)|
    ensures r.Ok? ==> forall i :: 0 <= i < |db.users| ==>
      db.users[i] == if old(db.users)[i].id == userId then Patched(old(db.users)[i], body) else old(db.users)[i]
    ensures r.Ok? ==> r.value == match FindUser(old(db.users), userId)
      case None => None
      case Some(u) => Some(ProfileOf(Patched(u, body)))
  {
    var patched := PatchProfile(db, userId, body);
    if patched.Fail? {
      return Err(patched.error);
    }
    match FindUser(db.users, userId)
    case None => r := Ok(None);
    case Some(u) => r := Ok(Some(ProfileOf(u)));
  }

  /** `GET /users/orders`: every order of the caller, each once, newest first, whatever its status. */
  method GetOrders(db: Db, userId: int) returns (rows: seq<Order>)
    requires db.Valid()
    ensures Descending(rows, CreatedAt)
    ensures multiset(rows) == multiset(OrderController.Selected(db.orders, userId, ""))
    ensures forall o :: o in rows <==> o in db.orders.Values && o.userId == userId
  {
    rows := OrderController.SelectNewestFirst(db.orders, userId, "");
    forall o | o in rows ensures o in db.orders.Values && o.userId == userId {
      assert o in multiset(rows);
      OrderController.ListedRowsAreOwned(db.orders, userId, "", o);
    }
    forall o | o in db.orders.Values && o.userId == userId ensures o in rows {
      var k :| k in db.orders && db.orders[k] == o;
      assert o in OrderController.Selected(db.orders, userId, "");
      assert o in multiset(rows);
    }
  }

  // ---- browsing history ----

  /** `LIMIT 10` */
  const HistoryLimit: nat := 10

  /** `WHERE h.user_id = ?`, in table order. */
  function Owned(visits: seq<Visit>, userId: int): (r: seq<Visit>)
    ensures |r| <= |visits|
    ensures forall v :: v in r <==> v in visits && v.userId == userId
    ensures forall v :: multiset(r)[v] == if v.userId == userId then multiset(visits)[v] else 0
    decreases |visits|
  {
    if visits == [] then []
    else
      var init := visits[..|visits| - 1];
      var last := visits[|visits| - 1];
      assert visits == init + [last];
      Owned(init, userId) + (if last.userId == userId then [last] else [])
  }

  /**
   * `GET /users/history`: `WHERE h.user_id = ? ORDER BY h.timestamp DESC LIMIT 10`.
   * At most ten entries, all the caller's, newest first, and no entry of the
   * caller left out is newer than one kept.
   */
  function History(visits: seq<Visit>, userId: int): (rows: seq<Visit>)
    ensures |rows| == Min(HistoryLimit, |Owned(visits, userId)|)
    ensures forall v :: v in rows ==> v in visits && v.userId == userId
    ensures Descending(rows, VisitedAt)
    ensures multiset(rows) <= multiset(Owned(visits, userId))
  {
    var sorted := SortDescending(Owned(visits, userId), VisitedAt);
    var n := Min(HistoryLimit, |sorted|);
    SortDescendingSorted(Owned(visits, userId), VisitedAt);
    TakeDescending(sorted, n, VisitedAt);
    assert forall v :: v in sorted ==> v in multiset(Owned(visits, userId));
    sorted[..n]
  }

  /** The entries `History` leaves out are never newer than any entry it keeps. */
  lemma HistoryKeepsNewest(visits: seq<Visit>, userId: int)
    ensures var sorted := SortDescending(Owned(visits, userId), VisitedAt);
      && History(visits, userId) == sorted[..|History(visits, userId)|]
      && forall i, j :: 0 <= i < |History(visits, userId)| <= j < |sorted| ==>
           sorted[j].timestamp <= History(visits, userId)[i].timestamp
  {
    SortDescendingSorted(Owned(visits, userId), VisitedAt);
  }
}

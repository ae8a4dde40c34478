/**
 * The order handlers of `orderController`: placing an order for an available
 * resource at a price frozen at creation, the caller's order list and detail,
 * and the two transitions out of `未支付` (unpaid), cancel and pay. Every read
 * is scoped by the caller's id, and each write follows a scoped read: an order
 * of another user answers exactly as a missing one.
 */
module OrderController {
  import opened Wrappers
  import opened Strings
  import opened Sql
  import opened Ordering
  import opened Tables
  import opened Database

  /** `{ resourceId, quantity, duration, remark }` of the request body; `None` is an absent field. */
  datatype OrderRequest = OrderRequest(
    resourceId: Option<int>,
    quantity: Option<int>,
    duration: Option<int>,
    remark: Option<string>)

  datatype OrderError =
    | ResourceIdRequired     // 400 资源ID不能为空
    | DurationInvalid        // 400 使用时长必须大于0
    | ResourceUnavailable    // 404 资源不存在或不可用
    | OrderNotFound          // 404 订单不存在
    | CancelRequiresUnpaid   // 400 只能取消未支付的订单
    | PayRequiresUnpaid      // 400 订单状态错误

  function ErrorStatus(e: OrderError): nat {
    match e
    case ResourceUnavailable => 404
    case OrderNotFound => 404
    case _ => 400
  }

  /** `duration` counts days, and the resource is priced by the hour. */
  const HoursPerDay := 24

  /** The request after its defaults are filled in. */
  datatype Terms = Terms(resourceId: int, quantity: int, duration: int, remark: string)

  /**
   * The guards of `createOrder` before any lookup: a falsy `resourceId`, then a
   * `duration` below one. The defaults `quantity = 1`, `duration = 1` and
   * `remark = ''` apply only to absent fields; `quantity` is not checked.
   */
  function Validate(req: OrderRequest): (r: Result<Terms, OrderError>)
    ensures r == Err(ResourceIdRequired) <==> req.resourceId.None? || req.resourceId.value == 0
    ensures r == Err(DurationInvalid) <==>
      req.resourceId.Some? && req.resourceId.value != 0 && req.duration.Some? && req.duration.value < 1
    ensures r.Ok? ==>
      && r.value.resourceId == req.resourceId.value
      && r.value.quantity == (if req.quantity.Some? then req.quantity.value else 1)
      && r.value.duration == (if req.duration.Some? then req.duration.value else 1)
      && r.value.remark == (if req.remark.Some? then req.remark.value else "")
      && r.value.duration >= 1
  {
    if req.resourceId.None? || req.resourceId.value == 0 then Err(ResourceIdRequired)
    else
      var duration := req.duration.GetOr(1);
      if duration == 0 || duration < 1 then Err(DurationInvalid)
      else Ok(Terms(req.resourceId.value, req.quantity.GetOr(1), duration, req.remark.GetOr("")))
  }

  /** `price * quantity * duration * 24` */
  function TotalPrice(price: int, quantity: int, duration: int): int {
    price * quantity * duration * HoursPerDay
  }

  /**
   * The row `createOrder` inserts under the next id at time `now`, or the
   * answer that stops it: the validation errors first, then an absent or
   * unavailable resource.
   */
  function PlanOrder(resources: seq<Resource>, userId: int, req: OrderRequest, id: int, now: nat): (r: Result<Order, OrderError>)
    ensures Validate(req).Err? ==> r == Err(Validate(req).error)
    ensures r == Err(ResourceUnavailable) <==>
      Validate(req).Ok? && FindAvailable(resources, Validate(req).value.resourceId).None?
    ensures r.Ok? ==>
      var t := Validate(req).value;
      var res := FindAvailable(resources, t.resourceId).value;
      && res.status == AvailableStatus
      && r.value == Order(id, userId, t.resourceId, t.quantity, t.duration,
                          TotalPrice(res.price, t.quantity, t.duration), Unpaid, t.remark, now, now)
  {
    match Validate(req)
    case Err(e) => Err(e)
    case Ok(t) =>
      match FindAvailable(resources, t.resourceId)
      case None => Err(ResourceUnavailable)
      case Some(res) =>
        Ok(Order(id, userId, t.resourceId, t.quantity, t.duration,
                 TotalPrice(res.price, t.quantity, t.duration), Unpaid, t.remark, now, now))
  }

  /**
   * `createOrder`: on success exactly one row is added, under a fresh id, and
   * the auto-increment counter moves past it; on any error the table is
   * untouched.
   */
  method CreateOrder(db: Db, userId: int, req: OrderRequest) returns (r: Result<Order, OrderError>)
    requires db.Valid()
    modifies db`orders, db`nextOrderId
    ensures db.Valid()
    ensures r == PlanOrder(db.resources, userId, req, old(db.nextOrderId), db.clock)
    ensures r.Err? ==> db.orders == old(db.orders) && db.nextOrderId == old(db.nextOrderId)
    ensures r.Ok? ==> r.value.id !in old(db.orders)
    ensures r.Ok? ==> db.orders == old(db.orders)[r.value.id := r.value]
    ensures r.Ok? ==> db.nextOrderId == old(db.nextOrderId) + 1
  {
    r := PlanOrder(db.resources, userId, req, db.nextOrderId, db.clock);
    if r.Ok? {
      db.orders := db.orders[db.nextOrderId := r.value];
      db.nextOrderId := db.nextOrderId + 1;
    }
  }

  // ---- reads scoped by owner ----

  /** `SELECT * FROM orders WHERE id = ? AND user_id = ?`, first row. */
  function FindOwned(orders: map<int, Order>, userId: int, orderId: int): (r: Result<Order, OrderError>)
    ensures r.Ok? <==> orderId in orders && orders[orderId].userId == userId
    ensures r.Ok? ==> r.value == orders[orderId]
    ensures r.Err? ==> r.error == OrderNotFound
  {
    if orderId in orders && orders[orderId].userId == userId then Ok(orders[orderId]) else Err(OrderNotFound)
  }

  /** `getOrderDetail`: an order of another user answers exactly as an order that does not exist. */
  lemma OrderDetailHidesOthers(orders: map<int, Order>, userId: int, orderId: int)
    requires orderId in orders && orders[orderId].userId != userId
    ensures FindOwned(orders, userId, orderId) == FindOwned(orders - {orderId}, userId, orderId)
    ensures ErrorStatus(FindOwned(orders, userId, orderId).error) == 404
  {
  }

  /** The rows `getUserOrders` lists: the caller's, and only those with the given status text when one is given. */
  predicate Listed(o: Order, userId: int, status: string) {
    o.userId == userId && (!Truthy(status) || StatusLabel(o.status) == status)
  }

  ghost function Selected(orders: map<int, Order>, userId: int, status: string): set<Order> {
    SelectedAmong(orders, orders.Keys, userId, status)
  }

  /** The listed orders among those stored under `keys`. */
  ghost function SelectedAmong(orders: map<int, Order>, keys: set<int>, userId: int, status: string): set<Order> {
    set k | k in keys && k in orders && Listed(orders[k], userId, status) :: orders[k]
  }

  /** Looking at one more stored order adds it to the selection, once, exactly when it is listed. */
  lemma SelectedAmongStep(orders: map<int, Order>, keys: set<int>, k: int, userId: int, status: string)
    requires forall j :: j in orders ==> orders[j].id == j
    requires k in orders && k !in keys
    ensures Listed(orders[k], userId, status) ==>
      && orders[k] !in SelectedAmong(orders, keys, userId, status)
      && multiset(SelectedAmong(orders, keys + {k}, userId, status)) ==
         multiset(SelectedAmong(orders, keys, userId, status)) + multiset{orders[k]}
    ensures !Listed(orders[k], userId, status) ==>
      SelectedAmong(orders, keys + {k}, userId, status) == SelectedAmong(orders, keys, userId, status)
  {
    var before := SelectedAmong(orders, keys, userId, status);
    if Listed(orders[k], userId, status) {
      assert SelectedAmong(orders, keys + {k}, userId, status) == before + {orders[k]};
    }
  }

  const SelectOrder := "SELECT o.*, r.name as resource_name,"
  const SelectResource := " r.cpu, r.memory, r.storage, r.price"
  const FromOrders := " FROM orders o LEFT JOIN resources r"
  const JoinOn := " ON o.resource_id = r.id"
  const WhereOwner := " WHERE o.user_id = "

  /** `SELECT o.*, <resource columns> FROM orders o LEFT JOIN resources r ON ... WHERE o.user_id = ?` */
  const ListHead: Query := [Lit(SelectOrder), Lit(SelectResource), Lit(FromOrders), Lit(JoinOn), Lit(WhereOwner), Hole]

  const AndStatus := " AND o.status = "
  const ByCreatedDesc := " ORDER BY o.created_at DESC"

  const StatusClause: Query := [Lit(AndStatus), Hole]

  const NewestFirst: Query := [Lit(ByCreatedDesc)]

  lemma SelectOrderClean() ensures '?' !in SelectOrder {}
  lemma SelectResourceClean() ensures '?' !in SelectResource {}
  lemma FromOrdersClean() ensures '?' !in FromOrders {}
  lemma JoinOnClean() ensures '?' !in JoinOn {}
  lemma WhereOwnerClean() ensures '?' !in WhereOwner {}
  lemma AndStatusClean() ensures '?' !in AndStatus {}
  lemma ByCreatedDescClean() ensures '?' !in ByCreatedDesc {}

  /** No fragment of the fixed head smuggles in a `?`. */
  lemma ListHeadLiterals()
    ensures WellFormed(ListHead)
  {
    SelectOrderClean();
    SelectResourceClean();
    FromOrdersClean();
    JoinOnClean();
    WhereOwnerClean();
  }

  /** The fixed head binds one placeholder, the caller's id. */
  lemma ListHeadHoles()
    ensures Holes(ListHead) == 1
  {
    var lits := ListHead[..5];
    HolesOfLiterals(lits);
    assert ListHead == lits + [Hole];
    HolesAppend(lits, [Hole]);
    assert [Hole][1..] == [];
  }

  lemma ListPiecesWellFormed()
    ensures WellFormed(ListHead) && Holes(ListHead) == 1
    ensures WellFormed(StatusClause) && Holes(StatusClause) == 1
    ensures WellFormed(NewestFirst) && Holes(NewestFirst) == 0
  {
    ListHeadLiterals();
    ListHeadHoles();
    StatusClauseWellFormed();
    NewestFirstWellFormed();
  }

  lemma StatusClauseWellFormed()
    ensures WellFormed(StatusClause) && Holes(StatusClause) == 1
  {
    AndStatusClean();
    assert StatusClause[1..] == [Hole];
    assert StatusClause[1..][1..] == [];
    assert Holes([Hole]) == 1;
  }

  lemma NewestFirstWellFormed()
    ensures WellFormed(NewestFirst) && Holes(NewestFirst) == 0
  {
    ByCreatedDescClean();
    assert NewestFirst[1..] == [];
  }

  /** A run of literal fragments holds no placeholder. */
  lemma {:induction false} HolesOfLiterals(q: Query)
    requires forall i :: 0 <= i < |q| ==> q[i].Lit?
    ensures Holes(q) == 0
  {
    if q != [] {
      HolesOfLiterals(q[1..]);
    }
  }

  /** The statement `getUserOrders` grows: the caller's id, then the status filter when one is given. */
  method ListStatement(userId: int, status: string) returns (statement: Statement)
    ensures statement.query ==
      ListHead + (if Truthy(status) then StatusClause else []) + NewestFirst
    ensures statement.params == [Num(userId)] + (if Truthy(status) then [Str(status)] else [])
    ensures WellFormed(statement.query) && Holes(statement.query) == |statement.params|
  {
    ListPiecesWellFormed();
    var sql := ListHead;
    var params := [Num(userId)];
    if Truthy(status) {
      AppendWellFormed(sql, StatusClause);
      sql := sql + StatusClause;
      params := params + [Str(status)];
    }
    AppendWellFormed(sql, NewestFirst);
    sql := sql + NewestFirst;
    statement := Statement(sql, params);
  }

  /** What the database answers to that statement: the listed orders, each once, newest first. */
  method SelectNewestFirst(orders: map<int, Order>, userId: int, status: string) returns (rows: seq<Order>)
    requires forall k :: k in orders ==> orders[k].id == k
    ensures Descending(rows, CreatedAt)
    ensures multiset(rows) == multiset(Selected(orders, userId, status))
  {
    rows := [];
    var pending := orders.Keys;
    ghost var seen: set<int> := {};
    while pending != {}
      invariant Scanning(orders, userId, status, pending, seen, rows)
      decreases |pending|
    {
      HasMember(pending);
      var k :| k in pending;
      ScanStep(orders, userId, status, pending, seen, rows, k);
      if Listed(orders[k], userId, status) {
        rows := Insert(orders[k], rows, CreatedAt);
      }
      pending := pending - {k};
      seen := seen + {k};
    }
    ScanDone(orders, userId, status, seen, rows);
  }

  /**
   * The scan so far: `seen` and `pending` split the stored keys, and `rows`
   * holds the listed orders among those seen, newest first.
   */
  ghost predicate Scanning(orders: map<int, Order>, userId: int, status: string,
                           pending: set<int>, seen: set<int>, rows: seq<Order>) {
    && (forall j :: j in orders ==> orders[j].id == j)
    && pending !! seen && pending + seen == orders.Keys
    && Descending(rows, CreatedAt)
    && multiset(rows) == multiset(SelectedAmong(orders, seen, userId, status))
  }

  /** One more stored order looked at: inserted by creation time when listed, skipped otherwise. */
  lemma ScanStep(orders: map<int, Order>, userId: int, status: string,
                 pending: set<int>, seen: set<int>, rows: seq<Order>, k: int)
    requires Scanning(orders, userId, status, pending, seen, rows) && k in pending
    ensures Listed(orders[k], userId, status) ==>
      Scanning(orders, userId, status, pending - {k}, seen + {k}, Insert(orders[k], rows, CreatedAt))
    ensures !Listed(orders[k], userId, status) ==>
      Scanning(orders, userId, status, pending - {k}, seen + {k}, rows)
  {
    SelectedAmongStep(orders, seen, k, userId, status);
    if Listed(orders[k], userId, status) {
      InsertDescending(orders[k], rows, CreatedAt);
    }
  }

  /** When nothing is pending, the scan has seen every stored order. */
  lemma ScanDone(orders: map<int, Order>, userId: int, status: string, seen: set<int>, rows: seq<Order>)
    requires Scanning(orders, userId, status, {}, seen, rows)
    ensures multiset(rows) == multiset(Selected(orders, userId, status))
  {
    assert seen == orders.Keys;
  }

  lemma HasMember(s: set<int>)
    requires s != {}
    ensures exists x :: x in s
  {
    assert (forall x :: x !in s) ==> s == {};
  }

  /**
   * `getUserOrders`: grows `sql` and `params`, and answers the caller's orders
   * that pass the status filter, each once, newest first.
   */
  method ListOrders(db: Db, userId: int, status: string) returns (statement: Statement, rows: seq<Order>)
    requires db.Valid()
    ensures statement.params == [Num(userId)] + (if Truthy(status) then [Str(status)] else [])
    ensures WellFormed(statement.query) && Holes(statement.query) == |statement.params|
    ensures Descending(rows, CreatedAt)
    ensures multiset(rows) == multiset(Selected(db.orders, userId, status))
  {
    statement := ListStatement(userId, status);
    rows := SelectNewestFirst(db.orders, userId, status);
  }

  /** Every listed row is the caller's, and carries the requested status when one is given. */
  lemma ListedRowsAreOwned(orders: map<int, Order>, userId: int, status: string, o: Order)
    requires o in Selected(orders, userId, status)
    ensures o.userId == userId && o in orders.Values
    ensures Truthy(status) ==> StatusLabel(o.status) == status
  {
  }

  // ---- cancel and pay ----

  datatype Transition = Cancel | Pay

  /** The status each transition writes: `已取消` for cancel, `已支付` for pay. */
  function Target(t: Transition): OrderStatus {
    match t
    case Cancel => Cancelled
    case Pay => Paid
  }

  function Refusal(t: Transition): OrderError {
    match t
    case Cancel => CancelRequiresUnpaid
    case Pay => PayRequiresUnpaid
  }

  datatype Settlement = Settlement(outcome: Outcome<OrderError>, orders: map<int, Order>)

  /**
   * The read-check-write of `cancelOrder` and `payOrder`: the order must be the
   * caller's, then still unpaid; only then `status` and `updated_at` of that
   * one row are rewritten.
   */
  function Settle(orders: map<int, Order>, userId: int, orderId: int, t: Transition, now: nat): (r: Settlement)
    ensures r.outcome == Fail(OrderNotFound) <==> orderId !in orders || orders[orderId].userId != userId
    ensures r.outcome == Fail(Refusal(t)) <==>
      orderId in orders && orders[orderId].userId == userId && orders[orderId].status != Unpaid
    ensures r.outcome.Pass? <==>
      orderId in orders && orders[orderId].userId == userId && orders[orderId].status == Unpaid
    ensures r.outcome.Fail? ==> r.orders == orders
    ensures r.outcome.Pass? ==> r.orders.Keys == orders.Keys
    ensures r.outcome.Pass? ==> forall k :: k in orders && k != orderId ==> r.orders[k] == orders[k]
    ensures r.outcome.Pass? ==> r.orders[orderId].status == Target(t) && r.orders[orderId].updatedAt == now
    ensures r.outcome.Pass? ==> Frozen(orders[orderId], r.orders[orderId])
  {
    match FindOwned(orders, userId, orderId)
    case Err(e) => Settlement(Fail(e), orders)
    case Ok(o) =>
      if o.status != Unpaid then Settlement(Fail(Refusal(t)), orders)
      else Settlement(Pass, orders[orderId := o.(status := Target(t), updatedAt := now)])
  }

  /** `b` is `a` with at most its `status` and `updated_at` rewritten. */
  predicate Frozen(a: Order, b: Order) {
    b == a.(status := b.status, updatedAt := b.updatedAt)
  }

  /** Paid and cancelled are terminal: no transition leaves them, and nothing is written. */
  lemma SettledIsTerminal(orders: map<int, Order>, userId: int, orderId: int, t: Transition, now: nat)
    requires orderId in orders && orders[orderId].status in {Paid, Cancelled}
    ensures Settle(orders, userId, orderId, t, now).outcome.Fail?
    ensures Settle(orders, userId, orderId, t, now).orders == orders
  {
  }

  /** An order is settled at most once: after one successful transition every further one is refused with 400. */
  lemma SettleAtMostOnce(orders: map<int, Order>, userId: int, orderId: int, t1: Transition, t2: Transition, now1: nat, now2: nat)
    requires Settle(orders, userId, orderId, t1, now1).outcome.Pass?
    ensures var after := Settle(orders, userId, orderId, t1, now1).orders;
      Settle(after, userId, orderId, t2, now2) == Settlement(Fail(Refusal(t2)), after)
  {
  }

  /** Cancel and pay on an order of another user answer and write exactly as on an order that does not exist. */
  lemma SettleHidesOthers(orders: map<int, Order>, userId: int, orderId: int, t: Transition, now: nat)
    requires orderId in orders && orders[orderId].userId != userId
    ensures Settle(orders, userId, orderId, t, now) == Settlement(Fail(OrderNotFound), orders)
    ensures Settle(orders, userId, orderId, t, now).outcome == Settle(orders - {orderId}, userId, orderId, t, now).outcome
  {
  }

  /** `cancelOrder` */
  method CancelOrder(db: Db, userId: int, orderId: int) returns (r: Outcome<OrderError>)
    requires db.Valid()
    modifies db`orders
    ensures db.Valid()
    ensures r == Settle(old(db.orders), userId, orderId, Cancel, db.clock).outcome
    ensures db.orders == Settle(old(db.orders), userId, orderId, Cancel, db.clock).orders
  {
    r := Transit(db, userId, orderId, Cancel);
  }

  /** `payOrder` */
  method PayOrder(db: Db, userId: int, orderId: int) returns (r: Outcome<OrderError>)
    requires db.Valid()
    modifies db`orders
    ensures db.Valid()
    ensures r == Settle(old(db.orders), userId, orderId, Pay, db.clock).outcome
    ensures db.orders == Settle(old(db.orders), userId, orderId, Pay, db.clock).orders
  {
    r := Transit(db, userId, orderId, Pay);
  }

  /** The shared read-check-write, stamped with the clock. */
  method Transit(db: Db, userId: int, orderId: int, t: Transition) returns (r: Outcome<OrderError>)
    requires db.Valid()
    modifies db`orders
    ensures db.Valid()
    ensures r == Settle(old(db.orders), userId, orderId, t, db.clock).outcome
    ensures db.orders == Settle(old(db.orders), userId, orderId, t, db.clock).orders
  {
    var found := FindOwned(db.orders, userId, orderId);
    if found.Err? {
      return Fail(found.error);
    }
    var order := found.value;
    if order.status != Unpaid {
      return Fail(Refusal(t));
    }
    db.orders := db.orders[orderId := order.(status := Target(t), updatedAt := db.clock)];
    r := Pass;
  }

  // ---- the life of an order across requests ----

  /** The order table, its counter and the resource table, as a value. */
  datatype Store = Store(orders: map<int, Order>, nextId: int, resources: seq<Resource>)

  /** One request that can touch an order: placing one, settling one, or an administrator editing resources. */
  datatype Op =
    | Place(userId: int, req: OrderRequest, now: nat)
    | Act(userId: int, orderId: int, t: Transition, now: nat)
    | EditResources(resources: seq<Resource>)

  predicate KeysBelow(s: Store) {
    forall k :: k in s.orders ==> k < s.nextId
  }

  /** The request on the table as a value: `Place` is `CreateOrder`, `Act` is `CancelOrder` or `PayOrder` (through `Transit`). */
  function Apply(s: Store, op: Op): Store {
    match op
    case Place(u, req, now) =>
      (match PlanOrder(s.resources, u, req, s.nextId, now)
       case Err(_) => s
       case Ok(o) => s.(orders := s.orders[s.nextId := o], nextId := s.nextId + 1))
    case Act(u, id, t, now) => s.(orders := Settle(s.orders, u, id, t, now).orders)
    case EditResources(rs) => s.(resources := rs)
  }

  function Run(s: Store, ops: seq<Op>): Store
    decreases |ops|
  {
    if ops == [] then s else Run(Apply(s, ops[0]), ops[1..])
  }

  /** `b`'s status is `a`'s, or `a` was still unpaid. */
  predicate StatusFollows(a: Order, b: Order) {
    a.status == b.status || a.status == Unpaid
  }

  lemma ApplyKeepsOrder(s: Store, op: Op, k: int)
    requires KeysBelow(s) && k in s.orders
    ensures KeysBelow(Apply(s, op))
    ensures k in Apply(s, op).orders
    ensures Frozen(s.orders[k], Apply(s, op).orders[k])
    ensures StatusFollows(s.orders[k], Apply(s, op).orders[k])
  {
  }

  /**
   * Along any sequence of requests, an existing order never disappears, its
   * owner, resource, quantity, duration, total price, remark and creation time
   * never change (whatever happens to the resource's price), and once paid or
   * cancelled its status never changes again.
   */
  lemma {:induction false} RunKeepsOrder(s: Store, ops: seq<Op>, k: int)
    requires KeysBelow(s) && k in s.orders
    ensures k in Run(s, ops).orders
    ensures Frozen(s.orders[k], Run(s, ops).orders[k])
    ensures StatusFollows(s.orders[k], Run(s, ops).orders[k])
    decreases |ops|
  {
    if ops != [] {
      var next := Apply(s, ops[0]);
      ApplyKeepsOrder(s, ops[0], k);
      RunKeepsOrder(next, ops[1..], k);
    }
  }

  /** Placing an order adds a row under the counter's id exactly when the terms are valid and the resource is available. */
  lemma PlaceAddsIff(s: Store, userId: int, req: OrderRequest, now: nat)
    requires KeysBelow(s)
    ensures var after := Apply(s, Place(userId, req, now));
      s.nextId in after.orders <==>
        Validate(req).Ok? && FindAvailable(s.resources, Validate(req).value.resourceId).Some?
  {
    assert s.nextId !in s.orders;
  }

  /**
   * An order placed through `createOrder` keeps, along any later requests
   * (including edits of the resource's price), its owner, its terms and the
   * total computed from the resource's price at the moment it was placed.
   */
  lemma PlacedTotalFrozen(s: Store, userId: int, req: OrderRequest, now: nat, ops: seq<Op>)
    requires KeysBelow(s)
    requires Validate(req).Ok? && FindAvailable(s.resources, Validate(req).value.resourceId).Some?
    ensures var t := Validate(req).value;
      var price := FindAvailable(s.resources, t.resourceId).value.price;
      var after := Run(Apply(s, Place(userId, req, now)), ops);
      && s.nextId in after.orders
      && after.orders[s.nextId].userId == userId
      && after.orders[s.nextId].resourceId == t.resourceId
      && after.orders[s.nextId].quantity == t.quantity
      && after.orders[s.nextId].duration == t.duration
      && after.orders[s.nextId].totalPrice == TotalPrice(price, t.quantity, t.duration)
      && after.orders[s.nextId].remark == t.remark
      && after.orders[s.nextId].createdAt == now
  {
    var placed := Apply(s, Place(userId, req, now));
    assert s.nextId in placed.orders;
    assert KeysBelow(placed);
    RunKeepsOrder(placed, ops, s.nextId);
  }
}

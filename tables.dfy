/**
 * The rows of the four tables the handlers read and write (`users`,
 * `resources`, `orders`, `browsing_history`), the session-token claims, and the
 * row-level lookups and updates of the SQL statements the handlers issue.
 * A table whose rows the SQL reads in order is a sequence; `WHERE ... ` then
 * `rows[0]` is the first matching row.
 */
module Tables {
  import opened Wrappers

  /** Index of the first row satisfying `p`, if any. */
  function First<T>(rows: seq<T>, p: T -> bool): (r: Option<nat>)
    ensures r.Some? ==> r.value < |rows| && p(rows[r.value])
    ensures r.Some? ==> forall j :: 0 <= j < r.value ==> !p(rows[j])
    ensures r.None? ==> forall j :: 0 <= j < |rows| ==> !p(rows[j])
  {
    if |rows| == 0 then None
    else if p(rows[0]) then Some(0)
    else match First(rows[1..], p)
      case None => None
      case Some(k) => Some(k + 1)
  }

  /** Two tables whose rows match pointwise alike have their first match at the same place. */
  lemma {:induction false} FirstSame<T, U>(a: seq<T>, p: T -> bool, b: seq<U>, q: U -> bool)
    requires |a| == |b|
    requires forall i :: 0 <= i < |a| ==> p(a[i]) == q(b[i])
    ensures First(a, p) == First(b, q)
  {
    if |a| > 0 && !p(a[0]) {
      FirstSame(a[1..], p, b[1..], q);
    }
  }

  // ---- users ----

  /** The `type` column: `'user'` (`Customer`) or `'admin'` (`Administrator`). */
  datatype Role = Customer | Administrator

  /** A row of `users`; `passwordHash` is the bcrypt hash in the `password` column. */
  datatype User = User(
    id: int,
    username: string,
    email: string,
    passwordHash: string,
    phone: string,
    role: Role,
    registeredAt: nat,
    lastLogin: Option<nat>,
    status: string)

  /** The columns a profile update may set. */
  datatype Column = Username | Email | Phone

  /** The body of an `UPDATE users SET ... WHERE id = ?` statement. */
  datatype UserWrite =
    | StampLastLogin(at: nat)                          // last_login = NOW()
    | SetPasswordHash(hash: string)                    // password = ?
    | SetColumns(columns: seq<Column>, values: seq<string>)  // username = ?, email = ?, ...

  function Assign(u: User, c: Column, v: string): User {
    match c
    case Username => u.(username := v)
    case Email => u.(email := v)
    case Phone => u.(phone := v)
  }

  /** The value a row holds in a profile column. */
  function ColumnValue(u: User, c: Column): string {
    match c
    case Username => u.username
    case Email => u.email
    case Phone => u.phone
  }

  /** Executes `c1 = v1, c2 = v2, ...` left to right; surplus columns or values are ignored. */
  function AssignAll(u: User, columns: seq<Column>, values: seq<string>): User
    decreases |columns|
  {
    if |columns| == 0 || |values| == 0 then u
    else AssignAll(Assign(u, columns[0], values[0]), columns[1..], values[1..])
  }

  function ApplyWrite(u: User, w: UserWrite): User {
    match w
    case StampLastLogin(t) => u.(lastLogin := Some(t))
    case SetPasswordHash(h) => u.(passwordHash := h)
    case SetColumns(cs, vs) => AssignAll(u, cs, vs)
  }

  /** `UPDATE users SET <w> WHERE id = <id>`: every row with that id is rewritten, no other row. */
  function UpdateWhereId(rows: seq<User>, id: int, w: UserWrite): (r: seq<User>)
    ensures |r| == |rows|
    ensures forall i :: 0 <= i < |rows| && rows[i].id != id ==> r[i] == rows[i]
    ensures forall i :: 0 <= i < |rows| && rows[i].id == id ==> r[i] == ApplyWrite(rows[i], w)
  {
    seq(|rows|, i requires 0 <= i < |rows| => if rows[i].id == id then ApplyWrite(rows[i], w) else rows[i])
  }

  /** No write touches the `id` column. */
  lemma {:induction false} WriteKeepsId(u: User, w: UserWrite)
    ensures ApplyWrite(u, w).id == u.id
  {
    if w.SetColumns? {
      AssignAllKeepsId(u, w.columns, w.values);
    }
  }

  lemma {:induction false} AssignAllKeepsId(u: User, columns: seq<Column>, values: seq<string>)
    ensures AssignAll(u, columns, values).id == u.id
    decreases |columns|
  {
    if |columns| > 0 && |values| > 0 {
      AssignAllKeepsId(Assign(u, columns[0], values[0]), columns[1..], values[1..]);
    }
  }

  /** The `UNIQUE` constraint on `users.email`. */
  ghost predicate UniqueEmails(rows: seq<User>) {
    forall i, j :: 0 <= i < j < |rows| ==> rows[i].email != rows[j].email
  }

  function IdIs(id: int): User -> bool {
    (u: User) => u.id == id
  }

  /** `SELECT ... FROM users WHERE id = ?`, first row. */
  function FindUser(rows: seq<User>, id: int): (r: Option<User>)
    ensures r.Some? <==> exists i :: 0 <= i < |rows| && rows[i].id == id
    ensures r.Some? ==> r.value in rows && r.value.id == id
  {
    match First(rows, IdIs(id))
    case None => None
    case Some(k) => Some(rows[k])
  }

  /** An update by id finds, when read back by the same id, the same row with the write applied. */
  lemma FindUserAfterWrite(rows: seq<User>, id: int, w: UserWrite)
    ensures FindUser(UpdateWhereId(rows, id, w), id) ==
      match FindUser(rows, id)
      case None => None
      case Some(u) => Some(ApplyWrite(u, w))
  {
    var after := UpdateWhereId(rows, id, w);
    forall i | 0 <= i < |rows|
      ensures IdIs(id)(rows[i]) == IdIs(id)(after[i])
    {
      WriteKeepsId(rows[i], w);
    }
    FirstSame(rows, IdIs(id), after, IdIs(id));
  }

  function LoginMatch(email: string, role: Role): User -> bool {
    (u: User) => u.email == email && u.role == role
  }

  /** `SELECT * FROM users WHERE email = ? AND type = <role>`: the index of the first row. */
  function FindLogin(rows: seq<User>, email: string, role: Role): (r: Option<nat>)
    ensures r.Some? ==> r.value < |rows| && rows[r.value].email == email && rows[r.value].role == role
    ensures r.Some? ==> forall j :: 0 <= j < r.value ==> rows[j].email != email || rows[j].role != role
    ensures r.None? <==> forall i :: 0 <= i < |rows| ==> rows[i].email != email || rows[i].role != role
  {
    First(rows, LoginMatch(email, role))
  }

  /** Stamping `last_login` or replacing a password hash does not move any account's login row. */
  lemma FindLoginAfterWrite(rows: seq<User>, id: int, w: UserWrite, email: string, role: Role)
    requires !w.SetColumns?
    ensures FindLogin(UpdateWhereId(rows, id, w), email, role) == FindLogin(rows, email, role)
  {
    var after := UpdateWhereId(rows, id, w);
    FirstSame(rows, LoginMatch(email, role), after, LoginMatch(email, role));
  }

  /** The payload of a session token: `{ id, email, type }`. */
  datatype Claims = Claims(id: int, email: string, role: Role)

  // ---- resources ----

  const AvailableStatus := "available"

  /** A row of `resources`; `price` is the hourly price (integral in this model). */
  datatype Resource = Resource(
    id: int,
    name: string,
    description: string,
    cpu: string,
    memory: string,
    storage: string,
    storageType: string,
    usageType: string,
    status: string,
    price: int)

  /** `SELECT * FROM resources WHERE id = ?`, first row. */
  function FindResource(rows: seq<Resource>, id: int): (r: Option<Resource>)
    ensures r.Some? <==> exists i :: 0 <= i < |rows| && rows[i].id == id
    ensures r.Some? ==> r.value in rows && r.value.id == id
  {
    match First(rows, (x: Resource) => x.id == id)
    case None => None
    case Some(k) => Some(rows[k])
  }

  /** `SELECT * FROM resources WHERE id = ? AND status = "available"`, first row. */
  function FindAvailable(rows: seq<Resource>, id: int): (r: Option<Resource>)
    ensures r.Some? <==> exists i :: 0 <= i < |rows| && rows[i].id == id && rows[i].status == AvailableStatus
    ensures r.Some? ==> r.value in rows && r.value.id == id && r.value.status == AvailableStatus
  {
    match First(rows, (x: Resource) => x.id == id && x.status == AvailableStatus)
    case None => None
    case Some(k) => Some(rows[k])
  }

  // ---- orders ----

  /** The `status` column of `orders`. */
  datatype OrderStatus = Unpaid | Paid | Cancelled

  /** The text stored in the `status` column. */
  function StatusLabel(s: OrderStatus): string {
    match s
    case Unpaid => "未支付"
    case Paid => "已支付"
    case Cancelled => "已取消"
  }

  /** A row of `orders`; `duration` is in days and `totalPrice` is frozen at creation. */
  datatype Order = Order(
    id: int,
    userId: int,
    resourceId: int,
    quantity: int,
    duration: int,
    totalPrice: int,
    status: OrderStatus,
    remark: string,
    createdAt: nat,
    updatedAt: nat)

  function CreatedAt(o: Order): int { o.createdAt }

  // ---- browsing history ----

  /** A row of `browsing_history`. */
  datatype Visit = Visit(id: int, userId: int, resourceId: int, timestamp: nat)

  function VisitedAt(v: Visit): int { v.timestamp }
}

/**
 * The public resource routes: the filtered list `GET /resources`, whose query
 * grows one `AND` clause per present filter, the `GET /resources/hot` sample
 * and the `GET /resources/:id` lookup. One parameter `toInt` stands for both
 * `parseInt` on a filter value and `CAST(... AS SIGNED)` on a column; the two
 * agree on decimal text but not on hexadecimal prefixes or on text without
 * leading digits.
 */
module ResourceRoutes {
  import opened Wrappers
  import opened Strings
  import opened Sql
  import opened Tables
  import opened Database
  import opened Ordering

  /** `{ cpu, memory, storage_type, usage_type, keyword, category, type, status }` of the query string; an absent field is "". */
  datatype ResourceFilter = ResourceFilter(
    cpu: string,
    memory: string,
    storageType: string,
    usageType: string,
    keyword: string,
    category: string,
    kind: string,
    status: string)

  /** One `AND` condition of the list query, with the value it binds. */
  datatype Condition =
    | CpuIs(cores: int)
    | MemoryIs(size: int)
    | StorageTypeIs(storageType: string)
    | UsageTypeIs(usageType: string)
    | StatusIs(status: string)
    | KeywordIn(keyword: string)

  /** Position of a condition in the fixed order cpu, memory, storage_type, usage_type, status, keyword. */
  function Rank(c: Condition): nat {
    match c
    case CpuIs(_) => 0
    case MemoryIs(_) => 1
    case StorageTypeIs(_) => 2
    case UsageTypeIs(_) => 3
    case StatusIs(_) => 4
    case KeywordIn(_) => 5
  }

  /** `cs` with `c` appended when the filter field is present. */
  function Step(cs: seq<Condition>, present: bool, c: Condition): seq<Condition> {
    if present then cs + [c] else cs
  }

  /** A filter field: whether it is truthy, and the condition it asks for. */
  datatype Slot = Slot(present: bool, condition: Condition)

  /** The six filter fields in the order the handler tests them; `category` and `type` have no slot. */
  function Slots(f: ResourceFilter, toInt: string -> int): (slots: seq<Slot>)
    ensures |slots| == 6
    ensures forall i :: 0 <= i < 6 ==> Rank(slots[i].condition) == i
  {
    [Slot(Truthy(f.cpu), CpuIs(toInt(f.cpu))),
     Slot(Truthy(f.memory), MemoryIs(toInt(f.memory))),
     Slot(Truthy(f.storageType), StorageTypeIs(f.storageType)),
     Slot(Truthy(f.usageType), UsageTypeIs(f.usageType)),
     Slot(Truthy(f.status), StatusIs(f.status)),
     Slot(Truthy(f.keyword), KeywordIn(f.keyword))]
  }

  /** The conditions of the present slots, in slot order. */
  function Present(slots: seq<Slot>): seq<Condition>
    decreases |slots|
  {
    if slots == [] then []
    else Step(Present(slots[..|slots| - 1]), slots[|slots| - 1].present, slots[|slots| - 1].condition)
  }

  /** The conditions a filter asks for: one per truthy field among the six, in the fixed order. */
  function Conditions(f: ResourceFilter, toInt: string -> int): seq<Condition> {
    Present(Slots(f, toInt))
  }

  /** Each present condition is the condition of some present slot. */
  ghost predicate FromSlots(cs: seq<Condition>, slots: seq<Slot>) {
    forall i :: 0 <= i < |cs| ==> FromSomeSlot(cs[i], slots)
  }

  /** Some present slot asks for `c`. */
  ghost predicate FromSomeSlot(c: Condition, slots: seq<Slot>) {
    exists k :: 0 <= k < |slots| && slots[k].present && slots[k].condition == c
  }

  /** The slot a present condition comes from. */
  lemma SlotOf(cs: seq<Condition>, slots: seq<Slot>, i: nat) returns (k: nat)
    requires FromSlots(cs, slots) && i < |cs|
    ensures k < |slots| && slots[k].present && slots[k].condition == cs[i]
  {
    assert FromSomeSlot(cs[i], slots);
    k :| 0 <= k < |slots| && slots[k].present && slots[k].condition == cs[i];
  }

  lemma {:induction false} PresentFromSlots(slots: seq<Slot>)
    ensures FromSlots(Present(slots), slots)
    decreases |slots|
  {
    if slots != [] {
      var init := slots[..|slots| - 1];
      var last := slots[|slots| - 1];
      PresentFromSlots(init);
      var p := Present(init);
      var q := Present(slots);
      assert FromSlots(p, init);
      assert q == p || (last.present && q == p + [last.condition]);
      forall i | 0 <= i < |q| ensures FromSomeSlot(q[i], slots) {
        if i < |p| {
          assert q[i] == p[i];
          var k := SlotOf(p, init, i);
          assert slots[k] == init[k];
          assert 0 <= k < |slots| && slots[k].present && slots[k].condition == q[i];
        } else {
          var k := |slots| - 1;
          assert last.present && q[i] == last.condition;
          assert 0 <= k < |slots| && slots[k].present && slots[k].condition == q[i];
        }
      }
    }
  }

  /** `Present` grows one slot at a time. */
  lemma PresentSnoc(slots: seq<Slot>, k: nat)
    requires k < |slots|
    ensures Present(slots[..k + 1]) == Step(Present(slots[..k]), slots[k].present, slots[k].condition)
  {
    assert slots[..k + 1][..k] == slots[..k];
  }

  /** The conditions, spelled out as the handler's six tests in order. */
  lemma ConditionsSteps(f: ResourceFilter, toInt: string -> int)
    ensures Conditions(f, toInt) ==
      Step(Step(Step(Step(Step(Step([],
        Truthy(f.cpu), CpuIs(toInt(f.cpu))),
        Truthy(f.memory), MemoryIs(toInt(f.memory))),
        Truthy(f.storageType), StorageTypeIs(f.storageType)),
        Truthy(f.usageType), UsageTypeIs(f.usageType)),
        Truthy(f.status), StatusIs(f.status)),
        Truthy(f.keyword), KeywordIn(f.keyword))
  {
    var s := Slots(f, toInt);
    assert s[..0] == [];
    PresentSnoc(s, 0);
    PresentSnoc(s, 1);
    PresentSnoc(s, 2);
    PresentSnoc(s, 3);
    PresentSnoc(s, 4);
    PresentSnoc(s, 5);
    assert s[..6] == s;
  }

  /** Slots with strictly increasing ranks yield conditions with strictly increasing ranks. */
  lemma {:induction false} PresentOrdered(slots: seq<Slot>)
    requires forall i, j :: 0 <= i < j < |slots| ==> Rank(slots[i].condition) < Rank(slots[j].condition)
    ensures forall i, j :: 0 <= i < j < |Present(slots)| ==> Rank(Present(slots)[i]) < Rank(Present(slots)[j])
    decreases |slots|
  {
    if slots != [] {
      var init := slots[..|slots| - 1];
      var last := slots[|slots| - 1];
      PresentOrdered(init);
      PresentFromSlots(init);
      var p := Present(init);
      assert FromSlots(p, init);
      forall i | 0 <= i < |p| ensures Rank(p[i]) < Rank(last.condition) {
        var k := SlotOf(p, init, i);
        assert init[k] == slots[k];
      }
      if last.present {
        var q := p + [last.condition];
        forall i, j | 0 <= i < j < |q| ensures Rank(q[i]) < Rank(q[j]) {
          if j == |p| {
            assert q[i] == p[i];
          } else {
            assert q[i] == p[i] && q[j] == p[j];
          }
        }
      }
    }
  }

  /** Conditions, hence clauses, appear in the fixed order cpu, memory, storage_type, usage_type, status, keyword, each at most once. */
  lemma ConditionsOrdered(f: ResourceFilter, toInt: string -> int)
    ensures forall i, j :: 0 <= i < j < |Conditions(f, toInt)| ==>
      Rank(Conditions(f, toInt)[i]) < Rank(Conditions(f, toInt)[j])
  {
    PresentOrdered(Slots(f, toInt));
  }

  /** `category` and `type` are read from the query string but never reach the query. */
  lemma CategoryAndTypeIgnored(f: ResourceFilter, category: string, kind: string, toInt: string -> int)
    ensures Conditions(f.(category := category, kind := kind), toInt) == Conditions(f, toInt)
  {
  }

  const BaseText := "SELECT * FROM resources WHERE 1=1"
  const LikeName := " AND (name LIKE "
  const LikeDescription := " OR description LIKE "

  lemma BaseTextClean() ensures '?' !in BaseText {}
  lemma LikeNameClean() ensures '?' !in LikeName {}
  lemma LikeDescriptionClean() ensures '?' !in LikeDescription {}

  /** `SELECT * FROM resources WHERE 1=1` */
  const Base: Query := [Lit(BaseText)]

  /** The `LIKE` pattern `%keyword%`. */
  function LikePattern(keyword: string): string {
    "%" + keyword + "%"
  }

  /** The column a single-value condition compares. */
  function Column(c: Condition): (s: string)
    requires !c.KeywordIn?
    ensures '?' !in s
  {
    match c
    case CpuIs(_) => "CAST(cpu AS SIGNED)"
    case MemoryIs(_) => "CAST(memory AS SIGNED)"
    case StorageTypeIs(_) => "storage_type"
    case UsageTypeIs(_) => "usage_type"
    case StatusIs(_) => "status"
  }

  /** The clause a condition appends: ` AND <column> = ?`, or ` AND (name LIKE ? OR description LIKE ?)`. */
  function Clause(c: Condition): Query {
    if c.KeywordIn? then [Lit(LikeName), Hole, Lit(LikeDescription), Hole, Lit(")")]
    else [Lit(" AND " + Column(c) + " = "), Hole]
  }

  /** The parameters a condition pushes: one value, or the keyword pattern twice. */
  function ClauseParams(c: Condition): (ps: seq<Param>)
    ensures c.KeywordIn? ==> ps == [Str(LikePattern(c.keyword)), Str(LikePattern(c.keyword))]
    ensures !c.KeywordIn? ==> |ps| == 1
  {
    match c
    case CpuIs(n) => [Num(n)]
    case MemoryIs(n) => [Num(n)]
    case StorageTypeIs(s) => [Str(s)]
    case UsageTypeIs(s) => [Str(s)]
    case StatusIs(s) => [Str(s)]
    case KeywordIn(k) => [Str(LikePattern(k)), Str(LikePattern(k))]
  }

  function Clauses(cs: seq<Condition>): Query {
    if cs == [] then [] else Clauses(cs[..|cs| - 1]) + Clause(cs[|cs| - 1])
  }

  function Params(cs: seq<Condition>): seq<Param> {
    if cs == [] then [] else Params(cs[..|cs| - 1]) + ClauseParams(cs[|cs| - 1])
  }

  lemma BaseWellFormed()
    ensures WellFormed(Base) && Holes(Base) == 0
  {
    BaseTextClean();
  }

  lemma OneHole(t: string)
    requires '?' !in t
    ensures WellFormed([Lit(t), Hole]) && Holes([Lit(t), Hole]) == 1
  {
    assert [Lit(t), Hole][1..] == [Hole];
    assert [Hole][1..] == [];
  }

  lemma KeywordClauseHoles(k: string)
    ensures WellFormed(Clause(KeywordIn(k))) && Holes(Clause(KeywordIn(k))) == 2
  {
    var open: Query := [Lit(LikeName), Hole];
    var middle: Query := [Lit(LikeDescription), Hole];
    var close: Query := [Lit(")")];
    LikeNameClean();
    LikeDescriptionClean();
    OneHole(LikeName);
    OneHole(LikeDescription);
    assert WellFormed(close) && Holes(close) == 0;
    AppendWellFormed(middle, close);
    AppendWellFormed(open, middle + close);
    assert Clause(KeywordIn(k)) == open + (middle + close);
  }

  /** Every clause is well formed and holds one placeholder per parameter it pushes. */
  lemma ClauseHoles(c: Condition)
    ensures WellFormed(Clause(c)) && Holes(Clause(c)) == |ClauseParams(c)|
  {
    if c.KeywordIn? {
      KeywordClauseHoles(c.keyword);
    } else {
      var col := Column(c);
      assert '?' !in " AND " && '?' !in " = ";
      assert '?' !in " AND " + col + " = ";
      OneHole(" AND " + col + " = ");
    }
  }

  /** `query` and `params` are what the conditions `cs` have appended to the base, with one placeholder per parameter. */
  ghost predicate Built(query: Query, params: seq<Param>, cs: seq<Condition>) {
    && query == Base + Clauses(cs)
    && params == Params(cs)
    && WellFormed(query) && Holes(query) == |params|
  }

  /**
   * The list handler's builder: starts from `WHERE 1=1` with no parameter and
   * takes the six filter tests in their fixed order, each appending its clause
   * and pushing its parameters when its field is truthy.
   */
  method BuildQuery(f: ResourceFilter, toInt: string -> int) returns (statement: Statement)
    ensures statement.query == Base + Clauses(Conditions(f, toInt))
    ensures statement.params == Params(Conditions(f, toInt))
    ensures WellFormed(statement.query) && Holes(statement.query) == |statement.params|
  {
    var slots := Slots(f, toInt);
    var query := Base;
    var params: seq<Param> := [];
    BaseStage(slots);
    for k := 0 to |slots|
      invariant Stage(query, params, slots, k)
    {
      query, params := Push(query, params, slots, k);
    }
    assert slots[..|slots|] == slots;
    statement := Statement(query, params);
  }

  /** After the first `k` filter tests: `query` and `params` are built from the present fields among them. */
  ghost predicate Stage(query: Query, params: seq<Param>, slots: seq<Slot>, k: nat) {
    k <= |slots| && Built(query, params, Present(slots[..k]))
  }

  lemma BaseStage(slots: seq<Slot>)
    ensures Stage(Base, [], slots, 0)
  {
    BaseWellFormed();
    assert slots[..0] == [];
    assert Base + [] == Base;
  }

  /** One `if (field) { query += clause; params.push(...) }` test, for the filter field `slots[k]`. */
  method Push(query: Query, params: seq<Param>, slots: seq<Slot>, k: nat) returns (query': Query, params': seq<Param>)
    requires k < |slots| && Stage(query, params, slots, k)
    ensures Stage(query', params', slots, k + 1)
    ensures query' == query + (if slots[k].present then Clause(slots[k].condition) else [])
    ensures params' == params + (if slots[k].present then ClauseParams(slots[k].condition) else [])
  {
    if slots[k].present {
      var c := slots[k].condition;
      query', params' := query + Clause(c), params + ClauseParams(c);
      AppendStage(query, params, slots, k);
    } else {
      query', params' := query, params;
      SkipStage(query, params, slots, k);
      assert query + [] == query && params + [] == params;
    }
  }

  /** A truthy field's clause and parameters, appended to a stage, give the next stage. */
  lemma AppendStage(query: Query, params: seq<Param>, slots: seq<Slot>, k: nat)
    requires k < |slots| && slots[k].present && Stage(query, params, slots, k)
    ensures Stage(query + Clause(slots[k].condition), params + ClauseParams(slots[k].condition), slots, k + 1)
  {
    PresentSnoc(slots, k);
    BuiltSnoc(query, params, Present(slots[..k]), slots[k].condition);
  }

  /** Appending a condition's clause and parameters to a built query builds the query of one more condition. */
  lemma BuiltSnoc(query: Query, params: seq<Param>, cs: seq<Condition>, c: Condition)
    requires Built(query, params, cs)
    ensures Built(query + Clause(c), params + ClauseParams(c), cs + [c])
  {
    ClauseHoles(c);
    AppendWellFormed(query, Clause(c));
    ClausesSnoc(cs, c);
    AppendAssoc(query, Base, Clauses(cs), Clause(c));
  }

  lemma AppendAssoc<T>(a: seq<T>, b: seq<T>, d: seq<T>, e: seq<T>)
    requires a == b + d
    ensures a + e == b + (d + e)
  {
  }

  /** A falsy field leaves the stage as it is. */
  lemma SkipStage(query: Query, params: seq<Param>, slots: seq<Slot>, k: nat)
    requires k < |slots| && !slots[k].present && Stage(query, params, slots, k)
    ensures Stage(query, params, slots, k + 1)
  {
    PresentSnoc(slots, k);
  }

  /** Appending a condition appends its clause and its parameters. */
  lemma ClausesSnoc(cs: seq<Condition>, c: Condition)
    ensures Clauses(cs + [c]) == Clauses(cs) + Clause(c)
    ensures Params(cs + [c]) == Params(cs) + ClauseParams(c)
  {
    assert (cs + [c])[..|cs|] == cs;
  }

  /** With no filters the query is the bare `WHERE 1=1` and binds nothing. */
  lemma NoFilterBaseQuery(f: ResourceFilter, toInt: string -> int)
    requires !Truthy(f.cpu) && !Truthy(f.memory) && !Truthy(f.storageType)
    requires !Truthy(f.usageType) && !Truthy(f.status) && !Truthy(f.keyword)
    ensures Base + Clauses(Conditions(f, toInt)) == Base
    ensures Params(Conditions(f, toInt)) == []
  {
    ConditionsSteps(f, toInt);
  }

  // ---- what the query selects ----

  /** `t` occurs in `s` as a contiguous run. */
  predicate Contains(s: string, t: string) {
    exists i :: 0 <= i <= |s| && t <= s[i..]
  }

  /** A row satisfies a condition; `LIKE '%k%'` as plain substring search. */
  predicate Holds(c: Condition, r: Resource, toInt: string -> int) {
    match c
    case CpuIs(n) => toInt(r.cpu) == n
    case MemoryIs(n) => toInt(r.memory) == n
    case StorageTypeIs(s) => r.storageType == s
    case UsageTypeIs(s) => r.usageType == s
    case StatusIs(s) => r.status == s
    case KeywordIn(k) => Contains(r.name, k) || Contains(r.description, k)
  }

  predicate HoldsAll(cs: seq<Condition>, r: Resource, toInt: string -> int) {
    forall i :: 0 <= i < |cs| ==> Holds(cs[i], r, toInt)
  }

  /** The rows the query returns, in table order. */
  function Select(rows: seq<Resource>, cs: seq<Condition>, toInt: string -> int): (data: seq<Resource>)
    ensures |data| <= |rows|
    ensures forall r :: r in data <==> r in rows && HoldsAll(cs, r, toInt)
  {
    if rows == [] then []
    else (if HoldsAll(cs, rows[0], toInt) then [rows[0]] else []) + Select(rows[1..], cs, toInt)
  }

  lemma StepHolds(cs: seq<Condition>, present: bool, c: Condition, r: Resource, toInt: string -> int)
    ensures HoldsAll(Step(cs, present, c), r, toInt) <==> HoldsAll(cs, r, toInt) && (present ==> Holds(c, r, toInt))
  {
    if present {
      assert forall i :: 0 <= i < |cs| ==> (cs + [c])[i] == cs[i];
      assert (cs + [c])[|cs|] == c;
    }
  }

  /** A resource passes the filter exactly when it matches every truthy field. */
  lemma HoldsAllFilter(f: ResourceFilter, r: Resource, toInt: string -> int)
    ensures HoldsAll(Conditions(f, toInt), r, toInt) <==>
      && (Truthy(f.cpu) ==> toInt(r.cpu) == toInt(f.cpu))
      && (Truthy(f.memory) ==> toInt(r.memory) == toInt(f.memory))
      && (Truthy(f.storageType) ==> r.storageType == f.storageType)
      && (Truthy(f.usageType) ==> r.usageType == f.usageType)
      && (Truthy(f.status) ==> r.status == f.status)
      && (Truthy(f.keyword) ==> Contains(r.name, f.keyword) || Contains(r.description, f.keyword))
  {
    ConditionsSteps(f, toInt);
    var c1 := Step([], Truthy(f.cpu), CpuIs(toInt(f.cpu)));
    var c2 := Step(c1, Truthy(f.memory), MemoryIs(toInt(f.memory)));
    var c3 := Step(c2, Truthy(f.storageType), StorageTypeIs(f.storageType));
    var c4 := Step(c3, Truthy(f.usageType), UsageTypeIs(f.usageType));
    var c5 := Step(c4, Truthy(f.status), StatusIs(f.status));
    StepHolds([], Truthy(f.cpu), CpuIs(toInt(f.cpu)), r, toInt);
    StepHolds(c1, Truthy(f.memory), MemoryIs(toInt(f.memory)), r, toInt);
    StepHolds(c2, Truthy(f.storageType), StorageTypeIs(f.storageType), r, toInt);
    StepHolds(c3, Truthy(f.usageType), UsageTypeIs(f.usageType), r, toInt);
    StepHolds(c4, Truthy(f.status), StatusIs(f.status), r, toInt);
    StepHolds(c5, Truthy(f.keyword), KeywordIn(f.keyword), r, toInt);
  }

  /** The list response: `{ data, total }`. */
  datatype Listing = Listing(data: seq<Resource>, total: nat)

  /** `GET /resources`: the statement it issues and the listing it answers, whose `total` is the length of `data`. */
  method ListResources(db: Db, f: ResourceFilter, toInt: string -> int) returns (statement: Statement, listing: Listing)
    ensures statement.query == Base + Clauses(Conditions(f, toInt))
    ensures statement.params == Params(Conditions(f, toInt))
    ensures WellFormed(statement.query) && Holes(statement.query) == |statement.params|
    ensures listing.data == Select(db.resources, Conditions(f, toInt), toInt)
    ensures listing.total == |listing.data|
  {
    statement := BuildQuery(f, toInt);
    var data := Select(db.resources, Conditions(f, toInt), toInt);
    listing := Listing(data, |data|);
  }

  // ---- hot resources ----

  /** The available rows, in table order. */
  function AvailableRows(rows: seq<Resource>): (a: seq<Resource>)
    ensures forall r :: r in a <==> r in rows && r.status == AvailableStatus
    ensures multiset(a) <= multiset(rows)
  {
    if rows == [] then []
    else
      assert rows == [rows[0]] + rows[1..];
      (if rows[0].status == AvailableStatus then [rows[0]] else []) + AvailableRows(rows[1..])
  }

  /**
   * `GET /resources/hot`: `WHERE status = 'available' ORDER BY RAND() LIMIT 3`.
   * `shuffled` is the order `RAND()` put the available rows in; the answer is
   * its first three, or all of them when fewer are available.
   */
  function Hot(rows: seq<Resource>, shuffled: seq<Resource>): (data: seq<Resource>)
    requires multiset(shuffled) == multiset(AvailableRows(rows))
    ensures |data| == Min(3, |AvailableRows(rows)|)
    ensures forall r :: r in data ==> r in rows && r.status == AvailableStatus
    ensures multiset(data) <= multiset(AvailableRows(rows))
  {
    var data := shuffled[..Min(3, |shuffled|)];
    assert shuffled == data + shuffled[Min(3, |shuffled|)..];
    assert |shuffled| == |AvailableRows(rows)| by {
      assert |multiset(shuffled)| == |multiset(AvailableRows(rows))|;
    }
    forall r | r in data ensures r in rows && r.status == AvailableStatus {
      assert r in multiset(shuffled);
    }
    data
  }

  // ---- detail ----

  datatype DetailError = ResourceNotFound   // 404 资源不存在

  /** `GET /resources/:id`: the first row with that id, or 404 when there is none. */
  function ResourceDetail(rows: seq<Resource>, id: int): (r: Result<Resource, DetailError>)
    ensures r.Err? <==> forall i :: 0 <= i < |rows| ==> rows[i].id != id
    ensures r.Ok? ==> r.value in rows && r.value.id == id
  {
    match FindResource(rows, id)
    case None => Err(ResourceNotFound)
    case Some(res) => Ok(res)
  }
}

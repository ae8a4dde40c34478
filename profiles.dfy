/**
 * The partial profile update shared by `updateUserInfo` (authController) and
 * `PUT /users/profile` (routes/users.js): one `SET` clause and one parameter per
 * truthy field, in the fixed order username, email, phone, then the user id for
 * `WHERE id = ?`. Also the two read-back projections of a user row.
 */
module Profiles {
  import opened Wrappers
  import opened Strings
  import opened Sql
  import opened Tables
  import opened Database

  /** `{ username, email, phone }` of the request body; an absent or falsy field is "". */
  datatype ProfileFields = ProfileFields(username: string, email: string, phone: string)

  function FieldValue(body: ProfileFields, c: Column): string {
    match c
    case Username => body.username
    case Email => body.email
    case Phone => body.phone
  }

  /** Position of a column in the fixed clause order. */
  function Rank(c: Column): nat {
    match c
    case Username => 0
    case Email => 1
    case Phone => 2
  }

  /** The columns the body sets: exactly the truthy fields, in the order username, email, phone. */
  function PresentColumns(body: ProfileFields): (cs: seq<Column>)
    ensures forall c :: c in cs <==> Truthy(FieldValue(body, c))
    ensures forall i, j :: 0 <= i < j < |cs| ==> Rank(cs[i]) < Rank(cs[j])
  {
    (if Truthy(body.username) then [Username] else [])
    + (if Truthy(body.email) then [Email] else [])
    + (if Truthy(body.phone) then [Phone] else [])
  }

  /** The values pushed onto `params`, one per present column. */
  function PresentValues(body: ProfileFields): (vs: seq<string>)
    ensures |vs| == |PresentColumns(body)|
  {
    var cs := PresentColumns(body);
    seq(|cs|, i requires 0 <= i < |cs| => FieldValue(body, cs[i]))
  }

  /** `<column> = ?` */
  function SetClause(c: Column): (q: Query)
    ensures WellFormed(q) && Holes(q) == 1
  {
    var head := match c
      case Username => "username = "
      case Email => "email = "
      case Phone => "phone = ";
    assert [Lit(head), Hole][1..] == [Hole];
    assert [Hole][1..] == [];
    [Lit(head), Hole]
  }

  function SetClauses(cs: seq<Column>): (qs: seq<Query>)
    ensures |qs| == |cs|
    ensures forall i :: 0 <= i < |qs| ==> WellFormed(qs[i])
  {
    seq(|cs|, i requires 0 <= i < |cs| => SetClause(cs[i]))
  }

  const UpdateHead := "UPDATE users SET "
  const Comma := ", "
  const WhereId := " WHERE id = "

  lemma UpdateHeadClean() ensures '?' !in UpdateHead {}
  lemma CommaClean() ensures '?' !in Comma {}
  lemma WhereIdClean() ensures '?' !in WhereId {}

  /** `UPDATE users SET <clauses joined by ", "> WHERE id = ?` */
  function UpdateText(clauses: seq<Query>): Query {
    [Lit(UpdateHead)] + JoinQueries(clauses, [Lit(Comma)]) + [Lit(WhereId), Hole]
  }

  lemma {:induction false} SetClausesHoles(cs: seq<Column>)
    ensures HolesAll(SetClauses(cs)) == |cs|
  {
    if |cs| > 0 {
      assert SetClauses(cs)[1..] == SetClauses(cs[1..]);
      SetClausesHoles(cs[1..]);
    }
  }

  /** The statement holds one placeholder per SET clause plus the one of `WHERE id = ?`, and renders to text with as many `?`. */
  lemma UpdateTextHoles(cs: seq<Column>)
    ensures WellFormed(UpdateText(SetClauses(cs)))
    ensures Holes(UpdateText(SetClauses(cs))) == |cs| + 1
    ensures Placeholders(Render(UpdateText(SetClauses(cs)))) == |cs| + 1
  {
    var sep: Query := [Lit(Comma)];
    var front: Query := [Lit(UpdateHead)];
    var back: Query := [Lit(WhereId), Hole];
    var joined := JoinQueries(SetClauses(cs), sep);
    CommaClean();
    UpdateHeadClean();
    WhereIdClean();
    assert sep[1..] == [] && front[1..] == [];
    assert Holes(sep) == 0 && Holes(front) == 0;
    assert back[1..] == [Hole] && [Hole][1..] == [];
    assert Holes(back) == 1;
    JoinQueriesHoles(SetClauses(cs), sep);
    SetClausesHoles(cs);
    AppendWellFormed(front, joined);
    AppendWellFormed(front + joined, back);
    var q := UpdateText(SetClauses(cs));
    assert q == front + joined + back;
    RenderPlaceholders(q);
  }

  /**
   * Builds `updateFields` and `params` by `push`, one truthy field at a time;
   * `None` is the 400 answer "nothing to update", given before any statement runs.
   */
  method BuildUpdate(body: ProfileFields, userId: int) returns (r: Option<Statement>)
    ensures r.None? <==> PresentColumns(body) == []
    ensures r.Some? ==> r.value.query == UpdateText(SetClauses(PresentColumns(body)))
    ensures r.Some? ==> r.value.params == StrParams(PresentValues(body)) + [Num(userId)]
    ensures r.Some? ==> WellFormed(r.value.query) && Holes(r.value.query) == |r.value.params|
  {
    var updateFields: seq<Query> := [];
    var params: seq<Param> := [];
    ghost var columns: seq<Column> := [];
    ghost var values: seq<string> := [];
    updateFields, params, columns, values := AddField(updateFields, params, columns, values, Username, body.username);
    updateFields, params, columns, values := AddField(updateFields, params, columns, values, Email, body.email);
    updateFields, params, columns, values := AddField(updateFields, params, columns, values, Phone, body.phone);
    PresentSpelled(body);
    if |updateFields| == 0 {
      return None;
    }
    params := params + [Num(userId)];
    UpdateTextHoles(columns);
    r := Some(Statement(UpdateText(updateFields), params));
  }

  /** One `if (field) { updateFields.push('<column> = ?'); params.push(field) }` step. */
  method AddField(updateFields: seq<Query>, params: seq<Param>, ghost columns: seq<Column>, ghost values: seq<string>,
                  c: Column, v: string)
    returns (updateFields': seq<Query>, params': seq<Param>, ghost columns': seq<Column>, ghost values': seq<string>)
    requires updateFields == SetClauses(columns) && params == StrParams(values)
    ensures updateFields' == updateFields + (if Truthy(v) then [SetClause(c)] else [])
    ensures params' == params + (if Truthy(v) then [Str(v)] else [])
    ensures columns' == columns + (if Truthy(v) then [c] else [])
    ensures values' == values + (if Truthy(v) then [v] else [])
    ensures updateFields' == SetClauses(columns') && params' == StrParams(values')
  {
    if !Truthy(v) {
      assert columns + [] == columns && values + [] == values;
      return updateFields, params, columns, values;
    }
    Appended(columns, values, c, v);
    updateFields', params' := updateFields + [SetClause(c)], params + [Str(v)];
    columns', values' := columns + [c], values + [v];
  }

  /** The present columns and values, spelled out as the three tests in order. */
  lemma PresentSpelled(body: ProfileFields)
    ensures PresentColumns(body) ==
      [] + (if Truthy(body.username) then [Username] else [])
         + (if Truthy(body.email) then [Email] else [])
         + (if Truthy(body.phone) then [Phone] else [])
    ensures PresentValues(body) ==
      [] + (if Truthy(body.username) then [body.username] else [])
         + (if Truthy(body.email) then [body.email] else [])
         + (if Truthy(body.phone) then [body.phone] else [])
  {
    var cs := PresentColumns(body);
    var vs := [] + (if Truthy(body.username) then [body.username] else [])
         + (if Truthy(body.email) then [body.email] else [])
         + (if Truthy(body.phone) then [body.phone] else []);
    assert |vs| == |cs|;
    forall i | 0 <= i < |cs| ensures PresentValues(body)[i] == vs[i] {
      assert FieldValue(body, cs[i]) == vs[i];
    }
  }

  lemma Appended(cs: seq<Column>, vs: seq<string>, c: Column, v: string)
    ensures SetClauses(cs + [c]) == SetClauses(cs) + [SetClause(c)]
    ensures StrParams(vs + [v]) == StrParams(vs) + [Str(v)]
  {
  }

  /** Each value as a string parameter. */
  function StrParams(vs: seq<string>): (ps: seq<Param>)
    ensures |ps| == |vs|
  {
    seq(|vs|, i requires 0 <= i < |vs| => Str(vs[i]))
  }

  datatype ProfileError = NothingToUpdate   // 400 没有要更新的字段

  /**
   * The shared write of `updateUserInfo` and `PUT /users/profile`: builds the
   * statement, refuses with 400 when no field is truthy, otherwise runs it,
   * patching the listed fields of the caller's row and nothing else.
   */
  method PatchProfile(db: Db, userId: int, body: ProfileFields) returns (r: Outcome<ProfileError>)
    modifies db`users
    ensures r.Fail? <==> PresentColumns(body) == []
    ensures r.Fail? ==> r.error == NothingToUpdate && db.users == old(db.users)
    ensures r.Pass? ==> |db.users| == |old(db.users)|
    ensures r.Pass? ==> forall i :: 0 <= i < |db.users| ==>
      db.users[i] == if old(db.users)[i].id == userId then Patched(old(db.users)[i], body) else old(db.users)[i]
    ensures r.Pass? ==>
              FindUser(db.users, userId) ==
              (match FindUser(old(db.users), userId)
               case None => None
               case Some(u) => Some(Patched(u, body)))
  {
    var statement := BuildUpdate(body, userId);
    if statement.None? {
      return Fail(NothingToUpdate);
    }
    var write := SetColumns(PresentColumns(body), PresentValues(body));
    ghost var before := db.users;
    db.users := UpdateWhereId(db.users, userId, write);
    UpdateScope(before, userId, body);
    FindUserAfterWrite(before, userId, write);
    match FindUser(before, userId) {
      case None =>
      case Some(u) => SetListPatches(u, body);
    }
    r := Pass;
  }

  /** The row the update is meant to produce: each truthy field replaced, every other column kept. */
  function Patched(u: User, body: ProfileFields): (p: User)
    ensures p.(username := u.username, email := u.email, phone := u.phone) == u
    ensures forall c :: Truthy(FieldValue(body, c)) ==> ColumnValue(p, c) == FieldValue(body, c)
    ensures forall c :: !Truthy(FieldValue(body, c)) ==> ColumnValue(p, c) == ColumnValue(u, c)
  {
    u.(username := if Truthy(body.username) then body.username else u.username,
       email := if Truthy(body.email) then body.email else u.email,
       phone := if Truthy(body.phone) then body.phone else u.phone)
  }

  /** Executing the SET list the builder emits patches exactly the truthy fields. */
  lemma SetListPatches(u: User, body: ProfileFields)
    ensures AssignAll(u, PresentColumns(body), PresentValues(body)) == Patched(u, body)
  {
    var cs := PresentColumns(body);
    var vs := PresentValues(body);
    var u1 := if Truthy(body.username) then u.(username := body.username) else u;
    var u2 := if Truthy(body.email) then u1.(email := body.email) else u1;
    var u3 := if Truthy(body.phone) then u2.(phone := body.phone) else u2;
    assert u3 == Patched(u, body);
    var c1 := if Truthy(body.username) then [Username] else [];
    var c2 := if Truthy(body.email) then [Email] else [];
    var c3 := if Truthy(body.phone) then [Phone] else [];
    assert cs == c1 + c2 + c3;
    var k := |c1|;
    assert AssignAll(u, cs, vs) == AssignAll(u1, cs[k..], vs[k..]);
    assert AssignAll(u1, cs[k..], vs[k..]) == AssignAll(u2, cs[k + |c2|..], vs[k + |c2|..]);
    assert cs[k + |c2|..] == c3;
    assert AssignAll(u2, c3, vs[k + |c2|..]) == u3;
  }

  /** Running the update on the table patches every row of the caller as intended and leaves all other rows alone. */
  lemma UpdateScope(rows: seq<User>, userId: int, body: ProfileFields)
    ensures var after := UpdateWhereId(rows, userId, SetColumns(PresentColumns(body), PresentValues(body)));
      && |after| == |rows|
      && (forall i :: 0 <= i < |rows| && rows[i].id != userId ==> after[i] == rows[i])
      && (forall i :: 0 <= i < |rows| && rows[i].id == userId ==> after[i] == Patched(rows[i], body))
  {
    forall u: User {
      SetListPatches(u, body);
    }
  }

  /** The columns `updateUserInfo` reads back: `id, username, email, phone`. */
  datatype ProfileSummary = ProfileSummary(id: int, username: string, email: string, phone: string)

  /** The columns `GET/PUT /users/profile` return; the password hash is not among them. */
  datatype Profile = Profile(
    id: int,
    username: string,
    email: string,
    phone: string,
    role: Role,
    registeredAt: nat,
    lastLogin: Option<nat>,
    status: string)

  function SummaryOf(u: User): ProfileSummary {
    ProfileSummary(u.id, u.username, u.email, u.phone)
  }

  function ProfileOf(u: User): Profile {
    Profile(u.id, u.username, u.email, u.phone, u.role, u.registeredAt, u.lastLogin, u.status)
  }
}

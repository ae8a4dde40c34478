/**
 * Parameterised SQL as the handlers build it: a query text with `?`
 * placeholders and a parallel list of parameters bound to them in order.
 * The text is kept as the list of fragments it is assembled from, literal SQL
 * and placeholders; `Render` gives the string sent to the driver.
 */
module Sql {
  import opened Strings

  /** A bound parameter: a string or a number. */
  datatype Param = Str(text: string) | Num(value: int)

  /** A fragment of query text: literal SQL, or one `?` placeholder. */
  datatype Chunk = Lit(text: string) | Hole

  type Query = seq<Chunk>

  /** A parameterised statement as handed to `db.query` / `db.execute`. */
  datatype Statement = Statement(query: Query, params: seq<Param>)

  /** The query string the fragments spell. */
  function Render(q: Query): string {
    if q == [] then ""
    else (match q[0] case Lit(t) => t case Hole => "?") + Render(q[1..])
  }

  /** Number of placeholder fragments. */
  function Holes(q: Query): nat {
    if q == [] then 0 else (if q[0].Hole? then 1 else 0) + Holes(q[1..])
  }

  /** No literal fragment smuggles in a `?` of its own. */
  predicate WellFormed(q: Query) {
    forall i :: 0 <= i < |q| && q[i].Lit? ==> '?' !in q[i].text
  }

  /** Number of `?` placeholders in a query string. */
  function Placeholders(text: string): nat {
    Count(text, '?')
  }

  lemma {:induction false} HolesAppend(a: Query, b: Query)
    ensures Holes(a + b) == Holes(a) + Holes(b)
  {
    if a == [] {
      assert a + b == b;
    } else {
      assert (a + b)[1..] == a[1..] + b;
      HolesAppend(a[1..], b);
    }
  }

  /** The rendered text of a well-formed query holds exactly one `?` per placeholder fragment. */
  lemma {:induction false} RenderPlaceholders(q: Query)
    requires WellFormed(q)
    ensures Placeholders(Render(q)) == Holes(q)
  {
    if q != [] {
      RenderPlaceholders(q[1..]);
      var head := match q[0] case Lit(t) => t case Hole => "?";
      CountConcat(head, Render(q[1..]), '?');
      if q[0].Lit? {
        CountZero(head, '?');
      } else {
        assert head == ['?'] && head[1..] == [];
      }
    }
  }

  /** `parts.join(sep)` over fragment lists. */
  function JoinQueries(parts: seq<Query>, sep: Query): Query {
    if |parts| == 0 then []
    else if |parts| == 1 then parts[0]
    else parts[0] + sep + JoinQueries(parts[1..], sep)
  }

  /** Total number of placeholders over a list of fragment lists. */
  function HolesAll(parts: seq<Query>): nat {
    if |parts| == 0 then 0 else Holes(parts[0]) + HolesAll(parts[1..])
  }

  /** Joining with a placeholder-free separator neither loses nor adds a placeholder, and keeps every fragment well formed. */
  lemma {:induction false} JoinQueriesHoles(parts: seq<Query>, sep: Query)
    requires Holes(sep) == 0 && WellFormed(sep)
    requires forall i :: 0 <= i < |parts| ==> WellFormed(parts[i])
    ensures Holes(JoinQueries(parts, sep)) == HolesAll(parts)
    ensures WellFormed(JoinQueries(parts, sep))
  {
    if |parts| == 1 {
      assert parts[1..] == [];
    } else if |parts| > 1 {
      JoinQueriesHoles(parts[1..], sep);
      HolesAppend(parts[0] + sep, JoinQueries(parts[1..], sep));
      HolesAppend(parts[0], sep);
    }
  }

  /** Concatenation keeps queries well formed and adds up their placeholders. */
  lemma AppendWellFormed(a: Query, b: Query)
    requires WellFormed(a) && WellFormed(b)
    ensures WellFormed(a + b) && Holes(a + b) == Holes(a) + Holes(b)
  {
    HolesAppend(a, b);
    forall i | 0 <= i < |a + b| && (a + b)[i].Lit?
      ensures '?' !in (a + b)[i].text
    {
      if i >= |a| {
        assert (a + b)[i] == b[i - |a|];
      }
    }
  }
}

/**
 * `ORDER BY <column> DESC`: sequences ordered by a numeric sort key, newest
 * first, built one row at a time by insertion.
 */
module Ordering {

  /** Every row's key is at least that of every later row. */
  ghost predicate Descending<T>(s: seq<T>, key: T -> int) {
    forall i, j :: 0 <= i < j < |s| ==> key(s[i]) >= key(s[j])
  }

  /** `x` inserted into `s` in front of the first row whose key is not larger than its own. */
  function Insert<T(==)>(x: T, s: seq<T>, key: T -> int): (r: seq<T>)
    ensures multiset(r) == multiset(s) + multiset{x}
    decreases |s|
  {
    if s == [] || key(x) >= key(s[0]) then
      [x] + s
    else
      assert s == [s[0]] + s[1..];
      [s[0]] + Insert(x, s[1..], key)
  }

  /** Insertion keeps a newest-first sequence newest-first. */
  lemma {:induction false} InsertDescending<T>(x: T, s: seq<T>, key: T -> int)
    requires Descending(s, key)
    ensures Descending(Insert(x, s, key), key)
    decreases |s|
  {
    if s != [] && key(x) < key(s[0]) {
      var rest := Insert(x, s[1..], key);
      InsertDescending(x, s[1..], key);
      assert s == [s[0]] + s[1..];
      // `rest` starts with `x` or with `s[1]`, neither newer than `s[0]`.
      if s[1..] == [] || key(x) >= key(s[1]) {
        assert rest[0] == x;
      } else {
        assert rest[0] == s[1];
      }
      var r := [s[0]] + rest;
      forall i, j | 0 <= i < j < |r| ensures key(r[i]) >= key(r[j]) {
        if i > 0 {
          assert r[i] == rest[i - 1] && r[j] == rest[j - 1];
        } else {
          assert r[j] == rest[j - 1];
          assert j == 1 || key(rest[0]) >= key(rest[j - 1]);
        }
      }
    }
  }

  /** The rows sorted newest first, inserted one at a time in their original order. */
  function SortDescending<T(==)>(s: seq<T>, key: T -> int): (r: seq<T>)
    ensures multiset(r) == multiset(s)
    decreases |s|
  {
    if s == [] then []
    else
      assert s == s[..|s| - 1] + [s[|s| - 1]];
      Insert(s[|s| - 1], SortDescending(s[..|s| - 1], key), key)
  }

  lemma {:induction false} SortDescendingSorted<T>(s: seq<T>, key: T -> int)
    ensures Descending(SortDescending(s, key), key)
    decreases |s|
  {
    if s != [] {
      SortDescendingSorted(s[..|s| - 1], key);
      InsertDescending(s[|s| - 1], SortDescending(s[..|s| - 1], key), key);
    }
  }

  /** `LIMIT n` on a newest-first sequence: a newest-first part of it, every row of which comes from it. */
  lemma TakeDescending<T>(s: seq<T>, n: nat, key: T -> int)
    requires n <= |s| && Descending(s, key)
    ensures Descending(s[..n], key)
    ensures multiset(s[..n]) <= multiset(s)
    ensures forall x :: x in s[..n] ==> x in s
  {
    assert s == s[..n] + s[n..];
  }

  /** How many of `m` rows a `LIMIT n` keeps. */
  function Min(n: nat, m: nat): nat {
    if n <= m then n else m
  }
}

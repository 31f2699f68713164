/**
 * Sequence helpers shared by the services: the array operations the source uses
 * (`filter`, `find`, `includes`, a stable `sort`, append-if-absent), stated once.
 */
module Seqs {
  import opened Wrappers

  /** No element occurs twice. */
  predicate NoDup<T(==)>(s: seq<T>) {
    forall i, j :: 0 <= i < j < |s| ==> s[i] != s[j]
  }

  /** Array `filter`: the elements satisfying `p`, in their original order. */
  function Filter<T(==,!new)>(s: seq<T>, p: T -> bool): (r: seq<T>)
    ensures |r| <= |s|
    ensures forall x :: x in r <==> x in s && p(x)
    ensures forall x :: multiset(r)[x] == if p(x) then multiset(s)[x] else 0
  {
    if s == [] then []
    else
      var rest := Filter(s[1..], p);
      assert s == [s[0]] + s[1..];
      assert multiset(s) == multiset{s[0]} + multiset(s[1..]);
      if p(s[0]) then [s[0]] + rest else rest
  }

  /** Array `findIndex` from position `from`: the first index at or after `from` whose element satisfies `p`. */
  function FindFrom<T>(s: seq<T>, p: T -> bool, from: nat): (r: Option<nat>)
    requires from <= |s|
    ensures r.Some? ==> from <= r.value < |s| && p(s[r.value])
    ensures r.Some? ==> forall j :: from <= j < r.value ==> !p(s[j])
    ensures r.None? ==> forall j :: from <= j < |s| ==> !p(s[j])
    decreases |s| - from
  {
    if from == |s| then None
    else if p(s[from]) then Some(from)
    else FindFrom(s, p, from + 1)
  }

  /** Array `find`: the first element satisfying `p`, if any. */
  function Find<T>(s: seq<T>, p: T -> bool): (r: Option<T>)
    ensures r.None? <==> forall j :: 0 <= j < |s| ==> !p(s[j])
    ensures r.Some? ==> exists i :: 0 <= i < |s| && s[i] == r.value && p(s[i])
                                    && forall j :: 0 <= j < i ==> !p(s[j])
  {
    match FindFrom(s, p, 0)
    case None => None
    case Some(i) => Some(s[i])
  }

  /** Appending elements after a match does not change what `find` returns. */
  lemma {:induction false} FindFromAppend<T>(a: seq<T>, b: seq<T>, p: T -> bool, from: nat)
    requires from <= |a| && FindFrom(a, p, from).Some?
    ensures FindFrom(a + b, p, from) == FindFrom(a, p, from)
    decreases |a| - from
  {
    assert (a + b)[from] == a[from];
    if !p(a[from]) {
      FindFromAppend(a, b, p, from + 1);
    }
  }

  /** Once `find` matches in `a`, it returns the same element on `a + b`. */
  lemma FindAppend<T>(a: seq<T>, b: seq<T>, p: T -> bool)
    requires Find(a, p).Some?
    ensures Find(a + b, p) == Find(a, p)
  {
    FindFromAppend(a, b, p, 0);
    var i := FindFrom(a, p, 0).value;
    assert (a + b)[i] == a[i];
  }

  /** When nothing in `a` matches, `find` on `a + [x]` returns the matching `x`. */
  lemma FindAppendNone<T>(a: seq<T>, x: T, p: T -> bool)
    requires Find(a, p).None? && p(x)
    ensures Find(a + [x], p) == Some(x)
  {
    var b := a + [x];
    assert b[|a|] == x;
    assert forall j :: 0 <= j < |a| ==> b[j] == a[j];
  }

  /** `a` may stand before `b` in a list ordered by `key`, descending or ascending. */
  predicate Precedes<T>(a: T, b: T, key: T -> int, descending: bool) {
    if descending then key(a) >= key(b) else key(a) <= key(b)
  }

  predicate SortedBy<T>(s: seq<T>, key: T -> int, descending: bool) {
    forall i, j :: 0 <= i < j < |s| ==> Precedes(s[i], s[j], key, descending)
  }

  /** The elements of `s` whose key is `v`, in their order in `s`. */
  function KeyRun<T>(s: seq<T>, key: T -> int, v: int): seq<T> {
    if s == [] then [] else (if key(s[0]) == v then [s[0]] else []) + KeyRun(s[1..], key, v)
  }

  /** The key run of `[x] + s` is that of `s`, preceded by `x` when `x` has the key. */
  lemma KeyRunCons<T>(x: T, s: seq<T>, key: T -> int, v: int)
    ensures KeyRun([x] + s, key, v) == (if key(x) == v then [x] else []) + KeyRun(s, key, v)
  {
    assert ([x] + s)[1..] == s;
  }

  /** Inserts `x` in front of the first element it may precede; ties keep `x` first. */
  function Insert<T(==,!new)>(x: T, s: seq<T>, key: T -> int, descending: bool): (r: seq<T>)
    requires SortedBy(s, key, descending)
    ensures SortedBy(r, key, descending)
    ensures multiset(r) == multiset(s) + multiset{x}
    ensures |r| == |s| + 1
    ensures forall z :: z in r ==> z == x || z in s
  {
    if s == [] || Precedes(x, s[0], key, descending) then [x] + s
    else
      var rest := Insert(x, s[1..], key, descending);
      assert s == [s[0]] + s[1..];
      assert forall z :: z in s[1..] ==> Precedes(s[0], z, key, descending);
      SortedCons(s[0], rest, key, descending);
      [s[0]] + rest
  }

  /** An element that may precede every element of a sorted list may head it. */
  lemma SortedCons<T>(y: T, t: seq<T>, key: T -> int, descending: bool)
    requires SortedBy(t, key, descending)
    requires forall z :: z in t ==> Precedes(y, z, key, descending)
    ensures SortedBy([y] + t, key, descending)
  {
    forall i, j | 0 <= i < j < |[y] + t| ensures Precedes(([y] + t)[i], ([y] + t)[j], key, descending) {
      assert ([y] + t)[j] == t[j - 1];
      if i > 0 {
        assert ([y] + t)[i] == t[i - 1];
      }
    }
  }

  /** Among the elements of its key, the inserted `x` comes first; the others keep their order. */
  lemma {:induction false} InsertKeyRun<T(!new)>(x: T, s: seq<T>, key: T -> int, descending: bool, v: int)
    requires SortedBy(s, key, descending)
    ensures KeyRun(Insert(x, s, key, descending), key, v) == (if key(x) == v then [x] else []) + KeyRun(s, key, v)
    decreases |s|
  {
    if s == [] || Precedes(x, s[0], key, descending) {
      KeyRunCons(x, s, key, v);
    } else {
      var rest := Insert(x, s[1..], key, descending);
      InsertKeyRun(x, s[1..], key, descending, v);
      KeyRunCons(s[0], rest, key, v);
      KeyRunCons(s[0], s[1..], key, v);
      assert s == [s[0]] + s[1..];
    }
  }

  /**
   * Array `sort` with the comparator `key(a) - key(b)` (ascending) or
   * `key(b) - key(a)` (descending). The sort is stable, as the language's
   * sort is: the elements of each key keep their relative order.
   */
  function SortBy<T(==,!new)>(s: seq<T>, key: T -> int, descending: bool): (r: seq<T>)
    ensures SortedBy(r, key, descending)
    ensures multiset(r) == multiset(s)
    ensures |r| == |s|
    ensures forall v :: KeyRun(r, key, v) == KeyRun(s, key, v)
  {
    if s == [] then []
    else
      assert s == [s[0]] + s[1..];
      var rest := SortBy(s[1..], key, descending);
      assert forall v :: KeyRun(Insert(s[0], rest, key, descending), key, v) == KeyRun(s, key, v) by {
        forall v ensures KeyRun(Insert(s[0], rest, key, descending), key, v) == KeyRun(s, key, v) {
          InsertKeyRun(s[0], rest, key, descending, v);
          KeyRunCons(s[0], s[1..], key, v);
        }
      }
      Insert(s[0], rest, key, descending)
  }

  /** `xs.includes(x) ? xs : [...xs, x]`. */
  function AppendIfAbsent<T(==,!new)>(s: seq<T>, x: T): (r: seq<T>)
    ensures x in r
    ensures forall y :: y in r <==> y in s || y == x
    ensures NoDup(s) ==> NoDup(r)
    ensures x in s ==> r == s
    ensures x !in s ==> |r| == |s| + 1 && r[..|s|] == s
  {
    if x in s then s else s + [x]
  }

  /** How often `x` occurs in `s`. */
  function Occurrences<T(==)>(s: seq<T>, x: T): (n: nat)
    ensures n == multiset(s)[x]
  {
    if s == [] then 0
    else
      assert s == [s[0]] + s[1..];
      (if s[0] == x then 1 else 0) + Occurrences(s[1..], x)
  }

  lemma {:induction false} NoDupOccursOnce<T>(s: seq<T>, x: T)
    requires NoDup(s)
    ensures Occurrences(s, x) == if x in s then 1 else 0
  {
    if s != [] {
      assert NoDup(s[1..]) by {
        forall i, j | 0 <= i < j < |s[1..]| ensures s[1..][i] != s[1..][j] {
          assert s[1..][i] == s[i + 1] && s[1..][j] == s[j + 1];
        }
      }
      NoDupOccursOnce(s[1..], x);
      if s[0] == x {
        assert x !in s[1..] by {
          forall j | 0 <= j < |s[1..]| ensures s[1..][j] != x {
            assert s[1..][j] == s[j + 1];
          }
        }
      } else {
        assert x in s <==> x in s[1..] by {
          assert s == [s[0]] + s[1..];
        }
      }
    }
  }

  /** A duplicate-free listing of a set has the set's size. */
  lemma {:induction false} NoDupCardinality<T>(order: seq<T>, keys: set<T>)
    requires NoDup(order) && forall k :: k in keys <==> k in order
    ensures |order| == |keys|
    decreases |order|
  {
    if order != [] {
      var rest := order[1..];
      assert NoDup(rest) by {
        forall i, j | 0 <= i < j < |rest| ensures rest[i] != rest[j] {
          assert rest[i] == order[i + 1] && rest[j] == order[j + 1];
        }
      }
      assert order[0] !in rest by {
        forall j | 0 <= j < |rest| ensures rest[j] != order[0] {
          assert rest[j] == order[j + 1];
        }
      }
      assert forall k :: k in keys - {order[0]} <==> k in rest by {
        assert order == [order[0]] + rest;
      }
      NoDupCardinality(rest, keys - {order[0]});
    }
  }
}

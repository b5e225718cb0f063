/** Sorting a set under a total order: one answer, whatever order the elements arrive in.

    Go ranges over a map in an unspecified order, then sorts. `SortSet` is that answer as a
    function of the set alone, and `Sort` is the code that reaches it from any listing. */
module Sorting {
  ghost predicate TotalOn<T(!new)>(le: (T, T) -> bool, s: set<T>) {
    && (forall x, y | x in s && y in s :: le(x, y) || le(y, x))
    && (forall x, y | x in s && y in s && le(x, y) && le(y, x) :: x == y)
    && (forall x, y, z | x in s && y in s && z in s && le(x, y) && le(y, z) :: le(x, z))
  }

  function Elements<T>(xs: seq<T>): set<T> {
    set x | x in xs
  }

  ghost predicate Distinct<T(!new)>(xs: seq<T>) {
    forall i, j | 0 <= i < j < |xs| :: xs[i] != xs[j]
  }

  ghost predicate Sorted<T>(xs: seq<T>, le: (T, T) -> bool) {
    forall i, j | 0 <= i < j < |xs| :: le(xs[i], xs[j])
  }

  /** `xs` lists every element of `s` exactly once, in order. */
  ghost predicate IsSortOf<T(!new)>(xs: seq<T>, s: set<T>, le: (T, T) -> bool) {
    Elements(xs) == s && Distinct(xs) && Sorted(xs, le)
  }

  lemma {:induction false} SubsetSize<T>(a: set<T>, b: set<T>)
    requires a <= b
    ensures |a| <= |b|
    ensures |a| == |b| ==> a == b
  {
    if a != {} {
      var x :| x in a;
      SubsetSize(a - {x}, b - {x});
    }
  }

  lemma MakeSort<T(!new)>(xs: seq<T>, s: set<T>, le: (T, T) -> bool)
    requires forall i | 0 <= i < |xs| :: xs[i] in s
    requires forall x | x in s :: x in xs
    requires forall i, j | 0 <= i < j < |xs| :: le(xs[i], xs[j]) && xs[i] != xs[j]
    ensures IsSortOf(xs, s, le)
  {
  }

  lemma {:induction false} LeastExists<T(!new)>(s: set<T>, le: (T, T) -> bool)
    requires TotalOn(le, s) && s != {}
    ensures exists m :: m in s && forall x | x in s :: le(m, x)
  {
    var y :| y in s;
    var rest := s - {y};
    if rest == {} {
      assert s == {y};
    } else {
      LeastExists(rest, le);
      var m :| m in rest && forall x | x in rest :: le(m, x);
      var w := if le(m, y) then m else y;
      assert forall x | x in s :: x == y || x in rest;
      assert w in s && forall x | x in s :: le(w, x);
    }
  }

  ghost function Least<T(!new)>(s: set<T>, le: (T, T) -> bool): (m: T)
    requires TotalOn(le, s) && s != {}
    ensures m in s && forall x | x in s :: le(m, x)
  {
    LeastExists(s, le);
    var m :| m in s && forall x | x in s :: le(m, x);
    m
  }

  lemma LeastUnique<T(!new)>(s: set<T>, le: (T, T) -> bool, m: T)
    requires TotalOn(le, s) && m in s && forall x | x in s :: le(m, x)
    ensures Least(s, le) == m
  {
  }

  lemma ConsIsSort<T(!new)>(m: T, rest: seq<T>, s: set<T>, le: (T, T) -> bool)
    requires m in s && IsSortOf(rest, s - {m}, le)
    requires forall x | x in s :: le(m, x)
    ensures IsSortOf([m] + rest, s, le)
  {
    var xs := [m] + rest;
    forall i | 0 <= i < |rest| ensures rest[i] in s - {m} {
      assert rest[i] in Elements(rest);
    }
    forall x | x in s ensures x in xs {
      if x != m {
        assert x in Elements(rest);
        var i :| 0 <= i < |rest| && rest[i] == x;
        assert xs[i + 1] == x;
      } else {
        assert xs[0] == m;
      }
    }
  }

  ghost function SortSet<T(!new)>(s: set<T>, le: (T, T) -> bool): seq<T>
    requires TotalOn(le, s)
  {
    if s == {} then []
    else
      var m := Least(s, le);
      [m] + SortSet(s - {m}, le)
  }

  lemma {:induction false} SortSetSorts<T(!new)>(s: set<T>, le: (T, T) -> bool)
    requires TotalOn(le, s)
    ensures IsSortOf(SortSet(s, le), s, le)
    ensures |SortSet(s, le)| == |s|
  {
    if s != {} {
      var m := Least(s, le);
      SortSetSorts(s - {m}, le);
      ConsIsSort(m, SortSet(s - {m}, le), s, le);
    }
  }

  lemma {:induction false} SortUnique<T(!new)>(xs: seq<T>, ys: seq<T>, s: set<T>, le: (T, T) -> bool)
    requires TotalOn(le, s)
    requires IsSortOf(xs, s, le) && IsSortOf(ys, s, le)
    ensures xs == ys
  {
    assert forall i | 0 <= i < |xs| :: xs[i] in Elements(xs);
    assert forall i | 0 <= i < |ys| :: ys[i] in Elements(ys);
    if xs != [] && ys != [] {
      assert xs[0] in Elements(xs) && ys[0] in Elements(ys);
      assert xs[0] in ys && ys[0] in xs;
      assert le(xs[0], ys[0]) && le(ys[0], xs[0]);
      TailIsSort(xs, s, le);
      TailIsSort(ys, s, le);
      SortUnique(xs[1..], ys[1..], s - {xs[0]}, le);
    }
  }

  lemma TailIsSort<T(!new)>(xs: seq<T>, s: set<T>, le: (T, T) -> bool)
    requires IsSortOf(xs, s, le) && xs != []
    ensures IsSortOf(xs[1..], s - {xs[0]}, le)
  {
    forall x | x in s - {xs[0]} ensures x in Elements(xs[1..]) {
      assert x in Elements(xs);
      var i :| 0 <= i < |xs| && xs[i] == x;
      assert xs[1..][i - 1] == x;
    }
  }

  lemma InsertIsSort<T(!new)>(ys: seq<T>, k: nat, x: T, s: set<T>, le: (T, T) -> bool)
    requires IsSortOf(ys, s, le) && x !in s && TotalOn(le, s + {x}) && k <= |ys|
    requires forall i | 0 <= i < k :: le(ys[i], x)
    requires k < |ys| ==> !le(ys[k], x)
    ensures IsSortOf(ys[..k] + [x] + ys[k..], s + {x}, le)
  {
    var zs := ys[..k] + [x] + ys[k..];
    forall i | 0 <= i < |ys| ensures ys[i] in s {
      assert ys[i] in Elements(ys);
    }
    forall i | k <= i < |ys| ensures le(x, ys[i]) {
      assert ys[k] in s && le(x, ys[k]);
      assert i > k ==> le(ys[k], ys[i]);
    }
    assert Elements(zs) == s + {x} by {
      forall y | y in s + {x} ensures y in zs {
        if y != x {
          assert y in Elements(ys);
          var i :| 0 <= i < |ys| && ys[i] == y;
          assert zs[if i < k then i else i + 1] == y;
        } else {
          assert zs[k] == x;
        }
      }
    }
  }

  lemma SplitMultiset<T>(ys: seq<T>, k: nat)
    requires k <= |ys|
    ensures multiset(ys) == multiset(ys[..k]) + multiset(ys[k..])
  {
    assert ys == ys[..k] + ys[k..];
  }

  /** The library sort, as an insertion sort: `xs` may list the set in any order. What is no total
      order still permutes. */
  method Sort<T(!new, ==)>(xs: seq<T>, le: (T, T) -> bool) returns (ys: seq<T>)
    ensures multiset(ys) == multiset(xs)
    ensures Distinct(xs) && TotalOn(le, Elements(xs)) ==> IsSortOf(ys, Elements(xs), le)
  {
    ghost var ordered := Distinct(xs) && TotalOn(le, Elements(xs));
    ys := [];
    for n := 0 to |xs|
      invariant multiset(ys) == multiset(xs[..n])
      invariant ordered ==> IsSortOf(ys, Elements(xs[..n]), le)
    {
      var k := 0;
      while k < |ys| && le(ys[k], xs[n])
        invariant 0 <= k <= |ys|
        invariant forall i | 0 <= i < k :: le(ys[i], xs[n])
      {
        k := k + 1;
      }
      if ordered {
        PrefixSet(xs, n);
        InsertIsSort(ys, k, xs[n], Elements(xs[..n]), le);
      }
      assert xs[..n + 1] == xs[..n] + [xs[n]];
      SplitMultiset(ys, k);
      ys := ys[..k] + [xs[n]] + ys[k..];
    }
    assert xs[..|xs|] == xs;
  }

  lemma SortIsSortSet<T(!new)>(ys: seq<T>, s: set<T>, le: (T, T) -> bool)
    requires TotalOn(le, s) && IsSortOf(ys, s, le)
    ensures ys == SortSet(s, le)
  {
    SortSetSorts(s, le);
    SortUnique(ys, SortSet(s, le), s, le);
  }

  lemma ListMore<T(!new)>(xs: seq<T>, x: T)
    requires Distinct(xs) && x !in Elements(xs)
    ensures Distinct(xs + [x]) && Elements(xs + [x]) == Elements(xs) + {x}
  {
    forall i | 0 <= i < |xs| ensures xs[i] != x {
      assert xs[i] in Elements(xs);
    }
  }

  lemma PrefixSet<T(!new)>(xs: seq<T>, n: nat)
    requires n < |xs| && Distinct(xs)
    ensures xs[n] !in Elements(xs[..n])
    ensures Elements(xs[..n + 1]) == Elements(xs[..n]) + {xs[n]}
    ensures Elements(xs[..n + 1]) <= Elements(xs)
  {
    assert xs[..n + 1] == xs[..n] + [xs[n]];
    assert forall x | x in xs[..n + 1] :: x in xs;
  }
}

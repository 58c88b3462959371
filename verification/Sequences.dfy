/**
 Facts about finite sequences: elements without repetition, filtering by a set,
 sums, and a sort by a caller-supplied order (the host languages' stable sort).
 */
module Sequences {
  ghost predicate NoDup<T>(s: seq<T>) {
    forall i, j | 0 <= i < j < |s| :: s[i] != s[j]
  }

  function Elems<T>(s: seq<T>): set<T> {
    set x | x in s
  }

  // The elements of s that belong to keep, in their order in s.
  function Keep<T(!new)>(s: seq<T>, keep: set<T>): (r: seq<T>)
    ensures forall x :: x in r <==> x in s && x in keep
  {
    if s == [] then []
    else
      var front := Keep(s[..|s| - 1], keep);
      var last := s[|s| - 1];
      assert s == s[..|s| - 1] + [last];
      if last in keep then front + [last] else front
  }

  lemma {:induction false} KeepNoDup<T(!new)>(s: seq<T>, keep: set<T>)
    requires NoDup(s)
    ensures NoDup(Keep(s, keep))
  {
    if s == [] {
    } else {
      var front := s[..|s| - 1];
      assert NoDup(front);
      KeepNoDup(front, keep);
      assert s[|s| - 1] !in front;
    }
  }

  lemma {:induction false} NoDupAppend<T>(s: seq<T>, x: T)
    ensures NoDup(s + [x]) <==> NoDup(s) && x !in s
  {
    var r := s + [x];
    assert forall i | 0 <= i < |s| :: s[i] == r[i];
    if x in s {
      var i :| 0 <= i < |s| && s[i] == x;
      assert r[i] == r[|s|];
    }
  }

  lemma {:induction false} NoDupConcat<T>(a: seq<T>, b: seq<T>)
    requires NoDup(a) && NoDup(b) && forall x | x in b :: x !in a
    ensures NoDup(a + b)
  {
    var s := a + b;
    forall i, j | 0 <= i < j < |s| ensures s[i] != s[j] {
      if i < |a| && j >= |a| {
        assert s[i] in a && s[j] in b;
      }
    }
  }

  lemma {:induction false} NoDupByPrefixes<T>(s: seq<T>)
    ensures NoDup(s) <==> forall i | 0 <= i < |s| :: s[i] !in s[..i]
  {
    forall i | 0 <= i < |s| ensures s[i] !in s[..i] <==> forall j | 0 <= j < i :: s[j] != s[i] {
      assert forall j | 0 <= j < i :: s[..i][j] == s[j];
    }
  }

  lemma {:induction false} NoDupCardinality<T>(s: seq<T>)
    requires NoDup(s)
    ensures |Elems(s)| == |s|
  {
    if s != [] {
      var front, last := s[..|s| - 1], s[|s| - 1];
      assert s == front + [last];
      NoDupAppend(front, last);
      NoDupCardinality(front);
      assert Elems(s) == Elems(front) + {last};
    } else {
      assert Elems(s) == {};
    }
  }

  lemma {:induction false} SubsetCardinality<T>(a: set<T>, b: set<T>)
    requires a <= b
    ensures |a| <= |b|
    ensures |a| == |b| ==> a == b
  {
    assert b == a + (b - a);
    assert |b| == |a| + |b - a|;
  }

  // A repetition-free sequence over a set is no longer than the set.
  lemma {:induction false} NoDupBound<T>(s: seq<T>, all: set<T>)
    requires NoDup(s) && forall x | x in s :: x in all
    ensures |s| <= |all|
  {
    NoDupCardinality(s);
    SubsetCardinality(Elems(s), all);
  }

  // Growing within a finite set leaves fewer elements outside, unless nothing was added.
  lemma {:induction false} RestShrinks<T>(all: set<T>, before: set<T>, after: set<T>)
    requires before <= after <= all
    ensures |all - after| <= |all - before|
    ensures |all - after| == |all - before| ==> after == before
  {
    SubsetCardinality(all - after, all - before);
    assert all - (all - after) == after && all - (all - before) == before;
  }

  lemma {:induction false} TakeNext<T>(s: seq<T>, i: nat)
    requires i < |s|
    ensures s[..i + 1] == s[..i] + [s[i]]
  {}

  lemma {:induction false} ElemsTakeNext<T>(s: seq<T>, i: nat)
    requires i < |s|
    ensures Elems(s[..i + 1]) == Elems(s[..i]) + {s[i]}
    ensures s[i] in s
    ensures NoDup(s) ==> s[i] !in s[..i]
  {
    TakeNext(s, i);
  }

  lemma {:induction false} TakeOfPrefix<T>(a: seq<T>, b: seq<T>, i: nat)
    requires a <= b && i <= |a|
    ensures b[..i] == a[..i]
  {}

  lemma {:induction false} NoDupMultiset<T>(s: seq<T>)
    requires NoDup(s)
    ensures multiset(s) == multiset(Elems(s))
  {
    if s == [] {
    } else {
      var front, last := s[..|s| - 1], s[|s| - 1];
      assert s == front + [last];
      NoDupAppend(front, last);
      NoDupMultiset(front);
      assert Elems(s) == Elems(front) + {last};
    }
  }

  function IndexOf<T(==)>(s: seq<T>, x: T): (i: nat)
    requires x in s
    ensures i < |s| && s[i] == x
    ensures forall j | 0 <= j < i :: s[j] != x
  {
    if s[0] == x then 0 else
      assert s == [s[0]] + s[1..];
      1 + IndexOf(s[1..], x)
  }

  lemma {:induction false} SamePosition<T>(s: seq<T>, i: nat, j: nat)
    requires NoDup(s) && i < |s| && j < |s|
    ensures s[i] == s[j] ==> i == j
  {}

  lemma {:induction false} IndexIsPosition<T>(s: seq<T>, i: nat)
    requires NoDup(s) && i < |s|
    ensures IndexOf(s, s[i]) == i
  {
    SamePosition(s, i, IndexOf(s, s[i]));
  }

  // ---- Sums -----------------------------------------------------------

  ghost function Sum<T(!new)>(s: seq<T>, weight: T -> int): int {
    if s == [] then 0 else Sum(s[..|s| - 1], weight) + weight(s[|s| - 1])
  }

  lemma {:induction false} SumMonotone<T(!new)>(s: seq<T>, low: T -> int, high: T -> int)
    requires forall x | x in s :: low(x) <= high(x)
    ensures Sum(s, low) <= Sum(s, high)
  {
    if s == [] {
    } else {
      assert forall x | x in s[..|s| - 1] :: x in s;
      SumMonotone(s[..|s| - 1], low, high);
    }
  }

  // Pointwise no larger, and smaller somewhere: the sum is smaller.
  lemma {:induction false} SumStrict<T(!new)>(s: seq<T>, low: T -> int, high: T -> int, at: T)
    requires forall x | x in s :: low(x) <= high(x)
    requires at in s && low(at) < high(at)
    ensures Sum(s, low) < Sum(s, high)
  {
    var front, last := s[..|s| - 1], s[|s| - 1];
    assert s == front + [last];
    assert forall x | x in front :: x in s;
    if at in front {
      SumStrict(front, low, high, at);
    } else {
      SumMonotone(front, low, high);
    }
  }

  lemma {:induction false} SumEqual<T(!new)>(s: seq<T>, f: T -> int, g: T -> int)
    requires forall x | x in s :: f(x) == g(x)
    ensures Sum(s, f) == Sum(s, g)
  {
    SumMonotone(s, f, g);
    SumMonotone(s, g, f);
  }

  // Two weights that differ by delta at one element of a repetition-free sequence.
  lemma {:induction false} SumPoint<T(!new)>(s: seq<T>, before: T -> int, after: T -> int, at: T, delta: int)
    requires NoDup(s)
    requires forall x | x in s && x != at :: after(x) == before(x)
    requires at in s ==> after(at) == before(at) + delta
    ensures Sum(s, after) == Sum(s, before) + if at in s then delta else 0
  {
    if s == [] {
    } else {
      var front, last := s[..|s| - 1], s[|s| - 1];
      assert s == front + [last];
      NoDupAppend(front, last);
      assert forall x | x in front :: x in s;
      SumPoint(front, before, after, at, delta);
    }
  }

  // ---- Sorting --------------------------------------------------------

  // Any two elements of s compare, and comparison is transitive on them.
  ghost predicate TotalOn<T(!new)>(leq: (T, T) -> bool, s: seq<T>) {
    && (forall a, b | a in s && b in s :: leq(a, b) || leq(b, a))
    && (forall a, b, c | a in s && b in s && c in s && leq(a, b) && leq(b, c) :: leq(a, c))
  }

  // A total, transitive and antisymmetric order on the elements of s.
  ghost predicate OrderOn<T(!new)>(leq: (T, T) -> bool, s: seq<T>) {
    && TotalOn(leq, s)
    && (forall a, b | a in s && b in s && leq(a, b) && leq(b, a) :: a == b)
  }

  ghost predicate Sorted<T(!new)>(leq: (T, T) -> bool, s: seq<T>) {
    forall i, j | 0 <= i < j < |s| :: leq(s[i], s[j])
  }

  function Insert<T>(x: T, s: seq<T>, leq: (T, T) -> bool): (r: seq<T>)
    ensures multiset(r) == multiset{x} + multiset(s)
    ensures |r| == |s| + 1
  {
    if s == [] then [x]
    else if leq(s[|s| - 1], x) then s + [x]
    else
      var front, last := s[..|s| - 1], s[|s| - 1];
      assert s == front + [last];
      Insert(x, front, leq) + [last]
  }

  function Sort<T>(s: seq<T>, leq: (T, T) -> bool): (r: seq<T>)
    ensures multiset(r) == multiset(s)
    ensures |r| == |s|
  {
    if s == [] then []
    else
      var front, last := s[..|s| - 1], s[|s| - 1];
      assert s == front + [last];
      Insert(last, Sort(front, leq), leq)
  }

  lemma {:induction false} SameMembers<T(!new)>(a: seq<T>, b: seq<T>)
    requires multiset(a) == multiset(b)
    ensures forall x :: x in a <==> x in b
  {
    forall x ensures x in a <==> x in b {
      assert x in a <==> x in multiset(a);
      assert x in b <==> x in multiset(b);
    }
  }

  lemma {:induction false} SortMembers<T(!new)>(s: seq<T>, leq: (T, T) -> bool)
    ensures forall x :: x in Sort(s, leq) <==> x in s
  {
    SameMembers(Sort(s, leq), s);
  }

  lemma {:induction false} NoDupByCounts<T>(s: seq<T>)
    ensures NoDup(s) <==> forall x | x in s :: multiset(s)[x] == 1
  {
    if s == [] {
    } else {
      var front, last := s[..|s| - 1], s[|s| - 1];
      assert s == front + [last];
      NoDupAppend(front, last);
      NoDupByCounts(front);
      assert multiset(s) == multiset(front) + multiset{last};
      if NoDup(front) && last !in front {
        forall x | x in s ensures multiset(s)[x] == 1 {
          if x == last { assert multiset(front)[last] == 0; } else { assert x in front; }
        }
      }
      if forall x | x in s :: multiset(s)[x] == 1 {
        assert multiset(s)[last] == 1;
        assert last !in multiset(front);
        forall x | x in front ensures multiset(front)[x] == 1 {
          assert x in s && x in multiset(front);
          assert multiset(s)[x] == 1;
        }
      }
    }
  }

  lemma {:induction false} PermutationNoDup<T(!new)>(a: seq<T>, b: seq<T>)
    requires multiset(a) == multiset(b)
    ensures NoDup(a) <==> NoDup(b)
  {
    NoDupByCounts(a);
    NoDupByCounts(b);
    SameMembers(a, b);
  }

  lemma {:induction false} TotalWithin<T(!new)>(leq: (T, T) -> bool, s: seq<T>, t: seq<T>)
    requires TotalOn(leq, s) && forall a | a in t :: a in s
    ensures TotalOn(leq, t)
  {}

  lemma {:induction false} SortedAppend<T(!new)>(s: seq<T>, x: T, leq: (T, T) -> bool)
    requires Sorted(leq, s) && forall a | a in s :: leq(a, x)
    ensures Sorted(leq, s + [x])
  {
    forall i | 0 <= i < |s| ensures leq(s[i], x) {
      assert s[i] in s;
    }
  }

  // Everything in a sorted sequence is below its last element.
  lemma {:induction false} BelowLast<T(!new)>(s: seq<T>, leq: (T, T) -> bool)
    requires s != [] && Sorted(leq, s) && TotalOn(leq, s)
    ensures forall a | a in s :: leq(a, s[|s| - 1])
    ensures Sorted(leq, s[..|s| - 1])
  {
    forall a | a in s ensures leq(a, s[|s| - 1]) {
      var i :| 0 <= i < |s| && s[i] == a;
      assert s[|s| - 1] in s;
      assert i < |s| - 1 ==> leq(s[i], s[|s| - 1]);
    }
  }

  // Whether x goes behind the last element or before it.
  lemma {:induction false} InsertCases<T(!new)>(x: T, s: seq<T>, leq: (T, T) -> bool)
    requires s != [] && TotalOn(leq, s + [x]) && forall a | a in s :: leq(a, s[|s| - 1])
    ensures leq(s[|s| - 1], x) ==> forall a | a in s :: leq(a, x)
    ensures !leq(s[|s| - 1], x) ==> leq(x, s[|s| - 1])
  {
    var last, all := s[|s| - 1], s + [x];
    assert x in all && last in s && forall a | a in s :: a in all;
  }

  lemma {:induction false} InsertMembers<T(!new)>(x: T, s: seq<T>, leq: (T, T) -> bool)
    ensures forall a :: a in Insert(x, s, leq) <==> a == x || a in s
  {
    SameMembers(Insert(x, s, leq), s + [x]);
  }

  lemma {:induction false} OneSorted<T(!new)>(x: T, leq: (T, T) -> bool)
    ensures Sorted(leq, [x])
  {}

  lemma {:induction false} InsertSorted<T(!new)>(x: T, s: seq<T>, leq: (T, T) -> bool)
    requires TotalOn(leq, s + [x]) && Sorted(leq, s)
    ensures Sorted(leq, Insert(x, s, leq))
  {
    hide TotalOn, Sorted;
    if s == [] {
      OneSorted(x, leq);
    } else {
      var front, last := s[..|s| - 1], s[|s| - 1];
      assert s == front + [last];
      TotalWithin(leq, s + [x], s);
      BelowLast(s, leq);
      InsertCases(x, s, leq);
      if leq(last, x) {
        SortedAppend(s, x, leq);
      } else {
        TotalWithin(leq, s + [x], front + [x]);
        InsertSorted(x, front, leq);
        InsertMembers(x, front, leq);
        assert forall a | a in front :: a in s;
        SortedAppend(Insert(x, front, leq), last, leq);
      }
    }
  }

  lemma {:induction false} SortSorted<T(!new)>(s: seq<T>, leq: (T, T) -> bool)
    requires TotalOn(leq, s)
    ensures Sorted(leq, Sort(s, leq))
  {
    if s == [] {
    } else {
      var front, last := s[..|s| - 1], s[|s| - 1];
      assert s == front + [last];
      assert forall a | a in front :: a in s;
      SortSorted(front, leq);
      SortMembers(front, leq);
      assert forall a | a in Sort(front, leq) + [last] :: a in s;
      InsertSorted(last, Sort(front, leq), leq);
    }
  }

  lemma {:induction false} SortedLast<T(!new)>(a: seq<T>, b: seq<T>, leq: (T, T) -> bool)
    requires a != [] && |a| == |b| && (forall x :: x in a <==> x in b)
    requires Sorted(leq, a) && Sorted(leq, b)
    requires forall x, y | x in a && y in a && leq(x, y) && leq(y, x) :: x == y
    ensures a[|a| - 1] == b[|b| - 1]
  {
    var la, lb := a[|a| - 1], b[|b| - 1];
    assert la in a && lb in b;
    assert la in b && lb in a;
    var i :| 0 <= i < |b| && b[i] == la;
    var j :| 0 <= j < |a| && a[j] == lb;
    assert i < |b| - 1 ==> leq(la, lb);
    assert j < |a| - 1 ==> leq(lb, la);
  }

  lemma {:induction false} DropLast<T>(a: seq<T>, b: seq<T>, last: T)
    requires a != [] && b != [] && a[|a| - 1] == b[|b| - 1] == last
    requires multiset(a) == multiset(b)
    ensures multiset(a[..|a| - 1]) == multiset(b[..|b| - 1])
  {
    assert a == a[..|a| - 1] + [last] && b == b[..|b| - 1] + [last];
    assert multiset(a[..|a| - 1]) == multiset(a) - multiset{last};
    assert multiset(b[..|b| - 1]) == multiset(b) - multiset{last};
  }

  // A sorted arrangement of given elements is unique.
  lemma {:induction false} SortedUnique<T(!new)>(a: seq<T>, b: seq<T>, leq: (T, T) -> bool)
    requires multiset(a) == multiset(b)
    requires Sorted(leq, a) && Sorted(leq, b)
    requires forall x, y | x in a && y in a && leq(x, y) && leq(y, x) :: x == y
    ensures a == b
  {
    SameMembers(a, b);
    assert |a| == |multiset(a)| == |multiset(b)| == |b|;
    if a == [] {
    } else {
      SortedLast(a, b, leq);
      var fa, fb, last := a[..|a| - 1], b[..|b| - 1], a[|a| - 1];
      DropLast(a, b, last);
      assert forall x | x in fa :: x in a;
      SortedUnique(fa, fb, leq);
      assert a == fa + [last] && b == fb + [last];
    }
  }

  lemma {:induction false} Assoc<T>(a: seq<T>, b: seq<T>, c: seq<T>)
    ensures a + b + c == a + (b + c)
  {}
}

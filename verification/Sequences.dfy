/** Sequence vocabulary shared by the other modules: distinctness, removal,
    and the stable sort the program calls through `sort_by_key`. */
module Sequences {

  datatype Option<+T> = None | Some(value: T)

  ghost predicate Distinct<T>(s: seq<T>) {
    forall i, j :: 0 <= i < j < |s| ==> s[i] != s[j]
  }

  /** `retain(|y| y != x)` */
  function Without<T(==)>(s: seq<T>, x: T): (r: seq<T>) {
    if s == [] then []
    else if s[|s|-1] == x then Without(s[..|s|-1], x)
    else Without(s[..|s|-1], x) + [s[|s|-1]]
  }

  lemma {:induction false} WithoutProperties<T>(s: seq<T>, x: T)
    ensures forall y :: y in Without(s, x) <==> y in s && y != x
    ensures Distinct(s) ==> Distinct(Without(s, x))
  {
    if s != [] {
      var init := s[..|s|-1];
      assert s == init + [s[|s|-1]];
      WithoutProperties(init, x);
      if Distinct(s) && s[|s|-1] != x {
        assert s[|s|-1] !in init;
      }
    }
  }

  /** `retain(|y| !drop.contains(y))` */
  function Minus<T(==)>(s: seq<T>, drop: set<T>): (r: seq<T>) {
    if s == [] then []
    else if s[|s|-1] in drop then Minus(s[..|s|-1], drop)
    else Minus(s[..|s|-1], drop) + [s[|s|-1]]
  }

  lemma {:induction false} MinusProperties<T>(s: seq<T>, drop: set<T>)
    ensures forall y :: y in Minus(s, drop) <==> y in s && y !in drop
    ensures Distinct(s) ==> Distinct(Minus(s, drop))
  {
    if s != [] {
      var init := s[..|s|-1];
      assert s == init + [s[|s|-1]];
      MinusProperties(init, drop);
      if Distinct(s) && s[|s|-1] !in drop {
        assert s[|s|-1] !in init;
      }
    }
  }

  lemma DistinctAppend<T>(s: seq<T>, x: T)
    requires Distinct(s) && x !in s
    ensures Distinct(s + [x])
  {}

  // ---------------------------------------------------------------- sorting

  ghost predicate SortedBy<T>(s: seq<T>, key: T -> int) {
    forall i, j :: 0 <= i < j < |s| ==> key(s[i]) <= key(s[j])
  }

  /** Insert `x` behind every element whose key does not exceed its own. */
  function InsertBy<T>(s: seq<T>, x: T, key: T -> int): seq<T> {
    if s == [] then [x]
    else if key(s[|s|-1]) <= key(x) then s + [x]
    else InsertBy(s[..|s|-1], x, key) + [s[|s|-1]]
  }

  /** Stable ascending sort. */
  function SortBy<T>(s: seq<T>, key: T -> int): seq<T> {
    if s == [] then [] else InsertBy(SortBy(s[..|s|-1], key), s[|s|-1], key)
  }

  lemma {:induction false} InsertByElements<T>(s: seq<T>, x: T, key: T -> int)
    ensures multiset(InsertBy(s, x, key)) == multiset(s) + multiset{x}
    ensures forall y :: y in InsertBy(s, x, key) ==> y == x || y in s
  {
    if s != [] && key(s[|s|-1]) > key(x) {
      var init, last := s[..|s|-1], s[|s|-1];
      assert s == init + [last];
      InsertByElements(init, x, key);
    }
  }

  lemma AppendSorted<T>(s: seq<T>, x: T, key: T -> int)
    requires SortedBy(s, key) && forall y :: y in s ==> key(y) <= key(x)
    ensures SortedBy(s + [x], key)
  {
    forall i | 0 <= i < |s| ensures key(s[i]) <= key(x) {
      assert s[i] in s;
    }
  }

  lemma SortedInit<T>(s: seq<T>, key: T -> int)
    requires s != [] && SortedBy(s, key)
    ensures SortedBy(s[..|s|-1], key) && forall y :: y in s ==> key(y) <= key(s[|s|-1])
  {
    forall y | y in s ensures key(y) <= key(s[|s|-1]) {
      var i :| 0 <= i < |s| && s[i] == y;
      if i < |s|-1 {
        assert key(s[i]) <= key(s[|s|-1]);
      }
    }
  }

  lemma {:induction false} InsertByProperties<T>(s: seq<T>, x: T, key: T -> int)
    requires SortedBy(s, key)
    ensures multiset(InsertBy(s, x, key)) == multiset(s) + multiset{x}
    ensures SortedBy(InsertBy(s, x, key), key)
  {
    hide SortedBy;
    InsertByElements(s, x, key);
    if s == [] {
      Singleton(x, key);
    } else {
      var init, last := s[..|s|-1], s[|s|-1];
      SortedInit(s, key);
      if key(last) <= key(x) {
        AppendSorted(s, x, key);
      } else {
        InsertByProperties(init, x, key);
        InsertByElements(init, x, key);
        AppendSorted(InsertBy(init, x, key), last, key);
      }
    }
  }

  lemma Singleton<T>(x: T, key: T -> int)
    ensures SortedBy([x], key)
  {}

  lemma {:induction false} SortByProperties<T>(s: seq<T>, key: T -> int)
    ensures multiset(SortBy(s, key)) == multiset(s)
    ensures SortedBy(SortBy(s, key), key)
    ensures |SortBy(s, key)| == |s|
    ensures forall x :: x in SortBy(s, key) <==> x in s
  {
    var r := SortBy(s, key);
    if s != [] {
      var init, last := s[..|s|-1], s[|s|-1];
      assert s == init + [last];
      SortByProperties(init, key);
      InsertByProperties(SortBy(init, key), last, key);
    }
    assert |multiset(r)| == |r| && |multiset(s)| == |s|;
    forall x ensures x in r <==> x in s {
      assert x in r <==> x in multiset(r);
      assert x in s <==> x in multiset(s);
    }
  }

  /** A sequence already in order is left alone. */
  lemma {:induction false} SortBySorted<T>(s: seq<T>, key: T -> int)
    requires SortedBy(s, key)
    ensures SortBy(s, key) == s
  {
    if s != [] {
      var init := s[..|s|-1];
      SortBySorted(init, key);
      assert s == init + [s[|s|-1]];
      if init != [] {
        assert key(s[|s|-2]) <= key(s[|s|-1]);
      }
    }
  }

  function Itself(x: nat): int { x }

  lemma LastIsGreatest(a: seq<nat>, x: nat)
    requires SortedBy(a, Itself) && x in multiset(a)
    ensures a != [] && x <= a[|a|-1]
  {
    assert x in a;
    var i :| 0 <= i < |a| && a[i] == x;
    if i < |a|-1 {
      assert Itself(a[i]) <= Itself(a[|a|-1]);
    }
  }

  lemma DropLast<T>(a: seq<T>)
    requires a != []
    ensures multiset(a[..|a|-1]) == multiset(a) - multiset{a[|a|-1]}
    ensures a == a[..|a|-1] + [a[|a|-1]]
    ensures a[|a|-1] in multiset(a)
  {
    assert a == a[..|a|-1] + [a[|a|-1]];
  }

  /** Two ascending sequences with the same elements are the same sequence. */
  lemma {:induction false} SortedUnique(a: seq<nat>, b: seq<nat>)
    requires SortedBy(a, Itself) && SortedBy(b, Itself)
    requires multiset(a) == multiset(b)
    ensures a == b
  {
    if a == [] {
      assert |b| == |multiset(b)| == 0;
    } else {
      DropLast(a);
      LastIsGreatest(b, a[|a|-1]);
      DropLast(b);
      LastIsGreatest(a, b[|b|-1]);
      var x := a[|a|-1];
      assert x == b[|b|-1];
      var a', b' := a[..|a|-1], b[..|b|-1];
      assert multiset(a') == multiset(b');
      SortedInit(a, Itself);
      SortedInit(b, Itself);
      SortedUnique(a', b');
    }
  }

  ghost predicate StrictlySortedBy<T>(s: seq<T>, key: T -> int) {
    forall i, j :: 0 <= i < j < |s| ==> key(s[i]) < key(s[j])
  }

  lemma InMultiset<T>(s: seq<T>, x: T) returns (i: nat)
    requires x in multiset(s)
    ensures i < |s| && s[i] == x
  {
    assert x in s;
    i :| 0 <= i < |s| && s[i] == x;
  }

  lemma SameLast<T>(a: seq<T>, b: seq<T>, key: T -> int)
    requires SortedBy(a, key) && StrictlySortedBy(b, key) && multiset(a) == multiset(b) && a != [] && b != []
    ensures a[|a|-1] == b[|b|-1]
  {
    var x, y := a[|a|-1], b[|b|-1];
    assert x in multiset(a) && y in multiset(b);
    var i := InMultiset(a, y);
    var j := InMultiset(b, x);
    assert key(y) <= key(x);
    assert j == |b| - 1;
  }

  /** Elements with pairwise different keys sort into one sequence only. */
  lemma SortDistinctKeys<T>(a: seq<T>, b: seq<T>, key: T -> int)
    requires SortedBy(a, key) && StrictlySortedBy(b, key) && multiset(a) == multiset(b)
    ensures a == b
  {
    hide SortedBy, StrictlySortedBy;
    assert |a| == |multiset(a)| == |multiset(b)| == |b|;
    if a != [] {
      SameLast(a, b, key);
      DropLast(a);
      DropLast(b);
      InitSorted(a, b, key);
      SortDistinctKeys(a[..|a|-1], b[..|b|-1], key);
    }
  }

  lemma InitSorted<T>(a: seq<T>, b: seq<T>, key: T -> int)
    requires a != [] && b != [] && SortedBy(a, key) && StrictlySortedBy(b, key)
    ensures SortedBy(a[..|a|-1], key) && StrictlySortedBy(b[..|b|-1], key)
  {}

  /** Two enumerations of one set have the same elements with multiplicity. */
  lemma SameSetSameMultiset<T>(a: seq<T>, b: seq<T>)
    requires Distinct(a) && Distinct(b)
    requires forall x :: x in a <==> x in b
    ensures multiset(a) == multiset(b)
  {
    forall x ensures multiset(a)[x] == multiset(b)[x] {
      DistinctCount(a, x);
      DistinctCount(b, x);
    }
  }

  lemma DistinctCount<T>(s: seq<T>, x: T)
    requires Distinct(s)
    ensures multiset(s)[x] == if x in s then 1 else 0
  {
    if s != [] {
      var init := s[..|s|-1];
      assert s == init + [s[|s|-1]];
      DistinctCount(init, x);
    }
  }

  lemma SubsetSize<T>(a: set<T>, b: set<T>)
    requires a <= b
    ensures |a| <= |b|
  {
    if a != {} {
      var x :| x in a;
      SubsetSize(a - {x}, b - {x});
    }
  }

  // ------------------------------------------------------------ ordered sets

  /** The least element of a non-empty set. */
  function Least(ids: set<nat>): (m: nat)
    requires ids != {}
    ensures m in ids && forall t :: t in ids ==> m <= t
  {
    LeastExists(ids);
    var m :| m in ids && forall t :: t in ids ==> m <= t;
    m
  }

  lemma {:induction false} LeastExists(ids: set<nat>)
    requires ids != {}
    ensures exists m :: m in ids && forall t :: t in ids ==> m <= t
  {
    var x :| x in ids;
    if ids != {x} {
      var rest := ids - {x};
      LeastExists(rest);
      var m :| m in rest && forall t :: t in rest ==> m <= t;
      var least := if x < m then x else m;
      assert forall t :: t in ids ==> t == x || t in rest;
      assert least in ids && forall t :: t in ids ==> least <= t;
    }
  }

  /** A set of numbers in ascending order. */
  function Ascending(ids: set<nat>): (r: seq<nat>)
    ensures Distinct(r) && |r| == |ids|
    ensures forall t :: t in r <==> t in ids
    ensures SortedBy(r, Itself)
  {
    if ids == {} then []
    else
      var m := Least(ids);
      var rest := Ascending(ids - {m});
      PrependLeast(m, rest);
      [m] + rest
  }

  lemma PrependLeast(m: nat, rest: seq<nat>)
    requires Distinct(rest) && SortedBy(rest, Itself) && forall t :: t in rest ==> m < t
    ensures Distinct([m] + rest) && SortedBy([m] + rest, Itself)
  {
    assert forall i :: 0 <= i < |rest| ==> rest[i] in rest;
  }
}

/**
Byte-wise string order and sorting: what the code relies on wherever it sorts keys or reasons.
*/
module Ordering {

  predicate Leq(a: string, b: string) {
    if a == "" then true
    else if b == "" then false
    else if a[0] != b[0] then a[0] < b[0]
    else Leq(a[1..], b[1..])
  }

  lemma {:induction false} LeqReflexive(a: string)
    ensures Leq(a, a)
  {
    if a != "" { LeqReflexive(a[1..]); }
  }

  lemma {:induction false} LeqTotal(a: string, b: string)
    ensures Leq(a, b) || Leq(b, a)
  {
    if a != "" && b != "" && a[0] == b[0] { LeqTotal(a[1..], b[1..]); }
  }

  lemma {:induction false} LeqTransitive(a: string, b: string, c: string)
    requires Leq(a, b) && Leq(b, c)
    ensures Leq(a, c)
  {
    if a != "" && a[0] == b[0] == c[0] { LeqTransitive(a[1..], b[1..], c[1..]); }
  }

  lemma {:induction false} LeqAntisymmetric(a: string, b: string)
    requires Leq(a, b) && Leq(b, a)
    ensures a == b
  {
    if a != "" {
      LeqAntisymmetric(a[1..], b[1..]);
      assert a == [a[0]] + a[1..] && b == [b[0]] + b[1..];
    }
  }

  ghost predicate Below(x: string, xs: seq<string>) {
    forall y | y in xs :: Leq(x, y)
  }

  ghost predicate Sorted(xs: seq<string>) {
    xs == [] || (Below(xs[0], xs[1..]) && Sorted(xs[1..]))
  }

  ghost predicate Distinct(xs: seq<string>) {
    xs == [] || (xs[0] !in xs[1..] && Distinct(xs[1..]))
  }

  /** In order and without repetition. */
  ghost predicate Strict(xs: seq<string>) {
    Sorted(xs) && Distinct(xs)
  }

  function Insert(x: string, xs: seq<string>): seq<string> {
    if xs == [] then [x]
    else if Leq(x, xs[0]) then [x] + xs
    else [xs[0]] + Insert(x, xs[1..])
  }

  /** The list in order, repetitions kept. */
  function Sort(xs: seq<string>): seq<string> {
    if xs == [] then [] else Insert(xs[0], Sort(xs[1..]))
  }

  lemma HeadTail(xs: seq<string>, y: string)
    requires xs != []
    ensures multiset(xs) == multiset{xs[0]} + multiset(xs[1..])
    ensures y in xs <==> y == xs[0] || y in xs[1..]
  {
    assert xs == [xs[0]] + xs[1..];
  }

  lemma SameElements(xs: seq<string>, ys: seq<string>)
    requires multiset(xs) == multiset(ys)
    ensures forall y :: y in xs <==> y in ys
  {
    forall y ensures y in xs <==> y in ys {
      assert y in xs <==> y in multiset(xs);
      assert y in ys <==> y in multiset(ys);
    }
  }

  lemma BelowTrans(x: string, y: string, ys: seq<string>)
    requires Leq(x, y) && Below(y, ys)
    ensures Below(x, ys)
  {
    hide Leq;
    forall z | z in ys ensures Leq(x, z) {
      LeqTransitive(x, y, z);
    }
  }

  lemma {:induction false} InsertSorts(x: string, xs: seq<string>)
    requires Sorted(xs)
    ensures Sorted(Insert(x, xs))
    ensures multiset(Insert(x, xs)) == multiset(xs) + multiset{x}
  {
    hide Leq;
    var r := Insert(x, xs);
    if xs == [] {
      assert r[1..] == [];
    } else if Leq(x, xs[0]) {
      assert r[1..] == xs;
      BelowTrans(x, xs[0], xs[1..]);
      forall y | y in xs ensures Leq(x, y) { HeadTail(xs, y); }
    } else {
      LeqTotal(x, xs[0]);
      InsertSorts(x, xs[1..]);
      var tail := Insert(x, xs[1..]);
      assert r == [xs[0]] + tail && r[1..] == tail;
      HeadTail(xs, x);
      assert Below(xs[0], tail) by { InsertedBelow(x, xs[0], xs[1..], tail); }
    }
  }

  lemma InsertedBelow(x: string, y: string, xs: seq<string>, ys: seq<string>)
    requires Leq(y, x) && Below(y, xs) && multiset(ys) == multiset(xs) + multiset{x}
    ensures Below(y, ys)
  {
    hide Leq;
    forall z | z in ys ensures Leq(y, z) {
      assert z in multiset(ys);
      assert z == x || z in multiset(xs);
    }
  }

  lemma {:induction false} SortSorts(xs: seq<string>)
    ensures Sorted(Sort(xs))
    ensures multiset(Sort(xs)) == multiset(xs)
  {
    hide Leq, Insert;
    if xs != [] {
      SortSorts(xs[1..]);
      InsertSorts(xs[0], Sort(xs[1..]));
      HeadTail(xs, xs[0]);
    }
  }

  lemma HeadLeast(a: seq<string>, x: string)
    requires a != [] && Sorted(a) && x in a
    ensures Leq(a[0], x)
  {
    HeadTail(a, x);
    LeqReflexive(a[0]);
  }

  /** A sorted list is determined by its elements. */
  lemma {:induction false} SortedUnique(a: seq<string>, b: seq<string>)
    requires Sorted(a) && Sorted(b) && multiset(a) == multiset(b)
    ensures a == b
  {
    hide Leq;
    SameElements(a, b);
    assert |a| == |multiset(a)| == |multiset(b)| == |b|;
    if a != [] {
      assert a[0] in b;
      HeadLeast(a, b[0]);
      HeadLeast(b, a[0]);
      LeqAntisymmetric(a[0], b[0]);
      HeadTail(a, a[0]);
      HeadTail(b, b[0]);
      assert multiset(a[1..]) == multiset(a) - multiset{a[0]};
      assert multiset(b[1..]) == multiset(b) - multiset{b[0]};
      SortedUnique(a[1..], b[1..]);
      assert a == [a[0]] + a[1..] && b == [b[0]] + b[1..];
    }
  }

  lemma {:induction false} DistinctCount(a: seq<string>, x: string)
    requires Distinct(a)
    ensures multiset(a)[x] == if x in a then 1 else 0
  {
    if a != [] {
      HeadTail(a, x);
      DistinctCount(a[1..], x);
    }
  }

  lemma {:induction false} CountDistinct(a: seq<string>)
    requires forall x :: multiset(a)[x] <= 1
    ensures Distinct(a)
  {
    if a != [] {
      HeadTail(a, a[0]);
      assert multiset(a)[a[0]] == 1 + multiset(a[1..])[a[0]];
      forall x ensures multiset(a[1..])[x] <= 1 {
        assert multiset(a)[x] >= multiset(a[1..])[x];
      }
      CountDistinct(a[1..]);
    }
  }

  lemma {:induction false} PairwiseDistinct(xs: seq<string>)
    ensures Distinct(xs) <==> forall i, j | 0 <= i < j < |xs| :: xs[i] != xs[j]
  {
    if xs != [] {
      PairwiseDistinct(xs[1..]);
      if forall i, j | 0 <= i < j < |xs| :: xs[i] != xs[j] {
        assert forall j | 0 <= j < |xs| - 1 :: xs[1..][j] == xs[j + 1];
      }
      if Distinct(xs) {
        forall i, j | 0 <= i < j < |xs| ensures xs[i] != xs[j] {
          assert xs[j] == xs[1..][j - 1];
          if i > 0 { assert xs[i] == xs[1..][i - 1]; }
        }
      }
    }
  }

  /** A strictly sorted list is determined by the set of its elements. */
  lemma StrictUnique(a: seq<string>, b: seq<string>)
    requires Strict(a) && Strict(b)
    requires forall x :: x in a <==> x in b
    ensures a == b
  {
    hide Sorted, Distinct;
    forall x ensures multiset(a)[x] == multiset(b)[x] {
      DistinctCount(a, x);
      DistinctCount(b, x);
    }
    assert multiset(a) == multiset(b);
    SortedUnique(a, b);
  }

  /** Sorting a list without repetition gives a strictly sorted list of the same elements. */
  lemma SortStrict(xs: seq<string>)
    requires Distinct(xs)
    ensures Strict(Sort(xs))
    ensures forall x :: x in Sort(xs) <==> x in xs
  {
    hide Sorted, Distinct, Sort;
    SortSorts(xs);
    SameElements(Sort(xs), xs);
    forall x ensures multiset(Sort(xs))[x] <= 1 {
      DistinctCount(xs, x);
    }
    CountDistinct(Sort(xs));
  }

  /** The elements of a set in order. */
  ghost function Listing(s: set<string>): (xs: seq<string>)
    ensures Strict(xs) && forall x :: x in xs <==> x in s
  {
    if s == {} then []
    else
      var x :| x in s;
      var rest := Listing(s - {x});
      assert ([x] + rest)[1..] == rest;
      SortStrict([x] + rest);
      Sort([x] + rest)
  }

  /** Lists a set, enumerated in any order, and sorts the list. */
  method SortedList(s: set<string>) returns (xs: seq<string>)
    ensures xs == Listing(s)
  {
    hide Sorted, Listing;
    xs := [];
    var rest := s;
    while rest != {}
      invariant rest <= s && forall x :: x in xs <==> x in s && x !in rest
      invariant Distinct(xs)
      decreases |rest|
    {
      var x :| x in rest;
      assert ([x] + xs)[1..] == xs;
      xs := [x] + xs;
      rest := rest - {x};
    }
    SortStrict(xs);
    xs := Sort(xs);
    StrictUnique(xs, Listing(s));
  }
}

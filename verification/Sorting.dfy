/** Python's `sorted`, over an arbitrary "comes before" test.

    `Sort` is one stable sort.  `StableSortUnique` shows that, as long as the test orders the elements
    at hand, every stable sort returns that same list, so nothing below depends on which algorithm the
    interpreter runs.  Sets have no iteration order: `SortSet` takes the elements in any order. */
module Sorting {

  /** Neither element comes before the other. */
  predicate Tied<T>(less: (T, T) -> bool, a: T, b: T) {
    !less(a, b) && !less(b, a)
  }

  function TiedWith<T>(less: (T, T) -> bool, a: T): T -> bool {
    b => Tied(less, a, b)
  }

  /** `less` is a strict weak order on the elements of `s`. */
  ghost predicate OrderOn<T>(less: (T, T) -> bool, s: seq<T>) {
    && (forall a, b | a in s && b in s :: less(a, b) ==> !less(b, a))
    && (forall a, b, c | a in s && b in s && c in s :: !less(b, a) && !less(c, b) ==> !less(c, a))
  }

  ghost predicate Sorted<T>(less: (T, T) -> bool, s: seq<T>) {
    forall i, j | 0 <= i < j < |s| :: !less(s[j], s[i])
  }

  /** The elements of `s` that satisfy `p`, in order. */
  function Only<T>(p: T -> bool, s: seq<T>): seq<T> {
    if s == [] then [] else
    Only(p, s[..|s| - 1]) + (if p(s[|s| - 1]) then [s[|s| - 1]] else [])
  }

  ghost predicate IsStableSort<T>(less: (T, T) -> bool, s: seq<T>, r: seq<T>) {
    && multiset(r) == multiset(s)
    && Sorted(less, r)
    && forall x | x in s :: Only(TiedWith(less, x), r) == Only(TiedWith(less, x), s)
  }

  /** Put `x` behind every element of `s` that it does not come before. */
  function Insert<T>(less: (T, T) -> bool, s: seq<T>, x: T): seq<T> {
    if s == [] || !less(x, s[|s| - 1]) then s + [x]
    else Insert(less, s[..|s| - 1], x) + [s[|s| - 1]]
  }

  function Sort<T>(less: (T, T) -> bool, s: seq<T>): seq<T> {
    if s == [] then [] else Insert(less, Sort(less, s[..|s| - 1]), s[|s| - 1])
  }

  lemma SameElements<T>(s: seq<T>, t: seq<T>)
    requires multiset(s) == multiset(t)
    ensures |s| == |t|
    ensures forall y | y in s :: y in t
    ensures forall y | y in t :: y in s
  {
    assert |multiset(s)| == |s| && |multiset(t)| == |t|;
    forall y | y in s ensures y in t { assert y in multiset(s); assert y in multiset(t); }
    forall y | y in t ensures y in s { assert y in multiset(t); assert y in multiset(s); }
  }

  lemma {:induction false} InsertPermutes<T>(less: (T, T) -> bool, s: seq<T>, x: T)
    ensures multiset(Insert(less, s, x)) == multiset(s) + multiset{x}
    ensures forall y | y in Insert(less, s, x) :: y in s || y == x
    ensures forall y | y in s :: y in Insert(less, s, x)
    ensures x in Insert(less, s, x)
  {
    if s == [] || !less(x, s[|s| - 1]) {
    } else {
      InsertPermutes(less, s[..|s| - 1], x);
      assert s == s[..|s| - 1] + [s[|s| - 1]];
    }
    SameElements(Insert(less, s, x), s + [x]);
    assert x in s + [x];
    assert forall y | y in s :: y in s + [x];
  }

  lemma {:induction false} SortPermutes<T>(less: (T, T) -> bool, s: seq<T>)
    ensures multiset(Sort(less, s)) == multiset(s)
    ensures |Sort(less, s)| == |s|
    ensures forall y | y in Sort(less, s) :: y in s
    ensures forall y | y in s :: y in Sort(less, s)
  {
    if s != [] {
      SortPermutes(less, s[..|s| - 1]);
      InsertPermutes(less, Sort(less, s[..|s| - 1]), s[|s| - 1]);
      assert s == s[..|s| - 1] + [s[|s| - 1]];
    }
    SameElements(Sort(less, s), s);
  }

  lemma {:induction false} InsertSorts<T>(less: (T, T) -> bool, s: seq<T>, x: T)
    requires OrderOn(less, s + [x]) && Sorted(less, s)
    ensures Sorted(less, Insert(less, s, x))
  {
    var n := |s|;
    if s == [] {
    } else if !less(x, s[n - 1]) {
      forall i | 0 <= i < n ensures !less(x, s[i]) {
        assert s[i] in s + [x] && s[n - 1] in s + [x] && x in s + [x];
      }
    } else {
      var init := s[..n - 1];
      assert forall y | y in init + [x] :: y in s + [x];
      OrderOnPart(less, s + [x], init + [x]);
      SortedPart(less, s, n - 1);
      InsertSorts(less, init, x);
      InsertPermutes(less, init, x);
      var r := Insert(less, init, x);
      forall i | 0 <= i < |r| ensures !less(s[n - 1], r[i]) {
        assert r[i] in r;
        assert x in s + [x] && s[n - 1] in s + [x];
      }
    }
  }

  lemma {:induction false} InsertKeepsClass<T>(less: (T, T) -> bool, s: seq<T>, x: T, p: T -> bool)
    requires forall a | a in s && p(a) && p(x) :: !less(x, a)
    ensures Only(p, Insert(less, s, x)) == Only(p, s) + (if p(x) then [x] else [])
  {
    if s == [] || !less(x, s[|s| - 1]) {
      assert (s + [x])[..|s|] == s;
    } else {
      var init, last := s[..|s| - 1], s[|s| - 1];
      InsertKeepsClass(less, init, x, p);
      assert (Insert(less, init, x) + [last])[..|Insert(less, init, x)|] == Insert(less, init, x);
    }
  }

  lemma {:induction false} SortKeepsClass<T>(less: (T, T) -> bool, s: seq<T>, p: T -> bool)
    requires forall a, b | a in s && b in s && p(a) && p(b) :: !less(b, a)
    ensures Only(p, Sort(less, s)) == Only(p, s)
  {
    if s != [] {
      var init, last := s[..|s| - 1], s[|s| - 1];
      SortKeepsClass(less, init, p);
      SortPermutes(less, init);
      InsertKeepsClass(less, Sort(less, init), last, p);
    }
  }

  lemma {:induction false} SortSorts<T>(less: (T, T) -> bool, s: seq<T>)
    requires OrderOn(less, s)
    ensures Sorted(less, Sort(less, s))
  {
    if s != [] {
      var init, last := s[..|s| - 1], s[|s| - 1];
      SortSorts(less, init);
      SortPermutes(less, init);
      forall y | y in Sort(less, init) + [last] ensures y in s {
        assert y in Sort(less, init) || y == last;
      }
      InsertSorts(less, Sort(less, init), last);
    }
  }

  /** The sort is a permutation, is sorted, and keeps tied elements in their input order. */
  lemma SortIsStable<T>(less: (T, T) -> bool, s: seq<T>)
    requires OrderOn(less, s)
    ensures IsStableSort(less, s, Sort(less, s))
  {
    SortPermutes(less, s);
    SortSorts(less, s);
    forall x | x in s ensures Only(TiedWith(less, x), Sort(less, s)) == Only(TiedWith(less, x), s) {
      SortKeepsClass(less, s, TiedWith(less, x));
    }
  }

  lemma OnlyLast<T>(p: T -> bool, s: seq<T>)
    requires s != [] && p(s[|s| - 1])
    ensures Only(p, s) != [] && Only(p, s)[|Only(p, s)| - 1] == s[|s| - 1]
  {
  }

  lemma LastTied<T>(less: (T, T) -> bool, r: seq<T>, t: seq<T>)
    requires r != [] && OrderOn(less, r) && Sorted(less, r) && Sorted(less, t)
    requires multiset(r) == multiset(t)
    ensures |t| == |r|
    ensures var a, b := r[|r| - 1], t[|t| - 1]; Tied(less, a, b) && Tied(less, a, a)
  {
    SameElements(r, t);
    var n := |r|;
    var a, b := r[n - 1], t[n - 1];
    assert a in r && a in t && b in t && b in r;
    var j :| 0 <= j < n && t[j] == a;
    var i :| 0 <= i < n && r[i] == b;
  }

  /** Tied elements stand in the same order in both lists. */
  ghost predicate SameClasses<T>(less: (T, T) -> bool, r: seq<T>, t: seq<T>) {
    forall x | x in r :: Only(TiedWith(less, x), r) == Only(TiedWith(less, x), t)
  }

  /** Two stably sorted arrangements of the same elements are the same list. */
  lemma {:induction false} SameClassesSameList<T>(less: (T, T) -> bool, r: seq<T>, t: seq<T>)
    requires OrderOn(less, r) && Sorted(less, r) && Sorted(less, t)
    requires multiset(r) == multiset(t) && SameClasses(less, r, t)
    ensures r == t
    decreases |r|
  {
    SameElements(r, t);
    if r != [] {
      var n := |r| - 1;
      SameLastElement(less, r, t);
      var r', t', a := r[..n], t[..n], r[n];
      assert r == r' + [a] && t == t' + [a];
      InitPermutes(r', t', a);
      SameClassesInit(less, r', t', a);
      InitOrdered(less, r);
      SortedPart(less, r, n);
      SortedPart(less, t, n);
      SameClassesSameList(less, r', t');
    }
  }

  lemma SameClassesInit<T>(less: (T, T) -> bool, r: seq<T>, t: seq<T>, a: T)
    requires SameClasses(less, r + [a], t + [a])
    ensures SameClasses(less, r, t)
  {
    forall x | x in r ensures Only(TiedWith(less, x), r) == Only(TiedWith(less, x), t) {
      assert x in r + [a];
      OnlyInit(TiedWith(less, x), r, t, a);
    }
  }

  lemma InitOrdered<T>(less: (T, T) -> bool, r: seq<T>)
    requires r != [] && OrderOn(less, r)
    ensures OrderOn(less, r[..|r| - 1])
  {
    OrderOnPart(less, r, r[..|r| - 1]);
  }

  lemma SameLastElement<T>(less: (T, T) -> bool, r: seq<T>, t: seq<T>)
    requires r != [] && OrderOn(less, r) && Sorted(less, r) && Sorted(less, t)
    requires multiset(r) == multiset(t) && SameClasses(less, r, t)
    ensures |t| == |r| && r[|r| - 1] == t[|t| - 1]
  {
    LastTied(less, r, t);
    var a := r[|r| - 1];
    assert a in r;
    OnlyLast(TiedWith(less, a), r);
    OnlyLast(TiedWith(less, a), t);
  }

  lemma SortedPart<T>(less: (T, T) -> bool, s: seq<T>, n: nat)
    requires Sorted(less, s) && n <= |s|
    ensures Sorted(less, s[..n])
  {
  }

  lemma InitPermutes<T>(r: seq<T>, t: seq<T>, a: T)
    ensures multiset(r + [a]) == multiset(t + [a]) ==> multiset(r) == multiset(t)
    ensures (r + [a])[..|r|] == r && (t + [a])[..|t|] == t
  {
    assert multiset(r) == multiset(r + [a]) - multiset{a};
    assert multiset(t) == multiset(t + [a]) - multiset{a};
  }

  lemma OrderOnPart<T>(less: (T, T) -> bool, s: seq<T>, t: seq<T>)
    requires OrderOn(less, s) && forall y | y in t :: y in s
    ensures OrderOn(less, t)
  {
  }

  lemma {:induction false} OnlySnoc<T>(p: T -> bool, s: seq<T>, a: T)
    ensures Only(p, s + [a]) == Only(p, s) + (if p(a) then [a] else [])
  {
    assert (s + [a])[..|s|] == s;
  }

  lemma {:induction false} OnlyInit<T>(p: T -> bool, s: seq<T>, t: seq<T>, a: T)
    requires Only(p, s + [a]) == Only(p, t + [a])
    ensures Only(p, s) == Only(p, t)
  {
    OnlySnoc(p, s, a);
    OnlySnoc(p, t, a);
    var u, v, x := Only(p, s), Only(p, t), if p(a) then [a] else [];
    assert u + x == v + x;
    assert u == (u + x)[..|u|] && v == (v + x)[..|v|];
  }

  /** Whatever stable sorting algorithm is used, its result is `Sort`. */
  lemma StableSortUnique<T>(less: (T, T) -> bool, s: seq<T>, r: seq<T>)
    requires OrderOn(less, s) && IsStableSort(less, s, r)
    ensures r == Sort(less, s)
  {
    SortIsStable(less, s);
    SameElements(r, s);
    SameElements(s, Sort(less, s));
    SameClassesSameList(less, r, Sort(less, s));
  }

  // ---- sets

  /** `less` is a strict total order on the elements of `s`. */
  ghost predicate TotalOn<T>(less: (T, T) -> bool, s: set<T>) {
    && (forall a | a in s :: !less(a, a))
    && (forall a, b | a in s && b in s && a != b :: less(a, b) || less(b, a))
    && (forall a, b, c | a in s && b in s && c in s :: less(a, b) && less(b, c) ==> less(a, c))
  }

  /** `r` lists exactly the elements of `s`, strictly increasing. */
  ghost predicate IsOrdering<T>(less: (T, T) -> bool, s: set<T>, r: seq<T>) {
    && (forall x | x in r :: x in s)
    && (forall x | x in s :: x in r)
    && (forall i, j | 0 <= i < j < |r| :: less(r[i], r[j]))
  }

  lemma {:induction false} OrderingUnique<T>(less: (T, T) -> bool, s: set<T>, r: seq<T>, t: seq<T>)
    requires TotalOn(less, s) && IsOrdering(less, s, r) && IsOrdering(less, s, t)
    ensures r == t
    decreases |r|
  {
    if t != [] { assert t[0] in s; }
    if r != [] {
      var s', r', t', a := ShrinkBoth(less, s, r, t);
      OrderingUnique(less, s', r', t');
    }
  }

  lemma ShrinkBoth<T>(less: (T, T) -> bool, s: set<T>, r: seq<T>, t: seq<T>)
    returns (s': set<T>, r': seq<T>, t': seq<T>, a: T)
    requires TotalOn(less, s) && IsOrdering(less, s, r) && IsOrdering(less, s, t) && r != []
    ensures r == r' + [a] && t == t' + [a]
    ensures TotalOn(less, s') && IsOrdering(less, s', r') && IsOrdering(less, s', t')
  {
    SameGreatest(less, s, r, t);
    a := r[|r| - 1];
    s', r', t' := s - {a}, r[..|r| - 1], t[..|t| - 1];
    ShrinkOrdering(less, s, r);
    ShrinkOrdering(less, s, t);
    TotalOnPart(less, s, s');
  }

  lemma SameGreatest<T>(less: (T, T) -> bool, s: set<T>, r: seq<T>, t: seq<T>)
    requires TotalOn(less, s) && IsOrdering(less, s, r) && IsOrdering(less, s, t) && r != []
    ensures t != [] && r[|r| - 1] == t[|t| - 1]
  {
    var n, m := |r|, |t|;
    var a := r[n - 1];
    assert a in s && a in t;
    var b := t[m - 1];
    assert b in s && b in r;
    var j :| 0 <= j < m && t[j] == a;
    var i :| 0 <= i < n && r[i] == b;
    assert i < n - 1 ==> less(b, a);
    assert j < m - 1 ==> less(a, b);
    assert less(a, b) && less(b, a) ==> less(a, a);
  }

  lemma TotalOnPart<T>(less: (T, T) -> bool, s: set<T>, t: set<T>)
    requires TotalOn(less, s) && t <= s
    ensures TotalOn(less, t)
  {
  }

  lemma ShrinkOrdering<T>(less: (T, T) -> bool, s: set<T>, r: seq<T>)
    requires TotalOn(less, s) && IsOrdering(less, s, r) && r != []
    ensures IsOrdering(less, s - {r[|r| - 1]}, r[..|r| - 1])
  {
    var n := |r|;
    var a := r[n - 1];
    assert a in r;
    forall x | x in r[..n - 1] ensures x in s - {a} {
      var i :| 0 <= i < n - 1 && r[i] == x;
      assert r[i] in r && less(r[i], r[n - 1]);
    }
    forall x | x in s - {a} ensures x in r[..n - 1] {
      var i :| 0 <= i < n && r[i] == x;
      assert r[..n - 1][i] == x;
    }
  }

  lemma InsertOrders<T>(less: (T, T) -> bool, s: set<T>, r: seq<T>, x: T)
    requires x !in s && TotalOn(less, s + {x}) && IsOrdering(less, s, r)
    ensures IsOrdering(less, s + {x}, Insert(less, r, x))
  {
    InsertPermutes(less, r, x);
    InsertStrict(less, s, r, x);
  }

  lemma {:induction false} InsertStrict<T>(less: (T, T) -> bool, s: set<T>, r: seq<T>, x: T)
    requires x !in s && TotalOn(less, s + {x})
    requires forall y | y in r :: y in s
    requires forall i, j | 0 <= i < j < |r| :: less(r[i], r[j])
    ensures var q := Insert(less, r, x); forall i, j | 0 <= i < j < |q| :: less(q[i], q[j])
  {
    var n := |r|;
    if r == [] {
    } else if !less(x, r[n - 1]) {
      assert r[n - 1] in s && less(r[n - 1], x);
      forall i | 0 <= i < n ensures less(r[i], x) {
        assert r[i] in s;
      }
    } else {
      var init, last := r[..n - 1], r[n - 1];
      forall y | y in init ensures y in s && less(y, last) {
        var k :| 0 <= k < n - 1 && r[k] == y;
        assert r[k] in r;
      }
      InsertStrict(less, s, init, x);
      InsertPermutes(less, init, x);
      var q := Insert(less, init, x);
      forall i | 0 <= i < |q| ensures less(q[i], last) {
        assert q[i] in q;
      }
    }
  }

  /** The one strictly increasing list of the elements of `s`. */
  ghost function Ordering<T>(less: (T, T) -> bool, s: set<T>): (r: seq<T>)
    requires TotalOn(less, s)
    ensures IsOrdering(less, s, r)
  {
    OrderingExists(less, s);
    var r :| IsOrdering(less, s, r);
    r
  }

  lemma {:induction false} OrderingExists<T>(less: (T, T) -> bool, s: set<T>)
    requires TotalOn(less, s)
    ensures exists r :: IsOrdering(less, s, r)
    decreases |s|
  {
    if s == {} {
      assert IsOrdering(less, s, []);
    } else {
      var x :| x in s;
      OrderingExists(less, s - {x});
      var r :| IsOrdering(less, s - {x}, r);
      assert s - {x} + {x} == s;
      InsertOrders(less, s - {x}, r, x);
      assert IsOrdering(less, s, Insert(less, r, x));
    }
  }

  /** `sorted` of a set, whatever order the set yields its elements in. */
  method SortSet<T(==)>(less: (T, T) -> bool, s: set<T>) returns (r: seq<T>)
    requires TotalOn(less, s)
    ensures r == Ordering(less, s)
  {
    r := [];
    var rest := s;
    while rest != {}
      invariant rest <= s && IsOrdering(less, s - rest, r)
      decreases |rest|
    {
      var x :| x in rest;
      assert s - (rest - {x}) == (s - rest) + {x};
      InsertOrders(less, s - rest, r, x);
      r := Insert(less, r, x);
      rest := rest - {x};
    }
    assert s - rest == s;
    OrderingUnique(less, s, r, Ordering(less, s));
  }
}

/** Sequences sorted under a strict total order, and the sort that produces them. */
module Ordering {

  /** `lt` orders the elements of `s` totally and without ties. */
  ghost predicate StrictTotal<T(!new)>(s: set<T>, lt: (T, T) -> bool) {
    && (forall a | a in s :: !lt(a, a))
    && (forall a, b | a in s && b in s && a != b :: lt(a, b) || lt(b, a))
    && (forall a, b, c | a in s && b in s && c in s && lt(a, b) && lt(b, c) :: lt(a, c))
  }

  ghost predicate Increasing<T(!new)>(q: seq<T>, lt: (T, T) -> bool) {
    forall i, j | 0 <= i < j < |q| :: lt(q[i], q[j])
  }

  ghost predicate Distinct<T>(q: seq<T>) {
    forall i, j | 0 <= i < j < |q| :: q[i] != q[j]
  }

  /** The entries that are in `s`, in order. */
  ghost function Keep<T>(q: seq<T>, s: set<T>): seq<T> {
    if q == [] then [] else (if q[0] in s then [q[0]] else []) + Keep(q[1..], s)
  }

  lemma {:induction false} KeepElements<T>(q: seq<T>, s: set<T>)
    ensures forall x :: x in Keep(q, s) <==> x in q && x in s
    ensures Distinct(q) ==> Distinct(Keep(q, s))
  {
    if q != [] {
      KeepElements(q[1..], s);
      assert q == [q[0]] + q[1..];
    }
  }

  lemma {:induction false} KeepAll<T>(q: seq<T>, s: set<T>)
    requires forall x | x in q :: x in s
    ensures Keep(q, s) == q
  {
    if q != [] {
      assert q[0] in q;
      KeepAll(q[1..], s);
    }
  }

  lemma {:induction false} KeepLast<T>(q: seq<T>, x: T, s: set<T>)
    ensures Keep(q + [x], s) == Keep(q, s) + if x in s then [x] else []
  {
    if q != [] {
      KeepLast(q[1..], x, s);
      assert (q + [x])[1..] == q[1..] + [x];
    }
  }

  /** `x` comes before `y`. */
  ghost predicate Earlier<T(!new)>(q: seq<T>, x: T, y: T) {
    exists i, j :: 0 <= i < j < |q| && q[i] == x && q[j] == y
  }

  ghost function Elements<T>(q: seq<T>): set<T> {
    set x | x in q
  }

  /** `q` lists the set `s` in increasing order. */
  ghost predicate Lists<T(!new)>(q: seq<T>, s: set<T>, lt: (T, T) -> bool) {
    Elements(q) == s && Increasing(q, lt)
  }

  lemma ListsTail<T(!new)>(q: seq<T>, s: set<T>, lt: (T, T) -> bool)
    requires q != [] && Lists(q, s, lt) && StrictTotal(s, lt)
    ensures q[0] in s && StrictTotal(s - {q[0]}, lt) && Lists(q[1..], s - {q[0]}, lt)
  {
  }

  /** There is only one increasing listing of a set. */
  lemma {:induction false} ListingUnique<T(!new)>(q: seq<T>, r: seq<T>, s: set<T>, lt: (T, T) -> bool)
    requires StrictTotal(s, lt) && Lists(q, s, lt) && Lists(r, s, lt)
    ensures q == r && |q| == |s|
  {
    assert r != [] ==> r[0] in Elements(r);
    if q != [] {
      assert q[0] in s;
      assert r[0] in s && r[0] in q && q[0] in r;
      var i :| 0 <= i < |r| && r[i] == q[0];
      var j :| 0 <= j < |q| && q[j] == r[0];
      assert q[0] == r[0];
      ListsTail(q, s, lt);
      ListsTail(r, s, lt);
      ListingUnique(q[1..], r[1..], s - {q[0]}, lt);
    }
  }

  function Insert<T>(x: T, q: seq<T>, lt: (T, T) -> bool): seq<T> {
    if q == [] || lt(x, q[0]) then [x] + q else [q[0]] + Insert(x, q[1..], lt)
  }

  /** A stable comparison sort. */
  function SortBy<T>(q: seq<T>, lt: (T, T) -> bool): seq<T> {
    if q == [] then [] else Insert(q[0], SortBy(q[1..], lt), lt)
  }

  /** Putting an element before everything else keeps a listing. */
  lemma ListsCons<T(!new)>(x: T, q: seq<T>, s: set<T>, lt: (T, T) -> bool)
    requires Lists(q, s, lt) && forall y | y in s :: lt(x, y)
    ensures Lists([x] + q, s + {x}, lt)
  {
  }

  lemma TailAfterHead<T(!new)>(q: seq<T>, s: set<T>, lt: (T, T) -> bool)
    requires q != [] && Lists(q, s, lt)
    ensures forall y | y in s && y != q[0] :: lt(q[0], y)
  {
  }

  lemma {:induction false} InsertLists<T(!new)>(x: T, q: seq<T>, s: set<T>, lt: (T, T) -> bool)
    requires StrictTotal(s + {x}, lt) && x !in s && Lists(q, s, lt)
    ensures Lists(Insert(x, q, lt), s + {x}, lt)
  {
    FewerTotal(s, s + {x}, lt);
    if q == [] {
      assert s == Elements(q) == {};
      ListsCons(x, q, s, lt);
    } else {
      ListsTail(q, s, lt);
      TailAfterHead(q, s, lt);
      InsertStep(x, q, lt);
      if lt(x, q[0]) {
        Before(x, q[0], s, lt);
        hide *;
        ListsCons(x, q, s, lt);
      } else {
        FewerTotal(s - {q[0]} + {x}, s + {x}, lt);
        NotBefore(x, q[0], s, lt);
        hide *;
        InsertLists(x, q[1..], s - {q[0]}, lt);
        ListsCons(q[0], Insert(x, q[1..], lt), s - {q[0]} + {x}, lt);
        assert s - {q[0]} + {x} + {q[0]} == s + {x};
      }
    }
  }

  lemma FewerTotal<T(!new)>(a: set<T>, b: set<T>, lt: (T, T) -> bool)
    requires StrictTotal(b, lt) && a <= b
    ensures StrictTotal(a, lt)
  {
  }

  lemma InsertStep<T(!new)>(x: T, q: seq<T>, lt: (T, T) -> bool)
    requires q != []
    ensures Insert(x, q, lt) == if lt(x, q[0]) then [x] + q else [q[0]] + Insert(x, q[1..], lt)
  {
  }

  lemma Before<T(!new)>(x: T, head: T, s: set<T>, lt: (T, T) -> bool)
    requires StrictTotal(s + {x}, lt) && head in s && lt(x, head)
    requires forall y | y in s && y != head :: lt(head, y)
    ensures forall y | y in s :: lt(x, y)
  {
  }

  lemma NotBefore<T(!new)>(x: T, head: T, s: set<T>, lt: (T, T) -> bool)
    requires StrictTotal(s + {x}, lt) && x !in s && head in s && !lt(x, head)
    requires forall y | y in s && y != head :: lt(head, y)
    ensures forall y | y in s - {head} + {x} :: lt(head, y)
  {
  }

  /** Sorting different elements lists them in increasing order. */
  lemma {:induction false} SortByLists<T(!new)>(q: seq<T>, lt: (T, T) -> bool)
    requires Distinct(q) && StrictTotal(Elements(q), lt)
    ensures Lists(SortBy(q, lt), Elements(q), lt)
  {
    if q != [] {
      assert Elements(q) == Elements(q[1..]) + {q[0]};
      SortByLists(q[1..], lt);
      InsertLists(q[0], SortBy(q[1..], lt), Elements(q[1..]), lt);
    }
  }

  lemma {:induction false} Enumerate<T>(s: set<T>) returns (q: seq<T>)
    ensures Distinct(q) && Elements(q) == s
    decreases |s|
  {
    if s == {} {
      q := [];
    } else {
      var x :| x in s;
      var rest := Enumerate(s - {x});
      q := [x] + rest;
      assert x !in Elements(rest);
      assert Elements(q) == Elements(rest) + {x};
    }
  }

  lemma ListingExists<T(!new)>(s: set<T>, lt: (T, T) -> bool)
    requires StrictTotal(s, lt)
    ensures exists q :: Lists(q, s, lt)
  {
    var q := Enumerate(s);
    SortByLists(q, lt);
  }

  /** The increasing listing of a set. */
  ghost function Ascending<T(!new)>(s: set<T>, lt: (T, T) -> bool): (q: seq<T>)
    requires StrictTotal(s, lt)
    ensures Lists(q, s, lt) && Distinct(q) && |q| == |s|
  {
    ListingExists(s, lt);
    var q :| Lists(q, s, lt);
    ListingUnique(q, q, s, lt);
    ListingDistinct(q, s, lt);
    q
  }

  lemma ListingDistinct<T(!new)>(q: seq<T>, s: set<T>, lt: (T, T) -> bool)
    requires StrictTotal(s, lt) && Lists(q, s, lt)
    ensures Distinct(q)
  {
  }

  lemma IsAscending<T(!new)>(q: seq<T>, s: set<T>, lt: (T, T) -> bool)
    requires StrictTotal(s, lt) && Lists(q, s, lt)
    ensures q == Ascending(s, lt) && |q| == |s| && Distinct(q)
  {
    ListingUnique(q, Ascending(s, lt), s, lt);
  }

  /** A new least element goes to the front. */
  lemma AscendingFirst<T(!new)>(x: T, s: set<T>, lt: (T, T) -> bool)
    requires StrictTotal(s + {x}, lt) && x !in s && forall y | y in s :: lt(x, y)
    ensures StrictTotal(s, lt) && Ascending(s + {x}, lt) == [x] + Ascending(s, lt)
  {
    var q := Ascending(s, lt);
    ListsCons(x, q, s, lt);
    IsAscending([x] + q, s + {x}, lt);
  }

  /** The list without its `i`-th entry. */
  function Drop<T>(q: seq<T>, i: nat): seq<T>
    requires i < |q|
  {
    q[..i] + q[i + 1..]
  }

  /** The list without any entry `x`. */
  function Without<T(==)>(q: seq<T>, x: T): seq<T> {
    if q == [] then [] else (if q[0] == x then [] else [q[0]]) + Without(q[1..], x)
  }

  lemma {:induction false} WithoutAppend<T>(a: seq<T>, b: seq<T>, x: T)
    ensures Without(a + b, x) == Without(a, x) + Without(b, x)
  {
    if a == [] {
      assert a + b == b;
    } else {
      assert (a + b)[1..] == a[1..] + b;
      WithoutAppend(a[1..], b, x);
    }
  }

  lemma {:induction false} WithoutAbsent<T>(q: seq<T>, x: T)
    requires x !in q
    ensures Without(q, x) == q
  {
    if q != [] {
      WithoutAbsent(q[1..], x);
    }
  }

  lemma {:induction false} WithoutLists<T(!new)>(q: seq<T>, s: set<T>, x: T, lt: (T, T) -> bool)
    requires StrictTotal(s, lt) && Lists(q, s, lt)
    ensures Lists(Without(q, x), s - {x}, lt)
  {
    if q != [] {
      ListsTail(q, s, lt);
      TailAfterHead(q, s, lt);
      WithoutLists(q[1..], s - {q[0]}, x, lt);
      if q[0] != x {
        ListsCons(q[0], Without(q[1..], x), s - {q[0]} - {x}, lt);
        assert s - {q[0]} - {x} + {q[0]} == s - {x};
      } else {
        assert s - {q[0]} - {x} == s - {x};
        assert [] + Without(q[1..], x) == Without(q[1..], x);
      }
    }
  }

  /** Dropping an element keeps the order of the others. */
  lemma AscendingWithout<T(!new)>(s: set<T>, x: T, lt: (T, T) -> bool)
    requires StrictTotal(s, lt)
    ensures StrictTotal(s - {x}, lt) && Ascending(s - {x}, lt) == Without(Ascending(s, lt), x)
  {
    WithoutLists(Ascending(s, lt), s, x, lt);
    IsAscending(Without(Ascending(s, lt), x), s - {x}, lt);
  }
}

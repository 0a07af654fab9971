/** Stock result types, used instead of the exceptions and `None` values of the source. */
module Wrappers {
  datatype Option<+T> = None | Some(value: T)

  datatype Result<+T, +E> = Ok(value: T) | Err(error: E)
}

/** Sequences of identifiers that name nothing twice. */
module Identifiers {
  predicate Distinct(ids: seq<string>)
  {
    forall i, j :: 0 <= i < j < |ids| ==> ids[i] != ids[j]
  }
}

/** Python's `str` order: lexicographic by code point. */
module TextOrder {
  import Orders

  predicate Less(a: string, b: string)
  {
    if b == [] then false
    else if a == [] then true
    else a[0] < b[0] || (a[0] == b[0] && Less(a[1..], b[1..]))
  }

  lemma {:induction false} Irreflexive(a: string)
    ensures !Less(a, a)
  {
    if a != [] { Irreflexive(a[1..]); }
  }

  lemma {:induction false} Transitive(a: string, b: string, c: string)
    requires Less(a, b) && Less(b, c)
    ensures Less(a, c)
  {
    if a != [] && a[0] == b[0] && b[0] == c[0] { Transitive(a[1..], b[1..], c[1..]); }
  }

  lemma {:induction false} Total(a: string, b: string)
    ensures a == b || Less(a, b) || Less(b, a)
  {
    if a != [] && b != [] && a[0] == b[0] {
      Total(a[1..], b[1..]);
      assert a == [a[0]] + a[1..] && b == [b[0]] + b[1..];
    }
  }

  lemma StrictTotalOrder()
    ensures Orders.StrictTotal(Less)
  {
    forall x: string ensures !Less(x, x) { Irreflexive(x); }
    forall x: string, y: string, z: string | Less(x, y) && Less(y, z) ensures Less(x, z) {
      Transitive(x, y, z);
    }
    forall x: string, y: string | x != y ensures Less(x, y) || Less(y, x) { Total(x, y); }
  }

  /** Equal up to position `k`, and the smaller code point there. */
  ghost predicate SmallerAt(a: string, b: string, k: nat)
  {
    k < |a| && k < |b| && a[..k] == b[..k] && a[k] as int < b[k] as int
  }

  /** What the order is: a proper prefix comes first, else the first difference decides. */
  ghost predicate Precedes(a: string, b: string)
  {
    (|a| < |b| && a == b[..|a|]) || exists k: nat :: SmallerAt(a, b, k)
  }

  lemma {:induction false} LessPrecedes(a: string, b: string)
    requires Less(a, b)
    ensures Precedes(a, b)
  {
    if a != [] {
      assert a == [a[0]] + a[1..] && b == [b[0]] + b[1..];
      if a[0] < b[0] {
        assert SmallerAt(a, b, 0);
      } else {
        LessPrecedes(a[1..], b[1..]);
        if k: nat :| SmallerAt(a[1..], b[1..], k) { assert SmallerAt(a, b, k + 1); }
      }
    }
  }

  lemma {:induction false} SmallerIsLess(a: string, b: string, k: nat)
    requires SmallerAt(a, b, k)
    ensures Less(a, b)
  {
    if k > 0 {
      assert a[..k][0] == b[..k][0];
      assert a[1..][..k - 1] == a[..k][1..] && b[1..][..k - 1] == b[..k][1..];
      SmallerIsLess(a[1..], b[1..], k - 1);
    }
  }

  lemma {:induction false} PrefixIsLess(a: string, b: string)
    requires |a| < |b| && a == b[..|a|]
    ensures Less(a, b)
  {
    if a != [] { PrefixIsLess(a[1..], b[1..]); }
  }

  /** The comparison character by character is this order. */
  lemma LessExactly(a: string, b: string)
    ensures Less(a, b) <==> Precedes(a, b)
  {
    if Less(a, b) { LessPrecedes(a, b); }
    if |a| < |b| && a == b[..|a|] { PrefixIsLess(a, b); }
    if k: nat :| SmallerAt(a, b, k) { SmallerIsLess(a, b, k); }
  }
}

/** Sorting by a strict total order. A set has exactly one sorted listing. */
module Orders {
  ghost predicate StrictTotal<T(!new)>(before: (T, T) -> bool)
  {
    && (forall x :: !before(x, x))
    && (forall x, y, z :: before(x, y) && before(y, z) ==> before(x, z))
    && (forall x, y :: x != y ==> before(x, y) || before(y, x))
  }

  ghost predicate Sorted<T(!new)>(q: seq<T>, before: (T, T) -> bool)
  {
    forall i, j :: 0 <= i < j < |q| ==> before(q[i], q[j])
  }

  ghost predicate Lists<T(!new)>(q: seq<T>, s: set<T>)
  {
    forall x :: x in q <==> x in s
  }

  function Insert<T(!new)>(x: T, q: seq<T>, before: (T, T) -> bool): (r: seq<T>)
    ensures |r| == |q| + 1
    ensures forall y :: y in r <==> y == x || y in q
  {
    if q == [] || before(x, q[0]) then [x] + q
    else
      assert q == [q[0]] + q[1..];
      [q[0]] + Insert(x, q[1..], before)
  }

  lemma {:induction false} InsertSorted<T(!new)>(x: T, q: seq<T>, before: (T, T) -> bool)
    requires StrictTotal(before) && Sorted(q, before) && x !in q
    ensures Sorted(Insert(x, q, before), before)
  {
    if q != [] && !before(x, q[0]) {
      InsertSorted(x, q[1..], before);
      var r := Insert(x, q[1..], before);
      assert forall y :: y in q[1..] ==> before(q[0], y);
      forall i, j | 0 <= i < j < |[q[0]] + r| ensures before(([q[0]] + r)[i], ([q[0]] + r)[j]) {
        assert ([q[0]] + r)[j] in r;
      }
    }
  }

  /** Two sorted listings of one set are the same sequence. */
  lemma {:induction false} ListingUnique<T(!new)>(p: seq<T>, q: seq<T>, s: set<T>, before: (T, T) -> bool)
    requires StrictTotal(before)
    requires Sorted(p, before) && Lists(p, s)
    requires Sorted(q, before) && Lists(q, s)
    ensures p == q
    decreases |p|
  {
    EmptyListing(p, s);
    EmptyListing(q, s);
    if p != [] {
      assert p[0] in s && p[0] in q;
      assert q[0] in s && q[0] in p;
      assert p[0] == q[0];
      var rest := s - {p[0]};
      assert Lists(p[1..], rest) by { TailLists(p, s, before); }
      assert Lists(q[1..], rest) by { TailLists(q, s, before); }
      ListingUnique(p[1..], q[1..], rest, before);
      assert p == [p[0]] + p[1..] && q == [q[0]] + q[1..];
    }
  }

  lemma EmptyListing<T(!new)>(q: seq<T>, s: set<T>)
    requires Lists(q, s)
    ensures q == [] <==> s == {}
  {
    if q != [] { assert q[0] in s; }
    if s != {} {
      var x :| x in s;
      assert x in q;
    }
  }

  lemma TailLists<T(!new)>(p: seq<T>, s: set<T>, before: (T, T) -> bool)
    requires StrictTotal(before) && Sorted(p, before) && Lists(p, s) && p != []
    ensures Lists(p[1..], s - {p[0]})
  {
    assert forall y :: y in p <==> y == p[0] || y in p[1..];
    assert forall y :: y in p[1..] ==> before(p[0], y);
  }

  /** The sorted listing of a finite set. */
  ghost function Listing<T(!new)>(s: set<T>, before: (T, T) -> bool): (q: seq<T>)
    requires StrictTotal(before)
    ensures Sorted(q, before) && Lists(q, s)
  {
    if s == {} then []
    else
      var x :| x in s;
      var rest := Listing(s - {x}, before);
      InsertSorted(x, rest, before);
      Insert(x, rest, before)
  }

  /** Python's `sorted` over pairwise different keys. */
  method Sort<T(!new, ==)>(s: set<T>, before: (T, T) -> bool) returns (q: seq<T>)
    requires StrictTotal(before)
    ensures Sorted(q, before) && Lists(q, s)
    ensures q == Listing(s, before)
  {
    q := [];
    var rest := s;
    while rest != {}
      invariant rest <= s
      invariant Sorted(q, before) && Lists(q, s - rest)
      decreases |rest|
    {
      var x :| x in rest;
      InsertSorted(x, q, before);
      q := Insert(x, q, before);
      rest := rest - {x};
    }
    ListingUnique(q, Listing(s, before), s, before);
  }
}

/** The `ORDER BY` the cache's queries ask of the database: arranging a finite
    set of keys by a text column, ascending or descending, with SQLite's
    code-point comparison of TEXT values. The order among equal column values
    is left open. */
module Ordering {
  import opened Text

  /** `a` may come before `b` in the requested direction. */
  predicate InOrder(a: string, b: string, descending: bool) {
    if descending then Le(b, a) else Le(a, b)
  }

  predicate Distinct<K(==)>(r: seq<K>) {
    forall i, j :: 0 <= i < j < |r| ==> r[i] != r[j]
  }

  ghost predicate SortedBy<K>(r: seq<K>, key: K -> string, descending: bool) {
    forall i, j :: 0 <= i < j < |r| ==> InOrder(key(r[i]), key(r[j]), descending)
  }

  lemma InOrderRefl(a: string, descending: bool)
    ensures InOrder(a, a, descending)
  {
    LeRefl(a);
  }

  lemma InOrderTotal(a: string, b: string, descending: bool)
    ensures InOrder(a, b, descending) || InOrder(b, a, descending)
  {
    LeTotal(a, b);
  }

  lemma InOrderTrans(a: string, b: string, c: string, descending: bool)
    requires InOrder(a, b, descending) && InOrder(b, c, descending)
    ensures InOrder(a, c, descending)
  {
    if descending { LeTrans(c, b, a); } else { LeTrans(a, b, c); }
  }

  /** Every non-empty finite set has an element that may come first. */
  lemma {:induction false} FirstOf<K>(s: set<K>, key: K -> string, descending: bool) returns (k: K)
    requires s != {}
    ensures k in s && forall k' :: k' in s ==> InOrder(key(k), key(k'), descending)
    decreases |s|
  {
    var x :| x in s;
    var rest := s - {x};
    InOrderRefl(key(x), descending);
    if s == {x} {
      k := x;
    } else {
      assert s == rest + {x};
      var m := FirstOf(rest, key, descending);
      InOrderTotal(key(x), key(m), descending);
      if InOrder(key(x), key(m), descending) {
        forall k' | k' in s
          ensures InOrder(key(x), key(k'), descending)
        {
          if k' != x {
            assert k' in rest;
            InOrderTrans(key(x), key(m), key(k'), descending);
          }
        }
        k := x;
      } else {
        forall k' | k' in s
          ensures InOrder(key(m), key(k'), descending)
        {
          if k' != x { assert k' in rest; }
        }
        k := m;
      }
    }
  }

  /** The keys of `s`, each once, arranged by `key` in the requested
      direction. */
  method SortBy<K(==)>(s: set<K>, key: K -> string, descending: bool) returns (r: seq<K>)
    ensures Distinct(r) && |r| == |s|
    ensures forall k :: k in r <==> k in s
    ensures SortedBy(r, key, descending)
  {
    r := [];
    var rest := s;
    while rest != {}
      invariant forall k :: k in s <==> (k in r || k in rest)
      invariant forall k :: k in r ==> k !in rest
      invariant Distinct(r) && |r| + |rest| == |s|
      invariant SortedBy(r, key, descending)
      invariant forall i, k :: 0 <= i < |r| && k in rest ==> InOrder(key(r[i]), key(k), descending)
      decreases |rest|
    {
      ghost var first := FirstOf(rest, key, descending);
      var k :| k in rest && forall k' :: k' in rest ==> InOrder(key(k), key(k'), descending);
      r := r + [k];
      rest := rest - {k};
    }
  }
}

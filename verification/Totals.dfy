/** Options, and sums of reals over maps and sequences. */
module Totals {

  datatype Option<+T> = None | Some(value: T)

  function Max(a: real, b: real): real { if a < b then b else a }

  function Min(a: real, b: real): real { if a < b then a else b }

  function Abs(a: real): real { if a < 0.0 then -a else a }

  // ---------- Sums over sequences ----------

  function Sum(s: seq<real>): real {
    if |s| == 0 then 0.0 else Sum(s[..|s| - 1]) + s[|s| - 1]
  }

  lemma SumStep(s: seq<real>, i: nat)
    requires i < |s|
    ensures Sum(s[..i + 1]) == Sum(s[..i]) + s[i]
  {
    assert s[..i + 1][..i] == s[..i];
  }

  lemma {:induction false} SumAppend(s: seq<real>, t: seq<real>)
    ensures Sum(s + t) == Sum(s) + Sum(t)
  {
    if t == [] {
      assert s + t == s;
    } else {
      assert (s + t)[..|s + t| - 1] == s + t[..|t| - 1];
      SumAppend(s, t[..|t| - 1]);
    }
  }

  lemma {:induction false} SumNonNegative(s: seq<real>)
    requires forall i :: 0 <= i < |s| ==> s[i] >= 0.0
    ensures Sum(s) >= 0.0
  {
    if s != [] {
      SumNonNegative(s[..|s| - 1]);
    }
  }

  // ---------- Sums over maps ----------

  ghost function Pick<K, V>(m: map<K, V>): (k: K)
    requires m != map[]
    ensures k in m
  {
    var k :| k in m;
    k
  }

  /** The sum of the values of a finite map; no iteration order is involved. */
  ghost function Total<K(!new)>(m: map<K, real>): real
    decreases m.Keys
  {
    if m == map[] then 0.0 else m[Pick(m)] + Total(m - {Pick(m)})
  }

  lemma {:induction false} TotalRemove<K(!new)>(m: map<K, real>, k: K)
    requires k in m
    ensures Total(m) == m[k] + Total(m - {k})
    decreases m.Keys
  {
    var c := Pick(m);
    if c != k {
      TotalRemove(m - {c}, k);
      TotalRemove(m - {k}, c);
      assert m - {c} - {k} == m - {k} - {c};
    }
  }

  lemma TotalUpdate<K(!new)>(m: map<K, real>, k: K, v: real)
    ensures Total(m[k := v]) == Total(m) + v - (if k in m then m[k] else 0.0)
  {
    TotalRemove(m[k := v], k);
    if k in m {
      TotalRemove(m, k);
      assert m[k := v] - {k} == m - {k};
    } else {
      assert m[k := v] - {k} == m;
    }
  }

  lemma {:induction false} TotalNonNegative<K(!new)>(m: map<K, real>)
    requires forall k :: k in m ==> m[k] >= 0.0
    ensures Total(m) >= 0.0
    decreases m.Keys
  {
    if m != map[] {
      TotalNonNegative(m - {Pick(m)});
    }
  }

  /** A value that belongs to the map bounds the total from below when all are nonnegative. */
  lemma TotalAtLeast<K(!new)>(m: map<K, real>, k: K)
    requires k in m && forall j :: j in m ==> m[j] >= 0.0
    ensures Total(m) >= m[k]
  {
    TotalRemove(m, k);
    TotalNonNegative(m - {k});
  }

  lemma OneMore(before: set<int>, n: int, more: bool)
    requires n !in before
    ensures |before + (if more then {n} else {})| == |before| + (if more then 1 else 0)
  {
  }

  lemma ProductAdds(c: real, x: real, y: real)
    ensures Product(c, x + y) == Product(c, x) + Product(c, y)
  {
  }

  function Product(c: real, x: real): real { c * x }

  ghost function Scaled<K>(m: map<K, real>, c: real): map<K, real> {
    map k | k in m :: Product(c, m[k])
  }

  lemma ScaledRemove<K(!new)>(m: map<K, real>, c: real, k: K)
    ensures Scaled(m, c) - {k} == Scaled(m - {k}, c)
  {
  }

  lemma {:induction false} TotalScale<K(!new)>(m: map<K, real>, c: real)
    ensures Total(Scaled(m, c)) == Product(c, Total(m))
    decreases m.Keys
  {
    if m == map[] {
      assert Scaled(m, c) == map[];
    } else {
      var k := Pick(m);
      TotalScale(m - {k}, c);
      TotalRemove(Scaled(m, c), k);
      ScaledRemove(m, c, k);
      ProductAdds(c, m[k], Total(m - {k}));
    }
  }

  lemma {:induction false} TotalConstant<K(!new)>(m: map<K, real>, c: real)
    requires forall k :: k in m ==> m[k] == c
    ensures Total(m) == |m| as real * c
    decreases m.Keys
  {
    if m != map[] {
      var k := Pick(m);
      TotalConstant(m - {k}, c);
      assert (m - {k}).Keys == m.Keys - {k};
      assert |m| == |m - {k}| + 1;
    }
  }

  // ---------- Hash map iteration ----------

  /** `order` lists every key exactly once: one of the orders a hash map may be iterated in. */
  ghost predicate Enumerates<K(!new)>(order: seq<K>, keys: set<K>) {
    && (forall i, j :: 0 <= i < j < |order| ==> order[i] != order[j])
    && (forall k :: k in order <==> k in keys)
  }

  /** Iterates a hash map: the order is unspecified. */
  method IterationOrder<K(==, !new), V>(m: map<K, V>) returns (order: seq<K>)
    ensures Enumerates(order, m.Keys)
  {
    order := [];
    var rest := m.Keys;
    while rest != {}
      invariant rest <= m.Keys
      invariant Enumerates(order, m.Keys - rest)
      decreases rest
    {
      var k :| k in rest;
      order := order + [k];
      rest := rest - {k};
    }
  }

  ghost function Along<K>(m: map<K, real>, order: seq<K>): (s: seq<real>)
    requires forall k :: k in order ==> k in m
  {
    seq(|order|, i requires 0 <= i < |order| => m[order[i]])
  }

  /** Summing in any iteration order gives the total. */
  lemma {:induction false} TotalAlong<K(!new)>(m: map<K, real>, order: seq<K>)
    requires Enumerates(order, m.Keys)
    ensures Sum(Along(m, order)) == Total(m)
    decreases |order|
  {
    if order == [] {
      assert forall k :: k in m ==> k in order;
      assert m == map[];
    } else {
      var n := |order| - 1;
      var k := order[n];
      assert Enumerates(order[..n], (m - {k}).Keys) by {
        forall j ensures j in order[..n] <==> j in (m - {k}).Keys {
          assert j in order <==> j in order[..n] || j == k;
        }
      }
      TotalAlong(m - {k}, order[..n]);
      assert Along(m, order)[..n] == Along(m - {k}, order[..n]);
      TotalRemove(m, k);
    }
  }

  method SumValues<K(==, !new)>(m: map<K, real>) returns (t: real)
    ensures t == Total(m)
  {
    var order := IterationOrder(m);
    t := 0.0;
    for i := 0 to |order|
      invariant t == Sum(Along(m, order)[..i])
    {
      SumStep(Along(m, order), i);
      t := t + m[order[i]];
    }
    assert Along(m, order)[..|order|] == Along(m, order);
    TotalAlong(m, order);
  }
}

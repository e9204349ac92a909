// Writing the rows of one item after the other into one map: what ends up in it, and
// when the order of the items does not matter.
module MapUnion {
  function Union<D, K, V>(ds: seq<D>, rows: D -> map<K, V>): map<K, V> {
    if ds == [] then map[] else Union(ds[..|ds| - 1], rows) + rows(ds[|ds| - 1])
  }

  lemma {:induction false} UnionStep<D, K, V>(ds: seq<D>, d: D, rows: D -> map<K, V>)
    ensures Union(ds + [d], rows) == Union(ds, rows) + rows(d)
  {
    var more := ds + [d];
    assert more[..|more| - 1] == ds && more[|more| - 1] == d;
  }

  ghost predicate Writes<D, K, V>(d: D, rows: D -> map<K, V>, k: K, v: V) {
    k in rows(d) && rows(d)[k] == v
  }

  // The union holds what some item wrote, and every key that any item wrote.
  lemma {:induction false} UnionIsWritten<D, K, V>(ds: seq<D>, rows: D -> map<K, V>, k: K)
    ensures k in Union(ds, rows) ==> exists d :: d in ds && Writes(d, rows, k, Union(ds, rows)[k])
    ensures (exists d :: d in ds && k in rows(d)) ==> k in Union(ds, rows)
  {
    if ds != [] {
      var init, last := ds[..|ds| - 1], ds[|ds| - 1];
      UnionIsWritten(init, rows, k);
      assert forall d :: d in ds <==> d in init || d == last;
      if k in rows(last) {
        assert Writes(last, rows, k, Union(ds, rows)[k]);
      } else if k in Union(init, rows) {
        var d :| d in init && Writes(d, rows, k, Union(init, rows)[k]);
        assert Writes(d, rows, k, Union(ds, rows)[k]);
      }
    }
  }

  // No two items disagree about a key.
  ghost predicate Compatible<D, K, V>(ds: seq<D>, rows: D -> map<K, V>) {
    forall i, j, k :: 0 <= i < j < |ds| && k in rows(ds[i]) && k in rows(ds[j])
      ==> rows(ds[i])[k] == rows(ds[j])[k]
  }

  lemma {:induction false} CompatibleUnion<D, K, V>(ds: seq<D>, rows: D -> map<K, V>, d: D, k: K)
    requires Compatible(ds, rows) && d in ds && k in rows(d)
    ensures k in Union(ds, rows) && Union(ds, rows)[k] == rows(d)[k]
  {
    UnionIsWritten(ds, rows, k);
    var e :| e in ds && Writes(e, rows, k, Union(ds, rows)[k]);
    var i :| 0 <= i < |ds| && ds[i] == d;
    var j :| 0 <= j < |ds| && ds[j] == e;
  }

  lemma SameItems<D>(ds: seq<D>, es: seq<D>)
    requires multiset(ds) == multiset(es)
    ensures forall d :: d in ds <==> d in es
  {
    forall d ensures d in ds <==> d in es {
      assert d in ds <==> d in multiset(ds);
      assert d in es <==> d in multiset(es);
    }
  }

  lemma {:induction false} UnionWithin<D, K, V>(ds: seq<D>, es: seq<D>, rows: D -> map<K, V>, k: K)
    requires Compatible(ds, rows) && (forall d :: d in es ==> d in ds) && k in Union(es, rows)
    ensures k in Union(ds, rows) && Union(ds, rows)[k] == Union(es, rows)[k]
  {
    UnionIsWritten(es, rows, k);
    var e :| e in es && Writes(e, rows, k, Union(es, rows)[k]);
    CompatibleUnion(ds, rows, e, k);
  }

  lemma {:induction false} SameItemsSameUnion<D, K, V>(ds: seq<D>, es: seq<D>, rows: D -> map<K, V>)
    requires Compatible(ds, rows) && forall d :: d in ds <==> d in es
    ensures Union(ds, rows) == Union(es, rows)
  {
    forall k | k in Union(es, rows) ensures k in Union(ds, rows) && Union(ds, rows)[k] == Union(es, rows)[k] {
      UnionWithin(ds, es, rows, k);
    }
    forall k | k in Union(ds, rows) ensures k in Union(es, rows) {
      UnionIsWritten(ds, rows, k);
      UnionIsWritten(es, rows, k);
    }
  }

  lemma {:induction false} LastWriteWins<D, K, V>(rest: seq<D>, a: D, b: D, rows: D -> map<K, V>, k: K)
    requires k in rows(b)
    ensures k in Union(rest + [a, b], rows) && Union(rest + [a, b], rows)[k] == rows(b)[k]
  {
    UnionStep(rest + [a], b, rows);
    assert rest + [a] + [b] == rest + [a, b];
  }

  // Two items of ds moved to the end, in either order.
  function MovedToEnd<D>(ds: seq<D>, i: nat, j: nat, a: nat, b: nat): seq<D>
    requires i < j < |ds| && a < |ds| && b < |ds|
  {
    ds[..i] + ds[i + 1..j] + ds[j + 1..] + [ds[a], ds[b]]
  }

  lemma MovingPermutes<D>(ds: seq<D>, i: nat, j: nat)
    requires i < j < |ds|
    ensures multiset(MovedToEnd(ds, i, j, i, j)) == multiset(ds)
    ensures multiset(MovedToEnd(ds, i, j, j, i)) == multiset(ds)
  {
    assert ds == ds[..i] + [ds[i]] + ds[i + 1..j] + [ds[j]] + ds[j + 1..];
  }

  // If the union is the same for every order of the items, no two of them disagree.
  lemma {:induction false} AnyOrderMeansCompatible<D(!new), K(!new), V>(ds: seq<D>, rows: D -> map<K, V>)
    requires forall es :: multiset(es) == multiset(ds) ==> Union(es, rows) == Union(ds, rows)
    ensures Compatible(ds, rows)
  {
    forall i, j, k | 0 <= i < j < |ds| && k in rows(ds[i]) && k in rows(ds[j])
      ensures rows(ds[i])[k] == rows(ds[j])[k]
    {
      MovingPermutes(ds, i, j);
      var rest := ds[..i] + ds[i + 1..j] + ds[j + 1..];
      LastWriteWins(rest, ds[i], ds[j], rows, k);
      LastWriteWins(rest, ds[j], ds[i], rows, k);
      assert Union(MovedToEnd(ds, i, j, i, j), rows) == Union(MovedToEnd(ds, i, j, j, i), rows);
    }
  }

  lemma {:induction false} UnionGrows<D, K, V>(ds: seq<D>, n: nat, rows: D -> map<K, V>)
    requires n <= |ds|
    ensures Union(ds[..n], rows).Keys <= Union(ds, rows).Keys
  {
    if n < |ds| {
      UnionGrows(ds[..|ds| - 1], n, rows);
      assert ds[..|ds| - 1][..n] == ds[..n];
    } else {
      assert ds[..n] == ds;
    }
  }

  lemma {:induction false} SmallerSet<T>(a: set<T>, b: set<T>)
    requires a <= b
    ensures |a| <= |b|
  {
    if a != {} {
      var x :| x in a;
      SmallerSet(a - {x}, b - {x});
    }
  }

  lemma SmallerMap<K, V>(m: map<K, V>, n: map<K, V>)
    requires m.Keys <= n.Keys
    ensures |m| <= |n|
  {
    SmallerSet(m.Keys, n.Keys);
    assert |m| == |m.Keys| && |n| == |n.Keys|;
  }
}

// 64-bit counters kept per key, and what they say about the events counted.
module Counters {
  import opened Kernel

  function Get<K>(m: map<K, nat>, k: K): nat {
    if k in m then m[k] else 0
  }

  // m[k]++ on a Go map of uint64: an absent key starts at zero, the sum wraps around.
  function Bump<K>(m: map<K, nat>, k: K): map<K, nat> {
    m[k := Wrap64(Get(m, k) + 1)]
  }

  // The counters after counting each of ks.
  function Tally<K>(start: map<K, nat>, ks: seq<K>): map<K, nat> {
    if ks == [] then start else Bump(Tally(start, ks[..|ks| - 1]), ks[|ks| - 1])
  }

  ghost predicate Zeros<K>(m: map<K, nat>) {
    forall k :: k in m ==> m[k] == 0
  }

  lemma {:induction false} TallyStep<K>(start: map<K, nat>, ks: seq<K>, k: K)
    ensures Tally(start, ks + [k]) == Bump(Tally(start, ks), k)
  {
    var more := ks + [k];
    assert more[..|more| - 1] == ks && more[|more| - 1] == k;
  }

  lemma {:induction false} TallyFront<K>(start: map<K, nat>, k: K, ks: seq<K>)
    ensures Tally(start, [k] + ks) == Tally(Bump(start, k), ks)
  {
    var all := [k] + ks;
    if ks == [] {
      assert all[..0] == [] && Tally(start, []) == start;
    } else {
      var init := ks[..|ks| - 1];
      TallyFront(start, k, init);
      assert all[..|all| - 1] == [k] + init && all[|all| - 1] == ks[|ks| - 1];
    }
  }

  // How often k occurs in ks.
  function Count<K(==)>(ks: seq<K>, k: K): nat {
    if ks == [] then 0
    else Count(ks[..|ks| - 1], k) + if ks[|ks| - 1] == k then 1 else 0
  }

  function Wrap64(n: nat): nat {
    n % U64
  }

  lemma WrapStep(n: nat)
    ensures Wrap64(Wrap64(n) + 1) == Wrap64(n + 1)
  {
  }

  // Each counter is the number of times its key was counted, and there is one for
  // every key that was counted.
  lemma {:induction false} TallyCounts<K>(start: map<K, nat>, ks: seq<K>, k: K)
    requires Zeros(start)
    ensures Get(Tally(start, ks), k) == Count(ks, k) % 0x1_0000_0000_0000_0000
    ensures k in Tally(start, ks) <==> k in start || k in ks
  {
    if ks != [] {
      var n := |ks| - 1;
      TallyCounts(start, ks[..n], k);
      WrapStep(Count(ks[..n], k));
      assert k in ks <==> k in ks[..n] || k == ks[n];
      hide Wrap64;
    }
  }

  // The sum of all counters.
  ghost function Total<K(!new)>(m: map<K, nat>): nat {
    if m == map[] then 0
    else
      var k :| k in m;
      m[k] + Total(m - {k})
  }

  lemma {:induction false} TotalRemove<K(!new)>(m: map<K, nat>, k: K)
    requires k in m
    ensures Total(m) == m[k] + Total(m - {k})
    decreases |m|
  {
    var j :| j in m && Total(m) == m[j] + Total(m - {j});
    if j != k {
      TotalRemove(m - {j}, k);
      TotalRemove(m - {k}, j);
      assert m - {j} - {k} == m - {k} - {j};
    }
  }

  lemma TotalUpdate<K(!new)>(m: map<K, nat>, k: K, v: nat)
    ensures Total(m[k := v]) == Total(m) - Get(m, k) + v
    ensures Get(m, k) <= Total(m)
  {
    TotalRemove(m[k := v], k);
    assert m[k := v] - {k} == m - {k};
    if k in m {
      TotalRemove(m, k);
    } else {
      assert m - {k} == m;
    }
  }

  lemma {:induction false} TotalZeros<K(!new)>(m: map<K, nat>)
    requires Zeros(m)
    ensures Total(m) == 0
    decreases |m|
  {
    if m != map[] {
      var k :| k in m && Total(m) == m[k] + Total(m - {k});
      TotalZeros(m - {k});
    }
  }

  lemma WrapBelow(n: nat)
    ensures Wrap64(n) < U64 && (n < U64 ==> Wrap64(n) == n)
  {
  }

  lemma WrapTotal(total: nat, before: nat, n: nat)
    requires Wrap64(total) == Wrap64(n) && before < U64 && before <= total
    ensures Wrap64(total - before + Wrap64(before + 1)) == Wrap64(n + 1)
  {
    WrapStep(total);
    WrapStep(n);
    if before == U64 - 1 {
      assert Wrap64(total - before) == Wrap64(total + 1);
    }
  }

  // The counters together count everything, up to wrap-around, and exactly as long as
  // fewer than 2^64 things were counted.
  lemma {:induction false} TallyTotal<K(!new)>(start: map<K, nat>, ks: seq<K>)
    requires Zeros(start)
    ensures Wrap64(Total(Tally(start, ks))) == Wrap64(|ks|)
    ensures |ks| < 0x1_0000_0000_0000_0000 ==> Total(Tally(start, ks)) == |ks|
  {
    if ks == [] {
      TotalZeros(start);
    } else {
      hide Wrap64, Total;
      var n := |ks| - 1;
      var m := Tally(start, ks[..n]);
      var c := Get(m, ks[n]);
      TallyTotal(start, ks[..n]);
      TallyCounts(start, ks[..n], ks[n]);
      TotalUpdate(m, ks[n], Wrap64(c + 1));
      WrapBelow(Count(ks[..n], ks[n]));
      WrapBelow(c + 1);
      WrapTotal(Total(m), c, n);
    }
  }
}

// The collector: the counters, the device facts, and what a scrape exports.
module Metrics {
  import opened Wrappers
  import opened Counters

  const DEVICE_UNKNOWN := "device_unknown"
  const NOT_POD := "not_pod"
  const NOT_INDEXED := "not_indexed"
  const CONTAINER_NOT_FOUND := "container_not_found"
  const QUEUE_FULL := "queue_full"
  const RINGBUF_FULL := "ringbuf_full"

  // The drop counters of a new collector.
  function NoDrops(): (m: map<string, nat>)
    ensures Zeros(m)
  {
    map[DEVICE_UNKNOWN := 0, NOT_POD := 0, NOT_INDEXED := 0, CONTAINER_NOT_FOUND := 0, QUEUE_FULL := 0]
  }

  lemma NoDropsAre()
    ensures NoDrops() == map["device_unknown" := 0, "not_pod" := 0, "not_indexed" := 0,
                             "container_not_found" := 0, "queue_full" := 0]
  {
  }

  datatype Label = Label(namespace: string, pod: string, container: string,
                         device: string, vendor: string, kind: string)

  datatype DeviceInfo = DeviceInfo(device: string, vendor: string, driver: string, pciID: string, numaNode: string)

  // ---- float64(value) --------------------------------------------------------------------

  const P53 := 0x20_0000_0000_0000

  // The distance between neighbouring doubles at n: the least power of two u, from a
  // given one on, with n below u * 2^53.
  function UlpFrom(n: nat, u: nat): (r: nat)
    requires u > 0
    ensures r > 0 && n < r * P53
    decreases n - u
  {
    if n < u * P53 then u else UlpFrom(n, 2 * u)
  }

  function Pow2(k: nat): (p: nat)
    ensures p > 0
  {
    if k == 0 then 1 else 2 * Pow2(k - 1)
  }

  // It is a power of two, and at half of it n would need a 54th bit.
  lemma {:induction false} UlpIsLeast(n: nat, j: nat) returns (k: nat)
    ensures k >= j && UlpFrom(n, Pow2(j)) == Pow2(k)
    ensures n < Pow2(k) * P53 && (k > j ==> Pow2(k - 1) * P53 <= n)
    decreases n - Pow2(j)
  {
    if n < Pow2(j) * P53 {
      k := j;
    } else {
      assert Pow2(j + 1) == 2 * Pow2(j);
      k := UlpIsLeast(n, j + 1);
    }
  }

  // Conversion of an unsigned integer to double precision: to nearest, ties to even.
  function Float64(n: nat): nat {
    var u := UlpFrom(n, 1);
    var q, r := n / u, n % u;
    if 2 * r < u || (2 * r == u && q % 2 == 0) then q * u else (q + 1) * u
  }

  function Distance(a: nat, b: nat): nat {
    if a <= b then b - a else a - b
  }

  lemma NegativeFactor(x: int, u: nat)
    requires x * u < 0
    ensures x < 0
  {
  }

  // Of multiples of u, the larger one has the larger factor.
  lemma FactorOrder(a: nat, b: nat, u: nat)
    requires a * u < b * u + u
    ensures a <= b
  {
    assert (a - b - 1) * u == a * u - b * u - u;
    NegativeFactor(a - b - 1, u);
  }

  lemma ProductOrder(a: nat, b: nat, u: nat)
    requires a <= b
    ensures a * u <= b * u
  {
    assert (b - a) * u == b * u - a * u;
  }

  lemma MultipleOf(p: nat, u: nat)
    requires u > 0
    ensures (p * u) % u == 0 && (p * u) / u == p
  {
    var x, y := (p * u) / u, (p * u) % u;
    assert p * u == x * u + y;
    FactorOrder(p, x, u);
    FactorOrder(x, p, u);
  }

  // Of low, low + u and multiples further away, the one nearest to low + r.
  lemma NearestOf(low: nat, u: nat, r: nat, x: nat, even: bool)
    requires r < u && (x + u <= low || x == low || x == low + u || x >= low + 2 * u)
    ensures var n, f := low + r, if 2 * r < u || (2 * r == u && even) then low else low + u;
            Distance(f, n) <= Distance(x, n) && (Distance(f, n) == Distance(x, n) && x != f ==> 2 * r == u)
  {
  }

  lemma MultiplesAround(q: nat, m: nat, u: nat)
    ensures m * u + u <= q * u || m * u == q * u || m * u == q * u + u || m * u >= q * u + 2 * u
  {
    if m < q {
      ProductOrder(m + 1, q, u);
      assert (m + 1) * u == m * u + u;
    } else if m > q {
      assert (q + 1) * u == q * u + u;
      if m > q + 1 {
        ProductOrder(q + 2, m, u);
        assert (q + 2) * u == q * u + 2 * u;
      }
    }
  }

  lemma QuotientAndRest(n: nat, u: nat)
    requires u > 0
    ensures n == (n / u) * u + n % u && n % u < u
  {
  }

  lemma QuotientBelow(q: nat, u: nat, n: nat, bound: nat)
    requires q * u <= n < u * bound && bound > 0
    ensures q < bound
  {
    assert (bound - 1) * u + u == u * bound;
    FactorOrder(q, bound - 1, u);
  }

  // Rounding q * u + r to the factor p of u.
  lemma RoundedIsNearest(q: nat, r: nat, u: nat, p: nat, m: nat)
    requires r < u && p == if 2 * r < u || (2 * r == u && q % 2 == 0) then q else q + 1
    ensures Distance(p * u, q * u + r) <= Distance(m * u, q * u + r)
    ensures Distance(p * u, q * u + r) == Distance(m * u, q * u + r) && m * u != p * u ==> p % 2 == 0
  {
    var low, x := q * u, m * u;
    assert (q + 1) * u == low + u;
    MultiplesAround(q, m, u);
    NearestOf(low, u, r, x, q % 2 == 0);
    hide Distance;
  }

  // The double nearest to n among those of its size: a multiple of the spacing with at
  // most 53 bits in front of it, no other multiple is nearer, and of two equally near
  // ones it is the even one.
  lemma {:induction false} Float64IsNearest(n: nat, m: nat)
    ensures var u, f := UlpFrom(n, 1), Float64(n);
            && f % u == 0 && f / u <= P53
            && Distance(f, n) <= Distance(m * u, n)
            && (Distance(f, n) == Distance(m * u, n) && m * u != f ==> (f / u) % 2 == 0)
  {
    var u := UlpFrom(n, 1);
    var q, r := n / u, n % u;
    var p := if 2 * r < u || (2 * r == u && q % 2 == 0) then q else q + 1;
    assert Float64(n) == p * u;
    hide UlpFrom, Float64, Distance;
    QuotientAndRest(n, u);
    QuotientBelow(q, u, n, P53);
    MultipleOf(p, u);
    RoundedIsNearest(q, r, u, p, m);
  }

  // A scrape shows a counter exactly when the counter is a multiple of the spacing of
  // doubles at its size; always up to 2^53.
  lemma {:induction false} ExportedExactly(n: nat)
    ensures Float64(n) == n <==> n % UlpFrom(n, 1) == 0
    ensures n <= P53 ==> Float64(n) == n
  {
    var u := UlpFrom(n, 1);
    var q, r := n / u, n % u;
    assert n == q * u + r;
    assert (q + 1) * u == q * u + u;
    if n == P53 {
      assert UlpFrom(n, 1) == UlpFrom(n, 2) == 2;
    }
  }

  // "Counts are exact" ends at 2^53 + 1.
  lemma FirstInexactCount()
    ensures Float64(P53 + 1) == P53
  {
    assert UlpFrom(P53 + 1, 1) == UlpFrom(P53 + 1, 2) == 2;
  }

  // ---- The collector ----------------------------------------------------------------------

  datatype Series =
    | IoctlTotal(key: Label)
    | EventsDropped(reason: string)
    | CgroupRebuilds
    | Info(info: DeviceInfo)

  datatype Sample = Sample(series: Series, value: nat)

  // What a scrape should show under a series: each counter under its own.
  function Exported(ioctlTotal: map<Label, nat>, dropped: map<string, nat>, lost: Option<nat>,
                    rebuilds: nat, deviceInfo: set<DeviceInfo>, s: Series): Option<nat> {
    match s
    case IoctlTotal(k) => if k in ioctlTotal then Some(ioctlTotal[k]) else None
    case EventsDropped(r) =>
      if r in dropped then Some(dropped[r]) else if r == RINGBUF_FULL then lost else None
    case CgroupRebuilds => Some(rebuilds)
    case Info(d) => if d in deviceInfo then Some(1) else None
  }

  // What a scrape contains: every counter under its own series, the kernel's under
  // "ringbuf_full", the rebuilds, 1 for every device, and nothing else.
  ghost predicate Scraped(out: seq<Sample>, ioctlTotal: map<Label, nat>, dropped: map<string, nat>, lost: Option<nat>,
                          rebuilds: nat, deviceInfo: set<DeviceInfo>) {
    && (forall k :: k in ioctlTotal ==> Sample(IoctlTotal(k), Float64(ioctlTotal[k])) in out)
    && (forall r :: r in dropped ==> Sample(EventsDropped(r), Float64(dropped[r])) in out)
    && (lost.Some? ==> Sample(EventsDropped("ringbuf_full"), Float64(lost.value)) in out)
    && Sample(CgroupRebuilds, Float64(rebuilds)) in out
    && (forall d :: d in deviceInfo ==> Sample(Info(d), 1) in out)
    && (forall x :: x in out ==>
          match x.series
          case IoctlTotal(k) => k in ioctlTotal
          case EventsDropped(r) => r in dropped || (r == "ringbuf_full" && lost.Some?)
          case CgroupRebuilds => true
          case Info(d) => d in deviceInfo)
  }

  // The samples are those of the series with a value, with that value.
  ghost predicate Exports(out: seq<Sample>, ioctlTotal: map<Label, nat>, dropped: map<string, nat>, lost: Option<nat>,
                          rebuilds: nat, deviceInfo: set<DeviceInfo>) {
    && (forall i :: 0 <= i < |out| ==>
          var v := Exported(ioctlTotal, dropped, lost, rebuilds, deviceInfo, out[i].series);
          v.Some? && out[i].value == Float64(v.value))
    && (forall s :: Exported(ioctlTotal, dropped, lost, rebuilds, deviceInfo, s).Some? ==>
          exists i :: 0 <= i < |out| && out[i].series == s)
  }

  lemma Emitted(out: seq<Sample>, ioctlTotal: map<Label, nat>, dropped: map<string, nat>, lost: Option<nat>,
                rebuilds: nat, deviceInfo: set<DeviceInfo>, s: Series)
    requires Exports(out, ioctlTotal, dropped, lost, rebuilds, deviceInfo)
    ensures var v := Exported(ioctlTotal, dropped, lost, rebuilds, deviceInfo, s);
            v.Some? ==> Sample(s, Float64(v.value)) in out
  {
    hide Float64, Exported;
    var v := Exported(ioctlTotal, dropped, lost, rebuilds, deviceInfo, s);
    if v.Some? {
      var i :| 0 <= i < |out| && out[i].series == s;
      assert out[i] == Sample(s, Float64(v.value));
    }
  }

  lemma ExportIsScrape(out: seq<Sample>, ioctlTotal: map<Label, nat>, dropped: map<string, nat>, lost: Option<nat>,
                       rebuilds: nat, deviceInfo: set<DeviceInfo>)
    requires "ringbuf_full" !in dropped && Exports(out, ioctlTotal, dropped, lost, rebuilds, deviceInfo)
    ensures Scraped(out, ioctlTotal, dropped, lost, rebuilds, deviceInfo)
  {
    ExportedExactly(1);
    forall x | x in out ensures Exported(ioctlTotal, dropped, lost, rebuilds, deviceInfo, x.series).Some? {
      hide Exported, Float64;
    }
    hide Float64, Exports;
    forall k | k in ioctlTotal ensures Sample(IoctlTotal(k), Float64(ioctlTotal[k])) in out {
      Emitted(out, ioctlTotal, dropped, lost, rebuilds, deviceInfo, IoctlTotal(k));
    }
    forall r | r in dropped ensures Sample(EventsDropped(r), Float64(dropped[r])) in out {
      Emitted(out, ioctlTotal, dropped, lost, rebuilds, deviceInfo, EventsDropped(r));
    }
    forall d | d in deviceInfo ensures Sample(Info(d), 1) in out {
      Emitted(out, ioctlTotal, dropped, lost, rebuilds, deviceInfo, Info(d));
    }
    Emitted(out, ioctlTotal, dropped, lost, rebuilds, deviceInfo, EventsDropped("ringbuf_full"));
    Emitted(out, ioctlTotal, dropped, lost, rebuilds, deviceInfo, CgroupRebuilds);
  }

  // The samples are of exactly these series, each once.
  ghost predicate Lists(out: seq<Sample>, shown: set<Series>) {
    && (forall i :: 0 <= i < |out| ==> out[i].series in shown)
    && (forall i, j :: 0 <= i < j < |out| ==> out[i].series != out[j].series)
    && (forall s :: s in shown ==> exists i :: 0 <= i < |out| && out[i].series == s)
  }

  lemma ListsOneMore(out: seq<Sample>, shown: set<Series>, x: Sample)
    requires Lists(out, shown) && x.series !in shown
    ensures Lists(out + [x], shown + {x.series})
  {
    var more := out + [x];
    assert more[|out|].series == x.series;
    assert forall i :: 0 <= i < |out| ==> more[i] == out[i];
    forall t | t in shown ensures exists i :: 0 <= i < |more| && more[i].series == t {
      var i :| 0 <= i < |out| && out[i].series == t;
      assert more[i].series == t;
    }
  }

  class Collector {
    var ioctlTotal: map<Label, nat>
    var eventsDroppedTotal: map<string, nat>
    var deviceInfo: set<DeviceInfo>

    constructor ()
      ensures ioctlTotal == map[] && eventsDroppedTotal == NoDrops() && deviceInfo == {}
    {
      ioctlTotal, eventsDroppedTotal, deviceInfo := map[], NoDrops(), {};
    }

    method IncIoctl(namespace: string, pod: string, container: string, device: string, vendor: string, kind: string)
      modifies this`ioctlTotal
      ensures ioctlTotal == Bump(old(ioctlTotal), Label(namespace, pod, container, device, vendor, kind))
    {
      var k := Label(namespace, pod, container, device, vendor, kind);
      ioctlTotal := Bump(ioctlTotal, k);
    }

    method IncEventsDropped(reason: string)
      modifies this`eventsDroppedTotal
      ensures eventsDroppedTotal == Bump(old(eventsDroppedTotal), reason)
    {
      eventsDroppedTotal := Bump(eventsDroppedTotal, reason);
    }

    method SetDeviceInfo(device: string, vendor: string, driver: string, pciID: string, numaNode: string)
      modifies this`deviceInfo
      ensures deviceInfo == old(deviceInfo) + {DeviceInfo(device, vendor, driver, pciID, numaNode)}
    {
      deviceInfo := deviceInfo + {DeviceInfo(device, vendor, driver, pciID, numaNode)};
    }

    // The value a scrape should show under a series, in the current state.
    function Value(lost: Option<nat>, rebuilds: nat, s: Series): Option<nat>
      reads this
    {
      Exported(ioctlTotal, eventsDroppedTotal, lost, rebuilds, deviceInfo, s)
    }

    // lost is the reading of the kernel's counters, if there is a source and it can be
    // read; rebuilds that of the index, zero without a source. As long as ringbuf_full is
    // not one of the userspace reasons, every series is exported exactly once.
    method Collect(lost: Option<nat>, rebuilds: nat) returns (out: seq<Sample>)
      requires RINGBUF_FULL !in eventsDroppedTotal
      ensures forall i :: 0 <= i < |out| ==>
                Value(lost, rebuilds, out[i].series).Some?
                && out[i].value == Float64(Value(lost, rebuilds, out[i].series).value)
      ensures forall i, j :: 0 <= i < j < |out| ==> out[i].series != out[j].series
      ensures forall s :: Value(lost, rebuilds, s).Some? ==> exists i :: 0 <= i < |out| && out[i].series == s
      ensures Scraped(out, ioctlTotal, eventsDroppedTotal, lost, rebuilds, deviceInfo)
    {
      hide Float64, Lists;
      ghost var shown: set<Series> := {};
      NothingListed();
      out, shown := CollectIoctls(lost, rebuilds);
      out, shown := CollectDrops(out, shown, lost, rebuilds);
      if lost.Some? {
        var x := Sample(EventsDropped(RINGBUF_FULL), Float64(lost.value));
        ListsOneMore(out, shown, x);
        out, shown := out + [x], shown + {x.series};
      }
      var x := Sample(CgroupRebuilds, Float64(rebuilds));
      ListsOneMore(out, shown, x);
      out, shown := out + [x], shown + {x.series};
      out, shown := CollectInfo(out, shown, lost, rebuilds);
      ListsMeans(out, shown);
      ExportIsScrape(out, ioctlTotal, eventsDroppedTotal, lost, rebuilds, deviceInfo);
    }

    // Every sample carries the value of its series.
    ghost predicate Right(out: seq<Sample>, lost: Option<nat>, rebuilds: nat)
      reads this
    {
      forall i :: 0 <= i < |out| ==>
        Value(lost, rebuilds, out[i].series).Some?
        && out[i].value == Float64(Value(lost, rebuilds, out[i].series).value)
    }

    // The three loops of Collect. Go ranges over a map in an unspecified order.
    method CollectIoctls(lost: Option<nat>, rebuilds: nat) returns (out: seq<Sample>, ghost shown: set<Series>)
      ensures Right(out, lost, rebuilds) && Lists(out, shown)
      ensures forall s :: s in shown <==> s.IoctlTotal? && s.key in ioctlTotal
    {
      hide Float64, Lists;
      NothingListed();
      out, shown := [], {};
      var rest := ioctlTotal.Keys;
      while rest != {}
        invariant rest <= ioctlTotal.Keys && Right(out, lost, rebuilds) && Lists(out, shown)
        invariant forall s :: s in shown <==> s.IoctlTotal? && s.key in ioctlTotal && s.key !in rest
      {
        var k :| k in rest;
        var x := Sample(IoctlTotal(k), Float64(ioctlTotal[k]));
        ListsOneMore(out, shown, x);
        out, shown, rest := out + [x], shown + {x.series}, rest - {k};
      }
    }

    method CollectDrops(before: seq<Sample>, ghost was: set<Series>, lost: Option<nat>, rebuilds: nat)
      returns (out: seq<Sample>, ghost shown: set<Series>)
      requires Right(before, lost, rebuilds) && Lists(before, was)
      requires forall s :: s in was ==> !s.EventsDropped?
      ensures Right(out, lost, rebuilds) && Lists(out, shown)
      ensures forall s :: s in shown <==> s in was || (s.EventsDropped? && s.reason in eventsDroppedTotal)
    {
      hide Float64, Lists;
      out, shown := before, was;
      var rest := eventsDroppedTotal.Keys;
      while rest != {}
        invariant rest <= eventsDroppedTotal.Keys && Right(out, lost, rebuilds) && Lists(out, shown)
        invariant forall s :: s in shown <==>
                    s in was || (s.EventsDropped? && s.reason in eventsDroppedTotal && s.reason !in rest)
      {
        var r :| r in rest;
        var x := Sample(EventsDropped(r), Float64(eventsDroppedTotal[r]));
        ListsOneMore(out, shown, x);
        out, shown, rest := out + [x], shown + {x.series}, rest - {r};
      }
    }

    method CollectInfo(before: seq<Sample>, ghost was: set<Series>, lost: Option<nat>, rebuilds: nat)
      returns (out: seq<Sample>, ghost shown: set<Series>)
      requires Right(before, lost, rebuilds) && Lists(before, was)
      requires forall s :: s in was ==> !s.Info?
      ensures Right(out, lost, rebuilds) && Lists(out, shown)
      ensures forall s :: s in shown <==> s in was || (s.Info? && s.info in deviceInfo)
    {
      hide Float64, Lists;
      out, shown := before, was;
      var rest := deviceInfo;
      while rest != {}
        invariant rest <= deviceInfo && Right(out, lost, rebuilds) && Lists(out, shown)
        invariant forall s :: s in shown <==> s in was || (s.Info? && s.info in deviceInfo && s.info !in rest)
      {
        var d :| d in rest;
        var x := Sample(Info(d), Float64(1));
        ListsOneMore(out, shown, x);
        out, shown, rest := out + [x], shown + {x.series}, rest - {d};
      }
    }
  }

  lemma NothingListed()
    ensures Lists([], {})
  {
  }

  lemma ListsMeans(out: seq<Sample>, shown: set<Series>)
    requires Lists(out, shown)
    ensures forall i :: 0 <= i < |out| ==> out[i].series in shown
    ensures forall i, j :: 0 <= i < j < |out| ==> out[i].series != out[j].series
    ensures forall s :: s in shown ==> exists i :: 0 <= i < |out| && out[i].series == s
  {
  }
}

// What the labels of the counters mean, from the kernel's tables to the container
// runtime's answer.
module Attribution {
  import opened Wrappers
  import opened Errors
  import opened CgroupPath
  import opened CgroupIndex
  import opened Cri
  import opened Discovery
  import opened Kernel
  import opened Registry
  import opened Counters
  import opened Metrics
  import opened MapUnion
  import opened Setup
  import opened Pipeline
  import opened Guarantees
  import P = PodMap

  // The worker files every event of a known device under the verdict on its cgroup, each
  // under exactly one; the order of its tests does not matter. In particular an event
  // leaves no trace in the metrics exactly when its failure carries no sentinel. An event
  // of an unknown device is dropped as such, and the resolver is not asked.
  lemma WorkerFollowsVerdict(cfg: Config, pod: P.State, e: Event, env: P.Env)
    ensures EventKey(e) !in cfg.tables.meta ==> Attribute(cfg, pod, e, env) == (pod, Dropped("device_unknown"))
    ensures EventKey(e) in cfg.tables.meta ==>
              var (pod', o) := Attribute(cfg, pod, e, env);
              var v := P.CallVerdict(cfg.pod, pod, e.cgroupID, env, cfg.cri);
              && pod' == P.Step(cfg.pod, pod, e.cgroupID, env, cfg.cri).0
              && (o.Counted? <==> v == P.Attributed)
              && (o == Dropped("not_pod") <==> v == P.NoPod)
              && (o == Dropped("not_indexed") <==> v == P.Unindexed)
              && (o == Dropped("container_not_found") <==> v == P.Gone)
              && (o.Logged? <==> v == P.Unclassified)
  {
    P.ErrorsClassify(cfg.pod, pod, e.cgroupID, env, cfg.cri);
    assert |NOT_POD| == 7 && |NOT_INDEXED| == 11 && |CONTAINER_NOT_FOUND| == 19;
    hide P.Step, P.CallVerdict, Is;
  }

  // ---- Devices ---------------------------------------------------------------------------------

  ghost predicate InTables(cfg: Config, e: Event) {
    EventKey(e) in cfg.tables.devices
    && KindAt(cfg.tables.devices, cfg.tables.ioctls, EventKey(e), e.cmd) == Some(e.kind)
  }

  lemma HandledPassedFilter(cfg: Config, cpus: nat, tree: Option<Tree>, now: Time, run: seq<Action>, i: nat)
    requires Reaches(cfg, cpus, tree, now, run) && i < |After(cfg, cpus, tree, now, run).handled|
    ensures var h := After(cfg, cpus, tree, now, run).handled[i];
            InTables(cfg, h.item.event) && HandledOk(cfg, now, h)
  {
    ReachedInv(cfg, cpus, tree, now, run);
    WorkerSeesSubsequence(cfg, cpus, tree, now, run);
    hide Run, Start, ValidRun, Placed, Conserved, CountersOk, Staged, HandledOk, KindAt;
  }

  // No event is ever dropped for an unknown device.
  lemma DeviceUnknownStaysZero(cfg: Config, cpus: nat, tree: Option<Tree>, now: Time, run: seq<Action>,
                               vendors: seq<Vendor>, ds: seq<Device>)
    requires Reaches(cfg, cpus, tree, now, run) && cfg.tables == Compile(vendors, ds)
    ensures Get(After(cfg, cpus, tree, now, run).dropped, "device_unknown") == 0
  {
    hide Attribute, P.Inv, P.ValidEnv, After, Compile, KindAt, Inv, Reasons, Count, FiledUnder;
    var s := After(cfg, cpus, tree, now, run);
    MetaMatchesKernel(vendors, ds);
    forall i | 0 <= i < |s.handled| ensures s.handled[i].outcome != Dropped(DEVICE_UNKNOWN) {
      HandledPassedFilter(cfg, cpus, tree, now, run, i);
      WorkerReasons(cfg, s.handled[i].pod, s.handled[i].item.event, s.handled[i].env);
    }
    ReachedInv(cfg, cpus, tree, now, run);
    NeverFiled(s.handled, DEVICE_UNKNOWN);
    FiledCount(s.handled, DEVICE_UNKNOWN);
    DropCounter(s, now, cfg, DEVICE_UNKNOWN);
    assert |"device_unknown"| == 14 && |"queue_full"| == 10;
  }

  lemma {:induction false} NeverFiled(hs: seq<Handled>, reason: string)
    requires forall i :: 0 <= i < |hs| ==> hs[i].outcome != Dropped(reason)
    ensures Count(Reasons(hs), reason) == 0
  {
    if hs != [] {
      var init, h := hs[..|hs| - 1], hs[|hs| - 1];
      NeverFiled(init, reason);
      if h.outcome.Dropped? {
        CountStep(Reasons(init), h.outcome.reason);
      }
    }
  }

  // The events of the history that the worker filed under a reason.
  function FiledUnder(hs: seq<Handled>, reason: string): nat {
    if hs == [] then 0
    else FiledUnder(hs[..|hs| - 1], reason) + if hs[|hs| - 1].outcome == Dropped(reason) then 1 else 0
  }

  lemma {:induction false} FiledCount(hs: seq<Handled>, reason: string)
    ensures Count(Reasons(hs), reason) == FiledUnder(hs, reason)
  {
    if hs != [] {
      var init, h := hs[..|hs| - 1], hs[|hs| - 1];
      FiledCount(init, reason);
      if h.outcome.Dropped? {
        CountStep(Reasons(init), h.outcome.reason);
      }
    }
  }

  // A drop counter shows how often the worker filed an event under its reason; that of
  // queue_full how many events were turned away.
  lemma {:induction false} DropCounter(s: State, created: Time, cfg: Config, reason: string)
    requires Inv(cfg, created, s)
    ensures Get(s.dropped, reason) ==
            (FiledUnder(s.handled, reason) + if reason == "queue_full" then |s.overflowed| else 0)
            % 0x1_0000_0000_0000_0000
    ensures reason in s.dropped <==> reason in NoDrops() || reason in s.drops
  {
    FiledCount(s.handled, reason);
    hide Inv, Tally, Count, Wrap64, Reasons, NoDrops;
    TallyCounts(NoDrops(), s.drops, reason);
    CountersOf(s, created, cfg, reason);
  }

  lemma {:induction false} CountersOf(s: State, created: Time, cfg: Config, r: string)
    requires Inv(cfg, created, s)
    ensures s.dropped == Tally(NoDrops(), s.drops)
    ensures Count(s.drops, r) == Count(Reasons(s.handled), r) + if r == QUEUE_FULL then |s.overflowed| else 0
  {
    hide Placed, Conserved, Staged, Filtered, Resolving, Tally, Count, LostCounted, Reasons;
  }

  lemma {:induction false} CountedOccurs<K>(ks: seq<K>, k: K)
    requires k in ks
    ensures Count(ks, k) > 0
  {
    var n := |ks| - 1;
    if ks[n] != k {
      assert k in ks[..n];
      CountedOccurs(ks[..n], k);
    }
  }

  // No userspace counter ever goes by the name of the kernel's, so every reachable state
  // can be scraped without a duplicate series.
  lemma {:induction false} RingbufFullIsTheKernels(cfg: Config, cpus: nat, tree: Option<Tree>, now: Time,
                                                   run: seq<Action>)
    requires Reaches(cfg, cpus, tree, now, run)
    ensures "ringbuf_full" !in After(cfg, cpus, tree, now, run).dropped
  {
    var s := After(cfg, cpus, tree, now, run);
    hide After, Attribute, Inv, P.Inv, P.ValidEnv, Count, Reasons, InTables;
    ReachedInv(cfg, cpus, tree, now, run);
    forall i | 0 <= i < |s.handled| ensures s.handled[i].outcome != Dropped(RINGBUF_FULL) {
      HandledPassedFilter(cfg, cpus, tree, now, run, i);
      WorkerReasons(cfg, s.handled[i].pod, s.handled[i].item.event, s.handled[i].env);
    }
    NeverFiled(s.handled, RINGBUF_FULL);
    CountersOf(s, now, cfg, RINGBUF_FULL);
    DropCounter(s, now, cfg, RINGBUF_FULL);
    assert |DEVICE_UNKNOWN| == 14 && |NOT_POD| == 7 && |NOT_INDEXED| == 11 && |CONTAINER_NOT_FOUND| == 19
           && |QUEUE_FULL| == 10 && |RINGBUF_FULL| == 12;
    if RINGBUF_FULL in s.drops {
      CountedOccurs(s.drops, RINGBUF_FULL);
    }
  }

  // ---- Labels ------------------------------------------------------------------------------------

  // The events of the history that were attributed to a label.
  function CountedUnder(hs: seq<Handled>, key: Label): nat {
    if hs == [] then 0
    else CountedUnder(hs[..|hs| - 1], key) + if hs[|hs| - 1].outcome == Counted(key) then 1 else 0
  }

  lemma {:induction false} LabelCount(hs: seq<Handled>, key: Label)
    ensures Count(Labels(hs), key) == CountedUnder(hs, key)
  {
    if hs != [] {
      var init, h := hs[..|hs| - 1], hs[|hs| - 1];
      LabelCount(init, key);
      if h.outcome.Counted? {
        CountStep(Labels(init), h.outcome.key);
      }
    }
  }

  // Per label, the counter is exactly the number of events attributed to the label.
  lemma {:induction false} LabelsAreExact(cfg: Config, cpus: nat, tree: Option<Tree>, now: Time, run: seq<Action>,
                                          key: Label)
    requires Reaches(cfg, cpus, tree, now, run)
    ensures var s := After(cfg, cpus, tree, now, run);
            Get(s.ioctlTotal, key) == CountedUnder(s.handled, key) % 0x1_0000_0000_0000_0000
  {
    ReachedInv(cfg, cpus, tree, now, run);
    var s := After(cfg, cpus, tree, now, run);
    TallyCounts(map[], Labels(s.handled), key);
    LabelCount(s.handled, key);
    hide After, Placed, Conserved, Staged, Filtered, Resolving, Tally, Count, Wrap64, LostCounted;
  }

  // A step never takes an event out of the history, so below 2^64 no counter goes down.
  lemma CountersOnlyGrow(cfg: Config, s: State, a: Action, key: Label)
    requires Enabled(cfg, s, a)
    ensures Apply(cfg, s, a).ioctlTotal == s.ioctlTotal
            || exists k :: Apply(cfg, s, a).ioctlTotal == Bump(s.ioctlTotal, k)
    ensures Get(s.ioctlTotal, key) < U64 - 1 ==> Get(Apply(cfg, s, a).ioctlTotal, key) >= Get(s.ioctlTotal, key)
  {
    hide Filter, P.ValidEnv, Attribute, ApplyHandle, ApplyOffer, ApplyIoctl;
    match a
    case Ioctl(cpu, rdev, cmd, cgroupID, slot) =>
      match Filter(cfg.tables.devices, cfg.tables.ioctls, rdev, cmd, cgroupID) {
        case None =>
        case Some(e) => IoctlKeeps(s, e, cpu, slot);
      }
    case Handle(env) => HandleKeeps(cfg, s, env);
    case Offer => OfferKeeps(cfg, s);
    case _ =>
  }

  // The device part of a label: some discovered device has the number of the event and
  // the address of the label; its own vendor's table gives the kind for the command.
  ghost predicate NamesDevice(vendors: seq<Vendor>, ds: seq<Device>, e: Event, key: Label) {
    exists d :: d in ds && DeviceExplains(vendors, d, e, key)
  }

  ghost predicate DeviceExplains(vendors: seq<Vendor>, d: Device, e: Event, key: Label) {
    && EventKey(e) in KeysOf(d.nodes) && d.pciAddress == key.device
    && Means(vendors, d, e.cmd % 0x100) == Some((key.vendor, e.kind))
    && key.kind == (if e.kind == 1 then "submit" else if e.kind == 2 then "alloc"
                    else if e.kind == 3 then "wait" else "unknown")
  }

  // The index the resolver used for an event: the one it had, or the one it built.
  function IndexUsed(cfg: Config, h: Handled): map<Inode, string> {
    if h.item.event.cgroupID in h.pod.byInode || !P.Due(cfg.pod, h.pod, h.env) then h.pod.byInode
    else IndexTree(cfg.pod.root, h.env.tree)
  }

  // The container part: the runtime named this container, for the id in the path that
  // the index gives the event's cgroup, less than cacheTTL + criTimeout before the event
  // was attributed.
  ghost predicate NamesContainer(cfg: Config, h: Handled, key: Label) {
    && h.item.event.cgroupID in IndexUsed(cfg, h)
    && Parse(IndexUsed(cfg, h)[h.item.event.cgroupID]).Ok?
    && exists t :: (t <= P.Done(cfg.pod, h.pod, h.item.event.cgroupID, h.env)
                      < t + cfg.pod.cacheTTL + cfg.pod.criTimeout
                    && P.Says(cfg.cri, Parse(IndexUsed(cfg, h)[h.item.event.cgroupID]).value.containerID, t,
                              ContainerInfo(key.namespace, key.pod, key.container)))
  }

  lemma HitIsIndexed(cfg: Config, now: Time, h: Handled)
    requires HandledOk(cfg, now, h)
    ensures P.Hit(cfg.pod, h.pod, h.item.event.cgroupID, h.env.start) ==> h.item.event.cgroupID in h.pod.byInode
  {
    var id := h.item.event.cgroupID;
    if id in h.pod.cache {
      assert P.EntryOk(cfg.pod, cfg.cri, h.pod, id, h.env.start);
    }
    hide Attribute;
  }

  lemma ContainerOfLabel(cfg: Config, now: Time, h: Handled, key: Label)
    requires HandledOk(cfg, now, h) && h.outcome == Counted(key)
    ensures NamesContainer(cfg, h, key)
  {
    var id := h.item.event.cgroupID;
    var (s', r) := P.Step(cfg.pod, h.pod, id, h.env, cfg.cri);
    assert r == Ok(ContainerInfo(key.namespace, key.pod, key.container));
    P.SuccessIsFresh(cfg.pod, cfg.cri, h.pod, now, h.env.start, id, h.env);
    P.RebuildsCountReplacements(cfg.pod, h.pod, id, h.env, cfg.cri);
    HitIsIndexed(cfg, now, h);
    hide P.Step, Parse, P.Says, IndexTree, P.Inv, P.Hit, P.Done, Attribute;
    assert id != 0;
    assert s'.byInode == IndexUsed(cfg, h);
  }

  lemma DeviceOfLabel(cfg: Config, h: Handled, key: Label, vendors: seq<Vendor>, ds: seq<Device>, now: Time)
    requires cfg.tables == Compile(vendors, ds) && DistinctNames(vendors) && DisjointNodes(ds)
    requires InTables(cfg, h.item.event) && HandledOk(cfg, now, h) && h.outcome == Counted(key)
    ensures NamesDevice(vendors, ds, h.item.event, key)
  {
    var e := h.item.event;
    var k := EventKey(e);
    MetaMatchesKernel(vendors, ds);
    OwnerOfRow(vendors, ds, k);
    var d :| d in ds && k in KeysOf(d.nodes) && cfg.tables.meta[k].pciAddress == d.pciAddress;
    SetupPreservesMeaning(vendors, ds, d, k, e.cmd);
    hide P.Step, P.Inv, Compile, Means, KeysOf, DisjointNodes, DistinctNames, KindAt;
    assert DeviceExplains(vendors, d, e, key);
  }

  lemma OwnerOfRow(vendors: seq<Vendor>, ds: seq<Device>, k: DeviceKey)
    requires k in Compile(vendors, ds).meta
    ensures exists d :: d in ds && k in KeysOf(d.nodes) && Compile(vendors, ds).meta[k].pciAddress == d.pciAddress
  {
    var rows := MetaRowsOf(vendors);
    UnionIsWritten(ds, rows, k);
    var d :| d in ds && Writes(d, rows, k, Union(ds, rows)[k]);
    NodeRowsOfOwner(vendors, d, k);
    hide KeysOf, FirstMatch, Union, MetaRowsOf, DeviceRowsOf, IoctlRowsOf;
  }

  // End to end: whatever the interleaving, every event that is counted is counted for
  // the device it came from, under that device's own vendor and the kind of its command,
  // and for the container that the runtime names for its cgroup.
  lemma CountsAreAttributed(cfg: Config, cpus: nat, tree: Option<Tree>, now: Time, run: seq<Action>,
                            vendors: seq<Vendor>, ds: seq<Device>, i: nat, key: Label)
    requires Reaches(cfg, cpus, tree, now, run)
    requires cfg.tables == Compile(vendors, ds) && DistinctNames(vendors) && DisjointNodes(ds)
    requires i < |After(cfg, cpus, tree, now, run).handled|
    requires After(cfg, cpus, tree, now, run).handled[i].outcome == Counted(key)
    ensures var h := After(cfg, cpus, tree, now, run).handled[i];
            NamesDevice(vendors, ds, h.item.event, key) && NamesContainer(cfg, h, key)
  {
    HandledPassedFilter(cfg, cpus, tree, now, run, i);
    var h := After(cfg, cpus, tree, now, run).handled[i];
    hide After, HandledOk, InTables, Compile, NamesDevice, NamesContainer;
    DeviceOfLabel(cfg, h, key, vendors, ds, now);
    ContainerOfLabel(cfg, now, h, key);
  }

  lemma {:induction false} NoneLogged(hs: seq<Handled>)
    ensures LogCount(hs) == 0 <==> forall i :: 0 <= i < |hs| ==> !hs[i].outcome.Logged?
  {
    if hs != [] {
      var init, h := hs[..|hs| - 1], hs[|hs| - 1];
      NoneLogged(init);
      assert forall i :: 0 <= i < |hs| ==> hs[i] == if i < |init| then init[i] else h;
    }
  }

  // When the counts are exact: below 2^64 events, every ioctl that passed the filter is
  // shown in the metrics or under way exactly if no event met a failure without a
  // sentinel, like a cgroup id of zero, a path that names no container, or an error of
  // the runtime other than not found.
  lemma {:induction false} CountsExactIff(cfg: Config, cpus: nat, tree: Option<Tree>, now: Time, run: seq<Action>,
                                          vendors: seq<Vendor>, ds: seq<Device>)
    requires Reaches(cfg, cpus, tree, now, run) && cfg.tables == Compile(vendors, ds)
    requires After(cfg, cpus, tree, now, run).accepted < 0x1_0000_0000_0000_0000
    ensures var s := After(cfg, cpus, tree, now, run);
            s.accepted == Accounted(s) + InFlight(s) <==>
            forall i :: 0 <= i < |s.handled| ==> VerdictOn(cfg, s.handled[i]) != P.Unclassified
  {
    var s := After(cfg, cpus, tree, now, run);
    hide After, Compile, Accounted, InFlight, KindAt, Attribute;
    Conservation(cfg, cpus, tree, now, run);
    NoneLogged(s.handled);
    MetaMatchesKernel(vendors, ds);
    forall i | 0 <= i < |s.handled|
      ensures s.handled[i].outcome.Logged? <==> VerdictOn(cfg, s.handled[i]) == P.Unclassified
    {
      var h := s.handled[i];
      HandledPassedFilter(cfg, cpus, tree, now, run, i);
      WorkerFollowsVerdict(cfg, h.pod, h.item.event, h.env);
    }
  }

  ghost function VerdictOn(cfg: Config, h: Handled): P.Verdict {
    P.CallVerdict(cfg.pod, h.pod, h.item.event.cgroupID, h.env, cfg.cri)
  }

  // Every kind in every vendor's table has a name.
  ghost predicate NamedKinds(vendors: seq<Vendor>) {
    forall i, nr :: 0 <= i < |vendors| && nr in vendors[i].ioctls ==> KIND_SUBMIT <= vendors[i].ioctls[nr] <= KIND_WAIT
  }

  // Then no event is counted under the kind "unknown".
  lemma KindIsNeverUnknown(vendors: seq<Vendor>, ds: seq<Device>, e: Event, key: Label)
    requires NamedKinds(vendors) && NamesDevice(vendors, ds, e, key)
    ensures key.kind != "unknown"
  {
    assert "submit"[0] == 's' && "alloc"[0] == 'a' && "wait"[0] == 'w' && "unknown"[0] == 'u';
  }
}

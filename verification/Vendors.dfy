// The vendors the agent is built with, and what the guarantees say about this agent.
module Vendors {
  import opened Wrappers
  import opened Discovery
  import opened CgroupIndex
  import opened Kernel
  import opened Registry
  import opened Counters
  import opened MapUnion
  import opened Metrics
  import opened Setup
  import opened Pipeline
  import opened Guarantees
  import opened Attribution

  function I915(): Vendor {
    Vendor("i915", (d: Device) => d.driverName == "i915",
           map[0x69 := KIND_SUBMIT, 0x5b := KIND_ALLOC, 0x6c := KIND_WAIT])
  }

  function IVPU(): Vendor {
    Vendor("ivpu", (d: Device) => d.driverName == "intel_vpu",
           map[0x4d := KIND_SUBMIT, 0x45 := KIND_SUBMIT, 0x42 := KIND_ALLOC, 0x46 := KIND_WAIT])
  }

  function Shipped(): seq<Vendor> {
    [I915(), IVPU()]
  }

  // They meet everything that the guarantees ask of vendors.
  lemma ShippedVendorsQualify()
    ensures DistinctNames(Shipped()) && DisjointMatches(Shipped()) && NamedKinds(Shipped())
  {
    assert "i915"[1] == '9' && "ivpu"[1] == 'v';
    assert |"i915"| == 4 && |"intel_vpu"| == 9;
  }

  function ShippedKeys(): (keys: set<IoctlKey>)
    ensures |keys| <= 7
  {
    {IoctlKey(1, 0x69), IoctlKey(1, 0x5b), IoctlKey(1, 0x6c),
     IoctlKey(2, 0x4d), IoctlKey(2, 0x45), IoctlKey(2, 0x42), IoctlKey(2, 0x46)}
  }

  lemma ShippedRows(d: Device, k: IoctlKey)
    requires k in IoctlRowsOf(Shipped())(d)
    ensures k in ShippedKeys()
  {
    ShippedVendorsQualify();
    IoctlRowsOfOwner(Shipped(), d, k);
    hide IoctlRowsOf, FirstMatch;
  }

  // With them the ioctl table cannot overflow: registration fails exactly when the
  // devices have more than 32 numbers.
  lemma RegistrationFailsOnlyOnDevices(ds: seq<Device>)
    ensures Fits(Compile(Shipped(), ds)) <==> |Compile(Shipped(), ds).devices| <= 32
  {
    var rows := IoctlRowsOf(Shipped());
    var t := Union(ds, rows);
    assert t == Compile(Shipped(), ds).ioctls;
    hide Union, IoctlRowsOf, Compile, ShippedKeys, Shipped;
    forall k | k in t ensures k in ShippedKeys() {
      UnionIsWritten(ds, rows, k);
      var d :| d in ds && Writes(d, rows, k, t[k]);
      ShippedRows(d, k);
    }
    SmallerSet(t.Keys, ShippedKeys());
    assert |t| == |t.Keys|;
  }

  // The shipped agent never drops an event for an unknown device, whatever devices there
  // are.
  lemma ShippedAgentKnowsItsDevices(cfg: Config, cpus: nat, tree: Option<Tree>, now: Time, run: seq<Action>,
                                    ds: seq<Device>)
    requires cfg.tables == Compile(Shipped(), ds) && Reaches(cfg, cpus, tree, now, run)
    ensures Get(After(cfg, cpus, tree, now, run).dropped, "device_unknown") == 0
  {
    hide *;
    DeviceUnknownStaysZero(cfg, cpus, tree, now, run, Shipped(), ds);
  }

  // And on whatever discovery finds without meeting a device number twice, every counted
  // event is counted for its device, vendor, command and container, under a kind that has
  // a name.
  lemma {:induction false} ShippedAgentAttributes(cfg: Config, cpus: nat, tree: Option<Tree>, now: Time,
                                                  run: seq<Action>,
                               found: seq<Found>, ds: seq<Device>, i: nat, key: Label)
    requires Listing(ds, Group(found))
    requires forall a, b :: 0 <= a < b < |found| ==> KeyOf(found[a].node) != KeyOf(found[b].node)
    requires cfg.tables == Compile(Shipped(), ds) && Reaches(cfg, cpus, tree, now, run)
    requires i < |After(cfg, cpus, tree, now, run).handled|
    requires After(cfg, cpus, tree, now, run).handled[i].outcome == Counted(key)
    ensures var s := After(cfg, cpus, tree, now, run);
            && NamesDevice(Shipped(), ds, s.handled[i].item.event, key)
            && NamesContainer(cfg, s.handled[i], key)
            && key.kind != "unknown"
  {
    hide *;
    ShippedVendorsQualify();
    DiscoveredAreDisjoint(found, ds);
    CountsAreAttributed(cfg, cpus, tree, now, run, Shipped(), ds, i, key);
    KindIsNeverUnknown(Shipped(), ds, After(cfg, cpus, tree, now, run).handled[i].item.event, key);
  }

  // ---- The shipped agent, letter by letter -------------------------------------------------

  // The vendor and the kind under which an ioctl should be counted, by the driver of the
  // device and the number in the low byte of the command.
  ghost function CountedAs(driver: string, nr: nat): Option<(string, string)> {
    if driver == "i915" then
      if nr == 0x69 then Some(("i915", "submit"))
      else if nr == 0x5b then Some(("i915", "alloc"))
      else if nr == 0x6c then Some(("i915", "wait"))
      else None
    else if driver == "intel_vpu" then
      if nr == 0x4d || nr == 0x45 then Some(("ivpu", "submit"))
      else if nr == 0x42 then Some(("ivpu", "alloc"))
      else if nr == 0x46 then Some(("ivpu", "wait"))
      else None
    else None
  }

  ghost function KindText(kind: nat): string {
    if kind == 1 then "submit" else if kind == 2 then "alloc" else if kind == 3 then "wait" else "unknown"
  }

  lemma ShippedMeaning(d: Device, nr: nat)
    ensures CountedAs(d.driverName, nr) ==
            match Means(Shipped(), d, nr)
            case None => None
            case Some(m) => Some((m.0, KindText(m.1)))
  {
    ShippedOwner(d);
    hide FirstMatch;
  }

  lemma {:induction false} ShippedOwner(d: Device)
    ensures FirstMatch(Shipped(), d)
         == if d.driverName == "i915" then 0 else if d.driverName == "intel_vpu" then 1 else 2
  {
    assert |"i915"| == 4 && |"intel_vpu"| == 9;
    assert Shipped()[0] == I915() && Shipped()[1] == IVPU();
  }

  // The kernel submits an event for an ioctl on a discovered device exactly when there is
  // something to count it as.
  lemma ShippedAgentObserves(ds: seq<Device>, d: Device, rdev: nat, cmd: nat, cgroupID: nat)
    requires DisjointNodes(ds) && d in ds && HasNumber(d.nodes, rdev / 0x10_0000, rdev % 0x10_0000)
    ensures var t := Compile(Shipped(), ds);
            Filter(t.devices, t.ioctls, rdev, cmd, cgroupID).Some? <==> CountedAs(d.driverName, cmd % 0x100).Some?
  {
    NumberIsKey(d.nodes, rdev / 0x10_0000, rdev % 0x10_0000);
    assert Major(rdev) == rdev / 0x10_0000 && Minor(rdev) == rdev % 0x10_0000;
    hide *;
    ShippedVendorsQualify();
    KernelFiltersByMeaning(Shipped(), ds, d, rdev, cmd, cgroupID);
    ShippedMeaning(d, cmd % 0x100);
  }

  // Every counted event is counted for the address of the device with its number, and
  // under the vendor and kind that the device's driver and the command call for.
  lemma {:induction false} ShippedAgentCounts(cfg: Config, cpus: nat, tree: Option<Tree>, now: Time, run: seq<Action>,
                                              found: seq<Found>, ds: seq<Device>, i: nat, key: Label)
    requires Listing(ds, Group(found))
    requires forall a, b :: 0 <= a < b < |found| ==> KeyOf(found[a].node) != KeyOf(found[b].node)
    requires cfg.tables == Compile(Shipped(), ds) && Reaches(cfg, cpus, tree, now, run)
    requires i < |After(cfg, cpus, tree, now, run).handled|
    requires After(cfg, cpus, tree, now, run).handled[i].outcome == Counted(key)
    ensures var e := After(cfg, cpus, tree, now, run).handled[i].item.event;
            exists d :: d in ds && HasNumber(d.nodes, e.major, e.minor) && key.device == d.pciAddress
                        && CountedAs(d.driverName, e.cmd % 0x100) == Some((key.vendor, key.kind))
  {
    ShippedAgentAttributes(cfg, cpus, tree, now, run, found, ds, i, key);
    var e := After(cfg, cpus, tree, now, run).handled[i].item.event;
    var d := NamedDevice(ds, e, key);
    ShippedMeaning(d, e.cmd % 0x100);
    hide *;
  }

  lemma NamedDevice(ds: seq<Device>, e: Event, key: Label) returns (d: Device)
    requires NamesDevice(Shipped(), ds, e, key)
    ensures d in ds && HasNumber(d.nodes, e.major, e.minor) && d.pciAddress == key.device
    ensures Means(Shipped(), d, e.cmd % 0x100) == Some((key.vendor, e.kind)) && key.kind == KindText(e.kind)
  {
    hide Means, KeysOf, Shipped;
    d :| d in ds && DeviceExplains(Shipped(), d, e, key);
    NumberIsKey(d.nodes, e.major, e.minor);
  }
}

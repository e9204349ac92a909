// Compiling discovered devices and registered vendors into the two kernel tables and
// the worker's device map.
module Setup {
  import opened Wrappers
  import opened Discovery
  import opened Registry
  import opened Kernel
  import opened MapUnion
  import L = Loader
  import M = Metrics

  datatype DeviceMeta = DeviceMeta(pciAddress: string, vendor: string)

  datatype Tables = Tables(devices: map<DeviceKey, nat>, ioctls: map<IoctlKey, nat>,
                           meta: map<DeviceKey, DeviceMeta>)

  function KeyOf(n: Node): DeviceKey {
    DeviceKey(n.major, n.minor)
  }

  function KeysOf(nodes: seq<Node>): set<DeviceKey> {
    set i | 0 <= i < |nodes| :: KeyOf(nodes[i])
  }

  // Some node has this number.
  ghost predicate HasNumber(nodes: seq<Node>, major: nat, minor: nat) {
    exists n :: n in nodes && n.major == major && n.minor == minor
  }

  lemma NumberIsKey(nodes: seq<Node>, major: nat, minor: nat)
    ensures DeviceKey(major, minor) in KeysOf(nodes) <==> HasNumber(nodes, major, minor)
  {
    if DeviceKey(major, minor) in KeysOf(nodes) {
      var i :| 0 <= i < |nodes| && KeyOf(nodes[i]) == DeviceKey(major, minor);
      assert nodes[i] in nodes;
    }
    if n :| n in nodes && n.major == major && n.minor == minor {
      var i :| 0 <= i < |nodes| && nodes[i] == n;
      assert KeyOf(nodes[i]) == DeviceKey(major, minor);
    }
  }

  function Owner(vendors: seq<Vendor>, d: Device): Option<Vendor> {
    var i := FirstMatch(vendors, d);
    if i == |vendors| then None else Some(vendors[i])
  }

  // ---- The rows one device contributes -------------------------------------------------

  // The same value under the number of each node.
  ghost function NodeRows<V>(nodes: seq<Node>, v: V): map<DeviceKey, V> {
    if nodes == [] then map[]
    else NodeRows(nodes[..|nodes| - 1], v)[KeyOf(nodes[|nodes| - 1]) := v]
  }

  lemma {:induction false} NodeRowsAre<V>(nodes: seq<Node>, v: V)
    ensures NodeRows(nodes, v).Keys == KeysOf(nodes)
    ensures forall k :: k in NodeRows(nodes, v) ==> NodeRows(nodes, v)[k] == v
  {
    if nodes != [] {
      NodeRowsAre(nodes[..|nodes| - 1], v);
      KeysGrow(nodes, |nodes| - 1);
      assert nodes[..|nodes|] == nodes;
      hide KeysOf;
    }
  }

  ghost function AnyOf<T>(keys: set<T>): (k: T)
    requires keys != {}
    ensures k in keys
  {
    var k :| k in keys; k
  }

  // The vendor's table under the vendor's id.
  ghost function IoctlRows(id: nat, kinds: map<nat, nat>): map<IoctlKey, nat>
    decreases |kinds|
  {
    if kinds == map[] then map[]
    else
      var nr := AnyOf(kinds.Keys);
      IoctlRows(id, kinds - {nr})[IoctlKey(id, nr) := kinds[nr]]
  }

  lemma {:induction false} IoctlRowsAre(id: nat, kinds: map<nat, nat>)
    ensures forall k :: k in IoctlRows(id, kinds) <==> k.vendorID == id && k.nr in kinds
    ensures forall k :: k in IoctlRows(id, kinds) ==> IoctlRows(id, kinds)[k] == kinds[k.nr]
    decreases |kinds|
  {
    if kinds != map[] {
      IoctlRowsAre(id, kinds - {AnyOf(kinds.Keys)});
    }
  }

  ghost function DeviceRowsOf(vendors: seq<Vendor>): Device -> map<DeviceKey, nat> {
    d => match Owner(vendors, d)
         case None => map[]
         case Some(v) => NodeRows<nat>(d.nodes, IdOf(vendors, v.name))
  }

  ghost function IoctlRowsOf(vendors: seq<Vendor>): Device -> map<IoctlKey, nat> {
    d => match Owner(vendors, d)
         case None => map[]
         case Some(v) => IoctlRows(IdOf(vendors, v.name), v.ioctls)
  }

  ghost function MetaRowsOf(vendors: seq<Vendor>): Device -> map<DeviceKey, DeviceMeta> {
    d => match Owner(vendors, d)
         case None => map[]
         case Some(v) => NodeRows<DeviceMeta>(d.nodes, DeviceMeta(d.pciAddress, v.name))
  }

  ghost function Compile(vendors: seq<Vendor>, ds: seq<Device>): Tables {
    Tables(Union(ds, DeviceRowsOf(vendors)), Union(ds, IoctlRowsOf(vendors)), Union(ds, MetaRowsOf(vendors)))
  }

  // The tables fit into the kernel's maps.
  predicate Fits(t: Tables) {
    |t.devices| <= 32 && |t.ioctls| <= 640
  }

  // The facts in infos with those of one more device.
  function Informed(vendors: seq<Vendor>, infos: set<M.DeviceInfo>, d: Device): set<M.DeviceInfo> {
    match Owner(vendors, d)
    case None => infos
    case Some(v) => infos + {M.DeviceInfo(d.pciAddress, v.name, d.driverName, d.pciID, d.numaNode)}
  }

  function InfoOf(vendors: seq<Vendor>, ds: seq<Device>): set<M.DeviceInfo> {
    if ds == [] then {} else Informed(vendors, InfoOf(vendors, ds[..|ds| - 1]), ds[|ds| - 1])
  }

  // ---- The registration loops of main ---------------------------------------------------

  lemma FullMeansTooMany<K, V>(m: map<K, V>, k: K, max: nat, whole: map<K, V>)
    requires L.Full(m, k, max) && m.Keys + {k} <= whole.Keys
    ensures |whole| > max
  {
    SmallerSet(m.Keys + {k}, whole.Keys);
    assert |m.Keys + {k}| == |m.Keys| + 1 && |m| == |m.Keys| && |whole| == |whole.Keys|;
  }

  lemma KeysGrow(nodes: seq<Node>, i: nat)
    requires i < |nodes|
    ensures KeysOf(nodes[..i + 1]) == KeysOf(nodes[..i]) + {KeyOf(nodes[i])}
    ensures KeysOf(nodes[..i + 1]) <= KeysOf(nodes)
  {
    var more := nodes[..i + 1];
    assert forall j :: 0 <= j < i ==> more[j] == nodes[..i][j];
    assert more[i] == nodes[i];
    forall k | k in KeysOf(nodes[..i]) ensures k in KeysOf(more) {
      var j :| 0 <= j < i && k == KeyOf(nodes[..i][j]);
      assert k == KeyOf(more[j]);
    }
  }

  lemma NodeRowsGrow<V>(start: map<DeviceKey, V>, nodes: seq<Node>, i: nat, v: V)
    requires i < |nodes|
    ensures (start + NodeRows(nodes[..i], v))[DeviceKey(nodes[i].major, nodes[i].minor) := v]
         == start + NodeRows(nodes[..i + 1], v)
  {
    var more := nodes[..i + 1];
    assert more[..|more| - 1] == nodes[..i] && more[|more| - 1] == nodes[i];
    assert NodeRows(more, v) == NodeRows(nodes[..i], v)[KeyOf(nodes[i]) := v];
  }

  lemma NoNodeRows<V>(start: map<DeviceKey, V>, v: V)
    ensures start + NodeRows([], v) == start
  {
  }

  lemma {:induction false} TooManyNodes<V>(start: map<DeviceKey, V>, nodes: seq<Node>, i: nat, v: V)
    requires i < |nodes|
    requires L.Full(start + NodeRows(nodes[..i], v), DeviceKey(nodes[i].major, nodes[i].minor), MAX_ENTRIES_DEVICES)
    ensures |start + NodeRows(nodes, v)| > MAX_ENTRIES_DEVICES
  {
    NodeRowsAre(nodes[..i], v);
    NodeRowsAre(nodes, v);
    KeysGrow(nodes, i);
    var m, k, whole := start + NodeRows(nodes[..i], v), KeyOf(nodes[i]), start + NodeRows(nodes, v);
    assert k == DeviceKey(nodes[i].major, nodes[i].minor);
    hide *;
    assert m.Keys + {k} <= whole.Keys;
    FullMeansTooMany(m, k, MAX_ENTRIES_DEVICES, whole);
  }

  method AddNodes(loader: L.Loader, before: map<DeviceKey, DeviceMeta>, nodes: seq<Node>, id: nat, meta: DeviceMeta)
    returns (ok: bool, deviceMap: map<DeviceKey, DeviceMeta>)
    requires |loader.devices| <= MAX_ENTRIES_DEVICES
    modifies loader`devices
    ensures ok ==> |loader.devices| <= MAX_ENTRIES_DEVICES
    ensures !ok ==> |old(loader.devices) + NodeRows<nat>(nodes, id)| > MAX_ENTRIES_DEVICES
    ensures ok ==> loader.devices == old(loader.devices) + NodeRows<nat>(nodes, id)
    ensures ok ==> deviceMap == before + NodeRows<DeviceMeta>(nodes, meta)
  {
    hide NodeRows;
    deviceMap := before;
    ghost var start := loader.devices;
    NoNodeRows<nat>(start, id);
    NoNodeRows<DeviceMeta>(before, meta);
    assert nodes[..0] == [];
    for i := 0 to |nodes|
      invariant loader.devices == start + NodeRows<nat>(nodes[..i], id)
      invariant deviceMap == before + NodeRows<DeviceMeta>(nodes[..i], meta)
      invariant |loader.devices| <= MAX_ENTRIES_DEVICES
    {
      var node := nodes[i];
      NodeRowsGrow<nat>(start, nodes, i, id);
      NodeRowsGrow<DeviceMeta>(before, nodes, i, meta);
      var key := DeviceKey(node.major, node.minor);
      deviceMap := deviceMap[key := meta];
      ghost var here := loader.devices;
      ok := loader.AddDevice(node.major, node.minor, id);
      if !ok {
        TooManyNodes<nat>(start, nodes, i, id);
        return;
      }
    }
    assert nodes[..|nodes|] == nodes;
    ok := true;
  }

  // m is start with the rows of id for the numbers in done.
  ghost predicate Partly(m: map<IoctlKey, nat>, start: map<IoctlKey, nat>, id: nat, kinds: map<nat, nat>,
                         done: set<nat>) {
    && done <= kinds.Keys
    && (forall k :: k in m <==> k in start || (k.vendorID == id && k.nr in done))
    && (forall k :: k in m ==> m[k] == if k.vendorID == id && k.nr in done then kinds[k.nr] else start[k])
  }

  lemma {:induction false} PartlyStep(m: map<IoctlKey, nat>, start: map<IoctlKey, nat>, id: nat, kinds: map<nat, nat>,
                                      done: set<nat>, nr: nat)
    requires Partly(m, start, id, kinds, done) && nr in kinds
    ensures Partly(m[IoctlKey(id, nr) := kinds[nr]], start, id, kinds, done + {nr})
    ensures m.Keys + {IoctlKey(id, nr)} <= (start + IoctlRows(id, kinds)).Keys
  {
    IoctlRowsAre(id, kinds);
    hide IoctlRows;
  }

  lemma {:induction false} PartlyEnds(start: map<IoctlKey, nat>, id: nat, kinds: map<nat, nat>)
    ensures Partly(start, start, id, kinds, {})
    ensures forall m :: Partly(m, start, id, kinds, kinds.Keys) ==> m == start + IoctlRows(id, kinds)
  {
    IoctlRowsAre(id, kinds);
    hide IoctlRows;
  }

  method AddIoctls(loader: L.Loader, id: nat, kinds: map<nat, nat>) returns (ok: bool)
    requires |loader.ioctls| <= MAX_ENTRIES_IOCTLS
    modifies loader`ioctls
    ensures ok ==> |loader.ioctls| <= MAX_ENTRIES_IOCTLS
    ensures !ok ==> |old(loader.ioctls) + IoctlRows(id, kinds)| > MAX_ENTRIES_IOCTLS
    ensures ok ==> loader.ioctls == old(loader.ioctls) + IoctlRows(id, kinds)
  {
    ghost var start := loader.ioctls;
    PartlyEnds(start, id, kinds);
    hide IoctlRows, Partly;
    var rest := kinds.Keys;
    assert kinds.Keys - rest == {};
    while rest != {}
      invariant rest <= kinds.Keys
      invariant Partly(loader.ioctls, start, id, kinds, kinds.Keys - rest)
      invariant |loader.ioctls| <= MAX_ENTRIES_IOCTLS
    {
      var nr :| nr in rest;
      ghost var here := loader.ioctls;
      PartlyStep(here, start, id, kinds, kinds.Keys - rest, nr);
      ok := loader.AddIoctl(id, nr, kinds[nr]);
      if !ok {
        FullMeansTooMany(here, IoctlKey(id, nr), MAX_ENTRIES_IOCTLS, start + IoctlRows(id, kinds));
        return;
      }
      assert kinds.Keys - (rest - {nr}) == (kinds.Keys - rest) + {nr};
      rest := rest - {nr};
    }
    assert kinds.Keys - rest == kinds.Keys;
    ok := true;
  }

  lemma {:induction false} RowsWithoutOwner(vendors: seq<Vendor>, d: Device)
    requires FirstMatch(vendors, d) == |vendors|
    ensures DeviceRowsOf(vendors)(d) == map[] && IoctlRowsOf(vendors)(d) == map[]
    ensures MetaRowsOf(vendors)(d) == map[]
  {
  }

  lemma {:induction false} RowsOfOwner(vendors: seq<Vendor>, d: Device, v: Vendor)
    requires FirstMatch(vendors, d) < |vendors| && v == vendors[FirstMatch(vendors, d)]
    ensures DeviceRowsOf(vendors)(d) == NodeRows<nat>(d.nodes, IdOf(vendors, v.name))
    ensures IoctlRowsOf(vendors)(d) == IoctlRows(IdOf(vendors, v.name), v.ioctls)
    ensures MetaRowsOf(vendors)(d) == NodeRows<DeviceMeta>(d.nodes, DeviceMeta(d.pciAddress, v.name))
  {
  }

  lemma {:induction false} NodeRowsOfOwner(vendors: seq<Vendor>, d: Device, k: DeviceKey)
    ensures var i, devices, meta := FirstMatch(vendors, d), DeviceRowsOf(vendors)(d), MetaRowsOf(vendors)(d);
            && (k in devices <==> i < |vendors| && k in KeysOf(d.nodes))
            && (k in meta <==> i < |vendors| && k in KeysOf(d.nodes))
            && (k in devices ==> devices[k] == IdOf(vendors, vendors[i].name))
            && (k in meta ==> meta[k] == DeviceMeta(d.pciAddress, vendors[i].name))
  {
    var i := FirstMatch(vendors, d);
    if i < |vendors| {
      var v := vendors[i];
      RowsOfOwner(vendors, d, v);
      NodeRowsAre<nat>(d.nodes, IdOf(vendors, v.name));
      NodeRowsAre<DeviceMeta>(d.nodes, DeviceMeta(d.pciAddress, v.name));
    } else {
      RowsWithoutOwner(vendors, d);
    }
    hide *;
  }

  // The rows of a device with vendor v and id.
  ghost function WithRows(t: Tables, d: Device, v: Vendor, id: nat): Tables {
    Tables(t.devices + NodeRows<nat>(d.nodes, id), t.ioctls + IoctlRows(id, v.ioctls),
           t.meta + NodeRows<DeviceMeta>(d.nodes, DeviceMeta(d.pciAddress, v.name)))
  }

  // The facts, nodes and ioctls of one device with a vendor.
  method Register(loader: L.Loader, collector: M.Collector, before: map<DeviceKey, DeviceMeta>,
                  d: Device, v: Vendor, id: nat, ghost t: Tables)
    returns (ok: bool, deviceMap: map<DeviceKey, DeviceMeta>)
    requires t == Tables(loader.devices, loader.ioctls, before) && Fits(t)
    modifies loader`devices, loader`ioctls, collector`deviceInfo
    ensures ok <==> Fits(WithRows(t, d, v, id))
    ensures ok ==> Tables(loader.devices, loader.ioctls, deviceMap) == WithRows(t, d, v, id)
    ensures collector.deviceInfo
            == old(collector.deviceInfo) + {M.DeviceInfo(d.pciAddress, v.name, d.driverName, d.pciID, d.numaNode)}
  {
    hide NodeRows, IoctlRows;
    collector.SetDeviceInfo(d.pciAddress, v.name, d.driverName, d.pciID, d.numaNode);
    ok, deviceMap := AddNodes(loader, before, d.nodes, id, DeviceMeta(d.pciAddress, v.name));
    if ok {
      ok := AddIoctls(loader, id, v.ioctls);
    }
  }

  lemma {:induction false} CompileNothing(vendors: seq<Vendor>)
    ensures Compile(vendors, []) == Tables(map[], map[], map[]) && InfoOf(vendors, []) == {}
    ensures Fits(Compile(vendors, []))
  {
  }

  // The tables t with the rows of one more device.
  ghost function With(vendors: seq<Vendor>, t: Tables, d: Device): Tables {
    Tables(t.devices + DeviceRowsOf(vendors)(d), t.ioctls + IoctlRowsOf(vendors)(d), t.meta + MetaRowsOf(vendors)(d))
  }

  lemma {:induction false} CompileStep(vendors: seq<Vendor>, ds: seq<Device>, d: Device)
    ensures Compile(vendors, ds + [d]) == With(vendors, Compile(vendors, ds), d)
    ensures InfoOf(vendors, ds + [d]) == Informed(vendors, InfoOf(vendors, ds), d)
  {
    UnionStep(ds, d, DeviceRowsOf(vendors));
    UnionStep(ds, d, IoctlRowsOf(vendors));
    UnionStep(ds, d, MetaRowsOf(vendors));
    var more := ds + [d];
    assert more[..|more| - 1] == ds && more[|more| - 1] == d;
  }

  lemma CompileGrows(vendors: seq<Vendor>, ds: seq<Device>, n: nat)
    requires n <= |ds|
    ensures |Compile(vendors, ds[..n]).devices| <= |Compile(vendors, ds).devices|
    ensures |Compile(vendors, ds[..n]).ioctls| <= |Compile(vendors, ds).ioctls|
  {
    UnionGrows(ds, n, DeviceRowsOf(vendors));
    UnionGrows(ds, n, IoctlRowsOf(vendors));
    SmallerMap(Compile(vendors, ds[..n]).devices, Compile(vendors, ds).devices);
    SmallerMap(Compile(vendors, ds[..n]).ioctls, Compile(vendors, ds).ioctls);
  }

  lemma OverflowStays(vendors: seq<Vendor>, ds: seq<Device>, n: nat)
    requires n <= |ds| && !Fits(Compile(vendors, ds[..n]))
    ensures !Fits(Compile(vendors, ds))
  {
    CompileGrows(vendors, ds, n);
  }

  // Registering device i takes the tables of the devices before it to those up to it,
  // and if that overflows a table, so does the whole.
  lemma {:induction false} RegisterStep(vendors: seq<Vendor>, ds: seq<Device>, i: nat)
    requires i < |ds|
    ensures Compile(vendors, ds[..i + 1]) == With(vendors, Compile(vendors, ds[..i]), ds[i])
    ensures InfoOf(vendors, ds[..i + 1]) == Informed(vendors, InfoOf(vendors, ds[..i]), ds[i])
    ensures !Fits(Compile(vendors, ds[..i + 1])) ==> !Fits(Compile(vendors, ds))
  {
    hide *;
    assert ds[..i + 1] == ds[..i] + [ds[i]];
    CompileStep(vendors, ds[..i], ds[i]);
    if !Fits(Compile(vendors, ds[..i + 1])) {
      OverflowStays(vendors, ds, i + 1);
    }
  }

  lemma {:induction false} WithOwner(vendors: seq<Vendor>, t: Tables, infos: set<M.DeviceInfo>, d: Device, v: Vendor,
                                     id: nat)
    requires Owner(vendors, d) == Some(v) && id == IdOf(vendors, v.name)
    ensures With(vendors, t, d) == WithRows(t, d, v, id)
    ensures Informed(vendors, infos, d)
            == infos + {M.DeviceInfo(d.pciAddress, v.name, d.driverName, d.pciID, d.numaNode)}
  {
    RowsOfOwner(vendors, d, v);
    hide NodeRows, IoctlRows, DeviceRowsOf, IoctlRowsOf, MetaRowsOf, FirstMatch, IdOf;
  }

  lemma {:induction false} WithoutOwner(vendors: seq<Vendor>, t: Tables, infos: set<M.DeviceInfo>, d: Device)
    requires Owner(vendors, d) == None
    ensures With(vendors, t, d) == t && Informed(vendors, infos, d) == infos
  {
    RowsWithoutOwner(vendors, d);
  }

  method Lookup(registry: VendorRegistry, d: Device) returns (vendor: Option<Vendor>, id: nat)
    ensures vendor == Owner(registry.vendors, d)
    ensures vendor.Some? ==> id == IdOf(registry.vendors, vendor.value.name)
  {
    hide FirstMatch, IdOf;
    vendor := registry.GetVendor(d);
    id := 0;
    if vendor.Some? {
      id := registry.GetVendorID(vendor.value.name);
    }
  }

  // The body of the outer loop: nothing for a device without a vendor.
  method RegisterDevice(registry: VendorRegistry, d: Device, before: map<DeviceKey, DeviceMeta>,
                        loader: L.Loader, collector: M.Collector, ghost t: Tables)
    returns (ok: bool, deviceMap: map<DeviceKey, DeviceMeta>)
    requires t == Tables(loader.devices, loader.ioctls, before) && Fits(t)
    modifies loader`devices, loader`ioctls, collector`deviceInfo
    ensures ok <==> Fits(With(registry.vendors, t, d))
    ensures ok ==> Tables(loader.devices, loader.ioctls, deviceMap) == With(registry.vendors, t, d)
    ensures ok ==> collector.deviceInfo == Informed(registry.vendors, old(collector.deviceInfo), d)
  {
    ghost var vendors := registry.vendors;
    hide *;
    var vendor, vendorID := Lookup(registry, d);
    if vendor.None? {
      WithoutOwner(vendors, t, collector.deviceInfo, d);
      ok, deviceMap := true, before;
    } else {
      WithOwner(vendors, t, collector.deviceInfo, d, vendor.value, vendorID);
      ok, deviceMap := Register(loader, collector, before, d, vendor.value, vendorID, t);
    }
  }

  // The registration loops of main on freshly loaded objects. They succeed exactly when
  // everything fits; failure ends the process.
  method RegisterDevices(registry: VendorRegistry, devices: seq<Device>, loader: L.Loader, collector: M.Collector)
    returns (ok: bool, deviceMap: map<DeviceKey, DeviceMeta>)
    requires loader.devices == map[] && loader.ioctls == map[] && collector.deviceInfo == {}
    modifies loader`devices, loader`ioctls, collector`deviceInfo
    ensures ok <==> Fits(Compile(registry.vendors, devices))
    ensures ok ==> Tables(loader.devices, loader.ioctls, deviceMap) == Compile(registry.vendors, devices)
    ensures ok ==> collector.deviceInfo == InfoOf(registry.vendors, devices)
  {
    hide *;
    deviceMap := map[];
    ghost var vendors := registry.vendors;
    CompileNothing(vendors);
    assert devices[..0] == [];
    for i := 0 to |devices|
      invariant Tables(loader.devices, loader.ioctls, deviceMap) == Compile(vendors, devices[..i])
      invariant collector.deviceInfo == InfoOf(vendors, devices[..i])
      invariant Fits(Compile(vendors, devices[..i]))
    {
      RegisterStep(vendors, devices, i);
      ghost var t := Compile(vendors, devices[..i]);
      ok, deviceMap := RegisterDevice(registry, devices[i], deviceMap, loader, collector, t);
      if !ok {
        return;
      }
    }
    assert devices[..|devices|] == devices;
    ok := true;
  }

  // The device facts are those of the devices with a vendor, under that vendor's name.
  lemma {:induction false} InfoIsExact(vendors: seq<Vendor>, ds: seq<Device>, info: M.DeviceInfo)
    ensures info in InfoOf(vendors, ds) <==>
            exists d :: d in ds && FirstMatch(vendors, d) < |vendors|
                        && info.device == d.pciAddress && info.vendor == vendors[FirstMatch(vendors, d)].name
                        && info.driver == d.driverName && info.pciID == d.pciID && info.numaNode == d.numaNode
  {
    hide FirstMatch;
    if ds != [] {
      var init, last := ds[..|ds| - 1], ds[|ds| - 1];
      InfoIsExact(vendors, init, info);
      assert forall d :: d in ds <==> d in init || d == last;
    }
  }

  // ---- What the tables mean --------------------------------------------------------------

  // The worker's device map and the kernel's device table know the same device numbers,
  // and the kernel's vendor id is that of the worker's vendor name, for any devices and
  // vendors at all.
  lemma {:induction false} MetaMatchesKernel(vendors: seq<Vendor>, ds: seq<Device>)
    ensures var t := Compile(vendors, ds);
            && t.devices.Keys == t.meta.Keys
            && forall k :: k in t.meta ==> t.devices[k] == IdOf(vendors, t.meta[k].vendor)
  {
    hide KeysOf, FirstMatch, IdOf;
    if ds == [] {
      CompileNothing(vendors);
    } else {
      var init, d := ds[..|ds| - 1], ds[|ds| - 1];
      MetaMatchesKernel(vendors, init);
      assert ds == init + [d];
      CompileStep(vendors, init, d);
      forall k ensures var t := Compile(vendors, ds);
                       && (k in t.devices <==> k in t.meta)
                       && (k in t.meta ==> t.devices[k] == IdOf(vendors, t.meta[k].vendor))
      {
        NodeRowsOfOwner(vendors, d, k);
        hide *;
      }
      hide *;
    }
  }

  // No device number belongs to two devices.
  ghost predicate DisjointNodes(ds: seq<Device>) {
    forall i, j :: 0 <= i < j < |ds| ==> KeysOf(ds[i].nodes) !! KeysOf(ds[j].nodes)
  }

  // The direct meaning of an ioctl: the device that owns the number, the first vendor
  // that matches this device, the entry of that vendor's table, if there is one.
  ghost function Means(vendors: seq<Vendor>, d: Device, nr: nat): Option<(string, nat)> {
    match Owner(vendors, d)
    case None => None
    case Some(v) => if nr in v.ioctls then Some((v.name, v.ioctls[nr])) else None
  }

  // What the agent does with it: the kind from the kernel's two lookups, the vendor name
  // from the worker's device map.
  ghost function Observed(t: Tables, key: DeviceKey, cmd: nat): Option<(string, nat)> {
    match KindAt(t.devices, t.ioctls, key, cmd)
    case None => None
    case Some(kind) => if key in t.meta then Some((t.meta[key].vendor, kind)) else None
  }

  lemma DisjointMeansCompatible(vendors: seq<Vendor>, ds: seq<Device>)
    requires DisjointNodes(ds)
    ensures Compatible(ds, DeviceRowsOf(vendors)) && Compatible(ds, MetaRowsOf(vendors))
  {
    hide KeysOf, FirstMatch, IdOf, DeviceRowsOf, MetaRowsOf;
    var devices, meta := DeviceRowsOf(vendors), MetaRowsOf(vendors);
    forall i, j, k | 0 <= i < j < |ds| ensures !(k in devices(ds[i]) && k in devices(ds[j]))
                                               && !(k in meta(ds[i]) && k in meta(ds[j]))
    {
      NodeRowsOfOwner(vendors, ds[i], k);
      NodeRowsOfOwner(vendors, ds[j], k);
    }
  }

  // Two ioctl tables agree about the numbers that a command can carry, the low eight
  // bits of it.
  ghost predicate Agree(a: map<nat, nat>, b: map<nat, nat>) {
    forall nr: nat :: nr < 0x100 ==> (nr in a <==> nr in b) && (nr in a && nr in b ==> a[nr] == b[nr])
  }

  // Devices whose vendors share a name have vendors whose ioctl tables agree.
  ghost predicate SameTables(vendors: seq<Vendor>, ds: seq<Device>) {
    forall d, e :: d in ds && e in ds && Alike(vendors, d, e)
      ==> Agree(vendors[FirstMatch(vendors, d)].ioctls, vendors[FirstMatch(vendors, e)].ioctls)
  }

  ghost predicate Alike(vendors: seq<Vendor>, d: Device, e: Device) {
    var i, j := FirstMatch(vendors, d), FirstMatch(vendors, e);
    i < |vendors| && j < |vendors| && vendors[i].name == vendors[j].name
  }

  lemma DistinctNamesSameTables(vendors: seq<Vendor>, ds: seq<Device>)
    requires DistinctNames(vendors)
    ensures SameTables(vendors, ds)
  {
  }

  lemma {:induction false} IoctlRowsOfOwner(vendors: seq<Vendor>, d: Device, k: IoctlKey)
    ensures var i := FirstMatch(vendors, d);
            && (k in IoctlRowsOf(vendors)(d) <==>
                  i < |vendors| && k.vendorID == IdOf(vendors, vendors[i].name) && k.nr in vendors[i].ioctls)
            && (k in IoctlRowsOf(vendors)(d) ==> IoctlRowsOf(vendors)(d)[k] == vendors[i].ioctls[k.nr])
  {
    var i := FirstMatch(vendors, d);
    if i < |vendors| {
      RowsOfOwner(vendors, d, vendors[i]);
      IoctlRowsAre(IdOf(vendors, vendors[i].name), vendors[i].ioctls);
    } else {
      RowsWithoutOwner(vendors, d);
    }
    hide *;
  }

  // Rows under one key come from vendors of one name.
  lemma SharedRowsAreAlike(vendors: seq<Vendor>, d: Device, e: Device, k: IoctlKey)
    requires k in IoctlRowsOf(vendors)(d) && k in IoctlRowsOf(vendors)(e)
    ensures Alike(vendors, d, e)
  {
    IoctlRowsOfOwner(vendors, d, k);
    IoctlRowsOfOwner(vendors, e, k);
    hide IoctlRowsOf, FirstMatch, IdOf;
  }

  lemma DistinctMeansCompatible(vendors: seq<Vendor>, ds: seq<Device>)
    requires DistinctNames(vendors)
    ensures Compatible(ds, IoctlRowsOf(vendors))
  {
    hide IoctlRowsOf, FirstMatch, IdOf;
    forall i, j, k | 0 <= i < j < |ds| && k in IoctlRowsOf(vendors)(ds[i]) && k in IoctlRowsOf(vendors)(ds[j])
      ensures IoctlRowsOf(vendors)(ds[i])[k] == IoctlRowsOf(vendors)(ds[j])[k]
    {
      SharedRowsAreAlike(vendors, ds[i], ds[j], k);
      IoctlRowsOfOwner(vendors, ds[i], k);
      IoctlRowsOfOwner(vendors, ds[j], k);
    }
  }

  lemma {:induction false} IoctlEntries(vendors: seq<Vendor>, ds: seq<Device>, d: Device, v: Vendor, nr: nat)
    requires SameTables(vendors, ds) && d in ds && nr < 0x100
    requires FirstMatch(vendors, d) < |vendors| && v == vendors[FirstMatch(vendors, d)]
    ensures var k, t := IoctlKey(IdOf(vendors, v.name), nr), Compile(vendors, ds).ioctls;
            && (k in t <==> nr in v.ioctls)
            && (k in t ==> t[k] == v.ioctls[nr])
  {
    var k, rows := IoctlKey(IdOf(vendors, v.name), nr), IoctlRowsOf(vendors);
    IoctlRowsOfOwner(vendors, d, k);
    UnionIsWritten(ds, rows, k);
    hide IoctlRowsOf, Union, FirstMatch, IdOf;
    if k in Union(ds, rows) {
      var e :| e in ds && Writes(e, rows, k, Union(ds, rows)[k]);
      IoctlRowsOfOwner(vendors, e, k);
      assert Alike(vendors, d, e);
      assert Agree(v.ioctls, vendors[FirstMatch(vendors, e)].ioctls);
    }
  }

  lemma SameTablesPreserveMeaning(vendors: seq<Vendor>, ds: seq<Device>, d: Device, key: DeviceKey, cmd: nat)
    requires SameTables(vendors, ds) && DisjointNodes(ds)
    requires d in ds && key in KeysOf(d.nodes)
    ensures Observed(Compile(vendors, ds), key, cmd) == Means(vendors, d, cmd % 0x100)
  {
    var t, i := Compile(vendors, ds), FirstMatch(vendors, d);
    MetaMatchesKernel(vendors, ds);
    if i < |vendors| {
      OwnedNumber(vendors, ds, d, vendors[i], key);
      IoctlEntries(vendors, ds, d, vendors[i], cmd % 0x100);
    } else {
      UnownedNumber(vendors, ds, d, key);
    }
    hide KeysOf, Compile, DisjointNodes, SameTables;
  }

  // The compiled form preserves the direct meaning: for every number of every device,
  // and every ioctl command, the agent counts under exactly the kind and vendor that the
  // direct reading gives, and ignores exactly what that reading ignores.
  lemma SetupPreservesMeaning(vendors: seq<Vendor>, ds: seq<Device>, d: Device, key: DeviceKey, cmd: nat)
    requires DistinctNames(vendors) && DisjointNodes(ds)
    requires d in ds && key in KeysOf(d.nodes)
    ensures Observed(Compile(vendors, ds), key, cmd) == Means(vendors, d, cmd % 0x100)
  {
    DistinctNamesSameTables(vendors, ds);
    SameTablesPreserveMeaning(vendors, ds, d, key, cmd);
  }

  ghost predicate Preserved(vendors: seq<Vendor>, ds: seq<Device>, d: Device, key: DeviceKey, cmd: nat) {
    d in ds && key in KeysOf(d.nodes) ==> Observed(Compile(vendors, ds), key, cmd) == Means(vendors, d, cmd % 0x100)
  }

  // Nothing in the code enforces distinct names. What is needed for the meaning to be
  // preserved is exactly that devices under one vendor name agree about the ioctls. The
  // devices come from discovery, which never lists one without a node.
  lemma SetupPreservesMeaningIff(vendors: seq<Vendor>, ds: seq<Device>)
    requires DisjointNodes(ds) && forall d :: d in ds ==> d.nodes != []
    ensures (forall d, key, cmd :: Preserved(vendors, ds, d, key, cmd)) <==> SameTables(vendors, ds)
  {
    if SameTables(vendors, ds) {
      forall d, key, cmd | d in ds && key in KeysOf(d.nodes) ensures Preserved(vendors, ds, d, key, cmd) {
        SameTablesPreserveMeaning(vendors, ds, d, key, cmd);
      }
    }
    if forall d, key, cmd :: Preserved(vendors, ds, d, key, cmd) {
      forall d, e | d in ds && e in ds && Alike(vendors, d, e)
        ensures Agree(vendors[FirstMatch(vendors, d)].ioctls, vendors[FirstMatch(vendors, e)].ioctls)
      {
        PreservedTables(vendors, ds, d, e);
      }
    }
    hide Observed, Means, KeysOf, Compile, FirstMatch, Alike;
  }

  lemma {:induction false} PreservedTables(vendors: seq<Vendor>, ds: seq<Device>, d: Device, e: Device)
    requires DisjointNodes(ds) && d in ds && e in ds && d.nodes != [] && e.nodes != [] && Alike(vendors, d, e)
    requires forall d, key, cmd :: Preserved(vendors, ds, d, key, cmd)
    ensures Agree(vendors[FirstMatch(vendors, d)].ioctls, vendors[FirstMatch(vendors, e)].ioctls)
  {
    hide FirstMatch, Preserved, DisjointNodes, KeysOf;
    var v, w := vendors[FirstMatch(vendors, d)], vendors[FirstMatch(vendors, e)];
    forall nr: nat | nr < 0x100
      ensures (nr in v.ioctls <==> nr in w.ioctls) && (nr in v.ioctls ==> v.ioctls[nr] == w.ioctls[nr])
    {
      PreservedEntry(vendors, ds, d, v, nr);
      PreservedEntry(vendors, ds, e, w, nr);
    }
  }

  lemma {:induction false} PreservedEntry(vendors: seq<Vendor>, ds: seq<Device>, d: Device, v: Vendor, nr: nat)
    requires DisjointNodes(ds) && d in ds && d.nodes != [] && nr < 0x100
    requires FirstMatch(vendors, d) < |vendors| && v == vendors[FirstMatch(vendors, d)]
    requires forall d, key, cmd :: Preserved(vendors, ds, d, key, cmd)
    ensures var k, t := IoctlKey(IdOf(vendors, v.name), nr), Compile(vendors, ds).ioctls;
            && (nr in v.ioctls <==> k in t)
            && (k in t ==> t[k] == v.ioctls[nr])
  {
    var key := KeyOf(d.nodes[0]);
    assert key in KeysOf(d.nodes);
    OwnedNumber(vendors, ds, d, v, key);
    assert Preserved(vendors, ds, d, key, nr);
    ReadEntry(vendors, Compile(vendors, ds), d, v, key, nr);
    hide *;
  }

  lemma {:induction false} ReadEntry(vendors: seq<Vendor>, t: Tables, d: Device, v: Vendor, key: DeviceKey, nr: nat)
    requires nr < 0x100 && FirstMatch(vendors, d) < |vendors| && v == vendors[FirstMatch(vendors, d)]
    requires key in t.devices && key in t.meta && Observed(t, key, nr) == Means(vendors, d, nr)
    ensures var k := IoctlKey(t.devices[key], nr);
            && (nr in v.ioctls <==> k in t.ioctls)
            && (k in t.ioctls ==> t.ioctls[k] == v.ioctls[nr])
  {
    hide FirstMatch;
  }

  // The number of a device with a vendor leads to this vendor.
  lemma {:induction false} OwnedNumber(vendors: seq<Vendor>, ds: seq<Device>, d: Device, v: Vendor, key: DeviceKey)
    requires DisjointNodes(ds) && d in ds && key in KeysOf(d.nodes)
    requires FirstMatch(vendors, d) < |vendors| && v == vendors[FirstMatch(vendors, d)]
    ensures var t := Compile(vendors, ds);
            && key in t.devices && t.devices[key] == IdOf(vendors, v.name)
            && key in t.meta && t.meta[key] == DeviceMeta(d.pciAddress, v.name)
  {
    DisjointMeansCompatible(vendors, ds);
    NodeRowsOfOwner(vendors, d, key);
    CompatibleUnion(ds, DeviceRowsOf(vendors), d, key);
    CompatibleUnion(ds, MetaRowsOf(vendors), d, key);
    hide KeysOf, FirstMatch, IdOf, DeviceRowsOf, MetaRowsOf, DisjointNodes;
  }

  // The number of a device without a vendor is in no table.
  lemma {:induction false} UnownedNumber(vendors: seq<Vendor>, ds: seq<Device>, d: Device, key: DeviceKey)
    requires DisjointNodes(ds) && d in ds && key in KeysOf(d.nodes)
    requires FirstMatch(vendors, d) == |vendors|
    ensures key !in Compile(vendors, ds).devices
  {
    var rows := DeviceRowsOf(vendors);
    UnionIsWritten(ds, rows, key);
    forall e | e in ds ensures key !in rows(e) {
      NodeRowsOfOwner(vendors, e, key);
      var i :| 0 <= i < |ds| && ds[i] == d;
      var j :| 0 <= j < |ds| && ds[j] == e;
      hide KeysOf, FirstMatch, DeviceRowsOf;
      assert i == j || KeysOf(ds[i].nodes) !! KeysOf(ds[j].nodes);
    }
  }

  // A number that no device owns is ignored.
  lemma StrangersAreIgnored(vendors: seq<Vendor>, ds: seq<Device>, key: DeviceKey, cmd: nat)
    requires forall d :: d in ds ==> key !in KeysOf(d.nodes)
    ensures Observed(Compile(vendors, ds), key, cmd) == None
  {
    hide KeysOf, FirstMatch, IdOf, IoctlRows, DeviceRowsOf;
    UnionIsWritten(ds, DeviceRowsOf(vendors), key);
    forall d | d in ds ensures key !in DeviceRowsOf(vendors)(d) {
      NodeRowsOfOwner(vendors, d, key);
    }
  }

  // So the program in the kernel submits an event for an ioctl on a discovered device
  // exactly when the ioctl means something there, with the kind it means.
  lemma KernelFiltersByMeaning(vendors: seq<Vendor>, ds: seq<Device>, d: Device, rdev: nat, cmd: nat, cgroupID: nat)
    requires DistinctNames(vendors) && DisjointNodes(ds)
    requires d in ds && DeviceKey(Major(rdev), Minor(rdev)) in KeysOf(d.nodes)
    ensures var t := Compile(vendors, ds);
            var e, m := Filter(t.devices, t.ioctls, rdev, cmd, cgroupID), Means(vendors, d, cmd % 0x100);
            && (e.Some? <==> m.Some?)
            && (e.Some? ==> e.value.kind == m.value.1)
  {
    SetupPreservesMeaning(vendors, ds, d, DeviceKey(Major(rdev), Minor(rdev)), cmd);
    MetaMatchesKernel(vendors, ds);
    hide Compile, Means, KeysOf, DisjointNodes, DistinctNames, Major, Minor;
  }

  // ---- Order -------------------------------------------------------------------------------

  // Some order of the devices compiles to other tables exactly when two devices write
  // different rows under one key.
  lemma DeviceOrderIrrelevantIff(vendors: seq<Vendor>, ds: seq<Device>)
    ensures (forall es :: multiset(es) == multiset(ds) ==> Compile(vendors, es) == Compile(vendors, ds))
            <==> && Compatible(ds, DeviceRowsOf(vendors)) && Compatible(ds, IoctlRowsOf(vendors))
                 && Compatible(ds, MetaRowsOf(vendors))
  {
    var devices, ioctls, meta := DeviceRowsOf(vendors), IoctlRowsOf(vendors), MetaRowsOf(vendors);
    if Compatible(ds, devices) && Compatible(ds, ioctls) && Compatible(ds, meta) {
      forall es | multiset(es) == multiset(ds) ensures Compile(vendors, es) == Compile(vendors, ds) {
        SameItems(ds, es);
        SameItemsSameUnion(ds, es, devices);
        SameItemsSameUnion(ds, es, ioctls);
        SameItemsSameUnion(ds, es, meta);
      }
    }
    if forall es :: multiset(es) == multiset(ds) ==> Compile(vendors, es) == Compile(vendors, ds) {
      forall es | multiset(es) == multiset(ds)
        ensures Union(es, devices) == Union(ds, devices) && Union(es, ioctls) == Union(ds, ioctls)
                && Union(es, meta) == Union(ds, meta)
      {
        assert Compile(vendors, es) == Compile(vendors, ds);
      }
      AnyOrderMeansCompatible(ds, devices);
      AnyOrderMeansCompatible(ds, ioctls);
      AnyOrderMeansCompatible(ds, meta);
    }
  }

  // So with vendors of distinct names and devices that share no number, the order in
  // which discovery lists the devices has no influence.
  lemma DeviceOrderIrrelevant(vendors: seq<Vendor>, ds: seq<Device>, es: seq<Device>)
    requires DistinctNames(vendors) && DisjointNodes(ds) && multiset(es) == multiset(ds)
    ensures Compile(vendors, es) == Compile(vendors, ds)
  {
    DisjointMeansCompatible(vendors, ds);
    DistinctMeansCompatible(vendors, ds);
    DeviceOrderIrrelevantIff(vendors, ds);
  }

  lemma {:induction false} OwnerIsTheMatch(vendors: seq<Vendor>, d: Device, i: nat)
    requires DisjointMatches(vendors) && i < |vendors| && vendors[i].matches(d)
    ensures FirstMatch(vendors, d) == i
  {
    var j := FirstMatch(vendors, d);
  }

  // Which vendor a device gets does not depend on the order of registration, when no
  // device is matched by two.
  lemma VendorOrderIrrelevant(vendors: seq<Vendor>, others: seq<Vendor>, d: Device)
    requires DisjointMatches(vendors) && DisjointMatches(others) && multiset(vendors) == multiset(others)
    ensures Owner(vendors, d) == Owner(others, d)
  {
    SameItems(vendors, others);
    var i, j := FirstMatch(vendors, d), FirstMatch(others, d);
    if i < |vendors| {
      assert vendors[i] in others;
      var k :| 0 <= k < |others| && others[k] == vendors[i];
      OwnerIsTheMatch(others, d, k);
    } else {
      assert forall k :: 0 <= k < |others| ==> others[k] in vendors;
    }
  }

  // Registering the vendors in another order changes the ids in the kernel's tables but
  // nothing that can be observed.
  lemma RegistrationOrderUnobservable(vendors: seq<Vendor>, others: seq<Vendor>, ds: seq<Device>, key: DeviceKey,
                                      cmd: nat)
    requires DistinctNames(vendors) && DistinctNames(others) && DisjointNodes(ds)
    requires DisjointMatches(vendors) && DisjointMatches(others) && multiset(vendors) == multiset(others)
    ensures Observed(Compile(vendors, ds), key, cmd) == Observed(Compile(others, ds), key, cmd)
  {
    hide Observed, KeysOf;
    if d :| d in ds && key in KeysOf(d.nodes) {
      SetupPreservesMeaning(vendors, ds, d, key, cmd);
      SetupPreservesMeaning(others, ds, d, key, cmd);
      VendorOrderIrrelevant(vendors, others, d);
    } else {
      StrangersAreIgnored(vendors, ds, key, cmd);
      StrangersAreIgnored(others, ds, key, cmd);
    }
  }

  // ---- What discovery delivers ---------------------------------------------------------------

  // Discovery puts no number into two devices, unless one device number was found twice.
  lemma {:induction false} DiscoveredAreDisjoint(found: seq<Found>, ds: seq<Device>)
    requires Listing(ds, Group(found))
    requires forall i, j :: 0 <= i < j < |found| ==> KeyOf(found[i].node) != KeyOf(found[j].node)
    ensures DisjointNodes(ds)
  {
    hide Group, Listing, KeyOf, KeysOf;
    forall i, j | 0 <= i < j < |ds| ensures KeysOf(ds[i].nodes) !! KeysOf(ds[j].nodes) {
      TwoDevicesDiffer(found, ds, i, j);
    }
  }

  lemma {:induction false} TwoDevicesDiffer(found: seq<Found>, ds: seq<Device>, i: nat, j: nat)
    requires Listing(ds, Group(found)) && i < j < |ds|
    requires forall i, j :: 0 <= i < j < |found| ==> KeyOf(found[i].node) != KeyOf(found[j].node)
    ensures KeysOf(ds[i].nodes) !! KeysOf(ds[j].nodes)
  {
    hide Group, KeyOf, KeysOf;
    forall k | k in KeysOf(ds[i].nodes) ensures k !in KeysOf(ds[j].nodes) {
      var f := FoundBehind(found, ds, i, k);
      NumberOfOneDevice(found, ds, j, f);
      assert ds[i].pciAddress != ds[j].pciAddress;
    }
  }

  lemma {:induction false} NumberOfOneDevice(found: seq<Found>, ds: seq<Device>, j: nat, f: Found)
    requires Listing(ds, Group(found)) && j < |ds| && f in found
    requires forall i, j :: 0 <= i < j < |found| ==> KeyOf(found[i].node) != KeyOf(found[j].node)
    ensures KeyOf(f.node) in KeysOf(ds[j].nodes) ==> f.address.name == ds[j].pciAddress
  {
    hide Listing, Group, KeyOf, KeysOf;
    if KeyOf(f.node) in KeysOf(ds[j].nodes) {
      var g := FoundBehind(found, ds, j, KeyOf(f.node));
    }
  }

  lemma FoundBehind(found: seq<Found>, ds: seq<Device>, i: nat, k: DeviceKey) returns (f: Found)
    requires Listing(ds, Group(found)) && i < |ds| && k in KeysOf(ds[i].nodes)
    ensures f in found && f.address.name == ds[i].pciAddress && KeyOf(f.node) == k
  {
    var a := ds[i].pciAddress;
    DeviceIsFirstAndOrdered(found, ds, i);
    AtSomewhere(found, a);
    var n :| 0 <= n < |ds[i].nodes| && KeyOf(ds[i].nodes[n]) == k;
    f := At(found, a)[n];
  }
}

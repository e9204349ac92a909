// Finding accelerator devices: the character device nodes of /dev/dri and /dev/accel,
// grouped by the PCI address behind them.
module Discovery {
  import opened Wrappers
  import opened GoStrings
  import opened Uevent

  datatype Node = Node(minor: nat, major: nat, path: string)

  datatype Device = Device(driverName: string, sysfsPath: string, pciID: string,
                           pciAddress: string, numaNode: string, nodes: seq<Node>)

  datatype Address = Address(name: string, sysfsPath: string)

  // A directory entry together with what the system says when asked about it: the
  // device number if stat succeeds, the uevent file if it opens, the device address
  // if the symlink resolves, and the numa_node file of that address.
  datatype File = File(name: string, isDir: bool, isCharDevice: bool, rdev: Option<(nat, nat)>,
                       uevent: Option<string>, address: Option<Address>, numaNode: string)

  datatype DirError = NotExist | Unreadable

  // ---- What discovery should find ------------------------------------------------------

  // A node that passed every test, with the facts read on the way.
  datatype Found = Found(address: Address, driver: string, pciID: string, numaNode: string, node: Node)

  function Accept(devPath: string, f: File): Option<Found> {
    if f.isDir || !f.isCharDevice || f.rdev.None? || f.address.None? then None
    else
      match UeventOf(f.uevent)
      case Err(_) => None
      case Ok(u) =>
        Some(Found(f.address.value, u["DRIVER"], if "PCI_ID" in u then u["PCI_ID"] else "", f.numaNode,
                   Node(f.rdev.value.1, f.rdev.value.0, JoinPath(devPath, f.name))))
  }

  function Accepted(devPath: string, files: seq<File>): seq<Found> {
    if files == [] then []
    else
      var before, last := Accepted(devPath, files[..|files| - 1]), Accept(devPath, files[|files| - 1]);
      if last.None? then before else before + [last.value]
  }

  // The nodes found at one address, in the order they were found.
  function At(found: seq<Found>, a: string): seq<Found> {
    if found == [] then []
    else
      var before, last := At(found[..|found| - 1], a), found[|found| - 1];
      if last.address.name == a then before + [last] else before
  }

  function NodesOf(found: seq<Found>): seq<Node> {
    seq(|found|, i requires 0 <= i < |found| => found[i].node)
  }

  function Addresses(found: seq<Found>): set<string> {
    set i | 0 <= i < |found| :: found[i].address.name
  }

  // One device per address: what is known of the first node found there, and all the
  // nodes found there.
  function DeviceAt(found: seq<Found>, a: string): Device
    requires At(found, a) != []
  {
    var first := At(found, a)[0];
    Device(first.driver, first.address.sysfsPath, first.pciID, a, first.numaNode, NodesOf(At(found, a)))
  }

  lemma {:induction false} AtSomewhere(found: seq<Found>, a: string)
    ensures a in Addresses(found) <==> At(found, a) != []
    ensures forall i :: 0 <= i < |At(found, a)| ==> At(found, a)[i] in found && At(found, a)[i].address.name == a
  {
    if found != [] {
      var init := found[..|found| - 1];
      AtSomewhere(init, a);
      assert forall i :: 0 <= i < |init| ==> init[i] == found[i];
      assert Addresses(found) == Addresses(init) + {found[|found| - 1].address.name};
    }
  }

  // The devices at all the addresses where nodes were found.
  ghost function Group(found: seq<Found>): map<string, Device> {
    if found == [] then map[]
    else
      var a := found[|found| - 1].address.name;
      Group(found[..|found| - 1])[a := DeviceAt(found, a)]
  }

  lemma NothingFound()
    ensures Group([]) == map[]
  {
  }

  function AddNode(devices: map<string, Device>, f: Found): map<string, Device> {
    var a := f.address.name;
    if a in devices then devices[a := devices[a].(nodes := devices[a].nodes + [f.node])]
    else devices[a := Device(f.driver, f.address.sysfsPath, f.pciID, a, f.numaNode, [f.node])]
  }

  lemma {:induction false} AtStep(found: seq<Found>, f: Found, a: string)
    ensures At(found + [f], a) == if f.address.name == a then At(found, a) + [f] else At(found, a)
    ensures a in Addresses(found + [f]) <==> a in Addresses(found) || a == f.address.name
  {
    var more := found + [f];
    assert more[..|more| - 1] == found && more[|more| - 1] == f;
    assert Addresses(more) == Addresses(found) + {f.address.name};
  }

  lemma {:induction false} GroupAt(found: seq<Found>, a: string)
    ensures a in Group(found) <==> At(found, a) != []
    ensures a in Group(found) ==> Group(found)[a] == DeviceAt(found, a)
  {
    if found != [] {
      GroupAt(found[..|found| - 1], a);
    }
  }

  lemma {:induction false} DeviceStep(found: seq<Found>, f: Found, a: string)
    requires At(found, a) != [] && f.address.name == a
    ensures At(found + [f], a) != []
    ensures DeviceAt(found + [f], a) == DeviceAt(found, a).(nodes := DeviceAt(found, a).nodes + [f.node])
  {
    AtStep(found, f, a);
    assert NodesOf(At(found, a) + [f]) == NodesOf(At(found, a)) + [f.node];
  }

  lemma {:induction false} GroupStep(found: seq<Found>, f: Found)
    ensures Group(found + [f]) == AddNode(Group(found), f)
  {
    var g, h, a := Group(found + [f]), AddNode(Group(found), f), f.address.name;
    forall b ensures b in g <==> b in h {
      GroupAt(found, b);
      GroupAt(found + [f], b);
      AtStep(found, f, b);
    }
    forall b | b in g ensures g[b] == h[b] {
      GroupAt(found, b);
      GroupAt(found + [f], b);
      AtStep(found, f, b);
      AtSomewhere(found, a);
      if b == a && a in Group(found) {
        DeviceStep(found, f, a);
      }
    }
  }

  // ---- What the code does --------------------------------------------------------------

  class DeviceRecord {
    const driverName: string
    const sysfsPath: string
    const pciID: string
    const pciAddress: string
    const numaNode: string
    var nodes: seq<Node>

    constructor (f: Found)
      ensures View() == Device(f.driver, f.address.sysfsPath, f.pciID, f.address.name, f.numaNode, [f.node])
    {
      driverName := f.driver;
      sysfsPath := f.address.sysfsPath;
      pciID := f.pciID;
      pciAddress := f.address.name;
      numaNode := f.numaNode;
      nodes := [f.node];
    }

    function View(): Device
      reads this
    {
      Device(driverName, sysfsPath, pciID, pciAddress, numaNode, nodes)
    }
  }

  // Different addresses have different records.
  ghost predicate Separate(devices: map<string, DeviceRecord>) {
    forall a, b :: a in devices && b in devices && a != b ==> devices[a] != devices[b]
  }

  ghost predicate Holds(devices: map<string, DeviceRecord>, m: map<string, Device>)
    reads devices.Values
  {
    && devices.Keys == m.Keys
    && forall a :: a in devices ==> devices[a].View() == m[a]
  }

  // The end of the loop body: a new record for a new address, one more node for a
  // known one.
  method Record(devices: map<string, DeviceRecord>, f: Found, ghost m: map<string, Device>)
    returns (devices': map<string, DeviceRecord>)
    requires Separate(devices) && Holds(devices, m)
    modifies devices.Values
    ensures Separate(devices') && Holds(devices', AddNode(m, f))
    ensures forall a :: a in devices' ==> devices'[a] in devices.Values || fresh(devices'[a])
  {
    var deviceAddress := f.address.name;
    if deviceAddress !in devices {
      var device := new DeviceRecord(f);
      return devices[deviceAddress := device];
    }
    var device := devices[deviceAddress];
    device.nodes := device.nodes + [f.node];
    return devices;
  }

  method DiscoverDevices(devPath: string, dir: Result<seq<File>, DirError>,
                         devices: map<string, DeviceRecord>, ghost found: seq<Found>)
    returns (devices': map<string, DeviceRecord>, err: Option<DirError>)
    requires Separate(devices) && Holds(devices, Group(found))
    modifies devices.Values
    ensures Separate(devices') && forall a :: a in devices' ==> devices'[a] in devices.Values || fresh(devices'[a])
    ensures match dir
            case Err(e) => err == Some(e) && Holds(devices', Group(found))
            case Ok(files) => err == None && Holds(devices', Group(found + Accepted(devPath, files)))
  {
    hide Group, UeventOf, AddNode, Separate, Holds;
    devices' := devices;
    if dir.Err? {
      return devices, Some(dir.error);
    }
    var files := dir.value;
    assert found + [] == found;
    for i := 0 to |files|
      invariant Separate(devices') && forall a :: a in devices' ==> devices'[a] in devices.Values || fresh(devices'[a])
      invariant Holds(devices', Group(found + Accepted(devPath, files[..i])))
    {
      var file := files[i];
      assert files[..i + 1][..i] == files[..i];
      if file.isDir {
        continue;
      }
      if !file.isCharDevice {
        continue;
      }
      if file.rdev.None? {
        continue;
      }
      var uevent := ReadUevent(file.uevent);
      if uevent.Err? {
        continue;
      }
      if file.address.None? {
        continue;
      }
      var node := Node(file.rdev.value.1, file.rdev.value.0, JoinPath(devPath, file.name));
      var pciID := if "PCI_ID" in uevent.value then uevent.value["PCI_ID"] else "";
      var f := Found(file.address.value, uevent.value["DRIVER"], pciID, file.numaNode, node);
      ghost var before := found + Accepted(devPath, files[..i]);
      assert before + [f] == found + Accepted(devPath, files[..i + 1]);
      GroupStep(before, f);
      devices' := Record(devices', f, Group(before));
    }
    assert files[..|files|] == files;
    err := None;
  }

  // The devices of m, each once, in some order.
  ghost predicate Listing(ds: seq<Device>, m: map<string, Device>) {
    && (forall i :: 0 <= i < |ds| ==> ds[i].pciAddress in m && ds[i] == m[ds[i].pciAddress])
    && (forall i, j :: 0 <= i < j < |ds| ==> ds[i].pciAddress != ds[j].pciAddress)
    && (forall a :: a in m ==> exists i :: 0 <= i < |ds| && ds[i].pciAddress == a)
  }

  function FoundIn(devPath: string, dir: Result<seq<File>, DirError>): seq<Found> {
    if dir.Ok? then Accepted(devPath, dir.value) else []
  }

  // dri is read before accel; a directory that does not exist holds no devices.
  function FoundAll(driPath: string, dri: Result<seq<File>, DirError>,
                    accelPath: string, accel: Result<seq<File>, DirError>): seq<Found> {
    FoundIn(driPath, dri) + FoundIn(accelPath, accel)
  }

  // Go ranges over a map in an unspecified order.
  method ListDevices(devices: map<string, DeviceRecord>, ghost m: map<string, Device>) returns (result: seq<Device>)
    requires Holds(devices, m) && forall a :: a in m ==> m[a].pciAddress == a
    ensures Listing(result, m)
  {
    result := [];
    var rest := devices.Keys;
    while rest != {}
      invariant rest <= devices.Keys
      invariant forall i :: 0 <= i < |result| ==>
                  result[i].pciAddress in m.Keys - rest && result[i] == m[result[i].pciAddress]
      invariant forall i, j :: 0 <= i < j < |result| ==> result[i].pciAddress != result[j].pciAddress
      invariant forall a :: a in m && a !in rest ==> exists i :: 0 <= i < |result| && result[i].pciAddress == a
    {
      var a :| a in rest;
      ghost var before := result;
      result := result + [devices[a].View()];
      rest := rest - {a};
      assert result[|result| - 1].pciAddress == a;
      assert forall i :: 0 <= i < |before| ==> result[i] == before[i];
    }
  }

  // ---- What is discovered, entry by entry -------------------------------------------------

  // The uevent file can be read and names this driver and this PCI id, if it names one.
  ghost predicate Describes(content: string, driver: string, pciID: string) {
    && (forall line :: line in RawLines(content) ==> |line| < 0x1_0000)
    && driver != "" && UeventSays(content, "DRIVER", driver)
    && (UeventSays(content, "PCI_ID", pciID) || (pciID == "" && forall v :: !UeventSays(content, "PCI_ID", v)))
  }

  // A character device that the system can tell everything about.
  ghost predicate Readable(f: File, driver: string, pciID: string) {
    && !f.isDir && f.isCharDevice && f.rdev.Some? && f.address.Some? && f.uevent.Some?
    && Describes(f.uevent.value, driver, pciID)
  }

  ghost predicate Usable(f: File) {
    exists driver, pciID :: Readable(f, driver, pciID)
  }

  ghost predicate UsableAt(f: File, a: string) {
    Usable(f) && f.address.value.name == a
  }

  ghost function NodeOf(devPath: string, f: File): Node
    requires f.rdev.Some?
  {
    var (major, minor) := f.rdev.value;
    Node(minor, major, if devPath == "/" then "/" + f.name else devPath + "/" + f.name)
  }

  // The nodes of a directory at an address, in the order of the entries.
  ghost function NodesAt(devPath: string, files: seq<File>, a: string): seq<Node> {
    if files == [] then []
    else
      var n := |files| - 1;
      NodesAt(devPath, files[..n], a) + if UsableAt(files[n], a) then [NodeOf(devPath, files[n])] else []
  }

  ghost predicate FirstAt(files: seq<File>, i: int, a: string) {
    0 <= i < |files| && UsableAt(files[i], a) && forall j :: 0 <= j < i ==> !UsableAt(files[j], a)
  }

  // The facts of a device are those of this entry.
  ghost predicate FactsFrom(d: Device, f: File) {
    && Readable(f, d.driverName, d.pciID) && d.numaNode == f.numaNode
    && d.pciAddress == f.address.value.name && d.sysfsPath == f.address.value.sysfsPath
  }

  function Files(dir: Result<seq<File>, DirError>): seq<File> {
    if dir.Ok? then dir.value else []
  }

  // One device for every address where an entry can be used, with the nodes found there,
  // dri before accel, and the facts of the first of these entries.
  ghost predicate Discovered(ds: seq<Device>, driPath: string, dri: seq<File>, accelPath: string, accel: seq<File>) {
    && (forall i, j :: 0 <= i < j < |ds| ==> ds[i].pciAddress != ds[j].pciAddress)
    && (forall f :: f in dri + accel && Usable(f) ==> exists d :: d in ds && d.pciAddress == f.address.value.name)
    && (forall d :: d in ds ==>
          && d.nodes == NodesAt(driPath, dri, d.pciAddress) + NodesAt(accelPath, accel, d.pciAddress)
          && exists i :: FirstAt(dri + accel, i, d.pciAddress) && FactsFrom(d, (dri + accel)[i]))
  }

  lemma {:induction false} DescribedExactly(content: string, driver: string, pciID: string)
    ensures Describes(content, driver, pciID) <==>
            && UeventOf(Some(content)).Ok?
            && var u := UeventOf(Some(content)).value;
               u["DRIVER"] == driver && pciID == if "PCI_ID" in u then u["PCI_ID"] else ""
  {
    var r := UeventOf(Some(content));
    if Describes(content, driver, pciID) {
      DescribedIsRead(content, driver, pciID);
    }
    if r.Ok? {
      ReadIsDescribed(content, r.value, driver, pciID);
    }
    hide UeventOf, Describes;
  }

  lemma {:induction false} ReadIsDescribed(content: string, u: map<string, string>, driver: string, pciID: string)
    requires UeventOf(Some(content)) == Ok(u)
    ensures Describes(content, driver, pciID)
            <==> u["DRIVER"] == driver && pciID == if "PCI_ID" in u then u["PCI_ID"] else ""
  {
    UeventExactly(content, u);
    assert u["DRIVER"] != "";
    hide UeventOf, UeventSays, RawLines;
    assert UeventSays(content, "DRIVER", u["DRIVER"]);
    assert UeventSays(content, "DRIVER", driver) <==> u["DRIVER"] == driver;
    assert UeventSays(content, "PCI_ID", pciID) <==> "PCI_ID" in u && u["PCI_ID"] == pciID;
    if "PCI_ID" in u {
      assert UeventSays(content, "PCI_ID", u["PCI_ID"]);
    }
  }

  lemma {:induction false} DescribedIsRead(content: string, driver: string, pciID: string)
    requires Describes(content, driver, pciID)
    ensures UeventOf(Some(content)).Ok?
  {
    var lines := RawLines(content);
    LastAssignmentWins(lines, "DRIVER", driver);
    var k: nat :| LastSays(lines, k, "DRIVER", driver);
    SaysIsAssigns(lines, k, "DRIVER", driver);
    hide Assignments, RawLines, LastSays, LastAssigns;
  }

  lemma {:induction false} AcceptExactly(devPath: string, f: File)
    ensures Accept(devPath, f).Some? <==> Usable(f)
    ensures forall driver, pciID :: Readable(f, driver, pciID) <==>
              && Accept(devPath, f).Some?
              && Accept(devPath, f).value.driver == driver && Accept(devPath, f).value.pciID == pciID
    ensures Accept(devPath, f).Some? ==>
              && f.rdev.Some? && f.address.Some? && Accept(devPath, f).value.address == f.address.value
              && Accept(devPath, f).value.numaNode == f.numaNode
              && Accept(devPath, f).value.node == NodeOf(devPath, f)
  {
    if f.uevent.Some? {
      forall driver, pciID
        ensures Describes(f.uevent.value, driver, pciID) <==>
                && UeventOf(f.uevent).Ok?
                && var u := UeventOf(f.uevent).value;
                   u["DRIVER"] == driver && pciID == if "PCI_ID" in u then u["PCI_ID"] else ""
      {
        DescribedExactly(f.uevent.value, driver, pciID);
      }
    }
    assert f.uevent.None? ==> UeventOf(f.uevent) == Err(NotOpened);
    hide UeventOf, Describes;
    var r := Accept(devPath, f);
    if r.Some? {
      assert Readable(f, r.value.driver, r.value.pciID);
    }
  }

  // What an entry adds to the nodes found at an address.
  ghost function Adds(devPath: string, f: File, a: string): seq<Found> {
    match Accept(devPath, f)
    case None => []
    case Some(x) => if x.address.name == a then [x] else []
  }

  lemma {:induction false} AcceptedStep(devPath: string, files: seq<File>, f: File, a: string)
    ensures At(Accepted(devPath, files + [f]), a) == At(Accepted(devPath, files), a) + Adds(devPath, f, a)
  {
    var more := files + [f];
    assert more[..|more| - 1] == files && more[|more| - 1] == f;
    var r, before := Accept(devPath, f), Accepted(devPath, files);
    assert Accepted(devPath, more) == if r.None? then before else before + [r.value];
    hide Accept, Accepted, At;
    if r.Some? {
      AtStep(before, r.value, a);
    }
    assert At(before, a) + [] == At(before, a);
  }

  lemma {:induction false} NodesAccepted(devPath: string, files: seq<File>, a: string)
    ensures NodesOf(At(Accepted(devPath, files), a)) == NodesAt(devPath, files, a)
  {
    if files == [] {
      NothingAccepted(devPath);
    } else {
      hide Adds, UsableAt, At, Accepted, NodeOf;
      var init, f := files[..|files| - 1], files[|files| - 1];
      assert files == init + [f];
      AcceptedStep(devPath, init, f, a);
      NodesAccepted(devPath, init, a);
      UsableOrNot(devPath, f, a);
      NodesOfBoth(At(Accepted(devPath, init), a), Adds(devPath, f, a));
    }
  }

  lemma NodesOfBoth(x: seq<Found>, y: seq<Found>)
    ensures NodesOf(x + y) == NodesOf(x) + NodesOf(y)
  {
  }

  ghost predicate NoneAt(files: seq<File>, a: string) {
    forall j :: 0 <= j < |files| ==> !UsableAt(files[j], a)
  }

  lemma FirstStep(init: seq<File>, f: File, i: int, a: string)
    requires if i == -1 then NoneAt(init, a) else FirstAt(init, i, a)
    ensures i != -1 ==> 0 <= i < |init| && (init + [f])[i] == init[i] && FirstAt(init + [f], i, a)
    ensures i == -1 ==> if UsableAt(f, a) then FirstAt(init + [f], |init|, a) else NoneAt(init + [f], a)
  {
    hide UsableAt;
    var files := init + [f];
    assert forall j :: 0 <= j < |init| ==> files[j] == init[j];
  }

  // The first entry that is accepted at an address, or -1.
  lemma {:induction false} FirstAccepted(devPath: string, files: seq<File>, a: string) returns (i: int)
    ensures i == -1 ==> At(Accepted(devPath, files), a) == [] && NoneAt(files, a)
    ensures i != -1 ==> At(Accepted(devPath, files), a) != [] && 0 <= i < |files| && FirstAt(files, i, a)
    ensures i != -1 ==> Accept(devPath, files[i]) == Some(At(Accepted(devPath, files), a)[0])
  {
    i := -1;
    if files == [] {
      NothingAccepted(devPath);
    } else {
      hide Accept, UsableAt, At, Accepted, Adds, NoneAt;
      var init, f := files[..|files| - 1], files[|files| - 1];
      assert files == init + [f];
      AcceptedStep(devPath, init, f, a);
      UsableOrNot(devPath, f, a);
      i := FirstAccepted(devPath, init, a);
      FirstStep(init, f, i, a);
      hide FirstAt;
      if i == -1 && UsableAt(f, a) {
        i := |init|;
      }
    }
  }

  lemma {:induction false} UsableOrNot(devPath: string, f: File, a: string)
    ensures UsableAt(f, a) <==> Adds(devPath, f, a) != []
    ensures UsableAt(f, a) ==> f.rdev.Some? && NodesOf(Adds(devPath, f, a)) == [NodeOf(devPath, f)]
    ensures UsableAt(f, a) ==> Accept(devPath, f) == Some(Adds(devPath, f, a)[0])
    ensures !UsableAt(f, a) ==> NodesOf(Adds(devPath, f, a)) == []
  {
    AcceptExactly(devPath, f);
    hide Accept, Readable;
  }

  lemma {:induction false} AtConcat(x: seq<Found>, y: seq<Found>, a: string)
    ensures At(x + y, a) == At(x, a) + At(y, a)
  {
    if y == [] {
      assert x + y == x;
    } else {
      var init, last := y[..|y| - 1], y[|y| - 1];
      AtConcat(x, init, a);
      assert x + y == x + init + [last] && y == init + [last];
      AtStep(x + init, last, a);
      AtStep(init, last, a);
    }
  }

  lemma {:induction false} AtBoth(driPath: string, dri: seq<File>, accelPath: string, accel: seq<File>, a: string)
    returns (i: int, devPath: string)
    ensures var found := Accepted(driPath, dri) + Accepted(accelPath, accel);
            && NodesOf(At(found, a)) == NodesAt(driPath, dri, a) + NodesAt(accelPath, accel, a)
            && (At(found, a) == [] ==> NoneAt(dri + accel, a))
            && (At(found, a) != [] ==>
                  FirstAt(dri + accel, i, a) && Accept(devPath, (dri + accel)[i]) == Some(At(found, a)[0]))
  {
    hide Accept, Accepted, At, UsableAt, NodesAt, NodesOf;
    var x, y := Accepted(driPath, dri), Accepted(accelPath, accel);
    AtConcat(x, y, a);
    NodesOfBoth(At(x, a), At(y, a));
    NodesAccepted(driPath, dri, a);
    NodesAccepted(accelPath, accel, a);
    var k := FirstAccepted(driPath, dri, a);
    var l := FirstAccepted(accelPath, accel, a);
    assert forall j :: 0 <= j < |dri| ==> (dri + accel)[j] == dri[j];
    assert forall j :: 0 <= j < |accel| ==> (dri + accel)[|dri| + j] == accel[j];
    i, devPath := if k != -1 then k else if l != -1 then |dri| + l else -1, if k != -1 then driPath else accelPath;
  }

  lemma {:induction false} FirstGivesFacts(found: seq<Found>, files: seq<File>, i: int, devPath: string, d: Device)
    requires At(found, d.pciAddress) != [] && d == DeviceAt(found, d.pciAddress)
    requires FirstAt(files, i, d.pciAddress) && Accept(devPath, files[i]) == Some(At(found, d.pciAddress)[0])
    ensures FactsFrom(d, files[i])
  {
    AcceptExactly(devPath, files[i]);
    hide At, Accept, Readable, NodesOf;
  }

  lemma {:induction false} ListedIsDiscovered(ds: seq<Device>, driPath: string, dri: seq<File>,
                                              accelPath: string, accel: seq<File>)
    requires Listing(ds, Group(Accepted(driPath, dri) + Accepted(accelPath, accel)))
    ensures Discovered(ds, driPath, dri, accelPath, accel)
  {
    hide Accept, Accepted, At, UsableAt, NodesAt, Group, FactsFrom, NodesOf;
    var found, files := Accepted(driPath, dri) + Accepted(accelPath, accel), dri + accel;
    forall f | f in files && Usable(f) ensures exists d :: d in ds && d.pciAddress == f.address.value.name {
      var a := f.address.value.name;
      assert UsableAt(f, a) by {
        UsableMeans(f);
      }
      var _, _ := AtBoth(driPath, dri, accelPath, accel, a);
      GroupAt(found, a);
      var i :| 0 <= i < |ds| && ds[i].pciAddress == a;
      assert ds[i] in ds;
    }
    forall d | d in ds
      ensures d.nodes == NodesAt(driPath, dri, d.pciAddress) + NodesAt(accelPath, accel, d.pciAddress)
      ensures exists i :: FirstAt(files, i, d.pciAddress) && FactsFrom(d, files[i])
    {
      var a := d.pciAddress;
      GroupAt(found, a);
      var i, devPath := AtBoth(driPath, dri, accelPath, accel, a);
      FirstGivesFacts(found, files, i, devPath, d);
    }
  }

  lemma UsableMeans(f: File)
    requires Usable(f)
    ensures f.address.Some? && UsableAt(f, f.address.value.name)
  {
  }

  lemma {:induction false} NothingAccepted(devPath: string)
    ensures Accepted(devPath, []) == []
  {
  }

  // Every usable entry has its node, with its own number and path, in the device at its
  // address, and every node of a device is that of a usable entry.
  lemma {:induction false} NodesAreEntries(devPath: string, files: seq<File>, a: string, n: Node)
    ensures n in NodesAt(devPath, files, a)
            <==> exists f :: f in files && UsableAt(f, a) && n == NodeOf(devPath, f)
  {
    hide UsableAt, NodeOf;
    if files != [] {
      var last := files[|files| - 1];
      NodesAreEntries(devPath, files[..|files| - 1], a, n);
      assert forall f :: f in files <==> f in files[..|files| - 1] || f == last;
    }
  }

  // The rendered form: an entry whose uevent file lists assignments with a driver is
  // usable, with that driver and the PCI id among them.
  lemma {:induction false} RenderedIsReadable(f: File, kvs: seq<(string, string)>)
    requires !f.isDir && f.isCharDevice && f.rdev.Some? && f.address.Some? && f.uevent == Some(Render(kvs))
    requires forall i :: 0 <= i < |kvs| ==> Renderable(kvs[i])
    requires "DRIVER" in MapOf(kvs) && MapOf(kvs)["DRIVER"] != ""
    ensures Readable(f, MapOf(kvs)["DRIVER"], if "PCI_ID" in MapOf(kvs) then MapOf(kvs)["PCI_ID"] else "")
  {
    hide UeventOf, MapOf, Render, Describes, Renderable;
    UeventInvertsRender(kvs);
    DescribedExactly(Render(kvs), MapOf(kvs)["DRIVER"], if "PCI_ID" in MapOf(kvs) then MapOf(kvs)["PCI_ID"] else "");
  }

  method Discover(driPath: string, dri: Result<seq<File>, DirError>,
                  accelPath: string, accel: Result<seq<File>, DirError>)
    returns (r: Result<seq<Device>, DirError>)
    ensures r.Err? <==> dri == Err(Unreadable) || accel == Err(Unreadable)
    ensures r.Ok? ==> Listing(r.value, Group(FoundAll(driPath, dri, accelPath, accel)))
    ensures r.Ok? ==> Discovered(r.value, driPath, Files(dri), accelPath, Files(accel))
  {
    hide Group, Accepted, Listing, Discovered;
    NothingFound();
    ghost var found := FoundIn(driPath, dri);
    assert [] + found == found && found + [] == found;
    var devices, err := DiscoverDevices(driPath, dri, map[], []);
    if err == Some(Unreadable) {
      return Err(Unreadable);
    }
    devices, err := DiscoverDevices(accelPath, accel, devices, found);
    if err == Some(Unreadable) {
      return Err(Unreadable);
    }
    found := FoundAll(driPath, dri, accelPath, accel);
    forall a | a in Group(found) ensures Group(found)[a].pciAddress == a {
      GroupAt(found, a);
    }
    var result := ListDevices(devices, Group(found));
    assert Accepted(driPath, []) == Accepted(accelPath, []) == [] by {
      NothingAccepted(driPath);
      NothingAccepted(accelPath);
    }
    ListedIsDiscovered(result, driPath, Files(dri), accelPath, Files(accel));
    return Ok(result);
  }

  // ---- Discovery is a partition --------------------------------------------------------

  function AllNodes(ds: seq<Device>): seq<Node> {
    if ds == [] then [] else AllNodes(ds[..|ds| - 1]) + ds[|ds| - 1].nodes
  }

  function Within(found: seq<Found>, addrs: set<string>): seq<Node> {
    if found == [] then []
    else
      var before, last := Within(found[..|found| - 1], addrs), found[|found| - 1];
      if last.address.name in addrs then before + [last.node] else before
  }

  lemma {:induction false} WithinGrows(found: seq<Found>, addrs: set<string>, a: string)
    requires a !in addrs
    ensures multiset(Within(found, addrs + {a})) == multiset(Within(found, addrs)) + multiset(NodesOf(At(found, a)))
  {
    if found != [] {
      var init, last := found[..|found| - 1], found[|found| - 1];
      WithinGrows(init, addrs, a);
      if last.address.name == a {
        assert NodesOf(At(found, a)) == NodesOf(At(init, a)) + [last.node];
      }
    }
  }

  lemma {:induction false} WithinAll(found: seq<Found>, addrs: set<string>)
    requires Addresses(found) <= addrs
    ensures Within(found, addrs) == NodesOf(found)
  {
    if found != [] {
      var init, last := found[..|found| - 1], found[|found| - 1];
      assert forall i :: 0 <= i < |init| ==> init[i] == found[i];
      assert last.address.name in Addresses(found);
      WithinAll(init, addrs);
      assert NodesOf(found) == NodesOf(init) + [last.node];
    }
  }

  lemma {:induction false} ListedNodes(found: seq<Found>, ds: seq<Device>)
    requires forall i :: 0 <= i < |ds| ==> ds[i].pciAddress in Group(found) && ds[i] == Group(found)[ds[i].pciAddress]
    requires forall i, j :: 0 <= i < j < |ds| ==> ds[i].pciAddress != ds[j].pciAddress
    ensures multiset(AllNodes(ds)) == multiset(Within(found, set i | 0 <= i < |ds| :: ds[i].pciAddress))
  {
    var addrs := set i | 0 <= i < |ds| :: ds[i].pciAddress;
    if ds == [] {
      WithinNone(found);
      assert addrs == {};
    } else {
      var init, a := ds[..|ds| - 1], ds[|ds| - 1].pciAddress;
      ListedNodes(found, init);
      assert forall i :: 0 <= i < |init| ==> init[i] == ds[i];
      var before := set i | 0 <= i < |init| :: init[i].pciAddress;
      assert addrs == before + {a};
      WithinGrows(found, before, a);
      GroupAt(found, a);
    }
    hide Group, Within, At, NodesOf;
  }

  lemma {:induction false} WithinNone(found: seq<Found>)
    ensures Within(found, {}) == []
  {
    if found != [] {
      WithinNone(found[..|found| - 1]);
    }
  }

  // Discovery neither loses nor duplicates a node: the node lists of the devices are
  // together exactly the accepted nodes.
  lemma {:induction false} Partition(found: seq<Found>, ds: seq<Device>)
    requires Listing(ds, Group(found))
    ensures multiset(AllNodes(ds)) == multiset(NodesOf(found))
  {
    ListedNodes(found, ds);
    var addrs := set i | 0 <= i < |ds| :: ds[i].pciAddress;
    forall a | a in Addresses(found) ensures a in addrs {
      AtSomewhere(found, a);
      GroupAt(found, a);
    }
    WithinAll(found, addrs);
    hide Group, Within, At, NodesOf, AllNodes;
  }

  // Each accepted node sits in the device with its address, in the order of the scan,
  // and the device's facts are those read with the first of them.
  lemma {:induction false} DeviceIsFirstAndOrdered(found: seq<Found>, ds: seq<Device>, i: nat)
    requires Listing(ds, Group(found)) && i < |ds|
    ensures var here := At(found, ds[i].pciAddress);
            && here != [] && ds[i].nodes == NodesOf(here)
            && ds[i].driverName == here[0].driver && ds[i].pciID == here[0].pciID
            && ds[i].numaNode == here[0].numaNode && ds[i].sysfsPath == here[0].address.sysfsPath
  {
    GroupAt(found, ds[i].pciAddress);
    hide Group, At;
  }
}

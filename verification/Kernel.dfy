// The eBPF program on drm_ioctl and the tables it reads.
module Kernel {
  import opened Wrappers

  const MAX_ENTRIES_DEVICES := 32
  const MAX_ENTRIES_IOCTLS := 640
  const U64 := 0x1_0000_0000_0000_0000

  datatype DeviceKey = DeviceKey(major: nat, minor: nat)

  datatype IoctlKey = IoctlKey(vendorID: nat, nr: nat)

  // The fields of struct event that userspace reads.
  datatype Event = Event(cgroupID: nat, cmd: nat, minor: nat, major: nat, kind: nat)

  // rdev >> 20 and rdev & 0xFFFFF.
  function Major(rdev: nat): nat {
    rdev / 0x10_0000
  }

  function Minor(rdev: nat): nat {
    rdev % 0x10_0000
  }

  function U16(x: nat): nat {
    x % 0x1_0000
  }

  // The two-level lookup: the vendor of the device, then the kind of its ioctl.
  function KindAt(devices: map<DeviceKey, nat>, ioctls: map<IoctlKey, nat>, key: DeviceKey, cmd: nat): Option<nat> {
    if key !in devices then None
    else
      var ikey := IoctlKey(devices[key], cmd % 0x100);
      if ikey !in ioctls then None else Some(ioctls[ikey])
  }

  // What kubenpu_ioctl writes if it gets a slot; None if it filters the call out.
  function Filter(devices: map<DeviceKey, nat>, ioctls: map<IoctlKey, nat>, rdev: nat, cmd: nat,
                  cgroupID: nat): Option<Event> {
    match KindAt(devices, ioctls, DeviceKey(Major(rdev), Minor(rdev)), cmd)
    case None => None
    case Some(kind) => Some(Event(cgroupID, cmd, Minor(rdev), U16(Major(rdev)), kind))
  }

  // What userspace makes of the device number of an event.
  function EventKey(e: Event): DeviceKey {
    DeviceKey(e.major, e.minor)
  }

  // A device number is 32 bits wide, so its major fits the 16 bits of the event and
  // the split loses nothing.
  lemma NumberSurvives(rdev: nat)
    requires rdev < 0x1_0000_0000
    ensures U16(Major(rdev)) == Major(rdev)
    ensures Major(rdev) * 0x10_0000 + Minor(rdev) == rdev && Minor(rdev) < 0x10_0000
  {
  }

  // An event carries the caller's cgroup and command, and the worker looks up exactly the
  // device that the kernel looked up.
  lemma EventNamesFilteredDevice(devices: map<DeviceKey, nat>, ioctls: map<IoctlKey, nat>, rdev: nat, cmd: nat,
                                 cgroupID: nat)
    requires rdev < 0x1_0000_0000
    requires Filter(devices, ioctls, rdev, cmd, cgroupID).Some?
    ensures var e := Filter(devices, ioctls, rdev, cmd, cgroupID).value;
            && e.cgroupID == cgroupID && e.cmd == cmd
            && EventKey(e) == DeviceKey(Major(rdev), Minor(rdev)) && EventKey(e) in devices
            && KindAt(devices, ioctls, EventKey(e), e.cmd) == Some(e.kind)
  {
    NumberSurvives(rdev);
  }
}

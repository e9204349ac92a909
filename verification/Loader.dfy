// The userspace side of the eBPF objects: filling the tables, closing the reader,
// adding up the per-CPU drop counters.
module Loader {
  import opened Kernel

  // The sum of the counters of all CPUs.
  function Sum(cells: seq<nat>): nat {
    if cells == [] then 0 else Sum(cells[..|cells| - 1]) + cells[|cells| - 1]
  }

  lemma {:induction false} SumUpdate(cells: seq<nat>, i: nat, v: nat)
    requires i < |cells|
    ensures Sum(cells[i := v]) == Sum(cells) - cells[i] + v
  {
    var n := |cells| - 1;
    if i < n {
      SumUpdate(cells[..n], i, v);
      assert cells[i := v][..n] == cells[..n][i := v];
    } else {
      assert cells[i := v][..n] == cells[..n];
    }
  }

  // A BPF hash map refuses a new key once it is full.
  predicate Full<K, V>(m: map<K, V>, k: K, max: nat) {
    k !in m && |m| >= max
  }

  class Loader {
    var devices: map<DeviceKey, nat>
    var ioctls: map<IoctlKey, nat>
    var dropped: seq<nat>
    var hasReader: bool
    var hasHook: bool
    var readerOnce: bool
    var closeOnce: bool
    ghost var readerCloses: nat
    ghost var hooksAttached: nat
    ghost var objectCloses: nat

    // The ring buffer reader is closed at most once, and only if there is one. At most one
    // hook is attached, none after Close, which also closes the objects, once.
    ghost predicate Valid()
      reads this
    {
      && readerCloses == (if hasReader && readerOnce then 1 else 0)
      && hooksAttached == (if hasHook && !closeOnce then 1 else 0)
      && objectCloses == (if closeOnce then 1 else 0)
    }

    constructor (cpus: nat)
      ensures Valid() && devices == map[] && ioctls == map[] && !readerOnce && !hasReader && !closeOnce
      ensures dropped == seq(cpus, _ => 0) && !hasHook
    {
      devices, ioctls := map[], map[];
      dropped := seq(cpus, _ => 0);
      hasReader, hasHook, readerOnce, closeOnce := false, false, false, false;
      readerCloses, hooksAttached, objectCloses := 0, 0, 0;
    }

    method AddDevice(major: nat, minor: nat, vendorID: nat) returns (ok: bool)
      modifies this`devices
      ensures ok <==> DeviceKey(major, minor) in old(devices) || |old(devices)| < 32
      ensures devices == if ok then old(devices)[DeviceKey(major, minor) := vendorID] else old(devices)
    {
      var key := DeviceKey(major, minor);
      if Full(devices, key, MAX_ENTRIES_DEVICES) {
        return false;
      }
      devices := devices[key := vendorID];
      return true;
    }

    method AddIoctl(vendorID: nat, nr: nat, kind: nat) returns (ok: bool)
      modifies this`ioctls
      ensures ok <==> IoctlKey(vendorID, nr) in old(ioctls) || |old(ioctls)| < 640
      ensures ioctls == if ok then old(ioctls)[IoctlKey(vendorID, nr) := kind] else old(ioctls)
    {
      var key := IoctlKey(vendorID, nr);
      if Full(ioctls, key, MAX_ENTRIES_IOCTLS) {
        return false;
      }
      ioctls := ioctls[key := kind];
      return true;
    }

    // A hook from an earlier call is detached first. attaches says whether the kernel
    // accepts the new one. Called by main before anything is closed.
    method Attach(attaches: bool)
      requires Valid() && !closeOnce
      modifies this`hasHook, this`hooksAttached
      ensures Valid() && hasHook == attaches && hooksAttached == if attaches then 1 else 0
    {
      if hasHook {
        hasHook, hooksAttached := false, hooksAttached - 1;
      }
      if attaches {
        hasHook, hooksAttached := true, hooksAttached + 1;
      }
    }

    // Called once by main, before the goroutine that may close the reader starts.
    method CreateReader()
      requires Valid() && !readerOnce
      modifies this`hasReader
      ensures Valid() && hasReader
    {
      hasReader := true;
    }

    method CloseReader()
      requires Valid()
      modifies this`readerOnce, this`readerCloses
      ensures Valid() && readerOnce
      ensures readerCloses == if old(readerOnce) || !hasReader then old(readerCloses) else old(readerCloses) + 1
    {
      if readerOnce {
        return;
      }
      readerOnce := true;
      if !hasReader {
        return;
      }
      readerCloses := readerCloses + 1;
    }

    method Close()
      requires Valid()
      modifies this`closeOnce, this`readerOnce, this`readerCloses, this`hooksAttached, this`objectCloses
      ensures Valid() && closeOnce && readerCloses <= 1 && hooksAttached == 0 && objectCloses == 1
      ensures !old(closeOnce) ==> readerOnce
      ensures old(closeOnce) ==> readerOnce == old(readerOnce) && readerCloses == old(readerCloses)
    {
      if closeOnce {
        return;
      }
      CloseReader();
      closeOnce := true;
      if hasHook {
        hooksAttached := hooksAttached - 1;
      }
      objectCloses := objectCloses + 1;
    }

    // 64-bit addition wraps around.
    method DroppedEvents() returns (total: nat)
      ensures total == Sum(dropped) % 0x1_0000_0000_0000_0000
    {
      total := 0;
      for i := 0 to |dropped|
        invariant total == Sum(dropped[..i]) % U64
      {
        assert dropped[..i + 1][..i] == dropped[..i];
        total := (total + dropped[i]) % U64;
      }
      assert dropped[..|dropped|] == dropped;
    }
  }
}

// The registered vendors and the two first-match scans over them.
module Registry {
  import opened Wrappers
  import opened Discovery

  const KIND_SUBMIT := 1
  const KIND_ALLOC := 2
  const KIND_WAIT := 3

  function KindString(kind: nat): string {
    if kind == KIND_SUBMIT then "submit"
    else if kind == KIND_ALLOC then "alloc"
    else if kind == KIND_WAIT then "wait"
    else "unknown"
  }

  // What main uses of a hw.Vendor: its name, the devices it matches, and its table
  // from ioctl number to kind.
  datatype Vendor = Vendor(name: string, matches: Device -> bool, ioctls: map<nat, nat>)

  // The position of the first vendor that matches d, or the number of vendors.
  function FirstMatch(vendors: seq<Vendor>, d: Device): (i: nat)
    ensures i <= |vendors|
    ensures forall j :: 0 <= j < i ==> !vendors[j].matches(d)
    ensures i < |vendors| ==> vendors[i].matches(d)
  {
    if vendors == [] then 0
    else if vendors[0].matches(d) then 0
    else 1 + FirstMatch(vendors[1..], d)
  }

  // One more than the position of the first vendor with the name, or 0.
  function IdOf(vendors: seq<Vendor>, name: string): (id: nat)
    ensures id <= |vendors|
    ensures id > 0 ==> vendors[id - 1].name == name
    ensures forall j :: 0 <= j < (if id == 0 then |vendors| else id - 1) ==> vendors[j].name != name
  {
    if vendors == [] then 0
    else if vendors[0].name == name then 1
    else
      var id := IdOf(vendors[1..], name);
      if id == 0 then 0 else id + 1
  }

  class VendorRegistry {
    var vendors: seq<Vendor>

    constructor ()
      ensures vendors == []
    {
      vendors := [];
    }

    method RegisterVendor(vendor: Vendor)
      modifies this
      ensures vendors == old(vendors) + [vendor]
    {
      vendors := vendors + [vendor];
    }

    method GetVendor(d: Device) returns (vendor: Option<Vendor>)
      ensures var i := FirstMatch(vendors, d);
              vendor == if i == |vendors| then None else Some(vendors[i])
    {
      for i := 0 to |vendors|
        invariant forall j :: 0 <= j < i ==> !vendors[j].matches(d)
      {
        if vendors[i].matches(d) {
          return Some(vendors[i]);
        }
      }
      return None;
    }

    method GetVendorID(name: string) returns (id: nat)
      ensures id == IdOf(vendors, name)
    {
      for i := 0 to |vendors|
        invariant forall j :: 0 <= j < i ==> vendors[j].name != name
      {
        if vendors[i].name == name {
          return i + 1;
        }
      }
      return 0;
    }
  }

  ghost predicate DistinctNames(vendors: seq<Vendor>) {
    forall i, j :: 0 <= i < j < |vendors| ==> vendors[i].name != vendors[j].name
  }

  // No device is matched by two vendors.
  ghost predicate DisjointMatches(vendors: seq<Vendor>) {
    forall i, j, d :: 0 <= i < j < |vendors| ==> !vendors[i].matches(d) || !vendors[j].matches(d)
  }

  // The number under which a matched device is entered is that of its own vendor.
  lemma {:induction false} IdIsPosition(vendors: seq<Vendor>, i: nat)
    requires DistinctNames(vendors) && i < |vendors|
    ensures IdOf(vendors, vendors[i].name) == i + 1
  {
  }
}

// Reading the pod UID and the container id out of a cgroup path.
module CgroupPath {
  import opened Wrappers
  import opened Errors
  import opened GoStrings

  datatype ToIDs = ToIDs(podUID: string, containerID: string)

  function PodUIDFromPart(part: string): Option<string> {
    if HasPrefix(part, "kubepods-") && HasSuffix(part, ".slice") then
      match Cut(TrimSuffix(part, ".slice"), "-pod")
      case None => None
      case Some((_, uid)) => if uid == "" then None else Some(ReplaceAll(uid, '_', '-'))
    else if HasPrefix(part, "pod") && part != "pod" then Some(part[3..])
    else None
  }

  predicate IsHexByte(c: char) {
    '0' <= c <= '9' || 'a' <= c <= 'f'
  }

  predicate IsHex(s: string) {
    s != "" && forall i :: 0 <= i < |s| ==> IsHexByte(s[i])
  }

  function ContainerIDFromPart(part: string): Result<string, Error> {
    var trimmed := TrimSuffix(part, ".scope");
    var id := trimmed[LastIndexByte(trimmed, '-') + 1..];
    if IsHex(id) then Ok(id) else Err(Plain(BadContainerID))
  }

  predicate IsKubepods(part: string) {
    HasPrefix(part, "kubepods")
  }

  predicate IsPod(part: string) {
    PodUIDFromPart(part).Some?
  }

  // The first component at or after from that satisfies f, or the length.
  function First(parts: seq<string>, from: nat, f: string -> bool): (i: nat)
    requires from <= |parts|
    ensures from <= i <= |parts|
    ensures forall j :: from <= j < i ==> !f(parts[j])
    ensures i < |parts| ==> f(parts[i])
    decreases |parts| - from
  {
    if from == |parts| || f(parts[from]) then from else First(parts, from + 1, f)
  }

  // The component that names the pod: the first one to name a pod at or after the
  // first one to start with "kubepods".
  function PodPart(parts: seq<string>): (i: nat)
    ensures i <= |parts|
    ensures i < |parts| ==> IsPod(parts[i])
  {
    First(parts, First(parts, 0, IsKubepods), IsPod)
  }

  // What a component list means: the pod named by PodPart and the container named
  // by the component right after it.
  function Scan(parts: seq<string>): Result<ToIDs, Error> {
    var p := PodPart(parts);
    if p == |parts| then Err(Plain(NoPodUID))
    else if p + 1 == |parts| || parts[p + 1] == "" then Err(Plain(NoContainerID))
    else
      match ContainerIDFromPart(parts[p + 1])
      case Err(e) => Err(Wrap(e))
      case Ok(id) => Ok(ToIDs(PodUIDFromPart(parts[p]).value, id))
  }

  function Parse(path: string): Result<ToIDs, Error> {
    if !Contains(path, "kubepods") then Err(NotPod) else Scan(Split(path))
  }

  method ParseCgroupPath(path: string) returns (r: Result<ToIDs, Error>)
    ensures r == Parse(path)
  {
    hide PodUIDFromPart, ContainerIDFromPart, Contains, Split;
    if !Contains(path, "kubepods") {
      return Err(NotPod);
    }
    var parts := Split(path);
    var isKubepods := false;
    ghost var k := First(parts, 0, IsKubepods);
    for i := 0 to |parts|
      invariant isKubepods <==> k < i
      invariant forall j :: k <= j < i ==> !IsPod(parts[j])
    {
      var part := parts[i];
      if !isKubepods {
        if !HasPrefix(part, "kubepods") {
          continue;
        }
        isKubepods := true;
      }
      var podUID := PodUIDFromPart(part);
      if podUID.None? {
        continue;
      }
      assert PodPart(parts) == i;
      if i + 1 >= |parts| || parts[i + 1] == "" {
        return Err(Plain(NoContainerID));
      }
      var containerID := ContainerIDFromPart(parts[i + 1]);
      if containerID.Err? {
        return Err(Wrap(containerID.error));
      }
      return Ok(ToIDs(podUID.value, containerID.value));
    }
    return Err(Plain(NoPodUID));
  }

  // Component p names the pod of the path: it is at or after the first "kubepods"
  // component k, and nothing in between names a pod.
  ghost predicate NamesPod(parts: seq<string>, k: nat, p: nat) {
    && k <= p < |parts|
    && (forall j :: 0 <= j < k ==> !IsKubepods(parts[j])) && IsKubepods(parts[k])
    && (forall j :: k <= j < p ==> !IsPod(parts[j])) && IsPod(parts[p])
  }

  lemma NamesPodUnique(parts: seq<string>, k: nat, p: nat)
    requires NamesPod(parts, k, p)
    ensures PodPart(parts) == p
  {
    hide First, IsKubepods, IsPod;
    assert First(parts, 0, IsKubepods) == k;
  }

  lemma ScanCharacterised(parts: seq<string>, ids: ToIDs)
    ensures Scan(parts) == Ok(ids) <==> exists k: nat, p: nat :: NamesIDs(parts, k, p, ids)
  {
    hide PodUIDFromPart, ContainerIDFromPart, First, IsKubepods;
    NoEmptyID();
    if Scan(parts) == Ok(ids) {
      assert NamesIDs(parts, First(parts, 0, IsKubepods), PodPart(parts), ids);
    }
    if k: nat, p: nat :| NamesIDs(parts, k, p, ids) {
      NamesPodUnique(parts, k, p);
    }
  }

  lemma NoEmptyID()
    ensures ContainerIDFromPart("").Err?
  {
  }

  // ---- What the components mean, letter by letter ---------------------------------------

  ghost predicate LowerHex(s: string) {
    s != "" && forall c :: c in s ==> c in "0123456789abcdef"
  }

  lemma HexDigits(s: string)
    ensures IsHex(s) <==> LowerHex(s)
  {
    forall c ensures IsHexByte(c) <==> c in "0123456789abcdef" {
      HexDigit(c);
    }
    hide IsHexByte;
    assert forall i :: 0 <= i < |s| ==> s[i] in s;
  }

  lemma HexDigit(c: char)
    ensures IsHexByte(c) <==> c in "0123456789abcdef"
  {
    var digits := "0123456789abcdef";
    assert digits == ['0', '1', '2', '3', '4', '5', '6', '7', '8', '9', 'a', 'b', 'c', 'd', 'e', 'f'];
    if IsHexByte(c) {
      var i := if c <= '9' then c as int - '0' as int else c as int - 'a' as int + 10;
      assert digits[i] == c;
    }
  }

  ghost predicate EndsInID(text: string, id: string) {
    text == id || (|text| > |id| && text[|text| - |id|..] == id && text[|text| - |id| - 1] == '-')
  }

  // A container component is a hexadecimal id, alone or after a dash, with or without
  // ".scope" behind it.
  ghost predicate CarriesID(part: string, id: string) {
    LowerHex(id)
    && (EndsInID(part, id) || (|part| >= 6 && part[|part| - 6..] == ".scope" && EndsInID(part[..|part| - 6], id)))
  }

  lemma {:induction false} NoDashAfter(text: string, n: nat)
    requires n <= |text| && '-' !in text[n..]
    ensures LastIndexByte(text, '-') < n
  {
    forall j | n <= j < |text| ensures text[j] != '-' {
      assert text[n..][j - n] == text[j];
    }
  }

  lemma {:induction false} LastDash(text: string, id: string)
    requires '-' !in id
    ensures EndsInID(text, id) <==> text[LastIndexByte(text, '-') + 1..] == id
  {
    var i := LastIndexByte(text, '-');
    if text[i + 1..] == id {
      assert i + 1 == |text| - |id|;
    }
    if EndsInID(text, id) {
      var n := |text| - |id|;
      assert text[n..] == id;
      NoDashAfter(text, n);
    }
  }

  lemma NoScopeInID(part: string, id: string)
    requires LowerHex(id) && |part| >= 6 && part[|part| - 6..] == ".scope"
    ensures !EndsInID(part, id)
  {
    var n := |part|;
    assert part[n - 6] == part[n - 6..][0] == '.' && part[n - 5] == part[n - 6..][1] == 's'
           && part[n - 4] == part[n - 6..][2] == 'c' && part[n - 3] == part[n - 6..][3] == 'o'
           && part[n - 2] == part[n - 6..][4] == 'p' && part[n - 1] == part[n - 6..][5] == 'e';
    var m := |id|;
    if 6 <= m <= n {
      assert part[n - m..][m - 6] == '.';
      assert id[m - 6] in "0123456789abcdef" && id[m - 6] != '.';
    }
  }

  lemma ContainerPartCharacterised(part: string, id: string)
    ensures ContainerIDFromPart(part) == Ok(id) <==> CarriesID(part, id)
  {
    HexDigits(id);
    if LowerHex(id) {
      assert '-' !in id by {
        assert forall c :: c in id ==> c in "0123456789abcdef" && c != '-';
      }
      LastDash(TrimSuffix(part, ".scope"), id);
      if HasSuffix(part, ".scope") {
        NoScopeInID(part, id);
      }
    }
    hide IsHex, LowerHex, EndsInID, LastIndexByte;
  }

  // Escaped underscores read back as dashes.
  ghost predicate Unescapes(escaped: string, uid: string) {
    |uid| == |escaped| && forall i :: 0 <= i < |uid| ==> uid[i] == if escaped[i] == '_' then '-' else escaped[i]
  }

  // text has sub at position i.
  ghost predicate Stands(text: string, sub: string, i: int) {
    0 <= i && i + |sub| <= |text| && text[i..i + |sub|] == sub
  }

  ghost predicate SliceCarries(part: string, head: string, tail: string, uid: string) {
    && "kubepods-" <= part && part == head + "-pod" + tail + ".slice" && Unescapes(tail, uid)
    && forall j :: 0 <= j < |head| ==> !Stands(part, "-pod", j)
  }

  // A pod component is "pod" and the UID, or a kubepods slice with "-pod" and the escaped
  // UID after the first such mark.
  ghost predicate CarriesUID(part: string, uid: string) {
    uid != "" && (part == "pod" + uid || exists head, tail :: SliceCarries(part, head, tail, uid))
  }

  lemma SliceCut(part: string, head: string, tail: string, uid: string)
    requires SliceCarries(part, head, tail, uid) && uid != ""
    ensures PodUIDFromPart(part) == Some(uid)
  {
    var body := head + "-pod" + tail;
    TrimSuffixOf(body, ".slice");
    assert body[|head|..|head| + 4] == "-pod";
    forall j | 0 <= j < |head| ensures !OccursAt(body, "-pod", j) {
      assert body[j..j + 4] == part[j..j + 4] && !Stands(part, "-pod", j);
    }
    IndexIs(body, "-pod", |head|);
    assert body[..|head|] == head && body[|head| + 4..] == tail;
    assert ReplaceAll(tail, '_', '-') == uid;
  }

  lemma CutAtFirst(body: string, head: string, tail: string)
    requires Cut(body, "-pod") == Some((head, tail))
    ensures body == head + "-pod" + tail && forall j :: 0 <= j < |head| ==> !Stands(body, "-pod", j)
  {
    forall j | 0 <= j < |head| ensures !Stands(body, "-pod", j) {
      assert !OccursAt(body, "-pod", j);
    }
  }

  lemma StandsInFront(text: string, behind: string, j: nat)
    requires j + 4 <= |text|
    ensures Stands(text + behind, "-pod", j) <==> Stands(text, "-pod", j)
  {
    assert (text + behind)[j..j + 4] == text[j..j + 4];
  }

  lemma ReadUIDIsCarried(part: string, uid: string)
    requires PodUIDFromPart(part) == Some(uid)
    ensures CarriesUID(part, uid)
  {
    if HasPrefix(part, "kubepods-") && HasSuffix(part, ".slice") {
      var body := TrimSuffix(part, ".slice");
      var (head, tail) := Cut(body, "-pod").value;
      assert part == body + ".slice" && Unescapes(tail, uid);
      hide Cut, TrimSuffix, ReplaceAll, PodUIDFromPart;
      CutAtFirst(body, head, tail);
      forall j | 0 <= j < |head| ensures !Stands(part, "-pod", j) {
        StandsInFront(body, ".slice", j);
      }
      assert SliceCarries(part, head, tail, uid);
    } else {
      assert part == "pod" + uid;
    }
  }

  lemma PodPartCharacterised(part: string, uid: string)
    ensures PodUIDFromPart(part) == Some(uid) <==> CarriesUID(part, uid)
  {
    if PodUIDFromPart(part) == Some(uid) {
      ReadUIDIsCarried(part, uid);
    }
    hide TrimSuffix, Cut, ReplaceAll, HasSuffix;
    if CarriesUID(part, uid) {
      if part == "pod" + uid {
        assert part[0] == 'p' && "kubepods-"[0] == 'k' && part[..3] == "pod" && part[3..] == uid;
      } else {
        var head, tail :| SliceCarries(part, head, tail, uid);
        SliceCut(part, head, tail, uid);
      }
    }
  }

  // Component k is the first to start with "kubepods", p the first from there on to carry
  // a UID, and it carries that of ids; the next one carries the container id.
  ghost predicate Reads(parts: seq<string>, k: nat, p: nat, ids: ToIDs) {
    && k <= p && p + 1 < |parts|
    && (forall j :: 0 <= j < k ==> !("kubepods" <= parts[j])) && "kubepods" <= parts[k]
    && (forall j, uid :: k <= j < p ==> !CarriesUID(parts[j], uid))
    && CarriesUID(parts[p], ids.podUID) && CarriesID(parts[p + 1], ids.containerID)
  }

  lemma PodMeans(part: string)
    ensures IsPod(part) <==> exists uid :: CarriesUID(part, uid)
  {
    hide PodUIDFromPart, CarriesUID;
    var r := PodUIDFromPart(part);
    if r.Some? {
      PodPartCharacterised(part, r.value);
    }
    if uid :| CarriesUID(part, uid) {
      PodPartCharacterised(part, uid);
    }
  }

  lemma ReadsWhatIsNamed(parts: seq<string>, k: nat, p: nat, ids: ToIDs)
    ensures Reads(parts, k, p, ids) <==> NamesIDs(parts, k, p, ids)
  {
    forall j, uid | 0 <= j < |parts| ensures PodUIDFromPart(parts[j]) == Some(uid) <==> CarriesUID(parts[j], uid) {
      PodPartCharacterised(parts[j], uid);
    }
    forall j | 0 <= j < |parts| ensures IsPod(parts[j]) <==> exists uid :: CarriesUID(parts[j], uid) {
      PodMeans(parts[j]);
    }
    if p + 1 < |parts| {
      ContainerPartCharacterised(parts[p + 1], ids.containerID);
    }
    hide PodUIDFromPart, ContainerIDFromPart, CarriesUID, CarriesID, IsPod;
  }

  ghost predicate NamesIDs(parts: seq<string>, k: nat, p: nat, ids: ToIDs) {
    && NamesPod(parts, k, p) && p + 1 < |parts|
    && PodUIDFromPart(parts[p]) == Some(ids.podUID)
    && ContainerIDFromPart(parts[p + 1]) == Ok(ids.containerID)
  }

  // A path parses exactly when it has a pod component followed by a valid
  // container component, and then the answer is what those two components say.
  lemma {:induction false} ParseCharacterised(path: string, ids: ToIDs)
    ensures Parse(path) == Ok(ids) <==> exists k: nat, p: nat :: Reads(Split(path), k, p, ids)
  {
    ScanCharacterised(Split(path), ids);
    ShortcutIsSound(path);
    forall k: nat, p: nat ensures Reads(Split(path), k, p, ids) <==> NamesIDs(Split(path), k, p, ids) {
      ReadsWhatIsNamed(Split(path), k, p, ids);
    }
    hide Parse, Split, Scan, Reads, NamesIDs, Contains;
  }

  // A successful parse always yields a pod UID and a hexadecimal container id.
  lemma ParseYieldsIDs(path: string)
    requires Parse(path).Ok?
    ensures Parse(path).value.podUID != ""
    ensures LowerHex(Parse(path).value.containerID)
  {
    hide *;
    ParseCharacterised(path, Parse(path).value);
    var k: nat, p: nat :| Reads(Split(path), k, p, Parse(path).value);
    ReadsYieldIDs(Split(path), k, p, Parse(path).value);
  }

  lemma ReadsYieldIDs(parts: seq<string>, k: nat, p: nat, ids: ToIDs)
    requires Reads(parts, k, p, ids)
    ensures ids.podUID != "" && LowerHex(ids.containerID)
  {
  }

  // The substring test before the scan only ever rejects paths the scan rejects,
  // and it is the only source of the not-a-pod error.
  lemma {:induction false} ShortcutIsSound(path: string)
    ensures Scan(Split(path)).Ok? ==> Parse(path) == Scan(Split(path))
    ensures Parse(path) == Err(NotPod) <==> forall i :: !Stands(path, "kubepods", i)
    ensures Parse(path) == Err(NotPod) <==> !Contains(path, "kubepods")
    ensures Parse(path).Err? && Contains(path, "kubepods") ==> Root(Parse(path).error).Plain?
  {
    var parts := Split(path);
    ContainsMeans(path, "kubepods");
    if Scan(parts).Ok? {
      PartOccurs(path, First(parts, 0, IsKubepods), "kubepods");
    }
  }

  lemma ContainsMeans(s: string, sub: string)
    ensures Contains(s, sub) <==> exists i :: Stands(s, sub, i)
  {
    forall i ensures Stands(s, sub, i) <==> OccursAt(s, sub, i) {
    }
  }

  lemma OccursInExtension(s: string, t: string, sub: string)
    requires Contains(s, sub)
    ensures Contains(s + t, sub)
  {
    var i := Index(s, sub);
    assert (s + t)[i..i + |sub|] == s[i..i + |sub|];
    assert OccursAt(s + t, sub, i);
  }

  lemma ScanExtension(parts: seq<string>, extra: seq<string>)
    requires Scan(parts).Ok?
    ensures Scan(parts + extra) == Scan(parts)
  {
    hide PodUIDFromPart, ContainerIDFromPart, First, IsKubepods, IsPod;
    var k, p := First(parts, 0, IsKubepods), PodPart(parts);
    var longer := parts + extra;
    assert forall j :: 0 <= j < |parts| ==> longer[j] == parts[j];
    assert NamesPod(longer, k, p);
    NamesPodUnique(longer, k, p);
  }

  // Everything below a container's cgroup resolves to that container.
  lemma ParseBelow(path: string, below: string)
    requires Parse(path).Ok?
    ensures Parse(path + "/" + below) == Parse(path)
  {
    hide Scan, Split, Contains;
    SplitConcat(path, below);
    ScanExtension(Split(path), Split(below));
    OccursInExtension(path, "/" + below, "kubepods");
    assert path + ("/" + below) == path + "/" + below;
  }
}

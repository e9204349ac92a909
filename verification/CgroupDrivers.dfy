// The two ways kubelet lays out a pod's cgroups under the cgroup root, and the
// proof that the path parser inverts both.
module CgroupDrivers {
  import opened Wrappers
  import opened Errors
  import opened GoStrings
  import opened CgroupPath
  import CgroupIndex

  datatype QoS = Guaranteed | Burstable | BestEffort

  function QoSName(qos: QoS): string {
    match qos
    case Guaranteed => ""
    case Burstable => "burstable"
    case BestEffort => "besteffort"
  }

  // "kubepods" or "kubepods-<class>": the stem of every systemd slice of the class.
  function SliceStem(qos: QoS): string {
    if qos.Guaranteed? then "kubepods" else "kubepods-" + QoSName(qos)
  }

  // systemd driver: dashes separate slice levels, so dashes of the UID become
  // underscores.
  function SystemdPodSlice(qos: QoS, uid: string): string {
    SliceStem(qos) + "-pod" + ReplaceAll(uid, '-', '_') + ".slice"
  }

  function SystemdParts(qos: QoS, uid: string, runtime: string, id: string): (parts: seq<string>)
    ensures parts != []
  {
    ["kubepods.slice"]
    + (if qos.Guaranteed? then [] else [SliceStem(qos) + ".slice"])
    + [SystemdPodSlice(qos, uid), runtime + "-" + id + ".scope"]
  }

  // cgroupfs driver: plain directories.
  function CgroupfsParts(qos: QoS, uid: string, id: string): (parts: seq<string>)
    ensures parts != []
  {
    ["kubepods"] + (if qos.Guaranteed? then [] else [QoSName(qos)]) + ["pod" + uid, id]
  }

  // The directories in full.
  lemma LayoutsAre(uid: string, runtime: string, id: string)
    ensures var slice, scope := ReplaceAll(uid, '-', '_') + ".slice", runtime + "-" + id + ".scope";
            && SystemdParts(Guaranteed, uid, runtime, id) == ["kubepods.slice", "kubepods-pod" + slice, scope]
            && SystemdParts(Burstable, uid, runtime, id)
               == ["kubepods.slice", "kubepods-burstable.slice", "kubepods-burstable-pod" + slice, scope]
            && SystemdParts(BestEffort, uid, runtime, id)
               == ["kubepods.slice", "kubepods-besteffort.slice", "kubepods-besteffort-pod" + slice, scope]
    ensures CgroupfsParts(Guaranteed, uid, id) == ["kubepods", "pod" + uid, id]
    ensures CgroupfsParts(Burstable, uid, id) == ["kubepods", "burstable", "pod" + uid, id]
    ensures CgroupfsParts(BestEffort, uid, id) == ["kubepods", "besteffort", "pod" + uid, id]
  {
    PodSlicesAre(uid);
    hide ReplaceAll, SystemdPodSlice;
    assert "kubepods-" + "burstable" + ".slice" == "kubepods-burstable.slice";
    assert "kubepods-" + "besteffort" + ".slice" == "kubepods-besteffort.slice";
  }

  lemma PodSlicesAre(uid: string)
    ensures var slice := ReplaceAll(uid, '-', '_') + ".slice";
            && SystemdPodSlice(Guaranteed, uid) == "kubepods-pod" + slice
            && SystemdPodSlice(Burstable, uid) == "kubepods-burstable-pod" + slice
            && SystemdPodSlice(BestEffort, uid) == "kubepods-besteffort-pod" + slice
  {
    var escaped := ReplaceAll(uid, '-', '_');
    hide ReplaceAll;
    assert "kubepods" + "-pod" == "kubepods-pod";
    assert "kubepods-" + "burstable" + "-pod" == "kubepods-burstable-pod";
    assert "kubepods-" + "besteffort" + "-pod" == "kubepods-besteffort-pod";
    assert "kubepods-pod" + escaped + ".slice" == "kubepods-pod" + (escaped + ".slice");
    assert "kubepods-burstable-pod" + escaped + ".slice" == "kubepods-burstable-pod" + (escaped + ".slice");
    assert "kubepods-besteffort-pod" + escaped + ".slice" == "kubepods-besteffort-pod" + (escaped + ".slice");
  }

  function Under(root: string, parts: seq<string>): string
    requires parts != []
  {
    root + "/" + Join(parts)
  }

  ghost predicate OutsideKubepods(root: string) {
    forall j :: 0 <= j < |Split(root)| ==> !("kubepods" <= Split(root)[j])
  }

  lemma {:induction false} SplitJoin(parts: seq<string>)
    requires parts != []
    requires forall j :: 0 <= j < |parts| ==> SlashFree(parts[j])
    ensures Split(Join(parts)) == parts
  {
    hide Split, SlashFree;
    if |parts| == 1 {
      SplitSlashFree(parts[0]);
    } else {
      SplitJoin(parts[1..]);
      SplitConcat(parts[0], Join(parts[1..]));
      SplitSlashFree(parts[0]);
      assert parts == [parts[0]] + parts[1..];
    }
  }

  // Parsing root/parts, when parts[p] is the first to name a pod, reads parts[p]
  // and the component after it.
  lemma ParseUnder(root: string, parts: seq<string>, p: nat)
    requires OutsideKubepods(root)
    requires forall j :: 0 <= j < |parts| ==> SlashFree(parts[j])
    requires p + 1 < |parts| && parts[p + 1] != "" && IsKubepods(parts[0])
    requires IsPod(parts[p]) && forall j :: 0 <= j < p ==> !IsPod(parts[j])
    ensures Parse(Under(root, parts)) ==
            match ContainerIDFromPart(parts[p + 1])
            case Err(e) => Err(Wrap(e))
            case Ok(id) => Ok(ToIDs(PodUIDFromPart(parts[p]).value, id))
  {
    hide PodUIDFromPart, ContainerIDFromPart, IsPod, Split, Join, PodPart;
    var path, n := Under(root, parts), |Split(root)|;
    SplitJoin(parts);
    SplitConcat(root, Join(parts));
    var all := Split(path);
    assert all == Split(root) + parts;
    assert forall j :: 0 <= j < n ==> all[j] == Split(root)[j];
    assert forall j :: 0 <= j < |parts| ==> all[n + j] == parts[j];
    assert NamesPod(all, n, n + p) by {
      forall j | n <= j < n + p ensures !IsPod(all[j]) {
        assert all[j] == parts[j - n];
      }
    }
    NamesPodUnique(all, n, n + p);
    PartOccurs(path, n, "kubepods");
  }

  lemma UnescapeEscape(uid: string)
    ensures ReplaceAll(ReplaceAll(uid, '-', '_'), '_', '-') == uid <==> '_' !in uid
  {
    var r := ReplaceAll(ReplaceAll(uid, '-', '_'), '_', '-');
    assert forall i :: 0 <= i < |uid| ==> r[i] == if uid[i] == '_' then '-' else uid[i];
    if '_' !in uid {
      assert r == uid;
    } else {
      var i :| 0 <= i < |uid| && uid[i] == '_';
      assert r[i] != uid[i];
    }
  }

  lemma CutAtPod(stem: string, rest: string)
    requires forall j :: !OccursAt(stem, "-pod", j)
    requires forall j :: |stem| - 3 <= j < |stem| && 0 <= j ==> stem[j] != '-'
    ensures Cut(stem + "-pod" + rest, "-pod") == Some((stem, rest))
  {
    var body := stem + "-pod" + rest;
    assert body[|stem|..|stem| + 4] == "-pod";
    forall j | 0 <= j < |stem| ensures !OccursAt(body, "-pod", j) {
      if j + 4 <= |stem| {
        assert body[j..j + 4] == stem[j..j + 4];
        assert !OccursAt(stem, "-pod", j);
      } else {
        assert body[j..j + 4][0] == stem[j];
      }
    }
    IndexIs(body, "-pod", |stem|);
    assert body[..|stem|] == stem && body[|stem| + 4..] == rest;
  }

  // The pod slice of the systemd driver reads back as the unescaped UID.
  lemma SystemdPodSliceUID(qos: QoS, uid: string)
    requires uid != ""
    ensures PodUIDFromPart(SystemdPodSlice(qos, uid))
         == Some(ReplaceAll(ReplaceAll(uid, '-', '_'), '_', '-'))
  {
    var stem, escaped := SliceStem(qos), ReplaceAll(uid, '-', '_');
    var body := stem + "-pod" + escaped;
    StemNamesNoPod(qos);
    var part := SystemdPodSlice(qos, uid);
    assert part == body + ".slice";
    TrimSuffixOf(body, ".slice");
    assert part[8] == '-';
    assert part[..9] == "kubepods-";
    CutAtPod(stem, escaped);
    hide Cut, TrimSuffix, HasSuffix, ReplaceAll, SystemdPodSlice, SliceStem;
  }

  // The scope of a container reads back as the container id, whatever the runtime's
  // prefix is.
  lemma ScopeID(runtime: string, id: string)
    requires IsHex(id)
    ensures ContainerIDFromPart(runtime + "-" + id + ".scope") == Ok(id)
  {
    var trimmed := runtime + "-" + id;
    TrimSuffixOf(trimmed, ".scope");
    assert forall j :: |runtime| < j < |trimmed| ==> trimmed[j] == id[j - |runtime| - 1];
    assert trimmed[|runtime|] == '-';
    assert LastIndexByte(trimmed, '-') == |runtime|;
    assert trimmed[|runtime| + 1..] == id;
  }

  lemma PlainID(id: string)
    requires IsHex(id)
    ensures ContainerIDFromPart(id) == Ok(id)
  {
    if |id| >= 6 {
      assert id[|id| - 6..][0] == id[|id| - 6];
      assert IsHexByte(id[|id| - 6]);
    }
    assert forall j :: 0 <= j < |id| ==> IsHexByte(id[j]) && id[j] != '-';
    assert LastIndexByte(id, '-') == -1;
    assert id[0..] == id;
  }

  lemma StemNamesNoPod(qos: QoS)
    ensures forall j :: !OccursAt(SliceStem(qos), "-pod", j)
    ensures forall j :: |SliceStem(qos)| - 3 <= j < |SliceStem(qos)| && 0 <= j ==> SliceStem(qos)[j] != '-'
  {
    var stem := SliceStem(qos);
    forall j | 0 <= j <= |stem| - 4 ensures !OccursAt(stem, "-pod", j) {
      assert stem[j..j + 4][0] == stem[j] && stem[j..j + 4][1] == stem[j + 1];
    }
  }

  lemma ClassSlicesNameNoPod(qos: QoS)
    ensures !IsPod(SliceStem(qos) + ".slice") && SlashFree(SliceStem(qos) + ".slice")
  {
    var stem := SliceStem(qos);
    var part := stem + ".slice";
    TrimSuffixOf(stem, ".slice");
    StemNamesNoPod(qos);
    assert part[0] == 'k' && "pod"[0] == 'p';
  }

  lemma HexIsSlashFree(id: string)
    requires IsHex(id)
    ensures SlashFree(id)
  {
    assert forall j :: 0 <= j < |id| ==> IsHexByte(id[j]) && id[j] != '/';
  }

  lemma SlashFreeConcat(a: string, b: string)
    requires SlashFree(a) && SlashFree(b)
    ensures SlashFree(a + b)
  {
  }

  lemma PodSliceIsSlashFree(qos: QoS, uid: string)
    requires SlashFree(uid)
    ensures SlashFree(SliceStem(qos)) && SlashFree(SystemdPodSlice(qos, uid))
  {
    var escaped := ReplaceAll(uid, '-', '_');
    assert forall j :: 0 <= j < |uid| ==> uid[j] in uid;
    assert forall j :: 0 <= j < |escaped| ==> escaped[j] != '/';
    SlashFreeConcat(SliceStem(qos), "-pod");
    SlashFreeConcat(SliceStem(qos) + "-pod", escaped);
    SlashFreeConcat(SliceStem(qos) + "-pod" + escaped, ".slice");
  }

  lemma TopSlice()
    ensures IsKubepods("kubepods.slice") && SlashFree("kubepods.slice") && !IsPod("kubepods.slice")
  {
    ClassSlicesNameNoPod(Guaranteed);
    assert "kubepods.slice" == SliceStem(Guaranteed) + ".slice";
    assert "kubepods.slice"[..8] == "kubepods";
  }

  lemma ScopeIsSlashFree(runtime: string, id: string)
    requires SlashFree(runtime) && IsHex(id)
    ensures SlashFree(runtime + "-" + id + ".scope")
  {
    HexIsSlashFree(id);
    hide IsHex;
    SlashFreeConcat(runtime, "-");
    SlashFreeConcat(runtime + "-", id);
    SlashFreeConcat(runtime + "-" + id, ".scope");
  }

  lemma SystemdPartsShape(qos: QoS, uid: string, runtime: string, id: string)
    requires uid != "" && SlashFree(uid) && SlashFree(runtime) && IsHex(id)
    ensures var parts := SystemdParts(qos, uid, runtime, id);
            && IsKubepods(parts[0])
            && (forall j :: 0 <= j < |parts| ==> SlashFree(parts[j]))
            && (forall j :: 0 <= j < |parts| - 2 ==> !IsPod(parts[j]))
  {
    hide PodUIDFromPart, IsPod, IsKubepods, IsHex, ReplaceAll, SlashFree, SliceStem, SystemdPodSlice;
    TopSlice();
    ScopeIsSlashFree(runtime, id);
    PodSliceIsSlashFree(qos, uid);
    ClassSlicesNameNoPod(qos);
  }

  // systemd driver. The container id always comes back. The pod UID comes back with
  // its underscores turned into dashes, hence unchanged exactly when it has none.
  lemma SystemdRoundTrip(root: string, qos: QoS, uid: string, runtime: string, id: string)
    requires OutsideKubepods(root)
    requires uid != "" && SlashFree(uid) && SlashFree(runtime) && LowerHex(id)
    ensures Parse(Under(root, SystemdParts(qos, uid, runtime, id)))
         == Ok(ToIDs(ReplaceAll(ReplaceAll(uid, '-', '_'), '_', '-'), id))
    ensures Parse(Under(root, SystemdParts(qos, uid, runtime, id))) == Ok(ToIDs(uid, id)) <==> '_' !in uid
  {
    var parts := SystemdParts(qos, uid, runtime, id);
    var p := |parts| - 2;
    HexDigits(id);
    SystemdPartsShape(qos, uid, runtime, id);
    SystemdPodSliceUID(qos, uid);
    ScopeID(runtime, id);
    UnescapeEscape(uid);
    ParseUnder(root, parts, p);
  }

  lemma CgroupfsPodUID(uid: string)
    requires uid != ""
    ensures PodUIDFromPart("pod" + uid) == Some(uid)
  {
    var part := "pod" + uid;
    assert part[0] == 'p' && "kubepods-"[0] == 'k';
    assert part[3..] == uid && part[..3] == "pod";
  }

  lemma ClassDirsNameNoPod(qos: QoS)
    ensures !IsPod("kubepods") && !IsPod(QoSName(qos))
    ensures IsKubepods("kubepods") && SlashFree("kubepods") && SlashFree(QoSName(qos))
  {
    assert "burstable"[0] == 'b' && "besteffort"[0] == 'b' && "kubepods"[0] == 'k' && "pod"[0] == 'p';
  }

  lemma CgroupfsPartsShape(qos: QoS, uid: string, id: string)
    requires uid != "" && SlashFree(uid) && IsHex(id)
    ensures var parts := CgroupfsParts(qos, uid, id);
            && IsKubepods(parts[0])
            && (forall j :: 0 <= j < |parts| ==> SlashFree(parts[j]))
            && (forall j :: 0 <= j < |parts| - 2 ==> !IsPod(parts[j]))
  {
    ClassDirsNameNoPod(qos);
    HexIsSlashFree(id);
    SlashFreeConcat("pod", uid);
    hide PodUIDFromPart, ContainerIDFromPart, IsPod, IsHex, IsKubepods, QoSName, SlashFree;
  }

  // cgroupfs driver: every UID comes back unchanged.
  lemma CgroupfsRoundTrip(root: string, qos: QoS, uid: string, id: string)
    requires OutsideKubepods(root)
    requires uid != "" && SlashFree(uid) && LowerHex(id)
    ensures Parse(Under(root, CgroupfsParts(qos, uid, id))) == Ok(ToIDs(uid, id))
  {
    var parts := CgroupfsParts(qos, uid, id);
    HexDigits(id);
    CgroupfsPodUID(uid);
    CgroupfsPartsShape(qos, uid, id);
    PlainID(id);
    assert IsPod("pod" + uid) && id != "";
    hide PodUIDFromPart, ContainerIDFromPart, Parse, IsHex, IsPod, IsKubepods, QoSName, Under, SlashFree;
    ParseUnder(root, parts, |parts| - 2);
  }

  // Both drivers, end to end: when the tree has the container's directory where kubelet
  // puts it, every directory at or below it resolves to that pod and container.
  lemma ContainerTreeResolves(root: string, t: CgroupIndex.Tree, c: CgroupIndex.Tree, r: string, d: CgroupIndex.Tree,
                              qos: QoS, uid: string, runtime: string, id: string, systemd: bool)
    requires OutsideKubepods(root)
    requires uid != "" && SlashFree(uid) && SlashFree(runtime) && LowerHex(id)
    requires systemd ==> '_' !in uid
    requires CgroupIndex.UniqueInodes(CgroupIndex.Visits(root, t))
    requires var parts := if systemd then SystemdParts(qos, uid, runtime, id) else CgroupfsParts(qos, uid, id);
             CgroupIndex.Located(root, t, Under(root, parts), c) && CgroupIndex.Located(Under(root, parts), c, r, d)
    requires d.isDir && d.inode.Some?
    ensures CgroupIndex.ParseCgroupToIDs(CgroupIndex.IndexTree(root, Some(t)), d.inode.value) == Ok(ToIDs(uid, id))
  {
    hide *;
    if systemd {
      SystemdRoundTrip(root, qos, uid, runtime, id);
      CgroupIndex.BelowContainerResolves(root, t, Under(root, SystemdParts(qos, uid, runtime, id)), c, r, d);
    } else {
      CgroupfsRoundTrip(root, qos, uid, id);
      CgroupIndex.BelowContainerResolves(root, t, Under(root, CgroupfsParts(qos, uid, id)), c, r, d);
    }
  }
}

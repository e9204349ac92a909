// Where the agent falls short of what its documentation says, or would without an
// assumption the other modules make.
module Limits {
  import opened Wrappers
  import opened Errors
  import opened CgroupPath
  import opened CgroupIndex
  import opened Discovery
  import opened Kernel
  import opened Registry
  import opened Counters
  import opened Metrics
  import opened Setup
  import opened Pipeline
  import opened Guarantees
  import opened Cri
  import opened CgroupDrivers
  import opened Vendors
  import opened GoStrings
  import P = PodMap

  // The life of a single event.
  function OneEvent(rdev: nat, cmd: nat, cgroupID: nat, env: P.Env): seq<Action> {
    [Ioctl(0, rdev, cmd, cgroupID, true), Read, Offer, Take, Handle(env)]
  }

  // "Counts are exact" does not hold of events that are only logged. For any event that
  // the worker files nowhere there is a run after which one ioctl was accepted, nothing
  // is under way, and every counter is zero.
  lemma LoggedEventsVanish(cfg: Config, tree: Option<Tree>, rdev: nat, cmd: nat, cgroupID: nat, env: P.Env)
    requires cfg.ringCapacity > 0 && cfg.queueSize > 0 && rdev < 0x1_0000_0000
    requires cfg.pod.interval > 0 && cfg.pod.cacheTTL > 0
    requires P.ValidEnv(cfg.pod, env) && 0 <= env.start
    requires Filter(cfg.tables.devices, cfg.tables.ioctls, rdev, cmd, cgroupID).Some?
    requires Attribute(cfg, Start(cfg, 1, tree, 0).pod,
                       Filter(cfg.tables.devices, cfg.tables.ioctls, rdev, cmd, cgroupID).value, env).1 == Logged
    ensures Reaches(cfg, 1, tree, 0, OneEvent(rdev, cmd, cgroupID, env))
    ensures var s := After(cfg, 1, tree, 0, OneEvent(rdev, cmd, cgroupID, env));
            s.accepted == 1 && InFlight(s) == 0 && Accounted(s) == 0
  {
    hide Attribute, Filter, P.ValidEnv, IndexTree, ApplyHandle;
    var e := Filter(cfg.tables.devices, cfg.tables.ioctls, rdev, cmd, cgroupID).value;
    var run := OneEvent(rdev, cmd, cgroupID, env);
    var s0 := Start(cfg, 1, tree, 0);
    var item := Item(0, e);
    var s1 := s0.(accepted := 1, submitted := [e], ring := [item]);
    var s2 := s1.(ring := [], readerHand := Some(item));
    var s3 := s2.(readerHand := None, queue := [item]);
    var s4 := s3.(queue := [], workerHand := Some(item));
    var s5 := ApplyHandle(cfg, s4, env);
    assert Apply(cfg, s0, run[0]) == s1;
    assert Apply(cfg, s1, run[1]) == s2;
    assert Apply(cfg, s2, run[2]) == s3;
    assert Apply(cfg, s3, run[3]) == s4;
    assert Apply(cfg, s4, run[4]) == s5;
    HandleKeeps(cfg, s4, env);
    hide Apply, Enabled, OneEvent, Start;
    FiveSteps(cfg, s0, s1, s2, s3, s4, s5, run);
    TotalZeros(NoDrops());
    SumOfZeros(1);
  }

  lemma {:induction false} FiveSteps(cfg: Config, s0: State, s1: State, s2: State, s3: State, s4: State, s5: State,
                                     run: seq<Action>)
    requires |run| == 5
    requires Enabled(cfg, s0, run[0]) && Apply(cfg, s0, run[0]) == s1
    requires Enabled(cfg, s1, run[1]) && Apply(cfg, s1, run[1]) == s2
    requires Enabled(cfg, s2, run[2]) && Apply(cfg, s2, run[2]) == s3
    requires Enabled(cfg, s3, run[3]) && Apply(cfg, s3, run[3]) == s4
    requires Enabled(cfg, s4, run[4]) && Apply(cfg, s4, run[4]) == s5
    ensures ValidRun(cfg, s0, run) && Run(cfg, s0, run) == s5
  {
    hide Apply, Enabled;
    var r1, r2, r3, r4 := run[1..], run[2..], run[3..], run[4..];
    assert run[1..][1..] == r2 && r2[1..] == r3 && r3[1..] == r4 && r4[1..] == [];
    assert ValidRun(cfg, s5, []) && Run(cfg, s5, []) == s5;
    assert ValidRun(cfg, s4, r4) && Run(cfg, s4, r4) == s5;
    assert ValidRun(cfg, s3, r3) && Run(cfg, s3, r3) == s5;
    assert ValidRun(cfg, s2, r2) && Run(cfg, s2, r2) == s5;
    assert ValidRun(cfg, s1, r1) && Run(cfg, s1, r1) == s5;
  }

  // One large family of them: cgroups whose path mentions kubepods, but only inside
  // components that start otherwise, like kubelet-kubepods-burstable.slice. These pods
  // are neither counted nor dropped, whatever the runtime says.
  lemma PrefixedSlicesAreOnlyLogged(cfg: Config, pod: P.State, e: Event, env: P.Env)
    requires EventKey(e) in cfg.tables.meta && e.cgroupID != 0 && e.cgroupID in pod.byInode
    requires !P.Hit(cfg.pod, pod, e.cgroupID, env.start)
    requires GoStrings.Contains(pod.byInode[e.cgroupID], "kubepods")
    requires forall j :: 0 <= j < |Split(pod.byInode[e.cgroupID])| ==>
                           !IsKubepods(Split(pod.byInode[e.cgroupID])[j])
    ensures Attribute(cfg, pod, e, env).1 == Logged
  {
    var path := pod.byInode[e.cgroupID];
    NoKubepodsComponent(path);
    hide Parse, GoStrings.Contains, Split;
  }

  lemma {:induction false} NoKubepodsComponent(path: string)
    requires GoStrings.Contains(path, "kubepods")
    requires forall j :: 0 <= j < |Split(path)| ==> !IsKubepods(Split(path)[j])
    ensures Parse(path) == Err(Plain(NoPodUID))
  {
    hide PodUIDFromPart, ContainerIDFromPart, GoStrings.Contains, Split, IsKubepods, IsPod;
    var parts := Split(path);
    assert First(parts, 0, IsKubepods) == |parts|;
  }

  // ---- Inputs on which these promises fail ---------------------------------------------------

  function Dir(name: string, inode: Inode, children: seq<Tree>): Tree {
    Tree(name, true, Some(inode), false, children)
  }

  // A cgroup tree with one directory in the other.
  function Nested(a: string, b: string, c: string): Tree {
    Dir("", 1, [Dir(a, 2, [Dir(b, 3, [Dir(c, 4, [])])])])
  }

  function PathOf(root: string, a: string, b: string, c: string): string {
    Under(root, [a, b, c])
  }

  lemma {:induction false} VisitsNone(p: string, name: string, inode: Inode)
    ensures Visits(p, Dir(name, inode, [])) == [Entered(p, true, Some(inode))]
  {
    hide JoinPath;
    assert ChildVisits(p, []) == [];
  }

  lemma {:induction false} ChildVisitsOne(p: string, t: Tree)
    ensures ChildVisits(p, [t]) == Visits(JoinPath(p, t.name), t)
  {
    hide Visits, JoinPath;
    assert [t][1..] == [] && ChildVisits(p, []) == [];
    assert ChildVisits(p, [t]) == Visits(JoinPath(p, t.name), t) + [];
  }

  lemma {:induction false} VisitsOne(p: string, name: string, inode: Inode, t: Tree)
    ensures Visits(p, Dir(name, inode, [t])) == [Entered(p, true, Some(inode))] + Visits(JoinPath(p, t.name), t)
  {
    hide ChildVisits, JoinPath;
    ChildVisitsOne(p, t);
    var rest := Visits(JoinPath(p, t.name), t);
    assert Visits(p, Dir(name, inode, [t])) == [Entered(p, true, Some(inode))] + ([] + rest);
  }

  lemma PathJoins(root: string, a: string, b: string, c: string)
    requires root != "/" && root + "/" + a != "/" && root + "/" + a + "/" + b != "/"
    ensures JoinPath(JoinPath(JoinPath(root, a), b), c) == PathOf(root, a, b, c)
  {
    assert Join([c]) == c;
    assert [b, c][1..] == [c] && Join([b, c]) == b + "/" + c;
    assert [a, b, c][1..] == [b, c] && Join([a, b, c]) == a + "/" + (b + "/" + c);
  }

  lemma {:induction false} NestedVisits(root: string, a: string, b: string, c: string)
    ensures var pa, t := JoinPath(root, a), Nested(a, b, c);
            var pb := JoinPath(pa, b);
            Visits(root, t) == [Entered(root, true, Some(1)), Entered(pa, true, Some(2)),
                                Entered(pb, true, Some(3)), Entered(JoinPath(pb, c), true, Some(4))]
  {
    hide Visits, JoinPath;
    var tc := Dir(c, 4, []);
    var tb := Dir(b, 3, [tc]);
    var ta := Dir(a, 2, [tb]);
    var pa := JoinPath(root, a);
    var pb := JoinPath(pa, b);
    VisitsOne(root, "", 1, ta);
    VisitsOne(pa, a, 2, tb);
    VisitsOne(pb, b, 3, tc);
    VisitsNone(JoinPath(pb, c), c, 4);
  }

  lemma {:induction false} FourIndexed(visits: seq<Visit>, p: string, pa: string, pb: string, pc: string)
    requires visits == [Entered(p, true, Some(1)), Entered(pa, true, Some(2)),
                        Entered(pb, true, Some(3)), Entered(pc, true, Some(4))]
    ensures 4 in IndexOf(visits) && IndexOf(visits)[4] == pc
  {
    hide IndexOf;
    IndexIsExact(visits);
    assert EntersLast(visits, 3, 4);
  }

  lemma {:induction false} OneIndexed(visits: seq<Visit>, p: string)
    requires visits == [Entered(p, true, Some(1))]
    ensures 4 !in IndexOf(visits)
  {
    hide IndexOf;
    IndexIsExact(visits);
    assert forall v :: v in visits ==> v.inode == Some(1);
  }

  // The index of such a tree: the innermost directory is indexed under its path, and it
  // is not in the index of the tree without these directories.
  lemma NestedIndexed(root: string, a: string, b: string, c: string)
    requires |root| > 1
    ensures var byInode := IndexTree(root, Some(Nested(a, b, c)));
            4 in byInode && byInode[4] == PathOf(root, a, b, c)
    ensures 4 !in IndexTree(root, Some(Dir("", 1, [])))
  {
    hide Visits, JoinPath, PathOf, IndexOf, Nested, Dir;
    NestedVisits(root, a, b, c);
    VisitsNone(root, "", 1);
    PathJoins(root, a, b, c);
    var pa := JoinPath(root, a);
    FourIndexed(Visits(root, Nested(a, b, c)), root, pa, JoinPath(pa, b), PathOf(root, a, b, c));
    OneIndexed(Visits(root, Dir("", 1, [])), root);
  }

  function CgroupRoot(): string {
    "/sys/fs/cgroup"
  }

  lemma {:induction false} FourParts(a: string, b: string, c: string, d: string)
    requires SlashFree(a) && SlashFree(b) && SlashFree(c) && SlashFree(d)
    ensures Split(a + "/" + b + "/" + c + "/" + d) == [a, b, c, d]
  {
    hide Split, SlashFree;
    SplitConcat(a + "/" + b + "/" + c, d);
    SplitConcat(a + "/" + b, c);
    SplitConcat(a, b);
    SplitSlashFree(a);
    SplitSlashFree(b);
    SplitSlashFree(c);
    SplitSlashFree(d);
  }

  lemma {:induction false} PathParts(root: string, a: string, b: string, c: string)
    requires SlashFree(a) && SlashFree(b) && SlashFree(c)
    ensures Split(PathOf(root, a, b, c)) == Split(root) + [a, b, c]
  {
    hide Split, SlashFree;
    SplitConcat(root, Join([a, b, c]));
    SplitJoin([a, b, c]);
  }

  lemma PathContains(root: string, before: string, text: string, after: string, b: string, c: string)
    ensures GoStrings.Contains(PathOf(root, before + text + after, b, c), text)
  {
    var start := root + "/" + before;
    var a := before + text + after;
    var path, rest := PathOf(root, a, b, c), after + "/" + Join([b, c]);
    assert [a, b, c][1..] == [b, c];
    assert path == start + text + rest;
    assert path[|start|..|start| + |text|] == text;
    assert OccursAt(path, text, |start|);
  }

  lemma StartsOtherwise(part: string, i: nat)
    requires i < 8 && i < |part| && part[i] != "kubepods"[i]
    ensures !IsKubepods(part)
  {
  }

  lemma FourPartsOutside(root: string, a: string, b: string, c: string, d: string)
    requires root == a + "/" + b + "/" + c + "/" + d
    requires SlashFree(a) && SlashFree(b) && SlashFree(c) && SlashFree(d)
    requires |a| < 8 && |b| < 8 && |c| < 8 && |d| < 8
    ensures OutsideKubepods(root)
  {
    hide Split;
    FourParts(a, b, c, d);
  }

  lemma RootIsOutside()
    ensures OutsideKubepods(CgroupRoot()) && |CgroupRoot()| > 1
  {
    hide Split, OutsideKubepods;
    assert CgroupRoot() == "" + "/" + "sys" + "/" + "fs" + "/" + "cgroup";
    FourPartsOutside(CgroupRoot(), "", "sys", "fs", "cgroup");
  }

  // At the first event of a cgroup that names a container, one second after startup with
  // an interval of five, the resolver that New leaves reports the cgroup as not indexed.
  ghost predicate MissesNewPod(cfg: P.Config, cri: P.Oracle, before: Tree, now: Tree, id: Inode, e: P.Env) {
    && cfg.interval > 0 && cfg.cacheTTL > 0 && P.ValidEnv(cfg, e) && 0 <= e.start && e.tree == Some(now)
    && id !in IndexTree(cfg.root, Some(before))
    && id in IndexTree(cfg.root, Some(now)) && Parse(IndexTree(cfg.root, Some(now))[id]).Ok?
    && P.Missed(P.Step(cfg, P.State(IndexTree(cfg.root, Some(before)), 0, map[], 0), id, e, cri).1)
  }

  lemma NewPodMissed(root: string, a: string, b: string, c: string, cri: P.Oracle)
    requires |root| > 1 && Parse(PathOf(root, a, b, c)).Ok?
    ensures var now := Nested(a, b, c);
            MissesNewPod(P.Config(root, 5, 60, 5), cri, Dir("", 1, []), now, 4, P.Env(1, 1, Some(now), 1, 1, 1))
  {
    NestedIndexed(root, a, b, c);
    hide IndexTree, Parse, Nested, PathOf, P.Step, P.Missed;
    P.NewPodMissedExactlyWhen(P.Config(root, 5, 60, 5), cri, Some(Dir("", 1, [])), 0, 4,
                              P.Env(1, 1, Some(Nested(a, b, c)), 1, 1, 1));
  }

  // The directories of pod u and its container a, by the cgroupfs driver.
  function PodDir(): string {
    "pod" + "u"
  }

  lemma PodPathParses(root: string)
    requires OutsideKubepods(root)
    ensures Parse(PathOf(root, "kubepods", PodDir(), "a")).Ok?
  {
    hide Parse, OutsideKubepods, Join;
    assert SlashFree("u") && LowerHex("a");
    CgroupfsRoundTrip(root, Guaranteed, "u", "a");
    assert CgroupfsParts(Guaranteed, "u", "a") == ["kubepods", PodDir(), "a"];
  }

  lemma {:induction false} PickedUpWithinOneEventFails()
    ensures exists cfg, cri, before, now, id, e :: MissesNewPod(cfg, cri, before, now, id, e)
  {
    hide *;
    var cri: P.Oracle := (c, t) => NoStatus;
    RootIsOutside();
    PodPathParses(CgroupRoot());
    NewPodMissed(CgroupRoot(), "kubepods", PodDir(), "a", cri);
  }

  // A render node of an integrated GPU.
  function RenderNode(): Device {
    Device("i915", "/sys/devices/pci0000:00/0000:00:02.0", "8086:9BC5", "0000:00:02.0", "-1",
           [Node(128, 226, "/dev/dri/renderD128")])
  }

  const RENDER_RDEV := 226 * 0x10_0000 + 128
  const EXECBUFFER2 := 0x4040_6469

  // The submission ioctl of this device passes the filter of the shipped agent.
  lemma SubmissionAccepted(cgroupID: nat)
    ensures var t := Compile(Shipped(), [RenderNode()]);
            var e := Filter(t.devices, t.ioctls, RENDER_RDEV, EXECBUFFER2, cgroupID);
            e.Some? && EventKey(e.value) in t.meta && e.value.cgroupID == cgroupID
  {
    var d, ds := RenderNode(), [RenderNode()];
    ShippedVendorsQualify();
    assert FirstMatch(Shipped(), d) == 0 && Means(Shipped(), d, 0x69).Some?;
    assert Major(RENDER_RDEV) == 226 && Minor(RENDER_RDEV) == 128 && EXECBUFFER2 % 0x100 == 0x69;
    assert d == ds[0] && KeyOf(d.nodes[0]) in KeysOf(d.nodes);
    hide Compile, Means, Shipped, Filter, FirstMatch, KeysOf;
    KernelFiltersByMeaning(Shipped(), ds, d, RENDER_RDEV, EXECBUFFER2, cgroupID);
    MetaMatchesKernel(Shipped(), ds);
    var t := Compile(Shipped(), ds);
    EventNamesFilteredDevice(t.devices, t.ioctls, RENDER_RDEV, EXECBUFFER2, cgroupID);
  }

  // The slices and the scope of a container under slices with a prefix.
  function TopSliceName(): string {
    "kubelet-" + "kubepods" + ".slice"
  }

  function PodSliceName(): string {
    "kubelet-kubepods-podu.slice"
  }

  function ScopeName(): string {
    "cri-containerd-a.scope"
  }

  lemma NamesStartOtherwise()
    ensures !IsKubepods(TopSliceName()) && !IsKubepods(PodSliceName()) && !IsKubepods(ScopeName())
    ensures SlashFree(TopSliceName()) && SlashFree(PodSliceName()) && SlashFree(ScopeName())
  {
    var a, b, c := TopSliceName(), PodSliceName(), ScopeName();
    assert a[4] == 'l' && b[4] == 'l' && c[0] == 'c' && "kubepods"[4] == 'p' && "kubepods"[0] == 'k';
    StartsOtherwise(a, 4);
    StartsOtherwise(b, 4);
    StartsOtherwise(c, 0);
    hide IsKubepods;
  }

  lemma PrefixedPathNamesNoSlice(root: string)
    requires OutsideKubepods(root)
    ensures var path := PathOf(root, TopSliceName(), PodSliceName(), ScopeName());
            && GoStrings.Contains(path, "kubepods")
            && forall j :: 0 <= j < |Split(path)| ==> !IsKubepods(Split(path)[j])
  {
    hide Split, PathOf, GoStrings.Contains, SlashFree, PodSliceName, ScopeName;
    var b, c := PodSliceName(), ScopeName();
    NamesStartOtherwise();
    PathParts(root, TopSliceName(), b, c);
    PathContains(root, "kubelet-", "kubepods", ".slice", b, c);
  }

  // A reachable state in which an ioctl was accepted, nothing is under way, and no counter
  // shows it.
  ghost predicate Uncounted(cfg: Config, tree: Tree, run: seq<Action>) {
    && Reaches(cfg, 1, Some(tree), 0, run)
    && var s := After(cfg, 1, Some(tree), 0, run);
       s.accepted == 1 && InFlight(s) == 0 && Accounted(s) == 0
  }

  lemma {:induction false} PrefixedPodUncounted(root: string, a: string, b: string, c: string, cri: P.Oracle)
    requires |root| > 1 && GoStrings.Contains(PathOf(root, a, b, c), "kubepods")
    requires forall j :: 0 <= j < |Split(PathOf(root, a, b, c))| ==> !IsKubepods(Split(PathOf(root, a, b, c))[j])
    ensures Uncounted(Config(Compile(Shipped(), [RenderNode()]), P.Config(root, 5, 60, 5), cri, 1, 1),
                      Nested(a, b, c), OneEvent(RENDER_RDEV, EXECBUFFER2, 4, P.Env(0, 0, None, 0, 0, 0)))
  {
    var tables := Compile(Shipped(), [RenderNode()]);
    var cfg := Config(tables, P.Config(root, 5, 60, 5), cri, 1, 1);
    var tree, env := Nested(a, b, c), P.Env(0, 0, None, 0, 0, 0);
    var pod := Start(cfg, 1, Some(tree), 0).pod;
    assert pod == P.State(IndexTree(root, Some(tree)), 0, map[], 0) && P.ValidEnv(cfg.pod, env);
    assert !P.Hit(cfg.pod, pod, 4, 0);
    SubmissionAccepted(4);
    NestedIndexed(root, a, b, c);
    hide *;
    var e := Filter(tables.devices, tables.ioctls, RENDER_RDEV, EXECBUFFER2, 4).value;
    PrefixedSlicesAreOnlyLogged(cfg, pod, e, env);
    LoggedEventsVanish(cfg, Some(tree), RENDER_RDEV, EXECBUFFER2, 4, env);
    UncountedMeans(cfg, tree, OneEvent(RENDER_RDEV, EXECBUFFER2, 4, env));
  }

  lemma UncountedMeans(cfg: Config, tree: Tree, run: seq<Action>)
    requires Reaches(cfg, 1, Some(tree), 0, run)
    requires var s := After(cfg, 1, Some(tree), 0, run);
             s.accepted == 1 && InFlight(s) == 0 && Accounted(s) == 0
    ensures Uncounted(cfg, tree, run)
  {
  }

  // It is reached by the shipped agent on a node with one GPU, when a container under
  // prefixed slices submits work once.
  lemma {:induction false} CountsAreExactFails()
    ensures exists cfg: Config, tree, run ::
              cfg.tables == Compile(Shipped(), [RenderNode()]) && Uncounted(cfg, tree, run)
  {
    hide *;
    var cri: P.Oracle := (c, t) => NoStatus;
    RootIsOutside();
    PrefixedPathNamesNoSlice(CgroupRoot());
    PrefixedPodUncounted(CgroupRoot(), TopSliceName(), PodSliceName(), ScopeName(), cri);
  }

  // Two vendors of one name with different kinds for the ioctl 1: some ioctl is not
  // observed as what it means.
  lemma SharedNamesMixTables()
    ensures exists vendors: seq<Vendor>, ds: seq<Device>, d: Device, key: DeviceKey, cmd: nat ::
              DisjointNodes(ds) && !Preserved(vendors, ds, d, key, cmd)
  {
    var v := Vendor("v", (d: Device) => d.numaNode == "", map[1 := KIND_SUBMIT]);
    var w := Vendor("v", (d: Device) => d.numaNode == "1", map[1 := KIND_WAIT]);
    var a := Device("", "", "", "a", "", [Node(1, 1, "")]);
    var b := Device("", "", "", "b", "1", [Node(2, 1, "")]);
    var vendors, ds := [v, w], [a, b];
    hide Compile, Preserved;
    assert FirstMatch(vendors, a) == 0 && FirstMatch(vendors, b) == 1 && Alike(vendors, a, b);
    assert a == ds[0] && b == ds[1];
    assert 1 in v.ioctls && 1 in w.ioctls && v.ioctls[1] != w.ioctls[1];
    assert !Agree(v.ioctls, w.ioctls);
    assert !SameTables(vendors, ds);
    SetupPreservesMeaningIff(vendors, ds);
    hide *;
    var d, key, cmd :| !Preserved(vendors, ds, d, key, cmd);
  }
}

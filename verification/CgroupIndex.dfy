// The inode index of the cgroup tree: the directory walk that fills it, the
// rate-limited rebuild, and lookup.
module CgroupIndex {
  import opened Wrappers
  import opened Errors
  import opened GoStrings
  import opened CgroupPath

  type Inode = nat
  type Time = int

  // A file tree as filepath.WalkDir meets it. children are the entries ReadDir
  // returned, all of them or, when readError holds, the ones before the error; inode
  // is absent when Info or the Stat_t assertion failed.
  datatype Tree = Tree(name: string, isDir: bool, inode: Option<Inode>,
                       readError: bool, children: seq<Tree>)

  // One call of the WalkDir callback: with an error, or with an entry.
  datatype Visit =
    | Failed(path: string)
    | Entered(path: string, isDir: bool, inode: Option<Inode>)

  // The callback invocations for the entry t at path, in order.
  function Visits(path: string, t: Tree): seq<Visit>
    decreases t, 1
  {
    [Entered(path, t.isDir, t.inode)]
    + (if !t.isDir then []
       else (if t.readError then [Failed(path)] else []) + ChildVisits(path, t.children))
  }

  function ChildVisits(path: string, ts: seq<Tree>): seq<Visit>
    decreases ts, 0
  {
    if ts == [] then []
    else Visits(JoinPath(path, ts[0].name), ts[0]) + ChildVisits(path, ts[1..])
  }

  // WalkDir reports a root it cannot stat through the callback too.
  function WalkDir(root: string, tree: Option<Tree>): seq<Visit> {
    match tree
    case None => [Failed(root)]
    case Some(t) => Visits(root, t)
  }

  predicate Indexed(v: Visit) {
    v.Entered? && v.isDir && v.inode.Some?
  }

  // The index after some visits: the last path seen for each inode.
  function IndexOf(visits: seq<Visit>): map<Inode, string> {
    if visits == [] then map[]
    else
      var v, before := visits[|visits| - 1], IndexOf(visits[..|visits| - 1]);
      if Indexed(v) then before[v.inode.value := v.path] else before
  }

  function IndexTree(root: string, tree: Option<Tree>): map<Inode, string> {
    IndexOf(WalkDir(root, tree))
  }

  // The callback returns nil whatever it is given, so the walk visits everything and
  // never fails, even when the root itself cannot be read.
  method BuildCgroupInodeMap(root: string, tree: Option<Tree>) returns (byInode: map<Inode, string>)
    ensures byInode == IndexTree(root, tree)
  {
    var visits := WalkDir(root, tree);
    byInode := map[];
    for i := 0 to |visits|
      invariant byInode == IndexOf(visits[..i])
    {
      assert visits[..i + 1][..i] == visits[..i];
      var v := visits[i];
      if v.Failed? {
        continue;
      }
      if !v.isDir {
        continue;
      }
      if v.inode.None? {
        continue;
      }
      byInode := byInode[v.inode.value := v.path];
    }
    assert visits[..|visits|] == visits;
  }

  function Lookup(byInode: map<Inode, string>, inode: Inode): Result<string, Error> {
    if inode in byInode then Ok(byInode[inode]) else Err(NotIndexed)
  }

  function ParseCgroupToIDs(byInode: map<Inode, string>, cgroupID: Inode): Result<ToIDs, Error> {
    match Lookup(byInode, cgroupID)
    case Err(e) => Err(e)
    case Ok(path) => Parse(path)
  }

  // A parse error is never the not-indexed error.
  lemma NotIndexedIffAbsent(byInode: map<Inode, string>, cgroupID: Inode)
    ensures ParseCgroupToIDs(byInode, cgroupID).Err?
              && Is(ParseCgroupToIDs(byInode, cgroupID).error, NotIndexed)
            <==> cgroupID !in byInode
  {
    if cgroupID in byInode {
      ShortcutIsSound(byInode[cgroupID]);
      var r := Parse(byInode[cgroupID]);
      if r.Err? {
        IsRoot(r.error, NotIndexed);
      }
    }
  }

  class Index {
    var byInode: map<Inode, string>
    var lastUpdated: Time
    const root: string
    const interval: Time

    // BuildCgroupIndex
    constructor (root: string, interval: Time, tree: Option<Tree>, now: Time)
      ensures this.root == root && this.interval == interval
      ensures byInode == IndexTree(root, tree) && lastUpdated == now
    {
      this.root := root;
      this.interval := interval;
      this.lastUpdated := now;
      var m := BuildCgroupInodeMap(root, tree);
      this.byInode := m;
    }

    // check and done are the clock before and after the walk, tree what it meets.
    method RebuildCgroupIndex(check: Time, tree: Option<Tree>, done: Time) returns (rebuilt: bool)
      modifies this
      ensures rebuilt <==> check - old(lastUpdated) >= interval
      ensures rebuilt ==> byInode == IndexTree(root, tree) && lastUpdated == done
      ensures !rebuilt ==> byInode == old(byInode) && lastUpdated == old(lastUpdated)
    {
      if check - lastUpdated < interval {
        return false;
      }
      byInode := BuildCgroupInodeMap(root, tree);
      lastUpdated := done;
      return true;
    }
  }

  // ---- What the index means -------------------------------------------------------

  // The entry d sits at path q of the tree t whose own path is p.
  ghost predicate Located(p: string, t: Tree, q: string, d: Tree)
    decreases t
  {
    (q == p && d == t)
    || (t.isDir && exists i :: (0 <= i < |t.children|
          && Located(JoinPath(p, t.children[i].name), t.children[i], q, d)))
  }

  lemma {:induction false} ChildVisited(p: string, ts: seq<Tree>, i: nat, v: Visit)
    requires i < |ts| && v in Visits(JoinPath(p, ts[i].name), ts[i])
    ensures v in ChildVisits(p, ts)
  {
    if i > 0 {
      ChildVisited(p, ts[1..], i - 1, v);
    }
  }

  lemma {:induction false} LocatedIsVisited(p: string, t: Tree, q: string, d: Tree)
    requires Located(p, t, q, d)
    ensures Entered(q, d.isDir, d.inode) in Visits(p, t)
    decreases t
  {
    if !(q == p && d == t) {
      var i :| 0 <= i < |t.children|
               && Located(JoinPath(p, t.children[i].name), t.children[i], q, d);
      LocatedIsVisited(JoinPath(p, t.children[i].name), t.children[i], q, d);
      ChildVisited(p, t.children, i, Entered(q, d.isDir, d.inode));
    }
  }

  lemma {:induction false} LocatedTransitive(p: string, t: Tree, q: string, c: Tree, r: string, d: Tree)
    requires Located(p, t, q, c) && Located(q, c, r, d)
    ensures Located(p, t, r, d)
    decreases t
  {
    if !(q == p && c == t) {
      var i :| 0 <= i < |t.children|
               && Located(JoinPath(p, t.children[i].name), t.children[i], q, c);
      LocatedTransitive(JoinPath(p, t.children[i].name), t.children[i], q, c, r, d);
    }
  }

  // Every entry below a container's cgroup parses to that container, at any depth.
  lemma {:induction false} LocatedParsesSame(p: string, t: Tree, q: string, d: Tree)
    requires Located(p, t, q, d) && Parse(p).Ok?
    ensures Parse(q) == Parse(p)
    decreases t
  {
    if !(q == p && d == t) {
      var i :| 0 <= i < |t.children|
               && Located(JoinPath(p, t.children[i].name), t.children[i], q, d);
      ParseBelow(p, t.children[i].name);
      LocatedParsesSame(JoinPath(p, t.children[i].name), t.children[i], q, d);
    }
  }

  // No two visits enter directories with the same inode: the kernel gives every
  // cgroup its own.
  ghost predicate UniqueInodes(visits: seq<Visit>) {
    forall i, j :: 0 <= i < j < |visits| && Indexed(visits[i]) && Indexed(visits[j])
      ==> visits[i].inode != visits[j].inode
  }

  // The last of the visits to enter a directory with inode n is visit k.
  ghost predicate EntersLast(visits: seq<Visit>, k: int, n: Inode) {
    && 0 <= k < |visits| && Indexed(visits[k]) && visits[k].inode == Some(n)
    && forall j :: k < j < |visits| && Indexed(visits[j]) ==> visits[j].inode != Some(n)
  }

  // The index holds exactly the inodes of the directories that were entered, each under
  // the path that was entered last.
  lemma {:induction false} IndexIsExact(visits: seq<Visit>)
    ensures forall n :: n in IndexOf(visits) ==> Entered(IndexOf(visits)[n], true, Some(n)) in visits
    ensures forall k, n :: EntersLast(visits, k, n) ==> n in IndexOf(visits) && IndexOf(visits)[n] == visits[k].path
    ensures forall k :: 0 <= k < |visits| && Indexed(visits[k]) ==> visits[k].inode.value in IndexOf(visits)
  {
    if visits != [] {
      var init, last := visits[..|visits| - 1], visits[|visits| - 1];
      IndexIsExact(init);
      assert forall k :: 0 <= k < |init| ==> visits[k] == init[k];
      forall n | n in IndexOf(visits) ensures Entered(IndexOf(visits)[n], true, Some(n)) in visits {
        if !(Indexed(last) && last.inode == Some(n)) {
          assert Entered(IndexOf(init)[n], true, Some(n)) in init;
        }
      }
      forall k, n | EntersLast(visits, k, n) ensures n in IndexOf(visits) && IndexOf(visits)[n] == visits[k].path {
        if k < |init| {
          assert EntersLast(init, k, n);
        }
      }
    }
  }

  lemma UniqueEntersLast(visits: seq<Visit>, k: nat)
    requires UniqueInodes(visits) && k < |visits| && Indexed(visits[k])
    ensures EntersLast(visits, k, visits[k].inode.value)
  {
  }

  // End to end: in a tree with unique inodes, every directory with a readable inode
  // at or below a container's directory resolves, through the index built from that
  // tree, to that container.
  lemma {:induction false} BelowContainerResolves(root: string, t: Tree, q: string, c: Tree, r: string, d: Tree)
    requires UniqueInodes(Visits(root, t))
    requires Located(root, t, q, c) && Parse(q).Ok?
    requires Located(q, c, r, d) && d.isDir && d.inode.Some?
    ensures ParseCgroupToIDs(IndexTree(root, Some(t)), d.inode.value) == Parse(q)
  {
    LocatedTransitive(root, t, q, c, r, d);
    LocatedIsVisited(root, t, r, d);
    LocatedParsesSame(q, c, r, d);
    IndexIsExact(Visits(root, t));
    var visits := Visits(root, t);
    var k :| 0 <= k < |visits| && visits[k] == Entered(r, d.isDir, d.inode);
    UniqueEntersLast(visits, k);
    assert IndexOf(visits)[d.inode.value] == r;
  }
}

// The resolver from cgroup id to container: a cache with a time to live over an
// index that is rebuilt on a miss, at most once per interval.
//
// One call reads the clock several times and may walk the cgroup tree and ask the
// runtime. Those readings are gathered in an Env; the runtime is an Oracle.
module PodMap {
  import opened Wrappers
  import opened Errors
  import GoStrings
  import MapUnion
  import opened CgroupPath
  import opened CgroupIndex
  import opened Cri

  type Oracle = (string, Time) -> Reply

  datatype Config = Config(root: string, interval: Time, cacheTTL: Time, criTimeout: Time)

  datatype CacheEntry = CacheEntry(info: ContainerInfo, storedAt: Time)

  datatype State = State(byInode: map<Inode, string>, lastUpdated: Time,
                         cache: map<Inode, CacheEntry>, rebuilds: nat)

  // start: the cache is looked up; check: the rebuild limit is tested; tree, rebuilt:
  // what the walk meets and when it is over; asked, answered: the runtime is called.
  datatype Env = Env(start: Time, check: Time, tree: Option<Tree>, rebuilt: Time,
                     asked: Time, answered: Time)

  ghost predicate ValidEnv(cfg: Config, e: Env) {
    e.start <= e.check <= e.rebuilt <= e.asked <= e.answered <= e.asked + cfg.criTimeout
  }

  // ---- One call -------------------------------------------------------------------

  predicate Hit(cfg: Config, s: State, id: Inode, now: Time) {
    id in s.cache && now - s.cache[id].storedAt < cfg.cacheTTL
  }

  predicate Due(cfg: Config, s: State, e: Env) {
    e.check - s.lastUpdated >= cfg.interval
  }

  function Reindexed(cfg: Config, s: State, e: Env): State {
    State(IndexTree(cfg.root, e.tree), e.rebuilt, map[], s.rebuilds + 1)
  }

  // Asking the runtime about a parsed cgroup, remembering a success.
  function Ask(s: State, id: Inode, ids: Result<ToIDs, Error>, e: Env, cri: Oracle)
    : (State, Result<ContainerInfo, Error>)
  {
    match ids
    case Err(err) => (s, Err(Wrap(err)))
    case Ok(ids) =>
      match ContainerNames(ids.containerID, cri(ids.containerID, e.asked))
      case Err(err) => (s, Err(Wrap(err)))
      case Ok(info) => (s.(cache := s.cache[id := CacheEntry(info, e.answered)]), Ok(info))
  }

  function Resolve(s: State, id: Inode, e: Env, cri: Oracle): (State, Result<ContainerInfo, Error>) {
    Ask(s, id, ParseCgroupToIDs(s.byInode, id), e, cri)
  }

  function Step(cfg: Config, s: State, id: Inode, e: Env, cri: Oracle): (State, Result<ContainerInfo, Error>) {
    if id == 0 then (s, Err(Plain(EmptyCgroupID)))
    else if Hit(cfg, s, id, e.start) then (s, Ok(s.cache[id].info))
    else if id in s.byInode then Resolve(s, id, e, cri)
    else if !Due(cfg, s, e) then (s, Err(NotIndexed))
    else Resolve(Reindexed(cfg, s, e), id, e, cri)
  }

  class PodMap {
    const index: Index
    var cache: map<Inode, CacheEntry>
    const cacheTTL: Time
    const criTimeout: Time
    var cgroupIndexRebuilds: nat

    function Cfg(): Config {
      Config(index.root, index.interval, cacheTTL, criTimeout)
    }

    function View(): State
      reads this, index
    {
      State(index.byInode, index.lastUpdated, cache, cgroupIndexRebuilds)
    }

    constructor (index: Index, criTimeout: Time, cacheTTL: Time)
      ensures this.index == index && this.cacheTTL == cacheTTL && this.criTimeout == criTimeout
      ensures View() == State(index.byInode, index.lastUpdated, map[], 0)
    {
      this.index := index;
      this.cache := map[];
      this.cacheTTL := cacheTTL;
      this.criTimeout := criTimeout;
      this.cgroupIndexRebuilds := 0;
    }

    // NewPodMap; null stands for the error returns.
    static method New(cgroupRoot: string, criSocket: string, interval: Time, criTimeout: Time,
                      cacheTTL: Time, tree: Option<Tree>, now: Time, criReachable: bool)
      returns (p: PodMap?)
      ensures p != null <==> cgroupRoot != "" && criSocket != "" && interval > 0 && cacheTTL > 0 && criReachable
      ensures p != null ==> fresh(p) && fresh(p.index)
                            && p.Cfg() == Config(cgroupRoot, interval, cacheTTL, criTimeout)
                            && p.View() == State(IndexTree(cgroupRoot, tree), now, map[], 0)
    {
      if cgroupRoot == "" || criSocket == "" || interval <= 0 || cacheTTL <= 0 {
        return null;
      }
      var index := new Index(cgroupRoot, interval, tree, now);
      if !criReachable {
        return null;
      }
      p := new PodMap(index, criTimeout, cacheTTL);
    }

    method ContainerInfo(cgroupID: Inode, e: Env, cri: Oracle) returns (r: Result<ContainerInfo, Error>)
      modifies this, index
      ensures (View(), r) == Step(Cfg(), old(View()), cgroupID, e, cri)
    {
      if cgroupID == 0 {
        return Err(Plain(EmptyCgroupID));
      }
      if cgroupID in cache && e.start - cache[cgroupID].storedAt < cacheTTL {
        return Ok(cache[cgroupID].info);
      }
      var ids := ParseCgroupToIDs(index.byInode, cgroupID);
      NotIndexedIffAbsent(index.byInode, cgroupID);
      if ids.Err? && Is(ids.error, NotIndexed) {
        var rebuilt := index.RebuildCgroupIndex(e.check, e.tree, e.rebuilt);
        if !rebuilt {
          return Err(ids.error);
        }
        cgroupIndexRebuilds := cgroupIndexRebuilds + 1;
        cache := map[];
        ids := ParseCgroupToIDs(index.byInode, cgroupID);
        if ids.Err? {
          return Err(Wrap(ids.error));
        }
      } else if ids.Err? {
        return Err(Wrap(ids.error));
      }
      var containerID := ids.value.containerID;
      var info := ContainerNames(containerID, cri(containerID, e.asked));
      if info.Err? {
        return Err(Wrap(info.error));
      }
      cache := cache[cgroupID := CacheEntry(info.value, e.answered)];
      return Ok(info.value);
    }
  }

  // ---- What every call keeps --------------------------------------------------------

  // The runtime gave this answer for the container, asked at some moment not before
  // from and at most timeout before until.
  ghost predicate Answered(cri: Oracle, containerID: string, info: ContainerInfo,
                           from: Time, until: Time, timeout: Time) {
    exists t :: from <= t <= until <= t + timeout && Says(cri, containerID, t, info)
  }

  // Asked at t, it knows the container, and these are the names in its labels.
  ghost predicate Says(cri: Oracle, containerID: string, t: Time, info: ContainerInfo) {
    var reply := cri(containerID, t);
    containerID != "" && reply.Status? && LabelsName(reply.labels, info)
  }

  lemma SaysExactlyWhen(cri: Oracle, containerID: string, t: Time, info: ContainerInfo)
    ensures ContainerNames(containerID, cri(containerID, t)) == Ok(info) <==> Says(cri, containerID, t, info)
  {
    NamedExactlyWhen(containerID, cri(containerID, t), info);
  }

  // A cache entry is an answer for the container that the current index names, given
  // after the index was built.
  ghost predicate EntryOk(cfg: Config, cri: Oracle, s: State, id: Inode, now: Time)
    requires id in s.cache
  {
    && id in s.byInode && Parse(s.byInode[id]).Ok?
    && s.lastUpdated <= s.cache[id].storedAt <= now
    && Answered(cri, Parse(s.byInode[id]).value.containerID, s.cache[id].info,
                s.lastUpdated, s.cache[id].storedAt, cfg.criTimeout)
  }

  ghost predicate Inv(cfg: Config, cri: Oracle, s: State, created: Time, now: Time) {
    && cfg.interval > 0 && cfg.cacheTTL > 0
    && created <= s.lastUpdated <= now
    && s.rebuilds * cfg.interval <= s.lastUpdated - created
    && forall id :: id in s.cache ==> EntryOk(cfg, cri, s, id, now)
  }

  function Done(cfg: Config, s: State, id: Inode, e: Env): Time {
    if Hit(cfg, s, id, e.start) then e.start else e.answered
  }

  lemma ResolveKeepsInv(cfg: Config, cri: Oracle, s: State, created: Time, id: Inode, e: Env)
    requires Inv(cfg, cri, s, created, e.asked) && ValidEnv(cfg, e)
    ensures Inv(cfg, cri, Resolve(s, id, e, cri).0, created, e.answered)
  {
    hide Parse;
    var (s', r) := Resolve(s, id, e, cri);
    if r.Ok? {
      var c := Parse(s.byInode[id]).value.containerID;
      SaysExactlyWhen(cri, c, e.asked, r.value);
      assert Says(cri, c, e.asked, r.value);
      assert EntryOk(cfg, cri, s', id, e.answered);
    }
    forall k | k in s'.cache && k in s.cache && s'.cache[k] == s.cache[k]
      ensures EntryOk(cfg, cri, s', k, e.answered)
    {
      assert EntryOk(cfg, cri, s, k, e.asked);
    }
  }

  lemma RebuildRate(rebuilds: nat, interval: Time, created: Time, last: Time, check: Time)
    requires rebuilds * interval <= last - created && check - last >= interval
    ensures (rebuilds + 1) * interval <= check - created
  {
  }

  lemma StepKeepsInv(cfg: Config, cri: Oracle, s: State, created: Time, now: Time, id: Inode, e: Env)
    requires Inv(cfg, cri, s, created, now) && ValidEnv(cfg, e) && now <= e.start
    ensures Inv(cfg, cri, Step(cfg, s, id, e, cri).0, created, e.answered)
  {
    hide Parse;
    forall k | k in s.cache
      ensures EntryOk(cfg, cri, s, k, e.asked) && EntryOk(cfg, cri, s, k, e.answered)
    {
      assert EntryOk(cfg, cri, s, k, now);
    }
    if id in s.byInode {
      ResolveKeepsInv(cfg, cri, s, created, id, e);
    } else if Due(cfg, s, e) {
      RebuildRate(s.rebuilds, cfg.interval, created, s.lastUpdated, e.check);
      ResolveKeepsInv(cfg, cri, Reindexed(cfg, s, e), created, id, e);
    }
  }

  // The counter moves exactly when the index is replaced.
  lemma RebuildsCountReplacements(cfg: Config, s: State, id: Inode, e: Env, cri: Oracle)
    ensures var s' := Step(cfg, s, id, e, cri).0;
            if id != 0 && !Hit(cfg, s, id, e.start) && id !in s.byInode && Due(cfg, s, e)
            then s'.rebuilds == s.rebuilds + 1 && s'.lastUpdated == e.rebuilt
                 && s'.byInode == IndexTree(cfg.root, e.tree) && s'.cache.Keys <= {id}
            else s'.rebuilds == s.rebuilds && s'.lastUpdated == s.lastUpdated
                 && s'.byInode == s.byInode && s.cache.Keys <= s'.cache.Keys <= s.cache.Keys + {id}
  {
    hide Parse;
  }

  lemma CacheWithinIndex(cfg: Config, cri: Oracle, s: State, created: Time, now: Time)
    requires Inv(cfg, cri, s, created, now)
    ensures s.cache.Keys <= s.byInode.Keys
    ensures |s.cache| <= |s.byInode|
  {
    forall k | k in s.cache ensures k in s.byInode {
      assert EntryOk(cfg, cri, s, k, now);
    }
    MapUnion.SmallerSet(s.cache.Keys, s.byInode.Keys);
    assert |s.cache| == |s.cache.Keys| && |s.byInode| == |s.byInode.Keys|;
  }

  // ---- Whole runs -------------------------------------------------------------------

  datatype Call = Call(id: Inode, env: Env)

  // Calls are sequential: the agent has one worker.
  ghost predicate ValidRun(cfg: Config, calls: seq<Call>, now: Time)
    decreases |calls|
  {
    calls == [] || (&& ValidEnv(cfg, calls[0].env) && now <= calls[0].env.start
                    && ValidRun(cfg, calls[1..], calls[0].env.answered))
  }

  function Run(cfg: Config, cri: Oracle, s: State, calls: seq<Call>): State
    decreases |calls|
  {
    if calls == [] then s
    else Run(cfg, cri, Step(cfg, s, calls[0].id, calls[0].env, cri).0, calls[1..])
  }

  function Results(cfg: Config, cri: Oracle, s: State, calls: seq<Call>): seq<Result<ContainerInfo, Error>>
    decreases |calls|
  {
    if calls == [] then []
    else
      var (s', r) := Step(cfg, s, calls[0].id, calls[0].env, cri);
      [r] + Results(cfg, cri, s', calls[1..])
  }

  function EndOf(calls: seq<Call>, now: Time): Time
    decreases |calls|
  {
    if calls == [] then now else EndOf(calls[1..], calls[0].env.answered)
  }

  // Whatever the pattern of calls: the cache agrees with the index, no entry is older
  // than the index, and rebuilds * interval never exceeds the time that has passed.
  lemma {:induction false} RunKeepsInv(cfg: Config, cri: Oracle, s: State, created: Time, now: Time, calls: seq<Call>)
    requires Inv(cfg, cri, s, created, now) && ValidRun(cfg, calls, now)
    ensures Inv(cfg, cri, Run(cfg, cri, s, calls), created, EndOf(calls, now))
    decreases |calls|
  {
    if calls != [] {
      StepKeepsInv(cfg, cri, s, created, now, calls[0].id, calls[0].env);
      RunKeepsInv(cfg, cri, Step(cfg, s, calls[0].id, calls[0].env, cri).0, created,
                  calls[0].env.answered, calls[1..]);
    }
  }

  // A call that replaces the index: it names a cgroup that is neither cached nor indexed
  // when a rebuild is due.
  predicate Replaces(cfg: Config, s: State, c: Call) {
    c.id != 0 && !Hit(cfg, s, c.id, c.env.start) && c.id !in s.byInode && Due(cfg, s, c.env)
  }

  function Replacements(cfg: Config, cri: Oracle, s: State, calls: seq<Call>): nat
    decreases |calls|
  {
    if calls == [] then 0
    else (if Replaces(cfg, s, calls[0]) then 1 else 0)
         + Replacements(cfg, cri, Step(cfg, s, calls[0].id, calls[0].env, cri).0, calls[1..])
  }

  // Over any run the counter is the number of calls that replaced the index.
  lemma {:induction false} RebuildsAreReplacements(cfg: Config, cri: Oracle, s: State, calls: seq<Call>)
    ensures Run(cfg, cri, s, calls).rebuilds == s.rebuilds + Replacements(cfg, cri, s, calls)
    decreases |calls|
  {
    hide Step;
    if calls != [] {
      RebuildsCountReplacements(cfg, s, calls[0].id, calls[0].env, cri);
      RebuildsAreReplacements(cfg, cri, Step(cfg, s, calls[0].id, calls[0].env, cri).0, calls[1..]);
    }
  }

  // From its creation on, a resolver rebuilds its index at most once per interval, and
  // its cache never holds more than the index.
  lemma {:induction false} RebuildsAreRateLimited(cfg: Config, cri: Oracle, tree: Option<Tree>, created: Time,
                                                  calls: seq<Call>)
    requires cfg.interval > 0 && cfg.cacheTTL > 0 && ValidRun(cfg, calls, created)
    ensures var s := Run(cfg, cri, State(IndexTree(cfg.root, tree), created, map[], 0), calls);
            && s.rebuilds * cfg.interval <= s.lastUpdated - created <= EndOf(calls, created) - created
            && |s.cache| <= |s.byInode|
  {
    hide Step, IndexTree;
    var s := State(IndexTree(cfg.root, tree), created, map[], 0);
    RunKeepsInv(cfg, cri, s, created, created, calls);
    CacheWithinIndex(cfg, cri, Run(cfg, cri, s, calls), created, EndOf(calls, created));
  }

  // A success is what the runtime says of the container that the index names for this
  // cgroup, asked after the index was built and less than cacheTTL + criTimeout ago.
  lemma SuccessIsFresh(cfg: Config, cri: Oracle, s: State, created: Time, now: Time, id: Inode, e: Env)
    requires Inv(cfg, cri, s, created, now) && ValidEnv(cfg, e) && now <= e.start
    requires Step(cfg, s, id, e, cri).1.Ok?
    ensures var (s', r) := Step(cfg, s, id, e, cri);
            && id in s'.byInode && Parse(s'.byInode[id]).Ok?
            && exists t :: (&& s'.lastUpdated <= t <= Done(cfg, s, id, e)
                            && Done(cfg, s, id, e) - t < cfg.cacheTTL + cfg.criTimeout
                            && Says(cri, Parse(s'.byInode[id]).value.containerID, t, r.value))
  {
    hide Parse;
    var (s', r) := Step(cfg, s, id, e, cri);
    if Hit(cfg, s, id, e.start) {
      assert EntryOk(cfg, cri, s, id, now);
    } else {
      SaysExactlyWhen(cri, Parse(s'.byInode[id]).value.containerID, e.asked, r.value);
      assert Says(cri, Parse(s'.byInode[id]).value.containerID, e.asked, r.value);
    }
  }

  ghost predicate Stable(cri: Oracle) {
    forall c, t, u :: cri(c, t) == cri(c, u)
  }

  // The same resolver with its cache thrown away before every call.
  function UncachedStep(cfg: Config, s: State, id: Inode, e: Env, cri: Oracle): (State, Result<ContainerInfo, Error>) {
    Step(cfg, s.(cache := map[]), id, e, cri)
  }

  function UncachedResults(cfg: Config, cri: Oracle, s: State, calls: seq<Call>): seq<Result<ContainerInfo, Error>>
    decreases |calls|
  {
    if calls == [] then []
    else
      var (s', r) := UncachedStep(cfg, s, calls[0].id, calls[0].env, cri);
      [r] + UncachedResults(cfg, cri, s', calls[1..])
  }

  ghost predicate SameIndex(s: State, u: State) {
    s.byInode == u.byInode && s.lastUpdated == u.lastUpdated && s.rebuilds == u.rebuilds
  }

  lemma CacheIsTransparent(cfg: Config, cri: Oracle, s: State, u: State, created: Time, now: Time, id: Inode, e: Env)
    requires Inv(cfg, cri, s, created, now) && Stable(cri) && SameIndex(s, u)
    ensures Step(cfg, s, id, e, cri).1 == UncachedStep(cfg, u, id, e, cri).1
    ensures SameIndex(Step(cfg, s, id, e, cri).0, UncachedStep(cfg, u, id, e, cri).0)
  {
    hide Parse;
    if id != 0 && Hit(cfg, s, id, e.start) {
      assert EntryOk(cfg, cri, s, id, now);
      var c := Parse(s.byInode[id]).value.containerID;
      var t :| Says(cri, c, t, s.cache[id].info);
      assert cri(c, t) == cri(c, e.asked);
      SaysExactlyWhen(cri, c, e.asked, s.cache[id].info);
    }
  }

  // The cache is an optimisation: as long as the runtime does not change its answers,
  // a run of any length returns exactly what it would without the cache.
  lemma {:induction false} CachingRefinesResolving(cfg: Config, cri: Oracle, s: State, u: State,
                                                   created: Time, now: Time, calls: seq<Call>)
    requires Inv(cfg, cri, s, created, now) && Stable(cri) && SameIndex(s, u)
    requires ValidRun(cfg, calls, now)
    ensures Results(cfg, cri, s, calls) == UncachedResults(cfg, cri, u, calls)
    decreases |calls|
  {
    if calls != [] {
      var id, e := calls[0].id, calls[0].env;
      CacheIsTransparent(cfg, cri, s, u, created, now, id, e);
      StepKeepsInv(cfg, cri, s, created, now, id, e);
      CachingRefinesResolving(cfg, cri, Step(cfg, s, id, e, cri).0, UncachedStep(cfg, u, id, e, cri).0,
                              created, e.answered, calls[1..]);
    }
  }

  // The runtime may fail now and then, but whenever it names a container it gives it the
  // same names.
  ghost predicate StableNames(cri: Oracle) {
    forall c, t, u, a, b :: Says(cri, c, t, a) && Says(cri, c, u, b) ==> a == b
  }

  // A cached result is the uncached one, or spares the caller a failure.
  predicate Spares(cached: Result<ContainerInfo, Error>, uncached: Result<ContainerInfo, Error>) {
    cached == uncached || (cached.Ok? && uncached.Err?)
  }

  lemma CacheSparesFailures(cfg: Config, cri: Oracle, s: State, u: State, created: Time, now: Time, id: Inode, e: Env)
    requires Inv(cfg, cri, s, created, now) && StableNames(cri) && SameIndex(s, u)
    ensures Spares(Step(cfg, s, id, e, cri).1, UncachedStep(cfg, u, id, e, cri).1)
    ensures SameIndex(Step(cfg, s, id, e, cri).0, UncachedStep(cfg, u, id, e, cri).0)
  {
    hide Parse;
    if id != 0 && Hit(cfg, s, id, e.start) {
      assert EntryOk(cfg, cri, s, id, now);
      var c := Parse(s.byInode[id]).value.containerID;
      var t :| Says(cri, c, t, s.cache[id].info);
      var r := UncachedStep(cfg, u, id, e, cri).1;
      if r.Ok? {
        SaysExactlyWhen(cri, c, e.asked, r.value);
        assert Says(cri, c, e.asked, r.value);
      }
    }
  }

  // So whenever the resolver without a cache succeeds, in a run of any length, the one
  // with it returns the same, even if the runtime fails in between.
  lemma {:induction false} CachingSparesFailures(cfg: Config, cri: Oracle, s: State, u: State,
                                                 created: Time, now: Time, calls: seq<Call>, i: nat)
    requires Inv(cfg, cri, s, created, now) && StableNames(cri) && SameIndex(s, u)
    requires ValidRun(cfg, calls, now) && i < |calls|
    ensures |Results(cfg, cri, s, calls)| == |UncachedResults(cfg, cri, u, calls)| == |calls|
    ensures Spares(Results(cfg, cri, s, calls)[i], UncachedResults(cfg, cri, u, calls)[i])
    decreases |calls|
  {
    hide Step, UncachedStep, Inv, SameIndex;
    var id, e := calls[0].id, calls[0].env;
    CacheSparesFailures(cfg, cri, s, u, created, now, id, e);
    ResultsLength(cfg, cri, s, u, calls);
    if i > 0 {
      StepKeepsInv(cfg, cri, s, created, now, id, e);
      CachingSparesFailures(cfg, cri, Step(cfg, s, id, e, cri).0, UncachedStep(cfg, u, id, e, cri).0,
                            created, e.answered, calls[1..], i - 1);
    }
  }

  lemma {:induction false} ResultsLength(cfg: Config, cri: Oracle, s: State, u: State, calls: seq<Call>)
    ensures |Results(cfg, cri, s, calls)| == |UncachedResults(cfg, cri, u, calls)| == |calls|
    decreases |calls|
  {
    hide Step, UncachedStep;
    if calls != [] {
      var id, e := calls[0].id, calls[0].env;
      ResultsLength(cfg, cri, Step(cfg, s, id, e, cri).0, UncachedStep(cfg, u, id, e, cri).0, calls[1..]);
    }
  }

  // ---- What the cache is for ---------------------------------------------------------

  ghost predicate Remembers(s: State, id: Inode, info: ContainerInfo, at: Time) {
    id in s.cache && s.cache[id] == CacheEntry(info, at)
  }

  lemma SuccessIsRemembered(cfg: Config, cri: Oracle, s: State, id: Inode, e: Env)
    requires !Hit(cfg, s, id, e.start) && Step(cfg, s, id, e, cri).1.Ok?
    ensures Remembers(Step(cfg, s, id, e, cri).0, id, Step(cfg, s, id, e, cri).1.value, e.answered)
  {
    hide Parse, ContainerNames;
  }

  // Until it is too old or the index is replaced, an answer stays as it is.
  lemma StaysRemembered(cfg: Config, cri: Oracle, s: State, id: Inode, info: ContainerInfo, at: Time, c: Call)
    requires id != 0 && Remembers(s, id, info, at) && c.env.start - at < cfg.cacheTTL
    requires !Replaces(cfg, s, c)
    ensures Remembers(Step(cfg, s, c.id, c.env, cri).0, id, info, at)
  {
    hide Parse, ContainerNames;
  }

  lemma {:induction false} RememberedOverRuns(cfg: Config, cri: Oracle, s: State, id: Inode, info: ContainerInfo,
                                              at: Time, now: Time, calls: seq<Call>)
    requires id != 0 && Remembers(s, id, info, at) && ValidRun(cfg, calls, now)
    requires Replacements(cfg, cri, s, calls) == 0 && EndOf(calls, now) - at < cfg.cacheTTL
    ensures Remembers(Run(cfg, cri, s, calls), id, info, at)
    decreases |calls|
  {
    hide Step, Remembers, Replaces;
    if calls != [] {
      var c := calls[0];
      TimePasses(cfg, calls[1..], c.env.answered);
      StaysRemembered(cfg, cri, s, id, info, at, c);
      RememberedOverRuns(cfg, cri, Step(cfg, s, c.id, c.env, cri).0, id, info, at, c.env.answered, calls[1..]);
    }
  }

  lemma {:induction false} TimePasses(cfg: Config, calls: seq<Call>, now: Time)
    requires ValidRun(cfg, calls, now)
    ensures now <= EndOf(calls, now)
    decreases |calls|
  {
    if calls != [] {
      TimePasses(cfg, calls[1..], calls[0].env.answered);
    }
  }

  // The runtime is not asked again: once a call has resolved a cgroup, every call for it
  // that starts less than cacheTTL after the answer returns the same, whatever was called
  // in between and whatever the runtime would say by then, unless the index was replaced.
  lemma {:induction false} AnswersAreKept(cfg: Config, cri: Oracle, later: Oracle, s: State, id: Inode, e1: Env,
                                          calls: seq<Call>, e2: Env)
    requires ValidEnv(cfg, e1) && !Hit(cfg, s, id, e1.start) && Step(cfg, s, id, e1, cri).1.Ok?
    requires ValidRun(cfg, calls, e1.answered) && EndOf(calls, e1.answered) <= e2.start
    requires e2.start - e1.answered < cfg.cacheTTL
    requires var s1 := Step(cfg, s, id, e1, cri).0; Run(cfg, later, s1, calls).rebuilds == s1.rebuilds
    ensures var (s1, r1) := Step(cfg, s, id, e1, cri);
            var s2 := Run(cfg, later, s1, calls);
            forall oracle: Oracle :: Step(cfg, s2, id, e2, oracle) == (s2, r1)
  {
    var s1, info := Step(cfg, s, id, e1, cri).0, Step(cfg, s, id, e1, cri).1.value;
    SuccessIsRemembered(cfg, cri, s, id, e1);
    RebuildsAreReplacements(cfg, later, s1, calls);
    RememberedOverRuns(cfg, later, s1, id, info, e1.answered, e1.answered, calls);
    hide Run, ValidRun, Parse, ContainerNames;
  }

  // ---- Freshness --------------------------------------------------------------------

  predicate Missed(r: Result<ContainerInfo, Error>) {
    r.Err? && Is(r.error, NotIndexed)
  }

  // When a call reports that a cgroup is not indexed.
  lemma MissedExactlyWhen(cfg: Config, s: State, id: Inode, e: Env, cri: Oracle)
    ensures Missed(Step(cfg, s, id, e, cri).1) <==>
            && id != 0 && !Hit(cfg, s, id, e.start) && id !in s.byInode
            && (!Due(cfg, s, e) || id !in IndexTree(cfg.root, e.tree))
  {
    hide Parse;
    NotIndexedIffAbsent(s.byInode, id);
    NotIndexedIffAbsent(Reindexed(cfg, s, e).byInode, id);
  }

  // A directory that every walk since t1 meets is found by any call that starts an
  // interval or more after t1, whatever was called in between.
  lemma {:induction false} FreshAfterInterval(cfg: Config, cri: Oracle, s: State, created: Time, now: Time,
                                              t1: Time, calls: seq<Call>, id: Inode, e: Env)
    requires Inv(cfg, cri, s, created, now)
    requires id in s.byInode || s.lastUpdated <= t1
    requires ValidRun(cfg, calls, now) && ValidEnv(cfg, e) && EndOf(calls, now) <= e.start
    requires forall i :: 0 <= i < |calls| ==> id in IndexTree(cfg.root, calls[i].env.tree)
    requires id in IndexTree(cfg.root, e.tree)
    requires e.start - t1 >= cfg.interval
    ensures !Missed(Step(cfg, Run(cfg, cri, s, calls), id, e, cri).1)
    decreases |calls|
  {
    if calls == [] {
      MissedExactlyWhen(cfg, s, id, e, cri);
    } else {
      var c := calls[0];
      StepKeepsInv(cfg, cri, s, created, now, c.id, c.env);
      RebuildsCountReplacements(cfg, s, c.id, c.env, cri);
      assert forall i :: 0 <= i < |calls[1..]| ==> calls[1..][i] == calls[i + 1];
      FreshAfterInterval(cfg, cri, Step(cfg, s, c.id, c.env, cri).0, created, c.env.answered,
                         t1, calls[1..], id, e);
    }
  }

  // Two calls for the same existing cgroup at least an interval apart: the second one
  // finds it.
  lemma {:induction false} SecondCallFinds(cfg: Config, cri: Oracle, s: State, created: Time, now: Time,
                        between: seq<Call>, id: Inode, e1: Env, e2: Env)
    requires Inv(cfg, cri, s, created, now)
    requires ValidRun(cfg, [Call(id, e1)] + between, now)
    requires ValidEnv(cfg, e2) && EndOf([Call(id, e1)] + between, now) <= e2.start
    requires id in IndexTree(cfg.root, e1.tree) && id in IndexTree(cfg.root, e2.tree)
    requires forall i :: 0 <= i < |between| ==> id in IndexTree(cfg.root, between[i].env.tree)
    requires e2.start - e1.start >= cfg.interval
    ensures !Missed(Step(cfg, Run(cfg, cri, s, [Call(id, e1)] + between), id, e2, cri).1)
  {
    var calls := [Call(id, e1)] + between;
    assert forall i :: 0 <= i < |calls| ==> i == 0 || calls[i] == between[i - 1];
    FreshAfterInterval(cfg, cri, s, created, now, e1.start, calls, id, e2);
  }

  // The documentation promises that a pod created after startup is picked up within one
  // event. For a cgroup that names a container, is missing from the tree at startup and
  // is there at its first event, this fails exactly when the event comes within an
  // interval of the startup.
  lemma NewPodMissedExactlyWhen(cfg: Config, cri: Oracle, before: Option<Tree>, created: Time, id: Inode, e: Env)
    requires id != 0 && id !in IndexTree(cfg.root, before)
    requires id in IndexTree(cfg.root, e.tree) && Parse(IndexTree(cfg.root, e.tree)[id]).Ok?
    ensures Missed(Step(cfg, State(IndexTree(cfg.root, before), created, map[], 0), id, e, cri).1)
            <==> e.check - created < cfg.interval
  {
    MissedExactlyWhen(cfg, State(IndexTree(cfg.root, before), created, map[], 0), id, e, cri);
    hide Step, Parse, IndexTree;
  }

  // ---- Errors -----------------------------------------------------------------------

  datatype Verdict = Attributed | NoPod | Unindexed | Gone | Unclassified

  ghost function ReplyVerdict(reply: Reply): Verdict {
    match reply
    case StatusNotFound => Gone
    case Failure => Unclassified
    case NoStatus => Unclassified
    case Status(labels) =>
      if HasText(labels, "io.kubernetes.pod.namespace") && HasText(labels, "io.kubernetes.pod.name")
         && HasText(labels, "io.kubernetes.container.name")
      then Attributed else NoPod
  }

  // What resolution through an index says of a cgroup, stated without error values:
  // the path must mention kubepods and name a container, and the runtime must know
  // the container and label it completely.
  ghost function PlainVerdict(byInode: map<Inode, string>, id: Inode, t: Time, cri: Oracle): Verdict {
    if id !in byInode then Unindexed
    else if !GoStrings.Contains(byInode[id], "kubepods") then NoPod
    else
      match Parse(byInode[id])
      case Err(_) => Unclassified
      case Ok(ids) => ReplyVerdict(cri(ids.containerID, t))
  }

  ghost function CallVerdict(cfg: Config, s: State, id: Inode, e: Env, cri: Oracle): Verdict {
    if id == 0 then Unclassified
    else if Hit(cfg, s, id, e.start) then Attributed
    else if id !in s.byInode && Due(cfg, s, e) then
      PlainVerdict(IndexTree(cfg.root, e.tree), id, e.asked, cri)
    else PlainVerdict(s.byInode, id, e.asked, cri)
  }

  // The verdict the worker reads off a result.
  ghost function ResultVerdict(r: Result<ContainerInfo, Error>): Verdict {
    if r.Ok? then Attributed
    else
      match Root(r.error)
      case NotPod => NoPod
      case NotIndexed => Unindexed
      case ContainerNotFound => Gone
      case _ => Unclassified
  }

  lemma AskClassifies(s: State, id: Inode, ids: Result<ToIDs, Error>, e: Env, cri: Oracle)
    requires ids.Ok? ==> ids.value.containerID != ""
    ensures ResultVerdict(Ask(s, id, ids, e, cri).1) ==
            match ids
            case Err(err) => ResultVerdict(Err(err))
            case Ok(ids) => ReplyVerdict(cri(ids.containerID, e.asked))
  {
  }

  lemma ResolveClassifies(s: State, id: Inode, e: Env, cri: Oracle)
    ensures ResultVerdict(Resolve(s, id, e, cri).1) == PlainVerdict(s.byInode, id, e.asked, cri)
  {
    if id in s.byInode {
      ParseClassifies(s.byInode[id]);
    }
    hide Parse, GoStrings.Contains, Ask, ResultVerdict;
    AskClassifies(s, id, ParseCgroupToIDs(s.byInode, id), e, cri);
  }

  lemma ParseClassifies(path: string)
    ensures Parse(path).Ok? ==> Parse(path).value.containerID != ""
    ensures Parse(path).Err? ==>
              ResultVerdict(Err(Parse(path).error)) ==
              if GoStrings.Contains(path, "kubepods") then Unclassified else NoPod
    ensures Parse(path).Ok? ==> GoStrings.Contains(path, "kubepods")
  {
    ShortcutIsSound(path);
    if Parse(path).Ok? {
      ParseYieldsIDs(path);
    }
    hide Parse, GoStrings.Contains;
  }

  // The sentinels partition the failures: through all the wrapping, an error answers
  // to the one sentinel its cause calls for and to no other.
  lemma ErrorsClassify(cfg: Config, s: State, id: Inode, e: Env, cri: Oracle)
    ensures var r, v := Step(cfg, s, id, e, cri).1, CallVerdict(cfg, s, id, e, cri);
            && (r.Ok? <==> v == Attributed)
            && (r.Err? ==> (&& (Is(r.error, NotPod) <==> v == NoPod)
                            && (Is(r.error, NotIndexed) <==> v == Unindexed)
                            && (Is(r.error, ContainerNotFound) <==> v == Gone)))
  {
    hide Parse, GoStrings.Contains;
    ResolveClassifies(s, id, e, cri);
    ResolveClassifies(Reindexed(cfg, s, e), id, e, cri);
    var r := Step(cfg, s, id, e, cri).1;
    assert ResultVerdict(r) == CallVerdict(cfg, s, id, e, cri) by {
      hide Resolve, PlainVerdict;
    }
    if r.Err? {
      IsRoot(r.error, NotPod);
      IsRoot(r.error, NotIndexed);
      IsRoot(r.error, ContainerNotFound);
    }
  }
}

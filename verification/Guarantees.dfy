// What the pipeline guarantees in every state that any interleaving can reach.
module Guarantees {
  import opened Wrappers
  import opened CgroupIndex
  import opened Kernel
  import opened Counters
  import opened Metrics
  import opened Pipeline
  import L = Loader
  import P = PodMap

  // The agent as main starts it: the resolver is new, its index that of the tree.
  function Start(cfg: Config, cpus: nat, tree: Option<Tree>, now: Time): State {
    Init(cpus, P.State(IndexTree(cfg.pod.root, tree), now, map[], 0), now)
  }

  // run is an interleaving of steps from the start; NewPodMap has accepted the
  // configuration.
  ghost predicate Reaches(cfg: Config, cpus: nat, tree: Option<Tree>, now: Time, run: seq<Action>) {
    cfg.pod.interval > 0 && cfg.pod.cacheTTL > 0 && ValidRun(cfg, Start(cfg, cpus, tree, now), run)
  }

  ghost function After(cfg: Config, cpus: nat, tree: Option<Tree>, now: Time, run: seq<Action>): State
    requires Reaches(cfg, cpus, tree, now, run)
  {
    Run(cfg, Start(cfg, cpus, tree, now), run)
  }

  lemma ReachedInv(cfg: Config, cpus: nat, tree: Option<Tree>, now: Time, run: seq<Action>)
    requires Reaches(cfg, cpus, tree, now, run)
    ensures Inv(cfg, now, After(cfg, cpus, tree, now, run))
  {
    var pod := P.State(IndexTree(cfg.pod.root, tree), now, map[], 0);
    assert P.Inv(cfg.pod, cfg.cri, pod, now, now);
    InitInv(cfg, cpus, pod, now);
    RunKeepsInv(cfg, now, Start(cfg, cpus, tree, now), run);
  }

  // ---- Conservation ------------------------------------------------------------------------

  function InFlight(s: State): nat {
    |s.ring| + |Hand(s.readerHand)| + |s.queue| + |Hand(s.workerHand)|
  }

  // Everything the metrics show: attributed events, userspace drops, kernel drops.
  ghost function Accounted(s: State): nat {
    Total(s.ioctlTotal) + Total(s.dropped) + L.Sum(s.lost)
  }

  lemma WrapPlus(a: nat, b: nat, c: nat, x: nat, y: nat, z: nat, more: nat)
    requires Wrap64(a) == Wrap64(x) && Wrap64(b) == Wrap64(y) && Wrap64(c) == Wrap64(z)
    ensures Wrap64(a + b + c + more) == Wrap64(x + y + z + more)
  {
    WrapPlusOne(a, x, b + c + more);
    WrapPlusOne(b, y, x + c + more);
    WrapPlusOne(c, z, x + y + more);
  }

  lemma WrapPlusOne(a: nat, x: nat, more: nat)
    requires Wrap64(a) == Wrap64(x)
    ensures Wrap64(a + more) == Wrap64(x + more)
  {
    assert (a + more) % U64 == (a % U64 + more) % U64;
    assert (x + more) % U64 == (x % U64 + more) % U64;
  }

  lemma HistoriesAddUp(s: State)
    requires Conserved(s) && CountersOk(s)
    ensures s.accepted == |Labels(s.handled)| + |s.drops| + |s.lostOn| + InFlight(s) + LogCount(s.handled)
  {
    hide Tally, Count, L.Sum, Wrap64, Labels, Reasons, LogCount;
  }

  // In every reachable state, every ioctl that passed the kernel filter is counted for a
  // container, counted as dropped, lost to a full ring buffer and counted there, still
  // under way, or was only logged. Exact below 2^64 events, modulo 2^64 for ever.
  lemma Conservation(cfg: Config, cpus: nat, tree: Option<Tree>, now: Time, run: seq<Action>)
    requires Reaches(cfg, cpus, tree, now, run)
    ensures var s := After(cfg, cpus, tree, now, run);
            && s.accepted % 0x1_0000_0000_0000_0000
               == (Accounted(s) + InFlight(s) + LogCount(s.handled)) % 0x1_0000_0000_0000_0000
            && (s.accepted < 0x1_0000_0000_0000_0000 ==> s.accepted == Accounted(s) + InFlight(s) + LogCount(s.handled))
  {
    hide *;
    var s := After(cfg, cpus, tree, now, run);
    WrapMeans(s.accepted);
    WrapMeans(Accounted(s) + InFlight(s) + LogCount(s.handled));
    ReachedInv(cfg, cpus, tree, now, run);
    InvMeansConservation(cfg, now, s);
  }

  lemma WrapMeans(n: nat)
    ensures Wrap64(n) == n % 0x1_0000_0000_0000_0000 && U64 == 0x1_0000_0000_0000_0000
  {
  }

  lemma InvMeansConservation(cfg: Config, created: Time, s: State)
    requires Inv(cfg, created, s)
    ensures Wrap64(s.accepted) == Wrap64(Accounted(s) + InFlight(s) + LogCount(s.handled))
    ensures s.accepted < U64 ==> s.accepted == Accounted(s) + InFlight(s) + LogCount(s.handled)
  {
    hide Placed, Staged, Filtered, Resolving, Wrap64, L.Sum, Tally, Total;
    HistoriesAddUp(s);
    TallyTotal(map[], Labels(s.handled));
    TallyTotal(NoDrops(), s.drops);
    hide Labels, Reasons, LogCount, Count, Conserved, InFlight;
    WrapPlus(Total(s.ioctlTotal), Total(s.dropped), L.Sum(s.lost),
             |Labels(s.handled)|, |s.drops|, |s.lostOn|, InFlight(s) + LogCount(s.handled));
  }

  // Later states have seen everything that earlier ones have.
  lemma {:induction false} HistoryGrows(cfg: Config, s: State, run: seq<Action>)
    requires ValidRun(cfg, s, run)
    ensures |s.submitted| <= |Run(cfg, s, run).submitted| && |s.lostOn| <= |Run(cfg, s, run).lostOn|
    decreases |run|
  {
    hide Apply, Enabled;
    if run != [] {
      HistoriesStep(cfg, s, run[0]);
      HistoryGrows(cfg, Apply(cfg, s, run[0]), run[1..]);
    }
  }

  // A scrape reads the collector at one moment and the kernel's counters at a later one.
  // However long that takes, it never shows more than was accepted by the end, and never
  // less than was accepted at the beginning but for what was then under way or logged.
  lemma {:induction false} ScrapeIsBracketed(cfg: Config, s: State, created: Time, run: seq<Action>)
    requires Inv(cfg, created, s) && ValidRun(cfg, s, run) && Run(cfg, s, run).accepted < U64
    ensures var later := Run(cfg, s, run);
            var shown := Total(s.ioctlTotal) + Total(s.dropped) + L.Sum(later.lost);
            s.accepted <= shown + InFlight(s) + LogCount(s.handled) && shown <= later.accepted
  {
    hide Run, ValidRun, Apply;
    var later := Run(cfg, s, run);
    RunKeepsInv(cfg, created, s, run);
    HistoryGrows(cfg, s, run);
    hide Placed, Staged, Filtered, Resolving, Wrap64, L.Sum, Tally, Total;
    HistoriesAddUp(s);
    HistoriesAddUp(later);
    TallyTotal(map[], Labels(s.handled));
    TallyTotal(NoDrops(), s.drops);
    hide Labels, Reasons, LogCount, Count, InFlight;
  }

  // Once the worker is done nothing is under way but what is left in the ring buffer.
  lemma AfterTheWorker(cfg: Config, cpus: nat, tree: Option<Tree>, now: Time, run: seq<Action>)
    requires Reaches(cfg, cpus, tree, now, run)
    requires After(cfg, cpus, tree, now, run).workerDone
    ensures var s := After(cfg, cpus, tree, now, run); InFlight(s) == |s.ring|
  {
    ReachedInv(cfg, cpus, tree, now, run);
    hide Run, Start, ValidRun, Placed, Conserved, CountersOk, Filtered, Resolving;
  }

  // ---- Order ---------------------------------------------------------------------------------

  // The worker handles a subsequence of what the kernel submitted: the same events, in
  // the same order, none twice.
  lemma WorkerSeesSubsequence(cfg: Config, cpus: nat, tree: Option<Tree>, now: Time, run: seq<Action>)
    requires Reaches(cfg, cpus, tree, now, run)
    ensures var s := After(cfg, cpus, tree, now, run);
            && (forall i :: 0 <= i < |s.handled| ==>
                  s.handled[i].item.id < |s.submitted|
                  && s.handled[i].item.event == s.submitted[s.handled[i].item.id])
            && (forall i, j :: 0 <= i < j < |s.handled| ==> s.handled[i].item.id < s.handled[j].item.id)
  {
    hide Run, Start, ValidRun, Placed, Conserved, CountersOk, Staged, Filtered, Resolving;
    ReachedInv(cfg, cpus, tree, now, run);
    HandledInOrder(After(cfg, cpus, tree, now, run));
  }

  lemma HandledInOrder(s: State)
    requires Placed(s)
    ensures forall i :: 0 <= i < |s.handled| ==>
              s.handled[i].item.id < |s.submitted| && s.handled[i].item.event == s.submitted[s.handled[i].item.id]
    ensures forall i, j :: 0 <= i < j < |s.handled| ==> s.handled[i].item.id < s.handled[j].item.id
  {
    assert forall i :: 0 <= i < |s.handled| ==> Flow(s)[i] == s.handled[i].item;
    hide Flow, Apart;
  }

  function Ids(items: seq<Item>): set<nat> {
    set i | 0 <= i < |items| :: items[i].id
  }

  lemma {:induction false} IdsCount(items: seq<Item>)
    requires forall i, j :: 0 <= i < j < |items| ==> items[i].id != items[j].id
    ensures |Ids(items)| == |items|
  {
    if items != [] {
      var init, last := items[..|items| - 1], items[|items| - 1];
      IdsCount(init);
      assert forall i :: 0 <= i < |init| ==> init[i] == items[i];
      assert Ids(items) == Ids(init) + {last.id};
    }
  }

  lemma {:induction false} FullRange(a: set<nat>, n: nat)
    requires forall x :: x in a ==> x < n
    ensures |a| <= n
    ensures |a| == n ==> forall x :: 0 <= x < n ==> x in a
  {
    if n > 0 {
      var b := a - {n - 1};
      FullRange(b, n - 1);
      if n - 1 in a {
        assert |a| == |b| + 1;
      } else {
        assert b == a;
      }
    }
  }

  // Every submitted event is in exactly one place: on its way or handled, or turned
  // away by the full queue.
  lemma EveryEventHasOneFate(cfg: Config, cpus: nat, tree: Option<Tree>, now: Time, run: seq<Action>, id: nat)
    requires Reaches(cfg, cpus, tree, now, run) && id < |After(cfg, cpus, tree, now, run).submitted|
    ensures var s := After(cfg, cpus, tree, now, run);
            (id in Ids(Flow(s)) && id !in Ids(s.overflowed)) || (id !in Ids(Flow(s)) && id in Ids(s.overflowed))
  {
    ReachedInv(cfg, cpus, tree, now, run);
    var s := After(cfg, cpus, tree, now, run);
    PartitionOfIds(Flow(s), s.overflowed, s.submitted, id) by {
      hide Run, Start, ValidRun, CountersOk, Staged, Filtered, Resolving, Flow, Ordered, Apart;
    }
    hide *;
  }

  lemma PartitionOfIds(flow: seq<Item>, overflowed: seq<Item>, submitted: seq<Event>, id: nat)
    requires Ordered(flow, submitted) && Apart(flow, overflowed, submitted)
    requires |submitted| == |flow| + |overflowed| && id < |submitted|
    ensures (id in Ids(flow) && id !in Ids(overflowed)) || (id !in Ids(flow) && id in Ids(overflowed))
  {
    IdsCount(flow);
    IdsCount(overflowed);
    assert Ids(flow) !! Ids(overflowed);
    var all := Ids(flow) + Ids(overflowed);
    assert |all| == |submitted|;
    FullRange(all, |submitted|);
    assert id in all;
  }

  // ---- The queue -------------------------------------------------------------------------------

  // queue_full moves only when the reader meets a full queue, which holds exactly its
  // capacity.
  lemma QueueFullMeansFull(cfg: Config, s: State, created: Time, a: Action)
    requires Inv(cfg, created, s) && Enabled(cfg, s, a)
    requires Get(Apply(cfg, s, a).dropped, "queue_full") != Get(s.dropped, "queue_full")
    ensures a.Offer? && |s.queue| == cfg.queueSize
  {
    hide Inv, Filter, P.ValidEnv, P.Step, Lose;
    StagedOf(cfg, s, created);
    match a
    case Handle(env) =>
      var o := Attribute(cfg, s.pod, s.workerHand.value.event, env).1;
      WorkerReasons(cfg, s.pod, s.workerHand.value.event, env);
      hide Attribute;
    case Offer =>
    case _ =>
  }

  lemma StagedOf(cfg: Config, s: State, created: Time)
    requires Inv(cfg, created, s)
    ensures Staged(cfg, s)
  {
  }

  lemma WorkerReasons(cfg: Config, pod: P.State, e: Event, env: P.Env)
    ensures Attribute(cfg, pod, e, env).1 != Dropped(QUEUE_FULL)
    ensures Attribute(cfg, pod, e, env).1 != Dropped(RINGBUF_FULL)
    ensures EventKey(e) in cfg.tables.meta ==> Attribute(cfg, pod, e, env).1 != Dropped(DEVICE_UNKNOWN)
  {
    hide P.Step;
    assert |QUEUE_FULL| == 10 && |NOT_POD| == 7 && |NOT_INDEXED| == 11 && |CONTAINER_NOT_FOUND| == 19;
    assert |DEVICE_UNKNOWN| == 14 && |RINGBUF_FULL| == 12;
  }

  // Nothing is sent on a closed queue, in particular no event is read any more.
  lemma NothingSentAfterClose(cfg: Config, cpus: nat, tree: Option<Tree>, now: Time, run: seq<Action>)
    requires Reaches(cfg, cpus, tree, now, run)
    requires After(cfg, cpus, tree, now, run).queueClosed
    ensures var s := After(cfg, cpus, tree, now, run);
            s.readerClosed && !Enabled(cfg, s, Offer) && !Enabled(cfg, s, Read) && !Enabled(cfg, s, CloseQueue)
  {
    ReachedInv(cfg, cpus, tree, now, run);
    hide Run, Start, ValidRun, Placed, Conserved, CountersOk, Filtered, Resolving;
  }

  // ---- The drain -------------------------------------------------------------------------------

  predicate ByWorker(a: Action) {
    a.Take? || a.Handle? || a.WorkerExit?
  }

  function Remaining(s: State): nat {
    2 * |s.queue| + |Hand(s.workerHand)| + if s.workerDone then 0 else 1
  }

  lemma DrainStep(cfg: Config, s: State, a: Action)
    requires Staged(cfg, s) && s.queueClosed && Enabled(cfg, s, a)
    ensures Apply(cfg, s, a).queueClosed
    ensures Remaining(Apply(cfg, s, a)) == Remaining(s) - if ByWorker(a) then 1 else 0
  {
    hide Attribute, Filter, P.ValidEnv, Bump, Lose;
  }

  function WorkerSteps(run: seq<Action>): nat {
    if run == [] then 0 else (if ByWorker(run[0]) then 1 else 0) + WorkerSteps(run[1..])
  }

  // After close(queue) the worker takes a bounded number of steps, whatever everyone else
  // does, and it is done exactly when it has taken them all.
  lemma {:induction false} DrainIsBounded(cfg: Config, s: State, run: seq<Action>)
    requires Staged(cfg, s) && s.queueClosed && ValidRun(cfg, s, run)
    ensures WorkerSteps(run) == Remaining(s) - Remaining(Run(cfg, s, run))
    ensures Run(cfg, s, run).workerDone <==> WorkerSteps(run) == Remaining(s)
    decreases |run|
  {
    hide Apply, Enabled;
    if run == [] {
      hide Run, ValidRun;
    } else {
      DrainStep(cfg, s, run[0]);
      StagedStep(cfg, s, run[0]);
      DrainIsBounded(cfg, Apply(cfg, s, run[0]), run[1..]);
    }
  }

  // Until it is done the worker always has a step to take.
  lemma WorkerNeverStuck(cfg: Config, s: State, env: P.Env)
    requires Staged(cfg, s) && s.queueClosed && !s.workerDone
    requires P.ValidEnv(cfg.pod, env) && s.now <= env.start
    ensures Enabled(cfg, s, Take) || Enabled(cfg, s, Handle(env)) || Enabled(cfg, s, WorkerExit)
  {
  }

  // ---- The shutdown ----------------------------------------------------------------------------

  // The steps of the reader loop, of the end of main and of the worker.
  predicate ByAgent(a: Action) {
    !a.Ioctl? && !a.CloseReader?
  }

  // What they have left to do once the ring buffer reader is closed.
  function Left(s: State): nat {
    Remaining(s) + 3 * |Hand(s.readerHand)| + (if s.readerDone then 0 else 1) + (if s.queueClosed then 0 else 1)
  }

  lemma LeftMeans(cfg: Config, s: State)
    requires Staged(cfg, s)
    ensures s.workerDone <==> Left(s) == 0
    ensures Left(s) <= 2 * cfg.queueSize + 7
  {
  }

  lemma ShutdownStep(cfg: Config, s: State, a: Action)
    requires Staged(cfg, s) && s.readerClosed && Enabled(cfg, s, a)
    ensures Apply(cfg, s, a).readerClosed
    ensures Left(Apply(cfg, s, a)) + (if ByAgent(a) then 1 else 0) <= Left(s)
  {
    hide Filter, P.ValidEnv, ApplyHandle, Bump, Lose;
    match a
    case Handle(env) => HandleKeeps(cfg, s, env);
    case _ =>
  }

  function AgentSteps(run: seq<Action>): nat {
    if run == [] then 0 else (if ByAgent(run[0]) then 1 else 0) + AgentSteps(run[1..])
  }

  // From the moment a signal closes the ring buffer reader, the agent takes at most
  // twice the queue's capacity and seven more steps, however many ioctls arrive
  // meanwhile, and it is done exactly when none is left.
  lemma {:induction false} ShutdownIsBounded(cfg: Config, s: State, run: seq<Action>)
    requires Staged(cfg, s) && s.readerClosed && ValidRun(cfg, s, run)
    ensures AgentSteps(run) + Left(Run(cfg, s, run)) <= Left(s) <= 2 * cfg.queueSize + 7
    ensures Run(cfg, s, run).workerDone <==> Left(Run(cfg, s, run)) == 0
    decreases |run|
  {
    LeftMeans(cfg, s);
    hide Apply, Enabled, Left, Staged;
    if run != [] {
      ShutdownStep(cfg, s, run[0]);
      StagedStep(cfg, s, run[0]);
      ShutdownIsBounded(cfg, Apply(cfg, s, run[0]), run[1..]);
    }
  }

  // Until then it always has a step to take.
  lemma ShutdownNeverStuck(cfg: Config, s: State, env: P.Env) returns (a: Action)
    requires Staged(cfg, s) && s.readerClosed && !s.workerDone
    requires P.ValidEnv(cfg.pod, env) && s.now <= env.start
    ensures ByAgent(a) && Enabled(cfg, s, a)
  {
    hide P.ValidEnv;
    a := if s.readerHand.Some? then Offer
         else if !s.readerDone then ReadClosed
         else if !s.queueClosed then CloseQueue
         else if s.workerHand.Some? then Handle(env)
         else if s.queue != [] then Take
         else WorkerExit;
  }
}

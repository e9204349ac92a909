// The counting pipeline as a step machine. The eBPF program on any CPU, the reader
// loop, the worker, the signal handler and the end of main take atomic steps in any
// order on one shared state. The fields from accepted to overflowed are history that the
// agent does not keep.
module Pipeline {
  import opened Wrappers
  import opened Errors
  import opened CgroupIndex
  import opened Cri
  import opened Kernel
  import opened Registry
  import opened Counters
  import opened Metrics
  import opened Setup
  import L = Loader
  import P = PodMap

  datatype Config = Config(tables: Tables, pod: P.Config, cri: P.Oracle, ringCapacity: nat, queueSize: nat)

  // An event and its position in the order of submission.
  datatype Item = Item(id: nat, event: Event)

  datatype Outcome = Counted(key: Label) | Dropped(reason: string) | Logged

  // An event the worker is done with, the resolver as it was then, and the clock.
  datatype Handled = Handled(item: Item, outcome: Outcome, pod: P.State, env: P.Env)

  datatype State = State(
    accepted: nat, submitted: seq<Event>, lostOn: seq<nat>, drops: seq<string>,
    handled: seq<Handled>, overflowed: seq<Item>,
    lost: seq<nat>, ring: seq<Item>, readerClosed: bool,
    readerHand: Option<Item>, readerDone: bool,
    queue: seq<Item>, queueClosed: bool,
    workerHand: Option<Item>, workerDone: bool,
    ioctlTotal: map<Label, nat>, dropped: map<string, nat>,
    pod: P.State, now: Time)

  function Init(cpus: nat, pod: P.State, now: Time): State {
    State(0, [], [], [], [], [], seq(cpus, _ => 0), [], false, None, false, [], false, None, false,
          map[], NoDrops(), pod, now)
  }

  // ---- Steps -------------------------------------------------------------------------------

  datatype Action =
    | Ioctl(cpu: nat, rdev: nat, cmd: nat, cgroupID: nat, slot: bool)
    | Read
    | ReadFails
    | ReadClosed
    | Offer
    | CloseQueue
    | Take
    | Handle(env: P.Env)
    | WorkerExit
    | CloseReader

  ghost predicate Enabled(cfg: Config, s: State, a: Action) {
    match a
    case Ioctl(cpu, rdev, _, _, slot) =>
      cpu < |s.lost| && rdev < 0x1_0000_0000 && (slot ==> |s.ring| < cfg.ringCapacity)
    case Read => !s.readerDone && s.readerHand.None? && !s.readerClosed && s.ring != []
    case ReadFails => !s.readerDone && s.readerHand.None? && !s.readerClosed
    case ReadClosed => !s.readerDone && s.readerHand.None? && s.readerClosed
    case Offer => s.readerHand.Some?
    case CloseQueue => s.readerDone && !s.queueClosed
    case Take => !s.workerDone && s.workerHand.None? && s.queue != []
    case Handle(env) => s.workerHand.Some? && P.ValidEnv(cfg.pod, env) && s.now <= env.start
    case WorkerExit => !s.workerDone && s.workerHand.None? && s.queue == [] && s.queueClosed
    case CloseReader => true
  }

  // The worker's tests on the result of ContainerInfo, in its order.
  function Classify(meta: DeviceMeta, e: Event, r: Result<ContainerInfo, Error>): Outcome {
    if r.Err? && Is(r.error, NotPod) then Dropped(NOT_POD)
    else if r.Err? && Is(r.error, NotIndexed) then Dropped(NOT_INDEXED)
    else if r.Err? && Is(r.error, ContainerNotFound) then Dropped(CONTAINER_NOT_FOUND)
    else if r.Err? then Logged
    else Counted(Label(r.value.namespace, r.value.podName, r.value.containerName,
                       meta.pciAddress, meta.vendor, KindString(e.kind)))
  }

  function Attribute(cfg: Config, pod: P.State, e: Event, env: P.Env): (P.State, Outcome) {
    if EventKey(e) !in cfg.tables.meta then (pod, Dropped(DEVICE_UNKNOWN))
    else
      var (pod', r) := P.Step(cfg.pod, pod, e.cgroupID, env, cfg.cri);
      (pod', Classify(cfg.tables.meta[EventKey(e)], e, r))
  }

  // The counters the worker moves for one event.
  function Bumped(ioctlTotal: map<Label, nat>, dropped: map<string, nat>, o: Outcome)
    : (map<Label, nat>, map<string, nat>)
  {
    match o
    case Counted(k) => (Bump(ioctlTotal, k), dropped)
    case Dropped(r) => (ioctlTotal, Bump(dropped, r))
    case Logged => (ioctlTotal, dropped)
  }

  function Lose(lost: seq<nat>, cpu: nat): seq<nat>
    requires cpu < |lost|
  {
    lost[cpu := Wrap64(lost[cpu] + 1)]
  }

  function ApplyIoctl(s: State, e: Event, cpu: nat, slot: bool): State
    requires cpu < |s.lost|
  {
    if slot then
      s.(accepted := s.accepted + 1, submitted := s.submitted + [e], ring := s.ring + [Item(|s.submitted|, e)])
    else
      s.(accepted := s.accepted + 1, lostOn := s.lostOn + [cpu], lost := Lose(s.lost, cpu))
  }

  function ApplyOffer(cfg: Config, s: State): State
    requires s.readerHand.Some?
  {
    if |s.queue| < cfg.queueSize then
      s.(queue := s.queue + [s.readerHand.value], readerHand := None)
    else
      s.(overflowed := s.overflowed + [s.readerHand.value], readerHand := None,
         drops := s.drops + [QUEUE_FULL], dropped := Bump(s.dropped, QUEUE_FULL))
  }

  function ApplyHandle(cfg: Config, s: State, env: P.Env): State
    requires s.workerHand.Some?
  {
    var item := s.workerHand.value;
    var (pod', outcome) := Attribute(cfg, s.pod, item.event, env);
    var t := s.(handled := s.handled + [Handled(item, outcome, s.pod, env)], workerHand := None,
                pod := pod', now := env.answered);
    var (ioctlTotal, dropped) := Bumped(s.ioctlTotal, s.dropped, outcome);
    t.(ioctlTotal := ioctlTotal, dropped := dropped,
       drops := if outcome.Dropped? then s.drops + [outcome.reason] else s.drops)
  }

  ghost function Apply(cfg: Config, s: State, a: Action): State
    requires Enabled(cfg, s, a)
  {
    match a
    case Ioctl(cpu, rdev, cmd, cgroupID, slot) =>
      (match Filter(cfg.tables.devices, cfg.tables.ioctls, rdev, cmd, cgroupID)
       case None => s
       case Some(e) => ApplyIoctl(s, e, cpu, slot))
    case Read => s.(readerHand := Some(s.ring[0]), ring := s.ring[1..])
    case ReadFails => s
    case ReadClosed => s.(readerDone := true)
    case Offer => ApplyOffer(cfg, s)
    case CloseQueue => s.(queueClosed := true)
    case Take => s.(workerHand := Some(s.queue[0]), queue := s.queue[1..])
    case Handle(env) => ApplyHandle(cfg, s, env)
    case WorkerExit => s.(workerDone := true)
    case CloseReader => s.(readerClosed := true)
  }

  ghost predicate ValidRun(cfg: Config, s: State, run: seq<Action>)
    decreases |run|
  {
    run == [] || (Enabled(cfg, s, run[0]) && ValidRun(cfg, Apply(cfg, s, run[0]), run[1..]))
  }

  ghost function Run(cfg: Config, s: State, run: seq<Action>): State
    requires ValidRun(cfg, s, run)
    decreases |run|
  {
    if run == [] then s else Run(cfg, Apply(cfg, s, run[0]), run[1..])
  }

  // ---- The invariant -------------------------------------------------------------------------

  function Hand(h: Option<Item>): seq<Item> {
    if h.Some? then [h.value] else []
  }

  function Items(hs: seq<Handled>): seq<Item> {
    seq(|hs|, i requires 0 <= i < |hs| => hs[i].item)
  }

  // Every event on its way through userspace, oldest first.
  function Flow(s: State): seq<Item> {
    Items(s.handled) + Hand(s.workerHand) + s.queue + Hand(s.readerHand) + s.ring
  }

  // Each item is the event submitted at its position, and positions increase.
  ghost predicate Ordered(items: seq<Item>, submitted: seq<Event>) {
    && (forall i :: 0 <= i < |items| ==> items[i].id < |submitted| && items[i].event == submitted[items[i].id])
    && (forall i, j :: 0 <= i < j < |items| ==> items[i].id < items[j].id)
  }

  // The events that found the queue full have left the flow, each once.
  ghost predicate Apart(flow: seq<Item>, overflowed: seq<Item>, submitted: seq<Event>) {
    && (forall i :: 0 <= i < |overflowed| ==>
          overflowed[i].id < |submitted| && overflowed[i].event == submitted[overflowed[i].id])
    && (forall i, j :: 0 <= i < j < |overflowed| ==> overflowed[i].id != overflowed[j].id)
    && (forall i, j :: 0 <= i < |flow| && 0 <= j < |overflowed| ==> flow[i].id != overflowed[j].id)
  }

  ghost predicate Placed(s: State) {
    Ordered(Flow(s), s.submitted) && Apart(Flow(s), s.overflowed, s.submitted)
  }

  ghost predicate Conserved(s: State) {
    && s.accepted == |s.submitted| + |s.lostOn|
    && |s.submitted| == |Flow(s)| + |s.overflowed|
  }

  function Labels(hs: seq<Handled>): seq<Label> {
    if hs == [] then []
    else
      var before, o := Labels(hs[..|hs| - 1]), hs[|hs| - 1].outcome;
      if o.Counted? then before + [o.key] else before
  }

  function Reasons(hs: seq<Handled>): seq<string> {
    if hs == [] then []
    else
      var before, o := Reasons(hs[..|hs| - 1]), hs[|hs| - 1].outcome;
      if o.Dropped? then before + [o.reason] else before
  }

  // How many events were only written to the log.
  function LogCount(hs: seq<Handled>): nat {
    if hs == [] then 0
    else LogCount(hs[..|hs| - 1]) + if hs[|hs| - 1].outcome.Logged? then 1 else 0
  }

  // The counters are the tallies of the history.
  ghost predicate Tallied(ioctlTotal: map<Label, nat>, dropped: map<string, nat>, drops: seq<string>,
                          handled: seq<Handled>, overflows: nat) {
    && ioctlTotal == Tally(map[], Labels(handled))
    && dropped == Tally(NoDrops(), drops)
    && |drops| == |Reasons(handled)| + overflows
    && (forall r :: Count(drops, r) == Count(Reasons(handled), r) + if r == QUEUE_FULL then overflows else 0)
    && |handled| == |Labels(handled)| + |Reasons(handled)| + LogCount(handled)
  }

  ghost predicate LostCounted(lost: seq<nat>, lostOn: seq<nat>) {
    && (forall c :: 0 <= c < |lost| ==> lost[c] == Wrap64(Count<nat>(lostOn, c)))
    && Wrap64(L.Sum(lost)) == Wrap64(|lostOn|)
    && (|lostOn| < U64 ==> L.Sum(lost) == |lostOn|)
  }

  ghost predicate CountersOk(s: State) {
    && Tallied(s.ioctlTotal, s.dropped, s.drops, s.handled, |s.overflowed|)
    && LostCounted(s.lost, s.lostOn)
  }

  // Shutdown goes forward: the reader stops before the queue is closed, and the worker
  // stops after, when there is nothing left.
  ghost predicate Staged(cfg: Config, s: State) {
    && |s.queue| <= cfg.queueSize
    && (s.readerDone ==> s.readerClosed && s.readerHand.None?)
    && (s.queueClosed ==> s.readerDone)
    && (s.workerDone ==> s.queueClosed && s.queue == [] && s.workerHand.None?)
  }

  // Only what both kernel lookups let through is submitted.
  ghost predicate Filtered(cfg: Config, s: State) {
    forall i :: 0 <= i < |s.submitted| ==>
      var e := s.submitted[i];
      EventKey(e) in cfg.tables.devices
      && KindAt(cfg.tables.devices, cfg.tables.ioctls, EventKey(e), e.cmd) == Some(e.kind)
  }

  ghost predicate HandledOk(cfg: Config, created: Time, h: Handled) {
    && P.Inv(cfg.pod, cfg.cri, h.pod, created, h.env.start) && P.ValidEnv(cfg.pod, h.env)
    && h.outcome == Attribute(cfg, h.pod, h.item.event, h.env).1
  }

  ghost predicate Resolving(cfg: Config, created: Time, s: State) {
    && P.Inv(cfg.pod, cfg.cri, s.pod, created, s.now)
    && forall i :: 0 <= i < |s.handled| ==> HandledOk(cfg, created, s.handled[i])
  }

  ghost predicate Inv(cfg: Config, created: Time, s: State) {
    && Placed(s) && Conserved(s) && CountersOk(s)
    && Staged(cfg, s) && Filtered(cfg, s) && Resolving(cfg, created, s)
  }

  lemma {:induction false} SumOfZeros(cpus: nat)
    ensures L.Sum(seq(cpus, _ => 0)) == 0
  {
    if cpus > 0 {
      SumOfZeros(cpus - 1);
      var cells: seq<nat> := seq(cpus, _ => 0);
      assert cells[..cpus - 1] == seq(cpus - 1, _ => 0);
    }
  }

  lemma InitInv(cfg: Config, cpus: nat, pod: P.State, now: Time)
    requires P.Inv(cfg.pod, cfg.cri, pod, now, now)
    ensures Inv(cfg, now, Init(cpus, pod, now))
  {
    hide P.Inv;
    InitCounters(cpus, pod, now);
    hide CountersOk;
  }

  lemma InitCounters(cpus: nat, pod: P.State, now: Time)
    ensures CountersOk(Init(cpus, pod, now))
  {
    SumOfZeros(cpus);
  }

  // ---- Each step keeps it ----------------------------------------------------------------------

  lemma MoveHead(a: seq<Item>, q: seq<Item>, rest: seq<Item>)
    requires q != []
    ensures a + [] + q + rest == a + [q[0]] + q[1..] + rest
  {
    assert q == [q[0]] + q[1..];
  }

  lemma AppendTwice(a: seq<Item>, b: seq<Item>, x: Item, c: seq<Item>)
    ensures a + (b + [x]) + [] + c == a + b + [x] + c
  {
  }

  lemma DropOne(a: seq<Item>, x: Item, c: seq<Item>)
    ensures a + [] + c == (a + [x] + c)[..|a|] + (a + [x] + c)[|a| + 1..]
  {
  }

  // What handling an event leaves alone.
  lemma HandleKeeps(cfg: Config, s: State, env: P.Env)
    requires s.workerHand.Some?
    ensures var t := ApplyHandle(cfg, s, env);
            && t.accepted == s.accepted && t.submitted == s.submitted && t.lostOn == s.lostOn && t.lost == s.lost
            && t.overflowed == s.overflowed && t.ring == s.ring && t.queue == s.queue
            && t.readerHand == s.readerHand && t.readerClosed == s.readerClosed && t.readerDone == s.readerDone
            && t.queueClosed == s.queueClosed && t.workerDone == s.workerDone && t.workerHand == None
            && var o := Attribute(cfg, s.pod, s.workerHand.value.event, env).1;
               && t.ioctlTotal == (if o.Counted? then Bump(s.ioctlTotal, o.key) else s.ioctlTotal)
               && t.dropped == (if o.Dropped? then Bump(s.dropped, o.reason) else s.dropped)
  {
    hide Attribute, Bump;
  }

  // What entering an event, or losing it, changes.
  lemma IoctlKeeps(s: State, e: Event, cpu: nat, slot: bool)
    requires cpu < |s.lost|
    ensures var t := ApplyIoctl(s, e, cpu, slot);
            && t.accepted == s.accepted + 1
            && t.submitted == (if slot then s.submitted + [e] else s.submitted)
            && t.lostOn == (if slot then s.lostOn else s.lostOn + [cpu]) && t.ioctlTotal == s.ioctlTotal
            && t.overflowed == s.overflowed && t.handled == s.handled && t.pod == s.pod && t.now == s.now
  {
    hide Lose;
  }

  // What offering an event to the queue leaves alone.
  lemma OfferKeeps(cfg: Config, s: State)
    requires s.readerHand.Some?
    ensures var t := ApplyOffer(cfg, s);
            && t.accepted == s.accepted && t.submitted == s.submitted && t.lostOn == s.lostOn
            && t.handled == s.handled && t.pod == s.pod && t.now == s.now && t.ioctlTotal == s.ioctlTotal
            && t.queue == (if |s.queue| < cfg.queueSize then s.queue + [s.readerHand.value] else s.queue)
            && t.overflowed == (if |s.queue| < cfg.queueSize then s.overflowed else s.overflowed + [s.readerHand.value])
            && t.workerHand == s.workerHand && t.readerHand == None && t.ring == s.ring
  {
    hide Bump;
  }

  lemma FlowHandle(cfg: Config, s: State, env: P.Env)
    requires s.workerHand.Some?
    ensures Flow(ApplyHandle(cfg, s, env)) == Flow(s)
  {
    hide Attribute, Bump;
    var s' := ApplyHandle(cfg, s, env);
    assert Items(s'.handled) == Items(s.handled) + [s.workerHand.value];
    hide Items;
    assert s'.queue == s.queue && s'.readerHand == s.readerHand && s'.ring == s.ring;
  }

  lemma FlowIoctl(s: State, e: Event, cpu: nat, slot: bool)
    requires cpu < |s.lost|
    ensures var s' := ApplyIoctl(s, e, cpu, slot);
            if slot then s'.submitted == s.submitted + [e] && Flow(s') == Flow(s) + [Item(|s.submitted|, e)]
            else s'.submitted == s.submitted && Flow(s') == Flow(s)
  {
    var before := Items(s.handled) + Hand(s.workerHand) + s.queue + Hand(s.readerHand);
    var item := Item(|s.submitted|, e);
    hide Items, Hand, Lose;
    var s' := ApplyIoctl(s, e, cpu, slot);
    assert Flow(s) == before + s.ring && Flow(s') == before + s'.ring;
    assert before + (s.ring + [item]) == before + s.ring + [item];
  }

  lemma FlowOffer(cfg: Config, s: State)
    requires s.readerHand.Some?
    ensures var s', n := ApplyOffer(cfg, s), |s.handled| + |Hand(s.workerHand)| + |s.queue|;
            && n < |Flow(s)|
            && Flow(s') == if |s.queue| >= cfg.queueSize then Flow(s)[..n] + Flow(s)[n + 1..] else Flow(s)
  {
    hide Bump, Flow, ApplyOffer;
    var done, x, s' := Items(s.handled) + Hand(s.workerHand), s.readerHand.value, ApplyOffer(cfg, s);
    assert |done| == |s.handled| + |Hand(s.workerHand)| && Hand(s.readerHand) == [x] && Hand(None) == [];
    hide *;
    OfferKeeps(cfg, s);
    FlowIs(s, done, [x]);
    FlowIs(s', done, []);
    OfferedFlow(done, s.queue, x, s.ring);
    if |s.queue| >= cfg.queueSize {
      assert Flow(s') == done + s.queue + [] + s.ring;
    } else {
      assert Flow(s') == done + (s.queue + [x]) + [] + s.ring;
    }
  }

  lemma OfferedFlow(done: seq<Item>, queue: seq<Item>, x: Item, ring: seq<Item>)
    ensures var flow, n := done + queue + [x] + ring, |done| + |queue|;
            && n < |flow|
            && done + (queue + [x]) + [] + ring == flow
            && done + queue + [] + ring == flow[..n] + flow[n + 1..]
  {
    AppendTwice(done, queue, x, ring);
    DropOne(done + queue, x, ring);
  }

  lemma FlowIs(s: State, done: seq<Item>, hand: seq<Item>)
    requires Items(s.handled) + Hand(s.workerHand) == done && Hand(s.readerHand) == hand
    ensures Flow(s) == done + s.queue + hand + s.ring
  {
  }

  lemma FlowRead(s: State)
    requires s.readerHand.None? && s.ring != []
    ensures Flow(s.(readerHand := Some(s.ring[0]), ring := s.ring[1..])) == Flow(s)
  {
    var before := Items(s.handled) + Hand(s.workerHand) + s.queue;
    hide Items;
    MoveHead(before, s.ring, []);
  }

  lemma FlowTake(s: State)
    requires s.workerHand.None? && s.queue != []
    ensures Flow(s.(workerHand := Some(s.queue[0]), queue := s.queue[1..])) == Flow(s)
  {
    var done := Items(s.handled);
    hide Items;
    MoveHead(done, s.queue, Hand(s.readerHand) + s.ring);
  }

  lemma FlowSame(s: State, s': State)
    requires s'.handled == s.handled && s'.workerHand == s.workerHand && s'.queue == s.queue
    requires s'.readerHand == s.readerHand && s'.ring == s.ring
    ensures Flow(s') == Flow(s)
  {
  }

  // How a step moves events: all but two kinds leave the flow as it is.
  lemma FlowStep(cfg: Config, s: State, a: Action)
    requires Enabled(cfg, s, a)
    ensures var s' := Apply(cfg, s, a);
            if a.Ioctl? && a.slot && |s'.submitted| > |s.submitted| then
              Flow(s') == Flow(s) + [Item(|s.submitted|, s'.submitted[|s.submitted|])]
            else if a.Offer? && |s.queue| >= cfg.queueSize then
              var n := |s.handled| + |Hand(s.workerHand)| + |s.queue|;
              n < |Flow(s)| && Flow(s') == Flow(s)[..n] + Flow(s)[n + 1..]
            else Flow(s') == Flow(s)
  {
    hide Flow, Filter, P.ValidEnv, ApplyHandle, ApplyOffer, ApplyIoctl, Hand;
    match a
    case Ioctl(cpu, rdev, cmd, cgroupID, slot) =>
      match Filter(cfg.tables.devices, cfg.tables.ioctls, rdev, cmd, cgroupID) {
        case None =>
        case Some(e) => FlowIoctl(s, e, cpu, slot);
      }
    case Read => FlowRead(s);
    case Offer => FlowOffer(cfg, s);
    case Take => FlowTake(s);
    case Handle(env) => FlowHandle(cfg, s, env);
    case _ => FlowSame(s, Apply(cfg, s, a));
  }

  lemma PlacedAppend(flow: seq<Item>, overflowed: seq<Item>, submitted: seq<Event>, e: Event)
    requires Ordered(flow, submitted) && Apart(flow, overflowed, submitted)
    ensures Ordered(flow + [Item(|submitted|, e)], submitted + [e])
    ensures Apart(flow + [Item(|submitted|, e)], overflowed, submitted + [e])
  {
  }

  lemma PlacedRemove(flow: seq<Item>, overflowed: seq<Item>, submitted: seq<Event>, n: nat)
    requires Ordered(flow, submitted) && Apart(flow, overflowed, submitted) && n < |flow|
    ensures Ordered(flow[..n] + flow[n + 1..], submitted)
    ensures Apart(flow[..n] + flow[n + 1..], overflowed + [flow[n]], submitted)
  {
    var rest := flow[..n] + flow[n + 1..];
    assert forall i :: 0 <= i < |rest| ==> rest[i] == if i < n then flow[i] else flow[i + 1];
  }

  // Where the reader's event is in the flow.
  lemma ReaderPosition(s: State)
    requires s.readerHand.Some?
    ensures var n := |s.handled| + |Hand(s.workerHand)| + |s.queue|;
            n < |Flow(s)| && Flow(s)[n] == s.readerHand.value
  {
  }

  lemma PlacedStep(cfg: Config, s: State, a: Action)
    requires Enabled(cfg, s, a) && Placed(s)
    ensures Placed(Apply(cfg, s, a))
  {
    hide Flow, Apply, Enabled, Ordered, Apart;
    var s' := Apply(cfg, s, a);
    FlowStep(cfg, s, a);
    HistoriesStep(cfg, s, a);
    if s'.submitted != s.submitted {
      var e := s'.submitted[|s.submitted|];
      PlacedAppend(Flow(s), s.overflowed, s.submitted, e);
      assert s'.submitted == s.submitted + [e];
    } else if a.Offer? && |s.queue| >= cfg.queueSize {
      ReaderPosition(s);
      PlacedRemove(Flow(s), s.overflowed, s.submitted, |s.handled| + |Hand(s.workerHand)| + |s.queue|);
    }
  }

  // How the histories grow: an ioctl that passes the filter is submitted or lost, and
  // events leave for the full queue only when it is full.
  lemma HistoriesStep(cfg: Config, s: State, a: Action)
    requires Enabled(cfg, s, a)
    ensures a.Offer? ==> s.readerHand.Some?
    ensures var s' := Apply(cfg, s, a);
            && s'.overflowed == (if a.Offer? && |s.queue| >= cfg.queueSize
                                 then s.overflowed + [s.readerHand.value] else s.overflowed)
            && s'.accepted - s.accepted == |s'.submitted| - |s.submitted| + |s'.lostOn| - |s.lostOn|
            && |s.lostOn| <= |s'.lostOn|
            && (s'.submitted == s.submitted
                || (a.Ioctl? && a.slot && |s'.submitted| == |s.submitted| + 1
                    && s'.submitted[..|s.submitted|] == s.submitted
                    && Filter(cfg.tables.devices, cfg.tables.ioctls, a.rdev, a.cmd, a.cgroupID)
                       == Some(s'.submitted[|s.submitted|])))
            && (!a.Handle? ==> s'.pod == s.pod && s'.now == s.now && s'.handled == s.handled)
  {
    hide Filter, P.ValidEnv, ApplyHandle, ApplyOffer, ApplyIoctl;
    match a
    case Ioctl(cpu, rdev, cmd, cgroupID, slot) =>
      match Filter(cfg.tables.devices, cfg.tables.ioctls, rdev, cmd, cgroupID) {
        case None =>
        case Some(e) => IoctlKeeps(s, e, cpu, slot);
      }
    case Offer => OfferKeeps(cfg, s);
    case Handle(env) => HandleKeeps(cfg, s, env);
    case _ =>
  }

  lemma ConservedStep(cfg: Config, s: State, a: Action)
    requires Enabled(cfg, s, a) && Conserved(s)
    ensures Conserved(Apply(cfg, s, a))
  {
    FlowStep(cfg, s, a);
    HistoriesStep(cfg, s, a);
    hide Apply, Enabled, Filter, Flow, Hand;
  }

  lemma {:induction false} HistoryStep(hs: seq<Handled>, h: Handled)
    ensures Labels(hs + [h]) == if h.outcome.Counted? then Labels(hs) + [h.outcome.key] else Labels(hs)
    ensures Reasons(hs + [h]) == if h.outcome.Dropped? then Reasons(hs) + [h.outcome.reason] else Reasons(hs)
    ensures LogCount(hs + [h]) == LogCount(hs) + if h.outcome.Logged? then 1 else 0
  {
    assert (hs + [h])[..|hs|] == hs;
  }

  lemma {:induction false} CountStep<K>(ks: seq<K>, k: K)
    ensures forall j :: Count(ks + [k], j) == Count(ks, j) + if j == k then 1 else 0
  {
    assert (ks + [k])[..|ks|] == ks;
  }

  lemma TalliedHandle(ioctlTotal: map<Label, nat>, dropped: map<string, nat>, drops: seq<string>,
                      hs: seq<Handled>, overflows: nat, h: Handled)
    requires Tallied(ioctlTotal, dropped, drops, hs, overflows)
    ensures var (i, d) := Bumped(ioctlTotal, dropped, h.outcome);
            Tallied(i, d, if h.outcome.Dropped? then drops + [h.outcome.reason] else drops, hs + [h], overflows)
  {
    HistoryStep(hs, h);
    match h.outcome
    case Counted(k) =>
      TallyStep(map[], Labels(hs), k);
    case Dropped(r) =>
      TallyStep(NoDrops(), drops, r);
      CountStep(drops, r);
      CountStep(Reasons(hs), r);
    case Logged =>
    hide Labels, Reasons, LogCount, Tally, Count, Bump, NoDrops;
  }

  lemma TalliedOverflow(ioctlTotal: map<Label, nat>, dropped: map<string, nat>, drops: seq<string>,
                        hs: seq<Handled>, overflows: nat)
    requires Tallied(ioctlTotal, dropped, drops, hs, overflows)
    ensures Tallied(ioctlTotal, Bump(dropped, QUEUE_FULL), drops + [QUEUE_FULL], hs, overflows + 1)
  {
    TallyStep(NoDrops(), drops, QUEUE_FULL);
    CountStep(drops, QUEUE_FULL);
    hide Labels, Reasons, LogCount, Tally, Count, Bump, NoDrops;
  }

  lemma {:induction false} CellWithinSum(cells: seq<nat>, c: nat)
    requires c < |cells|
    ensures cells[c] <= L.Sum(cells)
  {
    if c < |cells| - 1 {
      CellWithinSum(cells[..|cells| - 1], c);
    }
  }

  lemma LoseCounted(lost: seq<nat>, lostOn: seq<nat>, cpu: nat)
    requires cpu < |lost| && LostCounted(lost, lostOn)
    ensures LostCounted(Lose(lost, cpu), lostOn + [cpu])
  {
    hide Count, L.Sum;
    var n := lost[cpu];
    CountStep<nat>(lostOn, cpu);
    WrapStep(Count<nat>(lostOn, cpu));
    WrapBelow(Count<nat>(lostOn, cpu));
    WrapBelow(n + 1);
    CellWithinSum(lost, cpu);
    WrapTotal(L.Sum(lost), n, |lostOn|);
    L.SumUpdate(lost, cpu, Wrap64(n + 1));
    hide Wrap64;
  }

  lemma CountersStep(cfg: Config, s: State, a: Action)
    requires Enabled(cfg, s, a) && CountersOk(s)
    ensures CountersOk(Apply(cfg, s, a))
  {
    hide Attribute, Filter, P.ValidEnv, Tallied, LostCounted, Lose, Bump;
    match a
    case Ioctl(cpu, _, _, _, _) =>
      LoseCounted(s.lost, s.lostOn, cpu);
    case Offer =>
      TalliedOverflow(s.ioctlTotal, s.dropped, s.drops, s.handled, |s.overflowed|);
    case Handle(env) =>
      var o := Attribute(cfg, s.pod, s.workerHand.value.event, env).1;
      TalliedHandle(s.ioctlTotal, s.dropped, s.drops, s.handled, |s.overflowed|,
                    Handled(s.workerHand.value, o, s.pod, env));
    case _ =>
  }

  lemma StagedStep(cfg: Config, s: State, a: Action)
    requires Enabled(cfg, s, a) && Staged(cfg, s)
    ensures Staged(cfg, Apply(cfg, s, a))
  {
    hide Attribute, Filter, P.ValidEnv;
  }

  lemma FilteredStep(cfg: Config, s: State, a: Action)
    requires Enabled(cfg, s, a) && Filtered(cfg, s)
    ensures Filtered(cfg, Apply(cfg, s, a))
  {
    HistoriesStep(cfg, s, a);
    var s' := Apply(cfg, s, a);
    if s'.submitted != s.submitted {
      EventNamesFilteredDevice(cfg.tables.devices, cfg.tables.ioctls, a.rdev, a.cmd, a.cgroupID);
    }
    hide Apply, Filter, KindAt;
    assert forall i :: 0 <= i < |s.submitted| ==> s'.submitted[i] == s'.submitted[..|s.submitted|][i];
  }

  lemma LaterInv(cfg: Config, s: P.State, created: Time, now: Time, later: Time)
    requires P.Inv(cfg.pod, cfg.cri, s, created, now) && now <= later
    ensures P.Inv(cfg.pod, cfg.cri, s, created, later)
  {
    forall id | id in s.cache ensures P.EntryOk(cfg.pod, cfg.cri, s, id, later) {
      assert P.EntryOk(cfg.pod, cfg.cri, s, id, now);
    }
  }

  lemma ResolvingHandle(cfg: Config, created: Time, s: State, env: P.Env)
    requires s.workerHand.Some? && P.ValidEnv(cfg.pod, env) && s.now <= env.start
    requires Resolving(cfg, created, s)
    ensures Resolving(cfg, created, ApplyHandle(cfg, s, env))
  {
    var e := s.workerHand.value.event;
    LaterInv(cfg, s.pod, created, s.now, env.start);
    LaterInv(cfg, s.pod, created, s.now, env.answered);
    P.StepKeepsInv(cfg.pod, cfg.cri, s.pod, created, s.now, e.cgroupID, env);
    hide P.Inv, P.Step, Classify;
    var s' := ApplyHandle(cfg, s, env);
    assert s'.handled == s.handled + [Handled(s.workerHand.value, Attribute(cfg, s.pod, e, env).1, s.pod, env)];
  }

  lemma ResolvingStep(cfg: Config, created: Time, s: State, a: Action)
    requires Enabled(cfg, s, a) && Resolving(cfg, created, s)
    ensures Resolving(cfg, created, Apply(cfg, s, a))
  {
    hide HandledOk, P.Inv;
    if a.Handle? {
      ResolvingHandle(cfg, created, s, a.env);
    } else {
      HistoriesStep(cfg, s, a);
      hide Apply, Enabled;
    }
  }

  lemma StepKeepsInv(cfg: Config, created: Time, s: State, a: Action)
    requires Enabled(cfg, s, a) && Inv(cfg, created, s)
    ensures Inv(cfg, created, Apply(cfg, s, a))
  {
    hide Apply, Placed, Conserved, CountersOk, Staged, Filtered, Resolving, Enabled;
    PlacedStep(cfg, s, a);
    ConservedStep(cfg, s, a);
    CountersStep(cfg, s, a);
    StagedStep(cfg, s, a);
    FilteredStep(cfg, s, a);
    ResolvingStep(cfg, created, s, a);
  }

  lemma {:induction false} RunKeepsInv(cfg: Config, created: Time, s: State, run: seq<Action>)
    requires Inv(cfg, created, s) && ValidRun(cfg, s, run)
    ensures Inv(cfg, created, Run(cfg, s, run))
    decreases |run|
  {
    hide Inv, Apply, Enabled;
    if run != [] {
      StepKeepsInv(cfg, created, s, run[0]);
      RunKeepsInv(cfg, created, Apply(cfg, s, run[0]), run[1..]);
    }
  }

  lemma {:induction false} RunConcat(cfg: Config, s: State, first: seq<Action>, next: seq<Action>)
    requires ValidRun(cfg, s, first) && ValidRun(cfg, Run(cfg, s, first), next)
    ensures ValidRun(cfg, s, first + next) && Run(cfg, s, first + next) == Run(cfg, Run(cfg, s, first), next)
    decreases |first|
  {
    hide Apply, Enabled;
    var all := first + next;
    if first == [] {
      assert all == next;
    } else {
      RunConcat(cfg, Apply(cfg, s, first[0]), first[1..], next);
      assert all[0] == first[0] && all[1..] == first[1..] + next;
    }
  }

  // Two steps, then the rest.
  lemma {:induction false} RunTwo(cfg: Config, s: State, a: Action, b: Action, rest: seq<Action>)
    requires Enabled(cfg, s, a) && Enabled(cfg, Apply(cfg, s, a), b)
    requires ValidRun(cfg, Apply(cfg, Apply(cfg, s, a), b), rest)
    ensures ValidRun(cfg, s, [a, b] + rest)
    ensures Run(cfg, s, [a, b] + rest) == Run(cfg, Apply(cfg, Apply(cfg, s, a), b), rest)
  {
    hide Apply, Enabled;
    var all := [a, b] + rest;
    assert all[1..] == [b] + rest && all[1..][1..] == rest;
    assert ValidRun(cfg, Apply(cfg, s, a), all[1..]);
  }
}

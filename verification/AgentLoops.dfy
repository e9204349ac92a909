// The loops of main: the reader that fills the queue and the worker that empties it.
module AgentLoops {
  import opened Errors
  import opened CgroupIndex
  import opened Kernel
  import opened Registry
  import opened Counters
  import opened Metrics
  import opened Pipeline
  import P = PodMap

  // What reading the ring buffer returns.
  datatype ReadResult = Record(event: Event) | Failed | Closed

  // The events read before the reader is closed.
  function ReadEvents(results: seq<ReadResult>): seq<Event> {
    if results == [] || results[0].Closed? then []
    else (if results[0].Record? then [results[0].event] else []) + ReadEvents(results[1..])
  }

  // The events that fit, how many do not, and one reason for each of these.
  function Kept(events: seq<Event>, room: nat): seq<Event> {
    if |events| <= room then events else events[..room]
  }

  function Surplus(events: seq<Event>, room: nat): nat {
    if |events| <= room then 0 else |events| - room
  }

  function Fulls(n: nat): seq<string> {
    seq(n, _ => QUEUE_FULL)
  }

  // seen are the events of the first i results.
  ghost predicate Seen(results: seq<ReadResult>, i: nat, seen: seq<Event>) {
    i <= |results| && ReadEvents(results) == seen + ReadEvents(results[i..])
  }

  lemma {:induction false} SeenNothing(results: seq<ReadResult>)
    ensures Seen(results, 0, [])
  {
    hide ReadEvents;
    assert results[0..] == results && [] + ReadEvents(results) == ReadEvents(results);
  }

  lemma {:induction false} SeenStep(results: seq<ReadResult>, i: nat, seen: seq<Event>)
    requires i < |results| && !results[i].Closed? && Seen(results, i, seen)
    ensures Seen(results, i + 1, if results[i].Record? then seen + [results[i].event] else seen)
  {
    assert results[i..][1..] == results[i + 1..] && results[i..][0] == results[i];
    var rest := ReadEvents(results[i + 1..]);
    if results[i].Record? {
      assert seen + ([results[i].event] + rest) == seen + [results[i].event] + rest;
    } else {
      assert [] + rest == rest;
    }
  }

  lemma {:induction false} SeenAll(results: seq<ReadResult>, i: nat, seen: seq<Event>)
    requires Seen(results, i, seen) && (i == |results| || results[i].Closed?)
    ensures ReadEvents(results) == seen
  {
    assert i < |results| ==> results[i..][0] == results[i];
    assert ReadEvents(results[i..]) == [] && seen + [] == seen;
  }

  lemma {:induction false} NothingSeen(room: nat, drops: map<string, nat>)
    ensures Kept([], room) == [] && Tally(drops, Fulls(Surplus([], room))) == drops
  {
    assert Fulls(0) == [];
  }

  lemma {:induction false} SeeOne(seen: seq<Event>, room: nat, e: Event, drops: map<string, nat>)
    ensures |Kept(seen, room)| < room <==> |seen| < room
    ensures |Kept(seen, room)| <= room
    ensures Kept(seen + [e], room) == if |seen| < room then Kept(seen, room) + [e] else Kept(seen, room)
    ensures var before := Tally(drops, Fulls(Surplus(seen, room)));
            Tally(drops, Fulls(Surplus(seen + [e], room)))
            == if |seen| < room then before else Bump(before, QUEUE_FULL)
  {
    var fulls := Fulls(Surplus(seen, room));
    TallyStep(drops, fulls, QUEUE_FULL);
    if |seen| >= room {
      assert Fulls(Surplus(seen + [e], room)) == fulls + [QUEUE_FULL];
    }
    hide Tally, Bump;
  }

  // The counters and the resolver after the worker has handled events in order.
  function Work(cfg: Config, t: Totals, events: seq<Event>, envs: seq<P.Env>): Totals
    requires |envs| == |events|
  {
    if events == [] then t
    else
      var n := |events| - 1;
      WorkOne(cfg, Work(cfg, t, events[..n], envs[..n]), events[n], envs[n])
  }

  datatype Totals = Totals(ioctlTotal: map<Label, nat>, dropped: map<string, nat>, pod: P.State)

  function WorkOne(cfg: Config, t: Totals, e: Event, env: P.Env): Totals {
    var (pod', outcome) := Attribute(cfg, t.pod, e, env);
    var (ioctlTotal, dropped) := Bumped(t.ioctlTotal, t.dropped, outcome);
    Totals(ioctlTotal, dropped, pod')
  }

  // ---- The loops as runs of the step machine -------------------------------------------------

  function EventsOf(items: seq<Item>): seq<Event> {
    seq(|items|, i requires 0 <= i < |items| => items[i].event)
  }

  function TotalsOf(s: State): Totals {
    Totals(s.ioctlTotal, s.dropped, s.pod)
  }

  // The steps of the reader loop, the closing of the ring buffer reader that ends it, and
  // close(queue).
  function ReaderRun(results: seq<ReadResult>): seq<Action> {
    if results == [] || results[0].Closed? then [CloseReader, ReadClosed, CloseQueue]
    else (if results[0].Record? then [Read, Action.Offer] else [ReadFails]) + ReaderRun(results[1..])
  }

  function WorkerRun(envs: seq<P.Env>): seq<Action> {
    if envs == [] then [WorkerExit] else [Take, Handle(envs[0])] + WorkerRun(envs[1..])
  }

  // Each event is handled after the one before it.
  ghost predicate Follow(cfg: Config, envs: seq<P.Env>, now: Time)
    decreases |envs|
  {
    envs == [] || (P.ValidEnv(cfg.pod, envs[0]) && now <= envs[0].start && Follow(cfg, envs[1..], envs[0].answered))
  }

  ghost predicate Reading(s: State) {
    !s.readerDone && !s.readerClosed && !s.queueClosed && s.readerHand.None?
  }

  ghost predicate WorkerIdle(s: State) {
    s.workerHand.None? && !s.workerDone
  }

  lemma {:induction false} SeeFirst(e: Event, rest: seq<Event>, room: nat, drops: map<string, nat>)
    ensures Kept([e] + rest, room) == if room == 0 then [] else [e] + Kept(rest, room - 1)
    ensures Tally(drops, Fulls(Surplus([e] + rest, room))) ==
            if room == 0 then Tally(Bump(drops, QUEUE_FULL), Fulls(Surplus(rest, 0)))
            else Tally(drops, Fulls(Surplus(rest, room - 1)))
  {
    if room == 0 {
      TallyFront(drops, QUEUE_FULL, Fulls(|rest|));
      assert Fulls(|rest| + 1) == [QUEUE_FULL] + Fulls(|rest|);
    }
    hide Tally, Bump;
  }

  // Reading the oldest event of the ring buffer and offering it to the queue.
  lemma ReadAndOffer(cfg: Config, s: State)
    requires Reading(s) && s.ring != []
    ensures Enabled(cfg, s, Read) && Enabled(cfg, Apply(cfg, s, Read), Action.Offer)
    ensures var t := Apply(cfg, Apply(cfg, s, Read), Action.Offer);
            && Reading(t) && t.ring == s.ring[1..] && t.workerHand == s.workerHand && t.workerDone == s.workerDone
            && t.ioctlTotal == s.ioctlTotal && t.pod == s.pod && t.now == s.now
            && t.queue == (if |s.queue| < cfg.queueSize then s.queue + [s.ring[0]] else s.queue)
            && t.dropped == (if |s.queue| < cfg.queueSize then s.dropped else Bump(s.dropped, QUEUE_FULL))
  {
    hide Bump;
  }

  // What the reader loop leaves for the worker.
  ghost predicate Handed(cfg: Config, s: State, t: State) {
    var events, room := EventsOf(s.ring), cfg.queueSize - |s.queue|;
    && room >= 0
    && EventsOf(t.queue) == EventsOf(s.queue) + Kept(events, room)
    && t.dropped == Tally(s.dropped, Fulls(Surplus(events, room)))
    && t.queueClosed && t.ring == [] && t.workerHand == s.workerHand && t.workerDone == s.workerDone
    && t.ioctlTotal == s.ioctlTotal && t.pod == s.pod && t.now == s.now
  }

  lemma HandedAfterOne(cfg: Config, s: State, u: State, t: State)
    requires s.ring != [] && |s.queue| <= cfg.queueSize && u.ring == s.ring[1..] && Handed(cfg, u, t)
    requires u.queue == if |s.queue| < cfg.queueSize then s.queue + [s.ring[0]] else s.queue
    requires u.dropped == if |s.queue| < cfg.queueSize then s.dropped else Bump(s.dropped, QUEUE_FULL)
    requires u.workerHand == s.workerHand && u.workerDone == s.workerDone
    requires u.ioctlTotal == s.ioctlTotal && u.pod == s.pod && u.now == s.now
    ensures Handed(cfg, s, t)
  {
    hide EventsOf, Kept, Surplus, Fulls, Tally, Bump;
    EventsSplit(s.ring);
    EventsAppend(s.queue, s.ring[0]);
    OneMoreRead(EventsOf(s.queue), s.ring[0].event, EventsOf(u.ring), cfg.queueSize - |s.queue|, s.dropped);
  }

  // Reading e and then rest is reading all of them.
  lemma {:induction false} OneMoreRead(before: seq<Event>, e: Event, rest: seq<Event>, room: nat,
                                       drops: map<string, nat>)
    ensures before + Kept([e] + rest, room)
         == if room == 0 then before + Kept(rest, 0) else before + [e] + Kept(rest, room - 1)
    ensures Tally(drops, Fulls(Surplus([e] + rest, room))) ==
            if room == 0 then Tally(Bump(drops, QUEUE_FULL), Fulls(Surplus(rest, 0)))
            else Tally(drops, Fulls(Surplus(rest, room - 1)))
  {
    hide Kept, Surplus, Fulls, Tally, Bump;
    SeeFirst(e, rest, room, drops);
    if room == 0 {
      KeptNothing(rest);
    } else {
      var kept := Kept(rest, room - 1);
      assert before + [e] + kept == before + ([e] + kept);
    }
  }

  lemma KeptNothing(events: seq<Event>)
    ensures Kept(events, 0) == []
  {
  }

  lemma EventsSplit(items: seq<Item>)
    requires items != []
    ensures EventsOf(items) == [items[0].event] + EventsOf(items[1..])
  {
  }

  lemma EventsAppend(items: seq<Item>, x: Item)
    ensures EventsOf(items + [x]) == EventsOf(items) + [x.event]
  {
  }

  lemma {:induction false} HandedAtOnce(cfg: Config, s: State)
    requires Reading(s) && s.ring == [] && |s.queue| <= cfg.queueSize
    ensures ValidRun(cfg, s, [CloseReader, ReadClosed, CloseQueue])
    ensures Handed(cfg, s, Run(cfg, s, [CloseReader, ReadClosed, CloseQueue]))
  {
    var t := s.(readerClosed := true, readerDone := true);
    var end := t.(queueClosed := true);
    NothingSeen(cfg.queueSize - |s.queue|, s.dropped);
    assert ValidRun(cfg, end, []) && Run(cfg, end, []) == end;
    var last := [CloseQueue];
    assert last[1..] == [] && ValidRun(cfg, t, last) && Run(cfg, t, last) == end;
    RunTwo(cfg, s, CloseReader, ReadClosed, last);
    assert [CloseReader, ReadClosed] + last == [CloseReader, ReadClosed, CloseQueue];
    assert EventsOf(s.queue) + [] == EventsOf(s.queue) && EventsOf(s.ring) == [];
  }

  // When the ring buffer holds the events that will be read, the reader loop is a run of
  // the step machine, with the queue and the counters that ReadLoop ends with.
  lemma {:induction false} ReadLoopIsARun(cfg: Config, s: State, results: seq<ReadResult>)
    requires Reading(s) && EventsOf(s.ring) == ReadEvents(results) && |s.queue| <= cfg.queueSize
    ensures ValidRun(cfg, s, ReaderRun(results)) && Handed(cfg, s, Run(cfg, s, ReaderRun(results)))
    decreases |results|
  {
    hide Handed, Apply, Enabled, Reading;
    if results == [] || results[0].Closed? {
      assert |s.ring| == |EventsOf(s.ring)| == 0;
      HandedAtOnce(cfg, s);
    } else if results[0].Record? {
      assert |s.ring| == |EventsOf(s.ring)| && EventsOf(s.ring[1..]) == EventsOf(s.ring)[1..];
      ReadAndOffer(cfg, s);
      var u := Apply(cfg, Apply(cfg, s, Read), Action.Offer);
      assert ReadEvents(results)[1..] == ReadEvents(results[1..]);
      ReadLoopIsARun(cfg, u, results[1..]);
      RunTwo(cfg, s, Read, Action.Offer, ReaderRun(results[1..]));
      HandedAfterOne(cfg, s, u, Run(cfg, u, ReaderRun(results[1..])));
    } else {
      ReadLoopIsARun(cfg, s, results[1..]);
      FailedRead(cfg, s, ReaderRun(results[1..]));
    }
  }

  lemma {:induction false} FailedRead(cfg: Config, s: State, rest: seq<Action>)
    requires Reading(s) && ValidRun(cfg, s, rest)
    ensures ValidRun(cfg, s, [ReadFails] + rest) && Run(cfg, s, [ReadFails] + rest) == Run(cfg, s, rest)
  {
    var all := [ReadFails] + rest;
    assert all[1..] == rest && Enabled(cfg, s, ReadFails) && Apply(cfg, s, ReadFails) == s;
    hide Apply, Enabled;
  }

  lemma {:induction false} WorkFront(cfg: Config, t: Totals, e: Event, env: P.Env, events: seq<Event>, envs: seq<P.Env>)
    requires |envs| == |events|
    ensures Work(cfg, t, [e] + events, [env] + envs) == Work(cfg, WorkOne(cfg, t, e, env), events, envs)
  {
    hide WorkOne;
    var all, alls := [e] + events, [env] + envs;
    if events == [] {
      assert all[..0] == [] && alls[..0] == [] && Work(cfg, t, [], []) == t;
    } else {
      var n := |events| - 1;
      WorkFront(cfg, t, e, env, events[..n], envs[..n]);
      assert all[..n + 1] == [e] + events[..n] && alls[..n + 1] == [env] + envs[..n];
    }
  }

  lemma TakeAndHandle(cfg: Config, s: State, env: P.Env)
    requires WorkerIdle(s) && s.queue != [] && P.ValidEnv(cfg.pod, env) && s.now <= env.start
    ensures Enabled(cfg, s, Take) && Enabled(cfg, Apply(cfg, s, Take), Handle(env))
    ensures var t := Apply(cfg, Apply(cfg, s, Take), Handle(env));
            && WorkerIdle(t) && t.queue == s.queue[1..] && t.queueClosed == s.queueClosed && t.now == env.answered
            && TotalsOf(t) == WorkOne(cfg, TotalsOf(s), s.queue[0].event, env)
  {
    hide P.ValidEnv, Attribute, Bump;
  }

  // On a closed queue the worker loop is a run of the step machine, with the counters
  // and the resolver that Drain ends with.
  lemma {:induction false} DrainIsARun(cfg: Config, s: State, envs: seq<P.Env>)
    requires WorkerIdle(s) && s.queueClosed && |envs| == |s.queue| && Follow(cfg, envs, s.now)
    ensures ValidRun(cfg, s, WorkerRun(envs))
    ensures var t := Run(cfg, s, WorkerRun(envs));
            t.workerDone && t.queue == [] && TotalsOf(t) == Work(cfg, TotalsOf(s), EventsOf(s.queue), envs)
    decreases |envs|
  {
    hide Apply, Enabled, WorkerIdle, WorkOne, TotalsOf, EventsOf, Run, ValidRun;
    if envs == [] {
      DrainedAtOnce(cfg, s);
    } else {
      var env, rest := envs[0], envs[1..];
      TakeAndHandle(cfg, s, env);
      var t := Apply(cfg, Apply(cfg, s, Take), Handle(env));
      DrainIsARun(cfg, t, rest);
      RunTwo(cfg, s, Take, Handle(env), WorkerRun(rest));
      EventsSplit(s.queue);
      EventsCount(t.queue);
      WorkFront(cfg, TotalsOf(s), s.queue[0].event, env, EventsOf(t.queue), rest);
      assert envs == [env] + rest;
      hide Work;
    }
  }

  lemma EventsCount(items: seq<Item>)
    ensures |EventsOf(items)| == |items|
  {
  }

  lemma {:induction false} DrainedAtOnce(cfg: Config, s: State)
    requires WorkerIdle(s) && s.queueClosed && s.queue == []
    ensures ValidRun(cfg, s, WorkerRun([]))
    ensures var t := Run(cfg, s, WorkerRun([]));
            t.workerDone && t.queue == [] && TotalsOf(t) == Work(cfg, TotalsOf(s), EventsOf(s.queue), [])
  {
    var end := s.(workerDone := true);
    assert Enabled(cfg, s, WorkerExit) && Apply(cfg, s, WorkerExit) == end && EventsOf(s.queue) == [];
    assert [WorkerExit][1..] == [] && ValidRun(cfg, end, []) && Run(cfg, end, []) == end;
    hide Apply, Enabled;
  }

  // Both together, from reading to the end of the worker.
  lemma LoopsAreARun(cfg: Config, s: State, results: seq<ReadResult>, envs: seq<P.Env>)
    requires Reading(s) && WorkerIdle(s) && EventsOf(s.ring) == ReadEvents(results) && |s.queue| <= cfg.queueSize
    requires |envs| == |s.queue| + |Kept(ReadEvents(results), cfg.queueSize - |s.queue|)|
    requires Follow(cfg, envs, s.now)
    ensures ValidRun(cfg, s, ReaderRun(results) + WorkerRun(envs))
    ensures var t := Run(cfg, s, ReaderRun(results) + WorkerRun(envs));
            var events, room := ReadEvents(results), cfg.queueSize - |s.queue|;
            && t.workerDone && t.queue == []
            && TotalsOf(t) == Work(cfg, TotalsOf(s).(dropped := Tally(s.dropped, Fulls(Surplus(events, room)))),
                                   EventsOf(s.queue) + Kept(events, room), envs)
  {
    hide ReaderRun, WorkerRun, Run, ValidRun, Tally, Kept, Surplus, Fulls, Work;
    ReadLoopIsARun(cfg, s, results);
    var u := Run(cfg, s, ReaderRun(results));
    assert |u.queue| == |EventsOf(u.queue)|;
    DrainIsARun(cfg, u, envs);
    RunConcat(cfg, s, ReaderRun(results), WorkerRun(envs));
  }

  class Agent {
    const cfg: Config
    const collector: Collector
    const podMap: P.PodMap
    var queue: seq<Event>
    var closed: bool

    constructor (cfg: Config, collector: Collector, podMap: P.PodMap)
      ensures this.cfg == cfg && this.collector == collector && this.podMap == podMap
      ensures queue == [] && !closed
    {
      this.cfg, this.collector, this.podMap := cfg, collector, podMap;
      queue, closed := [], false;
    }

    function View(): Totals
      reads collector, podMap, podMap.index
    {
      Totals(collector.ioctlTotal, collector.eventsDroppedTotal, podMap.View())
    }

    // The select of the reader loop.
    method Offer(event: Event)
      requires !closed
      modifies this`queue, collector`eventsDroppedTotal
      ensures if |old(queue)| < cfg.queueSize then
                queue == old(queue) + [event] && collector.eventsDroppedTotal == old(collector.eventsDroppedTotal)
              else
                queue == old(queue)
                && collector.eventsDroppedTotal == Bump(old(collector.eventsDroppedTotal), "queue_full")
    {
      if |queue| < cfg.queueSize {
        queue := queue + [event];
      } else {
        collector.IncEventsDropped(QUEUE_FULL);
      }
    }

    // The reader loop while the worker is not scheduled: the queue takes what it has room
    // for, in order, and every event after that is counted as queue_full.
    method ReadLoop(results: seq<ReadResult>)
      requires !closed && |queue| <= cfg.queueSize
      modifies this, collector`eventsDroppedTotal
      ensures var events, room := ReadEvents(results), cfg.queueSize - |old(queue)|;
              && queue == old(queue) + Kept(events, room)
              && collector.eventsDroppedTotal
                 == Tally(old(collector.eventsDroppedTotal), Fulls(Surplus(events, room)))
      ensures closed
    {
      hide Kept, Surplus, Fulls, Tally, Bump, ReadEvents, Seen;
      ghost var events, room := ReadEvents(results), cfg.queueSize - |queue|;
      ghost var start, drops := queue, collector.eventsDroppedTotal;
      ghost var seen: seq<Event> := [];
      NothingSeen(room, drops);
      SeenNothing(results);
      var i := 0;
      while i < |results| && !results[i].Closed?
        invariant 0 <= i <= |results| && !closed
        invariant Seen(results, i, seen)
        invariant queue == start + Kept(seen, room)
        invariant collector.eventsDroppedTotal == Tally(drops, Fulls(Surplus(seen, room)))
      {
        var read := results[i];
        SeenStep(results, i, seen);
        if read.Record? {
          SeeOne(seen, room, read.event, drops);
          ghost var kept := Kept(seen, room);
          assert (start + kept) + [read.event] == start + (kept + [read.event]);
          Offer(read.event);
          seen := seen + [read.event];
        }
        i := i + 1;
      }
      SeenAll(results, i, seen);
      closed := true;
    }

    // The body of the worker loop.
    method HandleEvent(event: Event, env: P.Env)
      requires podMap.Cfg() == cfg.pod
      modifies collector`ioctlTotal, collector`eventsDroppedTotal, podMap, podMap.index
      ensures View() == WorkOne(cfg, old(View()), event, env)
    {
      var key := DeviceKey(event.major, event.minor);
      if key !in cfg.tables.meta {
        collector.IncEventsDropped(DEVICE_UNKNOWN);
        return;
      }
      var device := cfg.tables.meta[key];
      var cI := podMap.ContainerInfo(event.cgroupID, env, cfg.cri);
      if cI.Err? && Is(cI.error, NotPod) {
        collector.IncEventsDropped(NOT_POD);
        return;
      }
      if cI.Err? && Is(cI.error, NotIndexed) {
        collector.IncEventsDropped(NOT_INDEXED);
        return;
      }
      if cI.Err? && Is(cI.error, ContainerNotFound) {
        collector.IncEventsDropped(CONTAINER_NOT_FOUND);
        return;
      }
      if cI.Err? {
        return;
      }
      collector.IncIoctl(cI.value.namespace, cI.value.podName, cI.value.containerName,
                         device.pciAddress, device.vendor, KindString(event.kind));
    }

    // The worker loop on a closed queue: it ends with the queue empty and every event
    // handled in order.
    method Drain(envs: seq<P.Env>)
      requires closed && |envs| == |queue| && podMap.Cfg() == cfg.pod
      modifies this`queue, collector`ioctlTotal, collector`eventsDroppedTotal, podMap, podMap.index
      ensures queue == []
      ensures View() == Work(cfg, old(View()), old(queue), envs)
    {
      ghost var all := queue;
      ghost var before := View();
      var i := 0;
      while queue != []
        invariant 0 <= i <= |all| && queue == all[i..]
        invariant View() == Work(cfg, before, all[..i], envs[..i])
        decreases |queue|
      {
        var event := queue[0];
        queue := queue[1..];
        assert all[..i + 1][..i] == all[..i] && envs[..i + 1][..i] == envs[..i];
        HandleEvent(event, envs[i]);
        i := i + 1;
      }
      assert all[..i] == all && envs[..i] == envs;
    }

    // main from the first event to the end of the worker, if the worker starts late: the
    // fields end as those of a state that the step machine reaches.
    method ReadThenDrain(results: seq<ReadResult>, envs: seq<P.Env>, ghost s: State)
      requires !closed && podMap.Cfg() == cfg.pod
      requires queue == EventsOf(s.queue) && View() == TotalsOf(s) && |queue| <= cfg.queueSize
      requires Reading(s) && WorkerIdle(s) && EventsOf(s.ring) == ReadEvents(results)
      requires |envs| == |queue| + |Kept(ReadEvents(results), cfg.queueSize - |queue|)| && Follow(cfg, envs, s.now)
      modifies this, collector`ioctlTotal, collector`eventsDroppedTotal, podMap, podMap.index
      ensures ValidRun(cfg, s, ReaderRun(results) + WorkerRun(envs))
      ensures var t := Run(cfg, s, ReaderRun(results) + WorkerRun(envs));
              View() == TotalsOf(t) && queue == EventsOf(t.queue) == [] && closed && t.workerDone
    {
      hide Kept, Surplus, Fulls, Tally, Work, ReaderRun, WorkerRun, Run, ValidRun, ReadEvents, Follow;
      LoopsAreARun(cfg, s, results, envs);
      ReadLoop(results);
      Drain(envs);
    }
  }
}

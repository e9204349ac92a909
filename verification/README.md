# KubeNPU: a verified model of the counting pipeline

KubeNPU counts accelerator ioctls per Kubernetes container. An eBPF program filters the calls of
registered devices through two kernel tables and puts each one into a bounded ring buffer; a reader
moves events to a bounded queue; one worker attributes each event to a pod through a cache over an
index of the cgroup tree, asks the container runtime, and bumps a counter that Prometheus scrapes.

This project models that path from device discovery to the exported number and proves what it keeps.

| file | what it holds |
|---|---|
| `GoStrings`, `Errors`, `Wrappers` | the Go library functions the agent relies on, error wrapping, `Option`/`Result` |
| `Uevent`, `Discovery` | the uevent parser; grouping device nodes by PCI address |
| `Registry`, `Kernel`, `MapUnion`, `Setup`, `Vendors` | the vendor registry, the kernel's two-level lookup, the tables that registration compiles, and the shipped vendors |
| `Loader`, `Counters`, `Metrics` | the loader object, 64-bit counters, the collector and its scrape |
| `CgroupPath`, `CgroupDrivers`, `CgroupIndex` | the path parser, the two kubelet layouts it inverts, the inode index |
| `Cri`, `PodMap` | the classification of runtime replies; the caching resolver |
| `Pipeline`, `Guarantees`, `Attribution`, `AgentLoops` | the whole agent as a step machine with an inductive invariant; what holds in every reachable state; what the labels mean; the loops of `main` |
| `Limits` | concrete inputs and runs on which a documented promise does not hold |

Objects that the program updates in place are classes (`PodMap`, `Index`, `Collector`, `Loader`,
`VendorRegistry`, `DeviceRecord`, `Agent`), each method proved against a function of the old state;
the theorems are then about those functions. The interleavings of kernel, reader, worker, signal
handler and scrape are the actions of `Pipeline`.

Lemmas that mention recursive functions switch Dafny's automatic induction off: every induction is
written out.

## Where the code and its documentation differ

The model follows the code. Four promises hold only under a condition, which is proved exact.

- "A pod created after startup is picked up within one event" (README.md:39-40). Rebuilds are rate
  limited, so the first event of a new pod is dropped if and only if its rebuild check comes within an
  interval of the startup (`PodMap.NewPodMissedExactlyWhen`; a pod, a tree and a call for which this
  happens in `Limits.PickedUpWithinOneEventFails`). In any state a call misses exactly when
  `PodMap.MissedExactlyWhen` says; a cgroup is found by any call that starts an interval after it
  appeared (`PodMap.FreshAfterInterval`, `PodMap.SecondCallFinds`).
- "Counts are exact" (README.md:57). An event whose resolution fails without a sentinel error is only
  logged (cmd/agent/main.go:229-232) and leaves every counter at rest (`Limits.LoggedEventsVanish`),
  for instance every event of a pod whose slices carry a prefix before `kubepods`
  (`Limits.PrefixedSlicesAreOnlyLogged`; the shipped agent, a GPU, a cgroup tree and a run for which
  this happens in `Limits.CountsAreExactFails`). The counts are exact if and only if no such event was handled
  (`Attribution.CountsExactIff`). Counters wrap at 2^64, and a scrape converts them to doubles, which
  is exact if and only if the count is a multiple of the spacing of doubles at its size
  (`Metrics.ExportedExactly`, first failure in `Metrics.FirstInexactCount`).
- The systemd driver is supported (README.md:171-172). Its escaping maps both `-` and `_` of a UID to
  `_`, so a UID comes back unchanged if and only if it has no `_` (`CgroupDrivers.SystemdRoundTrip`).
  Kubernetes UIDs have none.
- Vendor ids are looked up by name (pkg/hw/registry.go:26-34) and nothing enforces distinct names.
  Registration preserves the meaning of the vendors' tables if and only if devices under one vendor
  name have ioctl tables that agree about the numbers a command can carry, those below 256
  (`Setup.SetupPreservesMeaningIff`, failing input in `Limits.SharedNamesMixTables`).

One branch is dead: the walk's callback swallows every error (pkg/podmap/cgroup.go:61-64), so building
the map never fails and `ContainerInfo` never returns its rebuild error
(pkg/podmap/podmap.go:84-86). `BuildCgroupInodeMap` therefore has no error result.

## Model

| member | source | states |
|---|---|---|
| Guarantees.Conservation | cmd/agent/main.go:196-265 | in every state that any interleaving reaches, the ioctls that passed both kernel lookups are those counted for a container, counted as dropped, lost and counted per CPU, under way, or only logged; exact below 2^64, modulo 2^64 for ever |
| Attribution.CountsExactIff | README.md:57 | below 2^64 the metrics plus what is under way account for every accepted ioctl if and only if no handled event met a failure without a sentinel |
| Guarantees.ScrapeIsBracketed | pkg/metrics/metrics.go:108-156 | a scrape that reads the collector in one state and the kernel counters in any later one shows no more than was accepted by the end and no less than was accepted at the start, but for what was then under way or logged |
| Guarantees.AfterTheWorker | cmd/agent/main.go:264-265 | once the worker is done, both hands and the queue are empty; only the ring buffer may hold events |
| Guarantees.WorkerSeesSubsequence | cmd/agent/main.go:203-262 | the worker handles an order-preserving, duplicate-free subsequence of what the kernel submitted, each event unchanged |
| Guarantees.EveryEventHasOneFate | cmd/agent/main.go:257-261 | every submitted event is either in the flow (ring, hands, queue, handled) or was turned away by the full queue, never both, never neither |
| Guarantees.QueueFullMeansFull | cmd/agent/main.go:257-261 | in a state that satisfies the invariant, `queue_full` moves only when the reader offers an event to a queue at exactly its capacity |
| Guarantees.NothingSentAfterClose | cmd/agent/main.go:247-264 | after `close(queue)` nothing can be read, offered or closed again |
| Guarantees.DrainIsBounded | cmd/agent/main.go:203-265 | after `close(queue)` the worker takes exactly as many steps as a measure of the queue and its hand says, whatever the others do, and is done exactly when it has taken them |
| Guarantees.WorkerNeverStuck | cmd/agent/main.go:200-243 | until it is done after `close(queue)`, the worker has an enabled step |
| Guarantees.ShutdownIsBounded | cmd/agent/main.go:178-265 | from the moment the ring buffer reader is closed, reader loop, end of main and worker together take at most twice the queue's capacity and seven more steps, however many ioctls arrive meanwhile, and the worker is done exactly when none is left |
| Guarantees.ShutdownNeverStuck | cmd/agent/main.go:247-265 | until the worker is done one of them has an enabled step |
| Guarantees.WorkerReasons | cmd/agent/main.go:203-227 | the worker never files an event under `queue_full` or `ringbuf_full`, and under `device_unknown` only if its device map lacks the number |
| Pipeline.StepKeepsInv | cmd/agent/main.go:178-265 | each atomic step keeps the invariant: order, conservation, tallies, capacity and shutdown stages, kernel filtering, resolver invariant |
| Pipeline.RunKeepsInv | cmd/agent/main.go:178-265 | so does every run |
| Pipeline.InitInv | cmd/agent/main.go:196-200 | the initial state satisfies it |
| Pipeline.FlowStep | cmd/agent/main.go:203-262 | the sequence of events in flight changes only by appending a submitted event or removing the one that meets a full queue |
| Pipeline.HistoriesStep | bpf/drm_common.bpf.c:66-85 | an accepted ioctl is either submitted, as the filter built it, or lost; an event leaves for the full queue only when it meets a full queue; nothing but the worker touches the resolver |
| Pipeline.FilteredStep | bpf/drm_common.bpf.c:53-64 | whatever is submitted has a number in the device table and the kind of the table entry for its command |
| Pipeline.StagedStep | cmd/agent/main.go:247-265 | the queue never exceeds its capacity; the reader stops before the queue closes and the worker stops after it, with nothing left |
| Pipeline.TalliedHandle | cmd/agent/main.go:203-242 | handling an event keeps the counters equal to the tallies of the history, whichever outcome it has |
| Pipeline.LoseCounted | bpf/drm_common.bpf.c:67-73 | per-CPU drop cells count the losses on their CPU, and their sum counts all losses, modulo 2^64 |
| Attribution.WorkerFollowsVerdict | cmd/agent/main.go:213-242 | an event of a device that is not in the device map is dropped as `device_unknown` without asking the resolver; any other is filed under exactly one outcome, the one that the cgroup path and the runtime's reply call for, so the order of the tests is irrelevant |
| Attribution.DeviceUnknownStaysZero | cmd/agent/main.go:204-211 | with registered tables `device_unknown` is zero in every reachable state |
| Attribution.DropCounter | pkg/metrics/metrics.go:187-192 | each drop counter is the number of handled events filed under its reason, plus for `queue_full` the number turned away, modulo 2^64 |
| Attribution.RingbufFullIsTheKernels | pkg/metrics/metrics.go:126-145 | no userspace counter is ever called `ringbuf_full`, so a scrape never emits that series twice |
| Attribution.LabelsAreExact | pkg/metrics/metrics.go:172-185 | at all times the counter of a label is the number of handled events attributed to it |
| Attribution.CountersOnlyGrow | pkg/metrics/metrics.go:172-185 | a step leaves the ioctl counters alone or bumps one, so short of wrap-around none goes down |
| Attribution.CountsAreAttributed | cmd/agent/main.go:203-242 | whatever the interleaving, a counted event is counted for the discovered device with its number, that device's first matching vendor, the name of the kind that vendor's table gives its command, and the namespace, pod and container in the labels of a reply that the runtime gave for its cgroup within cacheTTL + criTimeout |
| Attribution.KindIsNeverUnknown | pkg/hw/kind.go:16-26 | if every table entry has a named kind, no event is counted under `unknown` |
| Vendors.ShippedVendorsQualify | pkg/hw/ivpu/ioctls.go:9-18 | the two shipped vendors have distinct names, match disjoint devices and use named kinds only |
| Vendors.RegistrationFailsOnlyOnDevices | bpf/drm_common.bpf.c:10-30 | with them, registration fails exactly when the devices have more than 32 numbers |
| Vendors.ShippedAgentKnowsItsDevices | cmd/agent/main.go:204-211 | with the shipped vendors `device_unknown` is zero in every reachable state, whatever the devices |
| Vendors.ShippedAgentAttributes | cmd/agent/main.go:88-242 | end to end for the shipped vendors on whatever discovery finds, if no number was found twice: every counted event is rightly attributed, under a named kind |
| Vendors.ShippedMeaning | pkg/hw/i915/ioctls.go:9-15 | for every driver and command number, vendor and kind are those of the literal table: i915 with 0x69, 0x5b, 0x6c, and intel_vpu with 0x4d, 0x45, 0x42, 0x46 |
| Vendors.ShippedAgentObserves | bpf/drm_common.bpf.c:45-85 | the kernel submits an event for an ioctl on a discovered device if and only if that table has an entry for its driver and the low byte of its command |
| Vendors.ShippedAgentCounts | cmd/agent/main.go:203-242 | every counted event is counted for the address of the device with its number, under the vendor and kind text that the table gives for that device's driver and the low byte of the command |
| AgentLoops.Agent.Offer | cmd/agent/main.go:257-261 | the event is queued if there is room, otherwise `queue_full` is bumped and the queue is unchanged |
| AgentLoops.Agent.ReadLoop | cmd/agent/main.go:247-264 | with the worker not scheduled: the queue receives the longest prefix of the events read that fits, every later one bumps `queue_full`, failed reads are skipped, and the queue is closed |
| AgentLoops.ReadLoopIsARun | cmd/agent/main.go:247-264 | with the events to be read in the ring buffer, this loop is a run of the step machine that ends with the same queue and counters |
| AgentLoops.DrainIsARun | cmd/agent/main.go:200-243 | on a closed queue the worker loop is a run of the step machine that ends with the same counters and resolver |
| AgentLoops.LoopsAreARun | cmd/agent/main.go:247-265 | both together, from the first read to the end of the worker, are one run |
| AgentLoops.Agent.ReadThenDrain | cmd/agent/main.go:200-265 | reading until the close and then draining leaves the fields of the objects as in a state that the step machine reaches |
| AgentLoops.Agent.HandleEvent | cmd/agent/main.go:203-242 | one turn of the worker does to collector and resolver what the step machine's attribution says |
| AgentLoops.Agent.Drain | cmd/agent/main.go:200-243 | on a closed queue the worker ends with the queue empty and every event handled once, in order |
| Setup.RegisterDevices | cmd/agent/main.go:88-129 | registration succeeds if and only if the compiled tables fit the kernel maps, and then the kernel maps, the device map and the device facts are the compiled ones, for any iteration order of the ioctl tables |
| Setup.RegisterDevice | cmd/agent/main.go:90-129 | one turn of the outer loop: nothing for a device without a vendor, otherwise its rows are added to all tables |
| Setup.InfoIsExact | cmd/agent/main.go:99-105 | the device facts are exactly those of the devices with a vendor, each fact in its own place |
| Setup.AddNodes | cmd/agent/main.go:107-120 | the node loop writes one row per node to both maps, or fails only when the whole would not fit |
| Setup.AddIoctls | cmd/agent/main.go:122-128 | ranging over the ioctl table in any order enters exactly its rows under the vendor's id, or fails only when the whole would not fit |
| Setup.SetupPreservesMeaning | cmd/agent/main.go:88-129 | with distinct names and disjoint nodes the kernel lookups and the worker's map together give, for every number of every device and every command, exactly the first matching vendor's name and kind, entry present if and only if present |
| Setup.SetupPreservesMeaningIff | pkg/hw/registry.go:26-34 | for disjoint devices, each with a node as discovery lists them, and any ioctl tables, the meaning is preserved everywhere if and only if devices under one vendor name have tables that agree below 256 |
| Setup.StrangersAreIgnored | bpf/drm_common.bpf.c:53-56 | a number that no device owns is observed by nobody |
| Setup.KernelFiltersByMeaning | bpf/drm_common.bpf.c:46-85 | the kernel emits an event for an ioctl on a discovered device if and only if the ioctl means something there, with the kind it means |
| Setup.MetaMatchesKernel | cmd/agent/main.go:107-120 | device map and kernel device table have the same keys, and the kernel's vendor id is that of the worker's vendor name, for any devices and vendors |
| Setup.DeviceOrderIrrelevantIff | pkg/discovery/discovery.go:39-42 | every order of the devices compiles to the same tables if and only if no two devices write different rows under one key |
| Setup.DeviceOrderIrrelevant | pkg/discovery/discovery.go:39-42 | hence with distinct names and disjoint nodes the order of the devices has no influence |
| Setup.VendorOrderIrrelevant | pkg/hw/registry.go:17-24 | with disjoint matches, the vendor of a device does not depend on the order of registration |
| Setup.RegistrationOrderUnobservable | pkg/hw/registry.go:13-34 | permuting the vendors changes ids but no observed (vendor name, kind) |
| Setup.DiscoveredAreDisjoint | pkg/discovery/discovery.go:94-109 | discovery puts no number into two devices unless it found the number twice |
| MapUnion.UnionIsWritten | cmd/agent/main.go:90-129 | a table built by successive writes holds only what some item wrote, and every key any item wrote |
| MapUnion.AnyOrderMeansCompatible | cmd/agent/main.go:90-129 | if the result is the same for every order of the items, no two of them disagree about a key |
| Registry.VendorRegistry.RegisterVendor | pkg/hw/registry.go:13-15 | appends the vendor |
| Registry.VendorRegistry.GetVendor | pkg/hw/registry.go:17-24 | returns the first registered vendor that matches, none if there is none |
| Registry.VendorRegistry.GetVendorID | pkg/hw/registry.go:26-34 | returns one more than the position of the first vendor of that name, or zero |
| Registry.FirstMatch | pkg/hw/registry.go:17-24 | the vendor at the position matches and none before it does |
| Registry.IdOf | pkg/hw/registry.go:26-34 | the vendor at the id has the name and none before it does |
| Registry.IdIsPosition | pkg/hw/registry.go:26-34 | with distinct names the id entered for a vendor's devices is one more than that vendor's own position |
| Kernel.NumberSurvives | bpf/drm_common.bpf.c:47-49 | for every 32-bit device number the split is lossless and the 16-bit major of the event loses nothing |
| Kernel.EventNamesFilteredDevice | bpf/common.h:24-33 | the worker looks up exactly the device the kernel looked up, and the event's kind is the table's |
| Loader.Loader.AddDevice | pkg/loader/loader.go:72-84 | adds or replaces the row unless the key is new and the map holds 32 |
| Loader.Loader.AddIoctl | pkg/loader/loader.go:86-96 | adds or replaces the row unless the key is new and the map holds 640 |
| Loader.Loader.Attach | pkg/loader/loader.go:98-115 | detaches an earlier hook, then holds exactly the new one, or none if the kernel refuses it |
| Loader.Loader.CloseReader | pkg/loader/loader.go:158-171 | closes the ring buffer reader on the first call only, and only if there is one |
| Loader.Loader.Close | pkg/loader/loader.go:173-193 | however often and from wherever both are called, the reader is closed at most once, no hook stays attached and the BPF objects are closed exactly once |
| Loader.Loader.DroppedEvents | pkg/loader/loader.go:195-209 | returns the sum over the CPUs modulo 2^64 |
| Loader.SumUpdate | pkg/loader/loader.go:203-206 | replacing one cell changes the sum by the difference |
| Counters.TallyCounts | pkg/metrics/metrics.go:172-192 | after counting a sequence of keys each counter is the number of its occurrences modulo 2^64, and there is one for every key counted |
| Counters.TallyTotal | pkg/metrics/metrics.go:172-192 | the counters together count everything, exactly below 2^64 |
| Metrics.Collector.IncIoctl | pkg/metrics/metrics.go:172-185 | bumps the counter of exactly this label |
| Metrics.Collector.IncEventsDropped | pkg/metrics/metrics.go:187-192 | bumps the counter of exactly this reason |
| Metrics.Collector.SetDeviceInfo | pkg/metrics/metrics.go:208-219 | adds the facts to the set |
| Metrics.Collector.Collect | pkg/metrics/metrics.go:108-170 | a scrape contains every ioctl counter, every drop counter, the kernel's under `ringbuf_full` if it can be read, the rebuilds, and 1 for every device, each under its own series exactly once, as a double, and nothing else |
| Metrics.NoDropsAre | pkg/metrics/metrics.go:63-67 | a new collector has the five userspace reasons at zero |
| Metrics.ExportedExactly | pkg/metrics/metrics.go:113-116 | a counter is exported exactly if and only if it is a multiple of the spacing of doubles at its size, always up to 2^53 |
| Metrics.UlpIsLeast | pkg/metrics/metrics.go:113-116 | the spacing is a power of two, the least one for which the count needs no more than 53 bits |
| Metrics.Float64IsNearest | pkg/metrics/metrics.go:113-116 | the exported double is a multiple of the spacing with at most 53 bits, no other multiple is nearer to the count, and ties go to the even one |
| Metrics.FirstInexactCount | pkg/metrics/metrics.go:116-116 | 2^53 + 1 is exported as 2^53 |
| PodMap.PodMap.New | pkg/podmap/podmap.go:31-66 | succeeds if and only if the arguments are valid and the runtime answers, with an index of the tree, an empty cache and no rebuild |
| PodMap.PodMap.ContainerInfo | pkg/podmap/podmap.go:68-116 | result and new state (cache, index, rebuild time and counter) are those of the specification step, for every branch |
| PodMap.StepKeepsInv | pkg/podmap/podmap.go:68-116 | a call keeps the invariant: every cache entry is an answer for the container the current index names, given after that index was built and within the timeout, and rebuilds times interval is at most the time passed |
| PodMap.RunKeepsInv | pkg/podmap/podmap.go:68-116 | so does any sequence of calls |
| PodMap.RebuildsAreRateLimited | pkg/podmap/cgroup.go:104-116 | from creation on, rebuilds times interval is at most last rebuild minus creation, and the cache is never larger than the index, whatever the calls |
| PodMap.RebuildsCountReplacements | pkg/podmap/podmap.go:81-96 | the counter moves exactly when the index is replaced, and then no earlier cache entry survives |
| PodMap.RebuildsAreReplacements | pkg/podmap/podmap.go:81-120 | over any run the counter is the number of calls that replaced the index |
| PodMap.CacheWithinIndex | pkg/podmap/podmap.go:94-113 | every cached cgroup is indexed |
| PodMap.SuccessIsFresh | pkg/podmap/podmap.go:68-116 | a success carries the namespace, pod and container labels of a reply of the runtime about the container in the index path of the cgroup, asked after the index was built and less than cacheTTL + criTimeout ago |
| PodMap.AnswersAreKept | pkg/podmap/podmap.go:73-113 | once a call has resolved a cgroup, every call for it that starts less than cacheTTL after the answer returns the same and changes nothing, whatever is called in between and whatever the runtime would say, unless the index is replaced |
| PodMap.CacheIsTransparent | pkg/podmap/podmap.go:73-79 | if the runtime's answers are stable, a call returns what it would with an empty cache |
| PodMap.CachingRefinesResolving | pkg/podmap/podmap.go:68-116 | then a run of any length returns exactly what the resolver without a cache returns |
| PodMap.CachingSparesFailures | pkg/podmap/podmap.go:68-116 | if the runtime may fail now and then but never changes the names it gives, then in a run of any length each cached result is the uncached one or a success where the uncached call fails |
| PodMap.MissedExactlyWhen | pkg/podmap/podmap.go:81-101 | a call reports not indexed if and only if the cgroup is neither cached nor indexed and either no rebuild is due or the walk does not meet it |
| PodMap.FreshAfterInterval | pkg/podmap/podmap.go:81-101 | a cgroup that every walk since t1 meets is found by any call starting an interval or more after t1, whatever was called in between |
| PodMap.SecondCallFinds | README.md:39-40 | of two calls for an existing cgroup an interval apart the second finds it |
| PodMap.NewPodMissedExactlyWhen | README.md:39-40 | for a container cgroup that appeared after startup, the first call on a new resolver reports it as not indexed if and only if its rebuild check comes less than an interval after the startup |
| PodMap.ErrorsClassify | pkg/podmap/podmap.go:68-116 | through all wrapping, a result answers to the one sentinel its cause calls for and to no other; the verdict is total |
| Cri.NamedExactlyWhen | pkg/podmap/cri.go:73-126 | a container gets names exactly when its id is not empty and the runtime's status carries the three kubelet labels with a text, and then each name is that of its own label |
| Errors.IsRoot | pkg/podmap/podmap.go:82-108 | testing a wrapped error against a sentinel is testing the root of its chain |
| CgroupIndex.BuildCgroupInodeMap | pkg/podmap/cgroup.go:58-88 | the map holds the last path visited for each inode of a directory, whatever errors the walk reports |
| CgroupIndex.Index.RebuildCgroupIndex | pkg/podmap/cgroup.go:104-116 | replaces the index by that of the tree if and only if an interval has passed, and changes nothing otherwise |
| CgroupIndex.IndexIsExact | pkg/podmap/cgroup.go:58-88 | the index holds only visited directories and all of them, each inode under the path entered last |
| CgroupIndex.LocatedIsVisited | pkg/podmap/cgroup.go:61-82 | every entry at any depth of the tree is visited, under its path |
| CgroupIndex.BelowContainerResolves | pkg/podmap/cgroup.go:127-134 | after a build from a tree with unique inodes every directory at or below a container's directory, at any depth, resolves to that container |
| CgroupIndex.NotIndexedIffAbsent | pkg/podmap/cgroup.go:118-134 | the not-indexed error means absence from the index and never comes from the parser |
| CgroupPath.ParseCgroupPath | pkg/podmap/cgroup.go:28-56 | the flagged loop computes the first-pod-component reading of the path, with its errors |
| CgroupPath.ParseCharacterised | pkg/podmap/cgroup.go:28-56 | parsing succeeds with given ids if and only if the first component to carry a pod UID, at or after the first one to start with `kubepods`, carries that UID and the component after it carries that container id, both spelled out on the characters |
| CgroupPath.ParseYieldsIDs | pkg/podmap/cgroup.go:136-177 | success implies a non-empty UID and a non-empty container id over the digits 0-9 and a-f |
| CgroupPath.PodPartCharacterised | pkg/podmap/cgroup.go:136-150 | a component carries a UID if and only if it is `pod` and that UID, or a `kubepods-` slice with `-pod` and the escaped UID after the first such mark |
| CgroupPath.ContainerPartCharacterised | pkg/podmap/cgroup.go:152-163 | a component carries an id if and only if it is that lower-case hexadecimal id, alone or behind a dash, with or without `.scope` |
| CgroupPath.HexDigits | pkg/podmap/cgroup.go:165-177 | a text passes the test if and only if it is not empty and all its characters are among 0123456789abcdef |
| CgroupPath.ShortcutIsSound | pkg/podmap/cgroup.go:29-31 | the substring test never rejects a path that the scan accepts, and is the only source of the not-a-pod error, given exactly for paths without `kubepods` anywhere |
| CgroupPath.ParseBelow | pkg/podmap/cgroup.go:28-56 | appending a slash and anything to a path that parses does not change the result |
| CgroupDrivers.SystemdRoundTrip | pkg/podmap/cgroup.go:136-163 | for any root outside kubepods, class, UID, runtime prefix and hexadecimal id, the systemd path gives back the id always and the UID unchanged if and only if it has no underscore |
| CgroupDrivers.CgroupfsRoundTrip | pkg/podmap/cgroup.go:136-163 | the cgroupfs path gives back UID and id |
| CgroupDrivers.LayoutsAre | README.md:171-172 | the directories of the two kubelet drivers for each class, spelled out |
| CgroupDrivers.ContainerTreeResolves | README.md:171-172 | under both drivers, every directory at or below the place where kubelet puts a container resolves to its pod UID and container id through the index |
| GoStrings.JoinSplit | pkg/podmap/cgroup.go:33-33 | splitting a path cuts at every slash and loses nothing |
| Uevent.ReadUevent | pkg/discovery/sysfs.go:29-65 | the scanner loop computes the assignments of all lines, or the error of an unreadable file, an overlong line or a missing driver |
| Uevent.LastAssignmentWins | pkg/discovery/sysfs.go:46-54 | for any file, a key has the value of the last line that assigns to it |
| Uevent.UeventExactly | pkg/discovery/sysfs.go:46-64 | any file is read successfully if and only if all its lines are shorter than 64 KiB and one names a driver, and then each key has the value that the last line about it says |
| Uevent.RawLinesExactly | pkg/discovery/sysfs.go:46-47 | the scanner's lines are the only way to cut the file at its newlines, with a last line that may lack one |
| Uevent.AssignmentExactly | pkg/discovery/sysfs.go:48-53 | a line assigns a value to a key if and only if it is key, the first `=`, and value, with or without a carriage return |
| Uevent.UeventInvertsRender | pkg/discovery/sysfs.go:46-64 | a rendered key=value list is read back, if it names a driver |
| Discovery.Record | pkg/discovery/discovery.go:94-109 | one turn of the loop adds a new device or appends a node to the one known, through the shared record |
| Discovery.DiscoverDevices | pkg/discovery/discovery.go:47-113 | scanning a directory extends the devices by exactly the nodes of its usable entries, grouped by address |
| Discovery.Discover | pkg/discovery/discovery.go:24-45 | fails if and only if a directory exists but cannot be read; otherwise there is one device for every address with a usable entry, with the facts of the first usable entry there and the nodes of all of them, dri before accel, each in the order of its directory |
| Discovery.AcceptExactly | pkg/discovery/discovery.go:53-92 | an entry is taken if and only if it is no directory, is a character device with a number and an address, and has a uevent file that names a driver; driver, PCI id and number are those of the entry |
| Discovery.NodesAreEntries | pkg/discovery/discovery.go:88-109 | a node is listed at an address if and only if it has the number and path of a usable entry with that address |
| Discovery.RenderedIsReadable | pkg/discovery/discovery.go:76-103 | a character device whose uevent file lists assignments with a driver is usable, with that driver and PCI id |
| Discovery.Partition | pkg/discovery/discovery.go:24-45 | the node lists of all devices are together exactly the accepted nodes, as a multiset |
| Discovery.DeviceIsFirstAndOrdered | pkg/discovery/discovery.go:94-109 | a device's nodes are those found at its address, in scan order with dri first, and its facts come from the first of them |
| Limits.LoggedEventsVanish | cmd/agent/main.go:229-232 | for any event that is only logged there is a run after which one ioctl was accepted, nothing is under way and every counter is zero |
| Limits.CountsAreExactFails | README.md:57 | for the shipped agent with one GPU and a container under slices prefixed by the kubelet's cgroup root there is a run that accepts a submission, ends with nothing under way, and shows it in no counter |
| Limits.PickedUpWithinOneEventFails | README.md:39-40 | a pod created after startup, at the path the cgroupfs driver gives it, whose first event is reported as not indexed |
| Limits.PrefixedSlicesAreOnlyLogged | pkg/podmap/cgroup.go:35-55 | events of a cgroup whose path mentions kubepods, but at no start of a component, are only logged |
| Limits.SharedNamesMixTables | pkg/hw/registry.go:26-34 | two vendors of one name and two devices for which some ioctl is not observed as what it means |

## Left out

- Kernel internals: one run of `kubenpu_ioctl` is one atomic step, the ring buffer is a bounded FIFO that may also refuse a reservation while it has room, and preemption between the per-CPU lookup and increment is not modelled.
- Short records (pkg/loader/loader.go:137-143): none can occur, since the kernel only submits whole events, so a failed read leaves the ring buffer as it is. The byte layout, `timestamp`, `tgid` and padding of an event are not modelled; the agent does not use them.
- Device numbers are taken as the kernel's own (major, minor); `unix.Major` and `unix.Minor` are assumed to agree with the kernel's split.
- The cgroup tree, sysfs and the container runtime are parameters: any tree at any walk, any reply to any request at any time within the request timeout. Transport errors other than "not found" are one outcome.
- Clocks are parameters that do not go back; the readings of one call are gathered in a record and ordered as the code takes them.
- Several workers calling the resolver at once: the program starts exactly one, and the index takes no lock. Calls are therefore sequential, and the mutexes of cache and collector appear as atomicity of the steps.
- The cgroup root is taken to be cleaned, as it is in the configuration's default, so joining it with an entry adds one slash.
- Strings are sequences of bytes as far as the parsers look at them; a non-ASCII byte is just not a hexadecimal digit.
- PodMap.PodMap.ContainerInfo: the rebuild counter is unbounded, because by the rate bound it cannot reach 2^64.
- Loader.Loader.CreateReader: requires that no reader was closed yet, as in `main`, which creates the reader before it starts the goroutine that closes it; otherwise the new reader would never be closed.
- AgentLoops.Agent.ReadLoop: states the loop for the schedule in which the worker does not run, which `AgentLoops.ReadLoopIsARun` shows to be one of the runs of `Pipeline`; the theorems about `Pipeline` hold for every schedule.
- Loader.Loader.Attach: requires that nothing was closed yet, as in `main`.
- Registry.VendorRegistry.GetVendorID: positions are unbounded, so the narrowing to 32 bits is not modelled.
- Errors of closing the reader, the hook and the BPF objects: they are reported and change nothing else.
- Configuration defaults, the HTTP server, Prometheus types, signal delivery, kernel feature checks, `kubenpuctl` and deployment files: input and output around the pipeline.
- `Weight` and `DeviceStats` of the vendors: stubs in the repository.

# Verification of wPerf's analyzer, probes and recorder

wPerf explains where the threads of a program wait. A kernel module records context switches, wakeups and softirqs; a
recorder copies the trace buffers to files; a script turns the lines into JSON; the analyzer breaks each thread's time into
RUNNING, RUNNABLE and BLOCKED segments and then *cascades*: the length of every wait is charged to the edge from waiter to
waker, and the waits of the waker during that wait are charged in turn. The result is the wait-for graph.

This project models these parts in Dafny and proves what they compute.

## How it is organised

| files | content |
|---|---|
| `Events`, `TreeMap` | records, 64-bit arithmetic, the ordered map with Put, Floor and Ceiling |
| `SoftIndex`, `SoftMap` | the per-CPU softirq index, as a value and as a class |
| `Breaking`, `Tiling`, `Partition`, `Matching`, `Labels` | first phase: what the segments of a thread are |
| `Tables`, `Cascades`, `Recursion`, `Instants`, `WaitForGraph`, `Redistribution`, `WaitPaths` | second phase: the search, the cascade, when its recursion ends, and what a weight means |
| `TraceFacts`, `Searches`, `Program`, `Meaning`, `OrderIndependence` | the whole program on values: when it panics, what the weights of its graph mean in terms of the trace, what they depend on |
| `Segments`, `Analyzer` | the program as it is: mutable segments in ordered maps, package-level maps, loops; proved to compute the values above |
| `Departures` | smallest inputs on which the analyzer departs from what it sets out to do |
| `Probes`, `ProbeFacts`, `ProbeRecords`, `EndToEnd` | an n-CPU machine with the module's probes; what its records say of it, and that its runs satisfy what the analyzer needs |
| `Recorder` | the asynchronous copy loops and the shutdown protocol |
| `Text`, `Selections`, `PidFilter`, `DiskFilter`, `Encoder`, `EncodedFiles` | filter files and trace lines: printers, parsers, round trips; the probe switches |

Time stamps are `u64`; `addWeight` adds and subtracts modulo 2^64, as Go does. Intervals are half open. Panics, error
returns and writes outside a filter's array are results (`None`, `ok == false`, `Refused`, `Overrun`), not excluded by a
precondition.

## Where the code and its evident purpose differ

The model follows the code. Each point below is part of a theorem.

* `findAllWaitingSegments` builds its list and returns nil (process.go:393). The model has one switch, `cascades`: false is
  the shipped code, true hands the list on. The first phase, the search and the classes do not depend on it; of the second
  phase, `Cascades`, `Instants` and `Redistribution` are for both, `WaitPaths` and `Meaning` are for true up to their last
  sections, which give the weights of the shipped code, and `Program.ShippedMisses` and `ShippedChargesLess` say exactly
  when the two differ.
* `PrevStateMap.Init` overwrites the start of a thread with its exit or the end of the trace (157-171), and the last segment
  is closed from that record instead of the replayed one (311). The first event therefore stores segments under the wrong
  time, which closing replaces or cuts; what remains is the time from the thread's first to its last event, and
  for an exit recorded before the first event possibly more (`Partition.PartitionNoExit`, `PartitionExit`,
  `Departures.CoversTraceIff`).
* `Segments.Ceiling` asserts the type of a nil key when nothing is found (224-227): the search panics exactly when no segment
  from its floor on ends, and none after it starts, at or after the end of the window (`Tables.WalkDiesIff`). `Program.ShippedCompletesIff` reads the panics off
  the trace; `Departures.ParentWaitPanics` is one.
* Closing a thread that exits without ever being switched in or out dereferences nil (`Partition.DiesIff`).
* A softirq that straddles the start of a run gives segments that end before they start (271-283); `Tiling.PiecesPartition`
  is an if-and-only-if, and `EndToEnd.RecordsAreClean` shows that the probes never produce one. Such segments are never waits
  (`TraceFacts.OneUpright`), so the shipped second phase is defined on them, too.
* The handler of HRTIMER_SOFTIRQ has no probe, so a wakeup it sends is not recorded under its number
  (`ProbeFacts.WakeupCarriesHandler`), but under NR_SOFTIRQS, or 0 before the first return from another handler on that CPU
  (`ProbeRecords.NumberOutside`).
* HI_SOFTIRQ is number 0, so a wait it ends carries the same waker as one that thread 0 ends: this is the only confusion of
  senders there is (`Matching.WakerTellsSender`), and it charges the idle thread (`Departures.HiSoftirqBlamesIdle`).
* The graph's keys join two thread names by commas, so two pairs of names share a key exactly if one is the other cut at
  another comma (`WaitForGraphs.KeyTellsNames`, `CommaConfuses`).
* A wakeup without effect is recorded like any other, and ends the wait of a thread that sleeps on (`EndToEnd.SleepIsCharged`).
* Task states are printed signed and loaded unsigned, so an event with a negative one does not load (`Encoder.SwitchRoundTrip`).
* A number written to the pid filter is used as a 32-bit bit index, not compared with the size of the bitmap
  (`PidFilter.TxStats.FilterWrite`).
* The interrupt handler stays armed after it ran (`Recorder.OneKindOfShutdown`), and a short write is never continued
  (`Recorder.CopyIsExactIff`).
* The text "none" of an empty pid filter is refused when written back (`PidFilter.RoundTrip`); as a disk filter it sets a disk
  called "none" (`DiskFilters.EmptyComesBackAsNone`).

## Model

| member | source | states |
|---|---|---|
| TreeMaps.TreeMap.Put | analyzer/src/analyzer/vendor/github.com/emirpasic/gods/maps/treemap/treemap.go:48-50 | replaces on an equal key, keeps the keys sorted and listed once |
| TreeMaps.TreeMap.Floor | analyzer/src/analyzer/vendor/github.com/emirpasic/gods/maps/treemap/treemap.go:117-123 | the largest key not above t and its value; nothing exactly if no key is at or below t |
| TreeMaps.TreeMap.Ceiling | analyzer/src/analyzer/vendor/github.com/emirpasic/gods/maps/treemap/treemap.go:134-140 | the smallest key not below t and its value; nothing exactly if no key is at or above t |
| Tables.WalkDiesIff | analyzer/src/analyzer/lib/process/process.go:375-391 | the search calls Ceiling without a successor, and panics, exactly if no segment from the floor on ends, and none after it starts, at or after the end of the window |
| Tables.WalkIsScan | analyzer/src/analyzer/lib/process/process.go:361-394 | the Floor-then-Ceiling walk finds, in order, exactly the blocked segments overlapping the window, unless and only unless its floor is a blocked segment already over |
| Cascades.FoundIsScan | analyzer/src/analyzer/lib/process/process.go:362-394 | for every window the cascade meets, the exception of WalkIsScan does not arise |
| Cascades.ChildrenNest | analyzer/src/analyzer/lib/process/process.go:333-343 | the windows recursed on are disjoint, in order, nested in the parent's, of positive length, and end strictly before it; the clip of line 339 never changes anything |
| Cascades.NothingAdded | analyzer/src/analyzer/lib/process/process.go:333-343 | at every depth of the recursion the windows together are no longer than those at the top |
| Cascades.ChildAt | analyzer/src/analyzer/lib/process/process.go:328-344 | at each instant of a window there is a child there exactly if the waker is blocked then and its map reaches back to the window's start, and it is the waker's own wait |
| Cascades.ClosedNeverDies | analyzer/src/analyzer/lib/process/process.go:328-344 | no cascade panics if every map waited on has a segment that neither starts nor ends before the wait ends |
| Recursion.EndsIff | analyzer/src/analyzer/lib/process/process.go:327-344 | the recursion from a window ends exactly if no chain of calls comes back to a thread and window it has been at |
| Recursion.AwakeEnds | analyzer/src/analyzer/lib/process/process.go:327-344 | it ends whenever wakers are awake, within as many calls as the wait has instants before its end |
| Instants.CascadeMeaning | analyzer/src/analyzer/lib/process/process.go:328-359 | what one cascade adds to any set of edges equals the sum over the window's instants of how often the wait path at that instant passes those edges |
| Instants.AllEdgesMeaning | analyzer/src/analyzer/lib/process/process.go:335-343 | the same for a list of windows |
| Redistribution.DriverMeaning | analyzer/src/analyzer/main.go:48-53 | the same for the whole second phase over any list of threads |
| Redistribution.GraphMeaning | analyzer/src/analyzer/main.go:48-53 | the weight under each key of the finished graph, modulo 2^64, as that sum over the pairs of threads whose names make the key |
| Redistribution.WaitHopsIs | analyzer/src/analyzer/lib/process/process.go:229-236 | iterating over a thread's segments contributes at each instant only the one wait that holds it, or nothing |
| WaitPaths.WaitsEndEarlier | analyzer/src/analyzer/lib/process/process.go:328-344 | the waker's own wait ends strictly before the wait it ends, so the wait relation at one instant has no cycle |
| WaitPaths.OnceAtMost | analyzer/src/analyzer/lib/process/process.go:328-344 | at one instant a wait path leaves a thread at most once, and only while that thread is blocked |
| WaitPaths.HopsIsReach | analyzer/src/analyzer/lib/process/process.go:328-344 | the clipped windows of the cascade follow exactly the path read off the stored segments |
| WaitPaths.PairWeight | analyzer/src/analyzer/lib/process/process.go:328-394 | on maps that cover the waits, the weight of X to Y is the sum over instants at which X is blocked on Y of the number of listed threads whose wait path reaches X, X included |
| WaitPaths.NamedPairWeight | analyzer/src/analyzer/lib/process/process.go:346-359 | the same, read off the finished graph, under a key that only one pair of threads makes |
| WaitPaths.OutWeightBound | analyzer/src/analyzer/lib/process/process.go:346-359 | all that is charged from X is at most the number of listed threads times the time X is blocked |
| WaitPaths.PathLength | analyzer/src/analyzer/lib/process/process.go:328-344 | a wait path at one instant is no longer than the number of threads whose wait then ends before the first one does, plus one |
| WaitPaths.NoOverflow | analyzer/src/analyzer/lib/process/process.go:354-358 | no weight at all wraps if span times listed threads times traced threads fits in 64 bits |
| WaitPaths.OneWaiterExact | analyzer/src/analyzer/lib/process/process.go:354-358 | a weight whose waits are all of one thread does not wrap if listed threads times the time that thread is blocked fits |
| WaitPaths.ShippedWeight | analyzer/src/analyzer/lib/process/process.go:374-393 | as shipped, the weight of X to Y is the time X is blocked on Y, as often as X is listed |
| WaitPaths.ShippedNamedWeight | analyzer/src/analyzer/lib/process/process.go:346-359 | the same, read off the finished graph modulo 2^64, under a key that only one pair of threads makes |
| Meaning.CoveredIff | analyzer/src/analyzer/lib/process/process.go:369-373 | the maps cover the waits exactly if the trace says so: each listed waker exits or the trace ends no later than the wait starts, or it was first seen by then and had a second event |
| Meaning.LeadsIff | analyzer/src/analyzer/lib/process/process.go:328-344 | following the stored waits from one thread to another at an instant is following the waits the trace tells of |
| Meaning.WeightIsWaitedTime | analyzer/src/analyzer/main.go:44-53 | the meaning of the graph in terms of the trace alone: the weight of X to Y sums, over the instants at which X waits for Y, how many listed threads then wait, directly or through others, for what X waits for |
| Meaning.GraphIsWaitedTime | analyzer/src/analyzer/lib/process/process.go:346-359 | the same, read off the finished graph modulo 2^64, under a key that only one pair of threads makes |
| Meaning.ShippedWeightIsOwnTime | analyzer/src/analyzer/main.go:44-53 | as shipped, the weight of X to Y is the time X waits for Y, read off the trace, as often as X is listed |
| WaitForGraphs.AddAllWeight | analyzer/src/analyzer/lib/process/process.go:346-359 | a key's weight is the total length of the calls filed under it, modulo 2^64 |
| WaitForGraphs.AddAllKeys | analyzer/src/analyzer/lib/process/process.go:346-359 | a key is present exactly if some call with two named threads was filed under it; what named and filed mean, `GraphOfTrace` says from the trace |
| WaitForGraphs.AddWeightIs | analyzer/src/analyzer/lib/process/process.go:346-359 | one call changes nothing if a pid has no recorded name or an empty one; otherwise it adds its length, modulo 2^64, under the waiter's name, a comma, the waker's name and a comma, and under no other key |
| WaitForGraphs.GraphOfTrace | analyzer/src/analyzer/lib/process/process.go:346-359 | a key is in the graph exactly if some call has both its pids named by events of the trace, with first names that are not empty and make the key; its weight is the length of those calls modulo 2^64 |
| WaitForGraphs.UnnamedAddsNothing | analyzer/src/analyzer/lib/process/process.go:196-198 | a wait ended by a context or a thread that no event names as a pid is charged to nobody |
| WaitForGraphs.KeyTellsNames | analyzer/src/analyzer/lib/process/process.go:354 | for all names: two keys are equal exactly if both names are, or one pair is the other cut at another comma |
| WaitForGraphs.KeysTellNames | analyzer/src/analyzer/lib/process/process.go:354 | among any set of names the keys tell all pairs apart exactly if no such cut exists among them |
| WaitForGraphs.CommaConfuses | analyzer/src/analyzer/lib/process/process.go:354 | two different pairs of names, with commas in them, that share a key |
| WaitForGraphs.GraphStore.Add | analyzer/src/analyzer/lib/process/process.go:346-359 | addWeight as it is: nothing if a pid has no recorded name or an empty one, otherwise the length added modulo 2^64 under the key of the two names |
| SoftIndexes.CeilingIsMinimum | analyzer/src/analyzer/lib/events/soft.go:65-75 | the lookup by end time is the minimum over the whole list for that CPU, or nothing exactly if all end earlier |
| SoftIndexes.IndexKeepsLast | analyzer/src/analyzer/lib/events/soft.go:29-37 | of the intervals of one CPU with the same end, the index keeps the last of the list |
| SoftIndexes.CarvingIsComplete | analyzer/src/analyzer/lib/process/process.go:271-286 | with no softirq across the start of the run, and others overlapping as they may, the test of line 280 passes exactly if some softirq of the CPU lies wholly inside the run |
| SoftMaps.SoftMap.Init | analyzer/src/analyzer/lib/events/soft.go:29-37 | fills one tree per CPU, keyed by end, later intervals replacing earlier ones of the same key |
| SoftMaps.SoftMap.GetCeilingSoft | analyzer/src/analyzer/lib/events/soft.go:65-75 | the first softirq of the CPU to end at or after t |
| Tiling.PiecesPartition | analyzer/src/analyzer/lib/process/process.go:271-286 | the segments of a run partition it exactly if no softirq straddles its start |
| Tiling.TabSplits | analyzer/src/analyzer/lib/process/process.go:212-214 | a thread's map is what was there, overlaid by the first event's segments, overlaid by all later ones |
| Tiling.RealTiles | analyzer/src/analyzer/lib/process/process.go:256-308 | the loop invariant: the segments tile the time from the first event to ps.Timestamp, although Put replaces equal keys |
| Partition.PartitionNoExit | analyzer/src/analyzer/lib/process/process.go:256-325 | without an exit the finished segments of positive length cover exactly the time from first to last event, without overlap |
| Partition.PartitionExit | analyzer/src/analyzer/lib/process/process.go:317-320 | with an exit, wherever it lies, they do exactly if no event stores a segment of positive length that starts at the exit and no softirq is cut out between the exit and a later first event |
| Partition.StartsTold | analyzer/src/analyzer/lib/process/process.go:256-308 | a segment of positive length starts at x in the map exactly if some event stores one that starts there: later events take none away |
| Partition.ExitTable | analyzer/src/analyzer/lib/process/process.go:311-325 | the finished map of a thread that exits: what its first event left after the exit, its segments, and the one at the exit cut to nothing |
| Partition.EarlyIs | analyzer/src/analyzer/lib/process/process.go:157-171 | what the first event leaves lies between the exit and that event and is no wait; it is nothing exactly if no softirq is cut out there |
| Partition.DiesIff | analyzer/src/analyzer/lib/process/process.go:317-320 | BreakIntoSegments panics exactly for a thread that exits without ever being switched in or out |
| Partition.BrokenTwice | analyzer/src/analyzer/main.go:44-46 | a thread listed twice is broken again without any effect |
| Matching.MatchingIff | analyzer/src/analyzer/lib/process/process.go:263-306 | blocked segments of positive length are exactly the pairs of a blocking switch-out and the next event touching the thread, a wakeup, with the waker pid or minus the context |
| Matching.MatchingFinished | analyzer/src/analyzer/lib/process/process.go:256-325 | the finished map of any thread holds exactly the waits the trace tells of, with start, end and waker, those of length zero and the one an exit cuts included |
| Matching.PairsDiffer | analyzer/src/analyzer/lib/process/process.go:263-306 | that matching is one to one |
| Matching.WakerTellsSender | analyzer/src/analyzer/lib/process/process.go:301-306 | two wakeups name the same waker exactly if they come from the same thread or the same context, or one from thread 0 and the other from HI_SOFTIRQ |
| Labels.LabelsRefineReplay | analyzer/src/analyzer/lib/process/process.go:121-139 | for any thread, exiting or not, the segment Floor(t) finds is labelled RUNNABLE if t lies in the softirq cut out of the run that holds t, and with the replayed state at t otherwise; only if no event stores a segment that starts between the exit and t does Floor find the exit instead |
| TraceFacts.AwakeWaitsOver | analyzer/src/analyzer/lib/process/process.go:301-302 | at an event at which a thread is awake as far as the trace tells (running, not seen yet, or runnable with an event to come), each of its stored waits that began earlier is over |
| TraceFacts.Finished | analyzer/src/analyzer/lib/process/process.go:311-324 | for a thread that is awake whenever it exits, closing the map adds or cuts one segment that is no known wait and overlaps none |
| TraceFacts.SurvivesIff | analyzer/src/analyzer/main.go:44-46 | the first phase completes exactly if each listed thread that exits was switched in or out |
| TraceFacts.OneUpright | analyzer/src/analyzer/lib/process/process.go:256-325 | whatever the softirqs, every segment of a finished map is filed under its own start and its thread, and none that ends before it starts is a wait |
| TraceFacts.GoodAsShipped | analyzer/src/analyzer/main.go:44-46 | sorted traces give segments filed under their own starts and waits that end no earlier than they start, all the shipped second phase needs |
| TraceFacts.GoodForCascade | analyzer/src/analyzer/main.go:44-46 | if threads are awake when they wake somebody and when they exit, the segments are all the cascade needs to terminate |
| TraceFacts.AliveIsClosed | analyzer/src/analyzer/lib/process/process.go:375-391 | if no listed thread is named as a waker after its exit, every search stays inside the maps |
| Searches.SearchFailsIff | analyzer/src/analyzer/lib/process/process.go:362-394 | the search in the map of a thread runs off exactly if the trace says so: by the exit, the first and last event and the start of the last run |
| Program.ShippedCompletesIff | analyzer/src/analyzer/main.go:31-56 | exactly when the shipped program does not panic, by conditions on the trace alone: no empty trace, every exiting thread switched in or out, and no wait the trace tells of that makes the search fail |
| Program.AliveNoPanic | analyzer/src/analyzer/main.go:31-56 | no panic, with or without line 393, if no listed thread is named as a waker after its exit and exiting threads were seen |
| Program.NoExitNoPanic | analyzer/src/analyzer/main.go:31-56 | no panic on any trace in which no listed thread exits |
| Program.NestedIff | analyzer/src/analyzer/lib/process/process.go:334-343 | a wait cascades exactly if its waker was blocked during it and the waker's map reaches back to its start |
| Program.ShippedMisses | analyzer/src/analyzer/lib/process/process.go:393 | returning nil makes the same calls exactly if no such wait exists, and fewer otherwise |
| Program.ShippedChargesLess | analyzer/src/analyzer/lib/process/process.go:393 | no set of edges is charged more as shipped, and all edges together are charged less exactly if such a wait exists |
| OrderIndependence.SortedOnce | analyzer/src/analyzer/lib/events/switch.go:24-50 | with distinct time stamps there is one sorted order of the events, whatever the sort does |
| OrderIndependence.SameGraph | analyzer/src/analyzer/main.go:48-53 | the order of the thread list shows neither in the graph nor in whether the phase panics |
| OrderIndependence.OrderDoesNotMatter | analyzer/src/analyzer/main.go:44-53 | the whole outcome depends only on the bag of events and the bag of threads |
| OrderIndependence.NoOrderMatters | analyzer/src/analyzer/main.go:31-53 | and only on the bag of softirqs, if no two of a CPU end at the same time |
| Departures.CoversTraceIff | analyzer/src/analyzer/lib/process/process.go:157-171 | the segments reach from the intended start to the end of the trace exactly if the thread's own events do |
| Departures.TailIsMissing | analyzer/src/analyzer/lib/process/process.go:311-324 | a smallest trace on which they do not: an instant before the end of the trace that no segment holds |
| Departures.ExitCutsRun | analyzer/src/analyzer/lib/process/process.go:317-320 | a smallest trace on which an exit falls on the start of a segment and the segments are no partition |
| Departures.ParentWaitPanics | analyzer/src/analyzer/lib/process/process.go:224-227 | a trace of five events, in order and without softirqs, on which the shipped program panics: a parent woken by a child that has reported its exit |
| Departures.MutualSleepNeverEnds | analyzer/src/analyzer/lib/process/process.go:328-344 | without wakers that are awake the recursion need not end: a strictly ordered trace of four events with a wait from which it never does |
| Departures.InnerWaitIsMissed | analyzer/src/analyzer/lib/process/process.go:393 | a trace of six events on which the program completes both ways and charges less as shipped |
| Departures.HiSoftirqBlamesIdle | analyzer/src/analyzer/lib/process/process.go:301-306 | a trace of two events whose graph charges a wait ended by HI_SOFTIRQ to the idle thread |
| SegmentStore.Segments.Put | analyzer/src/analyzer/lib/process/process.go:212-214 | stores a new segment under its start, replacing one with the same start |
| SegmentStore.Segments.Floor | analyzer/src/analyzer/lib/process/process.go:216-222 | the stored segment with the largest start not above t |
| SegmentStore.Segments.Ceiling | analyzer/src/analyzer/lib/process/process.go:224-227 | the stored segment with the smallest start not below t; a panic exactly if there is none |
| SegmentStore.Segments.PutAround | analyzer/src/analyzer/lib/process/process.go:281-283 | the three segments of a run with a softirq in it |
| SegmentStore.Segments.CutFloor | analyzer/src/analyzer/lib/process/process.go:318-320 | the stored segment at or before the exit is shortened in place; not ok exactly if there is none |
| SegmentStore.Segment.Collect | analyzer/src/analyzer/lib/process/process.go:376-381 | only blocked segments are collected, each as a new object, never the stored one |
| SegmentStore.Segments.Advance | analyzer/src/analyzer/lib/process/process.go:383-390 | one round of the search loop, with STime + 1 in wrapping arithmetic |
| SegmentStore.Segments.WalkFrom | analyzer/src/analyzer/lib/process/process.go:374-391 | the loop collects fresh copies of exactly the walk, or panics exactly when the walk runs off |
| SegmentStore.Segments.Waiting | analyzer/src/analyzer/lib/process/process.go:369-391 | the same from the floor of the window; nothing if there is no floor |
| Analyzers.Analyzer.constructor | analyzer/src/analyzer/lib/process/process.go:59-68 | all package-level maps start empty |
| Analyzers.Analyzer.InitSegMap | analyzer/src/analyzer/lib/process/process.go:240-244 | every listed thread gets a new, empty map, also when listed twice |
| Analyzers.Analyzer.InitCommMap | analyzer/src/analyzer/lib/process/process.go:185-194 | the loop computes the names that FirstName describes |
| WaitForGraphs.FirstName | analyzer/src/analyzer/lib/process/process.go:185-194 | a thread's name is the one in the first event naming it, as previous thread if it is both; it has none exactly if no event names it |
| Analyzers.Analyzer.InitPrevStates | analyzer/src/analyzer/lib/process/process.go:145-173 | exit times as recorded last; every listed thread starts unseen at its exit or the end of the trace; an empty trace is an index out of range |
| Analyzers.Analyzer.PutRun | analyzer/src/analyzer/lib/process/process.go:271-286 | stores the pieces of a run |
| Analyzers.Analyzer.StepEvent | analyzer/src/analyzer/lib/process/process.go:260-307 | one event: the segments stored and the next state of the replay |
| Analyzers.Analyzer.Replay | analyzer/src/analyzer/lib/process/process.go:256-308 | the event loop computes the replay |
| Analyzers.Analyzer.CloseLast | analyzer/src/analyzer/lib/process/process.go:310-324 | the last segment, from the record of initialisation; not ok is the nil dereference |
| Analyzers.Analyzer.BreakIntoSegments | analyzer/src/analyzer/lib/process/process.go:256-325 | the thread's map becomes exactly what the first phase computes on values, and fails exactly when that does |
| Analyzers.Analyzer.BreakThread | analyzer/src/analyzer/lib/process/process.go:256-325 | the same, and the maps of all other threads and the softirq index stay as they are |
| Analyzers.Analyzer.FindAllWaitingSegments | analyzer/src/analyzer/lib/process/process.go:362-394 | returns fresh copies of what the search finds, or nothing as shipped; panics exactly when the search runs off |
| Analyzers.Analyzer.ClipTo | analyzer/src/analyzer/lib/process/process.go:336-341 | cuts a copy to the window |
| Analyzers.Analyzer.Cascade | analyzer/src/analyzer/lib/process/process.go:328-344 | terminates, changes nothing but the graph, and adds exactly the calls of the cascade; panics exactly when it should |
| Analyzers.Analyzer.CascadeAll | analyzer/src/analyzer/lib/process/process.go:335-343 | the loop clips and cascades copies only; every stored segment stays |
| Analyzers.Analyzer.CascadeThread | analyzer/src/analyzer/main.go:49-52 | ForEach over one thread, in key order, with the map unchanged while it is iterated over |
| Analyzers.Analyzer.BreakAll | analyzer/src/analyzer/main.go:44-46 | first phase over all listed threads |
| Analyzers.Analyzer.CascadeEverything | analyzer/src/analyzer/main.go:48-53 | second phase over all listed threads; all maps unchanged |
| Analyzers.Analyzer.Prepare | analyzer/src/analyzer/main.go:40-42 | the initialisation calls |
| Analyzers.Analyzer.Run | analyzer/src/analyzer/main.go:31-56 | from the parsed files, the program ends without a panic exactly if the value model does, with the graph whose meaning is proved; as shipped on every sorted trace, with the list handed on on those on which the recursion ends because wakers are awake |
| Probes.PerCpuData.OnHandlerEnt | module/trace_wperf_events.c:130-140 | a handler's entry records its number |
| Probes.PerCpuData.OnHandlerRet | module/trace_wperf_events.c:142-151 | its return records that none runs |
| ProbeFacts.RunsAreSound | module/trace_wperf_events.h:27-47 | in every state of every run: softirqs are disjoint and ordered per CPU, none has a switch or an exit of its CPU inside, time stamps are strictly ordered, runs start and end on one CPU, each wakeup from thread context and each exit names a thread then running |
| ProbeFacts.SoftirqsAreSpans | module/trace_wperf_events.c:279-297 | in every run the softirqs recorded are exactly those entered and left, with the times of entering and leaving |
| ProbeFacts.WakeupCarriesHandler | module/trace_wperf_events.h:90-95 | a wakeup sent inside a handler carries its number exactly if the handler has a probe; for the other contexts see `ProbeRecords.WakeupsOfARun` |
| ProbeRecords.StepTells | module/trace_wperf_events.h:27-47 | a step records at most one event, stamped with its time, naming the CPU and the thread current there: a switch to the thread that runs from then on and puts the previous one to sleep or not as its state says, a wakeup with its target and context, a thread that is new, or an exit |
| ProbeRecords.WakeupsOfARun | module/trace_wperf_events.h:76-96 | in every run a step is a wakeup of p by CPU c, effective or not, exactly if it records one; the record names the thread current on c, HARDIRQ exactly inside a hardware interrupt, PROCESS exactly outside every interrupt and softirq, and in a probed handler that handler's number |
| ProbeRecords.NumberOutside | module/trace_wperf_events.c:142-151 | outside the probed handlers the number of a CPU is that of HI_SOFTIRQ until the first return from a probed handler in the run, and NR_SOFTIRQS ever after |
| ProbeRecords.RecordsName | module/trace_wperf_events.h:81-84 | in every run each record gives both its pids the names of their threads |
| ProbeRecords.NamesOfARun | analyzer/src/analyzer/lib/process/process.go:185-194 | so the names the analyzer takes from the records of a run are the threads' own, and it has one for exactly the threads that some record names |
| ProbeRecords.ContextsAddNothing | analyzer/src/analyzer/lib/process/process.go:346-359 | a wait of a run that a context ended, other than by the number of HI_SOFTIRQ, never reaches the graph |
| EndToEnd.RecordsAreClean | module/trace_wperf_events.c:279-297 | no recorded softirq straddles the start of a run, nor the exit of a thread not seen before |
| EndToEnd.RunsFeedTheAnalyzer | module/trace_wperf_events.h:76-96 | whatever the machine does, exits included, its records satisfy everything the cascade relies on |
| EndToEnd.HopsOfARun | analyzer/src/analyzer/main.go:44-53 | for every run and every list of threads the weights are the sums over instants of the hops of wait paths unless the program panics, and it does not if listed threads that exit were seen and send no wakeup after that |
| EndToEnd.GraphOfARun | analyzer/src/analyzer/main.go:44-53 | for every run and every list of threads, read off the records: with the list handed on and the waits covered, the weight of X to Y is the waited time of `Meaning`; as shipped it is the time X waits for Y, as often as X is listed |
| EndToEnd.PartitionOfARun | analyzer/src/analyzer/lib/process/process.go:256-325 | in every run the segments of a thread that was seen partition the time from its first to its last event exactly if no softirq is cut out between its exit and a later first event |
| EndToEnd.ChargedSleepIsReal | analyzer/src/analyzer/lib/process/process.go:293-307 | throughout every stored wait the thread was asleep in the machine |
| EndToEnd.SleepIsCharged | module/trace_wperf_events.h:76-96 | every sleep that is woken is charged from its start to the first wakeup recorded for the thread, to whom that record names; so it is charged whole, and to the waker that woke the thread, exactly if no wakeup without effect was recorded meanwhile |
| EndToEnd.SleepIsBlamed | module/trace_wperf_events.h:90-95 | the same in terms of the machine alone: a sleep is charged from the step it begins in to the first step that wakes the thread, and to nobody but -HARDIRQ inside a hardware interrupt, the thread running on the sending CPU outside softirqs, minus the number of the probed handler running there, and elsewhere in a softirq -NR_SOFTIRQS, or 0 before the first return from a probed handler |
| Recorder.EventCtx.constructor | recorder/event.c:113-155 | a context starts with its open outstanding and the whole buffer |
| Recorder.EventCtx.CleanupCtx | recorder/event.c:32-37 | closes input and output once each |
| Recorder.EventCtx.OnOpenCb | recorder/event.c:97-111 | a failed open ends the context, otherwise the first read is issued |
| Recorder.EventCtx.OnReadCb | recorder/event.c:69-95 | close, retry, or set the length to what was read and write that much of the buffer |
| Recorder.EventCtx.OnWriteCb | recorder/event.c:49-67 | close on an error, otherwise read with the whole buffer, however short the write |
| Recorder.EventCtx.OnRetryCb | recorder/event.c:39-47 | read again |
| Recorder.StepKeepsSound | recorder/event.c:39-111 | every callback, timer, signal and arriving data keeps: one outstanding request or timer per context, reads of 4096 bytes, writes of the length kept, of which the buffer holds the chunk last read, output an in-order concatenation of chunk prefixes, nothing outstanding after closing, the shutdown protocol |
| Recorder.RunKeepsSound | recorder/event.c:39-111 | the same over every interleaving of n contexts |
| Recorder.WriteIsLastRead | recorder/event.c:86-90 | in every run, while a write is outstanding its length and the length in the context are the result of the last read that brought something, and the buffer starts with what it brought |
| Recorder.FdIsWhatWasOpened | recorder/event.c:97-111 | in every run the input descriptor is what the context's open returned, -1 as long as it did not succeed, and the output is the one set up |
| Recorder.CopyIsExactIff | recorder/event.c:49-67 | output plus the write in flight is what was read exactly if no write was short or failed |
| Recorder.NothingSkipped | recorder/event.c:69-95 | bytes leave the pipe only into chunks, in order |
| Recorder.NothingLost | recorder/event.c:69-95 | over every run, what was read and what is left are what was there and what flowed in, in order |
| Recorder.DrainStep | recorder/event.c:69-95 | after expiry each callback uses up some of remaining bytes and phase |
| Recorder.DrainEnds | recorder/event.c:69-95 | so a context gets at most that many callbacks |
| Recorder.NeverStuck | recorder/event.c:39-111 | some callback is possible exactly as long as something is outstanding |
| Recorder.ClosedIff | recorder/event.c:32-37 | in every run a context that was opened and waits for nothing has had input and output closed once each, and any other context nothing |
| Recorder.DrainedIsClosed | recorder/event.c:69-95 | in every run after expiry with nothing more flowing in, the callbacks of a context are bounded by what it had left; when none is possible any more, an opened context is closed |
| Recorder.WholeTraceArrives | recorder/event.c:39-111 | a recording still open at expiry ends with everything read that ever flowed in, if reads come back empty only from an empty pipe and no write fails; the file holds it exactly if no write was short |
| Recorder.CloseReason | recorder/event.c:69-95 | exactly the steps that close a context; through expiry only a read with result zero or less |
| Recorder.OneKindOfShutdown | recorder/recorder.c:29-47 | expiry and interrupt never both run; the timer runs at most once; an interrupt can come again |
| Text.StripIs | module/trace_wperf_events.c:948 | stripping takes the white space off both ends and leaves the rest |
| Text.TraceSeq.Puts | module/trace_wperf_events.c:683-699 | a token is written whole or not at all, and nothing after one that did not fit |
| Text.TraceSeq.Newline | module/trace_wperf_events.c:701-705 | the last character becomes a newline |
| PidFilter.FilterRead | module/trace_wperf_events.c:920-937 | the text of the longest initial part of the set that fits the page |
| PidFilter.FittingIsLongest | module/trace_wperf_events.c:683-699 | that part is the longest that fits |
| PidFilter.TxStats.EnableWrite | module/trace_wperf_events.c:892-907 | flag and probes become what was written, and the filter is emptied by disabling and untouched by enabling |
| PidFilter.TxStats.FilterWrite | module/trace_wperf_events.c:939-976 | adds the numbers, each as the bit its lower 32 bits name, or on a bad token clears everything and leaves the probes off; it sets a bit outside the bitmap exactly if such a bit it reaches is not below the limit |
| PidFilter.AddedIsUnion | module/trace_wperf_events.c:949-966 | a successful write gives the union of the old filter and the bits of the numbers in the text |
| PidFilter.ParseULongIs | module/trace_wperf_events.c:960-963 | which texts are taken as numbers, and as which: digits, below 2^64, with at most one plus in front and one newline behind |
| PidFilter.OverrunsIff | module/trace_wperf_events.c:952-966 | a write sets a bit outside the bitmap exactly if some number before any refused token has its low 32 bits at or above the limit |
| PidFilter.FlagIsLastEnable | module/trace_wperf_events.c:892-907 | over all sequences of operations the flag is the argument of the last write to it, and off before one |
| PidFilter.FilterIsWhatWasPut | module/trace_wperf_events.c:892-976 | over all sequences of operations a bit is set exactly if some accepted text had a number with these low 32 bits, and no disabling and no refused text came after it |
| PidFilter.TxStats.OutputRead | module/trace_wperf_events.c:989-1011 | leaves the probes as the flag says |
| PidFilter.ProbesFollowFlag | module/trace_wperf_events.c:869-1011 | over all sequences of operations the probes are on exactly if the flag is set, except after a failed filter write until the next enable, successful write or output read |
| PidFilter.RoundTrip | module/trace_wperf_events.c:920-976 | writing back the printed text adds exactly the longest initial part of the set that fits, to whatever filter there is |
| PidFilter.RoundTripWhole | module/trace_wperf_events.c:920-976 | an empty filter becomes the whole set again exactly if its text fits |
| DiskFilters.DiskUtils.EnableWrite | module/trace_wperf_events.c:651-670 | flag and probe become what was written; disabling also forgets the names, enabling keeps them |
| DiskFilters.DiskUtils.FilterWrite | module/trace_wperf_events.c:763-797 | stores the names, or those before one that is too long, and then leaves the probe off; it writes outside the array exactly if there are more than 20 |
| DiskFilters.StoredIs | module/trace_wperf_events.c:776-789 | what a text stores: its non-empty tokens in front of the first that is too long, in order; it is accepted exactly if none is |
| DiskFilters.FlagIsLastSwitch | module/trace_wperf_events.c:651-670 | over all sequences of operations the flag is the argument of the last write to it, and off before one |
| DiskFilters.NamesAreLastWritten | module/trace_wperf_events.c:651-797 | over all sequences of operations the names are those of the last text written, and none after a later disabling or before any text |
| DiskFilters.TooManyNames | module/trace_wperf_events.c:775-789 | a text of 21 names, which is accepted and does not fit |
| DiskFilters.DiskUtils.FilterRead | module/trace_wperf_events.c:745-761 | prints all names; the page always has room |
| DiskFilters.DiskUtils.OutputRead | module/trace_wperf_events.c:819-839 | leaves the probe as the flag says |
| DiskFilters.ProbeFollowsFlag | module/trace_wperf_events.c:651-839 | over all sequences of operations the probe is on exactly if the flag is set, except after a failed filter write until the next enable, successful write or output read |
| DiskFilters.RoundTrip | module/trace_wperf_events.c:745-797 | writing back the printed names restores them exactly if the first does not start and the last does not end in white space |
| DiskFilters.SpacedName | module/trace_wperf_events.c:763-788 | a text that sets a name starting in white space |
| DiskFilters.EmptyComesBackAsNone | module/trace_wperf_events.c:750-753 | the text of the empty filter sets a disk called "none" |
| Encoder.EncodeLine | scripts/encorder.py:26-43 | one line: the record, or nothing as soon as some part is not as expected |
| Encoder.EncodeLines | scripts/encorder.py:22-49 | the loop computes the list of records that `EncodedFiles` describes |
| Encoder.BadLineIsSkipped | scripts/encorder.py:46-47 | a bad line leaves the records of all other lines as they are |
| EncodedFiles.RefusedIff | scripts/encorder.py:28-47 | exactly which lines are refused, from the text alone: those not made of four words, an event and data between the last two ": ", with a dash in the first word, a number in brackets as the second, at least four characters in the third, and fields between commas with one equal sign each |
| EncodedFiles.WordsIff | scripts/encorder.py:29 | splitting a text gives exactly the words it is made of |
| EncodedFiles.OneRecordPerGoodLine | scripts/encorder.py:22-49 | a file becomes one record for each line of that form, in order, and nothing else |
| EncodedFiles.FileRoundTrip | scripts/encorder.py:22-49 | a file of printed lines with any refused lines among them becomes as many records as printed lines, each with the prefix and every field of its line |
| EncodedFiles.TraceFileLoads | scripts/encorder.py:22-49 | of a file of scheduling events with any refused lines among them, the i-th record loads as the i-th event |
| Encoder.RoundTrip | scripts/encorder.py:29-43 | every trace line printed for plain fields, with any number of spaces after a comma, is read back field by field, task names with dashes included |
| Encoder.PrefixRoundTrip | scripts/encorder.py:30-37 | task, pid, CPU, the four flags and the time stamp in front of the event are read back, each under its key |
| Encoder.SwitchRoundTrip | module/trace_wperf_events.h:49-55 | every printed scheduling event, an exit with its extra space included, reaches the loader (switch.go:11-22), tag by tag, with its CPU and all nine fields intact, exactly if no task state is a negative long |
| Encoder.SoftRoundTrip | module/trace_wperf_events.h:125-126 | every printed softirq reaches its loader (soft.go:21-25) with CPU, begin and end intact |

## Left out

- Analyzers.Analyzer.Run: with the list handed on it asks that wakers are awake and no softirq lies across the start of a run, since otherwise the recursion need not end (`Departures.MutualSleepNeverEnds`); as shipped it asks nothing but time order.
- Program.ShippedCompletesIff: its conditions on the trace are for traces without a softirq across the start of a run; without that, `Program.DriverDiesIff` has them on the finished maps.
- WaitPaths.PairWeight: is for maps that cover the waits, which `Meaning.CoveredIff` reads off the trace; on others `Redistribution.DriverMeaning` gives the weight, with paths that stop at a waker whose map starts later.
- WaitPaths.NamedPairWeight: threads that share a name share their weight; what such a key holds is `Redistribution.GraphMeaning`.
- Meaning.WeightIsWaitedTime: the same two notes hold for it and for `Meaning.GraphIsWaitedTime`.
- EndToEnd.GraphOfARun: the machine's exit step records the time of the exit, which the probe of `do_exit` never assigns (module/trace_wperf_events.h:236-245); results on given traces ask of that stamp only that the trace is in order and no softirq straddles it.
- ProbeFacts.RunsAreSound: all CPUs read one clock that never shows a value twice, kretprobes miss no return, events are not filtered (scripts/recorder.py is not part of this model), no context switch happens inside an interrupt or softirq, no pid is used a second time, and a thread that is switched out with a state other than zero sleeps (one preempted on its way to sleep would not); task states other than that of the thread switched out are recorded as 0.
- PidFilter.TxStats.FilterWrite: what happens after a bit outside the bitmap is set; the operation sequences of `ProbesFollowFlag` are those without.
- PidFilter.FilterRead: the capacity is a parameter, since `trace_seq_printf` is the kernel's; it must hold the first pid.
- DiskFilters.DiskUtils.FilterWrite: what happens after a name is written outside the array; the operation sequences of `ProbeFollowsFlag` are those without. The utilisation counters and `on_part_round_stats_ent` are not modelled.
- Encoder.RoundTrip: white space is the ASCII one, and values with white space, commas or equal signs are excluded.
- EncodedFiles.RefusedIff: a CPU number with underscores or digits other than the ASCII ones, which newer Pythons accept, counts as refused.
- Recorder.OneKindOfShutdown: a kill that reaches the workers and the debugfs writes of `cleanup` are not modelled.
- Recorder.StepKeepsSound: opening the output file, libuv's own errors other than results of callbacks, and the order in which descriptors are flushed are not modelled.
- Concurrent writers of one debugfs file: operations are taken one after the other, although `enable_write_generic` releases the mutex before it writes.
- Allocation failures (`kstrdup`, `malloc`, `__get_free_page`) and the copying between user and kernel space.
- The red-black tree behind the treemap; sort.Sort itself (any sorted permutation will do, and with distinct time stamps there is only one).
- Reading of files and JSON, the CPU frequency, and the CSV output with its filter on "-13".
- Kernel registration, creation of debugfs files, ioworkers, option parsing and the deployment scripts: no property of their own.
- The futex, lock, journal and socket probes, which the analyzer does not read, and the programs under `cases/`.

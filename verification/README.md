# A verified model of vycor-cpp's index structures

vycor-cpp's Clang visitors fill a handful of index structures, and its query, refresh and
analysis tools run over them. This project models those structures and algorithms in Dafny and
proves what they are for. No Clang is involved: what a parse contributes is an arbitrary list of
registrations, files are byte strings, and worker processes may do anything.

| files | what they model |
|---|---|
| `EdgeTypes`, `Corridor`, `ChainSearch`, `ChainTheorems` | `find_call_chain`: a reverse depth-first search with a corridor prune, a dead-end memo, a hub cutoff and an early stop, proved equal to the plain exponential enumeration |
| `LockSearch`, `LockTheorems`, `LocksHeld` | the same for `query_locks_held`, whose paths may revisit nodes but no call edge, and the locks held along the paths found |
| `Interner`, `Registrations`, `EdgeTables`, `EdgeMerge`, `Relations`, `CallGraphStore`, `StoreAnswers` | the refcounted, deduplicated call-graph store: slots, key index, two adjacency maps, per-TU provenance, and the override and return relations with their reverse maps; what its tables hold, field by field, in terms of the calls made |
| `Tellings`, `NodeStore` | the node half of the call graph: what a node sums up of all that was told of it, nodes by usr, the display-name index, contributing TUs |
| `GraphQueries`, `QueryAnswers`, `GraphViews` | the two edge queries with the edges they synthesize, their duality, and the path tools run on a real graph |
| `Dependencies`, `Parses`, `WarmRefresh`, `WarmRuns`, `WarmIndexes` | header-dependency stamps and dirty detection, what a parse depends on, the warm refresh, runs of the tool one after another from saved snapshots, and the same refresh over edges, nodes and control-flow contexts together |
| `WorkerPool`, `DispatchTheorems`, `DispatchHistory`, `DispatchLoss` | the isolated worker dispatch as a step relation: dispatch threads, one parent, retries, poison and bisect; what the events of a run say of its outcome |
| `DeadCode`, `DeadCodeTheorems`, `Derivations`, `Liveness` | the liveness worklist with deferred virtual targets: its rules, the walk as a function and the loops that compute it, what it finds, and why graphs as built are safe for it |
| `Wire`, `Journal`, `Reopen`, `Checkpoint`, `Resume` | the crash-recovery journal: byte layout, framing, reopening after a torn write, attempt counters, and phase 1 over killed and resumed runs |
| `GraphSnapshot`, `SnapshotRoundTrip`, `NodeSnapshot` | the call-graph section of a snapshot, saved and loaded, edges and nodes, and exactly when it fits its 32-bit fields |
| `ControlFlowSets`, `ControlFlow`, `ContextAnswers`, `ContextLookups` | the control-flow context store: shared set tables, six index maps, and the lookups by callee and caller |
| `WireFormats` | the bytes on disk: journal header, frames and payloads, and the records of a snapshot section |
| `ExceptionEscape`, `EscapeReport` | merged function summaries, the bounded search for exceptions that leave a noexcept function, and the report |

Objects that the program updates in place are classes with the same fields (`CallGraph`,
`Nodes`, `ControlFlowIndex`, `AnnealCheckpoint`, `Dispatcher`, `Search`, `State`, `Reader`,
`GlobalIndex`, `Analyzer`), loops are loops, and each method is proved against a specification whose own
properties are stated as lemmas. The central specifications are:

- `Plain` and `AllPaths` (chain and lock search): the enumeration without corridor, memo or early
  stop, itself proved to be exactly the set of paths.
- the registration log `CallGraph.regs`: the surviving `addEdge` calls in string space. `Valid`
  ties every table to it, so an operation is specified by what it does to the log.
- `Justified`: why a query may show an edge. Both edge queries are proved to show exactly the
  justified calls.
- `IndexOf`: graph and meta hold one parse result of each unit, and no file that parse opened has
  changed. Parsers are arbitrary, as long as a finished parse reports the files it opened and the paths
  it looked for in vain, and depends on nothing else (`Honest`).
- `After`: one atomic step of the dispatch; `Inv` holds after every run of such steps.
- `Closed` and `Below`: the mutual rules of liveness and their least solution; `Walked`: the walk
  step by step, in the order of the edges, which the loops compute.
- `Replay` and `StartsSince`: what a journal means.
- `Contents`: the live contexts of the control-flow index, as strings and sets.
- `Escapes`: a chain of at most sixteen unguarded calls to an uncaught throw.

What an operation answers is then said once more in its caller's own terms, by fields, strings and
numbers, and proved of those specifications: `AnswersQuery` for both path tools and `IsAnswer` for the
locks by name, `InParts` for the edge queries, `SumsUp` for nodes and summaries, `Derivable` and
`ProvenPath` for liveness, `HoldsLast` and `Counted` for a journal, `Accepted`, `TakenApart` and
`Requeued` for the dispatch, `Answers` for the escape report, and the statements of `StoreAnswers`,
`ContextAnswers` and `WireFormats`.

Eight promises turned out narrower than the code's own comments or intended use say. For each there
is a concrete input on which it fails and the exact condition under which the code meets it:

- A filtered `find_call_chain` can miss a path: `GraphViews.BuildSplitGraph` makes a graph by calls on
  the store, and on it the search finds nothing where the plain enumeration has a path
  (`GraphViews.ChainMissed`). The test in front of the search is sound for every query exactly when
  caller and callee edges are dual under the filter (`ChainTheorems.CorridorIsExact`).
- include/vycor/callgraph/WorkerPool.h:32-34 says a poisoned TU costs exactly that TU. Three crashing
  units in one batch of four take the fourth with them though each crash names its unit
  (`DispatchLoss.GoodUnitIsLost`, and in a whole dispatch `DispatchLoss.GoodUnitIsPoisoned`). A batch loses only its bad units exactly when it holds at most two of
  them or nothing else (`DispatchLoss.MarkersLoseOnlyTheBad`).
- A virtual edge of Unknown confidence is tried once and never deferred, so the liveness walk can stop
  without its target (`DeadCodeTheorems.LateWalk`, `DeadCodeTheorems.UnknownEdgeIsLost`). The walk
  finds the least solution over all graphs made of given edge classes exactly when that class or
  constructor calls are not among them (`DeadCodeTheorems.LeastExactly`). The builder never registers
  such an edge, so graphs as built are safe (`Liveness.BuiltGraphsAreSafe`).
- A file rolled back to an older version can leave a unit stale and not dirty
  (`Dependencies.RolledBackFileIsMissed`): exactly when the oldest recorded version of every file the
  unit opened is the one on disk (`Dependencies.MissedIff`).
- A warm refresh is meant to leave what a full build would. Files that a parse looked for in vain are not
  recorded, so a header that appears in front of another one on the search path leaves its unit as it
  was (`WarmRuns.ShadowingHeaderIsMissed`). After any number of runs in which every parse finished the
  index is that of a full build exactly when nothing exists where a parse looked in vain (`WarmRefresh.FullBuildIff`,
  `WarmRuns.RunAll`). A parse that does not finish leaves no dependencies at all; a unit the dirty check
  lets through can be relied on, whatever the parser, exactly when its parse finished and nothing
  appeared where it looked in vain, or nothing at all has changed (`Parses.AssuredExactly`).
- src/anneal/Analyzer.cpp:1150-1152 calls a noexcept callee a hard boundary, but the search tests a
  function for an uncaught throw before it asks whether the function is noexcept, so a root is reported for a
  throw that ends in a noexcept callee (`ExceptionEscape.BoundaryIsReported`). A reported root is one an
  exception leaves exactly when it would be reported without the throws of noexcept functions
  (`ExceptionEscape.LeavesIff`).
- include/vycor/callgraph/ControlFlowIndex.h:183-189 promises lookups by usr or display name. Removing
  units leaves emptied lists under their usrs, and a lookup of such a usr finds nothing even when it is
  the display name of contexts that are there (`ContextLookups.LookupMissesAfterRemoval`). A lookup gives
  what is promised exactly when the name has no emptied list or is no context's display name
  (`ContextLookups.ContextsForCallee`, `ContextLookups.ContextsForCaller`); there are no emptied lists
  before the first removal and after compacting.
- After a torn tail the journal is reopened for appending behind it, and behind every torn tail there
  is a record that, appended next, is not read back (`Reopen.TornTailLosesARecord`). Everything appended
  is read back exactly when the journal was cut between two records (`Reopen.AppendsAreReadBack`). So
  claims over several crashes assume that an append is all or nothing.

`dafny verify dfyconfig.toml` checks the whole project.

## Model

| member | source | states |
|---|---|---|
| Corridor.ExpandFrontier | src/query/GraphTools.cpp:411-420 | one round of the breadth-first search adds exactly the admitted callees of the frontier, each at the new distance, and keeps all distances known |
| Corridor.MinDistances | src/query/GraphTools.cpp:403-422 | the table holds exactly the nodes within the depth bound of a start, each with its shortest distance |
| Corridor.LayerMonotone | src/query/GraphTools.cpp:396-402 | what is within j edges of a start is within any k >= j edges |
| Corridor.LayerFixpoint | src/query/GraphTools.cpp:409-421 | once a round finds nothing new no later round does, so stopping at an empty frontier loses nothing |
| Corridor.ReachInCorridor | src/query/GraphTools.cpp:396-402 | corridor soundness: with dual edges, what reaches a start backwards within b edges, past no start and no hub, lies within b edges of a start forwards |
| Corridor.TableCovers | src/query/GraphTools.cpp:471-476 | the computed table never prunes a node that can still complete a path |
| ChainSearch.PlainNeedsReach | src/query/GraphTools.cpp:386-395 | an enumeration that finds anything from a node walked an admitted reverse path within its remaining budget: what memo and prune test is necessary |
| ChainSearch.Search.DeadEndIsEmpty | src/query/GraphTools.cpp:437-439 | a revisit at or below the recorded depth of a dead end cuts nothing off |
| ChainSearch.Search.PrunedIsEmpty | src/query/GraphTools.cpp:471-476 | a caller outside the corridor budget contributes no path |
| ChainSearch.Search.Dfs | src/query/GraphTools.cpp:431-496 | with a covering corridor the found list grows by exactly the paths of the plain enumeration below the node, in order, cut at max_paths; a clean failure means no path exists at this depth; the walk state is restored |
| ChainSearch.Search.Visit | src/query/GraphTools.cpp:441-495 | the same for the part behind the guards: emit a start, skip a hub, or expand, then memoize only clean failures |
| ChainSearch.Search.SkipHub | src/query/GraphTools.cpp:451-458 | a skipped hub is recorded with its stored in-degree and no other record changes |
| ChainSearch.Search.Follow | src/query/GraphTools.cpp:464-479 | one caller edge, skipped or followed, contributes exactly its plain enumeration; an on-path exclusion is reported as blocked |
| ChainSearch.Search.Expand | src/query/GraphTools.cpp:463-484 | the loop over the callers contributes their enumerations in order, and a clean loop means none of them reaches a start in the budget |
| ChainTheorems.AllPathsAreTheChains | src/query/GraphTools.cpp:361-396 | the plain enumeration returns a path if and only if it is a simple chain from a start to the target within the depth limit that passes no other start and expands no hub |
| ChainTheorems.AllPathsAreDistinct | src/query/GraphTools.cpp:380-383 | no path is returned twice when no caller list repeats an edge |
| ChainTheorems.GateIsSound | src/query/GraphTools.cpp:498-503 | with dual edges the test of the target in front of the search never rejects a target that has a path |
| ChainTheorems.GateNeedsDual | src/query/GraphTools.cpp:498-503 | every admitted edge without a counterpart makes some query lose its only path |
| ChainTheorems.CorridorIsExact | src/query/GraphTools.cpp:396-402 | the test in front of the search is sound for all queries under a filter if and only if the edges are dual under that filter |
| ChainTheorems.ChainAnswersQuery | src/query/GraphTools.cpp:48-68 | the chains of the enumeration are exactly the paths that meet the arguments field by field: kind, context and confidence of every hop, starts, target, depth modulo 2^32, and the fan-in limit at every node inside |
| ChainTheorems.AllPathsInOrder | src/query/GraphTools.cpp:463-484 | of two paths found the one comes first whose edge comes first among the callers where, seen from the target, they part |
| ChainTheorems.FindCallChain | src/query/GraphTools.cpp:321-503 | from parsed arguments: with dual edges, exactly the first max_paths paths of the plain enumeration, in order, and all paths there are when fewer come; with any edges, only paths that meet the arguments field by field, nothing when the target is outside the corridor, and only true hubs skipped |
| LockSearch.PlainNeedsReach | src/query/LockTools.cpp:101-108 | a lock enumeration that finds anything has an admitted reverse path to an entry in its node budget |
| LockSearch.State.Prune | src/query/LockTools.cpp:174-190 | budget, memo and hub cut off only subtrees with no path, and none of them depends on the current path |
| LockSearch.State.Follow | src/query/LockTools.cpp:197-221 | one caller edge contributes exactly its plain enumeration; the corridor test comes before the visited-edge test, so a pruned repeat does not poison the memo |
| LockSearch.State.Descend | src/query/LockTools.cpp:216-221 | taking an edge, searching on and taking it back adds exactly the paths through it and restores path and visited edges |
| LockSearch.State.ExpandAndRecord | src/query/LockTools.cpp:192-236 | all callers in order, then a memo entry only for an exhaustive failure |
| LockSearch.State.ReverseDfs | src/query/LockTools.cpp:157-237 | the output grows by exactly the plain enumeration below the current node, cut at 512, though nodes may repeat on a path; a full output is marked truncated |
| LockTheorems.AllPathsAreTheLockPaths | src/query/LockTools.cpp:109-111 | the plain enumeration returns a path if and only if it is an edge-simple reverse path to an entry within the node limit |
| LockTheorems.LockPathAnswersQuery | src/query/LockTools.cpp:239-293 | these paths are exactly those that meet the query field by field: stepping back over calls not made from `<indirect>`, no call twice by caller, callee and site, entries only at the end, node limit and fan-in limit |
| LockTheorems.AllPathsInOrder | src/query/LockTools.cpp:192-236 | of two paths found the one comes first whose edge comes first among the callers where they part |
| LockTheorems.NothingOutsideCorridor | src/query/LockTools.cpp:283-287 | a target the corridor test turns away has no path |
| LockTheorems.CollectPaths | src/query/LockTools.cpp:239-293 | the first 512 paths of the plain enumeration, in order and meeting the query field by field, and truncated if and only if there are at least 512; without truncation all there are |
| LocksHeld.ContextAtSite | src/callgraph/ControlFlowIndex.cpp:291-306 | the context found for a call site is the first live one recorded there, and none is found exactly when there is none |
| LocksHeld.LocksOnPath | src/query/LockTools.cpp:43-94 | exactly the locks live at some call site of the path, each once and with the first site at which it is live |
| LocksHeld.CollectLocksHeld | src/query/LockTools.cpp:239-312 | for an unknown target nothing; otherwise for each of the first 512 plain lock paths, in order, its entry, the names along it and exactly the locks held on it; every result is a path of real calls by name, from an entry to the target and not through `<indirect>`, and lists each lock live at a call site of it once, at the first such site; truncated if and only if there are at least 512; each hub named as skipped is one, with its stored in-degree |
| Interner.InternString | include/vycor/callgraph/StringInterner.h:55-75 | one id per string, dense, allocated on first use, never reassigned |
| Registrations.WithoutTwice | src/callgraph/CallGraph.cpp:717-744 | removing several TUs at once is removing them in turn |
| Registrations.WithoutTus | src/callgraph/CallGraph.cpp:708-744 | after removal nothing of the removed TUs is registered and every other TU's registrations are untouched |
| Registrations.SameLogSameCount | include/vycor/callgraph/CallGraph.h:241-248 | reference counts depend on the registrations, not on their order |
| EdgeTables.AddedOk | src/callgraph/CallGraph.cpp:156-189 | bumping an identical edge or appending a slot, then tagging it, keeps every table tied to a log that is longer by this registration |
| EdgeTables.ReleasedOk | src/callgraph/CallGraph.cpp:724-744 | releasing each slot as often as the TU lists it leaves tables tied to the log without that TU |
| EdgeTables.ScrubbedOk | src/callgraph/CallGraph.cpp:745-756 | one scrub of each affected list after all releases restores exact adjacency |
| EdgeMerge.MergeOne | src/callgraph/CallGraph.cpp:632-655 | one dedup probe under remapped ids adds exactly the shard slot's registrations, and its slot map entry is right |
| EdgeMerge.TusMergedOk | src/callgraph/CallGraph.cpp:657-663 | re-pointing the shard's provenance through the slot map makes every TU's count the sum of both graphs' |
| EdgeMerge.MergeOk | src/callgraph/CallGraph.cpp:627-663 | the merge as a whole keeps all table invariants for the two logs together |
| CallGraphStore.CallGraph.Intern | src/callgraph/CallGraph.cpp:156-170 | interning during a mutation changes the meaning of nothing stored |
| CallGraphStore.CallGraph.AddEdge | src/callgraph/CallGraph.cpp:156-189 | keeps the whole invariant (counts are numbers of registrations, the index holds exactly the live keys, each live slot once in each adjacency list, provenance exact), logs exactly this registration, interns exactly its new strings and changes neither other slots nor relations |
| CallGraphStore.CallGraph.RemoveTUs | src/callgraph/CallGraph.cpp:708-757 | keeps the invariant; the surviving registrations are exactly those not tagged with the given TUs; returns the number of edges that died; relations stay |
| CallGraphStore.CallGraph.ReleaseTu | src/callgraph/CallGraph.cpp:724-744 | one TU's registrations go, with adjacency owed only for the slots noted as dead |
| CallGraphStore.CallGraph.Compact | src/callgraph/CallGraph.cpp:794-834 | exactly the live slots in their order, index and adjacency laid out anew from them; registrations, provenance and relations unchanged |
| CallGraphStore.CallGraph.Absorb | src/callgraph/CallGraph.cpp:579-663 | the log becomes both logs under this graph's own ids, and the override and return relations (675-699) the union of both; absorbing itself changes nothing |
| NodeStore.Nodes.AddNode | src/callgraph/CallGraph.cpp:78-111 | keeps one node for each usr (the display name when it has none), the display-name index and both contributor maps exact; the node then sums up all tellings of its usr: flags that some had, the last file, line and class given, the first display name; the unit joins its contributors |
| NodeStore.Nodes.Absorb | src/callgraph/CallGraph.cpp:593-625 | the two node tables merged node by node, each node summing up the tellings of both sides, the contributions of both |
| Tellings.ToldSumsUp | src/callgraph/CallGraph.cpp:93-104 | backfilling a known node keeps it the sum of all that was told of it: any flag told, the last non-empty file, line and class, the first display name |
| Tellings.JoinedSumsUp | src/callgraph/CallGraph.cpp:604-616 | so does merging two tables |
| NodeStore.Nodes.RemoveTUs | src/callgraph/CallGraph.cpp:758-789 | exactly the nodes all of whose contributors are removed go, from the display-name index too; a node nobody contributed stays; those that stay are unchanged and still sum up what was told |
| NodeStore.Nodes.ResolveUsrIds | src/callgraph/CallGraph.cpp:120-133 | the node of that usr, else exactly the nodes with that display name, else the string itself if it is known at all |
| NodeStore.SurvivorsTwice | src/callgraph/CallGraph.cpp:758-789 | removing units together leaves the nodes that removing them in turn does |
| CallGraphStore.CallGraph.AddMethodOverride | src/callgraph/CallGraph.cpp:471-483 | adds exactly this pair and keeps the reverse map the exact transpose |
| CallGraphStore.CallGraph.AddFunctionReturn | src/callgraph/CallGraph.cpp:554-562 | the same for function returns |
| CallGraphStore.CallGraph.AbsorbOverrides | src/callgraph/CallGraph.cpp:675-686 | the shard's override pairs join this graph's, transposes stay exact |
| CallGraphStore.CallGraph.AbsorbReturns | src/callgraph/CallGraph.cpp:692-699 | the same for function returns |
| CallGraphStore.SameKeys | src/callgraph/CallGraph.cpp:794-834 | tables with one log over one interner index the same keys, so compaction keeps the live edge count |
| CallGraphStore.FoundAll | src/callgraph/CallGraph.cpp:711-714 | paths never interned have no registrations, so skipping them removes all there is to remove |
| StoreAnswers.WithoutIs | src/callgraph/CallGraph.cpp:708-744 | removal leaves each registration of another unit or of none as often as it was, and none of the removed units |
| StoreAnswers.SlotOfEdge | include/vycor/callgraph/CallGraph.h:241-248 | an edge has a slot, by its strings and fields, exactly when it is registered, only one, and that counts its registrations |
| StoreAnswers.IndexIs | src/callgraph/CallGraph.cpp:156-189 | the key index maps exactly the live keys, each to its slot |
| StoreAnswers.AdjacencyIs | src/callgraph/CallGraph.cpp:156-189 | each live slot is listed once under its caller and once under its callee, and nothing else is |
| StoreAnswers.ProvenanceIs | src/callgraph/CallGraph.cpp:171-189 | a unit's list names a slot as often as the unit registered its edge |
| StoreAnswers.LiveEdgesAre | src/callgraph/CallGraph.cpp:794-834 | compacting keeps the slots with references, stretch by stretch in their order |
| StoreAnswers.RelationIs | src/callgraph/CallGraph.cpp:471-483 | a target is listed for a source, and the source for it in the reverse map, exactly when the pair was ever added |
| Relations.OneMoreOk | src/callgraph/CallGraph.cpp:471-483 | adding a pair from both ends keeps forward and reverse map transposed and equal to the set of pairs ever added |
| Relations.ReachesReversed | src/callgraph/CallGraph.cpp:312-314 | reaching b from a over the forward map is reaching a from b over the reverse map |
| Relations.TransitiveClosure | src/callgraph/CallGraph.cpp:191-213 | the stack search computes the closure function, element order included |
| Relations.ClosureIsReachable | src/callgraph/CallGraph.cpp:191-213 | the closure holds exactly what is reachable from the start, without the start even on a cycle |
| GraphQueries.CalleeRefsAreJustified | src/callgraph/CallGraph.cpp:215-274 | every edge shown to a caller is a live stored one, a plausible virtual call through a transitive override, or a deferred call through a returned function |
| GraphQueries.JustifiedIsInCalleeRefs | src/callgraph/CallGraph.cpp:215-274 | every such call is shown, deduplicated by callee and site |
| GraphQueries.CallerRefsAreJustified | src/callgraph/CallGraph.cpp:291-354 | the same soundness from the callee's end |
| GraphQueries.JustifiedIsInCallerRefs | src/callgraph/CallGraph.cpp:291-354 | the same completeness from the callee's end |
| GraphQueries.QueriesAreDual | src/callgraph/CallGraph.cpp:215-354 | (caller, callee, site) is among the caller's callees if and only if it is among the callee's callers, synthesized edges included |
| GraphQueries.CallerRefsAreDistinct | src/callgraph/CallGraph.cpp:295-353 | no edge is listed twice among the callers |
| QueryAnswers.CalleesInParts | src/callgraph/CallGraph.cpp:215-274 | the callees come in three parts: the caller's stored edges but deferred ones; then one edge for each call site and transitive override of a plausible virtual call, unless a virtual call is stored for both already; then one for each call site and returned function of a deferred call not shown yet, of kind ThreadEntry unless synchronous and FunctionPointer then |
| QueryAnswers.CallersInParts | src/callgraph/CallGraph.cpp:291-354 | the callers in the same three parts, where any stored edge shown covers its call |
| QueryAnswers.CalleesOnce | src/callgraph/CallGraph.cpp:215-274 | no edge is listed twice among the callees unless a stored edge is also what a deferred call becomes |
| QueryAnswers.CalleesTwice | src/callgraph/CallGraph.cpp:250-274 | then it is listed twice, when it is the only edge of its call |
| GraphViews.ValidIsGraphOk | src/callgraph/CallGraph.cpp:156-834 | every graph the mutators can produce satisfies what the queries rely on |
| GraphViews.CalleeRefsOf | src/callgraph/CallGraph.cpp:215-274 | the three passes with their seen-set compute the callee query |
| GraphViews.CallerRefsOf | src/callgraph/CallGraph.cpp:291-354 | the three passes over the callee, its bases and its returners compute the caller query |
| GraphViews.AgreeingFilterIsDual | src/query/GraphTools.cpp:396-402 | a filter that decides alike on all edges shown for one call keeps the corridor sound on every graph |
| GraphViews.AllowAllIsDual | src/query/GraphTools.cpp:48-68 | without filter arguments the corridor is sound on every graph |
| GraphViews.LockSearchIsDual | src/query/LockTools.cpp:263-282 | the lock corridor, which walks all callee edges, is sound on every graph |
| GraphViews.FindCallChainIn | src/query/GraphTools.cpp:321-503 | on every reachable graph, without a filter or with one that agrees on each call: exactly the first max_paths plain paths, in order, no path twice, all there are when fewer come; with any filter only paths that meet the arguments field by field and each of whose hops is a stored call, a dispatch or a deferred one; nothing for a target outside the corridor |
| GraphViews.ViewIs | src/callgraph/CallGraph.cpp:376-390 | what the path tools see are the two edge queries, and as in-degree the number of live stored edges into a node |
| GraphViews.LockPathsIn | src/query/LockTools.cpp:239-293 | on every reachable graph exactly the first 512 plain lock paths, in order and meeting the query field by field, and only true hubs skipped |
| GraphViews.FilteredCorridorHidesAPath | src/query/GraphTools.cpp:403-422 | a graph and a confidence filter for which the target has a path and the corridor turns it away |
| GraphViews.BuildSplitGraph | src/callgraph/CallGraph.cpp:156-189 | calls on the store alone produce that graph |
| GraphViews.ChainMissed | src/query/GraphTools.cpp:498-503 | find_call_chain run on it returns nothing, although the plain enumeration has a path |
| Dependencies.OldestIsOldest | src/callgraph/Snapshot.cpp:1122-1146 | the stamp kept for a path is one that some TU recorded, and none is older |
| Dependencies.OldestIsFirst | src/callgraph/Snapshot.cpp:1132-1142 | of several that old it is the first recorded |
| Dependencies.RecordDependencies | src/callgraph/Snapshot.cpp:1122-1146 | one shared entry per path with the oldest stamp, and per TU the ids of exactly its own dependencies |
| Dependencies.DependenciesOf | src/callgraph/Snapshot.cpp:1111-1120 | expands the shared entries back per TU |
| Dependencies.ExpandIs | src/callgraph/Snapshot.cpp:1111-1120 | each list expands in its order, stamp for id |
| Dependencies.RecordThenExpand | src/callgraph/Snapshot.cpp:1111-1146 | recording and expanding again keeps every dependency of every TU, with a stamp no newer |
| Dependencies.DirtyTUs | src/callgraph/Snapshot.cpp:1070-1109 | flags exactly the TUs that are new, changed themselves, or list a changed dependency, and counts those dirty only through dependencies |
| Dependencies.DirtyIs | src/callgraph/Snapshot.cpp:1036-1109 | a TU not on record last with just this stamp is dirty; another is dirty exactly when a dependency listed for it is on record with another size or second than the file has, or the file is gone |
| Dependencies.DirtyByDepsIs | src/callgraph/Snapshot.cpp:1085-1109 | the count returned beside the flags is the number of dirty TUs that are on record with their own stamp |
| Dependencies.DirtyIff | src/callgraph/Snapshot.cpp:1063-1146 | a TU whose own file is unchanged is dirty if and only if the oldest recorded version of a file it opened is not the one on disk |
| Dependencies.StaleIsDirty | src/callgraph/Snapshot.cpp:1063-1109 | when files only move forward no stale TU is missed, though stamps are shared and min-merged |
| Dependencies.RolledBackFileIsMissed | src/callgraph/Snapshot.cpp:1132-1142 | a rolled-back header leaves a TU stale and not dirty |
| Dependencies.MissedIff | src/callgraph/Snapshot.cpp:1063-1146 | a stale TU is not dirty if and only if the oldest recorded version of every file it opened is on disk, and then another version of such a file, no newer and on disk now, was recorded too |
| WarmRefresh.RunBake | src/main.cpp:1099-1122 | a bake registers each TU's parse result in a fresh graph and reports what each finished parse opened; a crashed parse leaves no entry |
| Parses.UpToDateIff | src/callgraph/Snapshot.cpp:1070-1109 | a recorded result whose own file and opened files are unchanged is what a parse gives now if and only if nothing has appeared where that parse looked in vain |
| Parses.AssuredExactly | src/callgraph/ControlFlowContextVisitor.cpp:907-936 | whatever the parser, a unit whose own file and opened files are unchanged has the edges it had, if and only if its parse finished and nothing has appeared where it looked in vain, or no file at all differs |
| Parses.EditedHeaderIsSeen | src/callgraph/ControlFlowContextVisitor.cpp:907-936 | a parser that follows an include: editing the header changes the unit's edges and a recorded file |
| Parses.ShadowingHeaderIsNot | src/callgraph/ControlFlowContextVisitor.cpp:907-936 | a header that appears in front on the search path changes the unit's edges and no recorded file |
| WarmRefresh.ToRemove | src/main.cpp:1196-1199 | the removal set is every dropped TU and every re-baked one the snapshot has |
| WarmRefresh.RefreshedBake | src/main.cpp:1193-1219 | removing dropped and re-baked TUs and absorbing their fresh bake gives the log of the current bake of every TU |
| WarmRefresh.Refresh | src/main.cpp:1193-1224 | the same for the graph object, its own interner against the shard's, with the recorded results of the TUs left alone |
| WarmRefresh.CleanUnitStands | src/callgraph/Snapshot.cpp:1070-1109 | of a TU the dirty check passes, no file its recorded parse opened has changed, though stamps are shared and min-merged |
| WarmRefresh.FullBuildIff | src/main.cpp:1193-1224 | an index all of whose parses finished holds what a full build of the files as they are would, if and only if nothing has appeared where a parse looked in vain |
| WarmRefresh.PlanIsRight | src/main.cpp:1131-1159 | the drop and bake lists leave alone only recorded, still selected TUs of which no opened file has changed |
| WarmRefresh.RefreshedCovers | src/main.cpp:1190-1224 | after the refresh each TU's recorded dependencies still cover what its parse opened, so the next run's dirty check is sound too |
| WarmRefresh.ColdBuild | src/main.cpp:1250-1260 | a full build establishes the index invariant with the current parse of exactly the selected files, and records exactly what they opened |
| WarmRefresh.RefreshIndex | src/main.cpp:1151-1238 | a refresh, the nothing-to-do shortcut included, gives an index of the selected files with the dirty ones parsed anew and the others as recorded, of which no opened file has changed |
| WarmRefresh.DirtyCount | src/main.cpp:1139-1149 | the number of flags counted for the half-of-the-selection test is the number of dirty TUs |
| WarmRefresh.RunTool | src/main.cpp:1124-1288 | one run rebuilds when forced or when more than half is dirty and refreshes otherwise, and keeps the invariant for the newly selected files on the files as they are |
| WarmRuns.RunAll | src/main.cpp:1085-1301 | after any number of runs, each from the graph the one before saved, the index holds for each TU selected last its parse of one of the runs, of none a file has changed since, and it is that of a full build if and only if nothing has appeared where a parse looked in vain |
| WarmRuns.Reload | src/main.cpp:1178-1193 | a graph of byte strings is loaded again if and only if its numbers stay within 32 bits, and then with the same registrations; without it the next run builds in full |
| WarmRuns.EditedHeaderIsFlagged | src/callgraph/Snapshot.cpp:1070-1109 | with an honest parser and files moving forward an edited header changes the TU that opened it and flags it, whatever else was recorded |
| WarmRuns.ShadowingHeaderIsMissed | src/callgraph/Snapshot.cpp:1070-1109 | a build and then a run after a header has appeared in front: the TU keeps its old edges, which are not those a full build gives |
| WarmRuns.UnchangedIsClean | src/callgraph/Snapshot.cpp:1070-1109 | a recorded TU is let through when its own file and all recorded files are unchanged |
| WarmIndexes.RefreshIndexes | src/main.cpp:1193-1224 | a refresh by the dirty flags over graph, nodes and control-flow index: if each held exactly what the recorded parses contribute, each holds exactly what the results on record after the run do |
| WarmIndexes.HoldsResults | src/main.cpp:1193-1224 | such indexes hold each registration and each context of the finished parses on record as often as given, a node for each they told, and nothing else |
| WarmIndexes.FlagsReplace | src/main.cpp:1131-1199 | dropping what is no longer selected and baking what is dirty replaces exactly those TUs' contributions to all three indexes |
| WarmIndexes.BakeNodes | src/callgraph/CallGraph.cpp:78-111 | the nodes of a bake, told one by one: exactly the pairs of usr and TU the parses give, and every node is contributed |
| WarmIndexes.RefreshAll | src/main.cpp:1193-1224 | removing TUs from graph, nodes and control-flow index and absorbing a fresh bake leaves each holding exactly the contributions after the exchange, if each held exactly those before |
| WarmIndexes.RefreshedContexts | src/main.cpp:1193-1224 | the contexts are then those of the current bake, each as often |
| NodeStore.RefreshedNodes | src/main.cpp:1193-1224 | the nodes are then exactly those some current TU contributes |
| NodeStore.ContributedNode | src/callgraph/CallGraph.cpp:106-110 | a node told for a TU keeps every node contributed |
| WarmRefresh.StoresTheCounts | src/callgraph/CallGraph.cpp:156-189 | a valid graph stores an edge with a count if and only if that is the positive number of its registrations |
| WarmRefresh.SameBakeSameGraph | src/main.cpp:1193-1224 | two graphs of the same bake hold the same edges with the same counts, compared by strings, whatever their interners and slot orders |
| WorkerPool.BatchSize | src/callgraph/WorkerPool.cpp:90-97 | the override when given; otherwise the largest size from 1 to 32 that still leaves four batches per worker |
| WorkerPool.Chunk | src/callgraph/WorkerPool.cpp:113-118 | the loop cuts the files into consecutive batches of that size, the last one shorter, which the dispatch theorems show to hold each file once and never to be empty |
| WorkerPool.Dispatcher.TakeBatch | src/callgraph/WorkerPool.cpp:125-133 | refines the step that moves the front batch to an idle thread |
| WorkerPool.Dispatcher.FinishBatch | src/callgraph/WorkerPool.cpp:134-147 | refines the step that hands a finished batch to the parent |
| WorkerPool.Dispatcher.PopResult | src/callgraph/WorkerPool.cpp:211-221 | refines the step that takes a result and lowers the counter |
| WorkerPool.Dispatcher.HandleResult | src/callgraph/WorkerPool.cpp:223-233 | after a result is handled its batch is consumed exactly when the worker exited well and the shard was readable, and otherwise on its way to be poisoned or requeued; everything else is as one step of the dispatch says |
| WorkerPool.Dispatcher.HandleFailure | src/callgraph/WorkerPool.cpp:182-207 | a marker in the batch poisons that unit and requeues the rest; without one a single unit is poisoned, a larger batch halved |
| WorkerPool.Dispatcher.RequeueBatch | src/callgraph/WorkerPool.cpp:162-180 | refines the step that requeues one part without the units out of retries |
| WorkerPool.Dispatcher.TriageBatch | src/callgraph/WorkerPool.cpp:163-171 | counts one retry for every unit and splits off exactly those beyond the limit |
| DispatchTheorems.StepKeeps | src/callgraph/WorkerPool.cpp:105-237 | every step of every thread keeps the invariant: each unit in exactly one place, the counter equals queued plus running plus unprocessed batches, no empty batch, attempts match retries |
| DispatchTheorems.HandleKeeps | src/callgraph/WorkerPool.cpp:182-233 | consuming or taking apart a batch loses and duplicates no unit |
| DispatchTheorems.RequeueKeeps | src/callgraph/WorkerPool.cpp:162-180 | requeueing with poisoning loses and duplicates no unit and keeps counter and attempt totals right |
| DispatchTheorems.InitialOk | src/callgraph/WorkerPool.cpp:105-119 | the initial batches satisfy the invariant |
| DispatchTheorems.RunKeeps | src/callgraph/WorkerPool.cpp:105-245 | after any interleaving each unit is in exactly one of queued, running, awaiting, in the parent's hand, consumed or poisoned |
| DispatchTheorems.AtMostThreeCalls | src/callgraph/WorkerPool.cpp:41-44 | each unit is dispatched at most three times, so the runner is called at most three times per file |
| DispatchTheorems.StepDecreases | src/callgraph/WorkerPool.cpp:121-237 | every step lowers a bound, whatever runner, marker and shards do |
| DispatchTheorems.RunsAreBounded | src/callgraph/WorkerPool.cpp:121-237 | hence every run is finite |
| DispatchTheorems.SomeoneCanMove | src/callgraph/WorkerPool.cpp:211-221 | until the parent stops some thread can move: no deadlock |
| DispatchTheorems.AtExit | src/callgraph/WorkerPool.cpp:239-245 | at exit nothing is queued, running or waiting, and each unit is in one consumed batch or poisoned once |
| DispatchTheorems.Dispatch | src/callgraph/WorkerPool.cpp:77-246 | the whole dispatch under any scheduler and environment is a run of the scheduled steps from the chunked start to the parent's stop, with its batches, poisoned units and calls the outputs; each file is consumed once or poisoned once, in at most three calls per file |
| DispatchHistory.DispatchConsumes | src/callgraph/WorkerPool.cpp:211-237 | over any run of events the consumed batches are exactly those that exited well and whose handling found a readable shard, in the order they finished |
| DispatchHistory.FirstInFirstOut | src/callgraph/WorkerPool.cpp:121-148 | batches are started in the order they were queued |
| DispatchHistory.StartedAre | src/callgraph/WorkerPool.cpp:121-148 | every start has one finish or is still with its runner |
| DispatchHistory.FailedIsTakenApart | src/callgraph/WorkerPool.cpp:182-233 | a batch that exited badly or left no readable shard is not consumed: the unit its marker names is poisoned and the rest kept together, a single unit is poisoned, any other batch is halved |
| DispatchHistory.NoneForgotten | src/callgraph/WorkerPool.cpp:182-207 | each of its units is poisoned or in a part to be requeued |
| DispatchHistory.PartIsRequeued | src/callgraph/WorkerPool.cpp:160-180 | of a part the units retried fewer than two times go back to the queue together and the others are poisoned, each with one more retry on record |
| DispatchHistory.ChunksAre | src/callgraph/WorkerPool.cpp:113-118 | the initial batches are the files in order, all of the given size but the last |
| DispatchLoss.StepFate | src/callgraph/WorkerPool.cpp:161-207 | with a runner that fails exactly on bad batches, no step changes which units will be lost |
| DispatchLoss.PoisonedAreTheLost | src/callgraph/WorkerPool.cpp:161-237 | so whatever the interleaving the poisoned units are those a recursive function of the initial batch names |
| DispatchLoss.MarkedAt | src/callgraph/WorkerPool.cpp:187-197 | with markers, a batch with k retries left loses just its bad units if there are at most k, otherwise everything |
| DispatchLoss.MarkersLoseOnlyTheBad | include/vycor/callgraph/WorkerPool.h:32-34 | a batch loses only bad units if and only if it has at most two of them or no good one |
| DispatchLoss.GoodUnitIsLost | include/vycor/callgraph/WorkerPool.h:32-34 | in one initial batch of three crashing units and a good one, with every crash named, the good one is lost |
| DispatchLoss.DispatchAndLose | src/callgraph/WorkerPool.cpp:77-246 | a whole dispatch over a runner that fails exactly on bad batches poisons exactly the units the loss function names |
| DispatchLoss.GoodUnitIsPoisoned | include/vycor/callgraph/WorkerPool.h:32-34 | the dispatch of that batch ends with the good unit poisoned |
| DispatchLoss.SilentLoss | src/callgraph/WorkerPool.cpp:198-206 | without markers a batch with one bad unit is halved around it until one unit or no retry is left |
| DispatchLoss.SilentLosesAtMostAQuarter | src/callgraph/WorkerPool.cpp:198-206 | without markers one bad unit costs at most a quarter of its batch, rounded up |
| DeadCode.Seed | src/anneal/DeadCodeAnalyzer.cpp:46-55 | computes the start of the walk, which DeadCodeTheorems.SeededOk shows to be exactly the functions of the given names, alive and queued |
| DeadCodeTheorems.SeededOk | src/anneal/DeadCodeAnalyzer.cpp:46-55 | exactly the functions of the given names start alive and queued |
| DeadCode.Visit | src/anneal/DeadCodeAnalyzer.cpp:109-129 | the loop over a function's edges computes one step of the walk, in edge order |
| DeadCodeTheorems.VisitDone | src/anneal/DeadCodeAnalyzer.cpp:109-129 | after it each edge of the function is followed, waits with its target, or was rightly left; nothing outside every solution is added and no waiting target is forgotten |
| DeadCode.Drain | src/anneal/DeadCodeAnalyzer.cpp:105-130 | the queue loop computes the drained walk |
| DeadCode.DrainedMoves | src/anneal/DeadCodeAnalyzer.cpp:105-130 | draining reports a change only when it constructed a class it had not, which bounds the outer loop |
| DeadCodeTheorems.DrainedOk | src/anneal/DeadCodeAnalyzer.cpp:105-130 | draining keeps every edge of a visited function followed, waiting or rightly left |
| DeadCode.Recheck | src/anneal/DeadCodeAnalyzer.cpp:132-161 | the loop over the waiting targets computes the retry |
| DeadCodeTheorems.RetriedOk | src/anneal/DeadCodeAnalyzer.cpp:132-161 | what still waits after a retry is not unlocked by the classes constructed so far |
| DeadCode.Bfs | src/anneal/DeadCodeAnalyzer.cpp:38-163 | the two nested loops compute the walk as a whole |
| DeadCodeTheorems.WalkedIsBetween | src/anneal/DeadCodeAnalyzer.cpp:38-163 | the walk ends with a solution of the mutual rules, edges tried only once aside, that is part of every solution |
| DeadCodeTheorems.LeastUnlessLost | src/anneal/DeadCodeAnalyzer.cpp:38-163 | it ends with the least solution if and only if it loses no edge tried only once |
| DeadCodeTheorems.WalkFindsTheLeast | src/anneal/DeadCodeAnalyzer.cpp:38-163 | without virtual edges of Unknown confidence, always in pessimistic mode, and where no class is constructed, that is the least solution |
| DeadCodeTheorems.OrderDoesNotMatter | src/anneal/DeadCodeAnalyzer.cpp:105-161 | without such edges alive and constructed sets do not depend on the order of edges, classes or roots |
| DeadCodeTheorems.PessimisticWithinOptimistic | src/anneal/DeadCodeAnalyzer.cpp:28-36 | the pessimistic set is contained in the optimistic one, whatever the edges |
| DeadCodeTheorems.PessimisticIsReachability | src/anneal/DeadCodeAnalyzer.cpp:68-74 | pessimistically alive is exactly reachable from a root over Proven calls |
| DeadCodeTheorems.UnknownEdgeIsLost | src/anneal/DeadCodeAnalyzer.cpp:124-128 | on that walk the virtual edge is lost: its caller is alive and its class constructed, its target is not alive, so the result is no solution |
| DeadCodeTheorems.LateWalk | src/anneal/DeadCodeAnalyzer.cpp:109-129 | the walk over a function that dispatches before it constructs stops without the target |
| DeadCodeTheorems.LeastExactly | src/anneal/DeadCodeAnalyzer.cpp:38-163 | the walk finds the least solution on all code with edges of given kinds and confidences, in any order and from any roots, if and only if virtual edges of Unknown confidence or constructor calls are not among them |
| Derivations.OptimisticIsDerivable | src/anneal/DeadCodeAnalyzer.cpp:67-161 | every function derivable step by step from the roots (a call made by an alive function that is Proven or not virtual, or a plausible virtual one whose target serves a class some alive function constructs) is optimistically alive; and each that is alive is derivable when virtual calls of Unknown confidence are taken with the plausible ones |
| Derivations.OptimisticExactly | src/anneal/DeadCodeAnalyzer.cpp:67-161 | without such calls a function is optimistically alive exactly when it is derivable |
| Derivations.PessimisticExactly | src/anneal/DeadCodeAnalyzer.cpp:67-74 | a function is pessimistically alive exactly when calls of Proven confidence lead to it from a function of a root's name |
| Liveness.BuiltGraphsAreSafe | src/callgraph/CallGraphBuilder.cpp:787-799 | a graph whose virtual calls were registered as the builder does has no such edge among what the queries show, synthesized edges included |
| Liveness.Analyzer.AnalyzePessimistic | src/anneal/DeadCodeAnalyzer.cpp:28-31 | stores the least solution of the pessimistic rules: exactly the functions that Proven calls lead to from a root |
| Liveness.Analyzer.AnalyzeOptimistic | src/anneal/DeadCodeAnalyzer.cpp:33-36 | stores the result of the optimistic walk, which holds every derivable function, and no other when no virtual edge has Unknown confidence; then, and where no class is constructed, it is the least solution |
| Liveness.Analyzer.GetResults | src/anneal/DeadCodeAnalyzer.cpp:165-192 | one verdict for each display name: Alive exactly when some function of that name is in the pessimistic set, OptimisticallyAlive exactly when none is and some is in the optimistic one, Dead exactly when none is in either |
| Wire.FromLeOfLe | src/anneal/Checkpoint.cpp:68-76 | little-endian write and read are inverse |
| Wire.CountedBack | src/callgraph/Snapshot.cpp:120-127 | the remaining-bytes check of a count never stops a list that was written |
| Wire.ParseOfEncode | src/anneal/Checkpoint.cpp:306-606 | for every record layout what was written is read back, and nothing after it is touched |
| Wire.Reader.Number | src/anneal/Checkpoint.cpp:98-120 | the cursor reader takes exactly its bytes, or fails, yields zero and stays |
| Wire.Reader.Text | src/anneal/Checkpoint.cpp:121-128 | the same for length-prefixed strings |
| Wire.Reader.Item | src/anneal/Checkpoint.cpp:433-606 | reading a record field by field with a failure flag is parsing it |
| Journal.FrameBack | src/anneal/Checkpoint.cpp:777-790 | a framed record at the front of any bytes is read back whole |
| Journal.TornFrame | src/anneal/Checkpoint.cpp:664-673 | every proper prefix of a frame is rejected |
| Journal.RecordBack | src/anneal/Checkpoint.cpp:675-725 | a writable record decodes from its payload |
| Journal.LoadPrefix | src/anneal/Checkpoint.cpp:662-727 | loading a journal cut at any byte gives the replay of exactly the records wholly before the cut |
| Journal.LoadAll | src/anneal/Checkpoint.cpp:662-727 | loading an uncut journal replays all of it |
| Journal.TornTailHidesAppends | src/anneal/Checkpoint.cpp:640-642 | one left-over kind byte of a torn frame hides the record appended next, whichever it is, when its payload has fewer than 2^24 bytes |
| Reopen.SplitAtCut | src/anneal/Checkpoint.cpp:664-673 | a journal cut anywhere is the whole records before the cut and, off a boundary, a proper part of the next frame |
| Reopen.TornTailLosesARecord | src/anneal/Checkpoint.cpp:640-642 | behind every proper part of every frame there is a record that changes the state when read and is not read back |
| Reopen.AppendsAreReadBack | src/anneal/Checkpoint.cpp:640-673 | whatever is appended to a reopened journal is replayed after its whole records if and only if it was cut between two records |
| WireFormats.LeIs | src/anneal/Checkpoint.cpp:68-76 | numbers are written least significant byte first, in four or eight bytes |
| WireFormats.ReusableIs | src/anneal/Checkpoint.cpp:619-634 | a journal is taken up exactly when it starts with the bytes of VYCJ, version 8 and the fingerprint |
| WireFormats.FramesAreRead | src/anneal/Checkpoint.cpp:662-673 | a frame is read exactly when the bytes start with kind, length, payload and the payload's checksum; a wrong checksum or a cut frame is not |
| WireFormats.ChecksumStep | src/anneal/Checkpoint.cpp:45-52 | the checksum runs over the payload byte by byte |
| WireFormats.ChecksumIs | src/anneal/Checkpoint.cpp:45-52 | it is FNV-1a: the published sums of three strings |
| WireFormats.AttemptIs | src/anneal/Checkpoint.cpp:792-799 | an attempt is of kind 1: phase byte, path behind its length, time and size |
| WireFormats.Phase1Is | src/anneal/Checkpoint.cpp:818-831 | a phase-1 completion is of kind 2: path, time, size and the contribution |
| WireFormats.Phase2Is | src/anneal/Checkpoint.cpp:833-846 | a phase-2 completion is of kind 3: path, time, size, hash and diagnostics |
| Checkpoint.ReadFrame | src/anneal/Checkpoint.cpp:664-673 | the frame loop's reader computes the next frame or stops |
| Checkpoint.AnnealCheckpoint.constructor | src/anneal/Checkpoint.cpp:614-658 | reuses a journal with matching header and loads it, starts a fresh one otherwise; of a whole journal each unit's last completion is then held, stamp and contents |
| Checkpoint.AnnealCheckpoint.LoadRecords | src/anneal/Checkpoint.cpp:662-727 | the loop computes the loading function on any bytes; of the bytes of any records it then holds, for each unit, stamp and payload of its last phase-1 record and stamp, hash and diagnostics of its last phase-2 record |
| Checkpoint.ReplayHoldsLast | src/anneal/Checkpoint.cpp:695-720 | the replay of any log holds those of the last records, and nothing for a unit without one |
| Checkpoint.AnnealCheckpoint.ReplaysTheLast | src/anneal/Checkpoint.cpp:744-773 | what is replayed for a unit is what its last completion recorded, and only for the same stamp, and in phase 2 the same hash of the index set |
| Checkpoint.AnnealCheckpoint.CountAttempt | src/anneal/Checkpoint.cpp:803-809 | counts on for the same stamp, restarts for another |
| Checkpoint.AnnealCheckpoint.RecordAttempt | src/anneal/Checkpoint.cpp:792-810 | file and counters both advance by this record |
| Checkpoint.AnnealCheckpoint.RecordPhase1 | src/anneal/Checkpoint.cpp:818-831 | the same; the completion clears the unit's phase-1 counter |
| Checkpoint.AnnealCheckpoint.RecordPhase2 | src/anneal/Checkpoint.cpp:833-846 | the same for phase 2 |
| Checkpoint.AttemptsAreStarts | include/vycor/anneal/Checkpoint.h:125-129 | the counter is the number of attempts for that stamp since the last completion or stamp change, for every journal |
| Checkpoint.StartsAreCounted | include/vycor/anneal/Checkpoint.h:125-129 | that is the number of attempt records for the phase, unit and stamp behind which there is no completion of the phase and no attempt with another stamp |
| Checkpoint.ReloadAgrees | src/anneal/Checkpoint.cpp:800-810 | reopening the bytes written gives the counters held in memory |
| Checkpoint.HeaderIsReusable | src/anneal/Checkpoint.cpp:646-652 | a header written for a fingerprint is accepted for it |
| Resume.Plan | src/anneal/Analyzer.cpp:1341-1363 | the units to parse are exactly those neither replayed nor given up; what is replayed of a unit is what its parse gave |
| Resume.StartKeeps | src/anneal/Analyzer.cpp:1395-1400 | an attempt record before a pending parse keeps each unit's history within its bounds |
| Resume.DoneKeeps | src/anneal/Analyzer.cpp:1407 | so does the completion record |
| Resume.Phase1Run | src/anneal/Analyzer.cpp:1338-1417 | a run killed after any number of appends keeps the histories, parses nothing settled again, and settles everything if it lives long enough; the index then holds what each completed unit's parse gave |
| Resume.AtMostTwoDeaths | include/vycor/anneal/Checkpoint.h:55-57 | such histories mean at most two starts of a unit, one completion and none parsed again after it, so at most two deaths on one unit and at most twice the units in all |
| Resume.TotalDeathsAre | include/vycor/anneal/Checkpoint.h:55-57 | the total is the sum over the units of recorded starts less recorded completions |
| Resume.CountsAre | include/vycor/anneal/Checkpoint.h:55-57 | starts, completions and repeated parses are numbers of records in the journal |
| Resume.FoundContribution | src/anneal/Checkpoint.cpp:744-757 | what is found of a unit is what its parse gave, when only that was ever recorded of it |
| Resume.FoundIsSettled | src/anneal/Checkpoint.cpp:733-757 | the bytes on disk hold a completion of the unit, or both its attempts, if and only if the history says it is settled |
| Resume.DoneIsFound | src/anneal/Checkpoint.cpp:744-757 | a completed unit is found on disk with its stamp and what its parse gave |
| Resume.Runs | src/anneal/Analyzer.cpp:1296-1417 | hence these bounds hold over every sequence of killed and resumed runs; the file stays a reusable journal in which every completed unit is found with its stamp and what its parse gave, and after one run that lives long enough it holds for every unit that or two attempts |
| ExceptionEscape.GlobalIndex.AddFunctionSummary | src/anneal/GlobalIndex.cpp:270-292 | the merged entry of each name sums up exactly what was ever told of it, at the site it was first told with |
| ExceptionEscape.GlobalIndex.LookupIsFacts | src/anneal/GlobalIndex.cpp:294-300 | what a lookup finds is that sum, and its site the first told |
| ExceptionEscape.MergeOrderDoesNotMatter | src/anneal/GlobalIndex.cpp:270-292 | the verdict on a name does not depend on the order in which summaries were merged |
| ExceptionEscape.DiscoverAll | src/anneal/Analyzer.cpp:1156-1158 | all calls of an expanded function are found, each with a parent one level up, and the queue stays sorted by depth |
| ExceptionEscape.ChainToIsChain | src/anneal/Analyzer.cpp:1141-1147 | following parents gives a chain of unguarded calls through summarized, non-noexcept functions, no longer than the depth found |
| ExceptionEscape.BuildChain | src/anneal/Analyzer.cpp:1142-1145 | the printed chain is that chain |
| ExceptionEscape.ChainCovered | src/anneal/Analyzer.cpp:1133-1159 | every chain no longer than the depth the queue has come to was followed, and once the queue is empty every chain of at most sixteen calls |
| ExceptionEscape.NoneIsShorter | src/anneal/Analyzer.cpp:1128-1160 | no chain shorter than the one to the front of the queue ends in a throw |
| ExceptionEscape.NoEscape | src/anneal/Analyzer.cpp:1161-1162 | no hit means no escape within sixteen calls |
| ExceptionEscape.Search | src/anneal/Analyzer.cpp:1122-1160 | a hit if and only if an exception can escape the root, with a real chain to the throw, and none has fewer calls |
| EscapeReport.AnalyzeExceptionEscape | src/anneal/Analyzer.cpp:1106-1175 | in terms of the entries told: a name is reported if and only if some entry makes it noexcept and some entry throws or a chain of at most sixteen unguarded calls, through functions no entry makes noexcept, leads to one that does; once each, by file, line and name in character order, each with the site first told and its own throw or a shortest such chain |
| EscapeReport.EscapeInToldTerms | src/anneal/GlobalIndex.cpp:270-300 | the verdict on the merged entries is that on the entries told |
| EscapeReport.LexIs | src/anneal/Analyzer.cpp:1115-1119 | strings are compared by the first character that differs, a prefix first |
| EscapeReport.SortedRoots | src/anneal/Analyzer.cpp:1110-1119 | the noexcept entries, each as often as it is there, ordered by file, line and name |
| ExceptionEscape.LeavesIff | src/anneal/Analyzer.cpp:1136-1153 | an exception leaves a root, out of a function that is not noexcept, if and only if the root is reported on the facts without the throws of noexcept functions; and then it is reported |
| ExceptionEscape.BoundaryIsReported | src/anneal/Analyzer.cpp:1136-1153 | a root is reported whose only unguarded call is of a noexcept function that throws |
| GraphSnapshot.RebuiltTus | src/callgraph/Snapshot.cpp:761-765 | the rebuilt provenance lists each slot as often as its record names the TU |
| GraphSnapshot.RebuildCopies | src/callgraph/Snapshot.cpp:733-766 | installing the saved edges does to slots, index and adjacency what compacting does |
| GraphSnapshot.RebuildOk | src/callgraph/Snapshot.cpp:733-766 | loading gives valid tables for the same registrations with exactly the live slots |
| GraphSnapshot.PushedOk | src/callgraph/Snapshot.cpp:773-804 | both reverse maps rebuilt from forward pairs are exact transposes for the same pairs |
| GraphSnapshot.DecodeOfEncode | src/callgraph/Snapshot.cpp:278-380 | a written section decodes to its contents and is consumed exactly |
| GraphSnapshot.InvertTus | src/callgraph/Snapshot.cpp:314-321 | the inverted provenance names each TU as often as it registered the edge |
| GraphSnapshot.EmitEdges | src/callgraph/Snapshot.cpp:323-347 | the records are the live slots in order with counts and contributors |
| GraphSnapshot.Save | src/callgraph/Snapshot.cpp:278-380 | the section is the encoding of the captured graph, produced exactly when it fits the widths |
| WireFormats.EdgeIs | src/callgraph/Snapshot.cpp:323-347 | an edge is written as three ids, a byte each for kind, confidence and context by their place in the enumerations, depth, count, and its units behind their number |
| WireFormats.NodeIs | src/callgraph/Snapshot.cpp:291-312 | a node as two ids, file, line, a byte of flags, class, and its contributors behind their number |
| WireFormats.SectionIs | src/callgraph/Snapshot.cpp:278-380 | a section as strings, nodes, edges, derived classes, overrides, implementing classes and returned functions, each list behind its length |
| WireFormats.DecodedIdsAreKnown | src/callgraph/Snapshot.cpp:679-684 | a section is refused unless each id of its edges and pairs refers to its strings and each edge is counted |
| GraphSnapshot.Load | src/callgraph/Snapshot.cpp:666-812 | a graph exactly when the section decodes, then with the rebuilt tables and relations |
| SnapshotRoundTrip.CapturedIdsIn | src/callgraph/Snapshot.cpp:679-684 | no id bounds check stops a saved section |
| SnapshotRoundTrip.SaveThenLoad | src/callgraph/Snapshot.cpp:278-812 | loading what was saved succeeds if and only if the graph's numbers stay within 32 bits, and gives the compacted graph: same ids, slots, counts, index, adjacency, registrations and relations |
| SnapshotRoundTrip.FitsWithin32 | src/callgraph/Snapshot.cpp:278-380 | the section fits its widths exactly when string, edge and pair totals, counts and depths of the graph do; contributor lists need no bound |
| SnapshotRoundTrip.ContributorsWithinRefs | src/callgraph/Snapshot.cpp:323-347 | no record names more contributors than its edge has references |
| SnapshotRoundTrip.SameProvenance | src/callgraph/Snapshot.cpp:761-765 | what was loaded lists the same provenance as what was compacted |
| NodeSnapshot.EmitNodes | src/callgraph/Snapshot.cpp:287-312 | each node is written once, under the ids of its two names, with its contributors |
| NodeSnapshot.LoadedBack | src/callgraph/Snapshot.cpp:690-731 | installing what was written gives the same nodes, an exact display-name index and both contributor maps for the same contributions |
| NodeSnapshot.SaveThenLoadBoth | src/callgraph/Snapshot.cpp:278-812 | edges and nodes saved and loaded together: success if and only if the numbers of both stay within 32 bits, and then the compacted graph and the same nodes and contributions come back |
| ControlFlowSets.KeyIsInjective | src/callgraph/ControlFlowIndex.cpp:25-70 | two sets with the same length-prefixed key are equal |
| ControlFlowSets.InternSet | src/callgraph/ControlFlowIndex.cpp:125-176 | the index returned stands for exactly this set; only the empty set has index 0 |
| ControlFlowSets.SetsAreDistinct | src/callgraph/ControlFlowIndex.cpp:125-176 | no set is stored twice |
| ControlFlow.PushAllOk | src/callgraph/ControlFlowIndex.cpp:178-206 | listing a new record under its keys keeps all six maps listing exactly the live records |
| ControlFlow.ControlFlowIndex.InternContext | src/callgraph/ControlFlowIndex.cpp:208-245 | the stored record materializes to the context given, with usrs defaulted to display names |
| ControlFlow.ControlFlowIndex.AddCallSiteContext | src/callgraph/ControlFlowIndex.cpp:208-250 | exactly this context joins the contents, field by field as given, a missing usr filled in with the display name; maps, provenance and count stay exact |
| ControlFlow.MaterializedGrows | src/callgraph/ControlFlowIndex.cpp:252-273 | growing interner or set tables changes no materialized context |
| ControlFlow.MappedSame | src/callgraph/ControlFlowIndex.cpp:457-466 | a record remapped into another index reads as the original |
| ControlFlow.RemapRaii | src/callgraph/ControlFlowIndex.cpp:445-455 | RAII sets, stored in id space, keep their meaning because ids are remapped before the key is built |
| ControlFlow.ControlFlowIndex.Absorb | src/callgraph/ControlFlowIndex.cpp:421-467 | the shard's live contexts follow this index's own, nothing else changes |
| ControlFlow.ControlFlowIndex.Candidates | src/callgraph/ControlFlowIndex.cpp:483-496 | the candidates are exactly the units' own contexts, then all without provenance |
| ControlFlow.Sweep | src/callgraph/ControlFlowIndex.cpp:505-529 | exactly the leaving contexts are tombstoned and counted, and their keys noted |
| ControlFlow.Unlist | src/callgraph/ControlFlowIndex.cpp:531-561 | one scrub of the affected lists and dropping the units' lists restores all maps |
| ControlFlow.MaterializedKilled | src/callgraph/ControlFlowIndex.cpp:505-529 | what remains after the tombstones is the contents without the leaving contexts, in order |
| ControlFlow.RemainingIs | src/callgraph/ControlFlowIndex.cpp:483-529 | a context goes exactly when its unit is among those given, or it has none and its site is spelled with one of their paths and a colon in front; every other stays as often as it was |
| ControlFlow.RemainingInOrder | src/callgraph/ControlFlowIndex.cpp:505-529 | removal works on each stretch of contexts by itself, so what stays keeps its order |
| ControlFlow.ControlFlowIndex.RemoveTUs | src/callgraph/ControlFlowIndex.cpp:473-563 | exactly the contexts of the given TUs go, and those without provenance whose site starts with a given path and a colon, the others staying in order and as often; the number gone is returned; usr lists may be left empty |
| ControlFlow.ControlFlowIndex.Compact | src/callgraph/ControlFlowIndex.cpp:565-605 | contents, order and count stay without tombstones, and no usr list is empty |
| ContextAnswers.ListsAre | src/callgraph/ControlFlowIndex.cpp:178-206 | a live context is listed under its two usrs, under a display name that differs from its usr, under its site and its unit, and apart when it has no unit |
| ContextAnswers.OnlyLiveAreListed | src/callgraph/ControlFlowIndex.cpp:178-206 | nothing else is listed, and each list ascends |
| ContextLookups.ContextsFor | src/callgraph/ControlFlowIndex.cpp:275-289 | a lookup reads the contexts with that usr in their order, or without any those with that display name, except that an emptied usr list hides the latter |
| ContextLookups.ContextsForCallee | src/callgraph/ControlFlowIndex.cpp:346-357 | the contexts with that callee usr, or else those with that callee name, each as often as it is there, if and only if the name has no emptied list or is no context's callee name; otherwise none |
| ContextLookups.ContextsForCaller | src/callgraph/ControlFlowIndex.cpp:359-370 | the same for callers |
| ContextLookups.EmptiedIff | src/callgraph/ControlFlowIndex.cpp:531-541 | a list still there is empty exactly when no context has its usr |
| ContextLookups.LookupMissesAfterRemoval | src/callgraph/ControlFlowIndex.cpp:473-563 | two contexts, one removed: the lookup by the display name of the other finds nothing, and finds it after compacting |

## Left out

- LockTheorems.CollectPaths: the list of skipped hubs is only bounded, here and in FindCallChain, because it depends on what the prunes cut off.
- GraphViews.FindCallChainIn: works on a view that tabulates the edge queries once per node, where the program asks lazily; sums such as distance plus depth plus one are unbounded, which agrees with 32-bit sums as distances never exceed the number of nodes.
- CallGraphStore.CallGraph.AddEdge: interns the unit's path before the edge is stored, the program after; the ids of a new path and of later strings are the same either way. Reference counts and slot numbers do not wrap.
- CallGraphStore.CallGraph.RemoveTUs: nodes and the maps beside them are a class of their own, NodeStore.Nodes, with its own interner; derived classes and effective implementations are in neither, and snapshots carry their pairs as uninterpreted values with id checks.
- WarmRefresh.RunTool: assumes that a finished parse depends only on its own file, on the files it reports and on paths it found missing, that a file with the same size and second is the same, that files do not change during a run and move forward between runs, and that files carry a time after the first second of the epoch, which stands for a missing file. Relation pairs are never removed, and node metadata and first-seen order are not compared.
- WarmRuns.RunAll: nodes and control-flow contexts are refreshed in WarmIndexes and not carried through saved snapshots here; the meta section is passed on as a value.
- DispatchTheorems.Dispatch: assumes distinct files. Runner, markers and shard contents are choices of the environment; what a consumed shard does below the level of its batch is not modelled, nor are threads, temporary files and timing.
- DispatchLoss.PoisonedAreTheLost: assumes a runner that fails exactly the batches with a bad unit, readable shards, and one marker per batch.
- Liveness.Analyzer.AnalyzeOptimistic: with virtual edges of Unknown confidence, which graphs as built do not have, the result depends on the order of the walk; only the bounds of DeadCodeTheorems.WalkedIsBetween and Derivations.OptimisticIsDerivable are then stated.
- EscapeReport.AnalyzeExceptionEscape: says nothing of entries with an empty name, since the program uses the empty string for no hit; the message text is left out.
- Resume.Runs: serial parses only, with stamps that do not change and appends that are all or nothing; parallel and isolated phase 1 and the replay of phase 2 are left out.
- Journal.LoadPrefix: journals whose payloads are shorter than 2^32 - 4 bytes, since the loader adds 4 to a 32-bit length.
- SnapshotRoundTrip.SaveThenLoad: a save that does not fit 32 bits, which the program writes truncated, is taken as failing; strings hold bytes; an enum code out of range is refused where the program would cast it; read-only loads, the header, the meta section and the other sections are left out.
- NodeSnapshot.SaveThenLoadBoth: the edge half and the node half are two objects with the same interner table, where the program has one graph.
- ControlFlow.ControlFlowIndex.AddCallSiteContext: as long as table sizes and string lengths fit 32 bits; the lookups by site and caller together and the protected and unprotected calls are left out.
- Each public method of an index is one atomic step; the locks inside the indexes are not modelled.
- The channel index, the type-relation index and the other members of the global index, collapse filters, check sets, rules and templates: smaller or simpler relatives of what is modelled.
- Clang visitors, matchers and the compilation database, process spawning, signals, file input and output, JSON, command-line options and message texts.
- Collision freedom of the FNV checksums and hashes.

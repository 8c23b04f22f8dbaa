/** The queries as the call graph runs them, and the view the path tools search
    (src/callgraph/CallGraph.cpp:215-354, 377-387). */
module GraphViews {
  import opened EdgeTypes
  import opened Sequences
  import opened Registrations
  import opened EdgeTables
  import opened Relations
  import opened CallGraphStore
  import opened GraphQueries
  import opened QueryAnswers
  import opened Corridor
  import opened ChainTheorems
  import ChainSearch
  import LockSearch
  import LockTheorems

  function ValueOf(g: CallGraph): Graph
    reads g
  {
    Graph(g.Tab(), g.Overrides(), g.Returns())
  }

  /** Every graph the mutators can produce satisfies what the queries rely on. */
  lemma ValidIsGraphOk(g: CallGraph)
    requires g.Valid()
    ensures GraphOk(ValueOf(g))
  {
  }

  // ---- the query loops ---------------------------------------------------------------------

  lemma {:induction false} FreshAppend(end: End, seen: set<(Id, Id)>, candidates: seq<EdgeRef>, c: EdgeRef)
    ensures Fresh(end, seen, candidates + [c])
         == Fresh(end, seen, candidates) + (if Pair(c, end) in seen + Pairs(end, candidates) then [] else [c])
    decreases |candidates|
  {
    if candidates == [] {
      assert [] + [c] == [c];
    } else {
      var d := candidates[0];
      var seen' := if Pair(d, end) in seen then seen else seen + {Pair(d, end)};
      FreshAppend(end, seen', candidates[1..], c);
      assert (candidates + [c])[1..] == candidates[1..] + [c];
      assert candidates == [d] + candidates[1..];
      assert seen' + Pairs(end, candidates[1..]) == seen + Pairs(end, candidates);
    }
  }

  /** What the result and the seen-set are after a run of candidates. */
  ghost predicate Collected(end: End, direct: seq<EdgeRef>, seen0: set<(Id, Id)>, candidates: seq<EdgeRef>,
                            result: seq<EdgeRef>, seen: set<(Id, Id)>)
  {
    result == direct + Fresh(end, seen0, candidates) && seen == seen0 + Pairs(end, candidates)
  }

  /** One candidate: shown unless its pair was seen. */
  method Collect(end: End, c: EdgeRef, result: seq<EdgeRef>, seen: set<(Id, Id)>,
                 ghost direct: seq<EdgeRef>, ghost seen0: set<(Id, Id)>, ghost candidates: seq<EdgeRef>)
    returns (result': seq<EdgeRef>, seen': set<(Id, Id)>)
    requires Collected(end, direct, seen0, candidates, result, seen)
    ensures Collected(end, direct, seen0, candidates + [c], result', seen')
  {
    FreshAppend(end, seen0, candidates, c);
    result', seen' := result, seen;
    if Pair(c, end) !in seen {
      seen' := seen + {Pair(c, end)};
      result' := result + [c];
    }
    assert seen' == seen0 + Pairs(end, candidates + [c]);
    assert direct + (Fresh(end, seen0, candidates) + [c]) == direct + Fresh(end, seen0, candidates) + [c];
  }

  method CollectDirect(t: Tables, list: seq<nat>) returns (result: seq<EdgeRef>)
    ensures result == Direct(t, list)
  {
    result := [];
    for i := 0 to |list|
      invariant result == Direct(t, list[..i])
    {
      assert list[..i + 1][..i] == list[..i];
      if Live(t, list[i]) && t.edges[list[i]].key.kind != FunctionPointerReturn {
        result := result + [t.edges[list[i]].key];
      }
    }
    assert list[..|list|] == list;
  }

  /** The synthesized edges of one slot of a caller. */
  method CollectFan(k: EdgeRef, targets: seq<Id>, deferred: bool, result0: seq<EdgeRef>, seenBefore: set<(Id, Id)>,
                    ghost direct: seq<EdgeRef>, ghost seen0: set<(Id, Id)>, ghost candidates: seq<EdgeRef>)
    returns (result: seq<EdgeRef>, seen: set<(Id, Id)>)
    requires Collected(CalleeEnd, direct, seen0, candidates, result0, seenBefore)
    ensures Collected(CalleeEnd, direct, seen0, candidates + Fan(k, targets, deferred), result, seen)
  {
    result, seen := result0, seenBefore;
    assert candidates + [] == candidates;
    for j := 0 to |targets|
      invariant Collected(CalleeEnd, direct, seen0, candidates + Fan(k, targets[..j], deferred), result, seen)
    {
      var c := if deferred then Resolved(k, targets[j]) else Dispatched(k, targets[j]);
      result, seen := Collect(CalleeEnd, c, result, seen, direct, seen0, candidates + Fan(k, targets[..j], deferred));
      assert targets[..j + 1][..j] == targets[..j];
      assert candidates + Fan(k, targets[..j], deferred) + [c] == candidates + Fan(k, targets[..j + 1], deferred);
    }
    assert targets[..|targets|] == targets;
  }

  /** One pass over a caller's slots: transitive overrides, or the functions returned. */
  method CollectOutgoing(g: Graph, list: seq<nat>, deferred: bool, result0: seq<EdgeRef>, seenBefore: set<(Id, Id)>,
                         ghost direct: seq<EdgeRef>, ghost seen0: set<(Id, Id)>, ghost candidates: seq<EdgeRef>)
    returns (result: seq<EdgeRef>, seen: set<(Id, Id)>)
    requires Collected(CalleeEnd, direct, seen0, candidates, result0, seenBefore)
    ensures Collected(CalleeEnd, direct, seen0, candidates + Outgoing(g, list, deferred), result, seen)
  {
    hide Collected, Closure;
    result, seen := result0, seenBefore;
    assert candidates + [] == candidates;
    for i := 0 to |list|
      invariant Collected(CalleeEnd, direct, seen0, candidates + Outgoing(g, list[..i], deferred), result, seen)
    {
      assert list[..i + 1][..i] == list[..i];
      ghost var so := candidates + Outgoing(g, list[..i], deferred);
      if Fans(g.t, list[i], deferred) {
        var k := g.t.edges[list[i]].key;
        var targets := ComputeTargets(g, k, deferred);
        result, seen := CollectFan(k, targets, deferred, result, seen, direct, seen0, so);
        assert so + Fan(k, targets, deferred) == candidates + Outgoing(g, list[..i + 1], deferred);
      } else {
        assert Outgoing(g, list[..i + 1], deferred) == Outgoing(g, list[..i], deferred);
      }
    }
    assert list[..|list|] == list;
  }

  method ComputeTargets(g: Graph, k: EdgeRef, deferred: bool) returns (targets: seq<Id>)
    ensures targets == TargetsOf(g, k, deferred)
  {
    if deferred {
      targets := Image(g.returned.fwd, k.callee);
    } else {
      targets := TransitiveClosure(g.overrides.fwd, k.callee);
    }
  }

  /** calleeRefsOf. */
  method CalleeRefsOf(graph: CallGraph, caller: Id) returns (result: seq<EdgeRef>)
    ensures result == CalleeRefs(ValueOf(graph), caller)
  {
    var g := ValueOf(graph);
    result := [];
    if caller !in graph.outEdges {
      return;
    }
    var list := graph.outEdges[caller];
    result := CollectDirect(g.t, list);
    var seen := DispatchPairs(result);
    ghost var direct, seen0 := result, seen;
    assert direct + [] == direct;
    result, seen := CollectOutgoing(g, list, false, result, seen, direct, seen0, []);
    assert [] + Outgoing(g, list, false) == Outgoing(g, list, false);
    result, seen := CollectOutgoing(g, list, true, result, seen, direct, seen0, Outgoing(g, list, false));
  }

  method CollectEntering(g: Graph, list: seq<nat>, callee: Id, deferred: bool, result0: seq<EdgeRef>,
                         seenBefore: set<(Id, Id)>,
                         ghost direct: seq<EdgeRef>, ghost seen0: set<(Id, Id)>, ghost candidates: seq<EdgeRef>)
    returns (result: seq<EdgeRef>, seen: set<(Id, Id)>)
    requires Collected(CallerEnd, direct, seen0, candidates, result0, seenBefore)
    ensures Collected(CallerEnd, direct, seen0, candidates + Entering(g, list, callee, deferred), result, seen)
  {
    result, seen := result0, seenBefore;
    assert candidates + [] == candidates;
    for i := 0 to |list|
      invariant Collected(CallerEnd, direct, seen0, candidates + Entering(g, list[..i], callee, deferred), result, seen)
    {
      assert list[..i + 1][..i] == list[..i];
      ghost var so := candidates + Entering(g, list[..i], callee, deferred);
      if Fans(g.t, list[i], deferred) {
        var k := g.t.edges[list[i]].key;
        var c := if deferred then Resolved(k, callee) else Dispatched(k, callee);
        result, seen := Collect(CallerEnd, c, result, seen, direct, seen0, so);
        assert so + [c] == candidates + Entering(g, list[..i + 1], callee, deferred);
      } else {
        assert Entering(g, list[..i + 1], callee, deferred) == Entering(g, list[..i], callee, deferred);
      }
    }
    assert list[..|list|] == list;
  }

  /** One pass over the bases, or the returners, of a callee. */
  method CollectIncoming(g: Graph, sources: seq<Id>, callee: Id, deferred: bool, result0: seq<EdgeRef>,
                         seenBefore: set<(Id, Id)>,
                         ghost direct: seq<EdgeRef>, ghost seen0: set<(Id, Id)>, ghost candidates: seq<EdgeRef>)
    returns (result: seq<EdgeRef>, seen: set<(Id, Id)>)
    requires Collected(CallerEnd, direct, seen0, candidates, result0, seenBefore)
    ensures Collected(CallerEnd, direct, seen0, candidates + Incoming(g, sources, callee, deferred), result, seen)
  {
    result, seen := result0, seenBefore;
    assert candidates + [] == candidates;
    for i := 0 to |sources|
      invariant Collected(CallerEnd, direct, seen0, candidates + Incoming(g, sources[..i], callee, deferred), result,
        seen)
    {
      assert sources[..i + 1][..i] == sources[..i];
      ghost var so := candidates + Incoming(g, sources[..i], callee, deferred);
      result, seen := CollectEntering(g, Slots(g.t.inn, sources[i]), callee, deferred, result, seen, direct, seen0, so);
      assert so + Entering(g, Slots(g.t.inn, sources[i]), callee, deferred) == candidates
        + Incoming(g, sources[..i + 1], callee, deferred);
    }
    assert sources[..|sources|] == sources;
  }

  /** callerRefsOf. */
  method CallerRefsOf(graph: CallGraph, callee: Id) returns (result: seq<EdgeRef>)
    ensures result == CallerRefs(ValueOf(graph), callee)
  {
    var g := ValueOf(graph);
    result := CollectDirect(g.t, Slots(g.t.inn, callee));
    var seen := Pairs(CallerEnd, result);
    ghost var direct, seen0 := result, seen;
    assert direct + [] == direct;
    var bases := TransitiveClosure(g.overrides.rev, callee);
    result, seen := CollectIncoming(g, bases, callee, false, result, seen, direct, seen0, []);
    assert [] + Incoming(g, bases, callee, false) == Incoming(g, bases, callee, false);
    result, seen := CollectIncoming(g, Image(g.returned.rev, callee), callee, true, result, seen, direct, seen0,
      Incoming(g, bases, callee, false));
  }

  /** storedInDegree: live stored in-edges, nothing synthesized. */
  function StoredInDegree(t: Tables, list: seq<nat>): nat {
    if list == [] then 0
    else StoredInDegree(t, list[..|list| - 1]) + (if Live(t, list[|list| - 1]) then 1 else 0)
  }

  // ---- the view ------------------------------------------------------------------------------

  /** What the path tools see of a graph. */
  function View(g: Graph): CallView {
    CallView(map n: Id | n < |g.t.strings| :: CallerRefs(g, n),
             map n: Id | n < |g.t.strings| :: CalleeRefs(g, n),
             map n: Id | n < |g.t.strings| :: StoredInDegree(g.t, Slots(g.t.inn, n)))
  }

  predicate SameCall(e: EdgeRef, f: EdgeRef) {
    e.caller == f.caller && e.callee == f.callee && e.callSite == f.callSite
  }

  /** The filter decides alike on all the edges a graph may show for one call: same caller,
      callee and site. */
  ghost predicate FilterAgrees(g: Graph, admit: EdgeRef -> bool) {
    forall e, f :: Justified(g, e) && Justified(g, f) && SameCall(e, f) ==> admit(e) == admit(f)
  }

  lemma JustifiedCallerIn(g: Graph, e: EdgeRef)
    requires GraphOk(g) && Justified(g, e)
    ensures e.caller < |g.t.strings|
  {
    var i :| Justifies(g, i, e);
    assert Live(g.t, i);
  }

  /** A filter that agrees on every call keeps the corridor sound. */
  lemma AgreeingFilterIsDual(g: Graph, admit: EdgeRef -> bool)
    requires GraphOk(g) && FilterAgrees(g, admit)
    ensures Dual(View(g), admit, admit)
  {
    hide Justified, CallerRefs, CalleeRefs, GraphOk;
    forall n, e | e in View(g).CallersOf(n) && admit(e) && e.caller != n
      ensures CalleeEdge(View(g), admit, e.caller, n)
    {
      CallerRefsAreJustified(g, n, e);
      JustifiedCallerIn(g, e);
      JustifiedIsInCalleeRefs(g, e);
      var f :| f in CalleeRefs(g, e.caller) && Pair(f, CalleeEnd) == Pair(e, CalleeEnd);
      CalleeRefsAreJustified(g, e.caller, f);
      assert f in View(g).CalleesOf(e.caller) && admit(f) && f.callee == n;
    }
  }

  /** Without a filter find_call_chain is exact on every graph. */
  lemma AllowAllIsDual(g: Graph, starts: seq<Id>, maxFanIn: int)
    requires GraphOk(g)
    ensures var admit := QueryRegion(View(g), ALLOW_ALL, starts, maxFanIn).admit; Dual(View(g), admit, admit)
  {
    var admit := QueryRegion(View(g), ALLOW_ALL, starts, maxFanIn).admit;
    AgreeingFilterIsDual(g, admit);
  }

  /** The lock search filters only the reverse walk, so its corridor is sound on every graph. */
  lemma LockSearchIsDual(g: Graph, entries: seq<Id>, indirect: Option<Id>, maxFanIn: nat)
    requires GraphOk(g)
    ensures Dual(View(g), LockTheorems.QueryRegion(View(g), entries, indirect, maxFanIn).admit, LockTheorems.AnyEdge())
  {
    var any := LockTheorems.AnyEdge();
    AgreeingFilterIsDual(g, any);
    var admit := LockTheorems.QueryRegion(View(g), entries, indirect, maxFanIn).admit;
    forall n, e | e in View(g).CallersOf(n) && admit(e) && e.caller != n
      ensures CalleeEdge(View(g), any, e.caller, n)
    {
      assert any(e);
    }
  }

  lemma ViewCallersAreDistinct(g: Graph)
    requires GraphOk(g)
    ensures NoRepeatedCallers(View(g))
  {
    forall n ensures Distinct(View(g).CallersOf(n)) {
      if n in View(g).callers {
        CallerRefsAreDistinct(g, n);
      }
    }
  }

  // ---- the tools on a graph --------------------------------------------------------------------

  /** find_call_chain on a call graph: exact without a filter, and with any filter that agrees
      on every call; sound always. */
  method FindCallChainIn(graph: CallGraph, filter: EdgeFilter, starts: seq<Id>, target: Id,
                         maxDepth: int, maxFanIn: int, maxPaths: int)
    returns (found: seq<ChainSearch.FoundPath>)
    requires graph.Valid()
    ensures var view := View(ValueOf(graph)); var r := QueryRegion(view, filter, starts, maxFanIn);
      && (FilterAgrees(ValueOf(graph), r.admit) || filter == ALLOW_ALL ==>
            found == Take(AllPaths(r, DepthLimit(maxDepth), target), ChainSearch.Limit(maxPaths)) && Distinct(found))
      && (target !in Layer(view, r.admit, r.starts, DepthLimit(maxDepth)) ==> found == [])
      && (forall p :: p in found ==> ChainSearch.IsChain(r, DepthLimit(maxDepth), target, p))
    ensures var g := ValueOf(graph);
      && (forall p :: p in found ==>
            AnswersQuery(View(g), filter, starts, target, maxDepth, maxFanIn, p) && MakesCalls(g, p))
      && (FilterAgrees(g, QueryRegion(View(g), filter, starts, maxFanIn).admit) || filter == ALLOW_ALL ==>
            && InOrder(View(g), found)
            && (|found| < maxPaths ==> forall p ::
                  AnswersQuery(View(g), filter, starts, target, maxDepth, maxFanIn, p) ==> p in found))
    ensures maxPaths >= 0 ==> |found| <= maxPaths
  {
    hide GraphOk, FilterAgrees, Layer, AllPaths, Dual, NoRepeatedCallers, View;
    var g := ValueOf(graph);
    ValidIsGraphOk(graph);
    var hubs;
    found, hubs := FindCallChain(View(g), filter, starts, Some(target), maxDepth, maxFanIn, maxPaths);
    ghost var r := QueryRegion(View(g), filter, starts, maxFanIn);
    if FilterAgrees(g, r.admit) {
      AgreeingFilterIsDual(g, r.admit);
    }
    AllowAllIsDual(g, starts, maxFanIn);
    ViewCallersAreDistinct(g);
    AllPathsAreDistinct(r, DepthLimit(maxDepth), target);
    hide IsDirect, IsDispatch, IsDeferral;
    forall p | p in found ensures MakesCalls(g, p) {
      AnswerMakesCalls(g, filter, starts, target, maxDepth, maxFanIn, p);
    }
  }

  /** Every edge of the path is a stored call, a dispatch to an override or a deferred call, from
      the node before it to the node behind it. */
  ghost predicate MakesCalls(g: Graph, p: ChainSearch.FoundPath) {
    && |p.nodes| == |p.edges| + 1
    && forall i :: 0 <= i < |p.edges| ==> MakesCall(g, p.nodes[i], p.nodes[i + 1], p.edges[i])
  }

  ghost predicate MakesCall(g: Graph, from: Id, to: Id, e: EdgeRef) {
    e.caller == from && e.callee == to && (IsDirect(g, e) || IsDispatch(g, e) || IsDeferral(g, e))
  }

  lemma AnswerMakesCalls(g: Graph, filter: EdgeFilter, starts: seq<Id>, target: Id, maxDepth: int, maxFanIn: int,
                         p: ChainSearch.FoundPath)
    requires GraphOk(g) && AnswersQuery(View(g), filter, starts, target, maxDepth, maxFanIn, p)
    ensures MakesCalls(g, p)
  {
    hide GraphOk, IsDirect, IsDispatch, IsDeferral, CallerRefs, CalleeRefs;
    forall i | 0 <= i < |p.edges| ensures MakesCall(g, p.nodes[i], p.nodes[i + 1], p.edges[i]) {
      assert LeadsOn(View(g), filter, p.nodes[i], p.nodes[i + 1], p.edges[i]);
      var stored, dispatched, deferred := CallersInParts(g, p.nodes[i + 1]);
    }
  }

  // ---- what the view holds ---------------------------------------------------------------------

  /** How many live slots lead to a node. */
  ghost function SlotsInto(g: Graph, n: Id): set<nat> {
    set i | 0 <= i < |g.t.edges| && g.t.edges[i].refs > 0 && g.t.edges[i].key.callee == n
  }

  /** The view lists for each interned node what the two queries show, and its stored calls. */
  lemma ViewIs(g: Graph, n: Id)
    requires GraphOk(g)
    ensures n in View(g).callers <==> n < |g.t.strings|
    ensures n < |g.t.strings| ==>
      && n in View(g).callees && n in View(g).degrees
      && View(g).callers[n] == CallerRefs(g, n) && View(g).callees[n] == CalleeRefs(g, n)
      && View(g).degrees[n] == |SlotsInto(g, n)|
  {
    var list := Slots(g.t.inn, n);
    assert Adjacency(g.t, CalleeEnd) == g.t.inn && Distinct(list);
    forall i: nat ensures i in list <==> i in SlotsInto(g, n) {
      InSlots(g, n, i);
    }
    forall i | i in list ensures Live(g.t, i) {
      InSlots(g, n, i);
    }
    hide GraphOk, CallerRefs, CalleeRefs;
    AllCounted(g.t, list);
    assert SlotsInto(g, n) == Members(list);
    DistinctSize(list);
  }

  lemma {:induction false} AllCounted(t: Tables, list: seq<nat>)
    requires forall i :: i in list ==> Live(t, i)
    ensures StoredInDegree(t, list) == |list|
  {
    if list != [] {
      assert list[|list| - 1] in list;
      AllCounted(t, list[..|list| - 1]);
    }
  }

  lemma {:induction false} DistinctSize(list: seq<nat>)
    requires Distinct(list)
    ensures |Members(list)| == |list|
  {
    if list != [] {
      var init, last := list[..|list| - 1], list[|list| - 1];
      DistinctSize(init);
      assert list == init + [last] && last !in init;
      assert Members(list) == Members(init) + {last};
    }
  }

  ghost function Members(list: seq<nat>): set<nat> {
    set i | i in list
  }

  /** query_locks_held on a call graph: always exact. */
  method LockPathsIn(graph: CallGraph, entries: seq<Id>, target: Id, maxDepth: nat, maxFanIn: nat, indirect: Option<Id>)
    returns (out: seq<LockSearch.RawLockPath>, skippedHubs: map<Id, nat>, truncated: bool)
    requires graph.Valid()
    ensures maxDepth == 0 ==> out == [] && !truncated
    ensures forall n :: n in skippedHubs ==>
      skippedHubs[n] == View(ValueOf(graph)).InDegree(n) && 0 < maxFanIn < skippedHubs[n]
    ensures var r := LockTheorems.QueryRegion(View(ValueOf(graph)), entries, indirect, maxFanIn);
      maxDepth > 0 ==>
        && out == Take(LockTheorems.AllPaths(r, maxDepth, target), LockSearch.MAX_PATHS)
        && (truncated <==> |LockTheorems.AllPaths(r, maxDepth, target)| >= LockSearch.MAX_PATHS)
        && LockTheorems.Answered(View(ValueOf(graph)), entries, indirect, target, maxDepth, maxFanIn, out, truncated)
  {
    hide GraphOk, LockTheorems.Answered;
    var g := ValueOf(graph);
    ValidIsGraphOk(graph);
    LockSearchIsDual(g, entries, indirect, maxFanIn);
    out, skippedHubs, truncated :=
      LockTheorems.CollectPaths(View(g), entries, Some(target), maxDepth, maxFanIn, indirect);
  }

  // ---- a filter the corridor gets wrong ------------------------------------------------------------

  /** One call site that consumes pointers returned by two functions, with different
      confidence; both return the same target, the second registered first. */
  const FIRST := EdgeName("main", "first", "site", FunctionPointerReturn, Proven, Synchronous, 0)
  const SECOND := EdgeName("main", "second", "site", FunctionPointerReturn, Plausible, Synchronous, 0)
  const NAMES: seq<string> := ["main", "first", "site", "second", "target"]
  const SITE_EDGES := [
    StoredEdge(EdgeRef(0, 1, 2, FunctionPointerReturn, Proven, Synchronous, 0), 1),
    StoredEdge(EdgeRef(0, 3, 2, FunctionPointerReturn, Plausible, Synchronous, 0), 1)]

  function SplitGraph(): Graph {
    Graph(Tables(NAMES, SITE_EDGES,
                 map[SITE_EDGES[0].key := 0, SITE_EDGES[1].key := 1],
                 map[0 := [0, 1]], map[1 := [0], 3 := [1]], map[]),
          Relation(map[], map[]),
          Relation(map[3 := [4], 1 := [4]], map[4 := [3, 1]]))
  }

  lemma NamesAreDistinct()
    ensures Distinct(NAMES)
  {
    assert NAMES[0][0] == 'm' && NAMES[1][0] == 'f' && NAMES[2][1] == 'i' && NAMES[3][1] == 'e' && NAMES[4][0] == 't';
  }

  /** The strings known after each of the calls below. */
  lemma NamesStep()
    ensures KnownEdge([], FIRST, "") == NAMES[..3] && KnownEdge(NAMES[..3], SECOND, "") == NAMES[..4]
    ensures KnownPair(NAMES[..4], "second", "target") == NAMES && KnownPair(NAMES, "first", "target") == NAMES
  {
    NamesAreDistinct();
    assert NAMES[0] == "main" && NAMES[1] == "first" && NAMES[2] == "site" && NAMES[3] == "second"
      && NAMES[4] == "target";
    assert Known([], "main") == NAMES[..1] && Known(NAMES[..1], "first") == NAMES[..2];
    assert Known(NAMES[..2], "site") == NAMES[..3] && Known(NAMES[..3], "second") == NAMES[..4];
    assert Known(NAMES[..4], "target") == NAMES;
    assert NAMES[..3][0] == "main" && NAMES[..4][2] == "site" && NAMES[..4][3] == "second";
  }

  function OneEdge(): Tables {
    Tables(NAMES[..3], SITE_EDGES[..1], map[SITE_EDGES[0].key := 0], map[0 := [0]], map[1 := [0]], map[])
  }

  lemma EdgesStep()
    ensures Added(Tables(NAMES[..3], [], map[], map[], map[], map[]), SITE_EDGES[0].key, "", 0) == OneEdge()
    ensures Added(OneEdge().(strings := NAMES[..4]), SITE_EDGES[1].key, "", 0) == SplitGraph().t.(strings := NAMES[..4])
  {
    assert [] + [SITE_EDGES[0]] == SITE_EDGES[..1] && SITE_EDGES[..1] + [SITE_EDGES[1]] == SITE_EDGES;
    assert [] + [0] == [0] && [0] + [1] == [0, 1] && [] + [1] == [1];
    var t, t' := OneEdge().(strings := NAMES[..4]), SplitGraph().t;
    var key := SITE_EDGES[1].key;
    assert key !in t.index && t.index[key := 1] == t'.index;
    assert t.out[0 := [0, 1]] == t'.out && t.inn[3 := [1]] == t'.inn;
  }

  lemma ReturnsStep()
    ensures AddOrdered(AddOrdered(Relation(map[], map[]), 3, 4), 1, 4) == SplitGraph().returned
  {
    assert AddOrdered(Relation(map[], map[]), 3, 4) == Relation(map[3 := [4]], map[4 := [3]]) by {
      assert [] + [3] == [3];
    }
    assert [3] + [1] == [3, 1];
  }

  lemma IdAt(g: CallGraph, i: nat)
    requires g.Valid() && i < |g.strings|
    ensures g.strings[i] in g.ids && g.ids[g.strings[i]] == i
  {
    hide TablesOk, BothOk;
  }

  /** The calls that make it. */
  method BuildSplitGraph() returns (g: CallGraph)
    ensures fresh(g) && g.Valid() && ValueOf(g) == SplitGraph()
  {
    hide TablesOk, BothOk, Added, AddOrdered, Known, KnownEdge, KnownPair, OneEdge, SplitGraph, NAMES, SITE_EDGES;
    NamesStep();
    EdgesStep();
    ReturnsStep();
    g := new CallGraph();
    AddSplitEdges(g);
    g.AddFunctionReturn("second", "target");
    NameIds(g);
    g.AddFunctionReturn("first", "target");
    NameIds(g);
    SplitParts();
  }

  lemma SplitParts()
    ensures SplitGraph() == Graph(SplitGraph().t, Relation(map[], map[]), SplitGraph().returned)
    ensures SplitGraph().t.(strings := NAMES[..4]).(strings := NAMES) == SplitGraph().t
  {
  }

  method AddSplitEdges(g: CallGraph)
    requires g.Valid() && g.strings == [] && g.Tab() == Tables([], [], map[], map[], map[], map[])
    modifies g
    ensures g.Valid() && g.Tab() == SplitGraph().t.(strings := NAMES[..4])
    ensures g.Overrides() == old(g.Overrides()) && g.Returns() == old(g.Returns())
  {
    hide TablesOk, BothOk, Added, Known, KnownEdge, OneEdge, SplitGraph;
    NamesStep();
    EdgesStep();
    g.AddEdge(FIRST, "");
    PrefixIds(g);
    g.AddEdge(SECOND, "");
    PrefixIds(g);
  }

  lemma PrefixIds(g: CallGraph)
    requires g.Valid() && 3 <= |g.strings| <= 4 && g.strings <= NAMES
    ensures "main" in g.ids && g.ids["main"] == 0 && "first" in g.ids && g.ids["first"] == 1
    ensures "site" in g.ids && g.ids["site"] == 2
    ensures |g.strings| == 4 ==> "second" in g.ids && g.ids["second"] == 3
  {
    hide TablesOk, BothOk;
    IdAt(g, 0);
    IdAt(g, 1);
    IdAt(g, 2);
    if |g.strings| == 4 {
      IdAt(g, 3);
    }
  }

  lemma NameIds(g: CallGraph)
    requires g.Valid() && g.strings == NAMES
    ensures "first" in g.ids && g.ids["first"] == 1 && "second" in g.ids && g.ids["second"] == 3
    ensures "target" in g.ids && g.ids["target"] == 4
  {
    hide TablesOk, BothOk;
    IdAt(g, 1);
    IdAt(g, 3);
    IdAt(g, 4);
  }

  const ONLY_PLAUSIBLE := EdgeFilter({}, {Plausible}, true, Unknown, {})

  lemma SplitGraphIsOk()
    ensures GraphOk(SplitGraph())
  {
    var g := SplitGraph();
    var t := g.t;
    NamesAreDistinct();
    forall n ensures Distinct(Slots(Adjacency(t, CallerEnd), n)) && Lists(t, CallerEnd, {}, n) {}
    forall n ensures Distinct(Slots(Adjacency(t, CalleeEnd), n)) && Lists(t, CalleeEnd, {}, n) {}
  }

  lemma FreshPair(end: End, a: EdgeRef, b: EdgeRef)
    requires Pair(a, end) == Pair(b, end)
    ensures Fresh(end, {}, [a, b]) == [a]
  {
    assert [a, b][1..] == [b] && [b][1..] == [];
    assert Fresh(end, {} + {Pair(a, end)}, [b]) == [];
    assert [a] + [] == [a];
  }

  const SHOWN_PROVEN := EdgeRef(0, 4, 2, FunctionPointer, Proven, Synchronous, 0)
  const SHOWN_PLAUSIBLE := EdgeRef(0, 4, 2, FunctionPointer, Plausible, Synchronous, 0)

  /** The target's caller list meets returner `second` first and shows the Plausible edge. */
  lemma SplitGraphCallers()
    ensures CallerRefs(SplitGraph(), 4) == [SHOWN_PLAUSIBLE]
  {
    var g := SplitGraph();
    assert Closure(g.overrides.rev, 4) == [];
    assert Image(g.returned.rev, 4) == [3, 1] && [3, 1][..1] == [3] && [3][..0] == [];
    assert Entering(g, [1], 4, true) == [SHOWN_PLAUSIBLE] by { assert [1][..0] == []; }
    assert Entering(g, [0], 4, true) == [SHOWN_PROVEN] by { assert [0][..0] == []; }
    assert Incoming(g, [3], 4, true) == [SHOWN_PLAUSIBLE];
    assert Incoming(g, [3, 1], 4, true) == [SHOWN_PLAUSIBLE, SHOWN_PROVEN];
    FreshPair(CallerEnd, SHOWN_PLAUSIBLE, SHOWN_PROVEN);
    assert Direct(g.t, Slots(g.t.inn, 4)) == [] && Pairs(CallerEnd, []) == {};
    assert Incoming(g, [], 4, false) == [] && [] + [SHOWN_PLAUSIBLE, SHOWN_PROVEN] == [SHOWN_PLAUSIBLE, SHOWN_PROVEN];
    assert [] + [SHOWN_PLAUSIBLE] == [SHOWN_PLAUSIBLE];
  }

  /** The caller's callee list meets slot 0 first and shows the Proven edge. */
  lemma SplitGraphCallees()
    ensures CalleeRefs(SplitGraph(), 0) == [SHOWN_PROVEN]
  {
    var g := SplitGraph();
    var list := Slots(g.t.out, 0);
    assert list == [0, 1] && list[..1] == [0] && [0][..0] == [];
    assert Direct(g.t, [0]) == [] && Direct(g.t, list) == [];
    assert Outgoing(g, [0], false) == [] && Outgoing(g, list, false) == [];
    assert Fan(SITE_EDGES[0].key, [4], true) == [SHOWN_PROVEN] by { assert [4][..0] == []; }
    assert Fan(SITE_EDGES[1].key, [4], true) == [SHOWN_PLAUSIBLE] by { assert [4][..0] == []; }
    assert Outgoing(g, [0], true) == [SHOWN_PROVEN];
    assert Outgoing(g, list, true) == [SHOWN_PROVEN, SHOWN_PLAUSIBLE];
    FreshPair(CalleeEnd, SHOWN_PROVEN, SHOWN_PLAUSIBLE);
    assert DispatchPairs([]) == {} && [] + [SHOWN_PROVEN, SHOWN_PLAUSIBLE] == [SHOWN_PROVEN, SHOWN_PLAUSIBLE];
    assert [] + [SHOWN_PROVEN] == [SHOWN_PROVEN];
  }

  /** With a filter the corridor can hide a path: asked for Plausible edges only, the search
      from `main` to `target` finds nothing although the plain search has a path. */
  lemma FilteredCorridorHidesAPath()
    ensures var g := SplitGraph();
      var r := QueryRegion(View(g), ONLY_PLAUSIBLE, [0], 0);
      GraphOk(g) && !Dual(View(g), r.admit, r.admit) && !GateKeepsPaths(r, 1, 4)
  {
    hide CallerRefs, CalleeRefs, GraphOk;
    var g := SplitGraph();
    var r := QueryRegion(View(g), ONLY_PLAUSIBLE, [0], 0);
    SplitGraphIsOk();
    SplitGraphCallers();
    SplitGraphCallees();
    assert |g.t.strings| == 5;
    hide SplitGraph, GateKeepsPaths;
    assert View(g).CallersOf(4) == [SHOWN_PLAUSIBLE] && r.admit(SHOWN_PLAUSIBLE);
    assert View(g).CalleesOf(0) == [SHOWN_PROVEN];
    assert !CalleeEdge(View(g), r.admit, 0, 4);
    assert r.starts == {0};
    GateNeedsDual(View(g), r.admit, 4, SHOWN_PLAUSIBLE);
  }

  lemma MissedByTheGate()
    ensures var r := QueryRegion(View(SplitGraph()), ONLY_PLAUSIBLE, [0], 0);
      AllPaths(r, DepthLimit(1), 4) != [] && 4 !in Layer(View(SplitGraph()), r.admit, r.starts, DepthLimit(1))
  {
    hide View, GraphOk, SplitGraph, Dual, AllPaths, Layer;
    FilteredCorridorHidesAPath();
  }

  /** So find_call_chain, run on the graph those calls make, misses a path it should return. */
  method ChainMissed() returns (found: seq<ChainSearch.FoundPath>)
    ensures found == []
    ensures var r := QueryRegion(View(SplitGraph()), ONLY_PLAUSIBLE, [0], 0);
      AllPaths(r, DepthLimit(1), 4) != []
  {
    hide AllPaths, Layer, View, GraphOk, SplitGraph, Dual, FilterAgrees, ChainSearch.IsChain, QueryRegion;
    MissedByTheGate();
    var g := BuildSplitGraph();
    found := FindCallChainIn(g, ONLY_PLAUSIBLE, [0], 4, 1, 0, 10);
  }
}

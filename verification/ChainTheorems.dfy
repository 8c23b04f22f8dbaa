/** What find_call_chain returns: the paths themselves, each once, and when the corridor is
    allowed to cut them (src/query/GraphTools.cpp:355-503). */
module ChainTheorems {
  import opened EdgeTypes
  import opened Sequences
  import opened Corridor
  import opened ChainSearch

  /** Every path to `target`, in the order the search meets them. */
  ghost function AllPaths(r: Region, maxDepth: nat, target: Id): seq<FoundPath> {
    Plain(r, maxDepth, target, [], [])
  }

  // ---- the enumeration is exactly the set of paths -----------------------------------------

  lemma {:induction false} PlainIsSound(r: Region, maxDepth: nat, node: Id, path: seq<Id>, edges: seq<EdgeRef>,
                                        target: Id, p: FoundPath)
    requires |path| <= maxDepth + 1
    requires Walk(r, path + [node], edges) && (path + [node])[0] == target
    requires p in Plain(r, maxDepth, node, path, edges)
    ensures IsChain(r, maxDepth, target, p)
    decreases maxDepth + 1 - |path|, 1, 0
  {
    var path' := path + [node];
    if node in r.starts {
      ReverseReverse(path');
      ReverseReverse(edges);
    } else {
      PlainCallersAreSound(r, maxDepth, r.view.CallersOf(node), path', edges, target, p);
    }
  }

  lemma {:induction false} PlainCallersAreSound(r: Region, maxDepth: nat, callers: seq<EdgeRef>, path: seq<Id>,
                                                edges: seq<EdgeRef>, target: Id, p: FoundPath)
    requires 0 < |path| <= maxDepth + 1
    requires Walk(r, path, edges) && path[0] == target && path[|edges|] !in r.starts
    requires |edges| > 0 ==> !r.Hub(path[|edges|])
    requires forall e :: e in callers ==> e in r.view.CallersOf(path[|edges|])
    requires p in PlainCallers(r, maxDepth, callers, path, edges)
    ensures IsChain(r, maxDepth, target, p)
    decreases maxDepth + 1 - |path|, 2, |callers|
  {
    var e := callers[0];
    if p in PlainCaller(r, maxDepth, e, path, edges) {
      WalkExtends(r, path, edges, e);
      PlainIsSound(r, maxDepth, e.caller, path, edges + [e], target, p);
    } else {
      PlainCallersAreSound(r, maxDepth, callers[1..], path, edges, target, p);
    }
  }

  lemma {:induction false} PlainCallerIncluded(r: Region, maxDepth: nat, callers: seq<EdgeRef>, e: EdgeRef,
                                               path: seq<Id>, edges: seq<EdgeRef>, p: FoundPath)
    requires 0 < |path| <= maxDepth + 1 && e in callers
    requires p in PlainCaller(r, maxDepth, e, path, edges)
    ensures p in PlainCallers(r, maxDepth, callers, path, edges)
    decreases |callers|
  {
    if e != callers[0] {
      PlainCallerIncluded(r, maxDepth, callers[1..], e, path, edges, p);
    }
  }

  /** What a walk says about the step it takes at position `k`. */
  lemma WalkStep(r: Region, path: seq<Id>, edges: seq<EdgeRef>, k: nat)
    requires Walk(r, path, edges) && k < |edges|
    ensures path[k] !in r.starts && (k > 0 ==> !r.Hub(path[k]))
    ensures edges[k] in r.view.CallersOf(path[k]) && r.admit(edges[k]) && edges[k].caller == path[k + 1]
    ensures path[k + 1] !in path[..k + 1]
  {
  }

  lemma PlainStep(r: Region, maxDepth: nat, path: seq<Id>, edges: seq<EdgeRef>, e: EdgeRef, p: FoundPath)
    requires 0 < |path| <= maxDepth
    requires path[|path| - 1] !in r.starts && (|path| > 1 ==> !r.Hub(path[|path| - 1]))
    requires e in r.view.CallersOf(path[|path| - 1]) && r.admit(e) && e.caller !in path
    requires p in Plain(r, maxDepth, e.caller, path, edges + [e])
    ensures p in PlainAt(r, maxDepth, path, edges)
  {
    PlainCallerIncluded(r, maxDepth, r.view.CallersOf(path[|path| - 1]), e, path, edges, p);
  }

  lemma {:induction false} PlainIsComplete(r: Region, maxDepth: nat, path: seq<Id>, edges: seq<EdgeRef>, k: nat)
    requires Walk(r, path, edges) && k <= |edges| <= maxDepth && path[|edges|] in r.starts
    ensures FoundPath(Reverse(path), Reverse(edges)) in Plain(r, maxDepth, path[k], path[..k], edges[..k])
    decreases |edges| - k
  {
    assert path[..k] + [path[k]] == path[..k + 1];
    if k == |edges| {
      assert path[..k + 1] == path && edges[..k] == edges;
    } else {
      PlainIsComplete(r, maxDepth, path, edges, k + 1);
      assert edges[..k + 1] == edges[..k] + [edges[k]];
      WalkStep(r, path, edges, k);
      PlainStep(r, maxDepth, path[..k + 1], edges[..k], edges[k], FoundPath(Reverse(path), Reverse(edges)));
    }
  }

  /** The plain search returns exactly the paths from a start to the target within the depth
      limit that pass through no other start and expand no hub. */
  lemma AllPathsAreTheChains(r: Region, maxDepth: nat, target: Id, p: FoundPath)
    ensures p in AllPaths(r, maxDepth, target) <==> IsChain(r, maxDepth, target, p)
  {
    if p in AllPaths(r, maxDepth, target) {
      PlainIsSound(r, maxDepth, target, [], [], target, p);
    }
    if IsChain(r, maxDepth, target, p) {
      ReverseReverse(p.nodes);
      ReverseReverse(p.edges);
      PlainIsComplete(r, maxDepth, Reverse(p.nodes), Reverse(p.edges), 0);
    }
  }

  // ---- each path once --------------------------------------------------------------------

  lemma {:induction false} PlainExtends(r: Region, maxDepth: nat, node: Id, path: seq<Id>, edges: seq<EdgeRef>,
                                        p: FoundPath)
    requires |path| <= maxDepth + 1
    requires p in Plain(r, maxDepth, node, path, edges)
    ensures edges <= Reverse(p.edges)
    decreases maxDepth + 1 - |path|, 1, 0
  {
    if node in r.starts {
      ReverseReverse(edges);
    } else {
      var e := PlainCallersExtend(r, maxDepth, r.view.CallersOf(node), path + [node], edges, p);
    }
  }

  lemma {:induction false} PlainCallersExtend(r: Region, maxDepth: nat, callers: seq<EdgeRef>, path: seq<Id>,
                                              edges: seq<EdgeRef>, p: FoundPath)
    returns (e: EdgeRef)
    requires 0 < |path| <= maxDepth + 1
    requires p in PlainCallers(r, maxDepth, callers, path, edges)
    ensures e in callers && edges + [e] <= Reverse(p.edges)
    decreases maxDepth + 1 - |path|, 2, |callers|
  {
    if p in PlainCaller(r, maxDepth, callers[0], path, edges) {
      e := callers[0];
      PlainExtends(r, maxDepth, e.caller, path, edges + [e], p);
    } else {
      e := PlainCallersExtend(r, maxDepth, callers[1..], path, edges, p);
    }
  }

  ghost predicate NoRepeatedCallers(view: CallView) {
    forall n :: Distinct(view.CallersOf(n))
  }

  lemma {:induction false} PlainIsDistinct(r: Region, maxDepth: nat, node: Id, path: seq<Id>, edges: seq<EdgeRef>)
    requires |path| <= maxDepth + 1 && NoRepeatedCallers(r.view)
    ensures Distinct(Plain(r, maxDepth, node, path, edges))
    decreases maxDepth + 1 - |path|, 1, 0
  {
    if |path| <= maxDepth && node !in r.starts {
      PlainCallersAreDistinct(r, maxDepth, r.view.CallersOf(node), path + [node], edges);
    }
  }

  lemma {:induction false} PlainCallersAreDistinct(r: Region, maxDepth: nat, callers: seq<EdgeRef>, path: seq<Id>,
                                                   edges: seq<EdgeRef>)
    requires 0 < |path| <= maxDepth + 1 && NoRepeatedCallers(r.view) && Distinct(callers)
    ensures Distinct(PlainCallers(r, maxDepth, callers, path, edges))
    decreases maxDepth + 1 - |path|, 2, |callers|
  {
    if callers != [] {
      var e := callers[0];
      var first := PlainCaller(r, maxDepth, e, path, edges);
      var rest := PlainCallers(r, maxDepth, callers[1..], path, edges);
      if first != [] {
        PlainIsDistinct(r, maxDepth, e.caller, path, edges + [e]);
      }
      PlainCallersAreDistinct(r, maxDepth, callers[1..], path, edges);
      forall p | p in first ensures p !in rest {
        PlainExtends(r, maxDepth, e.caller, path, edges + [e], p);
        if p in rest {
          var f := PlainCallersExtend(r, maxDepth, callers[1..], path, edges, p);
          SameExtension(edges, e, f, Reverse(p.edges));
          assert false;
        }
      }
      DistinctConcat(first, rest);
    }
  }

  lemma SameExtension(edges: seq<EdgeRef>, e: EdgeRef, f: EdgeRef, all: seq<EdgeRef>)
    requires edges + [e] <= all && edges + [f] <= all
    ensures e == f
  {
    assert (edges + [e])[|edges|] == (edges + [f])[|edges|];
  }

  /** When no caller list repeats an edge, no path is returned twice. */
  lemma AllPathsAreDistinct(r: Region, maxDepth: nat, target: Id)
    requires NoRepeatedCallers(r.view)
    ensures Distinct(AllPaths(r, maxDepth, target))
  {
    PlainIsDistinct(r, maxDepth, target, [], []);
  }

  // ---- the tool ------------------------------------------------------------------------

  /** The corridor test in front of the search keeps every target that has a path. */
  ghost predicate GateKeepsPaths(r: Region, maxDepth: nat, target: Id) {
    AllPaths(r, maxDepth, target) != [] ==> target in Layer(r.view, r.admit, r.starts, maxDepth)
  }

  lemma GateIsSound(r: Region, maxDepth: nat, target: Id)
    requires Dual(r.view, r.admit, r.admit)
    ensures GateKeepsPaths(r, maxDepth, target)
  {
    if AllPaths(r, maxDepth, target) != [] {
      PlainNeedsReach(r, maxDepth, target, [], []);
      ReachInCorridor(r, r.admit, target, maxDepth);
    }
  }

  /** The shortest query that a one-sided edge breaks: from its caller to its callee. */
  lemma GateNeedsDual(view: CallView, admit: EdgeRef -> bool, n: Id, e: EdgeRef)
    requires e in view.CallersOf(n) && admit(e) && e.caller != n && !CalleeEdge(view, admit, e.caller, n)
    ensures !GateKeepsPaths(Region(view, {e.caller}, admit, 0), 1, n)
  {
    var r := Region(view, {e.caller}, admit, 0);
    var p := FoundPath(Reverse([n, e.caller]), Reverse([e]));
    assert [n] + [e.caller] == [n, e.caller] && [] + [e] == [e];
    assert Plain(r, 1, e.caller, [n], [] + [e]) == PlainAt(r, 1, [n, e.caller], [e]) == [p];
    PlainCallerIncluded(r, 1, view.CallersOf(n), e, [n], [], p);
    assert [] + [n] == [n];
    assert Layer(view, admit, {e.caller}, 0) == {e.caller};
    assert Layer(view, admit, {e.caller}, 1) == Grow(view, admit, {e.caller});
  }

  /** Exactly when the corridor never hides a path, whatever is asked: when every admitted
      caller edge, self edges aside, has an admitted counterpart among the caller's callee
      edges. */
  lemma CorridorIsExact(view: CallView, admit: EdgeRef -> bool)
    ensures Dual(view, admit, admit) <==>
            forall r: Region, maxDepth: nat, target: Id ::
              r.view == view && r.admit == admit ==> GateKeepsPaths(r, maxDepth, target)
  {
    if Dual(view, admit, admit) {
      forall r: Region, maxDepth: nat, target: Id | r.view == view && r.admit == admit
        ensures GateKeepsPaths(r, maxDepth, target)
      {
        GateIsSound(r, maxDepth, target);
      }
    } else {
      var n, e :| e in view.CallersOf(n) && admit(e) && e.caller != n && !CalleeEdge(view, admit, e.caller, n);
      GateNeedsDual(view, admit, n, e);
      assert !GateKeepsPaths(Region(view, {e.caller}, admit, 0), 1, n);
    }
  }

  /** The search parameters of one call: the filter as an edge test, a negative fan-in limit
      read as no limit. */
  function QueryRegion(view: CallView, filter: EdgeFilter, starts: seq<Id>, maxFanIn: int): Region {
    Region(view, (set n | n in starts), (e: EdgeRef) => filter.AllowsRef(e), if maxFanIn < 0 then 0 else maxFanIn)
  }

  /** The depth limit as the comparisons see it, cast to a 32-bit unsigned number. */
  function DepthLimit(maxDepth: int): nat {
    maxDepth % 0x1_0000_0000
  }

  // ---- the order ---------------------------------------------------------------------------

  lemma {:induction false} PlainKeepsPath(r: Region, maxDepth: nat, node: Id, path: seq<Id>, edges: seq<EdgeRef>,
                                          p: FoundPath)
    requires |path| <= maxDepth + 1 && |path| == |edges|
    requires p in Plain(r, maxDepth, node, path, edges)
    ensures path + [node] <= Reverse(p.nodes) && |p.nodes| == |p.edges| + 1 && edges <= Reverse(p.edges)
    decreases maxDepth + 1 - |path|, 1, 0
  {
    if node in r.starts {
      ReverseReverse(path + [node]);
      ReverseReverse(edges);
    } else {
      var e := PlainCallersKeepPath(r, maxDepth, r.view.CallersOf(node), path + [node], edges, p);
    }
  }

  lemma {:induction false} PlainCallersKeepPath(r: Region, maxDepth: nat, callers: seq<EdgeRef>, path: seq<Id>,
                                                edges: seq<EdgeRef>, p: FoundPath)
    returns (e: EdgeRef)
    requires 0 < |path| <= maxDepth + 1 && |path| == |edges| + 1
    requires p in PlainCallers(r, maxDepth, callers, path, edges)
    ensures e in callers && path <= Reverse(p.nodes) && |p.nodes| == |p.edges| + 1 && edges + [e] <= Reverse(p.edges)
    decreases maxDepth + 1 - |path|, 2, |callers|
  {
    if p in PlainCaller(r, maxDepth, callers[0], path, edges) {
      e := callers[0];
      PlainKeepsPath(r, maxDepth, e.caller, path, edges + [e], p);
    } else {
      e := PlainCallersKeepPath(r, maxDepth, callers[1..], path, edges, p);
    }
  }

  /** From the target on both paths take the same `k` edges; then the first takes the earlier
      caller edge. */
  ghost predicate BranchesAt(view: CallView, p: FoundPath, q: FoundPath, k: nat, a: nat, b: nat) {
    && k < |p.edges| && k < |q.edges| && |p.nodes| == |p.edges| + 1 && |q.nodes| == |q.edges| + 1
    && Reverse(p.edges)[..k] == Reverse(q.edges)[..k]
    && var n := p.nodes[|p.edges| - k];
       && n == q.nodes[|q.edges| - k] && n in view.callers && a < b < |view.callers[n]|
       && view.callers[n][a] == p.edges[|p.edges| - 1 - k] && view.callers[n][b] == q.edges[|q.edges| - 1 - k]
  }

  ghost predicate Before(view: CallView, p: FoundPath, q: FoundPath) {
    exists k, a, b :: BranchesAt(view, p, q, k, a, b)
  }

  ghost predicate InOrder(view: CallView, ps: seq<FoundPath>) {
    forall i, j :: 0 <= i < j < |ps| ==> Before(view, ps[i], ps[j])
  }

  lemma InOrderConcat(view: CallView, a: seq<FoundPath>, b: seq<FoundPath>)
    requires InOrder(view, a) && InOrder(view, b)
    requires forall p, q :: p in a && q in b ==> Before(view, p, q)
    ensures InOrder(view, a + b)
  {
    hide Before;
    forall i, j | 0 <= i < j < |a + b| ensures Before(view, (a + b)[i], (a + b)[j]) {
      if i < |a| <= j {
        assert a[i] in a && b[j - |a|] in b;
      }
    }
  }

  lemma {:induction false} PlainInOrder(r: Region, maxDepth: nat, node: Id, path: seq<Id>, edges: seq<EdgeRef>)
    requires |path| <= maxDepth + 1 && |path| == |edges|
    ensures InOrder(r.view, Plain(r, maxDepth, node, path, edges))
    decreases maxDepth + 1 - |path|, 1, 0
  {
    if |path| <= maxDepth && node !in r.starts {
      var callers := r.view.CallersOf(node);
      assert callers[0..] == callers;
      PlainCallersInOrder(r, maxDepth, node, 0, path + [node], edges);
    }
  }

  lemma {:induction false} PlainCallersInOrder(r: Region, maxDepth: nat, node: Id, c: nat, path: seq<Id>,
                                               edges: seq<EdgeRef>)
    requires 0 < |path| <= maxDepth + 1 && |path| == |edges| + 1 && path[|edges|] == node
    requires c <= |r.view.CallersOf(node)|
    ensures InOrder(r.view, PlainCallers(r, maxDepth, r.view.CallersOf(node)[c..], path, edges))
    decreases maxDepth + 1 - |path|, 2, |r.view.CallersOf(node)| - c
  {
    var callers := r.view.CallersOf(node);
    if c < |callers| {
      var first := PlainCaller(r, maxDepth, callers[c], path, edges);
      var rest := PlainCallers(r, maxDepth, callers[c + 1..], path, edges);
      PlainCallersSplit(r, maxDepth, callers, c, path, edges);
      if first != [] {
        PlainInOrder(r, maxDepth, callers[c].caller, path, edges + [callers[c]]);
      }
      PlainCallersInOrder(r, maxDepth, node, c + 1, path, edges);
      forall p, q | p in first && q in rest ensures Before(r.view, p, q) {
        PlainKeepsPath(r, maxDepth, callers[c].caller, path, edges + [callers[c]], p);
        var f := PlainCallersKeepPath(r, maxDepth, callers[c + 1..], path, edges, q);
        var b :| 0 <= b < |callers[c + 1..]| && callers[c + 1..][b] == f;
        BranchHere(r.view, node, path, edges, c, c + 1 + b, p, q);
      }
      InOrderConcat(r.view, first, rest);
    }
  }

  lemma BranchHere(view: CallView, node: Id, path: seq<Id>, edges: seq<EdgeRef>, a: nat, b: nat, p: FoundPath,
                   q: FoundPath)
    requires |path| == |edges| + 1 && path[|edges|] == node && a < b < |view.CallersOf(node)|
    requires |p.nodes| == |p.edges| + 1 && |q.nodes| == |q.edges| + 1
    requires path <= Reverse(p.nodes) && edges + [view.CallersOf(node)[a]] <= Reverse(p.edges)
    requires path <= Reverse(q.nodes) && edges + [view.CallersOf(node)[b]] <= Reverse(q.edges)
    ensures Before(view, p, q)
  {
    var k, e, f := |edges|, view.CallersOf(node)[a], view.CallersOf(node)[b];
    EdgesFromTarget(p, path, edges, e);
    EdgesFromTarget(q, path, edges, f);
    hide Reverse;
    assert BranchesAt(view, p, q, k, a, b);
  }

  lemma EdgesFromTarget(p: FoundPath, path: seq<Id>, edges: seq<EdgeRef>, e: EdgeRef)
    requires |path| == |edges| + 1 && |p.nodes| == |p.edges| + 1
    requires path <= Reverse(p.nodes) && edges + [e] <= Reverse(p.edges)
    ensures |edges| < |p.edges| && p.nodes[|p.edges| - |edges|] == path[|edges|]
    ensures p.edges[|p.edges| - 1 - |edges|] == e && Reverse(p.edges)[..|edges|] == edges
  {
    var all, back, k := edges + [e], Reverse(p.edges), |edges|;
    assert back[k] == p.edges[|p.edges| - 1 - k] && path[k] == Reverse(p.nodes)[k] == p.nodes[|p.edges| - k];
    hide Reverse;
    assert all == back[..k + 1] && all[k] == e && all[..k] == edges;
    assert back[..k + 1][..k] == back[..k];
  }

  /** The paths come in the order of the caller lists: of two paths the one that takes the
      earlier caller edge where they part, seen from the target, comes first. */
  lemma AllPathsInOrder(r: Region, maxDepth: nat, target: Id)
    ensures InOrder(r.view, AllPaths(r, maxDepth, target))
  {
    PlainInOrder(r, maxDepth, target, [], []);
  }

  // ---- paths in the terms of a query -----------------------------------------------------------

  /** What the filter arguments ask of one edge: a set that is not empty must hold its kind, or
      its context; the include set, when given, its confidence, and otherwise that is at or
      above the floor, Proven over Plausible over Unknown. */
  ghost predicate EdgePasses(filter: EdgeFilter, e: EdgeRef) {
    && (filter.kinds == {} || e.kind in filter.kinds)
    && (filter.execContexts == {} || e.execContext in filter.execContexts)
    && (filter.useIncludeSet ==> e.confidence in filter.includeConfidences)
    && (!filter.useIncludeSet && filter.minConf == Proven ==> e.confidence == Proven)
    && (!filter.useIncludeSet && filter.minConf == Plausible ==> e.confidence == Proven || e.confidence == Plausible)
  }

  ghost predicate LeadsOn(view: CallView, filter: EdgeFilter, from: Id, to: Id, e: EdgeRef) {
    to in view.callers && e in view.callers[to] && e.caller == from && EdgePasses(filter, e)
  }

  ghost predicate FewCallers(view: CallView, maxFanIn: int, n: Id) {
    maxFanIn > 0 && n in view.degrees ==> view.degrees[n] <= maxFanIn
  }

  /** A simple path from one of the starts to the target: each edge is listed among the callers
      of the node it leads to and passes the filter; no node but the first is a start, and none
      in between has more stored callers than the fan-in limit, if there is one. */
  ghost predicate AnswersQuery(view: CallView, filter: EdgeFilter, starts: seq<Id>, target: Id, maxDepth: int,
                               maxFanIn: int, p: FoundPath)
  {
    && |p.nodes| == |p.edges| + 1 && |p.edges| <= maxDepth % 0x1_0000_0000
    && p.nodes[0] in starts && p.nodes[|p.edges|] == target
    && (forall i, j :: 0 <= i < j < |p.nodes| ==> p.nodes[i] != p.nodes[j])
    && (forall i :: 0 <= i < |p.edges| ==> LeadsOn(view, filter, p.nodes[i], p.nodes[i + 1], p.edges[i]))
    && (forall i :: 0 < i < |p.nodes| ==> p.nodes[i] !in starts)
    && (forall i :: 0 < i < |p.edges| ==> FewCallers(view, maxFanIn, p.nodes[i]))
  }

  /** Of a path reversed, edge `i` and the nodes at its ends. */
  lemma Mirrored(p: FoundPath, i: nat)
    requires |p.nodes| == |p.edges| + 1 && i < |p.edges|
    ensures Reverse(p.edges)[|p.edges| - 1 - i] == p.edges[i]
    ensures Reverse(p.nodes)[|p.edges| - 1 - i] == p.nodes[i + 1] && Reverse(p.nodes)[|p.edges| - i] == p.nodes[i]
  {
  }

  lemma DistinctReversed<T>(s: seq<T>)
    ensures Distinct(Reverse(s)) <==> forall i, j :: 0 <= i < j < |s| ==> s[i] != s[j]
  {
    var t := Reverse(s);
    if Distinct(t) {
      forall i, j | 0 <= i < j < |s| ensures s[i] != s[j] {
        assert t[|s| - 1 - j] == s[j] && t[|s| - 1 - i] == s[i];
      }
    }
    if forall i, j :: 0 <= i < j < |s| ==> s[i] != s[j] {
      forall i, j | 0 <= i < j < |t| ensures t[i] != t[j] {
        assert t[i] == s[|s| - 1 - i] && t[j] == s[|s| - 1 - j];
      }
    }
  }

  /** One edge of a walk, seen from the start. */
  ghost predicate Hop(r: Region, p: FoundPath, i: int)
    requires |p.nodes| == |p.edges| + 1 && 0 <= i < |p.edges|
  {
    && p.edges[i] in r.view.CallersOf(p.nodes[i + 1]) && r.admit(p.edges[i]) && p.edges[i].caller == p.nodes[i]
    && p.nodes[i + 1] !in r.starts && (i + 1 < |p.edges| ==> !r.Hub(p.nodes[i + 1]))
  }

  lemma WalkForward(r: Region, p: FoundPath)
    requires |p.nodes| == |p.edges| + 1
    ensures Walk(r, Reverse(p.nodes), Reverse(p.edges)) <==>
      Distinct(Reverse(p.nodes)) && forall i :: 0 <= i < |p.edges| ==> Hop(r, p, i)
  {
    var path, edges, m := Reverse(p.nodes), Reverse(p.edges), |p.edges|;
    if Walk(r, path, edges) {
      forall i | 0 <= i < m ensures Hop(r, p, i) {
        Mirrored(p, i);
        WalkStep(r, path, edges, m - 1 - i);
      }
    }
    if Distinct(path) && forall i :: 0 <= i < m ==> Hop(r, p, i) {
      forall k | 0 <= k < m
        ensures edges[k] in r.view.CallersOf(path[k]) && r.admit(edges[k]) && edges[k].caller == path[k + 1]
        ensures path[k] !in r.starts && (k > 0 ==> !r.Hub(path[k]))
      {
        Mirrored(p, m - 1 - k);
        assert Hop(r, p, m - 1 - k);
        hide Reverse, Distinct;
      }
    }
  }

  lemma ChainAnswersQuery(view: CallView, filter: EdgeFilter, starts: seq<Id>, target: Id, maxDepth: int,
                          maxFanIn: int, p: FoundPath)
    ensures IsChain(QueryRegion(view, filter, starts, maxFanIn), DepthLimit(maxDepth), target, p)
       <==> AnswersQuery(view, filter, starts, target, maxDepth, maxFanIn, p)
  {
    var r := QueryRegion(view, filter, starts, maxFanIn);
    if |p.nodes| == |p.edges| + 1 {
      WalkForward(r, p);
      DistinctReversed(p.nodes);
      hide Walk, Reverse, Distinct;
      forall i | 0 <= i < |p.edges| ensures Hop(r, p, i) <==>
        && LeadsOn(view, filter, p.nodes[i], p.nodes[i + 1], p.edges[i]) && p.nodes[i + 1] !in starts
        && (i + 1 < |p.edges| ==> FewCallers(view, maxFanIn, p.nodes[i + 1]))
      {
        HopLeadsOn(view, filter, starts, maxFanIn, p, i);
      }
      hide Hop, LeadsOn, FewCallers;
      if forall i :: 0 <= i < |p.edges| ==> Hop(r, p, i) {
        forall i | 0 < i < |p.nodes| ensures p.nodes[i] !in starts {
          assert Hop(r, p, i - 1);
        }
        forall i | 0 < i < |p.edges| ensures FewCallers(view, maxFanIn, p.nodes[i]) {
          assert Hop(r, p, i - 1);
        }
      }
    }
  }

  lemma HopLeadsOn(view: CallView, filter: EdgeFilter, starts: seq<Id>, maxFanIn: int, p: FoundPath, i: nat)
    requires |p.nodes| == |p.edges| + 1 && i < |p.edges|
    ensures Hop(QueryRegion(view, filter, starts, maxFanIn), p, i) <==>
      && LeadsOn(view, filter, p.nodes[i], p.nodes[i + 1], p.edges[i]) && p.nodes[i + 1] !in starts
      && (i + 1 < |p.edges| ==> FewCallers(view, maxFanIn, p.nodes[i + 1]))
  {
  }

  /** find_call_chain from parsed arguments: the memoized, corridor-pruned search returns the
      first `maxPaths` paths of the plain one. */
  method FindCallChain(view: CallView, filter: EdgeFilter, starts: seq<Id>, target: Option<Id>,
                       maxDepth: int, maxFanIn: int, maxPaths: int)
    returns (found: seq<FoundPath>, skippedHubs: map<Id, nat>)
    ensures target.None? ==> found == []
    ensures var r := QueryRegion(view, filter, starts, maxFanIn);
      target.Some? ==>
        && (Dual(view, r.admit, r.admit) ==>
              found == Take(AllPaths(r, DepthLimit(maxDepth), target.value), Limit(maxPaths)))
        && (target.value !in Layer(view, r.admit, r.starts, DepthLimit(maxDepth)) ==> found == [])
        && (forall p :: p in found ==> IsChain(r, DepthLimit(maxDepth), target.value, p))
        && |found| <= Limit(maxPaths)
    ensures target.Some? ==>
      && (forall p :: p in found ==> AnswersQuery(view, filter, starts, target.value, maxDepth, maxFanIn, p))
      && (var r := QueryRegion(view, filter, starts, maxFanIn); Dual(view, r.admit, r.admit) ==>
            && InOrder(view, found)
            && (|found| < maxPaths ==> forall p ::
                  AnswersQuery(view, filter, starts, target.value, maxDepth, maxFanIn, p) ==> p in found))
      && (maxPaths >= 0 ==> |found| <= maxPaths)
    ensures forall n :: n in skippedHubs ==>
      skippedHubs[n] == view.InDegree(n) && 0 < maxFanIn < skippedHubs[n]
  {
    var r, depth := QueryRegion(view, filter, starts, maxFanIn), DepthLimit(maxDepth);
    var minFromStart := MinDistances(view, r.admit, starts, depth);
    found, skippedHubs := [], map[];
    if target.None? {
      return;
    }
    assert Layers(view, r.admit, r.starts)(depth) == Ball(minFromStart, depth);
    if Dual(view, r.admit, r.admit) {
      GateIsSound(r, depth, target.value);
    }
    if target.value in minFromStart && minFromStart[target.value] <= depth {
      var s := new Search(r, depth, maxPaths, minFromStart, target.value);
      if Dual(view, r.admit, r.admit) {
        TableCovers(r, r.admit, depth, minFromStart);
      }
      assert [] + [target.value] == [target.value];
      var _ := s.Dfs(target.value, 0);
      found, skippedHubs := s.foundPaths, s.skippedHubs;
      assert [] + AllPaths(r, depth, target.value) == AllPaths(r, depth, target.value);
    }
    InQueryTerms(view, filter, starts, target.value, maxDepth, maxFanIn, maxPaths, found);
  }

  /** What the search returns, without the search's own terms. */
  lemma InQueryTerms(view: CallView, filter: EdgeFilter, starts: seq<Id>, target: Id, maxDepth: int, maxFanIn: int,
                     maxPaths: int, found: seq<FoundPath>)
    requires var r := QueryRegion(view, filter, starts, maxFanIn);
      && (Dual(view, r.admit, r.admit) ==>
            found == Take(AllPaths(r, DepthLimit(maxDepth), target), Limit(maxPaths)))
      && (forall p :: p in found ==> IsChain(r, DepthLimit(maxDepth), target, p))
    ensures forall p :: p in found ==> AnswersQuery(view, filter, starts, target, maxDepth, maxFanIn, p)
    ensures var r := QueryRegion(view, filter, starts, maxFanIn); Dual(view, r.admit, r.admit) ==>
      && InOrder(view, found)
      && (|found| < maxPaths ==>
            forall p :: AnswersQuery(view, filter, starts, target, maxDepth, maxFanIn, p) ==> p in found)
  {
    hide AllPaths, IsChain, Dual, AnswersQuery, Before;
    var r := QueryRegion(view, filter, starts, maxFanIn);
    forall p
      ensures IsChain(r, DepthLimit(maxDepth), target, p)
         <==> AnswersQuery(view, filter, starts, target, maxDepth, maxFanIn, p)
      ensures p in AllPaths(r, DepthLimit(maxDepth), target) <==> IsChain(r, DepthLimit(maxDepth), target, p)
    {
      ChainAnswersQuery(view, filter, starts, target, maxDepth, maxFanIn, p);
      AllPathsAreTheChains(r, DepthLimit(maxDepth), target, p);
    }
    AllPathsInOrder(r, DepthLimit(maxDepth), target);
  }
}

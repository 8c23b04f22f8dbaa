/** What query_locks_held returns (src/query/LockTools.cpp:239-312). */
module LockTheorems {
  import opened EdgeTypes
  import opened Sequences
  import opened Corridor
  import opened LockSearch

  /** `path` (target first) is a reverse walk over admitted caller edges that takes no call
      edge twice; nodes may repeat. Every node but the last was expanded, so it is no entry
      and, below the target position, no hub. */
  ghost predicate Walk(r: Region, path: seq<Id>, edges: seq<EdgeRef>) {
    && |path| == |edges| + 1
    && (forall i :: 0 <= i < |edges| ==>
          edges[i] in r.view.CallersOf(path[i]) && r.admit(edges[i]) && edges[i].caller == path[i + 1])
    && (forall i, j :: 0 <= i < j < |edges| ==> KeyOf(edges[i]) != KeyOf(edges[j]))
    && (forall i :: 0 <= i < |edges| ==> path[i] !in r.starts)
    && (forall i :: 0 < i < |edges| ==> !r.Hub(path[i]))
  }

  /** An edge-simple path from an entry down to `target`, of at most `maxDepth` nodes. */
  ghost predicate IsLockPath(r: Region, maxDepth: nat, target: Id, edges: seq<EdgeRef>, p: RawLockPath) {
    && Walk(r, p.nodes, edges) && |p.nodes| <= maxDepth
    && p.nodes[0] == target && p.nodes[|edges|] in r.starts
    && p.entryPoint == p.nodes[|edges|] && p.edgeSites == Sites(edges)
  }

  ghost function AllPaths(r: Region, maxDepth: nat, target: Id): seq<RawLockPath>
    requires maxDepth > 0
  {
    Plain(r, maxDepth, [target], [])
  }

  lemma WalkExtends(r: Region, path: seq<Id>, edges: seq<EdgeRef>, e: EdgeRef)
    requires Walk(r, path, edges)
    requires e in r.view.CallersOf(path[|edges|]) && r.admit(e) && KeyOf(e) !in Keys(edges)
    requires path[|edges|] !in r.starts && (|edges| > 0 ==> !r.Hub(path[|edges|]))
    ensures Walk(r, path + [e.caller], edges + [e])
  {
    KeyIsOnPath(edges, KeyOf(e));
  }

  lemma {:induction false} PlainIsSound(r: Region, maxDepth: nat, path: seq<Id>, edges: seq<EdgeRef>, target: Id,
                                        p: RawLockPath)
    returns (all: seq<EdgeRef>)
    requires 0 < |path| <= maxDepth
    requires Walk(r, path, edges) && path[0] == target
    requires p in Plain(r, maxDepth, path, edges)
    ensures IsLockPath(r, maxDepth, target, all, p)
    decreases maxDepth - |path|, 2, 0
  {
    var cur := path[|path| - 1];
    if cur in r.starts {
      all := edges;
    } else {
      all := PlainCallersAreSound(r, maxDepth, r.view.CallersOf(cur), path, edges, target, p);
    }
  }

  lemma {:induction false} PlainCallersAreSound(r: Region, maxDepth: nat, callers: seq<EdgeRef>, path: seq<Id>,
                                                edges: seq<EdgeRef>, target: Id, p: RawLockPath)
    returns (all: seq<EdgeRef>)
    requires 0 < |path| < maxDepth
    requires Walk(r, path, edges) && path[0] == target && path[|edges|] !in r.starts
    requires |edges| > 0 ==> !r.Hub(path[|edges|])
    requires forall e :: e in callers ==> e in r.view.CallersOf(path[|edges|])
    requires p in PlainCallers(r, maxDepth, callers, path, edges)
    ensures IsLockPath(r, maxDepth, target, all, p)
    decreases maxDepth - |path|, 1, |callers|
  {
    var e := callers[0];
    if p in PlainCaller(r, maxDepth, e, path, edges) {
      WalkExtends(r, path, edges, e);
      all := PlainIsSound(r, maxDepth, path + [e.caller], edges + [e], target, p);
    } else {
      all := PlainCallersAreSound(r, maxDepth, callers[1..], path, edges, target, p);
    }
  }

  lemma {:induction false} PlainCallerIncluded(r: Region, maxDepth: nat, callers: seq<EdgeRef>, e: EdgeRef,
                                               path: seq<Id>, edges: seq<EdgeRef>, p: RawLockPath)
    requires 0 < |path| < maxDepth && e in callers
    requires p in PlainCaller(r, maxDepth, e, path, edges)
    ensures p in PlainCallers(r, maxDepth, callers, path, edges)
    decreases |callers|
  {
    if e != callers[0] {
      PlainCallerIncluded(r, maxDepth, callers[1..], e, path, edges, p);
    }
  }

  /** What a walk says about the step it takes at position `k`. */
  lemma WalkStep(r: Region, path: seq<Id>, edges: seq<EdgeRef>, k: nat)
    requires Walk(r, path, edges) && k < |edges|
    ensures path[k] !in r.starts && (k > 0 ==> !r.Hub(path[k]))
    ensures edges[k] in r.view.CallersOf(path[k]) && r.admit(edges[k]) && edges[k].caller == path[k + 1]
    ensures KeyOf(edges[k]) !in Keys(edges[..k])
  {
    KeyIsOnPath(edges[..k], KeyOf(edges[k]));
  }

  lemma PlainStep(r: Region, maxDepth: nat, path: seq<Id>, edges: seq<EdgeRef>, e: EdgeRef, p: RawLockPath)
    requires 0 < |path| < maxDepth
    requires path[|path| - 1] !in r.starts && (|path| > 1 ==> !r.Hub(path[|path| - 1]))
    requires e in r.view.CallersOf(path[|path| - 1]) && r.admit(e) && KeyOf(e) !in Keys(edges)
    requires p in Plain(r, maxDepth, path + [e.caller], edges + [e])
    ensures p in Plain(r, maxDepth, path, edges)
  {
    PlainCallerIncluded(r, maxDepth, r.view.CallersOf(path[|path| - 1]), e, path, edges, p);
  }

  lemma {:induction false} PlainIsComplete(r: Region, maxDepth: nat, path: seq<Id>, edges: seq<EdgeRef>, k: nat)
    requires Walk(r, path, edges) && k <= |edges| < maxDepth && path[|edges|] in r.starts
    ensures RawLockPath(path[|edges|], path, Sites(edges)) in Plain(r, maxDepth, path[..k + 1], edges[..k])
    decreases |edges| - k
  {
    if k == |edges| {
      assert path[..k + 1] == path && edges[..k] == edges;
    } else {
      PlainIsComplete(r, maxDepth, path, edges, k + 1);
      assert edges[..k + 1] == edges[..k] + [edges[k]];
      assert path[..k + 2] == path[..k + 1] + [path[k + 1]];
      WalkStep(r, path, edges, k);
      PlainStep(r, maxDepth, path[..k + 1], edges[..k], edges[k], RawLockPath(path[|edges|], path, Sites(edges)));
    }
  }

  /** The plain search returns exactly the edge-simple entry paths within the node limit. */
  lemma AllPathsAreTheLockPaths(r: Region, maxDepth: nat, target: Id, p: RawLockPath)
    requires maxDepth > 0
    ensures p in AllPaths(r, maxDepth, target) <==> exists edges :: IsLockPath(r, maxDepth, target, edges, p)
  {
    if p in AllPaths(r, maxDepth, target) {
      var edges := PlainIsSound(r, maxDepth, [target], [], target, p);
    }
    if edges :| IsLockPath(r, maxDepth, target, edges, p) {
      PlainIsComplete(r, maxDepth, p.nodes, edges, 0);
      assert p.nodes[..1] == [target] && edges[..0] == [];
    }
  }

  // ---- the tool ----------------------------------------------------------------------------

  /** Edges out of the `<indirect>` pseudo node are not followed. */
  function QueryRegion(view: CallView, entries: seq<Id>, indirect: Option<Id>, maxFanIn: nat): Region {
    Region(view, (set n | n in entries), (e: EdgeRef) => !(indirect.Some? && e.caller == indirect.value), maxFanIn)
  }

  function AnyEdge(): EdgeRef -> bool {
    (e: EdgeRef) => true
  }

  /** A target outside the corridor has no path. */
  lemma NothingOutsideCorridor(r: Region, maxDepth: nat, dist: map<Id, nat>, target: Id)
    requires maxDepth > 0 && Dual(r.view, r.admit, AnyEdge())
    requires Shortest(Layers(r.view, AnyEdge(), r.starts), maxDepth - 1, dist)
    requires target !in dist || dist[target] + 1 > maxDepth
    ensures AllPaths(r, maxDepth, target) == []
  {
    assert Layers(r.view, AnyEdge(), r.starts)(maxDepth - 1) == Ball(dist, maxDepth - 1);
    if AllPaths(r, maxDepth, target) != [] {
      PlainNeedsReach(r, maxDepth, [target], []);
      ReachInCorridor(r, AnyEdge(), target, maxDepth - 1);
    }
  }

  // ---- the order ---------------------------------------------------------------------------

  /** From the target on both paths take the same `k` edges; then the first takes the earlier
      caller edge. */
  ghost predicate BranchesAt(view: CallView, p: RawLockPath, ep: seq<EdgeRef>, q: RawLockPath, eq: seq<EdgeRef>,
                             k: nat, a: nat, b: nat)
  {
    && |p.nodes| == |ep| + 1 && |q.nodes| == |eq| + 1 && k < |ep| && k < |eq| && ep[..k] == eq[..k]
    && var n := p.nodes[k];
       && n == q.nodes[k] && n in view.callers && a < b < |view.callers[n]|
       && view.callers[n][a] == ep[k] && view.callers[n][b] == eq[k]
  }

  ghost predicate Before(view: CallView, p: RawLockPath, q: RawLockPath) {
    exists ep, eq, k, a, b :: SiteByEdge(p, ep) && SiteByEdge(q, eq) && BranchesAt(view, p, ep, q, eq, k, a, b)
  }

  ghost predicate SiteByEdge(p: RawLockPath, edges: seq<EdgeRef>) {
    |p.edgeSites| == |edges| && forall i :: 0 <= i < |edges| ==> p.edgeSites[i] == edges[i].callSite
  }

  lemma {:induction false} SitesAre(edges: seq<EdgeRef>)
    ensures |Sites(edges)| == |edges| && forall i :: 0 <= i < |edges| ==> Sites(edges)[i] == edges[i].callSite
  {
    if edges != [] {
      SitesAre(edges[..|edges| - 1]);
    }
  }

  ghost predicate InOrder(view: CallView, ps: seq<RawLockPath>) {
    forall i, j :: 0 <= i < j < |ps| ==> Before(view, ps[i], ps[j])
  }

  lemma InOrderConcat(view: CallView, a: seq<RawLockPath>, b: seq<RawLockPath>)
    requires InOrder(view, a) && InOrder(view, b)
    requires forall p, q :: p in a && q in b ==> Before(view, p, q)
    ensures InOrder(view, a + b)
  {
    hide Before;
    forall i, j | 0 <= i < j < |a + b| ensures Before(view, (a + b)[i], (a + b)[j]) {
      if i < |a| <= j {
        assert a[i] in a && b[j - |a|] in b;
      }
    }
  }

  lemma {:induction false} PlainKeepsPath(r: Region, maxDepth: nat, path: seq<Id>, edges: seq<EdgeRef>, p: RawLockPath)
    returns (all: seq<EdgeRef>)
    requires 0 < |path| <= maxDepth && |path| == |edges| + 1
    requires p in Plain(r, maxDepth, path, edges)
    ensures path <= p.nodes && edges <= all && |p.nodes| == |all| + 1 && SiteByEdge(p, all)
    decreases maxDepth - |path|, 2, 0
  {
    var cur := path[|path| - 1];
    if cur in r.starts {
      all := edges;
      SitesAre(edges);
    } else {
      var e;
      e, all := PlainCallersKeepPath(r, maxDepth, r.view.CallersOf(cur), path, edges, p);
    }
  }

  lemma {:induction false} PlainCallersKeepPath(r: Region, maxDepth: nat, callers: seq<EdgeRef>, path: seq<Id>,
                                                edges: seq<EdgeRef>, p: RawLockPath)
    returns (e: EdgeRef, all: seq<EdgeRef>)
    requires 0 < |path| < maxDepth && |path| == |edges| + 1
    requires p in PlainCallers(r, maxDepth, callers, path, edges)
    ensures e in callers && path <= p.nodes && edges + [e] <= all && |p.nodes| == |all| + 1 && SiteByEdge(p, all)
    decreases maxDepth - |path|, 1, |callers|
  {
    if p in PlainCaller(r, maxDepth, callers[0], path, edges) {
      e := callers[0];
      all := PlainKeepsPath(r, maxDepth, path + [e.caller], edges + [e], p);
    } else {
      e, all := PlainCallersKeepPath(r, maxDepth, callers[1..], path, edges, p);
    }
  }

  lemma {:induction false} PlainInOrder(r: Region, maxDepth: nat, path: seq<Id>, edges: seq<EdgeRef>)
    requires 0 < |path| <= maxDepth && |path| == |edges| + 1
    ensures InOrder(r.view, Plain(r, maxDepth, path, edges))
    decreases maxDepth - |path|, 2, 0
  {
    var cur := path[|path| - 1];
    if cur !in r.starts && |path| < maxDepth {
      assert r.view.CallersOf(cur)[0..] == r.view.CallersOf(cur);
      PlainCallersInOrder(r, maxDepth, 0, path, edges);
    }
  }

  lemma {:induction false} PlainCallersInOrder(r: Region, maxDepth: nat, c: nat, path: seq<Id>, edges: seq<EdgeRef>)
    requires 0 < |path| < maxDepth && |path| == |edges| + 1 && c <= |r.view.CallersOf(path[|edges|])|
    ensures InOrder(r.view, PlainCallers(r, maxDepth, r.view.CallersOf(path[|edges|])[c..], path, edges))
    decreases maxDepth - |path|, 1, |r.view.CallersOf(path[|edges|])| - c
  {
    var callers := r.view.CallersOf(path[|edges|]);
    if c < |callers| {
      var first := PlainCaller(r, maxDepth, callers[c], path, edges);
      var rest := PlainCallers(r, maxDepth, callers[c + 1..], path, edges);
      PlainCallersSplit(r, maxDepth, callers, c, path, edges);
      if first != [] {
        PlainInOrder(r, maxDepth, path + [callers[c].caller], edges + [callers[c]]);
      }
      PlainCallersInOrder(r, maxDepth, c + 1, path, edges);
      forall p, q | p in first && q in rest ensures Before(r.view, p, q) {
        var ep := PlainKeepsPath(r, maxDepth, path + [callers[c].caller], edges + [callers[c]], p);
        var f, eq := PlainCallersKeepPath(r, maxDepth, callers[c + 1..], path, edges, q);
        var b :| 0 <= b < |callers[c + 1..]| && callers[c + 1..][b] == f;
        BranchHere(r.view, path, edges, c, c + 1 + b, p, ep, q, eq);
      }
      InOrderConcat(r.view, first, rest);
    }
  }

  lemma BranchHere(view: CallView, path: seq<Id>, edges: seq<EdgeRef>, a: nat, b: nat, p: RawLockPath,
                   ep: seq<EdgeRef>, q: RawLockPath, eq: seq<EdgeRef>)
    requires |path| == |edges| + 1 && a < b < |view.CallersOf(path[|edges|])| && path <= p.nodes && path <= q.nodes
    requires |p.nodes| == |ep| + 1 && |q.nodes| == |eq| + 1 && SiteByEdge(p, ep) && SiteByEdge(q, eq)
    requires var callers := view.CallersOf(path[|edges|]); edges + [callers[a]] <= ep && edges + [callers[b]] <= eq
    ensures Before(view, p, q)
  {
    var k, callers := |edges|, view.CallersOf(path[|edges|]);
    var x, y := edges + [callers[a]], edges + [callers[b]];
    assert ep[..k] == x[..k] == edges && eq[..k] == y[..k] == edges && ep[k] == x[k] && eq[k] == y[k];
    assert BranchesAt(view, p, ep, q, eq, k, a, b);
  }

  /** The paths come in the order of the caller lists. */
  lemma AllPathsInOrder(r: Region, maxDepth: nat, target: Id)
    requires maxDepth > 0
    ensures InOrder(r.view, AllPaths(r, maxDepth, target))
  {
    PlainInOrder(r, maxDepth, [target], []);
  }

  // ---- paths in the terms of a query -----------------------------------------------------------

  ghost predicate SameCall(e: EdgeRef, f: EdgeRef) {
    e.caller == f.caller && e.callee == f.callee && e.callSite == f.callSite
  }

  /** A step of a reverse path: an edge listed among the callers of one node and coming from the
      next, which is not the pseudo node of indirect calls. */
  ghost predicate StepsBack(view: CallView, indirect: Option<Id>, from: Id, e: EdgeRef, to: Id) {
    from in view.callers && e in view.callers[from] && e.caller == to && indirect != Some(to)
  }

  ghost predicate FewCallers(view: CallView, maxFanIn: nat, n: Id) {
    maxFanIn > 0 && n in view.degrees ==> view.degrees[n] <= maxFanIn
  }

  /** A reverse path from the target to the first entry on it, of at most `maxDepth` nodes, with
      the call site of each edge; it takes no call twice, and no node in between has more stored
      callers than the fan-in limit, if there is one. */
  ghost predicate AnswersQuery(view: CallView, entries: seq<Id>, indirect: Option<Id>, target: Id, maxDepth: nat,
                               maxFanIn: nat, edges: seq<EdgeRef>, p: RawLockPath)
  {
    && |p.nodes| == |edges| + 1 <= maxDepth && p.nodes[0] == target
    && p.entryPoint == p.nodes[|edges|] && p.entryPoint in entries && SiteByEdge(p, edges)
    && (forall i :: 0 <= i < |edges| ==> StepsBack(view, indirect, p.nodes[i], edges[i], p.nodes[i + 1]))
    && (forall i, j :: 0 <= i < j < |edges| ==> !SameCall(edges[i], edges[j]))
    && (forall i :: 0 <= i < |edges| ==> p.nodes[i] !in entries)
    && (forall i :: 0 < i < |edges| ==> FewCallers(view, maxFanIn, p.nodes[i]))
  }

  lemma LockPathAnswersQuery(view: CallView, entries: seq<Id>, indirect: Option<Id>, target: Id, maxDepth: nat,
                             maxFanIn: nat, edges: seq<EdgeRef>, p: RawLockPath)
    ensures IsLockPath(QueryRegion(view, entries, indirect, maxFanIn), maxDepth, target, edges, p)
       <==> AnswersQuery(view, entries, indirect, target, maxDepth, maxFanIn, edges, p)
  {
    var r := QueryRegion(view, entries, indirect, maxFanIn);
    SitesAre(edges);
    assert SiteByEdge(p, edges) ==> p.edgeSites == Sites(edges);
    if IsLockPath(r, maxDepth, target, edges, p) {
      forall i | 0 <= i < |edges| ensures StepsBack(view, indirect, p.nodes[i], edges[i], p.nodes[i + 1]) {
        assert edges[i] in r.view.CallersOf(p.nodes[i]);
      }
      forall i, j | 0 <= i < j < |edges| ensures !SameCall(edges[i], edges[j]) {
        assert KeyOf(edges[i]) != KeyOf(edges[j]);
      }
      forall i | 0 < i < |edges| ensures FewCallers(view, maxFanIn, p.nodes[i]) {
        assert !r.Hub(p.nodes[i]);
      }
    }
    if AnswersQuery(view, entries, indirect, target, maxDepth, maxFanIn, edges, p) {
      forall i | 0 <= i < |edges|
        ensures edges[i] in r.view.CallersOf(p.nodes[i]) && r.admit(edges[i]) && edges[i].caller == p.nodes[i + 1]
      {
        assert StepsBack(view, indirect, p.nodes[i], edges[i], p.nodes[i + 1]);
      }
      forall i, j | 0 <= i < j < |edges| ensures KeyOf(edges[i]) != KeyOf(edges[j]) {
        assert !SameCall(edges[i], edges[j]);
      }
      forall i | 0 < i < |edges| ensures !r.Hub(p.nodes[i]) {
        assert FewCallers(view, maxFanIn, p.nodes[i]);
      }
      assert Walk(r, p.nodes, edges);
    }
  }

  /** The raw paths of query_locks_held: the first 512 entry paths of the plain search, and
      a truncation mark exactly when there are at least 512. */
  method CollectPaths(view: CallView, entries: seq<Id>, target: Option<Id>, maxDepth: nat, maxFanIn: nat,
                      indirect: Option<Id>)
    returns (out: seq<RawLockPath>, skippedHubs: map<Id, nat>, truncated: bool)
    ensures target.None? || entries == [] || maxDepth == 0 ==> out == [] && !truncated
    ensures var r := QueryRegion(view, entries, indirect, maxFanIn);
      target.Some? && maxDepth > 0 && Dual(view, r.admit, AnyEdge()) ==>
        && out == Take(AllPaths(r, maxDepth, target.value), MAX_PATHS)
        && (truncated <==> |AllPaths(r, maxDepth, target.value)| >= MAX_PATHS)
    ensures forall n :: n in skippedHubs ==> skippedHubs[n] == view.InDegree(n) && 0 < maxFanIn < skippedHubs[n]
    ensures target.Some? && maxDepth > 0 && Dual(view, QueryRegion(view, entries, indirect, maxFanIn).admit, AnyEdge())
      ==> Answered(view, entries, indirect, target.value, maxDepth, maxFanIn, out, truncated)
  {
    var r := QueryRegion(view, entries, indirect, maxFanIn);
    if target.Some? && maxDepth > 0 {
      AllAnswer(view, entries, indirect, target.value, maxDepth, maxFanIn);
    }
    hide Answered;
    out, skippedHubs, truncated := [], map[], false;
    if entries == [] || target.None? {
      if target.Some? && maxDepth > 0 && AllPaths(r, maxDepth, target.value) != [] {
        AllPathsAreTheLockPaths(r, maxDepth, target.value, AllPaths(r, maxDepth, target.value)[0]);
      }
      return;
    }
    var minFromEntry := MinDistances(view, AnyEdge(), entries, if maxDepth == 0 then 0 else maxDepth - 1);
    if target.value !in minFromEntry || minFromEntry[target.value] + 1 > maxDepth {
      if maxDepth > 0 && Dual(view, r.admit, AnyEdge()) {
        NothingOutsideCorridor(r, maxDepth, minFromEntry, target.value);
      }
      return;
    }
    var s := new State(r, maxDepth, minFromEntry, MAX_PATHS, target.value);
    if Dual(view, r.admit, AnyEdge()) {
      TableCovers(r, AnyEdge(), maxDepth - 1, minFromEntry);
    }
    var _ := s.ReverseDfs();
    out, skippedHubs, truncated := s.out, s.skippedHubs, s.truncated;
    assert [] + AllPaths(r, maxDepth, target.value) == AllPaths(r, maxDepth, target.value);
  }

  /** Only reverse paths of the query, in order; all of them unless there are 512, and then it is
      marked truncated. */
  ghost predicate Answered(view: CallView, entries: seq<Id>, indirect: Option<Id>, target: Id, maxDepth: nat,
                           maxFanIn: nat, out: seq<RawLockPath>, truncated: bool)
  {
    && InOrder(view, out) && (truncated <==> |out| == 512) && |out| <= 512
    && (forall p :: p in out ==> exists edges ::
          AnswersQuery(view, entries, indirect, target, maxDepth, maxFanIn, edges, p))
    && (!truncated ==> forall p, edges ::
          AnswersQuery(view, entries, indirect, target, maxDepth, maxFanIn, edges, p) ==> p in out)
  }

  lemma AllAnswer(view: CallView, entries: seq<Id>, indirect: Option<Id>, target: Id, maxDepth: nat, maxFanIn: nat)
    requires maxDepth > 0
    ensures var all := AllPaths(QueryRegion(view, entries, indirect, maxFanIn), maxDepth, target);
      Answered(view, entries, indirect, target, maxDepth, maxFanIn, Take(all, MAX_PATHS), |all| >= MAX_PATHS)
  {
    hide AnswersQuery, Before, AllPaths, IsLockPath;
    var r := QueryRegion(view, entries, indirect, maxFanIn);
    var all := AllPaths(r, maxDepth, target);
    var out := Take(all, MAX_PATHS);
    AllPathsInOrder(r, maxDepth, target);
    assert InOrder(view, out);
    forall p | p in out
      ensures exists edges :: AnswersQuery(view, entries, indirect, target, maxDepth, maxFanIn, edges, p)
    {
      AllPathsAreTheLockPaths(r, maxDepth, target, p);
      var edges :| IsLockPath(r, maxDepth, target, edges, p);
      LockPathAnswersQuery(view, entries, indirect, target, maxDepth, maxFanIn, edges, p);
    }
    if |all| < MAX_PATHS {
      forall p, edges | AnswersQuery(view, entries, indirect, target, maxDepth, maxFanIn, edges, p) ensures p in out {
        LockPathAnswersQuery(view, entries, indirect, target, maxDepth, maxFanIn, edges, p);
        AllPathsAreTheLockPaths(r, maxDepth, target, p);
      }
    }
  }
}

/** find_call_chain: the reverse depth-first path search with corridor prune, dead-end memo,
    hub cutoff and early stop (src/query/GraphTools.cpp:321-503). */
module ChainSearch {
  import opened EdgeTypes
  import opened Sequences
  import opened Corridor

  /** A found path, start first: `edges[i]` leads from `nodes[i]` to `nodes[i + 1]`. */
  datatype FoundPath = FoundPath(nodes: seq<Id>, edges: seq<EdgeRef>)

  // ---- the plain search --------------------------------------------------------------------

  /** The enumeration without corridor, memo or early stop. `path` and `edges` hold what was
      walked so far, target first. */
  ghost function Plain(r: Region, maxDepth: nat, node: Id, path: seq<Id>, edges: seq<EdgeRef>): seq<FoundPath>
    requires |path| <= maxDepth + 1
    decreases maxDepth + 1 - |path|, 1, 0
  {
    if |path| > maxDepth then [] else PlainAt(r, maxDepth, path + [node], edges)
  }

  /** The same, once the node is on the path. */
  ghost function PlainAt(r: Region, maxDepth: nat, path: seq<Id>, edges: seq<EdgeRef>): seq<FoundPath>
    requires 0 < |path| <= maxDepth + 1
    decreases maxDepth + 1 - |path|, 3, 0
  {
    var node := path[|path| - 1];
    if node in r.starts then [FoundPath(Reverse(path), Reverse(edges))]
    else if |path| > 1 && r.Hub(node) then []
    else PlainCallers(r, maxDepth, r.view.CallersOf(node), path, edges)
  }

  /** The same, over the remaining caller edges of the last node of `path`. */
  ghost function PlainCallers(r: Region, maxDepth: nat, callers: seq<EdgeRef>, path: seq<Id>,
                              edges: seq<EdgeRef>): seq<FoundPath>
    requires 0 < |path| <= maxDepth + 1
    decreases maxDepth + 1 - |path|, 2, |callers|
  {
    if callers == [] then []
    else PlainCaller(r, maxDepth, callers[0], path, edges) + PlainCallers(r, maxDepth, callers[1..], path, edges)
  }

  ghost function PlainCaller(r: Region, maxDepth: nat, e: EdgeRef, path: seq<Id>, edges: seq<EdgeRef>): seq<FoundPath>
    requires 0 < |path| <= maxDepth + 1
    decreases maxDepth + 1 - |path|, 2, 0
  {
    if e.caller in path || !r.admit(e) then []
    else Plain(r, maxDepth, e.caller, path, edges + [e])
  }

  /** A search that finds anything walked a reverse path the memo and the corridor allow. */
  lemma {:induction false} PlainNeedsReach(r: Region, maxDepth: nat, node: Id, path: seq<Id>, edges: seq<EdgeRef>)
    requires |path| <= maxDepth + 1
    requires Plain(r, maxDepth, node, path, edges) != []
    ensures RootReach(r, node, maxDepth - |path|)
    ensures |path| > 0 ==> Reach(r, node, maxDepth - |path|)
    decreases maxDepth + 1 - |path|, 1, 0
  {
    if node !in r.starts {
      PlainCallersNeedReach(r, maxDepth, r.view.CallersOf(node), path + [node], edges);
    }
  }

  lemma {:induction false} PlainCallersNeedReach(r: Region, maxDepth: nat, callers: seq<EdgeRef>, path: seq<Id>,
                                                 edges: seq<EdgeRef>)
    requires 0 < |path| <= maxDepth + 1
    requires PlainCallers(r, maxDepth, callers, path, edges) != []
    ensures |path| <= maxDepth
    ensures exists e :: e in callers && r.admit(e) && Reach(r, e.caller, maxDepth - |path|)
    decreases maxDepth + 1 - |path|, 2, |callers|
  {
    if PlainCaller(r, maxDepth, callers[0], path, edges) != [] {
      PlainNeedsReach(r, maxDepth, callers[0].caller, path, edges + [callers[0]]);
      assert callers[0] in callers;
    } else {
      PlainCallersNeedReach(r, maxDepth, callers[1..], path, edges);
      var e :| e in callers[1..] && r.admit(e) && Reach(r, e.caller, maxDepth - |path|);
      assert e in callers;
    }
  }

  lemma PlainCallersSplit(r: Region, maxDepth: nat, callers: seq<EdgeRef>, i: nat, path: seq<Id>, edges: seq<EdgeRef>)
    requires 0 < |path| <= maxDepth + 1 && i < |callers|
    ensures PlainCallers(r, maxDepth, callers[i..], path, edges)
         == PlainCaller(r, maxDepth, callers[i], path, edges) + PlainCallers(r, maxDepth, callers[i + 1..], path, edges)
  {
    assert callers[i..][1..] == callers[i + 1..];
  }

  /** Following one more caller keeps what the rest of the loop will make of the result. */
  lemma FollowedOne(r: Region, maxDepth: nat, callers: seq<EdgeRef>, i: nat, path: seq<Id>, edges: seq<EdgeRef>,
                    before: seq<FoundPath>, after: seq<FoundPath>, limit: nat)
    requires 0 < |path| <= maxDepth + 1 && i < |callers|
    requires after == Take(before + PlainCaller(r, maxDepth, callers[i], path, edges), limit)
    ensures Take(after + PlainCallers(r, maxDepth, callers[i + 1..], path, edges), limit)
         == Take(before + PlainCallers(r, maxDepth, callers[i..], path, edges), limit)
  {
    PlainCallersSplit(r, maxDepth, callers, i, path, edges);
    TakeRest(before, PlainCaller(r, maxDepth, callers[i], path, edges),
             PlainCallers(r, maxDepth, callers[i + 1..], path, edges), limit);
  }

  // ---- what a path is ----------------------------------------------------------------------

  /** `path` (target first) is a simple reverse walk over admitted caller edges; every node but
      the last was expanded, so it is no start and, below the target, no hub. */
  ghost predicate Walk(r: Region, path: seq<Id>, edges: seq<EdgeRef>) {
    && |path| == |edges| + 1
    && Distinct(path)
    && (forall i :: 0 <= i < |edges| ==>
          edges[i] in r.view.CallersOf(path[i]) && r.admit(edges[i]) && edges[i].caller == path[i + 1])
    && (forall i :: 0 <= i < |edges| ==> path[i] !in r.starts)
    && (forall i :: 0 < i < |edges| ==> !r.Hub(path[i]))
  }

  lemma WalkExtends(r: Region, path: seq<Id>, edges: seq<EdgeRef>, e: EdgeRef)
    requires Walk(r, path, edges)
    requires e in r.view.CallersOf(path[|edges|]) && r.admit(e) && e.caller !in path
    requires path[|edges|] !in r.starts && (|edges| > 0 ==> !r.Hub(path[|edges|]))
    ensures Walk(r, path + [e.caller], edges + [e])
  {
  }

  /** A path from a start to `target` of at most `maxDepth` edges. */
  ghost predicate IsChain(r: Region, maxDepth: nat, target: Id, p: FoundPath) {
    && Walk(r, Reverse(p.nodes), Reverse(p.edges))
    && p.nodes[0] in r.starts && p.nodes[|p.nodes| - 1] == target
    && |p.edges| <= maxDepth
  }

  // ---- the search --------------------------------------------------------------------------

  /** What one call reports upwards: a path was found below, or exploration was cut short for
      a reason that depends on the current path or on the result limit. */
  datatype Flags = Flags(found: bool, blocked: bool)
  {
    function Or(other: Flags): Flags {
      Flags(found || other.found, blocked || other.blocked)
    }
  }

  function Limit(maxPaths: int): nat {
    if maxPaths < 0 then 0 else maxPaths
  }

  class Search {
    const region: Region
    const maxDepth: nat
    const maxPaths: int
    const minFromStart: map<Id, nat>
    const target: Id

    var currentPath: seq<Id>
    var currentEdges: seq<EdgeRef>
    var onPath: set<Id>
    var deadAt: map<Id, nat>
    var callersMemo: map<Id, seq<EdgeRef>>
    var foundPaths: seq<FoundPath>
    var skippedHubs: map<Id, nat>

    constructor (region: Region, maxDepth: nat, maxPaths: int, minFromStart: map<Id, nat>, target: Id)
      ensures Valid() && this.region == region && this.maxDepth == maxDepth && this.maxPaths == maxPaths
      ensures this.minFromStart == minFromStart && this.target == target
      ensures currentPath == [] && currentEdges == [] && foundPaths == [] && deadAt == map[] && skippedHubs == map[]
    {
      this.region, this.maxDepth, this.maxPaths, this.minFromStart := region, maxDepth, maxPaths, minFromStart;
      this.target := target;
      currentPath, currentEdges, onPath, deadAt, callersMemo, foundPaths, skippedHubs :=
        [], [], {}, map[], map[], [], map[];
    }

    ghost predicate CorridorCovers() {
      Covers(region, maxDepth, minFromStart)
    }

    /** The memo invariant: `deadAt[n] == d` means no admitted reverse walk leads from `n` to a
        start with the budget left at depth `d`, whatever path leads to `n`. */
    ghost predicate DeadEnds(dead: map<Id, nat>) {
      forall n {:trigger dead[n]} :: n in dead ==> !Reach(region, n, maxDepth - dead[n])
    }

    ghost predicate Valid()
      reads this
    {
      && onPath == (set n | n in currentPath)
      && (forall n :: n in callersMemo ==> callersMemo[n] == region.view.CallersOf(n))
      && (forall n :: n in skippedHubs ==> region.Hub(n) && skippedHubs[n] == region.view.InDegree(n))
      && |foundPaths| <= Limit(maxPaths)
      && (forall p :: p in foundPaths ==> IsChain(region, maxDepth, target, p))
      && (CorridorCovers() ==> DeadEnds(deadAt))
    }

    /** A revisit of a dead end with no more budget finds nothing. */
    lemma DeadEndIsEmpty(node: Id, path: seq<Id>, edges: seq<EdgeRef>, dead: nat)
      requires 0 < |path| <= maxDepth && dead <= |path|
      requires !Reach(region, node, maxDepth - dead)
      ensures !Reach(region, node, maxDepth - |path|)
      ensures Plain(region, maxDepth, node, path, edges) == []
    {
      if Reach(region, node, maxDepth - |path|) {
        ReachMonotone(region, node, maxDepth - |path|, maxDepth - dead);
      }
      if Plain(region, maxDepth, node, path, edges) != [] {
        PlainNeedsReach(region, maxDepth, node, path, edges);
      }
    }

    /** A caller outside the corridor, or too deep in it, completes no path. */
    lemma PrunedIsEmpty(e: EdgeRef, path: seq<Id>, edges: seq<EdgeRef>)
      requires CorridorCovers()
      requires 0 < |path| <= maxDepth + 1
      requires e.caller !in minFromStart || minFromStart[e.caller] + |path| > maxDepth
      ensures !RootReach(region, e.caller, maxDepth - |path|)
      ensures PlainCaller(region, maxDepth, e, path, edges) == []
    {
      if maxDepth >= |path| && RootReach(region, e.caller, maxDepth - |path|) {
        CoversAt(region, maxDepth, minFromStart, e.caller, maxDepth - |path|);
      }
      if PlainCaller(region, maxDepth, e, path, edges) != [] {
        PlainNeedsReach(region, maxDepth, e.caller, path, edges + [e]);
      }
    }

    /** A node all of whose admitted callers are dead ends is one itself. */
    lemma ExploredIsDead(node: Id, depth: nat)
      requires node !in region.starts && depth <= maxDepth
      requires (depth > 0 && region.Hub(node)) || NoneReach(region.view.CallersOf(node), maxDepth - depth - 1)
      ensures !Reach(region, node, maxDepth - depth)
    {
    }

    lemma DeadEndAdded(dead: map<Id, nat>, node: Id, depth: nat)
      requires DeadEnds(dead) && !Reach(region, node, maxDepth - depth)
      ensures DeadEnds(dead[node := depth])
    {
    }

    lemma FoundIsChain(path: seq<Id>, edges: seq<EdgeRef>)
      requires Walk(region, path, edges) && |edges| <= maxDepth
      requires path[0] == target && path[|edges|] in region.starts
      ensures IsChain(region, maxDepth, target, FoundPath(Reverse(path), Reverse(edges)))
    {
      ReverseReverse(path);
      ReverseReverse(edges);
    }

    method Dfs(node: Id, depth: nat) returns (flags: Flags)
      requires Valid() && depth == |currentPath| <= maxDepth + 1
      requires node !in onPath
      requires Walk(region, currentPath + [node], currentEdges) && (currentPath + [node])[0] == target
      requires depth == 0 ==> deadAt == map[]
      modifies this
      ensures Valid()
      ensures currentPath == old(currentPath) && currentEdges == old(currentEdges)
      ensures CorridorCovers() ==>
        foundPaths == Take(old(foundPaths) + Plain(region, maxDepth, node, currentPath, currentEdges), Limit(maxPaths))
      ensures CorridorCovers() && flags == Flags(false, false) ==> !Reach(region, node, maxDepth - depth)
      decreases maxDepth + 1 - depth, 4
    {
      if |foundPaths| >= maxPaths {
        return Flags(false, true);
      }
      if depth > maxDepth {
        return Flags(false, false);
      }
      if node in deadAt && depth >= deadAt[node] {
        if CorridorCovers() {
          DeadEndIsEmpty(node, currentPath, currentEdges, deadAt[node]);
        }
        return Flags(false, false);
      }

      flags := Visit(node, depth);
    }

    /** The part of `Dfs` behind its guards: emit a start, skip a hub, or expand. */
    method Visit(node: Id, depth: nat) returns (flags: Flags)
      requires Valid() && depth == |currentPath| <= maxDepth
      requires node !in onPath && |foundPaths| < maxPaths
      requires Walk(region, currentPath + [node], currentEdges) && (currentPath + [node])[0] == target
      modifies this
      ensures Valid()
      ensures currentPath == old(currentPath) && currentEdges == old(currentEdges)
      ensures CorridorCovers() ==>
        foundPaths == Take(old(foundPaths) + Plain(region, maxDepth, node, currentPath, currentEdges), Limit(maxPaths))
      ensures CorridorCovers() && flags == Flags(false, false) ==> !Reach(region, node, maxDepth - depth)
      decreases maxDepth + 1 - depth, 3
    {
      Enter(node, depth);
      flags := Act(node, depth);
      Leave(node, depth, flags);
    }

    method Act(node: Id, depth: nat) returns (flags: Flags)
      requires Valid() && depth + 1 == |currentPath| <= maxDepth + 1 && currentPath[depth] == node
      requires |foundPaths| < maxPaths
      requires Walk(region, currentPath, currentEdges) && currentPath[0] == target
      modifies this
      ensures Valid()
      ensures currentPath == old(currentPath) && currentEdges == old(currentEdges)
      ensures CorridorCovers() ==>
        foundPaths == Take(old(foundPaths) + PlainAt(region, maxDepth, currentPath, currentEdges), Limit(maxPaths))
      ensures CorridorCovers() && flags == Flags(false, false) ==> !Reach(region, node, maxDepth - depth)
      decreases maxDepth + 1 - depth, 2
    {
      if node in region.starts {
        Emit();
        flags := Flags(true, false);
      } else if region.maxFanIn > 0 && depth > 0 && region.view.InDegree(node) > region.maxFanIn {
        SkipHub(node);
        flags := Flags(false, false);
        ExploredIsDead(node, depth);
      } else {
        var callers := MemoizedCallers(node);
        flags := Expand(callers, depth);
        if CorridorCovers() && flags == Flags(false, false) {
          ExploredIsDead(node, depth);
        }
      }
    }

    method Enter(node: Id, depth: nat)
      requires Valid() && depth == |currentPath| && node !in onPath
      modifies this`currentPath, this`onPath
      ensures Valid()
      ensures currentPath == old(currentPath) + [node]
      ensures currentPath[..depth] == old(currentPath) && node !in currentPath[..depth]
    {
      currentPath := currentPath + [node];
      onPath := onPath + {node};
    }

    /** The caller edges of `node`, queried once per search. */
    method MemoizedCallers(node: Id) returns (callers: seq<EdgeRef>)
      requires Valid()
      modifies this`callersMemo
      ensures Valid() && callers == region.view.CallersOf(node)
    {
      if node !in callersMemo {
        callersMemo := callersMemo[node := region.view.CallersOf(node)];
      }
      callers := callersMemo[node];
    }

    method SkipHub(node: Id)
      requires Valid() && region.Hub(node)
      modifies this`skippedHubs
      ensures Valid()
      ensures skippedHubs == old(skippedHubs)[node := region.view.InDegree(node)]
    {
      skippedHubs := skippedHubs[node := region.view.InDegree(node)];
    }

    /** Records the current path, start first. */
    method Emit()
      requires Valid() && |foundPaths| < maxPaths
      requires Walk(region, currentPath, currentEdges) && |currentEdges| <= maxDepth
      requires currentPath[0] == target && currentPath[|currentEdges|] in region.starts
      modifies this`foundPaths
      ensures Valid()
      ensures foundPaths == old(foundPaths) + [FoundPath(Reverse(currentPath), Reverse(currentEdges))]
    {
      FoundIsChain(currentPath, currentEdges);
      foundPaths := foundPaths + [FoundPath(Reverse(currentPath), Reverse(currentEdges))];
    }

    /** Steps back from `node`; an exhaustive failure becomes a memo entry. */
    method Leave(node: Id, depth: nat, flags: Flags)
      requires Valid() && depth + 1 == |currentPath| && currentPath[depth] == node
      requires node !in currentPath[..depth]
      requires CorridorCovers() && flags == Flags(false, false) ==> !Reach(region, node, maxDepth - depth)
      modifies this
      ensures Valid()
      ensures currentPath == old(currentPath)[..depth] && currentEdges == old(currentEdges)
      ensures foundPaths == old(foundPaths)
    {
      currentPath := currentPath[..|currentPath| - 1];
      onPath := onPath - {node};
      if flags == Flags(false, false) {
        if node !in deadAt || depth < deadAt[node] {
          if CorridorCovers() {
            DeadEndAdded(deadAt, node, depth);
          }
          deadAt := deadAt[node := depth];
        }
      }
    }

    /** One caller edge of the last node of the path: skipped, or followed. */
    method Follow(edge: EdgeRef, depth: nat) returns (flags: Flags)
      requires Valid() && depth + 1 == |currentPath| <= maxDepth + 1
      requires Walk(region, currentPath, currentEdges) && currentPath[0] == target
      requires edge in region.view.CallersOf(currentPath[depth]) && currentPath[depth] !in region.starts
      requires depth > 0 ==> !region.Hub(currentPath[depth])
      modifies this
      ensures Valid()
      ensures currentPath == old(currentPath) && currentEdges == old(currentEdges)
      ensures CorridorCovers() ==>
        foundPaths == Take(old(foundPaths) + PlainCaller(region, maxDepth, edge, currentPath, currentEdges),
          Limit(maxPaths))
      ensures CorridorCovers() && flags == Flags(false, false) && region.admit(edge) ==>
        !Reach(region, edge.caller, maxDepth - depth - 1)
      decreases maxDepth + 1 - depth, 0
    {
      if edge.caller in onPath {
        return Flags(false, true); // path-dependent exclusion
      }
      if !region.admit(edge) {
        return Flags(false, false);
      }
      if edge.caller !in minFromStart || minFromStart[edge.caller] + depth + 1 > maxDepth {
        if CorridorCovers() {
          PrunedIsEmpty(edge, currentPath, currentEdges);
        }
        return Flags(false, false);
      }
      WalkExtends(region, currentPath, currentEdges, edge);
      currentEdges := currentEdges + [edge];
      flags := Dfs(edge.caller, depth + 1);
      currentEdges := currentEdges[..|currentEdges| - 1];
    }

    /** The loop over the caller edges of the last node of the path. */
    method Expand(callers: seq<EdgeRef>, depth: nat) returns (flags: Flags)
      requires Valid() && depth + 1 == |currentPath| <= maxDepth + 1
      requires |foundPaths| < maxPaths
      requires Walk(region, currentPath, currentEdges) && currentPath[0] == target
      requires callers == region.view.CallersOf(currentPath[depth]) && currentPath[depth] !in region.starts
      requires depth > 0 ==> !region.Hub(currentPath[depth])
      modifies this
      ensures Valid()
      ensures currentPath == old(currentPath) && currentEdges == old(currentEdges)
      ensures CorridorCovers() ==>
        foundPaths == Take(old(foundPaths) + PlainCallers(region, maxDepth, callers, currentPath, currentEdges),
          Limit(maxPaths))
      ensures CorridorCovers() && flags == Flags(false, false) ==> NoneReach(callers, maxDepth - depth - 1)
      decreases maxDepth + 1 - depth, 1
    {
      flags := Flags(false, false);
      ghost var limit, path, edges := Limit(maxPaths), currentPath, currentEdges;
      ghost var want := Take(foundPaths + PlainCallers(region, maxDepth, callers, path, edges), limit);
      assert callers[0..] == callers;
      for i := 0 to |callers|
        invariant Valid()
        invariant currentPath == path && currentEdges == edges
        invariant |foundPaths| < maxPaths
        invariant CorridorCovers() ==>
          Take(foundPaths + PlainCallers(region, maxDepth, callers[i..], path, edges), limit) == want
        invariant CorridorCovers() && flags == Flags(false, false) ==> NoneReach(callers[..i], maxDepth - depth - 1)
      {
        ghost var before := foundPaths;
        var below := Follow(callers[i], depth);
        flags := flags.Or(below);
        if CorridorCovers() {
          FollowedOne(region, maxDepth, callers, i, path, edges, before, foundPaths, limit);
        }
        if |foundPaths| >= maxPaths {
          flags := flags.Or(Flags(false, true)); // truncated, not exhausted
          return;
        }
        if CorridorCovers() && flags == Flags(false, false) {
          NoneReachOne(callers, i, maxDepth - depth - 1);
        }
      }
      assert callers[|callers|..] == [];
      assert callers[..|callers|] == callers;
    }

    lemma NoneReachOne(callers: seq<EdgeRef>, i: nat, b: int)
      requires i < |callers| && NoneReach(callers[..i], b)
      requires region.admit(callers[i]) ==> !Reach(region, callers[i].caller, b)
      ensures NoneReach(callers[..i + 1], b)
    {
      assert callers[..i + 1] == callers[..i] + [callers[i]];
    }

    ghost predicate NoneReach(callers: seq<EdgeRef>, b: int) {
      forall e {:trigger e in callers} :: e in callers && region.admit(e) ==> !Reach(region, e.caller, b)
    }
  }
}

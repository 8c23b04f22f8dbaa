/** query_locks_held: the reverse search for entry paths that may revisit nodes but no call
    edge (src/query/LockTools.cpp:96-312). */
module LockSearch {
  import opened EdgeTypes
  import opened Sequences
  import opened Corridor

  const MAX_PATHS: nat := 512

  /** A found path, target first, with the call site of every step. */
  datatype RawLockPath = RawLockPath(entryPoint: Id, nodes: seq<Id>, edgeSites: seq<Id>)

  /** The identity of a call edge for the per-path exclusion. */
  datatype EdgeVisitKey = EdgeVisitKey(caller: Id, callee: Id, site: Id)

  function KeyOf(e: EdgeRef): EdgeVisitKey {
    EdgeVisitKey(e.caller, e.callee, e.callSite)
  }

  ghost function Sites(edges: seq<EdgeRef>): seq<Id> {
    if edges == [] then [] else Sites(edges[..|edges| - 1]) + [edges[|edges| - 1].callSite]
  }

  ghost function Keys(edges: seq<EdgeRef>): set<EdgeVisitKey> {
    if edges == [] then {} else Keys(edges[..|edges| - 1]) + {KeyOf(edges[|edges| - 1])}
  }

  lemma Appended(edges: seq<EdgeRef>, e: EdgeRef)
    ensures Sites(edges + [e]) == Sites(edges) + [e.callSite]
    ensures Keys(edges + [e]) == Keys(edges) + {KeyOf(e)}
  {
    assert (edges + [e])[..|edges|] == edges;
  }

  lemma {:induction false} KeyIsOnPath(edges: seq<EdgeRef>, key: EdgeVisitKey)
    ensures key in Keys(edges) <==> exists i :: 0 <= i < |edges| && KeyOf(edges[i]) == key
  {
    if edges != [] {
      KeyIsOnPath(edges[..|edges| - 1], key);
    }
  }

  // ---- the plain search --------------------------------------------------------------------

  /** The enumeration without corridor, memo or early stop. `path` and `edges` hold what was
      walked so far, target first. */
  ghost function Plain(r: Region, maxDepth: nat, path: seq<Id>, edges: seq<EdgeRef>): seq<RawLockPath>
    requires 0 < |path| <= maxDepth
    decreases maxDepth - |path|, 2, 0
  {
    var cur := path[|path| - 1];
    if cur in r.starts then [RawLockPath(cur, path, Sites(edges))]
    else if |path| >= maxDepth then []
    else if |path| > 1 && r.Hub(cur) then []
    else PlainCallers(r, maxDepth, r.view.CallersOf(cur), path, edges)
  }

  ghost function PlainCallers(r: Region, maxDepth: nat, callers: seq<EdgeRef>, path: seq<Id>,
                              edges: seq<EdgeRef>): seq<RawLockPath>
    requires 0 < |path| < maxDepth
    decreases maxDepth - |path|, 1, |callers|
  {
    if callers == [] then []
    else PlainCaller(r, maxDepth, callers[0], path, edges) + PlainCallers(r, maxDepth, callers[1..], path, edges)
  }

  ghost function PlainCaller(r: Region, maxDepth: nat, e: EdgeRef, path: seq<Id>, edges: seq<EdgeRef>): seq<RawLockPath>
    requires 0 < |path| < maxDepth
    decreases maxDepth - |path|, 1, 0
  {
    if !r.admit(e) || KeyOf(e) in Keys(edges) then []
    else Plain(r, maxDepth, path + [e.caller], edges + [e])
  }

  lemma PlainCallersSplit(r: Region, maxDepth: nat, callers: seq<EdgeRef>, i: nat, path: seq<Id>, edges: seq<EdgeRef>)
    requires 0 < |path| < maxDepth && i < |callers|
    ensures PlainCallers(r, maxDepth, callers[i..], path, edges)
         == PlainCaller(r, maxDepth, callers[i], path, edges) + PlainCallers(r, maxDepth, callers[i + 1..], path, edges)
  {
    assert callers[i..][1..] == callers[i + 1..];
  }

  /** Following one more caller keeps what the rest of the loop will make of the result. */
  lemma FollowedOne(r: Region, maxDepth: nat, callers: seq<EdgeRef>, i: nat, path: seq<Id>, edges: seq<EdgeRef>,
                    before: seq<RawLockPath>, after: seq<RawLockPath>, limit: nat)
    requires 0 < |path| < maxDepth && i < |callers|
    requires after == Take(before + PlainCaller(r, maxDepth, callers[i], path, edges), limit)
    ensures Take(after + PlainCallers(r, maxDepth, callers[i + 1..], path, edges), limit)
         == Take(before + PlainCallers(r, maxDepth, callers[i..], path, edges), limit)
  {
    PlainCallersSplit(r, maxDepth, callers, i, path, edges);
    TakeRest(before, PlainCaller(r, maxDepth, callers[i], path, edges),
             PlainCallers(r, maxDepth, callers[i + 1..], path, edges), limit);
  }

  lemma {:induction false} PlainNeedsReach(r: Region, maxDepth: nat, path: seq<Id>, edges: seq<EdgeRef>)
    requires 0 < |path| <= maxDepth
    requires Plain(r, maxDepth, path, edges) != []
    ensures RootReach(r, path[|path| - 1], maxDepth - |path|)
    ensures |path| > 1 ==> Reach(r, path[|path| - 1], maxDepth - |path|)
    decreases maxDepth - |path|, 2, 0
  {
    var cur := path[|path| - 1];
    if cur !in r.starts {
      PlainCallersNeedReach(r, maxDepth, r.view.CallersOf(cur), path, edges);
    }
  }

  lemma {:induction false} PlainCallersNeedReach(r: Region, maxDepth: nat, callers: seq<EdgeRef>, path: seq<Id>,
                                                 edges: seq<EdgeRef>)
    requires 0 < |path| < maxDepth
    requires PlainCallers(r, maxDepth, callers, path, edges) != []
    ensures exists e :: e in callers && r.admit(e) && Reach(r, e.caller, maxDepth - |path| - 1)
    decreases maxDepth - |path|, 1, |callers|
  {
    if PlainCaller(r, maxDepth, callers[0], path, edges) != [] {
      PlainNeedsReach(r, maxDepth, path + [callers[0].caller], edges + [callers[0]]);
      assert callers[0] in callers;
    } else {
      PlainCallersNeedReach(r, maxDepth, callers[1..], path, edges);
      var e :| e in callers[1..] && r.admit(e) && Reach(r, e.caller, maxDepth - |path| - 1);
      assert e in callers;
    }
  }

  // ---- the search --------------------------------------------------------------------------

  datatype Flags = Flags(found: bool, blocked: bool)
  {
    function Or(other: Flags): Flags {
      Flags(found || other.found, blocked || other.blocked)
    }
  }

  class State {
    const region: Region
    const maxDepth: nat
    const minFromEntry: map<Id, nat>
    /** The result limit: MAX_PATHS in every call of the tool. */
    const maxPaths: nat

    var path: seq<Id>
    var edgeSites: seq<Id>
    var visitedEdges: set<EdgeVisitKey>
    var deadAt: map<Id, nat>
    var callersMemo: map<Id, seq<EdgeRef>>
    var skippedHubs: map<Id, nat>
    var out: seq<RawLockPath>
    var truncated: bool
    /** The edges along `path`; the program keeps only their sites and keys. */
    ghost var edges: seq<EdgeRef>

    constructor (region: Region, maxDepth: nat, minFromEntry: map<Id, nat>, maxPaths: nat, target: Id)
      ensures Valid() && this.region == region && this.maxDepth == maxDepth && this.minFromEntry == minFromEntry
      ensures this.maxPaths == maxPaths
      ensures path == [target] && edges == [] && out == [] && !truncated && deadAt == map[] && skippedHubs == map[]
    {
      this.region, this.maxDepth, this.minFromEntry, this.maxPaths := region, maxDepth, minFromEntry, maxPaths;
      path, edgeSites, visitedEdges, deadAt, callersMemo, skippedHubs, out, truncated :=
        [target], [], {}, map[], map[], map[], [], false;
      edges := [];
    }

    ghost predicate CorridorCovers() {
      maxDepth > 0 && Covers(region, maxDepth - 1, minFromEntry)
    }

    /** The memo invariant: `deadAt[n] == d` means no admitted reverse walk leads from `n` to
        an entry with the budget left on a path of `d` nodes, repeated nodes and edges
        included. */
    ghost predicate DeadEnds(dead: map<Id, nat>) {
      forall n {:trigger dead[n]} :: n in dead ==> !Reach(region, n, maxDepth - dead[n])
    }

    ghost predicate Valid()
      reads this
    {
      && edgeSites == Sites(edges) && visitedEdges == Keys(edges)
      && (forall n :: n in callersMemo ==> callersMemo[n] == region.view.CallersOf(n))
      && (forall n :: n in skippedHubs ==> region.Hub(n) && skippedHubs[n] == region.view.InDegree(n))
      && |out| <= maxPaths
      && (truncated ==> |out| == maxPaths)
      && (CorridorCovers() ==> DeadEnds(deadAt))
    }

    lemma DeadEndIsEmpty(dead: nat)
      requires 1 < |path| <= maxDepth && dead <= |path|
      requires !Reach(region, path[|path| - 1], maxDepth - dead)
      ensures !Reach(region, path[|path| - 1], maxDepth - |path|)
      ensures Plain(region, maxDepth, path, edges) == []
    {
      if Reach(region, path[|path| - 1], maxDepth - |path|) {
        ReachMonotone(region, path[|path| - 1], maxDepth - |path|, maxDepth - dead);
      }
      if Plain(region, maxDepth, path, edges) != [] {
        PlainNeedsReach(region, maxDepth, path, edges);
      }
    }

    lemma PrunedIsEmpty(e: EdgeRef, path: seq<Id>, edges: seq<EdgeRef>)
      requires CorridorCovers()
      requires 0 < |path| < maxDepth
      requires e.caller !in minFromEntry || |path| + 1 + minFromEntry[e.caller] > maxDepth
      ensures !RootReach(region, e.caller, maxDepth - |path| - 1)
      ensures PlainCaller(region, maxDepth, e, path, edges) == []
    {
      if RootReach(region, e.caller, maxDepth - |path| - 1) {
        CoversAt(region, maxDepth - 1, minFromEntry, e.caller, maxDepth - |path| - 1);
      }
      if PlainCaller(region, maxDepth, e, path, edges) != [] {
        PlainNeedsReach(region, maxDepth, path + [e.caller], edges + [e]);
      }
    }

    /** A node all of whose admitted callers are dead ends is one itself. */
    lemma ExploredIsDead(node: Id, size: nat)
      requires node !in region.starts && size <= maxDepth
      requires size == maxDepth || region.Hub(node) || NoneReach(region.view.CallersOf(node), maxDepth - size - 1)
      ensures !Reach(region, node, maxDepth - size)
    {
    }

    lemma DeadEndAdded(dead: map<Id, nat>, node: Id, size: nat)
      requires DeadEnds(dead) && !Reach(region, node, maxDepth - size)
      ensures DeadEnds(dead[node := size])
    {
    }

    lemma NoneReachOne(callers: seq<EdgeRef>, i: nat, b: int)
      requires i < |callers| && NoneReach(callers[..i], b)
      requires region.admit(callers[i]) ==> !Reach(region, callers[i].caller, b)
      ensures NoneReach(callers[..i + 1], b)
    {
      assert callers[..i + 1] == callers[..i] + [callers[i]];
    }

    ghost predicate NoneReach(callers: seq<EdgeRef>, b: int) {
      forall e {:trigger e in callers} :: e in callers && region.admit(e) ==> !Reach(region, e.caller, b)
    }

    method ReverseDfs() returns (flags: Flags)
      requires Valid() && 0 < |path| <= maxDepth
      requires |path| == 1 ==> deadAt == map[]
      modifies this
      ensures Valid()
      ensures path == old(path) && edges == old(edges)
      ensures CorridorCovers() ==> out == Take(old(out) + Plain(region, maxDepth, path, edges), maxPaths)
      ensures CorridorCovers() && flags == Flags(false, false) ==>
        !Reach(region, path[|path| - 1], maxDepth - |path|)
      ensures path[|path| - 1] !in region.starts && |out| == maxPaths ==> truncated
      decreases maxDepth - |path|, 5
    {
      if |out| >= maxPaths {
        truncated := true;
        return Flags(false, true);
      }
      flags := Enter(path[|path| - 1]);
    }

    /** An entry completes a path; any other node is pruned or expanded. */
    method Enter(cur: Id) returns (flags: Flags)
      requires Valid() && 0 < |path| <= maxDepth && cur == path[|path| - 1]
      requires |path| == 1 ==> deadAt == map[]
      requires |out| < maxPaths
      modifies this
      ensures Valid()
      ensures path == old(path) && edges == old(edges)
      ensures CorridorCovers() ==> out == Take(old(out) + Plain(region, maxDepth, path, edges), maxPaths)
      ensures CorridorCovers() && flags == Flags(false, false) ==> !Reach(region, cur, maxDepth - |path|)
      ensures cur !in region.starts && |out| == maxPaths ==> truncated
      decreases maxDepth - |path|, 4
    {
      if cur in region.starts {
        Emit();
        flags := Flags(true, false);
      } else {
        var pruned := Prune(cur);
        if pruned {
          flags := Flags(false, false);
        } else {
          flags := ExpandAndRecord(cur);
        }
      }
    }

    /** The failures that need no exploration: no budget left, a known dead end, a hub. */
    method Prune(cur: Id) returns (pruned: bool)
      requires Valid() && 0 < |path| <= maxDepth && cur == path[|path| - 1] && cur !in region.starts
      requires |path| == 1 ==> deadAt == map[]
      modifies this`skippedHubs
      ensures Valid()
      ensures pruned && CorridorCovers() ==> Plain(region, maxDepth, path, edges) == []
      ensures pruned && CorridorCovers() ==> !Reach(region, cur, maxDepth - |path|)
      ensures !pruned ==> |path| < maxDepth && (|path| > 1 ==> !region.Hub(cur))
    {
      if |path| >= maxDepth {
        ExploredIsDead(cur, |path|);
        return true;
      }
      if cur in deadAt && |path| >= deadAt[cur] {
        if CorridorCovers() {
          DeadEndIsEmpty(deadAt[cur]);
        }
        return true;
      }
      if region.maxFanIn > 0 && |path| > 1 && region.view.InDegree(cur) > region.maxFanIn {
        SkipHub(cur);
        ExploredIsDead(cur, |path|);
        return true;
      }
      return false;
    }

    /** Records the current path. */
    method Emit()
      requires Valid() && path != [] && |out| < maxPaths
      modifies this`out
      ensures Valid()
      ensures out == old(out) + [RawLockPath(path[|path| - 1], path, Sites(edges))]
    {
      out := out + [RawLockPath(path[|path| - 1], path, edgeSites)];
    }

    method SkipHub(node: Id)
      requires Valid() && region.Hub(node)
      modifies this`skippedHubs
      ensures Valid()
      ensures skippedHubs == old(skippedHubs)[node := region.view.InDegree(node)]
    {
      skippedHubs := skippedHubs[node := region.view.InDegree(node)];
    }

    /** The part of the search behind its guards: follow every caller, then record an
        exhaustive failure. */
    method ExpandAndRecord(cur: Id) returns (flags: Flags)
      requires Valid() && 0 < |path| < maxDepth && cur == path[|path| - 1]
      requires cur !in region.starts && (|path| > 1 ==> !region.Hub(cur))
      requires |out| < maxPaths
      modifies this
      ensures Valid()
      ensures path == old(path) && edges == old(edges)
      ensures CorridorCovers() ==> out == Take(old(out) + Plain(region, maxDepth, path, edges), maxPaths)
      ensures CorridorCovers() && flags == Flags(false, false) ==> !Reach(region, cur, maxDepth - |path|)
      ensures |out| == maxPaths ==> truncated
      decreases maxDepth - |path|, 3
    {
      var callers := MemoizedCallers(cur);
      flags := Expand(callers);
      if flags == Flags(false, false) {
        if CorridorCovers() {
          ExploredIsDead(cur, |path|);
          DeadEndAdded(deadAt, cur, |path|);
        }
        if cur !in deadAt || |path| < deadAt[cur] {
          deadAt := deadAt[cur := |path|];
        }
      }
    }

    /** The caller edges of `node`, queried once per search. */
    method MemoizedCallers(node: Id) returns (callers: seq<EdgeRef>)
      requires Valid()
      modifies this`callersMemo
      ensures Valid() && callers == region.view.CallersOf(node)
    {
      if node !in callersMemo {
        callersMemo := callersMemo[node := region.view.CallersOf(node)];
      }
      callers := callersMemo[node];
    }

    /** The loop over the caller edges of the last node of the path. */
    method Expand(callers: seq<EdgeRef>) returns (flags: Flags)
      requires Valid() && 0 < |path| < maxDepth
      requires |out| < maxPaths
      modifies this
      ensures Valid()
      ensures path == old(path) && edges == old(edges)
      ensures CorridorCovers() ==> out == Take(old(out) + PlainCallers(region, maxDepth, callers, path, edges),
        maxPaths)
      ensures CorridorCovers() && flags == Flags(false, false) ==> NoneReach(callers, maxDepth - |path| - 1)
      ensures |out| == maxPaths ==> truncated
      decreases maxDepth - |path|, 2
    {
      flags := Flags(false, false);
      ghost var path0, edges0 := path, edges;
      ghost var want := Take(out + PlainCallers(region, maxDepth, callers, path0, edges0), maxPaths);
      assert callers[0..] == callers;
      for i := 0 to |callers|
        invariant Valid()
        invariant path == path0 && edges == edges0
        invariant |out| < maxPaths
        invariant CorridorCovers() ==>
          Take(out + PlainCallers(region, maxDepth, callers[i..], path0, edges0), maxPaths) == want
        invariant CorridorCovers() && flags == Flags(false, false) ==> NoneReach(callers[..i], maxDepth - |path0| - 1)
      {
        ghost var before := out;
        var below := Follow(callers[i]);
        flags := flags.Or(below);
        if CorridorCovers() {
          FollowedOne(region, maxDepth, callers, i, path0, edges0, before, out, maxPaths);
        }
        if |out| >= maxPaths {
          truncated := true;
          flags := flags.Or(Flags(false, true)); // truncated, not exhausted
          return;
        }
        if CorridorCovers() && flags == Flags(false, false) {
          NoneReachOne(callers, i, maxDepth - |path0| - 1);
        }
      }
      assert callers[|callers|..] == [];
      assert callers[..|callers|] == callers;
    }

    /** One caller edge: skipped, or followed and taken back. The visited-edge test comes after
        the corridor prune, so a pruned repeat does not spoil the memo. */
    method Follow(edge: EdgeRef) returns (flags: Flags)
      requires Valid() && 0 < |path| < maxDepth
      modifies this
      ensures Valid()
      ensures path == old(path) && edges == old(edges)
      ensures CorridorCovers() ==> out == Take(old(out) + PlainCaller(region, maxDepth, edge, path, edges), maxPaths)
      ensures CorridorCovers() && flags == Flags(false, false) && region.admit(edge) ==>
        !Reach(region, edge.caller, maxDepth - |path| - 1)
      decreases maxDepth - |path|, 1
    {
      if !region.admit(edge) {
        return Flags(false, false);
      }
      if edge.caller !in minFromEntry || |path| + 1 + minFromEntry[edge.caller] > maxDepth {
        if CorridorCovers() {
          PrunedIsEmpty(edge, path, edges);
        }
        return Flags(false, false);
      }
      var key := KeyOf(edge);
      if key in visitedEdges {
        return Flags(false, true); // path-dependent exclusion
      }
      flags := Descend(edge);
    }

    /** Takes the edge, searches on, and takes it back. */
    method Descend(edge: EdgeRef) returns (flags: Flags)
      requires Valid() && 0 < |path| < maxDepth
      requires KeyOf(edge) !in Keys(edges)
      modifies this
      ensures Valid()
      ensures path == old(path) && edges == old(edges)
      ensures CorridorCovers() ==>
        out == Take(old(out) + Plain(region, maxDepth, path + [edge.caller], edges + [edge]), maxPaths)
      ensures CorridorCovers() && flags == Flags(false, false) ==>
        !Reach(region, edge.caller, maxDepth - |path| - 1)
      decreases maxDepth - |path|, 0
    {
      ghost var path0, edges0 := path, edges;
      Push(edge);
      flags := ReverseDfs();
      Pop(edge, path0, edges0);
    }

    method Push(edge: EdgeRef)
      requires Valid()
      modifies this`path, this`edgeSites, this`visitedEdges, this`edges
      ensures Valid()
      ensures path == old(path) + [edge.caller] && edges == old(edges) + [edge]
    {
      Appended(edges, edge);
      visitedEdges := visitedEdges + {KeyOf(edge)};
      path := path + [edge.caller];
      edgeSites := edgeSites + [edge.callSite];
      edges := edges + [edge];
    }

    method Pop(edge: EdgeRef, ghost path0: seq<Id>, ghost edges0: seq<EdgeRef>)
      requires Valid() && path == path0 + [edge.caller] && edges == edges0 + [edge]
      requires KeyOf(edge) !in Keys(edges0)
      modifies this`path, this`edgeSites, this`visitedEdges, this`edges
      ensures Valid() && path == path0 && edges == edges0
    {
      Appended(edges0, edge);
      edgeSites := edgeSites[..|edgeSites| - 1];
      path := path[..|path| - 1];
      visitedEdges := visitedEdges - {KeyOf(edge)};
      edges := edges0;
    }
  }
}

/** The corridor both path tools share: a forward breadth-first search from the start set
    that bounds the reverse search (src/query/GraphTools.cpp:396-422,
    src/query/LockTools.cpp:263-282). */
module Corridor {
  import opened EdgeTypes

  // ---- forward distance ------------------------------------------------------------------

  /** Nodes one admitted callee edge away from `from`. */
  ghost function Successors(view: CallView, admit: EdgeRef -> bool, from: set<Id>): set<Id> {
    set n, e {:trigger e in view.CalleesOf(n)} | n in from && e in view.CalleesOf(n) && admit(e) :: e.callee
  }

  ghost function Grow(view: CallView, admit: EdgeRef -> bool, from: set<Id>): set<Id>
  {
    from + Successors(view, admit, from)
  }

  /** Nodes reachable from `starts` over at most `k` admitted callee edges. */
  ghost function Layer(view: CallView, admit: EdgeRef -> bool, starts: set<Id>, k: nat): set<Id> {
    if k == 0 then starts else Grow(view, admit, Layer(view, admit, starts, k - 1))
  }

  lemma {:induction false} LayerMonotone(view: CallView, admit: EdgeRef -> bool, starts: set<Id>, j: nat, k: nat)
    requires j <= k
    ensures Layer(view, admit, starts, j) <= Layer(view, admit, starts, k)
    decreases k
  {
    if j < k {
      LayerMonotone(view, admit, starts, j, k - 1);
      assert Layer(view, admit, starts, k) == Grow(view, admit, Layer(view, admit, starts, k - 1));
    }
  }

  lemma {:induction false} LayerFixpoint(view: CallView, admit: EdgeRef -> bool, starts: set<Id>, j: nat, k: nat)
    requires j <= k
    requires Grow(view, admit, Layer(view, admit, starts, j)) == Layer(view, admit, starts, j)
    ensures Layer(view, admit, starts, k) == Layer(view, admit, starts, j)
    decreases k
  {
    if j < k {
      LayerFixpoint(view, admit, starts, j, k - 1);
      var layer := Layer(view, admit, starts, j);
      calc {
        Layer(view, admit, starts, k);
        Grow(view, admit, Layer(view, admit, starts, k - 1));
        Grow(view, admit, layer);
        layer;
      }
    }
  }

  /** The distance layers as a function of the edge budget. */
  ghost function Layers(view: CallView, admit: EdgeRef -> bool, starts: set<Id>): nat -> set<Id> {
    k => Layer(view, admit, starts, k)
  }

  /** The nodes whose recorded distance is at most `k`. */
  ghost function Ball(dist: map<Id, nat>, k: nat): set<Id> {
    set n | n in dist && dist[n] <= k
  }

  /** `dist` gives every node of layer `bound` the first layer it is in, and no other node. */
  ghost predicate Shortest(layers: nat -> set<Id>, bound: nat, dist: map<Id, nat>) {
    && (forall n :: n in dist ==> dist[n] <= bound)
    && (forall k: nat {:trigger layers(k)} :: k <= bound ==> layers(k) == Ball(dist, k))
  }

  /** `dist'` adds nodes to `dist`, all at distance `d` and all listed in `next`. */
  ghost predicate Grown(dist: map<Id, nat>, dist': map<Id, nat>, next: seq<Id>, d: nat) {
    && (forall n :: n in dist ==> n in dist' && dist'[n] == dist[n])
    && (forall n :: n in dist' && n !in dist ==> dist'[n] == d)
    && (forall n :: n in next <==> n in dist' && n !in dist)
  }

  /** Gives every admitted callee not yet in the table distance `d`, first come first served. */
  method ExpandNode(edges: seq<EdgeRef>, admit: EdgeRef -> bool, ghost base: map<Id, nat>,
                    dist: map<Id, nat>, next: seq<Id>, d: nat)
    returns (dist': map<Id, nat>, next': seq<Id>)
    requires Grown(base, dist, next, d)
    ensures Grown(base, dist', next', d)
    ensures dist'.Keys == dist.Keys + (set e | e in edges && admit(e) :: e.callee)
  {
    dist', next' := dist, next;
    for j := 0 to |edges|
      invariant dist'.Keys == dist.Keys + (set e | e in edges[..j] && admit(e) :: e.callee)
      invariant Grown(base, dist', next', d)
    {
      assert edges[..j + 1] == edges[..j] + [edges[j]];
      if admit(edges[j]) && edges[j].callee !in dist' {
        dist' := dist'[edges[j].callee := d];
        next' := next' + [edges[j].callee];
      }
    }
    assert edges[..|edges|] == edges;
  }

  /** One frontier expansion: every admitted callee of `frontier` not yet in the table gets
      distance `d` and joins the next frontier. */
  method ExpandFrontier(view: CallView, admit: EdgeRef -> bool, dist: map<Id, nat>, frontier: seq<Id>, d: nat)
    returns (dist': map<Id, nat>, next: seq<Id>)
    ensures dist'.Keys == dist.Keys + Successors(view, admit, (set n | n in frontier))
    ensures Grown(dist, dist', next, d)
  {
    dist', next := dist, [];
    for i := 0 to |frontier|
      invariant dist'.Keys == dist.Keys + Successors(view, admit, (set n | n in frontier[..i]))
      invariant Grown(dist, dist', next, d)
    {
      dist', next := ExpandNode(view.CalleesOf(frontier[i]), admit, dist, dist', next, d);
      assert frontier[..i + 1] == frontier[..i] + [frontier[i]];
    }
    assert frontier[..|frontier|] == frontier;
  }

  /** What the loop below keeps: distances up to `d` are settled and `frontier` holds every
      node first reached at distance `d`. */
  ghost predicate Settled(layers: nat -> set<Id>, d: nat, dist: map<Id, nat>, frontier: set<Id>) {
    && Shortest(layers, d, dist)
    && frontier <= dist.Keys
    && (if d == 0 then frontier == dist.Keys else dist.Keys - Ball(dist, d - 1) <= frontier)
  }

  /** Expanding the frontier alone reaches all of the next layer. */
  lemma LayerStep(view: CallView, admit: EdgeRef -> bool, starts: set<Id>, d: nat, frontier: set<Id>)
    requires frontier <= Layer(view, admit, starts, d)
    requires if d == 0 then frontier == Layer(view, admit, starts, 0)
             else Layer(view, admit, starts, d) - Layer(view, admit, starts, d - 1) <= frontier
    ensures Layer(view, admit, starts, d + 1) == Layer(view, admit, starts, d) + Successors(view, admit, frontier)
  {
    var layer := Layer(view, admit, starts, d);
    forall n | n in Successors(view, admit, layer) ensures n in layer + Successors(view, admit, frontier) {
      var m, e :| m in layer && e in view.CalleesOf(m) && admit(e) && e.callee == n;
      if m !in frontier {
        assert m in Layer(view, admit, starts, d - 1);
        assert n in Successors(view, admit, Layer(view, admit, starts, d - 1));
      }
    }
  }

  lemma SettledStep(layers: nat -> set<Id>, d: nat, dist: map<Id, nat>, frontier: set<Id>,
                    dist': map<Id, nat>, next: seq<Id>)
    requires Settled(layers, d, dist, frontier)
    requires dist'.Keys == layers(d + 1) && dist.Keys <= dist'.Keys
    requires Grown(dist, dist', next, d + 1)
    ensures Settled(layers, d + 1, dist', (set n | n in next))
  {
    forall k: nat | k <= d + 1 ensures layers(k) == Ball(dist', k) {
      if k <= d {
        assert layers(k) == Ball(dist, k) == Ball(dist', k);
      } else {
        assert Ball(dist', k) == dist'.Keys;
      }
    }
  }

  /** A settled table turns the layer facts into facts about the table. */
  lemma NextLayer(view: CallView, admit: EdgeRef -> bool, starts: set<Id>, d: nat, dist: map<Id, nat>,
                  frontier: set<Id>)
    requires Settled(Layers(view, admit, starts), d, dist, frontier)
    ensures Layer(view, admit, starts, d) == dist.Keys
    ensures Layer(view, admit, starts, d + 1) == dist.Keys + Successors(view, admit, frontier)
  {
    var layers := Layers(view, admit, starts);
    assert layers(d) == Ball(dist, d) == dist.Keys;
    if d > 0 {
      assert layers(d - 1) == Ball(dist, d - 1);
    }
    LayerStep(view, admit, starts, d, frontier);
  }

  lemma SettledDone(view: CallView, admit: EdgeRef -> bool, starts: set<Id>, d: nat, bound: nat, dist: map<Id, nat>)
    requires d <= bound && Settled(Layers(view, admit, starts), d, dist, {})
    ensures Shortest(Layers(view, admit, starts), bound, dist)
  {
    var layers := Layers(view, admit, starts);
    NextLayer(view, admit, starts, d, dist, {});
    forall k: nat | k <= bound ensures layers(k) == Ball(dist, k) {
      if k > d {
        LayerFixpoint(view, admit, starts, d, k);
        assert Ball(dist, k) == dist.Keys;
      }
    }
  }

  /** One round of the search, with the facts `ExpandFrontier` provides. */
  lemma Round(view: CallView, admit: EdgeRef -> bool, starts: set<Id>, d: nat, dist: map<Id, nat>,
              frontier: set<Id>, dist': map<Id, nat>, next: seq<Id>)
    requires Settled(Layers(view, admit, starts), d, dist, frontier)
    requires dist'.Keys == dist.Keys + Successors(view, admit, frontier)
    requires Grown(dist, dist', next, d + 1)
    ensures Settled(Layers(view, admit, starts), d + 1, dist', (set n | n in next))
  {
    var layers := Layers(view, admit, starts);
    assert dist'.Keys == layers(d + 1) by {
      NextLayer(view, admit, starts, d, dist, frontier);
    }
    SettledStep(layers, d, dist, frontier, dist', next);
  }

  /** The corridor table: breadth-first, one frontier per distance. */
  method MinDistances(view: CallView, admit: EdgeRef -> bool, starts: seq<Id>, bound: nat)
    returns (dist: map<Id, nat>)
    ensures Shortest(Layers(view, admit, (set n | n in starts)), bound, dist)
  {
    ghost var startSet := set n | n in starts;
    var frontier := starts;
    dist := map n | n in starts :: 0;
    var d := 0;
    while frontier != [] && d < bound
      invariant d <= bound
      invariant Settled(Layers(view, admit, startSet), d, dist, (set n | n in frontier))
      decreases bound - d
    {
      var dist', next := ExpandFrontier(view, admit, dist, frontier, d + 1);
      Round(view, admit, startSet, d, dist, (set n | n in frontier), dist', next);
      dist, frontier, d := dist', next, d + 1;
    }
    if frontier == [] {
      assert (set n | n in frontier) == {};
      SettledDone(view, admit, startSet, d, bound, dist);
    }
  }

  // ---- backward reach under a budget --------------------------------------------------------

  /** The part of a reverse search that does not depend on the path walked so far. */
  datatype Region = Region(view: CallView, starts: set<Id>, admit: EdgeRef -> bool, maxFanIn: nat)
  {
    predicate Hub(n: Id) {
      maxFanIn > 0 && view.InDegree(n) > maxFanIn
    }
  }

  /** Some admitted reverse walk of at most `b` edges leads from `n` to a start, every node
      strictly between being neither a start nor a hub; `n` itself may be a hub. */
  ghost predicate RootReach(r: Region, n: Id, b: int)
    decreases b, 0
  {
    b >= 0 && (n in r.starts || (b > 0 && exists e ::
      e in r.view.CallersOf(n) && r.admit(e) && Reach(r, e.caller, b - 1)))
  }

  /** The same for a node below the search target, where hubs are not expanded. */
  ghost predicate Reach(r: Region, n: Id, b: int)
    decreases b, 1
  {
    RootReach(r, n, b) && (n in r.starts || !r.Hub(n))
  }

  lemma {:induction false} ReachMonotone(r: Region, n: Id, a: int, b: int)
    requires a <= b && RootReach(r, n, a)
    ensures RootReach(r, n, b)
    decreases a
  {
    if n !in r.starts {
      var e :| e in r.view.CallersOf(n) && r.admit(e) && Reach(r, e.caller, a - 1);
      ReachMonotone(r, e.caller, a - 1, b - 1);
    }
  }

  /** Every admitted caller edge has a counterpart among the caller's own callee edges that
      the corridor walk may use. A self edge needs none: it leads no nearer to a start. */
  ghost predicate Dual(view: CallView, admit: EdgeRef -> bool, walk: EdgeRef -> bool) {
    forall n, e :: e in view.CallersOf(n) && admit(e) && e.caller != n ==>
      CalleeEdge(view, walk, e.caller, n)
  }

  ghost predicate CalleeEdge(view: CallView, walk: EdgeRef -> bool, caller: Id, callee: Id) {
    exists f :: f in view.CalleesOf(caller) && walk(f) && f.callee == callee
  }

  /** The corridor is sound: what can reach a start backwards within `b` edges is within `b`
      edges of a start forwards. */
  lemma {:induction false} ReachInCorridor(r: Region, walk: EdgeRef -> bool, n: Id, b: nat)
    requires Dual(r.view, r.admit, walk)
    requires RootReach(r, n, b)
    ensures n in Layer(r.view, walk, r.starts, b)
    decreases b
  {
    if n in r.starts {
      LayerMonotone(r.view, walk, r.starts, 0, b);
    } else {
      var e :| e in r.view.CallersOf(n) && r.admit(e) && Reach(r, e.caller, b - 1);
      ReachInCorridor(r, walk, e.caller, b - 1);
      if e.caller != n {
        assert CalleeEdge(r.view, walk, e.caller, n);
      }
    }
  }

  /** Names a question about a node and a budget; only a trigger for the next predicate. */
  ghost predicate Asked(n: Id, b: nat) {
    true
  }

  /** The table knows every node that can still complete a path, with a distance within the
      budget. */
  ghost predicate Covers(r: Region, bound: nat, dist: map<Id, nat>) {
    forall n, b: nat {:trigger Asked(n, b)} ::
      b <= bound && RootReach(r, n, b) ==> n in dist && dist[n] <= b
  }

  lemma CoversAt(r: Region, bound: nat, dist: map<Id, nat>, n: Id, b: nat)
    requires Covers(r, bound, dist)
    requires b <= bound && RootReach(r, n, b)
    ensures n in dist && dist[n] <= b
  {
    assert Asked(n, b);
  }

  /** The corridor search yields a covering table whenever the two edge queries are dual. */
  lemma TableCovers(r: Region, walk: EdgeRef -> bool, bound: nat, dist: map<Id, nat>)
    requires Dual(r.view, r.admit, walk)
    requires Shortest(Layers(r.view, walk, r.starts), bound, dist)
    ensures Covers(r, bound, dist)
  {
    forall n, b: nat | b <= bound && RootReach(r, n, b)
      ensures n in dist && dist[n] <= b
    {
      ReachInCorridor(r, walk, n, b);
      assert Layers(r.view, walk, r.starts)(b) == Ball(dist, b);
    }
  }
}

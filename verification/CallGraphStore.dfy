/** The mutable call graph: refcounted, deduplicated edges with per-TU provenance, and the two
    relations that queries expand through (src/callgraph/CallGraph.cpp). */
module CallGraphStore {
  import opened EdgeTypes
  import opened Interner
  import opened Sequences
  import opened Registrations
  import opened EdgeTables
  import opened EdgeMerge
  import opened Relations

  ghost predicate BothOk(overrides: Relation, returned: Relation, strings: seq<string>,
                         overrideLog: set<(string, string)>, returnLog: set<(string, string)>) {
    RelationOk(overrides, strings, overrideLog) && RelationOk(returned, strings, returnLog)
  }

  /** The strings after interning one more, or several. */
  function Known(strings: seq<string>, s: string): seq<string> {
    if s in strings then strings else strings + [s]
  }

  function KnownPair(strings: seq<string>, a: string, b: string): seq<string> {
    Known(Known(strings, a), b)
  }

  function KnownEdge(strings: seq<string>, e: EdgeName, tuPath: string): seq<string> {
    var named := Known(KnownPair(strings, e.caller, e.callee), e.callSite);
    if tuPath == "" then named else Known(named, tuPath)
  }

  predicate Interned(ids: map<string, Id>, e: EdgeName) {
    e.caller in ids && e.callee in ids && e.callSite in ids
  }

  function KeyFor(ids: map<string, Id>, e: EdgeName): EdgeRef
    requires Interned(ids, e)
  {
    EdgeRef(ids[e.caller], ids[e.callee], ids[e.callSite], e.kind, e.confidence, e.execContext, e.indirectionDepth)
  }

  /** The tables after one registration: counted, and listed for its unit. */
  function Added(t: Tables, key: EdgeRef, tuPath: string, u: Id): Tables {
    var bumped := Bumped(t, key, 1);
    if tuPath == "" || key !in bumped.index then bumped else Tagged(bumped, u, bumped.index[key])
  }

  class CallGraph {
    var strings: seq<string>
    var ids: map<string, Id>
    var edges: seq<StoredEdge>
    var edgeIndex: map<EdgeRef, nat>
    var outEdges: map<Id, seq<nat>>
    var inEdges: map<Id, seq<nat>>
    var tuEdges: map<Id, seq<nat>>
    var liveEdgeCount: nat
    var methodOverrides: map<Id, seq<Id>>
    var overrideBases: map<Id, seq<Id>>
    var functionReturns: map<Id, seq<Id>>
    var returnedBy: map<Id, seq<Id>>

    /** The registrations that survive, and every relation pair ever added. */
    ghost var regs: seq<Registration>
    ghost var overrideLog: set<(string, string)>
    ghost var returnLog: set<(string, string)>

    function Tab(): Tables
      reads this
    {
      Tables(strings, edges, edgeIndex, outEdges, inEdges, tuEdges)
    }

    function Overrides(): Relation
      reads this
    {
      Relation(methodOverrides, overrideBases)
    }

    function Returns(): Relation
      reads this
    {
      Relation(functionReturns, returnedBy)
    }

    ghost predicate Valid()
      reads this
    {
      && InternerOk(strings, ids)
      && TablesOk(Tab(), regs)
      && liveEdgeCount == |edgeIndex|
      && BothOk(Overrides(), Returns(), strings, overrideLog, returnLog)
    }

    constructor ()
      ensures Valid() && regs == [] && overrideLog == {} && returnLog == {}
      ensures Tab() == EmptyTables([])
      ensures Overrides() == Relation(map[], map[]) && Returns() == Relation(map[], map[])
    {
      strings, ids, edges, edgeIndex, outEdges, inEdges, tuEdges := [], map[], [], map[], map[], map[], map[];
      liveEdgeCount := 0;
      methodOverrides, overrideBases, functionReturns, returnedBy := map[], map[], map[], map[];
      regs, overrideLog, returnLog := [], {}, {};
    }

    /** The id of `s`, allocated on first use. Nothing stored changes its meaning. */
    method Intern(s: string) returns (id: Id)
      requires Valid()
      modifies this`strings, this`ids
      ensures Valid() && strings == Known(old(strings), s)
      ensures id < |strings| && strings[id] == s && s in ids && id == ids[s]
      ensures forall x :: x in old(ids) ==> x in ids && ids[x] == old(ids)[x]
    {
      hide TablesOk, RelationOk, InternerOk;
      ghost var t := Tab();
      strings, ids, id := InternString(strings, ids, s);
      if s !in t.strings {
        InternedOk(t, s, regs);
        GrownRelation(Overrides(), t.strings, strings, overrideLog);
        GrownRelation(Returns(), t.strings, strings, returnLog);
      }
    }

    function Find(s: string): Option<Id>
      reads this
    {
      if s in ids then Some(ids[s]) else None
    }

    /** addEdge: bump the count of an identical edge, or append a slot; then tag it. */
    method AddEdge(edge: EdgeName, tuPath: string)
      requires Valid()
      modifies this
      ensures Valid()
      ensures regs == old(regs) + [Registration(edge, tuPath)]
      ensures overrideLog == old(overrideLog) && returnLog == old(returnLog)
      ensures Overrides() == old(Overrides()) && Returns() == old(Returns())
      ensures strings == KnownEdge(old(strings), edge, tuPath)
      ensures Interned(ids, edge) && (tuPath != "" ==> tuPath in ids)
      ensures Tab() == Added(old(Tab()).(strings := strings), KeyFor(ids, edge), tuPath,
                             if tuPath == "" then 0 else ids[tuPath])
    {
      hide TablesOk, RelationOk, InternerOk, Added, BothOk;
      var key, tuId := InternEdge(edge, tuPath);
      Register(key, edge, tuPath, tuId);
    }

    /** The ids of an edge's strings and of its unit. */
    method InternEdge(edge: EdgeName, tuPath: string) returns (key: EdgeRef, tuId: Id)
      requires Valid()
      modifies this`strings, this`ids
      ensures Valid() && strings == KnownEdge(old(strings), edge, tuPath)
      ensures Interned(ids, edge) && key == KeyFor(ids, edge)
      ensures KeyIn(key, |strings|) && Name(strings, key) == edge
      ensures if tuPath == "" then tuId == 0
        else tuPath in ids && tuId == ids[tuPath] < |strings| && strings[tuId] == tuPath
    {
      hide TablesOk, RelationOk, InternerOk, BothOk;
      var caller := Intern(edge.caller);
      var callee := Intern(edge.callee);
      var callSite := Intern(edge.callSite);
      key := EdgeRef(caller, callee, callSite, edge.kind, edge.confidence, edge.execContext, edge.indirectionDepth);
      tuId := 0;
      if tuPath != "" {
        tuId := Intern(tuPath); // the program interns it last; the id space is the same
      }
    }

    /** The part of addEdge behind the interning. */
    method Register(key: EdgeRef, ghost edge: EdgeName, tuPath: string, tuId: Id)
      requires Valid() && KeyIn(key, |strings|) && Name(strings, key) == edge
      requires tuPath != "" ==> tuId < |strings| && strings[tuId] == tuPath
      modifies this`edges, this`edgeIndex, this`outEdges, this`inEdges, this`tuEdges, this`liveEdgeCount, this`regs
      ensures Valid()
      ensures regs == old(regs) + [Registration(edge, tuPath)]
      ensures Tab() == Added(old(Tab()), key, tuPath, tuId)
    {
      hide TablesOk, RelationOk, InternerOk, Bumped;
      ghost var t := Tab();
      AddedOk(t, regs, key, tuPath, tuId);
      var idx := Store(key);
      if tuPath != "" {
        tuEdges := tuEdges[tuId := Slots(tuEdges, tuId) + [idx]];
      }
      regs := regs + [Registration(edge, tuPath)];
    }

    /** The dedup probe: bump an identical edge's count, or append a slot. */
    method Store(key: EdgeRef) returns (idx: nat)
      requires Valid()
      modifies this`edges, this`edgeIndex, this`outEdges, this`inEdges, this`liveEdgeCount
      ensures Tab() == Bumped(old(Tab()), key, 1) && liveEdgeCount == |edgeIndex|
      ensures key in edgeIndex && idx == edgeIndex[key]
    {
      hide TablesOk, RelationOk, InternerOk;
      if key in edgeIndex {
        IndexInRange(Tab(), regs, key);
        idx := edgeIndex[key];
        edges := edges[idx := edges[idx].(refs := edges[idx].refs + 1)];
      } else {
        idx := |edges|;
        outEdges := outEdges[key.caller := Slots(outEdges, key.caller) + [idx]];
        inEdges := inEdges[key.callee := Slots(inEdges, key.callee) + [idx]];
        edges := edges + [StoredEdge(key, 1)];
        edgeIndex := edgeIndex[key := idx];
        liveEdgeCount := liveEdgeCount + 1;
      }
    }

    // ---- per-TU removal ----------------------------------------------------------------------

    /** Between the passes of removeTUs: the adjacency lists still hold the slots in `dead`,
        whose ends are noted for the scrub. */
    ghost predicate Releasing(dead: set<nat>, callers: set<Id>, callees: set<Id>)
      reads this
    {
      && InternerOk(strings, ids) && CoreOk(Tab(), regs)
      && BothOk(Overrides(), Returns(), strings, overrideLog, returnLog)
      && liveEdgeCount == |edgeIndex|
      && AdjOk(Tab(), CallerEnd, dead) && AdjOk(Tab(), CalleeEnd, dead)
      && Noted(Tab(), dead, callers, callees)
    }

    /** removeTUs: exactly the registrations of the given translation units go; an edge goes
        with its last registration. Relations stay. */
    method RemoveTUs(tuPaths: seq<string>) returns (removed: nat)
      requires Valid()
      modifies this
      ensures Valid()
      ensures regs == Without(old(regs), (set u | u in tuPaths))
      ensures removed == old(liveEdgeCount) - liveEdgeCount
      ensures strings == old(strings) && overrideLog == old(overrideLog) && returnLog == old(returnLog)
    {
      hide TablesOk, CoreOk, AdjOk, RelationOk, InternerOk;
      ghost var regs0 := regs;
      var tuIds := FindAll(tuPaths);
      EdgesAtRest();
      removed := 0;
      var dead: set<nat>, callers: set<Id>, callees: set<Id> := {}, {}, {};
      ghost var gone: set<string> := {};
      WithoutNothing(regs, {});
      for i := 0 to |tuIds|
        invariant Releasing(dead, callers, callees)
        invariant strings == old(strings) && ids == old(ids) && overrideLog == old(overrideLog)
        invariant returnLog == old(returnLog)
        invariant gone == NamesAt(strings, tuIds[..i])
        invariant regs == Without(regs0, gone)
        invariant removed == old(liveEdgeCount) - liveEdgeCount
      {
        if tuIds[i] in tuEdges {
          var n;
          dead, callers, callees, n := ReleaseTu(tuIds[i], dead, callers, callees);
          removed := removed + n;
        } else {
          NothingHere(tuIds[i]);
        }
        WithoutTwice(regs0, gone, {strings[tuIds[i]]});
        assert tuIds[..i + 1][..i] == tuIds[..i];
        gone := gone + {strings[tuIds[i]]};
      }
      assert tuIds[..|tuIds|] == tuIds;
      ScrubBoth(dead, callers, callees);
      FoundAll(old(Tab()), old(regs), tuPaths, tuIds, gone);
    }

    /** The ids of those paths that were ever interned. */
    method FindAll(tuPaths: seq<string>) returns (tuIds: seq<Id>)
      requires Valid()
      ensures forall k :: 0 <= k < |tuIds| ==> tuIds[k] < |strings| && strings[tuIds[k]] in tuPaths
      ensures forall u :: u in tuPaths && u in strings ==>
        exists k :: 0 <= k < |tuIds| && tuIds[k] < |strings| && strings[tuIds[k]] == u
    {
      hide TablesOk, RelationOk;
      tuIds := [];
      for i := 0 to |tuPaths|
        invariant forall k :: 0 <= k < |tuIds| ==> tuIds[k] < |strings| && strings[tuIds[k]] in tuPaths
        invariant forall j :: 0 <= j < i && tuPaths[j] in ids ==> ids[tuPaths[j]] in tuIds
      {
        if tuPaths[i] in ids {
          tuIds := tuIds + [ids[tuPaths[i]]];
        }
      }
      forall u | u in tuPaths && u in strings
        ensures exists k :: 0 <= k < |tuIds| && tuIds[k] < |strings| && strings[tuIds[k]] == u
      {
        var j :| 0 <= j < |tuPaths| && tuPaths[j] == u;
        var k :| 0 <= k < |tuIds| && tuIds[k] == ids[u];
      }
    }

    lemma EdgesAtRest()
      requires Valid()
      ensures Releasing({}, {}, {})
    {
    }

    lemma NothingHere(u: Id)
      requires CoreOk(Tab(), regs) && u < |strings| && u !in tuEdges
      ensures Without(regs, {strings[u]}) == regs
    {
      NothingToRelease(Tab(), regs, strings[u]);
    }

    /** Releases every registration of one translation unit; slots left without any become
        tombstones. */
    method ReleaseTu(u: Id, dead0: set<nat>, callers0: set<Id>, callees0: set<Id>)
      returns (dead: set<nat>, callers: set<Id>, callees: set<Id>, removed: nat)
      requires Releasing(dead0, callers0, callees0) && u in tuEdges && u < |strings|
      modifies this`edges, this`edgeIndex, this`tuEdges, this`liveEdgeCount, this`regs
      ensures Releasing(dead, callers, callees)
      ensures regs == Without(old(regs), {strings[u]})
      ensures removed == old(liveEdgeCount) - liveEdgeCount
    {
      hide CoreOk, AdjOk, RelationOk, InternerOk, Released, Died, Noted, Without, BothOk, Live, Slots;
      ghost var t0 := Tab();
      dead, callers, callees, removed := ReleaseSlots(u, dead0, callers0, callees0);
      ghost var t1 := Tab();
      TuReleased(t0, t1, u, regs, dead0, dead, callers, callees);
      DropList(u);
      assert Tab() == t1.(tus := t1.tus - {u});
    }

    /** The unit's list and its registrations go. */
    method DropList(u: Id)
      requires u < |strings|
      modifies this`tuEdges, this`regs
      ensures tuEdges == old(tuEdges) - {u} && regs == Without(old(regs), {strings[u]})
    {
      tuEdges := tuEdges - {u};
      regs := Without(regs, {strings[u]});
    }

    method ReleaseSlots(u: Id, dead0: set<nat>, callers0: set<Id>, callees0: set<Id>)
      returns (dead: set<nat>, callers: set<Id>, callees: set<Id>, removed: nat)
      requires Releasing(dead0, callers0, callees0) && u in tuEdges
      modifies this`edges, this`edgeIndex, this`liveEdgeCount
      ensures Released(old(Tab()), Tab(), multiset(tuEdges[u]))
      ensures Died(old(Tab()), Tab(), dead0, dead) && Noted(Tab(), dead, callers, callees)
      ensures liveEdgeCount == |edgeIndex| && removed == old(liveEdgeCount) - liveEdgeCount
    {
      hide CoreOk, AdjOk, RelationOk, InternerOk, StringsOk, IndexOk, RefsOk, TusOk, Released, Died, Noted;
      ghost var t0, list := Tab(), tuEdges[u];
      CoreFacts(t0, regs);
      NothingDied(t0, dead0);
      dead, callers, callees, removed := dead0, callers0, callees0, 0;
      for j := 0 to |tuEdges[u]|
        invariant Released(t0, Tab(), multiset(list[..j]))
        invariant Died(t0, Tab(), dead0, dead) && Noted(Tab(), dead, callers, callees)
        invariant liveEdgeCount == |edgeIndex| && removed == old(liveEdgeCount) - liveEdgeCount
      {
        EntryIsLive(t0, Tab(), regs, u, j);
        assert list[..j + 1] == list[..j] + [list[j]];
        var died := ReleaseOne(tuEdges[u][j], t0, multiset(list[..j]), dead0, dead, callers, callees);
        if died {
          dead := dead + {tuEdges[u][j]};
          callers := callers + {edges[tuEdges[u][j]].key.caller};
          callees := callees + {edges[tuEdges[u][j]].key.callee};
          removed := removed + 1;
        }
      }
      assert list[..|list|] == list;
    }

    /** Releases one registration of a slot; true when it was the last. */
    method ReleaseOne(idx: nat, ghost t0: Tables, ghost m: multiset<nat>, ghost dead0: set<nat>,
                      ghost dead: set<nat>, ghost callers: set<Id>, ghost callees: set<Id>)
      returns (died: bool)
      requires IndexOk(t0) && Released(t0, Tab(), m) && Live(Tab(), idx)
      requires Died(t0, Tab(), dead0, dead) && Noted(Tab(), dead, callers, callees)
      requires liveEdgeCount == |edgeIndex|
      modifies this`edges, this`edgeIndex, this`liveEdgeCount
      ensures Released(t0, Tab(), m + multiset{idx}) && idx < |edges|
      ensures died ==> Died(t0, Tab(), dead0, dead + {idx})
      ensures died ==> Noted(Tab(), dead + {idx}, callers + {edges[idx].key.caller}, callees + {edges[idx].key.callee})
      ensures !died ==> Died(t0, Tab(), dead0, dead) && Noted(Tab(), dead, callers, callees)
      ensures liveEdgeCount == |edgeIndex| == old(liveEdgeCount) - (if died then 1 else 0)
    {
      hide IndexOk, Released, Died, Noted;
      ghost var t := Tab();
      ReleasedStep(t0, t, m, idx);
      KeyIndexed(t0, t, m, idx);
      DiedStep(t0, t, m, idx, dead0, dead, callers, callees);
      edges := edges[idx := edges[idx].(refs := edges[idx].refs - 1)];
      if edges[idx].refs > 0 {
        died := false;
      } else {
        edgeIndex := edgeIndex - {edges[idx].key};
        liveEdgeCount := liveEdgeCount - 1;
        died := true;
      }
      assert Tab() == Released1(t, idx);
    }

    /** The second pass: each affected adjacency list is scrubbed once. */
    method ScrubBoth(dead: set<nat>, callers: set<Id>, callees: set<Id>)
      requires Releasing(dead, callers, callees)
      modifies this`outEdges, this`inEdges
      ensures Valid()
    {
      hide CoreOk, AdjOk, RelationOk, InternerOk, KeepsKeys;
      ghost var t := Tab();
      outEdges := Scrub(outEdges, callers, dead);
      inEdges := Scrub(inEdges, callees, dead);
      SameCore(t, Tab(), regs);
      ScrubbedOk(t, Tab(), CallerEnd, callers, dead);
      ScrubbedOk(t, Tab(), CalleeEnd, callees, dead);
    }

    // ---- compact -------------------------------------------------------------------------------

    /** compact: the live slots move up in order; keys, counts, provenance and relations stay. */
    method Compact()
      requires Valid()
      modifies this
      ensures Valid()
      ensures edges == LiveEdges(old(edges)) && Tab().(tus := map[]) == Laid(strings, edges)
      ensures regs == old(regs) && overrideLog == old(overrideLog) && returnLog == old(returnLog)
      ensures strings == old(strings)
    {
      hide TablesOk, CoreOk, Merged, TusMerged, RelationOk, InternerOk, IdsMatch, Distinct, StringsOk, TusOk,
           LiveEdges, Identity, SlotsMatch, Laid;
      ghost var s, ident := Tab(), Identity(|strings|);
      ShardCore(s, regs);
      var newEdges, newIndex, newOut, newIn, remap := CopyLive();
      ghost var t := EmptyTables(strings).(edges := newEdges, index := newIndex, out := newOut, inn := newIn);
      MergedTus(s, t, regs, [], ident, remap);
      TusMergedStart(s, t, [], ident, remap);
      var newTus := CopyProvenance(remap, t);
      ghost var t' := t.(tus := newTus);
      MergeOk(s, regs, t, t', [], ident, remap);
      assert [] + regs == regs;
      SameKeys(s, t', regs);
      SetTables(newEdges, newIndex, newOut, newIn, newTus);
    }

    method SetTables(newEdges: seq<StoredEdge>, newIndex: map<EdgeRef, nat>, newOut: map<Id, seq<nat>>,
                     newIn: map<Id, seq<nat>>, newTus: map<Id, seq<nat>>)
      modifies this`edges, this`edgeIndex, this`outEdges, this`inEdges, this`tuEdges
      ensures Tab() == Tables(strings, newEdges, newIndex, newOut, newIn, newTus)
    {
      edges, edgeIndex, outEdges, inEdges, tuEdges := newEdges, newIndex, newOut, newIn, newTus;
    }

    /** Copies the live slots into fresh containers. */
    method CopyLive()
      returns (newEdges: seq<StoredEdge>, newIndex: map<EdgeRef, nat>, newOut: map<Id, seq<nat>>,
               newIn: map<Id, seq<nat>>, remap: map<nat, nat>)
      requires Valid()
      ensures newEdges == LiveEdges(edges)
      ensures Tables(strings, newEdges, newIndex, newOut, newIn, map[]) == Laid(strings, newEdges)
      ensures Merged(Tab(), regs, Tables(strings, newEdges, newIndex, newOut, newIn, map[]), [], Identity(|strings|),
        remap, |edges|)
    {
      hide TablesOk, CoreOk, Merged, RelationOk, InternerOk, IdsMatch, Distinct, StringsOk, Bumped, Laid;
      ghost var s, ident := Tab(), Identity(|strings|);
      LaidNone(strings);
      newEdges, newIndex, newOut, newIn, remap := [], map[], map[], map[], map[];
      ShardCore(s, regs);
      CopyStart(s, regs);
      for old_ := 0 to |edges|
        invariant newEdges == LiveEdges(edges[..old_])
        invariant Tables(strings, newEdges, newIndex, newOut, newIn, map[]) == Laid(strings, newEdges)
        invariant Merged(s, regs, Tables(strings, newEdges, newIndex, newOut, newIn, map[]), [], ident, remap, old_)
      {
        ghost var t := Tables(strings, newEdges, newIndex, newOut, newIn, map[]);
        assert edges[..old_ + 1][..old_] == edges[..old_];
        var edge := edges[old_];
        if edge.refs == 0 {
          MergeSkip(s, regs, t, [], ident, remap, old_);
          continue;
        }
        CopyOne(s, regs, t, remap, old_);
        ghost var t' := WithEdge(t, edge);
        LaidOne(strings, newEdges, edge);
        var neu := |newEdges|;
        remap := remap[old_ := neu];
        newOut := newOut[edge.key.caller := Slots(newOut, edge.key.caller) + [neu]];
        newIn := newIn[edge.key.callee := Slots(newIn, edge.key.callee) + [neu]];
        newIndex := newIndex[edge.key := neu];
        newEdges := newEdges + [edge];
        assert t' == Tables(strings, newEdges, newIndex, newOut, newIn, map[]);
      }
      assert edges[..|edges|] == edges;
    }

    /** The provenance lists through the slot map; a list left empty is dropped. */
    method CopyProvenance(remap: map<nat, nat>, ghost t: Tables) returns (newTus: map<Id, seq<nat>>)
      requires t.tus == map[] && Distinct(Identity(|strings|))
      requires forall u :: u in tuEdges ==> u < |strings| && u < |t.strings| && t.strings[u] != ""
      requires TusMerged(Tab(), t, t, Identity(|strings|), remap, {})
      ensures TusMerged(Tab(), t, t.(tus := newTus), Identity(|strings|), remap, tuEdges.Keys)
    {
      hide Distinct;
      ghost var s, ident, done: set<Id> := Tab(), Identity(|strings|), {};
      newTus := map[];
      var tus := tuEdges.Keys;
      while tus != {}
        invariant tus !! done && tus + done == tuEdges.Keys
        invariant TusMerged(s, t, t.(tus := newTus), ident, remap, done)
      {
        var u :| u in tus;
        var vec := MapList(remap, tuEdges[u]);
        CopyStep(s, t, newTus, remap, done, u, vec);
        if vec != [] {
          newTus := newTus[u := vec];
        }
        tus, done := tus - {u}, done + {u};
      }
      assert done == tuEdges.Keys;
    }

    /** absorb: every registration and every relation pair of the shard, under this graph's
        own ids. */
    method Absorb(shard: CallGraph)
      requires Valid() && shard.Valid()
      modifies this
      ensures Valid()
      ensures shard == this ==> regs == old(regs) && overrideLog == old(overrideLog) && returnLog == old(returnLog)
      ensures shard != this ==>
        && regs == old(regs) + shard.regs
        && overrideLog == old(overrideLog) + shard.overrideLog
        && returnLog == old(returnLog) + shard.returnLog
    {
      hide Valid, IdsMatch;
      if shard == this {
        return;
      }
      var remap := InternAll(shard.strings);
      NamesMatch(shard.Tab(), Tab(), remap);
      ghost var t := Tab();
      AbsorbEdges(shard, remap);
      StillMatch(shard.Tab(), t, Tab(), remap);
      AbsorbOverrides(shard, remap);
      AbsorbReturns(shard, remap);
    }

    /** Shard string id to own string id, by position. */
    method InternAll(table: seq<string>) returns (remap: seq<Id>)
      requires Valid()
      modifies this`strings, this`ids
      ensures Valid() && |remap| == |table|
      ensures forall i :: 0 <= i < |remap| ==> remap[i] < |strings| && strings[remap[i]] == table[i]
    {
      hide TablesOk, RelationOk, InternerOk;
      remap := [];
      for i := 0 to |table|
        invariant Valid() && |remap| == i
        invariant forall j :: 0 <= j < i ==> remap[j] < |strings| && strings[remap[j]] == table[j]
      {
        var id := Intern(table[i]);
        remap := remap + [id];
      }
    }

    method AbsorbEdges(shard: CallGraph, remap: seq<Id>)
      requires Valid() && shard.Valid() && shard != this
      requires IdsMatch(shard.Tab(), Tab(), remap)
      modifies this`edges, this`edgeIndex, this`outEdges, this`inEdges, this`tuEdges, this`liveEdgeCount, this`regs
      ensures Valid()
      ensures regs == old(regs) + shard.regs
    {
      hide TablesOk, CoreOk, RelationOk, InternerOk, Merged, TusMerged, StringsOk, TusOk, Distinct, IdsMatch;
      ghost var s := shard.Tab();
      ShardCore(s, shard.regs);
      var edgeRemap := MergeSlots(shard, remap);
      ghost var t := Tab();
      MergedTus(s, t, shard.regs, regs, remap, edgeRemap);
      TusMergedStart(s, t, regs, remap, edgeRemap);
      MergeProvenance(shard, remap, edgeRemap, t);
      MergeOk(s, shard.regs, t, Tab(), regs, remap, edgeRemap);
      regs := regs + shard.regs;
    }

    /** Re-points the shard's provenance lists through the slot map. */
    method MergeProvenance(shard: CallGraph, remap: seq<Id>, edgeRemap: map<nat, nat>, ghost t: Tables)
      requires shard != this && Distinct(remap) && Tab() == t
      requires forall u :: u in shard.tuEdges ==> u < |remap| && remap[u] < |t.strings| && t.strings[remap[u]] != ""
      requires TusMerged(shard.Tab(), t, Tab(), remap, edgeRemap, {})
      modifies this`tuEdges
      ensures TusMerged(shard.Tab(), t, Tab(), remap, edgeRemap, shard.tuEdges.Keys)
    {
      hide TusMerged, Distinct;
      var tus := shard.tuEdges.Keys;
      ghost var s, done: set<Id> := shard.Tab(), {};
      while tus != {}
        invariant tus !! done && tus + done == shard.tuEdges.Keys
        invariant TusMerged(s, t, Tab(), remap, edgeRemap, done)
        invariant Tab() == t.(tus := tuEdges)
      {
        var u :| u in tus;
        ghost var before := Tab();
        var mapped := MapList(edgeRemap, shard.tuEdges[u]);
        tuEdges := tuEdges[remap[u] := Slots(tuEdges, remap[u]) + mapped];
        TusMergedStep(s, t, before, remap, edgeRemap, done, u, Tab());
        tus, done := tus - {u}, done + {u};
      }
      assert done == shard.tuEdges.Keys;
    }

    /** One dedup probe per live shard edge: a hit adds the shard's count, a miss appends. */
    method MergeSlots(shard: CallGraph, remap: seq<Id>) returns (edgeRemap: map<nat, nat>)
      requires Valid() && shard.Valid() && shard != this
      requires IdsMatch(shard.Tab(), Tab(), remap)
      modifies this`edges, this`edgeIndex, this`outEdges, this`inEdges, this`liveEdgeCount
      ensures Merged(shard.Tab(), shard.regs, Tab(), regs, remap, edgeRemap, |shard.edges|)
      ensures liveEdgeCount == |edgeIndex|
    {
      hide TablesOk, RelationOk, InternerOk, Merged, IdsMatch, IndexOk, RefsOk, TusOk;
      ghost var s := shard.Tab();
      ShardCore(s, shard.regs);
      MergeStart(s, shard.regs, Tab(), regs, remap);
      edgeRemap := map[];
      for i := 0 to |shard.edges|
        invariant Merged(s, shard.regs, Tab(), regs, remap, edgeRemap, i)
        invariant liveEdgeCount == |edgeIndex|
      {
        var src := shard.edges[i];
        if src.refs == 0 {
          MergeSkip(s, shard.regs, Tab(), regs, remap, edgeRemap, i);
          continue;
        }
        MergeOne(s, shard.regs, Tab(), regs, remap, edgeRemap, i);
        MergedRange(s, shard.regs, Tab(), regs, remap, edgeRemap, i);
        var key := RemapKey(remap, src.key);
        var idx := Probe(key, src.refs);
        edgeRemap := edgeRemap[i := idx];
      }
    }

    method Probe(key: EdgeRef, refs: nat) returns (idx: nat)
      requires refs > 0 && liveEdgeCount == |edgeIndex| && (key in edgeIndex ==> edgeIndex[key] < |edges|)
      modifies this`edges, this`edgeIndex, this`outEdges, this`inEdges, this`liveEdgeCount
      ensures Tab() == Bumped(old(Tab()), key, refs) && liveEdgeCount == |edgeIndex|
      ensures key in edgeIndex && idx == edgeIndex[key]
    {
      if key in edgeIndex {
        idx := edgeIndex[key];
        edges := edges[idx := edges[idx].(refs := edges[idx].refs + refs)];
      } else {
        idx := |edges|;
        outEdges := outEdges[key.caller := Slots(outEdges, key.caller) + [idx]];
        inEdges := inEdges[key.callee := Slots(inEdges, key.callee) + [idx]];
        edges := edges + [StoredEdge(key, refs)];
        edgeIndex := edgeIndex[key := idx];
        liveEdgeCount := liveEdgeCount + 1;
      }
    }

    method AddMethodOverride(baseMethod: string, overrideMethod: string)
      requires Valid()
      modifies this
      ensures Valid()
      ensures regs == old(regs) && returnLog == old(returnLog)
      ensures overrideLog == old(overrideLog) + {(baseMethod, overrideMethod)}
      ensures strings == KnownPair(old(strings), baseMethod, overrideMethod) && Tab() == old(Tab()).(strings := strings)
      ensures baseMethod in ids && overrideMethod in ids && Returns() == old(Returns())
      ensures Overrides() == AddToBoth(old(Overrides()), ids[baseMethod], ids[overrideMethod])
    {
      hide TablesOk, RelationOk, InternerOk;
      var baseId := Intern(baseMethod);
      var overrideId := Intern(overrideMethod);
      LinkOverride(baseId, overrideId);
    }

    method LinkOverride(baseId: Id, overrideId: Id)
      requires Valid() && baseId < |strings| && overrideId < |strings|
      modifies this`methodOverrides, this`overrideBases, this`overrideLog
      ensures Valid()
      ensures overrideLog == old(overrideLog) + {(strings[baseId], strings[overrideId])}
      ensures Overrides() == AddToBoth(old(Overrides()), baseId, overrideId)
    {
      hide TablesOk, RelationOk, InternerOk;
      OneMoreOk(Overrides(), AddToBoth(Overrides(), baseId, overrideId), strings, overrideLog, baseId, overrideId);
      methodOverrides := methodOverrides[baseId := Append(Image(methodOverrides, baseId), overrideId)];
      overrideBases := overrideBases[overrideId := Append(Image(overrideBases, overrideId), baseId)];
      overrideLog := overrideLog + {(strings[baseId], strings[overrideId])};
    }

    /** The pairs one base brings. */
    method AbsorbOverridesOf(shard: CallGraph, remap: seq<Id>, base: Id)
      requires Valid() && shard != this && IdsMatch(shard.Tab(), Tab(), remap)
      requires base in shard.methodOverrides.Keys
      requires forall b: Id :: Related(shard.methodOverrides, base, b) ==> base < |remap| && b < |remap|
      modifies this`methodOverrides, this`overrideBases, this`overrideLog
      ensures Valid()
      ensures overrideLog == old(overrideLog) + PairsOf(shard.strings, base, Image(shard.methodOverrides, base))
    {
      hide TablesOk, RelationOk, InternerOk, AddToBoth, PairsOf;
      ghost var log0, list := overrideLog, shard.methodOverrides[base];
      NoPairs(shard.strings, base);
      for i := 0 to |shard.methodOverrides[base]|
        invariant Valid() && overrideLog == log0 + PairsOf(shard.strings, base, list[..i])
      {
        assert list[..i + 1] == list[..i] + [list[i]];
        assert Related(shard.methodOverrides, base, list[i]);
        PairsOfOne(shard.strings, base, list[..i], list[i]);
        LinkOverride(remap[base], remap[shard.methodOverrides[base][i]]);
      }
      assert list[..|list|] == Image(shard.methodOverrides, base);
    }

    method AbsorbOverrides(shard: CallGraph, remap: seq<Id>)
      requires Valid() && shard.Valid() && shard != this
      requires IdsMatch(shard.Tab(), Tab(), remap)
      modifies this`methodOverrides, this`overrideBases, this`overrideLog
      ensures Valid()
      ensures overrideLog == old(overrideLog) + shard.overrideLog
    {
      hide TablesOk, RelationOk, InternerOk;
      var bases := shard.methodOverrides.Keys;
      ghost var done: set<Id> := {};
      ghost var log0, rel := overrideLog, shard.methodOverrides;
      RangeOfRelation(shard.Overrides(), shard.strings, shard.overrideLog);
      while bases != {}
        invariant Valid() && bases !! done && bases + done == shard.methodOverrides.Keys
        invariant overrideLog == log0 + NamePairs(rel, shard.strings, done)
      {
        var base :| base in bases;
        AbsorbOverridesOf(shard, remap, base);
        NamePairsOne(rel, shard.strings, done, base);
        bases, done := bases - {base}, done + {base};
      }
      AllNamePairs(shard.Overrides(), shard.strings, shard.overrideLog, done);
    }

    /** The pairs one function brings. */
    method AbsorbReturnsOf(shard: CallGraph, remap: seq<Id>, fn: Id)
      requires Valid() && shard != this && IdsMatch(shard.Tab(), Tab(), remap)
      requires fn in shard.functionReturns.Keys
      requires forall b: Id :: Related(shard.functionReturns, fn, b) ==> fn < |remap| && b < |remap|
      modifies this`functionReturns, this`returnedBy, this`returnLog
      ensures Valid()
      ensures returnLog == old(returnLog) + PairsOf(shard.strings, fn, Image(shard.functionReturns, fn))
    {
      hide TablesOk, RelationOk, InternerOk, AddToBoth, PairsOf;
      ghost var log0, list := returnLog, shard.functionReturns[fn];
      NoPairs(shard.strings, fn);
      for i := 0 to |shard.functionReturns[fn]|
        invariant Valid() && returnLog == log0 + PairsOf(shard.strings, fn, list[..i])
      {
        assert list[..i + 1] == list[..i] + [list[i]];
        assert Related(shard.functionReturns, fn, list[i]);
        PairsOfOne(shard.strings, fn, list[..i], list[i]);
        LinkReturn(remap[fn], remap[shard.functionReturns[fn][i]]);
      }
      assert list[..|list|] == Image(shard.functionReturns, fn);
    }

    method AbsorbReturns(shard: CallGraph, remap: seq<Id>)
      requires Valid() && shard.Valid() && shard != this
      requires IdsMatch(shard.Tab(), Tab(), remap)
      modifies this`functionReturns, this`returnedBy, this`returnLog
      ensures Valid()
      ensures returnLog == old(returnLog) + shard.returnLog
    {
      hide TablesOk, RelationOk, InternerOk;
      var funcs := shard.functionReturns.Keys;
      ghost var done: set<Id> := {};
      ghost var log0, rel := returnLog, shard.functionReturns;
      RangeOfRelation(shard.Returns(), shard.strings, shard.returnLog);
      while funcs != {}
        invariant Valid() && funcs !! done && funcs + done == shard.functionReturns.Keys
        invariant returnLog == log0 + NamePairs(rel, shard.strings, done)
      {
        var fn :| fn in funcs;
        AbsorbReturnsOf(shard, remap, fn);
        NamePairsOne(rel, shard.strings, done, fn);
        funcs, done := funcs - {fn}, done + {fn};
      }
      AllNamePairs(shard.Returns(), shard.strings, shard.returnLog, done);
    }

    method AddFunctionReturn(funcName: string, returnedFunc: string)
      requires Valid()
      modifies this
      ensures Valid()
      ensures regs == old(regs) && overrideLog == old(overrideLog)
      ensures returnLog == old(returnLog) + {(funcName, returnedFunc)}
      ensures strings == KnownPair(old(strings), funcName, returnedFunc) && Tab() == old(Tab()).(strings := strings)
      ensures funcName in ids && returnedFunc in ids && Overrides() == old(Overrides())
      ensures Returns() == AddOrdered(old(Returns()), ids[funcName], ids[returnedFunc])
    {
      hide TablesOk, RelationOk, InternerOk;
      var funcId := Intern(funcName);
      var retId := Intern(returnedFunc);
      LinkReturn(funcId, retId);
    }

    method LinkReturn(funcId: Id, retId: Id)
      requires Valid() && funcId < |strings| && retId < |strings|
      modifies this`functionReturns, this`returnedBy, this`returnLog
      ensures Valid()
      ensures returnLog == old(returnLog) + {(strings[funcId], strings[retId])}
      ensures Returns() == AddOrdered(old(Returns()), funcId, retId)
    {
      hide TablesOk, RelationOk, InternerOk;
      IsTransposed(Returns(), strings, returnLog);
      OneMoreOk(Returns(), AddOrdered(Returns(), funcId, retId), strings, returnLog, funcId, retId);
      if retId !in Image(functionReturns, funcId) {
        functionReturns := functionReturns[funcId := Insert(Image(functionReturns, funcId), retId)];
        returnedBy := returnedBy[retId := Image(returnedBy, retId) + [funcId]];
      }
      returnLog := returnLog + {(strings[funcId], strings[retId])};
    }
  }

  lemma CopyStart(s: Tables, regs: seq<Registration>)
    requires CoreOk(s, regs)
    ensures Merged(s, regs, EmptyTables(s.strings), [], Identity(|s.strings|), map[], 0)
  {
    EmptyTablesOk(s.strings);
    MergeStart(s, regs, EmptyTables(s.strings), [], Identity(|s.strings|));
  }

  /** A live edge appended to tables that do not have its key. */
  function WithEdge(t: Tables, edge: StoredEdge): Tables {
    t.(edges := t.edges + [edge], index := t.index[edge.key := |t.edges|],
       out := t.out[edge.key.caller := Slots(t.out, edge.key.caller) + [|t.edges|]],
       inn := t.inn[edge.key.callee := Slots(t.inn, edge.key.callee) + [|t.edges|]])
  }

  /** Edges laid out afresh, each in the next slot. */
  function Laid(strings: seq<string>, edges: seq<StoredEdge>): Tables {
    if edges == [] then EmptyTables(strings)
    else WithEdge(Laid(strings, edges[..|edges| - 1]), edges[|edges| - 1])
  }

  lemma NamesMatch(s: Tables, t: Tables, ids: seq<Id>)
    requires |ids| == |s.strings|
    requires forall i :: 0 <= i < |ids| ==> ids[i] < |t.strings| && t.strings[ids[i]] == s.strings[i]
    ensures IdsMatch(s, t, ids)
  {
  }

  lemma StillMatch(s: Tables, t: Tables, t': Tables, ids: seq<Id>)
    requires IdsMatch(s, t, ids) && t'.strings == t.strings
    ensures IdsMatch(s, t', ids)
  {
  }

  lemma LaidNone(strings: seq<string>)
    ensures Laid(strings, []) == EmptyTables(strings)
  {
  }

  lemma LaidOne(strings: seq<string>, edges: seq<StoredEdge>, e: StoredEdge)
    ensures Laid(strings, edges + [e]) == WithEdge(Laid(strings, edges), e)
  {
    assert (edges + [e])[..|edges|] == edges;
  }

  lemma CopyOne(s: Tables, regs: seq<Registration>, t: Tables, remap: map<nat, nat>, n: nat)
    requires n < |s.edges| && t.strings == s.strings
    requires CoreOk(s, regs) && Merged(s, regs, t, [], Identity(|s.strings|), remap, n) && Live(s, n)
    ensures Merged(s, regs, WithEdge(t, s.edges[n]), [], Identity(|s.strings|), remap[n := |t.edges|], n + 1)
  {
    hide RefsOk, TusOk, AdjOk, SlotsMatch, IndexOk;
    FreshKey(s, regs, t, remap, n);
    MergeOne(s, regs, t, [], Identity(|s.strings|), remap, n);
    assert Bumped(t, s.edges[n].key, s.edges[n].refs) == WithEdge(t, s.edges[n]);
  }

  /** A copied slot list is never one the copy already has, so it is the whole list. */
  lemma CopyStep(s: Tables, t: Tables, newTus: map<Id, seq<nat>>, remap: map<nat, nat>, done: set<Id>, u: Id,
                 vec: seq<nat>)
    requires TusMerged(s, t, t.(tus := newTus), Identity(|s.strings|), remap, done) && t.tus == map[]
    requires u !in done && u < |s.strings| && u < |t.strings| && t.strings[u] != "" && Distinct(Identity(|s.strings|))
    requires vec == MapSlots(remap, Slots(s.tus, u))
    ensures TusMerged(s, t, t.(tus := if vec == [] then newTus else newTus[u := vec]), Identity(|s.strings|), remap,
      done + {u})
  {
    hide Distinct, Gain, MapSlots;
    var ident := Identity(|s.strings|);
    var newTus' := if vec == [] then newTus else newTus[u := vec];
    forall v ensures Slots(newTus', v) == Slots(t.tus, v) + Gain(s, ident, remap, done + {u}, v) {
      GainStep(s, ident, remap, done, u, v);
      assert Slots(t.(tus := newTus).tus, v) == Slots(t.tus, v) + Gain(s, ident, remap, done, v);
    }
  }

  /** Tables with one log over one interner index the same keys. */
  lemma SameKeys(a: Tables, b: Tables, regs: seq<Registration>)
    requires TablesOk(a, regs) && TablesOk(b, regs) && a.strings == b.strings
    ensures a.index.Keys == b.index.Keys && |a.index| == |b.index|
  {
    hide TablesOk;
    forall k ensures k in a.index <==> k in b.index {
      SameKey(a, b, regs, k);
      SameKey(b, a, regs, k);
    }
    assert |a.index| == |a.index.Keys| && |b.index| == |b.index.Keys|;
  }

  lemma SameKey(a: Tables, b: Tables, regs: seq<Registration>, k: EdgeRef)
    requires TablesOk(a, regs) && TablesOk(b, regs) && a.strings == b.strings
    ensures k in a.index ==> k in b.index
  {
    if k in a.index && k !in b.index {
      KeyRegistered(a, regs, k);
      NoSlotNoCount(b, k, regs);
    }
  }

  lemma KeyRegistered(t: Tables, regs: seq<Registration>, k: EdgeRef)
    requires TablesOk(t, regs) && k in t.index
    ensures KeyIn(k, |t.strings|) && Count(regs, Name(t.strings, k)) > 0
  {
    assert Live(t, t.index[k]) && t.edges[t.index[k]].key == k;
  }

  lemma CoreFacts(t: Tables, regs: seq<Registration>)
    requires CoreOk(t, regs)
    ensures StringsOk(t) && IndexOk(t) && RefsOk(t, regs) && TusOk(t, regs)
    ensures Released(t, t, multiset{})
  {
  }

  /** The ends of the dead slots are noted for the scrub. */
  ghost predicate Noted(t: Tables, dead: set<nat>, callers: set<Id>, callees: set<Id>) {
    forall i :: i in dead ==>
      i < |t.edges| && !Live(t, i) && t.edges[i].key.caller in callers && t.edges[i].key.callee in callees
  }

  /** Once all its slots are released a translation unit's list goes too. */
  lemma TuReleased(t0: Tables, t1: Tables, u: Id, regs: seq<Registration>, dead0: set<nat>, dead: set<nat>,
                   callers: set<Id>, callees: set<Id>)
    requires CoreOk(t0, regs) && u in t0.tus && AdjOk(t0, CallerEnd, dead0) && AdjOk(t0, CalleeEnd, dead0)
    requires Released(t0, t1, multiset(t0.tus[u])) && Died(t0, t1, dead0, dead) && Noted(t1, dead, callers, callees)
    requires t1.tus == t0.tus
    ensures u < |t0.strings|
    ensures var t2 := t1.(tus := t1.tus - {u});
      && CoreOk(t2, Without(regs, {t0.strings[u]}))
      && AdjOk(t2, CallerEnd, dead) && AdjOk(t2, CalleeEnd, dead) && Noted(t2, dead, callers, callees)
  {
    hide CoreOk, AdjOk, Released, Died, Noted, Without, BothOk;
    var t2 := t1.(tus := t1.tus - {u});
    ListDropped(t0, t1, u, dead0, dead, callers, callees);
    ReleasedUnit(t0, regs, u);
    ReleasedOk(t0, t2, u, regs);
    DiedAdjacency(t0, t2, CallerEnd, dead0, dead);
    DiedAdjacency(t0, t2, CalleeEnd, dead0, dead);
  }

  lemma ReleasedUnit(t: Tables, regs: seq<Registration>, u: Id)
    requires CoreOk(t, regs) && u in t.tus
    ensures u < |t.strings|
  {
  }

  lemma ListDropped(t0: Tables, t1: Tables, u: Id, dead0: set<nat>, dead: set<nat>, callers: set<Id>, callees: set<Id>)
    requires u in t0.tus && Released(t0, t1, multiset(t0.tus[u])) && Died(t0, t1, dead0, dead)
    requires Noted(t1, dead, callers, callees)
    ensures var t2 := t1.(tus := t1.tus - {u});
      Released(t0, t2, multiset(t0.tus[u])) && Died(t0, t2, dead0, dead) && Noted(t2, dead, callers, callees)
  {
    var t2 := t1.(tus := t1.tus - {u});
    assert forall i :: Live(t2, i) <==> Live(t1, i);
  }

  lemma NothingDied(t: Tables, dead: set<nat>)
    ensures Died(t, t, dead, dead)
  {
  }

  lemma DiedStep(t0: Tables, t: Tables, m: multiset<nat>, i: nat, dead0: set<nat>, dead: set<nat>, callers: set<Id>,
                 callees: set<Id>)
    requires IndexOk(t0) && Released(t0, t, m) && Live(t, i)
    requires Died(t0, t, dead0, dead) && Noted(t, dead, callers, callees)
    ensures var t' := Released1(t, i); var k := t.edges[i].key;
      if Live(t', i) then Died(t0, t', dead0, dead) && Noted(t', dead, callers, callees)
      else Died(t0, t', dead0, dead + {i}) && Noted(t', dead + {i}, callers + {k.caller}, callees + {k.callee})
  {
    hide IndexOk;
    var t' := Released1(t, i);
    assert Live(t0, i);
    assert forall j :: Live(t', j) <==> Live(t, j) && (j != i || t.edges[i].refs > 1);
  }

  lemma KeyIndexed(t0: Tables, t: Tables, m: multiset<nat>, i: nat)
    requires IndexOk(t0) && Released(t0, t, m) && Live(t, i)
    ensures t.edges[i].key in t.index
  {
    assert Live(t0, i);
  }

  ghost function NamesAt(strings: seq<string>, ids: seq<Id>): set<string> {
    if ids == [] then {}
    else NamesAt(strings, ids[..|ids| - 1]) + (if ids[|ids| - 1] < |strings| then {strings[ids[|ids| - 1]]} else {})
  }

  lemma {:induction false} NamesAtHas(strings: seq<string>, ids: seq<Id>, u: string)
    ensures u in NamesAt(strings, ids) <==> exists k :: 0 <= k < |ids| && ids[k] < |strings| && strings[ids[k]] == u
  {
    if ids != [] {
      NamesAtHas(strings, ids[..|ids| - 1], u);
    }
  }

  /** Paths that were never interned have no registrations to lose. */
  lemma FoundAll(t: Tables, regs: seq<Registration>, tuPaths: seq<string>, tuIds: seq<Id>, gone: set<string>)
    requires TablesOk(t, regs)
    requires forall k :: 0 <= k < |tuIds| ==> tuIds[k] < |t.strings| && t.strings[tuIds[k]] in tuPaths
    requires forall u :: u in tuPaths && u in t.strings ==>
      exists k :: 0 <= k < |tuIds| && tuIds[k] < |t.strings| && t.strings[tuIds[k]] == u
    requires gone == NamesAt(t.strings, tuIds)
    ensures Without(regs, gone) == Without(regs, (set u | u in tuPaths))
  {
    forall r | r in regs && r.tu != "" ensures r.tu in gone <==> r.tu in (set u | u in tuPaths) {
      assert r.tu in t.strings;
      NamesAtHas(t.strings, tuIds, r.tu);
    }
    WithoutSame(regs, gone, (set u | u in tuPaths));
  }

  /** Scrubs the lists of the affected nodes. */
  ghost predicate KeepsKeys(adj: map<Id, seq<nat>>, adj': map<Id, seq<nat>>) {
    adj.Keys <= adj'.Keys
  }

  method Scrub(adj: map<Id, seq<nat>>, affected: set<Id>, dead: set<nat>) returns (adj': map<Id, seq<nat>>)
    ensures ScrubbedAt(adj, adj', affected, dead) && KeepsKeys(adj, adj')
  {
    adj' := adj;
    var todo := affected;
    ghost var done: set<Id> := {};
    while todo != {}
      invariant todo !! done && todo + done == affected
      invariant ScrubbedAt(adj, adj', done, dead) && KeepsKeys(adj, adj')
    {
      var n :| n in todo;
      var kept := RemoveDead(Slots(adj', n), dead);
      assert Slots(adj', n) == Slots(adj, n);
      adj' := adj'[n := kept];
      todo, done := todo - {n}, done + {n};
    }
    assert done == affected;
  }

  method RemoveDead(list: seq<nat>, dead: set<nat>) returns (kept: seq<nat>)
    ensures kept == Scrubbed(list, dead)
  {
    kept := [];
    for i := 0 to |list|
      invariant kept == Scrubbed(list[..i], dead)
    {
      assert list[..i + 1][..i] == list[..i];
      if list[i] !in dead {
        kept := kept + [list[i]];
      }
    }
    assert list[..|list|] == list;
  }

  lemma ShardCore(s: Tables, regs: seq<Registration>)
    requires TablesOk(s, regs)
    ensures CoreOk(s, regs)
    ensures forall u :: u in s.tus ==> u < |s.strings|
  {
  }

  lemma MergedRange(s: Tables, sregs: seq<Registration>, t: Tables, regs: seq<Registration>, ids: seq<Id>,
                    remap: map<nat, nat>, n: nat)
    requires Merged(s, sregs, t, regs, ids, remap, n) && Live(s, n)
    ensures KeyIn(s.edges[n].key, |ids|)
    ensures var key := RemapKey(ids, s.edges[n].key); key in t.index ==> t.index[key] < |t.edges|
  {
  }

  lemma MergedTus(s: Tables, t: Tables, sregs: seq<Registration>, regs: seq<Registration>, ids: seq<Id>,
                  remap: map<nat, nat>)
    requires CoreOk(s, sregs) && Merged(s, sregs, t, regs, ids, remap, |s.edges|)
    ensures Distinct(ids) && StringsOk(t) && TusOk(t, regs)
    ensures forall u :: u in s.tus ==> u < |ids| && ids[u] < |t.strings| && t.strings[ids[u]] != ""
  {
    IdsDistinct(s, t, ids);
  }

  /** A slot list through the slot map, entry by entry. */
  method MapList(remap: map<nat, nat>, list: seq<nat>) returns (mapped: seq<nat>)
    ensures mapped == MapSlots(remap, list)
  {
    mapped := [];
    for i := 0 to |list|
      invariant mapped == MapSlots(remap, list[..i])
    {
      assert list[..i + 1][..i] == list[..i];
      if list[i] in remap {
        mapped := mapped + [remap[list[i]]];
      }
    }
    assert list[..|list|] == list;
  }

  lemma IndexInRange(t: Tables, regs: seq<Registration>, key: EdgeRef)
    requires TablesOk(t, regs) && key in t.index
    ensures Live(t, t.index[key])
  {
  }

  lemma IsTransposed(r: Relation, strings: seq<string>, log: set<(string, string)>)
    requires RelationOk(r, strings, log)
    ensures Transposed(r)
  {
  }

  lemma InternedOk(t: Tables, s: string, regs: seq<Registration>)
    requires TablesOk(t, regs) && s !in t.strings
    ensures TablesOk(t.(strings := t.strings + [s]), regs)
  {
    var t' := t.(strings := t.strings + [s]);
    GrownOk(t, t', regs);
    SameAdjacency(t, t', CallerEnd, {});
    SameAdjacency(t, t', CalleeEnd, {});
  }
}

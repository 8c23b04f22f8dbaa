/** The warm refresh of every index at once: one removal of the dropped and dirty units, then
    the fresh bake absorbed, leaves what the units bake now (src/main.cpp:1193-1224). */
module WarmIndexes {
  import opened Registrations
  import opened CallGraphStore
  import opened Dependencies
  import opened Parses
  import opened WarmRefresh
  import N = NodeStore
  import T = Tellings
  import F = ControlFlow
  import W = Wire
  import E = EdgeTables
  import I = Interner

  // ---- contexts ------------------------------------------------------------------------------------

  /** The contexts are those of the units' bakes, in any order, and nothing else. */
  ghost predicate ContextsOf(cs: seq<F.Context>, bake: map<string, seq<F.Context>>) {
    forall c :: multiset(cs)[c] == if c.tuPath in bake then multiset(bake[c.tuPath])[c] else 0
  }

  lemma RemainingCount(cs: seq<F.Context>, gone: seq<string>, c: F.Context)
    ensures multiset(F.Remaining(cs, gone))[c] == if F.Leaves(c, gone) then 0 else multiset(cs)[c]
  {
    F.RemainingIs(cs, gone, c);
    F.GoesIff(c, gone);
  }

  /** The contexts of the current bake, when the units left alone still bake as they did. */
  lemma RefreshedContexts(cs: seq<F.Context>, added: seq<F.Context>, before: map<string, seq<F.Context>>,
                          baked: map<string, seq<F.Context>>, after: map<string, seq<F.Context>>, gone: seq<string>)
    requires ContextsOf(cs, before) && ContextsOf(added, baked) && "" !in before
    requires forall tu :: tu in before && tu in baked ==> tu in gone
    requires forall tu :: tu in after <==> (tu in before && tu !in gone) || tu in baked
    requires forall tu :: tu in after ==> after[tu] == if tu in baked then baked[tu] else before[tu]
    ensures ContextsOf(F.Remaining(cs, gone) + added, after)
  {
    forall c ensures multiset(F.Remaining(cs, gone) + added)[c]
                  == if c.tuPath in after then multiset(after[c.tuPath])[c] else 0
    {
      RemainingCount(cs, gone, c);
      assert multiset(cs)[c] == if c.tuPath in before then multiset(before[c.tuPath])[c] else 0;
      assert multiset(added)[c] == if c.tuPath in baked then multiset(baked[c.tuPath])[c] else 0;
    }
  }

  // ---- the refresh ---------------------------------------------------------------------------------

  /** What all units contribute. */
  datatype Bake = Bake(edges: map<string, seq<EdgeName>>, contexts: map<string, seq<F.Context>>,
                       nodes: set<(string, string)>)

  /** The three indexes hold that and nothing else. */
  ghost predicate Holds(graph: CallGraph, nodes: N.Nodes, cf: F.ControlFlowIndex, bake: Bake)
    reads graph, nodes, cf
  {
    && graph.Valid() && nodes.Valid() && cf.Valid()
    && BakeOf(graph.regs, bake.edges) && ContextsOf(cf.Contents(), bake.contexts)
    && nodes.log == bake.nodes && N.AllContributed(nodes.AllNodes(), bake.nodes)
  }

  /** The bake after dropping some units and baking others anew. */
  ghost predicate Replaced(before: Bake, gone: seq<string>, baked: Bake, after: Bake) {
    && "" !in before.edges && "" !in before.contexts
    && before.edges.Keys * baked.edges.Keys <= SetOf(gone)
    && after.edges.Keys == (before.edges.Keys - SetOf(gone)) + baked.edges.Keys
    && (forall tu :: tu in after.edges ==>
          after.edges[tu] == if tu in baked.edges then baked.edges[tu] else before.edges[tu])
    && (forall tu :: tu in before.contexts && tu in baked.contexts ==> tu in gone)
    && (forall tu :: tu in after.contexts <==> (tu in before.contexts && tu !in gone) || tu in baked.contexts)
    && (forall tu :: tu in after.contexts ==>
          after.contexts[tu] == if tu in baked.contexts then baked.contexts[tu] else before.contexts[tu])
    && after.nodes == N.Remaining(before.nodes, set t | t in gone) + baked.nodes
  }

  /** Remove, then absorb, index by index. */
  method RefreshAll(graph: CallGraph, nodes: N.Nodes, cf: F.ControlFlowIndex, freshGraph: CallGraph,
                    freshNodes: N.Nodes, freshCf: F.ControlFlowIndex, toRemove: seq<string>, ghost before: Bake,
                    ghost baked: Bake, ghost after: Bake)
    requires Holds(graph, nodes, cf, before) && Holds(freshGraph, freshNodes, freshCf, baked)
    requires graph != freshGraph && nodes != freshNodes && cf != freshCf
    requires |cf.strings| + |freshCf.strings| <= W.TWO32
    requires Replaced(before, toRemove, baked, after)
    modifies graph, nodes, cf
    ensures Holds(graph, nodes, cf, after)
  {
    hide BakeOf, ContextsOf, N.AllContributed, N.TableOf, N.Survivors, T.Joined, N.Remaining, N.Outlives, Without,
         F.Remaining, T.TableSumsUp, CallGraph.Valid, N.Nodes.Valid, F.ControlFlowIndex.Valid, F.Materialized;
    ghost var regs, cs, log, table := graph.regs, cf.Contents(), nodes.log, nodes.AllNodes();
    var _ := graph.RemoveTUs(toRemove);
    var _ := cf.RemoveTUs(toRemove);
    nodes.RemoveTUs(toRemove);
    graph.Absorb(freshGraph);
    cf.Absorb(freshCf);
    nodes.Absorb(freshNodes);
    SetOfIs(toRemove);
    RefreshedBake(regs, freshGraph.regs, before.edges, baked.edges, after.edges, SetOf(toRemove));
    RefreshedContexts(cs, freshCf.Contents(), before.contexts, baked.contexts, after.contexts, toRemove);
    N.RefreshedNodes(table, log, freshNodes.AllNodes(), freshNodes.log, set t | t in toRemove);
  }

  // ---- by the dirty flags --------------------------------------------------------------------------

  /** What the recorded parses contribute. */
  ghost function AllOf(results: Results): Bake {
    Bake(Bakes(results), ContextsFor(results), NodePairs(results))
  }

  ghost function ContextsFor(results: Results): map<string, seq<F.Context>> {
    map tu | tu in results :: ContextsIn(results[tu])
  }

  ghost function NodePairs(results: Results): set<(string, string)> {
    set tu, n | tu in results && n in NodesOf(results[tu]) :: (T.Keyed(n).usr, tu)
  }

  /** Of every finished parse on record each registration and each context is there as often as it
      was given, each node is known, and nothing else is there. */
  ghost predicate ResultsAreIn(regs: seq<Registration>, cs: seq<F.Context>, table: T.Table, results: Results) {
    && (forall edge, tu :: multiset(regs)[Registration(edge, tu)] ==
          if tu in results && results[tu].Parsed? then multiset(results[tu].edges)[edge] else 0)
    && (forall c :: multiset(cs)[c] ==
          if c.tuPath in results && results[c.tuPath].Parsed? then multiset(results[c.tuPath].contexts)[c] else 0)
    && (forall usr :: usr in table <==> exists tu, n :: GivesNode(results, tu, n, usr))
  }

  ghost predicate GivesNode(results: Results, tu: string, n: T.Node, usr: string) {
    && tu in results && results[tu].Parsed? && n in results[tu].nodes
    && usr == if n.usr != "" then n.usr else n.qualifiedName
  }

  lemma HoldsResults(regs: seq<Registration>, cs: seq<F.Context>, table: T.Table, results: Results)
    requires var bake := AllOf(results);
      BakeOf(regs, bake.edges) && ContextsOf(cs, bake.contexts) && N.AllContributed(table, bake.nodes)
    ensures ResultsAreIn(regs, cs, table, results)
  {
    forall edge, tu ensures multiset(regs)[Registration(edge, tu)] ==
      if tu in results && results[tu].Parsed? then multiset(results[tu].edges)[edge] else 0
    {
      hide CountTu;
      RegistrationsOf(regs, edge, tu);
      BakeAt(regs, Bakes(results), edge, tu);
    }
    forall usr ensures usr in table <==> exists tu, n :: GivesNode(results, tu, n, usr) {
      NodeGiven(results, usr);
    }
    hide BakeOf, N.AllContributed, GivesNode;
  }

  lemma {:induction false} RegistrationsOf(regs: seq<Registration>, edge: EdgeName, tu: string)
    ensures CountTu(regs, edge, tu) == multiset(regs)[Registration(edge, tu)]
  {
    if regs != [] {
      RegistrationsOf(regs[..|regs| - 1], edge, tu);
      assert regs == regs[..|regs| - 1] + [regs[|regs| - 1]];
    }
  }

  lemma NodeGiven(results: Results, usr: string)
    ensures N.Contributed(NodePairs(results), usr) <==> exists tu, n :: GivesNode(results, tu, n, usr)
  {
    if N.Contributed(NodePairs(results), usr) {
      var tu :| (usr, tu) in NodePairs(results);
      PairIn(results, usr, tu);
      var n :| n in NodesOf(results[tu]) && T.Keyed(n).usr == usr;
      assert GivesNode(results, tu, n, usr);
    }
    if tu, n :| GivesNode(results, tu, n, usr) {
      PairIn(results, usr, tu);
      assert n in NodesOf(results[tu]) && T.Keyed(n).usr == usr;
    }
  }

  /** Dropping what is no longer selected and baking what is dirty replaces just that. */
  lemma FlagsReplace(results: Results, parse: Parser, now: World, files: set<string>, baked: set<string>,
                     toRemove: seq<string>)
    requires "" !in results && baked <= files && files - baked <= results.Keys
    requires SetOf(toRemove) == (results.Keys - files) + baked * results.Keys
    ensures Replaced(AllOf(results), toRemove, AllOf(ParsedNow(parse, baked, now)),
                     AllOf(Updated(results, parse, now, files, baked)))
  {
    SetOfIs(toRemove);
    assert forall t :: t in toRemove <==> t in SetOf(toRemove);
    hide Bakes, ContextsFor, NodePairs, N.Remaining, Updated, ParsedNow, SetOf;
    FlagSets(results.Keys, files, baked, SetOf(toRemove));
    PairsReplace(results, parse, now, files, baked, SetOf(toRemove));
    UpdatedBakes(results, parse, now, files, baked);
    UpdatedContexts(results, parse, now, files, baked);
  }

  lemma FlagSets(recorded: set<string>, files: set<string>, baked: set<string>, gone: set<string>)
    requires baked <= files && files - baked <= recorded && gone == (recorded - files) + baked * recorded
    ensures recorded * baked <= gone && files == (recorded - gone) + baked
    ensures forall tu :: tu in files <==> (tu in recorded && tu !in gone) || tu in baked
  {
  }

  lemma UpdatedContexts(results: Results, parse: Parser, now: World, files: set<string>, baked: set<string>)
    requires baked <= files && files - baked <= results.Keys
    ensures var before, fresh_, after := ContextsFor(results), ContextsFor(ParsedNow(parse, baked, now)),
        ContextsFor(Updated(results, parse, now, files, baked));
      && before.Keys == results.Keys && fresh_.Keys == baked && after.Keys == files
      && forall tu :: tu in after ==> after[tu] == if tu in fresh_ then fresh_[tu] else before[tu]
  {
  }

  lemma PairsReplace(results: Results, parse: Parser, now: World, files: set<string>, baked: set<string>,
                     gone: set<string>)
    requires baked <= files && files - baked <= results.Keys
    requires gone == (results.Keys - files) + baked * results.Keys
    ensures NodePairs(Updated(results, parse, now, files, baked)) ==
      N.Remaining(NodePairs(results), gone) + NodePairs(ParsedNow(parse, baked, now))
  {
    var fresh_, after := ParsedNow(parse, baked, now), Updated(results, parse, now, files, baked);
    forall u, tu ensures (u, tu) in NodePairs(after) <==>
      (u, tu) in N.Remaining(NodePairs(results), gone) + NodePairs(fresh_)
    {
      PairIn(results, u, tu);
      PairIn(fresh_, u, tu);
      PairIn(after, u, tu);
      hide NodePairs;
    }
  }

  lemma PairIn(results: Results, u: string, tu: string)
    ensures (u, tu) in NodePairs(results) <==>
      tu in results && exists n :: n in NodesOf(results[tu]) && T.Keyed(n).usr == u
  {
  }

  /** The nodes of a bake, each told for its unit: all of them are contributed. */
  method BakeNodes(parse: Parser, tus: seq<string>, w: World) returns (nodes: N.Nodes)
    requires "" !in tus
    ensures fresh(nodes) && nodes.Valid() && nodes.log == NodePairs(ParsedNow(parse, SetOf(tus), w))
    ensures N.AllContributed(nodes.AllNodes(), nodes.log)
  {
    hide N.Ok, N.TableOf, N.AllContributed, T.Told, SetOf, ParsedNow, NodePairs;
    nodes := new N.Nodes();
    NoNodes(parse, w);
    assert tus[..0] == [];
    for i := 0 to |tus|
      invariant fresh(nodes) && nodes.Valid() && nodes.log == NodePairs(ParsedNow(parse, SetOf(tus[..i]), w))
      invariant N.AllContributed(nodes.AllNodes(), nodes.log)
    {
      ghost var log0 := nodes.log;
      var list := NodesOf(parse(tus[i], w));
      assert UsrsFor(list[..0], tus[i]) == {};
      for j := 0 to |list|
        invariant fresh(nodes) && nodes.Valid() && nodes.log == log0 + UsrsFor(list[..j], tus[i])
        invariant N.AllContributed(nodes.AllNodes(), nodes.log)
      {
        N.ContributedNode(nodes.AllNodes(), nodes.log, T.Keyed(list[j]), tus[i]);
        UsrsOne(list, j, tus[i]);
        nodes.AddNode(list[j], tus[i]);
      }
      assert list[..|list|] == list;
      MoreNodes(parse, tus, i, w);
    }
    assert tus[..|tus|] == tus;
  }

  ghost function UsrsFor(list: seq<T.Node>, tu: string): set<(string, string)> {
    set n | n in list :: (T.Keyed(n).usr, tu)
  }

  lemma UsrsOne(list: seq<T.Node>, j: nat, tu: string)
    requires j < |list|
    ensures UsrsFor(list[..j + 1], tu) == UsrsFor(list[..j], tu) + {(T.Keyed(list[j]).usr, tu)}
  {
    assert list[..j + 1] == list[..j] + [list[j]];
  }

  lemma NoNodes(parse: Parser, w: World)
    ensures NodePairs(ParsedNow(parse, SetOf([]), w)) == {} && N.AllContributed(map[], {})
  {
  }

  lemma MoreNodes(parse: Parser, tus: seq<string>, i: nat, w: World)
    requires i < |tus|
    ensures NodePairs(ParsedNow(parse, SetOf(tus[..i + 1]), w)) ==
      NodePairs(ParsedNow(parse, SetOf(tus[..i]), w)) + UsrsFor(NodesOf(parse(tus[i], w)), tus[i])
  {
    var a, b := ParsedNow(parse, SetOf(tus[..i + 1]), w), ParsedNow(parse, SetOf(tus[..i]), w);
    forall u, tu ensures (u, tu) in NodePairs(a) <==>
      (u, tu) in NodePairs(b) || (u, tu) in UsrsFor(NodesOf(parse(tus[i], w)), tus[i])
    {
      PairIn(a, u, tu);
      PairIn(b, u, tu);
      assert tus[..i + 1] == tus[..i] + [tus[i]];
      assert tu in a <==> tu in b || tu == tus[i];
    }
    assert NodePairs(a) == NodePairs(b) + UsrsFor(NodesOf(parse(tus[i], w)), tus[i]);
  }

  /** A refresh by the dirty flags over all three indexes: afterwards they hold what the results
      on record after the run contribute. */
  method RefreshIndexes(graph: CallGraph, nodes: N.Nodes, cf: F.ControlFlowIndex, freshGraph: CallGraph,
                        freshCf: F.ControlFlowIndex, meta: Meta, parse: Parser, files: seq<string>, now: World,
                        dirty: seq<bool>, ghost results: Results)
    requires Holds(graph, nodes, cf, AllOf(results)) && freshGraph.Valid() && freshCf.Valid()
    requires "" !in results && Paths(meta.files) == results.Keys && DistinctNames(files) && "" !in files
    requires |dirty| == |files|
    requires forall i :: 0 <= i < |files| ==> dirty[i] == IsDirty(meta, now, StampOf(now, files[i]))
    requires graph != freshGraph && cf != freshCf && |cf.strings| + |freshCf.strings| <= W.TWO32
    requires var baked := AllOf(ParsedNow(parse, DirtySet(meta, files, now), now));
      BakeOf(freshGraph.regs, baked.edges) && ContextsOf(freshCf.Contents(), baked.contexts)
    modifies graph, nodes, cf
    ensures Holds(graph, nodes, cf, AllOf(Updated(results, parse, now, SetOf(files), DirtySet(meta, files, now))))
    ensures ResultsAreIn(graph.regs, cf.Contents(), nodes.AllNodes(),
                         Updated(results, parse, now, SetOf(files), DirtySet(meta, files, now)))
  {
    hide BakeOf, ContextsOf, N.AllContributed, N.Ok, N.TableOf, E.TablesOk, BothOk, I.InternerOk, F.StoreOk, F.AllIn,
         F.MapsOk, F.Unproven, F.CountLive, F.Materialized, SetOf, Paths, DistinctNames, IsDirty, StampOf, DirtySet,
         Updated, ParsedNow, Replaced, Bakes, NodePairs, ResultsAreIn;
    var toDrop := Dropped(meta.files, files);
    var toBake := Flagged(files, dirty);
    FlaggedIsDirty(meta, files, now, dirty, SetOf(toBake));
    CleanAreRecorded(meta, files, now);
    var toRemove := ToRemove(toDrop, toBake, Paths(meta.files));
    FlagsReplace(results, parse, now, SetOf(files), SetOf(toBake), toRemove);
    NamesIn(toBake, files);
    var freshNodes := BakeNodes(parse, toBake, now);
    RefreshAll(graph, nodes, cf, freshGraph, freshNodes, freshCf, toRemove, AllOf(results),
      AllOf(ParsedNow(parse, SetOf(toBake), now)), AllOf(Updated(results, parse, now, SetOf(files), SetOf(toBake))));
    HoldsResults(graph.regs, cf.Contents(), nodes.AllNodes(),
      Updated(results, parse, now, SetOf(files), SetOf(toBake)));
  }

  lemma NamesIn(names: seq<string>, files: seq<string>)
    requires SetOf(names) <= SetOf(files) && "" !in files
    ensures "" !in names
  {
    assert "" !in SetOf(names);
  }

  lemma CleanAreRecorded(meta: Meta, files: seq<string>, now: World)
    ensures SetOf(files) - DirtySet(meta, files, now) <= Paths(meta.files)
  {
    forall f | f in SetOf(files) - DirtySet(meta, files, now) ensures f in Paths(meta.files) {
      var e := LastEntry(meta.files, f);
      assert meta.files[e.value].path == f;
    }
  }
}

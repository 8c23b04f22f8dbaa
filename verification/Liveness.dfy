/** The dead-code analysis: both walks, the verdicts, and the graphs it runs on
    (src/anneal/DeadCodeAnalyzer.cpp:28-192). */
module Liveness {
  import opened EdgeTypes
  import opened Registrations
  import opened EdgeTables
  import opened CallGraphStore
  import opened GraphQueries
  import opened Relations
  import GraphViews
  import opened DeadCode
  import opened DeadCodeTheorems
  import opened Derivations

  // ---- the graphs that are built -------------------------------------------------------------------

  /** The builder registers virtual calls as proven or plausible
      (src/callgraph/CallGraphBuilder.cpp:787-799, 924-927). */
  ghost predicate VirtualsAreKnown(regs: seq<Registration>) {
    forall r :: r in regs && r.edge.kind == VirtualDispatch ==> r.edge.confidence != Unknown
  }

  /** Every edge the walk is shown stands for one the graph can justify. */
  ghost predicate ReadsFrom(code: Code, g: Graph) {
    forall n, e :: e in code.CalleesOf(n) ==> ShownAs(g, e)
  }

  ghost predicate ShownAs(g: Graph, e: Callee) {
    exists k :: Justified(g, k) && k.kind == e.kind && k.confidence == e.confidence
  }

  /** On such graphs no edge is tried once, synthesized ones included. */
  lemma BuiltGraphsAreSafe(g: CallGraph, code: Code)
    requires g.Valid() && VirtualsAreKnown(g.regs) && ReadsFrom(code, GraphViews.ValueOf(g))
    ensures NoneTriedOnce(code, true)
  {
    hide TablesOk, Justified;
    var v := GraphViews.ValueOf(g);
    forall n, e | e in code.CalleesOf(n) ensures !TriedOnce(true, e) {
      assert ShownAs(v, e);
      var k :| Justified(v, k) && k.kind == e.kind && k.confidence == e.confidence;
      JustifiedIsKnown(v, g.regs, k);
    }
  }

  lemma JustifiedIsKnown(g: Graph, regs: seq<Registration>, k: EdgeRef)
    requires TablesOk(g.t, regs) && VirtualsAreKnown(regs) && Justified(g, k)
    ensures k.kind == VirtualDispatch ==> k.confidence != Unknown
  {
    hide TablesOk, VirtualsAreKnown, Reaches;
    var i :| Justifies(g, i, k);
    if g.t.edges[i].key.kind == VirtualDispatch {
      SlotIsKnown(g.t, regs, i);
    }
  }

  lemma SlotIsKnown(t: Tables, regs: seq<Registration>, i: nat)
    requires TablesOk(t, regs) && VirtualsAreKnown(regs) && Live(t, i) && t.edges[i].key.kind == VirtualDispatch
    ensures t.edges[i].key.confidence != Unknown
  {
    CountPositive(regs, Name(t.strings, t.edges[i].key));
  }

  // ---- the verdicts --------------------------------------------------------------------------------

  datatype Liveness = Alive | OptimisticallyAlive | Dead

  function Rank(l: Liveness): nat {
    match l
    case Alive => 2
    case OptimisticallyAlive => 1
    case Dead => 0
  }

  datatype Node = Node(usr: string, qualifiedName: string)

  /** Some function of that display name is in the set. */
  ghost predicate SomeIn(nodes: seq<Node>, name: string, alive: set<string>) {
    exists n :: n in nodes && n.qualifiedName == name && n.usr in alive
  }

  class Analyzer {
    const code: Code
    const roots: seq<string> // the entry points, then the public API
    var pessimisticAlive: set<string>
    var optimisticAlive: set<string>

    constructor (code: Code, entryPoints: seq<string>, publicApi: seq<string>)
      ensures this.code == code && roots == entryPoints + publicApi
    {
      this.code, roots := code, entryPoints + publicApi;
      pessimisticAlive, optimisticAlive := {}, {};
    }

    method AnalyzePessimistic()
      modifies this`pessimisticAlive
      ensures pessimisticAlive == Walked(code, false, roots).alive
      ensures IsLeast(code, RootsOf(code, roots), false, pessimisticAlive, Walked(code, false, roots).constructed)
      ensures forall u :: u in pessimisticAlive <==>
        exists path :: ProvenPath(code, roots, path) && path[|path| - 1] == u
    {
      pessimisticAlive := Bfs(code, false, roots);
      WalkFindsTheLeast(code, false, roots);
      forall u ensures u in pessimisticAlive <==>
        exists path :: ProvenPath(code, roots, path) && path[|path| - 1] == u {
        PessimisticExactly(code, roots, u);
      }
    }

    method AnalyzeOptimistic()
      modifies this`optimisticAlive
      ensures optimisticAlive == Walked(code, true, roots).alive
      ensures NoneTriedOnce(code, true) || NoneConstructs(code) ==>
        IsLeast(code, RootsOf(code, roots), true, optimisticAlive, Walked(code, true, roots).constructed)
      ensures forall u :: Derivable(code, roots, false, IsAlive(u)) ==> u in optimisticAlive
      ensures forall u :: u in optimisticAlive ==> Derivable(code, roots, true, IsAlive(u))
      ensures NoUnknownDispatch(code) ==>
        forall u :: u in optimisticAlive <==> Derivable(code, roots, false, IsAlive(u))
    {
      optimisticAlive := Bfs(code, true, roots);
      if NoneTriedOnce(code, true) || NoneConstructs(code) {
        WalkFindsTheLeast(code, true, roots);
      }
      forall u
        ensures Derivable(code, roots, false, IsAlive(u)) ==> u in optimisticAlive
        ensures u in optimisticAlive ==> Derivable(code, roots, true, IsAlive(u))
        ensures NoUnknownDispatch(code) && u in optimisticAlive ==> Derivable(code, roots, false, IsAlive(u))
      {
        OptimisticIsDerivable(code, roots, u);
        if NoUnknownDispatch(code) {
          OptimisticExactly(code, roots, u);
        }
      }
    }

    function Verdict(usr: string): Liveness
      reads this
    {
      if usr in pessimisticAlive then Alive else if usr in optimisticAlive then OptimisticallyAlive else Dead
    }

    /** By display name; functions that share one get the most alive verdict among them. */
    method GetResults(nodes: seq<Node>) returns (results: map<string, Liveness>)
      ensures forall n :: n in nodes ==>
        n.qualifiedName in results && Rank(results[n.qualifiedName]) >= Rank(Verdict(n.usr))
      ensures forall name :: name in results ==>
        exists n :: n in nodes && n.qualifiedName == name && Verdict(n.usr) == results[name]
      ensures forall name :: name in results <==> exists n :: n in nodes && n.qualifiedName == name
      ensures forall name :: name in results ==>
        && (results[name] == Alive <==> SomeIn(nodes, name, pessimisticAlive))
        && (results[name] == OptimisticallyAlive <==>
              !SomeIn(nodes, name, pessimisticAlive) && SomeIn(nodes, name, optimisticAlive))
        && (results[name] == Dead <==>
              !SomeIn(nodes, name, pessimisticAlive) && !SomeIn(nodes, name, optimisticAlive))
    {
      results := map[];
      for i := 0 to |nodes|
        invariant forall n :: n in nodes[..i] ==>
          n.qualifiedName in results && Rank(results[n.qualifiedName]) >= Rank(Verdict(n.usr))
        invariant forall name :: name in results ==>
          exists n :: n in nodes[..i] && n.qualifiedName == name && Verdict(n.usr) == results[name]
      {
        var liveness := Verdict(nodes[i].usr);
        var name := nodes[i].qualifiedName;
        assert nodes[..i + 1] == nodes[..i] + [nodes[i]];
        if name !in results || Rank(liveness) > Rank(results[name]) {
          results := results[name := liveness];
        }
      }
      assert nodes[..|nodes|] == nodes;
    }
  }
}

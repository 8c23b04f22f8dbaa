/** The id-level edge queries: stored edges plus the virtual-dispatch and deferred-return edges
    synthesized at query time, from either end (src/callgraph/CallGraph.cpp:215-354). */
module GraphQueries {
  import opened EdgeTypes
  import opened Sequences
  import opened EdgeTables
  import opened Relations

  /** What the queries read of a call graph. */
  datatype Graph = Graph(t: Tables, overrides: Relation, returned: Relation)

  // ---- which edges a query may show ----------------------------------------------------------

  /** A dispatch that overrides may catch: only Plausible ones are expanded. */
  predicate Expandable(k: EdgeRef) {
    k.kind == VirtualDispatch && k.confidence == Plausible
  }

  function Dispatched(k: EdgeRef, target: Id): EdgeRef {
    k.(callee := target)
  }

  /** The edge a deferred row stands for once the returned function is known. */
  function Resolved(k: EdgeRef, target: Id): EdgeRef {
    k.(callee := target, kind := if k.execContext != Synchronous then ThreadEntry else FunctionPointer)
  }

  /** Stored slot `i` accounts for edge `e`: as it is, through a transitive override of its
      static target, or through a function its deferred callee returns. */
  ghost predicate Justifies(g: Graph, i: int, e: EdgeRef) {
    Live(g.t, i) && var k := g.t.edges[i].key;
      || (k.kind != FunctionPointerReturn && e == k)
      || (Expandable(k) && e == Dispatched(k, e.callee) && e.callee != k.callee
        && Reaches(g.overrides.fwd, k.callee, e.callee))
      || (k.kind == FunctionPointerReturn && e == Resolved(k, e.callee) && Related(g.returned.fwd, k.callee, e.callee))
  }

  ghost predicate Justified(g: Graph, e: EdgeRef) {
    exists i :: Justifies(g, i, e)
  }

  // ---- the queries as functions ----------------------------------------------------------------

  /** The far end and the call site: what the queries deduplicate synthesized edges by. */
  function Pair(e: EdgeRef, end: End): (Id, Id) {
    (EndOf(e, end), e.callSite)
  }

  /** Stored edges shown as they are. */
  function Direct(t: Tables, list: seq<nat>): seq<EdgeRef> {
    if list == [] then []
    else
      Direct(t, list[..|list| - 1]) +
      (if Live(t, list[|list| - 1]) && t.edges[list[|list| - 1]].key.kind != FunctionPointerReturn
       then [t.edges[list[|list| - 1]].key] else [])
  }

  /** One synthesized edge per target. */
  function Fan(k: EdgeRef, targets: seq<Id>, deferred: bool): seq<EdgeRef> {
    if targets == [] then []
    else Fan(k, targets[..|targets| - 1], deferred) +
         [if deferred then Resolved(k, targets[|targets| - 1]) else Dispatched(k, targets[|targets| - 1])]
  }

  predicate Fans(t: Tables, i: nat, deferred: bool) {
    Live(t, i) && (if deferred then t.edges[i].key.kind == FunctionPointerReturn else Expandable(t.edges[i].key))
  }

  /** Where slot `i` fans out to. */
  function TargetsOf(g: Graph, k: EdgeRef, deferred: bool): seq<Id> {
    if deferred then Image(g.returned.fwd, k.callee) else Closure(g.overrides.fwd, k.callee)
  }

  /** Candidates leaving the slots of a caller. */
  function Outgoing(g: Graph, list: seq<nat>, deferred: bool): seq<EdgeRef> {
    if list == [] then []
    else
      var i := list[|list| - 1];
      Outgoing(g, list[..|list| - 1], deferred) +
      (if Fans(g.t, i, deferred) then Fan(g.t.edges[i].key, TargetsOf(g, g.t.edges[i].key, deferred), deferred) else [])
  }

  /** Candidates entering `callee` from the slots of one base or returner. */
  function Entering(g: Graph, list: seq<nat>, callee: Id, deferred: bool): seq<EdgeRef> {
    if list == [] then []
    else
      var i := list[|list| - 1];
      Entering(g, list[..|list| - 1], callee, deferred) +
      (if Fans(g.t, i, deferred) then
         [if deferred then Resolved(g.t.edges[i].key, callee) else Dispatched(g.t.edges[i].key, callee)] else [])
  }

  /** The nodes whose dispatches or deferred rows may reach `callee`. */
  function SourcesOf(g: Graph, callee: Id, deferred: bool): seq<Id> {
    if deferred then Image(g.returned.rev, callee) else Closure(g.overrides.rev, callee)
  }

  function Incoming(g: Graph, sources: seq<Id>, callee: Id, deferred: bool): seq<EdgeRef> {
    if sources == [] then []
    else
      Incoming(g, sources[..|sources| - 1], callee, deferred) +
      Entering(g, Slots(g.t.inn, sources[|sources| - 1]), callee, deferred)
  }

  /** Candidates in order, each kept unless its pair was seen before. */
  function Fresh(end: End, seen: set<(Id, Id)>, candidates: seq<EdgeRef>): seq<EdgeRef>
    decreases |candidates|
  {
    if candidates == [] then []
    else if Pair(candidates[0], end) in seen then Fresh(end, seen, candidates[1..])
    else [candidates[0]] + Fresh(end, seen + {Pair(candidates[0], end)}, candidates[1..])
  }

  function Pairs(end: End, edges: seq<EdgeRef>): set<(Id, Id)> {
    set e | e in edges :: Pair(e, end)
  }

  /** Seen pairs of the callee direction: stored dispatches only. */
  function DispatchPairs(edges: seq<EdgeRef>): set<(Id, Id)> {
    set e | e in edges && e.kind == VirtualDispatch :: Pair(e, CalleeEnd)
  }

  function CalleeRefs(g: Graph, caller: Id): seq<EdgeRef> {
    var list := Slots(g.t.out, caller);
    var direct := Direct(g.t, list);
    direct + Fresh(CalleeEnd, DispatchPairs(direct), Outgoing(g, list, false) + Outgoing(g, list, true))
  }

  function CallerRefs(g: Graph, callee: Id): seq<EdgeRef> {
    var direct := Direct(g.t, Slots(g.t.inn, callee));
    direct + Fresh(CallerEnd, Pairs(CallerEnd, direct),
                   Incoming(g, SourcesOf(g, callee, false), callee, false)
                     + Incoming(g, SourcesOf(g, callee, true), callee, true))
  }

  // ---- membership ------------------------------------------------------------------------------

  lemma {:induction false} DirectMember(t: Tables, list: seq<nat>, e: EdgeRef)
    ensures e in Direct(t, list) <==> exists i ::
      i in list && Live(t, i) && t.edges[i].key == e && e.kind != FunctionPointerReturn
  {
    if list != [] {
      DirectMember(t, list[..|list| - 1], e);
      assert list == list[..|list| - 1] + [list[|list| - 1]];
    }
  }

  lemma {:induction false} FanMember(k: EdgeRef, targets: seq<Id>, deferred: bool, e: EdgeRef)
    ensures e in Fan(k, targets, deferred) <==>
            e.callee in targets && e == (if deferred then Resolved(k, e.callee) else Dispatched(k, e.callee))
  {
    if targets != [] {
      FanMember(k, targets[..|targets| - 1], deferred, e);
      assert targets == targets[..|targets| - 1] + [targets[|targets| - 1]];
    }
  }

  /** Slot `i` offers `e` through the synthesized kind `deferred`. */
  ghost predicate Offers(g: Graph, i: nat, deferred: bool, e: EdgeRef) {
    Fans(g.t, i, deferred) && var k := g.t.edges[i].key;
      e == (if deferred then Resolved(k, e.callee) else Dispatched(k, e.callee))
      && e.callee in TargetsOf(g, k, deferred)
  }

  lemma {:induction false} OutgoingMember(g: Graph, list: seq<nat>, deferred: bool, e: EdgeRef)
    ensures e in Outgoing(g, list, deferred) <==> exists i :: i in list && Offers(g, i, deferred, e)
  {
    if list != [] {
      var i := list[|list| - 1];
      OutgoingMember(g, list[..|list| - 1], deferred, e);
      assert list == list[..|list| - 1] + [i];
      if Fans(g.t, i, deferred) {
        FanMember(g.t.edges[i].key, TargetsOf(g, g.t.edges[i].key, deferred), deferred, e);
        assert e in Fan(g.t.edges[i].key, TargetsOf(g, g.t.edges[i].key, deferred), deferred) <==>
          Offers(g, i, deferred, e);
      }
      if e in Outgoing(g, list[..|list| - 1], deferred) {
        var j :| j in list[..|list| - 1] && Offers(g, j, deferred, e);
        assert j in list;
      }
    }
  }

  ghost predicate EntersAt(g: Graph, i: nat, callee: Id, deferred: bool, e: EdgeRef) {
    Fans(g.t, i, deferred) &&
    e == (if deferred then Resolved(g.t.edges[i].key, callee) else Dispatched(g.t.edges[i].key, callee))
  }

  lemma {:induction false} EnteringMember(g: Graph, list: seq<nat>, callee: Id, deferred: bool, e: EdgeRef)
    ensures e in Entering(g, list, callee, deferred) <==> exists i :: i in list && EntersAt(g, i, callee, deferred, e)
  {
    if list != [] {
      EnteringMember(g, list[..|list| - 1], callee, deferred, e);
      assert list == list[..|list| - 1] + [list[|list| - 1]];
      if e in Entering(g, list[..|list| - 1], callee, deferred) {
        var j :| j in list[..|list| - 1] && EntersAt(g, j, callee, deferred, e);
        assert j in list;
      } else if e in Entering(g, list, callee, deferred) {
        assert EntersAt(g, list[|list| - 1], callee, deferred, e);
      }
    }
  }

  lemma {:induction false} IncomingMember(g: Graph, sources: seq<Id>, callee: Id, deferred: bool, e: EdgeRef)
    ensures e in Incoming(g, sources, callee, deferred) <==>
            exists s, i :: s in sources && i in Slots(g.t.inn, s) && EntersAt(g, i, callee, deferred, e)
  {
    if sources != [] {
      IncomingMember(g, sources[..|sources| - 1], callee, deferred, e);
      EnteringMember(g, Slots(g.t.inn, sources[|sources| - 1]), callee, deferred, e);
      assert sources == sources[..|sources| - 1] + [sources[|sources| - 1]];
    }
  }

  lemma {:induction false} FreshIsSound(end: End, seen: set<(Id, Id)>, candidates: seq<EdgeRef>, e: EdgeRef)
    requires e in Fresh(end, seen, candidates)
    ensures e in candidates && Pair(e, end) !in seen
    decreases |candidates|
  {
    if Pair(candidates[0], end) in seen {
      FreshIsSound(end, seen, candidates[1..], e);
    } else if e != candidates[0] {
      FreshIsSound(end, seen + {Pair(candidates[0], end)}, candidates[1..], e);
    }
  }

  /** No candidate's pair is lost. */
  lemma {:induction false} FreshIsComplete(end: End, seen: set<(Id, Id)>, candidates: seq<EdgeRef>, e: EdgeRef)
    requires e in candidates
    ensures Pair(e, end) in seen || exists f :: f in Fresh(end, seen, candidates) && Pair(f, end) == Pair(e, end)
    decreases |candidates|
  {
    var c := candidates[0];
    if e == c {
      if Pair(c, end) !in seen {
        assert c in Fresh(end, seen, candidates);
      }
    } else if Pair(c, end) in seen {
      FreshIsComplete(end, seen, candidates[1..], e);
    } else {
      FreshIsComplete(end, seen + {Pair(c, end)}, candidates[1..], e);
      if Pair(e, end) == Pair(c, end) {
        assert c in Fresh(end, seen, candidates);
      } else if Pair(e, end) !in seen {
        var f :| f in Fresh(end, seen + {Pair(c, end)}, candidates[1..]) && Pair(f, end) == Pair(e, end);
        assert f in Fresh(end, seen, candidates);
      }
    }
  }

  lemma {:induction false} FreshIsDistinct(end: End, seen: set<(Id, Id)>, candidates: seq<EdgeRef>)
    ensures Distinct(Fresh(end, seen, candidates))
    decreases |candidates|
  {
    if candidates != [] {
      var c := candidates[0];
      if Pair(c, end) in seen {
        FreshIsDistinct(end, seen, candidates[1..]);
      } else {
        var rest := Fresh(end, seen + {Pair(c, end)}, candidates[1..]);
        FreshIsDistinct(end, seen + {Pair(c, end)}, candidates[1..]);
        if c in rest {
          FreshIsSound(end, seen + {Pair(c, end)}, candidates[1..], c);
        }
        DistinctConcat([c], rest);
      }
    }
  }

  // ---- what the queries return -------------------------------------------------------------------

  /** The adjacency lists are exact and the reverse relations transposed: what every call graph
      keeps. */
  ghost predicate GraphOk(g: Graph) {
    && StringsOk(g.t) && IndexOk(g.t)
    && AdjOk(g.t, CallerEnd, {}) && AdjOk(g.t, CalleeEnd, {})
    && Transposed(g.overrides) && Transposed(g.returned)
  }

  lemma OutSlots(g: Graph, caller: Id, i: nat)
    requires AdjOk(g.t, CallerEnd, {})
    ensures i in Slots(g.t.out, caller) <==> Live(g.t, i) && g.t.edges[i].key.caller == caller
  {
    assert Lists(g.t, CallerEnd, {}, caller);
    assert Adjacency(g.t, CallerEnd) == g.t.out;
  }

  lemma InSlots(g: Graph, callee: Id, i: nat)
    requires AdjOk(g.t, CalleeEnd, {})
    ensures i in Slots(g.t.inn, callee) <==> Live(g.t, i) && g.t.edges[i].key.callee == callee
  {
    assert Lists(g.t, CalleeEnd, {}, callee);
    assert Adjacency(g.t, CalleeEnd) == g.t.inn;
  }

  /** A slot offers exactly the synthesized edges it accounts for. */
  lemma OfferedIsJustified(g: Graph, i: nat, deferred: bool, e: EdgeRef)
    requires Offers(g, i, deferred, e)
    ensures Justifies(g, i, e)
  {
    if !deferred {
      ClosureIsReachable(g.overrides.fwd, g.t.edges[i].key.callee, e.callee);
    }
  }

  lemma JustifiedIsOffered(g: Graph, i: nat, e: EdgeRef)
    requires Justifies(g, i, e)
    ensures (g.t.edges[i].key == e && e.kind != FunctionPointerReturn) || Offers(g, i, false, e)
      || Offers(g, i, true, e)
  {
    ClosureIsReachable(g.overrides.fwd, g.t.edges[i].key.callee, e.callee);
  }

  /** Seen from the callee: the same edges, found through the reverse maps. */
  lemma OfferedFromSource(g: Graph, i: nat, callee: Id, deferred: bool, e: EdgeRef)
    requires GraphOk(g)
    ensures (exists s :: s in SourcesOf(g, callee, deferred) && i in Slots(g.t.inn, s))
            && EntersAt(g, i, callee, deferred, e)
       <==> Offers(g, i, deferred, e) && e.callee == callee
  {
    if Fans(g.t, i, deferred) {
      var k := g.t.edges[i].key;
      ClosureIsReachable(g.overrides.fwd, k.callee, callee);
      ClosureIsReachable(g.overrides.rev, callee, k.callee);
      ReachesReversed(g.overrides, k.callee, callee);
      assert Related(g.returned.fwd, k.callee, callee) <==> Related(g.returned.rev, callee, k.callee);
      InSlots(g, k.callee, i);
      forall s | i in Slots(g.t.inn, s) ensures s == k.callee {
        InSlots(g, s, i);
      }
    }
  }

  lemma CalleeRefsAreJustified(g: Graph, caller: Id, e: EdgeRef)
    requires GraphOk(g) && e in CalleeRefs(g, caller)
    ensures e.caller == caller && Justified(g, e)
  {
    var list := Slots(g.t.out, caller);
    var direct := Direct(g.t, list);
    DirectMember(g.t, list, e);
    var i: nat;
    if e in direct {
      i :| i in list && Live(g.t, i) && g.t.edges[i].key == e;
      assert Justifies(g, i, e);
    } else {
      var candidates := Outgoing(g, list, false) + Outgoing(g, list, true);
      FreshIsSound(CalleeEnd, DispatchPairs(direct), candidates, e);
      OutgoingMember(g, list, false, e);
      OutgoingMember(g, list, true, e);
      var deferred :| e in Outgoing(g, list, deferred);
      i :| i in list && Offers(g, i, deferred, e);
      OfferedIsJustified(g, i, deferred, e);
    }
    OutSlots(g, caller, i);
  }

  lemma JustifiedIsInCalleeRefs(g: Graph, e: EdgeRef)
    requires GraphOk(g) && Justified(g, e)
    ensures exists f :: f in CalleeRefs(g, e.caller) && Pair(f, CalleeEnd) == Pair(e, CalleeEnd)
  {
    var i :| Justifies(g, i, e);
    var list := Slots(g.t.out, e.caller);
    var direct := Direct(g.t, list);
    OutSlots(g, e.caller, i);
    JustifiedIsOffered(g, i, e);
    DirectMember(g.t, list, e);
    if e in direct {
      assert e in CalleeRefs(g, e.caller);
    } else {
      OutgoingMember(g, list, false, e);
      OutgoingMember(g, list, true, e);
      var candidates := Outgoing(g, list, false) + Outgoing(g, list, true);
      FreshIsComplete(CalleeEnd, DispatchPairs(direct), candidates, e);
      if Pair(e, CalleeEnd) in DispatchPairs(direct) {
        var f :| f in direct && f.kind == VirtualDispatch && Pair(f, CalleeEnd) == Pair(e, CalleeEnd);
        assert f in CalleeRefs(g, e.caller);
      } else {
        var f :| f in Fresh(CalleeEnd, DispatchPairs(direct), candidates) && Pair(f, CalleeEnd) == Pair(e, CalleeEnd);
        assert f in CalleeRefs(g, e.caller);
      }
    }
  }

  lemma CallerRefsAreJustified(g: Graph, callee: Id, e: EdgeRef)
    requires GraphOk(g) && e in CallerRefs(g, callee)
    ensures e.callee == callee && Justified(g, e)
  {
    var list := Slots(g.t.inn, callee);
    var direct := Direct(g.t, list);
    DirectMember(g.t, list, e);
    if e in direct {
      var i :| i in list && Live(g.t, i) && g.t.edges[i].key == e;
      InSlots(g, callee, i);
      assert Justifies(g, i, e);
    } else {
      var virtual := Incoming(g, SourcesOf(g, callee, false), callee, false);
      var returned := Incoming(g, SourcesOf(g, callee, true), callee, true);
      FreshIsSound(CallerEnd, Pairs(CallerEnd, direct), virtual + returned, e);
      IncomingMember(g, SourcesOf(g, callee, false), callee, false, e);
      IncomingMember(g, SourcesOf(g, callee, true), callee, true, e);
      var deferred :| e in Incoming(g, SourcesOf(g, callee, deferred), callee, deferred);
      var s, i :| s in SourcesOf(g, callee, deferred) && i in Slots(g.t.inn, s) && EntersAt(g, i, callee, deferred, e);
      OfferedFromSource(g, i, callee, deferred, e);
      OfferedIsJustified(g, i, deferred, e);
    }
  }

  lemma JustifiedIsIncoming(g: Graph, i: nat, deferred: bool, e: EdgeRef)
    requires GraphOk(g) && Offers(g, i, deferred, e)
    ensures e in Incoming(g, SourcesOf(g, e.callee, deferred), e.callee, deferred)
  {
    OfferedFromSource(g, i, e.callee, deferred, e);
    IncomingMember(g, SourcesOf(g, e.callee, deferred), e.callee, deferred, e);
  }

  lemma JustifiedIsInCallerRefs(g: Graph, e: EdgeRef)
    requires GraphOk(g) && Justified(g, e)
    ensures exists f :: f in CallerRefs(g, e.callee) && Pair(f, CallerEnd) == Pair(e, CallerEnd)
  {
    var i :| Justifies(g, i, e);
    var direct := Direct(g.t, Slots(g.t.inn, e.callee));
    InSlots(g, e.callee, i);
    JustifiedIsOffered(g, i, e);
    DirectMember(g.t, Slots(g.t.inn, e.callee), e);
    if e in direct {
      assert e in CallerRefs(g, e.callee);
    } else {
      var deferred := Offers(g, i, true, e);
      JustifiedIsIncoming(g, i, deferred, e);
      var candidates := Incoming(g, SourcesOf(g, e.callee, false), e.callee, false)
        + Incoming(g, SourcesOf(g, e.callee, true), e.callee, true);
      FreshIsComplete(CallerEnd, Pairs(CallerEnd, direct), candidates, e);
      if Pair(e, CallerEnd) in Pairs(CallerEnd, direct) {
        var f :| f in direct && Pair(f, CallerEnd) == Pair(e, CallerEnd);
        assert f in CallerRefs(g, e.callee);
      } else {
        var f :| f in Fresh(CallerEnd, Pairs(CallerEnd, direct), candidates)
          && Pair(f, CallerEnd) == Pair(e, CallerEnd);
        assert f in CallerRefs(g, e.callee);
      }
    }
  }

  ghost predicate ShowsCall(edges: seq<EdgeRef>, caller: Id, callee: Id, site: Id) {
    exists e :: e in edges && e.caller == caller && e.callee == callee && e.callSite == site
  }

  /** The two queries are dual: a call is among the caller's callees exactly when it is among
      the callee's callers, synthesized calls included. */
  lemma QueriesAreDual(g: Graph, caller: Id, callee: Id, site: Id)
    requires GraphOk(g)
    ensures ShowsCall(CalleeRefs(g, caller), caller, callee, site) <==>
      ShowsCall(CallerRefs(g, callee), caller, callee, site)
  {
    if ShowsCall(CalleeRefs(g, caller), caller, callee, site) {
      var e :| e in CalleeRefs(g, caller) && e.caller == caller && e.callee == callee && e.callSite == site;
      CalleeRefsAreJustified(g, caller, e);
      JustifiedIsInCallerRefs(g, e);
      var f :| f in CallerRefs(g, callee) && Pair(f, CallerEnd) == Pair(e, CallerEnd);
      CallerRefsAreJustified(g, callee, f);
    }
    if ShowsCall(CallerRefs(g, callee), caller, callee, site) {
      var e :| e in CallerRefs(g, callee) && e.caller == caller && e.callee == callee && e.callSite == site;
      CallerRefsAreJustified(g, callee, e);
      JustifiedIsInCalleeRefs(g, e);
      var f :| f in CalleeRefs(g, caller) && Pair(f, CalleeEnd) == Pair(e, CalleeEnd);
      CalleeRefsAreJustified(g, caller, f);
    }
  }

  lemma {:induction false} DirectIsDistinct(t: Tables, list: seq<nat>)
    requires IndexOk(t) && Distinct(list)
    ensures Distinct(Direct(t, list))
  {
    if list != [] {
      var init, i := list[..|list| - 1], list[|list| - 1];
      DirectIsDistinct(t, init);
      if Live(t, i) {
        var e := t.edges[i].key;
        DirectMember(t, init, e);
        assert e !in Direct(t, init);
        DistinctConcat(Direct(t, init), [e]);
      }
    }
  }

  /** callerRefsOf never lists an edge twice. */
  lemma CallerRefsAreDistinct(g: Graph, callee: Id)
    requires GraphOk(g)
    ensures Distinct(CallerRefs(g, callee))
  {
    var list := Slots(g.t.inn, callee);
    assert Adjacency(g.t, CalleeEnd) == g.t.inn;
    assert Distinct(list);
    DirectIsDistinct(g.t, list);
    var direct := Direct(g.t, list);
    var candidates := Incoming(g, SourcesOf(g, callee, false), callee, false)
      + Incoming(g, SourcesOf(g, callee, true), callee, true);
    FreshIsDistinct(CallerEnd, Pairs(CallerEnd, direct), candidates);
    forall e | e in direct ensures e !in Fresh(CallerEnd, Pairs(CallerEnd, direct), candidates) {
      if e in Fresh(CallerEnd, Pairs(CallerEnd, direct), candidates) {
        FreshIsSound(CallerEnd, Pairs(CallerEnd, direct), candidates, e);
      }
    }
    DistinctConcat(direct, Fresh(CallerEnd, Pairs(CallerEnd, direct), candidates));
  }
}

/** The answers of the two edge queries in terms of what is stored: which edges they show, with
    which fields, each how often and in which order (src/callgraph/CallGraph.cpp:215-354). */
module QueryAnswers {
  import opened EdgeTypes
  import opened Sequences
  import opened EdgeTables
  import R = Relations
  import opened GraphQueries

  // ---- what may be shown --------------------------------------------------------------------------

  ghost predicate Stored(g: Graph, e: EdgeRef) {
    exists i :: 0 <= i < |g.t.edges| && g.t.edges[i].key == e && g.t.edges[i].refs > 0
  }

  /** Every pair of neighbours on the path is related. */
  ghost predicate Linked(m: map<Id, seq<Id>>, path: seq<Id>) {
    forall i :: 0 <= i < |path| - 1 ==> LinkedAt(m, path[i], path[i + 1])
  }

  ghost predicate LinkedAt(m: map<Id, seq<Id>>, a: Id, b: Id) {
    a in m && b in m[a]
  }

  /** One method overrides another, directly or through methods in between. */
  ghost predicate OverriddenBy(g: Graph, base: Id, method_: Id) {
    exists path: seq<Id> ::
      |path| > 1 && path[0] == base && path[|path| - 1] == method_ && Linked(g.overrides.fwd, path)
  }

  /** Shown for a stored dispatch: the same call, to an override of its static target. */
  ghost predicate DispatchOf(g: Graph, k: EdgeRef, e: EdgeRef) {
    && Stored(g, k) && k.kind == VirtualDispatch && k.confidence == Plausible
    && e.caller == k.caller && e.callSite == k.callSite && e.kind == VirtualDispatch && e.confidence == Plausible
    && e.execContext == k.execContext && e.indirectionDepth == k.indirectionDepth
    && e.callee != k.callee && OverriddenBy(g, k.callee, e.callee)
  }

  /** Shown for a stored call of a function that returns functions: the same call, to a function
      returned; one that starts a thread of its own is a thread entry. */
  ghost predicate DeferralOf(g: Graph, k: EdgeRef, e: EdgeRef) {
    && Stored(g, k) && k.kind == FunctionPointerReturn
    && e.caller == k.caller && e.callSite == k.callSite && e.confidence == k.confidence
    && e.execContext == k.execContext && e.indirectionDepth == k.indirectionDepth
    && (k.execContext == Synchronous ==> e.kind == FunctionPointer)
    && (k.execContext != Synchronous ==> e.kind == ThreadEntry)
    && LinkedAt(g.returned.fwd, k.callee, e.callee)
  }

  ghost predicate IsDirect(g: Graph, e: EdgeRef) {
    Stored(g, e) && e.kind != FunctionPointerReturn
  }

  ghost predicate IsDispatch(g: Graph, e: EdgeRef) {
    exists k :: DispatchOf(g, k, e)
  }

  ghost predicate IsDeferral(g: Graph, e: EdgeRef) {
    exists k :: DeferralOf(g, k, e)
  }

  // ---- reachability as paths -----------------------------------------------------------------------

  lemma {:induction false} PathOfSteps(m: map<Id, seq<Id>>, a: Id, b: Id, k: nat) returns (path: seq<Id>)
    requires R.Steps(m, a, b, k)
    ensures |path| == k + 1 && path[0] == a && path[k] == b && Linked(m, path)
    decreases k
  {
    if k == 0 {
      path := [a];
    } else {
      var c: Id :| R.Related(m, a, c) && R.Steps(m, c, b, k - 1);
      var rest := PathOfSteps(m, c, b, k - 1);
      path := [a] + rest;
      forall i | 0 <= i < |path| - 1 ensures LinkedAt(m, path[i], path[i + 1]) {
        if i > 0 {
          assert LinkedAt(m, rest[i - 1], rest[i]);
        }
      }
    }
  }

  lemma {:induction false} StepsOfPath(m: map<Id, seq<Id>>, path: seq<Id>)
    requires path != [] && Linked(m, path)
    ensures R.Steps(m, path[0], path[|path| - 1], |path| - 1)
    decreases |path|
  {
    if |path| > 1 {
      var rest := path[1..];
      forall i | 0 <= i < |rest| - 1 ensures LinkedAt(m, rest[i], rest[i + 1]) {
        assert LinkedAt(m, path[i + 1], path[i + 2]);
      }
      StepsOfPath(m, rest);
      assert LinkedAt(m, path[0], path[1]) && R.Related(m, path[0], path[1]);
    }
  }

  lemma ReachesIsPath(m: map<Id, seq<Id>>, a: Id, b: Id)
    requires a != b
    ensures R.Reaches(m, a, b) <==>
      exists path: seq<Id> :: |path| > 1 && path[0] == a && path[|path| - 1] == b && Linked(m, path)
  {
    if R.Reaches(m, a, b) {
      var k: nat :| R.Steps(m, a, b, k);
      var path := PathOfSteps(m, a, b, k);
    }
    if path: seq<Id> :| |path| > 1 && path[0] == a && path[|path| - 1] == b && Linked(m, path) {
      StepsOfPath(m, path);
    }
  }

  lemma OfferIsDispatch(g: Graph, i: nat, e: EdgeRef)
    ensures Offers(g, i, false, e) <==> Live(g.t, i) && DispatchOf(g, g.t.edges[i].key, e)
  {
    if Live(g.t, i) {
      var k := g.t.edges[i].key;
      assert Stored(g, k);
      R.ClosureIsReachable(g.overrides.fwd, k.callee, e.callee);
      if e.callee != k.callee {
        ReachesIsPath(g.overrides.fwd, k.callee, e.callee);
      }
      hide Linked, R.Reaches;
    }
  }

  lemma OfferIsDeferral(g: Graph, i: nat, e: EdgeRef)
    ensures Offers(g, i, true, e) <==> Live(g.t, i) && DeferralOf(g, g.t.edges[i].key, e)
  {
    if Live(g.t, i) {
      assert Stored(g, g.t.edges[i].key);
    }
  }

  lemma StoredSlot(g: Graph, e: EdgeRef)
    ensures Stored(g, e) <==> exists i: nat :: Live(g.t, i) && g.t.edges[i].key == e
  {
    if i :| 0 <= i < |g.t.edges| && g.t.edges[i].key == e && g.t.edges[i].refs > 0 {
      assert Live(g.t, i);
    }
  }

  // ---- what is shown ------------------------------------------------------------------------------------

  lemma {:induction false} FreshSplit(end: End, seen: set<(Id, Id)>, a: seq<EdgeRef>, b: seq<EdgeRef>)
    ensures Fresh(end, seen, a + b) == Fresh(end, seen, a) + Fresh(end, seen + Pairs(end, a), b)
    decreases |a|
  {
    hide Pairs, Pair;
    PairsFirst(end, a);
    if a == [] {
      assert a + b == b && seen + {} == seen;
    } else {
      var p := Pair(a[0], end);
      var seen' := if p in seen then seen else seen + {p};
      FreshSplit(end, seen', a[1..], b);
      assert (a + b)[1..] == a[1..] + b && (a + b)[0] == a[0];
      assert seen' + Pairs(end, a[1..]) == seen + Pairs(end, a);
      if p !in seen {
        assert [a[0]] + (Fresh(end, seen', a[1..]) + Fresh(end, seen + Pairs(end, a), b))
            == [a[0]] + Fresh(end, seen', a[1..]) + Fresh(end, seen + Pairs(end, a), b);
      }
    }
  }

  lemma PairsFirst(end: End, a: seq<EdgeRef>)
    ensures Pairs(end, a) == if a == [] then {} else {Pair(a[0], end)} + Pairs(end, a[1..])
  {
    if a != [] {
      assert a == [a[0]] + a[1..];
    }
  }

  /** Of one call site and far end at most one edge. */
  ghost predicate OncePerCall(end: End, edges: seq<EdgeRef>) {
    forall i, j :: 0 <= i < j < |edges| ==> !SamePair(end, edges[i], edges[j])
  }

  ghost predicate SamePair(end: End, e: EdgeRef, f: EdgeRef) {
    e.callSite == f.callSite && if end == CallerEnd then e.caller == f.caller else e.callee == f.callee
  }

  lemma PairIs(end: End, e: EdgeRef, f: EdgeRef)
    ensures Pair(e, end) == Pair(f, end) <==> SamePair(end, e, f)
  {
  }

  lemma {:induction false} FreshOnce(end: End, seen: set<(Id, Id)>, candidates: seq<EdgeRef>)
    ensures OncePerCall(end, Fresh(end, seen, candidates))
    decreases |candidates|
  {
    if candidates != [] {
      var c := candidates[0];
      if Pair(c, end) in seen {
        FreshOnce(end, seen, candidates[1..]);
      } else {
        var rest := Fresh(end, seen + {Pair(c, end)}, candidates[1..]);
        FreshOnce(end, seen + {Pair(c, end)}, candidates[1..]);
        forall j | 0 <= j < |rest| ensures !SamePair(end, c, rest[j]) {
          FreshIsSound(end, seen + {Pair(c, end)}, candidates[1..], rest[j]);
          PairIs(end, c, rest[j]);
        }
      }
    }
  }

  /** An edge shown in place of another: the same call site and far end. */
  ghost predicate Covered(end: End, shown: seq<EdgeRef>, e: EdgeRef) {
    exists f :: f in shown && SamePair(end, e, f)
  }

  /** Three parts: stored edges; then for dispatches one edge for each call not covered by what was
      seen; then the same for deferred calls. */
  ghost predicate InParts(g: Graph, end: End, shown: seq<EdgeRef>, stored: seq<EdgeRef>, seen: seq<EdgeRef>,
                          dispatched: seq<EdgeRef>, deferred: seq<EdgeRef>, n: Id)
  {
    && shown == stored + dispatched + deferred && Distinct(stored)
    && (forall e :: e in stored <==> IsDirect(g, e) && At(end, e) == n)
    && OncePerCall(end, dispatched + deferred)
    && (forall e :: e in dispatched ==> IsDispatch(g, e) && At(end, e) == n && !Covered(end, seen, e))
    && (forall e :: e in deferred ==> IsDeferral(g, e) && At(end, e) == n && !Covered(end, seen + dispatched, e))
    && (forall e :: IsDispatch(g, e) && At(end, e) == n ==> Covered(end, seen + dispatched, e))
    && (forall e :: IsDeferral(g, e) && At(end, e) == n ==> Covered(end, seen + dispatched + deferred, e))
  }

  /** The near end of the query whose far end is `end`. */
  ghost function At(end: End, e: EdgeRef): Id {
    match end
    case CallerEnd => e.callee
    case CalleeEnd => e.caller
  }

  /** What the pairs seen first stand for. */
  ghost predicate SeenIs(end: End, seen: set<(Id, Id)>, edges: seq<EdgeRef>) {
    forall e :: Pair(e, end) in seen <==> Covered(end, edges, e)
  }

  lemma FreshParts(end: End, seen: set<(Id, Id)>, edges: seq<EdgeRef>, a: seq<EdgeRef>, b: seq<EdgeRef>)
    requires SeenIs(end, seen, edges)
    ensures var x, y := Fresh(end, seen, a), Fresh(end, seen + Pairs(end, a), b);
      && Fresh(end, seen, a + b) == x + y && OncePerCall(end, x + y)
      && (forall e :: e in x ==> e in a && !Covered(end, edges, e))
      && (forall e :: e in y ==> e in b && !Covered(end, edges + x, e))
      && (forall e :: e in a ==> Covered(end, edges + x, e))
      && (forall e :: e in b ==> Covered(end, edges + x + y, e))
  {
    var x, y := Fresh(end, seen, a), Fresh(end, seen + Pairs(end, a), b);
    FreshSplit(end, seen, a, b);
    FreshOnce(end, seen, a + b);
    forall e | e in x ensures e in a && !Covered(end, edges, e) {
      FreshIsSound(end, seen, a, e);
    }
    forall e | e in a ensures Covered(end, edges + x, e) {
      FreshIsComplete(end, seen, a, e);
      CoveredBy(end, edges, x, e);
    }
    forall e ensures Pair(e, end) in seen + Pairs(end, a) <==> Covered(end, edges + x, e) {
      SeenAfter(end, seen, edges, a, e);
    }
    forall e | e in y ensures e in b && !Covered(end, edges + x, e) {
      FreshIsSound(end, seen + Pairs(end, a), b, e);
    }
    forall e | e in b ensures Covered(end, edges + x + y, e) {
      FreshIsComplete(end, seen + Pairs(end, a), b, e);
      CoveredBy(end, edges + x, y, e);
    }
  }

  lemma CoveredBy(end: End, edges: seq<EdgeRef>, x: seq<EdgeRef>, e: EdgeRef)
    ensures Covered(end, edges, e) ==> Covered(end, edges + x, e)
    ensures (exists f :: f in x && Pair(f, end) == Pair(e, end)) ==> Covered(end, edges + x, e)
    ensures Covered(end, edges + x, e) <==> Covered(end, edges, e) || Covered(end, x, e)
  {
    if f :| f in x && Pair(f, end) == Pair(e, end) {
      PairIs(end, e, f);
      assert f in edges + x;
    }
    if f :| f in edges && SamePair(end, e, f) {
      assert f in edges + x;
    }
    if f :| f in x && SamePair(end, e, f) {
      assert f in edges + x;
    }
  }

  lemma SeenAfter(end: End, seen: set<(Id, Id)>, edges: seq<EdgeRef>, a: seq<EdgeRef>, e: EdgeRef)
    requires SeenIs(end, seen, edges)
    ensures Pair(e, end) in seen + Pairs(end, a) <==> Covered(end, edges + Fresh(end, seen, a), e)
  {
    var x := Fresh(end, seen, a);
    CoveredBy(end, edges, x, e);
    if Pair(e, end) in Pairs(end, a) {
      var c :| c in a && Pair(c, end) == Pair(e, end);
      FreshIsComplete(end, seen, a, c);
    }
    if Covered(end, x, e) {
      var f :| f in x && SamePair(end, e, f);
      FreshIsSound(end, seen, a, f);
      PairIs(end, e, f);
    }
  }

  // ---- the callees of a caller ------------------------------------------------------------------------------

  ghost function StoredDispatches(edges: seq<EdgeRef>): seq<EdgeRef> {
    if edges == [] then []
    else (if edges[0].kind == VirtualDispatch then [edges[0]] else []) + StoredDispatches(edges[1..])
  }

  lemma {:induction false} StoredDispatchesHas(edges: seq<EdgeRef>)
    ensures forall e :: e in StoredDispatches(edges) <==> e in edges && e.kind == VirtualDispatch
  {
    if edges != [] {
      StoredDispatchesHas(edges[1..]);
      assert edges == [edges[0]] + edges[1..];
    }
  }

  /** calleeRefsOf: the stored edges of the caller but deferred ones, each once; for every plausible
      dispatch and every override one edge, unless a dispatch to it is stored; for every deferred
      call and every function returned one edge, unless a dispatch to it is shown. */
  lemma CalleesInParts(g: Graph, caller: Id) returns (stored: seq<EdgeRef>, dispatched: seq<EdgeRef>,
                                                      deferred: seq<EdgeRef>)
    requires GraphOk(g)
    ensures InParts(g, CalleeEnd, CalleeRefs(g, caller), stored, StoredDispatches(stored), dispatched, deferred, caller)
  {
    var list := Slots(g.t.out, caller);
    stored := Direct(g.t, list);
    var seen := DispatchPairs(stored);
    var a, b := Outgoing(g, list, false), Outgoing(g, list, true);
    dispatched, deferred := Fresh(CalleeEnd, seen, a), Fresh(CalleeEnd, seen + Pairs(CalleeEnd, a), b);
    DispatchesSeen(stored);
    assert Adjacency(g.t, CallerEnd) == g.t.out;
    DirectIsDistinct(g.t, list);
    hide Direct, Outgoing, Fresh, GraphOk, Distinct, IsDirect, IsDispatch, IsDeferral, InParts, SeenIs, DispatchPairs;
    forall e ensures e in stored <==> IsDirect(g, e) && At(CalleeEnd, e) == caller { DirectOut(g, caller, e); }
    forall e ensures e in a <==> IsDispatch(g, e) && At(CalleeEnd, e) == caller { DispatchedOut(g, caller, e); }
    forall e ensures e in b <==> IsDeferral(g, e) && At(CalleeEnd, e) == caller { DeferredOut(g, caller, e); }
    Assembled(g, CalleeEnd, stored, seen, StoredDispatches(stored), a, b, caller);
  }

  lemma Assembled(g: Graph, end: End, stored: seq<EdgeRef>, seen: set<(Id, Id)>, edges: seq<EdgeRef>,
                  a: seq<EdgeRef>, b: seq<EdgeRef>, n: Id)
    requires SeenIs(end, seen, edges) && Distinct(stored)
    requires forall e :: e in stored <==> IsDirect(g, e) && At(end, e) == n
    requires forall e :: e in a <==> IsDispatch(g, e) && At(end, e) == n
    requires forall e :: e in b <==> IsDeferral(g, e) && At(end, e) == n
    ensures InParts(g, end, stored + Fresh(end, seen, a + b), stored, edges, Fresh(end, seen, a),
                    Fresh(end, seen + Pairs(end, a), b), n)
  {
    FreshParts(end, seen, edges, a, b);
    hide Fresh, Pairs, SeenIs, Covered, OncePerCall, Distinct, IsDirect, IsDispatch, IsDeferral, At;
    var x, y := Fresh(end, seen, a), Fresh(end, seen + Pairs(end, a), b);
    assert stored + (x + y) == stored + x + y;
  }

  lemma DispatchesSeen(stored: seq<EdgeRef>)
    ensures SeenIs(CalleeEnd, DispatchPairs(stored), StoredDispatches(stored))
  {
    StoredDispatchesHas(stored);
    forall e ensures Pair(e, CalleeEnd) in DispatchPairs(stored) <==> Covered(CalleeEnd, StoredDispatches(stored), e) {
      if f :| f in stored && f.kind == VirtualDispatch && Pair(f, CalleeEnd) == Pair(e, CalleeEnd) {
        PairIs(CalleeEnd, e, f);
      }
    }
  }

  lemma DirectOut(g: Graph, caller: Id, e: EdgeRef)
    requires GraphOk(g)
    ensures e in Direct(g.t, Slots(g.t.out, caller)) <==> IsDirect(g, e) && e.caller == caller
  {
    DirectMember(g.t, Slots(g.t.out, caller), e);
    StoredSlot(g, e);
    forall i: nat ensures i in Slots(g.t.out, caller) <==> Live(g.t, i) && g.t.edges[i].key.caller == caller {
      OutSlots(g, caller, i);
    }
  }

  lemma DispatchedOut(g: Graph, caller: Id, e: EdgeRef)
    requires GraphOk(g)
    ensures e in Outgoing(g, Slots(g.t.out, caller), false) <==> IsDispatch(g, e) && e.caller == caller
  {
    OutgoingMember(g, Slots(g.t.out, caller), false, e);
    forall i: nat ensures i in Slots(g.t.out, caller) <==> Live(g.t, i) && g.t.edges[i].key.caller == caller {
      OutSlots(g, caller, i);
    }
    forall i: nat ensures Offers(g, i, false, e) <==> Live(g.t, i) && DispatchOf(g, g.t.edges[i].key, e) {
      OfferIsDispatch(g, i, e);
    }
    hide Offers, GraphOk, OverriddenBy;
    if k :| DispatchOf(g, k, e) {
      StoredSlot(g, k);
    }
  }

  lemma DeferredOut(g: Graph, caller: Id, e: EdgeRef)
    requires GraphOk(g)
    ensures e in Outgoing(g, Slots(g.t.out, caller), true) <==> IsDeferral(g, e) && e.caller == caller
  {
    OutgoingMember(g, Slots(g.t.out, caller), true, e);
    forall i: nat ensures i in Slots(g.t.out, caller) <==> Live(g.t, i) && g.t.edges[i].key.caller == caller {
      OutSlots(g, caller, i);
    }
    forall i: nat ensures Offers(g, i, true, e) <==> Live(g.t, i) && DeferralOf(g, g.t.edges[i].key, e) {
      OfferIsDeferral(g, i, e);
    }
    hide Offers, GraphOk;
    if k :| DeferralOf(g, k, e) {
      StoredSlot(g, k);
    }
  }

  /** No callee edge is listed twice, unless a stored one is also what a deferred call becomes. */
  lemma CalleesOnce(g: Graph, caller: Id)
    requires GraphOk(g) && forall e :: IsDirect(g, e) && IsDeferral(g, e) ==> e.caller != caller
    ensures Distinct(CalleeRefs(g, caller))
  {
    hide GraphOk, IsDirect, IsDeferral, IsDispatch, CalleeRefs, InParts, StoredDispatches;
    var stored, dispatched, deferred := CalleesInParts(g, caller);
    var shown := CalleeRefs(g, caller);
    PartsDistinct(g, CalleeEnd, shown, stored, StoredDispatches(stored), dispatched, deferred, caller);
    forall e | e in stored ensures e !in dispatched + deferred {
      OneOfTwo(g, shown, stored, dispatched, deferred, caller, e);
    }
    DistinctConcat(stored, dispatched + deferred);
  }

  lemma PartsDistinct(g: Graph, end: End, shown: seq<EdgeRef>, stored: seq<EdgeRef>, seen: seq<EdgeRef>,
                      dispatched: seq<EdgeRef>, deferred: seq<EdgeRef>, n: Id)
    requires InParts(g, end, shown, stored, seen, dispatched, deferred, n)
    ensures Distinct(stored) && Distinct(dispatched + deferred) && shown == stored + (dispatched + deferred)
  {
    hide Covered, IsDirect, IsDispatch, IsDeferral, At;
    assert OncePerCall(end, dispatched + deferred);
    forall i, j | 0 <= i < j < |dispatched + deferred|
      ensures (dispatched + deferred)[i] != (dispatched + deferred)[j]
    {
      assert !SamePair(end, (dispatched + deferred)[i], (dispatched + deferred)[j]);
    }
    hide OncePerCall, Distinct;
    assert stored + (dispatched + deferred) == stored + dispatched + deferred;
  }

  lemma OneOfTwo(g: Graph, shown: seq<EdgeRef>, stored: seq<EdgeRef>, dispatched: seq<EdgeRef>, deferred: seq<EdgeRef>,
                 n: Id, e: EdgeRef)
    requires InParts(g, CalleeEnd, shown, stored, StoredDispatches(stored), dispatched, deferred, n) && e in stored
    ensures IsDirect(g, e) && e.caller == n && e !in dispatched && (e in deferred ==> IsDeferral(g, e))
  {
    StoredDispatchesHas(stored);
    hide IsDirect, IsDeferral, OncePerCall, Distinct, StoredDispatches;
    if e.kind == VirtualDispatch {
      assert e in StoredDispatches(stored) && SamePair(CalleeEnd, e, e);
      assert Covered(CalleeEnd, StoredDispatches(stored), e);
    }
  }

  /** Such an edge is listed twice when nothing else is shown for its call. */
  lemma CalleesTwice(g: Graph, e: EdgeRef)
    requires GraphOk(g) && IsDirect(g, e) && IsDeferral(g, e)
    requires forall f :: SamePair(CalleeEnd, e, f) && f.caller == e.caller ==>
      !IsDispatch(g, f) && (IsDirect(g, f) ==> f.kind != VirtualDispatch) && (IsDeferral(g, f) ==> f == e)
    ensures !Distinct(CalleeRefs(g, e.caller))
  {
    hide GraphOk, IsDirect, IsDeferral, IsDispatch, CalleeRefs, InParts, StoredDispatches, Distinct;
    var stored, dispatched, deferred := CalleesInParts(g, e.caller);
    var shown := CalleeRefs(g, e.caller);
    InBoth(g, shown, stored, dispatched, deferred, e);
    var i :| 0 <= i < |stored| && stored[i] == e;
    var j :| 0 <= j < |deferred| && deferred[j] == e;
    PartsDistinct(g, CalleeEnd, shown, stored, StoredDispatches(stored), dispatched, deferred, e.caller);
    assert shown[i] == e && shown[|stored| + |dispatched| + j] == e;
    SameTwice(shown, i, |stored| + |dispatched| + j);
  }

  lemma SameTwice(s: seq<EdgeRef>, i: nat, j: nat)
    requires i < j < |s| && s[i] == s[j]
    ensures !Distinct(s)
  {
  }

  lemma InBoth(g: Graph, shown: seq<EdgeRef>, stored: seq<EdgeRef>, dispatched: seq<EdgeRef>, deferred: seq<EdgeRef>,
               e: EdgeRef)
    requires InParts(g, CalleeEnd, shown, stored, StoredDispatches(stored), dispatched, deferred, e.caller)
    requires IsDirect(g, e) && IsDeferral(g, e)
    requires forall f :: SamePair(CalleeEnd, e, f) && f.caller == e.caller ==>
      !IsDispatch(g, f) && (IsDirect(g, f) ==> f.kind != VirtualDispatch) && (IsDeferral(g, f) ==> f == e)
    ensures e in stored && e in deferred
  {
    StoredDispatchesHas(stored);
    hide IsDirect, IsDeferral, IsDispatch, OncePerCall, Distinct, StoredDispatches;
    assert At(CalleeEnd, e) == e.caller && Covered(CalleeEnd, StoredDispatches(stored) + dispatched + deferred, e);
    var f :| f in StoredDispatches(stored) + dispatched + deferred && SamePair(CalleeEnd, e, f);
    assert At(CalleeEnd, f) == f.caller;
  }

  // ---- the callers of a callee ------------------------------------------------------------------------------

  /** callerRefsOf: the same from the other end, where every stored edge shown covers its call. */
  lemma CallersInParts(g: Graph, callee: Id) returns (stored: seq<EdgeRef>, dispatched: seq<EdgeRef>,
                                                      deferred: seq<EdgeRef>)
    requires GraphOk(g)
    ensures InParts(g, CallerEnd, CallerRefs(g, callee), stored, stored, dispatched, deferred, callee)
  {
    var list := Slots(g.t.inn, callee);
    stored := Direct(g.t, list);
    var seen := Pairs(CallerEnd, stored);
    var a, b := Incoming(g, SourcesOf(g, callee, false), callee, false),
      Incoming(g, SourcesOf(g, callee, true), callee, true);
    dispatched, deferred := Fresh(CallerEnd, seen, a), Fresh(CallerEnd, seen + Pairs(CallerEnd, a), b);
    AllSeen(stored);
    assert Adjacency(g.t, CalleeEnd) == g.t.inn;
    DirectIsDistinct(g.t, list);
    hide Direct, Incoming, Fresh, GraphOk, Distinct, IsDirect, IsDispatch, IsDeferral, InParts, SeenIs, Pairs;
    forall e ensures e in stored <==> IsDirect(g, e) && At(CallerEnd, e) == callee { DirectIn(g, callee, e); }
    forall e ensures e in a <==> IsDispatch(g, e) && At(CallerEnd, e) == callee { DispatchedIn(g, callee, e); }
    forall e ensures e in b <==> IsDeferral(g, e) && At(CallerEnd, e) == callee { DeferredIn(g, callee, e); }
    Assembled(g, CallerEnd, stored, seen, stored, a, b, callee);
  }

  lemma AllSeen(stored: seq<EdgeRef>)
    ensures SeenIs(CallerEnd, Pairs(CallerEnd, stored), stored)
  {
    forall e ensures Pair(e, CallerEnd) in Pairs(CallerEnd, stored) <==> Covered(CallerEnd, stored, e) {
      if f :| f in stored && Pair(f, CallerEnd) == Pair(e, CallerEnd) {
        PairIs(CallerEnd, e, f);
      }
      if f :| f in stored && SamePair(CallerEnd, e, f) {
        PairIs(CallerEnd, e, f);
      }
    }
  }

  lemma DirectIn(g: Graph, callee: Id, e: EdgeRef)
    requires GraphOk(g)
    ensures e in Direct(g.t, Slots(g.t.inn, callee)) <==> IsDirect(g, e) && e.callee == callee
  {
    DirectMember(g.t, Slots(g.t.inn, callee), e);
    StoredSlot(g, e);
    forall i: nat ensures i in Slots(g.t.inn, callee) <==> Live(g.t, i) && g.t.edges[i].key.callee == callee {
      InSlots(g, callee, i);
    }
  }

  lemma EnteringIsOffer(g: Graph, callee: Id, deferred: bool, e: EdgeRef)
    requires GraphOk(g)
    ensures e in Incoming(g, SourcesOf(g, callee, deferred), callee, deferred) <==>
      e.callee == callee && exists i: nat :: Offers(g, i, deferred, e)
  {
    IncomingMember(g, SourcesOf(g, callee, deferred), callee, deferred, e);
    forall i: nat
      ensures ((exists s :: s in SourcesOf(g, callee, deferred) && i in Slots(g.t.inn, s))
               && EntersAt(g, i, callee, deferred, e)) <==> (Offers(g, i, deferred, e) && e.callee == callee)
    {
      OfferedFromSource(g, i, callee, deferred, e);
    }
  }

  lemma DispatchedIn(g: Graph, callee: Id, e: EdgeRef)
    requires GraphOk(g)
    ensures e in Incoming(g, SourcesOf(g, callee, false), callee, false) <==> IsDispatch(g, e) && e.callee == callee
  {
    EnteringIsOffer(g, callee, false, e);
    forall i: nat ensures Offers(g, i, false, e) <==> Live(g.t, i) && DispatchOf(g, g.t.edges[i].key, e) {
      OfferIsDispatch(g, i, e);
    }
    hide Offers, GraphOk, OverriddenBy;
    if k :| DispatchOf(g, k, e) {
      StoredSlot(g, k);
    }
  }

  lemma DeferredIn(g: Graph, callee: Id, e: EdgeRef)
    requires GraphOk(g)
    ensures e in Incoming(g, SourcesOf(g, callee, true), callee, true) <==> IsDeferral(g, e) && e.callee == callee
  {
    EnteringIsOffer(g, callee, true, e);
    forall i: nat ensures Offers(g, i, true, e) <==> Live(g.t, i) && DeferralOf(g, g.t.edges[i].key, e) {
      OfferIsDeferral(g, i, e);
    }
    hide Offers, GraphOk;
    if k :| DeferralOf(g, k, e) {
      StoredSlot(g, k);
    }
  }
}

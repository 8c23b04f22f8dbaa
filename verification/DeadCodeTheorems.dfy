/** What the liveness walk finds: the least solution of its mutual rules, on the graphs that are
    built (src/anneal/DeadCodeAnalyzer.cpp:28-192). */
module DeadCodeTheorems {
  import opened EdgeTypes
  import opened DeadCode

  // ---- part of every solution ------------------------------------------------------------------------

  lemma UnlockedMore(code: Code, usr: string, c: set<string>, c': set<string>)
    requires Unlocked(code, usr, c) && c <= c'
    ensures Unlocked(code, usr, c')
  {
  }

  lemma BelowFollow(code: Code, roots: set<string>, optimistic: bool, alive: set<string>, constructed: set<string>,
                    n: string, e: Callee)
    requires Below(code, roots, optimistic, alive, constructed) && n in alive && e in code.CalleesOf(n)
    requires Follows(code, optimistic, e, constructed)
    ensures Below(code, roots, optimistic, alive + {e.usr}, constructed)
  {
    hide Unlocked;
    forall a, c | Closed(code, roots, optimistic, false, a, c) ensures e.usr in a {
      if Unlocked(code, e.usr, constructed) {
        UnlockedMore(code, e.usr, constructed, c);
      }
      assert Obeyed(code, optimistic, false, a, c, e);
    }
  }

  lemma BelowConstruct(code: Code, roots: set<string>, optimistic: bool, alive: set<string>, constructed: set<string>,
                       n: string, e: Callee)
    requires Below(code, roots, optimistic, alive, constructed) && n in alive && e in code.CalleesOf(n)
    requires Constructs(code, e)
    ensures Below(code, roots, optimistic, alive, constructed + {code.ClassOf(e.usr)})
  {
    hide Unlocked;
    forall a, c | Closed(code, roots, optimistic, false, a, c) ensures code.ClassOf(e.usr) in c {
      assert Obeyed(code, optimistic, false, a, c, e);
    }
  }

  // ---- what every step keeps -----------------------------------------------------------------------------

  /** The edge's class is recorded, and its target alive, or waiting when it may have to. */
  ghost predicate Served(code: Code, optimistic: bool, w: Walk, e: Callee) {
    && (Constructs(code, e) ==> code.ClassOf(e.usr) in w.constructed)
    && (e.confidence == Proven || (optimistic && e.kind != VirtualDispatch) ==> e.usr in w.alive)
    && (optimistic && e.kind == VirtualDispatch && e.confidence == Plausible ==>
          e.usr in w.alive || e.usr in w.deferred)
  }

  ghost predicate AllServed(code: Code, optimistic: bool, w: Walk, edges: seq<Callee>) {
    forall e :: e in edges ==> Served(code, optimistic, w, e)
  }

  /** Every alive function is queued, has all its edges served, or is the current one. */
  ghost predicate Progress(code: Code, optimistic: bool, w: Walk, visited: set<string>, current: set<string>) {
    && w.alive == visited + current + (set n | n in w.queue)
    && forall n :: n in visited ==> AllServed(code, optimistic, w, code.CalleesOf(n))
  }

  ghost predicate Awaited(code: Code, w: Walk, d: string) {
    exists n, e :: n in w.alive && e in code.CalleesOf(n) && e.usr == d && e.kind == VirtualDispatch
  }

  /** A waiting target is one some alive function dispatches to, and is locked unless a class
      was constructed since. */
  ghost predicate Waiting(code: Code, optimistic: bool, w: Walk) {
    && (forall d :: d in w.deferred ==> optimistic && Awaited(code, w, d))
    && (!w.changed ==> forall d :: d in w.deferred ==> !Unlocked(code, d, w.constructed))
  }

  ghost predicate WalkOk(code: Code, roots: set<string>, optimistic: bool, w: Walk, visited: set<string>,
                         current: set<string>) {
    && roots <= w.alive && Below(code, roots, optimistic, w.alive, w.constructed)
    && Progress(code, optimistic, w, visited, current) && Waiting(code, optimistic, w)
  }

  /** Nothing is forgotten: a waiting target may only become alive. */
  ghost predicate Grows(w: Walk, w': Walk) {
    && w.alive <= w'.alive && w.constructed <= w'.constructed && (w.changed ==> w'.changed)
    && forall d :: d in w.deferred ==> d in w'.deferred || d in w'.alive
  }

  lemma ServedGrows(code: Code, optimistic: bool, w: Walk, w': Walk, visited: set<string>)
    requires Grows(w, w') && forall n :: n in visited ==> AllServed(code, optimistic, w, code.CalleesOf(n))
    ensures forall n :: n in visited ==> AllServed(code, optimistic, w', code.CalleesOf(n))
  {
    forall n, e | n in visited && e in code.CalleesOf(n) ensures Served(code, optimistic, w', e) {
      assert AllServed(code, optimistic, w, code.CalleesOf(n));
      assert Served(code, optimistic, w, e);
    }
  }

  lemma AwaitedGrows(code: Code, w: Walk, w': Walk, d: string)
    requires Grows(w, w') && Awaited(code, w, d)
    ensures Awaited(code, w', d)
  {
  }

  lemma NotedOk(code: Code, roots: set<string>, optimistic: bool, w: Walk, visited: set<string>, n: string, e: Callee)
    requires WalkOk(code, roots, optimistic, w, visited, {n}) && e in code.CalleesOf(n)
    ensures var w' := Noted(code, w, e);
      && WalkOk(code, roots, optimistic, w', visited, {n}) && Grows(w, w')
      && (Constructs(code, e) ==> code.ClassOf(e.usr) in w'.constructed)
  {
    var w' := Noted(code, w, e);
    if w' != w {
      BelowConstruct(code, roots, optimistic, w.alive, w.constructed, n, e);
      ServedGrows(code, optimistic, w, w', visited);
      hide Below, Served, Unlocked;
      forall d | d in w'.deferred ensures Awaited(code, w', d) {
        AwaitedGrows(code, w, w', d);
      }
    }
  }

  lemma FollowedOk(code: Code, roots: set<string>, optimistic: bool, w: Walk, visited: set<string>, n: string,
                   e: Callee)
    requires WalkOk(code, roots, optimistic, w, visited, {n}) && e in code.CalleesOf(n)
    requires Constructs(code, e) ==> code.ClassOf(e.usr) in w.constructed
    ensures var w' := Followed(code, optimistic, w, e);
      WalkOk(code, roots, optimistic, w', visited, {n}) && Grows(w, w') && Served(code, optimistic, w', e)
  {
    hide Below, Unlocked;
    var w' := Followed(code, optimistic, w, e);
    if Follows(code, optimistic, e, w.constructed) {
      BelowFollow(code, roots, optimistic, w.alive, w.constructed, n, e);
      assert w.alive + {e.usr} == w'.alive;
    }
    ServedGrows(code, optimistic, w, w', visited);
    forall d | d in w'.deferred ensures Awaited(code, w', d) {
      if d in w.deferred {
        AwaitedGrows(code, w, w', d);
      }
    }
  }

  lemma {:induction false} VisitedOk(code: Code, roots: set<string>, optimistic: bool, w: Walk, visited: set<string>,
                                     n: string, k: nat)
    requires WalkOk(code, roots, optimistic, w, visited, {n}) && k <= |code.CalleesOf(n)|
    ensures var edges := code.CalleesOf(n)[..k]; var w' := Visited(code, optimistic, w, edges);
      && WalkOk(code, roots, optimistic, w', visited, {n}) && Grows(w, w')
      && AllServed(code, optimistic, w', edges)
    decreases k
  {
    hide WalkOk, Constructs, Served, Noted, Followed;
    var edges := code.CalleesOf(n);
    if k == 0 {
      assert edges[..0] == [];
    } else {
      VisitedOk(code, roots, optimistic, w, visited, n, k - 1);
      assert edges[..k][..k - 1] == edges[..k - 1];
      var w0, e := Visited(code, optimistic, w, edges[..k - 1]), edges[k - 1];
      NotedOk(code, roots, optimistic, w0, visited, n, e);
      FollowedOk(code, roots, optimistic, Noted(code, w0, e), visited, n, e);
      AllServedOne(code, optimistic, w0, Visited(code, optimistic, w, edges[..k]), edges, k - 1);
    }
  }

  lemma AllServedOne(code: Code, optimistic: bool, w: Walk, w': Walk, edges: seq<Callee>, i: nat)
    requires i < |edges| && Grows(w, w') && AllServed(code, optimistic, w, edges[..i])
    requires Served(code, optimistic, w', edges[i])
    ensures AllServed(code, optimistic, w', edges[..i + 1])
  {
    forall e | e in edges[..i + 1] ensures Served(code, optimistic, w', e) {
      if e in edges[..i] {
        assert Served(code, optimistic, w, e);
      }
    }
  }

  /** All edges of the current function: it is done. */
  lemma VisitDone(code: Code, roots: set<string>, optimistic: bool, w: Walk, visited: set<string>, n: string)
    requires WalkOk(code, roots, optimistic, w, visited, {n})
    ensures var w' := Visited(code, optimistic, w, code.CalleesOf(n));
      WalkOk(code, roots, optimistic, w', visited + {n}, {}) && Grows(w, w')
  {
    hide Visited, Served, Below;
    VisitedOk(code, roots, optimistic, w, visited, n, |code.CalleesOf(n)|);
    assert code.CalleesOf(n)[..|code.CalleesOf(n)|] == code.CalleesOf(n);
  }

  lemma {:induction false} DrainedOk(code: Code, roots: set<string>, optimistic: bool, w: Walk, visited: set<string>)
    returns (visited': set<string>)
    requires WalkOk(code, roots, optimistic, w, visited, {})
    ensures var w' := Drained(code, optimistic, w);
      WalkOk(code, roots, optimistic, w', visited', {}) && Grows(w, w')
    decreases Usrs(code) - w.alive, |w.queue|
  {
    hide Visited, Below, Served, Awaited;
    visited' := visited;
    if w.queue != [] {
      var n, next := w.queue[0], w.(queue := w.queue[1..]);
      Popped(code, optimistic, w, next, visited, n);
      VisitDone(code, roots, optimistic, next, visited, n);
      VisitedAdvances(code, optimistic, next, n);
      visited' := DrainedOk(code, roots, optimistic, Visited(code, optimistic, next, code.CalleesOf(n)), visited + {n});
    }
  }

  lemma Popped(code: Code, optimistic: bool, w: Walk, w': Walk, visited: set<string>, current: string)
    requires w.queue != [] && current == w.queue[0] && w' == w.(queue := w.queue[1..])
    requires Progress(code, optimistic, w, visited, {}) && Waiting(code, optimistic, w)
    ensures Progress(code, optimistic, w', visited, {current}) && Waiting(code, optimistic, w') && Grows(w, w')
  {
    assert w.queue == [current] + w'.queue;
    ServedGrows(code, optimistic, w, w', visited);
    hide Unlocked;
    forall d | d in w'.deferred ensures Awaited(code, w', d) {
      AwaitedGrows(code, w, w', d);
    }
  }

  lemma BelowUnlock(code: Code, roots: set<string>, w: Walk, d: string)
    requires Below(code, roots, true, w.alive, w.constructed) && Awaited(code, w, d) && Unlocked(code, d, w.constructed)
    ensures Below(code, roots, true, w.alive + {d}, w.constructed)
  {
    var n, e :| n in w.alive && e in code.CalleesOf(n) && e.usr == d && e.kind == VirtualDispatch;
    BelowFollow(code, roots, true, w.alive, w.constructed, n, e);
  }

  /** What the first waiting targets have come to. */
  ghost predicate Rechecked(code: Code, w: Walk, w': Walk, i: nat)
    requires i <= |w.deferred|
  {
    && w'.constructed == w.constructed && w'.changed == w.changed && w.alive <= w'.alive
    && (forall d :: d in w.deferred[..i] ==> d in w'.deferred || d in w'.alive)
    && (forall d :: d in w'.deferred ==> d in w.deferred && !Unlocked(code, d, w.constructed))
    && (forall q :: q in w'.alive && q !in w.alive ==> q in w'.queue)
    && (forall q :: q in w'.queue ==> q in w'.alive && q !in w.alive)
  }

  lemma RetryOne(code: Code, roots: set<string>, w: Walk, w0: Walk, i: nat)
    requires i < |w.deferred| && Rechecked(code, w, w0, i) && w.queue == []
    requires Below(code, roots, true, w0.alive, w0.constructed) && Awaited(code, w, w.deferred[i])
    ensures var d := w.deferred[i];
      var w' := if Unlocked(code, d, w0.constructed) then Enlivened(w0, d) else w0.(deferred := w0.deferred + [d]);
      Rechecked(code, w, w', i + 1) && Below(code, roots, true, w'.alive, w'.constructed)
  {
    var d := w.deferred[i];
    if Unlocked(code, d, w0.constructed) {
      assert Awaited(code, w0, d);
      BelowUnlock(code, roots, w0, d);
      assert w0.alive + {d} == Enlivened(w0, d).alive;
    }
    assert w.deferred[..i + 1] == w.deferred[..i] + [d];
    hide Below, Unlocked;
  }

  lemma {:induction false} RetriedSome(code: Code, roots: set<string>, w: Walk, i: nat)
    requires i <= |w.deferred| && w.queue == [] && Below(code, roots, true, w.alive, w.constructed)
    requires forall d :: d in w.deferred ==> Awaited(code, w, d)
    ensures var w' := Retried(code, w, w.deferred[..i]);
      Rechecked(code, w, w', i) && Below(code, roots, true, w'.alive, w'.constructed)
    decreases i
  {
    hide Below, Unlocked, Awaited;
    if i == 0 {
      assert w.deferred[..0] == [];
    } else {
      RetriedSome(code, roots, w, i - 1);
      assert w.deferred[..i][..i - 1] == w.deferred[..i - 1];
      hide Rechecked;
      assert w.deferred[i - 1] in w.deferred;
      RetryOne(code, roots, w, Retried(code, w, w.deferred[..i - 1]), i - 1);
    }
  }

  /** After a retry nothing waits that is unlocked. */
  lemma RetriedOk(code: Code, roots: set<string>, w: Walk, visited: set<string>)
    requires WalkOk(code, roots, true, w, visited, {}) && w.queue == []
    ensures var w' := Retried(code, w, w.deferred);
      && WalkOk(code, roots, true, w', visited, {}) && Grows(w, w')
      && forall d :: d in w'.deferred ==> !Unlocked(code, d, w'.constructed)
  {
    hide Below, Unlocked, Served, Retried, Awaited;
    var w' := Retried(code, w, w.deferred);
    RetriedSome(code, roots, w, |w.deferred|);
    assert w.deferred[..|w.deferred|] == w.deferred;
    ServedGrows(code, true, w, w', visited);
    forall d | d in w'.deferred ensures Awaited(code, w', d) {
      AwaitedGrows(code, w, w', d);
    }
  }

  lemma {:induction false} RoundsOk(code: Code, roots: set<string>, optimistic: bool, w: Walk, visited: set<string>)
    requires WalkOk(code, roots, optimistic, w, visited, {}) && (!w.changed ==> w.queue == [])
    requires forall d :: d in w.deferred ==> !Unlocked(code, d, w.constructed)
    ensures var w' := Rounds(code, optimistic, w);
      && Closed(code, roots, optimistic, true, w'.alive, w'.constructed)
      && Below(code, roots, optimistic, w'.alive, w'.constructed)
    decreases code.enclosing.Values - w.constructed, w.changed
  {
    hide Drained, Retried, Below, Progress, Unlocked, Awaited, Closed;
    if !w.changed {
      AtRest(code, roots, optimistic, w, visited);
    } else {
      var start := w.(changed := false);
      StartOfRound(code, roots, optimistic, w, visited);
      var visited' := DrainedOk(code, roots, optimistic, start, visited);
      var w' := Drained(code, optimistic, start);
      if w'.changed && optimistic {
        RetriedOk(code, roots, w', visited');
      }
      RoundAdvances(code, optimistic, w);
      RoundsOk(code, roots, optimistic, Round(code, optimistic, w), visited');
    }
  }

  lemma StartOfRound(code: Code, roots: set<string>, optimistic: bool, w: Walk, visited: set<string>)
    requires WalkOk(code, roots, optimistic, w, visited, {})
    requires forall d :: d in w.deferred ==> !Unlocked(code, d, w.constructed)
    ensures WalkOk(code, roots, optimistic, w.(changed := false), visited, {})
  {
    hide Below, Unlocked;
    var w' := w.(changed := false);
    forall n, e | n in visited && e in code.CalleesOf(n) ensures Served(code, optimistic, w', e) {
      assert AllServed(code, optimistic, w, code.CalleesOf(n));
      assert Served(code, optimistic, w, e);
    }
    forall d | d in w'.deferred ensures Awaited(code, w', d) {
      assert Awaited(code, w, d);
    }
  }

  lemma AtRest(code: Code, roots: set<string>, optimistic: bool, w: Walk, visited: set<string>)
    requires WalkOk(code, roots, optimistic, w, visited, {}) && w.queue == []
    requires forall d :: d in w.deferred ==> !Unlocked(code, d, w.constructed)
    ensures Closed(code, roots, optimistic, true, w.alive, w.constructed)
  {
    hide Below, Unlocked;
    forall n, e | n in w.alive && e in code.CalleesOf(n)
      ensures Obeyed(code, optimistic, true, w.alive, w.constructed, e) {
      assert AllServed(code, optimistic, w, code.CalleesOf(n));
      assert Served(code, optimistic, w, e);
    }
  }

  // ---- the roots ---------------------------------------------------------------------------------------------

  ghost function RootsOf(code: Code, names: seq<string>): set<string> {
    set n, u | n in names && u in code.UsrsForName(n) :: u
  }

  lemma {:induction false} EnlivenedAll(w: Walk, usrs: seq<string>)
    requires w.alive == set n | n in w.queue
    ensures var w' := AllEnlivened(w, usrs);
      w' == w.(alive := w'.alive, queue := w'.queue)
        && w'.alive == w.alive + (set u | u in usrs) == (set n | n in w'.queue)
  {
    if usrs != [] {
      EnlivenedAll(w, usrs[..|usrs| - 1]);
      assert usrs == usrs[..|usrs| - 1] + [usrs[|usrs| - 1]];
    }
  }

  /** Exactly the functions of the given names start alive, and queued. */
  lemma {:induction false} SeededOk(code: Code, names: seq<string>)
    ensures var w := Seeded(code, names);
      && w.alive == RootsOf(code, names) == (set n | n in w.queue)
      && w.constructed == {} && w.deferred == [] && w.changed
  {
    if names != [] {
      var init, last := names[..|names| - 1], names[|names| - 1];
      SeededOk(code, init);
      EnlivenedAll(Seeded(code, init), code.UsrsForName(last));
      assert names == init + [last];
    }
  }

  /** The walk ends with a solution of the mutual rules, tried-once edges aside, that is part of
      every solution. */
  lemma WalkedIsBetween(code: Code, optimistic: bool, names: seq<string>)
    ensures var w := Walked(code, optimistic, names);
      && Closed(code, RootsOf(code, names), optimistic, true, w.alive, w.constructed)
      && Below(code, RootsOf(code, names), optimistic, w.alive, w.constructed)
  {
    hide Rounds, Closed;
    SeededOk(code, names);
    var w := Seeded(code, names);
    assert Below(code, RootsOf(code, names), optimistic, w.alive, w.constructed) by {
      RootsAreBelow(code, RootsOf(code, names), optimistic);
    }
    RoundsOk(code, RootsOf(code, names), optimistic, w, {});
  }

  lemma RootsAreBelow(code: Code, roots: set<string>, optimistic: bool)
    ensures Below(code, roots, optimistic, roots, {})
  {
  }

  // ---- what the sets are ---------------------------------------------------------------------------------------

  /** The solution: closed, and contained in every closed pair. */
  ghost predicate IsLeast(code: Code, roots: set<string>, optimistic: bool, alive: set<string>,
                          constructed: set<string>) {
    Closed(code, roots, optimistic, false, alive, constructed) && Below(code, roots, optimistic, alive, constructed)
  }

  ghost predicate NoneTriedOnce(code: Code, optimistic: bool) {
    forall n, e :: e in code.CalleesOf(n) ==> !TriedOnce(optimistic, e)
  }

  ghost predicate NoneConstructs(code: Code) {
    forall n, e :: e in code.CalleesOf(n) ==> !Constructs(code, e)
  }

  /** A tried-once edge that the finished walk has lost: its target is unlocked and not alive. */
  ghost predicate Lost(code: Code, optimistic: bool, w: Walk, n: string, e: Callee) {
    && n in w.alive && e in code.CalleesOf(n) && TriedOnce(optimistic, e)
    && Unlocked(code, e.usr, w.constructed) && e.usr !in w.alive
  }

  /** The walk finds the least solution if and only if it loses no tried-once edge. */
  lemma LeastUnlessLost(code: Code, optimistic: bool, names: seq<string>)
    ensures var w := Walked(code, optimistic, names);
      IsLeast(code, RootsOf(code, names), optimistic, w.alive, w.constructed)
      <==> forall n, e :: !Lost(code, optimistic, w, n, e)
  {
    WalkedIsBetween(code, optimistic, names);
    var roots, w := RootsOf(code, names), Walked(code, optimistic, names);
    hide Walked, Below, Unlocked;
    if Closed(code, roots, optimistic, false, w.alive, w.constructed) {
      forall n, e ensures !Lost(code, optimistic, w, n, e) {
        if n in w.alive && e in code.CalleesOf(n) {
          assert Obeyed(code, optimistic, false, w.alive, w.constructed, e);
        }
      }
    }
    if forall n, e :: !Lost(code, optimistic, w, n, e) {
      forall n, e | n in w.alive && e in code.CalleesOf(n)
        ensures Obeyed(code, optimistic, false, w.alive, w.constructed, e)
      {
        assert Obeyed(code, optimistic, true, w.alive, w.constructed, e);
        assert !Lost(code, optimistic, w, n, e);
      }
    }
  }

  /** Without constructor calls to a class nothing is ever constructed. */
  lemma NothingConstructed(code: Code, optimistic: bool, names: seq<string>)
    requires NoneConstructs(code)
    ensures Walked(code, optimistic, names).constructed == {}
  {
    WalkedIsBetween(code, optimistic, names);
    var roots, w := RootsOf(code, names), Walked(code, optimistic, names);
    hide Walked, Unlocked;
    assert Closed(code, roots, optimistic, false, roots + Usrs(code), {}) by {
      forall n, e | n in roots + Usrs(code) && e in code.CalleesOf(n)
        ensures Obeyed(code, optimistic, false, roots + Usrs(code), {}, e)
      {
        assert n in code.callees && e in code.callees[n];
        assert !Constructs(code, e);
      }
    }
  }

  /** Where no virtual edge has unknown confidence, and always in pessimistic mode, the walk
      finds the least solution; so it does where no class is constructed. */
  lemma WalkFindsTheLeast(code: Code, optimistic: bool, names: seq<string>)
    requires NoneTriedOnce(code, optimistic) || NoneConstructs(code)
    ensures var w := Walked(code, optimistic, names);
      IsLeast(code, RootsOf(code, names), optimistic, w.alive, w.constructed)
  {
    LeastUnlessLost(code, optimistic, names);
    if NoneConstructs(code) {
      NothingConstructed(code, optimistic, names);
    }
    hide Walked;
    var w := Walked(code, optimistic, names);
    forall n, e ensures !Lost(code, optimistic, w, n, e) {}
  }

  /** The same calls in any order. */
  ghost predicate SameCalls(a: Code, b: Code) {
    && a.enclosing == b.enclosing
    && (forall n, e :: e in a.CalleesOf(n) <==> e in b.CalleesOf(n))
    && (forall u, c :: c in a.ClassesForImpl(u) <==> c in b.ClassesForImpl(u))
  }

  lemma SameClosed(a: Code, b: Code, roots: set<string>, optimistic: bool, alive: set<string>, constructed: set<string>)
    requires SameCalls(a, b) && Closed(a, roots, optimistic, false, alive, constructed)
    ensures Closed(b, roots, optimistic, false, alive, constructed)
  {
    forall n, e | n in alive && e in b.CalleesOf(n) ensures Obeyed(b, optimistic, false, alive, constructed, e) {
      assert e in a.CalleesOf(n) && Obeyed(a, optimistic, false, alive, constructed, e);
    }
  }

  /** The result does not depend on the order of edges, classes or roots. */
  lemma OrderDoesNotMatter(a: Code, b: Code, optimistic: bool, names: seq<string>, names': seq<string>)
    requires SameCalls(a, b) && NoneTriedOnce(a, optimistic) && RootsOf(a, names) == RootsOf(b, names')
    ensures var w, w' := Walked(a, optimistic, names), Walked(b, optimistic, names');
      w.alive == w'.alive && w.constructed == w'.constructed
  {
    WalkFindsTheLeast(a, optimistic, names);
    WalkFindsTheLeast(b, optimistic, names');
    var roots, w, w' := RootsOf(a, names), Walked(a, optimistic, names), Walked(b, optimistic, names');
    hide Walked;
    SameClosed(a, b, roots, optimistic, w.alive, w.constructed);
    SameClosed(b, a, roots, optimistic, w'.alive, w'.constructed);
  }

  /** Alive on proven calls alone is alive optimistically, whatever the edges. */
  lemma PessimisticWithinOptimistic(code: Code, names: seq<string>)
    ensures Walked(code, false, names).alive <= Walked(code, true, names).alive
  {
    WalkedIsBetween(code, false, names);
    WalkedIsBetween(code, true, names);
    var roots, w := RootsOf(code, names), Walked(code, true, names);
    hide Walked;
    assert Closed(code, roots, false, false, w.alive, w.constructed) by {
      hide Below, Unlocked;
      forall n, e | n in w.alive && e in code.CalleesOf(n)
        ensures Obeyed(code, false, false, w.alive, w.constructed, e)
      {
        assert Obeyed(code, true, true, w.alive, w.constructed, e);
      }
    }
  }

  /** A chain of proven calls from a root. */
  ghost predicate ProvenChain(code: Code, roots: set<string>, chain: seq<string>) {
    && chain != [] && chain[0] in roots
    && forall i :: 0 <= i < |chain| - 1 ==> ProvenCall(code, chain[i], chain[i + 1])
  }

  ghost predicate ProvenCall(code: Code, n: string, m: string) {
    exists e :: e in code.CalleesOf(n) && e.usr == m && e.confidence == Proven
  }

  ghost predicate Reached(code: Code, roots: set<string>, u: string) {
    exists chain :: ProvenChain(code, roots, chain) && chain[|chain| - 1] == u
  }

  lemma {:induction false} ChainStaysIn(code: Code, roots: set<string>, alive: set<string>, c: set<string>,
                                        chain: seq<string>)
    requires Closed(code, roots, false, false, alive, c) && ProvenChain(code, roots, chain)
    ensures chain[|chain| - 1] in alive
  {
    var k := |chain| - 1;
    if k > 0 {
      ChainStaysIn(code, roots, alive, c, chain[..k]);
      assert ProvenCall(code, chain[k - 1], chain[k]);
      var e :| e in code.CalleesOf(chain[k - 1]) && e.usr == chain[k] && e.confidence == Proven;
      assert Obeyed(code, false, false, alive, c, e);
    }
  }

  lemma ReachedStep(code: Code, roots: set<string>, n: string, m: string)
    requires Reached(code, roots, n) && ProvenCall(code, n, m)
    ensures Reached(code, roots, m)
  {
    var chain :| ProvenChain(code, roots, chain) && chain[|chain| - 1] == n;
    assert ProvenChain(code, roots, chain + [m]);
  }

  /** What is reached within a solution is a solution itself. */
  lemma ReachedIsClosed(code: Code, roots: set<string>, alive: set<string>, c: set<string>)
    requires Closed(code, roots, false, false, alive, c)
    ensures Closed(code, roots, false, false, (set n | n in alive && Reached(code, roots, n)), c)
  {
    var within := set n | n in alive && Reached(code, roots, n);
    forall n | n in roots ensures n in within {
      assert ProvenChain(code, roots, [n]) && [n][|[n]| - 1] == n;
    }
    forall n, e | n in within && e in code.CalleesOf(n) ensures Obeyed(code, false, false, within, c, e) {
      assert Obeyed(code, false, false, alive, c, e);
      if e.confidence == Proven {
        assert ProvenCall(code, n, e.usr);
        ReachedStep(code, roots, n, e.usr);
      }
    }
  }

  /** Pessimistically alive is reachable from a root over proven calls. */
  lemma PessimisticIsReachability(code: Code, names: seq<string>, u: string)
    ensures u in Walked(code, false, names).alive <==> Reached(code, RootsOf(code, names), u)
  {
    WalkFindsTheLeast(code, false, names);
    var roots, alive, c := RootsOf(code, names), Walked(code, false, names).alive,
      Walked(code, false, names).constructed;
    hide Walked, ProvenCall;
    ReachedIsClosed(code, roots, alive, c);
    if Reached(code, roots, u) {
      var chain :| ProvenChain(code, roots, chain) && chain[|chain| - 1] == u;
      ChainStaysIn(code, roots, alive, c, chain);
    }
  }

  // ---- which kinds of edges are safe ---------------------------------------------------------------------------

  type EdgeClass = (EdgeKind, Confidence)

  ghost predicate UsesOnly(code: Code, allowed: set<EdgeClass>) {
    forall n, e :: e in code.CalleesOf(n) ==> (e.kind, e.confidence) in allowed
  }

  /** Whatever the edges of these classes, in whatever order, and whatever the roots. */
  ghost predicate AlwaysLeast(allowed: set<EdgeClass>) {
    forall code, names :: UsesOnly(code, allowed) ==> var w := Walked(code, true, names);
      IsLeast(code, RootsOf(code, names), true, w.alive, w.constructed)
  }

  const VIRTUAL := Callee("target", VirtualDispatch, Unknown)

  function Make(confidence: Confidence): Callee {
    Callee("make", ConstructorCall, confidence)
  }

  /** `main` dispatches to `target` before it makes an object of its class. */
  function Late(confidence: Confidence): Code {
    Code(map["main" := [VIRTUAL, Make(confidence)]], map[], map["target" := "Class", "make" := "Class"],
         map["main" := ["main"]])
  }

  /** The walk over it stops without `target`. */
  lemma LateWalk(confidence: Confidence)
    ensures var w := Walked(Late(confidence), true, ["main"]);
      w.alive == {"main", "make"} && w.constructed == {"Class"}
  {
    var code := Late(confidence);
    assert "main"[0] == 'm' && "target"[0] == 't' && "main"[2] == 'i' && "make"[2] == 'k';
    var w0 := Seeded(code, ["main"]);
    assert w0 == Walk(["main"], {"main"}, {}, [], true) by {
      assert ["main"][..0] == [] && code.UsrsForName("main") == ["main"];
      var none := Walk([], {}, {}, [], true);
      assert Seeded(code, []) == none && AllEnlivened(none, []) == none;
      assert AllEnlivened(none, ["main"]) == Enlivened(none, "main");
    }
    var w1 := Walk(["make"], {"main", "make"}, {"Class"}, [], true);
    var start := Walk([], {"main"}, {}, [], false);
    assert Visited(code, true, start, code.CalleesOf("main")) == w1 by {
      var edges := code.CalleesOf("main");
      assert edges == [VIRTUAL, Make(confidence)] && edges[..1] == [VIRTUAL] && edges[..1][..0] == [];
      assert Visited(code, true, start, edges[..1]) == start;
    }
    var w2 := Walk([], {"main", "make"}, {"Class"}, [], true);
    assert Drained(code, true, w0.(changed := false)) == w2 by {
      assert ["main"][1..] == [] && ["make"][1..] == [] && code.CalleesOf("make") == [];
      assert Visited(code, true, w2, []) == w2 && Drained(code, true, w2) == w2;
      assert Drained(code, true, w1) == Drained(code, true, w2);
      assert Drained(code, true, w0.(changed := false)) == Drained(code, true, w1);
    }
    assert Round(code, true, w0) == w2 && Round(code, true, w2) == w2.(changed := false);
    assert Rounds(code, true, w0) == Rounds(code, true, w2) == Rounds(code, true, w2.(changed := false));
  }

  /** A virtual edge of unknown confidence, met before its class is constructed, is lost. */
  lemma UnknownEdgeIsLost(confidence: Confidence)
    ensures Lost(Late(confidence), true, Walked(Late(confidence), true, ["main"]), "main", VIRTUAL)
  {
    LateWalk(confidence);
    var code := Late(confidence);
    assert code.CalleesOf("main") == [VIRTUAL, Make(confidence)];
    assert code.ClassOf("target") == "Class";
  }

  /** The walk finds the least solution on all graphs with these classes of edges if and only if
      they have no virtual edges of unknown confidence or no constructor calls. */
  lemma LeastExactly(allowed: set<EdgeClass>)
    ensures AlwaysLeast(allowed)
       <==> (VirtualDispatch, Unknown) !in allowed || forall c :: (ConstructorCall, c) !in allowed
  {
    if (VirtualDispatch, Unknown) !in allowed || forall c :: (ConstructorCall, c) !in allowed {
      forall code, names | UsesOnly(code, allowed)
        ensures var w := Walked(code, true, names);
          IsLeast(code, RootsOf(code, names), true, w.alive, w.constructed)
      {
        WalkFindsTheLeast(code, true, names);
      }
    } else {
      var c :| (ConstructorCall, c) in allowed;
      var code := Late(c);
      assert UsesOnly(code, allowed);
      LeastUnlessLost(code, true, ["main"]);
      UnknownEdgeIsLost(c);
    }
  }
}

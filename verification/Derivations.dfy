/** Which functions the liveness walk finds alive, as derivations: from the entry points step by
    step, each by one call (src/anneal/DeadCodeAnalyzer.cpp:38-163). */
module Derivations {
  import opened EdgeTypes
  import opened DeadCode
  import opened DeadCodeTheorems

  datatype Fact = IsAlive(usr: string) | IsConstructed(class_: string)

  ghost predicate IsRoot(code: Code, names: seq<string>, u: string) {
    exists n :: n in names && n in code.byName && u in code.byName[n]
  }

  ghost predicate Calls(code: Code, n: string, e: Callee) {
    n in code.callees && e in code.callees[n]
  }

  /** The class is one the function implements something for, or the one it is declared in. */
  ghost predicate ServesClass(code: Code, u: string, c: string) {
    || (u in code.impls && c in code.impls[u])
    || (u in code.enclosing && code.enclosing[u] == c && c != "")
  }

  /** A call that makes its target alive: a proven one, one that is not virtual, or a virtual one
      of a class known to be constructed; a virtual one of unknown confidence only if `lenient`. */
  ghost predicate Enlivens(code: Code, lenient: bool, known: seq<Fact>, e: Callee) {
    || e.confidence == Proven
    || e.kind != VirtualDispatch
    || ((e.confidence == Plausible || lenient)
        && exists c :: IsConstructed(c) in known && ServesClass(code, e.usr, c))
  }

  /** A call of a constructor of the class. */
  ghost predicate Builds(code: Code, e: Callee, c: string) {
    e.kind == ConstructorCall && e.usr in code.enclosing && code.enclosing[e.usr] == c
  }

  ghost predicate FollowsFrom(code: Code, names: seq<string>, lenient: bool, known: seq<Fact>, f: Fact) {
    match f
    case IsAlive(u) =>
      IsRoot(code, names, u)
      || exists n, e :: IsAlive(n) in known && Calls(code, n, e) && e.usr == u && Enlivens(code, lenient, known, e)
    case IsConstructed(c) =>
      c != "" && exists n, e :: IsAlive(n) in known && Calls(code, n, e) && Builds(code, e, c)
  }

  /** Every fact follows from those before it. */
  ghost predicate Derivation(code: Code, names: seq<string>, lenient: bool, facts: seq<Fact>) {
    forall i :: 0 <= i < |facts| ==> FollowsFrom(code, names, lenient, facts[..i], facts[i])
  }

  ghost predicate Derivable(code: Code, names: seq<string>, lenient: bool, f: Fact) {
    exists facts :: Derivation(code, names, lenient, facts) && f in facts
  }

  // ---- derivations can be joined -------------------------------------------------------------------

  lemma MoreKnown(code: Code, names: seq<string>, lenient: bool, known: seq<Fact>, more: seq<Fact>, f: Fact)
    requires FollowsFrom(code, names, lenient, known, f) && forall x :: x in known ==> x in more
    ensures FollowsFrom(code, names, lenient, more, f)
  {
    match f
    case IsAlive(u) =>
      if !IsRoot(code, names, u) {
        var n, e :| IsAlive(n) in known && Calls(code, n, e) && e.usr == u && Enlivens(code, lenient, known, e);
        assert Enlivens(code, lenient, more, e);
      }
    case IsConstructed(c) =>
  }

  lemma Joined(code: Code, names: seq<string>, lenient: bool, a: seq<Fact>, b: seq<Fact>)
    requires Derivation(code, names, lenient, a) && Derivation(code, names, lenient, b)
    ensures Derivation(code, names, lenient, a + b)
  {
    hide FollowsFrom;
    forall i | 0 <= i < |a + b| ensures FollowsFrom(code, names, lenient, (a + b)[..i], (a + b)[i]) {
      if i < |a| {
        assert (a + b)[..i] == a[..i] && FollowsFrom(code, names, lenient, a[..i], a[i]);
      } else {
        assert (a + b)[..i] == a + b[..i - |a|] && FollowsFrom(code, names, lenient, b[..i - |a|], b[i - |a|]);
        MoreKnown(code, names, lenient, b[..i - |a|], a + b[..i - |a|], b[i - |a|]);
      }
    }
  }

  lemma OneMoreFact(code: Code, names: seq<string>, lenient: bool, facts: seq<Fact>, f: Fact)
    requires Derivation(code, names, lenient, facts) && FollowsFrom(code, names, lenient, facts, f)
    ensures Derivable(code, names, lenient, f)
  {
    hide FollowsFrom;
    var more := facts + [f];
    forall i | 0 <= i < |more| ensures FollowsFrom(code, names, lenient, more[..i], more[i]) {
      if i < |facts| {
        assert more[..i] == facts[..i] && FollowsFrom(code, names, lenient, facts[..i], facts[i]);
      } else {
        assert more[..i] == facts;
      }
    }
    assert f in more;
  }

  /** Two derivable facts have a common derivation. */
  lemma Together(code: Code, names: seq<string>, lenient: bool, f: Fact, g: Fact) returns (facts: seq<Fact>)
    requires Derivable(code, names, lenient, f) && Derivable(code, names, lenient, g)
    ensures Derivation(code, names, lenient, facts) && f in facts && g in facts
  {
    var a :| Derivation(code, names, lenient, a) && f in a;
    var b :| Derivation(code, names, lenient, b) && g in b;
    Joined(code, names, lenient, a, b);
    facts := a + b;
  }

  // ---- the walk finds what can be derived -------------------------------------------------------------

  lemma UnlockedBy(code: Code, u: string, constructed: set<string>)
    ensures Unlocked(code, u, constructed) <==> exists c :: c in constructed && ServesClass(code, u, c)
  {
    if exists c :: c in code.ClassesForImpl(u) && c in constructed {
      var c :| c in code.ClassesForImpl(u) && c in constructed;
      assert ServesClass(code, u, c);
    } else if code.ClassOf(u) != "" && code.ClassOf(u) in constructed {
      assert ServesClass(code, u, code.ClassOf(u));
    }
  }

  lemma RootIs(code: Code, names: seq<string>, u: string)
    ensures u in RootsOf(code, names) <==> IsRoot(code, names, u)
  {
    if n :| n in names && n in code.byName && u in code.byName[n] {
      assert u in code.UsrsForName(n);
    }
  }

  /** Holds of the given sets. */
  ghost predicate HoldsIn(alive: set<string>, constructed: set<string>, f: Fact) {
    match f
    case IsAlive(u) => u in alive
    case IsConstructed(c) => c in constructed
  }

  ghost predicate AllHold(alive: set<string>, constructed: set<string>, facts: seq<Fact>) {
    forall x :: x in facts ==> HoldsIn(alive, constructed, x)
  }

  lemma FactHolds(code: Code, names: seq<string>, lenient: bool, alive: set<string>, constructed: set<string>,
                  known: seq<Fact>, f: Fact)
    requires Closed(code, RootsOf(code, names), true, !lenient, alive, constructed)
    requires AllHold(alive, constructed, known)
    requires FollowsFrom(code, names, lenient, known, f)
    ensures HoldsIn(alive, constructed, f)
  {
    match f
    case IsAlive(u) =>
      if IsRoot(code, names, u) {
        RootIs(code, names, u);
      } else {
        var n, e :| IsAlive(n) in known && Calls(code, n, e) && e.usr == u && Enlivens(code, lenient, known, e);
        assert HoldsIn(alive, constructed, IsAlive(n)) && e in code.CalleesOf(n);
        assert Obeyed(code, true, !lenient, alive, constructed, e);
        UnlockedBy(code, e.usr, constructed);
        if c :| IsConstructed(c) in known && ServesClass(code, e.usr, c) {
          assert HoldsIn(alive, constructed, IsConstructed(c));
        }
      }
    case IsConstructed(c) =>
      var n, e :| IsAlive(n) in known && Calls(code, n, e) && Builds(code, e, c);
      assert HoldsIn(alive, constructed, IsAlive(n)) && e in code.CalleesOf(n);
      assert Obeyed(code, true, !lenient, alive, constructed, e);
  }

  lemma DerivedAt(code: Code, names: seq<string>, lenient: bool, facts: seq<Fact>, i: nat)
    requires Derivation(code, names, lenient, facts) && i < |facts|
    ensures FollowsFrom(code, names, lenient, facts[..i], facts[i])
  {
  }

  lemma NothingHolds(alive: set<string>, constructed: set<string>, facts: seq<Fact>)
    ensures AllHold(alive, constructed, facts[..0])
  {
  }

  lemma OneMoreHolds(alive: set<string>, constructed: set<string>, facts: seq<Fact>, k: nat)
    requires k < |facts| && AllHold(alive, constructed, facts[..k]) && HoldsIn(alive, constructed, facts[k])
    ensures AllHold(alive, constructed, facts[..k + 1])
  {
    assert facts[..k + 1] == facts[..k] + [facts[k]];
    hide HoldsIn;
  }

  lemma {:induction false} FactsHold(code: Code, names: seq<string>, lenient: bool, alive: set<string>,
                                     constructed: set<string>, facts: seq<Fact>, k: nat)
    requires Closed(code, RootsOf(code, names), true, !lenient, alive, constructed)
    requires Derivation(code, names, lenient, facts) && k <= |facts|
    ensures AllHold(alive, constructed, facts[..k])
    decreases k
  {
    hide Derivation, Closed, FollowsFrom, HoldsIn, AllHold;
    if k == 0 {
      NothingHolds(alive, constructed, facts);
    } else {
      FactsHold(code, names, lenient, alive, constructed, facts, k - 1);
      DerivedAt(code, names, lenient, facts, k - 1);
      FactHolds(code, names, lenient, alive, constructed, facts[..k - 1], facts[k - 1]);
      OneMoreHolds(alive, constructed, facts, k - 1);
    }
  }

  /** What is derivable, within some sets that are closed, is closed itself. */
  lemma DerivableIsClosed(code: Code, names: seq<string>, alive: set<string>, constructed: set<string>)
    requires Closed(code, RootsOf(code, names), true, false, alive, constructed)
    ensures Closed(code, RootsOf(code, names), true, false,
                   (set u | u in alive && Derivable(code, names, true, IsAlive(u))),
                   (set c | c in constructed && Derivable(code, names, true, IsConstructed(c))))
  {
    var a := set u | u in alive && Derivable(code, names, true, IsAlive(u));
    var d := set c | c in constructed && Derivable(code, names, true, IsConstructed(c));
    hide Derivable;
    forall u | u in RootsOf(code, names) ensures u in a {
      RootIs(code, names, u);
      RootDerives(code, names, u);
    }
    forall n, e | n in a && e in code.CalleesOf(n) ensures Obeyed(code, true, false, a, d, e) {
      assert Calls(code, n, e) && Obeyed(code, true, false, alive, constructed, e);
      if Constructs(code, e) {
        BuildDerives(code, names, n, e);
      }
      if Follows(code, true, e, d) {
        UnlockedBy(code, e.usr, d);
        UnlockedBy(code, e.usr, constructed);
        hide Unlocked, ServesClass;
        CallDerives(code, names, n, e, d);
      }
    }
  }

  lemma RootDerives(code: Code, names: seq<string>, u: string)
    requires IsRoot(code, names, u)
    ensures Derivable(code, names, true, IsAlive(u))
  {
    assert Derivation(code, names, true, []);
    OneMoreFact(code, names, true, [], IsAlive(u));
  }

  lemma BuildDerives(code: Code, names: seq<string>, n: string, e: Callee)
    requires Derivable(code, names, true, IsAlive(n)) && Calls(code, n, e) && Constructs(code, e)
    ensures Derivable(code, names, true, IsConstructed(code.ClassOf(e.usr)))
  {
    hide Derivation;
    var facts :| Derivation(code, names, true, facts) && IsAlive(n) in facts;
    assert Builds(code, e, code.ClassOf(e.usr));
    OneMoreFact(code, names, true, facts, IsConstructed(code.ClassOf(e.usr)));
  }

  lemma CallDerives(code: Code, names: seq<string>, n: string, e: Callee, d: set<string>)
    requires Derivable(code, names, true, IsAlive(n)) && Calls(code, n, e) && Follows(code, true, e, d)
    requires forall c :: c in d ==> Derivable(code, names, true, IsConstructed(c))
    ensures Derivable(code, names, true, IsAlive(e.usr))
  {
    hide Derivation;
    var facts;
    if e.confidence == Proven || e.kind != VirtualDispatch {
      facts :| Derivation(code, names, true, facts) && IsAlive(n) in facts;
    } else {
      UnlockedBy(code, e.usr, d);
      var c :| c in d && ServesClass(code, e.usr, c);
      facts := Together(code, names, true, IsAlive(n), IsConstructed(c));
    }
    assert Enlivens(code, true, facts, e);
    OneMoreFact(code, names, true, facts, IsAlive(e.usr));
  }

  /** Optimistically alive is what can be derived; for virtual calls of unknown confidence, which
      are tried once only, between what can be derived without and with them. */
  lemma OptimisticIsDerivable(code: Code, names: seq<string>, u: string)
    ensures Derivable(code, names, false, IsAlive(u)) ==> u in Walked(code, true, names).alive
    ensures u in Walked(code, true, names).alive ==> Derivable(code, names, true, IsAlive(u))
  {
    WalkedIsBetween(code, true, names);
    var roots, w := RootsOf(code, names), Walked(code, true, names);
    hide Walked, FollowsFrom;
    if Derivable(code, names, false, IsAlive(u)) {
      var facts :| Derivation(code, names, false, facts) && IsAlive(u) in facts;
      FactsHold(code, names, false, w.alive, w.constructed, facts, |facts|);
      assert facts[..|facts|] == facts;
      assert HoldsIn(w.alive, w.constructed, IsAlive(u));
    }
    if u in w.alive {
      var everything := EverythingClosed(code, names);
      DerivableIsClosed(code, names, everything.0, everything.1);
    }
  }

  /** Some sets are closed: all functions that are roots or called, all classes. */
  lemma EverythingClosed(code: Code, names: seq<string>) returns (sets: (set<string>, set<string>))
    ensures Closed(code, RootsOf(code, names), true, false, sets.0, sets.1)
  {
    sets := (RootsOf(code, names) + Usrs(code), code.enclosing.Values);
    forall n, e | n in sets.0 && e in code.CalleesOf(n) ensures Obeyed(code, true, false, sets.0, sets.1, e) {
      assert n in code.callees && e in code.callees[n];
    }
  }

  ghost predicate NoUnknownDispatch(code: Code) {
    forall n, e :: Calls(code, n, e) ==> e.kind != VirtualDispatch || e.confidence != Unknown
  }

  lemma StrictIsLenient(code: Code, names: seq<string>, facts: seq<Fact>)
    requires NoUnknownDispatch(code) && Derivation(code, names, true, facts)
    ensures Derivation(code, names, false, facts)
  {
    hide FollowsFrom;
    forall i | 0 <= i < |facts| ensures FollowsFrom(code, names, false, facts[..i], facts[i]) {
      StrictStep(code, names, facts[..i], facts[i]);
    }
  }

  lemma StrictStep(code: Code, names: seq<string>, known: seq<Fact>, f: Fact)
    requires NoUnknownDispatch(code) && FollowsFrom(code, names, true, known, f)
    ensures FollowsFrom(code, names, false, known, f)
  {
    if f.IsAlive? && !IsRoot(code, names, f.usr) {
      var n, e :| IsAlive(n) in known && Calls(code, n, e) && e.usr == f.usr && Enlivens(code, true, known, e);
      assert Enlivens(code, false, known, e);
    }
  }

  /** Without such calls exactly what can be derived is alive. */
  lemma OptimisticExactly(code: Code, names: seq<string>, u: string)
    requires NoUnknownDispatch(code)
    ensures u in Walked(code, true, names).alive <==> Derivable(code, names, false, IsAlive(u))
  {
    OptimisticIsDerivable(code, names, u);
    hide Walked;
    if Derivable(code, names, true, IsAlive(u)) {
      var facts :| Derivation(code, names, true, facts) && IsAlive(u) in facts;
      StrictIsLenient(code, names, facts);
    }
  }

  // ---- proven calls ------------------------------------------------------------------------------------

  /** A path from an entry point over proven calls. */
  ghost predicate ProvenPath(code: Code, names: seq<string>, path: seq<string>) {
    && path != [] && IsRoot(code, names, path[0])
    && forall i :: 0 <= i < |path| - 1 ==> CallsProven(code, path[i], path[i + 1])
  }

  ghost predicate CallsProven(code: Code, n: string, m: string) {
    exists e :: Calls(code, n, e) && e.usr == m && e.confidence == Proven
  }

  /** Pessimistically alive is what such a path leads to. */
  lemma PessimisticExactly(code: Code, names: seq<string>, u: string)
    ensures u in Walked(code, false, names).alive <==>
      exists path :: ProvenPath(code, names, path) && path[|path| - 1] == u
  {
    PessimisticIsReachability(code, names, u);
    hide Walked;
    forall path: seq<string> ensures ProvenPath(code, names, path) <==> ProvenChain(code, RootsOf(code, names), path) {
      if path != [] {
        RootIs(code, names, path[0]);
      }
      forall n, m ensures CallsProven(code, n, m) <==> ProvenCall(code, n, m) {
        if e :| e in code.CalleesOf(n) && e.usr == m && e.confidence == Proven {
          assert Calls(code, n, e);
        }
        if e :| Calls(code, n, e) && e.usr == m && e.confidence == Proven {
          assert e in code.CalleesOf(n);
        }
      }
      hide CallsProven, ProvenCall;
    }
  }
}

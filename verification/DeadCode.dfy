/** Dead-code liveness: a worklist over call edges where a virtual target waits until its class
    is constructed (src/anneal/DeadCodeAnalyzer.cpp:28-163). */
module DeadCode {
  import opened EdgeTypes

  datatype Callee = Callee(usr: string, kind: EdgeKind, confidence: Confidence)

  /** What the walk asks the call graph: the out-edges of a function, the classes an
      implementation serves, the class a function is declared in ("" for none), and the
      functions of a display name. */
  datatype Code = Code(callees: map<string, seq<Callee>>, impls: map<string, seq<string>>,
                       enclosing: map<string, string>, byName: map<string, seq<string>>) {
    function CalleesOf(usr: string): seq<Callee> {
      if usr in callees then callees[usr] else []
    }

    function ClassesForImpl(usr: string): seq<string> {
      if usr in impls then impls[usr] else []
    }

    function ClassOf(usr: string): string {
      if usr in enclosing then enclosing[usr] else ""
    }

    function UsrsForName(name: string): seq<string> {
      if name in byName then byName[name] else []
    }
  }

  // ---- the rules ----------------------------------------------------------------------------------

  /** Some class through which the target can be reached is constructed. */
  predicate Unlocked(code: Code, usr: string, constructed: set<string>) {
    || (exists c :: c in code.ClassesForImpl(usr) && c in constructed)
    || (code.ClassOf(usr) != "" && code.ClassOf(usr) in constructed)
  }

  predicate Follows(code: Code, optimistic: bool, e: Callee, constructed: set<string>) {
    e.confidence == Proven
    || (optimistic && (e.kind == VirtualDispatch ==> Unlocked(code, e.usr, constructed)))
  }

  predicate Constructs(code: Code, e: Callee) {
    e.kind == ConstructorCall && code.ClassOf(e.usr) != ""
  }

  /** A virtual edge that is neither proven nor plausible: tried once, never deferred. */
  predicate TriedOnce(optimistic: bool, e: Callee) {
    optimistic && e.kind == VirtualDispatch && e.confidence == Unknown
  }

  /** Closed under the mutual rules: roots are alive, an alive function's followed targets are
      alive, and the classes its constructor edges build are constructed. `strict` leaves out
      the edges that are tried once. */
  ghost predicate Closed(code: Code, roots: set<string>, optimistic: bool, strict: bool, alive: set<string>,
                         constructed: set<string>) {
    && roots <= alive
    && forall n, e :: n in alive && e in code.CalleesOf(n) ==> Obeyed(code, optimistic, strict, alive, constructed, e)
  }

  ghost predicate Obeyed(code: Code, optimistic: bool, strict: bool, alive: set<string>, constructed: set<string>,
                         e: Callee) {
    && (Constructs(code, e) ==> code.ClassOf(e.usr) in constructed)
    && (Follows(code, optimistic, e, constructed) && !(strict && TriedOnce(optimistic, e)) ==> e.usr in alive)
  }

  /** Contained in every closed pair of sets. */
  ghost predicate Below(code: Code, roots: set<string>, optimistic: bool, alive: set<string>,
                        constructed: set<string>) {
    forall a, c :: Closed(code, roots, optimistic, false, a, c) ==> alive <= a && constructed <= c
  }

  // ---- the walk as a function ------------------------------------------------------------------------

  datatype Walk = Walk(queue: seq<string>, alive: set<string>, constructed: set<string>, deferred: seq<string>,
                       changed: bool)

  /** A function becomes alive: queued unless it was already. */
  function Enlivened(w: Walk, usr: string): Walk {
    if usr in w.alive then w else w.(alive := w.alive + {usr}, queue := w.queue + [usr])
  }

  /** The class of a constructor edge is constructed from now on. */
  function Noted(code: Code, w: Walk, e: Callee): Walk {
    if Constructs(code, e) && code.ClassOf(e.usr) !in w.constructed then
      w.(constructed := w.constructed + {code.ClassOf(e.usr)}, changed := true)
    else w
  }

  /** The edge is followed, deferred, or left. */
  function Followed(code: Code, optimistic: bool, w: Walk, e: Callee): Walk {
    if Follows(code, optimistic, e, w.constructed) then Enlivened(w, e.usr)
    else if optimistic && e.kind == VirtualDispatch && e.confidence == Plausible then
      w.(deferred := w.deferred + [e.usr])
    else w
  }

  /** All edges of the current function, in order. */
  function Visited(code: Code, optimistic: bool, w: Walk, edges: seq<Callee>): Walk {
    if edges == [] then w
    else
      var w0, e := Visited(code, optimistic, w, edges[..|edges| - 1]), edges[|edges| - 1];
      Followed(code, optimistic, Noted(code, w0, e), e)
  }

  /** Everything a walk can ever touch besides its roots. */
  ghost function Usrs(code: Code): set<string> {
    set k, e | k in code.callees && e in code.callees[k] :: e.usr
  }

  lemma {:induction false} VisitedMoves(code: Code, optimistic: bool, w: Walk, edges: seq<Callee>)
    ensures var w' := Visited(code, optimistic, w, edges);
      && w.alive <= w'.alive && (forall u :: u in w'.alive - w.alive ==> exists e :: e in edges && e.usr == u)
      && w.constructed <= w'.constructed && w'.constructed - w.constructed <= code.enclosing.Values
      && (w.changed ==> w'.changed) && (w'.changed && !w.changed ==> w.constructed < w'.constructed)
      && (w'.alive == w.alive ==> w'.queue == w.queue)
  {
    hide Follows;
    if edges != [] {
      var init, last := edges[..|edges| - 1], edges[|edges| - 1];
      VisitedMoves(code, optimistic, w, init);
      var w0, w' := Visited(code, optimistic, w, init), Visited(code, optimistic, w, edges);
      forall u | u in w'.alive - w.alive ensures exists e :: e in edges && e.usr == u {
        if u in w0.alive {
          assert u in w0.alive - w.alive;
          var e :| e in init && e.usr == u;
          assert e in edges;
        } else {
          assert last in edges && last.usr == u;
        }
      }
    }
  }

  /** A visited function wakes another one, or the queue gets shorter. */
  lemma VisitedAdvances(code: Code, optimistic: bool, w: Walk, n: string)
    ensures var w' := Visited(code, optimistic, w, code.CalleesOf(n));
      (w'.queue == w.queue && w'.alive == w.alive) || Usrs(code) - w'.alive < Usrs(code) - w.alive
  {
    VisitedMoves(code, optimistic, w, code.CalleesOf(n));
    var w' := Visited(code, optimistic, w, code.CalleesOf(n));
    if w'.alive != w.alive {
      var u :| u in w'.alive && u !in w.alive;
      assert u in w'.alive - w.alive;
      var e :| e in code.CalleesOf(n) && e.usr == u;
      assert n in code.callees && e in code.callees[n] && u in Usrs(code);
    }
  }

  /** The queue is worked off, first come first served. */
  function Drained(code: Code, optimistic: bool, w: Walk): (w': Walk)
    ensures w'.queue == []
    decreases Usrs(code) - w.alive, |w.queue|
  {
    if w.queue == [] then w
    else
      var next := w.(queue := w.queue[1..]);
      VisitedAdvances(code, optimistic, next, w.queue[0]);
      Drained(code, optimistic, Visited(code, optimistic, next, code.CalleesOf(w.queue[0])))
  }

  lemma {:induction false} DrainedMoves(code: Code, optimistic: bool, w: Walk)
    ensures var w' := Drained(code, optimistic, w);
      && w.constructed <= w'.constructed && w'.constructed - w.constructed <= code.enclosing.Values
      && (w'.changed && !w.changed ==> w.constructed < w'.constructed)
    decreases Usrs(code) - w.alive, |w.queue|
  {
    hide Visited;
    if w.queue != [] {
      var next := w.(queue := w.queue[1..]);
      VisitedAdvances(code, optimistic, next, w.queue[0]);
      VisitedMoves(code, optimistic, next, code.CalleesOf(w.queue[0]));
      DrainedMoves(code, optimistic, Visited(code, optimistic, next, code.CalleesOf(w.queue[0])));
    }
  }

  /** The waiting targets tried again: woken, or waiting on. */
  function Retried(code: Code, w: Walk, waiting: seq<string>): (w': Walk)
    ensures w'.constructed == w.constructed && w'.changed == w.changed
  {
    if waiting == [] then w.(deferred := [])
    else
      var w0, d := Retried(code, w, waiting[..|waiting| - 1]), waiting[|waiting| - 1];
      if Unlocked(code, d, w0.constructed) then Enlivened(w0, d) else w0.(deferred := w0.deferred + [d])
  }

  /** One round: work off the queue, then retry what waits if a class was constructed. */
  function Round(code: Code, optimistic: bool, w: Walk): Walk {
    var w' := Drained(code, optimistic, w.(changed := false));
    if w'.changed && optimistic then Retried(code, w', w'.deferred) else w'
  }

  lemma RoundAdvances(code: Code, optimistic: bool, w: Walk)
    ensures var w' := Round(code, optimistic, w);
      !w'.changed || code.enclosing.Values - w'.constructed < code.enclosing.Values - w.constructed
    ensures var w' := Round(code, optimistic, w);
      code.enclosing.Values - w'.constructed <= code.enclosing.Values - w.constructed
  {
    hide Drained, Retried;
    DrainedMoves(code, optimistic, w.(changed := false));
    var w' := Round(code, optimistic, w);
    if w'.changed {
      var c :| c in w'.constructed && c !in w.constructed;
      assert c in w'.constructed - w.constructed && c in code.enclosing.Values;
    }
  }

  /** Rounds until one constructs no class. */
  function Rounds(code: Code, optimistic: bool, w: Walk): Walk
    decreases code.enclosing.Values - w.constructed, w.changed
  {
    if !w.changed then w
    else
      RoundAdvances(code, optimistic, w);
      Rounds(code, optimistic, Round(code, optimistic, w))
  }

  function AllEnlivened(w: Walk, usrs: seq<string>): Walk {
    if usrs == [] then w else Enlivened(AllEnlivened(w, usrs[..|usrs| - 1]), usrs[|usrs| - 1])
  }

  /** The functions of the given names, alive and queued. */
  function Seeded(code: Code, names: seq<string>): Walk {
    if names == [] then Walk([], {}, {}, [], true)
    else AllEnlivened(Seeded(code, names[..|names| - 1]), code.UsrsForName(names[|names| - 1]))
  }

  /** bfs, as a function of the code with its edge order and of the root names. */
  function Walked(code: Code, optimistic: bool, names: seq<string>): Walk {
    Rounds(code, optimistic, Seeded(code, names))
  }

  // ---- the walk as the program runs it --------------------------------------------------------------

  method Enliven(w: Walk, usr: string) returns (w': Walk)
    ensures w' == Enlivened(w, usr)
  {
    w' := w;
    if usr !in w.alive {
      w' := w.(alive := w.alive + {usr}, queue := w.queue + [usr]);
    }
  }

  method NoteConstructor(code: Code, w: Walk, e: Callee) returns (w': Walk)
    ensures w' == Noted(code, w, e)
  {
    w' := w;
    if e.kind == ConstructorCall && code.ClassOf(e.usr) != "" {
      var cls := code.ClassOf(e.usr);
      if cls !in w.constructed {
        w' := w.(constructed := w.constructed + {cls}, changed := true);
      }
    }
  }

  method FollowEdge(code: Code, optimistic: bool, w: Walk, e: Callee) returns (w': Walk)
    ensures w' == Followed(code, optimistic, w, e)
  {
    w' := w;
    var follow := ShouldFollow(code, optimistic, w.constructed, e);
    if follow {
      w' := Enliven(w, e.usr);
    } else if optimistic && e.kind == VirtualDispatch && e.confidence == Plausible {
      w' := w.(deferred := w.deferred + [e.usr]);
    }
  }

  /** The chain of early returns that decides on an edge. */
  method ShouldFollow(code: Code, optimistic: bool, constructed: set<string>, e: Callee) returns (follow: bool)
    ensures follow <==> Follows(code, optimistic, e, constructed)
  {
    if e.confidence == Proven {
      return true;
    }
    if !optimistic {
      return false;
    }
    if e.kind == FunctionPointer {
      return true;
    }
    if e.kind == VirtualDispatch {
      follow := Constructible(code, e.usr, constructed);
      return;
    }
    return true;
  }

  /** Whether a class the target serves, or its own, is constructed. */
  method Constructible(code: Code, usr: string, constructed: set<string>) returns (yes: bool)
    ensures yes <==> Unlocked(code, usr, constructed)
  {
    var classes := code.ClassesForImpl(usr);
    for i := 0 to |classes|
      invariant forall c :: c in classes[..i] ==> c !in constructed
    {
      if classes[i] in constructed {
        return true;
      }
    }
    assert classes[..|classes|] == classes;
    return code.ClassOf(usr) != "" && code.ClassOf(usr) in constructed;
  }

  method Visit(code: Code, optimistic: bool, w: Walk, n: string) returns (w': Walk)
    ensures w' == Visited(code, optimistic, w, code.CalleesOf(n))
  {
    var edges := code.CalleesOf(n);
    w' := w;
    for i := 0 to |edges|
      invariant w' == Visited(code, optimistic, w, edges[..i])
    {
      assert edges[..i + 1][..i] == edges[..i];
      w' := NoteConstructor(code, w', edges[i]);
      w' := FollowEdge(code, optimistic, w', edges[i]);
    }
    assert edges[..|edges|] == edges;
  }

  method Drain(code: Code, optimistic: bool, w: Walk) returns (w': Walk)
    ensures w' == Drained(code, optimistic, w)
  {
    hide Visited;
    w' := w;
    while w'.queue != []
      invariant Drained(code, optimistic, w') == Drained(code, optimistic, w)
      decreases Usrs(code) - w'.alive, |w'.queue|
    {
      var current := w'.queue[0];
      var next := w'.(queue := w'.queue[1..]);
      VisitedAdvances(code, optimistic, next, current);
      w' := Visit(code, optimistic, next, current);
    }
  }

  method Recheck(code: Code, w: Walk) returns (w': Walk)
    ensures w' == Retried(code, w, w.deferred)
  {
    w' := w.(deferred := []);
    for i := 0 to |w.deferred|
      invariant w' == Retried(code, w, w.deferred[..i])
    {
      assert w.deferred[..i + 1][..i] == w.deferred[..i];
      var unlocked := Constructible(code, w.deferred[i], w'.constructed);
      if unlocked {
        w' := Enliven(w', w.deferred[i]);
      } else {
        w' := w'.(deferred := w'.deferred + [w.deferred[i]]);
      }
    }
    assert w.deferred[..|w.deferred|] == w.deferred;
  }

  method Seed(code: Code, names: seq<string>) returns (w: Walk)
    ensures w == Seeded(code, names)
  {
    w := Walk([], {}, {}, [], true);
    for i := 0 to |names|
      invariant w == Seeded(code, names[..i])
    {
      var usrs := code.UsrsForName(names[i]);
      ghost var before := w;
      for j := 0 to |usrs|
        invariant w == AllEnlivened(before, usrs[..j])
      {
        assert usrs[..j + 1][..j] == usrs[..j];
        w := Enliven(w, usrs[j]);
      }
      assert usrs[..|usrs|] == usrs && names[..i + 1][..i] == names[..i];
    }
    assert names[..|names|] == names;
  }

  /** bfs. */
  method Bfs(code: Code, optimistic: bool, roots: seq<string>) returns (alive: set<string>)
    ensures alive == Walked(code, optimistic, roots).alive
  {
    hide Drained, Retried, Seeded;
    var w := Seed(code, roots);
    while w.changed
      invariant Rounds(code, optimistic, w) == Walked(code, optimistic, roots)
      decreases code.enclosing.Values - w.constructed, w.changed
    {
      RoundAdvances(code, optimistic, w);
      w := w.(changed := false);
      w := Drain(code, optimistic, w);
      if w.changed && optimistic {
        w := Recheck(code, w);
      }
    }
    alive := w.alive;
  }
}

/** query_locks_held as a whole: the locks live at the call sites of every path from an entry
    point (src/query/LockTools.cpp:43-94, 239-312; src/callgraph/ControlFlowIndex.cpp:291-306). */
module LocksHeld {
  import opened EdgeTypes
  import opened Interner
  import opened Sequences
  import E = EdgeTables
  import opened CallGraphStore
  import opened GraphQueries
  import opened QueryAnswers
  import opened GraphViews
  import opened ControlFlow
  import LockSearch
  import LockTheorems

  // ---- the context at a site -------------------------------------------------------------------

  /** The first context of a call site. */
  function FirstAt(cs: seq<Context>, site: string): Option<Context> {
    if cs == [] then None
    else
      var found, last := FirstAt(cs[..|cs| - 1], site), cs[|cs| - 1];
      if found.Some? then found else if last.callSite == site then Some(last) else None
  }

  lemma FirstAtAppend(cs: seq<Context>, c: Context, site: string)
    ensures FirstAt(cs + [c], site)
         == if FirstAt(cs, site).Some? then FirstAt(cs, site) else if c.callSite == site then Some(c) else None
  {
    assert (cs + [c])[..|cs|] == cs;
  }

  lemma SiteOf(st: Store, se: Stored, id: Id)
    requires Distinct(st.strings) && StoredIn(st, se) && id < |st.strings|
    ensures Materialize(st, se).callSite == st.strings[id] <==> KeyIn(BySite, se) == Some(id)
  {
  }

  /** The site's list of slots starts with that context. */
  lemma {:induction false} ListedFirst(st: Store, contexts: seq<Stored>, id: Id)
    requires Distinct(st.strings) && AllIn(st, contexts) && id < |st.strings|
    ensures var list := Listed(contexts, BySite, id);
      forall k :: 0 <= k < |list| ==> list[k] < |contexts| && contexts[list[k]].live
    ensures var list := Listed(contexts, BySite, id);
      FirstAt(Materialized(st, contexts), st.strings[id])
      == if list == [] then None else Some(Materialize(st, contexts[list[0]]))
  {
    hide Materialize, FirstAt, StoredIn, KeyIn, Distinct;
    if contexts == [] {
      NothingFirst(st.strings[id]);
    } else {
      var n := |contexts| - 1;
      ListedFirst(st, contexts[..n], id);
      assert StoredIn(st, contexts[n]);
      SiteOf(st, contexts[n], id);
      var init := Materialized(st, contexts[..n]);
      FirstAtAppend(init, Materialize(st, contexts[n]), st.strings[id]);
      assert init + [] == init;
    }
  }

  lemma NothingFirst(site: string)
    ensures FirstAt([], site) == None
  {
  }

  lemma {:induction false} NothingThere(st: Store, contexts: seq<Stored>, site: string)
    requires Distinct(st.strings) && AllIn(st, contexts) && site !in st.strings
    ensures FirstAt(Materialized(st, contexts), site) == None
  {
    hide Materialize, FirstAt, StoredIn, Distinct;
    if contexts == [] {
      NothingFirst(site);
    } else {
      var n := |contexts| - 1;
      NothingThere(st, contexts[..n], site);
      assert StoredIn(st, contexts[n]);
      SiteKnown(st, contexts[n]);
      var init := Materialized(st, contexts[..n]);
      FirstAtAppend(init, Materialize(st, contexts[n]), site);
      assert init + [] == init;
    }
  }

  lemma SiteKnown(st: Store, se: Stored)
    requires StoredIn(st, se)
    ensures Materialize(st, se).callSite in st.strings
  {
  }

  lemma InternerFacts(strings: seq<string>, ids: map<string, Id>)
    requires InternerOk(strings, ids)
    ensures Distinct(strings) && forall s :: s in ids <==> s in strings
  {
    forall i, j | 0 <= i < j < |strings| ensures strings[i] != strings[j] {
      assert ids[strings[i]] == i && ids[strings[j]] == j;
    }
  }

  /** contextAtSite. */
  method ContextAtSite(cf: ControlFlowIndex, site: string) returns (context: Option<Context>)
    requires cf.Valid()
    ensures context == FirstAt(cf.Contents(), site)
  {
    hide StoreOk, MapsOk, AllIn;
    var st := cf.Tables();
    InternerFacts(cf.strings, cf.ids);
    if site !in cf.ids {
      NothingThere(st, cf.contexts, site);
      return None;
    }
    var id := cf.ids[site];
    ListedFirst(st, cf.contexts, id);
    BySiteListed(cf, id);
    if id !in cf.bySite {
      return None;
    }
    var list := cf.bySite[id];
    for k := 0 to |list|
      invariant k == 0 // only live slots are listed, so the first one answers
    {
      if cf.contexts[list[k]].live {
        return Some(Materialize(st, cf.contexts[list[k]]));
      }
    }
    return None;
  }

  lemma BySiteListed(cf: ControlFlowIndex, id: Id)
    requires cf.Valid()
    ensures E.Slots(cf.bySite, id) == Listed(cf.contexts, BySite, id)
  {
  }

  // ---- the locks along a path ----------------------------------------------------------------------

  const LOCK: nat := 0

  datatype LockOccurrence = LockOccurrence(typeName: string, varName: string, heldAt: string)

  /** Two occurrences are of one lock when type and variable agree. */
  function LockOf(o: LockOccurrence): (string, string) {
    (o.typeName, o.varName)
  }

  function Locals(cs: seq<Context>, site: string): seq<RaiiLocal> {
    match FirstAt(cs, site)
    case None => []
    case Some(c) => c.locals
  }

  /** A lock is live at a site. */
  ghost predicate HeldAt(cs: seq<Context>, site: string, lock: (string, string)) {
    exists l :: l in Locals(cs, site) && l.kind == LOCK && (l.typeName, l.varName) == lock
  }

  function KeysOf(held: seq<LockOccurrence>): set<(string, string)> {
    set o | o in held :: LockOf(o)
  }

  /** `held` lists the locks of the first sites, and of the first locals of the next, each once
      and with the first site it is live at. */
  ghost predicate Collected(cs: seq<Context>, sites: seq<string>, k: nat, j: nat, held: seq<LockOccurrence>)
    requires k <= |sites| && (k == |sites| ==> j == 0)
    requires k < |sites| ==> j <= |Locals(cs, sites[k])|
  {
    && (forall a, b :: 0 <= a < b < |held| ==> LockOf(held[a]) != LockOf(held[b]))
    && (forall o :: o in held ==> FirstHeld(cs, sites, o))
    && (forall i, lock :: 0 <= i < k && HeldAt(cs, sites[i], lock) ==> lock in KeysOf(held))
    && (forall i :: 0 <= i < j && Locals(cs, sites[k])[i].kind == LOCK ==>
          (Locals(cs, sites[k])[i].typeName, Locals(cs, sites[k])[i].varName) in KeysOf(held))
  }

  /** The occurrence names the first site on the path at which its lock is live. */
  ghost predicate FirstHeld(cs: seq<Context>, sites: seq<string>, o: LockOccurrence) {
    exists i :: 0 <= i < |sites| && sites[i] == o.heldAt && HeldAt(cs, sites[i], LockOf(o))
      && forall h :: 0 <= h < i ==> !HeldAt(cs, sites[h], LockOf(o))
  }

  /** The locks of a path: each lock live at one of its sites once, with the first such site. */
  ghost predicate AreHeld(cs: seq<Context>, sites: seq<string>, held: seq<LockOccurrence>) {
    && (forall a, b :: 0 <= a < b < |held| ==> LockOf(held[a]) != LockOf(held[b]))
    && (forall o :: o in held ==> FirstHeld(cs, sites, o))
    && (forall lock :: lock in KeysOf(held) <==> exists i :: 0 <= i < |sites| && HeldAt(cs, sites[i], lock))
  }

  lemma OneMoreLock(cs: seq<Context>, sites: seq<string>, k: nat, j: nat, held: seq<LockOccurrence>)
    requires k < |sites| && j < |Locals(cs, sites[k])| && Collected(cs, sites, k, j, held)
    ensures var l := Locals(cs, sites[k])[j]; var o := LockOccurrence(l.typeName, l.varName, sites[k]);
      Collected(cs, sites, k, j + 1, if l.kind == LOCK && LockOf(o) !in KeysOf(held) then held + [o] else held)
  {
    var l := Locals(cs, sites[k])[j];
    var o := LockOccurrence(l.typeName, l.varName, sites[k]);
    var held' := if l.kind == LOCK && LockOf(o) !in KeysOf(held) then held + [o] else held;
    hide Locals;
    assert KeysOf(held') == KeysOf(held) + if held' == held then {} else {LockOf(o)} by {
      assert forall x :: x in held + [o] <==> x in held || x == o;
    }
    if held' != held {
      assert HeldAt(cs, sites[k], LockOf(o));
      assert FirstHeld(cs, sites, o);
      hide FirstHeld, HeldAt;
      forall a, b | 0 <= a < b < |held'| ensures LockOf(held'[a]) != LockOf(held'[b]) {
        if b == |held| {
          assert held[a] in held;
        }
      }
    }
  }

  lemma NextSite(cs: seq<Context>, sites: seq<string>, k: nat, held: seq<LockOccurrence>)
    requires k < |sites| && Collected(cs, sites, k, |Locals(cs, sites[k])|, held)
    ensures Collected(cs, sites, k + 1, 0, held)
  {
    forall i, lock | 0 <= i < k + 1 && HeldAt(cs, sites[i], lock) ensures lock in KeysOf(held) {
      if i == k {
        var l :| l in Locals(cs, sites[k]) && l.kind == LOCK && (l.typeName, l.varName) == lock;
        var j :| 0 <= j < |Locals(cs, sites[k])| && Locals(cs, sites[k])[j] == l;
      }
    }
  }

  lemma AllSites(cs: seq<Context>, sites: seq<string>, held: seq<LockOccurrence>)
    requires Collected(cs, sites, |sites|, 0, held)
    ensures AreHeld(cs, sites, held)
  {
    hide HeldAt;
    forall lock | lock in KeysOf(held) ensures exists i :: 0 <= i < |sites| && HeldAt(cs, sites[i], lock) {
      var o :| o in held && LockOf(o) == lock;
      assert FirstHeld(cs, sites, o);
    }
  }

  /** collectLocksOnEdge, site after site. */
  method LocksOnPath(cf: ControlFlowIndex, sites: seq<string>) returns (held: seq<LockOccurrence>)
    requires cf.Valid()
    ensures AreHeld(cf.Contents(), sites, held)
  {
    hide Locals;
    ghost var cs := cf.Contents();
    held := [];
    var seen: set<(string, string)> := {};
    for k := 0 to |sites|
      invariant Collected(cs, sites, k, 0, held) && seen == KeysOf(held)
    {
      held, seen := LocksOnEdge(cf, sites, k, held, seen);
    }
    AllSites(cs, sites, held);
  }

  method LocksOnEdge(cf: ControlFlowIndex, sites: seq<string>, k: nat, held0: seq<LockOccurrence>,
                     seen0: set<(string, string)>)
    returns (held: seq<LockOccurrence>, seen: set<(string, string)>)
    requires cf.Valid() && k < |sites| && Collected(cf.Contents(), sites, k, 0, held0) && seen0 == KeysOf(held0)
    ensures Collected(cf.Contents(), sites, k + 1, 0, held) && seen == KeysOf(held)
  {
    ghost var cs := cf.Contents();
    held, seen := held0, seen0;
    var context := ContextAtSite(cf, sites[k]);
    hide Collected, FirstAt;
    if context.Some? {
      var locals := context.value.locals;
      assert locals == Locals(cs, sites[k]);
      for j := 0 to |locals|
        invariant Collected(cs, sites, k, j, held) && seen == KeysOf(held)
      {
        OneMoreLock(cs, sites, k, j, held);
        var lock := (locals[j].typeName, locals[j].varName);
        if locals[j].kind == LOCK && lock !in seen {
          var o := LockOccurrence(locals[j].typeName, locals[j].varName, sites[k]);
          assert forall x :: x in held + [o] <==> x in held || x == o;
          held, seen := held + [o], seen + {lock};
        }
      }
    }
    NextSite(cs, sites, k, held);
  }

  // ---- the query ---------------------------------------------------------------------------------------

  datatype PathResult = PathResult(entryPoint: string, path: seq<string>, locksHeld: seq<LockOccurrence>)

  function Resolve(strings: seq<string>, id: Id): string {
    if id < |strings| then strings[id] else ""
  }

  function ResolveAll(strings: seq<string>, ids: seq<Id>): (names: seq<string>)
    ensures |names| == |ids|
  {
    seq(|ids|, i requires 0 <= i < |ids| => Resolve(strings, ids[i]))
  }

  /** The result for one raw path: its names from the entry down, and its locks. */
  ghost predicate Answers(strings: seq<string>, cs: seq<Context>, raw: LockSearch.RawLockPath, r: PathResult) {
    && r.entryPoint == Resolve(strings, raw.entryPoint)
    && r.path == ResolveAll(strings, Reverse(raw.nodes))
    && AreHeld(cs, ResolveAll(strings, raw.edgeSites), r.locksHeld)
  }

  /** The entries that were ever interned. */
  method EntryIds(graph: CallGraph, entryPoints: seq<string>) returns (entries: seq<Id>)
    ensures EntriesOf(graph, entryPoints, entries)
  {
    hide EntriesOf;
    entries := [];
    NoEntries(graph);
    for i := 0 to |entryPoints|
      invariant EntriesOf(graph, entryPoints[..i], entries)
    {
      assert entryPoints[..i + 1] == entryPoints[..i] + [entryPoints[i]];
      OneMoreEntry(graph, entryPoints[..i], entries, entryPoints[i]);
      if entryPoints[i] in graph.ids {
        entries := entries + [graph.ids[entryPoints[i]]];
      }
    }
    assert entryPoints[..|entryPoints|] == entryPoints;
  }

  lemma NoEntries(graph: CallGraph)
    ensures EntriesOf(graph, [], [])
  {
  }

  lemma OneMoreEntry(graph: CallGraph, names: seq<string>, entries: seq<Id>, s: string)
    requires EntriesOf(graph, names, entries)
    ensures EntriesOf(graph, names + [s], if s in graph.ids then entries + [graph.ids[s]] else entries)
  {
    var entries' := if s in graph.ids then entries + [graph.ids[s]] else entries;
    forall id | id in entries' ensures exists x :: x in names + [s] && graph.Find(x) == Some(id) {
      if id in entries {
        var x :| x in names && graph.Find(x) == Some(id);
        assert x in names + [s];
      } else {
        assert s in names + [s] && graph.Find(s) == Some(id);
      }
    }
    forall x | x in names + [s] && graph.Find(x).Some? ensures graph.Find(x).value in entries' {
      if x in names {
        assert graph.Find(x) == Some(graph.Find(x).value);
      }
    }
  }

  ghost predicate EntriesOf(graph: CallGraph, entryPoints: seq<string>, entries: seq<Id>)
    reads graph
  {
    forall id :: id in entries <==> exists s :: s in entryPoints && graph.Find(s) == Some(id)
  }

  /** A hub left out of the search, by name, with the in-degree the graph has stored for it. */
  ghost predicate IsHub(strings: seq<string>, view: CallView, name: string, degree: nat, maxFanIn: nat) {
    0 < maxFanIn < degree
    && exists id: Id :: id < |strings| && strings[id] == name && view.InDegree(id) == degree
  }

  /** The skipped hubs by name; of two ids with one name the first stays. */
  method NameHubs(graph: CallGraph, hubs: map<Id, nat>, maxFanIn: nat) returns (named: map<string, nat>)
    requires graph.Valid()
    requires forall n :: n in hubs ==> hubs[n] == View(ValueOf(graph)).InDegree(n) && 0 < maxFanIn < hubs[n]
    ensures forall s :: s in named ==> IsHub(graph.strings, View(ValueOf(graph)), s, named[s], maxFanIn)
    ensures forall n :: n in hubs && n < |graph.strings| ==> graph.strings[n] in named
  {
    hide View, CallGraph.Valid, ValueOf;
    named := map[];
    var todo := hubs.Keys;
    while todo != {}
      invariant todo <= hubs.Keys
      invariant forall s :: s in named ==> IsHub(graph.strings, View(ValueOf(graph)), s, named[s], maxFanIn)
      invariant forall n :: n in hubs && n !in todo && n < |graph.strings| ==> graph.strings[n] in named
    {
      var n :| n in todo;
      todo := todo - {n};
      if n < |graph.strings| && graph.strings[n] !in named {
        named := named[graph.strings[n] := hubs[n]];
      }
    }
  }

  // ---- the answer by names -----------------------------------------------------------------------------

  /** A lock local is live in the first context recorded for the site. */
  ghost predicate LiveLock(cs: seq<Context>, site: string, typeName: string, varName: string) {
    exists k :: 0 <= k < |cs| && cs[k].callSite == site && (forall j :: 0 <= j < k ==> cs[j].callSite != site)
      && exists l :: l in cs[k].locals && l.kind == 0 && l.typeName == typeName && l.varName == varName
  }

  /** Each lock live at one of the sites once, with the first site at which it is. */
  ghost predicate ListsLocks(cs: seq<Context>, sites: seq<string>, held: seq<LockOccurrence>) {
    && (forall a, b :: 0 <= a < b < |held| ==>
          held[a].typeName != held[b].typeName || held[a].varName != held[b].varName)
    && (forall o :: o in held ==> HeldFirst(cs, sites, o))
    && (forall i, t, v :: 0 <= i < |sites| && LiveLock(cs, sites[i], t, v) ==>
          exists o :: o in held && o.typeName == t && o.varName == v)
  }

  ghost predicate HeldFirst(cs: seq<Context>, sites: seq<string>, o: LockOccurrence) {
    exists i :: 0 <= i < |sites| && sites[i] == o.heldAt && LiveLock(cs, sites[i], o.typeName, o.varName)
      && forall h :: 0 <= h < i ==> !LiveLock(cs, sites[h], o.typeName, o.varName)
  }

  lemma {:induction false} FirstAtIs(cs: seq<Context>, site: string)
    ensures match FirstAt(cs, site)
      case None => forall k :: 0 <= k < |cs| ==> cs[k].callSite != site
      case Some(c) => exists k :: 0 <= k < |cs| && cs[k] == c && c.callSite == site
                        && forall j :: 0 <= j < k ==> cs[j].callSite != site
  {
    if cs != [] {
      var n := |cs| - 1;
      FirstAtIs(cs[..n], site);
      if FirstAt(cs[..n], site).Some? {
        var k :| 0 <= k < n && cs[..n][k] == FirstAt(cs[..n], site).value && cs[..n][k].callSite == site
          && forall j :: 0 <= j < k ==> cs[..n][j].callSite != site;
        assert cs[k] == cs[..n][k] && forall j :: 0 <= j < k ==> cs[j] == cs[..n][j];
      } else {
        assert forall j :: 0 <= j < n ==> cs[j] == cs[..n][j];
      }
    }
  }

  lemma HeldAtIsLive(cs: seq<Context>, site: string, typeName: string, varName: string)
    ensures HeldAt(cs, site, (typeName, varName)) <==> LiveLock(cs, site, typeName, varName)
  {
    FirstAtIs(cs, site);
  }

  lemma HeldAreListed(cs: seq<Context>, sites: seq<string>, held: seq<LockOccurrence>)
    requires AreHeld(cs, sites, held)
    ensures ListsLocks(cs, sites, held)
  {
    forall site, t, v ensures HeldAt(cs, site, (t, v)) <==> LiveLock(cs, site, t, v) {
      HeldAtIsLive(cs, site, t, v);
    }
    hide HeldAt, LiveLock;
    forall a, b | 0 <= a < b < |held|
      ensures held[a].typeName != held[b].typeName || held[a].varName != held[b].varName
    {
      assert LockOf(held[a]) != LockOf(held[b]);
    }
    forall o | o in held ensures HeldFirst(cs, sites, o) {
      assert FirstHeld(cs, sites, o);
      var i :| 0 <= i < |sites| && sites[i] == o.heldAt && HeldAt(cs, sites[i], LockOf(o))
        && forall h :: 0 <= h < i ==> !HeldAt(cs, sites[h], LockOf(o));
    }
    forall i, t, v | 0 <= i < |sites| && LiveLock(cs, sites[i], t, v)
      ensures exists o :: o in held && o.typeName == t && o.varName == v
    {
      assert HeldAt(cs, sites[i], (t, v)) && (t, v) in KeysOf(held);
    }
  }

  /** A call from one function to another, by name; not from the pseudo node of indirect calls. */
  ghost predicate NamedCall(g: Graph, from: string, to: string, e: EdgeRef) {
    && e.caller < |g.t.strings| && g.t.strings[e.caller] == from && from != "<indirect>"
    && e.callee < |g.t.strings| && g.t.strings[e.callee] == to
    && (IsDirect(g, e) || IsDispatch(g, e) || IsDeferral(g, e))
  }

  /** A path by names from an entry point down to the target, over calls that are all different,
      past no other entry point and, in between, no function with more stored callers than the
      fan-in limit. */
  ghost predicate NamedPath(g: Graph, entryPoints: seq<string>, target: string, maxDepth: nat, maxFanIn: nat,
                            r: PathResult, edges: seq<EdgeRef>)
  {
    && |r.path| == |edges| + 1 <= maxDepth && r.path[|edges|] == target
    && r.entryPoint == r.path[0] && r.entryPoint in entryPoints
    && (forall i :: 0 <= i < |edges| ==> NamedCall(g, r.path[i], r.path[i + 1], edges[i]))
    && (forall i :: 0 < i < |r.path| ==> r.path[i] !in entryPoints)
    && (forall i :: 0 < i < |edges| ==> maxFanIn == 0 || |SlotsInto(g, edges[i].caller)| <= maxFanIn)
    && (forall i, j :: 0 <= i < j < |edges| ==>
          edges[i].caller != edges[j].caller || edges[i].callee != edges[j].callee
          || edges[i].callSite != edges[j].callSite)
  }

  /** The call sites of the path, from the target's end. */
  ghost predicate SitesOf(g: Graph, edges: seq<EdgeRef>, sites: seq<string>) {
    && |sites| == |edges|
    && forall i :: 0 <= i < |sites| ==> SiteIs(g, edges[|edges| - 1 - i], sites[i])
  }

  ghost predicate SiteIs(g: Graph, e: EdgeRef, site: string) {
    e.callSite < |g.t.strings| && g.t.strings[e.callSite] == site
  }

  /** One answer: a path, and exactly the locks live at its call sites. */
  ghost predicate IsAnswer(g: Graph, cs: seq<Context>, entryPoints: seq<string>, target: string, maxDepth: nat,
                           maxFanIn: nat, r: PathResult)
  {
    exists edges, sites :: NamedPath(g, entryPoints, target, maxDepth, maxFanIn, r, edges)
      && SitesOf(g, edges, sites) && ListsLocks(cs, sites, r.locksHeld)
  }

  /** The names stand for these ids and no others. */
  ghost predicate NamesStand(g: Graph, entries: seq<Id>, entryPoints: seq<string>, indirect: Option<Id>) {
    && (forall n :: n in entries ==> n < |g.t.strings| && g.t.strings[n] in entryPoints)
    && (forall n: Id :: n < |g.t.strings| && g.t.strings[n] in entryPoints ==> n in entries)
    && (forall n: Id :: n < |g.t.strings| && g.t.strings[n] == "<indirect>" ==> indirect == Some(n))
  }

  lemma CallEnds(g: Graph, n: Id, e: EdgeRef)
    requires GraphOk(g) && n in View(g).callers && e in View(g).callers[n]
    ensures e.callee == n && (IsDirect(g, e) || IsDispatch(g, e) || IsDeferral(g, e))
    ensures e.caller < |g.t.strings| && e.callee < |g.t.strings| && e.callSite < |g.t.strings|
  {
    hide CallerRefs, CalleeRefs;
    var stored, dispatched, deferred := CallersInParts(g, n);
    CallerRefsAreJustified(g, n, e);
    JustifiedCallerIn(g, e);
    var i :| Justifies(g, i, e);
    assert E.Live(g.t, i);
  }

  /** One step of a reverse path, by names. */
  ghost predicate StepNamed(g: Graph, p: LockSearch.RawLockPath, edges: seq<EdgeRef>, i: int)
    requires 0 <= i < |edges| && |p.nodes| == |edges| + 1
  {
    && p.nodes[i] < |g.t.strings| && p.nodes[i + 1] < |g.t.strings| && edges[i].caller == p.nodes[i + 1]
    && NamedCall(g, g.t.strings[p.nodes[i + 1]], g.t.strings[p.nodes[i]], edges[i])
  }

  lemma StepIsNamed(g: Graph, entries: seq<Id>, entryPoints: seq<string>, indirect: Option<Id>, target: Id,
                    maxDepth: nat, maxFanIn: nat, edges: seq<EdgeRef>, p: LockSearch.RawLockPath, i: nat)
    requires GraphOk(g) && NamesStand(g, entries, entryPoints, indirect)
    requires LockTheorems.AnswersQuery(View(g), entries, indirect, target, maxDepth, maxFanIn, edges, p)
    requires i < |edges|
    ensures StepNamed(g, p, edges, i) && edges[i].callSite < |g.t.strings|
  {
    assert LockTheorems.StepsBack(View(g), indirect, p.nodes[i], edges[i], p.nodes[i + 1]);
    CallEnds(g, p.nodes[i], edges[i]);
  }

  lemma NameBack(strings: seq<string>, nodes: seq<Id>, i: nat)
    requires i < |nodes| && nodes[i] < |strings|
    ensures |Reverse(nodes)| == |nodes|
    ensures ResolveAll(strings, Reverse(nodes))[|nodes| - 1 - i] == strings[nodes[i]]
  {
    BackAt(nodes, i);
    var back := Reverse(nodes);
    hide Reverse;
    assert ResolveAll(strings, back)[|nodes| - 1 - i] == Resolve(strings, back[|nodes| - 1 - i]);
  }

  lemma BackAt<T>(s: seq<T>, i: nat)
    requires i < |s|
    ensures |Reverse(s)| == |s| && Reverse(s)[|s| - 1 - i] == s[i]
  {
  }

  lemma CallsNamed(g: Graph, edges: seq<EdgeRef>, p: LockSearch.RawLockPath, path: seq<string>)
    requires |p.nodes| == |edges| + 1 && path == ResolveAll(g.t.strings, Reverse(p.nodes))
    requires forall i :: 0 <= i < |edges| ==> StepNamed(g, p, edges, i)
    ensures forall i :: 0 <= i < |edges| ==> NamedCall(g, path[i], path[i + 1], Reverse(edges)[i])
  {
    hide NamedCall, ResolveAll, Reverse;
    forall i | 0 <= i < |edges| ensures NamedCall(g, path[i], path[i + 1], Reverse(edges)[i]) {
      var k := |edges| - 1 - i;
      assert StepNamed(g, p, edges, k);
      BackAt(edges, k);
      NameBack(g.t.strings, p.nodes, k);
      NameBack(g.t.strings, p.nodes, k + 1);
    }
  }

  lemma CallsDiffer(edges: seq<EdgeRef>)
    requires forall i, j :: 0 <= i < j < |edges| ==> !LockTheorems.SameCall(edges[i], edges[j])
    ensures forall i, j :: 0 <= i < j < |edges| ==> !LockTheorems.SameCall(Reverse(edges)[i], Reverse(edges)[j])
  {
    forall i, j | 0 <= i < j < |edges| ensures !LockTheorems.SameCall(Reverse(edges)[i], Reverse(edges)[j]) {
      BackAt(edges, |edges| - 1 - i);
      BackAt(edges, |edges| - 1 - j);
      assert !LockTheorems.SameCall(edges[|edges| - 1 - j], edges[|edges| - 1 - i]);
    }
  }

  lemma PathIsNamed(g: Graph, entries: seq<Id>, entryPoints: seq<string>, indirect: Option<Id>, target: Id,
                    maxDepth: nat, maxFanIn: nat, edges: seq<EdgeRef>, p: LockSearch.RawLockPath, r: PathResult)
    requires GraphOk(g) && NamesStand(g, entries, entryPoints, indirect) && target < |g.t.strings|
    requires LockTheorems.AnswersQuery(View(g), entries, indirect, target, maxDepth, maxFanIn, edges, p)
    requires r.entryPoint == Resolve(g.t.strings, p.entryPoint) && r.path == ResolveAll(g.t.strings, Reverse(p.nodes))
    ensures NamedPath(g, entryPoints, g.t.strings[target], maxDepth, maxFanIn, r, Reverse(edges))
    ensures SitesOf(g, Reverse(edges), ResolveAll(g.t.strings, p.edgeSites))
  {
    hide GraphOk, NamedCall, IsDirect, IsDispatch, IsDeferral, View, ResolveAll, Reverse, LockTheorems.StepsBack,
         LockTheorems.FewCallers, SlotsInto;
    var m, strings := |edges|, g.t.strings;
    forall i | 0 <= i < m ensures StepNamed(g, p, edges, i) && edges[i].callSite < |strings| {
      StepIsNamed(g, entries, entryPoints, indirect, target, maxDepth, maxFanIn, edges, p, i);
    }
    CallsNamed(g, edges, p, r.path);
    NameBack(strings, p.nodes, m);
    NameBack(strings, p.nodes, 0);
    forall i | 0 < i < |r.path| ensures r.path[i] !in entryPoints {
      assert StepNamed(g, p, edges, m - i);
      NameBack(strings, p.nodes, m - i);
    }
    forall i | 0 < i < m ensures maxFanIn == 0 || |SlotsInto(g, Reverse(edges)[i].caller)| <= maxFanIn {
      FewInto(g, entries, indirect, target, maxDepth, maxFanIn, edges, p, m - 1 - i);
      BackAt(edges, m - 1 - i);
    }
    CallsDiffer(edges);
    EdgeSites(g, edges, p);
  }

  lemma FewInto(g: Graph, entries: seq<Id>, indirect: Option<Id>, target: Id, maxDepth: nat, maxFanIn: nat,
                edges: seq<EdgeRef>, p: LockSearch.RawLockPath, k: nat)
    requires GraphOk(g) && LockTheorems.AnswersQuery(View(g), entries, indirect, target, maxDepth, maxFanIn, edges, p)
    requires k + 1 < |edges| && StepNamed(g, p, edges, k)
    ensures maxFanIn == 0 || |SlotsInto(g, edges[k].caller)| <= maxFanIn
  {
    hide GraphOk, View;
    ViewIs(g, p.nodes[k + 1]);
    assert LockTheorems.FewCallers(View(g), maxFanIn, p.nodes[k + 1]);
  }

  lemma EdgeSites(g: Graph, edges: seq<EdgeRef>, p: LockSearch.RawLockPath)
    requires LockTheorems.SiteByEdge(p, edges)
    requires forall i :: 0 <= i < |edges| ==> edges[i].callSite < |g.t.strings|
    ensures SitesOf(g, Reverse(edges), ResolveAll(g.t.strings, p.edgeSites))
  {
    hide Reverse;
    var sites, back := ResolveAll(g.t.strings, p.edgeSites), Reverse(edges);
    forall i | 0 <= i < |sites| ensures SiteIs(g, back[|edges| - 1 - i], sites[i]) {
      BackAt(edges, i);
    }
    hide SiteIs, ResolveAll;
  }

  lemma AnswerIsNamed(g: Graph, cs: seq<Context>, entries: seq<Id>, entryPoints: seq<string>, indirect: Option<Id>,
                      target: Id, maxDepth: nat, maxFanIn: nat, edges: seq<EdgeRef>, p: LockSearch.RawLockPath,
                      r: PathResult)
    requires GraphOk(g) && NamesStand(g, entries, entryPoints, indirect) && target < |g.t.strings|
    requires LockTheorems.AnswersQuery(View(g), entries, indirect, target, maxDepth, maxFanIn, edges, p)
    requires Answers(g.t.strings, cs, p, r)
    ensures IsAnswer(g, cs, entryPoints, g.t.strings[target], maxDepth, maxFanIn, r)
  {
    hide GraphOk, View, NamedPath, SitesOf, ListsLocks, AreHeld, NamesStand;
    PathIsNamed(g, entries, entryPoints, indirect, target, maxDepth, maxFanIn, edges, p, r);
    HeldAreListed(cs, ResolveAll(g.t.strings, p.edgeSites), r.locksHeld);
  }

  /** collectLocksHeld: for the first 512 entry paths, in order, the names along the path and
      exactly the locks held on it; and hubs that were not expanded. */
  method CollectLocksHeld(graph: CallGraph, cf: ControlFlowIndex, target: string, entryPoints: seq<string>,
                          maxDepth: nat, maxFanIn: nat)
    returns (out: seq<PathResult>, skippedHubs: map<string, nat>, truncated: bool, ghost entries: seq<Id>,
             ghost raw: seq<LockSearch.RawLockPath>)
    requires graph.Valid() && cf.Valid()
    ensures EntriesOf(graph, entryPoints, entries)
    ensures graph.Find(target).None? || maxDepth == 0 ==> out == [] && !truncated
    ensures graph.Find(target).Some? && maxDepth > 0 ==>
      var view, id := View(ValueOf(graph)), graph.Find(target).value;
      var r := LockTheorems.QueryRegion(view, entries, graph.Find("<indirect>"), maxFanIn);
      && raw == Take(LockTheorems.AllPaths(r, maxDepth, id), LockSearch.MAX_PATHS)
      && LockTheorems.Answered(view, entries, graph.Find("<indirect>"), id, maxDepth, maxFanIn, raw, truncated)
      && |out| == |raw| && forall i :: 0 <= i < |out| ==> Answers(graph.strings, cf.Contents(), raw[i], out[i])
    ensures |out| <= 512 && (truncated ==> |out| == 512)
    ensures forall r :: r in out ==>
      IsAnswer(ValueOf(graph), cf.Contents(), entryPoints, target, maxDepth, maxFanIn, r)
    ensures forall s :: s in skippedHubs ==> IsHub(graph.strings, View(ValueOf(graph)), s, skippedHubs[s], maxFanIn)
  {
    hide View, AreHeld, EntriesOf, LockTheorems.AllPaths, LockTheorems.QueryRegion, E.TablesOk, BothOk, StoreOk,
         MapsOk, AllIn, InternerOk, Materialized, Unproven, CountLive, IsHub, LockTheorems.Answered, IsAnswer, Answers;
    var ids := EntryIds(graph, entryPoints);
    entries, raw := ids, [];
    out, skippedHubs, truncated := [], map[], false;
    var targetId := graph.Find(target);
    if targetId.None? {
      return;
    }
    var found, hubs;
    found, hubs, truncated := LockPathsIn(graph, ids, targetId.value, maxDepth, maxFanIn, graph.Find("<indirect>"));
    raw := found;
    for i := 0 to |found|
      invariant |out| == i && forall k :: 0 <= k < i ==> Answers(graph.strings, cf.Contents(), found[k], out[k])
    {
      var held := LocksOnPath(cf, ResolveAll(graph.strings, found[i].edgeSites));
      var result := PathResult(Resolve(graph.strings, found[i].entryPoint),
        ResolveAll(graph.strings, Reverse(found[i].nodes)), held);
      MakesAnswer(graph.strings, cf.Contents(), found[i], result);
      out := out + [result];
    }
    skippedHubs := NameHubs(graph, hubs, maxFanIn);
    if maxDepth > 0 {
      AllNamed(graph, cf.Contents(), entryPoints, ids, target, maxDepth, maxFanIn, found, truncated, out);
    }
  }

  lemma MakesAnswer(strings: seq<string>, cs: seq<Context>, raw: LockSearch.RawLockPath, r: PathResult)
    requires r.entryPoint == Resolve(strings, raw.entryPoint) && r.path == ResolveAll(strings, Reverse(raw.nodes))
    requires AreHeld(cs, ResolveAll(strings, raw.edgeSites), r.locksHeld)
    ensures Answers(strings, cs, raw, r)
  {
  }

  lemma AllNamed(graph: CallGraph, cs: seq<Context>, entryPoints: seq<string>, entries: seq<Id>, target: string,
                 maxDepth: nat, maxFanIn: nat, raw: seq<LockSearch.RawLockPath>, truncated: bool,
                 out: seq<PathResult>)
    requires graph.Valid() && EntriesOf(graph, entryPoints, entries) && graph.Find(target).Some? && |out| == |raw|
    requires LockTheorems.Answered(View(ValueOf(graph)), entries, graph.Find("<indirect>"),
                                   graph.Find(target).value, maxDepth, maxFanIn, raw, truncated)
    requires forall i :: 0 <= i < |out| ==> Answers(graph.strings, cs, raw[i], out[i])
    ensures |out| <= 512 && (truncated <==> |out| == 512)
    ensures forall r :: r in out ==> IsAnswer(ValueOf(graph), cs, entryPoints, target, maxDepth, maxFanIn, r)
  {
    ValidIsGraphOk(graph);
    IdsStand(graph, entryPoints, entries, target);
    hide GraphOk, View, IsAnswer, Answers, LockTheorems.Answered, NamesStand, CallGraph.Valid, EntriesOf;
    AllNamedIn(ValueOf(graph), cs, entryPoints, entries, graph.Find("<indirect>"), graph.Find(target).value, maxDepth,
      maxFanIn, raw, truncated, out);
  }

  lemma AllNamedIn(g: Graph, cs: seq<Context>, entryPoints: seq<string>, entries: seq<Id>, indirect: Option<Id>,
                   target: Id, maxDepth: nat, maxFanIn: nat, raw: seq<LockSearch.RawLockPath>, truncated: bool,
                   out: seq<PathResult>)
    requires GraphOk(g) && NamesStand(g, entries, entryPoints, indirect) && target < |g.t.strings| && |out| == |raw|
    requires LockTheorems.Answered(View(g), entries, indirect, target, maxDepth, maxFanIn, raw, truncated)
    requires forall i :: 0 <= i < |out| ==> Answers(g.t.strings, cs, raw[i], out[i])
    ensures |out| <= 512 && (truncated <==> |out| == 512)
    ensures forall r :: r in out ==> IsAnswer(g, cs, entryPoints, g.t.strings[target], maxDepth, maxFanIn, r)
  {
    hide GraphOk, View, IsAnswer, Answers, LockTheorems.AnswersQuery, LockTheorems.InOrder, NamesStand;
    forall r | r in out ensures IsAnswer(g, cs, entryPoints, g.t.strings[target], maxDepth, maxFanIn, r) {
      var i :| 0 <= i < |out| && out[i] == r;
      assert raw[i] in raw;
      var edges :| LockTheorems.AnswersQuery(View(g), entries, indirect, target, maxDepth, maxFanIn, edges, raw[i]);
      AnswerIsNamed(g, cs, entries, entryPoints, indirect, target, maxDepth, maxFanIn, edges, raw[i], r);
    }
  }

  lemma IdsStand(graph: CallGraph, entryPoints: seq<string>, entries: seq<Id>, target: string)
    requires graph.Valid() && EntriesOf(graph, entryPoints, entries) && graph.Find(target).Some?
    ensures NamesStand(ValueOf(graph), entries, entryPoints, graph.Find("<indirect>"))
    ensures graph.Find(target).value < |graph.strings| && graph.strings[graph.Find(target).value] == target
  {
    hide E.TablesOk, BothOk;
    forall n: Id | n < |graph.strings| ensures graph.Find(graph.strings[n]) == Some(n) {}
  }
}

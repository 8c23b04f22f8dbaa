/** The control-flow context store: deduplicated records, six index maps and per-TU provenance
    (src/callgraph/ControlFlowIndex.cpp:178-273, 421-605;
    include/vycor/callgraph/ControlFlowIndex.h:107-386). */
module ControlFlow {
  import opened EdgeTypes
  import opened Interner
  import opened ControlFlowSets
  import E = EdgeTables
  import C = CallGraphStore
  import W = Wire

  datatype RaiiLocal = RaiiLocal(typeName: string, varName: string, declLocation: string, kind: nat)

  /** The public record of one call site; an empty tuPath stands for no provenance. */
  datatype Context = Context(callerName: string, calleeName: string, callSite: string, callerUsr: string,
                             calleeUsr: string, tuPath: string, scopes: Members, guards: Members,
                             callerNoexcept: nat, insideCatchBlock: bool,
                             locals: seq<RaiiLocal>)

  /** The stored record: interned ids and set indices. */
  datatype Stored = Stored(caller: Id, callee: Id, callerDisplay: Id, calleeDisplay: Id, site: Id, tuPath: Option<Id>,
                           scopeSet: nat, guardSet: nat, raiiSet: nat, callerNoexcept: nat, insideCatchBlock: bool,
                           live: bool)

  /** What stored records refer to. */
  datatype Store = Store(strings: seq<string>, scopes: SetTable, guards: SetTable, raii: SetTable)

  function Str(strings: seq<string>, id: Id): string {
    if id < |strings| then strings[id] else ""
  }

  function SetAt(t: SetTable, i: nat): Members {
    if i < |t.sets| then t.sets[i] else []
  }

  function LocalOf(strings: seq<string>, v: W.Value): RaiiLocal {
    match v
    case Pair(Nat(a), Pair(Nat(b), Pair(Nat(c), Pair(Nat(k), Unit)))) =>
      RaiiLocal(Str(strings, a), Str(strings, b), Str(strings, c), k)
    case _ => RaiiLocal("", "", "", 0)
  }

  function LocalsOf(strings: seq<string>, vs: Members): seq<RaiiLocal> {
    if vs == [] then [] else LocalsOf(strings, vs[..|vs| - 1]) + [LocalOf(strings, vs[|vs| - 1])]
  }

  /** materialize. */
  function Materialize(st: Store, se: Stored): Context {
    Context(Str(st.strings, se.callerDisplay), Str(st.strings, se.calleeDisplay), Str(st.strings, se.site),
            Str(st.strings, se.caller), Str(st.strings, se.callee),
            if se.tuPath.Some? then Str(st.strings, se.tuPath.value) else "",
            SetAt(st.scopes, se.scopeSet), SetAt(st.guards, se.guardSet), se.callerNoexcept, se.insideCatchBlock,
            LocalsOf(st.strings, SetAt(st.raii, se.raiiSet)))
  }

  /** All live contexts, in insertion order. */
  function Materialized(st: Store, contexts: seq<Stored>): seq<Context> {
    if contexts == [] then []
    else
      var se := contexts[|contexts| - 1];
      Materialized(st, contexts[..|contexts| - 1]) + (if se.live then [Materialize(st, se)] else [])
  }

  // ---- ids in range -----------------------------------------------------------------------------

  predicate LocalIn(v: W.Value, n: nat) {
    match v
    case Pair(Nat(a), Pair(Nat(b), Pair(Nat(c), Pair(Nat(_), Unit)))) => a < n && b < n && c < n
    case _ => false
  }

  ghost predicate LocalsIn(vs: Members, n: nat) {
    forall i :: 0 <= i < |vs| ==> LocalIn(vs[i], n)
  }

  ghost predicate StoredIn(st: Store, se: Stored) {
    var n := |st.strings|;
    && se.caller < n && se.callee < n && se.callerDisplay < n && se.calleeDisplay < n && se.site < n
    && (se.tuPath.Some? ==> se.tuPath.value < n && st.strings[se.tuPath.value] != "")
    && se.scopeSet < |st.scopes.sets| && se.guardSet < |st.guards.sets| && se.raiiSet < |st.raii.sets|
  }

  ghost predicate StoreOk(st: Store) {
    && SetTableOk(SCOPE, st.scopes) && SetTableOk(GUARD, st.guards) && SetTableOk(RAII, st.raii)
    && forall i :: 0 <= i < |st.raii.sets| ==> LocalsIn(st.raii.sets[i], |st.strings|)
  }

  ghost predicate AllIn(st: Store, contexts: seq<Stored>) {
    forall i :: 0 <= i < |contexts| ==> StoredIn(st, contexts[i])
  }

  /** Tables only grow at the end, so what is stored keeps its meaning. */
  ghost predicate Grows(st: Store, st': Store) {
    st.strings <= st'.strings && st.scopes.sets <= st'.scopes.sets && st.guards.sets <= st'.guards.sets
      && st.raii.sets <= st'.raii.sets
  }

  lemma {:induction false} LocalsGrow(strings: seq<string>, strings': seq<string>, vs: Members)
    requires strings <= strings' && LocalsIn(vs, |strings|)
    ensures LocalsOf(strings', vs) == LocalsOf(strings, vs) && LocalsIn(vs, |strings'|)
  {
    if vs != [] {
      LocalsGrow(strings, strings', vs[..|vs| - 1]);
      assert LocalIn(vs[|vs| - 1], |strings|);
    }
  }

  lemma MaterializeGrows(st: Store, st': Store, se: Stored)
    requires StoreOk(st) && StoredIn(st, se) && Grows(st, st')
    ensures Materialize(st', se) == Materialize(st, se) && StoredIn(st', se)
  {
    hide SetTableOk;
    LocalsGrow(st.strings, st'.strings, SetAt(st.raii, se.raiiSet));
  }

  lemma {:induction false} MaterializedGrows(st: Store, st': Store, contexts: seq<Stored>)
    requires StoreOk(st) && AllIn(st, contexts) && Grows(st, st')
    ensures Materialized(st', contexts) == Materialized(st, contexts) && AllIn(st', contexts)
  {
    hide StoreOk, Grows, StoredIn, Materialize;
    if contexts != [] {
      MaterializedGrows(st, st', contexts[..|contexts| - 1]);
      MaterializeGrows(st, st', contexts[|contexts| - 1]);
      assert StoredIn(st, contexts[|contexts| - 1]);
    }
  }

  // ---- the index maps -----------------------------------------------------------------------------

  datatype Key = ByCallee | ByCaller | ByCalleeDisplay | ByCallerDisplay | BySite | ByTu

  /** Where a context is listed; the display twins carry it only when the display name differs. */
  function KeyIn(k: Key, se: Stored): Option<Id> {
    match k
    case ByCallee => Some(se.callee)
    case ByCaller => Some(se.caller)
    case ByCalleeDisplay => if se.calleeDisplay != se.callee then Some(se.calleeDisplay) else None
    case ByCallerDisplay => if se.callerDisplay != se.caller then Some(se.callerDisplay) else None
    case BySite => Some(se.site)
    case ByTu => se.tuPath
  }

  /** The live contexts listed under an id, ascending. */
  ghost function Listed(contexts: seq<Stored>, k: Key, id: Id): seq<nat> {
    if contexts == [] then []
    else
      var i := |contexts| - 1;
      Listed(contexts[..i], k, id) + (if contexts[i].live && KeyIn(k, contexts[i]) == Some(id) then [i] else [])
  }

  ghost function Unproven(contexts: seq<Stored>): seq<nat> {
    if contexts == [] then []
    else
      var i := |contexts| - 1;
      Unproven(contexts[..i]) + (if contexts[i].live && contexts[i].tuPath.None? then [i] else [])
  }

  ghost predicate IndexOk(contexts: seq<Stored>, m: map<Id, seq<nat>>, k: Key) {
    forall id: Id :: E.Slots(m, id) == Listed(contexts, k, id)
  }

  function CountLive(contexts: seq<Stored>): nat {
    if contexts == [] then 0
    else CountLive(contexts[..|contexts| - 1]) + (if contexts[|contexts| - 1].live then 1 else 0)
  }

  function Push(m: map<Id, seq<nat>>, key: Option<Id>, i: nat): map<Id, seq<nat>> {
    match key
    case None => m
    case Some(id) => m[id := E.Slots(m, id) + [i]]
  }

  /** The six maps together. */
  datatype Maps = Maps(byCallee: map<Id, seq<nat>>, byCaller: map<Id, seq<nat>>, byCalleeDisplay: map<Id, seq<nat>>,
                       byCallerDisplay: map<Id, seq<nat>>, bySite: map<Id, seq<nat>>, byTu: map<Id, seq<nat>>)

  ghost predicate MapsOk(contexts: seq<Stored>, m: Maps) {
    && IndexOk(contexts, m.byCallee, ByCallee) && IndexOk(contexts, m.byCaller, ByCaller)
    && IndexOk(contexts, m.byCalleeDisplay, ByCalleeDisplay) && IndexOk(contexts, m.byCallerDisplay, ByCallerDisplay)
    && IndexOk(contexts, m.bySite, BySite) && IndexOk(contexts, m.byTu, ByTu)
  }

  /** A record listed under each of its keys. */
  function PushAll(m: Maps, se: Stored, i: nat): Maps {
    Maps(Push(m.byCallee, KeyIn(ByCallee, se), i), Push(m.byCaller, KeyIn(ByCaller, se), i),
         Push(m.byCalleeDisplay, KeyIn(ByCalleeDisplay, se), i), Push(m.byCallerDisplay, KeyIn(ByCallerDisplay, se), i),
         Push(m.bySite, KeyIn(BySite, se), i), Push(m.byTu, KeyIn(ByTu, se), i))
  }

  /** No id has an empty list. */
  ghost predicate NoneEmptied(m: Maps) {
    && (forall id :: id in m.byCallee ==> m.byCallee[id] != [])
    && (forall id :: id in m.byCaller ==> m.byCaller[id] != [])
  }

  lemma PushAllFills(m: Maps, se: Stored, i: nat)
    requires NoneEmptied(m)
    ensures NoneEmptied(PushAll(m, se, i))
  {
  }

  lemma PushAllOk(contexts: seq<Stored>, se: Stored, m: Maps)
    requires MapsOk(contexts, m) && se.live
    ensures MapsOk(contexts + [se], PushAll(m, se, |contexts|))
  {
    hide IndexOk, Push, KeyIn;
    PushOk(contexts, se, m.byCallee, ByCallee);
    PushOk(contexts, se, m.byCaller, ByCaller);
    PushOk(contexts, se, m.byCalleeDisplay, ByCalleeDisplay);
    PushOk(contexts, se, m.byCallerDisplay, ByCallerDisplay);
    PushOk(contexts, se, m.bySite, BySite);
    PushOk(contexts, se, m.byTu, ByTu);
  }

  lemma PushOk(contexts: seq<Stored>, se: Stored, m: map<Id, seq<nat>>, k: Key)
    requires IndexOk(contexts, m, k) && se.live
    ensures IndexOk(contexts + [se], Push(m, KeyIn(k, se), |contexts|), k)
  {
    assert (contexts + [se])[..|contexts|] == contexts;
    var m' := Push(m, KeyIn(k, se), |contexts|);
    forall id: Id ensures E.Slots(m', id) == Listed(contexts + [se], k, id) {
      assert E.Slots(m, id) == Listed(contexts, k, id);
    }
  }

  lemma AppendOne(st: Store, contexts: seq<Stored>, se: Stored)
    requires se.live
    ensures Materialized(st, contexts + [se]) == Materialized(st, contexts) + [Materialize(st, se)]
    ensures CountLive(contexts + [se]) == CountLive(contexts) + 1
    ensures Unproven(contexts + [se]) == Unproven(contexts) + (if se.tuPath.None? then [|contexts|] else [])
  {
    assert (contexts + [se])[..|contexts|] == contexts;
  }

  // ---- interning --------------------------------------------------------------------------------------

  method InternNames(strings: seq<string>, ids: map<string, Id>, names: seq<string>)
    returns (strings': seq<string>, ids': map<string, Id>, out: seq<Id>)
    requires InternerOk(strings, ids)
    ensures InternerOk(strings', ids') && strings <= strings' && |strings'| <= |strings| + |names|
    ensures |out| == |names| && forall i :: 0 <= i < |names| ==> out[i] < |strings'| && strings'[out[i]] == names[i]
  {
    hide InternerOk;
    strings', ids', out := strings, ids, [];
    for i := 0 to |names|
      invariant InternerOk(strings', ids') && strings <= strings' && |strings'| <= |strings| + i
      invariant |out| == i && forall j :: 0 <= j < i ==> out[j] < |strings'| && strings'[out[j]] == names[j]
    {
      var id;
      strings', ids', id := InternString(strings', ids', names[i]);
      out := out + [id];
    }
  }

  function LocalValue(a: Id, b: Id, c: Id, kind: nat): W.Value {
    W.Pair(W.Nat(a), W.Pair(W.Nat(b), W.Pair(W.Nat(c), W.Pair(W.Nat(kind), W.Unit))))
  }

  lemma LocalFits(a: Id, b: Id, c: Id, kind: nat)
    requires a < W.TWO32 && b < W.TWO32 && c < W.TWO32 && kind < 256
    ensures W.Fits(RAII, LocalValue(a, b, c, kind))
  {
    W.Widths();
    assert W.Fits(W.End, W.Unit) && W.Fits(W.U8, W.Nat(kind));
    assert W.Fits(W.Then(W.U8, W.End), W.Pair(W.Nat(kind), W.Unit));
    assert W.Fits(W.Then(W.U32, W.Then(W.U8, W.End)), W.Pair(W.Nat(c), W.Pair(W.Nat(kind), W.Unit)));
  }

  method InternLocals(strings: seq<string>, ids: map<string, Id>, locals: seq<RaiiLocal>)
    returns (strings': seq<string>, ids': map<string, Id>, vs: Members)
    requires InternerOk(strings, ids) && |strings| + 3 * |locals| <= W.TWO32 && forall l :: l in locals ==> l.kind < 256
    ensures InternerOk(strings', ids') && strings <= strings' && |strings'| <= |strings| + 3 * |locals|
    ensures LocalsIn(vs, |strings'|) && LocalsOf(strings', vs) == locals && MembersFit(RAII, vs)
  {
    hide InternerOk, W.Fits;
    strings', ids', vs := strings, ids, [];
    for i := 0 to |locals|
      invariant InternerOk(strings', ids') && strings <= strings' && |strings'| <= |strings| + 3 * i
      invariant LocalsIn(vs, |strings'|) && LocalsOf(strings', vs) == locals[..i] && MembersFit(RAII, vs)
    {
      ghost var before := strings';
      var out;
      strings', ids', out := InternNames(strings', ids',
        [locals[i].typeName, locals[i].varName, locals[i].declLocation]);
      LocalsGrow(before, strings', vs);
      LocalFits(out[0], out[1], out[2], locals[i].kind);
      var v := LocalValue(out[0], out[1], out[2], locals[i].kind);
      assert locals[..i + 1] == locals[..i] + [locals[i]];
      LocalsOne(strings', vs, v);
      vs := vs + [v];
    }
    assert locals[..|locals|] == locals;
  }

  /** Interning strings and one set of locals keeps the tables in order. */
  lemma GrownStore(st: Store, st': Store, locals: Members)
    requires StoreOk(st) && st.strings <= st'.strings && LocalsIn(locals, |st'.strings|)
    requires SetTableOk(SCOPE, st'.scopes) && SetTableOk(GUARD, st'.guards) && SetTableOk(RAII, st'.raii)
    requires st.scopes.sets <= st'.scopes.sets && st.guards.sets <= st'.guards.sets
    requires st'.raii.sets == st.raii.sets || st'.raii.sets == st.raii.sets + [locals]
    ensures StoreOk(st') && Grows(st, st')
  {
    hide SetTableOk;
    forall i | 0 <= i < |st'.raii.sets| ensures LocalsIn(st'.raii.sets[i], |st'.strings|) {
      if i < |st.raii.sets| {
        LocalsGrow(st.strings, st'.strings, st.raii.sets[i]);
      }
    }
  }

  // ---- another index's records under this one's ids ------------------------------------------------------

  function MapId(remap: seq<Id>, id: Id): Id {
    if id < |remap| then remap[id] else 0
  }

  function MapLocal(remap: seq<Id>, v: W.Value): W.Value {
    match v
    case Pair(Nat(a), Pair(Nat(b), Pair(Nat(c), Pair(Nat(k), Unit)))) =>
      LocalValue(MapId(remap, a), MapId(remap, b), MapId(remap, c), k)
    case _ => v
  }

  function MapLocals(remap: seq<Id>, vs: Members): Members {
    if vs == [] then [] else MapLocals(remap, vs[..|vs| - 1]) + [MapLocal(remap, vs[|vs| - 1])]
  }

  ghost predicate StringsMatch(from: seq<string>, to: seq<string>, remap: seq<Id>) {
    |remap| == |from| && forall i :: 0 <= i < |remap| ==> remap[i] < |to| && to[remap[i]] == from[i]
  }

  lemma LocalKind(v: W.Value, n: nat)
    requires W.Fits(RAII, v) && LocalIn(v, n)
    ensures v.tail.tail.tail.head.n < 256
  {
    W.Widths();
    assert W.Fits(W.Then(W.U32, W.Then(W.U8, W.End)), v.tail.tail);
    assert W.Fits(W.U8, v.tail.tail.tail.head);
  }

  lemma MapLocalSame(from: seq<string>, to: seq<string>, remap: seq<Id>, v: W.Value)
    requires StringsMatch(from, to, remap) && LocalIn(v, |from|) && W.Fits(RAII, v) && |to| <= W.TWO32
    ensures var w := MapLocal(remap, v); LocalOf(to, w) == LocalOf(from, v) && LocalIn(w, |to|) && W.Fits(RAII, w)
  {
    LocalKind(v, |from|);
    hide W.Fits;
    var a, b, c, k := v.head.n, v.tail.head.n, v.tail.tail.head.n, v.tail.tail.tail.head.n;
    LocalFits(remap[a], remap[b], remap[c], k);
  }

  lemma {:induction false} MapLocalsSame(from: seq<string>, to: seq<string>, remap: seq<Id>, vs: Members)
    requires StringsMatch(from, to, remap) && LocalsIn(vs, |from|) && MembersFit(RAII, vs) && |to| <= W.TWO32
    ensures LocalsOf(to, MapLocals(remap, vs)) == LocalsOf(from, vs)
    ensures LocalsIn(MapLocals(remap, vs), |to|) && MembersFit(RAII, MapLocals(remap, vs))
  {
    hide W.Fits, MapLocal, LocalOf, LocalIn, StringsMatch;
    if vs != [] {
      var init, v := vs[..|vs| - 1], vs[|vs| - 1];
      MapLocalsSame(from, to, remap, init);
      assert LocalIn(v, |from|);
      MapLocalSame(from, to, remap, v);
      MapLocalsSize(remap, init);
      LocalsOne(to, MapLocals(remap, init), MapLocal(remap, v));
    }
  }

  lemma LocalsOne(strings: seq<string>, vs: Members, v: W.Value)
    ensures LocalsOf(strings, vs + [v]) == LocalsOf(strings, vs) + [LocalOf(strings, v)]
  {
    assert (vs + [v])[..|vs|] == vs;
  }

  lemma {:induction false} MapLocalsSize(remap: seq<Id>, vs: Members)
    ensures |MapLocals(remap, vs)| == |vs|
  {
    if vs != [] { MapLocalsSize(remap, vs[..|vs| - 1]); }
  }

  datatype Remap = Remap(ids: seq<Id>, scopes: seq<nat>, guards: seq<nat>, raii: seq<nat>)

  /** Every string and set of one store stands under its image for the same thing in another. */
  ghost predicate Matches(from: Store, to: Store, m: Remap) {
    && StringsMatch(from.strings, to.strings, m.ids)
    && SetsMatch(from.scopes, to.scopes, m.scopes) && SetsMatch(from.guards, to.guards, m.guards)
    && |m.raii| == |from.raii.sets|
    && forall i :: 0 <= i < |m.raii| ==>
         m.raii[i] < |to.raii.sets| && LocalsOf(to.strings, to.raii.sets[m.raii[i]])
           == LocalsOf(from.strings, from.raii.sets[i])
  }

  ghost predicate SetsMatch(from: SetTable, to: SetTable, remap: seq<nat>) {
    |remap| == |from.sets| && forall i :: 0 <= i < |remap| ==> remap[i] < |to.sets| && to.sets[remap[i]] == from.sets[i]
  }

  function Mapped(m: Remap, se: Stored): Stored {
    Stored(MapId(m.ids, se.caller), MapId(m.ids, se.callee), MapId(m.ids, se.callerDisplay),
           MapId(m.ids, se.calleeDisplay),
           MapId(m.ids, se.site), if se.tuPath.Some? then Some(MapId(m.ids, se.tuPath.value)) else None,
           MapId(m.scopes, se.scopeSet), MapId(m.guards, se.guardSet), MapId(m.raii, se.raiiSet),
           se.callerNoexcept, se.insideCatchBlock, se.live)
  }

  /** A remapped record reads as the original. */
  lemma MappedSame(from: Store, to: Store, m: Remap, se: Stored)
    requires Matches(from, to, m) && StoredIn(from, se)
    ensures StoredIn(to, Mapped(m, se)) && Materialize(to, Mapped(m, se)) == Materialize(from, se)
  {
    hide LocalsOf;
  }

  method RemapSets(layout: W.Layout, t: SetTable, from: SetTable) returns (t': SetTable, remap: seq<nat>)
    requires SetTableOk(layout, t) && SetTableOk(layout, from) && W.Solid(layout)
    ensures SetTableOk(layout, t') && t.sets <= t'.sets && SetsMatch(from, t', remap)
  {
    hide SetTableOk, MembersFit;
    t', remap := t, [0];
    SetZero(layout, t);
    SetZero(layout, from);
    for i := 1 to |from.sets|
      invariant SetTableOk(layout, t') && t.sets <= t'.sets && |remap| == i
      invariant forall j :: 0 <= j < i ==> remap[j] < |t'.sets| && t'.sets[remap[j]] == from.sets[j]
    {
      var id;
      SetFits(layout, from, i);
      t', id := InternSet(layout, t', from.sets[i]);
      remap := remap + [id];
    }
  }

  lemma SetZero(layout: W.Layout, t: SetTable)
    requires SetTableOk(layout, t)
    ensures |t.sets| > 0 && t.sets[0] == []
  {
  }

  lemma SetFits(layout: W.Layout, t: SetTable, i: nat)
    requires SetTableOk(layout, t) && i < |t.sets|
    ensures MembersFit(layout, t.sets[i])
  {
  }

  ghost predicate AllLocalsIn(t: SetTable, n: nat) {
    forall i :: 0 <= i < |t.sets| ==> LocalsIn(t.sets[i], n)
  }

  /** The RAII table is in id space: its sets are remapped before they are looked up. */
  method RemapRaii(t: SetTable, from: SetTable, ids: seq<Id>, ghost fromStrings: seq<string>,
                   ghost strings: seq<string>)
    returns (t': SetTable, remap: seq<nat>)
    requires SetTableOk(RAII, t) && SetTableOk(RAII, from) && AllLocalsIn(t, |strings|)
    requires AllLocalsIn(from, |fromStrings|)
    requires StringsMatch(fromStrings, strings, ids) && |strings| <= W.TWO32
    ensures SetTableOk(RAII, t') && t.sets <= t'.sets && AllLocalsIn(t', |strings|) && |remap| == |from.sets|
    ensures forall i :: 0 <= i < |remap| ==>
      remap[i] < |t'.sets| && LocalsOf(strings, t'.sets[remap[i]]) == LocalsOf(fromStrings, from.sets[i])
  {
    hide SetTableOk, MembersFit, StringsMatch, LocalsIn, LocalsOf, W.Solid;
    LayoutsAreSolid();
    t', remap := t, [0];
    SetZero(RAII, t);
    SetZero(RAII, from);
    NoLocals(strings, fromStrings);
    for i := 1 to |from.sets|
      invariant SetTableOk(RAII, t') && t.sets <= t'.sets && AllLocalsIn(t', |strings|) && |remap| == i
      invariant forall j :: 0 <= j < i ==>
        remap[j] < |t'.sets| && LocalsOf(strings, t'.sets[remap[j]]) == LocalsOf(fromStrings, from.sets[j])
    {
      var id;
      SetFits(RAII, from, i);
      MapLocalsSame(fromStrings, strings, ids, from.sets[i]);
      t', id := InternSet(RAII, t', MapLocals(ids, from.sets[i]));
      remap := remap + [id];
    }
  }

  lemma NoLocals(a: seq<string>, b: seq<string>)
    ensures LocalsOf(a, []) == LocalsOf(b, [])
  {
  }

  // ---- tombstones ---------------------------------------------------------------------------------------

  /** The contexts with some of them tombstoned. */
  ghost predicate Killed(before: seq<Stored>, after: seq<Stored>, dead: set<nat>) {
    |after| == |before| && forall i :: 0 <= i < |before| ==>
      after[i] == if i in dead then before[i].(live := false) else before[i]
  }

  lemma {:induction false} ListedMember(contexts: seq<Stored>, k: Key, id: Id, i: nat)
    ensures i in Listed(contexts, k, id) <==> i < |contexts| && contexts[i].live && KeyIn(k, contexts[i]) == Some(id)
  {
    hide KeyIn;
    if contexts != [] {
      ListedMember(contexts[..|contexts| - 1], k, id, i);
    }
  }

  lemma {:induction false} UnprovenMember(contexts: seq<Stored>, i: nat)
    ensures i in Unproven(contexts) <==> i < |contexts| && contexts[i].live && contexts[i].tuPath.None?
  {
    if contexts != [] {
      UnprovenMember(contexts[..|contexts| - 1], i);
    }
  }

  lemma ScrubbedAppend(list: seq<nat>, x: nat, dead: set<nat>)
    ensures E.Scrubbed(list + [x], dead) == E.Scrubbed(list, dead) + (if x in dead then [] else [x])
  {
    assert (list + [x])[..|list|] == list;
  }

  lemma {:induction false} ListedKilled(before: seq<Stored>, after: seq<Stored>, dead: set<nat>, k: Key, id: Id)
    requires Killed(before, after, dead)
    ensures Listed(after, k, id) == E.Scrubbed(Listed(before, k, id), dead)
  {
    if before != [] {
      var i := |before| - 1;
      ListedKilled(before[..i], after[..i], dead, k, id);
      assert KeyIn(k, after[i]) == KeyIn(k, before[i]);
      ScrubbedAppend(Listed(before[..i], k, id), i, dead);
      assert Listed(before[..i], k, id) + [] == Listed(before[..i], k, id);
    }
  }

  lemma {:induction false} UnprovenKilled(before: seq<Stored>, after: seq<Stored>, dead: set<nat>)
    requires Killed(before, after, dead)
    ensures Unproven(after) == E.Scrubbed(Unproven(before), dead)
  {
    if before != [] {
      var i := |before| - 1;
      UnprovenKilled(before[..i], after[..i], dead);
      ScrubbedAppend(Unproven(before[..i]), i, dead);
      assert Unproven(before[..i]) + [] == Unproven(before[..i]);
    }
  }

  lemma {:induction false} ScrubbedNothing(list: seq<nat>, dead: set<nat>)
    requires forall i :: i in list ==> i !in dead
    ensures E.Scrubbed(list, dead) == list
  {
    if list != [] {
      assert list == list[..|list| - 1] + [list[|list| - 1]];
      ScrubbedNothing(list[..|list| - 1], dead);
    }
  }

  lemma {:induction false} ScrubbedAll(list: seq<nat>, dead: set<nat>)
    requires forall i :: i in list ==> i in dead
    ensures E.Scrubbed(list, dead) == []
  {
    if list != [] {
      assert list == list[..|list| - 1] + [list[|list| - 1]];
      ScrubbedAll(list[..|list| - 1], dead);
    }
  }

  lemma {:induction false} CountKilledOne(contexts: seq<Stored>, i: nat)
    requires i < |contexts| && contexts[i].live
    ensures CountLive(contexts[i := contexts[i].(live := false)]) + 1 == CountLive(contexts)
  {
    var n := |contexts| - 1;
    var after := contexts[i := contexts[i].(live := false)];
    if i < n {
      CountKilledOne(contexts[..n], i);
      assert after[..n] == contexts[..n][i := contexts[i].(live := false)];
    } else {
      assert after[..n] == contexts[..n];
    }
  }

  /** Every tombstoned context's id is among the affected ones. */
  ghost predicate Noted(before: seq<Stored>, dead: set<nat>, k: Key, affected: set<Id>) {
    forall i :: i in dead && i < |before| && KeyIn(k, before[i]).Some? ==> KeyIn(k, before[i]).value in affected
  }

  /** Scrubbing the affected lists is enough. */
  lemma ScrubIndexOk(before: seq<Stored>, after: seq<Stored>, dead: set<nat>, k: Key, m: map<Id, seq<nat>>,
                     m': map<Id, seq<nat>>, affected: set<Id>)
    requires IndexOk(before, m, k) && Killed(before, after, dead) && Noted(before, dead, k, affected)
    requires E.ScrubbedAt(m, m', affected, dead)
    ensures IndexOk(after, m', k)
  {
    hide KeyIn;
    forall id: Id ensures E.Slots(m', id) == Listed(after, k, id) {
      ListedKilled(before, after, dead, k, id);
      assert E.Slots(m, id) == Listed(before, k, id);
      if id !in affected {
        forall i | i in Listed(before, k, id) ensures i !in dead {
          ListedMember(before, k, id, i);
        }
        ScrubbedNothing(Listed(before, k, id), dead);
      }
    }
  }

  // ---- what removal takes ---------------------------------------------------------------------------------

  /** Contributed by one of the units; without provenance, a site whose spelling starts with
      the unit's path and a colon. */
  predicate Leaves(ctx: Context, tuPaths: seq<string>) {
    if ctx.tuPath != "" then ctx.tuPath in tuPaths
    else exists t :: t in tuPaths && t + ":" <= ctx.callSite
  }

  function Remaining(cs: seq<Context>, tuPaths: seq<string>): seq<Context> {
    if cs == [] then []
    else
      var c := cs[|cs| - 1];
      Remaining(cs[..|cs| - 1], tuPaths) + (if Leaves(c, tuPaths) then [] else [c])
  }

  lemma RemainingOne(cs: seq<Context>, c: Context, tuPaths: seq<string>)
    ensures Remaining(cs + [c], tuPaths) == Remaining(cs, tuPaths) + (if Leaves(c, tuPaths) then [] else [c])
  {
    assert (cs + [c])[..|cs|] == cs;
  }

  /** A context goes when one of the units contributed it, or when no unit is on record for it
      and its site is spelled with one of their paths and a colon in front. */
  ghost predicate GoesWith(ctx: Context, tuPaths: seq<string>) {
    || (ctx.tuPath != "" && exists k :: 0 <= k < |tuPaths| && tuPaths[k] == ctx.tuPath)
    || (ctx.tuPath == ""
          && exists k :: 0 <= k < |tuPaths| && |tuPaths[k]| < |ctx.callSite|
                           && ctx.callSite[..|tuPaths[k]|] == tuPaths[k] && ctx.callSite[|tuPaths[k]|] == ':')
  }

  /** The rest stay, each as often as before, in their order. */
  lemma {:induction false} RemainingIs(cs: seq<Context>, tuPaths: seq<string>, c: Context)
    ensures multiset(Remaining(cs, tuPaths))[c] == if GoesWith(c, tuPaths) then 0 else multiset(cs)[c]
  {
    GoesIff(c, tuPaths);
    hide Leaves, GoesWith;
    if cs != [] {
      var init, last := cs[..|cs| - 1], cs[|cs| - 1];
      RemainingIs(init, tuPaths, c);
      GoesIff(last, tuPaths);
      assert cs == init + [last];
    }
  }

  ghost predicate Thinned(before: seq<Context>, after: seq<Context>, tuPaths: seq<string>) {
    forall c :: multiset(after)[c] == if GoesWith(c, tuPaths) then 0 else multiset(before)[c]
  }

  lemma AllRemainingIs(cs: seq<Context>, tuPaths: seq<string>)
    ensures Thinned(cs, Remaining(cs, tuPaths), tuPaths)
  {
    hide Leaves, GoesWith, Remaining;
    forall c ensures multiset(Remaining(cs, tuPaths))[c] == if GoesWith(c, tuPaths) then 0 else multiset(cs)[c] {
      RemainingIs(cs, tuPaths, c);
    }
  }

  lemma PrefixIs(t: string, site: string)
    ensures t + ":" <= site <==> |t| < |site| && site[..|t|] == t && site[|t|] == ':'
  {
    var p := t + ":";
    assert p[|t|] == ':' && p[..|t|] == t;
    if |t| < |site| && site[..|t|] == t && site[|t|] == ':' {
      assert site[..|p|] == p;
    }
  }

  lemma GoesIff(ctx: Context, tuPaths: seq<string>)
    ensures GoesWith(ctx, tuPaths) <==> Leaves(ctx, tuPaths)
  {
    forall t: string ensures t + ":" <= ctx.callSite <==>
      |t| < |ctx.callSite| && ctx.callSite[..|t|] == t && ctx.callSite[|t|] == ':'
    {
      assert |t + ":"| == |t| + 1;
      PrefixIs(t, ctx.callSite);
    }
    if Leaves(ctx, tuPaths) && ctx.tuPath == "" {
      var t :| t in tuPaths && t + ":" <= ctx.callSite;
      var k :| 0 <= k < |tuPaths| && tuPaths[k] == t;
      assert |tuPaths[k]| < |ctx.callSite|;
    }
  }

  /** Removal works on each stretch of contexts by itself, so it keeps their order. */
  lemma {:induction false} RemainingInOrder(a: seq<Context>, b: seq<Context>, tuPaths: seq<string>)
    ensures Remaining(a + b, tuPaths) == Remaining(a, tuPaths) + Remaining(b, tuPaths)
  {
    hide Leaves;
    if b == [] {
      assert a + b == a && Remaining(a, tuPaths) + [] == Remaining(a, tuPaths);
    } else {
      var init, last := b[..|b| - 1], b[|b| - 1];
      RemainingInOrder(a, init, tuPaths);
      RemainingOne(a + init, last, tuPaths);
      assert a + b == (a + init) + [last] && b == init + [last];
    }
  }

  lemma {:induction false} MaterializedSize(st: Store, contexts: seq<Stored>)
    ensures |Materialized(st, contexts)| == CountLive(contexts)
  {
    if contexts != [] { MaterializedSize(st, contexts[..|contexts| - 1]); }
  }

  /** Exactly the live contexts of the units are dead. */
  ghost predicate RightDead(st: Store, before: seq<Stored>, dead: set<nat>, tuPaths: seq<string>) {
    forall i :: 0 <= i < |before| && before[i].live ==> (i in dead <==> Leaves(Materialize(st, before[i]), tuPaths))
  }

  lemma {:induction false} MaterializedKilled(st: Store, before: seq<Stored>, after: seq<Stored>, dead: set<nat>,
                                              tuPaths: seq<string>)
    requires Killed(before, after, dead) && RightDead(st, before, dead, tuPaths)
    ensures Materialized(st, after) == Remaining(Materialized(st, before), tuPaths)
  {
    hide Leaves, Materialize, Materialized, Remaining;
    if before == [] {
      NothingMaterialized(st);
      NothingRemains(tuPaths);
    } else {
      var i := |before| - 1;
      MaterializedKilled(st, before[..i], after[..i], dead, tuPaths);
      assert before == before[..i + 1] && after == after[..i + 1];
      MaterializedStep(st, before, i);
      MaterializedStep(st, after, i);
      SameMaterial(st, before[i]);
      RemainingOne(Materialized(st, before[..i]), Materialize(st, before[i]), tuPaths);
      assert Materialized(st, before[..i]) + [] == Materialized(st, before[..i]);
      assert Remaining(Materialized(st, before[..i]), tuPaths) + []
        == Remaining(Materialized(st, before[..i]), tuPaths);
    }
  }

  lemma SameMaterial(st: Store, se: Stored)
    ensures Materialize(st, se.(live := false)) == Materialize(st, se)
  {
  }

  lemma NothingRemains(tuPaths: seq<string>)
    ensures Remaining([], tuPaths) == []
  {
  }

  /** The per-TU map without the removed units' lists. */
  lemma DroppedTus(st: Store, before: seq<Stored>, after: seq<Stored>, dead: set<nat>, tuPaths: seq<string>,
                   m: map<Id, seq<nat>>, gone: set<Id>)
    requires StoreOk(st) && AllIn(st, before) && IndexOk(before, m, ByTu) && Killed(before, after, dead)
    requires RightDead(st, before, dead, tuPaths)
    requires forall u: Id :: u < |st.strings| ==> (u in gone <==> st.strings[u] in tuPaths)
    requires forall u: Id :: u in gone ==> u < |st.strings|
    requires forall i :: i in dead ==> i < |before| && before[i].live
    ensures IndexOk(after, m - gone, ByTu)
  {
    hide StoreOk, StoredIn, Leaves, Listed, RightDead, AllIn, Killed;
    forall id: Id ensures E.Slots(m - gone, id) == Listed(after, ByTu, id) {
      ListedKilled(before, after, dead, ByTu, id);
      assert E.Slots(m, id) == Listed(before, ByTu, id);
      var list := Listed(before, ByTu, id);
      forall i | i in list ensures i in dead <==> id in gone {
        TuIsDead(st, before, dead, tuPaths, gone, id, i);
      }
      if id in gone { ScrubbedAll(list, dead); } else { ScrubbedNothing(list, dead); }
    }
  }

  lemma TuIsDead(st: Store, before: seq<Stored>, dead: set<nat>, tuPaths: seq<string>, gone: set<Id>, id: Id, i: nat)
    requires AllIn(st, before) && RightDead(st, before, dead, tuPaths) && i in Listed(before, ByTu, id)
    requires forall u: Id :: u < |st.strings| ==> (u in gone <==> st.strings[u] in tuPaths)
    ensures i in dead <==> id in gone
  {
    hide Listed;
    ListedMember(before, ByTu, id, i);
    assert StoredIn(st, before[i]);
    LeavesByTu(st, before[i], tuPaths);
  }

  lemma LeavesByTu(st: Store, se: Stored, tuPaths: seq<string>)
    requires StoredIn(st, se)
    ensures se.tuPath.Some? ==> (Leaves(Materialize(st, se), tuPaths) <==> st.strings[se.tuPath.value] in tuPaths)
  {
  }

  // ---- the index ------------------------------------------------------------------------------------------

  /** addCallSiteContext keys contexts without usrs by their display names. */
  function Normalized(ctx: Context): Context {
    ctx.(callerUsr := if ctx.callerUsr == "" then ctx.callerName else ctx.callerUsr,
         calleeUsr := if ctx.calleeUsr == "" then ctx.calleeName else ctx.calleeUsr)
  }

  /** The stored context is the caller's, field by field; only a usr it left out is filled in. */
  ghost predicate IsStoredFor(ctx: Context, c: Context) {
    && (ctx.callerUsr != "" ==> c.callerUsr == ctx.callerUsr)
    && (ctx.callerUsr == "" ==> c.callerUsr == ctx.callerName)
    && (ctx.calleeUsr != "" ==> c.calleeUsr == ctx.calleeUsr)
    && (ctx.calleeUsr == "" ==> c.calleeUsr == ctx.calleeName)
    && c.callerName == ctx.callerName && c.calleeName == ctx.calleeName && c.callSite == ctx.callSite
    && c.tuPath == ctx.tuPath && c.scopes == ctx.scopes && c.guards == ctx.guards && c.locals == ctx.locals
    && c.callerNoexcept == ctx.callerNoexcept && c.insideCatchBlock == ctx.insideCatchBlock
  }

  lemma NormalizedIs(ctx: Context)
    ensures IsStoredFor(ctx, Normalized(ctx))
  {
  }

  /** A context the widths of the tables can hold. */
  ghost predicate Storable(ctx: Context, interned: nat) {
    && MembersFit(SCOPE, ctx.scopes) && MembersFit(GUARD, ctx.guards)
    && (forall l :: l in ctx.locals ==> l.kind < 256) && interned + 6 + 3 * |ctx.locals| <= W.TWO32
  }

  /** The strings of a context in the order the program interns them; a missing usr is its
      display name again. */
  function NamesOf(ctx: Context): seq<string> {
    [ctx.calleeName, ctx.callerName, Normalized(ctx).calleeUsr, Normalized(ctx).callerUsr, ctx.callSite]
  }

  method InternAll(strings: seq<string>, ids: map<string, Id>, ctx: Context)
    returns (strings': seq<string>, ids': map<string, Id>, names: seq<Id>, tuId: Option<Id>, locals: Members)
    requires InternerOk(strings, ids) && Storable(ctx, |strings|)
    ensures InternerOk(strings', ids') && strings <= strings' && |strings'| <= |strings| + 6 + 3 * |ctx.locals|
    ensures |names| == 5 && forall i :: 0 <= i < 5 ==> names[i] < |strings'| && strings'[names[i]] == NamesOf(ctx)[i]
    ensures tuId.Some? <==> ctx.tuPath != ""
    ensures tuId.Some? ==> tuId.value < |strings'| && strings'[tuId.value] == ctx.tuPath
    ensures LocalsIn(locals, |strings'|) && LocalsOf(strings', locals) == ctx.locals && MembersFit(RAII, locals)
  {
    hide InternerOk, MembersFit, LocalsOf, LocalsIn, W.Fits, NamesOf;
    NameCount(ctx);
    strings', ids', names := InternNames(strings, ids, NamesOf(ctx));
    tuId := None;
    if ctx.tuPath != "" {
      var id;
      strings', ids', id := InternString(strings', ids', ctx.tuPath);
      tuId := Some(id);
    }
    strings', ids', locals := InternLocals(strings', ids', ctx.locals);
  }

  lemma NameCount(ctx: Context)
    ensures |NamesOf(ctx)| == 5
  {
  }

  class ControlFlowIndex {
    var strings: seq<string>
    var ids: map<string, Id>
    var contexts: seq<Stored>
    var scopes: SetTable
    var guards: SetTable
    var raii: SetTable
    var byCallee: map<Id, seq<nat>>
    var byCaller: map<Id, seq<nat>>
    var byCalleeDisplay: map<Id, seq<nat>>
    var byCallerDisplay: map<Id, seq<nat>>
    var bySite: map<Id, seq<nat>>
    var byTu: map<Id, seq<nat>>
    var noProvenance: seq<nat>
    var liveCount: nat

    function Tables(): Store
      reads this
    {
      Store(strings, scopes, guards, raii)
    }

    function IndexMaps(): Maps
      reads this
    {
      Maps(byCallee, byCaller, byCalleeDisplay, byCallerDisplay, bySite, byTu)
    }

    /** The live contexts as callers see them. */
    ghost function Contents(): seq<Context>
      reads this
    {
      Materialized(Tables(), contexts)
    }

    /** Every index map lists exactly the live contexts of each id. */
    ghost predicate Indexed()
      reads this
    {
      && MapsOk(contexts, IndexMaps())
      && noProvenance == Unproven(contexts) && liveCount == CountLive(contexts)
    }

    ghost predicate Valid()
      reads this
    {
      InternerOk(strings, ids) && StoreOk(Tables()) && AllIn(Tables(), contexts) && Indexed()
    }

    constructor ()
      ensures Valid() && Contents() == [] && strings == [] && NoneEmptied(IndexMaps())
    {
      strings, ids, contexts := [], map[], [];
      scopes, guards, raii := EMPTY_TABLE, EMPTY_TABLE, EMPTY_TABLE;
      byCallee, byCaller, byCalleeDisplay, byCallerDisplay, bySite, byTu := map[], map[], map[], map[], map[], map[];
      noProvenance, liveCount := [], 0;
    }

    method SetMaps(m: Maps)
      modifies this`byCallee, this`byCaller, this`byCalleeDisplay, this`byCallerDisplay, this`bySite, this`byTu
      ensures IndexMaps() == m
    {
      byCallee, byCaller, byCalleeDisplay := m.byCallee, m.byCaller, m.byCalleeDisplay;
      byCallerDisplay, bySite, byTu := m.byCallerDisplay, m.bySite, m.byTu;
    }

    /** insertStored. */
    method InsertStored(se: Stored)
      requires Indexed() && se.live
      modifies this`contexts, this`byCallee, this`byCaller, this`byCalleeDisplay, this`byCallerDisplay, this`bySite,
               this`byTu, this`noProvenance, this`liveCount
      ensures Indexed() && contexts == old(contexts) + [se]
      ensures old(NoneEmptied(IndexMaps())) ==> NoneEmptied(IndexMaps())
    {
      hide MapsOk, Unproven, CountLive, PushAll, NoneEmptied;
      PushAllOk(contexts, se, IndexMaps());
      if NoneEmptied(IndexMaps()) {
        PushAllFills(IndexMaps(), se, |contexts|);
      }
      AppendOne(Tables(), contexts, se);
      var idx := |contexts|;
      var m := PushAll(IndexMaps(), se, idx);
      SetMaps(m);
      if se.tuPath.None? {
        noProvenance := noProvenance + [idx];
      }
      contexts := contexts + [se];
      liveCount := liveCount + 1;
    }

    /** Interns the strings and the three sets of a context. */
    method InternContext(ctx: Context) returns (se: Stored)
      requires InternerOk(strings, ids) && StoreOk(Tables()) && Storable(ctx, |strings|)
      modifies this`strings, this`ids, this`scopes, this`guards, this`raii
      ensures InternerOk(strings, ids) && StoreOk(Tables()) && Grows(old(Tables()), Tables())
      ensures |strings| <= old(|strings|) + 6 + 3 * |ctx.locals|
      ensures se.live && StoredIn(Tables(), se) && Materialize(Tables(), se) == Normalized(ctx)
    {
      hide InternerOk, SetTableOk, MembersFit, LocalsOf, LocalsIn, W.Fits, W.Solid;
      LayoutsAreSolid();
      ghost var st := Tables();
      var strings', ids', names, tuId, locals := InternAll(strings, ids, ctx);
      var scopes', scopeSet := InternSet(SCOPE, scopes, ctx.scopes);
      var guards', guardSet := InternSet(GUARD, guards, ctx.guards);
      var raii', raiiSet := InternSet(RAII, raii, locals);
      strings, ids, scopes, guards, raii := strings', ids', scopes', guards', raii';
      se := Stored(names[3], names[2], names[1], names[0], names[4], tuId, scopeSet, guardSet, raiiSet,
        ctx.callerNoexcept, ctx.insideCatchBlock, true);
      GrownStore(st, Tables(), locals);
    }

    /** addCallSiteContext: the context, normalized, at the end. */
    method AddCallSiteContext(ctx: Context)
      requires Valid() && Storable(ctx, |strings|)
      modifies this
      ensures Valid() && Contents() == old(Contents()) + [Normalized(ctx)]
      ensures |Contents()| == |old(Contents())| + 1 && IsStoredFor(ctx, Contents()[|old(Contents())|])
      ensures old(NoneEmptied(IndexMaps())) ==> NoneEmptied(IndexMaps())
      ensures |strings| <= old(|strings|) + 6 + 3 * |ctx.locals|
    {
      hide InternerOk, StoreOk, MapsOk, Materialized, Materialize, StoredIn, Grows, Normalized, Storable, Unproven,
           CountLive, IsStoredFor, NoneEmptied;
      NormalizedIs(ctx);
      ghost var st := Tables();
      var se := InternContext(ctx);
      MaterializedGrows(st, Tables(), contexts);
      AppendOne(Tables(), contexts, se);
      InsertStored(se);
    }

    /** Interns the strings and sets of another index. */
    method AbsorbTables(shard: ControlFlowIndex) returns (m: Remap)
      requires InternerOk(strings, ids) && StoreOk(Tables()) && StoreOk(shard.Tables()) && shard != this
      requires |strings| + |shard.strings| <= W.TWO32
      modifies this`strings, this`ids, this`scopes, this`guards, this`raii
      ensures InternerOk(strings, ids) && StoreOk(Tables()) && Grows(old(Tables()), Tables())
      ensures Matches(shard.Tables(), Tables(), m)
    {
      hide InternerOk, SetTableOk, LocalsOf, LocalsIn, W.Solid;
      LayoutsAreSolid();
      ghost var st := Tables();
      var strings', ids', remap := InternNames(strings, ids, shard.strings);
      RaiiGrows(st, strings');
      var scopes', scopeRemap := RemapSets(SCOPE, scopes, shard.scopes);
      var guards', guardRemap := RemapSets(GUARD, guards, shard.guards);
      var raii', raiiRemap := RemapRaii(raii, shard.raii, remap, shard.strings, strings');
      strings, ids, scopes, guards, raii := strings', ids', scopes', guards', raii';
      m := Remap(remap, scopeRemap, guardRemap, raiiRemap);
    }

    /** absorb: the shard's live contexts behind this index's own. */
    method Absorb(shard: ControlFlowIndex)
      requires Valid() && shard.Valid()
      requires shard != this ==> |strings| + |shard.strings| <= W.TWO32
      modifies this
      ensures Valid()
      ensures shard == this ==> Contents() == old(Contents())
      ensures shard != this ==> Contents() == old(Contents()) + shard.Contents()
      ensures old(NoneEmptied(IndexMaps())) ==> NoneEmptied(IndexMaps())
    {
      hide InternerOk, StoreOk, MapsOk, Materialized, Materialize, StoredIn, Grows, Matches, Unproven, CountLive,
           Mapped, NoneEmptied;
      if shard == this {
        return;
      }
      ghost var st := Tables();
      ghost var from := shard.Tables();
      var m := AbsorbTables(shard);
      MaterializedGrows(st, Tables(), contexts);
      ghost var base, to := Contents(), Tables();
      NothingMaterialized(from);
      assert base + [] == base;
      for i := 0 to |shard.contexts|
        invariant Tables() == to && InternerOk(strings, ids) && AllIn(to, contexts) && Indexed()
        invariant Contents() == base + Materialized(from, shard.contexts[..i])
        invariant old(NoneEmptied(IndexMaps())) ==> NoneEmptied(IndexMaps())
      {
        var se := shard.contexts[i];
        MaterializedStep(from, shard.contexts, i);
        MappedSame(from, to, m, se);
        MappedLive(m, se);
        if se.live {
          AppendOne(to, contexts, Mapped(m, se));
          InsertStored(Mapped(m, se));
        }
      }
      assert shard.contexts[..|shard.contexts|] == shard.contexts;
    }

    /** The candidates for removal: the units' own contexts, then those without provenance. */
    method Candidates(tuPaths: seq<string>) returns (candidates: seq<nat>, provenanced: nat, tuIds: set<Id>)
      requires Valid()
      ensures provenanced <= |candidates| && candidates[provenanced..] == noProvenance
      ensures forall u: Id :: u in tuIds <==> u < |strings| && strings[u] in tuPaths
      ensures forall i :: i in candidates[..provenanced] <==> exists u: Id :: u in tuIds && i in E.Slots(byTu, u)
    {
      hide StoreOk, IndexOk, StoredIn, Unproven, CountLive;
      candidates, tuIds := [], {};
      for k := 0 to |tuPaths|
        invariant forall u: Id :: u in tuIds <==> u < |strings| && strings[u] in tuPaths[..k]
        invariant forall i :: i in candidates <==> exists u: Id :: u in tuIds && i in E.Slots(byTu, u)
      {
        assert tuPaths[..k + 1] == tuPaths[..k] + [tuPaths[k]];
        if tuPaths[k] in ids {
          var id := ids[tuPaths[k]];
          candidates := candidates + E.Slots(byTu, id);
          tuIds := tuIds + {id};
        }
      }
      assert tuPaths[..|tuPaths|] == tuPaths;
      provenanced := |candidates|;
      candidates := candidates + noProvenance;
    }

    /** removeTUs: exactly the units' contexts go, and the lists know it. */
    method RemoveTUs(tuPaths: seq<string>) returns (removed: nat)
      requires Valid()
      modifies this
      ensures Valid() && Contents() == Remaining(old(Contents()), tuPaths)
      ensures Thinned(old(Contents()), Contents(), tuPaths)
      ensures removed == |old(Contents())| - |Contents()| && liveCount == |Contents()| && strings == old(strings)
      ensures ids == old(ids) && old(byCallee.Keys) <= byCallee.Keys && old(byCaller.Keys) <= byCaller.Keys
    {
      hide StoreOk, InternerOk, MapsOk, AllIn, CandidatesOk, Unproven, CountLive, Materialized, Remaining, Thinned;
      MaterializedSize(Tables(), contexts);
      AllRemainingIs(Contents(), tuPaths);
      ghost var st, before := Tables(), contexts;
      var candidates, provenanced, tuIds := Candidates(tuPaths);
      TuMapOk(contexts, IndexMaps());
      CandidatesAreOk(st, contexts, byTu, candidates, provenanced, tuPaths, tuIds);
      var dead, a;
      contexts, liveCount, dead, a, removed :=
        Sweep(strings, contexts, liveCount, candidates, provenanced, tuPaths, st);
      var m;
      m, noProvenance := Unlist(st, before, contexts, IndexMaps(), noProvenance, dead, a, tuIds, tuPaths);
      SetMaps(m);
      MaterializedSize(st, contexts);
    }

    /** compact: the tombstones go, the contexts and their order stay. */
    method Compact()
      requires Valid()
      modifies this
      ensures Valid() && Contents() == old(Contents()) && liveCount == old(liveCount) && |contexts| == liveCount
      ensures NoneEmptied(IndexMaps())
    {
      hide StoreOk, InternerOk, MapsOk, Unproven, CountLive, Materialized, AllIn, NoneEmptied;
      var m;
      contexts, noProvenance, m := CopyLive(contexts, Tables());
      SetMaps(m);
    }
  }

  /** The live records in order, listed afresh. */
  method CopyLive(contexts: seq<Stored>, ghost st: Store)
    returns (newCtx: seq<Stored>, newNoProvenance: seq<nat>, m: Maps)
    requires AllIn(st, contexts)
    ensures MapsOk(newCtx, m) && newNoProvenance == Unproven(newCtx)
    ensures CountLive(newCtx) == |newCtx| == CountLive(contexts)
    ensures AllIn(st, newCtx) && Materialized(st, newCtx) == Materialized(st, contexts) && NoneEmptied(m)
  {
    hide MapsOk, Unproven, CountLive, Materialized, Materialize, StoredIn, PushAll, NoneEmptied;
    newCtx, newNoProvenance := [], [];
    m := Maps(map[], map[], map[], map[], map[], map[]);
    NothingIndexed(st);
    assert contexts[..0] == [];
    for i := 0 to |contexts|
      invariant MapsOk(newCtx, m) && newNoProvenance == Unproven(newCtx)
      invariant CountLive(newCtx) == |newCtx| == CountLive(contexts[..i])
      invariant AllIn(st, newCtx) && Materialized(st, newCtx) == Materialized(st, contexts[..i]) && NoneEmptied(m)
    {
      var se := contexts[i];
      MaterializedStep(st, contexts, i);
      CountStep(contexts, i);
      assert StoredIn(st, se);
      if se.live {
        PushAllOk(newCtx, se, m);
        PushAllFills(m, se, |newCtx|);
        AppendOne(st, newCtx, se);
        m := PushAll(m, se, |newCtx|);
        if se.tuPath.None? {
          newNoProvenance := newNoProvenance + [|newCtx|];
        }
        newCtx := newCtx + [se];
      }
    }
    assert contexts[..|contexts|] == contexts;
  }

  lemma NothingIndexed(st: Store)
    ensures MapsOk([], Maps(map[], map[], map[], map[], map[], map[]))
    ensures Unproven([]) == [] && CountLive([]) == 0 && Materialized(st, []) == []
    ensures NoneEmptied(Maps(map[], map[], map[], map[], map[], map[]))
  {
  }

  lemma CountStep(contexts: seq<Stored>, i: nat)
    requires i < |contexts|
    ensures CountLive(contexts[..i + 1]) == CountLive(contexts[..i]) + (if contexts[i].live then 1 else 0)
  {
    assert contexts[..i + 1][..i] == contexts[..i];
  }

  lemma TuMapOk(contexts: seq<Stored>, m: Maps)
    requires MapsOk(contexts, m)
    ensures IndexOk(contexts, m.byTu, ByTu)
  {
  }

  /** Tombstones every candidate that leaves. */
  method Sweep(strings: seq<string>, contexts: seq<Stored>, liveCount: nat, candidates: seq<nat>, provenanced: nat,
               tuPaths: seq<string>, ghost st: Store)
    returns (contexts': seq<Stored>, liveCount': nat, dead: set<nat>, a: Affected, removed: nat)
    requires st.strings == strings && CandidatesOk(st, contexts, candidates, provenanced, tuPaths)
    requires liveCount == CountLive(contexts)
    requires AllIn(st, contexts)
    ensures Killed(contexts, contexts', dead) && AllNoted(contexts, dead, a) && RightDead(st, contexts, dead, tuPaths)
    ensures AllIn(st, contexts')
    ensures forall i :: i in dead ==> i < |contexts| && contexts[i].live
    ensures liveCount' == CountLive(contexts') && removed == liveCount - liveCount'
    ensures Materialized(st, contexts') == Remaining(Materialized(st, contexts), tuPaths)
  {
    hide Swept, Leaves, Materialize, Note, CountLive, Materialized, Remaining, Killed, RightDead, AllIn, AllNoted;
    contexts', liveCount', dead, a, removed := contexts, liveCount, {}, Affected({}, {}, {}, {}, {}), 0;
    NothingSwept(st, contexts, candidates, tuPaths);
    for n := 0 to |candidates|
      invariant |contexts'| == |contexts| && Swept(st, contexts, contexts', dead, a, candidates, n, tuPaths)
      invariant liveCount' == CountLive(contexts') && removed == liveCount - liveCount'
    {
      var i := candidates[n];
      SweptSame(st, contexts, contexts', dead, a, candidates, n, tuPaths, i);
      var leaves := n < provenanced;
      if !leaves {
        LeavesBySite(st, contexts[i], tuPaths);
        leaves := FromRemovedTu(strings, contexts'[i], tuPaths);
      }
      if contexts'[i].live && leaves {
        SweptDead(st, contexts, contexts', dead, a, candidates, n, tuPaths);
        CountKilledOne(contexts', i);
        a, dead := Note(a, contexts'[i]), dead + {i};
        contexts' := contexts'[i := contexts'[i].(live := false)];
        liveCount', removed := liveCount' - 1, removed + 1;
      } else {
        SweptKept(st, contexts, contexts', dead, a, candidates, n, tuPaths);
      }
    }
    SweptRight(st, contexts, contexts', dead, a, candidates, provenanced, tuPaths);
    MaterializedKilled(st, contexts, contexts', dead, tuPaths);
    KilledIn(st, contexts, contexts', dead);
  }

  /** Takes the dead out of the lists: the affected ones are scrubbed, the units' own dropped. */
  method Unlist(ghost st: Store, ghost before: seq<Stored>, ghost after: seq<Stored>, m: Maps, noProvenance: seq<nat>,
                dead: set<nat>, a: Affected, tuIds: set<Id>, ghost tuPaths: seq<string>)
    returns (m': Maps, noProvenance': seq<nat>)
    requires MapsOk(before, m) && noProvenance == Unproven(before) && Killed(before, after, dead)
    requires AllNoted(before, dead, a)
    requires StoreOk(st) && AllIn(st, before) && RightDead(st, before, dead, tuPaths)
    requires forall u: Id :: u in tuIds <==> u < |st.strings| && st.strings[u] in tuPaths
    requires forall i :: i in dead ==> i < |before| && before[i].live
    ensures MapsOk(after, m') && noProvenance' == Unproven(after)
    ensures m.byCallee.Keys <= m'.byCallee.Keys && m.byCaller.Keys <= m'.byCaller.Keys
  {
    hide StoreOk, IndexOk, Killed, AllIn, RightDead, Unproven, Noted, E.ScrubbedAt;
    m' := ScrubAll(before, after, m, dead, a);
    UnprovenKilled(before, after, dead);
    DroppedTus(st, before, after, dead, tuPaths, m.byTu, tuIds);
    noProvenance' := noProvenance;
    if dead != {} {
      m' := m'.(byTu := m.byTu - tuIds);
      noProvenance' := C.RemoveDead(noProvenance, dead);
    } else {
      NothingKilled(before, after, m.byTu);
      ScrubbedNothing(noProvenance, dead);
    }
  }

  /** Scrubs the affected lists of the five call maps; the per-TU map is left as it is. */
  method ScrubAll(ghost before: seq<Stored>, ghost after: seq<Stored>, m: Maps, dead: set<nat>, a: Affected)
    returns (m': Maps)
    requires MapsOk(before, m) && Killed(before, after, dead) && AllNoted(before, dead, a)
    ensures IndexOk(after, m'.byCallee, ByCallee) && IndexOk(after, m'.byCaller, ByCaller)
    ensures IndexOk(after, m'.bySite, BySite)
    ensures IndexOk(after, m'.byCalleeDisplay, ByCalleeDisplay) && IndexOk(after, m'.byCallerDisplay, ByCallerDisplay)
    ensures m'.byTu == m.byTu && m.byCallee.Keys <= m'.byCallee.Keys && m.byCaller.Keys <= m'.byCaller.Keys
  {
    hide IndexOk, Killed, Noted, E.ScrubbedAt;
    var callees := C.Scrub(m.byCallee, a.callees, dead);
    ScrubIndexOk(before, after, dead, ByCallee, m.byCallee, callees, a.callees);
    var callers := C.Scrub(m.byCaller, a.callers, dead);
    ScrubIndexOk(before, after, dead, ByCaller, m.byCaller, callers, a.callers);
    var calleeDisplays := C.Scrub(m.byCalleeDisplay, a.calleeDisplays, dead);
    ScrubIndexOk(before, after, dead, ByCalleeDisplay, m.byCalleeDisplay, calleeDisplays, a.calleeDisplays);
    var callerDisplays := C.Scrub(m.byCallerDisplay, a.callerDisplays, dead);
    ScrubIndexOk(before, after, dead, ByCallerDisplay, m.byCallerDisplay, callerDisplays, a.callerDisplays);
    var sites := C.Scrub(m.bySite, a.sites, dead);
    ScrubIndexOk(before, after, dead, BySite, m.bySite, sites, a.sites);
    var empty := set id | id in a.sites && E.Slots(sites, id) == [];
    EmptyListsGo(after, sites, BySite, empty);
    m' := Maps(callees, callers, calleeDisplays, callerDisplays, sites - empty, m.byTu);
  }

  lemma EmptyListsGo(contexts: seq<Stored>, m: map<Id, seq<nat>>, k: Key, empty: set<Id>)
    requires IndexOk(contexts, m, k) && forall id :: id in empty ==> E.Slots(m, id) == []
    ensures IndexOk(contexts, m - empty, k)
  {
    forall id: Id ensures E.Slots(m - empty, id) == E.Slots(m, id) {}
  }

  lemma NothingKilled(before: seq<Stored>, after: seq<Stored>, m: map<Id, seq<nat>>)
    requires Killed(before, after, {}) && IndexOk(before, m, ByTu)
    ensures IndexOk(after, m, ByTu) && after == before
  {
    assert after == before;
  }

  lemma SweptSame(st: Store, before: seq<Stored>, after: seq<Stored>, dead: set<nat>, a: Affected,
                  candidates: seq<nat>, n: nat, tuPaths: seq<string>, i: nat)
    requires n <= |candidates| && Swept(st, before, after, dead, a, candidates, n, tuPaths) && i < |before|
    ensures |after| == |before| && after[i] == before[i].(live := after[i].live)
  {
    hide AllNoted, Leaves, Materialize;
  }

  // ---- the tombstoning loop --------------------------------------------------------------------------------

  /** The five id sets whose lists are scrubbed. */
  datatype Affected = Affected(callees: set<Id>, callers: set<Id>, calleeDisplays: set<Id>, callerDisplays: set<Id>,
                               sites: set<Id>)

  ghost predicate AllNoted(before: seq<Stored>, dead: set<nat>, a: Affected) {
    && Noted(before, dead, ByCallee, a.callees) && Noted(before, dead, ByCaller, a.callers)
    && Noted(before, dead, ByCalleeDisplay, a.calleeDisplays) && Noted(before, dead, ByCallerDisplay, a.callerDisplays)
    && Noted(before, dead, BySite, a.sites)
  }

  function Note(a: Affected, se: Stored): Affected {
    Affected(a.callees + {se.callee}, a.callers + {se.caller},
             a.calleeDisplays + (if se.calleeDisplay != se.callee then {se.calleeDisplay} else {}),
             a.callerDisplays + (if se.callerDisplay != se.caller then {se.callerDisplay} else {}),
             a.sites + {se.site})
  }

  method FromRemovedTu(strings: seq<string>, se: Stored, tuPaths: seq<string>) returns (from: bool)
    ensures from <==> exists t :: t in tuPaths && t + ":" <= Str(strings, se.site)
  {
    for k := 0 to |tuPaths|
      invariant forall t :: t in tuPaths[..k] ==> !(t + ":" <= Str(strings, se.site))
    {
      assert tuPaths[..k + 1] == tuPaths[..k] + [tuPaths[k]];
      if tuPaths[k] + ":" <= Str(strings, se.site) {
        assert tuPaths[k] in tuPaths;
        return true;
      }
    }
    assert tuPaths[..|tuPaths|] == tuPaths;
    return false;
  }

  ghost predicate Taken(st: Store, before: seq<Stored>, dead: set<nat>, i: nat, tuPaths: seq<string>) {
    i < |before| && before[i].live && Leaves(Materialize(st, before[i]), tuPaths) ==> i in dead
  }

  /** What the loop has done with the first `n` candidates. */
  ghost predicate Swept(st: Store, before: seq<Stored>, after: seq<Stored>, dead: set<nat>, a: Affected,
                        candidates: seq<nat>, n: nat, tuPaths: seq<string>)
    requires n <= |candidates|
  {
    && Killed(before, after, dead) && AllNoted(before, dead, a)
    && (forall i :: i in dead ==> i < |before| && before[i].live && Leaves(Materialize(st, before[i]), tuPaths))
    && forall k :: 0 <= k < n ==> Taken(st, before, dead, candidates[k], tuPaths)
  }

  lemma SweptDead(st: Store, before: seq<Stored>, after: seq<Stored>, dead: set<nat>, a: Affected,
                  candidates: seq<nat>, n: nat, tuPaths: seq<string>)
    requires n < |candidates| && Swept(st, before, after, dead, a, candidates, n, tuPaths)
    requires var i := candidates[n]; i < |before| && after[i].live && Leaves(Materialize(st, before[i]), tuPaths)
    ensures var i := candidates[n];
      before[i].live && after[i] == before[i]
      && Swept(st, before, after[i := after[i].(live := false)], dead + {i}, Note(a, after[i]), candidates, n + 1,
               tuPaths)
  {
    hide Leaves, Materialize;
  }

  lemma SweptKept(st: Store, before: seq<Stored>, after: seq<Stored>, dead: set<nat>, a: Affected,
                  candidates: seq<nat>, n: nat, tuPaths: seq<string>)
    requires n < |candidates| && Swept(st, before, after, dead, a, candidates, n, tuPaths)
    requires var i := candidates[n]; i < |before| && (!after[i].live || !Leaves(Materialize(st, before[i]), tuPaths))
    ensures Swept(st, before, after, dead, a, candidates, n + 1, tuPaths)
  {
    hide Leaves, Materialize, AllNoted;
  }

  lemma RaiiGrows(st: Store, strings: seq<string>)
    requires StoreOk(st) && st.strings <= strings
    ensures AllLocalsIn(st.raii, |strings|)
  {
    hide SetTableOk;
    forall i | 0 <= i < |st.raii.sets| ensures LocalsIn(st.raii.sets[i], |strings|) {
      LocalsGrow(st.strings, strings, st.raii.sets[i]);
    }
  }

  lemma NothingMaterialized(st: Store)
    ensures Materialized(st, []) == []
  {
  }

  lemma MaterializedStep(st: Store, contexts: seq<Stored>, i: nat)
    requires i < |contexts|
    ensures contexts[..i + 1] == contexts[..i] + [contexts[i]]
    ensures Materialized(st, contexts[..i + 1]) == Materialized(st, contexts[..i])
      + (if contexts[i].live then [Materialize(st, contexts[i])] else [])
  {
    assert contexts[..i + 1][..i] == contexts[..i];
  }

  lemma MappedLive(m: Remap, se: Stored)
    ensures Mapped(m, se).live == se.live
  {
  }

  /** The candidates are stored contexts, the first part leaves by its unit, the rest has none,
      and nothing that leaves is missing. */
  ghost predicate CandidatesOk(st: Store, contexts: seq<Stored>, candidates: seq<nat>, provenanced: nat,
                               tuPaths: seq<string>) {
    && provenanced <= |candidates|
    && (forall k :: 0 <= k < |candidates| ==> candidates[k] < |contexts|)
    && (forall k :: 0 <= k < provenanced ==> Leaves(Materialize(st, contexts[candidates[k]]), tuPaths))
    && (forall k :: provenanced <= k < |candidates| ==> contexts[candidates[k]].tuPath.None?)
    && forall i :: 0 <= i < |contexts| && contexts[i].live && Leaves(Materialize(st, contexts[i]), tuPaths) ==>
          i in candidates
  }

  lemma CandidatesAreOk(st: Store, contexts: seq<Stored>, byTu: map<Id, seq<nat>>, candidates: seq<nat>,
                        provenanced: nat, tuPaths: seq<string>, tuIds: set<Id>)
    requires AllIn(st, contexts) && IndexOk(contexts, byTu, ByTu)
    requires provenanced <= |candidates| && candidates[provenanced..] == Unproven(contexts)
    requires forall u: Id :: u in tuIds <==> u < |st.strings| && st.strings[u] in tuPaths
    requires forall i :: i in candidates[..provenanced] <==> exists u: Id :: u in tuIds && i in E.Slots(byTu, u)
    ensures CandidatesOk(st, contexts, candidates, provenanced, tuPaths)
  {
    hide Leaves, Materialize, Listed, Unproven;
    forall k | 0 <= k < provenanced
      ensures candidates[k] < |contexts| && Leaves(Materialize(st, contexts[candidates[k]]), tuPaths) {
      assert candidates[k] in candidates[..provenanced];
      var u: Id :| u in tuIds && candidates[k] in E.Slots(byTu, u);
      assert E.Slots(byTu, u) == Listed(contexts, ByTu, u);
      ListedMember(contexts, ByTu, u, candidates[k]);
      LeavesByTu(st, contexts[candidates[k]], tuPaths);
    }
    forall k | provenanced <= k < |candidates|
      ensures candidates[k] < |contexts| && contexts[candidates[k]].tuPath.None? {
      assert candidates[k] == candidates[provenanced..][k - provenanced];
      UnprovenMember(contexts, candidates[k]);
    }
    forall i | 0 <= i < |contexts| && contexts[i].live && Leaves(Materialize(st, contexts[i]), tuPaths)
      ensures i in candidates {
      LeavesByTu(st, contexts[i], tuPaths);
      if contexts[i].tuPath.Some? {
        var u := contexts[i].tuPath.value;
        ListedMember(contexts, ByTu, u, i);
        assert E.Slots(byTu, u) == Listed(contexts, ByTu, u);
        assert i in candidates[..provenanced];
      } else {
        UnprovenMember(contexts, i);
        assert i in candidates[provenanced..];
      }
    }
  }

  lemma LeavesBySite(st: Store, se: Stored, tuPaths: seq<string>)
    requires se.tuPath.None?
    ensures Leaves(Materialize(st, se), tuPaths) <==> exists t :: t in tuPaths && t + ":" <= Str(st.strings, se.site)
  {
  }

  lemma SweptRight(st: Store, before: seq<Stored>, after: seq<Stored>, dead: set<nat>, a: Affected,
                   candidates: seq<nat>, provenanced: nat, tuPaths: seq<string>)
    requires Swept(st, before, after, dead, a, candidates, |candidates|, tuPaths)
    requires CandidatesOk(st, before, candidates, provenanced, tuPaths)
    ensures RightDead(st, before, dead, tuPaths) && Killed(before, after, dead) && AllNoted(before, dead, a)
    ensures forall i :: i in dead ==> i < |before| && before[i].live
  {
    hide Leaves, Materialize, AllNoted;
    forall i | 0 <= i < |before| && before[i].live && Leaves(Materialize(st, before[i]), tuPaths) ensures i in dead {
      var k :| 0 <= k < |candidates| && candidates[k] == i;
      assert Taken(st, before, dead, candidates[k], tuPaths);
    }
  }

  lemma NothingSwept(st: Store, before: seq<Stored>, candidates: seq<nat>, tuPaths: seq<string>)
    ensures Swept(st, before, before, {}, Affected({}, {}, {}, {}, {}), candidates, 0, tuPaths)
  {
  }

  /** Tombstoned records stay in range. */
  lemma KilledIn(st: Store, before: seq<Stored>, after: seq<Stored>, dead: set<nat>)
    requires AllIn(st, before) && Killed(before, after, dead)
    ensures AllIn(st, after)
  {
    forall i | 0 <= i < |after| ensures StoredIn(st, after[i]) {
      assert StoredIn(st, before[i]);
    }
  }
}

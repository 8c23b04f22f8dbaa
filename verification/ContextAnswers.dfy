/** What the maps of the control-flow index list, in terms of the contexts as callers see them
    (src/callgraph/ControlFlowIndex.cpp:178-208; include/vycor/callgraph/ControlFlowIndex.h:328-344). */
module ContextAnswers {
  import opened EdgeTypes
  import opened Interner
  import opened Sequences
  import E = EdgeTables
  import opened ControlFlow

  /** Record i is live and reads as this context. */
  ghost predicate Reads(cf: ControlFlowIndex, i: nat, c: Context)
    reads cf
  {
    i < |cf.contexts| && cf.contexts[i].live && Materialize(cf.Tables(), cf.contexts[i]) == c
  }

  lemma Listing(cf: ControlFlowIndex, k: Key, m: map<Id, seq<nat>>, id: Id, i: nat)
    requires IndexOk(cf.contexts, m, k)
    ensures E.Slots(m, id) == Listed(cf.contexts, k, id)
    ensures i in E.Slots(m, id) <==>
      i < |cf.contexts| && cf.contexts[i].live && KeyIn(k, cf.contexts[i]) == Some(id)
  {
    hide KeyIn;
    assert E.Slots(m, id) == Listed(cf.contexts, k, id);
    ListedMember(cf.contexts, k, id, i);
  }

  lemma KeyStrings(strings: seq<string>, ids: map<string, Id>, a: Id, b: Id)
    requires InternerOk(strings, ids) && a < |strings| && b < |strings|
    ensures strings[a] == strings[b] <==> a == b
  {
  }

  /** A record is listed under its two usrs, under a display name that differs from its usr,
      under its site and under its unit; the records of no unit are listed apart. */
  lemma ListsAre(cf: ControlFlowIndex, id: Id, i: nat, c: Context)
    requires cf.Valid() && Reads(cf, i, c) && id < |cf.strings|
    ensures i in E.Slots(cf.byCallee, id) <==> c.calleeUsr == cf.strings[id]
    ensures i in E.Slots(cf.byCaller, id) <==> c.callerUsr == cf.strings[id]
    ensures i in E.Slots(cf.byCalleeDisplay, id) <==> c.calleeName == cf.strings[id] != c.calleeUsr
    ensures i in E.Slots(cf.byCallerDisplay, id) <==> c.callerName == cf.strings[id] != c.callerUsr
    ensures i in E.Slots(cf.bySite, id) <==> c.callSite == cf.strings[id]
    ensures i in E.Slots(cf.byTu, id) <==> c.tuPath == cf.strings[id] != ""
    ensures i in cf.noProvenance <==> c.tuPath == ""
  {
    hide E.Slots, Listed, IndexOk, StoreOk, InternerOk, LocalsOf;
    Listing(cf, ByCallee, cf.byCallee, id, i);
    Listing(cf, ByCaller, cf.byCaller, id, i);
    Listing(cf, ByCalleeDisplay, cf.byCalleeDisplay, id, i);
    Listing(cf, ByCallerDisplay, cf.byCallerDisplay, id, i);
    Listing(cf, BySite, cf.bySite, id, i);
    Listing(cf, ByTu, cf.byTu, id, i);
    UnprovenMember(cf.contexts, i);
    var se := cf.contexts[i];
    assert StoredIn(cf.Tables(), se);
    KeyStrings(cf.strings, cf.ids, se.callee, id);
    KeyStrings(cf.strings, cf.ids, se.caller, id);
    KeyStrings(cf.strings, cf.ids, se.calleeDisplay, id);
    KeyStrings(cf.strings, cf.ids, se.callerDisplay, id);
    KeyStrings(cf.strings, cf.ids, se.site, id);
    if se.tuPath.Some? {
      KeyStrings(cf.strings, cf.ids, se.tuPath.value, id);
    }
  }

  /** Only live records are listed, each once. */
  lemma OnlyLiveAreListed(cf: ControlFlowIndex, m: map<Id, seq<nat>>, id: Id)
    requires cf.Valid()
    requires m in [cf.byCallee, cf.byCaller, cf.byCalleeDisplay, cf.byCallerDisplay, cf.bySite, cf.byTu]
    ensures forall k :: 0 <= k < |E.Slots(m, id)| ==>
      E.Slots(m, id)[k] < |cf.contexts| && cf.contexts[E.Slots(m, id)[k]].live
    ensures forall k, l :: 0 <= k < l < |E.Slots(m, id)| ==> E.Slots(m, id)[k] < E.Slots(m, id)[l]
  {
    hide E.Slots, Listed, StoreOk, InternerOk, AllIn, Unproven, CountLive;
    var k :| IndexOk(cf.contexts, m, k);
    Listing(cf, k, m, id, 0);
    ListedAscends(cf.contexts, k, id);
  }

  lemma {:induction false} ListedAscends(contexts: seq<Stored>, k: Key, id: Id)
    ensures forall j :: 0 <= j < |Listed(contexts, k, id)| ==>
      Listed(contexts, k, id)[j] < |contexts| && contexts[Listed(contexts, k, id)[j]].live
    ensures forall j, l :: 0 <= j < l < |Listed(contexts, k, id)| ==>
      Listed(contexts, k, id)[j] < Listed(contexts, k, id)[l]
  {
    hide KeyIn;
    if contexts != [] {
      ListedAscends(contexts[..|contexts| - 1], k, id);
    }
  }

  /** The answers of `Contents` are the live records', in the order of the records. */
  lemma {:induction false} ContentsAre(st: Store, a: seq<Stored>, b: seq<Stored>, se: Stored)
    ensures Materialized(st, a + b) == Materialized(st, a) + Materialized(st, b)
    ensures Materialized(st, [se]) == if se.live then [Materialize(st, se)] else []
    decreases |b|
  {
    hide Materialize;
    assert [se][..0] == [];
    if b == [] {
      assert a + b == a && Materialized(st, a) + [] == Materialized(st, a);
    } else {
      var init, last := b[..|b| - 1], b[|b| - 1];
      ContentsAre(st, a, init, se);
      assert (a + b)[..|a + b| - 1] == a + init;
    }
  }
}

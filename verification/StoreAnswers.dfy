/** What a call graph holds, field by field, in terms of the calls that made it
    (src/callgraph/CallGraph.cpp:156-189, 471-483, 554-562, 579-834). */
module StoreAnswers {
  import opened EdgeTypes
  import opened Sequences
  import opened Registrations
  import opened EdgeTables
  import R = Relations
  import opened EdgeMerge
  import opened CallGraphStore

  // ---- registrations counted -----------------------------------------------------------------------

  ghost function Of(regs: seq<Registration>, edge: EdgeName): set<nat> {
    set i: nat | i < |regs| && regs[i].edge == edge
  }

  ghost function OfUnit(regs: seq<Registration>, edge: EdgeName, tu: string): set<nat> {
    set i: nat | i < |regs| && regs[i].edge == edge && regs[i].tu == tu
  }

  lemma OneMoreOf(before: seq<Registration>, r: Registration, edge: EdgeName, tu: string)
    ensures Of(before + [r], edge) == Of(before, edge) + if r.edge == edge then {|before|} else {}
    ensures OfUnit(before + [r], edge, tu) ==
      OfUnit(before, edge, tu) + if r.edge == edge && r.tu == tu then {|before|} else {}
    ensures |before| !in Of(before, edge) && |before| !in OfUnit(before, edge, tu)
  {
    var regs, n := before + [r], |before|;
    assert regs[n] == r && forall i :: 0 <= i < n ==> regs[i] == before[i];
  }

  lemma {:induction false} CountsAre(regs: seq<Registration>, edge: EdgeName, tu: string)
    ensures Count(regs, edge) == |Of(regs, edge)| && CountTu(regs, edge, tu) == |OfUnit(regs, edge, tu)|
  {
    if regs != [] {
      hide Of, OfUnit;
      var before, last := regs[..|regs| - 1], regs[|regs| - 1];
      CountsAre(before, edge, tu);
      OneMoreOf(before, last, edge, tu);
      assert regs == before + [last];
    }
  }

  /** Removing units takes exactly their registrations; untagged ones belong to none. */
  lemma {:induction false} WithoutIs(regs: seq<Registration>, tus: set<string>, r: Registration)
    ensures multiset(Without(regs, tus))[r] == if r.tu in tus && r.tu != "" then 0 else multiset(regs)[r]
  {
    if regs != [] {
      WithoutIs(regs[..|regs| - 1], tus, r);
      assert regs == regs[..|regs| - 1] + [regs[|regs| - 1]];
    }
  }

  // ---- the tables --------------------------------------------------------------------------------------

  /** The slot holds this edge, by its strings. */
  ghost predicate Names(t: Tables, i: int, e: EdgeName) {
    && 0 <= i < |t.edges| && t.edges[i].refs > 0
    && var k := t.edges[i].key;
       && k.caller < |t.strings| && t.strings[k.caller] == e.caller
       && k.callee < |t.strings| && t.strings[k.callee] == e.callee
       && k.callSite < |t.strings| && t.strings[k.callSite] == e.callSite
       && k.kind == e.kind && k.confidence == e.confidence && k.execContext == e.execContext
       && k.indirectionDepth == e.indirectionDepth
  }

  /** A registered edge has one slot, which counts its registrations; no other edge has one. */
  lemma SlotOfEdge(t: Tables, regs: seq<Registration>, e: EdgeName)
    requires TablesOk(t, regs)
    ensures (exists i :: Names(t, i, e)) <==> Of(regs, e) != {}
    ensures forall i :: Names(t, i, e) ==> t.edges[i].refs == |Of(regs, e)|
    ensures forall i, j :: Names(t, i, e) && Names(t, j, e) ==> i == j
  {
    CountsAre(regs, e, "");
    forall i
      ensures Names(t, i, e) <==>
        Live(t, i) && KeyIn(t.edges[i].key, |t.strings|) && Name(t.strings, t.edges[i].key) == e
    {
    }
    hide AdjOk, TusOk, Count, CountTu, Names;
    if Of(regs, e) != {} {
      var k :| k in Of(regs, e);
      assert regs[k] in regs && HasSlot(t, regs[k].edge);
      var i :| Live(t, i) && Name(t.strings, t.edges[i].key) == e;
      assert Names(t, i, e);
    }
    forall i, j | Names(t, i, e) && Names(t, j, e) ensures i == j {
      NameInjective(t.strings, t.edges[i].key, t.edges[j].key);
    }
  }

  /** The key index finds exactly the live slots, by the key they hold. */
  lemma IndexIs(t: Tables, regs: seq<Registration>, k: EdgeRef, i: nat)
    requires TablesOk(t, regs)
    ensures (k in t.index && t.index[k] == i) <==> (i < |t.edges| && t.edges[i].refs > 0 && t.edges[i].key == k)
  {
    assert i < |t.edges| && t.edges[i].refs > 0 ==> Live(t, i);
  }

  /** Each live slot is listed once among its caller's edges and once among its callee's, and
      nothing else is listed. */
  lemma AdjacencyIs(t: Tables, regs: seq<Registration>, n: Id, i: nat)
    requires TablesOk(t, regs)
    ensures n in t.out ==>
      multiset(t.out[n])[i] == if i < |t.edges| && t.edges[i].refs > 0 && t.edges[i].key.caller == n then 1 else 0
    ensures n !in t.out && i < |t.edges| && t.edges[i].refs > 0 ==> t.edges[i].key.caller != n
    ensures n in t.inn ==>
      multiset(t.inn[n])[i] == if i < |t.edges| && t.edges[i].refs > 0 && t.edges[i].key.callee == n then 1 else 0
    ensures n !in t.inn && i < |t.edges| && t.edges[i].refs > 0 ==> t.edges[i].key.callee != n
  {
    hide CoreOk;
    assert Distinct(Slots(Adjacency(t, CallerEnd), n)) && Lists(t, CallerEnd, {}, n);
    assert Distinct(Slots(Adjacency(t, CalleeEnd), n)) && Lists(t, CalleeEnd, {}, n);
    assert Adjacency(t, CallerEnd) == t.out && Adjacency(t, CalleeEnd) == t.inn;
    hide AdjOk;
    OnceIn(Slots(t.out, n), i);
    OnceIn(Slots(t.inn, n), i);
  }

  lemma {:induction false} OnceIn(s: seq<nat>, i: nat)
    requires Distinct(s)
    ensures multiset(s)[i] == if i in s then 1 else 0
  {
    if s != [] {
      var init, last := s[..|s| - 1], s[|s| - 1];
      OnceIn(init, i);
      assert s == init + [last] && last !in init;
    }
  }

  /** A unit's list names each slot as often as the unit registered its edge. */
  lemma ProvenanceIs(t: Tables, regs: seq<Registration>, u: Id, i: nat, e: EdgeName)
    requires TablesOk(t, regs) && u < |t.strings| && t.strings[u] != "" && Names(t, i, e)
    ensures (if u in t.tus then multiset(t.tus[u])[i] else 0) == |OfUnit(regs, e, t.strings[u])|
  {
    CountsAre(regs, e, t.strings[u]);
    hide AdjOk, RefsOk, IndexOk, Count, CountTu;
    assert Live(t, i) && Name(t.strings, t.edges[i].key) == e;
    assert multiset(Slots(t.tus, u))[i] == CountTu(regs, Name(t.strings, t.edges[i].key), t.strings[u]);
  }

  /** Compacting keeps the live slots in their order: slot by slot, it keeps those with references. */
  lemma {:induction false} LiveEdgesAre(a: seq<StoredEdge>, b: seq<StoredEdge>, e: StoredEdge)
    ensures LiveEdges([e]) == if e.refs > 0 then [e] else []
    ensures LiveEdges(a + b) == LiveEdges(a) + LiveEdges(b)
    decreases |b|
  {
    assert [e][..0] == [];
    if b == [] {
      assert a + b == a && LiveEdges(a) + [] == LiveEdges(a);
    } else {
      var init, last := b[..|b| - 1], b[|b| - 1];
      LiveEdgesAre(a, init, e);
      assert (a + b)[..|a + b| - 1] == a + init && (a + b)[|a + b| - 1] == last;
      var tail := if last.refs > 0 then [last] else [];
      assert LiveEdges(a) + LiveEdges(init) + tail == LiveEdges(a) + (LiveEdges(init) + tail);
    }
  }

  // ---- the relations ----------------------------------------------------------------------------------------

  /** `b` is listed for `a` exactly when this pair was ever added, and `a` for `b` in the reverse map. */
  lemma RelationIs(r: R.Relation, strings: seq<string>, log: set<(string, string)>, a: Id, b: Id)
    requires R.RelationOk(r, strings, log) && Distinct(strings) && a < |strings| && b < |strings|
    ensures (a in r.fwd && b in r.fwd[a]) <==> (strings[a], strings[b]) in log
    ensures (b in r.rev && a in r.rev[b]) <==> (strings[a], strings[b]) in log
  {
    var p := (strings[a], strings[b]);
    assert R.Related(r.fwd, a, b) <==> R.Related(r.rev, b, a);
    if p in log {
      assert R.HasPair(r, strings, p);
      var x: Id, y: Id :| R.PairAt(r, strings, p, x, y);
      assert x == a && y == b;
    }
  }

  /** A pair added again changes nothing; overrides are listed in the order they came, functions
      returned in the order of their ids. */
  lemma ListedOnce(s: seq<Id>, x: Id)
    ensures R.Append(s, x) == if x in s then s else s + [x]
    ensures Ascending(s) ==> Ascending(R.Insert(s, x))
    ensures Ascending(s) && x in s ==> R.Insert(s, x) == s
  {
    if s != [] && Ascending(s) {
      InsertAscends(s, x);
    }
  }

  ghost predicate Ascending(s: seq<Id>) {
    forall i, j :: 0 <= i < j < |s| ==> s[i] < s[j]
  }

  lemma {:induction false} InsertAscends(s: seq<Id>, x: Id)
    requires Ascending(s)
    ensures Ascending(R.Insert(s, x)) && (x in s ==> R.Insert(s, x) == s)
  {
    if s != [] {
      assert s == [s[0]] + s[1..];
      if x > s[0] {
        InsertAscends(s[1..], x);
        var rest := R.Insert(s[1..], x);
        forall j | 0 <= j < |rest| ensures s[0] < rest[j] {
          assert rest[j] in rest;
        }
        FrontAscends(s[0], rest);
      } else if x < s[0] {
        forall j | 0 <= j < |s| ensures x < s[j] {
          assert s[0] <= s[j];
        }
        FrontAscends(x, s);
      }
    }
  }

  lemma FrontAscends(x: Id, s: seq<Id>)
    requires Ascending(s) && forall j :: 0 <= j < |s| ==> x < s[j]
    ensures Ascending([x] + s)
  {
  }
}

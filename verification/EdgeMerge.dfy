/** Copying the live edges of one set of tables into another: the core of absorb and of
    compact (src/callgraph/CallGraph.cpp:627-663, 794-834). */
module EdgeMerge {
  import opened EdgeTypes
  import opened Sequences
  import opened Registrations
  import opened EdgeTables

  /** `ids[i]` is the id in `t` of the string with id `i` in `s`. */
  ghost predicate IdsMatch(s: Tables, t: Tables, ids: seq<Id>) {
    && |ids| == |s.strings|
    && forall i :: 0 <= i < |ids| ==> ids[i] < |t.strings| && t.strings[ids[i]] == s.strings[i]
  }

  function RemapKey(ids: seq<Id>, k: EdgeRef): EdgeRef
    requires KeyIn(k, |ids|)
  {
    k.(caller := ids[k.caller], callee := ids[k.callee], callSite := ids[k.callSite])
  }

  lemma RemapName(s: Tables, t: Tables, ids: seq<Id>, k: EdgeRef)
    requires IdsMatch(s, t, ids) && KeyIn(k, |s.strings|)
    ensures KeyIn(RemapKey(ids, k), |t.strings|)
    ensures Name(t.strings, RemapKey(ids, k)) == Name(s.strings, k)
  {
  }

  /** The edges of the live slots below `n`. */
  ghost function NamesOf(s: Tables, n: nat): set<EdgeName>
    requires StringsOk(s) && n <= |s.edges|
  {
    if n == 0 then {}
    else NamesOf(s, n - 1) + (if Live(s, n - 1) then {Name(s.strings, s.edges[n - 1].key)} else {})
  }

  lemma {:induction false} NamesOfMember(s: Tables, n: nat, e: EdgeName)
    requires StringsOk(s) && n <= |s.edges|
    ensures e in NamesOf(s, n) <==> exists i :: 0 <= i < n && Live(s, i) && Name(s.strings, s.edges[i].key) == e
  {
    if n > 0 {
      NamesOfMember(s, n - 1, e);
    }
  }

  /** `remap` sends each live slot of `s` below `n` to the slot of the same edge in `t`. */
  ghost predicate SlotsMatch(s: Tables, t: Tables, ids: seq<Id>, remap: map<nat, nat>, n: nat)
    requires StringsOk(s) && IdsMatch(s, t, ids)
  {
    && (forall i :: i in remap <==> i < n && Live(s, i))
    && (forall i :: i in remap ==>
          RemapKey(ids, s.edges[i].key) in t.index && t.index[RemapKey(ids, s.edges[i].key)] == remap[i])
  }

  /** After the live slots of `s` below `n` were merged into tables with log `regs`: the
      counts know of them, the provenance lists do not yet. */
  ghost predicate Merged(s: Tables, sregs: seq<Registration>, t: Tables, regs: seq<Registration>,
                         ids: seq<Id>, remap: map<nat, nat>, n: nat)
  {
    && StringsOk(s) && n <= |s.edges|
    && StringsOk(t) && IndexOk(t) && TusOk(t, regs)
    && RefsOk(t, regs + Only(sregs, NamesOf(s, n)))
    && AdjOk(t, CallerEnd, {}) && AdjOk(t, CalleeEnd, {})
    && IdsMatch(s, t, ids) && SlotsMatch(s, t, ids, remap, n)
  }

  lemma MergeStart(s: Tables, sregs: seq<Registration>, t: Tables, regs: seq<Registration>, ids: seq<Id>)
    requires StringsOk(s) && TablesOk(t, regs) && IdsMatch(s, t, ids)
    ensures Merged(s, sregs, t, regs, ids, map[], 0)
  {
    OnlyNone(sregs);
    assert regs + [] == regs;
  }

  lemma OneMoreName(s: Tables, sregs: seq<Registration>, regs: seq<Registration>, n: nat)
    requires StringsOk(s) && IndexOk(s) && RefsOk(s, sregs) && Live(s, n)
    ensures MoreOf(regs + Only(sregs, NamesOf(s, n)), regs + Only(sregs, NamesOf(s, n + 1)),
                   Name(s.strings, s.edges[n].key), s.edges[n].refs)
  {
    var e0 := Name(s.strings, s.edges[n].key);
    var before, after := NamesOf(s, n), NamesOf(s, n + 1);
    NamesOfMember(s, n, e0);
    if e0 in before {
      var i :| 0 <= i < n && Live(s, i) && Name(s.strings, s.edges[i].key) == e0;
      NameInjective(s.strings, s.edges[i].key, s.edges[n].key);
    }
    forall e ensures Count(regs + Only(sregs, after), e)
                  == Count(regs + Only(sregs, before), e) + (if e == e0 then s.edges[n].refs else 0)
    {
      CountConcat(regs, Only(sregs, after), e);
      CountConcat(regs, Only(sregs, before), e);
      CountOnly(sregs, after, e);
      CountOnly(sregs, before, e);
    }
    forall r | r in regs + Only(sregs, after) ensures r in regs + Only(sregs, before) || r.edge == e0 {
      OnlyMember(sregs, after, r);
      OnlyMember(sregs, before, r);
    }
  }

  lemma MergeSkip(s: Tables, sregs: seq<Registration>, t: Tables, regs: seq<Registration>, ids: seq<Id>,
                  remap: map<nat, nat>, n: nat)
    requires Merged(s, sregs, t, regs, ids, remap, n) && n < |s.edges| && !Live(s, n)
    ensures Merged(s, sregs, t, regs, ids, remap, n + 1)
  {
    hide StringsOk, IndexOk, TusOk, RefsOk, AdjOk, IdsMatch;
    assert NamesOf(s, n + 1) == NamesOf(s, n);
  }

  lemma MergeSlot(s: Tables, t: Tables, ids: seq<Id>, remap: map<nat, nat>, n: nat)
    requires StringsOk(s) && StringsOk(t) && IndexOk(t) && IdsMatch(s, t, ids) && SlotsMatch(s, t, ids, remap, n)
    requires Live(s, n)
    ensures var key := RemapKey(ids, s.edges[n].key); var t' := Bumped(t, key, s.edges[n].refs);
      key in t'.index && IdsMatch(s, t', ids) && SlotsMatch(s, t', ids, remap[n := t'.index[key]], n + 1)
  {
    assert KeyIn(s.edges[n].key, |s.strings|);
    hide StringsOk, IndexOk;
    var key := RemapKey(ids, s.edges[n].key);
    BumpedIndex(t, key, s.edges[n].refs);
  }

  lemma BumpedIndex(t: Tables, key: EdgeRef, extra: nat)
    requires IndexOk(t)
    ensures var t' := Bumped(t, key, extra);
      key in t'.index && t'.strings == t.strings && forall k :: k in t.index ==>
        k in t'.index && t'.index[k] == t.index[k]
  {
    if key in t.index {
      assert Live(t, t.index[key]);
    }
  }

  lemma MergeOne(s: Tables, sregs: seq<Registration>, t: Tables, regs: seq<Registration>, ids: seq<Id>,
                 remap: map<nat, nat>, n: nat)
    requires Merged(s, sregs, t, regs, ids, remap, n) && Live(s, n)
    requires IndexOk(s) && RefsOk(s, sregs)
    ensures var key := RemapKey(ids, s.edges[n].key); var t' := Bumped(t, key, s.edges[n].refs);
      key in t'.index && Merged(s, sregs, t', regs, ids, remap[n := t'.index[key]], n + 1)
  {
    hide IndexOk, RefsOk, TusOk, AdjOk, SlotsMatch, MoreOf, NamesOf;
    var key, refs := RemapKey(ids, s.edges[n].key), s.edges[n].refs;
    RemapName(s, t, ids, s.edges[n].key);
    OneMoreName(s, sregs, regs, n);
    BumpedShape(t, key, refs);
    BumpedAdjacency(t, key, refs, CallerEnd);
    BumpedAdjacency(t, key, refs, CalleeEnd);
    BumpedRefs(t, key, refs, regs + Only(sregs, NamesOf(s, n)), regs + Only(sregs, NamesOf(s, n + 1)));
    if key !in t.index {
      NoSlotNoCount(t, key, regs + Only(sregs, NamesOf(s, n)));
      CountConcat(regs, Only(sregs, NamesOf(s, n)), Name(t.strings, key));
    }
    BumpedTus(t, key, refs, regs);
    MergeSlot(s, t, ids, remap, n);
  }

  lemma MergeDone(s: Tables, sregs: seq<Registration>, t: Tables, regs: seq<Registration>, ids: seq<Id>,
                  remap: map<nat, nat>)
    requires Merged(s, sregs, t, regs, ids, remap, |s.edges|) && RefsOk(s, sregs)
    ensures RefsOk(t, regs + sregs)
  {
    forall r | r in sregs ensures r.edge in NamesOf(s, |s.edges|) {
      assert HasSlot(s, r.edge);
      NamesOfMember(s, |s.edges|, r.edge);
    }
    OnlyAll(sregs, NamesOf(s, |s.edges|));
  }

  // ---- provenance --------------------------------------------------------------------------

  /** A slot list through the slot map; entries outside the map are dropped. */
  function MapSlots(remap: map<nat, nat>, list: seq<nat>): seq<nat> {
    if list == [] then []
    else MapSlots(remap, list[..|list| - 1]) + (if list[|list| - 1] in remap then [remap[list[|list| - 1]]] else [])
  }

  ghost predicate Injective(remap: map<nat, nat>) {
    forall i, j :: i in remap && j in remap && remap[i] == remap[j] ==> i == j
  }

  lemma {:induction false} MapSlotsCount(remap: map<nat, nat>, list: seq<nat>, i: nat)
    requires Injective(remap) && i in remap
    ensures multiset(MapSlots(remap, list))[remap[i]] == multiset(list)[i]
  {
    if list != [] {
      MapSlotsCount(remap, list[..|list| - 1], i);
      assert list == list[..|list| - 1] + [list[|list| - 1]];
    }
  }

  lemma {:induction false} MapSlotsMember(remap: map<nat, nat>, list: seq<nat>, j: nat)
    ensures j in MapSlots(remap, list) <==> exists i :: i in list && i in remap && remap[i] == j
  {
    if list != [] {
      MapSlotsMember(remap, list[..|list| - 1], j);
      assert list == list[..|list| - 1] + [list[|list| - 1]];
    }
  }

  lemma SlotsMatchInjective(s: Tables, t: Tables, ids: seq<Id>, remap: map<nat, nat>, n: nat)
    requires StringsOk(s) && IndexOk(s) && IdsMatch(s, t, ids) && SlotsMatch(s, t, ids, remap, n) && IndexOk(t)
    requires StringsOk(t)
    ensures Injective(remap)
  {
    forall i, j | i in remap && j in remap && remap[i] == remap[j] ensures i == j {
      RemapName(s, t, ids, s.edges[i].key);
      RemapName(s, t, ids, s.edges[j].key);
      assert t.edges[remap[i]].key == RemapKey(ids, s.edges[i].key);
      assert t.edges[remap[j]].key == RemapKey(ids, s.edges[j].key);
      NameInjective(s.strings, s.edges[i].key, s.edges[j].key);
    }
  }

  function IndexOf(ids: seq<Id>, v: Id): (u: nat)
    requires v in ids
    ensures u < |ids| && ids[u] == v
  {
    if ids[0] == v then 0 else 1 + IndexOf(ids[1..], v)
  }

  lemma IdsDistinct(s: Tables, t: Tables, ids: seq<Id>)
    requires Distinct(s.strings) && IdsMatch(s, t, ids)
    ensures Distinct(ids)
  {
    forall i, j | 0 <= i < j < |ids| ensures ids[i] != ids[j] {
      assert t.strings[ids[i]] == s.strings[i] != s.strings[j] == t.strings[ids[j]];
    }
  }

  /** What translation unit `v` gains from the units of `s` in `done`. */
  ghost function Gain(s: Tables, ids: seq<Id>, remap: map<nat, nat>, done: set<Id>, v: Id): seq<nat> {
    if v in ids && IndexOf(ids, v) in done then MapSlots(remap, Slots(s.tus, IndexOf(ids, v))) else []
  }

  /** The provenance lists of `t'` are those of `t` with the mapped lists of the translation
      units in `done` appended. */
  ghost predicate TusMerged(s: Tables, t: Tables, t': Tables, ids: seq<Id>, remap: map<nat, nat>, done: set<Id>) {
    && t' == t.(tus := t'.tus)
    && (forall v :: Slots(t'.tus, v) == Slots(t.tus, v) + Gain(s, ids, remap, done, v))
    && (forall v :: v in t'.tus ==> v < |t.strings| && t.strings[v] != "")
  }

  lemma TusMergedStart(s: Tables, t: Tables, regs: seq<Registration>, ids: seq<Id>, remap: map<nat, nat>)
    requires StringsOk(t) && TusOk(t, regs)
    ensures TusMerged(s, t, t, ids, remap, {})
  {
  }

  lemma GainStep(s: Tables, ids: seq<Id>, remap: map<nat, nat>, done: set<Id>, u: Id, v: Id)
    requires u !in done && u < |ids| && Distinct(ids)
    ensures v != ids[u] ==> Gain(s, ids, remap, done + {u}, v) == Gain(s, ids, remap, done, v)
    ensures v == ids[u] ==> Gain(s, ids, remap, done, v) == []
    ensures v == ids[u] ==> Gain(s, ids, remap, done + {u}, v) == MapSlots(remap, Slots(s.tus, u))
  {
    if v in ids {
      assert v == ids[u] <==> IndexOf(ids, v) == u;
    }
  }

  lemma TusMergedStep(s: Tables, t: Tables, t': Tables, ids: seq<Id>, remap: map<nat, nat>, done: set<Id>, u: Id,
                      t'': Tables)
    requires TusMerged(s, t, t', ids, remap, done) && u !in done && u < |ids| && Distinct(ids)
    requires ids[u] < |t.strings| && t.strings[ids[u]] != ""
    requires t'' == t'.(tus := t'.tus[ids[u] := Slots(t'.tus, ids[u]) + MapSlots(remap, Slots(s.tus, u))])
    ensures TusMerged(s, t, t'', ids, remap, done + {u})
  {
    hide Distinct, Gain, MapSlots;
    forall v ensures Slots(t''.tus, v) == Slots(t.tus, v) + Gain(s, ids, remap, done + {u}, v) {
      GainStep(s, ids, remap, done, u, v);
      assert Slots(t'.tus, v) == Slots(t.tus, v) + Gain(s, ids, remap, done, v);
      if v == ids[u] {
        assert Slots(t.tus, v) + [] == Slots(t.tus, v);
      }
    }
  }

  /** A live slot of the merged tables is the image of a slot of `s`, or `s` knows nothing of
      its edge. */
  lemma ImageOrUnknown(s: Tables, sregs: seq<Registration>, t: Tables, ids: seq<Id>, remap: map<nat, nat>, j: nat)
    requires StringsOk(s) && RefsOk(s, sregs) && StringsOk(t) && IndexOk(t)
    requires IdsMatch(s, t, ids) && SlotsMatch(s, t, ids, remap, |s.edges|) && Live(t, j)
    requires forall i :: i in remap ==> remap[i] != j
    ensures Count(sregs, Name(t.strings, t.edges[j].key)) == 0
  {
    var e := Name(t.strings, t.edges[j].key);
    CountPositive(sregs, e);
    if r :| r in sregs && r.edge == e {
      assert HasSlot(s, e);
      var i :| Live(s, i) && Name(s.strings, s.edges[i].key) == e;
      RemapName(s, t, ids, s.edges[i].key);
      NameInjective(t.strings, RemapKey(ids, s.edges[i].key), t.edges[j].key);
    }
  }

  lemma ImageName(s: Tables, t: Tables, ids: seq<Id>, remap: map<nat, nat>, i: nat)
    requires StringsOk(s) && StringsOk(t) && IndexOk(t) && IdsMatch(s, t, ids)
    requires SlotsMatch(s, t, ids, remap, |s.edges|)
    requires i in remap
    ensures Live(s, i) && Live(t, remap[i]) && Name(t.strings, t.edges[remap[i]].key) == Name(s.strings, s.edges[i].key)
  {
    RemapName(s, t, ids, s.edges[i].key);
  }

  /** What one mapped list contributes to the count of slot `j`. */
  lemma MappedListCount(s: Tables, sregs: seq<Registration>, t: Tables, ids: seq<Id>, remap: map<nat, nat>, u: Id,
                        j: nat)
    requires StringsOk(s) && IndexOk(s) && RefsOk(s, sregs) && TusOk(s, sregs)
    requires StringsOk(t) && IndexOk(t) && IdsMatch(s, t, ids) && SlotsMatch(s, t, ids, remap, |s.edges|)
    requires Live(t, j) && u < |s.strings| && s.strings[u] != ""
    ensures multiset(MapSlots(remap, Slots(s.tus, u)))[j]
      == CountTu(sregs, Name(t.strings, t.edges[j].key), s.strings[u])
  {
    if i :| i in remap && remap[i] == j {
      SlotsMatchInjective(s, t, ids, remap, |s.edges|);
      MapSlotsCount(remap, Slots(s.tus, u), i);
      ImageName(s, t, ids, remap, i);
    } else {
      MapSlotsMember(remap, Slots(s.tus, u), j);
      ImageOrUnknown(s, sregs, t, ids, remap, j);
      CountTuAtMostCount(sregs, Name(t.strings, t.edges[j].key), s.strings[u]);
    }
  }

  /** A string that is no image is not one of the source's. */
  lemma UnknownUnit(s: Tables, t: Tables, ids: seq<Id>, v: Id)
    requires Distinct(t.strings) && IdsMatch(s, t, ids) && v !in ids && v < |t.strings|
    ensures t.strings[v] !in s.strings
  {
    forall u | 0 <= u < |s.strings| ensures s.strings[u] != t.strings[v] {
      assert ids[u] in ids;
    }
  }

  /** What one translation unit's appended list contributes. */
  lemma GainCount(s: Tables, sregs: seq<Registration>, t: Tables, ids: seq<Id>, remap: map<nat, nat>, v: Id, j: nat)
    requires StringsOk(s) && IndexOk(s) && RefsOk(s, sregs) && TusOk(s, sregs)
    requires StringsOk(t) && IndexOk(t) && IdsMatch(s, t, ids) && SlotsMatch(s, t, ids, remap, |s.edges|)
    requires v < |t.strings| && t.strings[v] != "" && Live(t, j)
    ensures multiset(Gain(s, ids, remap, s.tus.Keys, v))[j]
      == CountTu(sregs, Name(t.strings, t.edges[j].key), t.strings[v])
  {
    hide IndexOk, RefsOk, SlotsMatch, Distinct, CountTu;
    var e := Name(t.strings, t.edges[j].key);
    if v in ids {
      MappedListCount(s, sregs, t, ids, remap, IndexOf(ids, v), j);
      if IndexOf(ids, v) !in s.tus {
        assert MapSlots(remap, Slots(s.tus, IndexOf(ids, v))) == [];
      }
    } else {
      CountTuPositive(sregs, e, t.strings[v]);
      UnknownUnit(s, t, ids, v);
    }
  }

  lemma TusMergedCount(s: Tables, sregs: seq<Registration>, t: Tables, t': Tables, regs: seq<Registration>,
                       ids: seq<Id>, remap: map<nat, nat>, v: Id, j: nat)
    requires StringsOk(s) && IndexOk(s) && RefsOk(s, sregs) && TusOk(s, sregs)
    requires StringsOk(t) && IndexOk(t) && TusOk(t, regs) && IdsMatch(s, t, ids)
    requires SlotsMatch(s, t, ids, remap, |s.edges|)
    requires TusMerged(s, t, t', ids, remap, s.tus.Keys)
    requires v < |t.strings| && t.strings[v] != "" && Live(t, j)
    ensures multiset(Slots(t'.tus, v))[j] == CountTu(regs + sregs, Name(t.strings, t.edges[j].key), t.strings[v])
  {
    hide IndexOk, RefsOk, Distinct, IdsMatch, SlotsMatch, Gain;
    CountTuConcat(regs, sregs, Name(t.strings, t.edges[j].key), t.strings[v]);
    GainCount(s, sregs, t, ids, remap, v, j);
    assert Slots(t'.tus, v) == Slots(t.tus, v) + Gain(s, ids, remap, s.tus.Keys, v);
  }

  lemma TusMergedLive(s: Tables, sregs: seq<Registration>, t: Tables, t': Tables, regs: seq<Registration>,
                      ids: seq<Id>, remap: map<nat, nat>, v: Id, j: nat)
    requires StringsOk(s) && StringsOk(t) && IndexOk(t) && TusOk(t, regs) && IdsMatch(s, t, ids)
    requires SlotsMatch(s, t, ids, remap, |s.edges|)
    requires TusMerged(s, t, t', ids, remap, s.tus.Keys)
    requires j in Slots(t'.tus, v)
    ensures Live(t', j)
  {
    assert j in Slots(t.tus, v) + Gain(s, ids, remap, s.tus.Keys, v);
    if j in Gain(s, ids, remap, s.tus.Keys, v) {
      MapSlotsMember(remap, Slots(s.tus, IndexOf(ids, v)), j);
      var i :| i in Slots(s.tus, IndexOf(ids, v)) && i in remap && remap[i] == j;
      ImageName(s, t, ids, remap, i);
    }
  }

  lemma TusMergedOk(s: Tables, sregs: seq<Registration>, t: Tables, t': Tables, regs: seq<Registration>, ids: seq<Id>,
                    remap: map<nat, nat>)
    requires StringsOk(s) && IndexOk(s) && RefsOk(s, sregs) && TusOk(s, sregs)
    requires StringsOk(t) && IndexOk(t) && TusOk(t, regs) && IdsMatch(s, t, ids)
    requires SlotsMatch(s, t, ids, remap, |s.edges|)
    requires TusMerged(s, t, t', ids, remap, s.tus.Keys)
    ensures StringsOk(t') && TusOk(t', regs + sregs)
  {
    forall v: Id, j: nat | v < |t'.strings| && t'.strings[v] != "" && Live(t', j)
      ensures multiset(Slots(t'.tus, v))[j] == CountTu(regs + sregs, Name(t'.strings, t'.edges[j].key), t'.strings[v])
    {
      TusMergedCount(s, sregs, t, t', regs, ids, remap, v, j);
    }
    forall v: Id, j: nat | j in Slots(t'.tus, v) ensures Live(t', j) {
      TusMergedLive(s, sregs, t, t', regs, ids, remap, v, j);
    }
    forall r | r in regs + sregs && r.tu != "" ensures r.tu in t'.strings {
      if r in sregs {
        assert r.tu in s.strings;
        var u :| 0 <= u < |s.strings| && s.strings[u] == r.tu;
        assert t.strings[ids[u]] == r.tu;
      }
    }
  }

  /** The merge as a whole: the log of the result is the two logs together. */
  lemma MergeOk(s: Tables, sregs: seq<Registration>, t: Tables, t': Tables, regs: seq<Registration>, ids: seq<Id>,
                remap: map<nat, nat>)
    requires CoreOk(s, sregs) && Merged(s, sregs, t, regs, ids, remap, |s.edges|)
    requires TusMerged(s, t, t', ids, remap, s.tus.Keys)
    ensures TablesOk(t', regs + sregs)
  {
    MergeDone(s, sregs, t, regs, ids, remap);
    SameEdgesOk(t, t', regs + sregs);
    TusMergedOk(s, sregs, t, t', regs, ids, remap);
  }

  // ---- compact -------------------------------------------------------------------------------

  function EmptyTables(strings: seq<string>): Tables {
    Tables(strings, [], map[], map[], map[], map[])
  }

  lemma EmptyTablesOk(strings: seq<string>)
    requires Distinct(strings)
    ensures TablesOk(EmptyTables(strings), [])
  {
  }

  function Identity(n: nat): (ids: seq<Id>)
    ensures |ids| == n && forall i :: 0 <= i < n ==> ids[i] == i
  {
    seq(n, i => i)
  }

  /** Copying into empty tables never meets a key twice. */
  lemma FreshKey(s: Tables, sregs: seq<Registration>, t: Tables, remap: map<nat, nat>, n: nat)
    requires IndexOk(s) && Live(s, n) && Merged(s, sregs, t, [], Identity(|s.strings|), remap, n)
    requires t.strings == s.strings
    ensures RemapKey(Identity(|s.strings|), s.edges[n].key) == s.edges[n].key
    ensures s.edges[n].key !in t.index
  {
    var key := s.edges[n].key;
    if key in t.index {
      var e := Name(s.strings, key);
      var log := Only(sregs, NamesOf(s, n));
      assert [] + log == log;
      assert Live(t, t.index[key]);
      CountOnly(sregs, NamesOf(s, n), e);
      NamesOfMember(s, n, e);
      var i :| 0 <= i < n && Live(s, i) && Name(s.strings, s.edges[i].key) == e;
      NameInjective(s.strings, s.edges[i].key, key);
    }
  }

  /** The live slots, in slot order. */
  function LiveEdges(edges: seq<StoredEdge>): seq<StoredEdge> {
    if edges == [] then []
    else LiveEdges(edges[..|edges| - 1]) + (if edges[|edges| - 1].refs > 0 then [edges[|edges| - 1]] else [])
  }
}

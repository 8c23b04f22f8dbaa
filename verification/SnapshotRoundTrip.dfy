/** Saving and loading the call-graph section: when it fits its widths, and what comes back
    (src/callgraph/Snapshot.cpp:278-380, 666-812). */
module SnapshotRoundTrip {
  import opened EdgeTypes
  import opened Interner
  import opened Sequences
  import opened Registrations
  import opened EdgeTables
  import opened EdgeMerge
  import R = Relations
  import opened CallGraphStore
  import W = Wire
  import opened GraphSnapshot

  // ---- ids in range -----------------------------------------------------------------------------

  /** A saved image has all its ids in range. */
  lemma CapturedIdsIn(t: Tables, regs: seq<Registration>, image: Image, overrides: R.Relation, returns_: R.Relation,
                      ol: set<(string, string)>, rl: set<(string, string)>)
    requires TablesOk(t, regs) && Captured(t, image.edges) && image.strings == t.strings
    requires R.RelationOk(overrides, t.strings, ol) && ListsPairs(image.overrides, overrides.fwd)
    requires R.RelationOk(returns_, t.strings, rl) && ListsPairs(image.returned, returns_.fwd)
    requires TablesIn(image.nodes, image.derived, image.impls, |t.strings|)
    ensures IdsIn(image)
  {
    hide TablesIn, R.RelationOk;
    ShardCore(t, regs);
    forall r | r in image.edges ensures KeyAndUnitsIn(r, |t.strings|) {
      var k :| 0 <= k < |image.edges| && image.edges[k] == r;
      RecordIn(t, regs, image.edges, k);
    }
    R.RangeOfRelation(overrides, t.strings, ol);
    R.RangeOfRelation(returns_, t.strings, rl);
    forall p | p in image.overrides ensures PairIn(p, |t.strings|) {
      assert (p.0, p.1) in image.overrides && R.Related(overrides.fwd, p.0, p.1);
    }
    forall p | p in image.returned ensures PairIn(p, |t.strings|) {
      assert (p.0, p.1) in image.returned && R.Related(returns_.fwd, p.0, p.1);
    }
  }

  lemma RecordIn(t: Tables, regs: seq<Registration>, records: seq<EdgeRecord>, k: nat)
    requires CoreOk(t, regs) && Captured(t, records) && k < |records|
    ensures KeyAndUnitsIn(records[k], |t.strings|)
  {
    hide Captured, Rebuilt, LiveEdges, IndexOk, RefsOk, TusOk;
    RecordIsLive(t, records, k);
    assert t.edges[..|t.edges|] == t.edges;
    CapturedSize(t, records);
    var i := SlotAtRank(t, k, |t.edges|);
    LiveAt(t, i);
    CapturedEdge(t, records, k);
    forall u | u in records[k].tus ensures u < |t.strings| {
      RebuiltTus(t.strings, records, u, 0);
      UnitKnown(t, regs, records, u);
    }
  }

  lemma CapturedSize(t: Tables, records: seq<EdgeRecord>)
    requires Captured(t, records)
    ensures |records| == |LiveEdges(t.edges)|
  {
  }

  lemma CapturedEdge(t: Tables, records: seq<EdgeRecord>, k: nat)
    requires Captured(t, records) && k < |records|
    ensures k < |LiveEdges(t.edges)| && records[k].edge == LiveEdges(t.edges)[k]
  {
  }

  // ---- contributors within the reference count -------------------------------------------------------

  /** Units listed no oftener than they registered the edge are no more than its count. */
  lemma {:induction false} ListWithinCount(strings: seq<string>, regs: seq<Registration>, edge: EdgeName, list: seq<Id>)
    requires Distinct(strings) && forall k :: 0 <= k < |list| ==> list[k] < |strings|
    requires forall u: Id :: u < |strings| ==> multiset(list)[u] <= CountTu(regs, edge, strings[u])
    ensures |list| <= Count(regs, edge)
    decreases |regs|
  {
    if regs == [] {
      forall u: Id ensures multiset(list)[u] == 0 {
        assert u >= |strings| ==> u !in list;
      }
      assert multiset(list) == multiset{} && |multiset(list)| == |list|;
    } else {
      var init, last := regs[..|regs| - 1], regs[|regs| - 1];
      assert regs == init + [last];
      CountOne(init, last, edge);
      forall u: Id | u < |strings|
        ensures CountTu(regs, edge, strings[u])
             == CountTu(init, edge, strings[u]) + (if last == Registration(edge, strings[u]) then 1 else 0)
      {
        CountTuOne(init, last, edge, strings[u]);
      }
      hide Count, CountTu;
      if k :| 0 <= k < |list| && last == Registration(edge, strings[list[k]]) {
        var rest: seq<Id> := list[..k] + list[k + 1..];
        assert list == list[..k] + [list[k]] + list[k + 1..];
        assert multiset(list) == multiset(rest) + multiset{list[k]};
        forall u: Id | u < |strings| ensures multiset(rest)[u] <= CountTu(init, edge, strings[u]) {
          assert multiset(rest)[u] == multiset(list)[u] - (if u == list[k] then 1 else 0);
        }
        ListWithinCount(strings, init, edge, rest);
      } else {
        forall u: Id | u < |strings| ensures multiset(list)[u] <= CountTu(init, edge, strings[u]) {
          if multiset(list)[u] > 0 {
            var k :| 0 <= k < |list| && list[k] == u;
          }
        }
        ListWithinCount(strings, init, edge, list);
      }
    }
  }

  /** A record names no more contributors than its edge has references. */
  lemma ContributorsWithinRefs(t: Tables, regs: seq<Registration>, records: seq<EdgeRecord>, k: nat)
    requires TablesOk(t, regs) && Captured(t, records) && k < |records|
    ensures |records[k].tus| <= records[k].edge.refs
  {
    hide Captured, LiveEdges, IndexOk, AdjOk, Rebuilt, RefsOk, TusOk, Rank;
    ShardCore(t, regs);
    CapturedSize(t, records);
    assert t.edges[..|t.edges|] == t.edges;
    RankAll(t);
    var i := SlotAtRank(t, k, |t.edges|);
    CapturedAt(t, records, i);
    LiveAt(t, i);
    CapturedEdge(t, records, k);
    RecordIn(t, regs, records, k);
    var name := Name(t.strings, t.edges[i].key);
    forall u: Id | u < |t.strings| ensures multiset(records[k].tus)[u] <= CountTu(regs, name, t.strings[u]) {
      if u in records[k].tus {
        RebuiltTus(t.strings, records, u, 0);
        UnitKnown(t, regs, records, u);
        UnitCount(t, regs, i, u);
      }
    }
    forall j | 0 <= j < |records[k].tus| ensures records[k].tus[j] < |t.strings| {
      assert records[k].tus[j] in records[k].tus;
    }
    ListWithinCount(t.strings, regs, name, records[k].tus);
    RefsAre(t, regs, i);
  }

  lemma RankAll(t: Tables)
    ensures Rank(t.edges, |t.edges|) == |LiveEdges(t.edges)|
  {
    assert t.edges[..|t.edges|] == t.edges;
  }

  lemma UnitCount(t: Tables, regs: seq<Registration>, i: nat, u: Id)
    requires TablesOk(t, regs) && Live(t, i) && u < |t.strings| && t.strings[u] != ""
    ensures multiset(Slots(t.tus, u))[i] == CountTu(regs, Name(t.strings, t.edges[i].key), t.strings[u])
  {
  }

  lemma RefsAre(t: Tables, regs: seq<Registration>, i: nat)
    requires TablesOk(t, regs) && Live(t, i)
    ensures t.edges[i].refs == Count(regs, Name(t.strings, t.edges[i].key))
  {
  }

  // ---- widths ---------------------------------------------------------------------------------------------

  lemma {:induction false} EachAt<A>(write: A -> W.Value, xs: seq<A>)
    ensures |Each(write, xs)| == |xs| && forall k :: 0 <= k < |xs| ==> Each(write, xs)[k] == write(xs[k])
  {
    if xs != [] {
      EachAt(write, xs[1..]);
    }
  }

  /** A list fits when its length and each of its items do. */
  lemma ListFits<A(!new)>(item: W.Layout, write: A -> W.Value, xs: seq<A>)
    requires W.Solid(item)
    ensures W.Fits(W.Counted(item), W.List(Each(write, xs)))
       <==> |xs| < W.TWO32 && forall k :: 0 <= k < |xs| ==> W.Fits(item, write(xs[k]))
  {
    EachAt(write, xs);
  }

  /** The fields of a record fit one by one. */
  lemma FieldFits(ls: seq<W.Layout>, i: nat, head: W.Value, tail: W.Value)
    requires i < |ls|
    ensures W.Fits(W.Fields(ls[i..]), W.Pair(head, tail)) <==>
      W.Fits(ls[i], head) && W.Fits(W.Fields(ls[i + 1..]), tail)
  {
    assert ls[i..][1..] == ls[i + 1..];
    assert W.Fields(ls[i..]) == W.Then(ls[i], W.Fields(ls[i + 1..]));
  }

  lemma EndFits(ls: seq<W.Layout>)
    ensures W.Fits(W.Fields(ls[|ls|..]), W.Unit)
    ensures W.Fields(ls[0..]) == W.Fields(ls)
  {
    assert ls[0..] == ls;
  }

  lemma NumberFits(k: nat, n: nat)
    requires k in {1, 4}
    ensures W.Fits(W.Number(k), W.Nat(n)) <==> n < if k == 1 then 256 else W.TWO32
  {
    W.Widths();
  }

  lemma PairFits(p: Pair)
    ensures W.Fits(PAIR, PairValue(p)) <==> p.0 < W.TWO32 && p.1 < W.TWO32
  {
    hide W.Fits;
    NumberFits(4, p.0);
    NumberFits(4, p.1);
    var ls := [W.U32, W.U32];
    EndFits(ls);
    FieldFits(ls, 1, W.Nat(p.1), W.Unit);
    FieldFits(ls, 0, W.Nat(p.0), W.Pair(W.Nat(p.1), W.Unit));
  }

  lemma EdgeFits(r: EdgeRecord)
    ensures var k := r.edge.key;
      W.Fits(EDGE, EdgeValue(r))
      <==> && k.caller < W.TWO32 && k.callee < W.TWO32 && k.callSite < W.TWO32 && k.indirectionDepth < W.TWO32
           && r.edge.refs < W.TWO32 && |r.tus| < W.TWO32 && forall i :: 0 <= i < |r.tus| ==> r.tus[i] < W.TWO32
  {
    hide W.Fits;
    var k := r.edge.key;
    CodesBack(k.kind, k.confidence, k.execContext);
    NumberFits(4, k.caller);
    NumberFits(4, k.callee);
    NumberFits(4, k.callSite);
    NumberFits(1, KindCode(k.kind));
    NumberFits(1, ConfidenceCode(k.confidence));
    NumberFits(1, ContextCode(k.execContext));
    NumberFits(4, k.indirectionDepth);
    NumberFits(4, r.edge.refs);
    UnitsFit(r.tus);
    var ls := [W.U32, W.U32, W.U32, W.U8, W.U8, W.U8, W.U32, W.U32, W.Counted(W.U32)];
    EndFits(ls);
    var v8 := W.Pair(W.List(Each(IdValue, r.tus)), W.Unit);
    var v7 := W.Pair(W.Nat(r.edge.refs), v8);
    var v6 := W.Pair(W.Nat(k.indirectionDepth), v7);
    var v5 := W.Pair(W.Nat(ContextCode(k.execContext)), v6);
    var v4 := W.Pair(W.Nat(ConfidenceCode(k.confidence)), v5);
    var v3 := W.Pair(W.Nat(KindCode(k.kind)), v4);
    var v2 := W.Pair(W.Nat(k.callSite), v3);
    var v1 := W.Pair(W.Nat(k.callee), v2);
    FieldFits(ls, 8, v8.head, W.Unit);
    FieldFits(ls, 7, v7.head, v8);
    FieldFits(ls, 6, v6.head, v7);
    FieldFits(ls, 5, v5.head, v6);
    FieldFits(ls, 4, v4.head, v5);
    FieldFits(ls, 3, v3.head, v4);
    FieldFits(ls, 2, v2.head, v3);
    FieldFits(ls, 1, v1.head, v2);
    FieldFits(ls, 0, W.Nat(k.caller), v1);
  }

  lemma UnitsFit(tus: seq<Id>)
    ensures W.Fits(W.Counted(W.U32), W.List(Each(IdValue, tus)))
       <==> |tus| < W.TWO32 && forall i :: 0 <= i < |tus| ==> tus[i] < W.TWO32
  {
    ListFits(W.U32, IdValue, tus);
    hide W.Fits;
    forall i | 0 <= i < |tus| ensures W.Fits(W.U32, W.Nat(tus[i])) <==> tus[i] < W.TWO32 {
      NumberFits(4, tus[i]);
    }
  }

  /** The widths of everything in an image. */
  ghost predicate ImageFits(image: Image) {
    && |image.strings| < W.TWO32 && (forall s :: s in image.strings ==> |s| < W.TWO32)
    && W.Fits(W.Counted(NODE), image.nodes)
    && |image.edges| < W.TWO32 && (forall r :: r in image.edges ==> W.Fits(EDGE, EdgeValue(r)))
    && W.Fits(W.Counted(PAIR), image.derived) && W.Fits(W.Counted(PAIR), image.impls)
    && |image.overrides| < W.TWO32 && (forall p :: p in image.overrides ==> W.Fits(PAIR, PairValue(p)))
    && |image.returned| < W.TWO32 && (forall p :: p in image.returned ==> W.Fits(PAIR, PairValue(p)))
  }

  lemma ItemsFit(image: Image)
    ensures W.Fits(W.Counted(W.Text), W.List(Each(StringValue, image.strings)))
       <==> |image.strings| < W.TWO32 && forall s :: s in image.strings ==> |s| < W.TWO32
    ensures W.Fits(W.Counted(EDGE), W.List(Each(EdgeValue, image.edges)))
       <==> |image.edges| < W.TWO32 && forall r :: r in image.edges ==> W.Fits(EDGE, EdgeValue(r))
    ensures W.Fits(W.Counted(PAIR), W.List(Each(PairValue, image.overrides)))
       <==> |image.overrides| < W.TWO32 && forall p :: p in image.overrides ==> W.Fits(PAIR, PairValue(p))
    ensures W.Fits(W.Counted(PAIR), W.List(Each(PairValue, image.returned)))
       <==> |image.returned| < W.TWO32 && forall p :: p in image.returned ==> W.Fits(PAIR, PairValue(p))
  {
    ListFits(W.Text, StringValue, image.strings);
    ListFits(EDGE, EdgeValue, image.edges);
    ListFits(PAIR, PairValue, image.overrides);
    ListFits(PAIR, PairValue, image.returned);
    forall k | 0 <= k < |image.strings|
      ensures W.Fits(W.Text, StringValue(image.strings[k])) <==> |image.strings[k]| < W.TWO32
    {
      StringFits(image.strings[k]);
    }
    hide W.Fits;
  }

  lemma StringFits(s: string)
    ensures W.Fits(W.Text, StringValue(s)) <==> |s| < W.TWO32
  {
  }

  /** The section fits when each of its seven tables does. */
  lemma SectionFits(image: Image)
    ensures W.Fits(SECTION, SectionValue(image)) <==> ImageFits(image)
  {
    ItemsFit(image);
    hide W.Fits;
    var ls := [W.Counted(W.Text), W.Counted(NODE), W.Counted(EDGE), W.Counted(PAIR), W.Counted(PAIR), W.Counted(PAIR),
               W.Counted(PAIR)];
    EndFits(ls);
    var v := SectionValue(image);
    var v1 := v.tail;
    var v2 := v1.tail;
    var v3 := v2.tail;
    var v4 := v3.tail;
    var v5 := v4.tail;
    var v6 := v5.tail;
    FieldFits(ls, 6, v6.head, v6.tail);
    FieldFits(ls, 5, v5.head, v6);
    FieldFits(ls, 4, v4.head, v5);
    FieldFits(ls, 3, v3.head, v4);
    FieldFits(ls, 2, v2.head, v3);
    FieldFits(ls, 1, v1.head, v2);
    FieldFits(ls, 0, v.head, v1);
  }

  /** What a graph must stay within for its section: the program writes these numbers as 32 bits
      without a check. Contributor lists need no bound of their own. */
  ghost predicate Within32(t: Tables, overrides: R.Relation, returned: R.Relation,
                           nodes: W.Value, derived: W.Value, impls: W.Value)
  {
    && |t.strings| < W.TWO32 && (forall s :: s in t.strings ==> |s| < W.TWO32)
    && |t.index| < W.TWO32
    && (forall i :: Live(t, i) ==> t.edges[i].refs < W.TWO32 && t.edges[i].key.indirectionDepth < W.TWO32)
    && PairTotal(overrides.fwd) < W.TWO32 && PairTotal(returned.fwd) < W.TWO32
    && W.Fits(W.Counted(NODE), nodes) && W.Fits(W.Counted(PAIR), derived) && W.Fits(W.Counted(PAIR), impls)
  }

  /** A record fits when its edge's two free numbers do. */
  lemma RecordFits(t: Tables, regs: seq<Registration>, records: seq<EdgeRecord>, k: nat)
    requires TablesOk(t, regs) && Captured(t, records) && k < |records| && |t.strings| < W.TWO32
    ensures W.Fits(EDGE, EdgeValue(records[k]))
       <==> records[k].edge.refs < W.TWO32 && records[k].edge.key.indirectionDepth < W.TWO32
  {
    hide TablesOk, Captured, W.Fits, EdgeValue;
    ShardCore(t, regs);
    RecordIn(t, regs, records, k);
    ContributorsWithinRefs(t, regs, records, k);
    EdgeFits(records[k]);
    forall j | 0 <= j < |records[k].tus| ensures records[k].tus[j] < W.TWO32 {
      assert records[k].tus[j] in records[k].tus;
    }
  }

  lemma CapturedTotal(t: Tables, regs: seq<Registration>, records: seq<EdgeRecord>)
    requires TablesOk(t, regs) && Captured(t, records)
    ensures |records| == |t.index|
  {
    RebuildOk(t, regs, records);
    hide TablesOk, Captured, Rebuilt, LiveEdges, Laid;
    RebuiltEdges(t.strings, records);
    CapturedSize(t, records);
    SameKeys(t, Rebuilt(t.strings, records), regs);
  }

  lemma RecordOfSlot(t: Tables, records: seq<EdgeRecord>, i: nat) returns (k: nat)
    requires Captured(t, records) && Live(t, i)
    ensures k < |records| && records[k].edge == t.edges[i]
  {
    k := Rank(t.edges, i);
    CapturedAt(t, records, i);
    LiveAt(t, i);
    CapturedEdge(t, records, k);
  }

  lemma SlotOfRecord(t: Tables, records: seq<EdgeRecord>, k: nat) returns (i: nat)
    requires Captured(t, records) && k < |records|
    ensures Live(t, i) && records[k].edge == t.edges[i]
  {
    CapturedSize(t, records);
    RankAll(t);
    hide Captured, LiveEdges, Rank;
    i := SlotAtRank(t, k, |t.edges|);
    LiveAt(t, i);
    CapturedEdge(t, records, k);
  }

  lemma RecordsFit(t: Tables, regs: seq<Registration>, records: seq<EdgeRecord>)
    requires TablesOk(t, regs) && Captured(t, records) && |t.strings| < W.TWO32
    ensures (forall r :: r in records ==> W.Fits(EDGE, EdgeValue(r)))
       <==> forall i :: Live(t, i) ==> t.edges[i].refs < W.TWO32 && t.edges[i].key.indirectionDepth < W.TWO32
  {
    hide TablesOk, Captured, W.Fits, EdgeValue;
    if forall r :: r in records ==> W.Fits(EDGE, EdgeValue(r)) {
      forall i | Live(t, i) ensures t.edges[i].refs < W.TWO32 && t.edges[i].key.indirectionDepth < W.TWO32 {
        var k := RecordOfSlot(t, records, i);
        assert records[k] in records;
        RecordFits(t, regs, records, k);
      }
    }
    if forall i :: Live(t, i) ==> t.edges[i].refs < W.TWO32 && t.edges[i].key.indirectionDepth < W.TWO32 {
      forall r | r in records ensures W.Fits(EDGE, EdgeValue(r)) {
        var k :| 0 <= k < |records| && records[k] == r;
        var i := SlotOfRecord(t, records, k);
        RecordFits(t, regs, records, k);
      }
    }
  }

  /** The section of a captured graph fits exactly when the graph stays within the widths. */
  lemma FitsWithin32(t: Tables, regs: seq<Registration>, image: Image, overrides: R.Relation, returned: R.Relation)
    requires TablesOk(t, regs) && Captured(t, image.edges) && image.strings == t.strings && IdsIn(image)
    requires |image.overrides| == PairTotal(overrides.fwd) && |image.returned| == PairTotal(returned.fwd)
    ensures W.Fits(SECTION, SectionValue(image))
       <==> Within32(t, overrides, returned, image.nodes, image.derived, image.impls)
  {
    hide TablesOk, Captured, W.Fits, SectionValue, EdgeValue, TablesIn;
    SectionFits(image);
    CapturedTotal(t, regs, image.edges);
    if |t.strings| < W.TWO32 {
      RecordsFit(t, regs, image.edges);
      forall p | p in image.overrides ensures W.Fits(PAIR, PairValue(p)) { PairFits(p); }
      forall p | p in image.returned ensures W.Fits(PAIR, PairValue(p)) { PairFits(p); }
    }
  }

  // ---- the round trip ----------------------------------------------------------------------------------------

  /** Loading what was saved succeeds exactly when everything fits its width, and gives the
      compacted graph: the same ids, the live edges in order with their counts, index and
      adjacency, the same registrations by unit, the same relations. */
  method SaveThenLoad(g: CallGraph, nodes: W.Value, derived: W.Value, impls: W.Value)
    returns (loaded: Option<Image>, g': CallGraph)
    requires g.Valid() && (forall s :: s in g.strings ==> ByteString(s))
    requires TablesIn(nodes, derived, impls, |g.strings|)
    ensures loaded.Some? <==> Within32(g.Tab(), g.Overrides(), g.Returns(), nodes, derived, impls)
    ensures loaded.Some? ==>
      && fresh(g') && g'.Valid() && g'.strings == g.strings
      && g'.edges == LiveEdges(g.edges) && g'.Tab().(tus := map[]) == Laid(g.strings, LiveEdges(g.edges))
      && g'.regs == g.regs && g'.overrideLog == g.overrideLog && g'.returnLog == g.returnLog
      && loaded.value.nodes == nodes && loaded.value.derived == derived && loaded.value.impls == impls
  {
    hide W.Fits, W.Encode, Decode, SectionValue, Captured, Rebuilt, Pushed, Inserted, TablesIn, IdsIn, TablesOk,
         R.RelationOk, InternerOk, ByteString, ListsPairs, Laid, LiveEdges, Within32, PairTotal;
    var image, data := Save(g, nodes, derived, impls);
    loaded, g' := None, g;
    CapturedIdsIn(g.Tab(), g.regs, image, g.Overrides(), g.Returns(), g.overrideLog, g.returnLog);
    FitsWithin32(g.Tab(), g.regs, image, g.Overrides(), g.Returns());
    if data.Some? {
      DecodeOfEncode(image);
      loaded, g' := Load(data.value);
      g'.regs, g'.overrideLog, g'.returnLog := g.regs, g.overrideLog, g.returnLog;
      RebuildOk(g.Tab(), g.regs, image.edges);
      RebuiltEdges(g.strings, image.edges);
      PushedOk(g.Overrides(), image.overrides, g.strings, g.overrideLog);
      PushedOk(g.Returns(), image.returned, g.strings, g.returnLog);
      DistinctStrings(g.Tab(), g.regs);
    }
  }

  /** Two graphs of the same registrations with the same slots list the same provenance: what
      was loaded and what was compacted. */
  lemma SameProvenance(a: Tables, b: Tables, regs: seq<Registration>, u: Id)
    requires TablesOk(a, regs) && TablesOk(b, regs) && a.strings == b.strings && a.edges == b.edges
    ensures multiset(Slots(a.tus, u)) == multiset(Slots(b.tus, u))
  {
    forall i: nat ensures multiset(Slots(a.tus, u))[i] == multiset(Slots(b.tus, u))[i] {
      assert i in Slots(a.tus, u) ==> Live(a, i) && u in a.tus;
      assert i in Slots(b.tus, u) ==> Live(b, i) && u in b.tus;
    }
  }

  lemma DistinctStrings(t: Tables, regs: seq<Registration>)
    requires TablesOk(t, regs)
    ensures Distinct(t.strings)
  {
  }
}

/** The call-graph section of a snapshot: saved with its ids, loaded back without interning
    (src/callgraph/Snapshot.cpp:247-380, 666-812). */
module GraphSnapshot {
  import opened EdgeTypes
  import opened Interner
  import opened Sequences
  import opened Registrations
  import opened EdgeTables
  import opened EdgeMerge
  import R = Relations
  import opened CallGraphStore
  import W = Wire

  /** A live edge as written: its fields and counts, then the units that registered it, as often
      as they did. */
  datatype EdgeRecord = EdgeRecord(edge: StoredEdge, tus: seq<Id>)

  // ---- rebuilding the tables ---------------------------------------------------------------------

  /** One more entry of a slot in the list of each unit named. */
  function Tag(tus: map<Id, seq<nat>>, list: seq<Id>, i: nat): map<Id, seq<nat>> {
    if list == [] then tus
    else
      var m, u := Tag(tus, list[..|list| - 1], i), list[|list| - 1];
      m[u := Slots(m, u) + [i]]
  }

  /** An edge installed at the next slot; the dedup index keeps the first slot of a key. */
  function Installed(t: Tables, edge: StoredEdge): Tables {
    t.(edges := t.edges + [edge],
       index := if edge.key in t.index then t.index else t.index[edge.key := |t.edges|],
       out := t.out[edge.key.caller := Slots(t.out, edge.key.caller) + [|t.edges|]],
       inn := t.inn[edge.key.callee := Slots(t.inn, edge.key.callee) + [|t.edges|]])
  }

  function Rebuilt(strings: seq<string>, records: seq<EdgeRecord>): Tables {
    if records == [] then EmptyTables(strings)
    else
      var t, r := Rebuilt(strings, records[..|records| - 1]), records[|records| - 1];
      Installed(t, r.edge).(tus := Tag(t.tus, r.tus, |t.edges|))
  }

  /** Position of a slot among the live ones. */
  function Rank(edges: seq<StoredEdge>, i: nat): nat
    requires i <= |edges|
  {
    |LiveEdges(edges[..i])|
  }

  /** The records name the live slots in order, each with its units. */
  ghost predicate Captured(s: Tables, records: seq<EdgeRecord>) {
    && |records| == |LiveEdges(s.edges)|
    && (forall k :: 0 <= k < |records| ==> records[k].edge == LiveEdges(s.edges)[k])
    && forall i :: Live(s, i) ==> Rank(s.edges, i) < |records| && NamesUnits(s, i, records[Rank(s.edges, i)].tus)
  }

  ghost predicate NamesUnits(s: Tables, i: nat, list: seq<Id>) {
    forall u: Id :: multiset(list)[u] == multiset(Slots(s.tus, u))[i]
  }

  lemma {:induction false} TagCount(tus: map<Id, seq<nat>>, list: seq<Id>, i: nat, u: Id, j: nat)
    ensures multiset(Slots(Tag(tus, list, i), u))[j] == multiset(Slots(tus, u))[j]
      + (if j == i then multiset(list)[u] else 0)
  {
    if list != [] {
      var init, last := list[..|list| - 1], list[|list| - 1];
      TagCount(tus, init, i, u, j);
      assert list == init + [last];
      var before := Tag(tus, init, i);
      assert Slots(Tag(tus, list, i), u) == if u == last then Slots(before, u) + [i] else Slots(before, u);
    }
  }

  lemma {:induction false} TagKeys(tus: map<Id, seq<nat>>, list: seq<Id>, i: nat, u: Id)
    ensures u in Tag(tus, list, i) <==> u in tus || u in list
  {
    if list != [] {
      TagKeys(tus, list[..|list| - 1], i, u);
      assert list == list[..|list| - 1] + [list[|list| - 1]];
    }
  }

  /** The rebuilt provenance: slot by slot what the records name. */
  lemma {:induction false} RebuiltTus(strings: seq<string>, records: seq<EdgeRecord>, u: Id, j: nat)
    ensures |Rebuilt(strings, records).edges| == |records|
    ensures multiset(Slots(Rebuilt(strings, records).tus, u))[j]
         == if j < |records| then multiset(records[j].tus)[u] else 0
    ensures u in Rebuilt(strings, records).tus <==> exists k :: 0 <= k < |records| && u in records[k].tus
  {
    if records != [] {
      var init, r := records[..|records| - 1], records[|records| - 1];
      RebuiltTus(strings, init, u, j);
      TagCount(Rebuilt(strings, init).tus, r.tus, |init|, u, j);
      TagKeys(Rebuilt(strings, init).tus, r.tus, |init|, u);
    }
  }

  lemma {:induction false} RebuiltEdges(strings: seq<string>, records: seq<EdgeRecord>)
    ensures |Rebuilt(strings, records).edges| == |records| && Rebuilt(strings, records).strings == strings
    ensures forall k :: 0 <= k < |records| ==> Rebuilt(strings, records).edges[k] == records[k].edge
  {
    if records != [] {
      RebuiltEdges(strings, records[..|records| - 1]);
    }
  }

  /** A slot's rank in the slot map of a copy. */
  ghost predicate Ranked(s: Tables, remap: map<nat, nat>) {
    forall i :: i in remap ==> i < |s.edges| && remap[i] == Rank(s.edges, i)
  }

  lemma RankStep(s: Tables, n: nat)
    requires n < |s.edges|
    ensures Rank(s.edges, n + 1) == Rank(s.edges, n) + (if Live(s, n) then 1 else 0)
    ensures LiveEdges(s.edges[..n + 1]) == LiveEdges(s.edges[..n]) + (if Live(s, n) then [s.edges[n]] else [])
  {
    assert s.edges[..n + 1][..n] == s.edges[..n];
  }

  lemma InstallStep(strings: seq<string>, records: seq<EdgeRecord>, k: nat)
    requires k < |records|
    ensures Rebuilt(strings, records[..k + 1]).(tus := map[])
         == Installed(Rebuilt(strings, records[..k]).(tus := map[]), records[k].edge)
  {
    assert records[..k + 1][..k] == records[..k];
  }

  lemma FreshInstalls(t: Tables, e: StoredEdge)
    requires e.key !in t.index
    ensures Installed(t, e) == WithEdge(t, e) && |Installed(t, e).index| == |t.index| + 1
  {
  }

  /** One more live slot installed is one more copied. */
  lemma RebuildOne(s: Tables, regs: seq<Registration>, records: seq<EdgeRecord>, n: nat, remap: map<nat, nat>)
    requires CoreOk(s, regs) && Captured(s, records) && Live(s, n)
    requires Ranked(s, remap) && Rank(s.edges, n) <= |records|
    requires var t := Rebuilt(s.strings, records[..Rank(s.edges, n)]).(tus := map[]);
      && Merged(s, regs, t, [], Identity(|s.strings|), remap, n)
      && |t.index| == |t.edges| && t == Laid(s.strings, LiveEdges(s.edges[..n]))
    ensures var k := Rank(s.edges, n);
      && k + 1 <= |records| && Ranked(s, remap[n := k])
      && var t' := Rebuilt(s.strings, records[..k + 1]).(tus := map[]);
         && Merged(s, regs, t', [], Identity(|s.strings|), remap[n := k], n + 1)
         && |t'.index| == |t'.edges| && t' == Laid(s.strings, LiveEdges(s.edges[..n + 1]))
  {
    hide Merged, CoreOk, IndexOk, Rebuilt, LiveEdges, Installed, WithEdge, Laid;
    RankStep(s, n);
    LaidOne(s.strings, LiveEdges(s.edges[..n]), s.edges[n]);
    var k := Rank(s.edges, n);
    var t := Rebuilt(s.strings, records[..k]).(tus := map[]);
    LiveAt(s, n);
    RebuiltEdges(s.strings, records[..k]);
    InstallStep(s.strings, records, k);
    CoreParts(s, regs);
    FreshKey(s, regs, t, remap, n);
    FreshInstalls(t, s.edges[n]);
    CopyOne(s, regs, t, remap, n);
    RebuiltEdges(s.strings, records[..k + 1]);
  }

  lemma RebuildNone(s: Tables, regs: seq<Registration>, records: seq<EdgeRecord>)
    requires CoreOk(s, regs)
    ensures Rank(s.edges, 0) == 0 && Rebuilt(s.strings, records[..0]) == EmptyTables(s.strings)
    ensures Merged(s, regs, Rebuilt(s.strings, records[..0]).(tus := map[]), [], Identity(|s.strings|), map[], 0)
    ensures Laid(s.strings, LiveEdges(s.edges[..0])) == EmptyTables(s.strings)
  {
    CopyStart(s, regs);
    assert records[..0] == [] && s.edges[..0] == [];
  }

  /** Installing the captured edges copies the live slots, as compacting does. */
  lemma {:induction false} RebuildCopies(s: Tables, regs: seq<Registration>, records: seq<EdgeRecord>, n: nat)
    returns (remap: map<nat, nat>)
    requires CoreOk(s, regs) && Captured(s, records) && n <= |s.edges|
    ensures Rank(s.edges, n) <= |records| && Ranked(s, remap)
    ensures var t := Rebuilt(s.strings, records[..Rank(s.edges, n)]).(tus := map[]);
      && Merged(s, regs, t, [], Identity(|s.strings|), remap, n)
      && |t.index| == |t.edges| && t == Laid(s.strings, LiveEdges(s.edges[..n]))
    decreases n
  {
    hide Merged, CoreOk, IndexOk, Captured, Rebuilt, LiveEdges, Laid;
    if n == 0 {
      remap := map[];
      RebuildNone(s, regs, records);
    } else {
      RankStep(s, n - 1);
      remap := RebuildCopies(s, regs, records, n - 1);
      if Live(s, n - 1) {
        RebuildOne(s, regs, records, n - 1, remap);
        remap := remap[n - 1 := Rank(s.edges, n - 1)];
      } else {
        assert LiveEdges(s.edges[..n]) == LiveEdges(s.edges[..n - 1]);
        MergeSkip(s, regs, Rebuilt(s.strings, records[..Rank(s.edges, n - 1)]).(tus := map[]), [],
          Identity(|s.strings|), remap, n - 1);
      }
    }
  }

  lemma CoreParts(s: Tables, regs: seq<Registration>)
    requires CoreOk(s, regs)
    ensures IndexOk(s) && StringsOk(s) && RefsOk(s, regs) && TusOk(s, regs)
  {
  }

  lemma {:induction false} RankBound(s: Tables, n: nat)
    requires n <= |s.edges|
    ensures Rank(s.edges, n) <= |LiveEdges(s.edges)|
    decreases |s.edges| - n
  {
    if n < |s.edges| {
      RankStep(s, n);
      RankBound(s, n + 1);
    } else {
      assert s.edges[..n] == s.edges;
    }
  }

  lemma {:induction false} LivePrefix(s: Tables, n: nat)
    requires n <= |s.edges|
    ensures LiveEdges(s.edges[..n]) <= LiveEdges(s.edges)
    decreases |s.edges| - n
  {
    if n < |s.edges| {
      RankStep(s, n);
      LivePrefix(s, n + 1);
    } else {
      assert s.edges[..n] == s.edges;
    }
  }

  /** A live slot's edge is at its rank among the live edges. */
  lemma LiveAt(s: Tables, i: nat)
    requires Live(s, i)
    ensures Rank(s.edges, i) < |LiveEdges(s.edges)| && LiveEdges(s.edges)[Rank(s.edges, i)] == s.edges[i]
  {
    RankStep(s, i);
    LivePrefix(s, i + 1);
  }

  /** The loaded provenance counts what the saved one did. */
  lemma RebuiltCount(s: Tables, regs: seq<Registration>, records: seq<EdgeRecord>, t: Tables, remap: map<nat, nat>,
                     u: Id, j: nat)
    requires CoreOk(s, regs) && Captured(s, records) && Ranked(s, remap) && t == Rebuilt(s.strings, records)
    requires Merged(s, regs, t.(tus := map[]), [], Identity(|s.strings|), remap, |s.edges|)
    requires Live(t, j) && u < |s.strings| && s.strings[u] != "" && KeyIn(t.edges[j].key, |s.strings|)
    ensures t.strings == s.strings
    ensures multiset(Slots(t.tus, u))[j] == CountTu(regs, Name(s.strings, t.edges[j].key), s.strings[u])
  {
    hide Rebuilt, Captured, IndexOk, RefsOk, AdjOk, SlotsMatch, CountTu;
    RebuiltEdges(s.strings, records);
    RebuiltTus(s.strings, records, u, j);
    var bare, ids := t.(tus := map[]), Identity(|s.strings|);
    if i :| i in remap && remap[i] == j {
      ImageName(s, bare, ids, remap, i);
      CapturedAt(s, records, i);
    } else {
      ImageOrUnknown(s, regs, bare, ids, remap, j);
      LiveHasCount(bare, regs, ids, s, remap, j);
    }
  }

  lemma CapturedAt(s: Tables, records: seq<EdgeRecord>, i: nat)
    requires Captured(s, records) && Live(s, i)
    ensures Rank(s.edges, i) < |records| && NamesUnits(s, i, records[Rank(s.edges, i)].tus)
  {
  }

  lemma LiveHasCount(t: Tables, regs: seq<Registration>, ids: seq<Id>, s: Tables, remap: map<nat, nat>, j: nat)
    requires CoreOk(s, regs) && Merged(s, regs, t, [], ids, remap, |s.edges|) && Live(t, j)
    ensures Count(regs, Name(t.strings, t.edges[j].key)) > 0
  {
    hide SlotsMatch, AdjOk, IndexOk, TusOk;
    MergeDone(s, regs, t, [], ids, remap);
    assert [] + regs == regs;
  }

  /** Everything but the provenance. */
  lemma RebuiltCore(s: Tables, regs: seq<Registration>, t: Tables, remap: map<nat, nat>)
    requires CoreOk(s, regs) && Merged(s, regs, t.(tus := map[]), [], Identity(|s.strings|), remap, |s.edges|)
    ensures StringsOk(t) && IndexOk(t) && RefsOk(t, regs) && AdjOk(t, CallerEnd, {}) && AdjOk(t, CalleeEnd, {})
  {
    var bare := t.(tus := map[]);
    MergeDone(s, regs, bare, [], Identity(|s.strings|), remap);
    assert [] + regs == regs;
    hide Merged, CoreOk, SlotsMatch;
    SameEdgesOk(bare, t, regs);
  }

  /** Loading a captured graph gives valid tables for the same registrations. */
  lemma RebuildOk(s: Tables, regs: seq<Registration>, records: seq<EdgeRecord>)
    requires TablesOk(s, regs) && Captured(s, records)
    ensures TablesOk(Rebuilt(s.strings, records), regs)
    ensures Rebuilt(s.strings, records).edges == LiveEdges(s.edges)
    ensures |Rebuilt(s.strings, records).index| == |Rebuilt(s.strings, records).edges|
    ensures Rebuilt(s.strings, records).(tus := map[]) == Laid(s.strings, LiveEdges(s.edges))
  {
    hide Merged, CoreOk, Rebuilt, IndexOk, RefsOk, AdjOk, Laid, LiveEdges;
    var t := Rebuilt(s.strings, records);
    ShardCore(s, regs);
    var remap := RebuildCopies(s, regs, records, |s.edges|);
    assert s.edges[..|s.edges|] == s.edges && records[..|LiveEdges(s.edges)|] == records;
    RebuiltEdges(s.strings, records);
    assert t.edges == LiveEdges(s.edges);
    RebuiltCore(s, regs, t, remap);
    RebuiltTusOk(s, regs, records, t, remap);
    CoreMade(t, regs);
  }

  lemma CoreMade(t: Tables, regs: seq<Registration>)
    requires StringsOk(t) && IndexOk(t) && RefsOk(t, regs) && TusOk(t, regs)
    ensures CoreOk(t, regs)
  {
  }

  lemma RebuiltTusOk(s: Tables, regs: seq<Registration>, records: seq<EdgeRecord>, t: Tables, remap: map<nat, nat>)
    requires CoreOk(s, regs) && Captured(s, records) && Ranked(s, remap) && t == Rebuilt(s.strings, records)
    requires Merged(s, regs, t.(tus := map[]), [], Identity(|s.strings|), remap, |s.edges|) && StringsOk(t)
    ensures TusOk(t, regs)
  {
    hide Merged, Rebuilt, Captured;
    RebuiltEdges(s.strings, records);
    forall u: Id, j: nat | u < |t.strings| && t.strings[u] != "" && Live(t, j)
      ensures multiset(Slots(t.tus, u))[j] == CountTu(regs, Name(t.strings, t.edges[j].key), t.strings[u])
    {
      RebuiltCount(s, regs, records, t, remap, u, j);
    }
    forall u | u in t.tus ensures u < |t.strings| && t.strings[u] != "" {
      UnitKnown(s, regs, records, u);
    }
    forall u, j | j in Slots(t.tus, u) ensures Live(t, j) {
      RebuiltTus(s.strings, records, u, j);
      RecordIsLive(s, records, j);
    }
  }

  lemma RecordIsLive(s: Tables, records: seq<EdgeRecord>, k: nat)
    requires Captured(s, records) && k < |records|
    ensures records[k].edge.refs > 0
  {
    AllLive(s.edges);
  }

  lemma {:induction false} AllLive(edges: seq<StoredEdge>)
    ensures forall e :: e in LiveEdges(edges) ==> e.refs > 0
  {
    if edges != [] { AllLive(edges[..|edges| - 1]); }
  }

  /** A unit named in a record has a list in the saved graph. */
  lemma UnitKnown(s: Tables, regs: seq<Registration>, records: seq<EdgeRecord>, u: Id)
    requires CoreOk(s, regs) && Captured(s, records) && u in Rebuilt(s.strings, records).tus
    ensures u < |s.strings| && s.strings[u] != ""
  {
    RebuiltTus(s.strings, records, u, 0);
    var k :| 0 <= k < |records| && u in records[k].tus;
    assert s.edges[..|s.edges|] == s.edges;
    var i := SlotAtRank(s, k, |s.edges|);
    assert NamesUnits(s, i, records[k].tus);
    assert multiset(records[k].tus)[u] > 0;
    assert i in Slots(s.tus, u);
  }

  lemma {:induction false} SlotAtRank(s: Tables, k: nat, n: nat) returns (i: nat)
    requires n <= |s.edges| && k < Rank(s.edges, n)
    ensures Live(s, i) && i < n && Rank(s.edges, i) == k
    decreases n
  {
    RankStep(s, n - 1);
    if k < Rank(s.edges, n - 1) {
      i := SlotAtRank(s, k, n - 1);
    } else {
      i := n - 1;
    }
  }

  // ---- rebuilding a relation -----------------------------------------------------------------------

  type Pair = (Id, Id)

  /** Each pair pushed behind the others of its left and of its right side. */
  function Pushed(pairs: seq<Pair>): R.Relation {
    if pairs == [] then R.Relation(map[], map[])
    else
      var r, (a, b) := Pushed(pairs[..|pairs| - 1]), pairs[|pairs| - 1];
      R.Relation(r.fwd[a := R.Image(r.fwd, a) + [b]], r.rev[b := R.Image(r.rev, b) + [a]])
  }

  /** The same with an ordered set on the left side. */
  function Inserted(pairs: seq<Pair>): R.Relation {
    if pairs == [] then R.Relation(map[], map[])
    else
      var r, (a, b) := Inserted(pairs[..|pairs| - 1]), pairs[|pairs| - 1];
      R.Relation(r.fwd[a := R.Insert(R.Image(r.fwd, a), b)], r.rev[b := R.Image(r.rev, b) + [a]])
  }

  lemma {:induction false} PushedHas(pairs: seq<Pair>, a: Id, b: Id)
    ensures R.Related(Pushed(pairs).fwd, a, b) <==> (a, b) in pairs
    ensures R.Related(Pushed(pairs).rev, b, a) <==> (a, b) in pairs
  {
    if pairs != [] {
      var init, last := pairs[..|pairs| - 1], pairs[|pairs| - 1];
      PushedHas(init, a, b);
      assert pairs == init + [last];
      assert (a, b) in pairs <==> (a, b) in init || last == (a, b);
      assert last == (last.0, last.1);
    }
  }

  lemma {:induction false} InsertedHas(pairs: seq<Pair>, a: Id, b: Id)
    ensures R.Related(Inserted(pairs).fwd, a, b) <==> (a, b) in pairs
    ensures R.Related(Inserted(pairs).rev, b, a) <==> (a, b) in pairs
  {
    if pairs != [] {
      var init, last := pairs[..|pairs| - 1], pairs[|pairs| - 1];
      InsertedHas(init, a, b);
      assert pairs == init + [last];
      assert (a, b) in pairs <==> (a, b) in init || last == (a, b);
      assert last == (last.0, last.1);
    }
  }

  /** The pairs are those of the relation. */
  ghost predicate ListsPairs(pairs: seq<Pair>, m: map<Id, seq<Id>>) {
    forall a: Id, b: Id :: (a, b) in pairs <==> R.Related(m, a, b)
  }

  /** A relation with the same pairs both ways is as good. */
  lemma SamePairsOk(r: R.Relation, r': R.Relation, strings: seq<string>, log: set<(string, string)>)
    requires R.RelationOk(r, strings, log)
    requires forall a: Id, b: Id :: R.Related(r'.fwd, a, b) <==> R.Related(r.fwd, a, b)
    requires forall a: Id, b: Id :: R.Related(r'.rev, b, a) <==> R.Related(r.fwd, a, b)
    ensures R.RelationOk(r', strings, log)
  {
    forall p | p in log ensures R.HasPair(r', strings, p) {
      assert R.HasPair(r, strings, p);
      var a: Id, b: Id :| R.PairAt(r, strings, p, a, b);
      assert R.PairAt(r', strings, p, a, b);
    }
  }

  lemma PushedOk(r: R.Relation, pairs: seq<Pair>, strings: seq<string>, log: set<(string, string)>)
    requires R.RelationOk(r, strings, log) && ListsPairs(pairs, r.fwd)
    ensures R.RelationOk(Pushed(pairs), strings, log) && R.RelationOk(Inserted(pairs), strings, log)
  {
    hide Pushed, Inserted;
    forall a: Id, b: Id
      ensures R.Related(Pushed(pairs).fwd, a, b) <==> R.Related(r.fwd, a, b)
      ensures R.Related(Pushed(pairs).rev, b, a) <==> R.Related(r.fwd, a, b)
      ensures R.Related(Inserted(pairs).fwd, a, b) <==> R.Related(r.fwd, a, b)
      ensures R.Related(Inserted(pairs).rev, b, a) <==> R.Related(r.fwd, a, b)
    {
      PushedHas(pairs, a, b);
      InsertedHas(pairs, a, b);
    }
    SamePairsOk(r, Pushed(pairs), strings, log);
    SamePairsOk(r, Inserted(pairs), strings, log);
  }

  // ---- the section -------------------------------------------------------------------------------------

  const NODE := W.Fields([W.U32, W.U32, W.Text, W.U32, W.Bits(2), W.Text, W.Counted(W.U32)])
  const EDGE := W.Fields([W.U32, W.U32, W.U32, W.U8, W.U8, W.U8, W.U32, W.U32, W.Counted(W.U32)])
  const PAIR := W.Fields([W.U32, W.U32])

  /** Interner table, nodes, edges, then the derived-class, override, implementing-class and
      returned-function pairs. */
  const SECTION := W.Fields([W.Counted(W.Text), W.Counted(NODE), W.Counted(EDGE), W.Counted(PAIR), W.Counted(PAIR),
    W.Counted(PAIR), W.Counted(PAIR)])

  /** What is in the section; the tables this model has no use for are carried as read. */
  datatype Image = Image(strings: seq<string>, nodes: W.Value, edges: seq<EdgeRecord>, derived: W.Value,
                         overrides: seq<Pair>, impls: W.Value, returned: seq<Pair>)

  function KindCode(k: EdgeKind): nat {
    match k
    case DirectCall => 0
    case VirtualDispatch => 1
    case FunctionPointer => 2
    case ConstructorCall => 3
    case DestructorCall => 4
    case OperatorCall => 5
    case TemplateInstantiation => 6
    case LambdaCall => 7
    case ThreadEntry => 8
    case FunctionPointerReturn => 9
  }

  const KINDS: seq<EdgeKind> := [DirectCall, VirtualDispatch, FunctionPointer, ConstructorCall, DestructorCall,
                                 OperatorCall, TemplateInstantiation, LambdaCall, ThreadEntry, FunctionPointerReturn]
  const CONFIDENCES: seq<Confidence> := [Proven, Plausible, Unknown]
  const CONTEXTS: seq<ExecutionContext> := [Synchronous, ThreadSpawn, AsyncTask, PackagedTask, Invoke]

  function ConfidenceCode(c: Confidence): nat {
    match c
    case Proven => 0
    case Plausible => 1
    case Unknown => 2
  }

  function ContextCode(c: ExecutionContext): nat {
    match c
    case Synchronous => 0
    case ThreadSpawn => 1
    case AsyncTask => 2
    case PackagedTask => 3
    case Invoke => 4
  }

  lemma CodesBack(k: EdgeKind, c: Confidence, x: ExecutionContext)
    ensures KindCode(k) < |KINDS| && KINDS[KindCode(k)] == k
    ensures ConfidenceCode(c) < |CONFIDENCES| && CONFIDENCES[ConfidenceCode(c)] == c
    ensures ContextCode(x) < |CONTEXTS| && CONTEXTS[ContextCode(x)] == x
  {
  }

  /** Items through a conversion, one by one. */
  function Each<A>(write: A -> W.Value, xs: seq<A>): seq<W.Value> {
    if xs == [] then [] else [write(xs[0])] + Each(write, xs[1..])
  }

  function Back<A>(read: W.Value -> Option<A>, vs: seq<W.Value>): Option<seq<A>> {
    if vs == [] then Some([])
    else
      var x, xs := read(vs[0]), Back(read, vs[1..]);
      if x.Some? && xs.Some? then Some([x.value] + xs.value) else None
  }

  lemma {:induction false} EachBack<A>(write: A -> W.Value, read: W.Value -> Option<A>, xs: seq<A>)
    requires forall x :: x in xs ==> read(write(x)) == Some(x)
    ensures Back(read, Each(write, xs)) == Some(xs)
  {
    if xs != [] {
      EachBack(write, read, xs[1..]);
      assert xs == [xs[0]] + xs[1..];
    }
  }

  /** A string of bytes. */
  predicate ByteString(s: string) {
    forall i :: 0 <= i < |s| ==> s[i] as int < 256
  }

  function StringValue(s: string): W.Value {
    W.Str(seq(|s|, i requires 0 <= i < |s| => (s[i] as int % 256) as W.byte))
  }

  function StringOf(v: W.Value): Option<string> {
    match v
    case Str(b) => Some(seq(|b|, i requires 0 <= i < |b| => b[i] as char))
    case _ => None
  }

  lemma StringBack(s: string)
    requires ByteString(s)
    ensures StringOf(StringValue(s)) == Some(s)
  {
    var back := StringOf(StringValue(s)).value;
    assert |back| == |s| && forall i :: 0 <= i < |s| ==> back[i] == s[i];
    assert back == s;
  }

  function IdValue(n: Id): W.Value {
    W.Nat(n)
  }

  function NatOf(v: W.Value): Option<nat> {
    match v
    case Nat(n) => Some(n)
    case _ => None
  }

  function PairValue(p: Pair): W.Value {
    W.Pair(W.Nat(p.0), W.Pair(W.Nat(p.1), W.Unit))
  }

  function PairOf(v: W.Value): Option<Pair> {
    match v
    case Pair(Nat(a), Pair(Nat(b), Unit)) => Some((a, b))
    case _ => None
  }

  function EdgeValue(r: EdgeRecord): W.Value {
    var k := r.edge.key;
    W.Pair(W.Nat(k.caller), W.Pair(W.Nat(k.callee), W.Pair(W.Nat(k.callSite), W.Pair(W.Nat(KindCode(k.kind)),
      W.Pair(W.Nat(ConfidenceCode(k.confidence)), W.Pair(W.Nat(ContextCode(k.execContext)),
      W.Pair(W.Nat(k.indirectionDepth), W.Pair(W.Nat(r.edge.refs), W.Pair(W.List(Each(IdValue, r.tus)),
      W.Unit)))))))))
  }

  /** Codes outside the enumerations are refused here; the program casts them unchecked. */
  function EdgeOf(v: W.Value): Option<EdgeRecord> {
    match v
    case Pair(Nat(a), Pair(Nat(b), Pair(Nat(c), Pair(Nat(k),
      Pair(Nat(f), Pair(Nat(x), Pair(Nat(d), Pair(Nat(r), Pair(List(us), Unit))))))))) =>
      var tus := Back(NatOf, us);
      if k < |KINDS| && f < |CONFIDENCES| && x < |CONTEXTS| && tus.Some? then
        Some(EdgeRecord(StoredEdge(EdgeRef(a, b, c, KINDS[k], CONFIDENCES[f], CONTEXTS[x], d), r), tus.value))
      else None
    case _ => None
  }

  lemma EdgeBack(r: EdgeRecord)
    ensures EdgeOf(EdgeValue(r)) == Some(r)
  {
    var k := r.edge.key;
    CodesBack(k.kind, k.confidence, k.execContext);
    EachBack(IdValue, NatOf, r.tus);
  }

  function SectionValue(image: Image): W.Value {
    W.Pair(W.List(Each(StringValue, image.strings)), W.Pair(image.nodes, W.Pair(W.List(Each(EdgeValue, image.edges)),
      W.Pair(image.derived, W.Pair(W.List(Each(PairValue, image.overrides)), W.Pair(image.impls,
      W.Pair(W.List(Each(PairValue, image.returned)), W.Unit)))))))
  }

  function ImageOf(v: W.Value): Option<Image> {
    match v
    case Pair(List(ss), Pair(nodes, Pair(List(es), Pair(derived,
      Pair(List(os), Pair(impls, Pair(List(rs), Unit))))))) =>
      var strings, edges, overrides, returned :=
        Back(StringOf, ss), Back(EdgeOf, es), Back(PairOf, os), Back(PairOf, rs);
      if strings.Some? && edges.Some? && overrides.Some? && returned.Some? then
        Some(Image(strings.value, nodes, edges.value, derived, overrides.value, impls, returned.value))
      else None
    case _ => None
  }

  lemma ListsBack(image: Image)
    requires forall s :: s in image.strings ==> ByteString(s)
    ensures Back(StringOf, Each(StringValue, image.strings)) == Some(image.strings)
    ensures Back(EdgeOf, Each(EdgeValue, image.edges)) == Some(image.edges)
    ensures Back(PairOf, Each(PairValue, image.overrides)) == Some(image.overrides)
    ensures Back(PairOf, Each(PairValue, image.returned)) == Some(image.returned)
  {
    forall s | s in image.strings ensures StringOf(StringValue(s)) == Some(s) { StringBack(s); }
    forall r | r in image.edges ensures EdgeOf(EdgeValue(r)) == Some(r) { EdgeBack(r); }
    hide StringOf, StringValue, EdgeOf, EdgeValue;
    EachBack(StringValue, StringOf, image.strings);
    EachBack(EdgeValue, EdgeOf, image.edges);
    EachBack(PairValue, PairOf, image.overrides);
    EachBack(PairValue, PairOf, image.returned);
  }

  lemma ImageBack(image: Image)
    requires forall s :: s in image.strings ==> ByteString(s)
    ensures ImageOf(SectionValue(image)) == Some(image)
  {
    hide StringOf, StringValue, EdgeOf, EdgeValue, PairOf, PairValue, Each, Back;
    ListsBack(image);
  }

  // ---- ids in range ------------------------------------------------------------------------------------

  predicate KeyAndUnitsIn(r: EdgeRecord, n: nat) {
    KeyIn(r.edge.key, n) && r.edge.refs != 0 && forall u :: u in r.tus ==> u < n
  }

  predicate PairIn(p: Pair, n: nat) {
    p.0 < n && p.1 < n
  }

  predicate NatsIn(vs: seq<W.Value>, n: nat) {
    forall v :: v in vs ==> v.Nat? && v.n < n
  }

  predicate NodeIn(v: W.Value, n: nat) {
    match v
    case Pair(Nat(usr), Pair(Nat(name), Pair(_, Pair(_, Pair(_, Pair(_, Pair(List(tus), Unit))))))) =>
      usr < n && name < n && NatsIn(tus, n)
    case _ => false
  }

  predicate TablesIn(nodes: W.Value, derived: W.Value, impls: W.Value, n: nat) {
    && nodes.List? && (forall v :: v in nodes.items ==> NodeIn(v, n))
    && derived.List? && (forall v :: v in derived.items ==> PairOf(v).Some? && PairIn(PairOf(v).value, n))
    && impls.List? && (forall v :: v in impls.items ==> PairOf(v).Some? && PairIn(PairOf(v).value, n))
  }

  /** Every id refers to the interner table and no edge is dead. */
  predicate IdsIn(image: Image) {
    var n := |image.strings|;
    && TablesIn(image.nodes, image.derived, image.impls, n)
    && (forall r :: r in image.edges ==> KeyAndUnitsIn(r, n))
    && (forall p :: p in image.overrides ==> PairIn(p, n))
    && (forall p :: p in image.returned ==> PairIn(p, n))
  }

  /** What a section holds: the layout to its last byte, and every id in range. */
  function Decode(data: W.Bytes): Option<Image> {
    match W.Parse(SECTION, data)
    case None => None
    case Some((v, rest)) =>
      if rest != [] then None
      else
        match ImageOf(v)
        case None => None
        case Some(image) => if IdsIn(image) then Some(image) else None
  }

  /** A written section is read back, consumed exactly. */
  lemma DecodeOfEncode(image: Image)
    requires (forall s :: s in image.strings ==> ByteString(s)) && IdsIn(image) && W.Fits(SECTION, SectionValue(image))
    ensures Decode(W.Encode(SECTION, SectionValue(image))) == Some(image)
  {
    hide W.Parse, W.Encode, W.Fits, ImageOf, SectionValue, IdsIn, ByteString;
    var bytes := W.Encode(SECTION, SectionValue(image));
    W.ParseOfEncode(SECTION, SectionValue(image), []);
    assert bytes + [] == bytes;
    ImageBack(image);
  }

  // ---- save ----------------------------------------------------------------------------------------------

  /** The inverted provenance: for each live slot, the units that registered it. */
  ghost predicate Inverted(t: Tables, edgeTus: map<nat, seq<Id>>, done: set<Id>) {
    forall i: nat, u: Id :: Live(t, i) ==>
      multiset(Slots(edgeTus, i))[u] == if u in done then multiset(Slots(t.tus, u))[i] else 0
  }

  /** The entries of unit `u` for slot `i` once `done` and the first `k` of `v` are inverted. */
  ghost function Want(t: Tables, done: set<Id>, v: Id, k: nat, u: Id, i: nat): nat
    requires k <= |Slots(t.tus, v)|
  {
    if u in done then multiset(Slots(t.tus, u))[i]
    else if u == v then multiset(Slots(t.tus, v)[..k])[i]
    else 0
  }

  ghost predicate InvertedSome(t: Tables, edgeTus: map<nat, seq<Id>>, done: set<Id>, v: Id, k: nat)
    requires k <= |Slots(t.tus, v)|
  {
    forall i: nat, u: Id :: Live(t, i) ==> multiset(Slots(edgeTus, i))[u] == Want(t, done, v, k, u, i)
  }

  lemma InvertOne(t: Tables, edgeTus: map<nat, seq<Id>>, done: set<Id>, v: Id, k: nat)
    requires v !in done && k < |Slots(t.tus, v)| && InvertedSome(t, edgeTus, done, v, k)
    ensures var x := Slots(t.tus, v)[k]; InvertedSome(t, edgeTus[x := Slots(edgeTus, x) + [v]], done, v, k + 1)
  {
    var x := Slots(t.tus, v)[k];
    var edgeTus' := edgeTus[x := Slots(edgeTus, x) + [v]];
    assert Slots(t.tus, v)[..k + 1] == Slots(t.tus, v)[..k] + [x];
    forall i: nat, u: Id | Live(t, i) ensures multiset(Slots(edgeTus', i))[u] == Want(t, done, v, k + 1, u, i) {
      hide Live;
      assert multiset(Slots(edgeTus, i))[u] == Want(t, done, v, k, u, i);
      if i == x {
        assert Slots(edgeTus', i) == Slots(edgeTus, i) + [v];
      } else {
        assert Slots(edgeTus', i) == Slots(edgeTus, i);
      }
    }
  }

  lemma InvertEnds(t: Tables, edgeTus: map<nat, seq<Id>>, done: set<Id>, v: Id)
    requires v !in done
    ensures Inverted(t, edgeTus, done) ==> InvertedSome(t, edgeTus, done, v, 0)
    ensures InvertedSome(t, edgeTus, done, v, |Slots(t.tus, v)|) ==> Inverted(t, edgeTus, done + {v})
  {
    var list := Slots(t.tus, v);
    assert list[..0] == [] && list[..|list|] == list;
    assert forall i: nat, u: Id :: Want(t, done, v, 0, u, i) == if u in done then multiset(Slots(t.tus, u))[i] else 0;
    assert forall i: nat, u: Id ::
      Want(t, done, v, |list|, u, i) == if u in done + {v} then multiset(Slots(t.tus, u))[i] else 0;
  }

  method InvertUnit(t: Tables, edgeTus0: map<nat, seq<Id>>, v: Id, ghost done: set<Id>)
    returns (edgeTus: map<nat, seq<Id>>)
    requires v in t.tus && v !in done && Inverted(t, edgeTus0, done) && forall i :: i in t.tus[v] ==> Live(t, i)
    ensures Inverted(t, edgeTus, done + {v})
  {
    hide Inverted, InvertedSome;
    edgeTus := edgeTus0;
    var list := t.tus[v];
    InvertEnds(t, edgeTus, done, v);
    for k := 0 to |list|
      invariant InvertedSome(t, edgeTus, done, v, k)
    {
      var i := list[k];
      assert i in t.tus[v] && Live(t, i);
      InvertOne(t, edgeTus, done, v, k);
      if t.edges[i].refs != 0 {
        edgeTus := edgeTus[i := Slots(edgeTus, i) + [v]];
      }
    }
    InvertEnds(t, edgeTus, done, v);
  }

  method InvertTus(g: CallGraph) returns (edgeTus: map<nat, seq<Id>>)
    requires g.Valid()
    ensures Inverted(g.Tab(), edgeTus, g.tuEdges.Keys)
  {
    hide Inverted;
    edgeTus := map[];
    ghost var done: set<Id> := {};
    NothingInverted(g.Tab());
    ListedAreLive(g.Tab(), g.regs);
    var todo := g.tuEdges.Keys;
    while todo != {}
      invariant todo !! done && todo + done == g.tuEdges.Keys && Inverted(g.Tab(), edgeTus, done)
    {
      var v :| v in todo;
      edgeTus := InvertUnit(g.Tab(), edgeTus, v, done);
      todo, done := todo - {v}, done + {v};
    }
    assert done == g.tuEdges.Keys;
  }

  lemma NothingInverted(t: Tables)
    ensures Inverted(t, map[], {})
  {
  }

  lemma ListedAreLive(t: Tables, regs: seq<Registration>)
    requires TablesOk(t, regs)
    ensures forall u, i :: u in t.tus && i in t.tus[u] ==> Live(t, i)
  {
    forall u, i | u in t.tus && i in t.tus[u] ensures Live(t, i) {
      assert i in Slots(t.tus, u);
    }
  }

  /** The live edges in slot order, each with its units. */
  method EmitEdges(g: CallGraph, edgeTus: map<nat, seq<Id>>) returns (records: seq<EdgeRecord>)
    requires Inverted(g.Tab(), edgeTus, g.tuEdges.Keys)
    ensures Captured(g.Tab(), records)
  {
    hide Inverted;
    records := [];
    ghost var t := g.Tab();
    for i := 0 to |g.edges|
      invariant |records| == |LiveEdges(g.edges[..i])| && forall k :: 0 <= k < |records| ==>
        records[k].edge == LiveEdges(g.edges[..i])[k]
      invariant forall j :: 0 <= j < i && Live(t, j) ==>
        Rank(g.edges, j) < |records| && NamesUnits(t, j, records[Rank(g.edges, j)].tus)
    {
      RankStep(t, i);
      if g.edges[i].refs != 0 {
        UnitsOf(t, edgeTus, i);
        records := records + [EdgeRecord(g.edges[i], Slots(edgeTus, i))];
      }
    }
    assert g.edges[..|g.edges|] == g.edges;
  }

  lemma UnitsOf(t: Tables, edgeTus: map<nat, seq<Id>>, i: nat)
    requires Inverted(t, edgeTus, t.tus.Keys) && Live(t, i)
    ensures NamesUnits(t, i, Slots(edgeTus, i))
  {
    forall u: Id ensures multiset(Slots(edgeTus, i))[u] == multiset(Slots(t.tus, u))[i] {}
  }

  /** The entries of all lists, as they are counted before they are written. */
  ghost function PairTotal(m: map<Id, seq<Id>>): nat {
    if m == map[] then 0
    else
      var x :| x in m;
      |m[x]| + PairTotal(m - {x})
  }

  /** The total does not depend on the order in which keys are taken. */
  lemma {:induction false} PairTotalPick(m: map<Id, seq<Id>>, x: Id)
    requires x in m
    ensures PairTotal(m) == |m[x]| + PairTotal(m - {x})
    decreases |m|
  {
    var y :| y in m && PairTotal(m) == |m[y]| + PairTotal(m - {y});
    if x != y {
      var rest := m - {x} - {y};
      assert m - {y} - {x} == rest;
      PairTotalPick(m - {y}, x);
      PairTotalPick(m - {x}, y);
    }
  }

  /** A relation as pairs, key by key. */
  method EmitPairs(m: map<Id, seq<Id>>) returns (pairs: seq<Pair>)
    ensures ListsPairs(pairs, m) && |pairs| == PairTotal(m)
  {
    pairs := [];
    var todo := m.Keys;
    ghost var done: set<Id> := {};
    assert m - done == m;
    while todo != {}
      invariant todo !! done && todo + done == m.Keys
      invariant |pairs| + PairTotal(m - done) == PairTotal(m)
      invariant forall a: Id, b: Id :: (a, b) in pairs <==> a in done && b in R.Image(m, a)
    {
      var x :| x in todo;
      var list := m[x];
      ghost var before := |pairs|;
      PairTotalPick(m - done, x);
      assert m - done - {x} == m - (done + {x});
      for k := 0 to |list|
        invariant |pairs| == before + k
        invariant forall a: Id, b: Id :: (a, b) in pairs <==>
          (a in done && b in R.Image(m, a)) || (a == x && b in list[..k])
      {
        assert list[..k + 1] == list[..k] + [list[k]];
        pairs := pairs + [(x, list[k])];
      }
      assert list[..|list|] == list;
      todo, done := todo - {x}, done + {x};
    }
    assert m - done == map[];
  }

  /** save: the section's contents, and its bytes when every count and id fits its width. */
  method Save(g: CallGraph, nodes: W.Value, derived: W.Value, impls: W.Value)
    returns (image: Image, data: Option<W.Bytes>)
    requires g.Valid()
    ensures image.strings == g.strings && image.nodes == nodes && image.derived == derived && image.impls == impls
    ensures Captured(g.Tab(), image.edges)
    ensures ListsPairs(image.overrides, g.methodOverrides) && |image.overrides| == PairTotal(g.methodOverrides)
    ensures ListsPairs(image.returned, g.functionReturns) && |image.returned| == PairTotal(g.functionReturns)
    ensures data.Some? <==> W.Fits(SECTION, SectionValue(image))
    ensures data.Some? ==> data.value == W.Encode(SECTION, SectionValue(image))
  {
    hide W.Fits, W.Encode, SectionValue, Captured, ListsPairs, Inverted;
    var edgeTus := InvertTus(g);
    var edges := EmitEdges(g, edgeTus);
    var overrides := EmitPairs(g.methodOverrides);
    var returned := EmitPairs(g.functionReturns);
    image := Image(g.strings, nodes, edges, derived, overrides, impls, returned);
    var v := SectionValue(image);
    data := if W.Fits(SECTION, v) then Some(W.Encode(SECTION, v)) else None;
  }

  // ---- load ----------------------------------------------------------------------------------------------

  /** installStrings: positions become ids. */
  method InstallStrings(strings: seq<string>) returns (ids: map<string, Id>)
    ensures Distinct(strings) ==> InternerOk(strings, ids)
  {
    ids := map[];
    for i := 0 to |strings|
      invariant Distinct(strings) ==> InternerOk(strings[..i], ids)
    {
      assert strings[..i + 1] == strings[..i] + [strings[i]];
      if strings[i] !in ids {
        ids := ids[strings[i] := i];
      }
    }
    assert strings[..|strings|] == strings;
  }

  method InstallUnits(tus0: map<Id, seq<nat>>, list: seq<Id>, i: nat) returns (tus: map<Id, seq<nat>>)
    ensures tus == Tag(tus0, list, i)
  {
    tus := tus0;
    for k := 0 to |list|
      invariant tus == Tag(tus0, list[..k], i)
    {
      assert list[..k + 1][..k] == list[..k];
      tus := tus[list[k] := Slots(tus, list[k]) + [i]];
    }
    assert list[..|list|] == list;
  }

  method InstallEdges(strings: seq<string>, records: seq<EdgeRecord>) returns (t: Tables)
    ensures t == Rebuilt(strings, records)
  {
    t := EmptyTables(strings);
    for k := 0 to |records|
      invariant t == Rebuilt(strings, records[..k])
    {
      assert records[..k + 1][..k] == records[..k];
      var tus := InstallUnits(t.tus, records[k].tus, |t.edges|);
      t := Installed(t, records[k].edge).(tus := tus);
    }
    assert records[..|records|] == records;
  }

  method PushPairs(pairs: seq<Pair>) returns (r: R.Relation)
    ensures r == Pushed(pairs)
  {
    r := R.Relation(map[], map[]);
    for k := 0 to |pairs|
      invariant r == Pushed(pairs[..k])
    {
      assert pairs[..k + 1][..k] == pairs[..k];
      var (a, b) := pairs[k];
      r := R.Relation(r.fwd[a := R.Image(r.fwd, a) + [b]], r.rev[b := R.Image(r.rev, b) + [a]]);
    }
    assert pairs[..|pairs|] == pairs;
  }

  method InsertPairs(pairs: seq<Pair>) returns (r: R.Relation)
    ensures r == Inserted(pairs)
  {
    r := R.Relation(map[], map[]);
    for k := 0 to |pairs|
      invariant r == Inserted(pairs[..k])
    {
      assert pairs[..k + 1][..k] == pairs[..k];
      var (a, b) := pairs[k];
      r := R.Relation(r.fwd[a := R.Insert(R.Image(r.fwd, a), b)], r.rev[b := R.Image(r.rev, b) + [a]]);
    }
    assert pairs[..|pairs|] == pairs;
  }

  method ReadImage(data: W.Bytes) returns (image: Option<Image>)
    ensures image == Decode(data)
  {
    hide W.Parse, ImageOf, IdsIn;
    var r := new W.Reader(data);
    assert r.Rest() == data;
    var v := r.Item(SECTION);
    image := None;
    if r.ok && r.pos == |data| {
      assert r.Rest() == [];
      image := ImageOf(v);
      if image.Some? && !IdsIn(image.value) {
        image := None;
      }
    } else if r.ok {
      assert |r.Rest()| > 0;
    }
  }

  /** load, into a fresh mutable graph. */
  method Load(data: W.Bytes) returns (image: Option<Image>, g: CallGraph)
    ensures image == Decode(data) && fresh(g)
    ensures image.Some? ==>
      && g.Tab() == Rebuilt(image.value.strings, image.value.edges) && g.liveEdgeCount == |image.value.edges|
      && g.Overrides() == Pushed(image.value.overrides) && g.Returns() == Inserted(image.value.returned)
      && (Distinct(g.strings) ==> InternerOk(g.strings, g.ids))
  {
    hide Decode, Distinct, InternerOk, Rebuilt, Pushed, Inserted, TablesOk, R.RelationOk;
    image := ReadImage(data);
    g := new CallGraph();
    if image.Some? {
      var ids := InstallStrings(image.value.strings);
      var t := InstallEdges(image.value.strings, image.value.edges);
      RebuiltEdges(image.value.strings, image.value.edges);
      var overrides := PushPairs(image.value.overrides);
      var returned := InsertPairs(image.value.returned);
      InstallTables(g, ids, t, overrides, returned);
    }
  }

  method InstallTables(g: CallGraph, ids: map<string, Id>, t: Tables, overrides: R.Relation, returned: R.Relation)
    modifies g
    ensures g.Tab() == t && g.ids == ids && g.liveEdgeCount == |t.edges|
    ensures g.Overrides() == overrides && g.Returns() == returned
  {
    g.strings, g.ids := t.strings, ids;
    g.edges, g.edgeIndex, g.outEdges, g.inEdges, g.tuEdges := t.edges, t.index, t.out, t.inn, t.tus;
    g.liveEdgeCount := |t.edges|;
    g.methodOverrides, g.overrideBases := overrides.fwd, overrides.rev;
    g.functionReturns, g.returnedBy := returned.fwd, returned.rev;
  }
}

/** The nodes in a snapshot: written from the node tables, installed back, and saved and loaded
    together with the edges (src/callgraph/Snapshot.cpp:287-312, 690-731). */
module NodeSnapshot {
  import opened EdgeTypes
  import opened Interner
  import opened Sequences
  import opened EdgeMerge
  import R = Relations
  import opened CallGraphStore
  import W = Wire
  import opened GraphSnapshot
  import opened SnapshotRoundTrip
  import opened Tellings
  import opened NodeStore

  /** A node as written: its two names are ids. */
  datatype NodeRecord = NodeRecord(usr: Id, displayName: Id, file: string, line: nat, isEntryPoint: bool,
                                   isVirtual: bool, enclosingClass: string, tus: seq<Id>)

  predicate RecordIdsIn(r: NodeRecord, n: nat) {
    r.usr < n && r.displayName < n && forall t :: t in r.tus ==> t < n
  }

  function NodeOf(strings: seq<string>, r: NodeRecord): Node
    requires RecordIdsIn(r, |strings|)
  {
    Node(strings[r.usr], strings[r.displayName], r.file, r.line, r.isEntryPoint, r.isVirtual, r.enclosingClass)
  }

  // ---- writing -----------------------------------------------------------------------------------

  ghost predicate Describes(strings: seq<string>, nodes: map<Id, Node>, contributors: map<Id, seq<Id>>,
                            r: NodeRecord)
  {
    && RecordIdsIn(r, |strings|) && r.usr in nodes && NodeOf(strings, r) == nodes[r.usr]
    && r.tus == R.Image(contributors, r.usr)
  }

  function UsrsOf(records: seq<NodeRecord>): set<Id> {
    set k | 0 <= k < |records| :: records[k].usr
  }

  /** Each node once, with its contributors. */
  ghost predicate Lists(strings: seq<string>, nodes: map<Id, Node>, contributors: map<Id, seq<Id>>,
                        records: seq<NodeRecord>)
  {
    && (forall k :: 0 <= k < |records| ==> Describes(strings, nodes, contributors, records[k]))
    && (forall j, k :: 0 <= j < k < |records| ==> records[j].usr != records[k].usr)
    && UsrsOf(records) == nodes.Keys && |records| == |nodes|
  }

  method EmitNode(n: Nodes, u: Id) returns (r: NodeRecord)
    requires n.Valid() && u in n.nodes
    ensures r.usr == u && Describes(n.strings, n.nodes, n.contributors, r)
  {
    NodeFacts(n.strings, n.ids, n.nodes, n.byName, n.Units(), n.log, u);
    NameKnown(n.strings, n.ids, n.nodes, n.byName, n.Units(), n.log, u);
    hide Ok;
    var node := n.nodes[u];
    var displayName := if node.qualifiedName in n.ids then n.ids[node.qualifiedName] else u;
    r := NodeRecord(u, displayName, node.file, node.line, node.isEntryPoint, node.isVirtual, node.enclosingClass,
                    R.Image(n.contributors, u));
  }

  /** Every display name was interned with its node. */
  lemma NameKnown(strings: seq<string>, ids: map<string, Id>, nodes: map<Id, Node>, byName: map<Id, seq<Id>>,
                  units: R.Relation, log: set<(string, string)>, u: Id)
    requires Ok(strings, ids, nodes, byName, units, log) && u in nodes
    ensures var d := nodes[u].qualifiedName; d in ids && ids[d] < |strings| && strings[ids[d]] == d
  {
    hide ByNameOk, R.RelationOk;
  }

  method EmitNodes(n: Nodes) returns (records: seq<NodeRecord>)
    requires n.Valid()
    ensures Lists(n.strings, n.nodes, n.contributors, records)
  {
    hide Ok, Describes, UsrsOf;
    NoUsrs();
    records := [];
    var todo := n.nodes.Keys;
    ghost var done: set<Id> := {};
    while todo != {}
      invariant todo !! done && todo + done == n.nodes.Keys
      invariant UsrsOf(records) == done && |records| == |done|
      invariant forall k :: 0 <= k < |records| ==> Describes(n.strings, n.nodes, n.contributors, records[k])
      invariant forall j, k :: 0 <= j < k < |records| ==> records[j].usr != records[k].usr
    {
      var u :| u in todo;
      var r := EmitNode(n, u);
      UsrsHas(records);
      UsrsOfOne(records, r);
      records := records + [r];
      todo, done := todo - {u}, done + {u};
    }
  }

  lemma NoUsrs()
    ensures UsrsOf([]) == {}
  {
  }

  lemma UsrsHas(records: seq<NodeRecord>)
    ensures forall j :: 0 <= j < |records| ==> records[j].usr in UsrsOf(records)
  {
  }

  lemma UsrsOfOne(records: seq<NodeRecord>, r: NodeRecord)
    ensures UsrsOf(records + [r]) == UsrsOf(records) + {r.usr}
  {
    var s := records + [r];
    assert s[|records|] == r;
    forall u | u in UsrsOf(records) ensures u in UsrsOf(s) {
      var k :| 0 <= k < |records| && records[k].usr == u;
      assert s[k].usr == u;
    }
  }

  // ---- installing ------------------------------------------------------------------------------------

  datatype NodeTables = NodeTables(nodes: map<Id, Node>, byName: map<Id, seq<Id>>, units: R.Relation)

  /** The contributors of one record, each joined once. */
  function WithUnits(units: R.Relation, u: Id, tus: seq<Id>): R.Relation {
    if tus == [] then units else R.AddOrdered(WithUnits(units, u, tus[..|tus| - 1]), u, tus[|tus| - 1])
  }

  /** One record installed; of two with the same usr the first stays. */
  function Placed(strings: seq<string>, t: NodeTables, r: NodeRecord): NodeTables
    requires RecordIdsIn(r, |strings|)
  {
    NodeTables(if r.usr in t.nodes then t.nodes else t.nodes[r.usr := NodeOf(strings, r)],
               if r.usr in R.Image(t.byName, r.displayName) then t.byName
               else t.byName[r.displayName := R.Image(t.byName, r.displayName) + [r.usr]],
               WithUnits(t.units, r.usr, r.tus))
  }

  function Loaded(strings: seq<string>, records: seq<NodeRecord>): NodeTables
    requires forall r :: r in records ==> RecordIdsIn(r, |strings|)
  {
    if records == [] then NodeTables(map[], map[], R.Relation(map[], map[]))
    else Placed(strings, Loaded(strings, records[..|records| - 1]), records[|records| - 1])
  }

  /** The node part of a mutable load. */
  method LoadNodes(strings: seq<string>, records: seq<NodeRecord>) returns (n: Nodes)
    requires forall r :: r in records ==> RecordIdsIn(r, |strings|)
    ensures fresh(n) && n.strings == strings && (Distinct(strings) ==> InternerOk(strings, n.ids))
    ensures NodeTables(n.nodes, n.byName, n.Units()) == Loaded(strings, records)
  {
    hide Ok, NodeOf;
    n := new Nodes();
    n.strings := strings;
    n.ids := InstallStrings(strings);
    for k := 0 to |records|
      invariant n.strings == strings && (Distinct(strings) ==> InternerOk(strings, n.ids))
      invariant NodeTables(n.nodes, n.byName, n.Units()) == Loaded(strings, records[..k])
    {
      assert records[..k + 1][..k] == records[..k];
      var r := records[k];
      if r.usr !in R.Image(n.byName, r.displayName) {
        n.byName := n.byName[r.displayName := R.Image(n.byName, r.displayName) + [r.usr]];
      }
      if r.usr !in n.nodes {
        n.nodes := n.nodes[r.usr := NodeOf(strings, r)];
      }
      InstallContributors(n, r.usr, r.tus);
    }
    assert records[..|records|] == records;
  }

  method InstallContributors(n: Nodes, u: Id, tus: seq<Id>)
    modifies n`contributors, n`tuNodes
    ensures n.Units() == WithUnits(old(n.Units()), u, tus)
  {
    for i := 0 to |tus|
      invariant n.Units() == WithUnits(old(n.Units()), u, tus[..i])
    {
      assert tus[..i + 1][..i] == tus[..i];
      if tus[i] !in R.Image(n.contributors, u) {
        n.contributors := n.contributors[u := R.Insert(R.Image(n.contributors, u), tus[i])];
        n.tuNodes := n.tuNodes[tus[i] := R.Image(n.tuNodes, tus[i]) + [u]];
      }
    }
    assert tus[..|tus|] == tus;
  }

  // ---- what was written is installed back ----------------------------------------------------------------

  lemma {:induction false} UnitsOk(strings: seq<string>, ids: map<string, Id>, t: NodeTables,
                                   log: set<(string, string)>, u: Id, tus: seq<Id>)
    requires Ok(strings, ids, t.nodes, t.byName, t.units, log) && u in t.nodes && u < |strings|
    requires forall k :: 0 <= k < |tus| ==> tus[k] < |strings| && strings[tus[k]] != ""
    ensures Ok(strings, ids, t.nodes, t.byName, WithUnits(t.units, u, tus), log + R.PairsOf(strings, u, tus))
  {
    hide Ok;
    R.NoPairs(strings, u);
    if tus == [] {
      assert log + {} == log;
    } else {
      var init, last := tus[..|tus| - 1], tus[|tus| - 1];
      UnitsOk(strings, ids, t, log, u, init);
      var log' := log + R.PairsOf(strings, u, init);
      Tagged(strings, ids, t.nodes, t.byName, WithUnits(t.units, u, init), log', u, last);
      R.PairsOfOne(strings, u, init, last);
      assert init + [last] == tus;
      assert log + R.PairsOf(strings, u, tus) == log' + {(strings[u], strings[last])};
    }
  }

  lemma NothingLoaded(strings: seq<string>, ids: map<string, Id>, nodes: map<Id, Node>,
                      contributors: map<Id, seq<Id>>)
    requires InternerOk(strings, ids)
    ensures var t := Loaded(strings, []); var log := R.NamePairs(contributors, strings, UsrsOf([]));
      Ok(strings, ids, t.nodes, t.byName, t.units, log) && t.nodes == Only(nodes, UsrsOf([]))
  {
    NoUsrs();
    assert R.NamePairs(contributors, strings, {}) == {};
  }

  /** The tables after the first `k` records are those of just these nodes. */
  ghost predicate LoadedTo(strings: seq<string>, ids: map<string, Id>, nodes: map<Id, Node>, units: R.Relation,
                           records: seq<NodeRecord>, k: nat)
    requires k <= |records| && forall r :: r in records ==> RecordIdsIn(r, |strings|)
  {
    var t, done := Loaded(strings, records[..k]), UsrsOf(records[..k]);
    t.nodes == Only(nodes, done)
    && Ok(strings, ids, t.nodes, t.byName, t.units, R.NamePairs(units.fwd, strings, done))
  }

  lemma {:induction false} LoadedOk(strings: seq<string>, ids: map<string, Id>, nodes: map<Id, Node>,
                                    byName: map<Id, seq<Id>>, units: R.Relation, log: set<(string, string)>,
                                    records: seq<NodeRecord>, k: nat)
    requires Ok(strings, ids, nodes, byName, units, log) && Lists(strings, nodes, units.fwd, records)
    requires k <= |records| && forall r :: r in records ==> RecordIdsIn(r, |strings|)
    ensures LoadedTo(strings, ids, nodes, units, records, k)
    decreases k
  {
    InternerPart(strings, ids, nodes, byName, units, log);
    if k == 0 {
      assert records[..0] == [];
      NothingLoaded(strings, ids, nodes, units.fwd);
    } else {
      hide Ok, Lists, LoadedTo;
      LoadedOk(strings, ids, nodes, byName, units, log, records, k - 1);
      LoadedNext(strings, ids, nodes, byName, units, log, records, k);
    }
  }

  lemma LoadedNext(strings: seq<string>, ids: map<string, Id>, nodes: map<Id, Node>, byName: map<Id, seq<Id>>,
                   units: R.Relation, log: set<(string, string)>, records: seq<NodeRecord>, k: nat)
    requires Ok(strings, ids, nodes, byName, units, log) && Lists(strings, nodes, units.fwd, records)
    requires 0 < k <= |records| && forall r :: r in records ==> RecordIdsIn(r, |strings|)
    requires LoadedTo(strings, ids, nodes, units, records, k - 1)
    ensures LoadedTo(strings, ids, nodes, units, records, k)
  {
    hide Ok, Lists, Placed, NodeOf, RecordIdsIn, R.NamePairs, R.PairsOf, R.Image, Loaded, UsrsOf, Only, InternerOk;
    OneMoreLoaded(strings, records, k);
    RecordFacts(strings, ids, nodes, byName, units, log, records, k - 1);
    PlacedNext(strings, ids, nodes, units, Loaded(strings, records[..k - 1]), UsrsOf(records[..k - 1]), records[k - 1]);
  }

  lemma PlacedNext(strings: seq<string>, ids: map<string, Id>, nodes: map<Id, Node>, units: R.Relation,
                   t: NodeTables, done: set<Id>, r: NodeRecord)
    requires RecordIdsIn(r, |strings|) && r.usr in nodes && NodeOf(strings, r) == nodes[r.usr]
    requires r.tus == R.Image(units.fwd, r.usr) && r.usr !in done
    requires forall i :: 0 <= i < |r.tus| ==> r.tus[i] < |strings| && strings[r.tus[i]] != ""
    requires t.nodes == Only(nodes, done)
    requires Ok(strings, ids, t.nodes, t.byName, t.units, R.NamePairs(units.fwd, strings, done))
    ensures var t' := Placed(strings, t, r); var done' := done + {r.usr};
      && t'.nodes == Only(nodes, done')
      && Ok(strings, ids, t'.nodes, t'.byName, t'.units, R.NamePairs(units.fwd, strings, done'))
  {
    hide Ok, Placed, Only, R.NamePairs, R.PairsOf;
    OnlyOne(nodes, done, r.usr);
    PlacedOk(strings, ids, t, R.NamePairs(units.fwd, strings, done), r);
    R.NamePairsOne(units.fwd, strings, done, r.usr);
  }

  lemma OnlyOne(nodes: map<Id, Node>, done: set<Id>, u: Id)
    requires u in nodes
    ensures u !in done ==> u !in Only(nodes, done)
    ensures Only(nodes, done + {u}) == Only(nodes, done)[u := nodes[u]]
  {
  }

  /** A record is of a node no record before it is of. */
  lemma RecordFacts(strings: seq<string>, ids: map<string, Id>, nodes: map<Id, Node>, byName: map<Id, seq<Id>>,
                    units: R.Relation, log: set<(string, string)>, records: seq<NodeRecord>, k: nat)
    requires Ok(strings, ids, nodes, byName, units, log) && Lists(strings, nodes, units.fwd, records)
    requires k < |records|
    ensures var r := records[k];
      && RecordIdsIn(r, |strings|) && r.usr in nodes && NodeOf(strings, r) == nodes[r.usr]
      && r.tus == R.Image(units.fwd, r.usr) && r.usr !in UsrsOf(records[..k])
      && forall i :: 0 <= i < |r.tus| ==> r.tus[i] < |strings| && strings[r.tus[i]] != ""
  {
    assert Describes(strings, nodes, units.fwd, records[k]);
    NodeFacts(strings, ids, nodes, byName, units, log, records[k].usr);
  }

  lemma OneMoreLoaded(strings: seq<string>, records: seq<NodeRecord>, k: nat)
    requires 0 < k <= |records| && forall r :: r in records ==> RecordIdsIn(r, |strings|)
    ensures Loaded(strings, records[..k]) == Placed(strings, Loaded(strings, records[..k - 1]), records[k - 1])
    ensures UsrsOf(records[..k]) == UsrsOf(records[..k - 1]) + {records[k - 1].usr}
  {
    hide UsrsOf, Placed, RecordIdsIn;
    assert records[..k][..k - 1] == records[..k - 1] && records[..k] == records[..k - 1] + [records[k - 1]];
    UsrsOfOne(records[..k - 1], records[k - 1]);
  }

  lemma PlacedOk(strings: seq<string>, ids: map<string, Id>, t: NodeTables, log: set<(string, string)>,
                 r: NodeRecord)
    requires RecordIdsIn(r, |strings|) && Ok(strings, ids, t.nodes, t.byName, t.units, log) && r.usr !in t.nodes
    requires forall k :: 0 <= k < |r.tus| ==> r.tus[k] < |strings| && strings[r.tus[k]] != ""
    ensures var t' := Placed(strings, t, r);
      && t'.nodes == t.nodes[r.usr := NodeOf(strings, r)]
      && Ok(strings, ids, t'.nodes, t'.byName, t'.units, log + R.PairsOf(strings, r.usr, r.tus))
  {
    hide Ok;
    var t' := Placed(strings, t, r);
    Registered(strings, ids, t.nodes, t.byName, t.units, log, r.usr, r.displayName, NodeOf(strings, r));
    UnitsOk(strings, ids, t'.(units := t.units), log, r.usr, r.tus);
  }

  /** Loading what was written gives the same nodes and the same contributions. */
  lemma LoadedBack(strings: seq<string>, ids: map<string, Id>, nodes: map<Id, Node>, byName: map<Id, seq<Id>>,
                   units: R.Relation, log: set<(string, string)>, records: seq<NodeRecord>)
    requires Ok(strings, ids, nodes, byName, units, log) && Lists(strings, nodes, units.fwd, records)
    requires forall r :: r in records ==> RecordIdsIn(r, |strings|)
    ensures var t := Loaded(strings, records);
      t.nodes == nodes && Ok(strings, ids, t.nodes, t.byName, t.units, log)
  {
    hide Ok;
    LoadedOk(strings, ids, nodes, byName, units, log, records, |records|);
    assert records[..|records|] == records;
    AllPairs(strings, ids, nodes, byName, units, log);
  }

  lemma SameIds(strings: seq<string>, a: map<string, Id>, b: map<string, Id>)
    requires InternerOk(strings, a) && InternerOk(strings, b)
    ensures a == b
  {
  }

  // ---- the bytes ---------------------------------------------------------------------------------------------

  function NodeValue(r: NodeRecord): W.Value {
    W.Pair(W.Nat(r.usr), W.Pair(W.Nat(r.displayName), W.Pair(StringValue(r.file), W.Pair(W.Nat(r.line),
      W.Pair(W.Flags([r.isEntryPoint, r.isVirtual]), W.Pair(StringValue(r.enclosingClass),
      W.Pair(W.List(Each(IdValue, r.tus)), W.Unit)))))))
  }

  function NodeRecordOf(v: W.Value): Option<NodeRecord> {
    match v
    case Pair(Nat(usr), Pair(Nat(name), Pair(file, Pair(Nat(line), Pair(Flags(flags), Pair(class_,
      Pair(List(us), Unit))))))) =>
      var f, c, tus := StringOf(file), StringOf(class_), Back(NatOf, us);
      if f.Some? && c.Some? && tus.Some? && |flags| == 2 then
        Some(NodeRecord(usr, name, f.value, line, flags[0], flags[1], c.value, tus.value))
      else None
    case _ => None
  }

  predicate Printable(r: NodeRecord) {
    ByteString(r.file) && ByteString(r.enclosingClass)
  }

  lemma NodeBack(r: NodeRecord)
    requires Printable(r)
    ensures NodeRecordOf(NodeValue(r)) == Some(r)
  {
    hide StringOf, StringValue;
    StringBack(r.file);
    StringBack(r.enclosingClass);
    EachBack(IdValue, NatOf, r.tus);
  }

  function NodesValue(records: seq<NodeRecord>): W.Value {
    W.List(Each(NodeValue, records))
  }

  function RecordsOf(v: W.Value): Option<seq<NodeRecord>> {
    match v
    case List(vs) => Back(NodeRecordOf, vs)
    case _ => None
  }

  lemma NodesBack(records: seq<NodeRecord>)
    requires forall r :: r in records ==> Printable(r)
    ensures RecordsOf(NodesValue(records)) == Some(records)
  {
    forall r | r in records ensures NodeRecordOf(NodeValue(r)) == Some(r) { NodeBack(r); }
    hide NodeRecordOf, NodeValue;
    EachBack(NodeValue, NodeRecordOf, records);
  }

  // ---- what fits ---------------------------------------------------------------------------------------------

  ghost predicate Small(r: NodeRecord) {
    && r.usr < W.TWO32 && r.displayName < W.TWO32 && r.line < W.TWO32
    && |r.file| < W.TWO32 && |r.enclosingClass| < W.TWO32
    && |r.tus| < W.TWO32 && forall i :: 0 <= i < |r.tus| ==> r.tus[i] < W.TWO32
  }

  lemma FlagsFit(a: bool, b: bool)
    ensures W.Fits(W.Bits(2), W.Flags([a, b]))
  {
  }

  lemma NodeFits(r: NodeRecord)
    ensures W.Fits(NODE, NodeValue(r)) <==> Small(r)
  {
    hide W.Fits, StringValue;
    StringFits(r.file);
    StringFits(r.enclosingClass);
    FlagsFit(r.isEntryPoint, r.isVirtual);
    NumberFits(4, r.usr);
    NumberFits(4, r.displayName);
    NumberFits(4, r.line);
    UnitsFit(r.tus);
    var ls := [W.U32, W.U32, W.Text, W.U32, W.Bits(2), W.Text, W.Counted(W.U32)];
    EndFits(ls);
    var v6 := W.Pair(W.List(Each(IdValue, r.tus)), W.Unit);
    var v5 := W.Pair(StringValue(r.enclosingClass), v6);
    var v4 := W.Pair(W.Flags([r.isEntryPoint, r.isVirtual]), v5);
    var v3 := W.Pair(W.Nat(r.line), v4);
    var v2 := W.Pair(StringValue(r.file), v3);
    var v1 := W.Pair(W.Nat(r.displayName), v2);
    FieldFits(ls, 6, v6.head, W.Unit);
    FieldFits(ls, 5, v5.head, v6);
    FieldFits(ls, 4, v4.head, v5);
    FieldFits(ls, 3, v3.head, v4);
    FieldFits(ls, 2, v2.head, v3);
    FieldFits(ls, 1, v1.head, v2);
    FieldFits(ls, 0, W.Nat(r.usr), v1);
  }

  /** What the nodes must stay within, once the strings are few enough to number. */
  ghost predicate NodesWithin32(nodes: map<Id, Node>, contributors: map<Id, seq<Id>>) {
    |nodes| < W.TWO32 && forall u :: u in nodes ==> NodeSmall(nodes, contributors, u)
  }

  ghost predicate NodeSmall(nodes: map<Id, Node>, contributors: map<Id, seq<Id>>, u: Id) {
    && u in nodes && nodes[u].line < W.TWO32 && |nodes[u].file| < W.TWO32
    && |nodes[u].enclosingClass| < W.TWO32 && |R.Image(contributors, u)| < W.TWO32
  }

  lemma NodesFit(strings: seq<string>, nodes: map<Id, Node>, contributors: map<Id, seq<Id>>,
                 records: seq<NodeRecord>)
    requires Lists(strings, nodes, contributors, records) && |strings| < W.TWO32
    ensures W.Fits(W.Counted(NODE), NodesValue(records)) <==> NodesWithin32(nodes, contributors)
  {
    assert W.Solid(NODE);
    hide W.Fits, NodeValue, W.Fields, NodeOf;
    ListFits(NODE, NodeValue, records);
    forall k | 0 <= k < |records|
      ensures W.Fits(NODE, NodeValue(records[k])) <==> NodeSmall(nodes, contributors, records[k].usr)
    {
      RecordSmall(strings, nodes, contributors, records[k]);
    }
    forall u | u in nodes && W.Fits(W.Counted(NODE), NodesValue(records)) ensures NodeSmall(nodes, contributors, u) {
      assert u in UsrsOf(records);
      var k :| 0 <= k < |records| && records[k].usr == u;
      assert W.Fits(NODE, NodeValue(records[k]));
    }
  }

  lemma RecordSmall(strings: seq<string>, nodes: map<Id, Node>, contributors: map<Id, seq<Id>>, r: NodeRecord)
    requires Describes(strings, nodes, contributors, r) && |strings| < W.TWO32
    ensures W.Fits(NODE, NodeValue(r)) <==> NodeSmall(nodes, contributors, r.usr)
  {
    hide W.Fits, NodeValue;
    NodeFits(r);
    forall i | 0 <= i < |r.tus| ensures r.tus[i] < W.TWO32 {
      assert r.tus[i] in r.tus;
    }
  }

  // ---- nodes and edges together --------------------------------------------------------------------------------

  predicate PairsIn(v: W.Value, n: nat) {
    v.List? && forall x :: x in v.items ==> PairOf(x).Some? && PairIn(PairOf(x).value, n)
  }

  predicate NodePrintable(n: Node) {
    ByteString(n.file) && ByteString(n.enclosingClass)
  }

  lemma {:induction false} EachIn(records: seq<NodeRecord>, n: nat)
    requires forall r :: r in records ==> RecordIdsIn(r, n)
    ensures forall v :: v in Each(NodeValue, records) ==> NodeIn(v, n)
  {
    if records != [] {
      EachIn(records[1..], n);
      NodeValueIn(records[0], n);
    }
  }

  lemma NodeValueIn(r: NodeRecord, n: nat)
    requires RecordIdsIn(r, n)
    ensures NodeIn(NodeValue(r), n)
  {
    NatsOf(r.tus, n);
  }

  lemma {:induction false} NatsOf(tus: seq<Id>, n: nat)
    requires forall t :: t in tus ==> t < n
    ensures NatsIn(Each(IdValue, tus), n)
  {
    if tus != [] {
      assert tus[0] in tus && forall t :: t in tus[1..] ==> t in tus;
      NatsOf(tus[1..], n);
    }
  }

  lemma ListedFacts(strings: seq<string>, nodes: map<Id, Node>, contributors: map<Id, seq<Id>>,
                    records: seq<NodeRecord>)
    requires Lists(strings, nodes, contributors, records)
    requires forall u :: u in nodes ==> NodePrintable(nodes[u])
    ensures forall r :: r in records ==> RecordIdsIn(r, |strings|) && Printable(r)
  {
    forall r | r in records ensures RecordIdsIn(r, |strings|) && Printable(r) {
      var k :| 0 <= k < |records| && records[k] == r;
      assert Describes(strings, nodes, contributors, records[k]) && NodePrintable(nodes[r.usr]);
    }
  }

  /** The section fits exactly when graph and nodes do. */
  lemma BothFit(g: CallGraph, nodes: map<Id, Node>, contributors: map<Id, seq<Id>>, records: seq<NodeRecord>,
                derived: W.Value, impls: W.Value)
    requires Lists(g.strings, nodes, contributors, records)
    ensures Within32(g.Tab(), g.Overrides(), g.Returns(), NodesValue(records), derived, impls)
       <==> (Within32(g.Tab(), g.Overrides(), g.Returns(), W.List([]), derived, impls)
             && NodesWithin32(nodes, contributors))
  {
    hide W.Fits, NodesWithin32, Lists, NodesValue;
    NoneFit();
    if |g.strings| < W.TWO32 {
      NodesFit(g.strings, nodes, contributors, records);
    }
  }

  lemma NoneFit()
    ensures W.Fits(W.Counted(NODE), W.List([]))
  {
    assert W.Solid(NODE);
  }

  /** The nodes of a graph, from what their records were written as. */
  method ReadBack(n: Nodes, records: seq<NodeRecord>, v: W.Value) returns (n': Nodes)
    requires n.Valid() && Lists(n.strings, n.nodes, n.contributors, records) && RecordsOf(v) == Some(records)
    requires forall r :: r in records ==> RecordIdsIn(r, |n.strings|)
    ensures fresh(n') && n'.Valid() && n'.strings == n.strings && n'.AllNodes() == n.AllNodes() && n'.log == n.log
    ensures n'.told == n.told
  {
    hide Ok, Lists, InternerOk, Loaded, TableOf, RecordIdsIn, RecordsOf;
    n' := LoadNodes(n.strings, RecordsOf(v).value);
    n'.log, n'.told := n.log, n.told;
    InternerPart(n.strings, n.ids, n.nodes, n.byName, n.Units(), n.log);
    InternedOnce(n.strings, n.ids);
    SameIds(n.strings, n.ids, n'.ids);
    LoadedBack(n.strings, n.ids, n.nodes, n.byName, n.Units(), n.log, records);
  }

  /** Edges and nodes of one graph, saved and loaded: the edges come back compacted, the nodes as
      they were, with their contributors. */
  method SaveThenLoadBoth(g: CallGraph, n: Nodes, derived: W.Value, impls: W.Value)
    returns (loaded: bool, g': CallGraph, n': Nodes)
    requires g.Valid() && n.Valid() && n.strings == g.strings
    requires (forall s :: s in g.strings ==> ByteString(s)) && forall u :: u in n.nodes ==> NodePrintable(n.nodes[u])
    requires PairsIn(derived, |g.strings|) && PairsIn(impls, |g.strings|)
    ensures loaded <==> (Within32(g.Tab(), g.Overrides(), g.Returns(), W.List([]), derived, impls)
                         && NodesWithin32(n.nodes, n.contributors))
    ensures loaded ==>
      && fresh(g') && g'.Valid() && g'.strings == g.strings && g'.edges == LiveEdges(g.edges) && g'.regs == g.regs
      && g'.overrideLog == g.overrideLog && g'.returnLog == g.returnLog
      && fresh(n') && n'.Valid() && n'.strings == n.strings && n'.AllNodes() == n.AllNodes() && n'.log == n.log
      && n'.told == n.told
  {
    hide Nodes.Valid, CallGraph.Valid, Lists, LiveEdges, Within32, NodesWithin32, NodesValue, RecordsOf,
         ByteString, NodePrintable, RecordIdsIn, TablesIn, TableOf, Laid;
    var records := EmitNodes(n);
    ListedFacts(n.strings, n.nodes, n.contributors, records);
    RecordsIn(records, derived, impls, |g.strings|);
    BothFit(g, n.nodes, n.contributors, records, derived, impls);
    NodesBack(records);
    var image;
    image, g' := SaveThenLoad(g, NodesValue(records), derived, impls);
    loaded, n' := image.Some?, n;
    if loaded {
      n' := ReadBack(n, records, image.value.nodes);
    }
  }

  lemma RecordsIn(records: seq<NodeRecord>, derived: W.Value, impls: W.Value, n: nat)
    requires (forall r :: r in records ==> RecordIdsIn(r, n)) && PairsIn(derived, n) && PairsIn(impls, n)
    ensures TablesIn(NodesValue(records), derived, impls, n)
  {
    hide RecordIdsIn, NodeValue, NodeIn;
    EachIn(records, n);
  }
}

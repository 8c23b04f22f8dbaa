/** The node half of a call graph: one node for each usr, the display-name index, and which
    translation units contributed which node (src/callgraph/CallGraph.cpp:78-140, 593-625,
    758-789). */
module NodeStore {
  import opened EdgeTypes
  import opened Interner
  import opened Tellings
  import opened Sequences
  import opened Relations

  /** The contributions that are left when some units are removed. */
  function Remaining(log: set<(string, string)>, gone: set<string>): set<(string, string)> {
    set p | p in log && p.1 !in gone
  }

  ghost predicate Contributed(log: set<(string, string)>, usr: string) {
    exists tu :: (usr, tu) in log
  }

  /** A node nobody contributed stays for ever, any other as long as one of its units does. */
  ghost predicate Stays(log: set<(string, string)>, usr: string, gone: set<string>) {
    Contributed(log, usr) ==> Contributed(Remaining(log, gone), usr)
  }

  ghost function Survivors(table: Table, log: set<(string, string)>, gone: set<string>): Table {
    map u | u in table && Stays(log, u, gone) :: table[u]
  }

  /** Removing units in turn is removing them together. */
  lemma SurvivorsTwice(table: Table, log: set<(string, string)>, a: set<string>, b: set<string>)
    ensures Remaining(Remaining(log, a), b) == Remaining(log, a + b)
    ensures Survivors(Survivors(table, log, a), Remaining(log, a), b) == Survivors(table, log, a + b)
  {
    assert Remaining(Remaining(log, a), b) == Remaining(log, a + b);
    forall u ensures Contributed(Remaining(log, a + b), u) ==> Contributed(Remaining(log, a), u) {
      if tu :| (u, tu) in Remaining(log, a + b) {
        assert (u, tu) in Remaining(log, a);
      }
    }
    hide Contributed, Remaining;
    forall u ensures Stays(log, u, a) && Stays(Remaining(log, a), u, b) <==> Stays(log, u, a + b) {}
  }

  /** No unit contributed the node, or some unit that is not removed. */
  ghost predicate Outlives(log: set<(string, string)>, usr: string, removed: seq<string>) {
    (forall tu :: (usr, tu) !in log) || exists tu :: (usr, tu) in log && tu !in removed
  }

  /** Contributions of the units removed go, and a node with its last contribution. */
  lemma WhatSurvives(table: Table, log: set<(string, string)>, tuPaths: seq<string>)
    ensures var gone := set t | t in tuPaths;
      && (forall p :: p in Remaining(log, gone) <==> p in log && p.1 !in tuPaths)
      && (forall u :: u in Survivors(table, log, gone) <==> u in table && Outlives(log, u, tuPaths))
      && forall u :: u in Survivors(table, log, gone) ==> Survivors(table, log, gone)[u] == table[u]
  {
    var gone := set t | t in tuPaths;
    forall u ensures Stays(log, u, gone) <==> Outlives(log, u, tuPaths) {
      if tu :| (u, tu) in log && tu !in tuPaths {
        assert (u, tu) in Remaining(log, gone);
      }
      if tu :| (u, tu) in Remaining(log, gone) {
        assert (u, tu) in log;
      }
    }
  }

  lemma SurvivorsSumUp(told: History, table: Table, table': Table)
    requires forall u :: u in table' ==> u in table && table'[u] == table[u]
    ensures TableSumsUp(told, table) ==> TableSumsUp(map u | u in told && u in table' :: told[u], table')
  {
    hide SumsUp;
  }

  // ---- the display-name index ------------------------------------------------------------------

  /** Under each display name exactly its nodes, each once. */
  ghost predicate ByNameOk(strings: seq<string>, nodes: map<Id, Node>, byName: map<Id, seq<Id>>) {
    forall d: Id :: Distinct(Image(byName, d)) && NamedAt(strings, nodes, byName, d)
  }

  ghost predicate NamedAt(strings: seq<string>, nodes: map<Id, Node>, byName: map<Id, seq<Id>>, d: Id) {
    forall u: Id :: u in Image(byName, d) <==> u in nodes && d < |strings| && nodes[u].qualifiedName == strings[d]
  }

  ghost predicate NodesOk(strings: seq<string>, nodes: map<Id, Node>) {
    forall u :: u in nodes ==> u < |strings| && nodes[u].usr == strings[u] && nodes[u].qualifiedName in strings
  }

  /** Only nodes have contributors. */
  ghost predicate OnlyNodes(nodes: map<Id, Node>, contributors: map<Id, seq<Id>>) {
    forall u :: u in contributors ==> u in nodes && contributors[u] != []
  }

  function Erased(s: seq<Id>, x: Id): (r: seq<Id>)
    ensures forall y :: y in r <==> y in s && y != x
    ensures Distinct(s) ==> Distinct(r)
  {
    if s == [] then []
    else
      var r := Erased(s[..|s| - 1], x);
      assert s == s[..|s| - 1] + [s[|s| - 1]];
      assert Distinct(s) ==> s[|s| - 1] !in s[..|s| - 1];
      if s[|s| - 1] == x then r else r + [s[|s| - 1]]
  }

  /** The name index without one entry of a node. */
  function Unnamed(ids: map<string, Id>, byName: map<Id, seq<Id>>, n: Node, u: Id): map<Id, seq<Id>> {
    if n.qualifiedName !in ids || ids[n.qualifiedName] !in byName then byName
    else
      var d := ids[n.qualifiedName];
      var rest := Erased(byName[d], u);
      if rest == [] then byName - {d} else byName[d := rest]
  }

  function TableOf(ids: map<string, Id>, nodes: map<Id, Node>): Table {
    map s | s in ids && ids[s] in nodes :: nodes[ids[s]]
  }

  /** Everything the node tables keep between calls. */
  ghost predicate Ok(strings: seq<string>, ids: map<string, Id>, nodes: map<Id, Node>, byName: map<Id, seq<Id>>,
                     units: Relation, log: set<(string, string)>)
  {
    && InternerOk(strings, ids) && NodesOk(strings, nodes) && ByNameOk(strings, nodes, byName)
    && OnlyNodes(nodes, units.fwd) && RelationOk(units, strings, log)
    && forall p :: p in log ==> p.1 != ""
  }

  class Nodes {
    var strings: seq<string>
    var ids: map<string, Id>
    var nodes: map<Id, Node>
    var byName: map<Id, seq<Id>>
    var contributors: map<Id, seq<Id>> // an ordered set of units for each node
    var tuNodes: map<Id, seq<Id>>

    /** The surviving contributions, usr and unit. */
    ghost var log: set<(string, string)>

    /** What was told of the nodes there are. */
    ghost var told: History

    function Units(): Relation
      reads this
    {
      Relation(contributors, tuNodes)
    }

    ghost predicate Valid()
      reads this
    {
      Ok(strings, ids, nodes, byName, Units(), log)
    }

    /** Each node sums up its tellings. */
    ghost predicate Tells()
      reads this
    {
      TableSumsUp(told, AllNodes())
    }

    /** The nodes by usr. */
    function AllNodes(): Table
      reads this
    {
      TableOf(ids, nodes)
    }

    constructor ()
      ensures Valid() && AllNodes() == map[] && log == {}
      ensures strings == [] && nodes == map[] && byName == map[] && Units() == Relation(map[], map[])
      ensures told == map[] && Tells()
    {
      strings, ids, nodes, byName, contributors, tuNodes := [], map[], map[], map[], map[], map[];
      log, told := {}, map[];
    }

    method Intern(s: string) returns (id: Id)
      requires Valid()
      modifies this`strings, this`ids
      ensures Valid() && AllNodes() == old(AllNodes()) && old(strings) <= strings
      ensures id < |strings| && strings[id] == s
    {
      hide Ok, TableOf;
      InternerPart(strings, ids, nodes, byName, Units(), log);
      ghost var before, ids0 := strings, ids;
      strings, ids, id := InternString(strings, ids, s);
      StringsGrow(before, ids0, strings, ids, nodes, byName, Units(), log);
    }

    /** addNode: a new node, or more about a known one; the unit joins its contributors. */
    method AddNode(node: Node, tuPath: string)
      requires Valid()
      modifies this
      ensures Valid() && AllNodes() == Told(old(AllNodes()), Keyed(node))
      ensures log == old(log) + if tuPath == "" then {} else {(Keyed(node).usr, tuPath)}
      ensures var usr := if node.usr == "" then node.qualifiedName else node.usr;
        && log == old(log) + (if tuPath == "" then {} else {(usr, tuPath)})
        && told == Followed(old(told), map[usr := [node.(usr := usr)]]) && (old(Tells()) ==> Tells())
    {
      hide Ok, TableOf, TableSumsUp, Told, Followed;
      var n := if node.usr == "" then node.(usr := node.qualifiedName) else node;
      var nameId := Intern(n.usr);
      var displayId := Intern(n.qualifiedName);
      Store(n, nameId, displayId);
      if tuPath != "" {
        var tuId := Intern(tuPath);
        Tag(nameId, tuId);
      }
      if old(Tells()) {
        ToldSumsUp(told, old(AllNodes()), n);
      }
      told := Followed(told, map[n.usr := [n]]);
    }

    method Store(n: Node, nameId: Id, displayId: Id)
      requires Valid() && nameId < |strings| && strings[nameId] == n.usr
      requires displayId < |strings| && strings[displayId] == n.qualifiedName
      modifies this`nodes, this`byName
      ensures Valid() && AllNodes() == Told(old(AllNodes()), n) && nameId in nodes
    {
      hide Ok, TableOf;
      TableAt(strings, ids, nodes, byName, Units(), log, nameId);
      if nameId !in nodes {
        Registered(strings, ids, nodes, byName, Units(), log, nameId, displayId, n);
        if nameId !in Image(byName, displayId) {
          byName := byName[displayId := Image(byName, displayId) + [nameId]];
        }
        nodes := nodes[nameId := n];
      } else {
        SameNames(strings, ids, nodes, byName, Units(), log, nameId, Backfilled(nodes[nameId], n));
        nodes := nodes[nameId := Backfilled(nodes[nameId], n)];
      }
    }

    /** The unit joins the node's contributors, and the node the unit's list, once. */
    method Tag(nameId: Id, tuId: Id)
      requires Valid() && nameId in nodes && nameId < |strings| && tuId < |strings| && strings[tuId] != ""
      modifies this`contributors, this`tuNodes, this`log
      ensures Valid() && log == old(log) + {(strings[nameId], strings[tuId])}
    {
      hide Ok;
      Tagged(strings, ids, nodes, byName, Units(), log, nameId, tuId);
      if tuId !in Image(contributors, nameId) {
        contributors := contributors[nameId := Insert(Image(contributors, nameId), tuId)];
        tuNodes := tuNodes[tuId := Image(tuNodes, tuId) + [nameId]];
      }
      log := log + {(strings[nameId], strings[tuId])};
    }

    /** The node part of absorb: every node told again, every contribution carried over. */
    method Absorb(shard: Nodes)
      requires Valid() && shard.Valid()
      modifies this
      ensures Valid()
      ensures shard == this ==> AllNodes() == old(AllNodes()) && log == old(log) && told == old(told)
      ensures shard != this ==> AllNodes() == Joined(old(AllNodes()), shard.AllNodes()) && log == old(log) + shard.log
      ensures shard != this ==>
        told == Followed(old(told), shard.told) && (old(Tells()) && shard.Tells() ==> Tells())
    {
      hide Ok, TableOf, TableSumsUp, Followed;
      if shard == this {
        return;
      }
      ghost var told0 := told;
      var remap := InternAll(shard.strings);
      ghost var table0, log0, done: set<Id> := AllNodes(), log, {};
      var todo := shard.nodes.Keys;
      NothingJoined(table0, shard.ids, shard.nodes);
      while todo != {}
        invariant Valid() && Mapped(shard.strings, strings, remap) && todo !! done && todo + done == shard.nodes.Keys
        invariant AllNodes() == Joined(table0, TableOf(shard.ids, Only(shard.nodes, done)))
        invariant log == log0 + NamePairs(shard.contributors, shard.strings, done)
      {
        var u :| u in todo;
        AbsorbNode(shard, remap, u);
        JoinedStep(table0, shard.strings, shard.ids, shard.nodes, shard.byName, shard.Units(), shard.log, done, u);
        NamePairsOne(shard.contributors, shard.strings, done, u);
        todo, done := todo - {u}, done + {u};
      }
      assert done == shard.nodes.Keys && Only(shard.nodes, done) == shard.nodes;
      AllPairs(shard.strings, shard.ids, shard.nodes, shard.byName, shard.Units(), shard.log);
      if TableSumsUp(told0, table0) && shard.Tells() {
        JoinedSumsUp(told0, shard.told, table0, shard.AllNodes());
      }
      told := Followed(told0, shard.told);
    }

    method InternAll(table: seq<string>) returns (remap: seq<Id>)
      requires Valid()
      modifies this`strings, this`ids
      ensures Valid() && AllNodes() == old(AllNodes()) && Mapped(table, strings, remap)
    {
      hide Ok, TableOf;
      remap := [];
      for i := 0 to |table|
        invariant Valid() && AllNodes() == old(AllNodes()) && Mapped(table[..i], strings, remap)
      {
        var id := Intern(table[i]);
        remap := remap + [id];
      }
      assert table[..|table|] == table;
    }

    /** One node of the shard, then its contributors. */
    method AbsorbNode(shard: Nodes, remap: seq<Id>, u: Id)
      requires Valid() && shard.Valid() && shard != this && u in shard.nodes
      requires Mapped(shard.strings, strings, remap)
      modifies this
      ensures Valid() && Mapped(shard.strings, strings, remap)
      ensures AllNodes() == Told(old(AllNodes()), shard.nodes[u])
      ensures log == old(log) + PairsOf(shard.strings, u, Image(shard.contributors, u))
    {
      hide Ok, TableOf;
      NodeFacts(shard.strings, shard.ids, shard.nodes, shard.byName, shard.Units(), shard.log, u);
      ghost var strings0 := strings;
      var displayId := Intern(shard.nodes[u].qualifiedName);
      Store(shard.nodes[u], remap[u], displayId);
      ghost var log0, table := log, AllNodes();
      var list := Image(shard.contributors, u);
      for i := 0 to |list|
        invariant Valid() && Mapped(shard.strings, strings, remap) && remap[u] in nodes && AllNodes() == table
        invariant log == log0 + PairsOf(shard.strings, u, list[..i])
      {
        assert list[..i + 1] == list[..i] + [list[i]];
        PairsOfOne(shard.strings, u, list[..i], list[i]);
        Tag(remap[u], remap[list[i]]);
      }
      assert list[..|list|] == list;
    }

    /** The node part of removeTUs: a node goes with its last contributing unit. */
    method RemoveTUs(tuPaths: seq<string>)
      requires Valid()
      modifies this
      ensures Valid() && strings == old(strings)
      ensures AllNodes() == Survivors(old(AllNodes()), old(log), set t | t in tuPaths)
      ensures log == Remaining(old(log), set t | t in tuPaths)
      ensures forall p :: p in log <==> p in old(log) && p.1 !in tuPaths
      ensures forall u :: u in AllNodes() <==> u in old(AllNodes()) && Outlives(old(log), u, tuPaths)
      ensures forall u :: u in AllNodes() ==> AllNodes()[u] == old(AllNodes())[u]
      ensures (forall u :: u in told <==> u in old(told) && u in AllNodes()) && (old(Tells()) ==> Tells())
      ensures forall u :: u in told ==> told[u] == old(told)[u]
    {
      hide Ok, TableOf, Survivors, Remaining, TableSumsUp, Outlives;
      ghost var told0, table0, log0, gone: set<string> := told, AllNodes(), log, {};
      NothingGone(table0, log0);
      for i := 0 to |tuPaths|
        invariant Valid() && strings == old(strings) && ids == old(ids)
        invariant gone == set t | t in tuPaths[..i]
        invariant AllNodes() == Survivors(table0, log0, gone) && log == Remaining(log0, gone)
      {
        assert tuPaths[..i + 1] == tuPaths[..i] + [tuPaths[i]];
        SurvivorsTwice(table0, log0, gone, {tuPaths[i]});
        InternerPart(strings, ids, nodes, byName, Units(), log);
        if tuPaths[i] in ids {
          RemoveTu(ids[tuPaths[i]]);
        } else {
          UnknownUnit(strings, ids, nodes, byName, Units(), log, tuPaths[i]);
        }
        gone := gone + {tuPaths[i]};
      }
      assert tuPaths[..|tuPaths|] == tuPaths;
      WhatSurvives(table0, log0, tuPaths);
      SurvivorsSumUp(told0, table0, AllNodes());
      told := map u | u in told0 && u in AllNodes() :: told0[u];
    }

    method RemoveTu(t: Id)
      requires Valid() && t < |strings|
      modifies this`nodes, this`byName, this`contributors, this`tuNodes, this`log
      ensures Valid()
      ensures AllNodes() == Survivors(old(AllNodes()), old(log), {strings[t]})
      ensures log == Remaining(old(log), {strings[t]})
    {
      hide Ok, TableOf, Survivors, Remaining, Released, Unnamed;
      ghost var nodes0, byName0, units0, log0 := nodes, byName, Units(), log;
      var list := Image(tuNodes, t);
      NothingReleased(strings, ids, nodes0, byName0, units0, log0, t);
      assert Members(list[..0]) == {};
      for k := 0 to |list|
        invariant tuNodes == units0.rev && log == log0
        invariant Released(strings, nodes0, units0.fwd, t, Members(list[..k]), nodes, byName, contributors)
      {
        assert list[..k + 1] == list[..k] + [list[k]];
        assert list[k] in list && Members(list[..k + 1]) == Members(list[..k]) + {list[k]};
        ReleasedStep(strings, ids, nodes0, byName0, units0, log0, t, Members(list[..k]), nodes, byName, contributors,
          list[k]);
        ReleaseNode(list[k], t);
      }
      assert list[..|list|] == list;
      tuNodes := tuNodes - {t};
      log := Remaining(log, {strings[t]});
      AllReleased(strings, ids, nodes0, byName0, units0, log0, t, nodes, byName, contributors);
    }

    /** One node loses the unit; without any unit it goes, from the name index too. */
    method ReleaseNode(u: Id, t: Id)
      requires u in contributors ==> u in nodes
      modifies this`nodes, this`byName, this`contributors
      ensures var rest := Erased(Image(old(contributors), u), t); var dies := u in old(contributors) && rest == [];
        && contributors == (if u !in old(contributors) then old(contributors)
                            else if dies then old(contributors) - {u} else old(contributors)[u := rest])
        && nodes == (if dies then old(nodes) - {u} else old(nodes))
        && byName == (if dies then Unnamed(ids, old(byName), old(nodes)[u], u) else old(byName))
    {
      if u !in contributors {
        return;
      }
      contributors := contributors[u := Erased(contributors[u], t)];
      if contributors[u] == [] {
        if nodes[u].qualifiedName in ids {
          var displayId := ids[nodes[u].qualifiedName];
          if displayId in byName {
            byName := byName[displayId := Erased(byName[displayId], u)];
            if byName[displayId] == [] {
              byName := byName - {displayId};
            }
          }
        }
        nodes := nodes - {u};
        contributors := contributors - {u};
      }
    }

    /** resolveUsrIds: the node of that usr, else the nodes of that display name, else the string
        itself if it is known at all. */
    method ResolveUsrIds(name: string) returns (found: seq<Id>)
      requires Valid()
      ensures forall k :: 0 <= k < |found| ==> found[k] < |strings|
      ensures Distinct(found)
      ensures var usrs := set u | u in found && u < |strings| :: strings[u];
        usrs == if name in AllNodes() then {name}
                else if exists u :: Named(AllNodes(), u, name) then set u | u in AllNodes()
                  && Named(AllNodes(), u, name)
                else if name in strings then {name} else {}
    {
      hide RelationOk;
      if name !in ids {
        NoNodesOf(strings, ids, nodes, byName, Units(), log, name);
        return [];
      }
      var id := ids[name];
      if id in nodes {
        return [id];
      }
      NodesOf(strings, ids, nodes, byName, Units(), log, name);
      if id in byName && byName[id] != [] {
        return byName[id];
      }
      return [id];
    }
  }

  ghost predicate Named(table: Table, u: string, name: string) {
    u in table && table[u].qualifiedName == name
  }

  lemma NoNodesOf(strings: seq<string>, ids: map<string, Id>, nodes: map<Id, Node>, byName: map<Id, seq<Id>>,
                  units: Relation, log: set<(string, string)>, name: string)
    requires Ok(strings, ids, nodes, byName, units, log) && name !in ids
    ensures name !in TableOf(ids, nodes) && name !in strings
    ensures !exists u :: Named(TableOf(ids, nodes), u, name)
  {
    hide RelationOk, ByNameOk;
  }

  /** The index lists exactly the nodes of a display name. */
  lemma NodesOf(strings: seq<string>, ids: map<string, Id>, nodes: map<Id, Node>, byName: map<Id, seq<Id>>,
                units: Relation, log: set<(string, string)>, name: string)
    requires Ok(strings, ids, nodes, byName, units, log) && name in ids
    ensures var list := Image(byName, ids[name]); var table := TableOf(ids, nodes);
      && Distinct(list) && (forall k :: 0 <= k < |list| ==> list[k] < |strings|)
      && (set u | u in list && u < |strings| :: strings[u]) == (set u | u in table && Named(table, u, name))
      && (list != [] <==> exists u :: Named(table, u, name))
  {
    hide RelationOk;
    var d, list, table := ids[name], Image(byName, ids[name]), TableOf(ids, nodes);
    assert Distinct(list) && NamedAt(strings, nodes, byName, d);
    forall k | 0 <= k < |list| ensures list[k] < |strings| {
      assert list[k] in list;
    }
    forall u | u in table && Named(table, u, name) ensures ids[u] in list && strings[ids[u]] == u {}
    forall u | u in list ensures Named(table, strings[u], name) {
      assert u in nodes && strings[u] in ids;
    }
    if list != [] {
      assert list[0] in list && Named(table, strings[list[0]], name);
    }
  }

  lemma InternerPart(strings: seq<string>, ids: map<string, Id>, nodes: map<Id, Node>, byName: map<Id, seq<Id>>,
                     units: Relation, log: set<(string, string)>)
    requires Ok(strings, ids, nodes, byName, units, log)
    ensures InternerOk(strings, ids)
  {
  }

  lemma StringsGrow(strings: seq<string>, ids: map<string, Id>, strings': seq<string>, ids': map<string, Id>,
                    nodes: map<Id, Node>, byName: map<Id, seq<Id>>, units: Relation, log: set<(string, string)>)
    requires Ok(strings, ids, nodes, byName, units, log) && InternerOk(strings', ids') && strings <= strings'
    ensures Ok(strings', ids', nodes, byName, units, log) && TableOf(ids', nodes) == TableOf(ids, nodes)
  {
    InternedOnce(strings', ids');
    hide RelationOk;
    GrownRelation(units, strings, strings', log);
    NamesGrow(strings, strings', nodes, byName);
    hide ByNameOk;
    forall s ensures s in TableOf(ids', nodes) <==> s in TableOf(ids, nodes) {
      if s in ids' && ids'[s] in nodes {
        assert strings'[ids'[s]] == strings[ids'[s]] == s;
      }
      if s in ids {
        assert strings'[ids[s]] == s;
      }
    }
  }

  /** The node of an id is that of its string. */
  lemma TableAt(strings: seq<string>, ids: map<string, Id>, nodes: map<Id, Node>, byName: map<Id, seq<Id>>,
                units: Relation, log: set<(string, string)>, id: Id)
    requires Ok(strings, ids, nodes, byName, units, log) && id < |strings|
    ensures id in nodes <==> strings[id] in TableOf(ids, nodes)
    ensures id in nodes ==> TableOf(ids, nodes)[strings[id]] == nodes[id] && nodes[id].usr == strings[id]
  {
  }

  lemma TableUpdated(strings: seq<string>, ids: map<string, Id>, nodes: map<Id, Node>, id: Id, n: Node)
    requires InternerOk(strings, ids) && id < |strings|
    ensures TableOf(ids, nodes[id := n]) == TableOf(ids, nodes)[strings[id] := n]
  {
  }

  lemma InternedOnce(strings: seq<string>, ids: map<string, Id>)
    requires InternerOk(strings, ids)
    ensures Distinct(strings)
  {
    forall i, j | 0 <= i < j < |strings| ensures strings[i] != strings[j] {
      assert ids[strings[i]] == i && ids[strings[j]] == j;
    }
  }

  /** A new node goes under its display name. */
  lemma Registered(strings: seq<string>, ids: map<string, Id>, nodes: map<Id, Node>, byName: map<Id, seq<Id>>,
                   units: Relation, log: set<(string, string)>, u: Id, d: Id, n: Node)
    requires Ok(strings, ids, nodes, byName, units, log) && u !in nodes
    requires u < |strings| && strings[u] == n.usr && d < |strings| && strings[d] == n.qualifiedName
    ensures u !in Image(byName, d)
    ensures Ok(strings, ids, nodes[u := n], byName[d := Image(byName, d) + [u]], units, log)
    ensures TableOf(ids, nodes[u := n]) == TableOf(ids, nodes)[n.usr := n]
  {
    hide RelationOk;
    InternedOnce(strings, ids);
    TableUpdated(strings, ids, nodes, u, n);
    ListedUnder(strings, nodes, byName, u, d, n);
    hide TableOf, ByNameOk;
  }

  lemma ListedUnder(strings: seq<string>, nodes: map<Id, Node>, byName: map<Id, seq<Id>>, u: Id, d: Id, n: Node)
    requires ByNameOk(strings, nodes, byName) && u !in nodes && Distinct(strings)
    requires d < |strings| && strings[d] == n.qualifiedName
    ensures u !in Image(byName, d)
    ensures ByNameOk(strings, nodes[u := n], byName[d := Image(byName, d) + [u]])
  {
    assert NamedAt(strings, nodes, byName, d);
    var byName' := byName[d := Image(byName, d) + [u]];
    forall e: Id ensures Distinct(Image(byName', e)) && NamedAt(strings, nodes[u := n], byName', e) {
      assert Distinct(Image(byName, e)) && NamedAt(strings, nodes, byName, e);
    }
  }

  /** More about a node leaves it where it is listed. */
  lemma SameNames(strings: seq<string>, ids: map<string, Id>, nodes: map<Id, Node>, byName: map<Id, seq<Id>>,
                  units: Relation, log: set<(string, string)>, u: Id, n: Node)
    requires Ok(strings, ids, nodes, byName, units, log) && u in nodes
    requires n.qualifiedName == nodes[u].qualifiedName && n.usr == nodes[u].usr
    ensures Ok(strings, ids, nodes[u := n], byName, units, log)
    ensures TableOf(ids, nodes[u := n]) == TableOf(ids, nodes)[n.usr := n]
  {
    hide RelationOk;
    TableUpdated(strings, ids, nodes, u, n);
    hide TableOf;
    forall e: Id ensures Distinct(Image(byName, e)) && NamedAt(strings, nodes[u := n], byName, e) {
      assert Distinct(Image(byName, e)) && NamedAt(strings, nodes, byName, e);
    }
  }

  lemma Tagged(strings: seq<string>, ids: map<string, Id>, nodes: map<Id, Node>, byName: map<Id, seq<Id>>,
               units: Relation, log: set<(string, string)>, u: Id, t: Id)
    requires Ok(strings, ids, nodes, byName, units, log) && u in nodes && u < |strings| && t < |strings|
    requires strings[t] != ""
    ensures Ok(strings, ids, nodes, byName, AddOrdered(units, u, t), log + {(strings[u], strings[t])})
  {
    Transposes(units, strings, log);
    hide RelationOk, ByNameOk;
    OneMoreOk(units, AddOrdered(units, u, t), strings, log, u, t);
  }

  lemma Transposes(r: Relation, strings: seq<string>, log: set<(string, string)>)
    requires RelationOk(r, strings, log)
    ensures Transposed(r)
  {
  }

  // ---- absorbing ---------------------------------------------------------------------------------------

  /** `remap[i]` is the own id of the shard string with id `i`. */
  ghost predicate Mapped(table: seq<string>, strings: seq<string>, remap: seq<Id>) {
    |remap| == |table| && forall i :: 0 <= i < |remap| ==> remap[i] < |strings| && strings[remap[i]] == table[i]
  }

  function Only(nodes: map<Id, Node>, from: set<Id>): map<Id, Node> {
    map u | u in nodes && u in from :: nodes[u]
  }

  /** A node's ids are in range, and none of its contributors is nameless. */
  lemma NodeFacts(strings: seq<string>, ids: map<string, Id>, nodes: map<Id, Node>, byName: map<Id, seq<Id>>,
                  units: Relation, log: set<(string, string)>, u: Id)
    requires Ok(strings, ids, nodes, byName, units, log) && u in nodes
    ensures u < |strings| && nodes[u].usr == strings[u]
    ensures forall k :: 0 <= k < |Image(units.fwd, u)| ==>
      Image(units.fwd, u)[k] < |strings| && strings[Image(units.fwd, u)[k]] != ""
  {
    hide ByNameOk;
    forall k | 0 <= k < |Image(units.fwd, u)|
      ensures Image(units.fwd, u)[k] < |strings| && strings[Image(units.fwd, u)[k]] != ""
    {
      var t := Image(units.fwd, u)[k];
      assert Related(units.fwd, u, t);
      assert (strings[u], strings[t]) in log;
    }
  }

  lemma NothingJoined(table: Table, ids: map<string, Id>, nodes: map<Id, Node>)
    ensures Joined(table, TableOf(ids, Only(nodes, {}))) == table
  {
    assert Only(nodes, {}) == map[] && TableOf(ids, map[]) == map[];
  }

  lemma JoinedStep(table: Table, strings: seq<string>, ids: map<string, Id>, nodes: map<Id, Node>,
                   byName: map<Id, seq<Id>>,
                   units: Relation, log: set<(string, string)>, done: set<Id>, u: Id)
    requires Ok(strings, ids, nodes, byName, units, log) && u in nodes && u !in done
    ensures Told(Joined(table, TableOf(ids, Only(nodes, done))), nodes[u])
         == Joined(table, TableOf(ids, Only(nodes, done + {u})))
  {
    hide ByNameOk, RelationOk, OnlyNodes, Joined, Told;
    assert Only(nodes, done + {u}) == Only(nodes, done)[u := nodes[u]];
    TableUpdated(strings, ids, Only(nodes, done), u, nodes[u]);
    var t := TableOf(ids, Only(nodes, done));
    assert nodes[u].usr !in t;
    hide TableOf, Only;
    ToldLast(table, t, nodes[u]);
  }

  lemma ToldLast(table: Table, t: Table, n: Node)
    requires n.usr !in t
    ensures Told(Joined(table, t), n) == Joined(table, t[n.usr := n])
  {
  }

  lemma AllPairs(strings: seq<string>, ids: map<string, Id>, nodes: map<Id, Node>, byName: map<Id, seq<Id>>,
                 units: Relation, log: set<(string, string)>)
    requires Ok(strings, ids, nodes, byName, units, log)
    ensures NamePairs(units.fwd, strings, nodes.Keys) == log
  {
    hide ByNameOk, RelationOk;
    AllNamePairs(units, strings, log, units.fwd.Keys);
    assert forall u :: u !in units.fwd ==> Image(units.fwd, u) == [];
  }

  // ---- removing ----------------------------------------------------------------------------------------

  lemma {:induction false} ErasedAbsent(s: seq<Id>, x: Id)
    requires x !in s
    ensures Erased(s, x) == s
  {
    hide Distinct;
    if s != [] {
      ErasedAbsent(s[..|s| - 1], x);
      assert s == s[..|s| - 1] + [s[|s| - 1]];
    }
  }

  function Members(list: seq<Id>): (members: set<Id>)
    ensures forall u: Id :: u in members <==> u in list
  {
    set u | u in list
  }

  /** The nodes in `done` have lost unit `t`; those without another one are gone. */
  ghost predicate Released(strings: seq<string>, nodes0: map<Id, Node>, fwd0: map<Id, seq<Id>>, t: Id, done: set<Id>,
                           nodes: map<Id, Node>, byName: map<Id, seq<Id>>, fwd: map<Id, seq<Id>>)
  {
    ByNameOk(strings, nodes, byName) && MapsReleased(nodes0, fwd0, t, done, nodes, fwd)
  }

  ghost predicate MapsReleased(nodes0: map<Id, Node>, fwd0: map<Id, seq<Id>>, t: Id, done: set<Id>,
                               nodes: map<Id, Node>, fwd: map<Id, seq<Id>>)
  {
    && (forall u: Id :: Image(fwd, u) == if u in done then Erased(Image(fwd0, u), t) else Image(fwd0, u))
    && (forall u :: u in fwd ==> fwd[u] != [])
    && (forall u :: u in nodes <==> u in nodes0 && (u in done ==> Erased(Image(fwd0, u), t) != []))
    && (forall u :: u in nodes ==> nodes[u] == nodes0[u])
  }

  lemma MapsStep(nodes0: map<Id, Node>, fwd0: map<Id, seq<Id>>, t: Id, done: set<Id>,
                 nodes: map<Id, Node>, fwd: map<Id, seq<Id>>, u: Id)
    requires MapsReleased(nodes0, fwd0, t, done, nodes, fwd) && u in nodes0 && t in Image(fwd0, u)
    ensures u in fwd ==> u in nodes
    ensures var rest := Erased(Image(fwd, u), t); var dies := u in fwd && rest == [];
      MapsReleased(nodes0, fwd0, t, done + {u}, if dies then nodes - {u} else nodes,
                   if u !in fwd then fwd else if dies then fwd - {u} else fwd[u := rest])
  {
    hide Erased;
    var rest := Erased(Image(fwd, u), t);
    if u in done {
      ErasedAbsent(Image(fwd, u), t);
      assert done + {u} == done;
      assert u in fwd ==> fwd[u := rest] == fwd;
    }
  }

  lemma NothingReleased(strings: seq<string>, ids: map<string, Id>, nodes: map<Id, Node>, byName: map<Id, seq<Id>>,
                        units: Relation, log: set<(string, string)>, t: Id)
    requires Ok(strings, ids, nodes, byName, units, log)
    ensures Released(strings, nodes, units.fwd, t, {}, nodes, byName, units.fwd)
  {
    hide ByNameOk, RelationOk;
  }

  lemma UnnamedOk(strings: seq<string>, ids: map<string, Id>, nodes: map<Id, Node>, byName: map<Id, seq<Id>>, u: Id)
    requires InternerOk(strings, ids) && ByNameOk(strings, nodes, byName) && u in nodes
    requires nodes[u].qualifiedName in strings
    ensures ByNameOk(strings, nodes - {u}, Unnamed(ids, byName, nodes[u], u))
  {
    var d :| 0 <= d < |strings| && strings[d] == nodes[u].qualifiedName;
    assert ids[strings[d]] == d;
    var byName' := Unnamed(ids, byName, nodes[u], u);
    assert NamedAt(strings, nodes, byName, d);
    assert d in byName;
    forall e: Id ensures Distinct(Image(byName', e)) && NamedAt(strings, nodes - {u}, byName', e) {
      assert Distinct(Image(byName, e)) && NamedAt(strings, nodes, byName, e);
      assert Image(byName', e) == if e == d then Erased(Image(byName, d), u) else Image(byName, e);
      if e != d && e < |strings| {
        assert strings[e] != strings[d];
      }
    }
  }

  lemma ReleasedStep(strings: seq<string>, ids: map<string, Id>, nodes0: map<Id, Node>, byName0: map<Id, seq<Id>>,
                     units: Relation, log: set<(string, string)>, t: Id, done: set<Id>,
                     nodes: map<Id, Node>, byName: map<Id, seq<Id>>, fwd: map<Id, seq<Id>>, u: Id)
    requires Ok(strings, ids, nodes0, byName0, units, log) && u in Image(units.rev, t)
    requires Released(strings, nodes0, units.fwd, t, done, nodes, byName, fwd)
    ensures u in fwd ==> u in nodes
    ensures var rest := Erased(Image(fwd, u), t); var dies := u in fwd && rest == [];
      Released(strings, nodes0, units.fwd, t, done + {u}, if dies then nodes - {u} else nodes,
               if dies then Unnamed(ids, byName, nodes[u], u) else byName,
               if u !in fwd then fwd else if dies then fwd - {u} else fwd[u := rest])
  {
    hide ByNameOk, InternerOk, Unnamed, MapsReleased, Erased;
    ListedUnit(strings, ids, nodes0, byName0, units, log, t, u);
    MapsStep(nodes0, units.fwd, t, done, nodes, fwd, u);
    if u in fwd && Erased(Image(fwd, u), t) == [] {
      SameNode(nodes0, units.fwd, t, done, nodes, fwd, u);
      UnnamedOk(strings, ids, nodes, byName, u);
    }
  }

  lemma SameNode(nodes0: map<Id, Node>, fwd0: map<Id, seq<Id>>, t: Id, done: set<Id>,
                 nodes: map<Id, Node>, fwd: map<Id, seq<Id>>, u: Id)
    requires MapsReleased(nodes0, fwd0, t, done, nodes, fwd) && u in nodes
    ensures u in nodes0 && nodes[u] == nodes0[u]
  {
  }

  lemma ListedUnit(strings: seq<string>, ids: map<string, Id>, nodes: map<Id, Node>, byName: map<Id, seq<Id>>,
                   units: Relation, log: set<(string, string)>, t: Id, u: Id)
    requires Ok(strings, ids, nodes, byName, units, log) && u in Image(units.rev, t)
    ensures u in nodes && t in Image(units.fwd, u) && InternerOk(strings, ids) && nodes[u].qualifiedName in strings
  {
    Transposes(units, strings, log);
    assert Related(units.rev, t, u) && Related(units.fwd, u, t);
    hide RelationOk, ByNameOk, InternerOk;
  }

  lemma UnitErased(strings: seq<string>, nodes0: map<Id, Node>, units: Relation, t: Id, nodes: map<Id, Node>,
                   fwd: map<Id, seq<Id>>)
    requires NodesOk(strings, nodes0) && OnlyNodes(nodes0, units.fwd) && Transposed(units)
    requires MapsReleased(nodes0, units.fwd, t, Members(Image(units.rev, t)), nodes, fwd)
    ensures forall u: Id :: Image(fwd, u) == Erased(Image(units.fwd, u), t)
    ensures OnlyNodes(nodes, fwd) && NodesOk(strings, nodes)
  {
    hide Erased, Transposed, Members;
    forall u: Id ensures Image(fwd, u) == Erased(Image(units.fwd, u), t) {
      ErasedAt(nodes0, units, t, nodes, fwd, u);
    }
    forall u | u in fwd ensures u in nodes {
      assert Image(fwd, u)[0] in Image(fwd, u) && Image(fwd, u)[0] in Image(units.fwd, u);
    }
  }

  lemma ErasedAt(nodes0: map<Id, Node>, units: Relation, t: Id, nodes: map<Id, Node>, fwd: map<Id, seq<Id>>, u: Id)
    requires Transposed(units) && MapsReleased(nodes0, units.fwd, t, Members(Image(units.rev, t)), nodes, fwd)
    ensures Image(fwd, u) == Erased(Image(units.fwd, u), t)
  {
    if u !in Image(units.rev, t) {
      assert !Related(units.rev, t, u) && !Related(units.fwd, u, t);
      ErasedAbsent(Image(units.fwd, u), t);
    }
  }

  /** With the unit's list gone too the tables are in order again. */
  lemma AllReleased(strings: seq<string>, ids: map<string, Id>, nodes0: map<Id, Node>, byName0: map<Id, seq<Id>>,
                    units: Relation, log: set<(string, string)>, t: Id,
                    nodes: map<Id, Node>, byName: map<Id, seq<Id>>, fwd: map<Id, seq<Id>>)
    requires Ok(strings, ids, nodes0, byName0, units, log) && t < |strings|
    requires Released(strings, nodes0, units.fwd, t, Members(Image(units.rev, t)), nodes, byName, fwd)
    ensures Ok(strings, ids, nodes, byName, Relation(fwd, units.rev - {t}), Remaining(log, {strings[t]}))
    ensures TableOf(ids, nodes) == Survivors(TableOf(ids, nodes0), log, {strings[t]})
  {
    hide RelationOk, ByNameOk, TableOf, Survivors, Erased, OnlyNodes, NodesOk;
    Transposes(units, strings, log);
    UnitErased(strings, nodes0, units, t, nodes, fwd);
    InternedOnce(strings, ids);
    hide InternerOk;
    RelationReleased(strings, units, log, t, fwd);
    TableReleased(strings, ids, nodes0, byName0, units, log, t, nodes, fwd);
  }

  lemma RelationReleased(strings: seq<string>, units: Relation, log: set<(string, string)>, t: Id,
                         fwd: map<Id, seq<Id>>)
    requires RelationOk(units, strings, log) && Distinct(strings) && t < |strings|
    requires forall u: Id :: Image(fwd, u) == Erased(Image(units.fwd, u), t)
    ensures RelationOk(Relation(fwd, units.rev - {t}), strings, Remaining(log, {strings[t]}))
  {
    var r := Relation(fwd, units.rev - {t});
    forall a: Id, b: Id ensures Related(r.fwd, a, b) <==> Related(units.fwd, a, b) && b != t {}
    forall a: Id, b: Id ensures Related(r.rev, b, a) <==> Related(units.rev, b, a) && b != t {}
    forall p | p in Remaining(log, {strings[t]}) ensures HasPair(r, strings, p) {
      assert HasPair(units, strings, p);
      var a: Id, b: Id :| PairAt(units, strings, p, a, b);
      assert PairAt(r, strings, p, a, b);
    }
    forall a: Id, b: Id | Related(r.fwd, a, b)
      ensures a < |strings| && b < |strings| && (strings[a], strings[b]) in Remaining(log, {strings[t]})
    {
      assert Related(units.fwd, a, b);
    }
  }

  /** A node has contributors in the tables exactly when it has some in the log. */
  lemma ContributedAt(strings: seq<string>, units: Relation, log: set<(string, string)>, u: Id)
    requires RelationOk(units, strings, log) && Distinct(strings) && u < |strings|
    ensures Image(units.fwd, u) != [] <==> Contributed(log, strings[u])
  {
    if Image(units.fwd, u) != [] {
      assert Related(units.fwd, u, Image(units.fwd, u)[0]);
      assert (strings[u], strings[Image(units.fwd, u)[0]]) in log;
    }
    if tu :| (strings[u], tu) in log {
      assert HasPair(units, strings, (strings[u], tu));
      var a: Id, b: Id :| PairAt(units, strings, (strings[u], tu), a, b);
    }
  }

  /** A node is still there exactly when one of its other units is, or nobody contributed it. */
  lemma StaysAt(strings: seq<string>, units: Relation, log: set<(string, string)>, t: Id, fwd: map<Id, seq<Id>>, u: Id)
    requires RelationOk(units, strings, log) && Distinct(strings) && t < |strings| && u < |strings|
    requires RelationOk(Relation(fwd, units.rev - {t}), strings, Remaining(log, {strings[t]}))
    requires Image(fwd, u) == Erased(Image(units.fwd, u), t)
    ensures (u in Image(units.rev, t) ==> Erased(Image(units.fwd, u), t) != []) <==>
      Stays(log, strings[u], {strings[t]})
  {
    Transposes(units, strings, log);
    ContributedAt(strings, units, log, u);
    ContributedAt(strings, Relation(fwd, units.rev - {t}), Remaining(log, {strings[t]}), u);
    assert Related(units.rev, t, u) <==> Related(units.fwd, u, t);
    hide RelationOk, Contributed, Remaining;
    if u !in Image(units.rev, t) {
      ErasedAbsent(Image(units.fwd, u), t);
    }
  }

  lemma TableReleased(strings: seq<string>, ids: map<string, Id>, nodes0: map<Id, Node>, byName0: map<Id, seq<Id>>,
                      units: Relation, log: set<(string, string)>, t: Id, nodes: map<Id, Node>, fwd: map<Id, seq<Id>>)
    requires Ok(strings, ids, nodes0, byName0, units, log) && t < |strings|
    requires RelationOk(Relation(fwd, units.rev - {t}), strings, Remaining(log, {strings[t]}))
    requires forall u: Id :: Image(fwd, u) == Erased(Image(units.fwd, u), t)
    requires forall u :: u in nodes <==>
      u in nodes0 && (u in Image(units.rev, t) ==> Erased(Image(units.fwd, u), t) != [])
    requires forall u :: u in nodes ==> nodes[u] == nodes0[u]
    ensures TableOf(ids, nodes) == Survivors(TableOf(ids, nodes0), log, {strings[t]})
  {
    hide RelationOk, ByNameOk, Erased, Remaining, Stays, Image, NodesOk, OnlyNodes;
    InternedOnce(strings, ids);
    forall s | s in ids && ids[s] in nodes0 ensures ids[s] in nodes <==> Stays(log, s, {strings[t]}) {
      StaysAt(strings, units, log, t, fwd, ids[s]);
    }
  }

  lemma NothingGone(table: Table, log: set<(string, string)>)
    ensures Survivors(table, log, {}) == table && Remaining(log, {}) == log
  {
    assert Remaining(log, {}) == log;
  }

  lemma UnknownUnit(strings: seq<string>, ids: map<string, Id>, nodes: map<Id, Node>, byName: map<Id, seq<Id>>,
                    units: Relation, log: set<(string, string)>, tu: string)
    requires Ok(strings, ids, nodes, byName, units, log) && tu !in ids
    ensures Remaining(log, {tu}) == log && Survivors(TableOf(ids, nodes), log, {tu}) == TableOf(ids, nodes)
  {
    forall p | p in log ensures p.1 != tu {
      assert HasPair(units, strings, p);
    }
    assert Remaining(log, {tu}) == log;
  }

  // ---- what provenance means for nodes ---------------------------------------------------------------

  /** Every node was contributed by some unit that is still there. */
  ghost predicate AllContributed(table: Table, log: set<(string, string)>) {
    forall u :: u in table <==> Contributed(log, u)
  }

  /** Removing units and absorbing a fresh bake leaves exactly the nodes of the units there are
      now, when every node is registered for a unit. */
  lemma RefreshedNodes(table: Table, log: set<(string, string)>, shard: Table, added: set<(string, string)>,
                       gone: set<string>)
    requires AllContributed(table, log) && AllContributed(shard, added)
    ensures AllContributed(Joined(Survivors(table, log, gone), shard), Remaining(log, gone) + added)
  {
    var after := Remaining(log, gone) + added;
    forall u ensures Contributed(after, u) <==> Contributed(Remaining(log, gone), u) || Contributed(added, u) {
      if tu :| (u, tu) in after {
        assert (u, tu) in Remaining(log, gone) || (u, tu) in added;
      }
      if tu :| (u, tu) in Remaining(log, gone) {
        assert (u, tu) in after;
      }
      if tu :| (u, tu) in added {
        assert (u, tu) in after;
      }
    }
    forall u | Contributed(Remaining(log, gone), u) ensures Contributed(log, u) {
      var tu :| (u, tu) in Remaining(log, gone);
      assert (u, tu) in log;
    }
    hide Contributed, Remaining;
  }

  /** addNode keeps that, if it names a unit. */
  lemma ContributedNode(table: Table, log: set<(string, string)>, node: Node, tu: string)
    requires AllContributed(table, log)
    ensures AllContributed(Told(table, node), log + {(node.usr, tu)})
  {
    forall u ensures Contributed(log + {(node.usr, tu)}, u) <==> Contributed(log, u) || u == node.usr {
      if t :| (u, t) in log {
        assert (u, t) in log + {(node.usr, tu)};
      }
      assert (node.usr, tu) in log + {(node.usr, tu)};
    }
    hide Contributed;
  }

  lemma NamesGrow(strings: seq<string>, strings': seq<string>, nodes: map<Id, Node>, byName: map<Id, seq<Id>>)
    requires NodesOk(strings, nodes) && ByNameOk(strings, nodes, byName) && strings <= strings' && Distinct(strings')
    ensures NodesOk(strings', nodes) && ByNameOk(strings', nodes, byName)
  {
    forall d: Id ensures Distinct(Image(byName, d)) && NamedAt(strings', nodes, byName, d) {
      assert NamedAt(strings, nodes, byName, d);
      forall u: Id ensures u in Image(byName, d) <==>
        u in nodes && d < |strings'| && nodes[u].qualifiedName == strings'[d] {
        if u in nodes && |strings| <= d < |strings'| {
          var e :| 0 <= e < |strings| && strings[e] == nodes[u].qualifiedName;
          assert strings'[e] == strings[e];
        }
      }
    }
  }
}

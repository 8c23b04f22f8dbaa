/** What a node is told to be, over any number of registrations and merges: flags add up, each
    text is the last that was not empty, the display name the first
    (src/callgraph/CallGraph.cpp:78-105, 604-616). */
module Tellings {

  datatype Node = Node(usr: string, qualifiedName: string, file: string, line: nat, isEntryPoint: bool,
                       isVirtual: bool, enclosingClass: string)

  /** A node known before and told again: non-empty fields overwrite, flags add up, the display
      name stays. */
  function Backfilled(known: Node, told: Node): Node {
    known.(file := if told.file != "" then told.file else known.file,
           line := if told.line != 0 then told.line else known.line,
           isEntryPoint := known.isEntryPoint || told.isEntryPoint,
           isVirtual := known.isVirtual || told.isVirtual,
           enclosingClass := if told.enclosingClass != "" then told.enclosingClass else known.enclosingClass)
  }

  /** A node without a usr goes by its display name. */
  function Keyed(node: Node): Node {
    if node.usr == "" then node.(usr := node.qualifiedName) else node
  }

  type Table = map<string, Node>

  function Told(table: Table, node: Node): Table {
    table[node.usr := if node.usr in table then Backfilled(table[node.usr], node) else node]
  }

  /** Two tables merged node by node. */
  function Joined(a: Table, b: Table): Table {
    map u | u in a.Keys + b.Keys :: if u !in b then a[u] else if u !in a then b[u] else Backfilled(a[u], b[u])
  }

  /** What was told of each usr that has a node, in order. */
  type History = map<string, seq<Node>>

  const FILE: Node -> string := (n: Node) => n.file
  const LINE: Node -> nat := (n: Node) => n.line
  const CLASS: Node -> string := (n: Node) => n.enclosingClass
  const ENTRY: Node -> bool := (n: Node) => n.isEntryPoint
  const VIRTUAL: Node -> bool := (n: Node) => n.isVirtual

  ghost predicate Gives<T(!new)>(told: seq<Node>, field: Node -> T, none: T, k: int) {
    0 <= k < |told| && field(told[k]) != none
  }

  /** A field is what the last telling gives that gives it at all. */
  ghost predicate LastGiven<T(!new)>(told: seq<Node>, field: Node -> T, none: T, x: T) {
    && ((forall k :: !Gives(told, field, none, k)) ==> x == none)
    && forall k :: Gives(told, field, none, k) && (forall j :: k < j ==> !Gives(told, field, none, j)) ==>
         x == field(told[k])
  }

  ghost predicate SomeTold(told: seq<Node>, flag: Node -> bool) {
    exists k :: 0 <= k < |told| && flag(told[k])
  }

  /** All that a node is, from its tellings. */
  ghost predicate SumsUp(told: seq<Node>, n: Node) {
    && told != [] && (forall k :: 0 <= k < |told| ==> told[k].usr == n.usr)
    && n.qualifiedName == told[0].qualifiedName
    && (n.isEntryPoint <==> SomeTold(told, ENTRY)) && (n.isVirtual <==> SomeTold(told, VIRTUAL))
    && LastGiven(told, FILE, "", n.file) && LastGiven(told, LINE, 0, n.line)
    && LastGiven(told, CLASS, "", n.enclosingClass)
  }

  /** There is a node for each usr told of, and it sums up its tellings. */
  ghost predicate TableSumsUp(told: History, table: Table) {
    table.Keys == told.Keys && forall u :: u in table ==> table[u].usr == u && SumsUp(told[u], table[u])
  }

  /** Two histories one after the other. */
  ghost function Followed(a: History, b: History): History {
    map u | u in a.Keys + b.Keys :: (if u in a then a[u] else []) + (if u in b then b[u] else [])
  }

  // ---- more tellings ---------------------------------------------------------------------------------

  lemma {:induction false} LastGiver<T(!new)>(told: seq<Node>, field: Node -> T, none: T, k: int) returns (last: int)
    requires Gives(told, field, none, k)
    ensures Gives(told, field, none, last) && forall j :: last < j ==> !Gives(told, field, none, j)
    decreases |told| - k
  {
    if j :| k < j && Gives(told, field, none, j) {
      last := LastGiver(told, field, none, j);
    } else {
      last := k;
    }
  }

  lemma GivesIn<T(!new)>(a: seq<Node>, b: seq<Node>, field: Node -> T, none: T, k: int)
    ensures Gives(a + b, field, none, k) <==> Gives(a, field, none, k) || Gives(b, field, none, k - |a|)
    ensures Gives(a, field, none, k) ==> k < |a| && (a + b)[k] == a[k]
    ensures Gives(b, field, none, k - |a|) ==> (a + b)[k] == b[k - |a|]
  {
  }

  lemma OnlyLast<T(!new)>(told: seq<Node>, field: Node -> T, none: T, last: int)
    requires Gives(told, field, none, last) && forall j :: last < j ==> !Gives(told, field, none, j)
    ensures LastGiven(told, field, none, field(told[last]))
  {
    forall k | Gives(told, field, none, k) && (forall j :: k < j ==> !Gives(told, field, none, j)) ensures k == last {
      if k < last {
        assert false;
      }
    }
  }

  /** Behind more tellings a field is what they give, or what it was. */
  lemma FieldJoins<T(!new)>(a: seq<Node>, b: seq<Node>, field: Node -> T, none: T, x: T, y: T)
    requires LastGiven(a, field, none, x) && LastGiven(b, field, none, y)
    ensures LastGiven(a + b, field, none, if y != none then y else x)
  {
    forall k ensures Gives(a + b, field, none, k) <==> Gives(a, field, none, k) || Gives(b, field, none, k - |a|) {
      GivesIn(a, b, field, none, k);
    }
    if k :| Gives(b, field, none, k) {
      var last := LastGiver(b, field, none, k);
      BehindB(a, b, field, none, last);
    } else if k :| Gives(a, field, none, k) {
      var last := LastGiver(a, field, none, k);
      NoneInB(a, b, field, none, last);
    }
  }

  lemma BehindB<T(!new)>(a: seq<Node>, b: seq<Node>, field: Node -> T, none: T, last: int)
    requires Gives(b, field, none, last) && forall j :: last < j ==> !Gives(b, field, none, j)
    ensures LastGiven(a + b, field, none, field(b[last])) && field(b[last]) != none
  {
    hide LastGiven;
    var at := last + |a|;
    GivesIn(a, b, field, none, at);
    assert field(b[last]) != none && last >= 0;
    hide Gives;
    forall j | at < j ensures !Gives(a + b, field, none, j) {
      GivesIn(a, b, field, none, j);
      assert !Gives(b, field, none, j - |a|);
    }
    OnlyLast(a + b, field, none, at);
  }

  lemma NoneInB<T(!new)>(a: seq<Node>, b: seq<Node>, field: Node -> T, none: T, last: int)
    requires Gives(a, field, none, last) && forall j :: last < j ==> !Gives(a, field, none, j)
    requires forall k :: !Gives(b, field, none, k)
    ensures LastGiven(a + b, field, none, field(a[last]))
  {
    GivesIn(a, b, field, none, last);
    forall j | last < j ensures !Gives(a + b, field, none, j) {
      GivesIn(a, b, field, none, j);
    }
    OnlyLast(a + b, field, none, last);
  }

  lemma FlagJoins(a: seq<Node>, b: seq<Node>, flag: Node -> bool)
    ensures SomeTold(a + b, flag) <==> SomeTold(a, flag) || SomeTold(b, flag)
  {
    if k :| 0 <= k < |a| && flag(a[k]) {
      assert (a + b)[k] == a[k];
    }
    if k :| 0 <= k < |b| && flag(b[k]) {
      assert (a + b)[k + |a|] == b[k];
    }
  }

  /** A node known before and told more: it sums up all of it. */
  lemma BothSumUp(a: seq<Node>, b: seq<Node>, x: Node, y: Node)
    requires x.usr == y.usr && SumsUp(a, x) && SumsUp(b, y)
    ensures SumsUp(a + b, Backfilled(x, y)) && Backfilled(x, y).usr == x.usr
  {
    hide SomeTold, LastGiven;
    FlagJoins(a, b, ENTRY);
    FlagJoins(a, b, VIRTUAL);
    FieldJoins(a, b, FILE, "", x.file, y.file);
    FieldJoins(a, b, LINE, 0, x.line, y.line);
    FieldJoins(a, b, CLASS, "", x.enclosingClass, y.enclosingClass);
  }

  // ---- the tables -----------------------------------------------------------------------------------------

  /** Merged tables sum up the tellings of both. */
  lemma JoinedSumsUp(a: History, b: History, x: Table, y: Table)
    requires TableSumsUp(a, x) && TableSumsUp(b, y)
    ensures TableSumsUp(Followed(a, b), Joined(x, y))
  {
    hide SumsUp;
    var told, z := Followed(a, b), Joined(x, y);
    forall u | u in z ensures z[u].usr == u && SumsUp(told[u], z[u]) {
      if u in x && u in y {
        BothSumUp(a[u], b[u], x[u], y[u]);
      } else {
        assert told[u] == if u in a then a[u] else b[u];
      }
    }
  }

  lemma OneTelling(n: Node)
    ensures SumsUp([n], n)
  {
    if n.file != "" { assert Gives([n], FILE, "", 0); }
    if n.line != 0 { assert Gives([n], LINE, 0, 0); }
    if n.enclosingClass != "" { assert Gives([n], CLASS, "", 0); }
    assert [n][0] == n;
    if n.isEntryPoint { assert ENTRY([n][0]); }
    if n.isVirtual { assert VIRTUAL([n][0]); }
  }

  lemma JoinedOne(table: Table, n: Node)
    ensures Joined(table, map[n.usr := n]) == Told(table, n)
  {
  }

  /** One more telling. */
  lemma ToldSumsUp(told: History, table: Table, n: Node)
    requires TableSumsUp(told, table)
    ensures TableSumsUp(Followed(told, map[n.usr := [n]]), Told(table, n))
  {
    OneTelling(n);
    JoinedOne(table, n);
    hide SumsUp, Joined, Told;
    JoinedSumsUp(told, map[n.usr := [n]], table, map[n.usr := n]);
  }
}

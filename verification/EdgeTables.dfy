/** The edge tables of a call graph and what ties them to the registration log
    (include/vycor/callgraph/CallGraph.h:228-366). */
module EdgeTables {
  import opened EdgeTypes
  import opened Sequences
  import opened Registrations

  /** A stored edge: the dedup key has every field but the reference count, zero references
      mark a tombstone. */
  datatype StoredEdge = StoredEdge(key: EdgeRef, refs: nat)

  /** The interner's strings, the slots, the dedup index, the two adjacency maps and the
      slots registered by each translation unit. */
  datatype Tables = Tables(strings: seq<string>, edges: seq<StoredEdge>, index: map<EdgeRef, nat>,
                           out: map<Id, seq<nat>>, inn: map<Id, seq<nat>>, tus: map<Id, seq<nat>>)

  datatype End = CallerEnd | CalleeEnd

  function EndOf(k: EdgeRef, end: End): Id {
    if end.CallerEnd? then k.caller else k.callee
  }

  function Adjacency(t: Tables, end: End): map<Id, seq<nat>> {
    if end.CallerEnd? then t.out else t.inn
  }

  function Slots(m: map<Id, seq<nat>>, k: Id): seq<nat> {
    if k in m then m[k] else []
  }

  predicate Live(t: Tables, i: int) {
    0 <= i < |t.edges| && t.edges[i].refs > 0
  }

  predicate KeyIn(k: EdgeRef, n: nat) {
    k.caller < n && k.callee < n && k.callSite < n
  }

  /** The edge in string space. */
  function Name(strings: seq<string>, k: EdgeRef): EdgeName
    requires KeyIn(k, |strings|)
  {
    EdgeName(strings[k.caller], strings[k.callee], strings[k.callSite], k.kind, k.confidence,
             k.execContext, k.indirectionDepth)
  }

  lemma NameInjective(strings: seq<string>, a: EdgeRef, b: EdgeRef)
    requires Distinct(strings) && KeyIn(a, |strings|) && KeyIn(b, |strings|)
    requires Name(strings, a) == Name(strings, b)
    ensures a == b
  {
  }

  // ---- the invariant -----------------------------------------------------------------------

  /** The interner never stores a string twice, and every slot is about interned strings. */
  ghost predicate StringsOk(t: Tables) {
    Distinct(t.strings) && forall i :: 0 <= i < |t.edges| ==> KeyIn(t.edges[i].key, |t.strings|)
  }

  /** The dedup index holds exactly the keys of the live slots. */
  ghost predicate IndexOk(t: Tables) {
    && (forall k :: k in t.index ==> Live(t, t.index[k]) && t.edges[t.index[k]].key == k)
    && (forall i :: Live(t, i) ==> t.edges[i].key in t.index && t.index[t.edges[i].key] == i)
  }

  /** A live slot's count is the number of registrations of its edge, and every registered
      edge has a live slot. */
  ghost predicate RefsOk(t: Tables, regs: seq<Registration>)
    requires StringsOk(t)
  {
    && (forall i :: Live(t, i) ==> t.edges[i].refs == Count(regs, Name(t.strings, t.edges[i].key)))
    && (forall r :: r in regs ==> HasSlot(t, r.edge))
  }

  ghost predicate HasSlot(t: Tables, edge: EdgeName)
    requires StringsOk(t)
  {
    exists i :: Live(t, i) && Name(t.strings, t.edges[i].key) == edge
  }

  /** A translation unit's slot list names its registrations, one entry each. */
  ghost predicate TusOk(t: Tables, regs: seq<Registration>)
    requires StringsOk(t)
  {
    && (forall u :: u in t.tus ==> u < |t.strings| && t.strings[u] != "")
    && (forall u, i :: i in Slots(t.tus, u) ==> Live(t, i))
    && (forall u: Id, i: nat :: u < |t.strings| && t.strings[u] != "" && Live(t, i) ==>
          multiset(Slots(t.tus, u))[i] == CountTu(regs, Name(t.strings, t.edges[i].key), t.strings[u]))
    && (forall r :: r in regs && r.tu != "" ==> r.tu in t.strings)
  }

  /** Each slot that is live, or `dead` and not yet scrubbed, occurs once in the list of its
      end, and nothing else occurs. */
  ghost predicate AdjOk(t: Tables, end: End, dead: set<nat>) {
    forall n :: Distinct(Slots(Adjacency(t, end), n)) && Lists(t, end, dead, n)
  }

  ghost predicate Lists(t: Tables, end: End, dead: set<nat>, n: Id) {
    forall i :: i in Slots(Adjacency(t, end), n) <==>
      i < |t.edges| && (Live(t, i) || i in dead) && EndOf(t.edges[i].key, end) == n
  }

  ghost predicate CoreOk(t: Tables, regs: seq<Registration>) {
    StringsOk(t) && IndexOk(t) && RefsOk(t, regs) && TusOk(t, regs)
  }

  /** Everything the edge half of a call graph keeps between calls. */
  ghost predicate TablesOk(t: Tables, regs: seq<Registration>) {
    CoreOk(t, regs) && AdjOk(t, CallerEnd, {}) && AdjOk(t, CalleeEnd, {})
  }

  // ---- interning more strings ------------------------------------------------------------

  ghost predicate Grown(t: Tables, t': Tables) {
    && t.strings <= t'.strings && Distinct(t'.strings)
    && t' == t.(strings := t'.strings)
  }

  lemma GrownRefs(t: Tables, t': Tables, regs: seq<Registration>)
    requires StringsOk(t) && RefsOk(t, regs) && Grown(t, t')
    ensures StringsOk(t') && RefsOk(t', regs)
  {
    forall i | Live(t', i) ensures Name(t'.strings, t'.edges[i].key) == Name(t.strings, t.edges[i].key) {}
    forall r | r in regs ensures HasSlot(t', r.edge) {
      assert HasSlot(t, r.edge);
      var i :| Live(t, i) && Name(t.strings, t.edges[i].key) == r.edge;
      assert Live(t', i);
    }
  }

  lemma GrownTu(t: Tables, t': Tables, regs: seq<Registration>, u: Id, i: nat)
    requires StringsOk(t) && TusOk(t, regs) && Grown(t, t') && StringsOk(t')
    requires u < |t'.strings| && t'.strings[u] != "" && Live(t', i)
    ensures multiset(Slots(t'.tus, u))[i] == CountTu(regs, Name(t'.strings, t'.edges[i].key), t'.strings[u])
  {
    if u < |t.strings| {
      assert Live(t, i) && t'.strings[u] == t.strings[u];
    } else {
      CountTuPositive(regs, Name(t'.strings, t'.edges[i].key), t'.strings[u]);
      assert forall v :: 0 <= v < |t.strings| ==> t'.strings[v] == t.strings[v] != t'.strings[u];
      assert u !in t.tus;
    }
  }

  lemma GrownOk(t: Tables, t': Tables, regs: seq<Registration>)
    requires CoreOk(t, regs) && Grown(t, t')
    ensures CoreOk(t', regs)
  {
    GrownRefs(t, t', regs);
    hide RefsOk, CountTu, Distinct;
    forall u: Id, i: nat | u < |t'.strings| && t'.strings[u] != "" && Live(t', i)
      ensures multiset(Slots(t'.tus, u))[i] == CountTu(regs, Name(t'.strings, t'.edges[i].key), t'.strings[u])
    {
      GrownTu(t, t', regs, u, i);
    }
    assert forall i :: Live(t', i) <==> Live(t, i);
  }

  // ---- addEdge -------------------------------------------------------------------------------

  /** The tables after the dedup probe hit slot `i` or appended it. */
  function Bumped(t: Tables, key: EdgeRef, extra: nat): Tables {
    if key in t.index && t.index[key] < |t.edges| then
      t.(edges := t.edges[t.index[key] := t.edges[t.index[key]].(refs := t.edges[t.index[key]].refs + extra)])
    else
      t.(edges := t.edges + [StoredEdge(key, extra)],
         index := t.index[key := |t.edges|],
         out := t.out[key.caller := Slots(t.out, key.caller) + [|t.edges|]],
         inn := t.inn[key.callee := Slots(t.inn, key.callee) + [|t.edges|]])
  }

  function Tagged(t: Tables, u: Id, i: nat): Tables {
    t.(tus := t.tus[u := Slots(t.tus, u) + [i]])
  }

  lemma BumpedShape(t: Tables, key: EdgeRef, extra: nat)
    requires StringsOk(t) && IndexOk(t) && KeyIn(key, |t.strings|) && extra > 0
    ensures var t' := Bumped(t, key, extra);
      && StringsOk(t') && IndexOk(t') && key in t'.index && |t.edges| <= |t'.edges|
      && (forall i :: Live(t, i) ==> Live(t', i) && t'.edges[i].key == t.edges[i].key)
      && (forall i :: Live(t', i) && t'.edges[i].key != key ==> Live(t, i) && t'.edges[i] == t.edges[i])
      && t'.edges[t'.index[key]].refs == extra + (if key in t.index then t.edges[t.index[key]].refs else 0)
  {
    var t' := Bumped(t, key, extra);
    if key in t.index {
      assert Live(t, t.index[key]);
      assert forall i :: Live(t', i) <==> Live(t, i);
    } else {
      assert forall i :: Live(t', i) <==> Live(t, i) || i == |t.edges|;
    }
  }

  lemma BumpedAdjacency(t: Tables, key: EdgeRef, extra: nat, end: End)
    requires StringsOk(t) && IndexOk(t) && extra > 0 && AdjOk(t, end, {})
    ensures AdjOk(Bumped(t, key, extra), end, {})
  {
    var t' := Bumped(t, key, extra);
    forall n ensures Distinct(Slots(Adjacency(t', end), n)) && Lists(t', end, {}, n) {
      assert Lists(t, end, {}, n) && Distinct(Slots(Adjacency(t, end), n));
      if key in t.index {
        assert Live(t, t.index[key]);
        assert forall i :: Live(t', i) <==> Live(t, i);
      } else {
        assert forall i :: Live(t', i) <==> Live(t, i) || i == |t.edges|;
        assert |t.edges| !in Slots(Adjacency(t, end), n);
      }
    }
  }

  /** `extra` more registrations of one edge: the only count that changes. */
  ghost predicate MoreOf(regs: seq<Registration>, regs': seq<Registration>, edge: EdgeName, extra: nat) {
    && (forall e :: Count(regs', e) == Count(regs, e) + (if e == edge then extra else 0))
    && (forall r :: r in regs' ==> r in regs || r.edge == edge)
  }

  lemma BumpedRefs(t: Tables, key: EdgeRef, extra: nat, regs: seq<Registration>, regs': seq<Registration>)
    requires StringsOk(t) && IndexOk(t) && RefsOk(t, regs) && KeyIn(key, |t.strings|) && extra > 0
    requires MoreOf(regs, regs', Name(t.strings, key), extra)
    ensures StringsOk(Bumped(t, key, extra)) && RefsOk(Bumped(t, key, extra), regs')
  {
    var t' := Bumped(t, key, extra);
    BumpedShape(t, key, extra);
    forall i | Live(t', i)
      ensures t'.edges[i].refs == Count(regs', Name(t'.strings, t'.edges[i].key))
    {
      if t'.edges[i].key != key {
        if Name(t.strings, t'.edges[i].key) == Name(t.strings, key) {
          NameInjective(t.strings, t'.edges[i].key, key);
        }
      } else if key !in t.index {
        NoSlotNoCount(t, key, regs);
      }
    }
    forall r | r in regs' ensures HasSlot(t', r.edge) {
      if r.edge == Name(t.strings, key) {
        assert Live(t', t'.index[key]);
      } else {
        assert HasSlot(t, r.edge);
        var i :| Live(t, i) && Name(t.strings, t.edges[i].key) == r.edge;
        assert Live(t', i);
      }
    }
  }

  /** An edge outside the dedup index was never registered. */
  lemma NoSlotNoCount(t: Tables, key: EdgeRef, regs: seq<Registration>)
    requires StringsOk(t) && IndexOk(t) && RefsOk(t, regs) && KeyIn(key, |t.strings|)
    requires key !in t.index
    ensures Count(regs, Name(t.strings, key)) == 0
  {
    CountPositive(regs, Name(t.strings, key));
    if r :| r in regs && r.edge == Name(t.strings, key) {
      assert HasSlot(t, r.edge);
      var i :| Live(t, i) && Name(t.strings, t.edges[i].key) == r.edge;
      NameInjective(t.strings, t.edges[i].key, key);
    }
  }

  /** The provenance lists know nothing of a fresh slot, and its edge has no registrations. */
  lemma BumpedTus(t: Tables, key: EdgeRef, extra: nat, regs: seq<Registration>)
    requires StringsOk(t) && IndexOk(t) && TusOk(t, regs) && KeyIn(key, |t.strings|) && extra > 0
    requires key !in t.index ==> Count(regs, Name(t.strings, key)) == 0
    ensures StringsOk(Bumped(t, key, extra)) && TusOk(Bumped(t, key, extra), regs)
  {
    var t' := Bumped(t, key, extra);
    BumpedShape(t, key, extra);
    forall u: Id, i: nat | u < |t'.strings| && t'.strings[u] != "" && Live(t', i)
      ensures multiset(Slots(t'.tus, u))[i] == CountTu(regs, Name(t'.strings, t'.edges[i].key), t'.strings[u])
    {
      if !Live(t, i) {
        assert i !in Slots(t.tus, u);
        CountTuAtMostCount(regs, Name(t.strings, key), t.strings[u]);
      }
    }
  }

  lemma TaggedAt(t: Tables, regs: seq<Registration>, u: Id, i: nat, v: Id, j: nat)
    requires StringsOk(t) && i < |t.edges| && j < |t.edges| && u < |t.strings| && v < |t.strings|
    requires t.edges[i].key == t.edges[j].key ==> i == j
    requires multiset(Slots(t.tus, v))[j] == CountTu(regs, Name(t.strings, t.edges[j].key), t.strings[v])
    ensures multiset(Slots(Tagged(t, u, i).tus, v))[j]
         == CountTu(regs + [Registration(Name(t.strings, t.edges[i].key), t.strings[u])],
           Name(t.strings, t.edges[j].key), t.strings[v])
  {
    CountTuOne(regs, Registration(Name(t.strings, t.edges[i].key), t.strings[u]), Name(t.strings, t.edges[j].key),
      t.strings[v]);
    if Name(t.strings, t.edges[i].key) == Name(t.strings, t.edges[j].key) {
      NameInjective(t.strings, t.edges[i].key, t.edges[j].key);
    }
  }

  lemma TaggedOk(t: Tables, regs: seq<Registration>, regs': seq<Registration>, u: Id, i: nat)
    requires StringsOk(t) && IndexOk(t) && TusOk(t, regs) && Live(t, i) && u < |t.strings| && t.strings[u] != ""
    requires regs' == regs + [Registration(Name(t.strings, t.edges[i].key), t.strings[u])]
    ensures StringsOk(Tagged(t, u, i)) && TusOk(Tagged(t, u, i), regs')
  {
    var t' := Tagged(t, u, i);
    forall v: Id, j: nat | v < |t.strings| && t.strings[v] != "" && Live(t', j)
      ensures multiset(Slots(t'.tus, v))[j] == CountTu(regs', Name(t.strings, t.edges[j].key), t.strings[v])
    {
      TaggedAt(t, regs, u, i, v, j);
    }
    forall v, j | j in Slots(t'.tus, v) ensures Live(t', j) {
      assert j == i || j in Slots(t.tus, v);
    }
  }

  /** Logs that agree on every tagged count are the same to the provenance lists. */
  lemma TusSame(t: Tables, regs: seq<Registration>, regs': seq<Registration>)
    requires StringsOk(t) && TusOk(t, regs)
    requires forall e, u :: u != "" ==> CountTu(regs', e, u) == CountTu(regs, e, u)
    requires forall r :: r in regs' && r.tu != "" ==> r.tu in t.strings
    ensures TusOk(t, regs')
  {
  }

  /** addEdge keeps the invariant and logs one registration. */
  lemma AddedOk(t: Tables, regs: seq<Registration>, key: EdgeRef, tu: string, u: Id)
    requires TablesOk(t, regs) && KeyIn(key, |t.strings|)
    requires tu != "" ==> u < |t.strings| && t.strings[u] == tu
    ensures var bumped := Bumped(t, key, 1);
      key in bumped.index &&
      TablesOk(if tu == "" then bumped else Tagged(bumped, u, bumped.index[key]),
               regs + [Registration(Name(t.strings, key), tu)])
  {
    var bumped, r := Bumped(t, key, 1), Registration(Name(t.strings, key), tu);
    BumpedShape(t, key, 1);
    BumpedAdjacency(t, key, 1, CallerEnd);
    BumpedAdjacency(t, key, 1, CalleeEnd);
    forall e ensures Count(regs + [r], e) == Count(regs, e) + (if e == r.edge then 1 else 0) {
      CountOne(regs, r, e);
    }
    BumpedRefs(t, key, 1, regs, regs + [r]);
    if key !in t.index {
      NoSlotNoCount(t, key, regs);
    }
    BumpedTus(t, key, 1, regs);
    if tu == "" {
      forall e, v | v != "" ensures CountTu(regs + [r], e, v) == CountTu(regs, e, v) {
        CountTuOne(regs, r, e, v);
      }
      TusSame(bumped, regs, regs + [r]);
    } else {
      TaggedOk(bumped, regs, regs + [r], u, bumped.index[key]);
      SameEdgesOk(bumped, Tagged(bumped, u, bumped.index[key]), regs + [r]);
    }
  }

  lemma SameAdjacency(t: Tables, t': Tables, end: End, dead: set<nat>)
    requires AdjOk(t, end, dead)
    requires t'.edges == t.edges && t'.out == t.out && t'.inn == t.inn
    ensures AdjOk(t', end, dead)
  {
    forall n ensures Distinct(Slots(Adjacency(t', end), n)) && Lists(t', end, dead, n) {
      assert Distinct(Slots(Adjacency(t, end), n)) && Lists(t, end, dead, n);
    }
  }

  /** The provenance lists play no part in the rest of the invariant. */
  lemma SameEdgesOk(t: Tables, t': Tables, regs: seq<Registration>)
    requires StringsOk(t) && IndexOk(t) && RefsOk(t, regs) && AdjOk(t, CallerEnd, {}) && AdjOk(t, CalleeEnd, {})
    requires t' == t.(tus := t'.tus)
    ensures StringsOk(t') && IndexOk(t') && RefsOk(t', regs) && AdjOk(t', CallerEnd, {}) && AdjOk(t', CalleeEnd, {})
  {
    assert forall i :: Live(t', i) <==> Live(t, i);
    forall r | r in regs ensures HasSlot(t', r.edge) {
      assert HasSlot(t, r.edge);
      var i :| Live(t, i) && Name(t.strings, t.edges[i].key) == r.edge;
      assert Live(t', i);
    }
    SameAdjacency(t, t', CallerEnd, {});
    SameAdjacency(t, t', CalleeEnd, {});
  }

  // ---- removeTUs ---------------------------------------------------------------------------

  /** `t` after releasing each slot as often as `m` says: counts go down, keys whose count
      reaches zero leave the index, everything else stays. */
  ghost predicate Released(t0: Tables, t: Tables, m: multiset<nat>) {
    && t == t0.(edges := t.edges, index := t.index, tus := t.tus)
    && |t.edges| == |t0.edges|
    && (forall i :: 0 <= i < |t.edges| ==>
          t.edges[i].key == t0.edges[i].key && t.edges[i].refs == t0.edges[i].refs - m[i])
    && (forall k :: k in t.index <==> k in t0.index && Live(t, t0.index[k]))
    && (forall k :: k in t.index ==> t.index[k] == t0.index[k])
  }

  /** Releasing slot `i` once. */
  function Released1(t: Tables, i: nat): Tables
    requires Live(t, i)
  {
    var edges := t.edges[i := t.edges[i].(refs := t.edges[i].refs - 1)];
    t.(edges := edges, index := if edges[i].refs > 0 then t.index else t.index - {t.edges[i].key})
  }

  lemma ReleasedStep(t0: Tables, t: Tables, m: multiset<nat>, i: nat)
    requires IndexOk(t0) && Released(t0, t, m) && Live(t, i)
    ensures Released(t0, Released1(t, i), m + multiset{i})
  {
    var t' := Released1(t, i);
    assert t0.edges[i].key in t0.index && t0.index[t0.edges[i].key] == i;
    forall k ensures k in t'.index <==> k in t0.index && Live(t', t0.index[k]) {
      if k in t0.index {
        assert t0.edges[t0.index[k]].key == k;
      }
    }
  }

  /** After the release a slot's count is again the number of its registrations. */
  lemma ReleasedCount(t0: Tables, t: Tables, u: Id, regs: seq<Registration>, i: nat)
    requires StringsOk(t0) && RefsOk(t0, regs) && TusOk(t0, regs) && u in t0.tus
    requires Released(t0, t, multiset(t0.tus[u])) && Live(t0, i)
    ensures t.edges[i].refs == Count(Without(regs, {t0.strings[u]}), Name(t0.strings, t0.edges[i].key))
  {
    WithoutOne(regs, t0.strings[u], Name(t0.strings, t0.edges[i].key));
    assert multiset(Slots(t0.tus, u))[i] == CountTu(regs, Name(t0.strings, t0.edges[i].key), t0.strings[u]);
  }

  /** A registration that stays keeps its slot alive. */
  lemma ReleasedSlot(t0: Tables, t: Tables, u: Id, regs: seq<Registration>, i: nat, r: Registration)
    requires StringsOk(t0) && RefsOk(t0, regs) && TusOk(t0, regs) && u in t0.tus
    requires Released(t0, t, multiset(t0.tus[u])) && Live(t0, i)
    requires r in Without(regs, {t0.strings[u]}) && r.edge == Name(t0.strings, t0.edges[i].key)
    ensures Live(t, i)
  {
    CountPositive(Without(regs, {t0.strings[u]}), r.edge);
    ReleasedCount(t0, t, u, regs, i);
  }

  lemma ReleasedRefs(t0: Tables, t: Tables, u: Id, regs: seq<Registration>)
    requires StringsOk(t0) && RefsOk(t0, regs) && TusOk(t0, regs) && u in t0.tus
    requires Released(t0, t, multiset(t0.tus[u]))
    ensures StringsOk(t) && RefsOk(t, Without(regs, {t0.strings[u]}))
  {
    var regs' := Without(regs, {t0.strings[u]});
    forall i | Live(t, i) ensures t.edges[i].refs == Count(regs', Name(t.strings, t.edges[i].key)) {
      ReleasedCount(t0, t, u, regs, i);
    }
    forall r | r in regs' ensures HasSlot(t, r.edge) {
      WithoutMember(regs, {t0.strings[u]}, r);
      assert HasSlot(t0, r.edge);
      var i :| Live(t0, i) && Name(t0.strings, t0.edges[i].key) == r.edge;
      ReleasedSlot(t0, t, u, regs, i, r);
    }
  }

  lemma ReleasedTuCount(t0: Tables, t: Tables, u: Id, regs: seq<Registration>, v: Id, i: nat)
    requires StringsOk(t0) && TusOk(t0, regs) && u in t0.tus && Live(t0, i)
    requires t.tus == t0.tus - {u} && v < |t0.strings| && t0.strings[v] != ""
    ensures multiset(Slots(t.tus, v))[i]
         == CountTu(Without(regs, {t0.strings[u]}), Name(t0.strings, t0.edges[i].key), t0.strings[v])
  {
    WithoutTu(regs, t0.strings[u], Name(t0.strings, t0.edges[i].key), t0.strings[v]);
    if t0.strings[v] == t0.strings[u] {
      assert v == u;
    } else {
      assert Slots(t.tus, v) == Slots(t0.tus, v);
    }
  }

  lemma ReleasedTus(t0: Tables, t: Tables, u: Id, regs: seq<Registration>)
    requires StringsOk(t0) && RefsOk(t0, regs) && TusOk(t0, regs) && u in t0.tus
    requires Released(t0, t, multiset(t0.tus[u])) && t.tus == t0.tus - {u}
    ensures StringsOk(t) && TusOk(t, Without(regs, {t0.strings[u]}))
  {
    var regs' := Without(regs, {t0.strings[u]});
    forall v: Id, i: nat | v < |t.strings| && t.strings[v] != "" && Live(t, i)
      ensures multiset(Slots(t.tus, v))[i] == CountTu(regs', Name(t.strings, t.edges[i].key), t.strings[v])
    {
      ReleasedTuCount(t0, t, u, regs, v, i);
    }
    forall v: Id, i: nat | i in Slots(t.tus, v) ensures Live(t, i) {
      assert v != u && i in Slots(t0.tus, v) && Live(t0, i);
      ReleasedTuCount(t0, t, u, regs, v, i);
      CountTuAtMostCount(regs', Name(t0.strings, t0.edges[i].key), t0.strings[v]);
      ReleasedCount(t0, t, u, regs, i);
    }
    forall r | r in regs' && r.tu != "" ensures r.tu in t.strings {
      WithoutMember(regs, {t0.strings[u]}, r);
    }
  }

  lemma ReleasedOk(t0: Tables, t: Tables, u: Id, regs: seq<Registration>)
    requires CoreOk(t0, regs) && u in t0.tus
    requires Released(t0, t, multiset(t0.tus[u])) && t.tus == t0.tus - {u}
    ensures CoreOk(t, Without(regs, {t0.strings[u]}))
  {
    ReleasedRefs(t0, t, u, regs);
    ReleasedTus(t0, t, u, regs);
    forall i | Live(t, i) ensures t.edges[i].key in t.index && t.index[t.edges[i].key] == i {
      assert Live(t0, i);
    }
  }

  /** A unit that registered something has a slot list. */
  lemma HasList(t: Tables, regs: seq<Registration>, r: Registration)
    requires StringsOk(t) && RefsOk(t, regs) && TusOk(t, regs) && r in regs && r.tu != ""
    ensures exists u :: u in t.tus && t.strings[u] == r.tu
  {
    hide Count, Distinct;
    assert r.tu in t.strings;
    var u :| 0 <= u < |t.strings| && t.strings[u] == r.tu;
    assert HasSlot(t, r.edge);
    var i :| Live(t, i) && Name(t.strings, t.edges[i].key) == r.edge;
    CountTuPositive(regs, r.edge, r.tu);
    assert r == Registration(r.edge, r.tu);
    assert multiset(Slots(t.tus, u))[i] > 0;
  }

  /** A translation unit without a slot list registered nothing. */
  lemma NothingToRelease(t: Tables, regs: seq<Registration>, tu: string)
    requires StringsOk(t) && RefsOk(t, regs) && TusOk(t, regs)
    requires forall u :: u in t.tus ==> t.strings[u] != tu
    ensures Without(regs, {tu}) == regs
  {
    hide RefsOk, TusOk, Without;
    forall r | r in regs ensures r.tu == "" || r.tu !in {tu} {
      if r.tu == tu && tu != "" {
        HasList(t, regs, r);
      }
    }
    WithoutNothing(regs, {tu});
  }

  /** Enough registrations are left for every entry of a slot list. */
  lemma ListWithinRefs(t: Tables, regs: seq<Registration>, u: Id, i: nat)
    requires StringsOk(t) && RefsOk(t, regs) && TusOk(t, regs) && u in t.tus && i in t.tus[u]
    ensures Live(t, i) && multiset(t.tus[u])[i] <= t.edges[i].refs
  {
    assert i in Slots(t.tus, u) && Live(t, i);
    CountTuAtMostCount(regs, Name(t.strings, t.edges[i].key), t.strings[u]);
  }

  /** The slots that lost their last registration between two states. */
  ghost predicate Died(t0: Tables, t: Tables, dead0: set<nat>, dead: set<nat>) {
    |t.edges| == |t0.edges| && forall i :: i in dead <==> i in dead0 || (Live(t0, i) && !Live(t, i))
  }

  lemma DiedAdjacency(t0: Tables, t: Tables, end: End, dead0: set<nat>, dead: set<nat>)
    requires AdjOk(t0, end, dead0) && Died(t0, t, dead0, dead)
    requires t.out == t0.out && t.inn == t0.inn
    requires forall i :: 0 <= i < |t.edges| ==> t.edges[i].key == t0.edges[i].key && t.edges[i].refs <= t0.edges[i].refs
    ensures AdjOk(t, end, dead)
  {
    forall n ensures Distinct(Slots(Adjacency(t, end), n)) && Lists(t, end, dead, n) {
      assert Distinct(Slots(Adjacency(t0, end), n)) && Lists(t0, end, dead0, n);
    }
  }

  /** An entry of a slot list is still live after the entries before it were released. */
  lemma EntryIsLive(t0: Tables, t: Tables, regs: seq<Registration>, u: Id, j: nat)
    requires StringsOk(t0) && RefsOk(t0, regs) && TusOk(t0, regs) && u in t0.tus && j < |t0.tus[u]|
    requires Released(t0, t, multiset(t0.tus[u][..j]))
    ensures Live(t, t0.tus[u][j])
  {
    var list := t0.tus[u];
    ListWithinRefs(t0, regs, u, list[j]);
    assert list == list[..j] + [list[j]] + list[j + 1..];
  }

  /** A list without its dead entries. */
  function Scrubbed(list: seq<nat>, dead: set<nat>): seq<nat> {
    if list == [] then []
    else Scrubbed(list[..|list| - 1], dead) + (if list[|list| - 1] in dead then [] else [list[|list| - 1]])
  }

  lemma {:induction false} ScrubbedMember(list: seq<nat>, dead: set<nat>)
    ensures forall i :: i in Scrubbed(list, dead) <==> i in list && i !in dead
    ensures Distinct(list) ==> Distinct(Scrubbed(list, dead))
  {
    if list != [] {
      ScrubbedMember(list[..|list| - 1], dead);
      assert list == list[..|list| - 1] + [list[|list| - 1]];
    }
  }

  /** `adj'` is `adj` with the lists of the affected nodes scrubbed. */
  ghost predicate ScrubbedAt(adj: map<Id, seq<nat>>, adj': map<Id, seq<nat>>, affected: set<Id>, dead: set<nat>) {
    forall n :: Slots(adj', n) == if n in affected then Scrubbed(Slots(adj, n), dead) else Slots(adj, n)
  }

  lemma ScrubbedOk(t: Tables, t': Tables, end: End, affected: set<Id>, dead: set<nat>)
    requires AdjOk(t, end, dead) && t'.edges == t.edges
    requires ScrubbedAt(Adjacency(t, end), Adjacency(t', end), affected, dead)
    requires forall i :: i in dead ==> i < |t.edges| && !Live(t, i) && EndOf(t.edges[i].key, end) in affected
    ensures AdjOk(t', end, {})
  {
    forall n ensures Distinct(Slots(Adjacency(t', end), n)) && Lists(t', end, {}, n) {
      assert Distinct(Slots(Adjacency(t, end), n)) && Lists(t, end, dead, n);
      ScrubbedMember(Slots(Adjacency(t, end), n), dead);
    }
  }

  /** The adjacency maps play no part in the rest of the invariant. */
  lemma SameCore(t: Tables, t': Tables, regs: seq<Registration>)
    requires CoreOk(t, regs) && t' == t.(out := t'.out, inn := t'.inn)
    ensures CoreOk(t', regs)
  {
    assert forall i :: Live(t', i) <==> Live(t, i);
    forall r | r in regs ensures HasSlot(t', r.edge) {
      assert HasSlot(t, r.edge);
      var i :| Live(t, i) && Name(t.strings, t.edges[i].key) == r.edge;
      assert Live(t', i);
    }
  }
}

/** What the call graph is told: one registration per addEdge call, in string space
    (include/vycor/callgraph/CallGraph.h:94-106, 210-222). A graph's edges and reference
    counts are a function of this log. */
module Registrations {
  import opened EdgeTypes

  /** An edge by its strings: everything that makes two registrations the same edge. */
  datatype EdgeName = EdgeName(caller: string, callee: string, callSite: string, kind: EdgeKind,
                               confidence: Confidence, execContext: ExecutionContext,
                               indirectionDepth: nat)

  /** One addEdge call; the empty string stands for an untagged one. */
  datatype Registration = Registration(edge: EdgeName, tu: string)

  /** How often an edge was registered. */
  ghost function Count(regs: seq<Registration>, edge: EdgeName): nat {
    if regs == [] then 0
    else Count(regs[..|regs| - 1], edge) + (if regs[|regs| - 1].edge == edge then 1 else 0)
  }

  /** How often an edge was registered by one translation unit. */
  ghost function CountTu(regs: seq<Registration>, edge: EdgeName, tu: string): nat {
    if regs == [] then 0
    else CountTu(regs[..|regs| - 1], edge, tu) + (if regs[|regs| - 1] == Registration(edge, tu) then 1 else 0)
  }

  /** The log without the registrations of the given translation units; untagged
      registrations belong to none. */
  ghost function Without(regs: seq<Registration>, tus: set<string>): seq<Registration> {
    if regs == [] then []
    else
      var last := regs[|regs| - 1];
      Without(regs[..|regs| - 1], tus) + (if last.tu in tus && last.tu != "" then [] else [last])
  }

  lemma CountOne(regs: seq<Registration>, r: Registration, edge: EdgeName)
    ensures Count(regs + [r], edge) == Count(regs, edge) + (if r.edge == edge then 1 else 0)
  {
    assert (regs + [r])[..|regs|] == regs;
  }

  lemma CountTuOne(regs: seq<Registration>, r: Registration, edge: EdgeName, tu: string)
    ensures CountTu(regs + [r], edge, tu) == CountTu(regs, edge, tu) + (if r == Registration(edge, tu) then 1 else 0)
  {
    assert (regs + [r])[..|regs|] == regs;
  }

  lemma {:induction false} CountConcat(a: seq<Registration>, b: seq<Registration>, edge: EdgeName)
    ensures Count(a + b, edge) == Count(a, edge) + Count(b, edge)
  {
    if b == [] {
      assert a + b == a;
    } else {
      CountConcat(a, b[..|b| - 1], edge);
      assert a + b == (a + b[..|b| - 1]) + [b[|b| - 1]];
      CountOne(a + b[..|b| - 1], b[|b| - 1], edge);
    }
  }

  lemma {:induction false} CountTuConcat(a: seq<Registration>, b: seq<Registration>, edge: EdgeName, tu: string)
    ensures CountTu(a + b, edge, tu) == CountTu(a, edge, tu) + CountTu(b, edge, tu)
  {
    if b == [] {
      assert a + b == a;
    } else {
      CountTuConcat(a, b[..|b| - 1], edge, tu);
      assert a + b == (a + b[..|b| - 1]) + [b[|b| - 1]];
      CountTuOne(a + b[..|b| - 1], b[|b| - 1], edge, tu);
    }
  }

  lemma {:induction false} CountTuAtMostCount(regs: seq<Registration>, edge: EdgeName, tu: string)
    ensures CountTu(regs, edge, tu) <= Count(regs, edge)
  {
    if regs != [] {
      CountTuAtMostCount(regs[..|regs| - 1], edge, tu);
    }
  }

  lemma {:induction false} CountPositive(regs: seq<Registration>, edge: EdgeName)
    ensures Count(regs, edge) > 0 <==> exists r :: r in regs && r.edge == edge
  {
    if regs != [] {
      CountPositive(regs[..|regs| - 1], edge);
      assert regs == regs[..|regs| - 1] + [regs[|regs| - 1]];
    }
  }

  lemma {:induction false} CountTuPositive(regs: seq<Registration>, edge: EdgeName, tu: string)
    ensures CountTu(regs, edge, tu) > 0 <==> Registration(edge, tu) in regs
  {
    if regs != [] {
      CountTuPositive(regs[..|regs| - 1], edge, tu);
      assert regs == regs[..|regs| - 1] + [regs[|regs| - 1]];
    }
  }

  /** Dropping one translation unit releases exactly its own registrations. */
  lemma {:induction false} WithoutOne(regs: seq<Registration>, tu: string, edge: EdgeName)
    requires tu != ""
    ensures Count(Without(regs, {tu}), edge) == Count(regs, edge) - CountTu(regs, edge, tu)
  {
    if regs != [] {
      var init, last := regs[..|regs| - 1], regs[|regs| - 1];
      WithoutOne(init, tu, edge);
      CountOne(Without(init, {tu}), last, edge);
      assert Without(init, {tu}) + [] == Without(init, {tu});
    }
  }

  lemma {:induction false} WithoutTu(regs: seq<Registration>, tu: string, edge: EdgeName, other: string)
    requires tu != ""
    ensures CountTu(Without(regs, {tu}), edge, other) == if other == tu then 0 else CountTu(regs, edge, other)
  {
    if regs != [] {
      var init, last := regs[..|regs| - 1], regs[|regs| - 1];
      WithoutTu(init, tu, edge, other);
      CountTuOne(Without(init, {tu}), last, edge, other);
      assert Without(init, {tu}) + [] == Without(init, {tu});
    }
  }

  lemma {:induction false} WithoutMember(regs: seq<Registration>, tus: set<string>, r: Registration)
    ensures r in Without(regs, tus) <==> r in regs && (r.tu == "" || r.tu !in tus)
  {
    if regs != [] {
      WithoutMember(regs[..|regs| - 1], tus, r);
      assert regs == regs[..|regs| - 1] + [regs[|regs| - 1]];
    }
  }

  lemma {:induction false} WithoutNothing(regs: seq<Registration>, tus: set<string>)
    requires forall r :: r in regs ==> r.tu == "" || r.tu !in tus
    ensures Without(regs, tus) == regs
  {
    if regs != [] {
      assert regs == regs[..|regs| - 1] + [regs[|regs| - 1]];
      WithoutNothing(regs[..|regs| - 1], tus);
    }
  }

  lemma WithoutAppend(regs: seq<Registration>, r: Registration, tus: set<string>)
    ensures Without(regs + [r], tus) == Without(regs, tus) + (if r.tu in tus && r.tu != "" then [] else [r])
  {
    assert (regs + [r])[..|regs|] == regs;
  }

  /** Removing a set at once is removing its members in turn. */
  lemma {:induction false} WithoutTwice(regs: seq<Registration>, a: set<string>, b: set<string>)
    ensures Without(Without(regs, a), b) == Without(regs, a + b)
  {
    if regs != [] {
      var init, last := regs[..|regs| - 1], regs[|regs| - 1];
      WithoutTwice(init, a, b);
      WithoutAppend(Without(init, a), last, b);
      assert Without(init, a) + [] == Without(init, a);
    }
  }

  lemma {:induction false} WithoutConcat(a: seq<Registration>, b: seq<Registration>, tus: set<string>)
    ensures Without(a + b, tus) == Without(a, tus) + Without(b, tus)
  {
    if b == [] {
      assert a + b == a;
    } else {
      var init, last := b[..|b| - 1], b[|b| - 1];
      WithoutConcat(a, init, tus);
      assert a + b == (a + init) + [last];
      WithoutAppend(a + init, last, tus);
    }
  }

  /** The log of the given edges only. */
  ghost function Only(regs: seq<Registration>, edges: set<EdgeName>): seq<Registration> {
    if regs == [] then []
    else
      var last := regs[|regs| - 1];
      Only(regs[..|regs| - 1], edges) + (if last.edge in edges then [last] else [])
  }

  lemma {:induction false} CountOnly(regs: seq<Registration>, edges: set<EdgeName>, edge: EdgeName)
    ensures Count(Only(regs, edges), edge) == if edge in edges then Count(regs, edge) else 0
  {
    if regs != [] {
      var init, last := regs[..|regs| - 1], regs[|regs| - 1];
      CountOnly(init, edges, edge);
      CountOne(Only(init, edges), last, edge);
      assert Only(init, edges) + [] == Only(init, edges);
    }
  }

  lemma {:induction false} OnlyMember(regs: seq<Registration>, edges: set<EdgeName>, r: Registration)
    ensures r in Only(regs, edges) <==> r in regs && r.edge in edges
  {
    if regs != [] {
      OnlyMember(regs[..|regs| - 1], edges, r);
      assert regs == regs[..|regs| - 1] + [regs[|regs| - 1]];
    }
  }

  lemma {:induction false} OnlyAll(regs: seq<Registration>, edges: set<EdgeName>)
    requires forall r :: r in regs ==> r.edge in edges
    ensures Only(regs, edges) == regs
  {
    if regs != [] {
      assert regs == regs[..|regs| - 1] + [regs[|regs| - 1]];
      OnlyAll(regs[..|regs| - 1], edges);
    }
  }

  lemma {:induction false} OnlyNone(regs: seq<Registration>)
    ensures Only(regs, {}) == []
  {
    if regs != [] {
      OnlyNone(regs[..|regs| - 1]);
    }
  }

  /** Two sets that agree on the log's own translation units remove the same. */
  lemma {:induction false} WithoutSame(regs: seq<Registration>, a: set<string>, b: set<string>)
    requires forall r :: r in regs && r.tu != "" ==> (r.tu in a <==> r.tu in b)
    ensures Without(regs, a) == Without(regs, b)
  {
    if regs != [] {
      assert regs == regs[..|regs| - 1] + [regs[|regs| - 1]];
      WithoutSame(regs[..|regs| - 1], a, b);
    }
  }

  /** Removal, translation unit by translation unit: nothing of the removed, all of the others. */
  lemma {:induction false} WithoutTus(regs: seq<Registration>, tus: set<string>, edge: EdgeName, tu: string)
    ensures CountTu(Without(regs, tus), edge, tu) == if tu in tus && tu != "" then 0 else CountTu(regs, edge, tu)
  {
    if regs != [] {
      var init, last := regs[..|regs| - 1], regs[|regs| - 1];
      WithoutTus(init, tus, edge, tu);
      assert regs == init + [last];
      hide CountTu, Without;
      CountTuOne(init, last, edge, tu);
      CountTuOne(Without(init, tus), last, edge, tu);
      WithoutAppend(init, last, tus);
      assert Without(init, tus) + [] == Without(init, tus);
    } else {
      assert Without(regs, tus) == [];
    }
  }

  /** The same registrations in any order. */
  ghost predicate SameLog(a: seq<Registration>, b: seq<Registration>) {
    forall edge, tu :: CountTu(a, edge, tu) == CountTu(b, edge, tu)
  }

  lemma CountTuSplit(regs: seq<Registration>, j: nat, edge: EdgeName, tu: string)
    requires j < |regs|
    ensures CountTu(regs, edge, tu) == CountTu(regs[..j] + regs[j + 1..], edge, tu)
      + (if regs[j] == Registration(edge, tu) then 1 else 0)
    ensures Count(regs, edge) == Count(regs[..j] + regs[j + 1..], edge) + (if regs[j].edge == edge then 1 else 0)
  {
    assert regs == (regs[..j] + [regs[j]]) + regs[j + 1..];
    CountTuConcat(regs[..j] + [regs[j]], regs[j + 1..], edge, tu);
    CountTuOne(regs[..j], regs[j], edge, tu);
    CountTuConcat(regs[..j], regs[j + 1..], edge, tu);
    CountConcat(regs[..j] + [regs[j]], regs[j + 1..], edge);
    CountOne(regs[..j], regs[j], edge);
    CountConcat(regs[..j], regs[j + 1..], edge);
  }

  /** Reference counts do not depend on the order of registration. */
  lemma {:induction false} SameLogSameCount(a: seq<Registration>, b: seq<Registration>, edge: EdgeName)
    requires SameLog(a, b)
    ensures Count(a, edge) == Count(b, edge)
    decreases |a|
  {
    hide CountTu, Count, SameLog;
    if a == [] {
      EmptyLog(a, b, edge);
    } else {
      var x, init := a[|a| - 1], a[..|a| - 1];
      CountTuPositive(a, x.edge, x.tu);
      CountTuPositive(b, x.edge, x.tu);
      SameLogAt(a, b, x.edge, x.tu);
      var j :| 0 <= j < |b| && b[j] == x;
      var b' := b[..j] + b[j + 1..];
      assert a[..|a| - 1] + a[|a| - 1 + 1..] == init;
      forall e, t ensures CountTu(init, e, t) == CountTu(b', e, t) {
        CountTuSplit(a, |a| - 1, e, t);
        CountTuSplit(b, j, e, t);
        SameLogAt(a, b, e, t);
      }
      SameLogMade(init, b');
      SameLogSameCount(init, b', edge);
      CountTuSplit(a, |a| - 1, edge, "");
      CountTuSplit(b, j, edge, "");
    }
  }

  lemma SameLogAt(a: seq<Registration>, b: seq<Registration>, edge: EdgeName, tu: string)
    requires SameLog(a, b)
    ensures CountTu(a, edge, tu) == CountTu(b, edge, tu)
  {
  }

  lemma SameLogMade(a: seq<Registration>, b: seq<Registration>)
    requires forall edge, tu :: CountTu(a, edge, tu) == CountTu(b, edge, tu)
    ensures SameLog(a, b)
  {
  }

  lemma EmptyLog(a: seq<Registration>, b: seq<Registration>, edge: EdgeName)
    requires SameLog(a, b) && a == []
    ensures Count(a, edge) == Count(b, edge)
  {
    if b != [] {
      CountTuPositive(b, b[0].edge, b[0].tu);
      SameLogAt(a, b, b[0].edge, b[0].tu);
    }
  }
}

/** The exception-escape report: which noexcept functions are diagnosed, in which order, and what
    each diagnostic shows (src/anneal/Analyzer.cpp:1106-1175). */
module EscapeReport {
  import opened ExceptionEscape

  // ---- what is reported ---------------------------------------------------------------------------------------

  /** The root with its location, the function that throws, and the chain printed. */
  datatype Escape = Escape(root: string, filePath: string, line: nat, hit: string, chain: seq<string>)

  ghost predicate Diagnosed(diagnostics: seq<Escape>, n: string) {
    exists d :: d in diagnostics && d.root == n
  }

  ghost predicate Reported(facts: Facts, entries: seq<Summary>, n: string) {
    exists e :: e in entries && e.qualifiedName == n && e.isNoexcept && Escapes(facts, e)
  }

  lemma OneMoreEntry(facts: Facts, entries: seq<Summary>, e: Summary, n: string)
    ensures Reported(facts, entries + [e], n) <==>
      Reported(facts, entries, n) || (e.qualifiedName == n && e.isNoexcept && Escapes(facts, e))
  {
    hide Escapes;
    assert forall x :: x in entries + [e] <==> x in entries || x == e;
  }

  lemma OneMoreDiagnostic(diagnostics: seq<Escape>, d: Escape, n: string)
    ensures Diagnosed(diagnostics + [d], n) <==> Diagnosed(diagnostics, n) || d.root == n
  {
    assert forall x :: x in diagnostics + [d] <==> x in diagnostics || x == d;
  }

  // ---- the order of the roots ------------------------------------------------------------------------------

  /** Strings compared character by character: negative, zero or positive. */
  function Lex(a: string, b: string): int {
    if a == [] then (if b == [] then 0 else -1)
    else if b == [] then 1
    else if a[0] != b[0] then (if a[0] < b[0] then -1 else 1)
    else Lex(a[1..], b[1..])
  }

  lemma {:induction false} LexOrders(a: string, b: string, c: string)
    ensures Lex(a, b) == 0 <==> a == b
    ensures Lex(b, a) == -Lex(a, b)
    ensures Lex(a, b) <= 0 && Lex(b, c) <= 0 ==> Lex(a, c) <= 0
  {
    if a != [] && b != [] {
      assert a == [a[0]] + a[1..] && b == [b[0]] + b[1..];
      LexOrders(a[1..], b[1..], if c == [] then [] else c[1..]);
    }
  }

  /** By file, line and name. */
  predicate NotAfter(a: Summary, b: Summary) {
    if a.filePath != b.filePath then Lex(a.filePath, b.filePath) < 0
    else if a.line != b.line then a.line < b.line
    else Lex(a.qualifiedName, b.qualifiedName) <= 0
  }

  lemma NotAfterOrders(a: Summary, b: Summary, c: Summary)
    ensures NotAfter(a, b) || NotAfter(b, a)
    ensures NotAfter(a, b) && NotAfter(b, c) ==> NotAfter(a, c)
  {
    LexOrders(a.filePath, b.filePath, c.filePath);
    LexOrders(b.filePath, c.filePath, a.filePath);
    LexOrders(a.filePath, c.filePath, b.filePath);
    LexOrders(a.qualifiedName, b.qualifiedName, c.qualifiedName);
    hide Lex;
  }

  ghost predicate InOrder(roots: seq<Summary>) {
    forall i, j :: 0 <= i < j < |roots| ==> NotAfter(roots[i], roots[j])
  }

  /** One more root at its place. */
  method InsertRoot(roots: seq<Summary>, e: Summary) returns (more: seq<Summary>)
    requires InOrder(roots)
    ensures InOrder(more) && multiset(more) == multiset(roots) + multiset{e}
  {
    hide NotAfter;
    forall a, b, c { NotAfterOrders(a, b, c); }
    var k := |roots|;
    while k > 0 && !NotAfter(roots[k - 1], e)
      invariant 0 <= k <= |roots| && forall j :: k <= j < |roots| ==> NotAfter(e, roots[j])
    {
      k := k - 1;
    }
    assert roots == roots[..k] + roots[k..];
    more := roots[..k] + [e] + roots[k..];
  }

  /** The noexcept entries in report order. */
  method SortedRoots(entries: seq<Summary>) returns (roots: seq<Summary>)
    ensures InOrder(roots)
    ensures forall e :: multiset(roots)[e] == if e.isNoexcept then multiset(entries)[e] else 0
  {
    hide InOrder;
    roots := [];
    assert InOrder(roots) by { EmptyInOrder(); }
    for i := 0 to |entries|
      invariant InOrder(roots)
      invariant forall e :: multiset(roots)[e] == if e.isNoexcept then multiset(entries[..i])[e] else 0
    {
      assert entries[..i + 1] == entries[..i] + [entries[i]];
      if entries[i].isNoexcept {
        roots := InsertRoot(roots, entries[i]);
      }
    }
    assert entries[..|entries|] == entries;
  }

  lemma EmptyInOrder()
    ensures InOrder([])
  {
  }

  /** Entries of different names are roots once each. */
  lemma RootsOnce(entries: seq<Summary>, roots: seq<Summary>)
    requires forall i, j :: 0 <= i < j < |entries| ==> entries[i].qualifiedName != entries[j].qualifiedName
    requires forall e :: multiset(roots)[e] == if e.isNoexcept then multiset(entries)[e] else 0
    ensures forall e :: e in roots <==> e in entries && e.isNoexcept
    ensures forall i, j :: 0 <= i < j < |roots| ==> roots[i].qualifiedName != roots[j].qualifiedName
  {
    forall e ensures e in roots <==> e in entries && e.isNoexcept {
      assert e in roots <==> e in multiset(roots);
      assert e in entries <==> e in multiset(entries);
    }
    forall i, j | 0 <= i < j < |roots| ensures roots[i].qualifiedName != roots[j].qualifiedName {
      assert roots[i] in roots && roots[j] in roots;
      assert roots[i] in entries && roots[j] in entries;
      if roots[i] == roots[j] {
        Twice(roots, i, j);
        Once(entries, roots[i]);
      }
    }
  }

  lemma Twice(s: seq<Summary>, i: nat, j: nat)
    requires i < j < |s| && s[i] == s[j]
    ensures multiset(s)[s[i]] >= 2
  {
    assert s == s[..j] + s[j..];
    assert s[..j][i] == s[i] && s[j..][0] == s[i];
    assert s[i] in multiset(s[..j]) && s[i] in multiset(s[j..]);
  }

  lemma Once(s: seq<Summary>, e: Summary)
    requires forall i, j :: 0 <= i < j < |s| ==> s[i].qualifiedName != s[j].qualifiedName
    ensures multiset(s)[e] <= 1
  {
    if s != [] {
      var init := s[..|s| - 1];
      Once(init, e);
      assert s == init + [s[|s| - 1]];
      if s[|s| - 1] == e {
        assert e !in init;
      }
    }
  }

  /** One string before another: it ends first, or has the smaller character where they first
      differ. */
  ghost predicate StringBefore(a: string, b: string) {
    exists k :: 0 <= k <= |a| && k < |b| && a[..k] == b[..k] && (k == |a| || a[k] < b[k])
  }

  lemma {:induction false} LexIs(a: string, b: string)
    ensures Lex(a, b) < 0 <==> StringBefore(a, b)
  {
    if a != [] && b != [] && a[0] == b[0] {
      LexIs(a[1..], b[1..]);
      BeforeByRest(a, b);
    } else {
      BeforeByFirst(a, b);
    }
  }

  lemma BeforeByFirst(a: string, b: string)
    requires a == [] || b == [] || a[0] != b[0]
    ensures StringBefore(a, b) <==> b != [] && (a == [] || a[0] < b[0])
  {
    assert b != [] ==> a[..0] == b[..0];
    if StringBefore(a, b) {
      var k :| 0 <= k <= |a| && k < |b| && a[..k] == b[..k] && (k == |a| || a[k] < b[k]);
      if k > 0 { SameFirst(a, b, k); }
    }
  }

  lemma SameFirst(a: string, b: string, k: nat)
    requires 0 < k <= |a| && k <= |b| && a[..k] == b[..k]
    ensures a[0] == b[0]
  {
    assert a[..k][0] == b[..k][0];
  }

  lemma BeforeByRest(a: string, b: string)
    requires a != [] && b != [] && a[0] == b[0]
    ensures StringBefore(a, b) <==> StringBefore(a[1..], b[1..])
  {
    if StringBefore(a[1..], b[1..]) {
      var k :| 0 <= k <= |a[1..]| && k < |b[1..]| && a[1..][..k] == b[1..][..k]
        && (k == |a[1..]| || a[1..][k] < b[1..][k]);
      assert a[..k + 1] == [a[0]] + a[1..][..k] && b[..k + 1] == [b[0]] + b[1..][..k];
    }
    if StringBefore(a, b) {
      var k :| 0 <= k <= |a| && k < |b| && a[..k] == b[..k] && (k == |a| || a[k] < b[k]);
      assert a[1..][..k - 1] == a[..k][1..] && b[1..][..k - 1] == b[..k][1..];
    }
  }

  /** Diagnostics come by file, then line, then name. */
  ghost predicate Precedes(a: Escape, b: Escape) {
    || StringBefore(a.filePath, b.filePath)
    || (a.filePath == b.filePath && a.line < b.line)
    || (a.filePath == b.filePath && a.line == b.line && StringBefore(a.root, b.root))
  }

  ghost predicate AllPrecede(diagnostics: seq<Escape>) {
    forall i, j :: 0 <= i < j < |diagnostics| ==> Precedes(diagnostics[i], diagnostics[j])
  }

  ghost predicate Names(d: Escape, root: Summary) {
    d.root == root.qualifiedName && d.filePath == root.filePath && d.line == root.line
  }

  lemma NotAfterPrecedes(a: Summary, b: Summary, d: Escape, e: Escape)
    requires NotAfter(a, b) && a.qualifiedName != b.qualifiedName && Names(d, a) && Names(e, b)
    ensures Precedes(d, e)
  {
    LexIs(a.filePath, b.filePath);
    LexIs(a.qualifiedName, b.qualifiedName);
    LexOrders(a.qualifiedName, b.qualifiedName, b.qualifiedName);
    hide Lex, StringBefore;
  }

  /** The diagnostics stem from the first `i` roots. */
  ghost predicate Stem(roots: seq<Summary>, i: nat, diagnostics: seq<Escape>)
    requires i <= |roots|
  {
    forall d :: d in diagnostics ==> exists j :: 0 <= j < i && Names(d, roots[j])
  }

  lemma OneMoreInOrder(roots: seq<Summary>, i: nat, diagnostics: seq<Escape>, d: Escape)
    requires i < |roots| && InOrder(roots) && AllPrecede(diagnostics) && Stem(roots, i, diagnostics)
    requires forall a, b :: 0 <= a < b < |roots| ==> roots[a].qualifiedName != roots[b].qualifiedName
    requires Names(d, roots[i])
    ensures AllPrecede(diagnostics + [d]) && Stem(roots, i + 1, diagnostics + [d])
  {
    hide NotAfter, Precedes, Names;
    forall k | 0 <= k < |diagnostics| ensures Precedes(diagnostics[k], d) {
      assert diagnostics[k] in diagnostics;
      var j :| 0 <= j < i && Names(diagnostics[k], roots[j]);
      NotAfterPrecedes(roots[j], roots[i], diagnostics[k], d);
    }
    forall x | x in diagnostics + [d] ensures exists j :: 0 <= j < i + 1 && Names(x, roots[j]) {
      if x in diagnostics {
        var j :| 0 <= j < i && Names(x, roots[j]);
      }
    }
  }

  // ---- in terms of the entries told ----------------------------------------------------------------

  ghost predicate IsNoexcept(told: set<Summary>, n: string) {
    exists e :: e in told && e.qualifiedName == n && e.isNoexcept
  }

  ghost predicate ThrowsUncaught(told: set<Summary>, n: string) {
    exists e :: e in told && e.qualifiedName == n && e.hasUncaughtThrow
  }

  ghost predicate CallsUnguarded(told: set<Summary>, n: string, m: string) {
    exists e :: e in told && e.qualifiedName == n && m in e.unguardedCalls
  }

  /** The function calls on outside any try, and an exception from there leaves it. */
  ghost predicate LetsPass(told: set<Summary>, n: string, m: string) {
    CallsUnguarded(told, n, m) && !IsNoexcept(told, n)
  }

  /** At most sixteen unguarded calls, the first by the root and each next one by a function that
      is not noexcept, down to one that throws. */
  ghost predicate CarriesThrow(told: set<Summary>, root: string, chain: seq<string>) {
    && 1 <= |chain| <= 16 && CallsUnguarded(told, root, chain[0])
    && (forall i :: 0 <= i < |chain| - 1 ==> LetsPass(told, chain[i], chain[i + 1]))
    && ThrowsUncaught(told, chain[|chain| - 1])
  }

  ghost predicate CanEscape(told: set<Summary>, n: string) {
    IsNoexcept(told, n) && (ThrowsUncaught(told, n) || exists chain :: CarriesThrow(told, n, chain))
  }

  /** A diagnostic names the site its root was first told with, and shows its own throw or a
      shortest chain to one. */
  ghost predicate Shows(told: set<Summary>, log: seq<Summary>, d: Escape) {
    && FromFirst(d.root, d.filePath, d.line, log)
    && (ThrowsUncaught(told, d.root) ==> d.hit == d.root && d.chain == [d.root])
    && (!ThrowsUncaught(told, d.root) && (forall n :: !CallsUnguarded(told, n, "")) ==>
          && CarriesThrow(told, d.root, d.chain) && d.chain[|d.chain| - 1] == d.hit
          && forall c :: CarriesThrow(told, d.root, c) ==> |d.chain| <= |c|)
  }

  lemma InToldTerms(facts: Facts, told: set<Summary>, n: string)
    requires FactsOf(facts, told)
    ensures n in facts && facts[n].isNoexcept <==> IsNoexcept(told, n)
    ensures n in facts && facts[n].hasUncaughtThrow <==> ThrowsUncaught(told, n)
    ensures forall m :: n in facts && m in facts[n].unguardedCalls <==> CallsUnguarded(told, n, m)
  {
    if n in facts { assert SumsUp(facts[n], told); }
  }

  lemma StepInToldTerms(facts: Facts, told: set<Summary>, n: string, m: string)
    requires FactsOf(facts, told)
    ensures Step(facts, n, m) <==> LetsPass(told, n, m)
  {
    hide SumsUp, IsNoexcept, ThrowsUncaught, CallsUnguarded, FactsOf;
    InToldTerms(facts, told, n);
  }

  lemma ChainInToldTerms(facts: Facts, told: set<Summary>, n: string, chain: seq<string>)
    requires FactsOf(facts, told) && n in facts
    ensures CarriesThrow(told, n, chain) <==>
      |chain| <= MAX_DEPTH && IsChain(facts, facts[n], chain) && Throws(facts, chain[|chain| - 1])
  {
    hide SumsUp, IsNoexcept, ThrowsUncaught, CallsUnguarded, LetsPass, FactsOf, Step;
    if chain != [] {
      InToldTerms(facts, told, n);
      InToldTerms(facts, told, chain[|chain| - 1]);
      forall i | 0 <= i < |chain| - 1
        ensures Step(facts, chain[i], chain[i + 1]) <==> LetsPass(told, chain[i], chain[i + 1])
      {
        StepInToldTerms(facts, told, chain[i], chain[i + 1]);
      }
    }
  }

  lemma EscapeInToldTerms(facts: Facts, told: set<Summary>, n: string)
    requires FactsOf(facts, told)
    ensures CanEscape(told, n) <==> n in facts && facts[n].isNoexcept && Escapes(facts, facts[n])
  {
    hide SumsUp, FactsOf, IsNoexcept, ThrowsUncaught, Step, CallsUnguarded, CarriesThrow, Throws;
    InToldTerms(facts, told, n);
    if n in facts {
      forall chain { ChainInToldTerms(facts, told, n, chain); }
      if exists chain :: CarriesThrow(told, n, chain) {
        var chain :| CarriesThrow(told, n, chain);
        ChainInToldTerms(facts, told, n, chain);
      }
    }
  }

  lemma ExplainedShows(facts: Facts, told: set<Summary>, log: seq<Summary>, d: Escape)
    requires FactsOf(facts, told) && Explained(facts, d)
    requires FromFirst(d.root, facts[d.root].filePath, facts[d.root].line, log)
    ensures Shows(told, log, d)
  {
    hide SumsUp, FactsOf, IsNoexcept, ThrowsUncaught, CallsUnguarded, IsChain, CarriesThrow, FromFirst;
    InToldTerms(facts, told, d.root);
    if !ThrowsUncaught(told, d.root) && forall n :: !CallsUnguarded(told, n, "") {
      forall n { InToldTerms(facts, told, n); }
      assert NoEmptyCalls(facts, facts[d.root]);
      ChainInToldTerms(facts, told, d.root, d.chain);
      forall c | CarriesThrow(told, d.root, c) ensures |d.chain| <= |c| {
        ChainInToldTerms(facts, told, d.root, c);
      }
    }
  }

  // ---- the diagnostics -----------------------------------------------------------------------------------

  /** The diagnostic prints how an exception gets out: the root's own throw, or a chain of
      unguarded calls to the function that throws. */
  ghost predicate Explained(facts: Facts, d: Escape) {
    && d.root in facts && facts[d.root].isNoexcept
    && d.filePath == facts[d.root].filePath && d.line == facts[d.root].line
    && if facts[d.root].hasUncaughtThrow then d.hit == d.root && d.chain == [d.root]
       else NoEmptyCalls(facts, facts[d.root]) ==>
         IsChain(facts, facts[d.root], d.chain) && |d.chain| <= MAX_DEPTH && d.chain[|d.chain| - 1] == d.hit
           && Throws(facts, d.hit) && IsShortest(facts, facts[d.root], |d.chain|)
  }

  /** The diagnostics of the first `i` roots. */
  ghost predicate ReportOf(facts: Facts, roots: seq<Summary>, i: nat, diagnostics: seq<Escape>)
    requires i <= |roots|
  {
    && (Named(facts) ==> forall n :: Diagnosed(diagnostics, n) <==> Reported(facts, roots[..i], n))
    && (Named(facts) ==> forall d :: d in diagnostics ==> Explained(facts, d))
    && AllPrecede(diagnostics) && Stem(roots, i, diagnostics)
  }

  /** The next root has a diagnostic or rightly has none. */
  lemma OneMoreRoot(facts: Facts, roots: seq<Summary>, i: nat, diagnostics: seq<Escape>, d: Escape,
                    diagnostics': seq<Escape>)
    requires i < |roots| && ReportOf(facts, roots, i, diagnostics) && InOrder(roots) && roots[i].isNoexcept
    requires forall a, b :: 0 <= a < b < |roots| ==> roots[a].qualifiedName != roots[b].qualifiedName
    requires Names(d, roots[i]) && diagnostics' == (if d.hit != "" then diagnostics + [d] else diagnostics)
    requires Named(facts) ==> (d.hit != "" <==> Escapes(facts, roots[i]))
    requires d.hit != "" ==> Explained(facts, d)
    ensures ReportOf(facts, roots, i + 1, diagnostics')
  {
    hide Escapes, Reported, Diagnosed, Explained, AllPrecede, Stem, InOrder, Named;
    assert roots[..i + 1] == roots[..i] + [roots[i]];
    OneMoreInOrder(roots, i, diagnostics, d);
    LaterRoot(roots, i, diagnostics);
    if Named(facts) {
      forall n ensures Diagnosed(diagnostics', n) <==> Reported(facts, roots[..i + 1], n) {
        OneMoreEntry(facts, roots[..i], roots[i], n);
        OneMoreDiagnostic(diagnostics, d, n);
      }
    }
  }

  /** The names and sites a report is about are those told. */
  ghost predicate Answers(told: set<Summary>, log: seq<Summary>, diagnostics: seq<Escape>) {
    && (forall n :: Diagnosed(diagnostics, n) <==> CanEscape(told, n))
    && (forall d :: d in diagnostics ==> Shows(told, log, d))
  }

  lemma ReportAnswers(index: GlobalIndex, roots: seq<Summary>, diagnostics: seq<Escape>)
    requires index.Valid() && ReportOf(index.Lookup(), roots, |roots|, diagnostics) && Named(index.Lookup())
    requires forall e :: e in roots <==> e in index.functionSummaries && e.isNoexcept
    ensures Answers(index.told, index.log, diagnostics)
  {
    var facts := index.Lookup();
    index.LookupIsFacts();
    hide index.Valid, FactsOf, Escapes, SumsUp, Reported, Diagnosed, Explained, AllPrecede, Stem, CanEscape, Shows,
         FromFirst, Named;
    assert roots[..|roots|] == roots;
    SameReported(facts, roots, index.functionSummaries);
    forall n ensures Diagnosed(diagnostics, n) <==> CanEscape(index.told, n) {
      EntriesAreFacts(index, n);
      EscapeInToldTerms(facts, index.told, n);
    }
    forall d | d in diagnostics ensures Shows(index.told, index.log, d) {
      ExplainedRoot(facts, d);
      ExplainedShows(facts, index.told, index.log, d);
    }
  }

  /** analyzeExceptionEscape: the noexcept functions from which unguarded calls reach an uncaught
      throw, no others, once each and in order, each with a chain that shows it. */
  method AnalyzeExceptionEscape(index: GlobalIndex) returns (diagnostics: seq<Escape>)
    requires index.Valid()
    ensures (forall e :: e in index.told ==> e.qualifiedName != "") ==>
      Answers(index.told, index.log, diagnostics)
    ensures AllPrecede(diagnostics)
  {
    var facts := index.Lookup();
    index.LookupIsFacts();
    NamedInToldTerms(facts, index.told);
    hide FactsOf, Escapes, SumsUp, Explained, AllPrecede, InOrder, Named, SitesOk, ReportOf, Answers;
    var roots := SortedRoots(index.functionSummaries);
    RootsOnce(index.functionSummaries, roots);
    diagnostics := [];
    NothingReported(facts, roots);
    for i := 0 to |roots|
      invariant ReportOf(facts, roots, i, diagnostics)
    {
      var root := roots[i];
      assert root in roots && root in index.functionSummaries;
      assert root.qualifiedName in facts && facts[root.qualifiedName] == root;
      var hit, chain := Search(facts, root);
      NamedRoot(facts, root);
      ghost var before := diagnostics;
      var d := Escape(root.qualifiedName, root.filePath, root.line, hit, chain);
      if hit != "" {
        Explains(facts, root, hit, chain);
        diagnostics := diagnostics + [d];
      }
      OneMoreRoot(facts, roots, i, before, d, diagnostics);
    }
    Ordered(facts, roots, diagnostics);
    if Named(facts) {
      ReportAnswers(index, roots, diagnostics);
    }
  }

  lemma Ordered(facts: Facts, roots: seq<Summary>, diagnostics: seq<Escape>)
    requires ReportOf(facts, roots, |roots|, diagnostics)
    ensures AllPrecede(diagnostics)
  {
  }

  lemma NamedInToldTerms(facts: Facts, told: set<Summary>)
    requires FactsOf(facts, told)
    ensures (forall e :: e in told ==> e.qualifiedName != "") ==> Named(facts)
  {
    if "" in facts { assert SumsUp(facts[""], told); }
  }

  lemma NamedRoot(facts: Facts, root: Summary)
    requires root.qualifiedName in facts
    ensures Named(facts) ==> root.qualifiedName != "" && !Throws(facts, "")
  {
  }

  lemma LaterRoot(roots: seq<Summary>, i: nat, diagnostics: seq<Escape>)
    requires i < |roots| && Stem(roots, i, diagnostics)
    ensures Stem(roots, i + 1, diagnostics)
  {
    hide Names;
  }

  lemma ExplainedRoot(facts: Facts, d: Escape)
    requires Explained(facts, d)
    ensures d.root in facts
  {
  }

  /** Only noexcept entries are ever reported. */
  lemma SameReported(facts: Facts, roots: seq<Summary>, entries: seq<Summary>)
    requires forall e :: e in roots <==> e in entries && e.isNoexcept
    ensures forall n :: Reported(facts, roots, n) <==> Reported(facts, entries, n)
  {
    hide Escapes;
  }

  lemma Explains(facts: Facts, root: Summary, hit: string, chain: seq<string>)
    requires root.qualifiedName in facts && facts[root.qualifiedName] == root && root.isNoexcept
    requires root.hasUncaughtThrow ==> hit == root.qualifiedName && chain == [hit]
    requires !root.hasUncaughtThrow && NoEmptyCalls(facts, root) ==>
      IsChain(facts, root, chain) && |chain| <= MAX_DEPTH && chain[|chain| - 1] == hit && Throws(facts, hit)
        && IsShortest(facts, root, |chain|)
    ensures Explained(facts, Escape(root.qualifiedName, root.filePath, root.line, hit, chain))
  {
  }

  lemma NothingReported(facts: Facts, roots: seq<Summary>)
    ensures ReportOf(facts, roots, 0, [])
  {
  }

  lemma EntriesAreFacts(index: GlobalIndex, n: string)
    requires index.Valid()
    ensures var facts := index.Lookup();
      Reported(facts, index.functionSummaries, n) <==> n in facts && facts[n].isNoexcept && Escapes(facts, facts[n])
  {
    hide Escapes, SumsUp;
  }
}

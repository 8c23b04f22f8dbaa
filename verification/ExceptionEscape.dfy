/** Exceptions that escape a noexcept function: function summaries merged over translation
    units, and a bounded breadth-first search over unguarded calls
    (src/anneal/GlobalIndex.cpp:270-300, src/anneal/Analyzer.cpp:1106-1175). */
module ExceptionEscape {

  const MAX_DEPTH: nat := 16

  datatype Summary = Summary(qualifiedName: string, filePath: string, line: nat, isNoexcept: bool,
                             hasUncaughtThrow: bool, calledFunctions: seq<string>, unguardedCalls: seq<string>,
                             referencedGlobals: seq<string>)

  type Facts = map<string, Summary>

  // ---- merging ------------------------------------------------------------------------------------

  /** The summary of a name says of each flag and each call whether some entry does. */
  ghost predicate SumsUp(s: Summary, told: set<Summary>) {
    && (exists e :: e in told && e.qualifiedName == s.qualifiedName)
    && (s.isNoexcept <==> exists e :: e in told && e.qualifiedName == s.qualifiedName && e.isNoexcept)
    && (s.hasUncaughtThrow <==> exists e :: e in told && e.qualifiedName == s.qualifiedName && e.hasUncaughtThrow)
    && (forall c :: c in s.unguardedCalls <==>
          exists e :: e in told && e.qualifiedName == s.qualifiedName && c in e.unguardedCalls)
    && (forall c :: c in s.calledFunctions <==>
          exists e :: e in told && e.qualifiedName == s.qualifiedName && c in e.calledFunctions)
    && (forall c :: c in s.referencedGlobals <==>
          exists e :: e in told && e.qualifiedName == s.qualifiedName && c in e.referencedGlobals)
  }

  ghost predicate FactsOf(facts: Facts, told: set<Summary>) {
    && (forall n :: n in facts ==> facts[n].qualifiedName == n && SumsUp(facts[n], told))
    && (forall e :: e in told ==> e.qualifiedName in facts)
  }

  /** The site of a name is the one it was first told with. */
  ghost predicate FromFirst(n: string, filePath: string, line: nat, log: seq<Summary>) {
    exists i :: 0 <= i < |log| && log[i].qualifiedName == n && log[i].filePath == filePath && log[i].line == line
                  && forall j :: 0 <= j < i ==> log[j].qualifiedName != n
  }

  lemma FirstStays(n: string, filePath: string, line: nat, log: seq<Summary>, e: Summary)
    requires FromFirst(n, filePath, line, log)
    ensures FromFirst(n, filePath, line, log + [e])
  {
    var i :| 0 <= i < |log| && log[i].qualifiedName == n && log[i].filePath == filePath && log[i].line == line
      && forall j :: 0 <= j < i ==> log[j].qualifiedName != n;
    assert (log + [e])[i] == log[i];
  }

  lemma FirstTold(log: seq<Summary>, e: Summary)
    requires forall x :: x in log ==> x.qualifiedName != e.qualifiedName
    ensures FromFirst(e.qualifiedName, e.filePath, e.line, log + [e])
  {
    assert (log + [e])[|log|] == e;
  }

  /** What was told, in order, and that it gives each entry its site. */
  ghost predicate SitesOk(entries: seq<Summary>, told: set<Summary>, log: seq<Summary>) {
    && (forall e :: e in told <==> e in log)
    && forall i :: 0 <= i < |entries| ==>
         FromFirst(entries[i].qualifiedName, entries[i].filePath, entries[i].line, log)
  }

  lemma SitesStay(before: seq<Summary>, after: seq<Summary>, told: set<Summary>, log: seq<Summary>, e: Summary)
    requires SitesOk(before, told, log)
    requires (after == before + [e] && forall x :: x in told ==> x.qualifiedName != e.qualifiedName)
      || (exists at, s: Summary :: 0 <= at < |before| && after == before[at := s] && SameSite(s, before[at]))
    ensures SitesOk(after, told + {e}, log + [e])
  {
    hide FromFirst;
    if after == before + [e] && forall x :: x in told ==> x.qualifiedName != e.qualifiedName {
      FirstTold(log, e);
    }
    forall i | 0 <= i < |before|
      ensures FromFirst(before[i].qualifiedName, before[i].filePath, before[i].line, log + [e])
    {
      FirstStays(before[i].qualifiedName, before[i].filePath, before[i].line, log, e);
    }
  }

  predicate SameSite(a: Summary, b: Summary) {
    a.qualifiedName == b.qualifiedName && a.filePath == b.filePath && a.line == b.line
  }

  method MergeNames(into: seq<string>, from: seq<string>) returns (merged: seq<string>)
    ensures into <= merged && forall c :: c in merged <==> c in into || c in from
  {
    merged := into;
    for i := 0 to |from|
      invariant into <= merged
      invariant forall c :: c in merged <==> c in into || c in from[..i]
    {
      assert from[..i + 1] == from[..i] + [from[i]];
      if from[i] !in merged {
        merged := merged + [from[i]];
      }
    }
    assert from[..|from|] == from;
  }

  /** An entry merged into what is known of its name: first site wins, flags and calls add up. */
  method Merge(existing: Summary, entry: Summary, ghost told: set<Summary>) returns (merged: Summary)
    requires existing.qualifiedName == entry.qualifiedName && SumsUp(existing, told)
    ensures merged.qualifiedName == entry.qualifiedName && SumsUp(merged, told + {entry})
    ensures SameSite(merged, existing)
  {
    var called := MergeNames(existing.calledFunctions, entry.calledFunctions);
    var unguarded := MergeNames(existing.unguardedCalls, entry.unguardedCalls);
    var globals := MergeNames(existing.referencedGlobals, entry.referencedGlobals);
    merged := existing.(isNoexcept := existing.isNoexcept || entry.isNoexcept,
                        hasUncaughtThrow := existing.hasUncaughtThrow || entry.hasUncaughtThrow,
                        calledFunctions := called, unguardedCalls := unguarded, referencedGlobals := globals);
    assert entry in told + {entry};
    assert forall e :: e in told + {entry} <==> e in told || e == entry;
  }

  class GlobalIndex {
    var functionSummaries: seq<Summary>
    var functionSummaryByName: map<string, nat>
    ghost var told: set<Summary>
    ghost var log: seq<Summary>

    ghost predicate Valid()
      reads this
    {
      && (forall n :: n in functionSummaryByName ==>
            functionSummaryByName[n] < |functionSummaries|
              && functionSummaries[functionSummaryByName[n]].qualifiedName == n)
      && (forall i :: 0 <= i < |functionSummaries| ==>
            functionSummaries[i].qualifiedName in functionSummaryByName
              && functionSummaryByName[functionSummaries[i].qualifiedName] == i)
      && (forall i :: 0 <= i < |functionSummaries| ==> SumsUp(functionSummaries[i], told))
      && (forall e :: e in told ==> e.qualifiedName in functionSummaryByName)
      && SitesOk(functionSummaries, told, log)
    }

    constructor ()
      ensures Valid() && told == {} && log == []
    {
      functionSummaries, functionSummaryByName, told, log := [], map[], {}, [];
    }

    /** addFunctionSummary. */
    method AddFunctionSummary(entry: Summary)
      requires Valid()
      modifies this
      ensures Valid() && told == old(told) + {entry} && log == old(log) + [entry]
    {
      hide SumsUp, SitesOk;
      ghost var before := functionSummaries;
      if entry.qualifiedName !in functionSummaryByName {
        Alone(entry, told);
        functionSummaryByName := functionSummaryByName[entry.qualifiedName := |functionSummaries|];
        functionSummaries := functionSummaries + [entry];
      } else {
        var at := functionSummaryByName[entry.qualifiedName];
        var merged := Merge(functionSummaries[at], entry, told);
        functionSummaries := functionSummaries[at := merged];
      }
      forall i | 0 <= i < |functionSummaries| && functionSummaries[i].qualifiedName != entry.qualifiedName
        ensures SumsUp(functionSummaries[i], told + {entry})
      {
        Untouched(functionSummaries[i], told, entry);
      }
      SitesStay(before, functionSummaries, told, log, entry);
      told, log := told + {entry}, log + [entry];
    }

    /** findFunctionSummary, for every name. */
    function Lookup(): (facts: Facts)
      requires Valid()
      reads this
    {
      map n | n in functionSummaryByName :: functionSummaries[functionSummaryByName[n]]
    }

    lemma LookupIsFacts()
      requires Valid()
      ensures FactsOf(Lookup(), told)
      ensures forall n :: n in Lookup() ==> FromFirst(n, Lookup()[n].filePath, Lookup()[n].line, log)
    {
      hide SumsUp, FromFirst;
    }
  }

  lemma Alone(entry: Summary, told: set<Summary>)
    requires forall e :: e in told ==> e.qualifiedName != entry.qualifiedName
    ensures SumsUp(entry, told + {entry})
  {
    assert entry in told + {entry};
  }

  lemma Untouched(s: Summary, told: set<Summary>, entry: Summary)
    requires SumsUp(s, told) && entry.qualifiedName != s.qualifiedName
    ensures SumsUp(s, told + {entry})
  {
    assert forall e :: e in told + {entry} && e.qualifiedName == s.qualifiedName <==>
      e in told && e.qualifiedName == s.qualifiedName;
  }

  // ---- escapes ------------------------------------------------------------------------------------------

  predicate Throws(facts: Facts, n: string) {
    n in facts && facts[n].hasUncaughtThrow
  }

  /** An exception thrown below passes through: summarized and not noexcept. */
  predicate Passes(facts: Facts, n: string) {
    n in facts && !facts[n].isNoexcept
  }

  /** A chain of unguarded calls out of a root: each function but the last lets the exception
      of the next pass. */
  ghost predicate IsChain(facts: Facts, root: Summary, chain: seq<string>) {
    && chain != [] && chain[0] in root.unguardedCalls
    && forall i :: 0 <= i < |chain| - 1 ==> Step(facts, chain[i], chain[i + 1])
  }

  ghost predicate Step(facts: Facts, n: string, m: string) {
    Passes(facts, n) && m in facts[n].unguardedCalls
  }

  /** The root throws itself, or at most sixteen unguarded calls reach an uncaught throw. */
  ghost predicate Escapes(facts: Facts, root: Summary) {
    root.hasUncaughtThrow || exists chain ::
      |chain| <= MAX_DEPTH && IsChain(facts, root, chain) && Throws(facts, chain[|chain| - 1])
  }

  /** The same functions with the same flags and calls, in any order and from any sites. */
  ghost predicate SameFacts(a: Facts, b: Facts) {
    && a.Keys == b.Keys
    && forall n :: n in a ==> SameSummary(a[n], b[n])
  }

  ghost predicate SameSummary(a: Summary, b: Summary) {
    && a.isNoexcept == b.isNoexcept && a.hasUncaughtThrow == b.hasUncaughtThrow
    && forall c :: c in a.unguardedCalls <==> c in b.unguardedCalls
  }

  lemma SameEscapes(a: Facts, b: Facts, n: string)
    requires SameFacts(a, b) && n in a
    ensures Escapes(a, a[n]) ==> Escapes(b, b[n])
  {
    assert SameSummary(a[n], b[n]);
    if Escapes(a, a[n]) && !a[n].hasUncaughtThrow {
      var chain :| |chain| <= MAX_DEPTH && IsChain(a, a[n], chain) && Throws(a, chain[|chain| - 1]);
      forall i | 0 <= i < |chain| - 1 ensures Step(b, chain[i], chain[i + 1]) {
        assert Step(a, chain[i], chain[i + 1]) && SameSummary(a[chain[i]], b[chain[i]]);
      }
      assert SameSummary(a[chain[|chain| - 1]], b[chain[|chain| - 1]]);
      assert IsChain(b, b[n], chain);
    }
  }

  lemma SameToldSameFacts(a: Facts, b: Facts, told: set<Summary>)
    requires FactsOf(a, told) && FactsOf(b, told)
    ensures SameFacts(a, b)
  {
    forall n ensures n in a <==> n in b {
      if n in a { assert SumsUp(a[n], told); }
      if n in b { assert SumsUp(b[n], told); }
    }
    forall n | n in a ensures SameSummary(a[n], b[n]) {
      assert SumsUp(a[n], told) && SumsUp(b[n], told);
    }
  }

  /** The verdict on a name does not depend on the order in which summaries were merged. */
  lemma MergeOrderDoesNotMatter(a: Facts, b: Facts, told: set<Summary>, n: string)
    requires FactsOf(a, told) && FactsOf(b, told)
    ensures n in a <==> n in b
    ensures n in a ==> a[n].isNoexcept == b[n].isNoexcept && (Escapes(a, a[n]) <==> Escapes(b, b[n]))
  {
    hide Escapes, SumsUp;
    SameToldSameFacts(a, b, told);
    if n in a {
      SameEscapes(a, b, n);
      assert SameFacts(b, a) by {
        forall m | m in b ensures SameSummary(b[m], a[m]) {
          assert SameSummary(a[m], b[m]);
        }
      }
      SameEscapes(b, a, n);
      assert SameSummary(a[n], b[n]);
    }
  }

  // ---- the search ------------------------------------------------------------------------------------------

  /** What the search has found: who discovered whom, and (for the proof) at what depth. */
  datatype Found = Found(parent: map<string, string>, depths: map<string, nat>)

  /** A discovered function is an unguarded call of the root or of its parent, one level up. */
  ghost predicate Traced(facts: Facts, root: Summary, f: Found, n: string) {
    && n in f.parent && n in f.depths && f.depths[n] < MAX_DEPTH
    && (f.depths[n] == 0 ==> f.parent[n] == "" && n in root.unguardedCalls)
    && (f.depths[n] > 0 ==>
          f.parent[n] in f.depths && f.depths[f.parent[n]] == f.depths[n] - 1 && Step(facts, f.parent[n], n))
  }

  ghost predicate AllTraced(facts: Facts, root: Summary, f: Found) {
    f.parent.Keys == f.depths.Keys && forall n :: n in f.parent ==> Traced(facts, root, f, n)
  }

  /** The first `k` calls of a function are discovered, none deeper than one level down. */
  ghost predicate CallsFound(calls: seq<string>, k: nat, f: Found, depth: nat)
    requires k <= |calls|
  {
    forall i :: 0 <= i < k ==> calls[i] in f.depths && f.depths[calls[i]] <= depth
  }

  /** A function taken from the queue does not throw, and its calls are discovered unless the
      search stops at it. */
  ghost predicate Searched(facts: Facts, f: Found, n: string) {
    && n in f.depths && !Throws(facts, n)
    && (Passes(facts, n) && f.depths[n] + 1 < MAX_DEPTH ==>
          CallsFound(facts[n].unguardedCalls, |facts[n].unguardedCalls|, f, f.depths[n] + 1))
  }

  /** The queue is in order of depth and spans at most two levels. */
  ghost predicate QueueOk(f: Found, queue: seq<(string, nat)>, level: nat) {
    && (forall q :: q in queue ==> q.0 in f.depths && f.depths[q.0] == q.1 && level <= q.1 <= level + 1)
    && (forall i, j :: 0 <= i < j < |queue| ==> queue[i].1 <= queue[j].1)
    && (forall n :: n in f.depths ==> f.depths[n] <= level + 1)
  }

  ghost predicate SearchOk(facts: Facts, root: Summary, f: Found, queue: seq<(string, nat)>, searched: set<string>,
                           level: nat) {
    && AllTraced(facts, root, f) && QueueOk(f, queue, level)
    && (forall n :: n in f.depths ==> n in searched || InQueue(queue, n))
    && (forall n :: n in searched ==> Searched(facts, f, n))
    && CallsFound(root.unguardedCalls, |root.unguardedCalls|, f, 0)
  }

  ghost predicate InQueue(queue: seq<(string, nat)>, n: string) {
    exists i :: 0 <= i < |queue| && queue[i].0 == n
  }

  /** Nothing found is lost or moved. */
  ghost predicate Extends(f: Found, f': Found) {
    forall n :: n in f.depths ==> n in f'.depths && f'.depths[n] == f.depths[n]
  }

  /** Only direct calls of the root were found. */
  ghost predicate AtFirstLevel(f: Found) {
    forall n :: n in f.depths ==> f.depths[n] == 0
  }

  lemma SearchedExtends(facts: Facts, f: Found, f': Found, searched: set<string>)
    requires Extends(f, f') && forall n :: n in searched ==> Searched(facts, f, n)
    ensures forall n :: n in searched ==> Searched(facts, f', n)
  {
    forall n | n in searched ensures Searched(facts, f', n) {
      assert Searched(facts, f, n);
    }
  }

  /** Discovers one call: parent noted and queued, unless known. */
  method Discover(facts: Facts, root: Summary, f: Found, queue: seq<(string, nat)>, callee: string, via: string,
                  depth: nat)
    returns (f': Found, queue': seq<(string, nat)>)
    requires AllTraced(facts, root, f) && depth < MAX_DEPTH
    requires if depth == 0 then
               via == "" && callee in root.unguardedCalls && QueueOk(f, queue, 0) && AtFirstLevel(f)
             else
               via in f.depths && f.depths[via] == depth - 1 && Step(facts, via, callee) && QueueOk(f, queue, depth - 1)
    ensures AllTraced(facts, root, f') && Extends(f, f') && callee in f'.depths && f'.depths[callee] <= depth
    ensures QueueOk(f', queue', if depth == 0 then 0 else depth - 1)
    ensures depth == 0 ==> AtFirstLevel(f')
    ensures NewQueued(f, f', queue') && queue <= queue'
    ensures f'.depths.Keys == f.depths.Keys ==> queue' == queue
  {
    hide AllTraced, Traced, QueueOk, InQueue;
    f', queue' := f, queue;
    KnownCallee(facts, root, f, callee);
    if callee !in f.parent {
      f' := Found(f.parent[callee := via], f.depths[callee := depth]);
      queue' := queue + [(callee, depth)];
      DiscoveredTraced(facts, root, f, f', callee, via, depth);
      DiscoveredQueue(f, f', queue, callee, depth);
    } else if depth > 0 {
      DepthBound(f, queue, depth - 1, callee);
    }
  }

  lemma DepthBound(f: Found, queue: seq<(string, nat)>, level: nat, n: string)
    requires QueueOk(f, queue, level) && n in f.depths
    ensures f.depths[n] <= level + 1
  {
  }

  lemma KnownCallee(facts: Facts, root: Summary, f: Found, callee: string)
    requires AllTraced(facts, root, f)
    ensures callee in f.parent <==> callee in f.depths
  {
    assert callee in f.parent.Keys <==> callee in f.depths.Keys;
  }

  lemma DiscoveredTraced(facts: Facts, root: Summary, f: Found, f': Found, callee: string, via: string, depth: nat)
    requires AllTraced(facts, root, f) && depth < MAX_DEPTH && callee !in f.parent
    requires f' == Found(f.parent[callee := via], f.depths[callee := depth])
    requires if depth == 0 then via == "" && callee in root.unguardedCalls
             else via in f.depths && f.depths[via] == depth - 1 && Step(facts, via, callee)
    ensures AllTraced(facts, root, f')
  {
    hide Step;
    forall n | n in f'.parent ensures Traced(facts, root, f', n) {
      if n != callee {
        assert Traced(facts, root, f, n);
      }
    }
  }

  lemma DiscoveredQueue(f: Found, f': Found, queue: seq<(string, nat)>, callee: string, depth: nat)
    requires callee !in f.depths && f'.depths == f.depths[callee := depth]
    requires if depth == 0 then QueueOk(f, queue, 0) && AtFirstLevel(f) else QueueOk(f, queue, depth - 1)
    ensures QueueOk(f', queue + [(callee, depth)], if depth == 0 then 0 else depth - 1)
    ensures NewQueued(f, f', queue + [(callee, depth)])
  {
    var queue' := queue + [(callee, depth)];
    assert queue'[|queue|].0 == callee;
    forall q | q in queue' ensures q.0 in f'.depths && f'.depths[q.0] == q.1 && q.1 <= depth {
      if q in queue {
        assert q.0 in f.depths;
      }
    }
  }

  /** The unguarded calls of a function the exception passes through. */
  predicate CallsOf(facts: Facts, n: string, calls: seq<string>) {
    Passes(facts, n) && calls == facts[n].unguardedCalls
  }

  /** The unguarded calls of the root, or of a function the exception passes through. */
  method DiscoverAll(facts: Facts, root: Summary, f: Found, queue: seq<(string, nat)>, calls: seq<string>,
                     via: string, depth: nat)
    returns (f': Found, queue': seq<(string, nat)>)
    requires AllTraced(facts, root, f) && depth < MAX_DEPTH
    requires if depth == 0 then
               via == "" && calls == root.unguardedCalls && QueueOk(f, queue, 0) && f.depths == map[]
             else
               CallsOf(facts, via, calls) && via in f.depths && f.depths[via] == depth - 1
               && QueueOk(f, queue, depth - 1)
    ensures AllTraced(facts, root, f') && Extends(f, f') && CallsFound(calls, |calls|, f', depth)
    ensures QueueOk(f', queue', if depth == 0 then 0 else depth - 1)
    ensures NewQueued(f, f', queue') && queue <= queue' && f.depths.Keys <= f'.depths.Keys
    ensures f'.depths.Keys == f.depths.Keys ==> queue' == queue
  {
    hide Traced, QueueOk, AllTraced, InQueue, CallsFound, Extends, Step;
    f', queue' := f, queue;
    NothingFound(calls, f, depth);
    for i := 0 to |calls|
      invariant AllTraced(facts, root, f') && Extends(f, f') && CallsFound(calls, i, f', depth)
      invariant QueueOk(f', queue', if depth == 0 then 0 else depth - 1)
      invariant depth == 0 ==> AtFirstLevel(f')
      invariant NewQueued(f, f', queue')
      invariant queue <= queue' && f.depths.Keys <= f'.depths.Keys
      invariant f'.depths.Keys == f.depths.Keys ==> queue' == queue
    {
      ghost var q0, f0 := queue', f';
      if depth > 0 {
        StepOfCall(facts, via, i);
        ExtendsAt(f, f', via);
      }
      f', queue' := Discover(facts, root, f', queue', calls[i], via, depth);
      OneMoreFound(f, f0, f', q0, queue', calls, i, depth);
      if f'.depths.Keys == f.depths.Keys {
        assert f0.depths.Keys == f.depths.Keys && f'.depths.Keys == f0.depths.Keys;
      }
    }
  }

  ghost predicate NewQueued(f: Found, f': Found, queue: seq<(string, nat)>) {
    forall n :: n in f'.depths && n !in f.depths ==> InQueue(queue, n)
  }

  lemma NothingFound(calls: seq<string>, f: Found, depth: nat)
    ensures CallsFound(calls, 0, f, depth) && Extends(f, f)
  {
  }

  lemma StepOfCall(facts: Facts, n: string, i: nat)
    requires Passes(facts, n) && i < |facts[n].unguardedCalls|
    ensures Step(facts, n, facts[n].unguardedCalls[i])
  {
  }

  lemma ExtendsAt(f: Found, f': Found, n: string)
    requires Extends(f, f') && n in f.depths
    ensures n in f'.depths && f'.depths[n] == f.depths[n]
  {
  }

  lemma OneMoreFound(f: Found, f0: Found, f': Found, q0: seq<(string, nat)>, queue: seq<(string, nat)>,
                     calls: seq<string>, i: nat, depth: nat)
    requires i < |calls| && Extends(f, f0) && Extends(f0, f') && q0 <= queue
    requires CallsFound(calls, i, f0, depth) && calls[i] in f'.depths && f'.depths[calls[i]] <= depth
    requires NewQueued(f, f0, q0) && NewQueued(f0, f', queue)
    ensures Extends(f, f') && CallsFound(calls, i + 1, f', depth) && NewQueued(f, f', queue)
    ensures f0.depths.Keys <= f'.depths.Keys
  {
    forall n | n in f'.depths && n !in f.depths ensures InQueue(queue, n) {
      if n in f0.depths {
        StillQueued(q0, queue, n);
      }
    }
  }

  lemma StillQueued(queue: seq<(string, nat)>, queue': seq<(string, nat)>, n: string)
    requires queue <= queue' && InQueue(queue, n)
    ensures InQueue(queue', n)
  {
    var i :| 0 <= i < |queue| && queue[i].0 == n;
    assert queue'[i].0 == n;
  }

  /** The chain from the root's call down to a discovered function. */
  ghost function ChainTo(facts: Facts, root: Summary, f: Found, n: string): seq<string>
    requires AllTraced(facts, root, f) && n in f.depths
    decreases f.depths[n]
  {
    assert Traced(facts, root, f, n);
    if f.depths[n] == 0 then [n] else ChainTo(facts, root, f, f.parent[n]) + [n]
  }

  lemma {:induction false} ChainToIsChain(facts: Facts, root: Summary, f: Found, n: string)
    requires AllTraced(facts, root, f) && n in f.depths
    ensures var c := ChainTo(facts, root, f, n);
      IsChain(facts, root, c) && |c| == f.depths[n] + 1 <= MAX_DEPTH && c[|c| - 1] == n
    decreases f.depths[n]
  {
    assert Traced(facts, root, f, n);
    if f.depths[n] > 0 {
      var before := ChainTo(facts, root, f, f.parent[n]);
      ChainToIsChain(facts, root, f, f.parent[n]);
      var c := before + [n];
      forall i | 0 <= i < |c| - 1 ensures Step(facts, c[i], c[i + 1]) {
        if i < |before| - 1 {
          assert Step(facts, before[i], before[i + 1]);
        }
      }
    }
  }

  /** Walks the parents back from the hit; "" ends the walk. */
  method BuildChain(facts: Facts, root: Summary, f: Found, hit: string) returns (chain: seq<string>)
    requires AllTraced(facts, root, f) && hit in f.depths
    ensures "" !in f.depths ==> chain == ChainTo(facts, root, f, hit)
  {
    chain := [hit];
    assert Traced(facts, root, f, hit);
    var cur := f.parent[hit];
    ghost var last, tail := hit, [];
    assert "" !in f.depths ==> ChainTo(facts, root, f, hit) + [] == ChainTo(facts, root, f, hit);
    hide ChainTo, AllTraced, Traced;
    while cur != ""
      invariant last in f.depths && last in f.parent && cur == f.parent[last] && chain == [last] + tail
      invariant "" !in f.depths ==> ChainTo(facts, root, f, hit) == ChainTo(facts, root, f, last) + tail
      decreases f.depths[last]
    {
      ParentOf(facts, root, f, last, tail);
      chain := [cur] + chain;
      last, tail := cur, [last] + tail;
      cur := f.parent[cur];
    }
    Topmost(facts, root, f, last);
  }

  lemma ParentOf(facts: Facts, root: Summary, f: Found, n: string, tail: seq<string>)
    requires AllTraced(facts, root, f) && n in f.depths && n in f.parent && f.parent[n] != ""
    ensures var p := f.parent[n];
      && p in f.depths && p in f.parent && f.depths[p] < f.depths[n]
      && ChainTo(facts, root, f, n) + tail == ChainTo(facts, root, f, p) + ([n] + tail)
  {
    assert Traced(facts, root, f, n);
    var before := ChainTo(facts, root, f, f.parent[n]);
    assert before + [n] + tail == before + ([n] + tail);
  }

  lemma Topmost(facts: Facts, root: Summary, f: Found, n: string)
    requires AllTraced(facts, root, f) && n in f.depths && n in f.parent && f.parent[n] == ""
    ensures "" !in f.depths ==> ChainTo(facts, root, f, n) == [n]
  {
    assert Traced(facts, root, f, n);
  }

  /** Every chain no longer than the depth the queue has come to has been followed; with the queue
      empty, every chain of at most sixteen calls. */
  lemma {:induction false} ChainCovered(facts: Facts, root: Summary, f: Found, queue: seq<(string, nat)>,
                                        searched: set<string>, level: nat, chain: seq<string>, i: nat)
    requires SearchOk(facts, root, f, queue, searched, level) && IsChain(facts, root, chain) && i < |chain| <= MAX_DEPTH
    requires queue != [] ==> |chain| <= queue[0].1
    ensures chain[i] in f.depths && f.depths[chain[i]] <= i && Searched(facts, f, chain[i])
  {
    hide Searched, Step, AllTraced;
    if i == 0 {
      var k :| 0 <= k < |root.unguardedCalls| && root.unguardedCalls[k] == chain[0];
    } else {
      ChainCovered(facts, root, f, queue, searched, level, chain, i - 1);
      CallCovered(facts, f, chain[i - 1], chain[i]);
    }
    NotInQueue(f, queue, level, chain[i]);
  }

  lemma NotInQueue(f: Found, queue: seq<(string, nat)>, level: nat, n: string)
    requires QueueOk(f, queue, level) && n in f.depths && (queue != [] ==> f.depths[n] < queue[0].1)
    ensures !InQueue(queue, n)
  {
    forall k | 0 <= k < |queue| ensures queue[k].0 != n {
      assert queue[k] in queue;
    }
  }

  lemma CallCovered(facts: Facts, f: Found, n: string, m: string)
    requires Searched(facts, f, n) && Step(facts, n, m) && f.depths[n] + 1 < MAX_DEPTH
    ensures m in f.depths && f.depths[m] <= f.depths[n] + 1
  {
    var calls := facts[n].unguardedCalls;
    var k :| 0 <= k < |calls| && calls[k] == m;
  }

  /** No chain shorter than the one to the front of the queue ends in a throw. */
  lemma NoneIsShorter(facts: Facts, root: Summary, f: Found, queue: seq<(string, nat)>, searched: set<string>,
                      level: nat, chain: seq<string>)
    requires SearchOk(facts, root, f, queue, searched, level) && queue != []
    requires IsChain(facts, root, chain) && Throws(facts, chain[|chain| - 1])
    ensures queue[0].0 in f.depths && f.depths[queue[0].0] == queue[0].1 && queue[0].1 < |chain|
  {
    PoppedOk(facts, root, f, queue, searched, level);
    if |chain| <= queue[0].1 {
      ChainCovered(facts, root, f, queue, searched, level, chain, |chain| - 1);
      assert false;
    }
  }

  lemma NoEscape(facts: Facts, root: Summary, f: Found, searched: set<string>, level: nat)
    requires SearchOk(facts, root, f, [], searched, level) && !root.hasUncaughtThrow
    ensures !Escapes(facts, root)
  {
    forall chain | |chain| <= MAX_DEPTH && IsChain(facts, root, chain) ensures !Throws(facts, chain[|chain| - 1]) {
      ChainCovered(facts, root, f, [], searched, level, chain, |chain| - 1);
    }
  }

  // ---- the loop --------------------------------------------------------------------------------------------

  ghost function Names(facts: Facts, root: Summary): set<string> {
    (set c | c in root.unguardedCalls) + (set n, c | n in facts && c in facts[n].unguardedCalls :: c)
  }

  lemma FoundAreNames(facts: Facts, root: Summary, f: Found)
    requires AllTraced(facts, root, f)
    ensures f.depths.Keys <= Names(facts, root)
  {
    forall n | n in f.depths ensures n in Names(facts, root) {
      assert Traced(facts, root, f, n);
    }
  }

  /** The front of the queue is taken; the level moves to its depth. */
  lemma PoppedOk(facts: Facts, root: Summary, f: Found, queue: seq<(string, nat)>, searched: set<string>, level: nat)
    requires SearchOk(facts, root, f, queue, searched, level) && queue != []
    ensures var (name, depth) := queue[0];
      && name in f.depths && f.depths[name] == depth < MAX_DEPTH && name in f.parent
      && QueueOk(f, queue[1..], depth)
      && forall n :: n in f.depths ==> n in searched + {name} || InQueue(queue[1..], n)
  {
    var (name, depth) := queue[0];
    assert queue[0] in queue && Traced(facts, root, f, name);
    forall n | n in f.depths && n !in searched && n != name ensures InQueue(queue[1..], n) {
      var i :| 0 <= i < |queue| && queue[i].0 == n;
      assert queue[1..][i - 1].0 == n;
    }
    forall q | q in queue[1..] ensures depth <= q.1 <= depth + 1 && q.0 in f.depths && f.depths[q.0] == q.1 {
      var i :| 0 <= i < |queue[1..]| && queue[1..][i] == q;
      assert queue[i + 1] == q && q in queue;
    }
  }

  /** A function that does not throw: its calls are discovered if the exception passes through
      it and the depth allows. */
  method Expand(facts: Facts, root: Summary, f: Found, queue: seq<(string, nat)>, ghost searched: set<string>,
                ghost level: nat)
    returns (f': Found, queue': seq<(string, nat)>)
    requires SearchOk(facts, root, f, queue, searched, level) && queue != [] && !Throws(facts, queue[0].0)
    ensures SearchOk(facts, root, f', queue', searched + {queue[0].0}, queue[0].1)
    ensures f.depths.Keys <= f'.depths.Keys && (f'.depths.Keys == f.depths.Keys ==> |queue'| < |queue|)
  {
    hide Traced, AllTraced, SearchOk, QueueOk, CallsFound, Extends, NewQueued;
    PoppedOk(facts, root, f, queue, searched, level);
    TracedAll(facts, root, f, queue, searched, level);
    NothingFound([], f, 0);
    NothingNew(f, queue[1..]);
    var (name, depth) := queue[0];
    f', queue' := f, queue[1..];
    if name in facts && depth + 1 < MAX_DEPTH && !facts[name].isNoexcept {
      f', queue' := DiscoverAll(facts, root, f, queue[1..], facts[name].unguardedCalls, name, depth + 1);
    }
    Expanded(facts, root, f, f', queue, queue', searched, level);
  }

  lemma NothingNew(f: Found, queue: seq<(string, nat)>)
    ensures NewQueued(f, f, queue)
  {
  }

  lemma Expanded(facts: Facts, root: Summary, f: Found, f': Found, queue: seq<(string, nat)>,
                 queue': seq<(string, nat)>,
                 searched: set<string>, level: nat)
    requires SearchOk(facts, root, f, queue, searched, level) && queue != [] && !Throws(facts, queue[0].0)
    requires var (name, depth) := queue[0];
      && AllTraced(facts, root, f') && Extends(f, f') && NewQueued(f, f', queue') && queue[1..] <= queue'
      && QueueOk(f', queue', depth)
      && (Passes(facts, name) && depth + 1 < MAX_DEPTH ==>
            CallsFound(facts[name].unguardedCalls, |facts[name].unguardedCalls|, f', depth + 1))
      && (!(Passes(facts, name) && depth + 1 < MAX_DEPTH) ==> f' == f && queue' == queue[1..])
    ensures SearchOk(facts, root, f', queue', searched + {queue[0].0}, queue[0].1)
  {
    hide Traced, AllTraced;
    PoppedOk(facts, root, f, queue, searched, level);
    SearchedExtends(facts, f, f', searched);
    hide QueueOk;
    forall n | n in f'.depths ensures n in searched + {queue[0].0} || InQueue(queue', n) {
      if n in f.depths && InQueue(queue[1..], n) {
        StillQueued(queue[1..], queue', n);
      }
    }
  }

  ghost predicate NoEmptyCalls(facts: Facts, root: Summary) {
    "" !in Names(facts, root)
  }

  /** The search below one root; an empty name stands for no hit. It is exact unless a function
      with the empty name throws, and the chain it prints is a real one unless such a function
      is called. */
  method Search(facts: Facts, root: Summary) returns (hit: string, chain: seq<string>)
    ensures hit != "" ==> Escapes(facts, root)
    ensures !Throws(facts, "") && (root.hasUncaughtThrow ==> root.qualifiedName != "") ==>
      (hit != "" <==> Escapes(facts, root))
    ensures hit != "" && !root.hasUncaughtThrow && NoEmptyCalls(facts, root) ==>
      IsChain(facts, root, chain) && |chain| <= MAX_DEPTH && chain[|chain| - 1] == hit && Throws(facts, hit)
    ensures hit != "" && !root.hasUncaughtThrow && NoEmptyCalls(facts, root) ==> IsShortest(facts, root, |chain|)
    ensures root.hasUncaughtThrow ==> hit == root.qualifiedName && chain == [hit]
  {
    hide SearchOk, Escapes, AllTraced, Names, ChainTo, QueueOk, CallsFound, NoEmptyCalls, IsShortest;
    if root.hasUncaughtThrow {
      ThrowsItself(facts, root);
      return root.qualifiedName, [root.qualifiedName];
    }
    var f, queue := Found(map[], map[]), [];
    ghost var searched: set<string>, level: nat := {}, 0;
    NothingTraced(facts, root);
    f, queue := DiscoverAll(facts, root, f, queue, root.unguardedCalls, "", 0);
    Started(facts, root, f, queue);
    while queue != []
      invariant SearchOk(facts, root, f, queue, searched, level)
      decreases Names(facts, root) - f.depths.Keys, |queue|
    {
      var (name, depth) := queue[0];
      TracedAll(facts, root, f, queue, searched, level);
      if name in facts && facts[name].hasUncaughtThrow {
        InFound(facts, root, f, queue, searched, level);
        hit := name;
        chain := BuildChain(facts, root, f, name);
        HitEscapes(facts, root, f, name);
        HitIsNearest(facts, root, f, queue, searched, level);
        return;
      }
      ghost var before := f.depths.Keys;
      f, queue := Expand(facts, root, f, queue, searched, level);
      searched, level := searched + {name}, depth;
      TracedAll(facts, root, f, queue, searched, level);
      FoundAreNames(facts, root, f);
    }
    NoEscape(facts, root, f, searched, level);
    return "", [];
  }

  /** No chain to a throw has fewer calls. */
  ghost predicate IsShortest(facts: Facts, root: Summary, calls: nat) {
    forall c :: IsChain(facts, root, c) && Throws(facts, c[|c| - 1]) ==> calls <= |c|
  }

  lemma HitIsNearest(facts: Facts, root: Summary, f: Found, queue: seq<(string, nat)>, searched: set<string>,
                     level: nat)
    requires SearchOk(facts, root, f, queue, searched, level) && queue != []
    requires AllTraced(facts, root, f) && queue[0].0 in f.depths
    ensures IsShortest(facts, root, |ChainTo(facts, root, f, queue[0].0)|)
  {
    hide SearchOk, AllTraced, Throws, ChainTo;
    ChainToIsChain(facts, root, f, queue[0].0);
    forall c | IsChain(facts, root, c) && Throws(facts, c[|c| - 1])
      ensures |ChainTo(facts, root, f, queue[0].0)| <= |c|
    {
      NoneIsShorter(facts, root, f, queue, searched, level, c);
    }
  }

  lemma ThrowsItself(facts: Facts, root: Summary)
    requires root.hasUncaughtThrow
    ensures Escapes(facts, root)
  {
  }

  lemma NothingTraced(facts: Facts, root: Summary)
    ensures AllTraced(facts, root, Found(map[], map[])) && QueueOk(Found(map[], map[]), [], 0)
  {
  }

  lemma Started(facts: Facts, root: Summary, f: Found, queue: seq<(string, nat)>)
    requires AllTraced(facts, root, f) && QueueOk(f, queue, 0) && NewQueued(Found(map[], map[]), f, queue)
    requires CallsFound(root.unguardedCalls, |root.unguardedCalls|, f, 0)
    ensures SearchOk(facts, root, f, queue, {}, 0)
  {
  }

  lemma InFound(facts: Facts, root: Summary, f: Found, queue: seq<(string, nat)>, searched: set<string>, level: nat)
    requires SearchOk(facts, root, f, queue, searched, level) && queue != []
    ensures queue[0].0 in f.depths
  {
    assert queue[0] in queue;
  }

  lemma TracedAll(facts: Facts, root: Summary, f: Found, queue: seq<(string, nat)>, searched: set<string>, level: nat)
    requires SearchOk(facts, root, f, queue, searched, level)
    ensures AllTraced(facts, root, f)
  {
  }

  lemma HitEscapes(facts: Facts, root: Summary, f: Found, name: string)
    requires AllTraced(facts, root, f) && name in f.depths && Throws(facts, name)
    ensures Escapes(facts, root)
    ensures var c := ChainTo(facts, root, f, name); IsChain(facts, root, c) && |c| <= MAX_DEPTH && c[|c| - 1] == name
    ensures NoEmptyCalls(facts, root) ==> "" !in f.depths
  {
    ChainToIsChain(facts, root, f, name);
    FoundAreNames(facts, root, f);
  }

  // ---- throws behind a noexcept boundary -------------------------------------------------------------

  /** An exception leaves the root: it throws itself, or a chain ends in a throw out of a function
      that is not noexcept. */
  ghost predicate Leaves(facts: Facts, root: Summary) {
    root.hasUncaughtThrow || exists chain ::
      && |chain| <= MAX_DEPTH && IsChain(facts, root, chain)
      && Throws(facts, chain[|chain| - 1]) && Passes(facts, chain[|chain| - 1])
  }

  /** No function is nameless. */
  ghost predicate Named(facts: Facts) {
    "" !in facts && forall n :: n in facts ==> facts[n].qualifiedName == n
  }

  /** The facts without the throws that end in their own noexcept function. */
  function Silenced(facts: Facts): Facts {
    map n | n in facts :: if facts[n].isNoexcept then facts[n].(hasUncaughtThrow := false) else facts[n]
  }

  /** The search stops at a throw before it asks whether the function is noexcept. So a reported
      root is one an exception leaves if and only if it would be reported without the throws of
      noexcept functions. */
  lemma LeavesIff(facts: Facts, root: Summary)
    ensures Leaves(facts, root) <==> Escapes(Silenced(facts), root)
    ensures Leaves(facts, root) ==> Escapes(facts, root)
  {
    forall chain: seq<string> | chain != []
      ensures IsChain(facts, root, chain) <==> IsChain(Silenced(facts), root, chain)
    {
      forall n, m ensures Step(facts, n, m) <==> Step(Silenced(facts), n, m) {}
    }
    forall n ensures Throws(Silenced(facts), n) <==> Throws(facts, n) && Passes(facts, n) {}
    hide IsChain, Throws, Passes, Silenced;
    if Leaves(facts, root) && !root.hasUncaughtThrow {
      var chain :| |chain| <= MAX_DEPTH && IsChain(facts, root, chain)
        && Throws(facts, chain[|chain| - 1]) && Passes(facts, chain[|chain| - 1]);
      assert IsChain(Silenced(facts), root, chain);
    }
    if Escapes(Silenced(facts), root) && !root.hasUncaughtThrow {
      var chain :| |chain| <= MAX_DEPTH && IsChain(Silenced(facts), root, chain)
        && Throws(Silenced(facts), chain[|chain| - 1]);
      assert IsChain(facts, root, chain);
    }
  }

  function Noexcept(name: string, throws: bool, unguarded: seq<string>): Summary {
    Summary(name, name, 1, true, throws, unguarded, unguarded, [])
  }

  const BOUNDARY: Facts := map["f" := Noexcept("f", false, ["g"]), "g" := Noexcept("g", true, [])]

  /** A root is reported that calls a noexcept function which throws, though no exception leaves
      that function. */
  lemma BoundaryIsReported()
    ensures Named(BOUNDARY) && BOUNDARY["f"].isNoexcept
    ensures Escapes(BOUNDARY, BOUNDARY["f"]) && !Leaves(BOUNDARY, BOUNDARY["f"])
  {
    var f := BOUNDARY["f"];
    assert "f" != "g" by { assert "f"[0] == 'f' && "g"[0] == 'g'; }
    assert IsChain(BOUNDARY, f, ["g"]) && Throws(BOUNDARY, ["g"][|["g"]| - 1]);
    forall n ensures !(Throws(BOUNDARY, n) && Passes(BOUNDARY, n)) {}
  }
}

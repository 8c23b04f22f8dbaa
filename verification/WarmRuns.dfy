/** Runs of the tool one after another, each from the snapshot the one before has saved
    (src/main.cpp:1085-1301). */
module WarmRuns {
  import opened Registrations
  import opened EdgeTables
  import opened CallGraphStore
  import opened Dependencies
  import opened Parses
  import opened WarmRefresh
  import W = Wire
  import GS = GraphSnapshot
  import SR = SnapshotRoundTrip

  /** One run: the units selected, the files as they are, and whether a rebuild is forced. */
  datatype Run = Run(files: seq<string>, now: World, rebuild: bool)

  ghost predicate Usual(run: Run) {
    Dated(run.now) && DistinctNames(run.files) && "" !in run.files
  }

  /** The graph as the next run loads it, if it can be saved and loaded at all. */
  method Reload(g: CallGraph) returns (loaded: bool, g': CallGraph)
    requires g.Valid()
    ensures loaded ==> fresh(g') && g'.Valid() && g'.regs == g.regs
    ensures !loaded ==> g' == g
    ensures (forall s :: s in g.strings ==> GS.ByteString(s)) ==>
      (loaded <==> SR.Within32(g.Tab(), g.Overrides(), g.Returns(), W.List([]), W.List([]), W.List([])))
  {
    hide GS.ByteString, GS.TablesIn, SR.Within32, CallGraph.Valid, Laid;
    loaded, g' := false, g;
    var bytes := AllBytes(g.strings);
    if bytes {
      NoTables(|g.strings|);
      var image, h := SR.SaveThenLoad(g, W.List([]), W.List([]), W.List([]));
      if image.Some? {
        loaded, g' := true, h;
      }
    }
  }

  lemma NoTables(n: nat)
    ensures GS.TablesIn(W.List([]), W.List([]), W.List([]), n)
  {
  }

  method AllBytes(strings: seq<string>) returns (bytes: bool)
    ensures bytes <==> forall s :: s in strings ==> GS.ByteString(s)
  {
    hide GS.ByteString;
    bytes := true;
    for i := 0 to |strings|
      invariant bytes <==> forall s :: s in strings[..i] ==> GS.ByteString(s)
    {
      assert strings[..i + 1] == strings[..i] + [strings[i]];
      bytes := bytes && GS.ByteString(strings[i]);
    }
    assert strings[..|strings|] == strings;
  }

  /** After any number of runs, each refreshing or rebuilding, the index holds one result of each
      unit selected last, and of none a file has changed since the parse. */
  method RunAll(parse: Parser, runs: seq<Run>) returns (graph: CallGraph, meta: Meta, ghost results: Results)
    requires Honest(parse) && runs != [] && forall k :: 0 <= k < |runs| ==> Usual(runs[k])
    requires forall k :: 0 < k < |runs| ==> Forward(runs[k - 1].now, runs[k].now)
    ensures var last := runs[|runs| - 1];
      && graph.Valid() && IndexOf(graph.regs, meta, results, parse, last.now) && results.Keys == SetOf(last.files)
    ensures forall tu :: tu in results ==> SomeRun(parse, runs, |runs|, tu, results[tu])
    ensures (forall tu :: tu in results ==> results[tu].Parsed?) ==> var now := runs[|runs| - 1].now;
      (forall tu :: tu in results ==> NoneAppeared(results[tu], now)) <==>
      (results == ParsedNow(parse, results.Keys, now) && BakeOf(graph.regs, Bakes(ParsedNow(parse, results.Keys, now))))
  {
    hide Honest, Forward, Dated, DistinctNames, IndexOf, TablesOk, Updated, DirtySet, SomeRun, BakeOf, Bakes,
         NoneAppeared;
    FirstRun(parse, runs);
    assert Usual(runs[0]);
    graph, meta := ColdBuild(parse, runs[0].files, runs[0].now);
    results := ParsedNow(parse, SetOf(runs[0].files), runs[0].now);
    for k := 1 to |runs|
      invariant fresh(graph) && graph.Valid() && IndexOf(graph.regs, meta, results, parse, runs[k - 1].now)
      invariant results.Keys == SetOf(runs[k - 1].files)
      invariant forall tu :: tu in results ==> SomeRun(parse, runs, k, tu, results[tu])
    {
      var run := runs[k];
      assert Usual(run);
      ghost var results0, dirty := results, DirtySet(meta, run.files, run.now);
      var loaded, g := Reload(graph);
      if loaded {
        graph, meta, results := RunTool(g, meta, parse, run.files, run.now, run.rebuild, results, runs[k - 1].now);
      } else {
        graph, meta := ColdBuild(parse, run.files, run.now);
        results := ParsedNow(parse, SetOf(run.files), run.now);
      }
      OneMoreRun(parse, runs, k, results0, results, dirty);
    }
    if forall tu :: tu in results ==> results[tu].Parsed? {
      FullBuildIff(graph.regs, meta, results, parse, runs[|runs| - 1].now);
    }
  }

  /** The result is that of the unit's parse in one of the first `k` runs. */
  ghost predicate SomeRun(parse: Parser, runs: seq<Run>, k: nat, tu: string, p: Parsed)
    requires k <= |runs|
  {
    exists j :: 0 <= j < k && p == parse(tu, runs[j].now)
  }

  lemma FirstRun(parse: Parser, runs: seq<Run>)
    requires runs != []
    ensures var results := ParsedNow(parse, SetOf(runs[0].files), runs[0].now);
      forall tu :: tu in results ==> SomeRun(parse, runs, 1, tu, results[tu])
  {
  }

  lemma OneMoreRun(parse: Parser, runs: seq<Run>, k: nat, before: Results, after: Results, dirty: set<string>)
    requires k < |runs| && forall tu :: tu in before ==> SomeRun(parse, runs, k, tu, before[tu])
    requires var files := SetOf(runs[k].files);
      after == ParsedNow(parse, files, runs[k].now) || after == Updated(before, parse, runs[k].now, files, dirty)
    ensures forall tu :: tu in after ==> SomeRun(parse, runs, k + 1, tu, after[tu])
  {
    forall tu | tu in after ensures SomeRun(parse, runs, k + 1, tu, after[tu]) {
      if after[tu] == parse(tu, runs[k].now) {
      } else {
        assert SomeRun(parse, runs, k, tu, before[tu]);
      }
    }
  }

  // ---- a header that appears --------------------------------------------------------------------

  lemma WitnessWorlds()
    ensures Dated(BEFORE) && Dated(EDITED) && Dated(SHADOWED) && Forward(BEFORE, EDITED) && Forward(BEFORE, SHADOWED)
    ensures DistinctNames([UNIT]) && "" !in [UNIT] && SetOf([UNIT]) == {UNIT}
  {
    assert FRONT[0] == 'f' && REAR[0] == 'r' && UNIT[0] == 'a';
  }

  /** An edited header changes the unit that opened it, and the next run flags that unit,
      whatever else was recorded. */
  lemma EditedHeaderIsFlagged(regs: seq<Registration>, meta: Meta, results: Results)
    requires IndexOf(regs, meta, results, Including(), BEFORE)
    requires UNIT in results && results[UNIT] == Including()(UNIT, BEFORE)
    ensures Honest(Including()) && Dated(BEFORE) && Dated(EDITED) && Forward(BEFORE, EDITED)
    ensures Including()(UNIT, BEFORE).deps != [] && Including()(UNIT, BEFORE).edges != Including()(UNIT, EDITED).edges
    ensures StampOf(BEFORE, UNIT) == StampOf(EDITED, UNIT) && UNIT in DirtySet(meta, [UNIT], EDITED)
  {
    hide BakeOf, Honest, Forward, Dated, IsDirty, MetaOf;
    IncludingIsHonest();
    WitnessWorlds();
    EditedHeaderIsSeen();
    var deps :| MetaOf(meta, deps, results, BEFORE);
    if !IsDirty(meta, EDITED, StampOf(EDITED, UNIT)) {
      CleanIsKept(meta, deps, results, Including(), BEFORE, EDITED, UNIT);
    }
  }

  /** A unit is let through when its own file and all files that any unit opened are unchanged. */
  lemma UnchangedIsClean(meta: Meta, deps: TuDependencies, now: World, i: nat)
    requires IsRecord(meta, meta.files, deps) && DistinctPaths(meta.files) && i < |meta.files|
    requires meta.files[i] == StampOf(now, meta.files[i].path)
    requires forall d :: d in Listed(meta.files, deps) ==> Same(d, now)
    ensures !IsDirty(meta, now, meta.files[i])
  {
    hide Oldest, Listed, IsRecord, IsDirty, LastEntry;
    DirtyIff(meta.files, deps, meta, now, i);
    if d :| d in ListOf(deps, meta.files[i].path) && KeptChanged(Listed(meta.files, deps), now, d.path) {
      OldestIsOldest(Listed(meta.files, deps), d.path);
    }
  }

  /** After a header has appeared in front of the one a unit opened, the next run leaves the unit
      as it was, though a full build would not. */
  method ShadowingHeaderIsMissed() returns (graph: CallGraph, meta: Meta, ghost results: Results)
    ensures Honest(Including()) && graph.Valid() && IndexOf(graph.regs, meta, results, Including(), SHADOWED)
    ensures results == ParsedNow(Including(), {UNIT}, BEFORE)
    ensures EdgesOf(results[UNIT]) != EdgesOf(Including()(UNIT, SHADOWED))
  {
    hide Honest, IndexOf, IsDirty, TablesOk, Forward, Dated, SetOf, DistinctNames;
    IncludingIsHonest();
    WitnessWorlds();
    ShadowingHeaderIsNot();
    graph, meta := ColdBuild(Including(), [UNIT], BEFORE);
    ghost var cold := ParsedNow(Including(), {UNIT}, BEFORE);
    OneUnitRecorded(graph.regs, meta, cold, Including(), BEFORE, SHADOWED);
    graph, meta, results := RunTool(graph, meta, Including(), [UNIT], SHADOWED, false, cold, BEFORE);
  }

  lemma OneUnitRecorded(regs: seq<Registration>, meta: Meta, results: Results, parse: Parser, w: World, now: World)
    requires IndexOf(regs, meta, results, parse, w) && results.Keys == {UNIT}
    requires IsRecord(meta, meta.files, DepsOfUnits(results))
    requires StampOf(w, UNIT) == StampOf(now, UNIT) && Unchanged(results[UNIT], now)
    ensures DirtySet(meta, [UNIT], now) == {}
  {
    hide IsRecord, BakeOf, Stands, IsDirty, Listed, DepsCovered, Positive, Same, StampOf, DistinctPaths;
    var deps :| MetaOf(meta, deps, results, w);
    assert UNIT in Paths(meta.files);
    var i :| 0 <= i < |meta.files| && meta.files[i].path == UNIT;
    assert Stamped(meta.files[i], deps, results, w);
    forall d | d in Listed(meta.files, DepsOfUnits(results)) ensures Same(d, now) {
      ListedFrom(meta.files, DepsOfUnits(results), d);
      var j :| 0 <= j < |meta.files| && d in ListOf(DepsOfUnits(results), meta.files[j].path);
      assert meta.files[j].path in results;
      assert d in Opened(results[UNIT]);
    }
    UnchangedIsClean(meta, DepsOfUnits(results), now, i);
  }
}

/** The index across runs: what an incremental refresh leaves is what a full rebuild would
    (src/main.cpp:1093-1301). */
module WarmRefresh {
  import opened Interner
  import opened Registrations
  import opened EdgeTables
  import opened Sequences
  import opened CallGraphStore
  import opened Dependencies
  import opened Parses

  /** No file goes back in time or changes size within a second; it may disappear. */
  ghost predicate Forward(w: World, now: World) {
    forall p :: p in now ==> var was, cur :=
      StampOf(w, p).mtimeNs / NS_PER_SECOND, StampOf(now, p).mtimeNs / NS_PER_SECOND;
      was <= cur && (was == cur ==> StampOf(w, p).size == StampOf(now, p).size)
  }

  /** Files carry a time after the first second of the epoch, which stands for a missing file. */
  ghost predicate Dated(w: World) {
    forall p :: p in w ==> w[p].0 >= NS_PER_SECOND
  }

  /** The parse result recorded for each unit. */
  type Results = map<string, Parsed>

  function ParsedNow(parse: Parser, tus: set<string>, w: World): Results {
    map tu | tu in tus :: parse(tu, w)
  }

  function Bakes(results: Results): map<string, seq<EdgeName>> {
    map tu | tu in results :: EdgesOf(results[tu])
  }

  /** A log that holds each unit's bake, in any order, and nothing else. */
  ghost predicate BakeOf(regs: seq<Registration>, bake: map<string, seq<EdgeName>>) {
    forall edge, tu :: CountTu(regs, edge, tu) == if tu in bake then multiset(bake[tu])[edge] else 0
  }

  lemma BakeAt(regs: seq<Registration>, bake: map<string, seq<EdgeName>>, edge: EdgeName, tu: string)
    requires BakeOf(regs, bake)
    ensures CountTu(regs, edge, tu) == if tu in bake then multiset(bake[tu])[edge] else 0
  {
  }

  // ---- the bake ---------------------------------------------------------------------------------

  lemma BakeOneEdge(regs: seq<Registration>, edges: seq<EdgeName>, i: nat, bake: map<string, seq<EdgeName>>, tu: string)
    requires i < |edges| && BakeOf(regs, bake[tu := edges[..i]])
    ensures BakeOf(regs + [Registration(edges[i], tu)], bake[tu := edges[..i + 1]])
  {
    hide CountTu;
    var regs', bake' := regs + [Registration(edges[i], tu)], bake[tu := edges[..i + 1]];
    assert edges[..i + 1] == edges[..i] + [edges[i]];
    forall e, t ensures CountTu(regs', e, t) == if t in bake' then multiset(bake'[t])[e] else 0 {
      BakeAt(regs, bake[tu := edges[..i]], e, t);
      CountTuOne(regs, Registration(edges[i], tu), e, t);
    }
  }

  lemma BakeNoEdge(regs: seq<Registration>, bake: map<string, seq<EdgeName>>, tu: string)
    requires BakeOf(regs, bake) && tu !in bake
    ensures BakeOf(regs, bake[tu := []])
  {
    hide CountTu;
    forall e, t ensures CountTu(regs, e, t) == if t in bake[tu := []] then multiset(bake[tu := []][t])[e] else 0 {
      BakeAt(regs, bake, e, t);
    }
  }

  /** One unit's registrations, edge by edge. */
  method BakeUnit(graph: CallGraph, tu: string, edges: seq<EdgeName>, ghost bake: map<string, seq<EdgeName>>)
    requires graph.Valid() && BakeOf(graph.regs, bake) && tu !in bake
    modifies graph
    ensures graph.Valid() && BakeOf(graph.regs, bake[tu := edges])
  {
    hide BakeOf;
    BakeNoEdge(graph.regs, bake, tu);
    assert edges[..0] == [];
    for i := 0 to |edges|
      invariant graph.Valid() && BakeOf(graph.regs, bake[tu := edges[..i]])
    {
      BakeOneEdge(graph.regs, edges, i, bake, tu);
      graph.AddEdge(edges[i], tu);
    }
    assert edges[..|edges|] == edges;
  }

  ghost predicate DistinctNames(names: seq<string>) {
    forall i, j :: 0 <= i < j < |names| ==> names[i] != names[j]
  }

  function SetOf(names: seq<string>): set<string> {
    set n | n in names
  }

  lemma SetOfIs(names: seq<string>)
    ensures SetOf(names) == set t | t in names
  {
  }

  lemma SetOfOne(names: seq<string>, n: string)
    ensures SetOf(names + [n]) == SetOf(names) + {n}
  {
  }

  /** What each unit opened; a parse that crashed leaves no entry. */
  function DepsOfUnits(results: Results): TuDependencies {
    map tu | tu in results && results[tu].Parsed? :: results[tu].deps
  }

  lemma OneMoreName(tus: seq<string>, i: nat)
    requires DistinctNames(tus) && i < |tus|
    ensures tus[i] !in SetOf(tus[..i]) && SetOf(tus[..i + 1]) == SetOf(tus[..i]) + {tus[i]}
  {
    assert tus[i] !in tus[..i];
    assert tus[..i + 1] == tus[..i] + [tus[i]];
  }

  lemma OneMoreBake(results: Results, tu: string, p: Parsed)
    requires tu !in results
    ensures Bakes(results[tu := p]) == Bakes(results)[tu := EdgesOf(p)] && tu !in Bakes(results)
    ensures DepsOfUnits(results[tu := p]) ==
      if p.Parsed? then DepsOfUnits(results)[tu := p.deps] else DepsOfUnits(results)
  {
  }

  lemma OneMoreParse(parse: Parser, tus: set<string>, tu: string, w: World)
    ensures ParsedNow(parse, tus + {tu}, w) == ParsedNow(parse, tus, w)[tu := parse(tu, w)]
    ensures ParsedNow(parse, tus, w).Keys == tus
  {
  }

  /** The bake of some units on the files as they are: a fresh graph and what each unit opened. */
  method RunBake(parse: Parser, tus: seq<string>, w: World) returns (shard: CallGraph, deps: TuDependencies)
    requires DistinctNames(tus)
    ensures fresh(shard) && shard.Valid() && BakeOf(shard.regs, Bakes(ParsedNow(parse, SetOf(tus), w)))
    ensures deps == DepsOfUnits(ParsedNow(parse, SetOf(tus), w))
  {
    hide BakeOf, SetOf, Bakes, DepsOfUnits, DistinctNames, ParsedNow;
    shard := new CallGraph();
    deps := map[];
    EmptyBake(parse, w);
    assert tus[..0] == [];
    for i := 0 to |tus|
      invariant fresh(shard) && shard.Valid() && BakeOf(shard.regs, Bakes(ParsedNow(parse, SetOf(tus[..i]), w)))
      invariant deps == DepsOfUnits(ParsedNow(parse, SetOf(tus[..i]), w))
    {
      var parsed := parse(tus[i], w);
      OneMoreName(tus, i);
      OneMoreParse(parse, SetOf(tus[..i]), tus[i], w);
      OneMoreBake(ParsedNow(parse, SetOf(tus[..i]), w), tus[i], parsed);
      BakeUnit(shard, tus[i], EdgesOf(parsed), Bakes(ParsedNow(parse, SetOf(tus[..i]), w)));
      if parsed.Parsed? {
        deps := deps[tus[i] := parsed.deps];
      }
    }
    assert tus[..|tus|] == tus;
  }

  lemma EmptyBake(parse: Parser, w: World)
    ensures BakeOf([], Bakes(ParsedNow(parse, SetOf([]), w))) && DepsOfUnits(ParsedNow(parse, SetOf([]), w)) == map[]
  {
  }

  // ---- removing and absorbing --------------------------------------------------------------------

  /** Removing the dropped and the re-baked units and absorbing the fresh bake gives the whole
      current bake, when the units left alone still bake as they did. */
  lemma RefreshedBake(regs: seq<Registration>, added: seq<Registration>, before: map<string, seq<EdgeName>>,
                      baked: map<string, seq<EdgeName>>, after: map<string, seq<EdgeName>>, gone: set<string>)
    requires BakeOf(regs, before) && BakeOf(added, baked) && "" !in before
    requires before.Keys * baked.Keys <= gone
    requires after.Keys == (before.Keys - gone) + baked.Keys
    requires forall tu :: tu in after ==> after[tu] == if tu in baked then baked[tu] else before[tu]
    ensures BakeOf(Without(regs, gone) + added, after)
  {
    hide CountTu, Without;
    var all := Without(regs, gone) + added;
    forall e, t ensures CountTu(all, e, t) == if t in after then multiset(after[t])[e] else 0 {
      CountTuConcat(Without(regs, gone), added, e, t);
      WithoutTus(regs, gone, e, t);
      BakeAt(regs, before, e, t);
      BakeAt(added, baked, e, t);
      assert t in after <==> (t in before && t !in gone) || t in baked;
    }
  }

  /** The recorded results after some of the selected units were parsed again. */
  function Updated(results: Results, parse: Parser, now: World, files: set<string>, baked: set<string>): Results {
    map tu | tu in files && (tu in baked || tu in results) :: if tu in baked then parse(tu, now) else results[tu]
  }

  lemma UpdatedBakes(results: Results, parse: Parser, now: World, files: set<string>, baked: set<string>)
    requires baked <= files && files - baked <= results.Keys
    ensures Updated(results, parse, now, files, baked).Keys == files
    ensures var before, fresh_, after :=
        Bakes(results), Bakes(ParsedNow(parse, baked, now)), Bakes(Updated(results, parse, now, files, baked));
      && before.Keys == results.Keys && fresh_.Keys == baked && after.Keys == files
      && forall tu :: tu in after ==> after[tu] == if tu in fresh_ then fresh_[tu] else before[tu]
  {
  }

  /** The batched removal, then the bake and absorb of the dirty units. */
  method Refresh(graph: CallGraph, parse: Parser, now: World, toDrop: seq<string>, toBake: seq<string>,
                 recorded: set<string>, ghost results: Results, ghost files: set<string>)
    returns (freshDeps: TuDependencies)
    requires graph.Valid() && BakeOf(graph.regs, Bakes(results)) && "" !in results
    requires DistinctNames(toBake) && results.Keys == recorded
    requires SetOf(toDrop) == recorded - files && SetOf(toBake) <= files && files - SetOf(toBake) <= recorded
    modifies graph
    ensures graph.Valid() && BakeOf(graph.regs, Bakes(Updated(results, parse, now, files, SetOf(toBake))))
    ensures freshDeps == DepsOfUnits(ParsedNow(parse, SetOf(toBake), now))
  {
    hide BakeOf, TablesOk, InternerOk, DepsOfUnits, Without, Bakes, Updated, ParsedNow, SetOf, DistinctNames;
    var toRemove := ToRemove(toDrop, toBake, recorded);
    ghost var regs0, gone := graph.regs, SetOf(toRemove);
    var removed := graph.RemoveTUs(toRemove);
    SetOfIs(toRemove);
    freshDeps := map[];
    ghost var freshRegs := [];
    if toBake != [] {
      var shard;
      shard, freshDeps := RunBake(parse, toBake, now);
      freshRegs := shard.regs;
      graph.Absorb(shard);
    } else {
      EmptyBake(parse, now);
      assert Without(regs0, gone) + [] == Without(regs0, gone);
    }
    UpdatedLog(regs0, freshRegs, results, parse, now, files, SetOf(toBake), gone);
  }

  /** The log without the removed units, then the fresh one. */
  lemma UpdatedLog(regs: seq<Registration>, added: seq<Registration>, results: Results, parse: Parser, now: World,
                   files: set<string>, baked: set<string>, gone: set<string>)
    requires BakeOf(regs, Bakes(results)) && BakeOf(added, Bakes(ParsedNow(parse, baked, now))) && "" !in results
    requires baked <= files && files - baked <= results.Keys
    requires gone == (results.Keys - files) + baked * results.Keys
    ensures BakeOf(Without(regs, gone) + added, Bakes(Updated(results, parse, now, files, baked)))
  {
    hide BakeOf, Without, Bakes, ParsedNow, Updated;
    UpdatedBakes(results, parse, now, files, baked);
    RefreshedBake(regs, added, Bakes(results), Bakes(ParsedNow(parse, baked, now)),
      Bakes(Updated(results, parse, now, files, baked)), gone);
  }

  /** Every dropped unit, and every re-baked one the snapshot already has. */
  method ToRemove(toDrop: seq<string>, toBake: seq<string>, recorded: set<string>) returns (toRemove: seq<string>)
    ensures SetOf(toRemove) == SetOf(toDrop) + SetOf(toBake) * recorded
  {
    toRemove := toDrop;
    for i := 0 to |toBake|
      invariant SetOf(toRemove) == SetOf(toDrop) + SetOf(toBake[..i]) * recorded
    {
      assert toBake[..i + 1] == toBake[..i] + [toBake[i]];
      SetOfOne(toBake[..i], toBake[i]);
      SetOfOne(toRemove, toBake[i]);
      if toBake[i] in recorded {
        toRemove := toRemove + [toBake[i]];
      }
    }
    assert toBake[..|toBake|] == toBake;
  }

  // ---- one run of the tool --------------------------------------------------------------------------

  function Paths(files: seq<FileStamp>): set<string> {
    set i | 0 <= i < |files| :: files[i].path
  }

  /** A parsed dependency is on record with its own stamp or an older one. */
  ghost predicate Covers(list: seq<FileStamp>, d: FileStamp) {
    exists o :: o in list && o.path == d.path && 0 < o.mtimeNs <= d.mtimeNs
  }

  ghost predicate DepsCovered(list: seq<FileStamp>, p: Parsed) {
    forall d :: d in Opened(p) ==> Covers(list, d)
  }

  ghost predicate Positive(list: seq<FileStamp>) {
    forall d :: d in list ==> d.mtimeNs > 0
  }

  /** The meta stamps each unit as it is and records at least what its result opened. */
  ghost predicate MetaOf(meta: Meta, deps: TuDependencies, results: Results, w: World) {
    && DistinctPaths(meta.files) && IsRecord(meta, meta.files, deps) && Paths(meta.files) == results.Keys
    && forall i :: 0 <= i < |meta.files| ==> Stamped(meta.files[i], deps, results, w)
  }

  ghost predicate Stamped(f: FileStamp, deps: TuDependencies, results: Results, w: World) {
    && f.path in results && f == StampOf(w, f.path)
    && DepsCovered(ListOf(deps, f.path), results[f.path]) && Positive(ListOf(deps, f.path))
  }

  ghost predicate AllStand(parse: Parser, results: Results, w: World) {
    forall tu :: tu in results ==> Stands(parse, tu, results[tu], w)
  }

  /** Graph and meta hold one parse result of each unit, and no file it opened has changed. */
  ghost predicate IndexOf(regs: seq<Registration>, meta: Meta, results: Results, parse: Parser, w: World) {
    && "" !in results && BakeOf(regs, Bakes(results)) && AllStand(parse, results, w)
    && exists deps :: MetaOf(meta, deps, results, w)
  }

  /** An index is that of a full build of the files as they are, if and only if nothing has
      appeared where a parse looked in vain. */
  lemma FullBuildIff(regs: seq<Registration>, meta: Meta, results: Results, parse: Parser, w: World)
    requires Honest(parse) && IndexOf(regs, meta, results, parse, w)
    requires forall tu :: tu in results ==> results[tu].Parsed?
    ensures (forall tu :: tu in results ==> NoneAppeared(results[tu], w)) <==>
      (results == ParsedNow(parse, results.Keys, w) && BakeOf(regs, Bakes(ParsedNow(parse, results.Keys, w))))
  {
    hide Honest, Stands, NoneAppeared, BakeOf, MetaOf;
    forall tu | tu in results ensures results[tu] == parse(tu, w) <==> NoneAppeared(results[tu], w) {
      UpToDateIff(parse, tu, results[tu], w);
    }
  }

  lemma KeptCovers(meta: Meta, deps: TuDependencies, results: Results, w: World, i: nat, d: FileStamp)
    requires MetaOf(meta, deps, results, w) && i < |meta.files|
    requires meta.files[i].path in results && d in Opened(results[meta.files[i].path])
    ensures Covers(ListOf(Expanded(meta, |meta.files|), meta.files[i].path), d)
    ensures var o := Oldest(Listed(meta.files, deps), d.path);
      o.Some? && o.value.path == d.path && 0 < o.value.mtimeNs <= d.mtimeNs
    ensures exists e :: e in ListOf(deps, meta.files[i].path) && e.path == d.path
  {
    hide IsRecord, Oldest, Listed, Expanded, ListOf, Opened;
    var list := ListOf(deps, meta.files[i].path);
    assert Stamped(meta.files[i], deps, results, w);
    var e :| e in list && e.path == d.path && 0 < e.mtimeNs <= d.mtimeNs;
    RecordThenExpand(meta, meta.files, deps, i, e);
    var o := Oldest(Listed(meta.files, deps), d.path).value;
    OldestIsOldest(Listed(meta.files, deps), d.path);
    ListedPositive(meta, deps, results, w, o);
  }

  lemma ListedPositive(meta: Meta, deps: TuDependencies, results: Results, w: World, o: FileStamp)
    requires MetaOf(meta, deps, results, w) && o in Listed(meta.files, deps)
    ensures o.mtimeNs > 0
  {
    ListedFrom(meta.files, deps, o);
    var i :| 0 <= i < |meta.files| && o in ListOf(deps, meta.files[i].path);
    assert Stamped(meta.files[i], deps, results, w);
  }

  /** A version that is on disk again, and no newer than the one parsed, is the one parsed. */
  lemma SameSecond(w: World, now: World, o: FileStamp, d: FileStamp)
    requires Forward(w, now) && o.path == d.path && 0 < o.mtimeNs <= d.mtimeNs
    requires SameParsedVersion(d, StampOf(w, d.path)) && SameParsedVersion(o, StampOf(now, d.path))
    ensures SameParsedVersion(d, StampOf(now, d.path))
  {
    var x, y := StampOf(w, d.path).mtimeNs, StampOf(now, d.path).mtimeNs;
    assert x - x % NS_PER_SECOND == (x / NS_PER_SECOND) * NS_PER_SECOND;
    assert y - y % NS_PER_SECOND == (y / NS_PER_SECOND) * NS_PER_SECOND;
    assert d.path !in now ==> y == 0;
  }

  /** Of a unit dirtyTUs lets through, no file its recorded parse opened has changed. */
  lemma CleanUnitStands(meta: Meta, deps: TuDependencies, results: Results, parse: Parser, w: World, now: World,
                        i: nat)
    requires AllStand(parse, results, w) && Forward(w, now) && MetaOf(meta, deps, results, w) && i < |meta.files|
    requires !IsDirty(meta, now, StampOf(now, meta.files[i].path))
    ensures var tu := meta.files[i].path; tu in results && Stands(parse, tu, results[tu], now)
  {
    hide IsRecord, Oldest, Listed, Expanded, ListOf, LastEntry, Forward, IsDirty, SameParsedVersion, StampOf,
         DepsCovered, Positive, Opened;
    var tu := meta.files[i].path;
    assert Stamped(meta.files[i], deps, results, w) && Stands(parse, tu, results[tu], w);
    OwnStampSame(meta, now, i);
    DirtyIff(meta.files, deps, meta, now, i);
    forall d | d in Opened(results[tu]) ensures Same(d, now) {
      KeptCovers(meta, deps, results, w, i, d);
      var e :| e in ListOf(deps, tu) && e.path == d.path;
      assert !KeptChanged(Listed(meta.files, deps), now, e.path);
      assert Same(d, w);
      SameSecond(w, now, Oldest(Listed(meta.files, deps), d.path).value, d);
      StillThere(now, d);
    }
  }

  lemma StillThere(w: World, d: FileStamp)
    requires SameParsedVersion(d, StampOf(w, d.path)) && d.mtimeNs > 0
    ensures d.path in w
  {
  }

  lemma OwnStampSame(meta: Meta, now: World, i: nat)
    requires DistinctPaths(meta.files) && i < |meta.files| && !IsDirty(meta, now, StampOf(now, meta.files[i].path))
    ensures meta.files[i] == StampOf(now, meta.files[i].path)
  {
    EntryOf(meta.files, i);
  }

  // ---- the stages ------------------------------------------------------------------------------------

  /** Everything from scratch. */
  method ColdBuild(parse: Parser, files: seq<string>, now: World) returns (graph: CallGraph, meta: Meta)
    requires Honest(parse) && Dated(now) && DistinctNames(files) && "" !in files
    ensures fresh(graph) && graph.Valid()
    ensures IndexOf(graph.regs, meta, ParsedNow(parse, SetOf(files), now), parse, now)
    ensures IsRecord(meta, meta.files, DepsOfUnits(ParsedNow(parse, SetOf(files), now)))
  {
    hide BakeOf, IsRecord, Honest, TablesOk, Bakes, MetaOf, Stands;
    var deps;
    graph, deps := RunBake(parse, files, now);
    var current := StampFiles(now, files);
    meta := RecordDependencies(current, deps);
    StampedPaths(current, files, now);
    ColdMeta(meta, deps, parse, files, now);
    forall tu | tu in files ensures Stands(parse, tu, parse(tu, now), now) {
      FreshStands(parse, tu, now);
    }
  }

  lemma StampedPaths(current: seq<FileStamp>, files: seq<string>, now: World)
    requires DistinctNames(files) && "" !in files
    requires |current| == |files| && forall i :: 0 <= i < |files| ==> current[i] == StampOf(now, files[i])
    ensures DistinctPaths(current) && Paths(current) == SetOf(files) && "" !in Paths(current)
    ensures forall i :: 0 <= i < |files| ==> current[i].path == files[i] && files[i] in SetOf(files)
  {
    forall i | 0 <= i < |files| ensures current[i].path == files[i] && files[i] in SetOf(files) {}
    forall n ensures n in Paths(current) <==> n in SetOf(files) {
      if n in SetOf(files) {
        var i :| 0 <= i < |files| && files[i] == n;
        assert current[i].path == n;
      }
    }
  }

  lemma ColdMeta(meta: Meta, deps: TuDependencies, parse: Parser, files: seq<string>, now: World)
    requires Honest(parse) && Dated(now) && DistinctNames(files) && "" !in files && |meta.files| == |files|
    requires forall i :: 0 <= i < |files| ==> meta.files[i] == StampOf(now, files[i])
    requires IsRecord(meta, meta.files, deps) && deps == DepsOfUnits(ParsedNow(parse, SetOf(files), now))
    ensures MetaOf(meta, deps, ParsedNow(parse, SetOf(files), now), now)
  {
    hide IsRecord, StampOf, Honest, Dated;
    StampedPaths(meta.files, files, now);
    var results := ParsedNow(parse, SetOf(files), now);
    forall i | 0 <= i < |meta.files| ensures Stamped(meta.files[i], deps, results, now) {
      assert files[i] in results && ListOf(deps, files[i]) == Opened(results[files[i]]);
      BakedCovered(parse, files[i], now);
    }
  }

  /** What a parse opened, as it reports it. */
  lemma BakedCovered(parse: Parser, tu: string, now: World)
    requires Honest(parse) && Dated(now)
    ensures DepsCovered(Opened(parse(tu, now)), parse(tu, now)) && Positive(Opened(parse(tu, now)))
  {
    var p := parse(tu, now);
    assert Unchanged(p, now);
    forall d | d in Opened(p) ensures d.mtimeNs > 0 {
      assert Same(d, now) && now[d.path].0 >= NS_PER_SECOND;
    }
  }

  /** The recorded units that are no longer selected. */
  method Dropped(recorded: seq<FileStamp>, files: seq<string>) returns (toDrop: seq<string>)
    ensures SetOf(toDrop) == Paths(recorded) - SetOf(files)
  {
    toDrop := [];
    assert recorded[..0] == [];
    for i := 0 to |recorded|
      invariant SetOf(toDrop) == Paths(recorded[..i]) - SetOf(files)
    {
      PathsOne(recorded, i);
      if recorded[i].path !in files {
        SetOfOne(toDrop, recorded[i].path);
        toDrop := toDrop + [recorded[i].path];
      }
    }
    assert recorded[..|recorded|] == recorded;
  }

  lemma PathsOne(files: seq<FileStamp>, i: nat)
    requires i < |files|
    ensures Paths(files[..i + 1]) == Paths(files[..i]) + {files[i].path}
  {
    forall n ensures n in Paths(files[..i + 1]) <==> n in Paths(files[..i]) + {files[i].path} {
      if n in Paths(files[..i]) {
        var j :| 0 <= j < i && files[..i][j].path == n;
        assert files[..i + 1][j].path == n;
      }
      if n == files[i].path {
        assert files[..i + 1][i].path == n;
      }
    }
  }

  /** The selected units whose flag is set. */
  method Flagged(files: seq<string>, dirty: seq<bool>) returns (toBake: seq<string>)
    requires |dirty| == |files| && DistinctNames(files)
    ensures DistinctNames(toBake) && SetOf(toBake) <= SetOf(files)
    ensures forall i :: 0 <= i < |files| ==> (files[i] in SetOf(toBake) <==> dirty[i])
  {
    toBake := [];
    for i := 0 to |files|
      invariant DistinctNames(toBake) && SetOf(toBake) <= SetOf(files[..i])
      invariant forall j :: 0 <= j < i ==> (files[j] in SetOf(toBake) <==> dirty[j])
    {
      assert files[..i + 1] == files[..i] + [files[i]];
      SetOfOne(files[..i], files[i]);
      SetOfOne(toBake, files[i]);
      assert files[i] !in SetOf(files[..i]);
      if dirty[i] {
        assert files[i] !in toBake;
        toBake := toBake + [files[i]];
      }
    }
    assert files[..|files|] == files;
  }

  /** The stamps kept in memory through a refresh: re-baked units with what they just opened,
      the others as recorded. */
  function RefreshedDeps(meta: Meta, toDrop: set<string>, toBake: set<string>,
                         freshDeps: TuDependencies): TuDependencies
    requires |meta.tuDeps| == |meta.files|
  {
    (Expanded(meta, |meta.files|) - toDrop - toBake) + freshDeps
  }

  /** The flags let no unit through that is not recorded, or of which a file has changed. */
  ghost predicate Planned(meta: Meta, results: Results, parse: Parser, w: World, now: World, files: seq<string>,
                          toDrop: set<string>, toBake: set<string>) {
    && toDrop == Paths(meta.files) - SetOf(files) && toBake <= SetOf(files)
    && forall tu :: tu in SetOf(files) - toBake ==> Kept(meta, results, parse, w, now, tu)
  }

  ghost predicate Kept(meta: Meta, results: Results, parse: Parser, w: World, now: World, tu: string) {
    && tu in Paths(meta.files) && tu in results && Stands(parse, tu, results[tu], now)
    && StampOf(w, tu) == StampOf(now, tu)
  }

  lemma CleanIsKept(meta: Meta, deps: TuDependencies, results: Results, parse: Parser, w: World, now: World,
                    tu: string)
    requires AllStand(parse, results, w) && Forward(w, now) && MetaOf(meta, deps, results, w)
    requires !IsDirty(meta, now, StampOf(now, tu))
    ensures Kept(meta, results, parse, w, now, tu)
  {
    var e := LastEntry(meta.files, tu);
    assert meta.files[e.value].path == tu && Stamped(meta.files[e.value], deps, results, w);
    CleanUnitStands(meta, deps, results, parse, w, now, e.value);
  }

  lemma PlanIsRight(meta: Meta, deps: TuDependencies, results: Results, parse: Parser, w: World, now: World,
                    files: seq<string>, toDrop: set<string>, toBake: set<string>)
    requires AllStand(parse, results, w) && Forward(w, now) && MetaOf(meta, deps, results, w)
    requires toDrop == Paths(meta.files) - SetOf(files) && toBake == DirtySet(meta, files, now)
    ensures Planned(meta, results, parse, w, now, files, toDrop, toBake)
  {
    hide MetaOf, AllStand, Forward, IsDirty, StampOf, Kept;
    forall tu | tu in SetOf(files) - toBake ensures Kept(meta, results, parse, w, now, tu) {
      CleanIsKept(meta, deps, results, parse, w, now, tu);
    }
  }

  /** The selected units the dirty check flags. */
  function DirtySet(meta: Meta, files: seq<string>, now: World): set<string> {
    set f | f in files && IsDirty(meta, now, StampOf(now, f))
  }

  /** A re-baked unit is on record with what it just opened, a unit left alone with what covers
      what it opened. */
  lemma RefreshedCovers(meta: Meta, deps: TuDependencies, results: Results, parse: Parser, w: World, now: World,
                        files: seq<string>, toDrop: set<string>, toBake: set<string>, tu: string)
    requires Honest(parse) && Dated(now) && MetaOf(meta, deps, results, w)
    requires Planned(meta, results, parse, w, now, files, toDrop, toBake)
    requires tu in SetOf(files) && |meta.tuDeps| == |meta.files|
    ensures var deps' := RefreshedDeps(meta, toDrop, toBake, DepsOfUnits(ParsedNow(parse, toBake, now)));
      var results' := Updated(results, parse, now, SetOf(files), toBake);
      tu in results' && DepsCovered(ListOf(deps', tu), results'[tu]) && Positive(ListOf(deps', tu))
  {
    hide Honest, Dated, MetaOf, DepsCovered, Positive, ListOf, RefreshedDeps, DepsOfUnits, Opened;
    if tu in toBake {
      BakedList(meta, parse, now, toDrop, toBake, tu);
      BakedCovered(parse, tu, now);
    } else {
      assert tu in SetOf(files) - toBake && Kept(meta, results, parse, w, now, tu);
      CleanList(meta, parse, now, toDrop, toBake, tu);
      var i :| 0 <= i < |meta.files| && meta.files[i].path == tu;
      CleanCovered(meta, deps, results, w, i);
    }
  }

  lemma CleanCovered(meta: Meta, deps: TuDependencies, results: Results, w: World, i: nat)
    requires MetaOf(meta, deps, results, w) && i < |meta.files| && meta.files[i].path in results
    ensures |meta.tuDeps| == |meta.files|
    ensures var tu := meta.files[i].path; var list := ListOf(Expanded(meta, |meta.files|), tu);
      DepsCovered(list, results[tu]) && Positive(list)
  {
    MetaShape(meta, deps, results, w);
    hide MetaOf, Expanded, ListOf, Oldest, Listed, Opened;
    var tu := meta.files[i].path;
    forall d | d in Opened(results[tu]) ensures Covers(ListOf(Expanded(meta, |meta.files|), tu), d) {
      KeptCovers(meta, deps, results, w, i, d);
    }
    ExpandedPositive(meta, deps, results, w, i);
  }

  lemma CleanList(meta: Meta, parse: Parser, now: World, toDrop: set<string>, toBake: set<string>, tu: string)
    requires |meta.tuDeps| == |meta.files| && tu !in toBake && tu !in toDrop
    ensures ListOf(RefreshedDeps(meta, toDrop, toBake, DepsOfUnits(ParsedNow(parse, toBake, now))), tu)
      == ListOf(Expanded(meta, |meta.files|), tu)
  {
    hide Expanded;
  }

  lemma BakedList(meta: Meta, parse: Parser, now: World, toDrop: set<string>, toBake: set<string>, tu: string)
    requires |meta.tuDeps| == |meta.files| && tu in toBake
    ensures ListOf(RefreshedDeps(meta, toDrop, toBake, DepsOfUnits(ParsedNow(parse, toBake, now))), tu)
      == Opened(parse(tu, now))
  {
  }

  lemma ExpandedPositive(meta: Meta, deps: TuDependencies, results: Results, w: World, i: nat)
    requires MetaOf(meta, deps, results, w) && i < |meta.files|
    ensures Positive(ListOf(Expanded(meta, |meta.files|), meta.files[i].path))
  {
    hide Expanded, Listed, Oldest, Expand, ListOf;
    ExpandedAt(meta, |meta.files|, i);
    var list := Expand(meta.deps, meta.tuDeps[i]);
    forall d | d in list ensures d.mtimeNs > 0 {
      ExpandHas(meta.deps, meta.tuDeps[i], d);
      var id :| id in meta.tuDeps[i] && id < |meta.deps| && meta.deps[id] == d;
      OldestIsOldest(Listed(meta.files, deps), d.path);
      ListedPositive(meta, deps, results, w, d);
    }
  }

  lemma RefreshedMeta(meta: Meta, deps: TuDependencies, results: Results, parse: Parser, w: World, now: World,
                      files: seq<string>, toDrop: set<string>, toBake: set<string>, meta': Meta)
    requires Honest(parse) && Dated(now) && MetaOf(meta, deps, results, w)
    requires Planned(meta, results, parse, w, now, files, toDrop, toBake)
    requires |meta.tuDeps| == |meta.files| && DistinctNames(files) && "" !in files
    requires |meta'.files| == |files| && forall i :: 0 <= i < |files| ==> meta'.files[i] == StampOf(now, files[i])
    requires IsRecord(meta', meta'.files,
                      RefreshedDeps(meta, toDrop, toBake, DepsOfUnits(ParsedNow(parse, toBake, now))))
    ensures MetaOf(meta', RefreshedDeps(meta, toDrop, toBake, DepsOfUnits(ParsedNow(parse, toBake, now))),
                   Updated(results, parse, now, SetOf(files), toBake), now)
  {
    var deps' := RefreshedDeps(meta, toDrop, toBake, DepsOfUnits(ParsedNow(parse, toBake, now)));
    var results' := Updated(results, parse, now, SetOf(files), toBake);
    StampedPaths(meta'.files, files, now);
    hide MetaOf, Honest, Dated, IsRecord, RefreshedDeps, DepsOfUnits, DepsCovered, Positive, Opened, ListOf;
    forall i | 0 <= i < |meta'.files| ensures Stamped(meta'.files[i], deps', results', now) {
      RefreshedCovers(meta, deps, results, parse, w, now, files, toDrop, toBake, files[i]);
    }
    forall tu | tu in SetOf(files) - toBake ensures tu in results {
      assert Kept(meta, results, parse, w, now, tu);
    }
    UpdatedBakes(results, parse, now, SetOf(files), toBake);
    assert DistinctPaths(meta'.files);
  }

  /** How many flags are set. */
  function CountTrue(flags: seq<bool>): nat {
    if flags == [] then 0 else CountTrue(flags[..|flags| - 1]) + (if flags[|flags| - 1] then 1 else 0)
  }

  method CountFlags(flags: seq<bool>) returns (n: nat)
    ensures n == CountTrue(flags)
  {
    n := 0;
    for i := 0 to |flags|
      invariant n == CountTrue(flags[..i])
    {
      assert flags[..i + 1][..i] == flags[..i];
      if flags[i] { n := n + 1; }
    }
    assert flags[..|flags|] == flags;
  }

  lemma FlaggedIsDirty(meta: Meta, files: seq<string>, now: World, dirty: seq<bool>, toBake: set<string>)
    requires |dirty| == |files| && toBake <= SetOf(files)
    requires forall i :: 0 <= i < |files| ==> dirty[i] == IsDirty(meta, now, StampOf(now, files[i]))
    requires forall i :: 0 <= i < |files| ==> (files[i] in toBake <==> dirty[i])
    ensures toBake == DirtySet(meta, files, now)
  {
    hide IsDirty, StampOf;
    forall f ensures f in toBake <==> f in DirtySet(meta, files, now) {
      if f in files {
        var i :| 0 <= i < |files| && files[i] == f;
      }
    }
  }

  /** As many units are dirty as flags are set. */
  lemma {:induction false} DirtyCount(meta: Meta, files: seq<string>, now: World, dirty: seq<bool>)
    requires |dirty| == |files| && DistinctNames(files)
    requires forall i :: 0 <= i < |files| ==> dirty[i] == IsDirty(meta, now, StampOf(now, files[i]))
    ensures CountTrue(dirty) == |DirtySet(meta, files, now)|
  {
    hide IsDirty, StampOf;
    if files != [] {
      var n := |files| - 1;
      DirtyCount(meta, files[..n], now, dirty[..n]);
      var rest := DirtySet(meta, files[..n], now);
      assert files[n] !in rest;
      assert forall f :: f in files <==> f in files[..n] || f == files[n];
      assert DirtySet(meta, files, now) == if dirty[n] then rest + {files[n]} else rest;
    } else {
      assert DirtySet(meta, files, now) == {};
    }
  }

  /** The refresh of a loaded snapshot, given the dirty flags. */
  method RefreshIndex(graph: CallGraph, meta: Meta, parse: Parser, files: seq<string>, now: World,
                      current: seq<FileStamp>, dirty: seq<bool>, ghost results: Results, ghost w: World)
    returns (meta': Meta)
    requires graph.Valid() && Honest(parse) && Dated(now) && Forward(w, now) && DistinctNames(files) && "" !in files
    requires IndexOf(graph.regs, meta, results, parse, w)
    requires |current| == |files| == |dirty|
    requires forall i :: 0 <= i < |files| ==>
      current[i] == StampOf(now, files[i]) && dirty[i] == IsDirty(meta, now, current[i])
    modifies graph
    ensures var results' := Updated(results, parse, now, SetOf(files), DirtySet(meta, files, now));
      graph.Valid() && IndexOf(graph.regs, meta', results', parse, now) && results'.Keys == SetOf(files)
  {
    hide BakeOf, IsRecord, Honest, Dated, Forward, TablesOk, Bakes, MetaOf, Planned, Paths, SetOf, IsDirty, Expanded,
         DistinctNames, StampOf, DepsOfUnits, ParsedNow, AllStand, Updated, DirtySet;
    ghost var deps :| MetaOf(meta, deps, results, w);
    var toDrop := Dropped(meta.files, files);
    var toBake := Flagged(files, dirty);
    FlaggedIsDirty(meta, files, now, dirty, SetOf(toBake));
    PlanIsRight(meta, deps, results, parse, w, now, files, SetOf(toDrop), SetOf(toBake));
    MetaShape(meta, deps, results, w);
    AllKept(meta, results, parse, w, now, files, SetOf(toDrop), SetOf(toBake));
    if toDrop == [] && toBake == [] {
      NothingToDo(meta, deps, results, parse, w, now, files); // the save is skipped
      return meta;
    }
    var kept := DependenciesOf(meta);
    var freshDeps := Refresh(graph, parse, now, toDrop, toBake, Paths(meta.files), results, SetOf(files));
    var deps' := (kept - SetOf(toDrop) - SetOf(toBake)) + freshDeps;
    meta' := RecordDependencies(current, deps');
    RefreshedMeta(meta, deps, results, parse, w, now, files, SetOf(toDrop), SetOf(toBake), meta');
    StampedPaths(current, files, now);
  }

  /** All results after the refresh stand: the fresh ones and those let through. */
  lemma AllKept(meta: Meta, results: Results, parse: Parser, w: World, now: World, files: seq<string>,
                toDrop: set<string>, toBake: set<string>)
    requires Honest(parse) && Planned(meta, results, parse, w, now, files, toDrop, toBake)
    ensures var results' := Updated(results, parse, now, SetOf(files), toBake);
      AllStand(parse, results', now) && results'.Keys == SetOf(files)
    ensures SetOf(files) - toBake <= results.Keys && SetOf(files) - toBake <= Paths(meta.files)
  {
    hide Honest, Stands;
    forall tu | tu in SetOf(files) - toBake ensures tu in results && tu in Paths(meta.files) {
      assert Kept(meta, results, parse, w, now, tu);
    }
    var results' := Updated(results, parse, now, SetOf(files), toBake);
    forall tu | tu in results' ensures Stands(parse, tu, results'[tu], now) {
      if tu in toBake {
        FreshStands(parse, tu, now);
      } else {
        assert tu in SetOf(files) - toBake && Kept(meta, results, parse, w, now, tu);
      }
    }
  }

  lemma NothingToDo(meta: Meta, deps: TuDependencies, results: Results, parse: Parser, w: World, now: World,
                    files: seq<string>)
    requires MetaOf(meta, deps, results, w) && Planned(meta, results, parse, w, now, files, SetOf([]), SetOf([]))
    ensures Updated(results, parse, now, SetOf(files), SetOf([])) == results && MetaOf(meta, deps, results, now)
  {
    hide IsRecord;
    forall tu | tu in SetOf(files) ensures Kept(meta, results, parse, w, now, tu) {
      assert tu in SetOf(files) - SetOf([]);
    }
    forall i | 0 <= i < |meta.files| ensures Stamped(meta.files[i], deps, results, now) {
      assert meta.files[i].path in Paths(meta.files) && meta.files[i].path in SetOf(files);
      assert Stamped(meta.files[i], deps, results, w);
    }
  }

  lemma MetaShape(meta: Meta, deps: TuDependencies, results: Results, w: World)
    requires MetaOf(meta, deps, results, w)
    ensures |meta.tuDeps| == |meta.files| && Paths(meta.files) == results.Keys
  {
  }

  /** One run: refresh, or rebuild when asked to or when more than half is dirty. Either way the
      units are those selected, and of none a file has changed since the parse on record. */
  method RunTool(graph: CallGraph, meta: Meta, parse: Parser, files: seq<string>, now: World, rebuild: bool,
                 ghost results: Results, ghost w: World)
    returns (graph': CallGraph, meta': Meta, ghost results': Results)
    requires graph.Valid() && Honest(parse) && Dated(now) && Forward(w, now) && DistinctNames(files) && "" !in files
    requires IndexOf(graph.regs, meta, results, parse, w)
    modifies graph
    ensures graph'.Valid() && IndexOf(graph'.regs, meta', results', parse, now) && results'.Keys == SetOf(files)
    ensures graph' == graph || fresh(graph')
    ensures var dirty := DirtySet(meta, files, now);
      results' == if rebuild || |dirty| * 2 > |files| then ParsedNow(parse, SetOf(files), now)
                  else Updated(results, parse, now, SetOf(files), dirty)
  {
    hide BakeOf, Honest, Dated, Forward, TablesOk, IndexOf, IsDirty, StampOf, DistinctNames, Paths, SetOf,
         DirtyByDeps, DirtySet, Updated;
    var current := StampFiles(now, files);
    var dirty, viaDeps := DirtyTUs(meta, current, now);
    var count := CountFlags(dirty);
    DirtyCount(meta, files, now, dirty);
    if rebuild || count * 2 > |files| {
      graph', meta' := ColdBuild(parse, files, now);
      results' := ParsedNow(parse, SetOf(files), now);
    } else {
      meta' := RefreshIndex(graph, meta, parse, files, now, current, dirty, results, w);
      graph', results' := graph, Updated(results, parse, now, SetOf(files), DirtySet(meta, files, now));
    }
  }

  // ---- the same index ---------------------------------------------------------------------------------

  /** A live slot holds this edge, by its strings, with this many references. */
  ghost predicate Stores(t: Tables, edge: EdgeName, refs: nat) {
    exists i :: Live(t, i) && KeyIn(t.edges[i].key, |t.strings|) && Name(t.strings, t.edges[i].key) == edge
      && t.edges[i].refs == refs
  }

  /** What a valid graph stores is a function of its log: each registered edge with its count. */
  lemma StoresTheCounts(t: Tables, regs: seq<Registration>, edge: EdgeName, refs: nat)
    requires TablesOk(t, regs)
    ensures Stores(t, edge, refs) <==> refs > 0 && Count(regs, edge) == refs
  {
    hide Count, AdjOk, IndexOk, TusOk, Distinct;
    CountPositive(regs, edge);
    if refs > 0 && Count(regs, edge) == refs {
      var r :| r in regs && r.edge == edge;
      assert HasSlot(t, r.edge);
      var i :| Live(t, i) && Name(t.strings, t.edges[i].key) == edge;
      assert t.edges[i].refs == refs;
    }
  }

  /** Two full builds of the same units on the same files, refreshed or not, hold the same
      edges with the same reference counts, whatever their interners and slot orders. */
  lemma SameBakeSameGraph(g: CallGraph, h: CallGraph, bake: map<string, seq<EdgeName>>)
    requires g.Valid() && h.Valid() && BakeOf(g.regs, bake) && BakeOf(h.regs, bake)
    ensures forall edge, refs :: Stores(g.Tab(), edge, refs) <==> Stores(h.Tab(), edge, refs)
    ensures SameLog(g.regs, h.regs)
  {
    hide TablesOk, Stores, Count, CountTu;
    forall e, t ensures CountTu(g.regs, e, t) == CountTu(h.regs, e, t) {
      BakeAt(g.regs, bake, e, t);
      BakeAt(h.regs, bake, e, t);
    }
    forall edge, refs ensures Stores(g.Tab(), edge, refs) <==> Stores(h.Tab(), edge, refs) {
      StoresTheCounts(g.Tab(), g.regs, edge, refs);
      StoresTheCounts(h.Tab(), h.regs, edge, refs);
      SameLogSameCount(g.regs, h.regs, edge);
    }
  }
}

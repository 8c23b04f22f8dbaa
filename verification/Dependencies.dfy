/** Which translation units a changed file dirties: the dependency stamps of the snapshot meta
    (include/vycor/callgraph/FileStamp.h:28-43, src/callgraph/Snapshot.cpp:1037-1146). */
module Dependencies {
  import opened EdgeTypes

  datatype FileStamp = FileStamp(path: string, mtimeNs: nat, size: nat)

  const NS_PER_SECOND := 1_000_000_000

  /** The parser reports whole-second times; the disk has nanoseconds. */
  predicate SameParsedVersion(recorded: FileStamp, now: FileStamp) {
    recorded.size == now.size && recorded.mtimeNs == now.mtimeNs - now.mtimeNs % NS_PER_SECOND
  }

  /** The files on disk at one moment: modification time and size. */
  type World = map<string, (nat, nat)>

  /** A file that is missing stamps as zero. */
  function StampOf(w: World, path: string): FileStamp {
    if path in w then FileStamp(path, w[path].0, w[path].1) else FileStamp(path, 0, 0)
  }

  /** stampFiles. */
  method StampFiles(w: World, files: seq<string>) returns (stamps: seq<FileStamp>)
    ensures |stamps| == |files| && forall i :: 0 <= i < |files| ==> stamps[i] == StampOf(w, files[i])
  {
    stamps := [];
    for i := 0 to |files|
      invariant |stamps| == i && forall j :: 0 <= j < i ==> stamps[j] == StampOf(w, files[j])
    {
      stamps := stamps + [StampOf(w, files[i])];
    }
  }

  datatype Meta = Meta(files: seq<FileStamp>, deps: seq<FileStamp>, tuDeps: seq<seq<nat>>)

  type TuDependencies = map<string, seq<FileStamp>>

  // ---- recordDependencies ----------------------------------------------------------------------

  function ListOf(deps: TuDependencies, path: string): seq<FileStamp> {
    if path in deps then deps[path] else []
  }

  /** Every stamp the given translation units saw, in order. */
  function Listed(files: seq<FileStamp>, deps: TuDependencies): seq<FileStamp> {
    if files == [] then []
    else Listed(files[..|files| - 1], deps) + ListOf(deps, files[|files| - 1].path)
  }

  /** The stamp kept for a path: the oldest seen, the first of them on a tie. */
  function Oldest(listed: seq<FileStamp>, path: string): Option<FileStamp> {
    if listed == [] then None
    else Older(Oldest(listed[..|listed| - 1], path), listed[|listed| - 1], path)
  }

  function Older(o: Option<FileStamp>, d: FileStamp, path: string): Option<FileStamp> {
    if d.path == path && (o.None? || d.mtimeNs < o.value.mtimeNs) then Some(d) else o
  }

  lemma {:induction false} OldestIsOldest(listed: seq<FileStamp>, path: string)
    ensures Oldest(listed, path).None? <==> forall d :: d in listed ==> d.path != path
    ensures var o := Oldest(listed, path); o.Some? ==>
      && o.value in listed && o.value.path == path
      && forall d :: d in listed && d.path == path ==> o.value.mtimeNs <= d.mtimeNs
  {
    if listed != [] {
      OldestIsOldest(listed[..|listed| - 1], path);
      assert listed == listed[..|listed| - 1] + [listed[|listed| - 1]];
    }
  }

  /** Of several that old the first is kept. */
  lemma {:induction false} OldestIsFirst(listed: seq<FileStamp>, path: string)
    ensures Oldest(listed, path).Some? ==> exists k :: FirstOldest(listed, path, Oldest(listed, path).value, k)
  {
    if listed != [] {
      var init, d := listed[..|listed| - 1], listed[|listed| - 1];
      OldestIsFirst(init, path);
      OldestIsOldest(init, path);
      hide Oldest;
      OldestOne(init, d, path);
      assert listed == init + [d];
      if Oldest(listed, path) == Oldest(init, path) {
        if k :| Oldest(init, path).Some? && FirstOldest(init, path, Oldest(init, path).value, k) {
          assert FirstOldest(listed, path, Oldest(listed, path).value, k);
        }
      } else {
        assert FirstOldest(listed, path, d, |init|);
      }
    }
  }

  ghost predicate FirstOldest(listed: seq<FileStamp>, path: string, o: FileStamp, k: int) {
    && 0 <= k < |listed| && listed[k] == o
    && forall j :: 0 <= j < k && listed[j].path == path ==> listed[j].mtimeNs > o.mtimeNs
  }

  lemma {:induction false} ListedHas(files: seq<FileStamp>, deps: TuDependencies, i: nat)
    requires i < |files|
    ensures forall d :: d in ListOf(deps, files[i].path) ==> d in Listed(files, deps)
  {
    if i < |files| - 1 {
      ListedHas(files[..|files| - 1], deps, i);
    }
  }

  lemma {:induction false} ListedFrom(files: seq<FileStamp>, deps: TuDependencies, d: FileStamp)
    requires d in Listed(files, deps)
    ensures exists i :: 0 <= i < |files| && d in ListOf(deps, files[i].path)
  {
    if d in ListOf(deps, files[|files| - 1].path) {
    } else {
      ListedFrom(files[..|files| - 1], deps, d);
      var i :| 0 <= i < |files| - 1 && d in ListOf(deps, files[i].path);
    }
  }

  /** One shared entry for each path seen, holding the oldest stamp. */
  ghost predicate Recorded(ids: map<string, nat>, kept: seq<FileStamp>, listed: seq<FileStamp>) {
    && (forall p :: p in ids <==> Oldest(listed, p).Some?)
    && (forall p :: p in ids ==> ids[p] < |kept| && Some(kept[ids[p]]) == Oldest(listed, p) && kept[ids[p]].path == p)
    && (forall k :: 0 <= k < |kept| ==> kept[k].path in ids && ids[kept[k].path] == k)
  }

  ghost predicate Ids(ids: map<string, nat>, list: seq<FileStamp>, out: seq<nat>) {
    |out| == |list| && forall j :: 0 <= j < |list| ==> list[j].path in ids && ids[list[j].path] == out[j]
  }

  ghost predicate Extends(ids: map<string, nat>, ids': map<string, nat>) {
    forall p :: p in ids ==> p in ids' && ids'[p] == ids[p]
  }

  lemma OldestOne(listed: seq<FileStamp>, d: FileStamp, p: string)
    ensures Oldest(listed + [d], p) == Older(Oldest(listed, p), d, p)
  {
    assert (listed + [d])[..|listed|] == listed;
  }

  method RecordOne(ids: map<string, nat>, kept: seq<FileStamp>, d: FileStamp, ghost listed: seq<FileStamp>)
    returns (ids': map<string, nat>, kept': seq<FileStamp>)
    requires Recorded(ids, kept, listed)
    ensures Recorded(ids', kept', listed + [d]) && Extends(ids, ids') && d.path in ids'
  {
    hide Oldest;
    ids', kept' := ids, kept;
    if d.path !in ids {
      ids' := ids[d.path := |kept|];
      kept' := kept + [d];
      RecordedNew(ids, kept, d, listed);
    } else if d.mtimeNs < kept[ids[d.path]].mtimeNs {
      kept' := kept[ids[d.path] := d];
      RecordedOlder(ids, kept, d, listed);
    } else {
      RecordedSame(ids, kept, d, listed);
    }
  }

  lemma OldestAt(listed: seq<FileStamp>, d: FileStamp)
    ensures forall p :: Oldest(listed + [d], p) == Older(Oldest(listed, p), d, p)
  {
    forall p { OldestOne(listed, d, p); }
  }

  lemma RecordedNew(ids: map<string, nat>, kept: seq<FileStamp>, d: FileStamp, listed: seq<FileStamp>)
    requires Recorded(ids, kept, listed) && d.path !in ids
    ensures Recorded(ids[d.path := |kept|], kept + [d], listed + [d])
  {
    OldestAt(listed, d);
    hide Oldest;
  }

  lemma RecordedOlder(ids: map<string, nat>, kept: seq<FileStamp>, d: FileStamp, listed: seq<FileStamp>)
    requires Recorded(ids, kept, listed) && d.path in ids && d.mtimeNs < kept[ids[d.path]].mtimeNs
    ensures Recorded(ids, kept[ids[d.path] := d], listed + [d])
  {
    OldestAt(listed, d);
    hide Oldest;
  }

  lemma RecordedSame(ids: map<string, nat>, kept: seq<FileStamp>, d: FileStamp, listed: seq<FileStamp>)
    requires Recorded(ids, kept, listed) && d.path in ids && d.mtimeNs >= kept[ids[d.path]].mtimeNs
    ensures Recorded(ids, kept, listed + [d])
  {
    OldestAt(listed, d);
    hide Oldest;
  }

  method RecordList(ids0: map<string, nat>, kept0: seq<FileStamp>, list: seq<FileStamp>, ghost listed: seq<FileStamp>)
    returns (ids: map<string, nat>, kept: seq<FileStamp>, out: seq<nat>)
    requires Recorded(ids0, kept0, listed)
    ensures Recorded(ids, kept, listed + list) && Extends(ids0, ids) && Ids(ids, list, out)
  {
    hide Recorded;
    ids, kept, out := ids0, kept0, [];
    assert listed + [] == listed;
    for j := 0 to |list|
      invariant Recorded(ids, kept, listed + list[..j]) && Extends(ids0, ids) && Ids(ids, list[..j], out)
    {
      assert listed + list[..j] + [list[j]] == listed + list[..j + 1];
      ids, kept := RecordOne(ids, kept, list[j], listed + list[..j]);
      out := out + [ids[list[j].path]];
    }
    assert list[..|list|] == list;
  }

  /** The meta after recording: shared oldest stamps, and each unit's list in order. */
  ghost predicate IsRecord(meta: Meta, files: seq<FileStamp>, deps: TuDependencies) {
    var listed := Listed(files, deps);
    && meta.files == files && |meta.tuDeps| == |files|
    && (forall k :: 0 <= k < |meta.deps| ==> Some(meta.deps[k]) == Oldest(listed, meta.deps[k].path))
    && forall i :: 0 <= i < |files| ==> ListsKept(meta, listed, ListOf(deps, files[i].path), meta.tuDeps[i])
  }

  ghost predicate ListsKept(meta: Meta, listed: seq<FileStamp>, list: seq<FileStamp>, out: seq<nat>) {
    && |out| == |list|
    && forall j :: 0 <= j < |list| ==> out[j] < |meta.deps| && Some(meta.deps[out[j]]) == Oldest(listed, list[j].path)
  }

  lemma ListedStep(files: seq<FileStamp>, deps: TuDependencies, i: nat)
    requires i < |files|
    ensures Listed(files[..i + 1], deps) == Listed(files[..i], deps) + ListOf(deps, files[i].path)
  {
    assert files[..i + 1][..i] == files[..i];
  }

  ghost predicate AllIds(ids: map<string, nat>, files: seq<FileStamp>, deps: TuDependencies, tuDeps: seq<seq<nat>>)
    requires |tuDeps| <= |files|
  {
    forall k :: 0 <= k < |tuDeps| ==> Ids(ids, ListOf(deps, files[k].path), tuDeps[k])
  }

  lemma AllIdsOne(ids0: map<string, nat>, ids: map<string, nat>, files: seq<FileStamp>, deps: TuDependencies,
                  tuDeps: seq<seq<nat>>, out: seq<nat>)
    requires |tuDeps| < |files| && AllIds(ids0, files, deps, tuDeps) && Extends(ids0, ids)
    requires Ids(ids, ListOf(deps, files[|tuDeps|].path), out)
    ensures AllIds(ids, files, deps, tuDeps + [out])
  {
    forall k | 0 <= k < |tuDeps| ensures Ids(ids, ListOf(deps, files[k].path), tuDeps[k]) {
      assert Ids(ids0, ListOf(deps, files[k].path), tuDeps[k]);
    }
  }

  lemma RecordMade(ids: map<string, nat>, kept: seq<FileStamp>, files: seq<FileStamp>, deps: TuDependencies,
                   tuDeps: seq<seq<nat>>)
    requires |tuDeps| == |files| && Recorded(ids, kept, Listed(files, deps)) && AllIds(ids, files, deps, tuDeps)
    ensures IsRecord(Meta(files, kept, tuDeps), files, deps)
  {
    hide Listed, Oldest;
    var meta := Meta(files, kept, tuDeps);
    forall i | 0 <= i < |files| ensures ListsKept(meta, Listed(files, deps), ListOf(deps, files[i].path), tuDeps[i]) {
      assert Ids(ids, ListOf(deps, files[i].path), tuDeps[i]);
    }
  }

  lemma NothingRecorded(files: seq<FileStamp>, deps: TuDependencies)
    ensures Recorded(map[], [], Listed(files[..0], deps)) && AllIds(map[], files, deps, [])
  {
    assert files[..0] == [];
  }

  /** recordDependencies. */
  method RecordDependencies(files: seq<FileStamp>, deps: TuDependencies) returns (meta: Meta)
    ensures IsRecord(meta, files, deps) && meta.files == files
  {
    hide Recorded, Oldest, Listed, AllIds, IsRecord;
    var ids: map<string, nat>, kept: seq<FileStamp>, tuDeps: seq<seq<nat>> := map[], [], [];
    NothingRecorded(files, deps);
    for i := 0 to |files|
      invariant |tuDeps| == i && Recorded(ids, kept, Listed(files[..i], deps)) && AllIds(ids, files, deps, tuDeps)
    {
      var out: seq<nat> := [];
      ghost var ids0 := ids;
      ListedStep(files, deps, i);
      assert Listed(files[..i], deps) + [] == Listed(files[..i], deps);
      if files[i].path in deps {
        ids, kept, out := RecordList(ids, kept, deps[files[i].path], Listed(files[..i], deps));
      }
      AllIdsOne(ids0, ids, files, deps, tuDeps, out);
      tuDeps := tuDeps + [out];
    }
    assert files[..|files|] == files;
    RecordMade(ids, kept, files, deps, tuDeps);
    meta := Meta(files, kept, tuDeps);
  }

  // ---- dependenciesOf ----------------------------------------------------------------------------

  /** The stamps a list of ids stands for; ids out of range are dropped. */
  function Expand(kept: seq<FileStamp>, ids: seq<nat>): seq<FileStamp> {
    if ids == [] then []
    else
      var id := ids[|ids| - 1];
      Expand(kept, ids[..|ids| - 1]) + (if id < |kept| then [kept[id]] else [])
  }

  /** In order, as long as all ids are known. */
  lemma {:induction false} ExpandIs(kept: seq<FileStamp>, ids: seq<nat>)
    requires forall j :: 0 <= j < |ids| ==> ids[j] < |kept|
    ensures |Expand(kept, ids)| == |ids| && forall j :: 0 <= j < |ids| ==> Expand(kept, ids)[j] == kept[ids[j]]
  {
    if ids != [] {
      ExpandIs(kept, ids[..|ids| - 1]);
    }
  }

  function Expanded(meta: Meta, n: nat): TuDependencies
    requires n <= |meta.files| && n <= |meta.tuDeps|
  {
    if n == 0 then map[]
    else
      var out, path := Expanded(meta, n - 1), meta.files[n - 1].path;
      out[path := ListOf(out, path) + Expand(meta.deps, meta.tuDeps[n - 1])]
  }

  method ExpandList(kept: seq<FileStamp>, ids: seq<nat>) returns (list: seq<FileStamp>)
    ensures list == Expand(kept, ids)
  {
    list := [];
    for j := 0 to |ids|
      invariant list == Expand(kept, ids[..j])
    {
      assert ids[..j + 1][..j] == ids[..j];
      if ids[j] < |kept| {
        list := list + [kept[ids[j]]];
      }
    }
    assert ids[..|ids|] == ids;
  }

  function Min(a: nat, b: nat): nat { if a < b then a else b }

  /** dependenciesOf. */
  method DependenciesOf(meta: Meta) returns (out: TuDependencies)
    ensures out == Expanded(meta, Min(|meta.files|, |meta.tuDeps|))
  {
    hide Expand, ListOf;
    out := map[];
    for i := 0 to Min(|meta.files|, |meta.tuDeps|)
      invariant out == Expanded(meta, i)
    {
      var list := ExpandList(meta.deps, meta.tuDeps[i]);
      out := out[meta.files[i].path := ListOf(out, meta.files[i].path) + list];
    }
  }

  ghost predicate DistinctPaths(files: seq<FileStamp>) {
    forall i, j :: 0 <= i < j < |files| ==> files[i].path != files[j].path
  }

  lemma ListOfUpdate(deps: TuDependencies, p: string, list: seq<FileStamp>, q: string)
    ensures ListOf(deps[p := list], q) == if q == p then list else ListOf(deps, q)
  {
  }

  lemma NothingListed(path: string)
    ensures ListOf(map[], path) == []
  {
  }

  lemma ExpandedOne(meta: Meta, n: nat, i: nat)
    requires DistinctPaths(meta.files) && i < |meta.files| && n < |meta.files| && n < |meta.tuDeps|
    ensures ListOf(Expanded(meta, n + 1), meta.files[i].path) ==
      ListOf(Expanded(meta, n), meta.files[i].path) + (if i == n then Expand(meta.deps, meta.tuDeps[n]) else [])
  {
    var out, path, list := Expanded(meta, n), meta.files[n].path, Expand(meta.deps, meta.tuDeps[n]);
    ListOfUpdate(out, path, ListOf(out, path) + list, meta.files[i].path);
    assert i != n ==> meta.files[i].path != path;
  }

  lemma {:induction false} ExpandedAt(meta: Meta, n: nat, i: nat)
    requires DistinctPaths(meta.files) && i < |meta.files| && n <= |meta.files| && n <= |meta.tuDeps|
    ensures ListOf(Expanded(meta, n), meta.files[i].path) == if i < n then Expand(meta.deps, meta.tuDeps[i]) else []
  {
    hide ListOf, Expand, DistinctPaths;
    if n == 0 {
      NothingListed(meta.files[i].path);
    } else {
      ExpandedAt(meta, n - 1, i);
      ExpandedOne(meta, n - 1, i);
    }
  }

  lemma {:induction false} ExpandHas(kept: seq<FileStamp>, ids: seq<nat>, d: FileStamp)
    ensures d in Expand(kept, ids) <==> exists id :: id in ids && id < |kept| && kept[id] == d
  {
    if ids != [] {
      ExpandHas(kept, ids[..|ids| - 1], d);
      assert ids == ids[..|ids| - 1] + [ids[|ids| - 1]];
    }
  }

  /** Saving and expanding again keeps every dependency of every unit, with its oldest stamp. */
  lemma RecordThenExpand(meta: Meta, files: seq<FileStamp>, deps: TuDependencies, i: nat, d: FileStamp)
    requires IsRecord(meta, files, deps) && DistinctPaths(files) && i < |files| && d in ListOf(deps, files[i].path)
    ensures var o := Oldest(Listed(files, deps), d.path);
      && o.Some? && o.value.path == d.path && o.value.mtimeNs <= d.mtimeNs
      && o.value in ListOf(Expanded(meta, |files|), files[i].path)
  {
    var listed, list := Listed(files, deps), ListOf(deps, files[i].path);
    OldestIsOldest(listed, d.path);
    ListedHas(files, deps, i);
    var j :| 0 <= j < |list| && list[j] == d;
    assert ListsKept(meta, listed, list, meta.tuDeps[i]);
    ExpandHas(meta.deps, meta.tuDeps[i], meta.deps[meta.tuDeps[i][j]]);
    assert meta.tuDeps[i][j] in meta.tuDeps[i];
    ExpandedAt(meta, |files|, i);
  }

  // ---- dirtyTUs -------------------------------------------------------------------------------------

  /** The entry the path map ends with: the last one. */
  function LastEntry(files: seq<FileStamp>, path: string): (r: Option<nat>)
    ensures r.Some? ==> r.value < |files| && files[r.value].path == path
    ensures r.Some? ==> forall j :: r.value < j < |files| ==> files[j].path != path
    ensures r.None? ==> forall i :: 0 <= i < |files| ==> files[i].path != path
  {
    if files == [] then None
    else if files[|files| - 1].path == path then Some(|files| - 1)
    else LastEntry(files[..|files| - 1], path)
  }

  function DepsOf(meta: Meta, i: nat): seq<nat> {
    if i < |meta.tuDeps| then meta.tuDeps[i] else []
  }

  predicate DepChanged(meta: Meta, now: World, id: nat) {
    id < |meta.deps| && !SameParsedVersion(meta.deps[id], StampOf(now, meta.deps[id].path))
  }

  /** Dirty: not recorded, own stamp different, or some recorded dependency stamp that the file
      as it is now does not match. */
  predicate IsDirty(meta: Meta, now: World, current: FileStamp) {
    var e := LastEntry(meta.files, current.path);
    e.None? || meta.files[e.value] != current || exists id :: id in DepsOf(meta, e.value) && DepChanged(meta, now, id)
  }

  method PathMap(files: seq<FileStamp>) returns (recorded: map<string, nat>)
    ensures forall p :: p in recorded <==> LastEntry(files, p).Some?
    ensures forall p :: p in recorded ==> Some(recorded[p]) == LastEntry(files, p)
  {
    recorded := map[];
    assert files[..0] == [];
    for i := 0 to |files|
      invariant forall p :: p in recorded <==> LastEntry(files[..i], p).Some?
      invariant forall p :: p in recorded ==> Some(recorded[p]) == LastEntry(files[..i], p)
    {
      assert files[..i + 1][..i] == files[..i];
      recorded := recorded[files[i].path := i];
    }
    assert files[..|files|] == files;
  }

  method AnyChanged(ids: seq<nat>, depChanged: seq<bool>) returns (any: bool)
    ensures any <==> exists id :: id in ids && id < |depChanged| && depChanged[id]
  {
    for j := 0 to |ids|
      invariant forall id :: id in ids[..j] && id < |depChanged| ==> !depChanged[id]
    {
      if ids[j] < |depChanged| && depChanged[ids[j]] {
        return true;
      }
    }
    assert ids[..|ids|] == ids;
    return false;
  }

  /** Units whose own stamp matches, dirty through a dependency only. */
  function DirtyByDeps(meta: Meta, now: World, current: seq<FileStamp>): nat {
    if current == [] then 0
    else
      var c := current[|current| - 1];
      var e := LastEntry(meta.files, c.path);
      DirtyByDeps(meta, now, current[..|current| - 1])
      + (if IsDirty(meta, now, c) && e.Some? && meta.files[e.value] == c then 1 else 0)
  }

  /** The number of units on record last with just this stamp, and dirty all the same. */
  lemma {:induction false} DirtyByDepsIs(meta: Meta, now: World, current: seq<FileStamp>)
    ensures DirtyByDeps(meta, now, current) == |OnlyByDeps(meta, now, current)|
  {
    hide LastEntry, IsDirty, OnRecord, OnlyByDeps;
    if current == [] {
      NoneByDeps(meta, now);
    } else {
      var n := |current| - 1;
      DirtyByDepsIs(meta, now, current[..n]);
      RecordedLast(meta.files, current[n]);
      OneMoreByDeps(meta, now, current[..n], current[n]);
      assert current == current[..n] + [current[n]];
    }
  }

  lemma NoneByDeps(meta: Meta, now: World)
    ensures OnlyByDeps(meta, now, []) == {}
  {
  }

  lemma OneMoreByDeps(meta: Meta, now: World, current: seq<FileStamp>, c: FileStamp)
    ensures |current| !in OnlyByDeps(meta, now, current)
    ensures OnlyByDeps(meta, now, current + [c]) == OnlyByDeps(meta, now, current)
      + if IsDirty(meta, now, c) && OnRecord(meta.files, c) then {|current|} else {}
  {
    hide IsDirty, OnRecord;
    var more, n := current + [c], |current|;
    assert more[n] == c && forall i :: 0 <= i < n ==> more[i] == current[i];
  }

  ghost function OnlyByDeps(meta: Meta, now: World, current: seq<FileStamp>): set<nat> {
    set i: nat | i < |current| && IsDirty(meta, now, current[i]) && OnRecord(meta.files, current[i])
  }

  /** The last entry of this path has this stamp. */
  ghost predicate OnRecord(files: seq<FileStamp>, c: FileStamp) {
    exists k: nat :: RecordedAt(files, c, k)
  }

  ghost predicate RecordedAt(files: seq<FileStamp>, c: FileStamp, k: nat) {
    k < |files| && files[k] == c && forall j :: k < j < |files| ==> files[j].path != c.path
  }

  lemma RecordedLast(files: seq<FileStamp>, c: FileStamp)
    ensures OnRecord(files, c) <==> var e := LastEntry(files, c.path); e.Some? && files[e.value] == c
  {
    var e := LastEntry(files, c.path);
    if e.Some? && files[e.value] == c {
      assert RecordedAt(files, c, e.value);
    }
  }

  /** A unit is dirty when it is not on record as it is, or when one of the dependencies listed for
      it is on record in a version that is not on disk: one of another size or another second, or
      of a file that is gone. */
  lemma DirtyIs(meta: Meta, now: World, c: FileStamp, i: nat)
    ensures !OnRecord(meta.files, c) ==> IsDirty(meta, now, c)
    ensures RecordedAt(meta.files, c, i) ==>
      (IsDirty(meta, now, c) <==> i < |meta.tuDeps| && LeadsToOther(meta, now, meta.tuDeps[i]))
  {
    RecordedLast(meta.files, c);
    var e := LastEntry(meta.files, c.path);
    if e.Some? {
      var ids := DepsOf(meta, e.value);
      hide OtherOnDisk, SameParsedVersion, StampOf, OnRecord, LastEntry;
      forall id: nat | id < |meta.deps| ensures DepChanged(meta, now, id) <==> OtherOnDisk(meta.deps[id], now) {
        SameOnDisk(now, meta.deps[id]);
      }
      if id :| id in ids && DepChanged(meta, now, id) {
        var k :| 0 <= k < |ids| && ids[k] == id;
        assert LeadsToOther(meta, now, ids);
      }
      if LeadsToOther(meta, now, ids) {
        var k :| 0 <= k < |ids| && ids[k] < |meta.deps| && OtherOnDisk(meta.deps[ids[k]], now);
        assert ids[k] in ids && DepChanged(meta, now, ids[k]);
      }
    }
  }

  ghost predicate LeadsToOther(meta: Meta, now: World, ids: seq<nat>) {
    exists k :: 0 <= k < |ids| && ids[k] < |meta.deps| && OtherOnDisk(meta.deps[ids[k]], now)
  }

  lemma SameOnDisk(now: World, d: FileStamp)
    ensures OtherOnDisk(d, now) <==> !SameParsedVersion(d, StampOf(now, d.path))
  {
  }

  ghost predicate OtherOnDisk(d: FileStamp, now: World) {
    if d.path in now then now[d.path].1 != d.size || now[d.path].0 / 1_000_000_000 * 1_000_000_000 != d.mtimeNs
    else d.size != 0 || d.mtimeNs != 0
  }

  /** dirtyTUs. */
  method DirtyTUs(meta: Meta, current: seq<FileStamp>, now: World) returns (dirty: seq<bool>, via: nat)
    ensures |dirty| == |current| && forall i :: 0 <= i < |current| ==> dirty[i] == IsDirty(meta, now, current[i])
    ensures via == DirtyByDeps(meta, now, current)
  {
    var recorded := PathMap(meta.files);
    var depChanged := ChangedDeps(meta, now);
    dirty, via := [], 0;
    hide LastEntry, IsDirty, DepChanged;
    for i := 0 to |current|
      invariant |dirty| == i && forall k :: 0 <= k < i ==> dirty[k] == IsDirty(meta, now, current[k])
      invariant via == DirtyByDeps(meta, now, current[..i])
    {
      assert current[..i + 1][..i] == current[..i];
      var flag, viaDeps := CheckUnit(meta, recorded, depChanged, current[i], now);
      dirty := dirty + [flag];
      if viaDeps { via := via + 1; }
    }
    assert current[..|current|] == current;
  }

  /** The shared stamps, each against the disk. */
  method ChangedDeps(meta: Meta, now: World) returns (depChanged: seq<bool>)
    ensures |depChanged| == |meta.deps| && forall k: nat :: k < |depChanged| ==>
      depChanged[k] == DepChanged(meta, now, k)
  {
    hide SameParsedVersion, StampOf;
    depChanged := [];
    for i := 0 to |meta.deps|
      invariant |depChanged| == i && forall k: nat :: k < i ==> depChanged[k] == DepChanged(meta, now, k)
    {
      depChanged := depChanged + [!SameParsedVersion(meta.deps[i], StampOf(now, meta.deps[i].path))];
    }
  }

  /** One unit: dirty, and if so whether only through a dependency. */
  method CheckUnit(meta: Meta, recorded: map<string, nat>, depChanged: seq<bool>, c: FileStamp, ghost now: World)
    returns (dirty: bool, viaDeps: bool)
    requires forall p :: p in recorded <==> LastEntry(meta.files, p).Some?
    requires forall p :: p in recorded ==> Some(recorded[p]) == LastEntry(meta.files, p)
    requires |depChanged| == |meta.deps| && forall k: nat :: k < |depChanged| ==>
      depChanged[k] == DepChanged(meta, now, k)
    ensures dirty == IsDirty(meta, now, c)
    ensures viaDeps <==> dirty && var e := LastEntry(meta.files, c.path); e.Some? && meta.files[e.value] == c
  {
    hide LastEntry;
    if c.path !in recorded || meta.files[recorded[c.path]] != c {
      return true, false;
    }
    dirty := AnyChanged(DepsOf(meta, recorded[c.path]), depChanged);
    viaDeps := dirty;
  }

  // ---- what the dirty set catches -------------------------------------------------------------------

  /** A recorded unit that parsed a version of a file other than the one now on disk. */
  ghost predicate IsStale(deps: TuDependencies, now: World, path: string) {
    exists d :: d in ListOf(deps, path) && !SameParsedVersion(d, StampOf(now, d.path))
  }

  lemma EntryOf(files: seq<FileStamp>, i: nat)
    requires DistinctPaths(files) && i < |files|
    ensures LastEntry(files, files[i].path) == Some(i)
  {
    var e := LastEntry(files, files[i].path);
    assert e.Some? ==> files[e.value].path == files[i].path;
  }

  /** With its own file unchanged, a unit is dirty exactly when the oldest recorded version of
      some file it opened is not the one on disk. */
  lemma DirtyIff(files: seq<FileStamp>, deps: TuDependencies, meta: Meta, now: World, i: nat)
    requires IsRecord(meta, files, deps) && DistinctPaths(files) && i < |files|
    ensures IsDirty(meta, now, files[i]) <==>
      exists d :: d in ListOf(deps, files[i].path) && KeptChanged(Listed(files, deps), now, d.path)
  {
    hide Oldest, Listed, LastEntry;
    var listed, list, out := Listed(files, deps), ListOf(deps, files[i].path), meta.tuDeps[i];
    EntryOf(files, i);
    assert ListsKept(meta, listed, list, out);
    forall j | 0 <= j < |list|
      ensures DepChanged(meta, now, out[j]) <==> KeptChanged(listed, now, list[j].path)
    {
      OldestIsOldest(listed, list[j].path);
    }
    if IsDirty(meta, now, files[i]) {
      var id :| id in out && DepChanged(meta, now, id);
      var j :| 0 <= j < |out| && out[j] == id;
      assert list[j] in list;
    }
    if d :| d in list && KeptChanged(listed, now, d.path) {
      var j :| 0 <= j < |list| && list[j] == d;
      assert out[j] in out;
    }
  }

  ghost predicate KeptChanged(listed: seq<FileStamp>, now: World, path: string) {
    var o := Oldest(listed, path);
    o.Some? && !SameParsedVersion(o.value, StampOf(now, path))
  }

  /** The stale units that are missed: those for which the oldest recorded version of every file
      they opened is on disk. */
  lemma MissedIff(files: seq<FileStamp>, deps: TuDependencies, meta: Meta, now: World, i: nat)
    requires IsRecord(meta, files, deps) && DistinctPaths(files) && i < |files|
    requires IsStale(deps, now, files[i].path)
    ensures !IsDirty(meta, now, files[i]) <==>
      forall d :: d in ListOf(deps, files[i].path) ==> OldestOnDisk(Listed(files, deps), now, d.path)
    ensures !IsDirty(meta, now, files[i]) ==>
      exists d, o :: d in ListOf(deps, files[i].path) && IsOlder(Listed(files, deps), d, o)
        && SameParsedVersion(o, StampOf(now, o.path))
  {
    hide Oldest, Listed;
    var listed := Listed(files, deps);
    DirtyIff(files, deps, meta, now, i);
    ListedHas(files, deps, i);
    forall d | d in ListOf(deps, files[i].path)
      ensures OldestOnDisk(listed, now, d.path) <==> !KeptChanged(listed, now, d.path)
    {
      OldestIsOldest(listed, d.path);
    }
    if !IsDirty(meta, now, files[i]) {
      var d :| d in ListOf(deps, files[i].path) && !SameParsedVersion(d, StampOf(now, d.path));
      OldestIsOldest(listed, d.path);
      assert IsOlder(listed, d, Oldest(listed, d.path).value);
    }
  }

  ghost predicate OldestOnDisk(listed: seq<FileStamp>, now: World, path: string) {
    var o := Oldest(listed, path);
    o.Some? && SameParsedVersion(o.value, StampOf(now, path))
  }

  /** Another recorded version of the file, no newer. */
  ghost predicate IsOlder(listed: seq<FileStamp>, d: FileStamp, o: FileStamp) {
    o in listed && o.path == d.path && o != d && o.mtimeNs <= d.mtimeNs
  }

  /** A recorded version that is on disk now is the newest recorded, and no file had two sizes
      within one second: no file was put back to an older version. */
  ghost predicate MovesForward(listed: seq<FileStamp>, now: World) {
    forall d :: d in listed && SameParsedVersion(d, StampOf(now, d.path)) ==> NewestAndOnly(listed, d)
  }

  ghost predicate NewestAndOnly(listed: seq<FileStamp>, o: FileStamp) {
    forall d :: d in listed && d.path == o.path && d.mtimeNs >= o.mtimeNs ==> d == o
  }

  /** dirtyTUs misses no stale unit as long as files only move forward. */
  lemma StaleIsDirty(files: seq<FileStamp>, deps: TuDependencies, meta: Meta, now: World, i: nat)
    requires IsRecord(meta, files, deps) && DistinctPaths(files) && i < |files|
    requires MovesForward(Listed(files, deps), now) && IsStale(deps, now, files[i].path)
    ensures IsDirty(meta, now, files[i])
  {
    hide Oldest, Listed;
    var listed := Listed(files, deps);
    var d :| d in ListOf(deps, files[i].path) && !SameParsedVersion(d, StampOf(now, d.path));
    ListedHas(files, deps, i);
    OldestIsOldest(listed, d.path);
    DirtyIff(files, deps, meta, now, i);
    var o := Oldest(listed, d.path);
    assert SameParsedVersion(o.value, StampOf(now, d.path)) ==> NewestAndOnly(listed, o.value);
    assert KeptChanged(listed, now, d.path);
  }

  // ---- a file put back to an older version -----------------------------------------------------

  const UNIT_A := FileStamp("a.cpp", 5, 1)
  const UNIT_B := FileStamp("b.cpp", 5, 1)
  const NEWER := FileStamp("h", 2 * NS_PER_SECOND, 1)
  const OLDER := FileStamp("h", NS_PER_SECOND, 1)
  const SAW: TuDependencies := map["a.cpp" := [NEWER], "b.cpp" := [OLDER]]
  const BACK: World := map["a.cpp" := (5, 1), "h" := (NS_PER_SECOND, 1)]

  lemma RolledBackRecord()
    ensures IsRecord(Meta([UNIT_A, UNIT_B], [OLDER], [[0], [0]]), [UNIT_A, UNIT_B], SAW)
  {
    var files, listed, meta := [UNIT_A, UNIT_B], [NEWER, OLDER], Meta([UNIT_A, UNIT_B], [OLDER], [[0], [0]]);
    assert "a.cpp"[0] != "b.cpp"[0];
    assert ListOf(SAW, "a.cpp") == [NEWER] && ListOf(SAW, "b.cpp") == [OLDER];
    assert Listed(files, SAW) == listed by {
      assert files[..1] == [UNIT_A] && [UNIT_A][..0] == [];
      assert Listed([UNIT_A], SAW) == [] + [NEWER] == [NEWER];
    }
    assert Oldest(listed, "h") == Some(OLDER) by {
      assert listed[..1] == [NEWER] && [NEWER][..0] == [];
      assert Oldest([], "h") == None && Oldest([NEWER], "h") == Some(NEWER);
    }
    hide Oldest, Listed;
    assert ListsKept(meta, listed, [NEWER], [0]) && ListsKept(meta, listed, [OLDER], [0]);
  }

  /** The unit that saw the newer version is stale and not dirty: its stamp gave way to the
      older one, which is what the disk has again. */
  lemma RolledBackFileIsMissed()
    ensures exists files: seq<FileStamp>, meta: Meta ::
      && IsRecord(meta, files, SAW) && DistinctPaths(files) && |files| == 2
      && IsStale(SAW, BACK, files[0].path) && StampOf(BACK, files[0].path) == files[0]
      && !IsDirty(meta, BACK, files[0])
  {
    var files, meta := [UNIT_A, UNIT_B], Meta([UNIT_A, UNIT_B], [OLDER], [[0], [0]]);
    RolledBackRecord();
    hide IsRecord;
    assert "a.cpp"[0] != "b.cpp"[0] && |"h"| == 1;
    EntryOf(files, 0);
    hide LastEntry;
    assert StampOf(BACK, "h") == OLDER && StampOf(BACK, "a.cpp") == UNIT_A;
    assert NEWER in ListOf(SAW, "a.cpp");
    hide StampOf;
    assert SameParsedVersion(OLDER, OLDER) && !SameParsedVersion(NEWER, OLDER);
    assert IsStale(SAW, BACK, "a.cpp");
    assert !IsDirty(meta, BACK, UNIT_A);
  }
}

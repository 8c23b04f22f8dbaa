/** Phase 1 across killed and resumed runs: a parse that keeps dying is given up, a parse that
    finished is never repeated (src/anneal/Analyzer.cpp:1296-1363, 1394-1417). */
module Resume {
  import opened EdgeTypes
  import opened Wire
  import opened Journal
  import opened Checkpoint

  /** Parses of a unit that were started, and those that were completed. */
  function Starts(log: seq<Record>, tu: Bytes): nat {
    if log == [] then 0
    else
      var r := log[|log| - 1];
      Starts(log[..|log| - 1], tu) + (if r.Attempt? && r.phase == PHASE_INDEX && r.tu == tu then 1 else 0)
  }

  function Dones(log: seq<Record>, tu: Bytes): nat {
    if log == [] then 0
    else
      var r := log[|log| - 1];
      Dones(log[..|log| - 1], tu) + (if r.Phase1? && r.tu == tu then 1 else 0)
  }

  /** Parses started although the unit was completed before. */
  function Reparses(log: seq<Record>, tu: Bytes): nat {
    if log == [] then 0
    else
      var r, before := log[|log| - 1], log[..|log| - 1];
      Reparses(before, tu) + (if r.Attempt? && r.phase == PHASE_INDEX && r.tu == tu && Dones(before, tu) > 0 then 1
        else 0)
  }

  ghost function StartsAt(log: seq<Record>, tu: Bytes): set<nat> {
    set i: nat | i < |log| && log[i].Attempt? && log[i].phase == 1 && log[i].tu == tu
  }

  ghost function DonesAt(log: seq<Record>, tu: Bytes): set<nat> {
    set i: nat | i < |log| && log[i].Phase1? && log[i].tu == tu
  }

  ghost function ReparsesAt(log: seq<Record>, tu: Bytes): set<nat> {
    set i: nat | i in StartsAt(log, tu) && exists j :: j in DonesAt(log, tu) && j < i
  }

  lemma OneMoreAt(before: seq<Record>, r: Record, tu: Bytes)
    ensures StartsAt(before + [r], tu) ==
      StartsAt(before, tu) + if r.Attempt? && r.phase == 1 && r.tu == tu then {|before|} else {}
    ensures DonesAt(before + [r], tu) == DonesAt(before, tu) + if r.Phase1? && r.tu == tu then {|before|} else {}
    ensures |before| !in StartsAt(before, tu) && |before| !in DonesAt(before, tu)
  {
    var log, n := before + [r], |before|;
    assert log[n] == r && forall i :: 0 <= i < n ==> log[i] == before[i];
  }

  lemma OneMoreReparse(before: seq<Record>, r: Record, tu: Bytes)
    ensures ReparsesAt(before + [r], tu) == ReparsesAt(before, tu)
      + if r.Attempt? && r.phase == 1 && r.tu == tu && DonesAt(before, tu) != {} then {|before|} else {}
    ensures |before| !in ReparsesAt(before, tu)
  {
    OneMoreAt(before, r, tu);
    assert forall i :: i in StartsAt(before, tu) || i in DonesAt(before, tu) ==> i < |before|;
    hide StartsAt, DonesAt;
    if DonesAt(before, tu) != {} {
      var j :| j in DonesAt(before, tu);
    }
  }

  /** The counts are of records in the journal. */
  lemma {:induction false} CountsAre(log: seq<Record>, tu: Bytes)
    ensures Starts(log, tu) == |StartsAt(log, tu)| && Dones(log, tu) == |DonesAt(log, tu)|
    ensures Reparses(log, tu) == |ReparsesAt(log, tu)|
  {
    if log != [] {
      var r, before := log[|log| - 1], log[..|log| - 1];
      hide StartsAt, DonesAt, ReparsesAt;
      CountsAre(before, tu);
      assert log == before + [r];
      OneMoreAt(before, r, tu);
      OneMoreReparse(before, r, tu);
    }
  }

  /** Every start the process did not live to complete. */
  function Deaths(log: seq<Record>, tu: Bytes): int {
    Starts(log, tu) - Dones(log, tu)
  }

  /** What the journal says of one unit whose file does not change. */
  ghost predicate History(log: seq<Record>, tu: Bytes, stamp: Stamp) {
    && Dones(log, tu) <= 1 && Dones(log, tu) <= Starts(log, tu) <= MAX_ATTEMPTS && Reparses(log, tu) == 0
    && StartsSince(log, PHASE_INDEX, tu, stamp) == (if Dones(log, tu) == 0 then Starts(log, tu) else 0)
    && (tu in Replay(EMPTY, log).phase1 <==> Dones(log, tu) == 1)
    && (tu in Replay(EMPTY, log).phase1 ==> Replay(EMPTY, log).phase1[tu].0 == stamp)
  }

  lemma LastRecord(log: seq<Record>, r: Record)
    ensures (log + [r])[|log + [r]| - 1] == r && (log + [r])[..|log + [r]| - 1] == log
  {
  }

  lemma OtherUnit(log: seq<Record>, r: Record, tu: Bytes, stamp: Stamp)
    requires History(log, tu, stamp) && r.tu != tu
    ensures History(log + [r], tu, stamp)
    ensures Starts(log + [r], tu) == Starts(log, tu) && Dones(log + [r], tu) == Dones(log, tu)
  {
    LastRecord(log, r);
    ReplayOne(EMPTY, log, r);
  }

  lemma OneStart(log: seq<Record>, tu: Bytes, stamp: Stamp)
    requires History(log, tu, stamp) && Dones(log, tu) == 0 && Starts(log, tu) < MAX_ATTEMPTS
    ensures var log' := log + [Attempt(PHASE_INDEX, tu, stamp)];
      History(log', tu, stamp) && Dones(log', tu) == 0 && Starts(log', tu) == Starts(log, tu) + 1
  {
    LastRecord(log, Attempt(PHASE_INDEX, tu, stamp));
    ReplayOne(EMPTY, log, Attempt(PHASE_INDEX, tu, stamp));
  }

  lemma OneDone(log: seq<Record>, tu: Bytes, stamp: Stamp, payload: Value)
    requires History(log, tu, stamp) && Dones(log, tu) == 0 && Starts(log, tu) > 0
    ensures var log' := log + [Phase1(tu, stamp, payload)];
      History(log', tu, stamp) && Dones(log', tu) == 1 && Starts(log', tu) == Starts(log, tu)
  {
    LastRecord(log, Phase1(tu, stamp, payload));
    ReplayOne(EMPTY, log, Phase1(tu, stamp, payload));
  }

  // ---- one run ----------------------------------------------------------------------------------------

  ghost predicate DistinctUnits(files: seq<Bytes>) {
    forall i, j :: 0 <= i < j < |files| ==> files[i] != files[j]
  }

  /** Every unit has a stamp of its own and a contribution the journal can carry. */
  ghost predicate Stamped(files: seq<Bytes>, stamps: map<Bytes, Stamp>, parse: Bytes -> Value) {
    forall f :: f in files ==>
      f in stamps && Writable(Attempt(PHASE_INDEX, f, stamps[f])) && Writable(Phase1(f, stamps[f], parse(f)))
  }

  ghost predicate Histories(log: seq<Record>, files: seq<Bytes>, stamps: map<Bytes, Stamp>) {
    forall f :: f in files ==> f in stamps && History(log, f, stamps[f])
  }

  /** Every completion on record carries what the parse gave. */
  ghost predicate Contributions(log: seq<Record>, files: seq<Bytes>, parse: Bytes -> Value) {
    forall r :: r in log && r.Phase1? && r.tu in files ==> r.payload == parse(r.tu)
  }

  lemma OneMoreContribution(log: seq<Record>, files: seq<Bytes>, parse: Bytes -> Value, r: Record)
    requires Contributions(log, files, parse) && (r.Phase1? ==> r.payload == parse(r.tu))
    ensures Contributions(log + [r], files, parse)
  {
  }

  /** So what is found of a unit is what its parse gave. */
  lemma FoundContribution(log: seq<Record>, files: seq<Bytes>, parse: Bytes -> Value, f: Bytes)
    requires Contributions(log, files, parse) && f in files && f in Replay(EMPTY, log).phase1
    ensures Replay(EMPTY, log).phase1[f].1 == parse(f)
  {
    ReplayHoldsLast(log, f);
    hide Replay;
    var i: nat :| LastPhase1(log, f, i);
    assert log[i] in log;
  }

  /** Neither completed nor given up. */
  ghost predicate Pending(log: seq<Record>, tu: Bytes) {
    Dones(log, tu) == 0 && Starts(log, tu) < MAX_ATTEMPTS
  }

  /** The units to parse: not replayed from the journal, not given up; and the contributions of
      those that are replayed. */
  method Plan(ckpt: AnnealCheckpoint, files: seq<Bytes>, stamps: map<Bytes, Stamp>, ghost parse: Bytes -> Value)
    returns (toIndex: seq<Bytes>, replayed: map<Bytes, Value>)
    requires ckpt.Valid() && ckpt.Loaded() == Replay(EMPTY, ckpt.log)
    requires DistinctUnits(files) && Histories(ckpt.log, files, stamps) && Contributions(ckpt.log, files, parse)
    ensures DistinctUnits(toIndex) && forall f :: f in toIndex <==> f in files && Pending(ckpt.log, f)
    ensures forall f :: f in replayed <==> f in files && Dones(ckpt.log, f) == 1
    ensures forall f :: f in replayed ==> replayed[f] == parse(f)
  {
    hide Writable, Journaled, Replay, Contributions;
    toIndex, replayed := [], map[];
    for i := 0 to |files|
      invariant DistinctUnits(toIndex) && forall f :: f in toIndex <==> f in files[..i] && Pending(ckpt.log, f)
      invariant forall f :: f in replayed <==> f in files[..i] && Dones(ckpt.log, f) == 1
      invariant forall f :: f in replayed ==> replayed[f] == parse(f)
    {
      var f := files[i];
      assert files[..i + 1] == files[..i] + [f] && f !in files[..i];
      assert History(ckpt.log, f, stamps[f]);
      AttemptsAreStarts(ckpt.log, PHASE_INDEX, f, stamps[f]);
      var found := ckpt.Replayable(f, stamps[f]);
      if found.Some? {
        FoundContribution(ckpt.log, files, parse, f);
        replayed := replayed[f := found.value];
      } else if ckpt.AttemptsOf(PHASE_INDEX, f, stamps[f]) < MAX_ATTEMPTS {
        toIndex := toIndex + [f];
      }
    }
    assert files[..|files|] == files;
  }

  lemma StartKeeps(log: seq<Record>, files: seq<Bytes>, stamps: map<Bytes, Stamp>, f: Bytes)
    requires Histories(log, files, stamps) && f in files && Pending(log, f)
    ensures var log' := log + [Attempt(PHASE_INDEX, f, stamps[f])];
      && Histories(log', files, stamps) && Dones(log', f) == 0 && Starts(log', f) == Starts(log, f) + 1
      && forall g :: g in files && g != f ==> Starts(log', g) == Starts(log, g) && Dones(log', g) == Dones(log, g)
  {
    hide History;
    var r := Attempt(PHASE_INDEX, f, stamps[f]);
    OneStart(log, f, stamps[f]);
    forall g | g in files && g != f
      ensures History(log + [r], g, stamps[g]) && Starts(log + [r], g) == Starts(log, g)
      ensures Dones(log + [r], g) == Dones(log, g)
    {
      OtherUnit(log, r, g, stamps[g]);
    }
  }

  lemma DoneKeeps(log: seq<Record>, files: seq<Bytes>, stamps: map<Bytes, Stamp>, f: Bytes, payload: Value)
    requires Histories(log, files, stamps) && f in files && Dones(log, f) == 0 && Starts(log, f) > 0
    ensures var log' := log + [Phase1(f, stamps[f], payload)];
      && Histories(log', files, stamps) && Dones(log', f) == 1 && Starts(log', f) == Starts(log, f)
      && forall g :: g in files && g != f ==> Starts(log', g) == Starts(log, g) && Dones(log', g) == Dones(log, g)
  {
    hide History;
    var r := Phase1(f, stamps[f], payload);
    OneDone(log, f, stamps[f], payload);
    forall g | g in files && g != f
      ensures History(log + [r], g, stamps[g]) && Starts(log + [r], g) == Starts(log, g)
      ensures Dones(log + [r], g) == Dones(log, g)
    {
      OtherUnit(log, r, g, stamps[g]);
    }
  }

  /** Settled: completed, or given up. */
  ghost predicate Settled(log: seq<Record>, tu: Bytes) {
    Dones(log, tu) == 1 || Starts(log, tu) == MAX_ATTEMPTS
  }

  /** One serial run. `budget` is how many journal appends the process lives to make: after the
      last it is killed, in the middle of a parse or between two. `index` is what it has of each
      unit by then, replayed or parsed. */
  method Phase1Run(ckpt: AnnealCheckpoint, files: seq<Bytes>, stamps: map<Bytes, Stamp>, parse: Bytes -> Value,
                   budget: nat)
    returns (index: map<Bytes, Value>)
    requires ckpt.Valid() && ckpt.Loaded() == Replay(EMPTY, ckpt.log)
    requires DistinctUnits(files) && Stamped(files, stamps, parse) && Histories(ckpt.log, files, stamps)
    requires Contributions(ckpt.log, files, parse)
    modifies ckpt
    ensures ckpt.Valid() && Histories(ckpt.log, files, stamps) && Contributions(ckpt.log, files, parse)
    ensures forall f :: f in files && Settled(old(ckpt.log), f) ==> Settled(ckpt.log, f)
    ensures budget >= 2 * |files| ==> forall f :: f in files ==> Settled(ckpt.log, f)
    ensures forall f :: f in index <==> f in files && Dones(ckpt.log, f) == 1
    ensures forall f :: f in index ==> index[f] == parse(f)
  {
    hide Writable, Journaled, Replay, Histories, Starts, Dones, Contributions, AnnealCheckpoint.Valid;
    var toIndex;
    toIndex, index := Plan(ckpt, files, stamps, parse);
    Planned(ckpt.log, files, stamps, toIndex);
    var left := budget;
    forall f | f in files && Settled(ckpt.log, f) ensures f !in toIndex {}
    for i := 0 to |toIndex|
      invariant ckpt.Valid() && Histories(ckpt.log, files, stamps) && Contributions(ckpt.log, files, parse)
      invariant left == budget - 2 * i
      invariant forall k :: i <= k < |toIndex| ==> Pending(ckpt.log, toIndex[k])
      invariant forall f :: f in files && f !in toIndex[i..] ==> Settled(ckpt.log, f)
      invariant forall f :: f in index <==> f in files && Dones(ckpt.log, f) == 1
      invariant forall f :: f in index ==> index[f] == parse(f)
    {
      var f := toIndex[i];
      assert f in toIndex;
      if left == 0 { return; }
      StartKeeps(ckpt.log, files, stamps, f);
      OneMoreContribution(ckpt.log, files, parse, Attempt(PHASE_INDEX, f, stamps[f]));
      ckpt.RecordAttempt(PHASE_INDEX, f, stamps[f]);
      if left == 1 { return; }
      DoneKeeps(ckpt.log, files, stamps, f, parse(f));
      OneMoreContribution(ckpt.log, files, parse, Phase1(f, stamps[f], parse(f)));
      ckpt.RecordPhase1(f, stamps[f], parse(f));
      index := index[f := parse(f)];
      left := left - 2;
      assert toIndex[i..] == [f] + toIndex[i + 1..];
    }
  }

  lemma {:induction false} Planned(log: seq<Record>, files: seq<Bytes>, stamps: map<Bytes, Stamp>, toIndex: seq<Bytes>)
    requires Histories(log, files, stamps) && DistinctUnits(toIndex) && DistinctUnits(files)
    requires forall f :: f in toIndex <==> f in files && Pending(log, f)
    ensures |toIndex| <= |files|
    ensures forall f :: f in files && f !in toIndex ==> Settled(log, f)
  {
    hide Starts, Dones, Reparses, StartsSince;
    forall f | f in files && f !in toIndex ensures Settled(log, f) {
      assert History(log, f, stamps[f]);
    }
    NoMore(toIndex, files);
  }

  lemma {:induction false} NoMore(a: seq<Bytes>, b: seq<Bytes>)
    requires DistinctUnits(a) && forall f :: f in a ==> f in b
    ensures |a| <= |b|
  {
    if a != [] {
      var n := |a| - 1;
      assert a[n] in a;
      var j :| 0 <= j < |b| && b[j] == a[n];
      var rest := b[..j] + b[j + 1..];
      forall f | f in a[..n] ensures f in rest {
        assert f in a && f != a[n];
        var k :| 0 <= k < |b| && b[k] == f;
        if k < j { assert rest[k] == f; } else { assert rest[k - 1] == f; }
      }
      NoMore(a[..n], rest);
    }
  }

  // ---- any number of runs -------------------------------------------------------------------------------

  lemma NothingYet(files: seq<Bytes>, stamps: map<Bytes, Stamp>)
    requires forall f :: f in files ==> f in stamps
    ensures Histories([], files, stamps)
  {
  }

  /** What the next run will find on disk: the unit's contribution or all its attempts used up,
      exactly when the unit is settled. */
  ghost predicate Found(disk: Bytes, tu: Bytes, stamp: Stamp) {
    |disk| >= 16 && var st := Load(disk[16..], EMPTY);
      (tu in st.phase1 && st.phase1[tu].0 == stamp) || Attempts(st.attempts, PHASE_INDEX, tu, stamp) >= MAX_ATTEMPTS
  }

  lemma FoundIsSettled(disk: Bytes, fingerprint: nat, log: seq<Record>, files: seq<Bytes>, stamps: map<Bytes, Stamp>,
                       tu: Bytes)
    requires OnDisk(Some(disk), fingerprint, log) && Histories(log, files, stamps) && tu in files && tu in stamps
    ensures Found(disk, tu, stamps[tu]) <==> Settled(log, tu)
  {
    assert History(log, tu, stamps[tu]);
    hide Replay, Journaled, Writable, Starts, Dones, Reparses, StartsSince;
    ReloadAgrees(disk, fingerprint, log);
    AttemptsAreStarts(log, PHASE_INDEX, tu, stamps[tu]);
  }

  /** Any sequence of killed and resumed runs over one journal. */
  method Runs(files: seq<Bytes>, stamps: map<Bytes, Stamp>, parse: Bytes -> Value, fingerprint: nat, budgets: seq<nat>)
    returns (disk: Option<Bytes>, ghost log: seq<Record>)
    requires fingerprint < TWO64 && DistinctUnits(files) && Stamped(files, stamps, parse)
    ensures OnDisk(disk, fingerprint, log)
    ensures forall f :: f in files ==> Deaths(log, f) <= 2 && Dones(log, f) <= 1 && Reparses(log, f) == 0
    ensures TotalDeaths(log, files) <= 2 * |files|
    ensures forall f :: f in files && Dones(log, f) == 1 ==>
      disk.Some? && FoundWith(disk.value, f, stamps[f], parse(f))
    ensures (exists k :: 0 <= k < |budgets| && budgets[k] >= 2 * |files|) ==>
      disk.Some? && forall f :: f in files ==> Settled(log, f) && Found(disk.value, f, stamps[f])
    ensures disk.Some? ==> Reusable(disk, fingerprint)
  {
    hide Writable, Journaled, Replay, Histories, Starts, Dones, Reparses, StartsSince, Contributions;
    disk, log := None, [];
    NothingYet(files, stamps);
    NoContributions(files, parse);
    for k := 0 to |budgets|
      invariant OnDisk(disk, fingerprint, log) && Histories(log, files, stamps) && Contributions(log, files, parse)
      invariant disk.Some? <==> k > 0
      invariant (exists j :: 0 <= j < k && budgets[j] >= 2 * |files|) ==> forall f :: f in files ==> Settled(log, f)
    {
      var ckpt := new AnnealCheckpoint(disk, fingerprint, log);
      var index := Phase1Run(ckpt, files, stamps, parse, budgets[k]);
      disk, log := Some(ckpt.file), ckpt.log;
    }
    AtMostTwoDeaths(log, files, stamps);
    OpenWhole(disk, fingerprint, log);
    if disk.Some? {
      forall f | f in files ensures Found(disk.value, f, stamps[f]) <==> Settled(log, f) {
        FoundIsSettled(disk.value, fingerprint, log, files, stamps, f);
      }
    }
    forall f | f in files && Dones(log, f) == 1
      ensures disk.Some? && FoundWith(disk.value, f, stamps[f], parse(f))
    {
      DoneIsFound(disk, fingerprint, log, files, stamps, parse, f);
    }
  }

  /** The next run will find this contribution of the unit on disk. */
  ghost predicate FoundWith(disk: Bytes, f: Bytes, stamp: Stamp, payload: Value) {
    |disk| >= 16 && var found := Load(disk[16..], EMPTY).phase1; f in found && found[f] == (stamp, payload)
  }

  lemma NoContributions(files: seq<Bytes>, parse: Bytes -> Value)
    ensures Contributions([], files, parse)
  {
  }

  /** A completed unit is found on disk with what its parse gave. */
  lemma DoneIsFound(disk: Option<Bytes>, fingerprint: nat, log: seq<Record>, files: seq<Bytes>,
                    stamps: map<Bytes, Stamp>, parse: Bytes -> Value, f: Bytes)
    requires OnDisk(disk, fingerprint, log) && Histories(log, files, stamps) && Contributions(log, files, parse)
    requires f in files && f in stamps && Dones(log, f) == 1
    ensures disk.Some? && FoundWith(disk.value, f, stamps[f], parse(f))
  {
    assert History(log, f, stamps[f]);
    hide Replay, Journaled, Writable, Starts, Reparses, StartsSince, Contributions;
    FoundContribution(log, files, parse, f);
    ReloadAgrees(disk.value, fingerprint, log);
  }

  function TotalDeaths(log: seq<Record>, files: seq<Bytes>): int {
    if files == [] then 0 else TotalDeaths(log, files[..|files| - 1]) + Deaths(log, files[|files| - 1])
  }

  /** All starts, over all units, less all completions. */
  lemma TotalDeathsAre(log: seq<Record>, files: seq<Bytes>, f: Bytes)
    ensures TotalDeaths(log, []) == 0
    ensures TotalDeaths(log, files + [f]) == TotalDeaths(log, files) + |StartsAt(log, f)| - |DonesAt(log, f)|
  {
    CountsAre(log, f);
    assert (files + [f])[..|files|] == files;
  }

  lemma {:induction false} AtMostTwoDeaths(log: seq<Record>, files: seq<Bytes>, stamps: map<Bytes, Stamp>)
    requires Histories(log, files, stamps)
    ensures forall f :: f in files ==> Deaths(log, f) <= MAX_ATTEMPTS && Dones(log, f) <= 1 && Reparses(log, f) == 0
    ensures forall f :: f in files ==> |StartsAt(log, f)| <= 2 && |DonesAt(log, f)| <= 1 && ReparsesAt(log, f) == {}
    ensures TotalDeaths(log, files) <= 2 * |files|
  {
    hide Replay, StartsSince, Starts, Dones, Reparses, StartsAt, DonesAt, ReparsesAt;
    forall f | f in files
      ensures Deaths(log, f) <= MAX_ATTEMPTS && Dones(log, f) <= 1 && Reparses(log, f) == 0
      ensures |StartsAt(log, f)| <= 2 && |DonesAt(log, f)| <= 1 && ReparsesAt(log, f) == {}
    {
      assert History(log, f, stamps[f]);
      CountsAre(log, f);
    }
    if files != [] {
      assert files == files[..|files| - 1] + [files[|files| - 1]];
      AtMostTwoDeaths(log, files[..|files| - 1], stamps);
    }
  }
}

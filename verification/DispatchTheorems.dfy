/** What every interleaving of the dispatch threads and the parent keeps, and where it ends
    (src/callgraph/WorkerPool.cpp:44-246). */
module DispatchTheorems {
  import opened EdgeTypes
  import opened WorkerPool

  // ---- counting units --------------------------------------------------------------------------

  ghost function Occurs(b: Batch, t: string): nat {
    multiset(b)[t]
  }

  ghost function Times(batches: seq<Batch>, t: string): nat {
    if batches == [] then 0 else Times(batches[..|batches| - 1], t) + Occurs(batches[|batches| - 1], t)
  }

  ghost function TimesIn(results: seq<Finished>, t: string): nat {
    if results == [] then 0 else TimesIn(results[..|results| - 1], t) + Occurs(results[|results| - 1].batch, t)
  }

  ghost function InHand(p: Parent, t: string): nat {
    match p
    case Holding(res) => Occurs(res.batch, t)
    case Requeuing(bs) => Times(bs, t)
    case _ => 0
  }

  ghost function Busy(running: seq<Batch>): nat {
    if running == [] then 0 else Busy(running[..|running| - 1]) + (if running[|running| - 1] != [] then 1 else 0)
  }

  lemma OccursConcat(a: Batch, b: Batch, t: string)
    ensures Occurs(a + b, t) == Occurs(a, t) + Occurs(b, t)
    ensures Occurs([], t) == 0
    ensures Occurs(a, t) > 0 <==> t in a
  {
  }

  lemma TimesOne(batches: seq<Batch>, b: Batch, t: string)
    ensures Times(batches + [b], t) == Times(batches, t) + Occurs(b, t)
  {
    assert (batches + [b])[..|batches|] == batches;
  }

  lemma TimesInOne(results: seq<Finished>, r: Finished, t: string)
    ensures TimesIn(results + [r], t) == TimesIn(results, t) + Occurs(r.batch, t)
  {
    assert (results + [r])[..|results|] == results;
  }

  lemma {:induction false} TimesFirst(batches: seq<Batch>, t: string)
    requires batches != []
    ensures Times(batches, t) == Occurs(batches[0], t) + Times(batches[1..], t)
  {
    hide Occurs;
    if |batches| > 1 {
      TimesFirst(batches[..|batches| - 1], t);
      assert batches[1..][..|batches| - 2] == batches[..|batches| - 1][1..];
    } else {
      assert batches[..0] == [] && batches[1..] == [];
    }
  }

  lemma {:induction false} TimesInFirst(results: seq<Finished>, t: string)
    requires results != []
    ensures TimesIn(results, t) == Occurs(results[0].batch, t) + TimesIn(results[1..], t)
  {
    hide Occurs;
    if |results| > 1 {
      TimesInFirst(results[..|results| - 1], t);
      assert results[1..][..|results| - 2] == results[..|results| - 1][1..];
    } else {
      assert results[..0] == [] && results[1..] == [];
    }
  }

  lemma {:induction false} TimesUpdate(batches: seq<Batch>, i: nat, b: Batch, t: string)
    requires i < |batches|
    ensures Times(batches[i := b], t) + Occurs(batches[i], t) == Times(batches, t) + Occurs(b, t)
  {
    hide Occurs;
    var n := |batches| - 1;
    if i == n {
      assert batches[i := b][..n] == batches[..n];
    } else {
      TimesUpdate(batches[..n], i, b, t);
      assert batches[i := b][..n] == batches[..n][i := b];
    }
  }

  lemma {:induction false} BusyUpdate(batches: seq<Batch>, i: nat, b: Batch)
    requires i < |batches|
    ensures Busy(batches[i := b]) + (if batches[i] != [] then 1 else 0) == Busy(batches) + (if b != [] then 1 else 0)
  {
    var n := |batches| - 1;
    if i == n {
      assert batches[i := b][..n] == batches[..n];
    } else {
      BusyUpdate(batches[..n], i, b);
      assert batches[i := b][..n] == batches[..n][i := b];
    }
  }

  lemma {:induction false} WithoutOccurs(b: Batch, tu: string, t: string)
    ensures Occurs(Without(b, tu), t) == if t == tu then 0 else Occurs(b, t)
  {
    if b != [] {
      WithoutOccurs(b[..|b| - 1], tu, t);
      assert b == b[..|b| - 1] + [b[|b| - 1]];
    }
  }

  // ---- the retry counters ------------------------------------------------------------------------

  lemma {:induction false} BumpedCount(retries: map<string, nat>, tus: Batch, t: string)
    ensures Retries(Bumped(retries, tus), t) == Retries(retries, t) + Occurs(tus, t)
  {
    if tus != [] {
      BumpedCount(retries, tus[..|tus| - 1], t);
      assert tus == tus[..|tus| - 1] + [tus[|tus| - 1]];
    }
  }

  /** Of a unit that occurs once, the one occurrence is kept or poisoned by its counter. */
  lemma {:induction false} TriageOccurs(retries: map<string, nat>, tus: Batch, kept: bool, t: string)
    requires Occurs(tus, t) <= 1
    ensures Occurs(Triage(retries, tus, kept), t)
         == if (Retries(retries, t) + 1 <= MAX_TU_RETRIES) == kept then Occurs(tus, t) else 0
  {
    if tus != [] {
      var init := tus[..|tus| - 1];
      assert tus == init + [tus[|tus| - 1]];
      TriageOccurs(retries, init, kept, t);
      BumpedCount(retries, init, t);
    }
  }

  // ---- the invariant -------------------------------------------------------------------------------

  ghost predicate DistinctFiles(files: seq<string>) {
    forall t :: Occurs(files, t) <= 1
  }

  /** How often a unit is queued, running, awaiting the parent, in its hand, consumed or
      poisoned. */
  ghost function Places(s: State, t: string): nat {
    Times(s.work, t) + Times(s.running, t) + TimesIn(s.results, t) + InHand(s.parent, t) + Times(s.consumed, t)
      + Occurs(s.poisoned, t)
  }

  /** Each unit is in exactly one place. */
  ghost predicate OnePlace(s: State, files: seq<string>) {
    forall t :: Places(s, t) == Occurs(files, t)
  }

  /** The counter the parent waits on. */
  ghost predicate Counted(s: State) {
    s.outstanding == |s.work| + Busy(s.running) + |s.results|
  }

  ghost predicate NoEmptyBatch(s: State) {
    && (forall b :: b in s.work ==> b != [])
    && (forall r :: r in s.results ==> r.batch != [])
    && (s.parent.Holding? ==> s.parent.res.batch != [])
    && (forall b :: b in s.calls ==> b != [])
    && (forall b :: b in s.consumed ==> b != [])
  }

  /** How often a unit was put into a batch: once, and once for each retry it had left. */
  ghost predicate Attempts(s: State, files: seq<string>) {
    forall t :: Dispatches(s, t) == if Occurs(files, t) == 0 then 0 else 1 + Min(Retries(s.retries, t), MAX_TU_RETRIES)
  }

  ghost function Dispatches(s: State, t: string): nat {
    Times(s.calls, t) + Times(s.work, t)
  }

  ghost predicate Inv(s: State, files: seq<string>) {
    && OnePlace(s, files) && Counted(s) && NoEmptyBatch(s) && Attempts(s, files)
    && (s.parent.Stopped? ==> s.outstanding == 0) && s.running != []
  }

  lemma TakeKeeps(s: State, files: seq<string>, i: nat)
    requires Inv(s, files) && Enabled(s, Take(i))
    ensures Inv(After(s, Take(i)), files)
  {
    hide Times, Occurs, TimesIn, InHand, Busy;
    var s' := After(s, Take(i));
    BusyUpdate(s.running, i, s.work[0]);
    assert s.work[0] in s.work && s.running[i] == [];
    forall t ensures Places(s', t) == Places(s, t) && Dispatches(s', t) == Dispatches(s, t) {
      TimesFirst(s.work, t);
      TimesUpdate(s.running, i, s.work[0], t);
      TimesOne(s.calls, s.work[0], t);
      OccursConcat([], [], t);
    }
    forall b | b in s'.work ensures b in s.work {}
    forall b | b in s'.calls ensures b in s.calls || b == s.work[0] {}
    assert |s'.running| == |s.running|;
  }

  lemma FinishKeeps(s: State, files: seq<string>, i: nat, ok: bool)
    requires Inv(s, files) && Enabled(s, Finish(i, ok))
    ensures Inv(After(s, Finish(i, ok)), files)
  {
    hide Times, Occurs, TimesIn, InHand, Busy;
    var s' := After(s, Finish(i, ok));
    BusyUpdate(s.running, i, []);
    forall t ensures Places(s', t) == Places(s, t) && Dispatches(s', t) == Dispatches(s, t) {
      TimesUpdate(s.running, i, [], t);
      TimesInOne(s.results, Finished(s.running[i], ok), t);
      OccursConcat([], [], t);
    }
  }

  lemma PopKeeps(s: State, files: seq<string>)
    requires Inv(s, files) && Enabled(s, Pop)
    ensures Inv(After(s, Pop), files)
  {
    hide Times, Occurs, TimesIn, Busy;
    var s' := After(s, Pop);
    assert s.results[0] in s.results;
    forall t ensures Places(s', t) == Places(s, t) && Dispatches(s', t) == Dispatches(s, t) {
      TimesInFirst(s.results, t);
    }
  }

  lemma NothingOccurs(t: string)
    ensures Times([], t) == 0 && Occurs([], t) == 0
  {
  }

  lemma PartsOccur(b: Batch, marker: Option<string>, t: string)
    requires b != [] && Occurs(b, t) <= 1
    ensures Times(Parts(b, marker), t) + Occurs(Presumed(b, marker), t) == Occurs(b, t)
  {
    hide Times, Without;
    NothingOccurs(t);
    if marker.Some? && marker.value in b {
      WithoutOccurs(b, marker.value, t);
      TimesOne([], Without(b, marker.value), t);
      assert [] + [Without(b, marker.value)] == [Without(b, marker.value)];
    } else if |b| > 1 {
      var mid := |b| / 2;
      assert b[..mid] + b[mid..] == b;
      OccursConcat(b[..mid], b[mid..], t);
      TimesOne([b[..mid]], b[mid..], t);
      TimesOne([], b[..mid], t);
      assert [] + [b[..mid]] == [b[..mid]] && [b[..mid]] + [b[mid..]] == [b[..mid], b[mid..]];
    }
  }

  lemma HandleKeeps(s: State, files: seq<string>, readable: bool, marker: Option<string>)
    requires Inv(s, files) && DistinctFiles(files) && Enabled(s, Handle(readable, marker))
    ensures Inv(After(s, Handle(readable, marker)), files)
  {
    hide Times, Occurs, TimesIn, Parts, Presumed, Busy;
    var s', b := After(s, Handle(readable, marker)), s.parent.res.batch;
    forall t ensures Places(s', t) == Places(s, t) && Dispatches(s', t) == Dispatches(s, t) {
      assert Places(s, t) == Occurs(files, t) <= 1;
      TimesOne(s.consumed, b, t);
      PartsOccur(b, marker, t);
      OccursConcat(s.poisoned, Presumed(b, marker), t);
    }
  }

  lemma RequeueOccurs(s: State, t: string)
    requires s.parent.Requeuing? && s.parent.batches != [] && Occurs(s.parent.batches[0], t) <= 1
    ensures var s' := RequeueOne(s); var tus := s.parent.batches[0];
      && Places(s', t) == Places(s, t)
      && Dispatches(s', t) == Dispatches(s, t)
            + (if Retries(s.retries, t) + 1 <= MAX_TU_RETRIES then Occurs(tus, t) else 0)
      && Retries(s'.retries, t) == Retries(s.retries, t) + Occurs(tus, t)
  {
    hide Times, Occurs, TimesIn, Triage, Bumped, Retries;
    var s', tus := RequeueOne(s), s.parent.batches[0];
    var kept, spent := Triage(s.retries, tus, true), Triage(s.retries, tus, false);
    TimesFirst(s.parent.batches, t);
    TimesOne(s.work, kept, t);
    assert s.work + [] == s.work;
    TriageOccurs(s.retries, tus, true, t);
    TriageOccurs(s.retries, tus, false, t);
    BumpedCount(s.retries, tus, t);
    OccursConcat(s.poisoned, spent, t);
  }

  lemma RequeueKeeps(s: State, files: seq<string>)
    requires Inv(s, files) && DistinctFiles(files) && Enabled(s, Requeue)
    ensures Inv(After(s, Requeue), files)
  {
    hide Times, Occurs, TimesIn, Triage, Bumped, Retries, Busy;
    var s' := After(s, Requeue);
    if s.parent.batches == [] {
      forall t ensures Places(s', t) == Places(s, t) && Dispatches(s', t) == Dispatches(s, t) {
        assert Times([], t) == 0 by { NoTimes(t); }
      }
    } else {
      forall t
        ensures Places(s', t) == Occurs(files, t)
        ensures Dispatches(s', t) == if Occurs(files, t) == 0 then 0
          else 1 + Min(Retries(s'.retries, t), MAX_TU_RETRIES)
      {
        assert Places(s, t) == Occurs(files, t) <= 1;
        TimesFirst(s.parent.batches, t);
        RequeueOccurs(s, t);
      }
    }
  }

  lemma NoTimes(t: string)
    ensures Times([], t) == 0
  {
  }

  /** Every step of every thread keeps the invariant. */
  lemma StepKeeps(s: State, files: seq<string>, e: Event)
    requires Inv(s, files) && DistinctFiles(files) && Enabled(s, e)
    ensures Inv(After(s, e), files)
  {
    hide Times, Occurs, TimesIn, Busy, OnePlace, Attempts, NoEmptyBatch, DistinctFiles;
    match e
    case Take(i) => TakeKeeps(s, files, i);
    case Finish(i, ok) => FinishKeeps(s, files, i, ok);
    case Pop => PopKeeps(s, files);
    case Handle(readable, marker) => HandleKeeps(s, files, readable, marker);
    case Requeue => RequeueKeeps(s, files);
    case Stop => StopKeeps(s, files);
  }

  lemma StopKeeps(s: State, files: seq<string>)
    requires Inv(s, files) && Enabled(s, Event.Stop)
    ensures Inv(After(s, Event.Stop), files)
  {
    hide Times, Occurs, TimesIn, Busy;
    var s' := After(s, Event.Stop);
    assert forall t :: Places(s', t) == Places(s, t) && Dispatches(s', t) == Dispatches(s, t);
  }

  // ---- the start ---------------------------------------------------------------------------------------

  lemma {:induction false} ChunksCover(files: seq<string>, size: nat, t: string)
    requires size > 0
    ensures Times(Chunks(files, size), t) == Occurs(files, t)
  {
    if files == [] {
      OccursConcat([], [], t);
    } else {
      hide Occurs, Times;
      var k := Min(size, |files|);
      ChunksCover(files[k..], size, t);
      var chunks := Chunks(files, size);
      assert chunks[0] == files[..k] && chunks[1..] == Chunks(files[k..], size);
      TimesFirst(chunks, t);
      assert files[..k] + files[k..] == files;
      OccursConcat(files[..k], files[k..], t);
    }
  }

  lemma {:induction false} ChunksAreNotEmpty(files: seq<string>, size: nat)
    requires size > 0
    ensures forall b :: b in Chunks(files, size) ==> 0 < |b| <= size
  {
    if files != [] {
      ChunksAreNotEmpty(files[Min(size, |files|)..], size);
    }
  }

  lemma {:induction false} IdleThreads(running: seq<Batch>, t: string)
    requires forall i :: 0 <= i < |running| ==> running[i] == []
    ensures Times(running, t) == 0 && Busy(running) == 0
  {
    if running != [] {
      IdleThreads(running[..|running| - 1], t);
      OccursConcat([], [], t);
    }
  }

  /** The dispatch starts with every unit queued. */
  lemma InitialOk(files: seq<string>, size: nat, workers: nat)
    requires size > 0 && workers > 0 && DistinctFiles(files)
    ensures Inv(Initial(Chunks(files, size), workers), files)
  {
    hide Occurs, Busy, Chunks;
    var s := Initial(Chunks(files, size), workers);
    ChunksAreNotEmpty(files, size);
    IdleThreads(s.running, "");
    forall t ensures Places(s, t) == Occurs(files, t) && Dispatches(s, t) == Occurs(files, t) {
      ChunksCover(files, size, t);
      IdleThreads(s.running, t);
      OccursConcat([], [], t);
    }
  }

  // ---- runs -----------------------------------------------------------------------------------------------

  /** The steps of all threads in the order they happened. */
  ghost predicate IsRun(s: State, events: seq<Event>)
    decreases |events|
  {
    events == [] || (Enabled(s, events[0]) && IsRun(After(s, events[0]), events[1..]))
  }

  ghost function Final(s: State, events: seq<Event>): State
    requires IsRun(s, events)
    decreases |events|
  {
    if events == [] then s else Final(After(s, events[0]), events[1..])
  }

  /** Safety over whole runs: each unit is in exactly one place after any steps. */
  lemma {:induction false} RunKeeps(s: State, files: seq<string>, events: seq<Event>)
    requires Inv(s, files) && DistinctFiles(files) && IsRun(s, events)
    ensures Inv(Final(s, events), files)
    decreases |events|
  {
    hide Inv, DistinctFiles, After, Enabled;
    if events != [] {
      StepKeeps(s, files, events[0]);
      RunKeeps(After(s, events[0]), files, events[1..]);
    }
  }

  // ---- the number of runner calls ---------------------------------------------------------------------------

  ghost function Size(batches: seq<Batch>): nat {
    if batches == [] then 0 else Size(batches[..|batches| - 1]) + |batches[|batches| - 1]|
  }

  ghost function Flat(batches: seq<Batch>): Batch {
    if batches == [] then [] else Flat(batches[..|batches| - 1]) + batches[|batches| - 1]
  }

  lemma {:induction false} FlatCounts(batches: seq<Batch>, t: string)
    ensures Occurs(Flat(batches), t) == Times(batches, t)
  {
    if batches != [] {
      FlatCounts(batches[..|batches| - 1], t);
      OccursConcat(Flat(batches[..|batches| - 1]), batches[|batches| - 1], t);
    }
  }

  lemma {:induction false} FlatSize(batches: seq<Batch>)
    ensures |Flat(batches)| == Size(batches)
  {
    if batches != [] {
      FlatSize(batches[..|batches| - 1]);
    }
  }

  lemma {:induction false} SizeFirst(batches: seq<Batch>)
    requires batches != []
    ensures Size(batches) == |batches[0]| + Size(batches[1..])
  {
    if |batches| > 1 {
      SizeFirst(batches[..|batches| - 1]);
      assert batches[1..][..|batches| - 2] == batches[..|batches| - 1][1..];
    } else {
      assert batches[..0] == [] && batches[1..] == [];
    }
  }

  lemma SizeOne(batches: seq<Batch>, b: Batch)
    ensures Size(batches + [b]) == Size(batches) + |b|
  {
    assert (batches + [b])[..|batches|] == batches;
  }

  lemma {:induction false} AtLeastOneEach(batches: seq<Batch>)
    requires forall b :: b in batches ==> b != []
    ensures |batches| <= Size(batches)
  {
    if batches != [] {
      var init := batches[..|batches| - 1];
      assert batches[|batches| - 1] in batches;
      forall b | b in init ensures b != [] {
        assert b in batches;
      }
      AtLeastOneEach(init);
    }
  }

  lemma SubMultisetSize(a: multiset<string>, b: multiset<string>)
    requires a <= b
    ensures |a| <= |b|
  {
    assert b == a + (b - a);
  }

  /** Units put into batches so far. */
  ghost function Dispatched(s: State): nat {
    Size(s.calls) + Size(s.work)
  }

  /** No unit is dispatched more than three times, so the runner is called at most three times
      per file. */
  lemma AtMostThreeCalls(s: State, files: seq<string>)
    requires Inv(s, files) && DistinctFiles(files)
    ensures forall t :: Times(s.calls, t) <= 1 + MAX_TU_RETRIES
    ensures |s.calls| <= 3 * |files| && Dispatched(s) <= 3 * |files|
  {
    var flat, m := Flat(s.calls) + Flat(s.work), multiset(files);
    forall t ensures multiset(flat)[t] <= (m + m + m)[t] && Times(s.calls, t) <= 1 + MAX_TU_RETRIES {
      hide Times;
      FlatCounts(s.calls, t);
      FlatCounts(s.work, t);
      OccursConcat(Flat(s.calls), Flat(s.work), t);
      assert Dispatches(s, t) == if Occurs(files, t) == 0 then 0 else 1 + Min(Retries(s.retries, t), MAX_TU_RETRIES);
    }
    hide Times, Occurs, Size, Flat;
    SubMultisetSize(multiset(flat), m + m + m);
    FlatSize(s.calls);
    FlatSize(s.work);
    AtLeastOneEach(s.calls);
  }

  // ---- termination and progress -------------------------------------------------------------------------------

  function Phase(p: Parent): nat {
    match p
    case Stopped => 0
    case Waiting => 1
    case Requeuing(bs) => |bs| + 2
    case Holding(_) => 5
  }

  /** Falls with every step of any thread. */
  ghost function Measure(s: State, files: seq<string>): int {
    7 * (3 * |files| - Dispatched(s)) + 7 * |s.work| + 6 * Busy(s.running) + 5 * |s.results| + Phase(s.parent)
  }

  lemma StepDecreases(s: State, files: seq<string>, e: Event)
    requires Inv(s, files) && DistinctFiles(files) && Enabled(s, e)
    ensures 0 <= Measure(After(s, e), files) < Measure(s, files)
  {
    hide OnePlace, Attempts, DistinctFiles, Size, Busy, Triage, Bumped;
    StepKeeps(s, files, e);
    AtMostThreeCalls(After(s, e), files);
    match e
    case Take(i) =>
      SizeFirst(s.work);
      SizeOne(s.calls, s.work[0]);
      BusyUpdate(s.running, i, s.work[0]);
      assert s.work[0] in s.work;
    case Finish(i, ok) => BusyUpdate(s.running, i, []);
    case Pop =>
    case Handle(readable, marker) =>
    case Requeue =>
      if s.parent.batches != [] {
        SizeOne(s.work, Triage(s.retries, s.parent.batches[0], true));
        assert s.work + [] == s.work;
      }
    case Stop =>
  }

  /** Every run is finite: at most 21 steps per file and one more. */
  lemma {:induction false} RunsAreBounded(s: State, files: seq<string>, events: seq<Event>)
    requires Inv(s, files) && DistinctFiles(files) && IsRun(s, events)
    ensures |events| <= Measure(s, files)
    decreases |events|
  {
    hide Inv, DistinctFiles, After, Enabled, Measure;
    if events != [] {
      StepKeeps(s, files, events[0]);
      StepDecreases(s, files, events[0]);
      RunsAreBounded(After(s, events[0]), files, events[1..]);
    } else {
      MeasureIsNat(s, files);
    }
  }

  lemma MeasureIsNat(s: State, files: seq<string>)
    requires Inv(s, files) && DistinctFiles(files)
    ensures Measure(s, files) >= 0
  {
    AtMostThreeCalls(s, files);
  }

  lemma {:induction false} NoneBusy(running: seq<Batch>)
    ensures Busy(running) == 0 <==> forall i :: 0 <= i < |running| ==> running[i] == []
  {
    if running != [] {
      NoneBusy(running[..|running| - 1]);
    }
  }

  /** Until the parent stops some thread can move: no deadlock. */
  lemma SomeoneCanMove(s: State, files: seq<string>)
    requires Inv(s, files) && !s.parent.Stopped?
    ensures exists e :: Enabled(s, e)
  {
    NoneBusy(s.running);
    if s.parent.Holding? {
      assert Enabled(s, Handle(true, None));
    } else if s.parent.Requeuing? {
      assert Enabled(s, Requeue);
    } else if s.outstanding == 0 {
      assert Enabled(s, Event.Stop);
    } else if s.results != [] {
      assert Enabled(s, Pop);
    } else if Busy(s.running) != 0 {
      var i :| 0 <= i < |s.running| && s.running[i] != [];
      assert Enabled(s, Finish(i, true));
    } else {
      assert Enabled(s, Take(0));
    }
  }

  /** At exit no thread has anything left, and each unit is in one consumed batch or was
      poisoned once. */
  lemma AtExit(s: State, files: seq<string>)
    requires Inv(s, files) && s.parent.Stopped?
    ensures s.work == [] && s.results == [] && forall i :: 0 <= i < |s.running| ==> s.running[i] == []
    ensures forall t :: Times(s.consumed, t) + Occurs(s.poisoned, t) == Occurs(files, t)
  {
    NoneBusy(s.running);
    forall t ensures Times(s.consumed, t) + Occurs(s.poisoned, t) == Occurs(files, t) {
      IdleThreads(s.running, t);
      assert Places(s, t) == Occurs(files, t);
    }
  }

  lemma {:induction false} RunAppend(s: State, events: seq<Event>, e: Event)
    requires IsRun(s, events) && Enabled(Final(s, events), e)
    ensures IsRun(s, events + [e]) && Final(s, events + [e]) == After(Final(s, events), e)
    decreases |events|
  {
    hide Enabled, After;
    if events == [] {
      assert [] + [e] == [e] && [e][1..] == [];
      assert IsRun(After(s, e), []) && Final(After(s, e), []) == After(s, e);
    } else {
      RunAppend(After(s, events[0]), events[1..], e);
      assert (events + [e])[1..] == events[1..] + [e];
    }
  }

  /** The state the dispatch starts from. */
  function Launched(files: seq<string>, workers: nat, override: nat): State {
    var threads := if workers == 0 then 1 else workers;
    Initial(Chunks(files, BatchSize(|files|, threads, override)), threads)
  }

  /** The steps `events` are those the scheduler chose. */
  ghost predicate Scheduled(s: State, events: seq<Event>, schedule: State -> Event)
    requires IsRun(s, events)
    decreases |events|
  {
    events == [] || (events[0] == schedule(s) && Scheduled(After(s, events[0]), events[1..], schedule))
  }

  lemma {:induction false} ScheduledAppend(s: State, events: seq<Event>, schedule: State -> Event)
    requires IsRun(s, events) && Scheduled(s, events, schedule) && Enabled(Final(s, events), schedule(Final(s, events)))
    ensures var e := schedule(Final(s, events)); IsRun(s, events + [e]) && Scheduled(s, events + [e], schedule)
    decreases |events|
  {
    hide Enabled, After;
    var e := schedule(Final(s, events));
    RunAppend(s, events, e);
    if events == [] {
      assert [] + [e] == [e] && [e][1..] == [];
    } else {
      ScheduledAppend(After(s, events[0]), events[1..], schedule);
      assert (events + [e])[1..] == events[1..] + [e];
    }
  }

  /** The dispatch under a given scheduler and environment, whatever they are: a run of the
      scheduled steps, from all batches queued to the parent's stop. */
  method Dispatch(files: seq<string>, workers: nat, override: nat, schedule: State -> Event)
    returns (consumed: seq<Batch>, poisoned: seq<string>, ghost calls: nat, ghost events: seq<Event>)
    requires DistinctFiles(files)
    requires forall s :: (exists e :: Enabled(s, e)) ==> Enabled(s, schedule(s))
    ensures forall t :: Times(consumed, t) + Occurs(poisoned, t) == Occurs(files, t)
    ensures calls <= 3 * |files|
    ensures files != [] ==>
      && IsRun(Launched(files, workers, override), events)
      && Scheduled(Launched(files, workers, override), events, schedule)
      && var end := Final(Launched(files, workers, override), events);
         end.parent.Stopped? && end.consumed == consumed && end.poisoned == poisoned && |end.calls| == calls
  {
    hide Inv, Occurs, Times, Measure, DistinctFiles, After, Enabled;
    if files == [] {
      Nothing();
      return [], [], 0, [];
    }
    events := [];
    var threads := if workers == 0 then 1 else workers;
    var size := BatchSize(|files|, threads, override);
    var batches := Chunk(files, size);
    InitialOk(files, size, threads);
    var pool := new Dispatcher(batches, threads);
    while !pool.parent.Stopped?
      invariant fresh(pool) && Inv(pool.Value(), files)
      invariant IsRun(Launched(files, workers, override), events)
      invariant Scheduled(Launched(files, workers, override), events, schedule)
      invariant Final(Launched(files, workers, override), events) == pool.Value()
      decreases Measure(pool.Value(), files)
    {
      SomeoneCanMove(pool.Value(), files);
      var e := schedule(pool.Value());
      MeasureIsNat(pool.Value(), files);
      StepKeeps(pool.Value(), files, e);
      StepDecreases(pool.Value(), files, e);
      RunAppend(Launched(files, workers, override), events, e);
      ScheduledAppend(Launched(files, workers, override), events, schedule);
      events := events + [e];
      pool.Do(e);
    }
    AtExit(pool.Value(), files);
    AtMostThreeCalls(pool.Value(), files);
    return pool.consumed, pool.poisoned, |pool.calls|, events;
  }

  lemma Nothing()
    ensures forall t :: Times([], t) + Occurs([], t) == Occurs([], t)
  {
  }
}

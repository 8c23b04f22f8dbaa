/** What a crashing unit costs: with a runner that fails exactly on the batches holding a bad
    unit, the poisoned set does not depend on the interleaving
    (src/callgraph/WorkerPool.cpp:44, 161-207; include/vycor/callgraph/WorkerPool.h:30-50). */
module DispatchLoss {
  import opened EdgeTypes
  import opened WorkerPool
  import opened DispatchTheorems

  /** The unit the last marker line of a crashed worker names, if it names one. */
  type Marker = Batch -> Option<string>

  function NoBad(b: Batch, bad: set<string>): bool {
    forall t :: t in b ==> t !in bad
  }

  /** The runner fails exactly the batches with a bad unit, leaves readable shards and the same
      marker for the same batch. */
  ghost predicate Faithful(s: State, e: Event, bad: set<string>, mark: Marker)
    requires Enabled(s, e)
  {
    match e
    case Finish(i, ok) => ok == NoBad(s.running[i], bad)
    case Handle(readable, marker) => readable && (!s.parent.res.ok ==> marker == mark(s.parent.res.batch))
    case _ => true
  }

  function Units(b: Batch): set<string> {
    set t | t in b
  }

  /** The units a batch loses once it is dispatched, each of its units having been retried
      `level` times. */
  ghost function Lost(b: Batch, level: nat, bad: set<string>, mark: Marker): set<string>
    decreases MAX_TU_RETRIES + 1 - level, 0
  {
    if NoBad(b, bad) then {}
    else Units(Presumed(b, mark(b))) + LostParts(Parts(b, mark(b)), level, bad, mark)
  }

  ghost function LostParts(parts: seq<Batch>, level: nat, bad: set<string>, mark: Marker): set<string>
    decreases MAX_TU_RETRIES + 1 - level, 0, |parts|
  {
    if parts == [] then {} else LostPart(parts[0], level, bad, mark) + LostParts(parts[1..], level, bad, mark)
  }

  /** A part is poisoned whole when its units have no retry left. */
  ghost function LostPart(p: Batch, level: nat, bad: set<string>, mark: Marker): set<string>
    decreases MAX_TU_RETRIES + 1 - level, 0, 0
  {
    if level >= MAX_TU_RETRIES then Units(p) else Lost(p, level + 1, bad, mark)
  }

  lemma {:induction false} LostPartsHas(parts: seq<Batch>, level: nat, bad: set<string>, mark: Marker, t: string)
    ensures t in LostParts(parts, level, bad, mark) <==>
      exists k :: 0 <= k < |parts| && t in LostPart(parts[k], level, bad, mark)
  {
    if parts != [] {
      LostPartsHas(parts[1..], level, bad, mark, t);
      if t in LostParts(parts[1..], level, bad, mark) {
        var k :| 0 <= k < |parts[1..]| && t in LostPart(parts[1..][k], level, bad, mark);
        assert t in LostPart(parts[k + 1], level, bad, mark);
      }
      if k :| 0 <= k < |parts| && t in LostPart(parts[k], level, bad, mark) {
        if k > 0 {
          assert parts[1..][k - 1] == parts[k];
        }
      }
    }
  }

  // ---- the fate of a unit is settled at the start --------------------------------------------------

  /** A batch queued, running, awaiting the parent or in its hand. */
  ghost predicate Live(s: State, b: Batch) {
    b != [] && (b in s.work || b in s.running || (exists r :: r in s.results && r.batch == b)
      || s.parent == Holding(Finished(b, true))
      || s.parent == Holding(Finished(b, false)))
  }

  function Level(s: State, b: Batch): nat {
    if b == [] then 0 else Retries(s.retries, b[0])
  }

  ghost predicate Uniform(s: State, b: Batch) {
    forall t :: t in b ==> Retries(s.retries, t) == Level(s, b)
  }

  /** All units of a batch were retried equally often, and a result tells whether its batch has
      a bad unit. */
  ghost predicate Coherent(s: State, bad: set<string>) {
    && (forall b :: Live(s, b) ==> Uniform(s, b))
    && (s.parent.Requeuing? ==> forall p :: p in s.parent.batches ==> Uniform(s, p))
    && (forall r :: r in s.results ==> r.ok == NoBad(r.batch, bad))
    && (s.parent.Holding? ==> s.parent.res.ok == NoBad(s.parent.res.batch, bad))
  }

  /** The units poisoned by now or certain to be. */
  ghost predicate Doomed(s: State, bad: set<string>, mark: Marker, t: string) {
    || t in s.poisoned
    || (exists b :: Live(s, b) && t in Lost(b, Level(s, b), bad, mark))
    || (s.parent.Requeuing? && exists p :: p in s.parent.batches && t in LostPart(p, Level(s, p), bad, mark))
  }

  ghost predicate SameBut(s: State, s': State) {
    && (forall b :: Live(s, b) <==> Live(s', b))
    && s'.retries == s.retries && s'.poisoned == s.poisoned
    && (s.parent == s'.parent || (!s.parent.Requeuing? && !s'.parent.Requeuing?))
  }

  lemma SameFate(s: State, s': State, bad: set<string>, mark: Marker, t: string)
    requires SameBut(s, s')
    ensures Doomed(s, bad, mark, t) <==> Doomed(s', bad, mark, t)
  {
    hide Live, Lost, LostPart;
    assert forall b :: Level(s, b) == Level(s', b);
  }

  lemma SameCoherent(s: State, s': State, bad: set<string>)
    requires SameBut(s, s') && Coherent(s, bad)
    requires forall r :: r in s'.results ==> r.ok == NoBad(r.batch, bad)
    requires s'.parent.Holding? ==> s'.parent.res.ok == NoBad(s'.parent.res.batch, bad)
    ensures Coherent(s', bad)
  {
    hide Live;
    assert forall b :: Level(s, b) == Level(s', b);
    assert forall b :: Uniform(s, b) ==> Uniform(s', b);
  }

  lemma TakeSame(s: State, i: nat)
    requires Enabled(s, Take(i)) && NoEmptyBatch(s)
    ensures SameBut(s, After(s, Take(i)))
  {
    var s' := After(s, Take(i));
    assert s.work == [s.work[0]] + s.work[1..];
    forall b | b != [] ensures b in s'.work || b in s'.running <==> b in s.work || b in s.running {
      RunningAfter(s.running, i, s.work[0], b);
    }
    assert forall b :: Live(s, b) <==> Live(s', b);
  }

  lemma RunningAfter(running: seq<Batch>, i: nat, x: Batch, b: Batch)
    requires i < |running| && b != []
    ensures b in running[i := x] || b == running[i] <==> b in running || b == x
  {
    if b in running {
      var j :| 0 <= j < |running| && running[j] == b;
      assert j != i ==> running[i := x][j] == b;
    }
    assert running[i := x][i] == x;
  }

  lemma FinishSame(s: State, i: nat, ok: bool)
    requires Enabled(s, Finish(i, ok))
    ensures SameBut(s, After(s, Finish(i, ok)))
  {
    var s' := After(s, Finish(i, ok));
    forall b | b != [] ensures Live(s, b) <==> Live(s', b) {
      RunningAfter(s.running, i, [], b);
      assert forall r :: r in s'.results <==> r in s.results || r == Finished(s.running[i], ok);
    }
  }

  lemma PopSame(s: State)
    requires Enabled(s, Pop)
    ensures SameBut(s, After(s, Pop))
  {
    var s' := After(s, Pop);
    assert s.results == [s.results[0]] + s.results[1..];
    assert forall r :: r in s.results <==> r in s'.results || r == s.results[0];
  }

  /** A batch in the parent's hand leaves it: the live batches are the others, and maybe it. */
  lemma HandleLive(s: State, readable: bool, marker: Option<string>, b: Batch)
    requires Enabled(s, Handle(readable, marker))
    ensures Live(s, b) <==> Live(After(s, Handle(readable, marker)), b) || (b != [] && b == s.parent.res.batch)
  {
  }

  lemma ConsumedFate(s: State, bad: set<string>, mark: Marker, marker: Option<string>, t: string)
    requires Enabled(s, Handle(true, marker)) && s.parent.res.ok && NoBad(s.parent.res.batch, bad)
    ensures Doomed(s, bad, mark, t) <==> Doomed(After(s, Handle(true, marker)), bad, mark, t)
  {
    var s' := After(s, Handle(true, marker));
    forall b ensures Live(s, b) <==> Live(s', b) || (b != [] && b == s.parent.res.batch) {
      HandleLive(s, true, marker, b);
    }
    assert Lost(s.parent.res.batch, Level(s, s.parent.res.batch), bad, mark) == {};
    hide Live, Lost, LostPart;
    assert forall b :: Level(s, b) == Level(s', b);
  }

  lemma NothingToLose(level: nat, bad: set<string>, mark: Marker)
    ensures LostPart([], level, bad, mark) == {}
  {
  }

  lemma {:induction false} WithoutHas(b: Batch, tu: string, t: string)
    ensures t in Without(b, tu) <==> t in b && t != tu
  {
    WithoutOccurs(b, tu, t);
    OccursConcat(b, [], t);
    OccursConcat(Without(b, tu), [], t);
  }

  lemma PartsWithin(b: Batch, marker: Option<string>, p: Batch, t: string)
    requires p in Parts(b, marker) && t in p
    ensures t in b
  {
    if marker.Some? && marker.value in b {
      WithoutHas(b, marker.value, t);
    }
  }

  lemma LiveHasUnits(s: State, p: Batch, b: Batch, level: nat)
    requires Uniform(s, b) && forall t :: t in p ==> t in b
    ensures p != [] ==> Level(s, p) == Level(s, b)
  {
    if p != [] { assert p[0] in p; }
  }

  lemma PartLevel(s: State, b: Batch, marker: Option<string>, p: Batch, bad: set<string>, mark: Marker)
    requires Uniform(s, b) && p in Parts(b, marker)
    ensures LostPart(p, Level(s, p), bad, mark) == LostPart(p, Level(s, b), bad, mark)
    ensures Uniform(s, p)
  {
    forall t | t in p ensures t in b {
      PartsWithin(b, marker, p, t);
    }
    LiveHasUnits(s, p, b, 0);
    if p == [] {
      NothingToLose(Level(s, p), bad, mark);
      NothingToLose(Level(s, b), bad, mark);
    }
  }

  lemma FailedFate(s: State, bad: set<string>, mark: Marker, t: string)
    requires s.parent.Holding? && !s.parent.res.ok && !NoBad(s.parent.res.batch, bad) && Uniform(s, s.parent.res.batch)
    ensures var e := Handle(true, mark(s.parent.res.batch)); Doomed(s, bad, mark, t) <==>
      Doomed(After(s, e), bad, mark, t)
  {
    var b := s.parent.res.batch;
    var e := Handle(true, mark(b));
    var s', parts := After(s, e), Parts(b, mark(b));
    forall x ensures Live(s, x) <==> Live(s', x) || (x != [] && x == b) {
      HandleLive(s, true, mark(b), x);
    }
    assert b != [];
    assert Lost(b, Level(s, b), bad, mark) == Units(Presumed(b, mark(b))) + LostParts(parts, Level(s, b), bad, mark);
    LostPartsHas(parts, Level(s, b), bad, mark, t);
    hide Live, Lost, LostPart, LostParts, Parts, Presumed;
    assert forall x :: Level(s, x) == Level(s', x);
    forall p | p in parts ensures LostPart(p, Level(s', p), bad, mark) == LostPart(p, Level(s, b), bad, mark) {
      PartLevel(s, b, mark(b), p, bad, mark);
    }
  }

  // ---- requeueing -------------------------------------------------------------------------------------

  lemma {:induction false} TimesHas(batches: seq<Batch>, b: Batch, t: string)
    requires b in batches
    ensures Times(batches, t) >= Occurs(b, t)
  {
    hide Occurs;
    var n := |batches| - 1;
    if b != batches[n] {
      assert batches == batches[..n] + [batches[n]];
      TimesHas(batches[..n], b, t);
    }
  }

  lemma {:induction false} TimesInHas(results: seq<Finished>, r: Finished, t: string)
    requires r in results
    ensures TimesIn(results, t) >= Occurs(r.batch, t)
  {
    hide Occurs;
    var n := |results| - 1;
    if r != results[n] {
      assert results == results[..n] + [results[n]];
      TimesInHas(results[..n], r, t);
    }
  }

  /** A batch about to be requeued shares no unit with any other. */
  lemma NoShare(s: State, files: seq<string>, b: Batch, t: string)
    requires OnePlace(s, files) && DistinctFiles(files) && s.parent.Requeuing? && s.parent.batches != []
    requires Live(s, b) || b in s.parent.batches[1..]
    ensures !(t in b && t in s.parent.batches[0])
  {
    if t in b && t in s.parent.batches[0] {
      assert Places(s, t) == Occurs(files, t) <= 1;
      TimesFirst(s.parent.batches, t);
      OccursConcat(b, [], t);
      OccursConcat(s.parent.batches[0], [], t);
      hide Occurs, Times, TimesIn;
      if b in s.parent.batches[1..] {
        TimesHas(s.parent.batches[1..], b, t);
      } else if b in s.work {
        TimesHas(s.work, b, t);
      } else if b in s.running {
        TimesHas(s.running, b, t);
      } else {
        var r :| r in s.results && r.batch == b;
        TimesInHas(s.results, r, t);
      }
    }
  }

  /** Requeueing leaves the counters of the other batches alone. */
  lemma OthersKeepLevel(s: State, files: seq<string>, b: Batch)
    requires OnePlace(s, files) && DistinctFiles(files) && s.parent.Requeuing? && s.parent.batches != []
    requires Live(s, b) || b in s.parent.batches[1..]
    ensures Level(RequeueOne(s), b) == Level(s, b) && (Uniform(s, b) ==> Uniform(RequeueOne(s), b))
  {
    hide Live, OnePlace, DistinctFiles, Retries, Bumped, Triage, Occurs;
    forall t | t in b ensures Retries(RequeueOne(s).retries, t) == Retries(s.retries, t) {
      NoShare(s, files, b, t);
      BumpedCount(s.retries, s.parent.batches[0], t);
      OccursConcat(s.parent.batches[0], [], t);
    }
    if b != [] { assert b[0] in b; }
  }

  /** A batch whose units were retried equally often is kept whole or poisoned whole. */
  lemma {:induction false} TriageUniform(retries: map<string, nat>, tus: Batch, kept: bool, level: nat)
    requires forall t :: t in tus ==> Retries(retries, t) == level && Occurs(tus, t) <= 1
    ensures Triage(retries, tus, kept) == if (level < MAX_TU_RETRIES) == kept then tus else []
  {
    if tus != [] {
      var init, tu := tus[..|tus| - 1], tus[|tus| - 1];
      assert tus == init + [tu];
      forall t | t in init ensures Retries(retries, t) == level && Occurs(init, t) <= 1 {
        OccursConcat(init, [tu], t);
      }
      TriageUniform(retries, init, kept, level);
      BumpedCount(retries, init, tu);
      LastOccurs(init, tu);
      hide Bumped, Retries, Occurs;
    }
  }

  lemma LastOccurs(init: Batch, tu: string)
    ensures Occurs(init + [tu], tu) == Occurs(init, tu) + 1
  {
    assert (init + [tu])[..|init|] == init;
    OccursConcat(init, [tu], tu);
    OccursConcat([tu], [], tu);
  }

  lemma RequeueLive(s: State, b: Batch)
    requires s.parent.Requeuing? && s.parent.batches != []
    ensures var s', kept := RequeueOne(s), Triage(s.retries, s.parent.batches[0], true);
      Live(s', b) <==> Live(s, b) || (b != [] && b == kept)
  {
  }

  lemma RequeueParts(s: State, files: seq<string>)
    requires OnePlace(s, files) && DistinctFiles(files) && s.parent.Requeuing? && s.parent.batches != []
    requires Uniform(s, s.parent.batches[0])
    ensures var p := s.parent.batches[0]; var kept := if Level(s, p) < MAX_TU_RETRIES then p else [];
      && Triage(s.retries, p, true) == kept
      && Triage(s.retries, p, false) == (if Level(s, p) < MAX_TU_RETRIES then [] else p)
      && (kept != [] ==> Level(RequeueOne(s), kept) == Level(s, p) + 1 && Uniform(RequeueOne(s), kept))
  {
    hide Retries, Bumped, Triage, Occurs;
    var p := s.parent.batches[0];
    forall t | t in p ensures Occurs(p, t) == 1 {
      assert Places(s, t) == Occurs(files, t) <= 1;
      TimesFirst(s.parent.batches, t);
      OccursConcat(p, [], t);
    }
    TriageUniform(s.retries, p, true, Level(s, p));
    TriageUniform(s.retries, p, false, Level(s, p));
    forall t | t in p ensures Retries(RequeueOne(s).retries, t) == Level(s, p) + 1 {
      BumpedCount(s.retries, p, t);
    }
    if p != [] { assert p[0] in p; }
  }

  /** One requeued batch: what it loses is poisoned now or lost by the batch that is queued. */
  lemma MovedFate(s: State, s': State, p: Batch, rest: seq<Batch>, kept: Batch, spent: Batch, bad: set<string>,
                  mark: Marker, t: string)
    requires s.parent == Requeuing([p] + rest) && s'.parent == Requeuing(rest) && s'.poisoned == s.poisoned + spent
    requires forall b :: Live(s', b) <==> Live(s, b) || (b != [] && b == kept)
    requires forall b :: Live(s, b) || b in rest ==> Level(s', b) == Level(s, b)
    requires t in LostPart(p, Level(s, p), bad, mark) <==>
      t in spent || (kept != [] && t in Lost(kept, Level(s', kept), bad, mark))
    ensures Doomed(s, bad, mark, t) <==> Doomed(s', bad, mark, t)
  {
    hide Lost, LostPart, Live, Level;
    assert p in s.parent.batches;
    assert forall q :: q in s.parent.batches <==> q == p || q in rest;
  }

  lemma RequeueFate(s: State, files: seq<string>, bad: set<string>, mark: Marker, t: string)
    requires Inv(s, files) && DistinctFiles(files) && Coherent(s, bad) && s.parent.Requeuing?
    ensures Doomed(s, bad, mark, t) <==> Doomed(After(s, Requeue), bad, mark, t)
  {
    hide Live, Triage, Bumped, Lost, LostPart, Doomed, Attempts, NoEmptyBatch, DistinctFiles, OnePlace;
    var s' := After(s, Requeue);
    if s.parent.batches == [] {
      NothingRequeued(s);
      EmptyHandFate(s, s', bad, mark, t);
    } else {
      var p, rest := s.parent.batches[0], s.parent.batches[1..];
      assert s.parent.batches == [p] + rest && p in s.parent.batches;
      var kept, spent := Triage(s.retries, p, true), Triage(s.retries, p, false);
      RequeueParts(s, files);
      forall b ensures Live(s', b) <==> Live(s, b) || (b != [] && b == kept) {
        RequeueLive(s, b);
      }
      forall b | Live(s, b) || b in rest ensures Level(s', b) == Level(s, b) {
        OthersKeepLevel(s, files, b);
      }
      PartIs(p, Level(s, p), bad, mark);
      MovedFate(s, s', p, rest, kept, spent, bad, mark, t);
    }
  }

  lemma PartIs(p: Batch, level: nat, bad: set<string>, mark: Marker)
    ensures LostPart(p, level, bad, mark) == if level < MAX_TU_RETRIES then Lost(p, level + 1, bad, mark) else Units(p)
    ensures LostPart([], level, bad, mark) == {}
  {
  }

  lemma NothingRequeued(s: State)
    requires s.parent == Requeuing([])
    ensures forall b :: Live(s, b) <==> Live(After(s, Requeue), b)
  {
  }

  lemma EmptyHandFate(s: State, s': State, bad: set<string>, mark: Marker, t: string)
    requires s.parent == Requeuing([]) && s' == s.(parent := Waiting) && forall b :: Live(s, b) <==> Live(s', b)
    ensures Doomed(s, bad, mark, t) <==> Doomed(s', bad, mark, t)
  {
    hide Lost, LostPart, Live;
    assert forall b :: Level(s, b) == Level(s', b);
  }

  lemma RequeueCoherent(s: State, files: seq<string>, bad: set<string>)
    requires Inv(s, files) && DistinctFiles(files) && Coherent(s, bad) && s.parent.Requeuing?
    ensures Coherent(After(s, Requeue), bad)
  {
    var s' := After(s, Requeue);
    if s.parent.batches == [] {
      assert forall b :: Live(s, b) <==> Live(s', b);
      assert forall b :: Uniform(s, b) ==> Uniform(s', b);
      return;
    }
    var p, rest := s.parent.batches[0], s.parent.batches[1..];
    assert s.parent.batches == [p] + rest && p in s.parent.batches;
    RequeueParts(s, files);
    forall b | Live(s', b) || b in rest ensures Uniform(s', b) {
      RequeueLive(s, b);
      if Live(s, b) || b in rest {
        OthersKeepLevel(s, files, b);
      }
    }
  }

  lemma HandleCoherent(s: State, bad: set<string>, marker: Option<string>)
    requires Coherent(s, bad) && s.parent.Holding? && s.parent.res.batch != []
    ensures Coherent(After(s, Handle(true, marker)), bad)
  {
    var s', b := After(s, Handle(true, marker)), s.parent.res.batch;
    assert Live(s, b);
    forall x | Live(s', x) ensures Uniform(s', x) {
      HandleLive(s, true, marker, x);
      assert Uniform(s, x);
    }
    if !s.parent.res.ok {
      forall p | p in Parts(b, marker) ensures Uniform(s', p) {
        PartLevel(s, b, marker, p, bad, _ => None);
      }
    }
  }

  /** No step of a faithful runner changes anyone's fate. */
  lemma StepFate(s: State, files: seq<string>, e: Event, bad: set<string>, mark: Marker, t: string)
    requires Inv(s, files) && DistinctFiles(files) && Coherent(s, bad) && Enabled(s, e) && Faithful(s, e, bad, mark)
    ensures Coherent(After(s, e), bad)
    ensures Doomed(s, bad, mark, t) <==> Doomed(After(s, e), bad, mark, t)
  {
    hide Doomed, Live, Lost, LostPart, Parts, Presumed, RequeueOne, OnePlace, Attempts, NoBad;
    var s' := After(s, e);
    match e
    case Take(i) =>
      TakeSame(s, i);
      SameFate(s, s', bad, mark, t);
      SameCoherent(s, s', bad);
    case Finish(i, ok) =>
      FinishSame(s, i, ok);
      SameFate(s, s', bad, mark, t);
      SameCoherent(s, s', bad);
    case Pop =>
      PopSame(s);
      SameFate(s, s', bad, mark, t);
      assert s.results[0] in s.results && forall r :: r in s'.results ==> r in s.results;
      SameCoherent(s, s', bad);
    case Handle(readable, marker) =>
      HandleCoherent(s, bad, marker);
      if s.parent.res.ok {
        ConsumedFate(s, bad, mark, marker, t);
      } else {
        HeldIsUniform(s, bad);
        FailedFate(s, bad, mark, t);
      }
    case Requeue =>
      RequeueFate(s, files, bad, mark, t);
      RequeueCoherent(s, files, bad);
    case Stop =>
      StopSame(s);
      SameFate(s, s', bad, mark, t);
      SameCoherent(s, s', bad);
  }

  lemma HeldIsUniform(s: State, bad: set<string>)
    requires Coherent(s, bad) && s.parent.Holding? && s.parent.res.batch != []
    ensures Uniform(s, s.parent.res.batch)
  {
    assert Live(s, s.parent.res.batch);
  }

  lemma StopSame(s: State)
    requires Enabled(s, Event.Stop)
    ensures SameBut(s, After(s, Event.Stop))
  {
  }

  /** Every step of the run is one a faithful runner could take. */
  ghost predicate FaithfulRun(s: State, events: seq<Event>, bad: set<string>, mark: Marker)
    requires IsRun(s, events)
    decreases |events|
  {
    events == [] || (Faithful(s, events[0], bad, mark) && FaithfulRun(After(s, events[0]), events[1..], bad, mark))
  }

  lemma {:induction false} RunFate(s: State, files: seq<string>, events: seq<Event>, bad: set<string>, mark: Marker,
                                   t: string)
    requires Inv(s, files) && DistinctFiles(files) && Coherent(s, bad) && IsRun(s, events)
    requires FaithfulRun(s, events, bad, mark)
    ensures Inv(Final(s, events), files)
    ensures Doomed(s, bad, mark, t) <==> Doomed(Final(s, events), bad, mark, t)
    decreases |events|
  {
    hide Inv, DistinctFiles, Coherent, After, Enabled, Doomed;
    if events != [] {
      StepFate(s, files, events[0], bad, mark, t);
      StepKeeps(s, files, events[0]);
      RunFate(After(s, events[0]), files, events[1..], bad, mark, t);
    }
  }

  // ---- what a finished dispatch lost ---------------------------------------------------------------------

  lemma InitiallyCoherent(batches: seq<Batch>, workers: nat, bad: set<string>)
    ensures Coherent(Initial(batches, workers), bad)
    ensures forall b :: Live(Initial(batches, workers), b) <==> b in batches && b != []
  {
  }

  /** A batch of the initial cut. */
  lemma OneChunk(files: seq<string>, size: nat, workers: nat, b: Batch, c: Batch, t: string)
    requires size > 0 && workers > 0 && DistinctFiles(files)
    requires b in Chunks(files, size) && c in Chunks(files, size) && t in b && t in c
    ensures b == c
  {
    hide Occurs;
    var chunks := Chunks(files, size);
    ChunksCover(files, size, t);
    OccursConcat(b, [], t);
    OccursConcat(c, [], t);
    assert Occurs(files, t) <= 1;
    OnlyOneHas(chunks, b, c, t);
  }

  lemma {:induction false} OnlyOneHas(batches: seq<Batch>, b: Batch, c: Batch, t: string)
    requires b in batches && c in batches && Occurs(b, t) > 0 && Occurs(c, t) > 0 && Times(batches, t) <= 1
    ensures b == c
  {
    hide Occurs;
    var n := |batches| - 1;
    assert batches == batches[..n] + [batches[n]];
    if b in batches[..n] && c in batches[..n] {
      OnlyOneHas(batches[..n], b, c, t);
    } else if b in batches[..n] {
      TimesHas(batches[..n], b, t);
    } else if c in batches[..n] {
      TimesHas(batches[..n], c, t);
    }
  }

  lemma NothingLive(s: State, files: seq<string>, b: Batch)
    requires Inv(s, files) && s.parent.Stopped?
    ensures !Live(s, b)
  {
    AtExit(s, files);
  }

  /** Whatever the interleaving, a finished dispatch has poisoned exactly the units its initial
      batches lose. */
  lemma PoisonedAreTheLost(files: seq<string>, size: nat, workers: nat, events: seq<Event>, bad: set<string>,
                           mark: Marker, b: Batch, t: string)
    requires size > 0 && workers > 0 && DistinctFiles(files) && b in Chunks(files, size) && t in b
    requires var s := Initial(Chunks(files, size), workers);
      IsRun(s, events) && FaithfulRun(s, events, bad, mark) && Final(s, events).parent.Stopped?
    ensures t in Final(Initial(Chunks(files, size), workers), events).poisoned <==> t in Lost(b, 0, bad, mark)
  {
    hide Lost, LostPart, Chunks, Inv, DistinctFiles, IsRun, Final, FaithfulRun, Coherent;
    var s := Initial(Chunks(files, size), workers);
    InitialOk(files, size, workers);
    InitiallyCoherent(Chunks(files, size), workers, bad);
    RunFate(s, files, events, bad, mark, t);
    forall c ensures !Live(Final(s, events), c) {
      NothingLive(Final(s, events), files, c);
    }
    assert Live(s, b) && Level(s, b) == 0;
    forall c | Live(s, c) && t in Lost(c, Level(s, c), bad, mark) ensures c == b {
      LostWithin(c, Level(s, c), bad, mark, t);
      OneChunk(files, size, workers, b, c, t);
    }
  }

  lemma {:induction false} LostWithin(b: Batch, level: nat, bad: set<string>, mark: Marker, t: string)
    requires t in Lost(b, level, bad, mark)
    ensures t in b
    decreases MAX_TU_RETRIES + 1 - level
  {
    var parts := Parts(b, mark(b));
    LostPartsHas(parts, level, bad, mark, t);
    if t !in Presumed(b, mark(b)) {
      var k :| 0 <= k < |parts| && t in LostPart(parts[k], level, bad, mark);
      if level < MAX_TU_RETRIES {
        LostWithin(parts[k], level + 1, bad, mark, t);
      }
      PartsWithin(b, mark(b), parts[k], t);
    }
  }

  // ---- the bounds -------------------------------------------------------------------------------------------

  /** A crash always leaves the marker of a bad unit of the batch. */
  ghost predicate Marks(mark: Marker, bad: set<string>) {
    forall b :: !NoBad(b, bad) ==> mark(b).Some? && mark(b).value in b && mark(b).value in bad
  }

  ghost function BadIn(b: Batch, bad: set<string>): set<string> {
    set t | t in b && t in bad
  }

  lemma MarkedLoss(b: Batch, level: nat, bad: set<string>, mark: Marker)
    requires Marks(mark, bad)
    ensures NoBad(b, bad) <==> BadIn(b, bad) == {}
    ensures NoBad(b, bad) ==> Lost(b, level, bad, mark) == {}
    ensures !NoBad(b, bad) ==> var m := mark(b); var rest := Without(b, m.value);
      && m.Some? && m.value in b && BadIn(rest, bad) == BadIn(b, bad) - {m.value} && m.value in BadIn(b, bad)
      && |BadIn(rest, bad)| == |BadIn(b, bad)| - 1
      && Units(b) == Units(rest) + {m.value}
      && Lost(b, level, bad, mark) == {m.value} + LostPart(rest, level, bad, mark)
  {
    if NoBad(b, bad) {
    } else {
      var m := mark(b).value;
      var rest := Without(b, m);
      forall t ensures t in rest <==> t in b && t != m {
        WithoutHas(b, m, t);
      }
      assert m in BadIn(b, bad);
      assert BadIn(rest, bad) == BadIn(b, bad) - {m};
      assert Units(b) == Units(rest) + {m};
      assert Parts(b, mark(b)) == [rest];
      assert LostParts([rest], level, bad, mark) == LostPart(rest, level, bad, mark)
        + LostParts([rest][1..], level, bad, mark);
      assert [rest][1..] == [];
      assert Units(Presumed(b, mark(b))) == {m};
    }
  }

  /** A batch retried `level` times has `MAX_TU_RETRIES - level` to go: it loses just its bad
      units if there are no more than that, else everything. */
  lemma {:induction false} MarkedAt(b: Batch, level: nat, bad: set<string>, mark: Marker)
    requires Marks(mark, bad) && level <= MAX_TU_RETRIES
    ensures Lost(b, level, bad, mark) == if |BadIn(b, bad)| <= MAX_TU_RETRIES - level then BadIn(b, bad) else Units(b)
    decreases MAX_TU_RETRIES - level
  {
    hide Lost, BadIn, NoBad, Marks, Units;
    MarkedLoss(b, level, bad, mark);
    BadWithin(b, bad);
    if !NoBad(b, bad) {
      var rest := Without(b, mark(b).value);
      PartIs(rest, level, bad, mark);
      if level < MAX_TU_RETRIES {
        MarkedAt(rest, level + 1, bad, mark);
      }
    }
  }

  /** With markers a batch of up to two bad units loses exactly those; with three or more it
      loses every unit, good ones too. */
  lemma MarkersLoseOnlyTheBad(b: Batch, bad: set<string>, mark: Marker)
    requires Marks(mark, bad)
    ensures |BadIn(b, bad)| <= MAX_TU_RETRIES ==> Lost(b, 0, bad, mark) == BadIn(b, bad)
    ensures |BadIn(b, bad)| > MAX_TU_RETRIES ==> Lost(b, 0, bad, mark) == Units(b)
    ensures Lost(b, 0, bad, mark) <= bad <==> |BadIn(b, bad)| <= MAX_TU_RETRIES || Units(b) <= bad
  {
    hide Lost, BadIn, Units, Marks;
    MarkedAt(b, 0, bad, mark);
    BadWithin(b, bad);
  }

  lemma BadWithin(b: Batch, bad: set<string>)
    ensures BadIn(b, bad) <= bad && BadIn(b, bad) <= Units(b)
    ensures Units(b) <= bad ==> BadIn(b, bad) == Units(b)
    ensures BadIn(b, bad) == {} ==> |BadIn(b, bad)| == 0
  {
  }

  ghost predicate OnlyBad(b: Batch, bad: set<string>, x: string) {
    x in bad && Occurs(b, x) == 1 && forall t :: t in b && t in bad ==> t == x
  }

  /** The half of a batch with its bad unit. */
  ghost function BadHalf(b: Batch, x: string): Batch {
    if x in b[..|b| / 2] then b[..|b| / 2] else b[|b| / 2..]
  }

  lemma SilentHalves(b: Batch, bad: set<string>, x: string)
    requires OnlyBad(b, bad, x) && |b| > 1
    ensures OnlyBad(BadHalf(b, x), bad, x) && |BadHalf(b, x)| <= (|b| + 1) / 2
    ensures NoBad(if x in b[..|b| / 2] then b[|b| / 2..] else b[..|b| / 2], bad)
  {
    var l, r := b[..|b| / 2], b[|b| / 2..];
    assert b == l + r;
    OccursConcat(l, r, x);
    OccursConcat(r, [], x);
  }

  /** A silent crash: the batch is halved while it has more than one unit and a retry left. */
  lemma SilentLoss(b: Batch, level: nat, bad: set<string>, mark: Marker, x: string)
    requires (forall c :: mark(c) == None) && OnlyBad(b, bad, x) && level <= MAX_TU_RETRIES
    ensures Lost(b, level, bad, mark) == if |b| == 1 || level == MAX_TU_RETRIES then Units(b)
      else Lost(BadHalf(b, x), level + 1, bad, mark)
  {
    hide Lost, LostPart, NoBad, Units, OnlyBad;
    OnlyBadIn(b, bad, x);
    if |b| == 1 {
      LostAlone(b, level, bad, mark);
    } else {
      var l, r := b[..|b| / 2], b[|b| / 2..];
      SilentHalves(b, bad, x);
      LostSplit(b, level, bad, mark);
      PartIs(l, level, bad, mark);
      PartIs(r, level, bad, mark);
      UnitsSplit(b, |b| / 2);
      NoneLost(if x in l then r else l, level + 1, bad, mark);
    }
  }

  lemma LostAlone(b: Batch, level: nat, bad: set<string>, mark: Marker)
    requires mark(b) == None && !NoBad(b, bad) && |b| == 1
    ensures Lost(b, level, bad, mark) == Units(b)
  {
    assert Parts(b, mark(b)) == [] && Presumed(b, mark(b)) == b;
  }

  lemma LostSplit(b: Batch, level: nat, bad: set<string>, mark: Marker)
    requires mark(b) == None && !NoBad(b, bad) && |b| > 1
    ensures var l, r := b[..|b| / 2], b[|b| / 2..];
      Lost(b, level, bad, mark) == LostPart(l, level, bad, mark) + LostPart(r, level, bad, mark)
  {
    var l, r := b[..|b| / 2], b[|b| / 2..];
    assert Parts(b, mark(b)) == [l, r] && Presumed(b, mark(b)) == [];
    hide LostPart;
    TwoParts(l, r, level, bad, mark);
  }

  lemma UnitsSplit(b: Batch, k: nat)
    requires k <= |b|
    ensures Units(b) == Units(b[..k]) + Units(b[k..])
  {
    assert b == b[..k] + b[k..];
  }

  lemma TwoParts(l: Batch, r: Batch, level: nat, bad: set<string>, mark: Marker)
    ensures LostParts([l, r], level, bad, mark) == LostPart(l, level, bad, mark) + LostPart(r, level, bad, mark)
  {
    assert [l, r][1..] == [r] && [r][1..] == [];
    assert LostParts([r], level, bad, mark) == LostPart(r, level, bad, mark);
  }

  lemma NoneLost(b: Batch, level: nat, bad: set<string>, mark: Marker)
    requires NoBad(b, bad)
    ensures Lost(b, level, bad, mark) == {}
  {
  }

  lemma {:induction false} UnitsSize(b: Batch)
    ensures |Units(b)| <= |b|
  {
    if b != [] {
      UnitsSize(b[..|b| - 1]);
      assert b == b[..|b| - 1] + [b[|b| - 1]];
      assert Units(b) == Units(b[..|b| - 1]) + {b[|b| - 1]};
    }
  }

  /** Without markers, one bad unit costs at most a quarter of its batch, rounded up. */
  lemma SilentLosesAtMostAQuarter(b: Batch, bad: set<string>, mark: Marker, x: string)
    requires (forall c :: mark(c) == None) && OnlyBad(b, bad, x)
    ensures x in Lost(b, 0, bad, mark) && |Lost(b, 0, bad, mark)| <= (|b| + 3) / 4
  {
    hide Lost, BadHalf, OnlyBad;
    SilentLoss(b, 0, bad, mark, x);
    var last := b;
    OnlyBadIn(b, bad, x);
    if |b| > 1 {
      SilentHalves(b, bad, x);
      var h := BadHalf(b, x);
      last := h;
      OnlyBadIn(h, bad, x);
      SilentLoss(h, 1, bad, mark, x);
      if |h| > 1 {
        SilentHalves(h, bad, x);
        var q := BadHalf(h, x);
        last := q;
        OnlyBadIn(q, bad, x);
        SilentLoss(q, 2, bad, mark, x);
      }
    }
    assert Lost(b, 0, bad, mark) == Units(last);
    UnitsSize(last);
  }

  lemma OnlyBadIn(b: Batch, bad: set<string>, x: string)
    requires OnlyBad(b, bad, x)
    ensures x in b && x in Units(b) && !NoBad(b, bad)
  {
    OccursConcat(b, [], x);
  }

  // ---- a good unit that is lost --------------------------------------------------------------------

  const CRASHERS: set<string> := {"bad1", "bad2", "bad3"}
  const MIXED: Batch := ["bad1", "bad2", "bad3", "good"]

  /** The marker of a crash: the first bad unit, as when a worker parses in order. */
  function FirstBad(b: Batch): Option<string> {
    if b == [] then None else if b[0] in CRASHERS then Some(b[0]) else FirstBad(b[1..])
  }

  lemma {:induction false} FirstBadIsBad(b: Batch)
    ensures if NoBad(b, CRASHERS) then FirstBad(b) == None
            else FirstBad(b).Some? && FirstBad(b).value in b && FirstBad(b).value in CRASHERS
  {
    if b != [] {
      FirstBadIsBad(b[1..]);
      assert b == [b[0]] + b[1..];
    }
  }

  /** Three crashing units take the good one in their batch with them, although every crash
      names its unit. */
  lemma GoodUnitIsLost()
    ensures Marks(FirstBad, CRASHERS) && MIXED in Chunks(MIXED, BatchSize(4, 1, 4))
    ensures "good" in MIXED && "good" !in CRASHERS && "good" in Lost(MIXED, 0, CRASHERS, FirstBad)
  {
    hide Lost;
    forall b: Batch ensures !NoBad(b, CRASHERS) ==>
      FirstBad(b).Some? && FirstBad(b).value in b && FirstBad(b).value in CRASHERS {
      FirstBadIsBad(b);
    }
    assert Chunks(MIXED, 4) == [MIXED] + Chunks(MIXED[4..], 4) by { assert MIXED[..4] == MIXED; }
    assert "bad1"[3] == '1' && "bad2"[3] == '2' && "bad3"[3] == '3' && "good"[0] == 'g' && MIXED[3] == "good";
    assert MIXED[0] in MIXED && MIXED[1] in MIXED && MIXED[2] in MIXED;
    assert CRASHERS <= BadIn(MIXED, CRASHERS) && BadIn(MIXED, CRASHERS) == CRASHERS;
    assert |CRASHERS| == 3;
    MarkersLoseOnlyTheBad(MIXED, CRASHERS, FirstBad);
  }

  // ---- a dispatch that runs ------------------------------------------------------------------------

  /** The first thread that is busy, or the first that is not. */
  function FirstThread(running: seq<Batch>, busy: bool): (r: Option<nat>)
    ensures r.Some? ==> r.value < |running| && (running[r.value] != []) == busy
    ensures r.None? ==> forall i :: 0 <= i < |running| ==> (running[i] != []) != busy
  {
    if running == [] then None
    else if (running[|running| - 1] != []) == busy then Some(|running| - 1)
    else FirstThread(running[..|running| - 1], busy)
  }

  /** A scheduler over a runner that fails exactly on bad batches. */
  function InTurn(bad: set<string>, mark: Marker): State -> Event {
    s => NextInTurn(s, bad, mark)
  }

  function NextInTurn(s: State, bad: set<string>, mark: Marker): Event {
    if s.parent.Requeuing? then Requeue
    else if s.parent.Holding? then Handle(true, mark(s.parent.res.batch))
    else if s.parent.Waiting? && s.outstanding == 0 then Stop
    else if s.parent.Waiting? && s.results != [] then Pop
    else
      var busy, idle := FirstThread(s.running, true), FirstThread(s.running, false);
      if busy.Some? then Finish(busy.value, NoBad(s.running[busy.value], bad))
      else if idle.Some? then Take(idle.value)
      else Stop
  }

  lemma InTurnIsEnabled(bad: set<string>, mark: Marker, s: State)
    ensures (exists e :: Enabled(s, e)) ==> Enabled(s, InTurn(bad, mark)(s))
  {
    if e :| Enabled(s, e) {
      match e {
        case Take(i) => assert s.running[i] == [];
        case Finish(i, _) => assert s.running[i] != [];
        case _ =>
      }
    }
  }

  lemma {:induction false} InTurnIsFaithful(s: State, events: seq<Event>, bad: set<string>, mark: Marker)
    requires IsRun(s, events) && Scheduled(s, events, InTurn(bad, mark))
    ensures FaithfulRun(s, events, bad, mark)
    decreases |events|
  {
    hide After;
    if events != [] {
      InTurnIsFaithful(After(s, events[0]), events[1..], bad, mark);
    }
  }

  /** A whole dispatch over such a runner poisons exactly the units its initial batches lose. */
  method DispatchAndLose(files: seq<string>, workers: nat, override: nat, bad: set<string>, mark: Marker)
    returns (consumed: seq<Batch>, poisoned: seq<string>)
    requires files != [] && workers > 0 && DistinctFiles(files)
    ensures forall t :: Times(consumed, t) + Occurs(poisoned, t) == Occurs(files, t)
    ensures forall b, t :: b in Chunks(files, BatchSize(|files|, workers, override)) && t in b ==>
      (t in poisoned <==> t in Lost(b, 0, bad, mark))
  {
    hide Lost, Chunks, DistinctFiles, IsRun, Final, FaithfulRun, Scheduled, NextInTurn, Enabled, Times, Occurs;
    forall s { InTurnIsEnabled(bad, mark, s); }
    ghost var calls, events;
    consumed, poisoned, calls, events := Dispatch(files, workers, override, InTurn(bad, mark));
    InTurnIsFaithful(Launched(files, workers, override), events, bad, mark);
    forall b, t | b in Chunks(files, BatchSize(|files|, workers, override)) && t in b
      ensures t in poisoned <==> t in Lost(b, 0, bad, mark)
    {
      PoisonedAreTheLost(files, BatchSize(|files|, workers, override), workers, events, bad, mark, b, t);
    }
  }

  /** The dispatch of that batch poisons the good unit. */
  method GoodUnitIsPoisoned() returns (consumed: seq<Batch>, poisoned: seq<string>)
    ensures "good" in poisoned && "good" in MIXED && "good" !in CRASHERS && Marks(FirstBad, CRASHERS)
    ensures forall t :: Times(consumed, t) + Occurs(poisoned, t) == Occurs(MIXED, t)
  {
    hide Lost, Chunks, Times, Occurs, Marks;
    GoodUnitIsLost();
    assert "bad1"[3] == '1' && "bad2"[3] == '2' && "bad3"[3] == '3' && "good"[0] == 'g';
    FourUnits();
    consumed, poisoned := DispatchAndLose(MIXED, 1, 4, CRASHERS, FirstBad);
  }

  lemma FourUnits()
    ensures DistinctFiles(MIXED)
  {
    assert "bad1"[3] == '1' && "bad2"[3] == '2' && "bad3"[3] == '3' && "good"[0] == 'g';
  }
}

/** What becomes of each batch, told from the events of a run: in which order batches are started,
    which are consumed, and what is done with the others (src/callgraph/WorkerPool.cpp:121-237). */
module DispatchHistory {
  import opened EdgeTypes
  import opened WorkerPool
  import opened DispatchTheorems

  // ---- what the events say ---------------------------------------------------------------------

  /** The batches that left the runner, in order, and whether it exited well. */
  ghost function Finishes(s: State, events: seq<Event>): seq<Finished>
    requires IsRun(s, events)
    decreases |events|
  {
    if events == [] then []
    else
      (match events[0]
       case Finish(i, ok) => [Finished(s.running[i], ok)]
       case _ => [])
      + Finishes(After(s, events[0]), events[1..])
  }

  /** The handling events, in order. */
  ghost function Handlings(events: seq<Event>): seq<Event> {
    if events == [] then []
    else (if events[0].Handle? then [events[0]] else []) + Handlings(events[1..])
  }

  /** Of the batches handled so far those that exited well and left a readable shard. */
  ghost function Accepted(finishes: seq<Finished>, handlings: seq<Event>): seq<Batch>
    requires |handlings| <= |finishes| && forall h :: h in handlings ==> h.Handle?
  {
    if handlings == [] then []
    else
      (if finishes[0].ok && handlings[0].readable then [finishes[0].batch] else [])
      + Accepted(finishes[1..], handlings[1..])
  }

  lemma {:induction false} OnlyHandlings(events: seq<Event>)
    ensures forall h :: h in Handlings(events) ==> h.Handle?
  {
    if events != [] {
      OnlyHandlings(events[1..]);
    }
  }

  // ---- which batches are consumed -------------------------------------------------------------------

  /** What the parent has in hand, then what waits for it. */
  ghost function Unhandled(s: State): seq<Finished> {
    (if s.parent.Holding? then [s.parent.res] else []) + s.results
  }

  /** A step hands on results in order and consumes the first if it may. */
  lemma OneStep(s: State, e: Event)
    requires Enabled(s, e)
    ensures e.Finish? ==>
      && Unhandled(After(s, e)) == Unhandled(s) + [Finished(s.running[e.thread], e.ok)]
      && After(s, e).consumed == s.consumed
    ensures e.Handle? ==>
      && Unhandled(s) != [] && Unhandled(After(s, e)) == Unhandled(s)[1..]
      && After(s, e).consumed == s.consumed
           + (if Unhandled(s)[0].ok && e.readable then [Unhandled(s)[0].batch] else [])
    ensures !e.Finish? && !e.Handle? ==> Unhandled(After(s, e)) == Unhandled(s) && After(s, e).consumed == s.consumed
  {
    if e.Pop? {
      assert s.results == [s.results[0]] + s.results[1..];
    }
  }

  lemma AcceptedFirst(f: Finished, finishes: seq<Finished>, h: Event, handlings: seq<Event>)
    requires |handlings| <= |finishes| && h.Handle? && forall x :: x in handlings ==> x.Handle?
    ensures Accepted([f] + finishes, [h] + handlings)
         == (if f.ok && h.readable then [f.batch] else []) + Accepted(finishes, handlings)
  {
    assert ([f] + finishes)[1..] == finishes && ([h] + handlings)[1..] == handlings;
  }

  lemma EventsFirst(s: State, events: seq<Event>)
    requires IsRun(s, events) && events != []
    ensures Enabled(s, events[0]) && IsRun(After(s, events[0]), events[1..])
    ensures var e, s' := events[0], After(s, events[0]);
      var rest, hs := Finishes(s', events[1..]), Handlings(events[1..]);
      && Final(s, events) == Final(s', events[1..])
      && Finishes(s, events) == (if e.Finish? then [Finished(s.running[e.thread], e.ok)] + rest else rest)
      && Handlings(events) == if e.Handle? then [e] + hs else hs
  {
    hide After;
    var rest, hs := Finishes(After(s, events[0]), events[1..]), Handlings(events[1..]);
    assert [] + rest == rest && [] + hs == hs;
  }

  /** The finished batches and the handling events fit together, and make `consumed`. */
  ghost predicate Accounts(consumed: seq<Batch>, finishes: seq<Finished>, handlings: seq<Event>, end: seq<Batch>) {
    && |handlings| <= |finishes| && (forall h :: h in handlings ==> h.Handle?)
    && end == consumed + Accepted(finishes, handlings)
  }

  lemma AccountsFirst(consumed: seq<Batch>, f: Finished, finishes: seq<Finished>, h: Event, handlings: seq<Event>,
                      end: seq<Batch>)
    requires h.Handle?
    requires Accounts(consumed + (if f.ok && h.readable then [f.batch] else []), finishes, handlings, end)
    ensures Accounts(consumed, [f] + finishes, [h] + handlings, end)
  {
    AcceptedFirst(f, finishes, h, handlings);
  }

  lemma AccountsStep(s: State, e: Event, rest: seq<Finished>, hs: seq<Event>, end: seq<Batch>)
    requires Enabled(s, e) && Accounts(After(s, e).consumed, Unhandled(After(s, e)) + rest, hs, end)
    ensures Accounts(s.consumed,
                     Unhandled(s) + (if e.Finish? then [Finished(s.running[e.thread], e.ok)] + rest else rest),
                     if e.Handle? then [e] + hs else hs, end)
  {
    OneStep(s, e);
    var all, all' := Unhandled(s), Unhandled(After(s, e));
    hide After, Unhandled, Accounts;
    if e.Finish? {
      var f := Finished(s.running[e.thread], e.ok);
      assert all + ([f] + rest) == all + [f] + rest;
    } else if e.Handle? {
      AccountsFirst(s.consumed, all[0], all' + rest, e, hs, end);
      assert all + rest == [all[0]] + (all[1..] + rest);
    }
  }

  /** The consumed batches are those that exited well and whose handling found a readable shard,
      each in its turn. */
  lemma {:induction false} ConsumedAre(s: State, events: seq<Event>)
    requires IsRun(s, events)
    ensures Accounts(s.consumed, Unhandled(s) + Finishes(s, events), Handlings(events), Final(s, events).consumed)
    decreases |events|
  {
    if events == [] {
      assert s.consumed + [] == s.consumed;
    } else {
      var e, s' := events[0], After(s, events[0]);
      EventsFirst(s, events);
      ConsumedAre(s', events[1..]);
      AccountsStep(s, e, Finishes(s', events[1..]), Handlings(events[1..]), Final(s, events).consumed);
      hide *;
    }
  }

  /** So it is in a whole dispatch. */
  lemma DispatchConsumes(files: seq<string>, workers: nat, override: nat, events: seq<Event>)
    requires files != [] && IsRun(Launched(files, workers, override), events)
    ensures var s := Launched(files, workers, override);
      var finishes, handlings := Finishes(s, events), Handlings(events);
      && |handlings| <= |finishes| && (forall h :: h in handlings ==> h.Handle?)
      && Final(s, events).consumed == Accepted(finishes, handlings)
  {
    var s := Launched(files, workers, override);
    ConsumedAre(s, events);
    assert Unhandled(s) == [] && s.consumed == [];
    assert [] + Finishes(s, events) == Finishes(s, events);
    assert [] + Accepted(Finishes(s, events), Handlings(events)) == Accepted(Finishes(s, events), Handlings(events));
  }

  // ---- in which order batches are started --------------------------------------------------------------

  /** Batches are started in the order in which they were queued: what was started and what waits
      only ever grows at its end. */
  lemma {:induction false} FirstInFirstOut(s: State, events: seq<Event>)
    requires IsRun(s, events)
    ensures var end := Final(s, events); s.calls + s.work <= end.calls + end.work && s.calls <= end.calls
    decreases |events|
  {
    if events != [] {
      var s' := After(s, events[0]);
      assert s.calls + s.work <= s'.calls + s'.work && s.calls <= s'.calls by {
        if events[0].Take? {
          assert s.work == [s.work[0]] + s.work[1..];
          assert s.calls + s.work == s'.calls + s'.work;
        }
      }
      hide After, Enabled;
      FirstInFirstOut(s', events[1..]);
    }
  }

  ghost function Batches(finishes: seq<Finished>): seq<Batch> {
    if finishes == [] then [] else [finishes[0].batch] + Batches(finishes[1..])
  }

  /** What was started has finished once or is still with its runner. */
  lemma {:induction false} StartedAre(s: State, events: seq<Event>, b: Batch)
    requires IsRun(s, events) && b != []
    ensures var end := Final(s, events);
      multiset(end.calls)[b] + multiset(s.running)[b] ==
      multiset(s.calls)[b] + multiset(Batches(Finishes(s, events)))[b] + multiset(end.running)[b]
    decreases |events|
  {
    if events != [] {
      var e, s' := events[0], After(s, events[0]);
      StartedStep(s, e, b);
      StartedAre(s', events[1..], b);
      hide After, Enabled;
      var rest := Finishes(s', events[1..]);
      if e.Finish? {
        var f := Finished(s.running[e.thread], e.ok);
        assert ([f] + rest)[1..] == rest;
        assert multiset(Batches([f] + rest))[b] == (if f.batch == b then 1 else 0) + multiset(Batches(rest))[b];
      } else {
        assert Finishes(s, events) == rest by { assert [] + rest == rest; }
      }
    }
  }

  lemma StartedStep(s: State, e: Event, b: Batch)
    requires Enabled(s, e) && b != []
    ensures var s' := After(s, e);
      multiset(s'.calls)[b] + multiset(s.running)[b]
      == multiset(s.calls)[b] + multiset(s'.running)[b] + if e.Finish? && s.running[e.thread] == b then 1 else 0
  {
    match e {
      case Take(i) => Replaced(s.running, i, s.work[0], b);
      case Finish(i, ok) => Replaced(s.running, i, [], b);
      case _ =>
    }
  }

  lemma Replaced(running: seq<Batch>, i: nat, new_: Batch, b: Batch)
    requires i < |running|
    ensures multiset(running[i := new_])[b] + (if running[i] == b then 1 else 0)
         == multiset(running)[b] + (if new_ == b then 1 else 0)
  {
    assert running == running[..i] + [running[i]] + running[i + 1..];
    assert running[i := new_] == running[..i] + [new_] + running[i + 1..];
  }

  // ---- what is done with the others -------------------------------------------------------------------------

  ghost predicate NoneTwice(b: Batch) {
    forall i, j :: 0 <= i < j < |b| ==> b[i] != b[j]
  }

  /** A marker that names a unit of the batch costs that unit, the others stay together; else a
      single unit is lost and a larger batch halved. */
  ghost predicate TakenApart(b: Batch, marker: Option<string>, lost: Batch, parts: seq<Batch>) {
    && (marker.Some? && marker.value in b ==>
          lost == [marker.value] && exists i :: 0 <= i < |b| && b[i] == marker.value && parts == [b[..i] + b[i + 1..]])
    && (!(marker.Some? && marker.value in b) && |b| == 1 ==> lost == b && parts == [])
    && (!(marker.Some? && marker.value in b) && |b| > 1 ==>
          lost == [] && |parts| == 2 && parts[0] + parts[1] == b && |parts[0]| == |b| / 2)
  }

  lemma {:induction false} WithoutAbsent(b: Batch, t: string)
    requires t !in b
    ensures Without(b, t) == b
  {
    if b != [] {
      WithoutAbsent(b[..|b| - 1], t);
    }
  }

  lemma {:induction false} WithoutOne(b: Batch, i: nat)
    requires NoneTwice(b) && i < |b|
    ensures Without(b, b[i]) == b[..i] + b[i + 1..]
  {
    var init, last := b[..|b| - 1], b[|b| - 1];
    if i == |b| - 1 {
      WithoutAbsent(init, last);
      assert b[..i] + b[i + 1..] == init;
    } else {
      WithoutOne(init, i);
      assert init[..i] + init[i + 1..] + [last] == b[..i] + b[i + 1..];
    }
  }

  /** A batch that failed or left no readable shard is not consumed but taken apart. */
  lemma FailedIsTakenApart(s: State, readable: bool, marker: Option<string>)
    requires s.parent.Holding? && s.parent.res.batch != [] && NoneTwice(s.parent.res.batch)
    requires !s.parent.res.ok || !readable
    ensures var s' := After(s, Handle(readable, marker));
      exists lost, parts :: TakenApart(s.parent.res.batch, marker, lost, parts)
        && s' == s.(poisoned := s.poisoned + lost, parent := Requeuing(parts))
  {
    var b, s' := s.parent.res.batch, After(s, Handle(readable, marker));
    if marker.Some? && marker.value in b {
      var i :| 0 <= i < |b| && b[i] == marker.value;
      WithoutOne(b, i);
      assert TakenApart(b, marker, [marker.value], [b[..i] + b[i + 1..]]);
    } else if |b| == 1 {
      assert TakenApart(b, marker, b, []);
    } else {
      assert b[..|b| / 2] + b[|b| / 2..] == b;
      assert TakenApart(b, marker, [], [b[..|b| / 2], b[|b| / 2..]]);
    }
  }

  /** Each of its units is then poisoned or in a part to be requeued. */
  lemma NoneForgotten(b: Batch, marker: Option<string>, lost: Batch, parts: seq<Batch>, t: string)
    requires TakenApart(b, marker, lost, parts) && t in b
    ensures t in lost || exists p :: p in parts && t in p
  {
    if marker.Some? && marker.value in b {
      var i :| 0 <= i < |b| && b[i] == marker.value && parts == [b[..i] + b[i + 1..]];
      assert b == b[..i] + [b[i]] + b[i + 1..];
      assert parts[0] in parts;
    } else if |b| > 1 {
      assert t in parts[0] + parts[1];
      assert parts[0] in parts && parts[1] in parts;
    }
  }

  /** A part is requeued behind everything else with the units retried less than twice so far; the
      others are poisoned. Every unit of it has one retry more. */
  ghost predicate Requeued(s: State, s': State, tus: Batch, kept: Batch, spent: Batch)
    requires s.parent.Requeuing? && s.parent.batches != []
  {
    && (forall t :: t in kept <==> t in tus && Retries(s.retries, t) < 2)
    && (forall t :: t in spent <==> t in tus && Retries(s.retries, t) >= 2)
    && NoneTwice(kept) && NoneTwice(spent)
    && (forall t :: Retries(s'.retries, t) == Retries(s.retries, t) + if t in tus then 1 else 0)
    && s'.work == s.work + (if kept == [] then [] else [kept]) && s'.poisoned == s.poisoned + spent
    && s'.outstanding == s.outstanding + (if kept == [] then 0 else 1)
    && s'.parent == Requeuing(s.parent.batches[1..])
    && s'.running == s.running && s'.results == s.results && s'.consumed == s.consumed && s'.calls == s.calls
  }

  lemma {:induction false} TriageIs(retries: map<string, nat>, tus: Batch, kept: bool)
    requires NoneTwice(tus)
    ensures forall t :: t in Triage(retries, tus, kept) <==> t in tus && (Retries(retries, t) < 2) == kept
    ensures NoneTwice(Triage(retries, tus, kept))
    ensures forall t :: Retries(Bumped(retries, tus), t) == Retries(retries, t) + if t in tus then 1 else 0
  {
    if tus != [] {
      var init, tu := tus[..|tus| - 1], tus[|tus| - 1];
      TriageIs(retries, init, kept);
      assert tus == init + [tu] && tu !in init;
      hide Bumped;
      forall t ensures Retries(Bumped(retries, tus), t) == Retries(retries, t) + if t in tus then 1 else 0 {
        BumpedOne(retries, tus, t);
      }
    }
  }

  lemma BumpedOne(retries: map<string, nat>, tus: Batch, t: string)
    requires tus != []
    ensures var init, tu := tus[..|tus| - 1], tus[|tus| - 1];
      Retries(Bumped(retries, tus), t) == Retries(Bumped(retries, init), t) + if t == tu then 1 else 0
  {
  }

  lemma PartIsRequeued(s: State)
    requires s.parent.Requeuing? && s.parent.batches != [] && NoneTwice(s.parent.batches[0])
    ensures var tus := s.parent.batches[0];
      exists kept, spent :: Requeued(s, After(s, Requeue), tus, kept, spent)
  {
    var tus := s.parent.batches[0];
    TriageIs(s.retries, tus, true);
    TriageIs(s.retries, tus, false);
    assert Requeued(s, After(s, Requeue), tus, Triage(s.retries, tus, true), Triage(s.retries, tus, false));
  }

  // ---- the initial batches ---------------------------------------------------------------------------------

  ghost function Concat(batches: seq<Batch>): Batch {
    if batches == [] then [] else batches[0] + Concat(batches[1..])
  }

  /** The initial batches are the files in order, cut every `size`. */
  lemma {:induction false} ChunksAre(files: seq<string>, size: nat)
    requires size > 0
    ensures var batches := Chunks(files, size);
      && Concat(batches) == files && (forall i :: 0 <= i < |batches| ==> 0 < |batches[i]| <= size)
      && forall i :: 0 <= i < |batches| - 1 ==> |batches[i]| == size
    decreases |files|
  {
    if files != [] {
      var k := if |files| < size then |files| else size;
      ChunksAre(files[k..], size);
      assert files[..k] + files[k..] == files;
    }
  }
}

/** The isolated worker dispatch: the shared state, and what each thread does to it between two
    points where another thread may run (src/callgraph/WorkerPool.cpp:77-246). */
module WorkerPool {
  import opened EdgeTypes

  type Batch = seq<string>

  const MAX_TU_RETRIES := 2

  /** A finished worker process. */
  datatype Finished = Finished(batch: Batch, ok: bool)

  /** What the parent loop holds between its steps. */
  datatype Parent = Waiting | Holding(res: Finished) | Requeuing(batches: seq<Batch>) | Stopped

  /** `running[i]` is the batch thread `i` has in the runner, empty when it has none; `calls`
      are the batches given to the runner so far. */
  datatype State = State(work: seq<Batch>, running: seq<Batch>, results: seq<Finished>, outstanding: int,
                         retries: map<string, nat>, parent: Parent, consumed: seq<Batch>, poisoned: seq<string>,
                         calls: seq<Batch>)

  /** One step. The runner, the shard and the marker line are the environment's choice. */
  datatype Event =
    | Take(thread: nat)
    | Finish(thread: nat, ok: bool)
    | Pop
    | Handle(readable: bool, marker: Option<string>)
    | Requeue
    | Stop

  predicate Enabled(s: State, e: Event) {
    match e
    case Take(i) => i < |s.running| && s.running[i] == [] && s.work != []
    case Finish(i, _) => i < |s.running| && s.running[i] != []
    case Pop => s.parent.Waiting? && s.outstanding != 0 && s.results != []
    case Handle(_, _) => s.parent.Holding?
    case Requeue => s.parent.Requeuing?
    case Stop => s.parent.Waiting? && s.outstanding == 0
  }

  function Retries(retries: map<string, nat>, tu: string): nat {
    if tu in retries then retries[tu] else 0
  }

  /** The retry counters after one more attempt for each unit of a batch. */
  function Bumped(retries: map<string, nat>, tus: Batch): map<string, nat> {
    if tus == [] then retries
    else
      var r, tu := Bumped(retries, tus[..|tus| - 1]), tus[|tus| - 1];
      r[tu := Retries(r, tu) + 1]
  }

  /** The units of a batch with, or without, an attempt left. */
  function Triage(retries: map<string, nat>, tus: Batch, kept: bool): Batch {
    if tus == [] then []
    else
      var init, tu := tus[..|tus| - 1], tus[|tus| - 1];
      Triage(retries, init, kept)
      + (if (Retries(Bumped(retries, init), tu) + 1 <= MAX_TU_RETRIES) == kept then [tu] else [])
  }

  function Without(tus: Batch, tu: string): Batch {
    if tus == [] then []
    else Without(tus[..|tus| - 1], tu) + (if tus[|tus| - 1] != tu then [tus[|tus| - 1]] else [])
  }

  /** The batches a failed one is taken apart into; the unit its marker names is left out. */
  function Parts(batch: Batch, marker: Option<string>): seq<Batch> {
    if marker.Some? && marker.value in batch then [Without(batch, marker.value)]
    else if |batch| == 1 then []
    else [batch[..|batch| / 2], batch[|batch| / 2..]]
  }

  /** The unit poisoned at once when a batch fails. */
  function Presumed(batch: Batch, marker: Option<string>): Batch {
    if marker.Some? && marker.value in batch then [marker.value]
    else if |batch| == 1 then batch
    else []
  }

  function RequeueOne(s: State): State
    requires s.parent.Requeuing?
  {
    if s.parent.batches == [] then s.(parent := Waiting)
    else
      var tus := s.parent.batches[0];
      var kept := Triage(s.retries, tus, true);
      s.(retries := Bumped(s.retries, tus), poisoned := s.poisoned + Triage(s.retries, tus, false),
         outstanding := s.outstanding + (if kept == [] then 0 else 1),
         work := s.work + (if kept == [] then [] else [kept]),
         parent := Requeuing(s.parent.batches[1..]))
  }

  /** The state after a step. */
  function After(s: State, e: Event): State
    requires Enabled(s, e)
  {
    match e
    case Take(i) => s.(work := s.work[1..], running := s.running[i := s.work[0]], calls := s.calls + [s.work[0]])
    case Finish(i, ok) => s.(running := s.running[i := []], results := s.results + [Finished(s.running[i], ok)])
    case Pop => s.(results := s.results[1..], outstanding := s.outstanding - 1, parent := Holding(s.results[0]))
    case Handle(readable, marker) =>
      var b := s.parent.res.batch;
      if s.parent.res.ok && readable then s.(consumed := s.consumed + [b], parent := Waiting)
      else s.(poisoned := s.poisoned + Presumed(b, marker), parent := Requeuing(Parts(b, marker)))
    case Requeue => RequeueOne(s)
    case Stop => s.(parent := Stopped)
  }

  // ---- the initial batches -------------------------------------------------------------------------

  function Min(a: nat, b: nat): nat { if a < b then a else b }
  function Max(a: nat, b: nat): nat { if a < b then b else a }

  /** Unless overridden, the largest size up to 32 that leaves four batches for each worker. */
  function BatchSize(files: nat, workers: nat, override: nat): (size: nat)
    requires workers > 0
    ensures size > 0
    ensures override != 0 ==> size == override
    ensures override == 0 ==> size <= 32
    ensures override == 0 && size > 1 ==> size * (workers * 4) <= files
    ensures override == 0 && size < 32 ==> files < (size + 1) * (workers * 4)
  {
    if override != 0 then override
    else
      var q := files / (workers * 4);
      var size := Min(32, Max(1, q));
      Quotient(files, workers * 4);
      Scaled(Min(size, q), q, workers * 4);
      Scaled(q + 1, Max(q, size) + 1, workers * 4);
      size
  }

  lemma Quotient(n: nat, d: nat)
    requires d > 0
    ensures n / d * d <= n < (n / d + 1) * d
  {
  }

  lemma Scaled(a: nat, b: nat, c: nat)
    requires a <= b
    ensures a * c <= b * c
  {
  }

  /** The files in consecutive batches of `size`, the last one shorter. */
  function Chunks(files: seq<string>, size: nat): seq<Batch>
    requires size > 0
  {
    if files == [] then []
    else var k := Min(size, |files|); [files[..k]] + Chunks(files[k..], size)
  }

  method Chunk(files: seq<string>, size: nat) returns (batches: seq<Batch>)
    requires size > 0
    ensures batches == Chunks(files, size)
  {
    batches := [];
    var i := 0;
    while i < |files|
      invariant batches + Chunks(files[Min(i, |files|)..], size) == Chunks(files, size)
      decreases |files| - i
    {
      var end := Min(|files|, i + size);
      ghost var rest := files[i..];
      assert rest[..Min(size, |rest|)] == files[i..end] && rest[Min(size, |rest|)..] == files[end..];
      assert Chunks(rest, size) == [files[i..end]] + Chunks(files[end..], size);
      assert batches + ([files[i..end]] + Chunks(files[end..], size)) == batches + [files[i..end]]
        + Chunks(files[end..], size);
      batches := batches + [files[i..end]];
      i := i + size;
    }
    assert batches + [] == batches;
  }

  // ---- the dispatcher ----------------------------------------------------------------------------------

  class Dispatcher {
    var work: seq<Batch>
    var running: seq<Batch>
    var results: seq<Finished>
    var outstanding: int
    var retries: map<string, nat>
    var parent: Parent
    var consumed: seq<Batch>
    var poisoned: seq<string>
    var calls: seq<Batch> // a history of the runner calls

    function Value(): State
      reads this
    {
      State(work, running, results, outstanding, retries, parent, consumed, poisoned, calls)
    }

    /** Everything queued, every thread idle. */
    constructor (batches: seq<Batch>, workers: nat)
      ensures Value() == Initial(batches, workers)
    {
      work, running, results := batches, seq(workers, _ => []), [];
      outstanding := |batches|;
      retries, parent, consumed, poisoned, calls := map[], Waiting, [], [], [];
    }

    /** A dispatch thread takes the front batch into the runner. */
    method TakeBatch(i: nat)
      requires Enabled(Value(), Take(i))
      modifies this
      ensures Value() == After(old(Value()), Take(i))
    {
      var b := work[0];
      work := work[1..];
      running := running[i := b];
      calls := calls + [b];
    }

    /** The runner returns: the result goes to the parent. */
    method FinishBatch(i: nat, ok: bool)
      requires Enabled(Value(), Finish(i, ok))
      modifies this
      ensures Value() == After(old(Value()), Finish(i, ok))
    {
      results := results + [Finished(running[i], ok)];
      running := running[i := []];
    }

    method PopResult()
      requires Enabled(Value(), Pop)
      modifies this
      ensures Value() == After(old(Value()), Pop)
    {
      parent := Holding(results[0]);
      results := results[1..];
      outstanding := outstanding - 1;
    }

    /** Consume the shard, or take the failed batch apart. */
    method HandleResult(readable: bool, marker: Option<string>)
      requires Enabled(Value(), Handle(readable, marker))
      modifies this
      ensures Value() == After(old(Value()), Handle(readable, marker))
      ensures consumed == old(consumed)
        + (if old(parent).res.ok && readable then [old(parent).res.batch] else [])
      ensures parent.Waiting? <==> old(parent).res.ok && readable
    {
      var res := parent.res;
      if res.ok && readable {
        consumed := consumed + [res.batch];
        parent := Waiting;
      } else {
        HandleFailure(res.batch, marker);
      }
    }

    method HandleFailure(batch: Batch, marker: Option<string>)
      modifies this`poisoned, this`parent
      ensures poisoned == old(poisoned) + Presumed(batch, marker) && parent == Requeuing(Parts(batch, marker))
    {
      if marker.Some? && marker.value in batch {
        poisoned := poisoned + [marker.value];
        var rest := AllBut(batch, marker.value);
        parent := Requeuing([rest]);
      } else if |batch| == 1 {
        poisoned := poisoned + [batch[0]];
        assert batch == [batch[0]];
        parent := Requeuing([]);
      } else {
        var mid := |batch| / 2;
        parent := Requeuing([batch[..mid], batch[mid..]]);
      }
    }

    method AllBut(batch: Batch, tu: string) returns (rest: Batch)
      ensures rest == Without(batch, tu)
    {
      rest := [];
      for i := 0 to |batch|
        invariant rest == Without(batch[..i], tu)
      {
        assert batch[..i + 1][..i] == batch[..i];
        if batch[i] != tu {
          rest := rest + [batch[i]];
        }
      }
      assert batch[..|batch|] == batch;
    }

    /** Re-enqueue one batch without the units that have no attempt left; those are poisoned. */
    method RequeueBatch()
      requires Enabled(Value(), Requeue)
      modifies this
      ensures Value() == After(old(Value()), Requeue)
    {
      if parent.batches == [] {
        parent := Waiting;
        return;
      }
      var kept := TriageBatch(parent.batches[0]);
      parent := Requeuing(parent.batches[1..]);
      if kept != [] {
        outstanding := outstanding + 1;
        work := work + [kept];
      }
    }

    /** The units with an attempt left; the others are poisoned. */
    method TriageBatch(tus: Batch) returns (kept: Batch)
      modifies this`retries, this`poisoned
      ensures retries == Bumped(old(retries), tus) && kept == Triage(old(retries), tus, true)
      ensures poisoned == old(poisoned) + Triage(old(retries), tus, false)
    {
      kept := [];
      for i := 0 to |tus|
        invariant retries == Bumped(old(retries), tus[..i]) && kept == Triage(old(retries), tus[..i], true)
        invariant poisoned == old(poisoned) + Triage(old(retries), tus[..i], false)
      {
        assert tus[..i + 1][..i] == tus[..i];
        retries := retries[tus[i] := Retries(retries, tus[i]) + 1];
        if retries[tus[i]] > MAX_TU_RETRIES {
          poisoned := poisoned + [tus[i]];
        } else {
          kept := kept + [tus[i]];
        }
      }
      assert tus[..|tus|] == tus;
    }

    method StopThreads()
      requires Enabled(Value(), Stop)
      modifies this
      ensures Value() == After(old(Value()), Stop)
    {
      parent := Stopped;
    }

    /** One step of the given kind. */
    method Do(e: Event)
      requires Enabled(Value(), e)
      modifies this
      ensures Value() == After(old(Value()), e)
    {
      match e
      case Take(i) => TakeBatch(i);
      case Finish(i, ok) => FinishBatch(i, ok);
      case Pop => PopResult();
      case Handle(readable, marker) => HandleResult(readable, marker);
      case Requeue => RequeueBatch();
      case Stop => StopThreads();
    }
  }

  function Initial(batches: seq<Batch>, workers: nat): State {
    State(batches, seq(workers, _ => []), [], |batches|, map[], Waiting, [], [], [])
  }
}

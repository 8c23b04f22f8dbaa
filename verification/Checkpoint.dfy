/** The journal object: opened from what is on disk, queried, and appended to
    (src/anneal/Checkpoint.cpp:613-846). */
module Checkpoint {
  import opened EdgeTypes
  import opened Wire
  import opened Journal

  const MAGIC: Bytes := [86, 89, 67, 74] // "VYCJ"

  function Header(fingerprint: nat): (h: Bytes)
    ensures |h| == 16
  {
    MAGIC + Le(VERSION, 4) + Le(fingerprint, 8)
  }

  /** The journal was written by this version under these options. */
  predicate Reusable(disk: Option<Bytes>, fingerprint: nat) {
    disk.Some? && |disk.value| >= 16 && disk.value[..4] == MAGIC
    && FromLe(disk.value[4..8]) == VERSION && FromLe(disk.value[8..16]) == fingerprint
  }

  lemma HeaderIsReusable(fingerprint: nat, body: Bytes)
    requires fingerprint < TWO64
    ensures Reusable(Some(Header(fingerprint) + body), fingerprint) && (Header(fingerprint) + body)[16..] == body
  {
    Widths();
    var disk := Header(fingerprint) + body;
    FromLeOfLe(VERSION, 4);
    FromLeOfLe(fingerprint, 8);
    assert disk[..4] == MAGIC && disk[4..8] == Le(VERSION, 4) && disk[8..16] == Le(fingerprint, 8);
  }

  /** The next frame of the stream, the cursor left behind it. */
  method ReadFrame(stream: Reader) returns (frame: Option<(byte, Bytes)>)
    requires stream.Valid() && stream.ok && stream.Rest() != []
    modifies stream`pos, stream`ok
    ensures stream.Valid()
    ensures frame.None? <==> NextFrame(old(stream.Rest())).None?
    ensures frame.Some? ==>
      stream.ok && NextFrame(old(stream.Rest())) == Some((frame.value.0, frame.value.1, stream.Rest()))
  {
    hide Checksum, FromLe;
    ghost var s := stream.Rest();
    frame := None;
    var kind := stream.Number(1);
    OneByte(s);
    var len := stream.Number(4);
    if stream.ok {
      Sliced(s, 1, 4);
    }
    var enough := stream.Need(len + 4);
    if !enough {
      return;
    }
    var payload := stream.Chunk(len);
    Sliced(s, 5, len);
    var checksum := stream.Number(4);
    Sliced(s, 5 + len, 4);
    if checksum != Checksum(payload) {
      return;
    }
    frame := Some((kind as byte, payload));
  }

  lemma Sliced(s: Bytes, i: nat, n: nat)
    requires i + n <= |s|
    ensures s[i..][..n] == s[i..i + n] && s[i..][n..] == s[i + n..]
  {
  }

  /** A payload through a reader of its own. */
  method ReadRecord(kind: byte, payload: Bytes) returns (rec: Option<Record>)
    ensures rec == DecodeRecord(kind, payload)
  {
    hide Parse, RecordOf;
    rec := None;
    var layout := LayoutOf(kind);
    if layout.Some? {
      var r := new Reader(payload);
      assert payload[0..] == payload;
      var v := r.Item(layout.value);
      if r.ok {
        rec := RecordOf(kind, v);
      }
    }
  }

  class AnnealCheckpoint {
    const fingerprint: nat
    var attempts: map<(nat, Bytes), AttemptState>
    var phase1: map<Bytes, (Stamp, Value)>
    var phase2: map<Bytes, (Stamp, nat, Value)>
    var file: Bytes
    ghost var log: seq<Record>

    ghost function Loaded(): State
      reads this
    {
      State(attempts, phase1, phase2)
    }

    /** The file is the header and whole records, and the counters in memory are those a reload
        of the file would give. */
    ghost predicate Valid()
      reads this
    {
      && fingerprint < TWO64
      && (forall r :: r in log ==> Writable(r))
      && file == Header(fingerprint) + Journaled(log)
      && attempts == Replay(EMPTY, log).attempts
    }

    /** open: reuse what is on disk when the header agrees, else start fresh. `whole` are the
        records on disk when the file was not cut short. */
    constructor (disk: Option<Bytes>, fingerprint: nat, ghost whole: seq<Record>)
      ensures this.fingerprint == fingerprint
      ensures Reusable(disk, fingerprint) ==> file == disk.value && Loaded() == Load(disk.value[16..], EMPTY)
      ensures !Reusable(disk, fingerprint) ==> file == Header(fingerprint) && Loaded() == EMPTY && log == []
      ensures OnDisk(disk, fingerprint, whole) ==> Valid() && log == whole && Loaded() == Replay(EMPTY, whole)
      ensures OnDisk(disk, fingerprint, whole) ==> forall tu :: HoldsLast(Loaded(), whole, tu)
    {
      hide HoldsLast, AreJournaled;
      this.fingerprint := fingerprint;
      attempts, phase1, phase2 := map[], map[], map[];
      log := if Reusable(disk, fingerprint) then whole else [];
      file := if Reusable(disk, fingerprint) then disk.value else Header(fingerprint);
      new;
      if Reusable(disk, fingerprint) {
        LoadRecords(disk.value[16..]);
      }
      if OnDisk(disk, fingerprint, whole) {
        OpenWhole(disk, fingerprint, whole);
        forall tu ensures HoldsLast(Replay(EMPTY, whole), whole, tu) {
          ReplayHoldsLast(whole, tu);
        }
      }
    }

    /** loadRecords. */
    method LoadRecords(data: Bytes)
      modifies this`attempts, this`phase1, this`phase2
      ensures Loaded() == Load(data, old(Loaded()))
      ensures old(Loaded()) == EMPTY ==> forall rs, tu :: AreJournaled(rs, data) ==> HoldsLast(Loaded(), rs, tu)
    {
      hide NextFrame, DecodeRecord, HoldsLast, AreJournaled;
      var stream := new Reader(data);
      assert stream.Rest() == data;
      var more := true;
      NothingFramed();
      while more && stream.pos < |data|
        invariant fresh(stream) && stream.Valid() && stream.data == data && (more ==> stream.ok)
        invariant more ==> Load(stream.Rest(), Loaded()) == Load(data, old(Loaded()))
        invariant !more ==> Loaded() == Load(data, old(Loaded()))
        decreases more, |data| - stream.pos
      {
        ghost var s := stream.Rest();
        var frame := ReadFrame(stream);
        if frame.None? {
          more := false;
        } else {
          FrameShrinks(s);
          var rec := ReadRecord(frame.value.0, frame.value.1);
          if rec.Some? {
            Take(rec.value);
          }
        }
      }
      if more {
        assert stream.Rest() == [];
      }
      if old(Loaded()) == EMPTY {
        forall rs, tu | AreJournaled(rs, data) ensures HoldsLast(Loaded(), rs, tu) {
          LoadedHoldLast(rs, data, tu);
        }
      }
    }

    /** One loaded record. */
    method Take(r: Record)
      modifies this`attempts, this`phase1, this`phase2
      ensures Loaded() == Apply(old(Loaded()), r)
    {
      match r
      case Attempt(phase, tu, stamp) => CountAttempt(phase, tu, stamp);
      case Phase1(tu, stamp, payload) =>
        attempts := attempts - {(PHASE_INDEX, tu)};
        phase1 := phase1[tu := (stamp, payload)];
      case Phase2(tu, stamp, hash, diagnostics) =>
        attempts := attempts - {(PHASE_ANALYZE, tu)};
        phase2 := phase2[tu := (stamp, hash, diagnostics)];
    }

    method CountAttempt(phase: nat, tu: Bytes, stamp: Stamp)
      modifies this`attempts
      ensures attempts == Started(old(attempts), (phase, tu), stamp)
    {
      if (phase, tu) in attempts && attempts[(phase, tu)].stamp == stamp {
        attempts := attempts[(phase, tu) := AttemptState(stamp, attempts[(phase, tu)].count + 1)];
      } else {
        attempts := attempts[(phase, tu) := AttemptState(stamp, 1)];
      }
    }

    /** attempts: the starts on record for exactly this stamp. */
    function AttemptsOf(phase: nat, tu: Bytes, stamp: Stamp): nat
      reads this
    {
      Attempts(attempts, phase, tu, stamp)
    }

    /** replayPhase1, as far as whether there is something to replay. */
    function Replayable(tu: Bytes, stamp: Stamp): Option<Value>
      reads this
    {
      if tu in phase1 && phase1[tu].0 == stamp then Some(phase1[tu].1) else None
    }

    /** replayPhase2: the diagnostics, for the same stamp and the same hash of the index set. */
    function ReplayableDiagnostics(tu: Bytes, stamp: Stamp, indexSetHash: nat): Option<Value>
      reads this
    {
      if tu in phase2 && phase2[tu].0 == stamp && phase2[tu].1 == indexSetHash then Some(phase2[tu].2) else None
    }

    /** What is replayed for a unit is what its last completion recorded, and only for the stamp,
        and in phase 2 the hash, it was recorded with. */
    lemma ReplaysTheLast(whole: seq<Record>, tu: Bytes, stamp: Stamp, hash: nat, v: Value)
      requires Loaded() == Replay(EMPTY, whole)
      ensures Replayable(tu, stamp) == Some(v) <==>
        exists i: nat :: LastPhase1(whole, tu, i) && whole[i].stamp == stamp && whole[i].payload == v
      ensures ReplayableDiagnostics(tu, stamp, hash) == Some(v) <==>
        exists i: nat :: LastPhase2(whole, tu, i) && whole[i].stamp == stamp && whole[i].indexSetHash == hash
                           && whole[i].diagnostics == v
    {
      ReplayHoldsLast(whole, tu);
      hide Replay, LastPhase1, LastPhase2;
      if tu in phase1 {
        var i: nat :| LastPhase1(whole, tu, i);
      }
      if tu in phase2 {
        var i: nat :| LastPhase2(whole, tu, i);
      }
    }

    method AppendRecord(kind: byte, payload: Bytes)
      requires |payload| < TWO32 - 4
      modifies this`file
      ensures file == old(file) + Frame(kind, payload)
    {
      var framed: Bytes := [kind];
      framed := framed + Le(|payload|, 4);
      framed := framed + payload;
      framed := framed + Le(Checksum(payload), 4);
      file := file + framed;
    }

    method RecordAttempt(phase: nat, tu: Bytes, stamp: Stamp)
      requires Valid() && Writable(Attempt(phase, tu, stamp))
      modifies this`file, this`attempts, this`log
      ensures Valid() && log == old(log) + [Attempt(phase, tu, stamp)]
    {
      hide Frame, Encode;
      var r := Attempt(phase, tu, stamp);
      AppendRecord(1, PayloadOf(r));
      CountAttempt(phase, tu, stamp);
      JournaledConcat(log, r);
      ReplayOne(EMPTY, log, r);
      log := log + [r];
      assert Header(fingerprint) + old(Journaled(log)) + FrameOf(r) == Header(fingerprint)
        + (old(Journaled(log)) + FrameOf(r));
    }

    method RecordPhase1(tu: Bytes, stamp: Stamp, payload: Value)
      requires Valid() && Writable(Phase1(tu, stamp, payload))
      modifies this`file, this`attempts, this`log
      ensures Valid() && log == old(log) + [Phase1(tu, stamp, payload)]
    {
      hide Frame, Encode;
      var r := Phase1(tu, stamp, payload);
      AppendRecord(2, PayloadOf(r));
      attempts := attempts - {(PHASE_INDEX, tu)};
      JournaledConcat(log, r);
      ReplayOne(EMPTY, log, r);
      log := log + [r];
      assert Header(fingerprint) + old(Journaled(log)) + FrameOf(r) == Header(fingerprint)
        + (old(Journaled(log)) + FrameOf(r));
    }

    method RecordPhase2(tu: Bytes, stamp: Stamp, indexSetHash: nat, diagnostics: Value)
      requires Valid() && Writable(Phase2(tu, stamp, indexSetHash, diagnostics))
      modifies this`file, this`attempts, this`log
      ensures Valid() && log == old(log) + [Phase2(tu, stamp, indexSetHash, diagnostics)]
    {
      hide Frame, Encode;
      var r := Phase2(tu, stamp, indexSetHash, diagnostics);
      AppendRecord(3, PayloadOf(r));
      attempts := attempts - {(PHASE_ANALYZE, tu)};
      JournaledConcat(log, r);
      ReplayOne(EMPTY, log, r);
      log := log + [r];
      assert Header(fingerprint) + old(Journaled(log)) + FrameOf(r) == Header(fingerprint)
        + (old(Journaled(log)) + FrameOf(r));
    }
  }

  lemma FrameShrinks(s: Bytes)
    ensures NextFrame(s).Some? ==> |NextFrame(s).value.2| < |s|
  {
  }

  function Attempts(attempts: map<(nat, Bytes), AttemptState>, phase: nat, tu: Bytes, stamp: Stamp): nat {
    if (phase, tu) in attempts && attempts[(phase, tu)].stamp == stamp then attempts[(phase, tu)].count else 0
  }

  // ---- what the counters mean -------------------------------------------------------------------------

  predicate Completes(r: Record, phase: nat) {
    (r.Phase1? && phase == PHASE_INDEX) || (r.Phase2? && phase == PHASE_ANALYZE)
  }

  /** The starts of this unit with this stamp since its last completion, or its last start with
      another stamp. */
  function StartsSince(log: seq<Record>, phase: nat, tu: Bytes, stamp: Stamp): nat {
    if log == [] then 0
    else
      var r, before := log[|log| - 1], log[..|log| - 1];
      if r.tu != tu then StartsSince(before, phase, tu, stamp)
      else if Completes(r, phase) then 0
      else if r.Attempt? && r.phase == phase then
        (if r.stamp == stamp then StartsSince(before, phase, tu, stamp) + 1 else 0)
      else StartsSince(before, phase, tu, stamp)
  }

  /** The counter is exactly that, for every journal. */
  lemma {:induction false} AttemptsAreStarts(log: seq<Record>, phase: nat, tu: Bytes, stamp: Stamp)
    ensures Attempts(Replay(EMPTY, log).attempts, phase, tu, stamp) == StartsSince(log, phase, tu, stamp)
  {
    if log != [] {
      var r, before := log[|log| - 1], log[..|log| - 1];
      AttemptsAreStarts(before, phase, tu, stamp);
      assert log == before + [r];
      ReplayOne(EMPTY, before, r);
      hide Replay;
      CounterStep(Replay(EMPTY, before), r, phase, tu, stamp);
    }
  }

  lemma CounterStep(st: State, r: Record, phase: nat, tu: Bytes, stamp: Stamp)
    ensures var was, now := Attempts(st.attempts, phase, tu, stamp), Attempts(Apply(st, r).attempts, phase, tu, stamp);
      now == if r.tu != tu then was
             else if Completes(r, phase) then 0
             else if r.Attempt? && r.phase == phase then (if r.stamp == stamp then was + 1 else 0)
             else was
  {
  }

  /** The attempt at `i` is of this unit and stamp, and none behind it completes the unit's phase
      or attempts it with another stamp. */
  ghost predicate Counts(log: seq<Record>, phase: nat, tu: Bytes, stamp: Stamp, i: nat) {
    && i < |log| && log[i] == Attempt(phase, tu, stamp)
    && forall j :: i < j < |log| ==> !Resets(log[j], phase, tu, stamp)
  }

  ghost predicate Resets(r: Record, phase: nat, tu: Bytes, stamp: Stamp) {
    r.tu == tu && match r
      case Attempt(p, _, s) => p == phase && s != stamp
      case Phase1(_, _, _) => phase == 1
      case Phase2(_, _, _, _) => phase == 2
  }

  ghost function Counted(log: seq<Record>, phase: nat, tu: Bytes, stamp: Stamp): set<nat> {
    set i: nat | i < |log| && Counts(log, phase, tu, stamp, i)
  }

  /** The counter on record is the number of such attempts. */
  lemma {:induction false} StartsAreCounted(log: seq<Record>, phase: nat, tu: Bytes, stamp: Stamp)
    ensures StartsSince(log, phase, tu, stamp) == |Counted(log, phase, tu, stamp)|
  {
    if log != [] {
      var r, before := log[|log| - 1], log[..|log| - 1];
      StartsAreCounted(before, phase, tu, stamp);
      forall i: nat ensures Counts(log, phase, tu, stamp, i) <==>
        (Counts(before, phase, tu, stamp, i) && !Resets(r, phase, tu, stamp))
        || (i == |before| && r == Attempt(phase, tu, stamp))
      {
        CountsShift(before, r, phase, tu, stamp, i);
        assert log == before + [r];
      }
      hide Counts;
      var was, now := Counted(before, phase, tu, stamp), Counted(log, phase, tu, stamp);
      if r == Attempt(phase, tu, stamp) {
        assert now == was + {|before|};
      } else if Resets(r, phase, tu, stamp) {
        assert now == {};
      } else {
        assert now == was;
      }
    }
  }

  lemma CountsShift(before: seq<Record>, r: Record, phase: nat, tu: Bytes, stamp: Stamp, i: nat)
    ensures Counts(before + [r], phase, tu, stamp, i) <==>
      (Counts(before, phase, tu, stamp, i) && !Resets(r, phase, tu, stamp))
      || (i == |before| && r == Attempt(phase, tu, stamp))
  {
    var log, n := before + [r], |before|;
    assert log[n] == r && forall j :: 0 <= j < n ==> log[j] == before[j];
    hide Resets;
    if i < n {
      if Counts(log, phase, tu, stamp, i) {
        forall j | i < j < n ensures !Resets(before[j], phase, tu, stamp) { assert log[j] == before[j]; }
      }
      if Counts(before, phase, tu, stamp, i) && !Resets(r, phase, tu, stamp) {
        forall j | i < j < |log| ensures !Resets(log[j], phase, tu, stamp) {
          assert log[j] == if j == n then r else before[j];
        }
      }
    }
  }

  // ---- what the journal holds of a unit ------------------------------------------------------------------

  /** Record `i` is the unit's last of its phase. */
  ghost predicate LastPhase1(log: seq<Record>, tu: Bytes, i: nat) {
    i < |log| && log[i].Phase1? && log[i].tu == tu && forall j :: i < j < |log| && log[j].Phase1? ==> log[j].tu != tu
  }

  ghost predicate LastPhase2(log: seq<Record>, tu: Bytes, i: nat) {
    i < |log| && log[i].Phase2? && log[i].tu == tu && forall j :: i < j < |log| && log[j].Phase2? ==> log[j].tu != tu
  }

  /** Found for a unit are stamp and contribution of its last phase-1 record, and stamp, hash and
      diagnostics of its last phase-2 record; nothing is found without one. */
  ghost predicate HoldsLast(st: State, log: seq<Record>, tu: Bytes) {
    && (tu in st.phase1 <==> exists i: nat :: LastPhase1(log, tu, i))
    && (forall i: nat :: LastPhase1(log, tu, i) ==> st.phase1[tu] == (log[i].stamp, log[i].payload))
    && (tu in st.phase2 <==> exists i: nat :: LastPhase2(log, tu, i))
    && (forall i: nat :: LastPhase2(log, tu, i) ==>
          st.phase2[tu] == (log[i].stamp, log[i].indexSetHash, log[i].diagnostics))
  }

  /** The bytes are these records, framed one after the other. */
  ghost predicate AreJournaled(rs: seq<Record>, data: Bytes) {
    (forall r :: r in rs ==> Writable(r)) && data == Journaled(rs)
  }

  lemma LoadedHoldLast(rs: seq<Record>, data: Bytes, tu: Bytes)
    requires AreJournaled(rs, data)
    ensures HoldsLast(Load(data, EMPTY), rs, tu)
  {
    LoadAll(rs, EMPTY);
    ReplayHoldsLast(rs, tu);
  }

  lemma {:induction false} ReplayHoldsLast(log: seq<Record>, tu: Bytes)
    ensures HoldsLast(Replay(EMPTY, log), log, tu)
  {
    if log == [] {
      assert Replay(EMPTY, log) == EMPTY;
    } else {
      var r, before := log[|log| - 1], log[..|log| - 1];
      ReplayHoldsLast(before, tu);
      assert log == before + [r];
      ReplayOne(EMPTY, before, r);
      hide Replay, HoldsLast;
      LastStep(Replay(EMPTY, before), before, r, tu);
    }
  }

  lemma LastShifts(before: seq<Record>, r: Record, tu: Bytes, i: nat)
    ensures LastPhase1(before + [r], tu, i) <==>
      if r.Phase1? && r.tu == tu then i == |before| else LastPhase1(before, tu, i)
    ensures LastPhase2(before + [r], tu, i) <==>
      if r.Phase2? && r.tu == tu then i == |before| else LastPhase2(before, tu, i)
    ensures i < |before| ==> (before + [r])[i] == before[i]
  {
    var log, n := before + [r], |before|;
    assert log[n] == r;
    if i < n {
      assert log[i] == before[i];
      if LastPhase1(before, tu, i) && !(r.Phase1? && r.tu == tu) {
        forall j | i < j < |log| && log[j].Phase1? ensures log[j].tu != tu {
          assert log[j] == if j == n then r else before[j];
        }
      }
      if LastPhase2(before, tu, i) && !(r.Phase2? && r.tu == tu) {
        forall j | i < j < |log| && log[j].Phase2? ensures log[j].tu != tu {
          assert log[j] == if j == n then r else before[j];
        }
      }
      if LastPhase1(log, tu, i) {
        forall j | i < j < n && before[j].Phase1? ensures before[j].tu != tu { assert log[j] == before[j]; }
      }
      if LastPhase2(log, tu, i) {
        forall j | i < j < n && before[j].Phase2? ensures before[j].tu != tu { assert log[j] == before[j]; }
      }
    }
  }

  lemma LastStep(st: State, before: seq<Record>, r: Record, tu: Bytes)
    requires HoldsLast(st, before, tu)
    ensures HoldsLast(Apply(st, r), before + [r], tu)
  {
    var log, n := before + [r], |before|;
    assert log[n] == r;
    forall i: nat
      ensures LastPhase1(log, tu, i) <==> if r.Phase1? && r.tu == tu then i == n else LastPhase1(before, tu, i)
      ensures LastPhase2(log, tu, i) <==> if r.Phase2? && r.tu == tu then i == n else LastPhase2(before, tu, i)
      ensures i < n ==> log[i] == before[i]
    {
      LastShifts(before, r, tu, i);
    }
    if i: nat :| LastPhase1(before, tu, i) { assert i < n; }
    if i: nat :| LastPhase2(before, tu, i) { assert i < n; }
    assert r.Phase1? && r.tu == tu ==> LastPhase1(log, tu, n);
    assert r.Phase2? && r.tu == tu ==> LastPhase2(log, tu, n);
    forall i: nat | LastPhase1(log, tu, i) ensures Apply(st, r).phase1[tu] == (log[i].stamp, log[i].payload) {}
    forall i: nat | LastPhase2(log, tu, i)
      ensures Apply(st, r).phase2[tu] == (log[i].stamp, log[i].indexSetHash, log[i].diagnostics)
    {
    }
  }

  /** Reopening the file of a valid journal gives the same counters. */
  lemma ReloadAgrees(file: Bytes, fingerprint: nat, log: seq<Record>)
    requires fingerprint < TWO64 && (forall r :: r in log ==> Writable(r))
    requires file == Header(fingerprint) + Journaled(log)
    ensures Reusable(Some(file), fingerprint) && Load(file[16..], EMPTY) == Replay(EMPTY, log)
  {
    HeaderIsReusable(fingerprint, Journaled(log));
    LoadAll(log, EMPTY);
  }

  /** Nothing on disk yet, or a journal of whole records. */
  ghost predicate OnDisk(disk: Option<Bytes>, fingerprint: nat, whole: seq<Record>) {
    && fingerprint < TWO64
    && (forall r :: r in whole ==> Writable(r))
    && (disk == Some(Header(fingerprint) + Journaled(whole)) || (disk == None && whole == []))
  }

  lemma OpenWhole(disk: Option<Bytes>, fingerprint: nat, whole: seq<Record>)
    requires OnDisk(disk, fingerprint, whole)
    ensures disk.Some? ==> Reusable(disk, fingerprint) && Load(disk.value[16..], EMPTY) == Replay(EMPTY, whole)
    ensures disk.None? ==>
      Header(fingerprint) == Header(fingerprint) + Journaled(whole) && Replay(EMPTY, whole) == EMPTY
  {
    if disk.Some? {
      ReloadAgrees(disk.value, fingerprint, whole);
    } else {
      assert Header(fingerprint) + [] == Header(fingerprint);
    }
  }
}

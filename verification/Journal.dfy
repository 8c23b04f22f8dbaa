/** The crash-recovery journal: framed, checksummed records appended one at a time, and what a
    reload makes of them (src/anneal/Checkpoint.cpp:33-53, 613-846;
    include/vycor/anneal/Checkpoint.h:36-175). */
module Journal {
  import opened EdgeTypes
  import opened Wire

  const PHASE_INDEX: nat := 1
  const PHASE_ANALYZE: nat := 2
  const MAX_ATTEMPTS: nat := 2
  const VERSION: nat := 8

  // ---- the payload layouts --------------------------------------------------------------------

  const OVERLOAD := Fields([Text, Text, Many(Text), Text, U32])
  const GUIDE := Fields([Text, Text, Many(Text), Text, U32])
  const COVERAGE := Fields([Text, Text, U32, Text, Signed, Bits(7), Signed, Signed, Signed, U32, Text])
  const PAIRS := Many(Fields([Text, Text]))
  const ODR := Fields([Text, Text, Truth, Text, Text, U32, U64])
  const SPECIALIZATION := Fields([Text, Text, Text, U32])
  const DEFAULT_ARG := Fields([Text, Text, U32, Text, Text, Text, U32])
  const STATIC_INIT := Fields([Text, Text, U32, Bits(2), Many(Text), Many(Text)])
  const SUMMARY := Fields([Text, Text, U32, Bits(2), Many(Text), Many(Text), Many(Text)])
  const HEADER_STATIC := Fields([Text, Text, U32, Truth, Many(Text)])
  const EXCEPTION_SPEC := Fields([Text, Text, Truth, Text, U32])

  const INDEX_PAYLOAD := Fields([Many(OVERLOAD), Many(GUIDE), Many(COVERAGE), PAIRS, PAIRS, PAIRS, Many(ODR),
                                 Many(SPECIALIZATION), Many(DEFAULT_ARG), Many(STATIC_INIT), Many(SUMMARY),
                                 Many(HEADER_STATIC), Many(EXCEPTION_SPEC)])
  const DIAGNOSTICS := Many(Fields([U32, Text, Text, Text, Text, Text, Text]))

  // ---- records ------------------------------------------------------------------------------------

  /** A file stamp over the journal's byte strings. */
  datatype Stamp = Stamp(path: Bytes, mtimeNs: nat, size: nat)

  datatype Record =
    | Attempt(phase: nat, tu: Bytes, stamp: Stamp)
    | Phase1(tu: Bytes, stamp: Stamp, payload: Value)
    | Phase2(tu: Bytes, stamp: Stamp, indexSetHash: nat, diagnostics: Value)

  function Kind(r: Record): byte {
    match r
    case Attempt(_, _, _) => 1
    case Phase1(_, _, _) => 2
    case Phase2(_, _, _, _) => 3
  }

  function LayoutOf(kind: byte): Option<Layout> {
    if kind == 1 then Some(Then(U8, Then(Text, Then(U64, Then(U64, End)))))
    else if kind == 2 then Some(Then(Text, Then(U64, Then(U64, Then(INDEX_PAYLOAD, End)))))
    else if kind == 3 then Some(Then(Text, Then(U64, Then(U64, Then(U64, Then(DIAGNOSTICS, End))))))
    else None
  }

  function Body(r: Record): Value {
    match r
    case Attempt(phase, tu, st) => Pair(Nat(phase), Pair(Str(tu), Pair(Nat(st.mtimeNs), Pair(Nat(st.size), Unit))))
    case Phase1(tu, st, p) => Pair(Str(tu), Pair(Nat(st.mtimeNs), Pair(Nat(st.size), Pair(p, Unit))))
    case Phase2(tu, st, h, d) => Pair(Str(tu), Pair(Nat(st.mtimeNs), Pair(Nat(st.size), Pair(Nat(h), Pair(d, Unit)))))
  }

  /** The record a body stands for; the stamp is the named unit's. */
  function RecordOf(kind: byte, v: Value): Option<Record> {
    match v
    case Pair(Nat(phase), Pair(Str(tu), Pair(Nat(m), Pair(Nat(n), Unit)))) =>
      if kind == 1 then Some(Attempt(phase, tu, Stamp(tu, m, n))) else None
    case Pair(Str(tu), Pair(Nat(m), Pair(Nat(n), Pair(Nat(h), Pair(d, Unit))))) =>
      if kind == 3 then Some(Phase2(tu, Stamp(tu, m, n), h, d)) else None
    case Pair(Str(tu), Pair(Nat(m), Pair(Nat(n), Pair(p, Unit)))) =>
      if kind == 2 then Some(Phase1(tu, Stamp(tu, m, n), p)) else None
    case _ => None
  }

  predicate Encodable(r: Record) {
    Fits(LayoutOf(Kind(r)).value, Body(r))
  }

  /** What a writer may record: the stamp is the unit's own, and everything fits its width. */
  predicate Writable(r: Record) {
    r.stamp.path == r.tu && Encodable(r) && |PayloadOf(r)| < TWO32 - 4
  }

  function PayloadOf(r: Record): Bytes
    requires Encodable(r)
  {
    Encode(LayoutOf(Kind(r)).value, Body(r))
  }

  /** fnv32. */
  function Fnv32(data: Bytes): bv32 {
    if data == [] then 2166136261
    else Mixed(Fnv32(data[..|data| - 1]), data[|data| - 1])
  }

  function Mixed(h: bv32, b: byte): bv32 {
    (h ^ (b as bv32)) * 16777619
  }

  function Checksum(data: Bytes): (sum: nat)
    ensures sum < TWO32
  {
    Fnv32(data) as nat
  }

  function Frame(kind: byte, payload: Bytes): Bytes {
    [kind] + Le(|payload|, 4) + payload + Le(Checksum(payload), 4)
  }

  /** The frame at the front, when it is whole and its checksum agrees. */
  function NextFrame(s: Bytes): Option<(byte, Bytes, Bytes)> {
    if |s| < 5 then None
    else
      var len := FromLe(s[1..5]);
      if |s| - 5 < len + 4 then None
      else
        var payload := s[5..5 + len];
        if FromLe(s[5 + len..9 + len]) != Checksum(payload) then None
        else Some((s[0], payload, s[9 + len..]))
  }

  function DecodeRecord(kind: byte, payload: Bytes): Option<Record> {
    match LayoutOf(kind)
    case None => None
    case Some(layout) =>
      match Parse(layout, payload)
      case None => None
      case Some((v, _)) => RecordOf(kind, v)
  }

  // ---- the loaded state ---------------------------------------------------------------------------

  datatype AttemptState = AttemptState(stamp: Stamp, count: nat)

  datatype State = State(attempts: map<(nat, Bytes), AttemptState>, phase1: map<Bytes, (Stamp, Value)>,
                         phase2: map<Bytes, (Stamp, nat, Value)>)

  const EMPTY := State(map[], map[], map[])

  /** One more start of a parse. */
  function Started(attempts: map<(nat, Bytes), AttemptState>, key: (nat, Bytes), stamp: Stamp): map<(nat, Bytes),
                   AttemptState> {
    attempts[key := if key in attempts && attempts[key].stamp == stamp then AttemptState(stamp, attempts[key].count + 1)
                    else AttemptState(stamp, 1)]
  }

  function Apply(st: State, r: Record): State {
    match r
    case Attempt(phase, tu, stamp) => st.(attempts := Started(st.attempts, (phase, tu), stamp))
    case Phase1(tu, stamp, p) => st.(attempts := st.attempts - {(PHASE_INDEX, tu)},
      phase1 := st.phase1[tu := (stamp, p)])
    case Phase2(tu, stamp, h, d) => st.(attempts := st.attempts - {(PHASE_ANALYZE, tu)},
      phase2 := st.phase2[tu := (stamp, h, d)])
  }

  /** What a run of records leaves. */
  function Replay(st: State, rs: seq<Record>): State
    decreases |rs|
  {
    if rs == [] then st else Replay(Apply(st, rs[0]), rs[1..])
  }

  /** loadRecords: frame by frame until the bytes end or a frame is torn or corrupt. */
  function Load(s: Bytes, st: State): State {
    match NextFrame(s)
    case None => st
    case Some((kind, payload, rest)) =>
      match DecodeRecord(kind, payload)
      case None => Load(rest, st)
      case Some(r) => Load(rest, Apply(st, r))
  }

  // ---- whole and torn frames -----------------------------------------------------------------------

  lemma FrameBack(kind: byte, payload: Bytes, rest: Bytes)
    requires |payload| < TWO32 - 4
    ensures NextFrame(Frame(kind, payload) + rest) == Some((kind, payload, rest))
  {
    hide Checksum;
    Widths();
    var sum := Checksum(payload);
    var s := Frame(kind, payload) + rest;
    FromLeOfLe(|payload|, 4);
    FromLeOfLe(sum, 4);
    var len := |payload|;
    assert s[1..5] == Le(len, 4);
    assert s[5..5 + len] == payload;
    assert s[5 + len..9 + len] == Le(sum, 4);
    assert s[9 + len..] == rest;
  }

  lemma TornFrame(kind: byte, payload: Bytes, cut: nat)
    requires |payload| < TWO32 - 4 && cut < |Frame(kind, payload)|
    ensures NextFrame(Frame(kind, payload)[..cut]) == None
  {
    hide Checksum;
    Widths();
    FromLeOfLe(|payload|, 4);
    var s := Frame(kind, payload)[..cut];
    if cut >= 5 {
      assert s[1..5] == Le(|payload|, 4);
    }
  }

  lemma RecordBack(r: Record)
    requires Writable(r)
    ensures Encodable(r) && DecodeRecord(Kind(r), PayloadOf(r)) == Some(r)
  {
    var layout := LayoutOf(Kind(r)).value;
    ParseOfEncode(layout, Body(r), []);
    assert PayloadOf(r) + [] == PayloadOf(r);
    hide Parse, Encode, Fits;
    BodyBack(r);
  }

  lemma BodyBack(r: Record)
    requires r.stamp.path == r.tu
    ensures RecordOf(Kind(r), Body(r)) == Some(r)
  {
  }

  // ---- loading a prefix ---------------------------------------------------------------------------------

  function FrameOf(r: Record): Bytes
    requires Writable(r)
  {
    Frame(Kind(r), PayloadOf(r))
  }

  /** The bytes of some records, framed one after the other. */
  ghost function Journaled(rs: seq<Record>): Bytes
    requires forall r :: r in rs ==> Writable(r)
  {
    if rs == [] then [] else FrameOf(rs[0]) + Journaled(rs[1..])
  }

  /** How many records lie wholly within the first `cut` bytes. */
  ghost function Whole(rs: seq<Record>, cut: nat): (n: nat)
    requires forall r :: r in rs ==> Writable(r)
    ensures n <= |rs|
  {
    if rs == [] || cut < |FrameOf(rs[0])| then 0 else 1 + Whole(rs[1..], cut - |FrameOf(rs[0])|)
  }

  /** Cut anywhere, a journal loads as its whole records and nothing of the torn one. */
  lemma {:induction false} LoadPrefix(rs: seq<Record>, cut: nat, st: State)
    requires (forall r :: r in rs ==> Writable(r)) && cut <= |Journaled(rs)|
    ensures Load(Journaled(rs)[..cut], st) == Replay(st, rs[..Whole(rs, cut)])
    decreases |rs|
  {
    hide Writable, Frame, NextFrame, DecodeRecord, Apply;
    var s := Journaled(rs)[..cut];
    if rs == [] {
      NothingFramed();
    } else {
      var r, rest := rs[0], Journaled(rs[1..]);
      FrameFits(r);
      var f := FrameOf(r);
      if cut < |f| {
        TornFrame(Kind(r), PayloadOf(r), cut);
        assert s == f[..cut];
      } else {
        assert s == f + rest[..cut - |f|];
        FrameBack(Kind(r), PayloadOf(r), rest[..cut - |f|]);
        RecordBack(r);
        LoadPrefix(rs[1..], cut - |f|, Apply(st, r));
        var n := Whole(rs[1..], cut - |f|);
        assert rs[..n + 1][0] == r && rs[..n + 1][1..] == rs[1..][..n];
      }
    }
  }

  lemma FrameFits(r: Record)
    requires Writable(r)
    ensures Encodable(r) && |PayloadOf(r)| < TWO32 - 4
  {
  }

  lemma NothingFramed()
    ensures NextFrame([]) == None
  {
  }

  lemma {:induction false} WholeAll(rs: seq<Record>)
    requires forall r :: r in rs ==> Writable(r)
    ensures Whole(rs, |Journaled(rs)|) == |rs|
  {
    hide Writable, Frame;
    if rs != [] {
      WholeAll(rs[1..]);
    }
  }

  /** An uncut journal loads as all its records. */
  lemma LoadAll(rs: seq<Record>, st: State)
    requires forall r :: r in rs ==> Writable(r)
    ensures Load(Journaled(rs), st) == Replay(st, rs)
  {
    hide Writable, Journaled, Load, Replay;
    LoadPrefix(rs, |Journaled(rs)|, st);
    WholeAll(rs);
    assert Journaled(rs)[..|Journaled(rs)|] == Journaled(rs) && rs[..|rs|] == rs;
  }

  lemma {:induction false} JournaledConcat(a: seq<Record>, r: Record)
    requires (forall x :: x in a ==> Writable(x)) && Writable(r)
    ensures forall x :: x in a + [r] ==> Writable(x)
    ensures Journaled(a + [r]) == Journaled(a) + FrameOf(r)
  {
    hide Writable, FrameOf;
    if a == [] {
      assert a + [r] == [r] && [r][1..] == [];
      assert Journaled([r]) == FrameOf(r) + [] == FrameOf(r);
    } else {
      JournaledConcat(a[1..], r);
      assert (a + [r])[1..] == a[1..] + [r];
      assert Journaled(a + [r]) == FrameOf(a[0]) + (Journaled(a[1..]) + FrameOf(r));
    }
  }

  lemma {:induction false} ReplayOne(st: State, rs: seq<Record>, r: Record)
    ensures Replay(st, rs + [r]) == Apply(Replay(st, rs), r)
    decreases |rs|
  {
    hide Apply;
    if rs == [] {
      assert rs + [r] == [r] && [r][1..] == [];
    } else {
      ReplayOne(Apply(st, rs[0]), rs[1..], r);
      assert (rs + [r])[1..] == rs[1..] + [r];
    }
  }

  /** Appending behind a torn tail: a single left-over kind byte hides the record appended next,
      whatever it is, when its payload is of less than 16 million bytes. */
  lemma TornTailHidesAppends(kind: byte, r: Record, st: State)
    requires Encodable(r) && Writable(r) && 0 < |PayloadOf(r)| < 0x100_0000
    ensures Load([kind] + FrameOf(r), st) == st
  {
    hide Writable, Encode, Checksum;
    var len := |PayloadOf(r)|;
    var s := [kind] + FrameOf(r);
    var low := Le(len, 4);
    LowBytes(len);
    assert s[1..5] == [Kind(r)] + low[..3];
    assert FromLe(s[1..5]) == Kind(r) as nat + 256 * len;
    assert |s| == len + 10;
  }

  lemma LowBytes(v: nat)
    requires v < 0x100_0000
    ensures FromLe(Le(v, 4)[..3]) == v
  {
    var a, b, c := (v % 256) as byte, (v / 256 % 256) as byte, (v / 65536 % 256) as byte;
    assert Le(v, 4)[..3] == [a, b, c] by {
      assert v / 256 / 256 == v / 65536;
      assert Le(v, 4) == [a] + Le(v / 256, 3);
      assert Le(v / 256, 3) == [b] + Le(v / 65536, 2);
      assert Le(v / 65536, 2)[0] == c;
    }
    assert [a, b, c][1..] == [b, c] && [b, c][1..] == [c] && [c][1..] == [];
    assert FromLe([c]) == c as nat;
    assert FromLe([b, c]) == b as nat + 256 * FromLe([c]);
    assert FromLe([a, b, c]) == a as nat + 256 * FromLe([b, c]);
  }
}

/** Appending to a journal that was cut short: what is written behind the cut is read back
    exactly when the cut left whole records (src/anneal/Checkpoint.cpp:639-642, 662-727). */
module Reopen {
  import opened EdgeTypes
  import opened Wire
  import opened Journal

  ghost predicate AllWritable(rs: seq<Record>) {
    forall r :: r in rs ==> Writable(r)
  }

  // ---- whole records in front ------------------------------------------------------------------

  /** Whole records in front are replayed, whatever follows them. */
  lemma {:induction false} LoadBehind(rs: seq<Record>, rest: Bytes, st: State)
    requires AllWritable(rs)
    ensures Load(Journaled(rs) + rest, st) == Load(rest, Replay(st, rs))
    decreases |rs|
  {
    hide Writable, Frame, NextFrame, DecodeRecord, Apply;
    if rs == [] {
      assert Journaled(rs) + rest == rest;
    } else {
      var r, more := rs[0], Journaled(rs[1..]) + rest;
      FrameFits(r);
      FrameBack(Kind(r), PayloadOf(r), more);
      RecordBack(r);
      assert Journaled(rs) + rest == FrameOf(r) + more;
      LoadBehind(rs[1..], rest, Apply(st, r));
    }
  }

  /** A cut leaves some whole records and, off a boundary, a proper part of the next frame. */
  lemma {:induction false} SplitAtCut(rs: seq<Record>, cut: nat)
    requires AllWritable(rs) && cut <= |Journaled(rs)|
    ensures var n := Whole(rs, cut);
      && |Journaled(rs[..n])| <= cut && Journaled(rs)[..|Journaled(rs[..n])|] == Journaled(rs[..n])
      && (cut > |Journaled(rs[..n])| ==>
            && n < |rs| && cut - |Journaled(rs[..n])| < |FrameOf(rs[n])|
            && Journaled(rs)[|Journaled(rs[..n])|..cut] == FrameOf(rs[n])[..cut - |Journaled(rs[..n])|])
    decreases |rs|
  {
    hide Writable, FrameOf;
    var n := Whole(rs, cut);
    if rs != [] {
      var f, more := FrameOf(rs[0]), Journaled(rs[1..]);
      assert Journaled(rs) == f + more;
      if cut < |f| {
        assert rs[..0] == [] && Journaled(rs)[..cut] == f[..cut];
      } else {
        SplitAtCut(rs[1..], cut - |f|);
        assert rs[..n][0] == rs[0] && rs[..n][1..] == rs[1..][..n - 1];
        var b := |Journaled(rs[1..][..n - 1])|;
        assert Journaled(rs)[..|f| + b] == f + more[..b];
        assert Journaled(rs)[|f| + b..cut] == more[b..cut - |f|];
      }
    }
  }

  lemma {:induction false} ReplayConcat(st: State, a: seq<Record>, b: seq<Record>)
    ensures Replay(Replay(st, a), b) == Replay(st, a + b)
    decreases |a|
  {
    hide Apply;
    if a == [] {
      assert a + b == b;
    } else {
      ReplayConcat(Apply(st, a[0]), a[1..], b);
      assert (a + b)[1..] == a[1..] + b;
    }
  }

  // ---- two small records -------------------------------------------------------------------------

  function Start(phase: nat, tu: Bytes): Record {
    Attempt(phase, tu, Stamp(tu, 0, 0))
  }

  function Done(tu: Bytes, hash: nat): Record {
    Phase2(tu, Stamp(tu, 0, 0), hash, List([]))
  }

  lemma Chained(first: Layout, more: Layout, head: Value, tail: Value)
    requires Fits(first, head) && Fits(more, tail)
    ensures Fits(Then(first, more), Value.Pair(head, tail))
    ensures Encode(Then(first, more), Value.Pair(head, tail)) == Encode(first, head) + Encode(more, tail)
  {
  }

  lemma NumberBytes(k: nat, v: nat)
    requires k in {1, 4, 8} && v < 256
    ensures Fits(Number(k), Nat(v)) && Encode(Number(k), Nat(v)) == Le(v, k)
  {
    Widths();
  }

  lemma TextBytes(tu: Bytes)
    requires |tu| < 100
    ensures Fits(Text, Str(tu)) && Encode(Text, Str(tu)) == Le(|tu|, 4) + tu
  {
  }

  lemma NothingBytes()
    ensures Fits(End, Value.Unit) && Encode(End, Value.Unit) == []
    ensures Fits(DIAGNOSTICS, List([])) && Encode(DIAGNOSTICS, List([])) == Le(0, 4)
  {
    hide Le;
    assert EncodeAll(DIAGNOSTICS.item, []) == [];
  }

  lemma StartBytes(phase: nat, tu: Bytes)
    requires phase < 256 && |tu| < 100
    ensures Writable(Start(phase, tu))
    ensures PayloadOf(Start(phase, tu)) == Le(phase, 1) + (Le(|tu|, 4) + tu + (Le(0, 8) + Le(0, 8)))
  {
    hide Fits, Encode, Le;
    NumberBytes(1, phase);
    NumberBytes(8, 0);
    TextBytes(tu);
    NothingBytes();
    var zero := Nat(0);
    Chained(U64, End, zero, Value.Unit);
    Chained(U64, Then(U64, End), zero, Value.Pair(zero, Value.Unit));
    Chained(Text, Then(U64, Then(U64, End)), Str(tu), Value.Pair(zero, Value.Pair(zero, Value.Unit)));
    Chained(U8, Then(Text, Then(U64, Then(U64, End))), Nat(phase),
            Value.Pair(Str(tu), Value.Pair(zero, Value.Pair(zero, Value.Unit))));
    assert Le(0, 8) + [] == Le(0, 8);
  }

  lemma DoneBytes(tu: Bytes, hash: nat)
    requires |tu| < 100 && hash < 256
    ensures Writable(Done(tu, hash))
    ensures PayloadOf(Done(tu, hash)) == Le(|tu|, 4) + tu + (Le(0, 8) + (Le(0, 8) + (Le(hash, 8) + Le(0, 4))))
  {
    hide Fits, Encode, Le;
    NumberBytes(8, 0);
    NumberBytes(8, hash);
    TextBytes(tu);
    NothingBytes();
    var zero, tail := Nat(0), Value.Pair(List([]), Value.Unit);
    var rest := Then(DIAGNOSTICS, End);
    Chained(DIAGNOSTICS, End, List([]), Value.Unit);
    Chained(U64, rest, Nat(hash), tail);
    Chained(U64, Then(U64, rest), zero, Value.Pair(Nat(hash), tail));
    Chained(U64, Then(U64, Then(U64, rest)), zero, Value.Pair(zero, Value.Pair(Nat(hash), tail)));
    Chained(Text, Then(U64, Then(U64, Then(U64, rest))), Str(tu),
            Value.Pair(zero, Value.Pair(zero, Value.Pair(Nat(hash), tail))));
    assert Le(0, 4) + [] == Le(0, 4);
  }

  /** A start always counts. */
  lemma StartShows(st: State, phase: nat, tu: Bytes)
    ensures Apply(st, Start(phase, tu)) != st
  {
    var st' := Apply(st, Start(phase, tu));
    assert st'.attempts[(phase, tu)] == Started(st.attempts, (phase, tu), Stamp(tu, 0, 0))[(phase, tu)];
    if (phase, tu) in st.attempts {
      assert st'.attempts[(phase, tu)] != st.attempts[(phase, tu)];
    }
  }

  function NewHash(st: State, tu: Bytes): nat {
    if tu in st.phase2 && st.phase2[tu].1 == 0 then 1 else 0
  }

  lemma DoneShows(st: State, tu: Bytes)
    ensures Apply(st, Done(tu, NewHash(st, tu))) != st
  {
    var h := NewHash(st, tu);
    assert Apply(st, Done(tu, h)).phase2[tu] == (Stamp(tu, 0, 0), h, List([]));
  }

  // ---- a record the torn frame swallows ------------------------------------------------------------

  lemma {:induction false} FromLeInjective(a: Bytes, b: Bytes)
    requires |a| == |b| && FromLe(a) == FromLe(b)
    ensures a == b
  {
    if a != [] {
      assert a[0] as nat == FromLe(a) % 256 && b[0] as nat == FromLe(b) % 256;
      FromLeInjective(a[1..], b[1..]);
      assert a == [a[0]] + a[1..] && b == [b[0]] + b[1..];
    }
  }

  lemma FromLe4(b: Bytes)
    requires |b| == 4
    ensures FromLe(b) == b[0] as nat + 256 * b[1] as nat + 65536 * b[2] as nat + 16777216 * b[3] as nat
  {
    assert b[1..][1..] == b[2..] && b[2..][1..] == b[3..] && b[3..][1..] == [];
    assert FromLe(b[3..]) == b[3] as nat;
    assert FromLe(b[2..]) == b[2] as nat + 256 * FromLe(b[3..]);
    assert FromLe(b[1..]) == b[1] as nat + 256 * FromLe(b[2..]);
  }

  lemma LittleBytes(v: nat)
    requires v < 256
    ensures Le(v, 4) == [v as byte, 0, 0, 0]
  {
    assert Le(0, 1) == [0] + Le(0, 0) && Le(0, 2) == [0] + Le(0, 1) && Le(0, 3) == [0] + Le(0, 2);
    assert Le(v, 4) == [v as byte] + Le(0, 3);
  }

  lemma ShortFrame(kind: byte, payload: Bytes)
    requires |payload| < 256
    ensures var f := Frame(kind, payload);
      && |f| == 9 + |payload| && f[..5] == [kind, |payload| as byte, 0, 0, 0] && f[5..5 + |payload|] == payload
  {
    LittleBytes(|payload|);
    hide Le, Checksum;
  }

  lemma SliceOfSlices(f: Bytes, i: nat, n: nat, j: nat, k: nat)
    requires i + n <= |f| && j <= k <= n
    ensures f[i + j..i + k] == f[i..i + n][j..k]
  {
    var s, t := f[i + j..i + k], f[i..i + n];
    forall x | 0 <= x < k - j ensures s[x] == t[j..k][x] {
      assert t[j..k][x] == t[j + x];
    }
  }

  lemma StartFrame(phase: nat, tu: Bytes)
    requires phase < 256 && |tu| < 100
    ensures Writable(Start(phase, tu))
    ensures var f := FrameOf(Start(phase, tu));
      && |f| == 30 + |tu| && f[..5] == [1, (21 + |tu|) as byte, 0, 0, 0]
      && f[5] == phase as byte && f[6..10] == [|tu| as byte, 0, 0, 0] && f[10..10 + |tu|] == tu
  {
    StartBytes(phase, tu);
    var p := PayloadOf(Start(phase, tu));
    assert Le(phase, 1) == [phase as byte] + Le(0, 0);
    LittleBytes(|tu|);
    hide Le, Frame, Writable, Encode;
    ShortFrame(1, p);
    var f := FrameOf(Start(phase, tu));
    assert p[0] == phase as byte && p[1..5] == Le(|tu|, 4) && p[5..5 + |tu|] == tu;
    hide PayloadOf, FrameOf;
    assert f[5] == f[5..5 + |p|][0];
    SliceOfSlices(f, 5, |p|, 1, 5);
    SliceOfSlices(f, 5, |p|, 5, 5 + |tu|);
  }

  lemma DoneFrame(tu: Bytes, hash: nat)
    requires |tu| < 100 && hash < 256
    ensures Writable(Done(tu, hash))
    ensures var f := FrameOf(Done(tu, hash));
      && |f| == 41 + |tu| && f[..5] == [3, (32 + |tu|) as byte, 0, 0, 0]
      && f[5..9] == [|tu| as byte, 0, 0, 0] && f[9..9 + |tu|] == tu
  {
    DoneBytes(tu, hash);
    var p := PayloadOf(Done(tu, hash));
    LittleBytes(|tu|);
    hide Le, Frame, Writable, Encode;
    ShortFrame(3, p);
    var f := FrameOf(Done(tu, hash));
    assert p[..4] == Le(|tu|, 4) && p[4..4 + |tu|] == tu;
    assert f[5..9] == p[..4] && f[9..9 + |tu|] == p[4..4 + |tu|];
  }

  /** Torn within its header a frame claims more bytes than a short record brings. */
  lemma TornInHeader(f: Bytes, k: nat)
    requires 0 < k < 5 && k <= |f|
    ensures Writable(Start(1, [])) && NextFrame(f[..k] + FrameOf(Start(1, []))) == None
  {
    StartFrame(1, []);
    hide Writable, Frame;
    var g := FrameOf(Start(1, []));
    var s := f[..k] + g;
    assert g[0] == 1 && g[1] == 21 by { assert g[0] == g[..5][0] && g[1] == g[..5][1]; }
    FromLe4(s[1..5]);
    assert s[k] == g[0] && s[k + 1] == g[1];
    if k == 1 {
      assert s[1..5][1] == g[1];
    } else {
      assert s[1..5][k - 1] == g[0];
    }
  }

  /** Continued in two ways that agree up to the checksum and differ at byte `d` within it, a
      torn frame is refused at least once. */
  lemma OneIsRefused(kind: byte, payload: Bytes, k: nat, a: Bytes, b: Bytes, d: nat)
    requires |payload| < TWO32 - 4 && 5 <= k < |payload| + 9
    requires |payload| + 9 - k <= |a| && |payload| + 9 - k <= |b|
    requires |payload| + 5 - k <= d < |payload| + 9 - k && a[..d] == b[..d] && a[d] != b[d]
    ensures var t := Frame(kind, payload)[..k]; NextFrame(t + a) == None || NextFrame(t + b) == None
  {
    hide Checksum, Le, FromLe;
    Widths();
    var len := |payload|;
    FromLeOfLe(len, 4);
    var f := Frame(kind, payload);
    var s, u := f[..k] + a, f[..k] + b;
    assert f[1..5] == Le(len, 4);
    assert s[1..5] == f[1..5] && u[1..5] == f[1..5];
    hide Frame;
    SameBefore(f[..k], a, b, d);
    SliceOfEqual(s, u, k + d, 5, 5 + len);
    var sum, other := s[5 + len..9 + len], u[5 + len..9 + len];
    assert sum[k + d - 5 - len] == s[k + d] == a[d] && other[k + d - 5 - len] == u[k + d] == b[d];
    if FromLe(sum) == FromLe(other) {
      FromLeInjective(sum, other);
    }
  }

  lemma SameBefore(t: Bytes, a: Bytes, b: Bytes, d: nat)
    requires d <= |a| && d <= |b| && a[..d] == b[..d]
    ensures (t + a)[..|t| + d] == (t + b)[..|t| + d]
  {
    assert (t + a)[..|t| + d] == t + a[..d] && (t + b)[..|t| + d] == t + b[..d];
  }

  lemma SliceOfEqual(s: Bytes, u: Bytes, n: nat, i: nat, j: nat)
    requires i <= j <= n <= |s| && n <= |u| && s[..n] == u[..n]
    ensures s[i..j] == u[i..j]
  {
    assert s[i..j] == s[..n][i..j] && u[i..j] == u[..n][i..j];
  }

  /** Two starts whose units differ in the last byte only. */
  lemma LastByteDiffers(st: State, m: nat) returns (q: Record, q': Record)
    requires 7 <= m <= 26
    ensures Writable(q) && Writable(q') && Apply(st, q) != st && Apply(st, q') != st
    ensures m + 4 <= |FrameOf(q)| && m + 4 <= |FrameOf(q')|
    ensures FrameOf(q)[..m + 3] == FrameOf(q')[..m + 3] && FrameOf(q)[m + 3] != FrameOf(q')[m + 3]
  {
    hide Writable, FrameOf, Apply;
    var tu: Bytes := seq(m - 6, _ => 0);
    var tu' := tu[m - 7 := 1];
    q, q' := Start(1, tu), Start(1, tu');
    StartFrame(1, tu);
    StartFrame(1, tu');
    StartShows(st, 1, tu);
    StartShows(st, 1, tu');
    var f, g := FrameOf(q), FrameOf(q');
    Joined(f, g, 5, 6);
    Joined(f, g, 6, 10);
    SliceOfSlices(f, 10, m - 6, 0, m - 7);
    SliceOfSlices(g, 10, m - 6, 0, m - 7);
    assert f[m + 3] == f[10..m + 4][m - 7] && g[m + 3] == g[10..m + 4][m - 7];
    assert tu[..m - 7] == tu'[..m - 7];
    Joined(f, g, 10, m + 3);
  }

  /** Two short records whose frames first differ at byte `d`, within the four after `m`. */
  lemma Alternatives(st: State, m: nat) returns (q: Record, q': Record, d: nat)
    requires m <= 26
    ensures Writable(q) && Writable(q') && Apply(st, q) != st && Apply(st, q') != st
    ensures m <= d < m + 4 <= |FrameOf(q)| && m + 4 <= |FrameOf(q')| && (m == 0 ==> d == 0)
    ensures FrameOf(q)[..d] == FrameOf(q')[..d] && FrameOf(q)[d] != FrameOf(q')[d]
  {
    hide Writable, FrameOf, Apply;
    if m == 0 {
      q, q', d := Start(1, []), Done([], NewHash(st, [])), 0;
      StartFrame(1, []);
      DoneFrame([], NewHash(st, []));
      DoneShows(st, []);
      assert FrameOf(q)[0] == FrameOf(q)[..5][0] && FrameOf(q')[0] == FrameOf(q')[..5][0];
    } else if m == 1 {
      q, q', d := Start(1, []), Start(1, [0]), 1;
      StartFrame(1, []);
      StartFrame(1, [0]);
      StartShows(st, 1, [0]);
      FirstFive(FrameOf(q), FrameOf(q'));
    } else if m <= 5 {
      q, q', d := Start(1, []), Start(2, []), 5;
      StartFrame(1, []);
      StartFrame(2, []);
      StartShows(st, 2, []);
    } else if m == 6 {
      q, q', d := Done([0], NewHash(st, [0])), Done([1], NewHash(st, [1])), 9;
      DoneFrame([0], NewHash(st, [0]));
      DoneFrame([1], NewHash(st, [1]));
      DoneShows(st, [0]);
      DoneShows(st, [1]);
      Joined(FrameOf(q), FrameOf(q'), 5, 9);
      assert FrameOf(q)[9] == FrameOf(q)[9..10][0] && FrameOf(q')[9] == FrameOf(q')[9..10][0];
    } else {
      q, q' := LastByteDiffers(st, m);
      d := m + 3;
    }
    StartShows(st, 1, []);
  }

  lemma FirstFive(f: Bytes, g: Bytes)
    requires |f| >= 5 && |g| >= 5 && f[0] == g[0]
    ensures f[..1] == g[..1]
  {
  }

  lemma Joined(f: Bytes, g: Bytes, i: nat, j: nat)
    requires i <= j <= |f| && j <= |g| && f[..i] == g[..i] && f[i..j] == g[i..j]
    ensures f[..j] == g[..j]
  {
    assert f[..j] == f[..i] + f[i..j] && g[..j] == g[..i] + g[i..j];
  }

  /** Behind a torn frame some record is not read back: it is taken for the rest of the frame,
      which its length or its checksum then refuses. */
  lemma TornTailLosesARecord(kind: byte, payload: Bytes, k: nat, st: State) returns (q: Record)
    requires |payload| < TWO32 - 4 && 0 < k < |Frame(kind, payload)|
    ensures Writable(q) && Apply(st, q) != st && Load(Frame(kind, payload)[..k] + FrameOf(q), st) == st
  {
    hide Writable, FrameOf, Apply, Checksum, DecodeRecord;
    var t := Frame(kind, payload)[..k];
    StartFrame(1, []);
    StartShows(st, 1, []);
    q := Start(1, []);
    if k < 5 {
      TornInHeader(Frame(kind, payload), k);
    } else if |payload| + 5 - k > 26 {
      TornFarBack(kind, payload, k, FrameOf(q));
    } else {
      var m := if k < |payload| + 5 then |payload| + 5 - k else 0;
      var q', d;
      q, q', d := Alternatives(st, m);
      OneIsRefused(kind, payload, k, FrameOf(q), FrameOf(q'), d);
      if NextFrame(t + FrameOf(q)).Some? {
        q := q';
      }
    }
  }

  lemma TornFarBack(kind: byte, payload: Bytes, k: nat, g: Bytes)
    requires |payload| < TWO32 - 4 && 5 <= k < |payload| + 9 && k + |g| < |payload| + 9
    ensures NextFrame(Frame(kind, payload)[..k] + g) == None
  {
    hide Checksum;
    Widths();
    FromLeOfLe(|payload|, 4);
    var f := Frame(kind, payload);
    var s := f[..k] + g;
    assert f[1..5] == Le(|payload|, 4);
    assert s[1..5] == f[1..5];
  }

  // ---- the reopened journal ------------------------------------------------------------------------

  /** What a reopened journal makes of the bytes that survived and the records appended. */
  ghost predicate ReadBack(rs: seq<Record>, cut: nat, st: State, more: seq<Record>)
    requires AllWritable(rs) && AllWritable(more) && cut <= |Journaled(rs)|
  {
    Load(Journaled(rs)[..cut] + Journaled(more), st) == Replay(st, rs[..Whole(rs, cut)] + more)
  }

  /** Every continuation is read back, after the whole records, if and only if the cut fell
      between two records. */
  lemma AppendsAreReadBack(rs: seq<Record>, cut: nat, st: State)
    requires AllWritable(rs) && cut <= |Journaled(rs)|
    ensures (forall more :: AllWritable(more) ==> ReadBack(rs, cut, st, more))
       <==> cut == |Journaled(rs[..Whole(rs, cut)])|
  {
    hide Writable, Journaled, Load, Replay, Whole;
    var whole := rs[..Whole(rs, cut)];
    SplitAtCut(rs, cut);
    if cut == |Journaled(whole)| {
      forall more | AllWritable(more) ensures ReadBack(rs, cut, st, more) {
        LoadBehind(whole, Journaled(more), st);
        LoadAll(more, Replay(st, whole));
        ReplayConcat(st, whole, more);
      }
    } else {
      var more := LostAppend(rs, cut, st);
      assert !ReadBack(rs, cut, st, more);
    }
  }

  /** Off a boundary one appended record is enough to be lost. */
  lemma LostAppend(rs: seq<Record>, cut: nat, st: State) returns (more: seq<Record>)
    requires AllWritable(rs) && cut <= |Journaled(rs)| && cut > |Journaled(rs[..Whole(rs, cut)])|
    ensures AllWritable(more) && |more| == 1 && !ReadBack(rs, cut, st, more)
    ensures Load(Journaled(rs)[..cut] + Journaled(more), st) == Replay(st, rs[..Whole(rs, cut)])
  {
    hide Writable, Load, Replay, Whole, Apply, Frame;
    var n := Whole(rs, cut);
    var whole := rs[..n];
    SplitAtCut(rs, cut);
    var b := |Journaled(whole)|;
    FrameFits(rs[n]);
    var q := TornTailLosesARecord(Kind(rs[n]), PayloadOf(rs[n]), cut - b, Replay(st, whole));
    more := [q];
    assert Journaled(more) == FrameOf(q) by {
      assert more[1..] == [] && FrameOf(q) + [] == FrameOf(q);
    }
    var tail := Journaled(rs)[b..cut];
    assert Journaled(rs)[..cut] + Journaled(more) == Journaled(whole) + (tail + FrameOf(q)) by {
      assert Journaled(rs)[..cut] == Journaled(rs)[..b] + tail;
    }
    LoadBehind(whole, tail + FrameOf(q), st);
    ReplayOne(st, whole, q);
  }
}

/** The bytes on disk: the journal's header, frames and record payloads, and the edge records of
    a snapshot (src/anneal/Checkpoint.cpp:33-53, 613-746; src/callgraph/Snapshot.cpp:313-345). */
module WireFormats {
  import opened EdgeTypes
  import opened Wire
  import opened Journal
  import opened Checkpoint
  import opened CallGraphStore
  import opened EdgeTables
  import opened GraphSnapshot
  import opened NodeSnapshot

  // ---- numbers -----------------------------------------------------------------------------------

  /** Four bytes, least significant first. */
  ghost predicate Is32(b: Bytes, v: nat) {
    |b| == 4 && b[0] as nat + 0x100 * b[1] as nat + 0x1_0000 * b[2] as nat + 0x100_0000 * b[3] as nat == v
  }

  /** Eight bytes: the low half, then the high half. */
  ghost predicate Is64(b: Bytes, v: nat) {
    |b| == 8 && exists low: nat, high: nat ::
      Is32(b[..4], low) && Is32(b[4..], high) && v == low + 0x1_0000_0000 * high
  }

  lemma FourBytes(b: Bytes)
    requires |b| == 4
    ensures Is32(b, FromLe(b)) && FromLe(b) < TWO32
  {
    assert FromLe(b[1..][1..][1..][1..]) == 0;
    assert FromLe(b[1..][1..][1..]) == b[3] as nat;
    assert FromLe(b[1..][1..]) == b[2] as nat + 256 * b[3] as nat;
    assert FromLe(b[1..]) == b[1] as nat + 256 * (b[2] as nat + 256 * b[3] as nat);
  }

  lemma {:induction false} FromLeConcat(a: Bytes, b: Bytes)
    ensures FromLe(a + b) == FromLe(a) + Pow256(|a|) * FromLe(b)
  {
    if a == [] {
      assert a + b == b;
    } else {
      FromLeConcat(a[1..], b);
      assert (a + b)[1..] == a[1..] + b;
      Distribute(FromLe(a[1..]), Pow256(|a| - 1), FromLe(b));
    }
  }

  lemma Distribute(x: nat, p: nat, y: nat)
    ensures 256 * (x + p * y) == 256 * x + (256 * p) * y
  {
  }

  lemma EightBytes(b: Bytes)
    requires |b| == 8
    ensures Is64(b, FromLe(b))
  {
    Widths();
    assert b == b[..4] + b[4..];
    FromLeConcat(b[..4], b[4..]);
    FourBytes(b[..4]);
    FourBytes(b[4..]);
  }

  /** Numbers are written in this order, and only so read back. */
  lemma LeIs(v: nat)
    ensures v < TWO32 ==> Is32(Le(v, 4), v)
    ensures v < TWO64 ==> Is64(Le(v, 8), v)
  {
    hide FromLe, Le, Is32, Is64;
    Widths();
    if v < TWO32 {
      FromLeOfLe(v, 4);
      FourBytes(Le(v, 4));
    }
    if v < TWO64 {
      FromLeOfLe(v, 8);
      EightBytes(Le(v, 8));
    }
  }

  // ---- the journal ---------------------------------------------------------------------------------

  /** A journal is taken up only when it starts with "VYCJ", version 8 and the fingerprint. */
  lemma ReusableIs(disk: Bytes, fingerprint: nat)
    ensures Reusable(Some(disk), fingerprint) <==>
      |disk| >= 16 && disk[..8] == [86, 89, 67, 74, 8, 0, 0, 0] && FromLe(disk[8..16]) == fingerprint
    ensures !Reusable(None, fingerprint)
  {
    if |disk| >= 16 {
      FourBytes(disk[4..8]);
      assert disk[..8] == disk[..4] + disk[4..8];
      var v := disk[4..8];
      if v == [8, 0, 0, 0] { assert Is32(v, 8); }
      if disk[..8] == [86, 89, 67, 74, 8, 0, 0, 0] {
        assert disk[..4] == disk[..8][..4] && v == disk[..8][4..];
      }
    }
  }

  /** A frame: the kind, the payload behind its length, and the payload's checksum. */
  ghost predicate IsFrame(s: Bytes, kind: byte, payload: Bytes) {
    && |s| == |payload| + 9 && s[0] == kind && Is32(s[1..5], |payload|) && s[5..5 + |payload|] == payload
    && Is32(s[5 + |payload|..], Fnv32(payload) as nat)
  }

  /** A frame is read exactly when one is there; a wrong checksum or a cut frame ends the load. */
  lemma FramesAreRead(s: Bytes, kind: byte, payload: Bytes, rest: Bytes)
    ensures NextFrame(s) == Some((kind, payload, rest)) <==>
      |s| >= |rest| && s[|s| - |rest|..] == rest && IsFrame(s[..|s| - |rest|], kind, payload)
  {
    hide Fnv32, Is32;
    var n := |payload|;
    if |s| == n + 9 + |rest| {
      var f := s[..n + 9];
      FourBytes(s[1..5]);
      FourBytes(s[5 + n..9 + n]);
      assert f[1..5] == s[1..5] && f[5..5 + n] == s[5..5 + n] && f[5 + n..] == s[5 + n..9 + n];
      OneNumber(s[1..5], FromLe(s[1..5]), n);
      OneNumber(s[5 + n..9 + n], FromLe(s[5 + n..9 + n]), Fnv32(payload) as nat);
    }
  }

  lemma OneNumber(b: Bytes, v: nat, w: nat)
    requires Is32(b, v)
    ensures Is32(b, w) <==> v == w
  {
  }

  /** The checksum runs over the payload byte by byte. */
  lemma ChecksumStep(data: Bytes, b: byte)
    ensures Fnv32(data + [b]) == Mixed(Fnv32(data), b)
  {
    hide Mixed;
    assert (data + [b])[..|data|] == data;
  }

  /** It is FNV-1a: the published sums of "", "a" and "b". */
  lemma ChecksumIs()
    ensures Fnv32([]) == 0x811C_9DC5 && Fnv32([97]) == 0xE40C_292C && Fnv32([98]) == 0xE70C_2DE5
  {
    assert Mixed(0x811C_9DC5, 97) == 0xE40C_292C && Mixed(0x811C_9DC5, 98) == 0xE70C_2DE5;
    hide Mixed;
    ChecksumStep([], 97);
    ChecksumStep([], 98);
    assert [] + [97] == [97] && [] + [98] == [98];
  }

  /** A unit's path behind its length, then its modification time and size. */
  function Stamped(tu: Bytes, stamp: Stamp): Bytes {
    Le(|tu|, 4) + tu + (Le(stamp.mtimeNs, 8) + Le(stamp.size, 8))
  }

  /** The fields of a stamp in front of any others. */
  lemma StampFirst(more: Layout, tu: Bytes, stamp: Stamp, tail: Value)
    requires var fields := Then(Text, Then(U64, Then(U64, more)));
      Fits(fields, Pair(Str(tu), Pair(Nat(stamp.mtimeNs), Pair(Nat(stamp.size), tail))))
    ensures Fits(more, tail)
    ensures var fields := Then(Text, Then(U64, Then(U64, more)));
      Encode(fields, Pair(Str(tu), Pair(Nat(stamp.mtimeNs), Pair(Nat(stamp.size), tail))))
        == Stamped(tu, stamp) + Encode(more, tail)
  {
    hide Le;
    var m, n := Le(stamp.mtimeNs, 8), Le(stamp.size, 8);
    var v2 := Pair(Nat(stamp.size), tail);
    var v1 := Pair(Nat(stamp.mtimeNs), v2);
    assert Fits(Then(U64, Then(U64, more)), v1) && Fits(Then(U64, more), v2);
    EncodeChain(U64, more, v2);
    EncodeChain(U64, Then(U64, more), v1);
    EncodeChain(Text, Then(U64, Then(U64, more)), Pair(Str(tu), v1));
    assert Le(|tu|, 4) + tu + (m + (n + Encode(more, tail))) == Stamped(tu, stamp) + Encode(more, tail);
  }

  /** An attempt: the phase in a byte, the unit and its stamp. */
  lemma AttemptIs(phase: nat, tu: Bytes, stamp: Stamp)
    requires Encodable(Attempt(phase, tu, stamp))
    ensures phase < 256 && Kind(Attempt(phase, tu, stamp)) == 1
    ensures PayloadOf(Attempt(phase, tu, stamp)) == [phase as byte] + Stamped(tu, stamp)
  {
    Widths();
    var v := Body(Attempt(phase, tu, stamp));
    var fields := Then(Text, Then(U64, Then(U64, End)));
    assert Fits(Then(U8, fields), v) && Fits(U8, v.head) && Fits(fields, v.tail);
    hide Fits, Encode;
    EncodeChain(U8, fields, v);
    StampFirst(End, tu, stamp, Unit);
    OneByteNumber(phase);
    Nothing();
    assert Stamped(tu, stamp) + [] == Stamped(tu, stamp);
  }

  lemma OneByteNumber(n: nat)
    requires n < 256
    ensures Fits(U8, Nat(n)) && Encode(U8, Nat(n)) == [n as byte]
  {
    Widths();
  }

  lemma Nothing()
    ensures Fits(End, Unit) && Encode(End, Unit) == []
  {
  }

  /** A completed index unit: the unit and its stamp, then what it contributes. */
  lemma Phase1Is(tu: Bytes, stamp: Stamp, p: Value)
    requires Encodable(Phase1(tu, stamp, p))
    ensures Kind(Phase1(tu, stamp, p)) == 2 && Fits(INDEX_PAYLOAD, p)
    ensures PayloadOf(Phase1(tu, stamp, p)) == Stamped(tu, stamp) + Encode(INDEX_PAYLOAD, p)
  {
    hide Encode, Fits;
    StampFirst(Then(INDEX_PAYLOAD, End), tu, stamp, Pair(p, Unit));
    LastField(INDEX_PAYLOAD, p);
  }

  /** A completed analysis: the unit and its stamp, the hash of the index set and the diagnostics. */
  lemma Phase2Is(tu: Bytes, stamp: Stamp, hash: nat, d: Value)
    requires Encodable(Phase2(tu, stamp, hash, d))
    ensures Kind(Phase2(tu, stamp, hash, d)) == 3 && hash < TWO64 && Fits(DIAGNOSTICS, d)
    ensures PayloadOf(Phase2(tu, stamp, hash, d)) == Stamped(tu, stamp) + (Le(hash, 8) + Encode(DIAGNOSTICS, d))
  {
    var more := Then(U64, Then(DIAGNOSTICS, End));
    hide Encode, Fits;
    StampFirst(more, tu, stamp, Pair(Nat(hash), Pair(d, Unit)));
    HashFirst(Then(DIAGNOSTICS, End), hash, Pair(d, Unit));
    LastField(DIAGNOSTICS, d);
  }

  lemma HashFirst(more: Layout, hash: nat, tail: Value)
    requires Fits(Then(U64, more), Pair(Nat(hash), tail))
    ensures hash < TWO64 && Fits(more, tail)
    ensures Encode(Then(U64, more), Pair(Nat(hash), tail)) == Le(hash, 8) + Encode(more, tail)
  {
    Widths();
  }

  lemma LastField(layout: Layout, v: Value)
    requires Fits(Then(layout, End), Pair(v, Unit))
    ensures Fits(layout, v) && Encode(Then(layout, End), Pair(v, Unit)) == Encode(layout, v)
  {
    assert Encode(layout, v) + [] == Encode(layout, v);
  }

  // ---- snapshots -------------------------------------------------------------------------------------

  lemma NumberFirst(k: nat, more: Layout, n: nat, tail: Value)
    requires Fits(Then(Number(k), more), Pair(Nat(n), tail))
    ensures Fits(more, tail) && n < Pow256(k)
    ensures Encode(Then(Number(k), more), Pair(Nat(n), tail)) == Le(n, k) + Encode(more, tail)
  {
  }

  lemma ByteOf(n: nat)
    requires n < 256
    ensures Le(n, 1) == [n as byte]
  {
  }

  lemma {:induction false} IdsWritten(write: Id -> Value, ids: seq<Id>)
    requires (forall n :: write(n) == Nat(n)) && forall v :: v in Each(write, ids) ==> Fits(U32, v)
    ensures |Each(write, ids)| == |ids| && |EncodeAll(U32, Each(write, ids))| == 4 * |ids|
    ensures var b := EncodeAll(U32, Each(write, ids));
      forall i :: 0 <= i < |ids| ==> b[4 * i..4 * i + 4] == Le(ids[i], 4)
  {
    hide Le;
    if ids != [] {
      var list := Each(write, ids);
      IdsWritten(write, ids[1..]);
      var b, rest := EncodeAll(U32, list), EncodeAll(U32, Each(write, ids[1..]));
      assert list[0] == Nat(ids[0]) && list[1..] == Each(write, ids[1..]);
      assert list[0] in list && Encode(U32, list[0]) == Le(ids[0], 4);
      assert b == Le(ids[0], 4) + rest;
      forall i | 0 <= i < |ids| ensures b[4 * i..4 * i + 4] == Le(ids[i], 4) {
        if i > 0 {
          assert b[4 * i..4 * i + 4] == rest[4 * (i - 1)..4 * (i - 1) + 4];
        }
      }
    }
  }

  function EdgeBytes(r: EdgeRecord, codes: Bytes, units: Bytes): Bytes {
    var k := r.edge.key;
    Le(k.caller, 4) + Le(k.callee, 4) + Le(k.callSite, 4) + codes + Le(k.indirectionDepth, 4) + Le(r.edge.refs, 4)
      + Le(|r.tus|, 4) + units
  }

  /** An edge as written: three ids, a byte each for kind, confidence and context in the order
      the enumerations are declared, the depth, the count, and the units behind their number. */
  lemma EdgeIs(r: EdgeRecord) returns (kind: byte, confidence: byte, context: byte, units: Bytes)
    requires Fits(EDGE, EdgeValue(r))
    ensures Encode(EDGE, EdgeValue(r)) == EdgeBytes(r, [kind, confidence, context], units)
    ensures Nth([DirectCall, VirtualDispatch, FunctionPointer, ConstructorCall, DestructorCall, OperatorCall,
                 TemplateInstantiation, LambdaCall, ThreadEntry, FunctionPointerReturn], kind, r.edge.key.kind)
    ensures Nth([Proven, Plausible, Unknown], confidence, r.edge.key.confidence)
    ensures Nth([Synchronous, ThreadSpawn, AsyncTask, PackagedTask, Invoke], context, r.edge.key.execContext)
    ensures |units| == 4 * |r.tus| && forall i :: 0 <= i < |r.tus| ==> units[4 * i..4 * i + 4] == Le(r.tus[i], 4)
  {
    var k := r.edge.key;
    CodesBack(k.kind, k.confidence, k.execContext);
    kind, confidence, context :=
      KindCode(k.kind) as byte, ConfidenceCode(k.confidence) as byte, ContextCode(k.execContext) as byte;
    var write := IdValue;
    var l9 := Then(Counted(U32), End); var v9 := Pair(List(Each(write, r.tus)), Unit);
    var l8 := Then(U32, l9);           var v8 := Pair(Nat(r.edge.refs), v9);
    var l7 := Then(U32, l8);           var v7 := Pair(Nat(k.indirectionDepth), v8);
    var l6 := Then(U8, l7);            var v6 := Pair(Nat(ContextCode(k.execContext)), v7);
    var l5 := Then(U8, l6);            var v5 := Pair(Nat(ConfidenceCode(k.confidence)), v6);
    var l4 := Then(U8, l5);            var v4 := Pair(Nat(KindCode(k.kind)), v5);
    var l3 := Then(U32, l4);           var v3 := Pair(Nat(k.callSite), v4);
    var l2 := Then(U32, l3);           var v2 := Pair(Nat(k.callee), v3);
    assert EDGE == Then(U32, l2) by { EdgeLayout(); }
    assert EdgeValue(r) == Pair(Nat(k.caller), v2);
    hide Fits, Encode, Le, EncodeAll, KindCode, ConfidenceCode, ContextCode, Fields;
    NumberFirst(4, l2, k.caller, v2);
    NumberFirst(4, l3, k.callee, v3);
    NumberFirst(4, l4, k.callSite, v4);
    NumberFirst(1, l5, KindCode(k.kind), v5);
    NumberFirst(1, l6, ConfidenceCode(k.confidence), v6);
    NumberFirst(1, l7, ContextCode(k.execContext), v7);
    NumberFirst(4, l8, k.indirectionDepth, v8);
    NumberFirst(4, l9, r.edge.refs, v9);
    units := UnitsWritten(write, r.tus);
    ByteOf(kind as nat);
    ByteOf(confidence as nat);
    ByteOf(context as nat);
    Regrouped(Le(k.caller, 4), Le(k.callee, 4), Le(k.callSite, 4), kind, confidence, context,
      Le(k.indirectionDepth, 4), Le(r.edge.refs, 4), Le(|r.tus|, 4), units);
  }

  lemma Regrouped(a: Bytes, b: Bytes, c: Bytes, k: byte, f: byte, x: byte, d: Bytes, e: Bytes, n: Bytes, us: Bytes)
    ensures a + (b + (c + ([k] + ([f] + ([x] + (d + (e + (n + us)))))))) == a + b + c + [k, f, x] + d + e + n + us
  {
    var tail := d + (e + (n + us));
    assert tail == d + e + n + us;
    assert [k] + ([f] + ([x] + tail)) == [k, f, x] + tail;
    assert a + b + c + [k, f, x] + d + e + n + us == a + b + c + ([k, f, x] + tail);
  }

  lemma EdgeLayout()
    ensures EDGE == Then(U32, Then(U32, Then(U32, Then(U8, Then(U8, Then(U8, Then(U32, Then(U32,
      Then(Counted(U32), End)))))))))
  {
    var s := [U32, U32, U32, U8, U8, U8, U32, U32, Counted(U32)];
    FieldsAt(s, 0);
    assert s[0..] == s;
    assert Chain(s, 8) == Then(Counted(U32), End) && Chain(s, 7) == Then(U32, Chain(s, 8));
    assert Chain(s, 6) == Then(U32, Chain(s, 7)) && Chain(s, 5) == Then(U8, Chain(s, 6));
    assert Chain(s, 4) == Then(U8, Chain(s, 5)) && Chain(s, 3) == Then(U8, Chain(s, 4));
    assert Chain(s, 2) == Then(U32, Chain(s, 3)) && Chain(s, 1) == Then(U32, Chain(s, 2));
  }

  /** The layouts from the `i`-th on, one by one. */
  lemma {:induction false} FieldsAt(s: seq<Layout>, i: nat)
    requires i <= |s|
    ensures Fields(s[i..]) == Chain(s, i)
    decreases |s| - i
  {
    if i < |s| {
      FieldsAt(s, i + 1);
      assert s[i..][0] == s[i] && s[i..][1..] == s[i + 1..];
    }
  }

  function Chain(s: seq<Layout>, i: nat): Layout
    requires i <= |s|
    decreases |s| - i
  {
    if i == |s| then End else Then(s[i], Chain(s, i + 1))
  }

  lemma UnitsWritten(write: Id -> Value, tus: seq<Id>) returns (units: Bytes)
    requires (forall n :: write(n) == Nat(n)) && Fits(Then(Counted(U32), End), Pair(List(Each(write, tus)), Unit))
    ensures Encode(Then(Counted(U32), End), Pair(List(Each(write, tus)), Unit)) == Le(|tus|, 4) + units
    ensures |units| == 4 * |tus| && forall i :: 0 <= i < |tus| ==> units[4 * i..4 * i + 4] == Le(tus[i], 4)
  {
    var list := Each(write, tus);
    LastField(Counted(U32), List(list));
    units := EncodeAll(U32, list);
    IdsWritten(write, tus);
  }

  /** A node as written: its ids, its file, line, a byte with the entry point in bit 0 and virtual
      in bit 1, its class, and its contributors behind their number. */
  lemma NodeIs(r: NodeRecord) returns (file: Bytes, class_: Bytes, units: Bytes)
    requires Fits(NODE, NodeValue(r))
    ensures Str(file) == StringValue(r.file) && Str(class_) == StringValue(r.enclosingClass)
    ensures Encode(NODE, NodeValue(r)) ==
      Le(r.usr, 4) + (Le(r.displayName, 4) + (Le(|file|, 4) + file + (Le(r.line, 4)
        + ([(if r.isEntryPoint then 1 else 0) + (if r.isVirtual then 2 else 0)]
        + (Le(|class_|, 4) + class_ + (Le(|r.tus|, 4) + units))))))
    ensures |units| == 4 * |r.tus| && forall i :: 0 <= i < |r.tus| ==> units[4 * i..4 * i + 4] == Le(r.tus[i], 4)
  {
    file, class_ := StringValue(r.file).text, StringValue(r.enclosingClass).text;
    var l7 := Then(Counted(U32), End); var v7 := Pair(List(Each(IdValue, r.tus)), Unit);
    var l6 := Then(Text, l7);          var v6 := Pair(Str(class_), v7);
    var l5 := Then(Bits(2), l6);       var v5 := Pair(Flags([r.isEntryPoint, r.isVirtual]), v6);
    var l4 := Then(U32, l5);           var v4 := Pair(Nat(r.line), v5);
    var l3 := Then(Text, l4);          var v3 := Pair(Str(file), v4);
    var l2 := Then(U32, l3);           var v2 := Pair(Nat(r.displayName), v3);
    assert NODE == Then(U32, l2) by { NodeLayout(); }
    assert NodeValue(r) == Pair(Nat(r.usr), v2);
    hide Fits, Encode, Le, EncodeAll, Fields, StringValue;
    NumberFirst(4, l2, r.usr, v2);
    NumberFirst(4, l3, r.displayName, v3);
    TextFirst(l4, file, v4);
    NumberFirst(4, l5, r.line, v5);
    FlagsFirst(l6, r.isEntryPoint, r.isVirtual, v6);
    TextFirst(l7, class_, v7);
    units := UnitsWritten(IdValue, r.tus);
  }

  lemma TextFirst(more: Layout, text: Bytes, tail: Value)
    requires Fits(Then(Text, more), Pair(Str(text), tail))
    ensures Fits(more, tail)
    ensures Encode(Then(Text, more), Pair(Str(text), tail)) == Le(|text|, 4) + text + Encode(more, tail)
  {
  }

  lemma FlagsFirst(more: Layout, a: bool, b: bool, tail: Value)
    requires Fits(Then(Bits(2), more), Pair(Flags([a, b]), tail))
    ensures Fits(more, tail)
    ensures Encode(Then(Bits(2), more), Pair(Flags([a, b]), tail))
      == [(if a then 1 else 0) + (if b then 2 else 0)] + Encode(more, tail)
  {
    assert [a, b][1..] == [b] && [b][1..] == [];
    assert FlagByte([b]) == (if b then 1 else 0);
  }

  lemma NodeLayout()
    ensures NODE == Then(U32, Then(U32, Then(Text, Then(U32, Then(Bits(2), Then(Text, Then(Counted(U32), End)))))))
  {
    var s := [U32, U32, Text, U32, Bits(2), Text, Counted(U32)];
    FieldsAt(s, 0);
    assert s[0..] == s;
    assert Chain(s, 6) == Then(Counted(U32), End) && Chain(s, 5) == Then(Text, Chain(s, 6));
    assert Chain(s, 4) == Then(Bits(2), Chain(s, 5)) && Chain(s, 3) == Then(U32, Chain(s, 4));
    assert Chain(s, 2) == Then(Text, Chain(s, 3)) && Chain(s, 1) == Then(U32, Chain(s, 2));
  }

  /** A pair as written: the left id, then the right one. */
  lemma PairIs(a: Id, b: Id)
    requires Fits(PAIR, PairValue((a, b)))
    ensures Encode(PAIR, PairValue((a, b))) == Le(a, 4) + Le(b, 4)
  {
    hide Le;
    var s := [U32, U32];
    FieldsAt(s, 0);
    assert s[0..] == s && Chain(s, 1) == Then(U32, End);
    NumberFirst(4, Then(U32, End), a, Pair(Nat(b), Unit));
    NumberFirst(4, End, b, Unit);
    Nothing();
    assert Le(b, 4) + [] == Le(b, 4);
  }

  /** A list as written: its length, then its items one after the other. */
  function Listed(item: Layout, v: Value): Bytes
    requires Fits(Counted(item), v)
  {
    Le(|v.items|, 4) + EncodeAll(item, v.items)
  }

  lemma ListFirst(item: Layout, more: Layout, v: Value, tail: Value)
    requires Fits(Then(Counted(item), more), Pair(v, tail))
    ensures Fits(Counted(item), v) && Fits(more, tail)
    ensures Encode(Then(Counted(item), more), Pair(v, tail)) == Listed(item, v) + Encode(more, tail)
  {
  }

  /** A section: strings, nodes, edges, derived classes, overrides, implementing classes, returned
      functions. */
  lemma SectionIs(image: Image)
    requires Fits(SECTION, SectionValue(image))
    ensures
      && Fits(Counted(Text), List(Each(StringValue, image.strings))) && Fits(Counted(NODE), image.nodes)
      && Fits(Counted(EDGE), List(Each(EdgeValue, image.edges))) && Fits(Counted(PAIR), image.derived)
      && Fits(Counted(PAIR), List(Each(PairValue, image.overrides))) && Fits(Counted(PAIR), image.impls)
      && Fits(Counted(PAIR), List(Each(PairValue, image.returned)))
    ensures Encode(SECTION, SectionValue(image)) ==
      Listed(Text, List(Each(StringValue, image.strings))) + (Listed(NODE, image.nodes)
        + (Listed(EDGE, List(Each(EdgeValue, image.edges))) + (Listed(PAIR, image.derived)
        + (Listed(PAIR, List(Each(PairValue, image.overrides))) + (Listed(PAIR, image.impls)
        + Listed(PAIR, List(Each(PairValue, image.returned))))))))
  {
    var l7 := Then(Counted(PAIR), End); var v7 := Pair(List(Each(PairValue, image.returned)), Unit);
    var l6 := Then(Counted(PAIR), l7);  var v6 := Pair(image.impls, v7);
    var l5 := Then(Counted(PAIR), l6);  var v5 := Pair(List(Each(PairValue, image.overrides)), v6);
    var l4 := Then(Counted(PAIR), l5);  var v4 := Pair(image.derived, v5);
    var l3 := Then(Counted(EDGE), l4);  var v3 := Pair(List(Each(EdgeValue, image.edges)), v4);
    var l2 := Then(Counted(NODE), l3);  var v2 := Pair(image.nodes, v3);
    assert SECTION == Then(Counted(Text), l2) by { SectionLayout(); }
    var strings := List(Each(StringValue, image.strings));
    assert SectionValue(image) == Pair(strings, v2);
    hide Fits, Encode, Listed, Fields, NODE, EDGE, PAIR;
    ListFirst(Text, l2, strings, v2);
    ListFirst(NODE, l3, image.nodes, v3);
    ListFirst(EDGE, l4, v3.head, v4);
    ListFirst(PAIR, l5, image.derived, v5);
    ListFirst(PAIR, l6, v5.head, v6);
    ListFirst(PAIR, l7, image.impls, v7);
    ListFirst(PAIR, End, v7.head, Unit);
    Nothing();
    assert Listed(PAIR, v7.head) + [] == Listed(PAIR, v7.head);
  }

  lemma SectionLayout()
    ensures SECTION == Then(Counted(Text), Then(Counted(NODE), Then(Counted(EDGE), Then(Counted(PAIR),
      Then(Counted(PAIR), Then(Counted(PAIR), Then(Counted(PAIR), End)))))))
  {
    hide NODE, EDGE, PAIR;
    var s := [Counted(Text), Counted(NODE), Counted(EDGE), Counted(PAIR), Counted(PAIR), Counted(PAIR), Counted(PAIR)];
    FieldsAt(s, 0);
    assert s[0..] == s;
    assert Chain(s, 6) == Then(Counted(PAIR), End) && Chain(s, 5) == Then(Counted(PAIR), Chain(s, 6));
    assert Chain(s, 4) == Then(Counted(PAIR), Chain(s, 5)) && Chain(s, 3) == Then(Counted(PAIR), Chain(s, 4));
    assert Chain(s, 2) == Then(Counted(EDGE), Chain(s, 3)) && Chain(s, 1) == Then(Counted(NODE), Chain(s, 2));
  }

  ghost predicate Nth<A>(xs: seq<A>, code: byte, x: A) {
    code as nat < |xs| && xs[code as nat] == x
  }

  /** A section is refused unless every id in it refers to its string table and every edge is
      counted. */
  lemma DecodedIdsAreKnown(data: Bytes)
    requires Decode(data).Some?
    ensures var image := Decode(data).value; var n := |image.strings|;
      && (forall r :: r in image.edges ==>
            && r.edge.key.caller < n && r.edge.key.callee < n && r.edge.key.callSite < n && r.edge.refs > 0
            && forall u :: u in r.tus ==> u < n)
      && (forall p :: p in image.overrides ==> p.0 < n && p.1 < n)
      && (forall p :: p in image.returned ==> p.0 < n && p.1 < n)
  {
    hide Parse, ImageOf;
  }
}

/** The little-endian wire form of journal payloads: writers that append to a buffer, a
    bounds-checked reader, and the layout tables of the records
    (src/anneal/Checkpoint.cpp:64-129, 306-604). */
module Wire {
  import opened EdgeTypes

  newtype byte = x: int | 0 <= x < 256

  type Bytes = seq<byte>

  const TWO32: nat := 0x1_0000_0000
  const TWO64: nat := 0x1_0000_0000_0000_0000

  // ---- integers -------------------------------------------------------------------------------

  /** The `n` low bytes of `v`, least significant first. */
  function Le(v: nat, n: nat): (b: Bytes)
    ensures |b| == n
  {
    if n == 0 then [] else [(v % 256) as byte] + Le(v / 256, n - 1)
  }

  function FromLe(b: Bytes): nat {
    if b == [] then 0 else b[0] as nat + 256 * FromLe(b[1..])
  }

  function Pow256(n: nat): nat {
    if n == 0 then 1 else 256 * Pow256(n - 1)
  }

  lemma {:induction false} FromLeOfLe(v: nat, n: nat)
    requires v < Pow256(n)
    ensures FromLe(Le(v, n)) == v
  {
    if n > 0 {
      assert v / 256 < Pow256(n - 1);
      FromLeOfLe(v / 256, n - 1);
      assert Le(v, n)[1..] == Le(v / 256, n - 1);
    }
  }

  lemma Widths()
    ensures Pow256(1) == 256 && Pow256(4) == TWO32 && Pow256(8) == TWO64
  {
    assert Pow256(2) == 65536 && Pow256(3) == 16777216;
    assert Pow256(5) == 256 * TWO32 && Pow256(6) == 65536 * TWO32 && Pow256(7) == 16777216 * TWO32;
  }

  // ---- layouts ----------------------------------------------------------------------------------

  /** One field of a record, or a record as a chain of fields. `Number` is unsigned of so many
      bytes, `Signed` a 32-bit int stored as unsigned, `Truth` a byte that is zero or not,
      `Bits` a byte of flags from the low bit up, `Many` a 32-bit count and the items, `Counted`
      the same with the count checked against the bytes that are left. */
  datatype Layout = Number(bytes: nat) | Signed | Truth | Bits(count: nat) | Text
    | Many(item: Layout) | Counted(item: Layout) | Then(first: Layout, rest: Layout) | End

  datatype Value = Nat(n: nat) | Int(i: int) | Bool(b: bool) | Flags(flags: seq<bool>) | Str(text: Bytes)
    | List(items: seq<Value>) | Pair(head: Value, tail: Value) | Unit

  function FlagByte(flags: seq<bool>): (n: nat)
    requires |flags| <= 8
  {
    if flags == [] then 0 else (if flags[0] then 1 else 0) + 2 * FlagByte(flags[1..])
  }

  function FlagsOf(n: nat, count: nat): seq<bool> {
    if count == 0 then [] else [n % 2 == 1] + FlagsOf(n / 2, count - 1)
  }

  const U8 := Number(1)
  const U32 := Number(4)
  const U64 := Number(8)

  function Fields(layouts: seq<Layout>): Layout {
    if layouts == [] then End else Then(layouts[0], Fields(layouts[1..]))
  }

  /** Every value takes at least a byte. */
  predicate Solid(layout: Layout) {
    match layout
    case Number(k) => k > 0
    case Then(first, rest) => Solid(first) || Solid(rest)
    case End => false
    case _ => true
  }

  /** The values a layout can carry: what fits its width. */
  predicate Fits(layout: Layout, v: Value)
    decreases v
  {
    match layout
    case Number(k) => v.Nat? && k in {1, 4, 8} && v.n < Pow256(k)
    case Signed => v.Int? && -0x8000_0000 <= v.i < 0x8000_0000
    case Truth => v.Bool?
    case Bits(count) => v.Flags? && |v.flags| == count <= 8
    case Text => v.Str? && |v.text| < TWO32
    case Many(item) => v.List? && |v.items| < TWO32 && forall k :: 0 <= k < |v.items| ==> Fits(item, v.items[k])
    case Counted(item) => v.List? && |v.items| < TWO32 && Solid(item) && forall k :: 0 <= k < |v.items| ==>
      Fits(item, v.items[k])
    case Then(first, rest) => v.Pair? && Fits(first, v.head) && Fits(rest, v.tail)
    case End => v.Unit?
  }

  // ---- writing ------------------------------------------------------------------------------------

  function Encode(layout: Layout, v: Value): Bytes
    requires Fits(layout, v)
    decreases v, 0
  {
    match layout
    case Number(k) => Le(v.n, k)
    case Signed => Le(if v.i < 0 then v.i + TWO32 else v.i, 4)
    case Truth => [if v.b then 1 else 0]
    case Bits(count) => FlagFits(v.flags); [FlagByte(v.flags) as byte]
    case Text => Le(|v.text|, 4) + v.text
    case Many(item) => Le(|v.items|, 4) + EncodeAll(item, v.items)
    case Counted(item) => Le(|v.items|, 4) + EncodeAll(item, v.items)
    case Then(first, rest) => Encode(first, v.head) + Encode(rest, v.tail)
    case End => []
  }

  function EncodeAll(item: Layout, vs: seq<Value>): Bytes
    requires forall k :: 0 <= k < |vs| ==> Fits(item, vs[k])
    decreases vs, 0
  {
    if vs == [] then [] else Encode(item, vs[0]) + EncodeAll(item, vs[1..])
  }

  lemma {:induction false} FlagBound(flags: seq<bool>)
    requires |flags| <= 8
    ensures FlagByte(flags) < Pow2(|flags|)
  {
    if flags != [] { FlagBound(flags[1..]); }
  }

  function Pow2(n: nat): nat {
    if n == 0 then 1 else 2 * Pow2(n - 1)
  }

  lemma FlagFits(flags: seq<bool>)
    requires |flags| <= 8
    ensures FlagByte(flags) < 256
  {
    FlagBound(flags);
    Pow2Bound(|flags|);
  }

  lemma {:induction false} Pow2Bound(n: nat)
    requires n <= 8
    ensures Pow2(n) <= 256
  {
    if n < 8 {
      Pow2Less(n, 8);
    }
    assert Pow2(4) == 16 && Pow2(8) == 16 * Pow2(4);
  }

  lemma {:induction false} Pow2Less(a: nat, b: nat)
    requires a <= b
    ensures Pow2(a) <= Pow2(b)
  {
    if a < b { Pow2Less(a, b - 1); }
  }

  // ---- reading ----------------------------------------------------------------------------------------

  /** The value at the front of the bytes and what follows it; nothing when they run out. */
  function Parse(layout: Layout, s: Bytes): Option<(Value, Bytes)>
    decreases layout, 0
  {
    match layout
    case Number(k) => if |s| < k then None else Some((Nat(FromLe(s[..k])), s[k..]))
    case Signed =>
      if |s| < 4 then None
      else var u := FromLe(s[..4]); Some((Int(if u < 0x8000_0000 then u else u - TWO32), s[4..]))
    case Truth => if |s| < 1 then None else Some((Bool(s[0] != 0), s[1..]))
    case Bits(count) => if |s| < 1 then None else Some((Flags(FlagsOf(s[0] as nat, count)), s[1..]))
    case Text =>
      if |s| < 4 then None
      else var n := FromLe(s[..4]); if |s| - 4 < n then None else Some((Str(s[4..4 + n]), s[4 + n..]))
    case Many(item) =>
      if |s| < 4 then None
      else
        (match ParseAll(item, FromLe(s[..4]), s[4..])
         case None => None
         case Some((vs, rest)) => Some((List(vs), rest)))
    case Counted(item) =>
      if |s| < 4 || FromLe(s[..4]) > |s| - 4 then None
      else
        (match ParseAll(item, FromLe(s[..4]), s[4..])
         case None => None
         case Some((vs, rest)) => Some((List(vs), rest)))
    case Then(first, rest) =>
      (match Parse(first, s)
       case None => None
       case Some((v, t)) =>
         match Parse(rest, t)
         case None => None
         case Some((w, u)) => Some((Pair(v, w), u)))
    case End => Some((Unit, s))
  }

  function ParseAll(item: Layout, n: nat, s: Bytes): Option<(seq<Value>, Bytes)>
    decreases item, n + 1
  {
    if n == 0 then Some(([], s))
    else
      match Parse(item, s)
      case None => None
      case Some((v, t)) =>
        match ParseAll(item, n - 1, t)
        case None => None
        case Some((vs, u)) => Some(([v] + vs, u))
  }

  // ---- the round trip ------------------------------------------------------------------------------------

  lemma {:induction false} FlagsBack(flags: seq<bool>)
    requires |flags| <= 8
    ensures FlagsOf(FlagByte(flags), |flags|) == flags
  {
    if flags != [] {
      FlagsBack(flags[1..]);
      assert flags == [flags[0]] + flags[1..];
    }
  }

  lemma Front(a: Bytes, b: Bytes)
    ensures (a + b)[..|a|] == a && (a + b)[|a|..] == b
  {
  }

  lemma NumberBack(n: nat, k: nat, rest: Bytes)
    requires k in {1, 4, 8} && n < Pow256(k)
    ensures var s := Le(n, k) + rest; |s| >= k && FromLe(s[..k]) == n && s[k..] == rest
  {
    Front(Le(n, k), rest);
    FromLeOfLe(n, k);
  }

  lemma TextBack(text: Bytes, rest: Bytes)
    requires |text| < TWO32
    ensures Parse(Text, Le(|text|, 4) + text + rest) == Some((Str(text), rest))
  {
    Widths();
    NumberBack(|text|, 4, text + rest);
    var s := Le(|text|, 4) + text + rest;
    assert s == Le(|text|, 4) + (text + rest);
    assert s[4..4 + |text|] == text && s[4 + |text|..] == rest;
  }

  /** The fields that hold no other value. */
  lemma LeafBack(layout: Layout, v: Value, rest: Bytes)
    requires Fits(layout, v) && !layout.Many? && !layout.Counted? && !layout.Then?
    ensures Parse(layout, Encode(layout, v) + rest) == Some((v, rest))
  {
    Widths();
    match layout
    case Number(k) => NumberBack(v.n, k, rest);
    case Signed => NumberBack(if v.i < 0 then v.i + TWO32 else v.i, 4, rest);
    case Truth => Front(Encode(layout, v), rest);
    case Bits(count) =>
      Front(Encode(layout, v), rest);
      FlagFits(v.flags);
      FlagsBack(v.flags);
    case Text => TextBack(v.text, rest);
    case End => assert [] + rest == rest;
  }

  lemma ManyBack(item: Layout, v: Value, rest: Bytes)
    requires Fits(Many(item), v) && ParseAll(item, |v.items|, EncodeAll(item, v.items) + rest) == Some((v.items, rest))
    ensures Parse(Many(item), Encode(Many(item), v) + rest) == Some((v, rest))
  {
    hide ParseAll, EncodeAll, Le, FromLe;
    Widths();
    var body := EncodeAll(item, v.items) + rest;
    NumberBack(|v.items|, 4, body);
    assert Encode(Many(item), v) + rest == Le(|v.items|, 4) + body;
  }

  lemma {:induction false} SolidSize(layout: Layout, v: Value)
    requires Fits(layout, v) && Solid(layout)
    ensures |Encode(layout, v)| > 0
    decreases v
  {
    match layout
    case Then(first, more) =>
      if Solid(first) { SolidSize(first, v.head); } else { SolidSize(more, v.tail); }
    case _ =>
  }

  lemma {:induction false} AtLeastOneByteEach(item: Layout, vs: seq<Value>)
    requires Solid(item) && forall k :: 0 <= k < |vs| ==> Fits(item, vs[k])
    ensures |EncodeAll(item, vs)| >= |vs|
  {
    hide Encode, Solid;
    if vs != [] {
      SolidSize(item, vs[0]);
      AtLeastOneByteEach(item, vs[1..]);
    }
  }

  /** The count check never stops a list that was written. */
  lemma CountedBack(item: Layout, v: Value, rest: Bytes)
    requires Fits(Counted(item), v)
    requires ParseAll(item, |v.items|, EncodeAll(item, v.items) + rest) == Some((v.items, rest))
    ensures Parse(Counted(item), Encode(Counted(item), v) + rest) == Some((v, rest))
  {
    hide ParseAll, EncodeAll, Le, FromLe;
    Widths();
    var body := EncodeAll(item, v.items) + rest;
    AtLeastOneByteEach(item, v.items);
    NumberBack(|v.items|, 4, body);
    assert Encode(Counted(item), v) + rest == Le(|v.items|, 4) + body;
  }

  lemma ParseChain(first: Layout, more: Layout, s: Bytes, v: Value, t: Bytes, w: Value, u: Bytes)
    requires Parse(first, s) == Some((v, t)) && Parse(more, t) == Some((w, u))
    ensures Parse(Then(first, more), s) == Some((Pair(v, w), u))
  {
  }

  lemma EncodeChain(first: Layout, more: Layout, v: Value)
    requires Fits(Then(first, more), v)
    ensures Encode(Then(first, more), v) == Encode(first, v.head) + Encode(more, v.tail)
  {
  }

  lemma ThenBack(first: Layout, more: Layout, v: Value, rest: Bytes)
    requires Fits(Then(first, more), v)
    requires Parse(first, Encode(first, v.head) + (Encode(more, v.tail) + rest))
      == Some((v.head, Encode(more, v.tail) + rest))
    requires Parse(more, Encode(more, v.tail) + rest) == Some((v.tail, rest))
    ensures Parse(Then(first, more), Encode(Then(first, more), v) + rest) == Some((v, rest))
  {
    hide Parse, Encode;
    var a, b := Encode(first, v.head), Encode(more, v.tail);
    EncodeChain(first, more, v);
    ParseChain(first, more, a + (b + rest), v.head, b + rest, v.tail, rest);
    assert a + b + rest == a + (b + rest);
  }

  /** What was written is read back, and nothing after it is touched. */
  lemma {:induction false} ParseOfEncode(layout: Layout, v: Value, rest: Bytes)
    requires Fits(layout, v)
    ensures Parse(layout, Encode(layout, v) + rest) == Some((v, rest))
    decreases v, 0
  {
    hide Parse, Encode, EncodeAll, ParseAll;
    match layout
    case Many(item) =>
      ParseOfEncodeAll(item, v.items, rest);
      ManyBack(item, v, rest);
    case Counted(item) =>
      ParseOfEncodeAll(item, v.items, rest);
      CountedBack(item, v, rest);
    case Then(first, more) =>
      ParseOfEncode(first, v.head, Encode(more, v.tail) + rest);
      ParseOfEncode(more, v.tail, rest);
      ThenBack(first, more, v, rest);
    case _ => LeafBack(layout, v, rest);
  }

  lemma AllBack(item: Layout, vs: seq<Value>, rest: Bytes)
    requires vs != [] && forall k :: 0 <= k < |vs| ==> Fits(item, vs[k])
    requires Parse(item, Encode(item, vs[0]) + (EncodeAll(item, vs[1..]) + rest))
      == Some((vs[0], EncodeAll(item, vs[1..]) + rest))
    requires ParseAll(item, |vs| - 1, EncodeAll(item, vs[1..]) + rest) == Some((vs[1..], rest))
    ensures ParseAll(item, |vs|, EncodeAll(item, vs) + rest) == Some((vs, rest))
  {
    hide Parse, Encode, Fits;
    assert EncodeAll(item, vs) + rest == Encode(item, vs[0]) + (EncodeAll(item, vs[1..]) + rest);
    assert vs == [vs[0]] + vs[1..];
  }

  lemma {:induction false} ParseOfEncodeAll(item: Layout, vs: seq<Value>, rest: Bytes)
    requires forall k :: 0 <= k < |vs| ==> Fits(item, vs[k])
    ensures ParseAll(item, |vs|, EncodeAll(item, vs) + rest) == Some((vs, rest))
    decreases vs, 0
  {
    hide Parse, Encode, Fits;
    if vs == [] {
      assert EncodeAll(item, vs) + rest == rest;
    } else {
      ParseOfEncode(item, vs[0], EncodeAll(item, vs[1..]) + rest);
      ParseOfEncodeAll(item, vs[1..], rest);
      AllBack(item, vs, rest);
    }
  }

  // ---- the reader ------------------------------------------------------------------------------------

  lemma {:induction false} FromLeAppend(b: Bytes, x: byte)
    ensures FromLe(b + [x]) == FromLe(b) + x as nat * Pow256(|b|)
  {
    if b == [] {
      assert [x][1..] == [];
    } else {
      FromLeAppend(b[1..], x);
      assert (b + [x])[1..] == b[1..] + [x];
      Shifted(FromLe(b[1..]), x as nat, Pow256(|b| - 1));
    }
  }

  lemma Shifted(a: nat, x: nat, p: nat)
    ensures 256 * (a + x * p) == 256 * a + x * (256 * p)
  {
  }

  /** What ParseAll makes of the items still to come, put behind the items read. */
  function Prepend(items: seq<Value>, r: Option<(seq<Value>, Bytes)>): Option<(seq<Value>, Bytes)> {
    match r
    case None => None
    case Some((vs, u)) => Some((items + vs, u))
  }

  class Reader {
    const data: Bytes
    var pos: nat
    var ok: bool

    constructor (data: Bytes)
      ensures this.data == data && pos == 0 && ok
    {
      this.data, pos, ok := data, 0, true;
    }

    predicate Valid()
      reads this
    {
      pos <= |data|
    }

    function Rest(): Bytes
      requires Valid()
      reads this
    {
      data[pos..]
    }

    method Need(n: nat) returns (enough: bool)
      requires Valid()
      modifies this`ok
      ensures enough == ok == (old(ok) && |Rest()| >= n)
    {
      if !ok || |data| - pos < n {
        ok := false;
        return false;
      }
      return true;
    }

    /** u8, u32 and u64: zero, and nothing consumed, once the bytes run out. */
    method Number(k: nat) returns (v: nat)
      requires Valid()
      modifies this`pos, this`ok
      ensures Valid() && ok == (old(ok) && |old(Rest())| >= k)
      ensures if ok then v == FromLe(old(Rest())[..k]) && Rest() == old(Rest())[k..] else v == 0 && pos == old(pos)
    {
      var enough := Need(k);
      v := 0;
      if !enough {
        return;
      }
      ghost var s := Rest();
      for i := 0 to k
        invariant ok && pos == old(pos) + i && v == FromLe(s[..i])
      {
        assert s[..i + 1] == s[..i] + [data[pos]];
        FromLeAppend(s[..i], data[pos]);
        v := v + data[pos] as nat * Pow256(i);
        pos := pos + 1;
      }
    }

    /** The next bytes, known to be there. */
    method Chunk(n: nat) returns (bytes: Bytes)
      requires Valid() && |Rest()| >= n
      modifies this`pos
      ensures Valid() && bytes == old(Rest())[..n] && Rest() == old(Rest())[n..]
    {
      bytes := data[pos..pos + n];
      pos := pos + n;
    }

    method Text() returns (text: Bytes)
      requires Valid()
      modifies this`pos, this`ok
      ensures Valid() && ok == (old(ok) && Parse(Layout.Text, old(Rest())).Some?)
      ensures ok ==> Parse(Layout.Text, old(Rest())) == Some((Str(text), Rest()))
    {
      text := [];
      ghost var s := Rest();
      var n := Number(4);
      var enough := Need(n);
      if enough {
        text := Chunk(n);
        assert text == s[4..4 + n] && Rest() == s[4 + n..];
      }
    }

    /** A whole record, field by field; what is read after the bytes ran out is not used. */
    method Item(layout: Layout) returns (v: Value)
      requires Valid()
      modifies this`pos, this`ok
      ensures Valid() && ok == (old(ok) && Parse(layout, old(Rest())).Some?)
      ensures ok ==> Parse(layout, old(Rest())) == Some((v, Rest()))
      decreases layout, 0
    {
      match layout
      case Number(k) =>
        var n := Number(k);
        v := Nat(n);
      case Signed =>
        var u := Number(4);
        v := Int(if u < 0x8000_0000 then u else u - TWO32);
      case Truth =>
        var n := Number(1);
        v := Bool(n != 0);
        ghost var s := old(Rest());
        assert ok ==> FromLe(s[..1]) == s[0] as nat by { if ok { OneByte(s); } }
      case Bits(count) =>
        var n := Number(1);
        v := Flags(FlagsOf(n, count));
        ghost var s := old(Rest());
        assert ok ==> FromLe(s[..1]) == s[0] as nat by { if ok { OneByte(s); } }
      case Text =>
        var text := Text();
        v := Str(text);
      case Many(item) =>
        var n := Number(4);
        var items := Items(item, n);
        v := List(items);
      case Counted(item) =>
        var n := Number(4);
        if ok && n > |data| - pos {
          ok := false;
        }
        var items := Items(item, n);
        v := List(items);
      case Then(first, rest) =>
        var a := Item(first);
        var b := Item(rest);
        v := Pair(a, b);
      case End => v := Unit;
    }

    method Items(item: Layout, n: nat) returns (items: seq<Value>)
      requires Valid()
      modifies this`pos, this`ok
      ensures Valid() && ok == (old(ok) && ParseAll(item, n, old(Rest())).Some?)
      ensures ok ==> ParseAll(item, n, old(Rest())) == Some((items, Rest()))
      decreases item, 1
    {
      hide Parse, ParseAll, Prepend;
      items := [];
      ghost var s := Rest();
      FirstItem(ParseAll(item, n, s));
      var i := 0;
      while i < n && ok
        invariant 0 <= i <= n && Valid() && (ok ==> old(ok))
        invariant ok ==> ParseAll(item, n, s) == Prepend(items, ParseAll(item, n - i, Rest()))
        invariant !ok && old(ok) ==> ParseAll(item, n, s) == None
        decreases n - i
      {
        ghost var t := Rest();
        var v := Item(item);
        NextItem(items, item, n - i, t);
        items := items + [v];
        i := i + 1;
      }
      if ok {
        LastItem(items, item, Rest());
      }
    }
  }

  lemma FirstItem(r: Option<(seq<Value>, Bytes)>)
    ensures Prepend([], r) == r
  {
    if r.Some? { assert [] + r.value.0 == r.value.0; }
  }

  lemma LastItem(items: seq<Value>, item: Layout, t: Bytes)
    ensures Prepend(items, ParseAll(item, 0, t)) == Some((items, t))
  {
    assert items + [] == items;
  }

  lemma OneByte(s: Bytes)
    requires |s| >= 1
    ensures FromLe(s[..1]) == s[0] as nat
  {
    assert s[..1] == [s[0]] && [s[0]][1..] == [];
  }

  lemma NextItem(items: seq<Value>, item: Layout, n: nat, t: Bytes)
    requires n > 0
    ensures Parse(item, t).None? ==> Prepend(items, ParseAll(item, n, t)) == None
    ensures Parse(item, t).Some? ==> var (v, u) := Parse(item, t).value;
      Prepend(items, ParseAll(item, n, t)) == Prepend(items + [v], ParseAll(item, n - 1, u))
  {
    if Parse(item, t).Some? {
      var (v, u) := Parse(item, t).value;
      if ParseAll(item, n - 1, u).Some? {
        var vs := ParseAll(item, n - 1, u).value.0;
        assert items + ([v] + vs) == items + [v] + vs;
      }
    }
  }
}

/** The shared set tables of the control-flow index: equal sets are stored once, found by a
    canonical key (src/callgraph/ControlFlowIndex.cpp:31-70, 125-176). */
module ControlFlowSets {
  import W = Wire

  const HANDLER := W.Fields([W.Text, W.Truth, W.Text, W.Text])
  const SCOPE := W.Fields([W.Text, W.Text, W.U32, W.Many(HANDLER)])
  const GUARD := W.Fields([W.Text, W.Text, W.Truth, W.Truth])
  const RAII := W.Then(W.U32, W.Then(W.U32, W.Then(W.U32, W.Then(W.U8, W.End))))

  /** A set as stored: its members in order. */
  type Members = seq<W.Value>

  ghost predicate MembersFit(layout: W.Layout, set_: Members) {
    forall k :: 0 <= k < |set_| ==> W.Fits(layout, set_[k])
  }

  /** The canonical key: the members one after the other, every variable-length field behind
      its length, without a member count. */
  function KeyOf(layout: W.Layout, set_: Members): W.Bytes
    requires forall k :: 0 <= k < |set_| ==> W.Fits(layout, set_[k])
  {
    W.EncodeAll(layout, set_)
  }

  /** Two sets with the same key are the same set. */
  lemma {:induction false} KeyIsInjective(layout: W.Layout, a: Members, b: Members)
    requires W.Solid(layout) && MembersFit(layout, a) && MembersFit(layout, b)
    requires KeyOf(layout, a) == KeyOf(layout, b)
    ensures a == b
  {
    hide W.Parse, W.Encode, W.Fits, W.Solid;
    if a == [] {
      if b != [] {
        W.SolidSize(layout, b[0]);
      }
    } else if b == [] {
      W.SolidSize(layout, a[0]);
    } else {
      var restA, restB := W.EncodeAll(layout, a[1..]), W.EncodeAll(layout, b[1..]);
      W.ParseOfEncode(layout, a[0], restA);
      W.ParseOfEncode(layout, b[0], restB);
      KeyIsInjective(layout, a[1..], b[1..]);
      assert a == [a[0]] + a[1..] && b == [b[0]] + b[1..];
    }
  }

  lemma LayoutsAreSolid()
    ensures W.Solid(SCOPE) && W.Solid(GUARD) && W.Solid(RAII)
  {
  }

  /** The sets by index, the empty one first, and the index of each key. */
  datatype SetTable = SetTable(sets: seq<Members>, ids: map<W.Bytes, nat>)

  const EMPTY_TABLE := SetTable([[]], map[])

  ghost predicate SetTableOk(layout: W.Layout, t: SetTable) {
    && |t.sets| > 0 && t.sets[0] == []
    && (forall i :: 0 < i < |t.sets| ==>
          t.sets[i] != [] && MembersFit(layout, t.sets[i]) && KeyOf(layout, t.sets[i]) in t.ids
            && t.ids[KeyOf(layout, t.sets[i])] == i)
    && (forall k :: k in t.ids ==> 0 < t.ids[k] < |t.sets| && KeyOf(layout, t.sets[t.ids[k]]) == k)
  }

  /** The index of a set, appended on first use: it always stands for exactly this set. */
  method InternSet(layout: W.Layout, t: SetTable, set_: Members) returns (t': SetTable, id: nat)
    requires SetTableOk(layout, t) && W.Solid(layout) && MembersFit(layout, set_)
    ensures SetTableOk(layout, t') && (t'.sets == t.sets || t'.sets == t.sets + [set_])
    ensures id < |t'.sets| && t'.sets[id] == set_ && (id == 0 <==> set_ == [])
  {
    hide W.Fits, W.Solid, W.EncodeAll;
    t' := t;
    if set_ == [] {
      return t, 0;
    }
    var key := KeyOf(layout, set_);
    if key in t.ids {
      id := t.ids[key];
      KeyIsInjective(layout, t.sets[id], set_);
    } else {
      id := |t.sets|;
      t' := SetTable(t.sets + [set_], t.ids[key := id]);
    }
  }

  /** No set is stored twice. */
  lemma SetsAreDistinct(layout: W.Layout, t: SetTable, i: nat, j: nat)
    requires SetTableOk(layout, t) && i < |t.sets| && j < |t.sets| && t.sets[i] == t.sets[j]
    ensures i == j
  {
    hide W.Fits, W.EncodeAll;
  }
}

/** The lookups of the control-flow index: contexts by callee, by caller and by site
    (src/callgraph/ControlFlowIndex.cpp:275-411). */
module ContextLookups {
  import opened EdgeTypes
  import opened Interner
  import E = EdgeTables
  import opened ControlFlow
  import opened ContextAnswers

  // ---- what a caller asks for ------------------------------------------------------------------

  function Select(cs: seq<Context>, wanted: Context -> bool): seq<Context> {
    if cs == [] then []
    else
      var c := cs[|cs| - 1];
      Select(cs[..|cs| - 1], wanted) + (if wanted(c) then [c] else [])
  }

  lemma SelectOne(cs: seq<Context>, c: Context, wanted: Context -> bool)
    ensures Select(cs + [c], wanted) == Select(cs, wanted) + (if wanted(c) then [c] else [])
  {
    assert (cs + [c])[..|cs|] == cs;
  }

  /** Exactly the wanted contexts, each as often as it is there. */
  lemma {:induction false} SelectIs(cs: seq<Context>, wanted: Context -> bool, c: Context)
    ensures multiset(Select(cs, wanted))[c] == if wanted(c) then multiset(cs)[c] else 0
    ensures c in Select(cs, wanted) <==> c in cs && wanted(c)
  {
    if cs != [] {
      SelectIs(cs[..|cs| - 1], wanted, c);
      assert cs == cs[..|cs| - 1] + [cs[|cs| - 1]];
    }
  }

  datatype Side = Callee | Caller

  function UsrOf(c: Context, side: Side): string {
    match side
    case Callee => c.calleeUsr
    case Caller => c.callerUsr
  }

  function NameOf(c: Context, side: Side): string {
    match side
    case Callee => c.calleeName
    case Caller => c.callerName
  }

  function HasUsr(side: Side, name: string): Context -> bool {
    c => UsrOf(c, side) == name
  }

  function HasName(side: Side, name: string): Context -> bool {
    c => NameOf(c, side) == name
  }

  /** What the header promises: the name taken as a usr when some context has it, else as a
      display name. */
  function Promised(cs: seq<Context>, side: Side, name: string): seq<Context> {
    var byUsr := Select(cs, HasUsr(side, name));
    if byUsr != [] then byUsr else Select(cs, HasName(side, name))
  }

  // ---- the lists behind it -----------------------------------------------------------------------

  function UsrKey(side: Side): Key {
    match side
    case Callee => ByCallee
    case Caller => ByCaller
  }

  function NameKey(side: Side): Key {
    match side
    case Callee => ByCalleeDisplay
    case Caller => ByCallerDisplay
  }

  function UsrMap(cf: ControlFlowIndex, side: Side): map<Id, seq<nat>>
    reads cf
  {
    match side
    case Callee => cf.byCallee
    case Caller => cf.byCaller
  }

  function NameMap(cf: ControlFlowIndex, side: Side): map<Id, seq<nat>>
    reads cf
  {
    match side
    case Callee => cf.byCalleeDisplay
    case Caller => cf.byCallerDisplay
  }

  /** The usr of contexts all of which have been removed: its list is still there, and empty. */
  predicate Emptied(cf: ControlFlowIndex, side: Side, name: string)
    reads cf
  {
    name in cf.ids && cf.ids[name] in UsrMap(cf, side) && UsrMap(cf, side)[cf.ids[name]] == []
  }

  function Reading(st: Store, contexts: seq<Stored>, list: seq<nat>): seq<Context>
    requires forall k :: 0 <= k < |list| ==> list[k] < |contexts|
  {
    if list == [] then []
    else Reading(st, contexts, list[..|list| - 1]) + [Materialize(st, contexts[list[|list| - 1]])]
  }

  lemma ReadingOne(st: Store, contexts: seq<Stored>, list: seq<nat>, i: nat)
    requires (forall k :: 0 <= k < |list| ==> list[k] < |contexts|) && i < |contexts|
    ensures Reading(st, contexts, list + [i]) == Reading(st, contexts, list) + [Materialize(st, contexts[i])]
  {
    assert (list + [i])[..|list|] == list;
  }

  lemma {:induction false} ReadingPrefix(st: Store, before: seq<Stored>, after: seq<Stored>, list: seq<nat>)
    requires before <= after && forall k :: 0 <= k < |list| ==> list[k] < |before|
    ensures Reading(st, after, list) == Reading(st, before, list)
  {
    if list != [] {
      ReadingPrefix(st, before, after, list[..|list| - 1]);
    }
  }

  /** The key of a list stands for exactly the wanted contexts. */
  ghost predicate Fits(st: Store, contexts: seq<Stored>, k: Key, id: Id, wanted: Context -> bool) {
    forall i :: 0 <= i < |contexts| && contexts[i].live ==>
      (KeyIn(k, contexts[i]) == Some(id) <==> wanted(Materialize(st, contexts[i])))
  }

  /** Reading a list gives the contexts wanted, in their order. */
  lemma {:induction false} ListIsSelection(st: Store, contexts: seq<Stored>, k: Key, id: Id, wanted: Context -> bool)
    requires Fits(st, contexts, k, id, wanted)
    ensures forall j :: 0 <= j < |Listed(contexts, k, id)| ==> Listed(contexts, k, id)[j] < |contexts|
    ensures Reading(st, contexts, Listed(contexts, k, id)) == Select(Materialized(st, contexts), wanted)
  {
    hide Materialize, KeyIn, Reading, Select;
    ListedAscends(contexts, k, id);
    if contexts == [] {
      NothingSelected(st, wanted);
    } else {
      var n := |contexts| - 1;
      var init, c := contexts[..n], Materialize(st, contexts[n]);
      ListIsSelection(st, init, k, id, wanted);
      var list := Listed(init, k, id);
      ReadingPrefix(st, init, contexts, list);
      ReadingOne(st, contexts, list, n);
      SelectOne(Materialized(st, init), c, wanted);
      assert list + [] == list && Materialized(st, init) + [] == Materialized(st, init);
      assert Select(Materialized(st, init), wanted) + [] == Select(Materialized(st, init), wanted);
    }
  }

  lemma NothingSelected(st: Store, wanted: Context -> bool)
    ensures Reading(st, [], []) == Select([], wanted) == []
  {
  }

  /** A list of live records, read one by one. */
  method ReadList(cf: ControlFlowIndex, list: seq<nat>) returns (result: seq<Context>)
    requires forall k :: 0 <= k < |list| ==> list[k] < |cf.contexts| && cf.contexts[list[k]].live
    ensures result == Reading(cf.Tables(), cf.contexts, list)
  {
    hide Materialize;
    result := [];
    for k := 0 to |list|
      invariant result == Reading(cf.Tables(), cf.contexts, list[..k])
    {
      assert list[..k + 1] == list[..k] + [list[k]];
      ReadingOne(cf.Tables(), cf.contexts, list[..k], list[k]);
      if cf.contexts[list[k]].live {
        result := result + [Materialize(cf.Tables(), cf.contexts[list[k]])];
      }
    }
    assert list[..|list|] == list;
  }

  lemma UsrFits(cf: ControlFlowIndex, side: Side, name: string)
    requires cf.Valid() && name in cf.ids
    ensures cf.ids[name] < |cf.strings|
    ensures Fits(cf.Tables(), cf.contexts, UsrKey(side), cf.ids[name], HasUsr(side, name))
  {
    var id := cf.ids[name];
    forall i | 0 <= i < |cf.contexts| && cf.contexts[i].live
      ensures KeyIn(UsrKey(side), cf.contexts[i]) == Some(id) <==>
        HasUsr(side, name)(Materialize(cf.Tables(), cf.contexts[i]))
    {
      KeyAt(cf, i, id);
    }
  }

  lemma NameFits(cf: ControlFlowIndex, side: Side, name: string)
    requires cf.Valid() && name in cf.ids && !exists c :: c in cf.Contents() && UsrOf(c, side) == name
    ensures Fits(cf.Tables(), cf.contexts, NameKey(side), cf.ids[name], HasName(side, name))
  {
    hide Listed, IndexOk, StoreOk, LocalsOf, AllIn;
    var id := cf.ids[name];
    forall i | 0 <= i < |cf.contexts| && cf.contexts[i].live
      ensures KeyIn(NameKey(side), cf.contexts[i]) == Some(id) <==>
        HasName(side, name)(Materialize(cf.Tables(), cf.contexts[i]))
    {
      KeyAt(cf, i, id);
      LiveIsThere(cf.Tables(), cf.contexts, i);
      assert UsrOf(Materialize(cf.Tables(), cf.contexts[i]), side) != name;
    }
  }

  lemma {:induction false} LiveIsThere(st: Store, contexts: seq<Stored>, i: nat)
    requires i < |contexts| && contexts[i].live
    ensures Materialize(st, contexts[i]) in Materialized(st, contexts)
  {
    hide Materialize;
    if i < |contexts| - 1 {
      LiveIsThere(st, contexts[..|contexts| - 1], i);
    }
  }

  /** The ids of a record against the strings its context shows. */
  lemma KeyAt(cf: ControlFlowIndex, i: nat, id: Id)
    requires cf.Valid() && i < |cf.contexts| && id < |cf.strings|
    ensures var se := cf.contexts[i]; var c := Materialize(cf.Tables(), se);
      && (se.callee == id <==> c.calleeUsr == cf.strings[id])
      && (se.caller == id <==> c.callerUsr == cf.strings[id])
      && (se.calleeDisplay == id <==> c.calleeName == cf.strings[id])
      && (se.callerDisplay == id <==> c.callerName == cf.strings[id])
      && (se.site == id <==> c.callSite == cf.strings[id])
  {
    hide Listed, IndexOk, StoreOk, InternerOk, LocalsOf;
    var se := cf.contexts[i];
    assert StoredIn(cf.Tables(), se);
    KeyStrings(cf.strings, cf.ids, se.callee, id);
    KeyStrings(cf.strings, cf.ids, se.caller, id);
    KeyStrings(cf.strings, cf.ids, se.calleeDisplay, id);
    KeyStrings(cf.strings, cf.ids, se.callerDisplay, id);
    KeyStrings(cf.strings, cf.ids, se.site, id);
  }

  /** A name never interned is no name of a context. */
  lemma {:induction false} UnknownName(cf: ControlFlowIndex, n: nat, side: Side, name: string)
    requires cf.Valid() && name !in cf.ids && n <= |cf.contexts|
    ensures Select(Materialized(cf.Tables(), cf.contexts[..n]), HasUsr(side, name)) == []
    ensures Select(Materialized(cf.Tables(), cf.contexts[..n]), HasName(side, name)) == []
  {
    hide Materialize, StoreOk, IndexOk, Select;
    if n == 0 {
      assert cf.contexts[..0] == [];
      NothingSelected(cf.Tables(), HasUsr(side, name));
      NothingSelected(cf.Tables(), HasName(side, name));
    } else {
      UnknownName(cf, n - 1, side, name);
      var init := Materialized(cf.Tables(), cf.contexts[..n - 1]);
      assert cf.contexts[..n][..n - 1] == cf.contexts[..n - 1];
      NamesAreKnown(cf, n - 1, side);
      assert init + [] == init;
      SelectOne(init, Materialize(cf.Tables(), cf.contexts[n - 1]), HasUsr(side, name));
      SelectOne(init, Materialize(cf.Tables(), cf.contexts[n - 1]), HasName(side, name));
    }
  }

  lemma NamesAreKnown(cf: ControlFlowIndex, i: nat, side: Side)
    requires cf.Valid() && i < |cf.contexts|
    ensures var c := Materialize(cf.Tables(), cf.contexts[i]); UsrOf(c, side) in cf.ids && NameOf(c, side) in cf.ids
  {
    hide StoreOk, IndexOk, LocalsOf;
    assert StoredIn(cf.Tables(), cf.contexts[i]);
  }

  // ---- contextsForCallee and contextsForCaller --------------------------------------------------------

  /** The contexts of a callee or a caller. The lookup gives what is promised, unless the name is
      an emptied usr: then it gives nothing, whatever has the name as its display name. */
  method ContextsFor(cf: ControlFlowIndex, side: Side, name: string) returns (result: seq<Context>)
    requires cf.Valid()
    ensures result == if Emptied(cf, side, name) then [] else Promised(cf.Contents(), side, name)
    ensures result == Promised(cf.Contents(), side, name) <==>
      !Emptied(cf, side, name) || !exists c :: c in cf.Contents() && NameOf(c, side) == name
  {
    hide StoreOk, AllIn, Unproven, CountLive, Materialize, InternerOk;
    ghost var st, cs := cf.Tables(), cf.Contents();
    PromisedIs(cs, side, name);
    result := [];
    if name !in cf.ids {
      UnknownName(cf, |cf.contexts|, side, name);
      assert cf.contexts[..|cf.contexts|] == cf.contexts;
      return;
    }
    var id := cf.ids[name];
    UsrFits(cf, side, name);
    ListIsSelection(st, cf.contexts, UsrKey(side), id, HasUsr(side, name));
    Listing(cf, UsrKey(side), UsrMap(cf, side), id, 0);
    ListedAscends(cf.contexts, UsrKey(side), id);
    if id in UsrMap(cf, side) {
      result := ReadList(cf, UsrMap(cf, side)[id]);
      ReadingSize(st, cf.contexts, UsrMap(cf, side)[id]);
    } else {
      NothingSelected(st, HasUsr(side, name));
      NameFits(cf, side, name);
      ListIsSelection(st, cf.contexts, NameKey(side), id, HasName(side, name));
      Listing(cf, NameKey(side), NameMap(cf, side), id, 0);
      ListedAscends(cf.contexts, NameKey(side), id);
      if id in NameMap(cf, side) {
        result := ReadList(cf, NameMap(cf, side)[id]);
      }
    }
  }

  lemma {:induction false} ReadingSize(st: Store, contexts: seq<Stored>, list: seq<nat>)
    requires forall k :: 0 <= k < |list| ==> list[k] < |contexts|
    ensures |Reading(st, contexts, list)| == |list|
  {
    if list != [] { ReadingSize(st, contexts, list[..|list| - 1]); }
  }

  lemma PromisedIs(cs: seq<Context>, side: Side, name: string)
    ensures (exists c :: c in cs && UsrOf(c, side) == name) <==> Select(cs, HasUsr(side, name)) != []
    ensures (exists c :: c in cs && NameOf(c, side) == name) <==> Select(cs, HasName(side, name)) != []
  {
    SomeSelected(cs, HasUsr(side, name));
    SomeSelected(cs, HasName(side, name));
  }

  lemma SomeSelected(cs: seq<Context>, wanted: Context -> bool)
    ensures (exists c :: c in cs && wanted(c)) <==> Select(cs, wanted) != []
  {
    forall c ensures c in Select(cs, wanted) <==> c in cs && wanted(c) {
      SelectIs(cs, wanted, c);
    }
    if Select(cs, wanted) != [] {
      assert Select(cs, wanted)[0] in Select(cs, wanted);
    }
  }

  /** What is promised for a callee: its contexts by usr, or those by display name when no context
      has the usr. */
  ghost predicate AnswersCallee(cs: seq<Context>, name: string, result: seq<Context>) {
    forall c :: multiset(result)[c] ==
      if exists x :: x in cs && x.calleeUsr == name then (if c.calleeUsr == name then multiset(cs)[c] else 0)
      else if c.calleeName == name then multiset(cs)[c] else 0
  }

  ghost predicate AnswersCaller(cs: seq<Context>, name: string, result: seq<Context>) {
    forall c :: multiset(result)[c] ==
      if exists x :: x in cs && x.callerUsr == name then (if c.callerUsr == name then multiset(cs)[c] else 0)
      else if c.callerName == name then multiset(cs)[c] else 0
  }

  lemma PromisedCallee(cs: seq<Context>, name: string)
    ensures AnswersCallee(cs, name, Promised(cs, Callee, name))
  {
    PromisedIs(cs, Callee, name);
    hide Select;
    ghost var some := exists x :: x in cs && UsrOf(x, Callee) == name;
    assert some <==> exists x :: x in cs && x.calleeUsr == name;
    forall c ensures multiset(Promised(cs, Callee, name))[c] ==
      if some then (if c.calleeUsr == name then multiset(cs)[c] else 0)
      else if c.calleeName == name then multiset(cs)[c] else 0
    {
      SelectIs(cs, HasUsr(Callee, name), c);
      SelectIs(cs, HasName(Callee, name), c);
    }
  }

  lemma PromisedCaller(cs: seq<Context>, name: string)
    ensures AnswersCaller(cs, name, Promised(cs, Caller, name))
  {
    PromisedIs(cs, Caller, name);
    hide Select;
    ghost var some := exists x :: x in cs && UsrOf(x, Caller) == name;
    assert some <==> exists x :: x in cs && x.callerUsr == name;
    forall c ensures multiset(Promised(cs, Caller, name))[c] ==
      if some then (if c.callerUsr == name then multiset(cs)[c] else 0)
      else if c.callerName == name then multiset(cs)[c] else 0
    {
      SelectIs(cs, HasUsr(Caller, name), c);
      SelectIs(cs, HasName(Caller, name), c);
    }
  }

  /** A selection is made stretch by stretch, so it keeps the order. */
  lemma {:induction false} SelectInOrder(a: seq<Context>, b: seq<Context>, wanted: Context -> bool)
    ensures Select(a + b, wanted) == Select(a, wanted) + Select(b, wanted)
  {
    if b == [] {
      assert a + b == a && Select(a, wanted) + [] == Select(a, wanted);
    } else {
      var init, last := b[..|b| - 1], b[|b| - 1];
      SelectInOrder(a, init, wanted);
      SelectOne(a + init, last, wanted);
      assert a + b == (a + init) + [last];
    }
  }

  /** contextsForCallee. */
  method ContextsForCallee(cf: ControlFlowIndex, name: string) returns (result: seq<Context>)
    requires cf.Valid()
    ensures var emptied := name in cf.ids && cf.ids[name] in cf.byCallee && cf.byCallee[cf.ids[name]] == [];
      && (emptied ==> result == []) && (!emptied ==> AnswersCallee(cf.Contents(), name, result))
      && (AnswersCallee(cf.Contents(), name, result) <==>
            !emptied || forall c :: c in cf.Contents() ==> c.calleeName != name)
  {
    hide ControlFlowIndex.Valid, Materialized, Promised, AnswersCallee;
    result := ContextsFor(cf, Callee, name);
    PromisedCallee(cf.Contents(), name);
    SameAnswers(cf.Contents(), name, result, Promised(cf.Contents(), Callee, name));
  }

  /** contextsForCaller. */
  method ContextsForCaller(cf: ControlFlowIndex, name: string) returns (result: seq<Context>)
    requires cf.Valid()
    ensures var emptied := name in cf.ids && cf.ids[name] in cf.byCaller && cf.byCaller[cf.ids[name]] == [];
      && (emptied ==> result == []) && (!emptied ==> AnswersCaller(cf.Contents(), name, result))
      && (AnswersCaller(cf.Contents(), name, result) <==>
            !emptied || forall c :: c in cf.Contents() ==> c.callerName != name)
  {
    hide ControlFlowIndex.Valid, Materialized, Promised, AnswersCaller;
    result := ContextsFor(cf, Caller, name);
    PromisedCaller(cf.Contents(), name);
    SameAnswers(cf.Contents(), name, result, Promised(cf.Contents(), Caller, name));
  }

  /** An answer that is empty is right only when the promised one is. */
  lemma SameAnswers(cs: seq<Context>, name: string, a: seq<Context>, b: seq<Context>)
    ensures a == [] && AnswersCallee(cs, name, a) && AnswersCallee(cs, name, b) ==> b == []
    ensures a == [] && AnswersCaller(cs, name, a) && AnswersCaller(cs, name, b) ==> b == []
  {
    if a == [] && b != [] {
      assert multiset(b)[b[0]] > 0 && multiset(a)[b[0]] == 0;
    }
  }

  // ---- a lookup after a removal -----------------------------------------------------------------

  /** An index without empty lists, as it is until something is removed and again once it has been
      compacted, gives what is promised for every name. */
  lemma NothingEmptied(cf: ControlFlowIndex, side: Side, name: string)
    requires NoneEmptied(cf.IndexMaps())
    ensures !Emptied(cf, side, name)
  {
  }

  /** A usr that is still listed though no context has it. */
  lemma EmptiedIff(cf: ControlFlowIndex, side: Side, name: string)
    requires cf.Valid() && name in cf.ids && cf.ids[name] in UsrMap(cf, side)
    ensures Emptied(cf, side, name) <==> !exists c :: c in cf.Contents() && UsrOf(c, side) == name
  {
    hide StoreOk, AllIn, Unproven, CountLive, Materialize, InternerOk;
    var id := cf.ids[name];
    UsrFits(cf, side, name);
    ListIsSelection(cf.Tables(), cf.contexts, UsrKey(side), id, HasUsr(side, name));
    Listing(cf, UsrKey(side), UsrMap(cf, side), id, 0);
    ReadingSize(cf.Tables(), cf.contexts, Listed(cf.contexts, UsrKey(side), id));
    PromisedIs(cf.Contents(), side, name);
  }

  /** The usr of a context is known and listed. */
  lemma UsrIsListed(cf: ControlFlowIndex, side: Side, name: string)
    requires cf.Valid() && exists c :: c in cf.Contents() && UsrOf(c, side) == name
    ensures name in cf.ids && cf.ids[name] in UsrMap(cf, side)
  {
    hide StoreOk, AllIn, Unproven, CountLive, Materialize, InternerOk;
    PromisedIs(cf.Contents(), side, name);
    assert cf.contexts[..|cf.contexts|] == cf.contexts;
    if name !in cf.ids {
      UnknownName(cf, |cf.contexts|, side, name);
      assert false;
    }
    var id := cf.ids[name];
    UsrFits(cf, side, name);
    ListIsSelection(cf.Tables(), cf.contexts, UsrKey(side), id, HasUsr(side, name));
    Listing(cf, UsrKey(side), UsrMap(cf, side), id, 0);
    NothingSelected(cf.Tables(), HasUsr(side, name));
  }

  function Calling(calleeUsr: string, tu: string): Context {
    Context("main", "f", tu + ":1:1", "main", calleeUsr, tu, [], [], 0, false, [])
  }

  const ONE := Calling("f", "a")
  const OTHER := Calling("g", "b")

  lemma OneIsGone()
    ensures Normalized(ONE) == ONE && Normalized(OTHER) == OTHER && Leaves(ONE, ["a"]) && !Leaves(OTHER, ["a"])
    ensures OTHER.calleeUsr != "f" && OTHER.calleeName == "f" && ONE.calleeUsr == "f"
  {
    assert "a"[0] == 'a' && "b"[0] == 'b' && "f"[0] == 'f' && "g"[0] == 'g';
    assert "b" !in ["a"] && "a" in ["a"];
  }

  lemma OneRemains()
    ensures Remaining([ONE, OTHER], ["a"]) == [OTHER] && Promised([OTHER], Callee, "f") == [OTHER]
  {
    OneIsGone();
    hide Leaves, ONE, OTHER;
    RemainingOne([ONE], OTHER, ["a"]);
    RemainingOne([], ONE, ["a"]);
    NothingRemains(["a"]);
    assert [] + [ONE] == [ONE] && [ONE] + [OTHER] == [ONE, OTHER];
    SelectOne([], OTHER, HasUsr(Callee, "f"));
    SelectOne([], OTHER, HasName(Callee, "f"));
    assert [] + [OTHER] == [OTHER];
  }

  /** Two callees have the display name "f", which is also the usr of one. Once that one's unit is
      removed a lookup of "f" finds nothing; compacting, which changes no context, brings the
      other one back. */
  method LookupMissesAfterRemoval() returns (missed: seq<Context>, found: seq<Context>)
    ensures missed == [] && found == [OTHER]
  {
    hide ControlFlowIndex.Valid, Remaining, Normalized, Materialized, NoneEmptied, IsStoredFor, Thinned, Promised;
    OneIsGone();
    OneRemains();
    var cf := new ControlFlowIndex();
    AreStorable();
    cf.AddCallSiteContext(ONE);
    cf.AddCallSiteContext(OTHER);
    assert [] + [ONE] + [OTHER] == [ONE, OTHER];
    assert ONE in cf.Contents() && UsrOf(ONE, Callee) == "f";
    UsrIsListed(cf, Callee, "f");
    var _ := cf.RemoveTUs(["a"]);
    EmptiedIff(cf, Callee, "f");
    missed := ContextsForCallee(cf, "f");
    cf.Compact();
    NothingEmptied(cf, Callee, "f");
    found := ContextsFor(cf, Callee, "f");
  }

  lemma AreStorable()
    ensures forall n: nat :: n <= 6 ==> Storable(ONE, n) && Storable(OTHER, n)
  {
  }
}

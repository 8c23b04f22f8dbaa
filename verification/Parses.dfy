/** What a parse of one translation unit depends on, and when the recorded result of an earlier
    parse is still what a parse would give (src/callgraph/ControlFlowContextVisitor.cpp:902-975,
    src/callgraph/Snapshot.cpp:1055-1109). */
module Parses {
  import opened EdgeTypes
  import opened Registrations
  import opened Dependencies
  import T = Tellings
  import F = ControlFlow

  /** What parsing one translation unit gives: what it registers, the files it opened, and the
      paths it looked for in vain. Of a parse that does not reach its end nothing is recorded. */
  datatype Parsed = Crashed
    | Parsed(edges: seq<EdgeName>, nodes: seq<T.Node>, contexts: seq<F.Context>, deps: seq<FileStamp>,
             missed: seq<string>)

  type Parser = (string, World) -> Parsed

  function EdgesOf(p: Parsed): seq<EdgeName> {
    if p.Parsed? then p.edges else []
  }

  function NodesOf(p: Parsed): seq<T.Node> {
    if p.Parsed? then p.nodes else []
  }

  function ContextsIn(p: Parsed): seq<F.Context> {
    if p.Parsed? then p.contexts else []
  }

  function Opened(p: Parsed): seq<FileStamp> {
    if p.Parsed? then p.deps else []
  }

  function Missed(p: Parsed): seq<string> {
    if p.Parsed? then p.missed else []
  }

  /** The file is there, in the version that was parsed. */
  predicate Same(d: FileStamp, w: World) {
    d.path in w && SameParsedVersion(d, StampOf(w, d.path))
  }

  ghost predicate Unchanged(p: Parsed, w: World) {
    forall d :: d in Opened(p) ==> Same(d, w)
  }

  ghost predicate NoneAppeared(p: Parsed, w: World) {
    forall m :: m in Missed(p) ==> m !in w
  }

  /** All that the parse of a unit looked at is in `w'` as it was in `w`. */
  ghost predicate SameInputs(p: Parsed, tu: string, w: World, w': World) {
    StampOf(w, tu) == StampOf(w', tu) && Unchanged(p, w') && NoneAppeared(p, w')
  }

  /** A finished parse reports what it opened and what it missed, and depends on nothing else
      but its own file. */
  ghost predicate Honest(parse: Parser) {
    && (forall tu, w :: Unchanged(parse(tu, w), w) && NoneAppeared(parse(tu, w), w))
    && (forall tu, w, w' :: parse(tu, w).Parsed? && SameInputs(parse(tu, w), tu, w, w') ==>
          parse(tu, w') == parse(tu, w))
  }

  // ---- recorded results ----------------------------------------------------------------------------

  /** The result of some earlier parse, of the same unit with the files it opened as they are
      now: what the dirty check knows of a unit it lets through. */
  ghost predicate Stands(parse: Parser, tu: string, p: Parsed, w: World) {
    Unchanged(p, w) && exists v :: parse(tu, v) == p && StampOf(v, tu) == StampOf(w, tu)
  }

  lemma FreshStands(parse: Parser, tu: string, w: World)
    requires Honest(parse)
    ensures Stands(parse, tu, parse(tu, w), w)
  {
  }

  /** It is what a parse gives now if and only if nothing has appeared where that parse looked in
      vain. */
  lemma UpToDateIff(parse: Parser, tu: string, p: Parsed, w: World)
    requires Honest(parse) && Stands(parse, tu, p, w) && p.Parsed?
    ensures parse(tu, w) == p <==> NoneAppeared(p, w)
  {
    var v :| parse(tu, v) == p && StampOf(v, tu) == StampOf(w, tu);
    if NoneAppeared(p, w) {
      assert SameInputs(p, tu, v, w);
    }
  }

  // ---- what the recorded files tell ---------------------------------------------------------------------

  /** The file as a parse reports it. */
  function ParsedStamp(w: World, path: string): FileStamp
    requires path in w
  {
    FileStamp(path, w[path].0 - w[path].0 % NS_PER_SECOND, w[path].1)
  }

  function Look(w: World, path: string): Option<FileStamp> {
    if path in w then Some(ParsedStamp(w, path)) else None
  }

  lemma SameIsLook(d: FileStamp, w: World)
    ensures Same(d, w) <==> Look(w, d.path) == Some(d)
  {
  }

  /** Some file differs, as parses see files. */
  ghost predicate Differ(v: World, w: World) {
    exists path :: Look(v, path) != Look(w, path)
  }

  /** A parse that looks at the given paths. */
  function Report(w: World, paths: seq<string>, edges: seq<EdgeName>): Parsed {
    Parsed(edges, [], [], Present(w, paths), Absent(w, paths))
  }

  function Present(w: World, paths: seq<string>): seq<FileStamp> {
    if paths == [] then []
    else (if paths[0] in w then [ParsedStamp(w, paths[0])] else []) + Present(w, paths[1..])
  }

  function Absent(w: World, paths: seq<string>): seq<string> {
    if paths == [] then [] else (if paths[0] in w then [] else [paths[0]]) + Absent(w, paths[1..])
  }

  lemma {:induction false} Reports(w: World, paths: seq<string>)
    ensures forall d :: d in Present(w, paths) <==> d.path in paths && Look(w, d.path) == Some(d)
    ensures forall m :: m in Absent(w, paths) <==> m in paths && m !in w
  {
    if paths != [] {
      Reports(w, paths[1..]);
      assert paths == [paths[0]] + paths[1..];
    }
  }

  lemma {:induction false} SameReport(w: World, w': World, paths: seq<string>)
    requires forall p :: p in paths ==> Look(w, p) == Look(w', p)
    ensures Present(w, paths) == Present(w', paths) && Absent(w, paths) == Absent(w', paths)
  {
    if paths != [] {
      assert Look(w, paths[0]) == Look(w', paths[0]) && forall p :: p in paths[1..] ==> p in paths;
      SameReport(w, w', paths[1..]);
    }
  }

  lemma ReportHolds(w: World, paths: seq<string>, edges: seq<EdgeName>)
    ensures Unchanged(Report(w, paths, edges), w) && NoneAppeared(Report(w, paths, edges), w)
  {
    Reports(w, paths);
    forall d | d in Present(w, paths) ensures Same(d, w) {
      SameIsLook(d, w);
    }
  }

  /** Where a report still holds the paths look the same. */
  lemma ReportTells(w: World, w': World, paths: seq<string>, edges: seq<EdgeName>)
    requires Unchanged(Report(w, paths, edges), w') && NoneAppeared(Report(w, paths, edges), w')
    ensures forall p :: p in paths ==> Look(w, p) == Look(w', p)
    ensures Report(w', paths, edges) == Report(w, paths, edges)
  {
    Reports(w, paths);
    forall p | p in paths ensures Look(w, p) == Look(w', p) {
      if p in w {
        assert ParsedStamp(w, p) in Present(w, paths);
        assert Same(ParsedStamp(w, p), w');
        SameIsLook(ParsedStamp(w, p), w');
      } else {
        assert p in Absent(w, paths);
      }
    }
    SameReport(w, w', paths);
  }

  // ---- exactly when a recorded result can be relied on ----------------------------------------------------

  /** Whatever the parser, if it gave this result before it gives these edges now. */
  ghost predicate Assured(tu: string, p: Parsed, v: World, w: World) {
    forall q: Parser :: Honest(q) && q(tu, v) == p ==> EdgesOf(q(tu, w)) == EdgesOf(p)
  }

  const SOME_EDGE := EdgeName("f", "g", "a.cpp:1:1", DirectCall, Proven, Synchronous, 0)

  function Others(edges: seq<EdgeName>): seq<EdgeName> {
    if edges == [] then [SOME_EDGE] else []
  }

  /** A parser that crashes until a file changes. */
  function Retrying(tu: string, v: World, path: string): Parser {
    (u, x) =>
      if u != tu || StampOf(x, tu) != StampOf(v, tu) || Look(x, path) == Look(v, path) then Crashed
      else Report(x, [path], [SOME_EDGE])
  }

  lemma RetryingIsHonest(tu: string, v: World, path: string)
    ensures Honest(Retrying(tu, v, path))
  {
    var q := Retrying(tu, v, path);
    forall u, x ensures Unchanged(q(u, x), x) && NoneAppeared(q(u, x), x) {
      ReportHolds(x, [path], [SOME_EDGE]);
    }
    forall u, x, x' | q(u, x).Parsed? && SameInputs(q(u, x), u, x, x') ensures q(u, x') == q(u, x) {
      ReportTells(x, x', [path], [SOME_EDGE]);
      assert path in [path];
    }
  }

  /** The paths a parse looked at. */
  function Names(p: Parsed): seq<string> {
    PathsOf(Opened(p)) + Missed(p)
  }

  function PathsOf(list: seq<FileStamp>): seq<string> {
    if list == [] then [] else [list[0].path] + PathsOf(list[1..])
  }

  lemma {:induction false} PathsHas(list: seq<FileStamp>)
    ensures forall d :: d in list ==> d.path in PathsOf(list)
  {
    if list != [] {
      PathsHas(list[1..]);
      assert list == [list[0]] + list[1..];
    }
  }

  /** A parser with this one result where it applies and no edge of it elsewhere. */
  function Watching(tu: string, v: World, p: Parsed): Parser {
    (u, x) =>
      if u != tu || StampOf(x, tu) != StampOf(v, tu) then Crashed
      else if Applies(p, x) then p
      else Report(x, Names(p), Others(EdgesOf(p)))
  }

  predicate Applies(p: Parsed, x: World) {
    (forall d :: d in Opened(p) ==> Same(d, x)) && forall m :: m in Missed(p) ==> m !in x
  }

  lemma AppliesAsLooked(p: Parsed, x: World, x': World)
    requires forall n :: n in Names(p) ==> Look(x, n) == Look(x', n)
    ensures Applies(p, x) == Applies(p, x')
  {
    PathsHas(Opened(p));
    forall d | d in Opened(p) ensures Same(d, x) == Same(d, x') {
      SameIsLook(d, x);
      SameIsLook(d, x');
      assert d.path in Names(p);
    }
    forall m | m in Missed(p) ensures (m in x) == (m in x') {
      assert m in Names(p);
      assert Look(x, m) == Look(x', m);
    }
  }

  lemma WatchingIsHonest(tu: string, v: World, p: Parsed)
    ensures Honest(Watching(tu, v, p))
  {
    var q, names, others := Watching(tu, v, p), Names(p), Others(EdgesOf(p));
    forall u, x ensures Unchanged(q(u, x), x) && NoneAppeared(q(u, x), x) {
      ReportHolds(x, names, others);
    }
    forall u, x, x' | q(u, x).Parsed? && SameInputs(q(u, x), u, x, x') ensures q(u, x') == q(u, x) {
      if !Applies(p, x) {
        ReportTells(x, x', names, others);
        AppliesAsLooked(p, x, x');
      }
    }
  }

  /** Without a difference that parses can see an honest parser gives the same. */
  lemma SameLooksSameParse(q: Parser, tu: string, v: World, w: World)
    requires Honest(q) && StampOf(v, tu) == StampOf(w, tu) && !Differ(v, w)
    ensures q(tu, v) == q(tu, w)
  {
    AsSeen(q, tu, v, w);
    AsSeen(q, tu, w, v);
  }

  lemma AsSeen(q: Parser, tu: string, v: World, w: World)
    requires Honest(q) && StampOf(v, tu) == StampOf(w, tu) && !Differ(v, w)
    ensures q(tu, v).Parsed? ==> q(tu, w) == q(tu, v)
  {
    var p := q(tu, v);
    assert Unchanged(p, v) && NoneAppeared(p, v);
    forall d | d in Opened(p) ensures Same(d, w) {
      SameIsLook(d, v);
      SameIsLook(d, w);
      assert Look(v, d.path) == Look(w, d.path);
    }
    forall m | m in Missed(p) ensures m !in w {
      assert Look(v, m) == Look(w, m);
    }
    if p.Parsed? {
      assert SameInputs(p, tu, v, w);
    }
  }

  /** A unit with its own file and the files it opened unchanged has the edges it had, whatever
      the parser, exactly when the earlier parse finished and nothing has appeared where it looked
      in vain, or when nothing at all has changed. */
  lemma AssuredExactly(parse: Parser, tu: string, v: World, w: World)
    requires Honest(parse) && StampOf(v, tu) == StampOf(w, tu) && Unchanged(parse(tu, v), w)
    ensures var p := parse(tu, v);
      Assured(tu, p, v, w) <==> (p.Parsed? && NoneAppeared(p, w)) || !Differ(v, w)
  {
    var p := parse(tu, v);
    if p.Parsed? && NoneAppeared(p, w) {
      assert SameInputs(p, tu, v, w);
    } else if !Differ(v, w) {
      forall q: Parser | Honest(q) && q(tu, v) == p ensures EdgesOf(q(tu, w)) == EdgesOf(p) {
        SameLooksSameParse(q, tu, v, w);
      }
    } else if p.Crashed? {
      var path :| Look(v, path) != Look(w, path);
      RetryingIsHonest(tu, v, path);
      var q := Retrying(tu, v, path);
      assert q(tu, v) == p && EdgesOf(q(tu, w)) == [SOME_EDGE];
    } else {
      WatchingIsHonest(tu, v, p);
      var q := Watching(tu, v, p);
      assert Unchanged(p, v) && NoneAppeared(p, v);
      assert q(tu, v) == p && !Applies(p, w) && EdgesOf(q(tu, w)) == Others(EdgesOf(p));
    }
  }

  // ---- an include and its search path --------------------------------------------------------------------

  const UNIT := "a.cpp"
  const FRONT := "front/h"
  const REAR := "rear/h"

  /** The parse of a unit with one include, which calls as deep as the header is long. */
  function Including(): Parser {
    (u, w) =>
      if FRONT in w then Using(w, FRONT, [])
      else if REAR in w then Using(w, REAR, [FRONT])
      else Parsed([], [], [], [], [FRONT, REAR])
  }

  function Using(w: World, path: string, missed: seq<string>): Parsed
    requires path in w
  {
    Parsed([SOME_EDGE.(indirectionDepth := w[path].1)], [], [], [ParsedStamp(w, path)], missed)
  }

  lemma IncludingIsHonest()
    ensures Honest(Including())
  {
    assert FRONT != REAR by { assert FRONT[0] == 'f' && REAR[0] == 'r'; }
    var q := Including();
    forall u, w ensures Unchanged(q(u, w), w) && NoneAppeared(q(u, w), w) {}
    forall u, w, w' | q(u, w).Parsed? && SameInputs(q(u, w), u, w, w') ensures q(u, w') == q(u, w) {
      var p := q(u, w);
      if FRONT in w || REAR in w {
        assert p.deps[0] in Opened(p);
        SameIsLook(p.deps[0], w');
      }
      if FRONT !in w {
        assert FRONT in Missed(p);
        if REAR !in w {
          assert REAR in Missed(p);
        }
      }
    }
  }

  const BEFORE: World := map[UNIT := (2 * NS_PER_SECOND, 9), REAR := (2 * NS_PER_SECOND, 1)]
  const EDITED: World := BEFORE[REAR := (3 * NS_PER_SECOND, 2)]
  const SHADOWED: World := BEFORE[FRONT := (3 * NS_PER_SECOND, 2)]

  /** An edited header changes what the unit that opened it parses to, and is among the files
      the recorded result stands on. */
  lemma EditedHeaderIsSeen()
    ensures Including()(UNIT, BEFORE).deps == [FileStamp(REAR, 2 * NS_PER_SECOND, 1)]
    ensures Including()(UNIT, BEFORE).edges != Including()(UNIT, EDITED).edges
    ensures StampOf(BEFORE, UNIT) == StampOf(EDITED, UNIT) && !Unchanged(Including()(UNIT, BEFORE), EDITED)
  {
    assert FRONT[0] == 'f' && REAR[0] == 'r' && UNIT[0] == 'a';
    var p := Including()(UNIT, BEFORE);
    assert p.deps[0] in Opened(p) && !Same(p.deps[0], EDITED);
  }

  /** A header that appears in front of it on the search path changes the unit as much, and
      leaves every file the unit opened as it was. */
  lemma ShadowingHeaderIsNot()
    ensures Including()(UNIT, BEFORE).edges != Including()(UNIT, SHADOWED).edges
    ensures StampOf(BEFORE, UNIT) == StampOf(SHADOWED, UNIT) && Unchanged(Including()(UNIT, BEFORE), SHADOWED)
  {
    assert FRONT[0] == 'f' && REAR[0] == 'r' && UNIT[0] == 'a';
  }
}

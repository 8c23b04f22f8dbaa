/** A relation between interned ids kept as a forward and a reverse map, and its transitive
    closure (src/callgraph/CallGraph.cpp:191-213, 471-483, 554-562). */
module Relations {
  import opened EdgeTypes

  /** `fwd` and `rev` list the same pairs from both ends. */
  datatype Relation = Relation(fwd: map<Id, seq<Id>>, rev: map<Id, seq<Id>>)

  function Image(m: map<Id, seq<Id>>, a: Id): seq<Id> {
    if a in m then m[a] else []
  }

  ghost predicate Related(m: map<Id, seq<Id>>, a: Id, b: Id) {
    b in Image(m, a)
  }

  /** The reverse map is the exact transpose of the forward one. */
  ghost predicate Transposed(r: Relation) {
    forall a: Id, b: Id :: Related(r.fwd, a, b) <==> Related(r.rev, b, a)
  }

  /** The relation is about interned strings and holds the pairs in `log`, no others. */
  ghost predicate RelationOk(r: Relation, strings: seq<string>, log: set<(string, string)>) {
    && Transposed(r)
    && (forall a: Id, b: Id :: Related(r.fwd, a, b) ==>
          a < |strings| && b < |strings| && (strings[a], strings[b]) in log)
    && (forall p :: p in log ==> HasPair(r, strings, p))
  }

  ghost predicate HasPair(r: Relation, strings: seq<string>, p: (string, string)) {
    exists a: Id, b: Id :: PairAt(r, strings, p, a, b)
  }

  ghost predicate PairAt(r: Relation, strings: seq<string>, p: (string, string), a: Id, b: Id) {
    Related(r.fwd, a, b) && a < |strings| && b < |strings| && strings[a] == p.0 && strings[b] == p.1
  }

  /** `r'` has one more pair than `r`. */
  ghost predicate OneMore(r: Relation, r': Relation, a: Id, b: Id) {
    && (forall x: Id, y: Id :: Related(r'.fwd, x, y) <==> Related(r.fwd, x, y) || (x == a && y == b))
    && (forall x: Id, y: Id :: Related(r'.rev, y, x) <==> Related(r.rev, y, x) || (x == a && y == b))
  }

  lemma OneMoreOk(r: Relation, r': Relation, strings: seq<string>, log: set<(string, string)>, a: Id, b: Id)
    requires RelationOk(r, strings, log) && OneMore(r, r', a, b)
    requires a < |strings| && b < |strings|
    ensures RelationOk(r', strings, log + {(strings[a], strings[b])})
  {
    var log' := log + {(strings[a], strings[b])};
    forall p | p in log' ensures HasPair(r', strings, p) {
      if p in log {
        assert HasPair(r, strings, p);
        var x: Id, y: Id :| PairAt(r, strings, p, x, y);
        assert PairAt(r', strings, p, x, y);
      } else {
        assert PairAt(r', strings, p, a, b);
      }
    }
  }

  lemma GrownRelation(r: Relation, strings: seq<string>, strings': seq<string>, log: set<(string, string)>)
    requires RelationOk(r, strings, log) && strings <= strings'
    ensures RelationOk(r, strings', log)
  {
    forall p | p in log ensures HasPair(r, strings', p) {
      assert HasPair(r, strings, p);
      var x: Id, y: Id :| PairAt(r, strings, p, x, y);
      assert PairAt(r, strings', p, x, y);
    }
  }

  /** The pairs of `a` with the ids in `list`, in string space. */
  ghost function PairsOf(strings: seq<string>, a: Id, list: seq<Id>): set<(string, string)> {
    set b | b in list && a < |strings| && b < |strings| :: (strings[a], strings[b])
  }

  lemma NoPairs(strings: seq<string>, a: Id)
    ensures PairsOf(strings, a, []) == {}
  {
  }

  lemma PairsOfOne(strings: seq<string>, a: Id, list: seq<Id>, b: Id)
    requires a < |strings| && b < |strings|
    ensures PairsOf(strings, a, list + [b]) == PairsOf(strings, a, list) + {(strings[a], strings[b])}
  {
  }

  /** The pairs with a left-hand side in `from`, in string space. */
  ghost function NamePairs(m: map<Id, seq<Id>>, strings: seq<string>, from: set<Id>): set<(string, string)> {
    set a, p | a in from && p in PairsOf(strings, a, Image(m, a)) :: p
  }

  lemma NamePairsOne(m: map<Id, seq<Id>>, strings: seq<string>, from: set<Id>, a: Id)
    ensures NamePairs(m, strings, from + {a}) == NamePairs(m, strings, from) + PairsOf(strings, a, Image(m, a))
  {
  }

  lemma RangeOfRelation(r: Relation, strings: seq<string>, log: set<(string, string)>)
    requires RelationOk(r, strings, log)
    ensures forall a: Id, b: Id :: Related(r.fwd, a, b) ==> a < |strings| && b < |strings|
  {
  }

  lemma AllNamePairs(r: Relation, strings: seq<string>, log: set<(string, string)>, from: set<Id>)
    requires RelationOk(r, strings, log) && from == r.fwd.Keys
    ensures NamePairs(r.fwd, strings, from) == log
  {
    forall p | p in log ensures p in NamePairs(r.fwd, strings, from) {
      assert HasPair(r, strings, p);
      var a: Id, b: Id :| PairAt(r, strings, p, a, b);
      assert a in from && p in PairsOf(strings, a, Image(r.fwd, a));
    }
    forall a, p | a in from && p in PairsOf(strings, a, Image(r.fwd, a)) ensures p in log {
      var b :| b in Image(r.fwd, a) && b < |strings| && (strings[a], strings[b]) == p;
      assert Related(r.fwd, a, b);
    }
  }

  // ---- the mutators --------------------------------------------------------------------------

  /** Appends unless present. */
  function Append(s: seq<Id>, x: Id): (r: seq<Id>)
    ensures forall y :: y in r <==> y in s || y == x
  {
    if x in s then s else s + [x]
  }

  /** Inserts into an ascending sequence unless present, as an ordered set does. */
  function Insert(s: seq<Id>, x: Id): (r: seq<Id>)
    ensures forall y :: y in r <==> y in s || y == x
  {
    if s == [] then [x]
    else if x == s[0] then s
    else if x < s[0] then [x] + s
    else
      assert s == [s[0]] + s[1..];
      [s[0]] + Insert(s[1..], x)
  }

  /** addMethodOverride: both lists deduplicate on their own. */
  function AddToBoth(r: Relation, a: Id, b: Id): (r': Relation)
    ensures OneMore(r, r', a, b)
  {
    Relation(r.fwd[a := Append(Image(r.fwd, a), b)], r.rev[b := Append(Image(r.rev, b), a)])
  }

  /** addFunctionReturn: an ordered forward set decides whether the reverse list grows. */
  function AddOrdered(r: Relation, a: Id, b: Id): (r': Relation)
    ensures Transposed(r) ==> OneMore(r, r', a, b)
  {
    if b in Image(r.fwd, a) then
      assert Related(r.fwd, a, b);
      r
    else
      Relation(r.fwd[a := Insert(Image(r.fwd, a), b)], r.rev[b := Image(r.rev, b) + [a]])
  }

  // ---- reachability --------------------------------------------------------------------------

  /** `b` is reached from `a` over `k` pairs. */
  ghost predicate Steps(m: map<Id, seq<Id>>, a: Id, b: Id, k: nat)
    decreases k
  {
    if k == 0 then a == b else exists c: Id :: Related(m, a, c) && Steps(m, c, b, k - 1)
  }

  ghost predicate Reaches(m: map<Id, seq<Id>>, a: Id, b: Id) {
    exists k: nat :: Steps(m, a, b, k)
  }

  lemma {:induction false} StepsAppend(m: map<Id, seq<Id>>, a: Id, b: Id, c: Id, k: nat)
    requires Steps(m, a, b, k) && Related(m, b, c)
    ensures Steps(m, a, c, k + 1)
    decreases k
  {
    if k > 0 {
      var d: Id :| Related(m, a, d) && Steps(m, d, b, k - 1);
      StepsAppend(m, d, b, c, k - 1);
    } else {
      assert Steps(m, c, c, 0);
    }
  }

  lemma {:induction false} StepsReversed(r: Relation, a: Id, b: Id, k: nat)
    requires Transposed(r) && Steps(r.fwd, a, b, k)
    ensures Steps(r.rev, b, a, k)
    decreases k
  {
    if k > 0 {
      var c: Id :| Related(r.fwd, a, c) && Steps(r.fwd, c, b, k - 1);
      StepsReversed(r, c, b, k - 1);
      assert Related(r.rev, c, a);
      StepsAppend(r.rev, b, c, a, k - 1);
    }
  }

  /** Reachability over the reverse map is reachability backwards over the forward map. */
  lemma ReachesReversed(r: Relation, a: Id, b: Id)
    requires Transposed(r)
    ensures Reaches(r.fwd, a, b) <==> Reaches(r.rev, b, a)
  {
    if Reaches(r.fwd, a, b) {
      var k: nat :| Steps(r.fwd, a, b, k);
      StepsReversed(r, a, b, k);
    }
    if Reaches(r.rev, b, a) {
      var k: nat :| Steps(r.rev, b, a, k);
      var swapped := Relation(r.rev, r.fwd);
      assert Transposed(swapped);
      StepsReversed(swapped, b, a, k);
    }
  }

  // ---- transitiveClosure -----------------------------------------------------------------------

  /** All ids on the right-hand side of the relation. */
  ghost function Targets(m: map<Id, seq<Id>>): set<Id> {
    set a, b | a in m && b in m[a] :: b
  }

  /** One pass over the images of the node just taken from the stack. */
  function Discover(images: seq<Id>, stack: seq<Id>, visited: set<Id>,
                    result: seq<Id>): (r: (seq<Id>, set<Id>, seq<Id>))
    ensures visited <= r.1 && r.1 == visited + (set b | b in images)
    ensures |r.0| - |stack| == |r.2| - |result| && |r.0| >= |stack|
    ensures |r.0| > |stack| ==> visited < r.1
  {
    if images == [] then (stack, visited, result)
    else
      assert images == [images[0]] + images[1..];
      if images[0] in visited then Discover(images[1..], stack, visited, result)
      else Discover(images[1..], stack + [images[0]], visited + {images[0]}, result + [images[0]])
  }

  lemma TargetsShrink(m: map<Id, seq<Id>>, a: Id, visited: set<Id>, visited': set<Id>)
    requires visited' == visited + (set b | b in Image(m, a))
    ensures Targets(m) - visited' <= Targets(m) - visited
    ensures visited < visited' ==> |Targets(m) - visited'| < |Targets(m) - visited|
    ensures |Targets(m) - visited'| <= |Targets(m) - visited|
  {
    var before, after := Targets(m) - visited, Targets(m) - visited';
    assert after <= before;
    if visited < visited' {
      var b :| b in visited' && b !in visited;
      assert b in Image(m, a) && b in before && b !in after;
      SubsetSize(after, before - {b});
    } else {
      SubsetSize(after, before);
    }
  }

  lemma {:induction false} SubsetSize(a: set<Id>, b: set<Id>)
    requires a <= b
    ensures |a| <= |b|
  {
    if a != {} {
      var x :| x in a;
      SubsetSize(a - {x}, b - {x});
    }
  }

  /** The depth-first closure from a given stack, as the loop computes it. */
  function Search(m: map<Id, seq<Id>>, stack: seq<Id>, visited: set<Id>, result: seq<Id>): seq<Id>
    decreases |Targets(m) - visited|, |stack|
  {
    if stack == [] then result
    else
      var cur := stack[|stack| - 1];
      var next := Discover(Image(m, cur), stack[..|stack| - 1], visited, result);
      TargetsShrink(m, cur, visited, next.1);
      Search(m, next.0, next.1, next.2)
  }

  function Closure(m: map<Id, seq<Id>>, start: Id): seq<Id> {
    if start !in m then [] else Search(m, [start], {start}, [])
  }

  /** transitiveClosure with its stack, its seen-set and its inner loop. */
  method TransitiveClosure(m: map<Id, seq<Id>>, start: Id) returns (result: seq<Id>)
    ensures result == Closure(m, start)
  {
    result := [];
    if start !in m {
      return;
    }
    var stack, visited := [start], {start};
    while stack != []
      invariant Search(m, stack, visited, result) == Closure(m, start)
      decreases |Targets(m) - visited|, |stack|
    {
      var cur := stack[|stack| - 1];
      ghost var next := Discover(Image(m, cur), stack[..|stack| - 1], visited, result);
      ghost var visited0 := visited;
      TargetsShrink(m, cur, visited, next.1);
      stack := stack[..|stack| - 1];
      if cur in m {
        for i := 0 to |m[cur]|
          invariant Discover(m[cur][i..], stack, visited, result) == next
        {
          assert m[cur][i..][1..] == m[cur][i + 1..];
          if m[cur][i] !in visited {
            visited := visited + {m[cur][i]};
            result := result + [m[cur][i]];
            stack := stack + [m[cur][i]];
          }
        }
        assert m[cur][|m[cur]|..] == [];
      }
      assert next == (stack, visited, result);
    }
  }

  /** Soundness and bookkeeping of the closure loop. */
  ghost predicate ClosureInv(m: map<Id, seq<Id>>, start: Id, stack: seq<Id>, visited: set<Id>, result: seq<Id>) {
    && visited == {start} + (set x | x in result)
    && start !in result
    && (forall x :: x in visited ==> Reaches(m, start, x))
    && (forall x :: x in stack ==> x in visited)
    && (forall x: Id, y: Id :: x in visited && x !in stack && Related(m, x, y) ==> y in visited)
  }

  lemma {:induction false} DiscoverInv(m: map<Id, seq<Id>>, start: Id, cur: Id, images: seq<Id>, stack: seq<Id>,
                                       visited: set<Id>, result: seq<Id>)
    requires Reaches(m, start, cur)
    requires forall y :: y in images ==> Related(m, cur, y)
    requires visited == {start} + (set x | x in result) && start !in result
    requires forall x :: x in visited ==> Reaches(m, start, x)
    requires forall x :: x in stack ==> x in visited
    ensures var r := Discover(images, stack, visited, result);
      && r.1 == {start} + (set x | x in r.2) && start !in r.2
      && (forall x :: x in r.1 ==> Reaches(m, start, x))
      && (forall x :: x in r.0 ==> x in r.1)
      && (forall x :: x in r.1 && x !in visited ==> x in r.0)
      && (forall x :: x in stack ==> x in r.0)
    decreases |images|
  {
    if images != [] {
      var b := images[0];
      if b in visited {
        DiscoverInv(m, start, cur, images[1..], stack, visited, result);
      } else {
        var k: nat :| Steps(m, start, cur, k);
        StepsAppend(m, start, cur, b, k);
        assert Reaches(m, start, b);
        DiscoverInv(m, start, cur, images[1..], stack + [b], visited + {b}, result + [b]);
      }
    }
  }

  lemma {:induction false} SearchIsClosure(m: map<Id, seq<Id>>, start: Id, stack: seq<Id>, visited: set<Id>,
                                           result: seq<Id>, x: Id)
    requires ClosureInv(m, start, stack, visited, result)
    ensures x in Search(m, stack, visited, result) <==> x != start && Reaches(m, start, x)
    decreases |Targets(m) - visited|, |stack|
  {
    if stack == [] {
      if Reaches(m, start, x) {
        var k: nat :| Steps(m, start, x, k);
        ClosedReach(m, visited, start, x, k);
      }
    } else {
      var cur := stack[|stack| - 1];
      var rest := stack[..|stack| - 1];
      assert stack == rest + [cur];
      var next := Discover(Image(m, cur), rest, visited, result);
      DiscoverInv(m, start, cur, Image(m, cur), rest, visited, result);
      TargetsShrink(m, cur, visited, next.1);
      forall v: Id, y: Id | v in next.1 && v !in next.0 && Related(m, v, y) ensures y in next.1 {
        if v != cur {
          assert v in visited && v !in rest;
        }
      }
      SearchIsClosure(m, start, next.0, next.1, next.2, x);
    }
  }

  lemma {:induction false} ClosedReach(m: map<Id, seq<Id>>, visited: set<Id>, a: Id, b: Id, k: nat)
    requires a in visited && Steps(m, a, b, k)
    requires forall x: Id, y: Id :: x in visited && Related(m, x, y) ==> y in visited
    ensures b in visited
    decreases k
  {
    if k > 0 {
      var c: Id :| Related(m, a, c) && Steps(m, c, b, k - 1);
      ClosedReach(m, visited, c, b, k - 1);
    }
  }

  /** The closure holds everything reachable from the start except the start itself, even
      when the start lies on a cycle. */
  lemma ClosureIsReachable(m: map<Id, seq<Id>>, start: Id, x: Id)
    ensures x in Closure(m, start) <==> x != start && Reaches(m, start, x)
  {
    if start in m {
      assert Steps(m, start, start, 0);
      SearchIsClosure(m, start, [start], {start}, [], x);
    } else {
      assert forall c: Id :: !Related(m, start, c);
      assert forall k: nat :: Steps(m, start, x, k) ==> k == 0;
    }
  }
}

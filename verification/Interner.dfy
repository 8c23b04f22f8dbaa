/** The string interner: dense ids, one per distinct string
    (include/vycor/callgraph/StringInterner.h). */
module Interner {
  import opened EdgeTypes

  ghost predicate InternerOk(strings: seq<string>, ids: map<string, Id>) {
    && (forall s :: s in ids ==> ids[s] < |strings| && strings[ids[s]] == s)
    && (forall i :: 0 <= i < |strings| ==> strings[i] in ids && ids[strings[i]] == i)
  }

  /** intern: the id of `s`, allocated on first use; ids given out keep their meaning. */
  method InternString(strings: seq<string>, ids: map<string, Id>, s: string)
    returns (strings': seq<string>, ids': map<string, Id>, id: Id)
    requires InternerOk(strings, ids)
    ensures InternerOk(strings', ids') && strings' == (if s in strings then strings else strings + [s])
    ensures id < |strings'| && strings'[id] == s && s in ids' && ids'[s] == id
    ensures forall x :: x in ids ==> x in ids' && ids'[x] == ids[x]
  {
    strings', ids' := strings, ids;
    if s in ids {
      id := ids[s];
    } else {
      id := |strings|;
      strings' := strings + [s];
      ids' := ids[s := id];
    }
  }
}

/** The edge vocabulary of the call graph (include/vycor/callgraph/CallGraph.h) and the
    query-time edge filter of the path tools (src/query/GraphTools.cpp). */
module EdgeTypes {

  /** An interned string id (StringInterner::Id); ids are dense table positions. */
  type Id = nat

  datatype Option<+T> = None | Some(value: T)

  datatype EdgeKind =
    | DirectCall | VirtualDispatch | FunctionPointer | ConstructorCall | DestructorCall
    | OperatorCall | TemplateInstantiation | LambdaCall | ThreadEntry | FunctionPointerReturn

  datatype Confidence = Proven | Plausible | Unknown

  datatype ExecutionContext = Synchronous | ThreadSpawn | AsyncTask | PackagedTask | Invoke

  /** A query-time edge in id space: stored edges and synthesized ones look alike. */
  datatype EdgeRef = EdgeRef(caller: Id, callee: Id, callSite: Id, kind: EdgeKind,
                             confidence: Confidence, execContext: ExecutionContext,
                             indirectionDepth: nat)

  function ConfidenceRank(c: Confidence): nat {
    match c
    case Proven => 2
    case Plausible => 1
    case Unknown => 0
  }

  /** Empty `kinds` or `execContexts` allow everything; the include set, when in use,
      overrides the confidence floor. */
  datatype EdgeFilter = EdgeFilter(kinds: set<EdgeKind>, includeConfidences: set<Confidence>,
                                   useIncludeSet: bool, minConf: Confidence,
                                   execContexts: set<ExecutionContext>)
  {
    predicate AllowsFields(kind: EdgeKind, conf: Confidence, ctx: ExecutionContext) {
      if kinds != {} && kind !in kinds then false
      else if execContexts != {} && ctx !in execContexts then false
      else if useIncludeSet then conf in includeConfidences
      else ConfidenceRank(conf) >= ConfidenceRank(minConf)
    }

    predicate AllowsRef(e: EdgeRef) {
      AllowsFields(e.kind, e.confidence, e.execContext)
    }
  }

  /** The filter of a call with no filter arguments. */
  const ALLOW_ALL := EdgeFilter({}, {}, false, Unknown, {})

  /** What the path tools see of a call graph: the two id-level edge queries and the stored
      in-degree, tabulated. An id without an entry has no edges. */
  datatype CallView = CallView(callers: map<Id, seq<EdgeRef>>, callees: map<Id, seq<EdgeRef>>,
                               degrees: map<Id, nat>)
  {
    function CallersOf(n: Id): seq<EdgeRef> {
      if n in callers then callers[n] else []
    }

    function CalleesOf(n: Id): seq<EdgeRef> {
      if n in callees then callees[n] else []
    }

    function InDegree(n: Id): nat {
      if n in degrees then degrees[n] else 0
    }
  }
}

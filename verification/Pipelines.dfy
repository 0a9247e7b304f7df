/** Pipelines and meta-pipelines, and the shape that every compiled plan must have.

    The shape is given independently of the compiler: `SpineOf` reads off what one base pipeline
    runs, `MetasOf` lists the meta-pipelines of a plan in creation order. */
module Pipelines {
  import opened Options
  import opened Plans

  datatype Operator = StreamOp(id: OpId) | JoinOp(id: OpId, kind: JoinKind)

  datatype Source =
    | FromLeaf(id: OpId)
    | FromBreaker(id: OpId)
    | FromJoin(id: OpId, kind: JoinKind)
    | FromCte(id: OpId)
    | FromCache(id: OpId)
    | FromDistinct(id: OpId)
    | FromCollector(id: OpId)

  datatype Sink =
    | ToBreaker(id: OpId)
    | ToBuild(id: OpId)
    | ToCte(id: OpId)
    | ToLeftDelim(id: OpId)
    | ToRightDelim(id: OpId, join: OpId)
    | ToCollector(id: OpId)

  /** A pointer to a pipeline: the meta-pipeline that owns it and its place in that owner's list,
      which only ever grows. */
  datatype PipeRef = PipeRef(meta: nat, index: nat)

  /** `operators` is kept as the compiler fills it, from the sink down, until Ready reverses it. */
  datatype Pipe = Pipe(
    source: Option<Source>, operators: seq<Operator>, sink: Option<Sink>, deps: seq<PipeRef>, ready: bool)

  /** `inner` holds the dependencies between the pipelines of this one meta-pipeline. */
  datatype Meta = Meta(sink: Option<Sink>, pipes: seq<Pipe>, children: seq<nat>, inner: map<nat, seq<nat>>)

  const EMPTY_PIPE := Pipe(None, [], None, [], false)

  function FreshMeta(sink: Option<Sink>): Meta {
    Meta(sink, [EMPTY_PIPE.(sink := sink)], [], map[])
  }

  // -------------------------------------------------------------------------------------------
  // How a plan falls apart into meta-pipelines
  // -------------------------------------------------------------------------------------------

  /** A subplan that gets a meta-pipeline of its own, and the sink it feeds. */
  datatype Branch = Branch(sink: Sink, plan: Plan)

  function BranchOf(p: Plan): (b: Option<Branch>)
    ensures b.Some? ==> b.value.plan < p
  {
    match p
    case Breaker(id, c) => Some(Branch(ToBreaker(id), c))
    case Join(id, _, _, r) => Some(Branch(ToBuild(id), r))
    case Cte(id, t, _) => Some(Branch(ToCte(id), t))
    case LeftDelim(id, c, _) => Some(Branch(ToLeftDelim(id), c))
    case RightDelim(id, c, j, _, _) => Some(Branch(ToRightDelim(id, j), c))
    case _ => None
  }

  /** The subplan that the pipeline of `p` continues with; none if its source is reached. */
  function RestOf(p: Plan): (r: Option<Plan>)
    ensures r.Some? ==> r.value < p
  {
    match p
    case Streaming(_, c) => Some(c)
    case Join(_, _, l, _) => Some(l)
    case Cte(_, _, b) => Some(b)
    case LeftDelim(_, _, j) => Some(j)
    case RightDelim(_, _, _, _, l) => Some(l)
    case _ => None
  }

  function OperatorsOf(p: Plan): seq<Operator> {
    match p
    case Streaming(id, _) => [StreamOp(id)]
    case Join(id, k, _, _) => [JoinOp(id, k)]
    case RightDelim(_, _, j, t, _) => [JoinOp(j, Hash(t))]
    case _ => []
  }

  /** Where the scans of a plan find their data: the delim join in force with its
      meta-pipeline, the meta-pipeline of every CTE in scope, and the left delim join whose cached
      input this pipeline may scan. */
  datatype Scope = Scope(delim: Option<(OpId, nat)>, ctes: map<OpId, nat>, cache: Option<OpId>)

  const NO_SCOPE := Scope(None, map[], None)

  predicate ScopeFits(p: Plan, env: Scope) {
    Scoped(p, env.delim.Some?, env.ctes.Keys, env.cache)
  }

  /** The scope of the branch of a plan. */
  function BranchScope(env: Scope): Scope {
    env.(cache := None)
  }

  /** The scope of the rest of `p`, when the branch of `p` is meta-pipeline `n`. */
  function RestScope(p: Plan, n: nat, env: Scope): (r: Scope)
    ensures r.ctes.Keys == env.ctes.Keys + if p.Cte? then {p.id} else {}
  {
    match p
    case Cte(id, _, _) => env.(ctes := env.ctes[id := n])
    case LeftDelim(id, _, _) => env.(delim := Some((id, n)), cache := Some(id))
    case RightDelim(id, _, _, _, _) => env.(delim := Some((id, n)))
    case _ => env
  }

  lemma PartsFit(p: Plan, n: nat, env: Scope)
    requires ScopeFits(p, env)
    ensures BranchOf(p).Some? ==> ScopeFits(BranchOf(p).value.plan, BranchScope(env))
    ensures RestOf(p).Some? ==> ScopeFits(RestOf(p).value, RestScope(p, n, env))
  {
  }

  /** How many meta-pipelines the branch of `p` accounts for. */
  function BranchSize(p: Plan): nat
    decreases p, 0
  {
    if BranchOf(p).Some? then 1 + NumMetas(BranchOf(p).value.plan) else 0
  }

  /** How many meta-pipelines building `p` creates. */
  function NumMetas(p: Plan): nat
    decreases p, 1
  {
    BranchSize(p) + if RestOf(p).Some? then NumMetas(RestOf(p).value) else 0
  }

  /** The source of the pipeline that ends in `p`. */
  function SourceOf(p: Plan, env: Scope): Source
    requires ScopeFits(p, env) && RestOf(p).None?
  {
    match p
    case Scan(id) => FromLeaf(id)
    case Breaker(id, _) => FromBreaker(id)
    case CteScan(_, cte) => FromCte(cte)
    case DelimScan(_) => FromDistinct(env.delim.value.0)
    case CacheScan(_, delim) => FromCache(delim)
  }

  /** The meta-pipelines that a scan waits for. */
  function ScanDeps(p: Plan, env: Scope): seq<nat>
    requires ScopeFits(p, env)
  {
    match p
    case CteScan(_, cte) => [env.ctes[cte]]
    case DelimScan(_) => [env.delim.value.1]
    case _ => []
  }

  datatype Spine = Spine(ops: seq<Operator>, source: Source, deps: seq<nat>, children: seq<nat>)

  /** What the pipeline that runs `p` looks like from `p` down to its source, when the next
      meta-pipeline gets number `n`: its operators from the top, its source, the meta-pipelines it
      waits for and those it creates. */
  function SpineOf(p: Plan, n: nat, env: Scope): Spine
    requires ScopeFits(p, env)
  {
    PartsFit(p, n, env);
    Topped(p, n, if RestOf(p).None? then Spine([], SourceOf(p, env), ScanDeps(p, env), [])
                 else SpineOf(RestOf(p).value, n + BranchSize(p), RestScope(p, n, env)))
  }

  /** What `p` adds on top of the spine `s` of its rest. */
  function Topped(p: Plan, n: nat, s: Spine): Spine {
    var own := if BranchOf(p).Some? then [n] else [];
    Spine(OperatorsOf(p) + s.ops, s.source, own + s.deps, own + s.children)
  }

  lemma SpineStep(p: Plan, n: nat, env: Scope)
    requires ScopeFits(p, env)
    ensures RestOf(p).None? ==> SpineOf(p, n, env) == Topped(p, n, Spine([], SourceOf(p, env), ScanDeps(p, env), []))
    ensures RestOf(p).Some? ==> ScopeFits(RestOf(p).value, RestScope(p, n, env))
    ensures RestOf(p).Some? ==>
              SpineOf(p, n, env) == Topped(p, n, SpineOf(RestOf(p).value, n + BranchSize(p), RestScope(p, n, env)))
  {
    PartsFit(p, n, env);
  }

  function BaseRefs(metas: seq<nat>): seq<PipeRef> {
    seq(|metas|, i requires 0 <= i < |metas| => PipeRef(metas[i], 0))
  }

  /** The pipeline that restarts at the join `ops[i]`: it runs what lies above the join. */
  function ChildPipe(ops: seq<Operator>, i: nat, sink: Option<Sink>): Pipe
    requires i < |ops| && ops[i].JoinOp?
  {
    Pipe(Some(FromJoin(ops[i].id, ops[i].kind)), ops[..i], sink, [], false)
  }

  predicate Restarts(o: Operator) {
    o.JoinOp? && o.kind.IsSource()
  }

  /** The restarting pipelines of the joins at `ops[from..]`, deepest join first. */
  function ChildPipes(ops: seq<Operator>, from: nat, sink: Option<Sink>): seq<Pipe>
    requires from <= |ops|
    decreases |ops| - from
  {
    if from == |ops| then []
    else ChildPipes(ops, from + 1, sink) + if Restarts(ops[from]) then [ChildPipe(ops, from, sink)] else []
  }

  /** Pipeline k waits, inside its meta-pipeline, for every pipeline before it: the restarting
      ones first, then the base. */
  function InnerDeps(k: nat): seq<nat>
    requires 1 <= k
  {
    seq(k - 1, i => i + 1) + [0]
  }

  function InnerMap(count: nat): map<nat, seq<nat>>
    requires 1 <= count
  {
    map k | 1 <= k < count :: InnerDeps(k)
  }

  /** A meta-pipeline that held only its base, after its base was taken down the spine `s`. */
  function Grown(m: Meta, s: Spine): Meta
    requires |m.pipes| == 1
  {
    var base := m.pipes[0];
    var ops := base.operators + s.ops;
    var pipes := [base.(source := Some(s.source), operators := ops, deps := base.deps + BaseRefs(s.deps))]
                 + ChildPipes(ops, |base.operators|, base.sink);
    m.(pipes := pipes, children := m.children + s.children, inner := InnerMap(|pipes|))
  }

  function Shape(sink: Sink, s: Spine): Meta {
    Grown(FreshMeta(Some(sink)), s)
  }

  /** The meta-pipelines of the branch `b`, the first of them numbered `n`. */
  function BranchMetas(b: Branch, n: nat, env: Scope): (ms: seq<Meta>)
    requires ScopeFits(b.plan, env)
    ensures |ms| == 1 + NumMetas(b.plan)
    decreases b.plan, 2
  {
    [Shape(b.sink, SpineOf(b.plan, n + 1, env))] + MetasOf(b.plan, n + 1, env)
  }

  /** The meta-pipelines that building `p` appends, the first of them numbered `n`. */
  function MetasOf(p: Plan, n: nat, env: Scope): (ms: seq<Meta>)
    requires ScopeFits(p, env)
    ensures |ms| == NumMetas(p)
    decreases p, 1
  {
    PartsFit(p, n, env);
    BranchMetasOf(p, n, env)
    + (if RestOf(p).Some? then MetasOf(RestOf(p).value, n + BranchSize(p), RestScope(p, n, env)) else [])
  }

  function BranchMetasOf(p: Plan, n: nat, env: Scope): (ms: seq<Meta>)
    requires ScopeFits(p, env)
    ensures |ms| == BranchSize(p)
    decreases p, 0
  {
    PartsFit(p, n, env);
    if BranchOf(p).Some? then BranchMetas(BranchOf(p).value, n, BranchScope(env)) else []
  }

  lemma MetasStep(p: Plan, n: nat, env: Scope)
    requires ScopeFits(p, env)
    ensures RestOf(p).None? ==> MetasOf(p, n, env) == BranchMetasOf(p, n, env)
    ensures RestOf(p).Some? ==> ScopeFits(RestOf(p).value, RestScope(p, n, env))
    ensures RestOf(p).Some? ==>
              MetasOf(p, n, env) ==
              BranchMetasOf(p, n, env) + MetasOf(RestOf(p).value, n + BranchSize(p), RestScope(p, n, env))
  {
    PartsFit(p, n, env);
  }

  /** The whole arena: the root, whose only pipeline is never run, the result collector's
      meta-pipeline, and those of the plan. */
  function Compiled(collector: OpId, p: Plan): (ms: seq<Meta>)
    requires WellFormed(p)
    ensures |ms| == 2 + NumMetas(p)
  {
    assert NO_SCOPE.ctes.Keys == {};
    [Grown(FreshMeta(None), Spine([], FromCollector(collector), [1], [1]))]
    + BranchMetas(Branch(ToCollector(collector), p), 1, NO_SCOPE)
  }
}

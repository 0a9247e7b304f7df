/** Direct recursive evaluation of a plan, as a sequence of batches, over any kind of relation
    and any meaning of the operators. */
module Evaluation {
  import opened Options
  import opened Plans

  /** What the operators compute. A sink is given the log of all batches it received. */
  datatype Semantics<!R> = Semantics(
    scan: OpId -> R,
    stream: (OpId, R) -> R,
    breaker: (OpId, seq<R>) -> R,
    // one batch through a join, given what was sunk into its build side
    probe: (OpId, JoinKind, seq<R>, R) -> R,
    // what a join outputs once it has been probed with all batches
    rescan: (OpId, JoinKind, seq<R>, seq<R>) -> R,
    // the duplicate-eliminated input of a delim join
    distinct: (OpId, seq<R>) -> R,
    // what a column-data scan hands on of a relation that was stored
    copied: R -> R,
    // whether sinking a batch into a hash join reserves a hash table: its first key has rows
    hasTable: (OpId, R) -> bool,
    // whether a nested-loop join, probed with a batch, reads late columns of its build side: its keys
    // are late, or there are matches
    needs: (OpId, seq<R>, R) -> bool,
    // whether it frees arrays behind them
    spends: (OpId, seq<R>, R) -> bool,
    // whether an operator that holds these batches lets another one through without throwing
    passes: (OpId, seq<R>, R) -> bool,
    // whether a sink that holds these batches takes another one without throwing
    takes: (OpId, seq<R>, R) -> bool)

  /** What the scans of a subplan see: the input of the delim join in force, the batches of each
      CTE, and the input of the left delim join whose cached copy may be scanned. */
  datatype Env<R> = Env(delim: Option<(OpId, seq<R>)>, ctes: map<OpId, seq<R>>, cache: Option<(OpId, seq<R>)>) {

    predicate Fits(p: Plan) {
      Scoped(p, delim.Some?, ctes.Keys, if cache.Some? then Some(cache.value.0) else None)
    }

    /** Every table that a scan can see holds a batch. */
    predicate Filled() {
      && (delim.Some? ==> delim.value.1 != [])
      && (cache.Some? ==> cache.value.1 != [])
      && forall c :: c in ctes ==> ctes[c] != []
    }

    function WithoutCache(): Env<R> {
      this.(cache := None)
    }
  }

  function Last<R>(log: seq<R>): R
    requires log != []
  {
    log[|log| - 1]
  }

  function MapStream<R>(sem: Semantics<R>, id: OpId, bs: seq<R>): seq<R> {
    seq(|bs|, i requires 0 <= i < |bs| => sem.stream(id, bs[i]))
  }

  function MapProbe<R>(sem: Semantics<R>, id: OpId, kind: JoinKind, build: seq<R>, bs: seq<R>): seq<R> {
    seq(|bs|, i requires 0 <= i < |bs| => sem.probe(id, kind, build, bs[i]))
  }

  /** Joins that have more to output once they have been probed with everything. */
  predicate HasMore(kind: JoinKind) {
    match kind
    case Hash(t) => t in {Right, RightSemi, RightAnti}
    case NestedLoop(t) => t in {Right, Outer, RightSemi, RightAnti}
  }

  /** A join's output: each probe batch in turn, then, for a right join, the rescan. */
  function JoinBatches<R>(sem: Semantics<R>, id: OpId, kind: JoinKind, build: seq<R>, bs: seq<R>): seq<R> {
    MapProbe(sem, id, kind, build, bs) + if HasMore(kind) then [sem.rescan(id, kind, build, bs)] else []
  }

  /** The batches that `p` outputs. CTE tables and cached inputs are overwritten by every batch, so
      their scans see the last one. */
  function Eval<R>(sem: Semantics<R>, p: Plan, env: Env<R>): (bs: seq<R>)
    requires env.Fits(p) && env.Filled()
    ensures bs != []
  {
    match p
    case Scan(id) => [sem.scan(id)]
    case Streaming(id, c) => MapStream(sem, id, Eval(sem, c, env))
    case Breaker(id, c) => [sem.breaker(id, Eval(sem, c, env.WithoutCache()))]
    case Join(id, k, l, r) => JoinBatches(sem, id, k, Eval(sem, r, env.WithoutCache()), Eval(sem, l, env))
    case Cte(id, t, b) =>
      var table := Eval(sem, t, env.WithoutCache());
      var inner := env.(ctes := env.ctes[id := table]);
      assert inner.ctes.Keys == env.ctes.Keys + {id};
      Eval(sem, b, inner)
    case CteScan(_, cte) => [sem.copied(env.ctes[cte][|env.ctes[cte]| - 1])]
    case DelimScan(_) => [sem.distinct(env.delim.value.0, env.delim.value.1)]
    case CacheScan(_, _) => [sem.copied(env.cache.value.1[|env.cache.value.1| - 1])]
    case LeftDelim(id, c, j) =>
      var input := Eval(sem, c, env.WithoutCache());
      Eval(sem, j, env.(delim := Some((id, input)), cache := Some((id, input))))
    case RightDelim(id, c, j, t, l) =>
      var input := Eval(sem, c, env.WithoutCache());
      JoinBatches(sem, j, Hash(t), input, Eval(sem, l, env.(delim := Some((id, input)))))
  }

  function EmptyEnv<R>(): (e: Env<R>)
    ensures e.ctes.Keys == {} && e.Filled()
  {
    Env(None, map[], None)
  }

  /** The batches of a whole query. */
  function EvalQuery<R>(sem: Semantics<R>, p: Plan): seq<R>
    requires WellFormed(p)
  {
    Eval(sem, p, EmptyEnv())
  }

  // -------------------------------------------------------------------------------------------
  // When a plan runs to the end
  // -------------------------------------------------------------------------------------------

  /** The sink takes every batch, after those before it. */
  predicate TakesEach<R>(sem: Semantics<R>, id: OpId, bs: seq<R>) {
    forall k | 0 <= k < |bs| :: sem.takes(id, bs[..k], bs[k])
  }

  /** A join gets all batches through: its type is implemented, it does not throw by itself, and it uses
      nothing that it freed on an earlier batch, neither its hash table nor the row ids of its build side. */
  predicate JoinRuns<R>(sem: Semantics<R>, id: OpId, kind: JoinKind, build: seq<R>, bs: seq<R>)
    requires build != []
  {
    && (forall i | 0 <= i < |bs| :: sem.passes(id, build, bs[i]))
    && match kind
       case Hash(t) =>
         && t in {Inner, Semi, Mark, Right, RightSemi, RightAnti}
         && (t in {Inner, Semi, Mark} && |bs| > 1 ==> !sem.hasTable(id, build[|build| - 1]))
       case NestedLoop(t) =>
         t == Inner && forall i, j | 0 <= i < j < |bs| :: !(sem.spends(id, build, bs[i]) && sem.needs(id, build, bs[j]))
  }

  /** Every operator of `p` gets the batches of direct recursive evaluation through, and every sink takes
      them. CTE tables take all. */
  predicate Runs<R>(sem: Semantics<R>, p: Plan, env: Env<R>)
    requires env.Fits(p) && env.Filled()
  {
    match p
    case Scan(_) => true
    case Streaming(id, c) =>
      Runs(sem, c, env) && forall i | 0 <= i < |Eval(sem, c, env)| :: sem.passes(id, [], Eval(sem, c, env)[i])
    case Breaker(id, c) => Runs(sem, c, env.WithoutCache()) && TakesEach(sem, id, Eval(sem, c, env.WithoutCache()))
    case Join(id, k, l, r) =>
      var build := Eval(sem, r, env.WithoutCache());
      && Runs(sem, r, env.WithoutCache()) && TakesEach(sem, id, build)
      && Runs(sem, l, env) && JoinRuns(sem, id, k, build, Eval(sem, l, env))
    case Cte(id, t, b) =>
      var inner := env.(ctes := env.ctes[id := Eval(sem, t, env.WithoutCache())]);
      assert inner.ctes.Keys == env.ctes.Keys + {id};
      Runs(sem, t, env.WithoutCache()) && Runs(sem, b, inner)
    case CteScan(_, _) => true
    case DelimScan(_) => true
    case CacheScan(_, _) => true
    case LeftDelim(id, c, j) =>
      var input := Eval(sem, c, env.WithoutCache());
      && Runs(sem, c, env.WithoutCache()) && TakesEach(sem, id, input)
      && Runs(sem, j, env.(delim := Some((id, input)), cache := Some((id, input))))
    case RightDelim(id, c, j, t, l) =>
      var input := Eval(sem, c, env.WithoutCache());
      var inner := env.(delim := Some((id, input)));
      && Runs(sem, c, env.WithoutCache()) && TakesEach(sem, j, input) && TakesEach(sem, id, input)
      && Runs(sem, l, inner) && JoinRuns(sem, j, Hash(t), input, Eval(sem, l, inner))
  }

  /** What running a query gives: the batches of direct recursive evaluation, unless something throws
      on them. */
  function RunOf<R>(sem: Semantics<R>, p: Plan): Option<seq<R>>
    requires WellFormed(p)
  {
    if Runs(sem, p, EmptyEnv()) then Some(EvalQuery(sem, p)) else None
  }
}

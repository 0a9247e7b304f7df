/** What each operator must finally hold, read off the plan: which meta-pipeline writes it, which
    pipeline probes it, and the batches it ends up with. */
module QueryFacts {
  import opened Options
  import opened Plans
  import opened Pipelines
  import opened Evaluation
  import opened Execution
  import opened BlockExecution

  /** The meta-pipeline that fills an operator, the meta-pipeline whose spine it is an operator
      of and its place there, and what is sunk into it. */
  datatype Fact<R> = Fact(writer: nat, owner: nat, place: nat, log: seq<R>)

  type Facts<R> = map<OpId, Fact<R>>

  // -------------------------------------------------------------------------------------------
  // Evaluation along branch and rest
  // -------------------------------------------------------------------------------------------

  /** What the scans of the rest of `p` see, when its branch evaluates to `log`. */
  function RestEnv<R>(p: Plan, env: Env<R>, log: seq<R>): (r: Env<R>)
    ensures r.ctes.Keys == env.ctes.Keys + if p.Cte? then {p.id} else {}
  {
    match p
    case Cte(id, _, _) => env.(ctes := env.ctes[id := log])
    case LeftDelim(id, _, _) => env.(delim := Some((id, log)), cache := Some((id, log)))
    case RightDelim(id, _, _, _, _) => env.(delim := Some((id, log)))
    case _ => env
  }

  lemma EnvsFit<R>(p: Plan, env: Env<R>, log: seq<R>)
    requires env.Fits(p) && env.Filled() && (BranchOf(p).Some? ==> log != [])
    ensures BranchOf(p).Some? ==> env.WithoutCache().Fits(BranchOf(p).value.plan) && env.WithoutCache().Filled()
    ensures RestOf(p).Some? ==> RestEnv(p, env, log).Fits(RestOf(p).value) && RestEnv(p, env, log).Filled()
  {
  }

  /** What the branch of `p` evaluates to. */
  function BranchLog<R>(sem: Semantics<R>, p: Plan, env: Env<R>): (log: seq<R>)
    requires env.Fits(p) && env.Filled()
    ensures BranchOf(p).Some? ==> log != []
  {
    EnvsFit(p, env, [sem.scan(0)]);
    if BranchOf(p).Some? then Eval(sem, BranchOf(p).value.plan, env.WithoutCache()) else []
  }

  /** The operator of `p`, if it has one, on the batches of its rest. */
  function Apply<R>(sem: Semantics<R>, p: Plan, log: seq<R>, bs: seq<R>): seq<R> {
    if OperatorsOf(p) == [] then bs
    else
      match OperatorsOf(p)[0]
      case StreamOp(id) => MapStream(sem, id, bs)
      case JoinOp(id, k) => JoinBatches(sem, id, k, log, bs)
  }

  lemma EvalStep<R>(sem: Semantics<R>, p: Plan, env: Env<R>)
    requires env.Fits(p) && env.Filled() && RestOf(p).Some?
    ensures var inner := RestEnv(p, env, BranchLog(sem, p, env));
            && inner.Fits(RestOf(p).value) && inner.Filled()
            && Eval(sem, p, env) == Apply(sem, p, BranchLog(sem, p, env), Eval(sem, RestOf(p).value, inner))
  {
    EnvsFit(p, env, BranchLog(sem, p, env));
  }

  // -------------------------------------------------------------------------------------------
  // When a plan runs to the end
  // -------------------------------------------------------------------------------------------

  predicate HasRescan(ops: seq<Operator>) {
    exists o <- ops :: Rescans(o)
  }

  /** How many joins restart the pipeline of `p`. */
  function RestartCount(p: Plan): nat {
    (if HasRescan(OperatorsOf(p)) then 1 else 0) + if RestOf(p).Some? then RestartCount(RestOf(p).value) else 0
  }

  /** Every operator gets its batches through, and every sink takes those that come out, when they
      are those of direct recursive evaluation. */
  predicate Completes<R>(sem: Semantics<R>, p: Plan, env: Env<R>)
    requires env.Fits(p) && env.Filled()
    decreases p
  {
    var log := BranchLog(sem, p, env);
    EnvsFit(p, env, log);
    && (BranchOf(p).Some? ==>
          Completes(sem, BranchOf(p).value.plan, env.WithoutCache()) && TakesAll(sem, BranchOf(p).value.sink, log))
    && (RestOf(p).Some? ==>
          && Completes(sem, RestOf(p).value, RestEnv(p, env, log))
          && OperatorCompletes(sem, p, log, Eval(sem, RestOf(p).value, RestEnv(p, env, log))))
  }

  predicate OperatorCompletes<R>(sem: Semantics<R>, p: Plan, log: seq<R>, bs: seq<R>) {
    forall o <- OperatorsOf(p) :: GetsAll(sem, o, if o.JoinOp? then log else [], bs)
  }

  lemma CompletesStep<R>(sem: Semantics<R>, p: Plan, env: Env<R>)
    requires env.Fits(p) && env.Filled()
    ensures BranchOf(p).Some? ==> env.WithoutCache().Fits(BranchOf(p).value.plan) && env.WithoutCache().Filled()
    ensures var log := BranchLog(sem, p, env);
            && (RestOf(p).Some? ==> RestEnv(p, env, log).Fits(RestOf(p).value) && RestEnv(p, env, log).Filled())
            && (Completes(sem, p, env) <==>
                  && (BranchOf(p).Some? ==>
                        && Completes(sem, BranchOf(p).value.plan, env.WithoutCache())
                        && TakesAll(sem, BranchOf(p).value.sink, Eval(sem, BranchOf(p).value.plan, env.WithoutCache())))
                  && (RestOf(p).Some? ==>
                        && Completes(sem, RestOf(p).value, RestEnv(p, env, log))
                        && OperatorCompletes(sem, p, log, Eval(sem, RestOf(p).value, RestEnv(p, env, log)))))
  {
    hide Eval, Env.Fits, Env.Filled, TakesAll, OperatorCompletes;
    EnvsFit(p, env, BranchLog(sem, p, env));
  }

  lemma JoinRunsIff<R>(sem: Semantics<R>, id: OpId, k: JoinKind, log: seq<R>, bs: seq<R>)
    requires log != []
    ensures GetsAll(sem, JoinOp(id, k), log, bs) <==> JoinRuns(sem, id, k, log, bs) || bs == []
  {
    if GetsAll(sem, JoinOp(id, k), log, bs) && bs != [] {
      assert Passes(sem, JoinOp(id, k), log, bs[0]);
      forall i, j | 0 <= i < j < |bs| && k.FreedByProbe()
        ensures !(Spends(sem, JoinOp(id, k), log, bs[i]) && Needs(sem, JoinOp(id, k), log, bs[j]))
      {
        assert bs[..j][i] == bs[i];
      }
      if |bs| > 1 {
        assert Needs(sem, JoinOp(id, k), log, bs[1]) || !k.Hash?;
      }
    }
  }

  /** The two ways to say that a plan runs agree. */
  lemma {:induction false} CompletesIsRuns<R>(sem: Semantics<R>, p: Plan, env: Env<R>)
    requires env.Fits(p) && env.Filled()
    ensures Completes(sem, p, env) <==> Runs(sem, p, env)
  {
    hide GetsAll, JoinRuns;
    var log := BranchLog(sem, p, env);
    EnvsFit(p, env, log);
    if BranchOf(p).Some? {
      CompletesIsRuns(sem, BranchOf(p).value.plan, env.WithoutCache());
    }
    if RestOf(p).Some? {
      CompletesIsRuns(sem, RestOf(p).value, RestEnv(p, env, log));
      OperatorRuns(sem, p, log, Eval(sem, RestOf(p).value, RestEnv(p, env, log)));
    }
  }

  lemma RunOfIff<R>(sem: Semantics<R>, p: Plan)
    requires WellFormed(p)
    ensures RunOf(sem, p) == if Completes(sem, p, EmptyEnv()) then Some(EvalQuery(sem, p)) else None
  {
    hide Eval, Completes, Runs;
    CompletesIsRuns(sem, p, EmptyEnv());
  }

  lemma OperatorRuns<R>(sem: Semantics<R>, p: Plan, log: seq<R>, bs: seq<R>)
    requires bs != [] && (BranchOf(p).Some? ==> log != [])
    ensures OperatorCompletes(sem, p, log, bs) <==>
            match p
            case Streaming(id, _) => (forall i | 0 <= i < |bs| :: sem.passes(id, [], bs[i]))
            case Join(id, k, _, _) => JoinRuns(sem, id, k, log, bs)
            case RightDelim(_, _, j, t, _) => JoinRuns(sem, j, Hash(t), log, bs)
            case _ => true
  {
    match p
    case Streaming(id, _) =>
      assert OperatorsOf(p) == [StreamOp(id)];
      assert GetsAll(sem, StreamOp(id), [], bs) <==> forall i :: 0 <= i < |bs| ==> Passes(sem, StreamOp(id), [], bs[i]);
    case Join(id, k, _, _) =>
      assert OperatorsOf(p) == [JoinOp(id, k)];
      JoinRunsIff(sem, id, k, log, bs);
    case RightDelim(_, _, j, t, _) =>
      assert OperatorsOf(p) == [JoinOp(j, Hash(t))];
      JoinRunsIff(sem, j, Hash(t), log, bs);
    case _ =>
  }

  // -------------------------------------------------------------------------------------------
  // Plans that run on all data
  // -------------------------------------------------------------------------------------------

  /** No join that can free what it holds when it is probed, that is, no hash INNER, SEMI or MARK join
      and no nested-loop INNER join, stands above a join that restarts the same pipeline. */
  predicate NeverReprobed(p: Plan) {
    && (BranchOf(p).Some? ==> NeverReprobed(BranchOf(p).value.plan))
    && (RestOf(p).Some? ==>
          NeverReprobed(RestOf(p).value) &&
          ((exists o <- OperatorsOf(p) :: o.JoinOp? && o.kind.FreedByProbe()) ==> RestartCount(RestOf(p).value) == 0))
  }

  /** Every join is of a type that is implemented. */
  predicate AllSupported(p: Plan) {
    && (BranchOf(p).Some? ==> AllSupported(BranchOf(p).value.plan))
    && (RestOf(p).Some? ==>
          AllSupported(RestOf(p).value) && forall o <- OperatorsOf(p) :: o.JoinOp? ==> o.kind.Supported())
  }

  /** Operators and sinks throw on nothing by themselves. */
  ghost predicate Willing<R(!new)>(sem: Semantics<R>) {
    (forall id, log, r :: sem.passes(id, log, r)) && (forall id, log, r :: sem.takes(id, log, r))
  }

  /** All build sides have rows and late columns, and all batches have matches. */
  ghost predicate AllSpending<R(!new)>(sem: Semantics<R>) {
    (forall id, r :: sem.hasTable(id, r)) && (forall id, log, r :: sem.needs(id, log, r) && sem.spends(id, log, r))
  }

  /** Exactly one batch for every restart besides the first. */
  lemma {:induction false} BatchCount<R>(sem: Semantics<R>, p: Plan, env: Env<R>)
    requires env.Fits(p) && env.Filled()
    ensures |Eval(sem, p, env)| == 1 + RestartCount(p)
  {
    hide Env.Fits, Env.Filled, Eval;
    if RestOf(p).None? {
      SourceIsOneBatch(sem, p, env);
    } else {
      var log := BranchLog(sem, p, env);
      EvalStep(sem, p, env);
      BatchCount(sem, RestOf(p).value, RestEnv(p, env, log));
      OwnRescan(p);
    }
  }

  lemma SourceIsOneBatch<R>(sem: Semantics<R>, p: Plan, env: Env<R>)
    requires env.Fits(p) && env.Filled() && RestOf(p).None?
    ensures |Eval(sem, p, env)| == 1
  {
  }

  lemma OwnRescan(p: Plan)
    ensures HasRescan(OperatorsOf(p)) <==> OperatorsOf(p) != [] && Rescans(OperatorsOf(p)[0])
  {
    assert forall o <- OperatorsOf(p) :: o == OperatorsOf(p)[0];
  }

  lemma {:induction false} WillingCompletes<R(!new)>(sem: Semantics<R>, p: Plan, env: Env<R>)
    requires env.Fits(p) && env.Filled() && Willing(sem) && NeverReprobed(p) && AllSupported(p)
    ensures Completes(sem, p, env)
  {
    hide Eval, Env.Fits, Env.Filled, Completes, RestartCount;
    CompletesStep(sem, p, env);
    if BranchOf(p).Some? {
      WillingCompletes(sem, BranchOf(p).value.plan, env.WithoutCache());
      WillingTakes(sem, BranchOf(p).value.sink, Eval(sem, BranchOf(p).value.plan, env.WithoutCache()));
    }
    if RestOf(p).Some? {
      var log, rest := BranchLog(sem, p, env), RestOf(p).value;
      WillingCompletes(sem, rest, RestEnv(p, env, log));
      BatchCount(sem, rest, RestEnv(p, env, log));
      forall o | o in OperatorsOf(p)
        ensures GetsAll(sem, o, if o.JoinOp? then log else [], Eval(sem, rest, RestEnv(p, env, log)))
      {
        WillingGets(sem, o, if o.JoinOp? then log else [], Eval(sem, rest, RestEnv(p, env, log)));
      }
    }
  }

  lemma WillingTakes<R(!new)>(sem: Semantics<R>, sink: Sink, bs: seq<R>)
    requires Willing(sem)
    ensures TakesAll(sem, sink, bs)
  {
  }

  lemma WillingGets<R(!new)>(sem: Semantics<R>, o: Operator, log: seq<R>, bs: seq<R>)
    requires Willing(sem) && (o.JoinOp? ==> o.kind.Supported())
    requires o.JoinOp? && o.kind.FreedByProbe() ==> |bs| == 1
    ensures GetsAll(sem, o, log, bs)
  {
    hide Needs;
    forall k | 0 <= k < |bs|
      ensures Passes(sem, o, log, bs[k]) && !Spent(sem, o, log, bs[..k])
    {
    }
  }

  lemma {:induction false} ReprobedFails<R(!new)>(sem: Semantics<R>, p: Plan, env: Env<R>)
    requires env.Fits(p) && env.Filled() && AllSpending(sem) && Completes(sem, p, env)
    ensures NeverReprobed(p) && AllSupported(p)
  {
    hide Eval, Env.Fits, Env.Filled, Completes, RestartCount, TakesAll;
    CompletesStep(sem, p, env);
    if BranchOf(p).Some? {
      ReprobedFails(sem, BranchOf(p).value.plan, env.WithoutCache());
    }
    if RestOf(p).Some? {
      var log, rest := BranchLog(sem, p, env), RestOf(p).value;
      ReprobedFails(sem, rest, RestEnv(p, env, log));
      BatchCount(sem, rest, RestEnv(p, env, log));
      forall o | o in OperatorsOf(p) && o.JoinOp?
        ensures o.kind.Supported() && (o.kind.FreedByProbe() ==> RestartCount(rest) == 0)
      {
        assert log != [];
        SecondFails(sem, o, log, Eval(sem, rest, RestEnv(p, env, log)));
      }
    }
  }

  lemma SecondFails<R(!new)>(sem: Semantics<R>, o: Operator, log: seq<R>, bs: seq<R>)
    requires AllSpending(sem) && o.JoinOp? && log != [] && bs != [] && GetsAll(sem, o, log, bs)
    ensures o.kind.Supported() && (o.kind.FreedByProbe() ==> |bs| == 1)
  {
    assert Passes(sem, o, log, bs[0]);
    if |bs| > 1 && o.kind.FreedByProbe() {
      assert Spends(sem, o, log, bs[..1][0]) && Needs(sem, o, log, bs[1]);
    }
  }

  /** A meaning of the operators in which joins free all they can, and nothing throws by itself. */
  function Constant(): (sem: Semantics<int>)
    ensures AllSpending(sem) && Willing(sem)
  {
    Semantics(_ => 0, (_, _) => 0, (_, _) => 0, (_, _, _, _) => 0, (_, _, _, _) => 0, (_, _) => 0, _ => 0, (_, _) => true,
              (_, _, _) => true, (_, _, _) => true, (_, _, _) => true, (_, _, _) => true)
  }

  /** All joins of the plan are of the given kinds. */
  predicate JoinsAmong(p: Plan, kinds: set<JoinKind>) {
    match p
    case Scan(_) => true
    case Streaming(_, c) => JoinsAmong(c, kinds)
    case Breaker(_, c) => JoinsAmong(c, kinds)
    case Join(_, k, l, r) => k in kinds && JoinsAmong(l, kinds) && JoinsAmong(r, kinds)
    case Cte(_, t, b) => JoinsAmong(t, kinds) && JoinsAmong(b, kinds)
    case CteScan(_, _) => true
    case DelimScan(_) => true
    case CacheScan(_, _) => true
    case LeftDelim(_, c, j) => JoinsAmong(c, kinds) && JoinsAmong(j, kinds)
    case RightDelim(_, c, _, t, l) => Hash(t) in kinds && JoinsAmong(c, kinds) && JoinsAmong(l, kinds)
  }

  /** The pipeline that ends with `p` holds a join of one of the kinds. */
  predicate SpineHas(p: Plan, kinds: set<JoinKind>) {
    match p
    case Streaming(_, c) => SpineHas(c, kinds)
    case Join(_, k, l, _) => k in kinds || SpineHas(l, kinds)
    case Cte(_, _, b) => SpineHas(b, kinds)
    case LeftDelim(_, _, j) => SpineHas(j, kinds)
    case RightDelim(_, _, _, t, l) => Hash(t) in kinds || SpineHas(l, kinds)
    case _ => false
  }

  /** No join of the upper kinds stands above one of the lower kinds in the same pipeline. */
  predicate NoneAbove(p: Plan, upper: set<JoinKind>, lower: set<JoinKind>) {
    match p
    case Scan(_) => true
    case Streaming(_, c) => NoneAbove(c, upper, lower)
    case Breaker(_, c) => NoneAbove(c, upper, lower)
    case Join(_, k, l, r) =>
      NoneAbove(l, upper, lower) && NoneAbove(r, upper, lower) && !(k in upper && SpineHas(l, lower))
    case Cte(_, t, b) => NoneAbove(t, upper, lower) && NoneAbove(b, upper, lower)
    case CteScan(_, _) => true
    case DelimScan(_) => true
    case CacheScan(_, _) => true
    case LeftDelim(_, c, j) => NoneAbove(c, upper, lower) && NoneAbove(j, upper, lower)
    case RightDelim(_, c, _, t, l) =>
      NoneAbove(c, upper, lower) && NoneAbove(l, upper, lower) && !(Hash(t) in upper && SpineHas(l, lower))
  }

  /** The implemented join types, one by one. */
  lemma {:induction false} SupportedIff(p: Plan)
    ensures AllSupported(p) <==>
            JoinsAmong(p, {Hash(Inner), Hash(Semi), Hash(Mark), Hash(Right), Hash(RightSemi), Hash(RightAnti), NestedLoop(Inner)})
  {
    if BranchOf(p).Some? {
      SupportedIff(BranchOf(p).value.plan);
    }
    if RestOf(p).Some? {
      SupportedIff(RestOf(p).value);
    }
    if p.Join? {
      assert OperatorsOf(p) == [JoinOp(p.id, p.kind)];
    } else if p.RightDelim? {
      assert OperatorsOf(p) == [JoinOp(p.joinId, Hash(p.joinType))];
    }
  }

  lemma {:induction false} RestartsIff(p: Plan)
    requires AllSupported(p)
    ensures RestartCount(p) > 0 <==> SpineHas(p, {Hash(Right), Hash(RightSemi), Hash(RightAnti)})
  {
    OwnRescan(p);
    if RestOf(p).Some? {
      RestartsIff(RestOf(p).value);
    }
    if p.Join? {
      assert OperatorsOf(p)[0] == JoinOp(p.id, p.kind);
    } else if p.RightDelim? {
      assert OperatorsOf(p)[0] == JoinOp(p.joinId, Hash(p.joinType));
    }
  }

  /** The joins that free what they hold, and those that restart their pipeline, one by one. */
  lemma {:induction false} NeverReprobedIff(p: Plan)
    requires AllSupported(p)
    ensures NeverReprobed(p) <==>
            NoneAbove(p, {Hash(Inner), Hash(Semi), Hash(Mark), NestedLoop(Inner)}, {Hash(Right), Hash(RightSemi), Hash(RightAnti)})
  {
    hide RestartCount, SpineHas;
    if BranchOf(p).Some? {
      NeverReprobedIff(BranchOf(p).value.plan);
    }
    if RestOf(p).Some? {
      NeverReprobedIff(RestOf(p).value);
      RestartsIff(RestOf(p).value);
    }
    if p.Join? {
      assert OperatorsOf(p) == [JoinOp(p.id, p.kind)];
    } else if p.RightDelim? {
      assert OperatorsOf(p) == [JoinOp(p.joinId, Hash(p.joinType))];
    }
  }

  lemma {:induction false} RunsSupported<R>(sem: Semantics<R>, p: Plan, env: Env<R>)
    requires env.Fits(p) && env.Filled() && Completes(sem, p, env)
    ensures AllSupported(p)
  {
    hide Eval, Env.Fits, Env.Filled, Completes, TakesAll;
    CompletesStep(sem, p, env);
    if BranchOf(p).Some? {
      RunsSupported(sem, BranchOf(p).value.plan, env.WithoutCache());
    }
    if RestOf(p).Some? {
      var log, rest := BranchLog(sem, p, env), RestOf(p).value;
      RunsSupported(sem, rest, RestEnv(p, env, log));
      forall o | o in OperatorsOf(p) && o.JoinOp?
        ensures o.kind.Supported()
      {
        assert Passes(sem, o, log, Eval(sem, rest, RestEnv(p, env, log))[0]);
      }
    }
  }

  /** When no join is probed again that frees what it holds, and nothing throws by itself, a query runs
      if and only if its joins are of these types. */
  lemma ImplementedIff<R(!new)>(sem: Semantics<R>, p: Plan)
    requires WellFormed(p) && NeverReprobed(p) && Willing(sem)
    ensures RunOf(sem, p) == Some(EvalQuery(sem, p)) <==>
            JoinsAmong(p, {Hash(Inner), Hash(Semi), Hash(Mark), Hash(Right), Hash(RightSemi), Hash(RightAnti), NestedLoop(Inner)})
  {
    hide Eval, Completes, Runs, Willing, AllSupported, NeverReprobed;
    CompletesIsRuns(sem, p, EmptyEnv());
    SupportedIff(p);
    if AllSupported(p) {
      WillingCompletes(sem, p, EmptyEnv());
    }
    if Completes(sem, p, EmptyEnv()) {
      RunsSupported(sem, p, EmptyEnv());
    }
  }

  /** A query runs whatever its operators compute, as long as they do not throw by themselves, if and
      only if its join types are implemented and no join that frees what it holds stands above one that
      restarts the same pipeline. */
  lemma RunsOnAllDataIff(p: Plan)
    requires WellFormed(p)
    ensures (forall sem: Semantics<int> :: Willing(sem) ==> RunOf(sem, p).Some?) <==>
            && JoinsAmong(p, {Hash(Inner), Hash(Semi), Hash(Mark), Hash(Right), Hash(RightSemi), Hash(RightAnti), NestedLoop(Inner)})
            && NoneAbove(p, {Hash(Inner), Hash(Semi), Hash(Mark), NestedLoop(Inner)}, {Hash(Right), Hash(RightSemi), Hash(RightAnti)})
  {
    hide Eval, Completes, Runs, Willing, AllSpending, AllSupported, NeverReprobed, JoinsAmong, NoneAbove;
    SupportedIff(p);
    if AllSupported(p) {
      NeverReprobedIff(p);
    }
    if NeverReprobed(p) && AllSupported(p) {
      forall sem: Semantics<int> | Willing(sem)
        ensures RunOf(sem, p).Some?
      {
        CompletesIsRuns(sem, p, EmptyEnv());
        WillingCompletes(sem, p, EmptyEnv());
      }
    } else {
      CompletesIsRuns(Constant(), p, EmptyEnv());
      if Completes(Constant(), p, EmptyEnv()) {
        ReprobedFails(Constant(), p, EmptyEnv());
      }
      assert RunOf(Constant(), p).None?;
    }
  }

  // -------------------------------------------------------------------------------------------
  // The facts of a plan
  // -------------------------------------------------------------------------------------------

  function SinkFacts<R>(s: Sink, fact: Fact<R>): (fs: Facts<R>)
    ensures fs.Keys == SinkIds(s)
  {
    match s
    case ToRightDelim(id, j) => map[id := fact, j := fact]
    case _ => map[s.id := fact]
  }

  /** The facts of a branch that is meta-pipeline `n`, for an operator at `place` in `owner`. */
  function BranchFacts<R>(sem: Semantics<R>, b: Branch, owner: nat, place: nat, n: nat, env: Env<R>): Facts<R>
    requires env.Fits(b.plan) && env.Filled()
    decreases b.plan, 1
  {
    SinkFacts(b.sink, Fact(n, owner, place, Eval(sem, b.plan, env))) + FactsOf(sem, b.plan, n, 0, n + 1, env)
  }

  /** The facts of `p`, whose operators start at `place` in the spine of meta-pipeline `owner`. */
  function FactsOf<R>(sem: Semantics<R>, p: Plan, owner: nat, place: nat, n: nat, env: Env<R>): Facts<R>
    requires env.Fits(p) && env.Filled()
    decreases p, 0
  {
    var log := BranchLog(sem, p, env);
    EnvsFit(p, env, log);
    (if BranchOf(p).Some? then BranchFacts(sem, BranchOf(p).value, owner, place, n, env.WithoutCache()) else map[])
    + (if RestOf(p).Some? then
         FactsOf(sem, RestOf(p).value, owner, place + |OperatorsOf(p)|, n + BranchSize(p), RestEnv(p, env, log))
       else map[])
  }

  /** The two halves of the facts of `p`. */
  function OwnFacts<R>(sem: Semantics<R>, p: Plan, owner: nat, place: nat, n: nat, env: Env<R>): Facts<R>
    requires env.Fits(p) && env.Filled()
  {
    EnvsFit(p, env, BranchLog(sem, p, env));
    if BranchOf(p).Some? then BranchFacts(sem, BranchOf(p).value, owner, place, n, env.WithoutCache()) else map[]
  }

  function RestFacts<R>(sem: Semantics<R>, p: Plan, owner: nat, place: nat, n: nat, env: Env<R>): Facts<R>
    requires env.Fits(p) && env.Filled()
  {
    var log := BranchLog(sem, p, env);
    EnvsFit(p, env, log);
    if RestOf(p).Some? then
      FactsOf(sem, RestOf(p).value, owner, place + |OperatorsOf(p)|, n + BranchSize(p), RestEnv(p, env, log))
    else map[]
  }

  lemma FactsStep<R>(sem: Semantics<R>, p: Plan, owner: nat, place: nat, n: nat, env: Env<R>)
    requires env.Fits(p) && env.Filled()
    ensures FactsOf(sem, p, owner, place, n, env) ==
            OwnFacts(sem, p, owner, place, n, env) + RestFacts(sem, p, owner, place, n, env)
  {
    hide Eval, Env.Fits, Env.Filled, BranchFacts;
  }

  ghost predicate Within<R>(a: Facts<R>, b: Facts<R>) {
    forall id :: id in a ==> id in b && b[id] == a[id]
  }

  lemma MergeWithin<R>(a: Facts<R>, b: Facts<R>, f: Facts<R>)
    requires a.Keys !! b.Keys && Within(a + b, f)
    ensures Within(a, f) && Within(b, f)
  {
    forall id | id in a
      ensures id in f && f[id] == a[id]
    {
      assert id in a.Keys && id in a + b;
    }
    forall id | id in b
      ensures id in f && f[id] == b[id]
    {
      assert id in a + b;
    }
  }

  function SinkAndPlanIds(b: Branch): set<OpId> {
    SinkIds(b.sink) + Ids(b.plan)
  }

  lemma {:induction false} FactKeys<R>(sem: Semantics<R>, p: Plan, owner: nat, place: nat, n: nat, env: Env<R>)
    requires env.Fits(p) && env.Filled()
    ensures FactsOf(sem, p, owner, place, n, env).Keys <= Ids(p)
    decreases p, 1
  {
    hide Eval, Env.Fits, Env.Filled, FactsOf, OwnFacts, Ids, BranchOf, RestOf;
    FactsStep(sem, p, owner, place, n, env);
    HalfKeys(sem, p, owner, place, n, env);
    IdsOfParts(p);
  }

  lemma {:induction false} HalfKeys<R>(sem: Semantics<R>, p: Plan, owner: nat, place: nat, n: nat, env: Env<R>)
    requires env.Fits(p) && env.Filled()
    ensures OwnFacts(sem, p, owner, place, n, env).Keys <= if BranchOf(p).Some? then SinkAndPlanIds(BranchOf(p).value) else {}
    ensures RestFacts(sem, p, owner, place, n, env).Keys <= if RestOf(p).Some? then Ids(RestOf(p).value) else {}
    decreases p, 0
  {
    hide Eval, Env.Fits, Env.Filled, FactsOf, Ids;
    var log := BranchLog(sem, p, env);
    EnvsFit(p, env, log);
    if BranchOf(p).Some? {
      FactKeys(sem, BranchOf(p).value.plan, n, 0, n + 1, env.WithoutCache());
    }
    if RestOf(p).Some? {
      FactKeys(sem, RestOf(p).value, owner, place + |OperatorsOf(p)|, n + BranchSize(p), RestEnv(p, env, log));
    }
  }

  lemma IdsOfParts(p: Plan)
    ensures BranchOf(p).Some? ==> SinkAndPlanIds(BranchOf(p).value) <= Ids(p)
    ensures RestOf(p).Some? ==> Ids(RestOf(p).value) <= Ids(p)
  {
  }

  lemma PartsApart(p: Plan)
    requires UniqueIds(p)
    ensures BranchOf(p).Some? ==>
              var b := BranchOf(p).value;
              UniqueIds(b.plan) && SinkIds(b.sink) !! Ids(b.plan) && (b.sink.ToRightDelim? ==> b.sink.id != b.sink.join)
    ensures RestOf(p).Some? ==> UniqueIds(RestOf(p).value)
    ensures BranchOf(p).Some? && RestOf(p).Some? ==> SinkAndPlanIds(BranchOf(p).value) !! Ids(RestOf(p).value)
  {
  }

  /** Distinct operators have separate facts, so every part's facts are facts of the whole. */
  lemma HalvesWithin<R>(sem: Semantics<R>, p: Plan, owner: nat, place: nat, n: nat, env: Env<R>, f: Facts<R>)
    requires env.Fits(p) && env.Filled() && UniqueIds(p) && Within(FactsOf(sem, p, owner, place, n, env), f)
    ensures Within(OwnFacts(sem, p, owner, place, n, env), f) && Within(RestFacts(sem, p, owner, place, n, env), f)
  {
    hide Eval, Env.Fits, Env.Filled, UniqueIds, FactsOf, OwnFacts, RestFacts, Within, Ids, SinkAndPlanIds;
    FactsStep(sem, p, owner, place, n, env);
    HalfKeys(sem, p, owner, place, n, env);
    PartsApart(p);
    MergeWithin(OwnFacts(sem, p, owner, place, n, env), RestFacts(sem, p, owner, place, n, env), f);
  }

  ghost predicate BranchWithin<R>(sem: Semantics<R>, b: Branch, owner: nat, place: nat, n: nat, env: Env<R>, f: Facts<R>)
    requires env.Fits(b.plan) && env.Filled()
  {
    && (forall id <- SinkIds(b.sink) :: id in f && f[id] == Fact(n, owner, place, Eval(sem, b.plan, env)))
    && Within(FactsOf(sem, b.plan, n, 0, n + 1, env), f)
  }

  lemma BranchIsWithin<R>(sem: Semantics<R>, b: Branch, owner: nat, place: nat, n: nat, env: Env<R>, f: Facts<R>)
    requires env.Fits(b.plan) && env.Filled() && SinkIds(b.sink) !! Ids(b.plan)
    requires Within(BranchFacts(sem, b, owner, place, n, env), f)
    ensures BranchWithin(sem, b, owner, place, n, env, f)
  {
    hide Eval, Env.Fits, Env.Filled, FactsOf, Ids;
    var fact := Fact(n, owner, place, Eval(sem, b.plan, env));
    FactKeys(sem, b.plan, n, 0, n + 1, env);
    MergeWithin(SinkFacts(b.sink, fact), FactsOf(sem, b.plan, n, 0, n + 1, env), f);
    forall id | id in SinkIds(b.sink)
      ensures id in f && f[id] == fact
    {
      assert id in SinkFacts(b.sink, fact) && SinkFacts(b.sink, fact)[id] == fact;
    }
  }

  lemma FactsWithin<R>(sem: Semantics<R>, p: Plan, owner: nat, place: nat, n: nat, env: Env<R>, f: Facts<R>)
    requires env.Fits(p) && env.Filled() && UniqueIds(p) && Within(FactsOf(sem, p, owner, place, n, env), f)
    ensures BranchOf(p).Some? ==>
              && env.WithoutCache().Fits(BranchOf(p).value.plan) && env.WithoutCache().Filled()
              && BranchWithin(sem, BranchOf(p).value, owner, place, n, env.WithoutCache(), f)
    ensures RestOf(p).Some? ==>
              var inner := RestEnv(p, env, BranchLog(sem, p, env));
              && inner.Fits(RestOf(p).value) && inner.Filled()
              && Within(FactsOf(sem, RestOf(p).value, owner, place + |OperatorsOf(p)|, n + BranchSize(p), inner), f)
  {
    hide Eval, Env.Fits, Env.Filled, UniqueIds, FactsOf, BranchFacts, Within, Ids, BranchWithin;
    EnvsFit(p, env, BranchLog(sem, p, env));
    HalvesWithin(sem, p, owner, place, n, env, f);
    PartsApart(p);
    if BranchOf(p).Some? {
      BranchIsWithin(sem, BranchOf(p).value, owner, place, n, env.WithoutCache(), f);
    }
  }
}

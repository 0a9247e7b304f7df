/** Evaluation of a plan to one relation, and when the batches of a query come down to it. */
module Denotation {
  import opened Options
  import opened Plans
  import opened Pipelines
  import opened Evaluation
  import opened BlockExecution
  import opened QueryFacts

  /** What the scans of a subplan see, one relation each. */
  datatype View<R> = View(delim: Option<(OpId, R)>, ctes: map<OpId, R>, cache: Option<(OpId, R)>) {

    predicate Fits(p: Plan) {
      Scoped(p, delim.Some?, ctes.Keys, if cache.Some? then Some(cache.value.0) else None)
    }

    function WithoutCache(): View<R> {
      this.(cache := None)
    }
  }

  /** A join of the relations `build` and `probe`: right semi and right anti joins give rows of
      their build side, all others what comes out while probing. */
  function Joined<R>(sem: Semantics<R>, id: OpId, kind: JoinKind, build: R, probe: R): R {
    if kind.BuildSideOnly() then sem.rescan(id, kind, [build], [probe]) else sem.probe(id, kind, [build], probe)
  }

  /** The relation that `p` stands for. */
  function Denote<R>(sem: Semantics<R>, p: Plan, view: View<R>): R
    requires view.Fits(p)
  {
    match p
    case Scan(id) => sem.scan(id)
    case Streaming(id, c) => sem.stream(id, Denote(sem, c, view))
    case Breaker(id, c) => sem.breaker(id, [Denote(sem, c, view.WithoutCache())])
    case Join(id, k, l, r) => Joined(sem, id, k, Denote(sem, r, view.WithoutCache()), Denote(sem, l, view))
    case Cte(id, t, b) =>
      var inner := view.(ctes := view.ctes[id := Denote(sem, t, view.WithoutCache())]);
      assert inner.ctes.Keys == view.ctes.Keys + {id};
      Denote(sem, b, inner)
    case CteScan(_, cte) => sem.copied(view.ctes[cte])
    case DelimScan(_) => sem.distinct(view.delim.value.0, [view.delim.value.1])
    case CacheScan(_, _) => sem.copied(view.cache.value.1)
    case LeftDelim(id, c, j) =>
      var input := Denote(sem, c, view.WithoutCache());
      Denote(sem, j, view.(delim := Some((id, input)), cache := Some((id, input))))
    case RightDelim(id, c, j, t, l) =>
      var input := Denote(sem, c, view.WithoutCache());
      Joined(sem, j, Hash(t), input, Denote(sem, l, view.(delim := Some((id, input)))))
  }

  /** A join that hands over one batch, or, if `right` is set, a right semi or right anti join. */
  predicate Simple(k: JoinKind, right: bool) {
    k.Rescans() ==> right && k.BuildSideOnly()
  }

  predicate SimpleJoins(p: Plan, right: bool) {
    match p
    case Scan(_) => true
    case Streaming(_, c) => SimpleJoins(c, right)
    case Breaker(_, c) => SimpleJoins(c, right)
    case Join(_, k, l, r) => Simple(k, right) && SimpleJoins(l, right) && SimpleJoins(r, right)
    case Cte(_, t, b) => SimpleJoins(t, right) && SimpleJoins(b, right)
    case CteScan(_, _) => true
    case DelimScan(_) => true
    case CacheScan(_, _) => true
    case LeftDelim(_, c, j) => SimpleJoins(c, right) && SimpleJoins(j, right)
    case RightDelim(_, c, _, t, l) => Simple(Hash(t), right) && SimpleJoins(c, right) && SimpleJoins(l, right)
  }

  predicate AllEmpty<R>(none: R -> bool, bs: seq<R>) {
    forall i :: 0 <= i < |bs| ==> none(bs[i])
  }

  /** `bs` is `r` behind nothing but empty batches. */
  ghost predicate Settled<R>(none: R -> bool, bs: seq<R>, r: R) {
    bs != [] && Last(bs) == r && AllEmpty(none, bs[..|bs| - 1])
  }

  /** Sinks ignore empty batches that come before another one, and operators map nothing to
      nothing; if `right` is set, a right semi or right anti join outputs nothing while it is probed. */
  ghost predicate Lawful<R(!new)>(sem: Semantics<R>, none: R -> bool, right: bool) {
    && (forall id, e :: none(e) ==> none(sem.stream(id, e)))
    && (forall id, k: JoinKind, log, r :: none(r) || (right && k.BuildSideOnly()) ==> none(sem.probe(id, k, log, r)))
    && (forall id, bs, r {:trigger sem.breaker(id, bs), Settled(none, bs, r)} ::
          Settled(none, bs, r) ==> sem.breaker(id, bs) == sem.breaker(id, [r]))
    && (forall id, bs, r {:trigger sem.distinct(id, bs), Settled(none, bs, r)} ::
          Settled(none, bs, r) ==> sem.distinct(id, bs) == sem.distinct(id, [r]))
    && (forall id, k, log, b, r {:trigger sem.probe(id, k, log, r), Settled(none, log, b)} ::
          Settled(none, log, b) ==> sem.probe(id, k, log, r) == sem.probe(id, k, [b], r))
    && (forall id, k, log, b, bs, r {:trigger sem.rescan(id, k, log, bs), Settled(none, log, b), Settled(none, bs, r)} ::
          Settled(none, log, b) && Settled(none, bs, r) ==> sem.rescan(id, k, log, bs) == sem.rescan(id, k, [b], [r]))
  }

  /** The batches in scope settle to the relations in view. */
  ghost predicate Sees<R(!new)>(none: R -> bool, env: Env<R>, view: View<R>) {
    && env.delim.Some? == view.delim.Some? && env.ctes.Keys == view.ctes.Keys && env.cache.Some? == view.cache.Some?
    && (env.delim.Some? ==> env.delim.value.0 == view.delim.value.0 && Settled(none, env.delim.value.1, view.delim.value.1))
    && (env.cache.Some? ==> env.cache.value.0 == view.cache.value.0 && Settled(none, env.cache.value.1, view.cache.value.1))
    && forall c :: c in env.ctes ==> Settled(none, env.ctes[c], view.ctes[c])
  }

  lemma SettledFilled<R(!new)>(none: R -> bool, env: Env<R>, view: View<R>)
    requires Sees(none, env, view)
    ensures env.Filled() && forall p :: env.Fits(p) == view.Fits(p)
  {
  }

  lemma StreamSettles<R(!new)>(sem: Semantics<R>, none: R -> bool, right: bool, id: OpId, bs: seq<R>, r: R)
    requires Lawful(sem, none, right) && Settled(none, bs, r)
    ensures Settled(none, MapStream(sem, id, bs), sem.stream(id, r))
  {
  }

  lemma JoinSettles<R(!new)>(sem: Semantics<R>, none: R -> bool, right: bool, id: OpId, kind: JoinKind,
                              build: seq<R>, b: R, bs: seq<R>, r: R)
    requires Lawful(sem, none, right) && Settled(none, build, b) && Settled(none, bs, r)
    requires Simple(kind, right)
    ensures Settled(none, JoinBatches(sem, id, kind, build, bs), Joined(sem, id, kind, b, r))
  {
    var probed := MapProbe(sem, id, kind, build, bs);
    if kind.Rescans() {
      assert AllEmpty(none, probed);
    } else {
      assert probed + [] == probed;
      var front := bs[..|bs| - 1];
      assert forall i :: 0 <= i < |front| ==> front[i] == bs[i] && none(front[i]);
    }
  }

  lemma BreakerSettles<R(!new)>(sem: Semantics<R>, none: R -> bool, right: bool, id: OpId, bs: seq<R>, r: R)
    requires Lawful(sem, none, right) && Settled(none, bs, r)
    ensures sem.breaker(id, bs) == sem.breaker(id, [r])
  {
  }

  lemma LeafSettles<R(!new)>(sem: Semantics<R>, none: R -> bool, right: bool, p: Plan, env: Env<R>, view: View<R>)
    requires Lawful(sem, none, right) && Sees(none, env, view) && env.Fits(p) && view.Fits(p) && env.Filled()
    requires p.Scan? || p.CteScan? || p.DelimScan? || p.CacheScan?
    ensures Eval(sem, p, env) == [Denote(sem, p, view)]
  {
  }

  lemma OneSettles<R>(none: R -> bool, r: R)
    ensures Settled(none, [r], r)
  {
  }

  lemma SeesCte<R(!new)>(none: R -> bool, env: Env<R>, view: View<R>, id: OpId, log: seq<R>, r: R)
    requires Sees(none, env, view) && Settled(none, log, r)
    ensures Sees(none, env.(ctes := env.ctes[id := log]), view.(ctes := view.ctes[id := r]))
    ensures view.ctes[id := r].Keys == view.ctes.Keys + {id}
  {
  }

  lemma SeesDelim<R(!new)>(none: R -> bool, env: Env<R>, view: View<R>, id: OpId, log: seq<R>, r: R)
    requires Sees(none, env, view) && Settled(none, log, r)
    ensures Sees(none, env.(delim := Some((id, log))), view.(delim := Some((id, r))))
    ensures Sees(none, env.(delim := Some((id, log)), cache := Some((id, log))),
                 view.(delim := Some((id, r)), cache := Some((id, r))))
  {
  }

  lemma SeesBranch<R(!new)>(none: R -> bool, env: Env<R>, view: View<R>)
    requires Sees(none, env, view)
    ensures Sees(none, env.WithoutCache(), view.WithoutCache())
  {
  }

  /** A query without full right joins, run batch by batch, ends in the relation it stands for. */
  lemma {:induction false} EvalSettles<R(!new)>(sem: Semantics<R>, none: R -> bool, right: bool, p: Plan,
                                                env: Env<R>, view: View<R>)
    requires Lawful(sem, none, right) && SimpleJoins(p, right) && Sees(none, env, view) && view.Fits(p)
    ensures env.Fits(p) && env.Filled() && Settled(none, Eval(sem, p, env), Denote(sem, p, view))
  {
    hide Lawful, Settled, Joined, JoinBatches, MapStream, Sees;
    SettledFilled(none, env, view);
    SeesBranch(none, env, view);
    match p
    case Streaming(id, c) =>
      EvalSettles(sem, none, right, c, env, view);
      StreamSettles(sem, none, right, id, Eval(sem, c, env), Denote(sem, c, view));
    case Join(id, k, l, r) =>
      EvalSettles(sem, none, right, r, env.WithoutCache(), view.WithoutCache());
      EvalSettles(sem, none, right, l, env, view);
      JoinSettles(sem, none, right, id, k, Eval(sem, r, env.WithoutCache()), Denote(sem, r, view.WithoutCache()),
                  Eval(sem, l, env), Denote(sem, l, view));
    case Cte(id, t, b) =>
      EvalSettles(sem, none, right, t, env.WithoutCache(), view.WithoutCache());
      SeesCte(none, env, view, id, Eval(sem, t, env.WithoutCache()), Denote(sem, t, view.WithoutCache()));
      EvalSettles(sem, none, right, b, env.(ctes := env.ctes[id := Eval(sem, t, env.WithoutCache())]),
                  view.(ctes := view.ctes[id := Denote(sem, t, view.WithoutCache())]));
    case LeftDelim(id, c, j) =>
      EvalSettles(sem, none, right, c, env.WithoutCache(), view.WithoutCache());
      var input, value := Eval(sem, c, env.WithoutCache()), Denote(sem, c, view.WithoutCache());
      SeesDelim(none, env, view, id, input, value);
      EvalSettles(sem, none, right, j, env.(delim := Some((id, input)), cache := Some((id, input))),
                  view.(delim := Some((id, value)), cache := Some((id, value))));
    case RightDelim(id, c, j, t, l) =>
      EvalSettles(sem, none, right, c, env.WithoutCache(), view.WithoutCache());
      var input, value := Eval(sem, c, env.WithoutCache()), Denote(sem, c, view.WithoutCache());
      SeesDelim(none, env, view, id, input, value);
      EvalSettles(sem, none, right, l, env.(delim := Some((id, input))), view.(delim := Some((id, value))));
      JoinSettles(sem, none, right, j, Hash(t), input, value, Eval(sem, l, env.(delim := Some((id, input)))),
                  Denote(sem, l, view.(delim := Some((id, value)))));
    case Breaker(id, c) =>
      EvalSettles(sem, none, right, c, env.WithoutCache(), view.WithoutCache());
      BreakerSettles(sem, none, right, id, Eval(sem, c, env.WithoutCache()), Denote(sem, c, view.WithoutCache()));
      OneSettles(none, Denote(sem, p, view));
    case _ =>
      LeafSettles(sem, none, right, p, env, view);
      OneSettles(none, Denote(sem, p, view));
  }

  function NothingSeen<R>(): (view: View<R>)
    ensures view.ctes.Keys == {}
  {
    View(None, map[], None)
  }

  /** The relation that a whole query stands for. */
  function DenoteQuery<R>(sem: Semantics<R>, p: Plan): R
    requires WellFormed(p)
  {
    Denote(sem, p, NothingSeen())
  }

  lemma FirstIsEmpty<R>(none: R -> bool, bs: seq<R>, r: R)
    requires Settled(none, bs, r)
    ensures bs == [r] || none(bs[0])
  {
    if |bs| > 1 {
      assert bs[..|bs| - 1][0] == bs[0];
    }
  }

  lemma SettledFacts<R>(none: R -> bool, bs: seq<R>, r: R)
    requires Settled(none, bs, r)
    ensures bs != [] && Last(bs) == r && AllEmpty(none, bs[..|bs| - 1])
  {
  }

  /** With right semi and right anti joins, a query that runs leaves empty batches and then the
      relation that it stands for; it runs if no join is probed again that can free what it holds. */
  lemma QuerySettles<R(!new)>(sem: Semantics<R>, none: R -> bool, p: Plan)
    requires WellFormed(p) && Lawful(sem, none, true) && SimpleJoins(p, true)
    ensures NeverReprobed(p) && AllSupported(p) && Willing(sem) ==> RunOf(sem, p).Some?
    ensures RunOf(sem, p).Some? ==> Settled(none, RunOf(sem, p).value, DenoteQuery(sem, p))
  {
    hide Completes, Runs, Willing;
    EvalSettles(sem, none, true, p, EmptyEnv(), NothingSeen());
    RunOfIff(sem, p);
    if NeverReprobed(p) && AllSupported(p) && Willing(sem) {
      WillingCompletes(sem, p, EmptyEnv());
    }
  }

  lemma {:induction false} SimpleNeverReprobed(p: Plan)
    requires SimpleJoins(p, false)
    ensures NeverReprobed(p) && RestartCount(p) == 0
  {
    if BranchOf(p).Some? {
      SimpleNeverReprobed(BranchOf(p).value.plan);
    }
    if RestOf(p).Some? {
      SimpleNeverReprobed(RestOf(p).value);
    }
  }

  /** Whatever the operators compute: without joins that rescan, a query that runs leaves one batch,
      the relation it stands for, and it runs unless one of its operators throws by itself. */
  lemma QueryIsOneRelation<R(!new)>(sem: Semantics<R>, p: Plan)
    requires WellFormed(p) && SimpleJoins(p, false)
    ensures EvalQuery(sem, p) == [DenoteQuery(sem, p)]
    ensures RunOf(sem, p).Some? ==> RunOf(sem, p) == Some([DenoteQuery(sem, p)])
    ensures AllSupported(p) && Willing(sem) ==> RunOf(sem, p).Some?
  {
    hide Eval, Denote, Completes, Runs, Willing;
    var none: R -> bool := _ => false;
    forall bs: seq<R>, r | Settled(none, bs, r)
      ensures bs == [r]
    {
      FirstIsEmpty(none, bs, r);
    }
    EvalSettles(sem, none, false, p, EmptyEnv(), NothingSeen());
    SimpleNeverReprobed(p);
    RunOfIff(sem, p);
    if AllSupported(p) && Willing(sem) {
      WillingCompletes(sem, p, EmptyEnv());
    }
  }

  // -------------------------------------------------------------------------------------------
  // What a scan of a table sees, which only has the last batch
  // -------------------------------------------------------------------------------------------

  /** A semi join above a right semi join. */
  function SemiAboveRightSemi(): (p: Plan)
    ensures WellFormed(p) && !NeverReprobed(p) && AllSupported(p) && SimpleJoins(p, true) && RestartCount(p) == 1
  {
    var inner := Join(2, Hash(RightSemi), Scan(3), Scan(4));
    assert OperatorsOf(inner) == [JoinOp(2, Hash(RightSemi))] && Rescans(OperatorsOf(inner)[0]);
    var p := Join(1, Hash(Semi), inner, Scan(5));
    assert OperatorsOf(p) == [JoinOp(1, Hash(Semi))] && OperatorsOf(p)[0].kind.FreedByProbe();
    p
  }

  /** A nested-loop join, over a filtered build side, above a full right join. */
  function LoopAboveRight(): (p: Plan)
    ensures WellFormed(p) && !NeverReprobed(p) && AllSupported(p) && RestartCount(p) == 1
  {
    var inner := Join(2, Hash(Right), Scan(3), Scan(4));
    assert OperatorsOf(inner) == [JoinOp(2, Hash(Right))] && Rescans(OperatorsOf(inner)[0]);
    var p := Join(1, NestedLoop(Inner), inner, Streaming(6, Scan(5)));
    assert OperatorsOf(p) == [JoinOp(1, NestedLoop(Inner))] && OperatorsOf(p)[0].kind.FreedByProbe();
    p
  }

  /** A query that probes such a join twice fails once the first batch freed what the second needs. */
  lemma ReprobedExample<R(!new)>(sem: Semantics<R>, p: Plan)
    requires AllSpending(sem) && (p == SemiAboveRightSemi() || p == LoopAboveRight())
    ensures |EvalQuery(sem, p)| == 2 && RunOf(sem, p).None?
  {
    hide Eval, Completes, Runs, SemiAboveRightSemi, LoopAboveRight, Scoped, RestartCount, NeverReprobed, AllSupported, AllSpending;
    if Completes(sem, p, EmptyEnv()) {
      ReprobedFails(sem, p, EmptyEnv());
    }
    RunOfIff(sem, p);
    BatchCount(sem, p, EmptyEnv());
  }

  /** The topmost join that restarts the pipeline of `p`, if any does, gives build-side rows only. */
  predicate EndsWhole(p: Plan) {
    if OperatorsOf(p) != [] && Rescans(OperatorsOf(p)[0]) then OperatorsOf(p)[0].kind.BuildSideOnly()
    else RestOf(p).Some? ==> EndsWhole(RestOf(p).value)
  }

  /** Then every batch before the last is empty: a scan of the table sees all of it. */
  lemma {:induction false} EarlierBatchesEmpty<R(!new)>(sem: Semantics<R>, none: R -> bool, p: Plan, env: Env<R>)
    requires Lawful(sem, none, true) && env.Fits(p) && env.Filled() && EndsWhole(p)
    ensures var bs := Eval(sem, p, env); AllEmpty(none, bs[..|bs| - 1])
  {
    hide Env.Fits, Env.Filled, Eval, Lawful;
    if RestOf(p).None? {
      SourceIsOneBatch(sem, p, env);
    } else {
      var log, rest := BranchLog(sem, p, env), RestOf(p).value;
      EvalStep(sem, p, env);
      var bs := Eval(sem, rest, RestEnv(p, env, log));
      if !(OperatorsOf(p) != [] && Rescans(OperatorsOf(p)[0])) {
        EarlierBatchesEmpty(sem, none, rest, RestEnv(p, env, log));
      }
      AppliedEmpty(sem, none, p, log, bs);
    }
  }

  lemma AppliedEmpty<R(!new)>(sem: Semantics<R>, none: R -> bool, p: Plan, log: seq<R>, bs: seq<R>)
    requires Lawful(sem, none, true) && bs != [] && EndsWhole(p)
    requires (OperatorsOf(p) != [] && Rescans(OperatorsOf(p)[0])) || AllEmpty(none, bs[..|bs| - 1])
    ensures var out := Apply(sem, p, log, bs); out != [] && AllEmpty(none, out[..|out| - 1])
  {
    var out := Apply(sem, p, log, bs);
    if OperatorsOf(p) != [] {
      var o := OperatorsOf(p)[0];
      if o.JoinOp? && Rescans(o) {
        assert out[..|out| - 1] == MapProbe(sem, o.id, o.kind, log, bs);
      } else {
        var front := bs[..|bs| - 1];
        assert forall i :: 0 <= i < |front| ==> front[i] == bs[i] && none(front[i]);
        assert |out| == |bs|;
      }
    }
  }

  /** A meaning of the operators that only tells whether there are rows. */
  function Presence(): Semantics<bool> {
    Semantics(_ => true, (_, r) => r, (_, _) => true, (_, k: JoinKind, _, r) => !k.BuildSideOnly() && r,
              (_, _, _, _) => true, (_, _) => true, r => r, (_, _) => true,
              (_, _, _) => true, (_, _, _) => true, (_, _, _) => true, (_, _, _) => true)
  }

  function Absent(): bool -> bool {
    r => !r
  }

  lemma PresenceIsLawful()
    ensures Lawful(Presence(), Absent(), true)
  {
  }

  /** All tables in scope end with rows. */
  predicate Lit(env: Env<bool>) {
    && (env.cache.Some? ==> env.cache.value.1 != [] && Last(env.cache.value.1))
    && forall c <- env.ctes :: env.ctes[c] != [] && Last(env.ctes[c])
  }

  lemma AppliedLast(p: Plan, log: seq<bool>, bs: seq<bool>)
    requires bs != [] && Last(bs)
    ensures var out := Apply(Presence(), p, log, bs); out != [] && Last(out)
  {
  }

  lemma {:induction false} LastIsLit(p: Plan, env: Env<bool>)
    requires env.Fits(p) && env.Filled() && Lit(env)
    ensures Last(Eval(Presence(), p, env))
    ensures Lit(env.WithoutCache()) && Lit(RestEnv(p, env, BranchLog(Presence(), p, env)))
  {
    hide Env.Fits, Env.Filled, Eval, Apply, Presence;
    var log := BranchLog(Presence(), p, env);
    EnvsFit(p, env, log);
    if BranchOf(p).Some? {
      LastIsLit(BranchOf(p).value.plan, env.WithoutCache());
    }
    if RestOf(p).None? {
      SourceIsLit(p, env);
    } else {
      EvalStep(Presence(), p, env);
      LastIsLit(RestOf(p).value, RestEnv(p, env, log));
      AppliedLast(p, log, Eval(Presence(), RestOf(p).value, RestEnv(p, env, log)));
    }
  }

  lemma SourceIsLit(p: Plan, env: Env<bool>)
    requires env.Fits(p) && env.Filled() && Lit(env) && RestOf(p).None?
    ensures Last(Eval(Presence(), p, env))
  {
  }

  /** Otherwise the topmost restarting join is a full right join, and a batch with rows can come
      before the last: a scan of the table misses them. */
  lemma {:induction false} EarlierBatchLost(p: Plan, env: Env<bool>) returns (i: nat)
    requires env.Fits(p) && env.Filled() && Lit(env) && !EndsWhole(p)
    ensures i + 1 < |Eval(Presence(), p, env)| && Eval(Presence(), p, env)[i]
  {
    hide Env.Fits, Env.Filled, Eval;
    var log, rest := BranchLog(Presence(), p, env), RestOf(p).value;
    EvalStep(Presence(), p, env);
    LastIsLit(p, env);
    var bs := Eval(Presence(), rest, RestEnv(p, env, log));
    LastIsLit(rest, RestEnv(p, env, log));
    if OperatorsOf(p) != [] && Rescans(OperatorsOf(p)[0]) {
      i := |bs| - 1;
    } else {
      i := EarlierBatchLost(rest, RestEnv(p, env, log));
    }
  }

  /** For every query: the last batch is all of it, whatever lawful operators compute, if and only
      if its topmost restarting join, if it has one, gives build-side rows only. */
  lemma LastBatchIsAllIff(p: Plan)
    requires WellFormed(p)
    ensures EndsWhole(p) <==>
            forall sem: Semantics<bool>, none: bool -> bool :: Lawful(sem, none, true) ==>
              AllEmpty(none, EvalQuery(sem, p)[..|EvalQuery(sem, p)| - 1])
  {
    hide Eval, Lawful;
    if EndsWhole(p) {
      forall sem: Semantics<bool>, none: bool -> bool | Lawful(sem, none, true)
        ensures AllEmpty(none, EvalQuery(sem, p)[..|EvalQuery(sem, p)| - 1])
      {
        EarlierBatchesEmpty(sem, none, p, EmptyEnv());
      }
    } else {
      var i := EarlierBatchLost(p, EmptyEnv());
      PresenceIsLawful();
      var bs := EvalQuery(Presence(), p);
      assert bs[..|bs| - 1][i] == bs[i];
      assert !AllEmpty(Absent(), bs[..|bs| - 1]);
    }
  }

  /** A scan of a CTE whose joins are simple sees the relation that the CTE stands for. */
  lemma CteScanSeesRelation<R(!new)>(sem: Semantics<R>, none: R -> bool, id: OpId, top: Plan, scan: OpId, env: Env<R>, view: View<R>)
    requires Lawful(sem, none, true) && SimpleJoins(top, true) && Sees(none, env, view) && env.cache.None?
    requires view.Fits(Cte(id, top, CteScan(scan, id)))
    ensures env.Fits(Cte(id, top, CteScan(scan, id))) && env.Filled() && view.WithoutCache().Fits(top)
    ensures Eval(sem, Cte(id, top, CteScan(scan, id)), env) == [sem.copied(Denote(sem, top, view.WithoutCache()))]
  {
    hide Lawful, Denote;
    SettledFilled(none, env, view);
    SeesBranch(none, env, view);
    EvalSettles(sem, none, true, top, env.WithoutCache(), view.WithoutCache());
    SettledFacts(none, Eval(sem, top, env.WithoutCache()), Denote(sem, top, view.WithoutCache()));
  }
}

/** The schedule of a compiled plan, run meta-pipeline by meta-pipeline: every table is complete
    when its writer's pipelines are done, and is empty before they begin. */
module QueryRuns {
  import opened Options
  import opened Plans
  import opened Pipelines
  import opened PlanJobs
  import opened Compiler
  import opened Scheduler
  import opened Evaluation
  import opened Execution
  import opened BlockExecution
  import opened QueryFacts
  import opened QueryRefinement

  // -------------------------------------------------------------------------------------------
  // The facts of every job
  // -------------------------------------------------------------------------------------------

  /** Job `j` is meta-pipeline `m`, and what it sinks is what its subplan evaluates to. */
  ghost predicate JobKnown<R>(sem: Semantics<R>, j: Job, m: nat, f: Facts<R>) {
    && PlanKnown(sem, j.branch.plan, m, 0, m + 1, j.env, f) && j.env.cache.None?
    && (j.branch.sink.ToRightDelim? ==> j.branch.sink.id != j.branch.sink.join)
    && forall id <- SinkIds(j.branch.sink) ::
         Written(f, id, m) && f[id].log == Eval(sem, j.branch.plan, EnvFrom(j.env, f))
  }

  lemma BranchJobKnown<R>(sem: Semantics<R>, b: Branch, owner: nat, place: nat, m: nat, r: nat, scope: Scope, f: Facts<R>)
    requires PlanKnown(sem, b.plan, m, 0, m + 1, scope, f) && SinkKnown(sem, b, owner, place, m, scope, f)
    requires scope.cache.None?
    ensures JobKnown(sem, Job(b, scope, r), m, f)
  {
    hide PlanKnown, Eval, EnvFrom;
  }

  lemma {:induction false} JobsKnown<R>(sem: Semantics<R>, p: Plan, owner: nat, place: nat, n: nat, r: nat, scope: Scope,
                                        f: Facts<R>, i: nat)
    requires PlanKnown(sem, p, owner, place, n, scope, f) && i < NumMetas(p)
    ensures JobKnown(sem, JobsOf(p, n, r, scope)[i], n + i, f)
  {
    hide PlanKnown, SinkKnown, JobKnown, JobsOf, RestScope, BranchOf, RestOf;
    PartsKnown(sem, p, owner, place, n, scope, f);
    JobsStep(p, n, r, scope);
    if i == 0 && BranchOf(p).Some? {
      BranchJobKnown(sem, BranchOf(p).value, owner, place, n, r, BranchScope(scope), f);
    } else if i < BranchSize(p) {
      JobsKnown(sem, BranchOf(p).value.plan, n, 0, n + 1, r, BranchScope(scope), f, i - 1);
    } else {
      JobsKnown(sem, RestOf(p).value, owner, place + |OperatorsOf(p)|, n + BranchSize(p), r + BranchSize(p),
                RestScope(p, n, scope), f, i - BranchSize(p));
    }
  }

  /** The writer of a fact is a job that sinks into that operator. */
  ghost predicate WriterSinks<R>(fact: Fact<R>, id: OpId, js: seq<Job>, n: nat) {
    n <= fact.writer < n + |js| && id in SinkIds(js[fact.writer - n].branch.sink)
  }

  lemma {:induction false} WritersSink<R>(sem: Semantics<R>, p: Plan, owner: nat, place: nat, n: nat, r: nat, env: Env<R>,
                                          scope: Scope, id: OpId)
    requires env.Fits(p) && env.Filled() && id in FactsOf(sem, p, owner, place, n, env)
    ensures WriterSinks(FactsOf(sem, p, owner, place, n, env)[id], id, JobsOf(p, n, r, scope), n)
    decreases p, 0
  {
    hide Env.Fits, Env.Filled, FactsOf, JobsOf, Eval, BranchFacts, BranchJobs, RestScope, BranchScope, BranchOf, RestOf;
    var log := BranchLog(sem, p, env);
    EnvsFit(p, env, log);
    FactsStep(sem, p, owner, place, n, env);
    JobsStep(p, n, r, scope);
    if id in RestFacts(sem, p, owner, place, n, env) {
      WritersSink(sem, RestOf(p).value, owner, place + |OperatorsOf(p)|, n + BranchSize(p), r + BranchSize(p),
                  RestEnv(p, env, log), RestScope(p, n, scope), id);
    } else {
      BranchWritersSink(sem, BranchOf(p).value, owner, place, n, r, env.WithoutCache(), BranchScope(scope), id);
    }
  }

  lemma {:induction false} BranchWritersSink<R>(sem: Semantics<R>, b: Branch, owner: nat, place: nat, n: nat, r: nat, env: Env<R>,
                                                scope: Scope, id: OpId)
    requires env.Fits(b.plan) && env.Filled() && id in BranchFacts(sem, b, owner, place, n, env)
    ensures WriterSinks(BranchFacts(sem, b, owner, place, n, env)[id], id, BranchJobs(b, n, r, scope), n)
    decreases b.plan, 1
  {
    hide Env.Fits, Env.Filled, FactsOf, JobsOf, Eval;
    if id in FactsOf(sem, b.plan, n, 0, n + 1, env) {
      WritersSink(sem, b.plan, n, 0, n + 1, r, env, scope, id);
    }
  }

  // -------------------------------------------------------------------------------------------
  // One meta-pipeline
  // -------------------------------------------------------------------------------------------

  function JobSpine(j: Job, m: nat): Spine
    requires ScopeFits(j.branch.plan, j.env)
  {
    SpineOf(j.branch.plan, m + 1, j.env)
  }

  /** A ready arena whose meta-pipelines are the jobs `js`, and whose facts are `f`. */
  ghost predicate Runnable<R>(sem: Semantics<R>, metas: seq<Meta>, js: seq<Job>, f: Facts<R>) {
    && 1 <= |metas| == |js|
    && (forall m :: 1 <= m < |js| ==> MetaKnown(sem, metas[m], js[m], m, f))
    && (forall id :: id in f ==> WriterSinks(f[id], id, js[1..], 1))
  }

  ghost predicate MetaKnown<R>(sem: Semantics<R>, x: Meta, j: Job, m: nat, f: Facts<R>) {
    JobKnown(sem, j, m, f) && x == ReadyMeta(Shape(j.branch.sink, JobSpine(j, m)))
  }

  /** The tables of the meta-pipelines in `order` are complete and the others are empty; no join
      was probed by a meta-pipeline outside `order`; and only joins that were built and probed by
      those in `order` lost what they hold. */
  ghost predicate Progress<R>(f: Facts<R>, order: seq<nat>, st: Store<R>) {
    && (forall id :: id in f ==> Log(st.sunk, id) == if f[id].writer in order then f[id].log else [])
    && (forall id :: id in f && f[id].owner !in order ==> Log(st.probed, id) == [])
    && (forall id <- st.released :: id in f && f[id].owner in order && f[id].writer in order)
  }

  lemma JoinsApart<R>(ops: seq<Operator>, owner: nat, deps: seq<nat>, f: Facts<R>)
    requires forall i :: 0 <= i < |ops| && ops[i].JoinOp? ==> JoinKnown(ops[i].id, owner, i, deps, f)
    ensures DistinctJoins(ops)
    ensures forall o <- ops :: o.JoinOp? ==> exists place :: JoinKnown(o.id, owner, place, deps, f)
  {
    forall o | o in ops && o.JoinOp?
      ensures exists place :: JoinKnown(o.id, owner, place, deps, f)
    {
      var i :| 0 <= i < |ops| && ops[i] == o;
      assert JoinKnown(ops[i].id, owner, i, deps, f);
    }
  }

  lemma SourceReadable<R>(sem: Semantics<R>, s: Source, deps: seq<nat>, f: Facts<R>, order: seq<nat>, st: Store<R>)
    requires SourceKnown(s, deps, None, f) && Progress(f, order, st) && forall d <- deps :: d in order
    ensures GetData(sem, s, st) == GetData(sem, s, Complete(f))
  {
  }

  /** A meta-pipeline whose dependencies are done can run. */
  lemma JobReady<R>(sem: Semantics<R>, s: Spine, j: Job, m: nat, f: Facts<R>, order: seq<nat>, st: Store<R>, bs: seq<R>)
    requires JobKnown(sem, j, m, f) && SpineKnown(sem, s, m, 0, None, f, bs)
    requires Progress(f, order, st) && m !in order && forall d <- s.deps :: d in order
    ensures Ready(Logs(f), s.ops, j.branch.sink, st)
    ensures GetData(sem, s.source, st) == GetData(sem, s.source, Complete(f))
    ensures forall id :: HasJoin(s.ops, id) ==> id in f && f[id].owner == m && f[id].writer in order
  {
    hide PlanKnown, Eval, Batches;
    JoinsApart(s.ops, m, s.deps, f);
    SourceReadable(sem, s.source, s.deps, f, order, st);
  }

  /** Running meta-pipeline `m` completes its tables and touches no others. */
  lemma ProgressGrows<R>(f: Facts<R>, order: seq<nat>, m: nat, sink: Sink, ops: seq<Operator>, bs: seq<R>,
                         before: Store<R>, after: Store<R>)
    requires Progress(f, order, before) && m !in order
    requires forall id <- SinkIds(sink) :: id in f && f[id].writer == m && f[id].log == bs
    requires forall id :: id in f && f[id].writer == m ==> id in SinkIds(sink)
    requires forall id :: HasJoin(ops, id) ==> id in f && f[id].owner == m && f[id].writer in order
    requires forall id <- SinkIds(sink) :: Log(after.sunk, id) == bs
    requires forall id :: id !in SinkIds(sink) ==> Log(after.sunk, id) == Log(before.sunk, id)
    requires forall id :: !HasJoin(ops, id) ==> Log(after.probed, id) == Log(before.probed, id)
    requires forall id <- after.released :: id in before.released || HasJoin(ops, id)
    ensures Progress(f, order + [m], after)
  {
    hide SinkIds, HasJoin, Log;
    forall id | id in f
      ensures Log(after.sunk, id) == if f[id].writer in order + [m] then f[id].log else []
    {
      if f[id].writer != m {
        assert id !in SinkIds(sink);
      }
    }
    forall id | id in f && f[id].owner !in order + [m]
      ensures Log(after.probed, id) == []
    {
      assert f[id].owner != m && !HasJoin(ops, id);
    }
  }

  /** One meta-pipeline whose dependencies are done gets through exactly if every operator of its spine
      and its sink do with what direct recursive evaluation gives them. */
  lemma JobRuns<R>(sem: Semantics<R>, metas: seq<Meta>, js: seq<Job>, f: Facts<R>, order: seq<nat>, m: nat, st: Store<R>)
    requires Runnable(sem, metas, js, f) && 1 <= m < |metas| && m !in order && Progress(f, order, st)
    requires 0 < |metas[m].pipes| && forall d <- metas[m].pipes[0].deps :: d.meta in order
    ensures var run := RunPipes(sem, KeptOnly(metas[m].pipes), st);
            (run.Some? <==> JobSafe(sem, js[m], m, f)) && (run.Some? ==> Progress(f, order + [m], run.value))
  {
    hide PlanKnown, SpineKnown, SpineOf, Eval, Batches, Ready, RunPipes, KeptOnly, JobKnown, Within, SinkIds, EnvFrom,
      Progress, WriterSinks, HasJoin, GetData, Log, LogOf, Logs, Reverse, ShapedBy, Shape, JobSafe;
    assert MetaKnown(sem, metas[m], js[m], m, f);
    OnlyWriter(sem, metas, js, f, m);
    MetaRuns(sem, metas[m], js[m], f, order, m, st);
  }

  lemma MetaRuns<R>(sem: Semantics<R>, x: Meta, j: Job, f: Facts<R>, order: seq<nat>, m: nat, st: Store<R>)
    requires MetaKnown(sem, x, j, m, f) && m !in order && Progress(f, order, st)
    requires 0 < |x.pipes| && forall d <- x.pipes[0].deps :: d.meta in order
    requires forall id :: id in f && f[id].writer == m ==> id in SinkIds(j.branch.sink)
    ensures var run := RunPipes(sem, KeptOnly(x.pipes), st);
            (run.Some? <==> JobSafe(sem, j, m, f)) && (run.Some? ==> Progress(f, order + [m], run.value))
  {
    hide PlanKnown, SpineKnown, SpineOf, Eval, Batches, Ready, RunPipes, KeptOnly, JobKnown, Within, SinkIds, EnvFrom,
      Progress, HasJoin, GetData, Log, LogOf, Logs, Reverse, Grown, SpinePasses, TakesAll, Env.Fits, Env.Filled, ScopeFits, UniqueIds;
    var sink := j.branch.sink;
    JobSpineKnown(sem, j, m, f);
    var s, bs := JobSpine(j, m), Eval(sem, j.branch.plan, EnvFrom(j.env, f));
    ShapePipes(sink, s);
    assert x.pipes[0].deps == BaseRefs(s.deps);
    DepsOfRefs(s.deps, order);
    JobReady(sem, s, j, m, f, order, st, bs);
    SpineFacts(sem, s, m, f, bs);
    BlockRuns(sem, Logs(f), s, GetData(sem, s.source, st).value, sink, st);
    SinkWritten(sem, j, m, f);
    var run := RunPipes(sem, KeptOnly(x.pipes), st);
    if run.Some? {
      ProgressGrows(f, order, m, sink, s.ops, bs, st, run.value);
    }
  }

  lemma JobSpineKnown<R>(sem: Semantics<R>, j: Job, m: nat, f: Facts<R>)
    requires JobKnown(sem, j, m, f)
    ensures ScopeFits(j.branch.plan, j.env) && EnvFrom(j.env, f).Fits(j.branch.plan) && EnvFrom(j.env, f).Filled()
    ensures SpineKnown(sem, JobSpine(j, m), m, 0, None, f, Eval(sem, j.branch.plan, EnvFrom(j.env, f)))
  {
    hide SpineKnown, SpineOf, Eval, EnvFrom, Within;
    SpineComputes(sem, j.branch.plan, m, 0, m + 1, j.env, f);
  }

  lemma SpineFacts<R>(sem: Semantics<R>, s: Spine, m: nat, f: Facts<R>, bs: seq<R>)
    requires SpineKnown(sem, s, m, 0, None, f, bs)
    ensures !s.source.FromJoin?
    ensures var v := GetData(sem, s.source, Complete(f)); v.Some? && Batches(sem, Logs(f), s.ops, v.value) == bs
  {
  }

  lemma SinkWritten<R>(sem: Semantics<R>, j: Job, m: nat, f: Facts<R>)
    requires JobKnown(sem, j, m, f) && EnvFrom(j.env, f).Fits(j.branch.plan) && EnvFrom(j.env, f).Filled()
    ensures forall id <- SinkIds(j.branch.sink) ::
              id in f && f[id].writer == m && f[id].log == Eval(sem, j.branch.plan, EnvFrom(j.env, f))
  {
    hide PlanKnown, Eval, SinkIds, EnvFrom;
  }

  lemma OnlyWriter<R>(sem: Semantics<R>, metas: seq<Meta>, js: seq<Job>, f: Facts<R>, m: nat)
    requires Runnable(sem, metas, js, f) && 1 <= m < |metas|
    ensures forall id :: id in f && f[id].writer == m ==> id in SinkIds(js[m].branch.sink)
  {
    hide MetaKnown, SinkIds;
    forall id | id in f && f[id].writer == m
      ensures id in SinkIds(js[m].branch.sink)
    {
      assert WriterSinks(f[id], id, js[1..], 1);
    }
  }

  lemma DepsOfRefs(deps: seq<nat>, order: seq<nat>)
    requires forall d <- BaseRefs(deps) :: d.meta in order
    ensures forall d <- deps :: d in order
  {
    forall d | d in deps
      ensures d in order
    {
      var i :| 0 <= i < |deps| && deps[i] == d;
      assert BaseRefs(deps)[i] in BaseRefs(deps);
    }
  }

  // -------------------------------------------------------------------------------------------
  // The whole schedule
  // -------------------------------------------------------------------------------------------

  lemma {:induction false} BlockPipes(metas: seq<Meta>, m: nat, k: nat)
    requires m < |metas| && k <= |metas[m].pipes|
    ensures LiveRefs(metas, Block(metas, m, k))
    ensures PipesAt(metas, Block(metas, m, k)) == KeptOnly(metas[m].pipes[k..])
    decreases |metas[m].pipes| - k
  {
    BlockRefs(metas, m, k);
    if k < |metas[m].pipes| {
      BlockPipes(metas, m, k + 1);
      assert metas[m].pipes[k..][1..] == metas[m].pipes[k + 1..];
    }
  }

  lemma PipesAppend(metas: seq<Meta>, a: seq<PipeRef>, b: seq<PipeRef>)
    requires LiveRefs(metas, a) && LiveRefs(metas, b)
    ensures LiveRefs(metas, a + b) && PipesAt(metas, a + b) == PipesAt(metas, a) + PipesAt(metas, b)
  {
  }

  lemma TopologicalPrefix(metas: seq<Meta>, order: seq<nat>)
    requires Topological(metas, order) && order != []
    ensures var k := |order| - 1;
            && Topological(metas, order[..k]) && order[k] !in order[..k] && 1 <= order[k] < |metas|
            && 0 < |metas[order[k]].pipes| && order == order[..k] + [order[k]]
            && forall d <- metas[order[k]].pipes[0].deps :: d.meta in order[..k]
  {
    var front := order[..|order| - 1];
    assert forall i :: 0 <= i < |front| ==> front[..i] == order[..i];
  }

  ghost predicate OrderSafe<R>(sem: Semantics<R>, js: seq<Job>, f: Facts<R>, order: seq<nat>) {
    forall i :: 0 <= i < |order| ==> order[i] < |js| && JobSafe(sem, js[order[i]], order[i], f)
  }

  /** Any topological order never reads what was not written. It runs to the end exactly if all its
      meta-pipelines get through, and then it fills the tables of exactly the meta-pipelines in it. */
  lemma {:induction false} ScheduleRuns<R>(sem: Semantics<R>, metas: seq<Meta>, js: seq<Job>, f: Facts<R>, order: seq<nat>)
    requires Runnable(sem, metas, js, f) && Topological(metas, order)
    ensures InArena(metas, order) && LiveRefs(metas, Blocks(metas, order))
    ensures var run := RunPipes(sem, PipesAt(metas, Blocks(metas, order)), EmptyStore());
            (run.Some? <==> OrderSafe(sem, js, f, order)) && (run.Some? ==> Progress(f, order, run.value))
    decreases |order|
  {
    hide Runnable, Progress, Topological, KeptOnly, Block, RunPipe, JobSafe, OrderSafe;
    assert InArena(metas, order) by { OrderInArena(metas, order); }
    if order == [] {
      NothingDone(sem, js, f);
    } else {
      var k := |order| - 1;
      var front, m := order[..k], order[k];
      TopologicalPrefix(metas, order);
      ScheduleRuns(sem, metas, js, f, front);
      BlockPipes(metas, m, 0);
      assert metas[m].pipes[0..] == metas[m].pipes;
      PipesAppend(metas, Blocks(metas, front), Block(metas, m, 0));
      RunAppend(sem, PipesAt(metas, Blocks(metas, front)), PipesAt(metas, Block(metas, m, 0)), EmptyStore());
      var before := RunPipes(sem, PipesAt(metas, Blocks(metas, front)), EmptyStore());
      OrderSafeStep(sem, metas, js, f, order);
      if before.Some? {
        JobRuns(sem, metas, js, f, front, m, before.value);
      }
    }
  }

  lemma OrderSafeStep<R>(sem: Semantics<R>, metas: seq<Meta>, js: seq<Job>, f: Facts<R>, order: seq<nat>)
    requires Runnable(sem, metas, js, f) && InArena(metas, order) && order != []
    ensures var k := |order| - 1;
            && order[k] < |js|
            && (OrderSafe(sem, js, f, order) <==>
                  OrderSafe(sem, js, f, order[..k]) && JobSafe(sem, js[order[k]], order[k], f))
  {
    hide JobSafe, MetaKnown;
    var k := |order| - 1;
    assert forall i :: 0 <= i < k ==> order[..k][i] == order[i];
  }

  lemma OrderInArena(metas: seq<Meta>, order: seq<nat>)
    requires Topological(metas, order)
    ensures InArena(metas, order)
  {
  }

  lemma NothingDone<R>(sem: Semantics<R>, js: seq<Job>, f: Facts<R>)
    ensures Progress(f, [], EmptyStore()) && OrderSafe(sem, js, f, [])
  {
  }

  // -------------------------------------------------------------------------------------------
  // Compiled plans are runnable
  // -------------------------------------------------------------------------------------------

  function QueryFactsOf<R>(sem: Semantics<R>, collector: OpId, p: Plan): Facts<R>
    requires WellFormed(p)
  {
    BranchFacts(sem, Branch(ToCollector(collector), p), 0, 0, 1, EmptyEnv())
  }

  lemma QueryKnown<R>(sem: Semantics<R>, collector: OpId, p: Plan)
    requires WellFormed(p) && collector !in Ids(p)
    ensures var f, b := QueryFactsOf(sem, collector, p), Branch(ToCollector(collector), p);
            PlanKnown(sem, p, 1, 0, 2, NO_SCOPE, f) && SinkKnown(sem, b, 0, 0, 1, NO_SCOPE, f)
    ensures NO_SCOPE.ctes.Keys == {}
  {
    hide Eval, FactsOf;
    var f, b := QueryFactsOf(sem, collector, p), Branch(ToCollector(collector), p);
    assert EnvFrom(NO_SCOPE, f) == EmptyEnv();
    BranchIsWithin(sem, b, 0, 0, 1, EmptyEnv(), f);
  }

  lemma CompiledKnown<R>(sem: Semantics<R>, collector: OpId, p: Plan, m: nat)
    requires WellFormed(p) && collector !in Ids(p) && 1 <= m < 2 + NumMetas(p)
    ensures MetaKnown(sem, ReadyMeta(Compiled(collector, p)[m]), AllJobs(collector, p)[m], m, QueryFactsOf(sem, collector, p))
  {
    hide PlanKnown, SinkKnown, JobsOf, JobKnown, BranchMetas, Shape, QueryFactsOf, Reverse, SpineOf;
    var f := QueryFactsOf(sem, collector, p);
    QueryKnown(sem, collector, p);
    CompiledIsJobs(collector, p, m);
    if m == 1 {
      BranchJobKnown(sem, Branch(ToCollector(collector), p), 0, 0, 1, 0, NO_SCOPE, f);
    } else {
      JobsKnown(sem, p, 1, 0, 2, 0, NO_SCOPE, f, m - 2);
    }
    assert JobKnown(sem, AllJobs(collector, p)[m], m, f);
  }

  lemma CompiledRunnable<R>(sem: Semantics<R>, collector: OpId, p: Plan)
    requires WellFormed(p) && collector !in Ids(p)
    ensures var metas := Compiled(collector, p);
            Runnable(sem, ReadyRange(metas, 0, |metas|), AllJobs(collector, p), QueryFactsOf(sem, collector, p))
  {
    hide MetaKnown, Compiled, BranchJobs, BranchFacts, ReadyMeta, WriterSinks;
    var f, js := QueryFactsOf(sem, collector, p), AllJobs(collector, p);
    forall m | 1 <= m < |js|
      ensures MetaKnown(sem, ReadyMeta(Compiled(collector, p)[m]), js[m], m, f)
    {
      CompiledKnown(sem, collector, p, m);
    }
    var b := Branch(ToCollector(collector), p);
    assert js[1..] == BranchJobs(b, 1, 0, NO_SCOPE);
    forall id | id in f
      ensures WriterSinks(f[id], id, js[1..], 1)
    {
      BranchWritersSink(sem, b, 0, 0, 1, 0, EmptyEnv(), NO_SCOPE, id);
    }
  }

  // -------------------------------------------------------------------------------------------
  // A whole query
  // -------------------------------------------------------------------------------------------

  lemma AllOrdered(metas: seq<Meta>, order: seq<nat>, m: nat)
    requires Topological(metas, order) && |order| == |metas| - 1 && 1 <= m < |metas|
    ensures m in order
  {
    var left := Numbers(|metas|) - Elements(order);
    assert Elements(order) <= Numbers(|metas|);
    assert |left| == |Numbers(|metas|)| - |Elements(order)|;
    assert m !in left;
  }

  lemma ScheduledSources(metas: seq<Meta>, ranks: seq<nat>, order: seq<nat>)
    requires Schedulable(metas, ranks) && InArena(metas, order)
    ensures LiveRefs(metas, Blocks(metas, order))
    ensures forall r <- Blocks(metas, order) :: metas[r.meta].pipes[r.index].source.Some?
  {
    if order != [] {
      var m := order[|order| - 1];
      ScheduledSources(metas, ranks, order[..|order| - 1]);
      BlockRefs(metas, m, 0);
      SourcesKnown(metas, ranks, m);
    }
  }

  lemma CollectorKnown<R>(sem: Semantics<R>, collector: OpId, p: Plan)
    requires WellFormed(p) && collector !in Ids(p)
    ensures var f := QueryFactsOf(sem, collector, p);
            collector in f && f[collector].writer == 1 && f[collector].log == EvalQuery(sem, p)
  {
    hide Eval, FactsOf;
    var f := QueryFactsOf(sem, collector, p);
    QueryKnown(sem, collector, p);
    assert EnvFrom(NO_SCOPE, f) == EmptyEnv<R>();
    assert collector in SinkIds(ToCollector(collector));
  }

  lemma TableComplete<R>(f: Facts<R>, order: seq<nat>, st: Store<R>, id: OpId)
    requires Progress(f, order, st) && id in f && f[id].writer in order
    ensures Log(st.sunk, id) == f[id].log
  {
  }

  /** A full schedule gets through exactly if the plan completes. */
  lemma FullOrderSafe<R>(sem: Semantics<R>, collector: OpId, p: Plan, metas: seq<Meta>, order: seq<nat>)
    requires WellFormed(p) && collector !in Ids(p) && |metas| == 2 + NumMetas(p)
    requires Topological(metas, order) && |order| == |metas| - 1
    ensures OrderSafe(sem, AllJobs(collector, p), QueryFactsOf(sem, collector, p), order) <==> Completes(sem, p, EmptyEnv())
  {
    hide QueryFactsOf, JobSafe, Completes, BranchJobs, PlanKnown, SinkKnown, EnvFrom, Eval, TakesAll;
    var f, js, b := QueryFactsOf(sem, collector, p), AllJobs(collector, p), Branch(ToCollector(collector), p);
    QueryKnown(sem, collector, p);
    BranchCompletesIff(sem, b, 0, 0, 1, 0, NO_SCOPE, f);
    NoScope(f);
    CollectorTakes(sem, collector, EvalQuery(sem, p));
    assert js[1..] == BranchJobs(b, 1, 0, NO_SCOPE);
    assert forall i :: 0 <= i < |js[1..]| ==> js[1..][i] == js[1 + i];
    if OrderSafe(sem, js, f, order) {
      forall i | 0 <= i < |js[1..]|
        ensures JobSafe(sem, js[1..][i], 1 + i, f)
      {
        AllOrdered(metas, order, 1 + i);
        var k :| 0 <= k < |order| && order[k] == 1 + i;
      }
    }
    if AllSafe(sem, js[1..], 1, f) {
      forall i | 0 <= i < |order|
        ensures order[i] < |js| && JobSafe(sem, js[order[i]], order[i], f)
      {
        OrderInArena(metas, order);
        assert JobSafe(sem, js[1..][order[i] - 1], 1 + (order[i] - 1), f);
      }
    }
  }

  lemma CollectorTakes<R>(sem: Semantics<R>, collector: OpId, bs: seq<R>)
    ensures TakesAll(sem, ToCollector(collector), bs)
  {
  }

  lemma NoScope<R>(f: Facts<R>)
    ensures EnvFrom(NO_SCOPE, f) == EmptyEnv<R>()
  {
  }

  /** What a full schedule leaves in the result collector. */
  lemma QueryResult<R>(sem: Semantics<R>, collector: OpId, p: Plan, metas: seq<Meta>, order: seq<nat>)
    requires WellFormed(p) && collector !in Ids(p)
    requires metas == ReadyRange(Compiled(collector, p), 0, 2 + NumMetas(p))
    requires Topological(metas, order) && |order| == |metas| - 1
    ensures InArena(metas, order) && LiveRefs(metas, Blocks(metas, order))
    ensures var run := RunPipes(sem, PipesAt(metas, Blocks(metas, order)), EmptyStore());
            RunOf(sem, p) == if run.Some? then Some(Log(run.value.sunk, collector)) else None
  {
    hide Runnable, Topological, Blocks, Compiled, ReadyRange, QueryFactsOf, EvalQuery, RunPipes, AllJobs, Progress, Log,
      WellFormed, PipesAt, LiveRefs, InArena, Ids, Completes, RunOf, OrderSafe;
    CompiledRunnable(sem, collector, p);
    CollectorKnown(sem, collector, p);
    ReadySize(Compiled(collector, p), 0, 2 + NumMetas(p));
    ScheduleRuns(sem, metas, AllJobs(collector, p), QueryFactsOf(sem, collector, p), order);
    FullOrderSafe(sem, collector, p, metas, order);
    RunOfIff(sem, p);
    AllOrdered(metas, order, 1);
    var run := RunPipes(sem, PipesAt(metas, Blocks(metas, order)), EmptyStore());
    if run.Some? {
      TableComplete(QueryFactsOf(sem, collector, p), order, run.value, collector);
    }
  }

  // InitializeInternal and Execute: compile, make ready, schedule, run.
  method RunQuery<R>(sem: Semantics<R>, collector: OpId, p: Plan) returns (result: Option<seq<R>>)
    requires WellFormed(p) && collector !in Ids(p)
    ensures result == RunOf(sem, p)
  {
    hide Schedulable, Forest, Topological, Blocks, Compiled, EvalQuery, RunPipes, ReadyRange, AllJobs, RunOf;
    var compiler := new PipelineCompiler();
    compiler.Compile(collector, p);
    var scheduler := new QueryScheduler(compiler.metas);
    ghost var js := AllJobs(collector, p);
    ghost var sizes, ranks := Sizes(js), Ranks(js);
    CompiledSchedulable(collector, p);
    ReadyKeepsForest(compiler.metas, sizes, 0, |compiler.metas|);
    ReadyKeepsSchedulable(compiler.metas, ranks, 0, |compiler.metas|);
    scheduler.ReadyMetaPipeline(0, sizes);
    ghost var ready := scheduler.metas;
    assert |ready| == 2 + NumMetas(p) by { ReadySize(compiler.metas, 0, |compiler.metas|); }
    ghost var order, rounds := scheduler.ScheduleAll(sizes, ranks);
    QueryResult(sem, collector, p, ready, order);
    ScheduledSources(ready, ranks, order);
    var executor := new Executor(sem);
    var ok := executor.Execute(scheduler.metas, scheduler.scheduled);
    result := if ok then Some(Log(executor.store.sunk, collector)) else None;
  }

  lemma ReadySize(metas: seq<Meta>, lo: nat, hi: nat)
    ensures |ReadyRange(metas, lo, hi)| == |metas|
  {
  }
}

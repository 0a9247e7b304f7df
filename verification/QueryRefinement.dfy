/** Running the schedule of a compiled plan leaves exactly the batches of direct recursive
    evaluation in the result collector, and no pipeline reads what was not written yet. */
module QueryRefinement {
  import opened Options
  import opened Plans
  import opened Pipelines
  import opened PlanJobs
  import opened Evaluation
  import opened Execution
  import opened BlockExecution
  import opened QueryFacts

  // -------------------------------------------------------------------------------------------
  // What a subplan's scans see, read from the facts
  // -------------------------------------------------------------------------------------------

  function LogOf<R>(f: Facts<R>, id: OpId): seq<R> {
    if id in f then f[id].log else []
  }

  function Logs<R>(f: Facts<R>): Tables<R> {
    map id | id in f :: f[id].log
  }

  /** The store when every table is complete. */
  function Complete<R>(f: Facts<R>): Store<R> {
    Store(Logs(f), map[], {})
  }

  function EnvFrom<R>(scope: Scope, f: Facts<R>): (env: Env<R>)
    ensures env.ctes.Keys == scope.ctes.Keys
  {
    Env(if scope.delim.Some? then Some((scope.delim.value.0, LogOf(f, scope.delim.value.0))) else None,
        map c | c in scope.ctes :: LogOf(f, c),
        if scope.cache.Some? then Some((scope.cache.value, LogOf(f, scope.cache.value))) else None)
  }

  predicate Written<R>(f: Facts<R>, id: OpId, writer: nat) {
    id in f && f[id].writer == writer && f[id].log != []
  }

  /** The tables in scope are written by the meta-pipelines that the scope names. */
  ghost predicate EnvKnown<R>(scope: Scope, f: Facts<R>) {
    && (scope.delim.Some? ==> Written(f, scope.delim.value.0, scope.delim.value.1))
    && (forall c :: c in scope.ctes ==> Written(f, c, scope.ctes[c]))
    && (scope.cache.Some? ==> LogOf(f, scope.cache.value) != [])
  }

  /** The facts of `p` are among `f`, as are those of everything in scope. */
  ghost predicate PlanKnown<R>(sem: Semantics<R>, p: Plan, owner: nat, place: nat, n: nat, scope: Scope, f: Facts<R>) {
    var env := EnvFrom(scope, f);
    && ScopeFits(p, scope) && UniqueIds(p) && EnvKnown(scope, f) && env.Fits(p) && env.Filled()
    && Within(FactsOf(sem, p, owner, place, n, env), f)
  }

  /** The branch `b` is meta-pipeline `m` and sinks what its plan evaluates to. */
  ghost predicate SinkKnown<R>(sem: Semantics<R>, b: Branch, owner: nat, place: nat, m: nat, scope: Scope, f: Facts<R>) {
    var env := EnvFrom(scope, f);
    && env.Fits(b.plan) && env.Filled() && (b.sink.ToRightDelim? ==> b.sink.id != b.sink.join)
    && forall id <- SinkIds(b.sink) :: id in f && f[id] == Fact(m, owner, place, Eval(sem, b.plan, env))
  }

  lemma ScopesFollow<R>(p: Plan, n: nat, scope: Scope, f: Facts<R>, log: seq<R>)
    requires EnvKnown(scope, f)
    requires BranchOf(p).Some? ==> forall id <- SinkIds(BranchOf(p).value.sink) :: Written(f, id, n) && f[id].log == log
    ensures EnvKnown(BranchScope(scope), f) && EnvFrom(BranchScope(scope), f) == EnvFrom(scope, f).WithoutCache()
    ensures RestOf(p).Some? ==>
              && EnvKnown(RestScope(p, n, scope), f)
              && EnvFrom(RestScope(p, n, scope), f) == RestEnv(p, EnvFrom(scope, f), log)
  {
    hide UniqueIds, Ids;
    assert EnvFrom(BranchScope(scope), f).ctes == EnvFrom(scope, f).ctes;
    if RestOf(p).Some? {
      if BranchOf(p).Some? {
        assert p.id in SinkIds(BranchOf(p).value.sink);
      }
      assert EnvFrom(RestScope(p, n, scope), f).ctes == RestEnv(p, EnvFrom(scope, f), log).ctes;
    }
  }

  /** Both parts of `p` are known when `p` is. */
  lemma PartsKnown<R>(sem: Semantics<R>, p: Plan, owner: nat, place: nat, n: nat, scope: Scope, f: Facts<R>)
    requires PlanKnown(sem, p, owner, place, n, scope, f)
    ensures BranchOf(p).Some? ==>
              var b := BranchOf(p).value;
              && PlanKnown(sem, b.plan, n, 0, n + 1, BranchScope(scope), f)
              && SinkKnown(sem, b, owner, place, n, BranchScope(scope), f)
    ensures RestOf(p).Some? ==>
              PlanKnown(sem, RestOf(p).value, owner, place + |OperatorsOf(p)|, n + BranchSize(p), RestScope(p, n, scope), f)
  {
    hide Eval, Env.Fits, Env.Filled, UniqueIds, FactsOf, Within, Ids, ScopeFits, EnvKnown, EnvFrom, BranchOf, RestOf;
    var env := EnvFrom(scope, f);
    FactsWithin(sem, p, owner, place, n, env, f);
    PartsFit(p, n, scope);
    PartsApart(p);
    ScopesFollow(p, n, scope, f, BranchLog(sem, p, env));
  }

  // -------------------------------------------------------------------------------------------
  // The spine of a plan computes what the plan evaluates to
  // -------------------------------------------------------------------------------------------

  /** A join of the spine: which meta-pipeline probes it, at which place, and that its build side
      is waited for. */
  ghost predicate JoinKnown<R>(id: OpId, owner: nat, place: nat, deps: seq<nat>, f: Facts<R>) {
    id in f && f[id].owner == owner && f[id].place == place && f[id].writer in deps && f[id].log != []
  }

  /** What the source reads is waited for, except for the cached input of an enclosing delim join. */
  ghost predicate SourceKnown<R>(s: Source, deps: seq<nat>, cache: Option<OpId>, f: Facts<R>) {
    match s
    case FromLeaf(_) => true
    case FromJoin(_, _) => false
    case FromCollector(_) => false
    case _ => s.id in f && (f[s.id].writer in deps || (s.FromCache? && cache == Some(s.id)))
  }

  ghost predicate SpineKnown<R>(sem: Semantics<R>, s: Spine, owner: nat, place: nat, cache: Option<OpId>, f: Facts<R>, bs: seq<R>) {
    var v := GetData(sem, s.source, Complete(f));
    && (forall i :: 0 <= i < |s.ops| && s.ops[i].JoinOp? ==> JoinKnown(s.ops[i].id, owner, place + i, s.deps, f))
    && SourceKnown(s.source, s.deps, cache, f) && v.Some? && Batches(sem, Logs(f), s.ops, v.value) == bs
  }

  lemma BatchesOnTop<R>(sem: Semantics<R>, p: Plan, f: Facts<R>, log: seq<R>, ops: seq<Operator>, v: R)
    requires forall o <- OperatorsOf(p) :: o.JoinOp? ==> Log(Logs(f), o.id) == log
    ensures Batches(sem, Logs(f), OperatorsOf(p) + ops, v) == Apply(sem, p, log, Batches(sem, Logs(f), ops, v))
  {
    var bs := Batches(sem, Logs(f), ops, v);
    if OperatorsOf(p) == [] {
      assert [] + ops == ops;
    } else {
      var o := OperatorsOf(p)[0];
      assert OperatorsOf(p) == [o] && ([o] + ops)[1..] == ops;
      assert o in OperatorsOf(p);
      var one := PushAll(sem, Logs(f), [o], bs);
      assert [o][1..] == [];
      assert forall r :: Push(sem, Logs(f), [o], r) == PushOne(sem, Logs(f), o, r);
      if o.StreamOp? {
        assert one == MapStream(sem, o.id, bs) && one + [] == one;
      } else {
        assert one == MapProbe(sem, o.id, o.kind, log, bs);
      }
    }
  }

  lemma SpineOnTop<R>(sem: Semantics<R>, p: Plan, owner: nat, place: nat, n: nat, scope: Scope, f: Facts<R>,
                      log: seq<R>, s: Spine, bs: seq<R>)
    requires BranchOf(p).Some? ==>
               log != [] && forall id <- SinkIds(BranchOf(p).value.sink) :: id in f && f[id] == Fact(n, owner, place, log)
    requires RestOf(p).Some?
    requires SpineKnown(sem, s, owner, place + |OperatorsOf(p)|, RestScope(p, n, scope).cache, f, bs)
    ensures SpineKnown(sem, Topped(p, n, s), owner, place, scope.cache, f, Apply(sem, p, log, bs))
  {
    hide Batches, Apply, GetData;
    var t := Topped(p, n, s);
    forall o <- OperatorsOf(p)
      ensures o.JoinOp? ==> JoinKnown(o.id, owner, place, t.deps, f) && Log(Logs(f), o.id) == log
    {
      if o.JoinOp? {
        assert o.id in SinkIds(BranchOf(p).value.sink);
      }
    }
    forall i | 0 <= i < |t.ops| && t.ops[i].JoinOp?
      ensures JoinKnown(t.ops[i].id, owner, place + i, t.deps, f)
    {
      if i < |OperatorsOf(p)| {
        assert t.ops[i] in OperatorsOf(p);
      } else {
        assert t.ops[i] == s.ops[i - |OperatorsOf(p)|];
      }
    }
    if p.LeftDelim? {
      assert p.id in SinkIds(BranchOf(p).value.sink);
    }
    BatchesOnTop(sem, p, f, log, s.ops, GetData(sem, s.source, Complete(f)).value);
  }

  /** A source with nothing above it. */
  lemma BareSpine<R>(sem: Semantics<R>, p: Plan, owner: nat, place: nat, n: nat, scope: Scope, f: Facts<R>, v: R)
    requires ScopeFits(p, scope) && RestOf(p).None?
    requires var t := Topped(p, n, Spine([], SourceOf(p, scope), ScanDeps(p, scope), []));
             SourceKnown(t.source, t.deps, scope.cache, f) && GetData(sem, t.source, Complete(f)) == Some(v)
    ensures SpineKnown(sem, Topped(p, n, Spine([], SourceOf(p, scope), ScanDeps(p, scope), [])), owner, place, scope.cache, f, [v])
  {
    hide SourceKnown, GetData, ScopeFits;
    assert Topped(p, n, Spine([], SourceOf(p, scope), ScanDeps(p, scope), [])).ops == [];
  }

  lemma LeafAtSource<R>(sem: Semantics<R>, p: Plan, owner: nat, place: nat, n: nat, scope: Scope, f: Facts<R>)
    requires ScopeFits(p, scope) && EnvKnown(scope, f) && EnvFrom(scope, f).Fits(p) && EnvFrom(scope, f).Filled()
    requires RestOf(p).None? && BranchOf(p).None?
    ensures SpineKnown(sem, Topped(p, n, Spine([], SourceOf(p, scope), ScanDeps(p, scope), [])), owner, place,
                       scope.cache, f, Eval(sem, p, EnvFrom(scope, f)))
  {
    var s := SourceOf(p, scope);
    var v := GetData(sem, s, Complete(f));
    assert [] + ScanDeps(p, scope) == ScanDeps(p, scope);
    assert v.Some? && Eval(sem, p, EnvFrom(scope, f)) == [v.value];
    BareSpine(sem, p, owner, place, n, scope, f, v.value);
  }

  lemma BreakerAtSource<R>(sem: Semantics<R>, p: Plan, owner: nat, place: nat, n: nat, scope: Scope, f: Facts<R>)
    requires p.Breaker? && ScopeFits(p, scope) && EnvFrom(scope, f).Fits(p) && EnvFrom(scope, f).Filled()
    requires SinkKnown(sem, BranchOf(p).value, owner, place, n, BranchScope(scope), f)
    ensures SpineKnown(sem, Topped(p, n, Spine([], SourceOf(p, scope), ScanDeps(p, scope), [])), owner, place,
                       scope.cache, f, Eval(sem, p, EnvFrom(scope, f)))
  {
    assert p.id in SinkIds(BranchOf(p).value.sink);
    assert EnvFrom(BranchScope(scope), f) == EnvFrom(scope, f).WithoutCache();
    var log := Eval(sem, p.child, EnvFrom(scope, f).WithoutCache());
    assert Eval(sem, p, EnvFrom(scope, f)) == [sem.breaker(p.id, log)];
    BareSpine(sem, p, owner, place, n, scope, f, sem.breaker(p.id, log));
  }

  /** By induction along the spine: its source and operators compute what `p` evaluates to. */
  lemma {:induction false} SpineComputes<R>(sem: Semantics<R>, p: Plan, owner: nat, place: nat, n: nat, scope: Scope, f: Facts<R>)
    requires PlanKnown(sem, p, owner, place, n, scope, f)
    ensures SpineKnown(sem, SpineOf(p, n, scope), owner, place, scope.cache, f, Eval(sem, p, EnvFrom(scope, f)))
  {
    hide Eval, Env.Fits, Env.Filled, UniqueIds, FactsOf, Within, Ids, ScopeFits, SpineOf, SpineKnown, Topped,
      Apply, RestScope, BranchOf, RestOf;
    PartsKnown(sem, p, owner, place, n, scope, f);
    SpineStep(p, n, scope);
    if RestOf(p).None? {
      if BranchOf(p).Some? {
        OnlyBreakersAtSource(p);
        BreakerAtSource(sem, p, owner, place, n, scope, f);
      } else {
        LeafAtSource(sem, p, owner, place, n, scope, f);
      }
    } else {
      var inner := RestScope(p, n, scope);
      SpineComputes(sem, RestOf(p).value, owner, place + |OperatorsOf(p)|, n + BranchSize(p), inner, f);
      var log := BranchLog(sem, p, EnvFrom(scope, f));
      BranchLogKnown(sem, p, owner, place, n, scope, f);
      ScopesFollow(p, n, scope, f, log);
      EvalStep(sem, p, EnvFrom(scope, f));
      SpineOnTop(sem, p, owner, place, n, scope, f, log, SpineOf(RestOf(p).value, n + BranchSize(p), inner),
                 Eval(sem, RestOf(p).value, EnvFrom(inner, f)));
    }
  }

  lemma OnlyBreakersAtSource(p: Plan)
    requires RestOf(p).None? && BranchOf(p).Some?
    ensures p.Breaker?
  {
  }

  lemma BranchLogKnown<R>(sem: Semantics<R>, p: Plan, owner: nat, place: nat, n: nat, scope: Scope, f: Facts<R>)
    requires EnvFrom(scope, f).Fits(p) && EnvFrom(scope, f).Filled()
    requires BranchOf(p).Some? ==> SinkKnown(sem, BranchOf(p).value, owner, place, n, BranchScope(scope), f)
    ensures BranchOf(p).Some? ==>
              var log := BranchLog(sem, p, EnvFrom(scope, f));
              log != [] && forall id <- SinkIds(BranchOf(p).value.sink) :: id in f && f[id] == Fact(n, owner, place, log)
  {
    hide Eval, Env.Fits, Env.Filled;
    assert EnvFrom(BranchScope(scope), f) == EnvFrom(scope, f).WithoutCache();
  }

  // -------------------------------------------------------------------------------------------
  // Spines that get through
  // -------------------------------------------------------------------------------------------

  /** One more operator on top. */
  lemma PassesOnTop<R>(sem: Semantics<R>, w: Tables<R>, own: seq<Operator>, ops: seq<Operator>, v: R, log: seq<R>)
    requires |own| <= 1 && forall o <- own :: Held(w, o) == if o.JoinOp? then log else []
    ensures SpinePasses(sem, w, own + ops, v) <==>
            && SpinePasses(sem, w, ops, v)
            && forall o <- own :: GetsAll(sem, o, if o.JoinOp? then log else [], Batches(sem, w, ops, v))
  {
    hide Batches, GetsAll, Held;
    if own == [] {
      assert own + ops == ops;
    } else {
      var o, all := own[0], own + ops;
      assert own == [o] && all[0] == o && all[1..] == ops;
      forall i | 0 <= i < |ops|
        ensures all[i + 1] == ops[i] && all[i + 1 + 1..] == ops[i + 1..]
      {
      }
      if SpinePasses(sem, w, all, v) {
        forall i | 0 <= i < |ops|
          ensures GetsAll(sem, ops[i], Held(w, ops[i]), Batches(sem, w, ops[i + 1..], v))
        {
          assert GetsAll(sem, all[i + 1], Held(w, all[i + 1]), Batches(sem, w, all[i + 1 + 1..], v));
        }
      }
      if SpinePasses(sem, w, ops, v) && GetsAll(sem, o, Held(w, o), Batches(sem, w, ops, v)) {
        forall i | 0 <= i < |all|
          ensures GetsAll(sem, all[i], Held(w, all[i]), Batches(sem, w, all[i + 1..], v))
        {
          if i > 0 {
            assert all[(i - 1) + 1] == ops[i - 1] && all[(i - 1) + 1 + 1..] == ops[i..];
          }
        }
      }
    }
  }

  /** What the source of a spine holds in the end. */
  function Sourced<R>(sem: Semantics<R>, s: Spine, f: Facts<R>): R
    requires GetData(sem, s.source, Complete(f)).Some?
  {
    GetData(sem, s.source, Complete(f)).value
  }

  /** The pipelines of this job get through. */
  ghost predicate JobSafe<R>(sem: Semantics<R>, j: Job, m: nat, f: Facts<R>) {
    ScopeFits(j.branch.plan, j.env) &&
    var s := SpineOf(j.branch.plan, m + 1, j.env);
    && GetData(sem, s.source, Complete(f)).Some?
    && SpinePasses(sem, Logs(f), s.ops, Sourced(sem, s, f))
    && TakesAll(sem, j.branch.sink, Batches(sem, Logs(f), s.ops, Sourced(sem, s, f)))
  }

  ghost predicate AllSafe<R>(sem: Semantics<R>, js: seq<Job>, n: nat, f: Facts<R>) {
    forall i :: 0 <= i < |js| ==> JobSafe(sem, js[i], n + i, f)
  }

  lemma AllSafeSplit<R>(sem: Semantics<R>, a: seq<Job>, b: seq<Job>, n: nat, f: Facts<R>)
    ensures AllSafe(sem, a + b, n, f) <==> AllSafe(sem, a, n, f) && AllSafe(sem, b, n + |a|, f)
  {
    hide JobSafe;
    var all := a + b;
    if AllSafe(sem, all, n, f) {
      assert forall i :: 0 <= i < |a| ==> a[i] == all[i];
      forall i | 0 <= i < |b|
        ensures JobSafe(sem, b[i], n + |a| + i, f)
      {
        assert JobSafe(sem, all[|a| + i], n + (|a| + i), f);
      }
    }
    if AllSafe(sem, a, n, f) && AllSafe(sem, b, n + |a|, f) {
      forall i | 0 <= i < |all|
        ensures JobSafe(sem, all[i], n + i, f)
      {
        if i >= |a| {
          assert JobSafe(sem, b[i - |a|], n + |a| + (i - |a|), f);
        }
      }
    }
  }

  /** The spine of a plan gets its batches through. */
  ghost predicate SpineSafe<R>(sem: Semantics<R>, s: Spine, f: Facts<R>) {
    GetData(sem, s.source, Complete(f)).Some? && SpinePasses(sem, Logs(f), s.ops, Sourced(sem, s, f))
  }

  /** A plan completes exactly if the spine that runs it and all jobs below it get through. */
  lemma {:induction false} CompletesIff<R>(sem: Semantics<R>, p: Plan, owner: nat, place: nat, n: nat, r: nat, scope: Scope,
                                           f: Facts<R>)
    requires PlanKnown(sem, p, owner, place, n, scope, f)
    ensures Completes(sem, p, EnvFrom(scope, f)) <==>
            SpineSafe(sem, SpineOf(p, n, scope), f) && AllSafe(sem, JobsOf(p, n, r, scope), n, f)
    decreases p, 0
  {
    hide Eval, Env.Fits, Env.Filled, UniqueIds, FactsOf, Within, Ids, ScopeFits, SpineOf, Completes, SpineSafe, AllSafe, JobsOf,
      RestScope, BranchScope, BranchOf, RestOf, OperatorCompletes, BranchJobs, EnvFrom, EnvKnown, SinkKnown, TakesAll, SpineKnown;
    var env := EnvFrom(scope, f);
    PartsKnown(sem, p, owner, place, n, scope, f);
    CompletesStep(sem, p, env);
    JobsStep(p, n, r, scope);
    SpineStep(p, n, scope);
    SpineComputes(sem, p, owner, place, n, scope, f);
    var bs := if BranchOf(p).Some? then BranchJobs(BranchOf(p).value, n, r, BranchScope(scope)) else [];
    var k, inner := n + BranchSize(p), RestScope(p, n, scope);
    var js := if RestOf(p).Some? then JobsOf(RestOf(p).value, k, r + BranchSize(p), inner) else [];
    AllSafeSplit(sem, bs, js, n, f);
    NoneSafe(sem, n, f);
    BranchLogKnown(sem, p, owner, place, n, scope, f);
    ScopesFollow(p, n, scope, f, BranchLog(sem, p, env));
    if BranchOf(p).Some? {
      BranchCompletesIff(sem, BranchOf(p).value, owner, place, n, r, BranchScope(scope), f);
    }
    if RestOf(p).Some? {
      var log, rest := BranchLog(sem, p, env), RestOf(p).value;
      CompletesIff(sem, rest, owner, place + |OperatorsOf(p)|, k, r + BranchSize(p), inner, f);
      SpineComputes(sem, rest, owner, place + |OperatorsOf(p)|, k, inner, f);
      SafeRest(sem, p, n, scope, f, owner, place, log, Eval(sem, rest, EnvFrom(inner, f)));
    } else {
      SafeSource(sem, p, owner, place, n, scope, f, Eval(sem, p, env));
      NoneSafe(sem, n + |bs|, f);
    }
  }

  lemma NoneSafe<R>(sem: Semantics<R>, n: nat, f: Facts<R>)
    ensures AllSafe(sem, [], n, f)
  {
  }

  lemma SafeSource<R>(sem: Semantics<R>, p: Plan, owner: nat, place: nat, n: nat, scope: Scope, f: Facts<R>, bs: seq<R>)
    requires ScopeFits(p, scope) && RestOf(p).None?
    requires SpineKnown(sem, SpineOf(p, n, scope), owner, place, scope.cache, f, bs)
    ensures SpineSafe(sem, SpineOf(p, n, scope), f)
  {
    assert SpineOf(p, n, scope).ops == [];
  }

  lemma SafeRest<R>(sem: Semantics<R>, p: Plan, n: nat, scope: Scope, f: Facts<R>, owner: nat, place: nat, log: seq<R>, bs: seq<R>)
    requires ScopeFits(p, scope) && RestOf(p).Some? && ScopeFits(RestOf(p).value, RestScope(p, n, scope))
    requires BranchOf(p).Some? ==> forall id <- SinkIds(BranchOf(p).value.sink) :: id in f && f[id] == Fact(n, owner, place, log)
    requires var inner := RestScope(p, n, scope);
             SpineKnown(sem, SpineOf(RestOf(p).value, n + BranchSize(p), inner), owner, place + |OperatorsOf(p)|, inner.cache, f, bs)
    ensures SpineSafe(sem, SpineOf(p, n, scope), f) <==>
            && SpineSafe(sem, SpineOf(RestOf(p).value, n + BranchSize(p), RestScope(p, n, scope)), f)
            && OperatorCompletes(sem, p, log, bs)
  {
    hide SpineOf, ScopeFits, RestScope, SpinePasses, GetsAll, Batches, GetData;
    var s := SpineOf(RestOf(p).value, n + BranchSize(p), RestScope(p, n, scope));
    SpineStep(p, n, scope);
    forall o | o in OperatorsOf(p) && o.JoinOp?
      ensures Log(Logs(f), o.id) == log
    {
      assert o.id in SinkIds(BranchOf(p).value.sink);
    }
    PassesOnTop(sem, Logs(f), OperatorsOf(p), s.ops, Sourced(sem, s, f), log);
  }

  lemma {:induction false} BranchCompletesIff<R>(sem: Semantics<R>, b: Branch, owner: nat, place: nat, n: nat, r: nat, scope: Scope,
                                                 f: Facts<R>)
    requires PlanKnown(sem, b.plan, n, 0, n + 1, scope, f)
    ensures Completes(sem, b.plan, EnvFrom(scope, f)) && TakesAll(sem, b.sink, Eval(sem, b.plan, EnvFrom(scope, f))) <==>
            AllSafe(sem, BranchJobs(b, n, r, scope), n, f)
    decreases b.plan, 1
  {
    hide SpineOf, Completes, SpineSafe, AllSafe, JobsOf, EnvFrom, UniqueIds, EnvKnown, Within, FactsOf, TakesAll, SpineKnown, Eval;
    CompletesIff(sem, b.plan, n, 0, n + 1, r, scope, f);
    SpineComputes(sem, b.plan, n, 0, n + 1, scope, f);
    AllSafeSplit(sem, [Job(b, scope, r)], JobsOf(b.plan, n + 1, r, scope), n, f);
    OneSafe(sem, Job(b, scope, r), n, f);
    JobIsSpine(sem, Job(b, scope, r), n, f, Eval(sem, b.plan, EnvFrom(scope, f)));
  }

  lemma JobIsSpine<R>(sem: Semantics<R>, j: Job, m: nat, f: Facts<R>, bs: seq<R>)
    requires ScopeFits(j.branch.plan, j.env)
    requires SpineKnown(sem, SpineOf(j.branch.plan, m + 1, j.env), m, 0, j.env.cache, f, bs)
    ensures JobSafe(sem, j, m, f) <==>
            SpineSafe(sem, SpineOf(j.branch.plan, m + 1, j.env), f) && TakesAll(sem, j.branch.sink, bs)
  {
    hide SpineOf, ScopeFits, SpinePasses, TakesAll, Batches, GetData;
  }

  lemma OneSafe<R>(sem: Semantics<R>, j: Job, n: nat, f: Facts<R>)
    ensures AllSafe(sem, [j], n, f) <==> JobSafe(sem, j, n, f)
  {
    assert [j][0] == j;
  }
}

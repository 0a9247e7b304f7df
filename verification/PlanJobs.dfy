/** Every meta-pipeline of a compiled plan is one job: run a subplan into a sink. This module
    reads the job list off the plan, ties it to the compiled arena and shows that the recorded
    dependencies go down in build-finish order and that the child lists tile the arena. */
module PlanJobs {
  import opened Plans
  import opened Pipelines

  /** `rank0` counts the meta-pipelines whose Build had finished when this one's began. */
  datatype Job = Job(branch: Branch, env: Scope, rank0: nat) {

    /** How many Builds finish before this one's. */
    function Rank(): nat {
      rank0 + NumMetas(branch.plan)
    }

    /** The size of this job's subtree of meta-pipelines. */
    function Size(): nat {
      1 + NumMetas(branch.plan)
    }
  }

  /** The jobs of a branch that is meta-pipeline `n`. */
  function BranchJobs(b: Branch, n: nat, f: nat, env: Scope): (js: seq<Job>)
    ensures |js| == 1 + NumMetas(b.plan)
    decreases b.plan, 1
  {
    [Job(b, env, f)] + JobsOf(b.plan, n + 1, f, env)
  }

  /** The jobs that `p` adds, the first of them being meta-pipeline `n`. */
  function JobsOf(p: Plan, n: nat, f: nat, env: Scope): (js: seq<Job>)
    ensures |js| == NumMetas(p)
    decreases p, 0
  {
    (if BranchOf(p).Some? then BranchJobs(BranchOf(p).value, n, f, BranchScope(env)) else [])
    + (if RestOf(p).Some? then JobsOf(RestOf(p).value, n + BranchSize(p), f + BranchSize(p), RestScope(p, n, env)) else [])
  }

  /** One job per entry of the arena; entry 0 stands for the root, which would read what the
      result collector collected and is never run. */
  function AllJobs(collector: OpId, p: Plan): (js: seq<Job>)
    ensures |js| == 2 + NumMetas(p)
  {
    var top := Branch(ToCollector(collector), p);
    [Job(Branch(ToCollector(collector), Breaker(collector, p)), NO_SCOPE, 0)] + BranchJobs(top, 1, 0, NO_SCOPE)
  }

  predicate Slice(js: seq<Job>, n: nat, part: seq<Job>) {
    n + |part| <= |js| && js[n..n + |part|] == part
  }

  lemma SliceSplit(js: seq<Job>, n: nat, a: seq<Job>, b: seq<Job>)
    requires Slice(js, n, a + b)
    ensures Slice(js, n, a) && Slice(js, n + |a|, b)
  {
    assert a == (a + b)[..|a|] && b == (a + b)[|a|..];
  }

  /** What surrounds a subplan was built, and its build finished, before the first `f` were. */
  ghost predicate EnvFits(js: seq<Job>, env: Scope, f: nat) {
    && (env.delim.Some? ==> DelimFits(js, env.delim.value.0, env.delim.value.1, f))
    && (forall c :: c in env.ctes ==>
          1 <= env.ctes[c] < |js| && js[env.ctes[c]].Rank() < f && js[env.ctes[c]].branch.sink == ToCte(c))
  }

  predicate DelimFits(js: seq<Job>, id: OpId, m: nat, f: nat) {
    1 <= m < |js| && js[m].Rank() < f && js[m].branch.sink.id == id
    && (js[m].branch.sink.ToLeftDelim? || js[m].branch.sink.ToRightDelim?)
  }

  /** `p` is the rest of the plan of one meta-pipeline, and its jobs start at `n`. */
  ghost predicate Placed(js: seq<Job>, p: Plan, n: nat, f: nat, env: Scope) {
    1 <= n && ScopeFits(p, env) && EnvFits(js, env, f) && Slice(js, n, JobsOf(p, n, f, env))
  }

  ghost predicate BranchPlaced(js: seq<Job>, b: Branch, n: nat, f: nat, env: Scope) {
    n < |js| && js[n] == Job(b, env, f) && Placed(js, b.plan, n + 1, f, env)
  }

  lemma BranchIsPlaced(js: seq<Job>, b: Branch, n: nat, f: nat, env: Scope)
    requires ScopeFits(b.plan, env) && EnvFits(js, env, f) && Slice(js, n, BranchJobs(b, n, f, env))
    ensures BranchPlaced(js, b, n, f, env)
  {
    SliceSplit(js, n, [Job(b, env, f)], JobsOf(b.plan, n + 1, f, env));
    assert js[n..n + 1][0] == js[n];
  }

  /** The jobs of `p` split into those of its branch and those of its rest. */
  lemma JobsSplit(js: seq<Job>, p: Plan, n: nat, f: nat, env: Scope)
    requires Slice(js, n, JobsOf(p, n, f, env))
    ensures BranchOf(p).Some? ==> Slice(js, n, BranchJobs(BranchOf(p).value, n, f, BranchScope(env)))
    ensures RestOf(p).Some? ==>
              Slice(js, n + BranchSize(p), JobsOf(RestOf(p).value, n + BranchSize(p), f + BranchSize(p), RestScope(p, n, env)))
  {
    hide Slice, RestScope, BranchScope, BranchJobs;
    var b := if BranchOf(p).Some? then BranchJobs(BranchOf(p).value, n, f, BranchScope(env)) else [];
    var r := if RestOf(p).Some? then JobsOf(RestOf(p).value, n + BranchSize(p), f + BranchSize(p), RestScope(p, n, env)) else [];
    assert |b| == BranchSize(p);
    SliceSplit(js, n, b, r);
  }

  /** The scope of the rest still only mentions finished meta-pipelines. */
  lemma RestEnvFits(js: seq<Job>, p: Plan, n: nat, f: nat, env: Scope)
    requires EnvFits(js, env, f) && RestOf(p).Some? && 1 <= n
    requires BranchOf(p).Some? ==> n < |js| && js[n] == Job(BranchOf(p).value, BranchScope(env), f)
    ensures EnvFits(js, RestScope(p, n, env), f + BranchSize(p))
  {
  }

  lemma PartsPlaced(js: seq<Job>, p: Plan, n: nat, f: nat, env: Scope)
    requires Placed(js, p, n, f, env)
    ensures BranchOf(p).Some? ==> BranchPlaced(js, BranchOf(p).value, n, f, BranchScope(env))
    ensures RestOf(p).Some? ==>
              Placed(js, RestOf(p).value, n + BranchSize(p), f + BranchSize(p), RestScope(p, n, env))
  {
    hide Slice, RestScope, JobsOf, ScopeFits;
    PartsFit(p, n, env);
    JobsSplit(js, p, n, f, env);
    if BranchOf(p).Some? {
      BranchIsPlaced(js, BranchOf(p).value, n, f, BranchScope(env));
    }
    if RestOf(p).Some? {
      RestEnvFits(js, p, n, f, env);
    }
  }

  /** Every job's own subplan is placed right behind the job. */
  ghost predicate JobFits(js: seq<Job>, i: nat) {
    i < |js| && Placed(js, js[i].branch.plan, i + 1, js[i].rank0, js[i].env)
  }

  lemma {:induction false} JobsFit(js: seq<Job>, p: Plan, n: nat, f: nat, env: Scope)
    requires Placed(js, p, n, f, env)
    ensures forall i :: n <= i < n + NumMetas(p) ==> JobFits(js, i)
  {
    hide Placed, JobsOf, Slice, EnvFits, ScopeFits, JobFits, RestScope, BranchScope, BranchOf, RestOf;
    PartsPlaced(js, p, n, f, env);
    forall i | n <= i < n + NumMetas(p)
      ensures JobFits(js, i)
    {
      if i == n && BranchOf(p).Some? {
        JobPlaced(js, BranchOf(p).value, n, f, BranchScope(env));
      } else if i < n + BranchSize(p) {
        JobsFit(js, BranchOf(p).value.plan, n + 1, f, BranchScope(env));
      } else {
        JobsFit(js, RestOf(p).value, n + BranchSize(p), f + BranchSize(p), RestScope(p, n, env));
      }
    }
  }

  lemma JobPlaced(js: seq<Job>, b: Branch, n: nat, f: nat, env: Scope)
    requires BranchPlaced(js, b, n, f, env)
    ensures JobFits(js, n)
  {
  }

  lemma AllJobsFit(collector: OpId, p: Plan)
    requires WellFormed(p)
    ensures forall i :: 1 <= i < 2 + NumMetas(p) ==> JobFits(AllJobs(collector, p), i)
  {
    var js, top := AllJobs(collector, p), Branch(ToCollector(collector), p);
    assert NO_SCOPE.ctes.Keys == {};
    BranchIsPlaced(js, top, 1, 0, NO_SCOPE);
    JobsFit(js, p, 2, 0, NO_SCOPE);
  }

  // -------------------------------------------------------------------------------------------
  // The arena is the list of jobs
  // -------------------------------------------------------------------------------------------

  ghost predicate ShapedBy(m: Meta, j: Job, i: nat) {
    ScopeFits(j.branch.plan, j.env) && m == Shape(j.branch.sink, SpineOf(j.branch.plan, i + 1, j.env))
  }

  lemma JobsStep(p: Plan, n: nat, f: nat, env: Scope)
    ensures JobsOf(p, n, f, env) ==
            (if BranchOf(p).Some? then BranchJobs(BranchOf(p).value, n, f, BranchScope(env)) else [])
            + (if RestOf(p).Some? then JobsOf(RestOf(p).value, n + BranchSize(p), f + BranchSize(p), RestScope(p, n, env)) else [])
  {
  }

  lemma {:induction false} MetaIsJob(p: Plan, n: nat, f: nat, env: Scope, i: nat)
    requires ScopeFits(p, env) && i < NumMetas(p)
    ensures ShapedBy(MetasOf(p, n, env)[i], JobsOf(p, n, f, env)[i], n + i)
    decreases p, 0
  {
    hide MetasOf, JobsOf, ShapedBy, BranchMetas, BranchJobs, ScopeFits, RestScope, BranchScope, BranchOf, RestOf;
    PartsFit(p, n, env);
    MetasStep(p, n, env);
    JobsStep(p, n, f, env);
    if i < BranchSize(p) {
      BranchMetaIsJob(BranchOf(p).value, n, f, BranchScope(env), i);
    } else {
      MetaIsJob(RestOf(p).value, n + BranchSize(p), f + BranchSize(p), RestScope(p, n, env), i - BranchSize(p));
    }
  }

  lemma {:induction false} BranchMetaIsJob(b: Branch, n: nat, f: nat, env: Scope, i: nat)
    requires ScopeFits(b.plan, env) && i < 1 + NumMetas(b.plan)
    ensures ShapedBy(BranchMetas(b, n, env)[i], BranchJobs(b, n, f, env)[i], n + i)
    decreases b.plan, 1
  {
    hide Shape, SpineOf, MetasOf, JobsOf;
    if i > 0 {
      MetaIsJob(b.plan, n + 1, f, env, i - 1);
    }
  }

  lemma CompiledIsJobs(collector: OpId, p: Plan, i: nat)
    requires WellFormed(p) && 1 <= i < 2 + NumMetas(p)
    ensures ShapedBy(Compiled(collector, p)[i], AllJobs(collector, p)[i], i)
  {
    hide BranchMetas, BranchJobs, ShapedBy;
    assert NO_SCOPE.ctes.Keys == {};
    BranchMetaIsJob(Branch(ToCollector(collector), p), 1, 0, NO_SCOPE, i - 1);
  }

  // -------------------------------------------------------------------------------------------
  // Dependencies and children of a spine
  // -------------------------------------------------------------------------------------------

  /** Every dependency of a base pipeline finished its Build before this pipeline's own
      meta-pipeline does, back-edges of CTE and DELIM scans included; and no base pipeline reads
      from a join. */
  lemma {:induction false} SpineRanks(js: seq<Job>, p: Plan, n: nat, f: nat, env: Scope)
    requires Placed(js, p, n, f, env)
    ensures forall d <- SpineOf(p, n, env).deps :: 1 <= d < |js| && js[d].Rank() < f + NumMetas(p)
    ensures !SpineOf(p, n, env).source.FromJoin?
  {
    hide SpineOf, JobsOf, Slice, ScopeFits, EnvFits, RestScope, BranchScope, ScanDeps;
    SpineStep(p, n, env);
    PartsPlaced(js, p, n, f, env);
    var own := if BranchOf(p).Some? then [n] else [];
    if RestOf(p).None? {
      ScanRanks(js, p, f, env);
      assert SpineOf(p, n, env).deps == own + ScanDeps(p, env);
    } else {
      SpineRanks(js, RestOf(p).value, n + BranchSize(p), f + BranchSize(p), RestScope(p, n, env));
      assert SpineOf(p, n, env).deps == own + SpineOf(RestOf(p).value, n + BranchSize(p), RestScope(p, n, env)).deps;
    }
  }

  lemma ScanRanks(js: seq<Job>, p: Plan, f: nat, env: Scope)
    requires ScopeFits(p, env) && EnvFits(js, env, f)
    ensures forall d <- ScanDeps(p, env) :: 1 <= d < |js| && js[d].Rank() < f
  {
  }

  /** The meta-pipelines in `cs` are the roots of consecutive subtrees that fill `lo..hi`. */
  predicate Tiles(cs: seq<nat>, lo: nat, hi: nat, sizes: seq<nat>) {
    if cs == [] then lo == hi
    else
      && cs[0] == lo < |sizes| && 1 <= sizes[lo] && lo + sizes[lo] <= hi
      && Tiles(cs[1..], lo + sizes[lo], hi, sizes)
  }

  function Sizes(js: seq<Job>): seq<nat> {
    seq(|js|, i requires 0 <= i < |js| => js[i].Size())
  }

  lemma {:induction false} SpineTiles(js: seq<Job>, p: Plan, n: nat, f: nat, env: Scope)
    requires Placed(js, p, n, f, env)
    ensures Tiles(SpineOf(p, n, env).children, n, n + NumMetas(p), Sizes(js))
  {
    hide SpineOf, JobsOf, Slice, ScopeFits, EnvFits, RestScope, BranchScope;
    SpineStep(p, n, env);
    PartsPlaced(js, p, n, f, env);
    var k := n + BranchSize(p);
    var rest := if RestOf(p).None? then [] else SpineOf(RestOf(p).value, k, RestScope(p, n, env)).children;
    if RestOf(p).Some? {
      SpineTiles(js, RestOf(p).value, k, f + BranchSize(p), RestScope(p, n, env));
    }
    assert Tiles(rest, k, n + NumMetas(p), Sizes(js));
    TilesFrom(BranchOf(p).Some?, n, k, n + NumMetas(p), rest, Sizes(js));
  }

  lemma TilesFrom(own: bool, n: nat, k: nat, hi: nat, rest: seq<nat>, sizes: seq<nat>)
    requires Tiles(rest, k, hi, sizes) && k <= hi
    requires if own then n < |sizes| && 1 <= sizes[n] && k == n + sizes[n] else k == n
    ensures Tiles((if own then [n] else []) + rest, n, hi, sizes)
  {
    if own {
      assert ([n] + rest)[1..] == rest;
    } else {
      assert [] + rest == rest;
    }
  }
}

/** The pipelines of one meta-pipeline: which operators a restarting pipeline runs once it is
    ready, and that it waits for exactly the pipelines that probe its join. */
module Restarting {
  import opened Options
  import opened Plans
  import opened Pipelines
  import opened PlanJobs
  import opened Compiler
  import opened Scheduler
  import opened BlockExecution

  /** The places of the joins in `ops[from..]` that restart the pipeline, deepest join first. */
  function RestartPlaces(ops: seq<Operator>, from: nat): (places: seq<nat>)
    requires from <= |ops|
    ensures forall k :: 0 <= k < |places| ==> from <= places[k] < |ops| && Restarts(ops[places[k]])
    ensures forall j :: from <= j < |ops| && Restarts(ops[j]) ==> j in places
    decreases |ops| - from
  {
    if from == |ops| then [] else RestartPlaces(ops, from + 1) + if Restarts(ops[from]) then [from] else []
  }

  lemma {:induction false} DeepestFirst(ops: seq<Operator>, from: nat, a: nat, b: nat)
    requires from <= |ops| && a < b < |RestartPlaces(ops, from)|
    ensures RestartPlaces(ops, from)[b] < RestartPlaces(ops, from)[a]
    decreases |ops| - from
  {
    var deeper := RestartPlaces(ops, from + 1);
    if b < |deeper| {
      DeepestFirst(ops, from + 1, a, b);
    } else {
      assert deeper[a] in deeper;
    }
  }

  lemma {:induction false} ChildPipesAt(ops: seq<Operator>, from: nat, sink: Option<Sink>)
    requires from <= |ops|
    ensures var places := RestartPlaces(ops, from);
            && |ChildPipes(ops, from, sink)| == |places|
            && forall k :: 0 <= k < |places| ==> ChildPipes(ops, from, sink)[k] == ChildPipe(ops, places[k], sink)
    decreases |ops| - from
  {
    if from < |ops| {
      ChildPipesAt(ops, from + 1, sink);
    }
  }

  /** The pipelines behind the base restart the joins at these places. */
  lemma PipeAt(sink: Sink, s: Spine, k: nat)
    requires 1 <= k < |Shape(sink, s).pipes|
    ensures var places := RestartPlaces(s.ops, 0);
            k - 1 < |places| && Shape(sink, s).pipes[k] == ChildPipe(s.ops, places[k - 1], Some(sink))
  {
    hide Shape, RestartPlaces;
    ShapePipes(sink, s);
    ChildPipesAt(s.ops, 0, Some(sink));
    assert Shape(sink, s).pipes[k] == Shape(sink, s).pipes[1..][k - 1];
  }

  // -------------------------------------------------------------------------------------------
  // Ready
  // -------------------------------------------------------------------------------------------

  lemma {:induction false} ReverseAt<T>(s: seq<T>, k: nat)
    requires k < |s|
    ensures Reverse(s)[k] == s[|s| - 1 - k]
  {
    if k < |s| - 1 {
      ReverseAt(s[1..], k);
    }
  }

  /** A prefix taken before the reversal is, after it, the suffix behind the join. */
  lemma ReversedPrefix<T>(s: seq<T>, at: nat)
    requires at < |s|
    ensures Reverse(s)[|s| - 1 - at] == s[at] && Reverse(s)[|s| - at..] == Reverse(s[..at])
  {
    hide Reverse;
    var all, front := Reverse(s), Reverse(s[..at]);
    ReverseAt(s, |s| - 1 - at);
    forall k | 0 <= k < at
      ensures all[|s| - at + k] == front[k]
    {
      ReverseAt(s, |s| - at + k);
      ReverseAt(s[..at], k);
    }
    assert all[|s| - at..] == front;
  }

  /** Ready, called any number of times. */
  function ReadyTimes(p: Pipe, times: nat): Pipe {
    if times == 0 then p else ReadyPipe(ReadyTimes(p, times - 1))
  }

  lemma {:induction false} ReadyOnce(p: Pipe, times: nat)
    requires times >= 1
    ensures ReadyTimes(p, times) == ReadyPipe(p)
  {
    if times > 1 {
      ReadyOnce(p, times - 1);
    }
  }

  /** A restarting pipeline runs what follows its join in the base pipeline, into the same sink,
      however often either of them was made ready. */
  lemma RestartIsSuffix(sink: Sink, s: Spine, k: nat, times: nat, again: nat)
    requires 1 <= k < |Shape(sink, s).pipes| && times >= 1 && again >= 1
    ensures var base, child := ReadyTimes(Shape(sink, s).pipes[0], times), ReadyTimes(Shape(sink, s).pipes[k], again);
            && child.sink == base.sink == Some(sink) && child.source.Some? && child.source.value.FromJoin?
            && exists at :: 0 <= at < |base.operators|
                 && base.operators[at] == JoinOp(child.source.value.id, child.source.value.kind)
                 && base.operators[at + 1..] == child.operators
  {
    hide Reverse, Shape, RestartPlaces, ReadyTimes;
    ShapePipes(sink, s);
    PipeAt(sink, s, k);
    ReadyOnce(Shape(sink, s).pipes[0], times);
    ReadyOnce(Shape(sink, s).pipes[k], again);
    var j := RestartPlaces(s.ops, 0)[k - 1];
    ReversedPrefix(s.ops, j);
    var at := |s.ops| - 1 - j;
    assert Reverse(s.ops)[at + 1..] == Reverse(s.ops[..j]);
  }

  // -------------------------------------------------------------------------------------------
  // Dependencies inside a meta-pipeline
  // -------------------------------------------------------------------------------------------

  /** Pipeline `p` passes its rows through the join `id`. */
  predicate Probes(p: Pipe, id: OpId) {
    HasJoin(p.operators, id)
  }

  /** Pipeline `l` waits, within its meta-pipeline, for exactly the pipelines that probe the join
      it restarts; all of them come before it. */
  lemma WaitsForProbers(sink: Sink, s: Spine, k: nat, l: nat)
    requires DistinctJoins(s.ops) && 1 <= l < |Shape(sink, s).pipes| && k < |Shape(sink, s).pipes|
    ensures var m := Shape(sink, s);
            && l in m.inner && m.pipes[l].source.Some?
            && (k in m.inner[l] <==> k < l) && (Probes(m.pipes[k], m.pipes[l].source.value.id) <==> k < l)
  {
    hide Shape, RestartPlaces, InnerDeps, DistinctJoins, HasJoin;
    var m := Shape(sink, s);
    ShapePipes(sink, s);
    PipeAt(sink, s, l);
    InnerDepsAre(l, k);
    var places := RestartPlaces(s.ops, 0);
    var at := places[l - 1];
    if k == 0 {
      ProbedAbove(s.ops, |s.ops|, at);
      assert s.ops[..|s.ops|] == s.ops;
    } else {
      PipeAt(sink, s, k);
      ProbedAbove(s.ops, places[k - 1], at);
      if k < l {
        DeepestFirst(s.ops, 0, k - 1, l - 1);
      } else if k > l {
        DeepestFirst(s.ops, 0, l - 1, k - 1);
      }
    }
  }

  lemma ProbedAbove(ops: seq<Operator>, up: nat, at: nat)
    requires DistinctJoins(ops) && up <= |ops| && at < |ops| && ops[at].JoinOp?
    ensures HasJoin(ops[..up], ops[at].id) <==> at < up
  {
    if at < up {
      assert ops[..up][at] in ops[..up];
    } else {
      PrefixJoins(ops, up);
    }
  }

  lemma InnerDepsAre(l: nat, k: nat)
    requires 1 <= l
    ensures k in InnerDeps(l) <==> k < l
  {
    if k == 0 {
      assert InnerDeps(l)[l - 1] == 0;
    } else if k < l {
      assert InnerDeps(l)[k - 1] == k;
    }
  }

  lemma {:induction false} SpineJoinsApart(p: Plan, n: nat, env: Scope)
    requires ScopeFits(p, env) && UniqueIds(p)
    ensures DistinctJoins(SpineOf(p, n, env).ops) && forall o <- SpineOf(p, n, env).ops :: o.id in Ids(p)
  {
    hide SpineOf, ScopeFits, RestScope, UniqueIds, Ids, DelimPart, CtePart;
    SpineStep(p, n, env);
    PartsSplit(p);
    if RestOf(p).Some? {
      var inner := SpineOf(RestOf(p).value, n + BranchSize(p), RestScope(p, n, env));
      SpineJoinsApart(RestOf(p).value, n + BranchSize(p), RestScope(p, n, env));
      RestIds(p);
      OneMoreApart(OperatorsOf(p), inner.ops);
    }
  }

  lemma RestIds(p: Plan)
    requires RestOf(p).Some?
    ensures Ids(RestOf(p).value) <= Ids(p)
  {
  }

  lemma OneMoreApart(own: seq<Operator>, ops: seq<Operator>)
    requires |own| <= 1 && DistinctJoins(ops) && forall o, q :: o in own && q in ops ==> o.id != q.id
    ensures DistinctJoins(own + ops)
  {
    var all := own + ops;
    forall i, j | 0 <= i < j < |all| && all[i].JoinOp? && all[j].JoinOp?
      ensures all[i].id != all[j].id
    {
      if i >= |own| {
        assert all[i] == ops[i - |own|] && all[j] == ops[j - |own|];
      } else {
        assert all[i] in own && all[j] in ops;
      }
    }
  }

  /** In every compiled plan, a pipeline waits for exactly the pipelines of its meta-pipeline that
      probe the join it restarts, and all of those stand before it. */
  lemma CompiledWaitsForProbers(collector: OpId, p: Plan, m: nat, k: nat, l: nat)
    requires WellFormed(p) && 1 <= m < 2 + NumMetas(p)
    requires k < |Compiled(collector, p)[m].pipes| && 1 <= l < |Compiled(collector, p)[m].pipes|
    ensures var x := Compiled(collector, p)[m];
            && l in x.inner && x.pipes[l].source.Some? && x.pipes[l].source.value.FromJoin?
            && (k in x.inner[l] <==> Probes(x.pipes[k], x.pipes[l].source.value.id)) && (k in x.inner[l] <==> k < l)
  {
    hide SpineOf, JobsOf, EnvFits, ScopeFits, Shape, Compiled, AllJobs, RestartPlaces, UniqueIds;
    var js := AllJobs(collector, p);
    CompiledIsJobs(collector, p, m);
    JobsUnique(collector, p, m);
    var s := SpineOf(js[m].branch.plan, m + 1, js[m].env);
    SpineJoinsApart(js[m].branch.plan, m + 1, js[m].env);
    WaitsForProbers(js[m].branch.sink, s, k, l);
    RestartIsSuffix(js[m].branch.sink, s, l, 1, 1);
    ReadyOnce(Shape(js[m].branch.sink, s).pipes[l], 1);
  }

  lemma JobsUnique(collector: OpId, p: Plan, m: nat)
    requires UniqueIds(p) && 1 <= m < 2 + NumMetas(p)
    ensures UniqueIds(AllJobs(collector, p)[m].branch.plan)
  {
    hide UniqueIds;
    if m > 1 {
      PlanJobsUnique(p, 2, 0, NO_SCOPE, m - 2);
    }
  }

  lemma {:induction false} PlanJobsUnique(p: Plan, n: nat, f: nat, env: Scope, i: nat)
    requires UniqueIds(p) && i < NumMetas(p)
    ensures UniqueIds(JobsOf(p, n, f, env)[i].branch.plan)
  {
    hide UniqueIds, JobsOf, BranchOf, RestOf, DelimPart, CtePart, Ids;
    PartsSplit(p);
    JobsStep(p, n, f, env);
    if i == 0 && BranchOf(p).Some? {
    } else if i < BranchSize(p) {
      PlanJobsUnique(BranchOf(p).value.plan, n + 1, f, BranchScope(env), i - 1);
    } else {
      PlanJobsUnique(RestOf(p).value, n + BranchSize(p), f + BranchSize(p), RestScope(p, n, env), i - BranchSize(p));
    }
  }
}

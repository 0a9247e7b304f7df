/** Making compiled pipelines ready and putting them in execution order. */
module Scheduler {
  import opened Options
  import opened Plans
  import opened Pipelines
  import opened PlanJobs

  function Reverse<T>(s: seq<T>): (r: seq<T>)
    ensures |r| == |s|
  {
    if s == [] then [] else Reverse(s[1..]) + [s[0]]
  }

  lemma ReverseAppend<T>(s: seq<T>, x: T)
    ensures Reverse(s + [x]) == [x] + Reverse(s)
  {
    if s != [] {
      assert (s + [x])[1..] == s[1..] + [x];
      ReverseAppend(s[1..], x);
    }
  }

  function ReadyPipe(p: Pipe): Pipe {
    if p.ready then p else p.(ready := true, operators := Reverse(p.operators))
  }

  function ReadyMeta(m: Meta): Meta {
    m.(pipes := seq(|m.pipes|, i requires 0 <= i < |m.pipes| => ReadyPipe(m.pipes[i])))
  }

  /** The arena after the meta-pipelines `lo..hi` were made ready. */
  function ReadyRange(metas: seq<Meta>, lo: nat, hi: nat): seq<Meta> {
    seq(|metas|, i requires 0 <= i < |metas| => if lo <= i < hi then ReadyMeta(metas[i]) else metas[i])
  }

  lemma {:induction false} ReadySplit(metas: seq<Meta>, lo: nat, mid: nat, hi: nat)
    requires lo <= mid <= hi
    ensures ReadyRange(ReadyRange(metas, lo, mid), mid, hi) == ReadyRange(metas, lo, hi)
  {
  }

  function Range(lo: nat, hi: nat): seq<nat>
    requires lo <= hi
  {
    seq(hi - lo, i => lo + i)
  }

  lemma RangeStep(start: seq<nat>, lo: nat, mid: nat, hi: nat)
    requires lo <= mid < hi
    ensures start + Range(lo, mid) + [mid] + Range(mid + 1, hi) == start + Range(lo, hi)
  {
  }

  lemma RangeEmpty(lo: nat)
    ensures Range(lo, lo) == []
  {
  }

  /** The arena is a forest in preorder: the children of every meta-pipeline tile its subtree. */
  predicate Forest(metas: seq<Meta>, sizes: seq<nat>) {
    |sizes| == |metas| &&
    forall m :: 0 <= m < |metas| ==>
      1 <= sizes[m] && m + sizes[m] <= |metas| && Tiles(metas[m].children, m + 1, m + sizes[m], sizes)
  }

  lemma ForestUnpack(metas: seq<Meta>, sizes: seq<nat>, m: nat)
    requires Forest(metas, sizes) && m < |metas|
    ensures |sizes| == |metas| && 1 <= sizes[m] && m + sizes[m] <= |metas|
    ensures Tiles(metas[m].children, m + 1, m + sizes[m], sizes)
  {
  }

  lemma ReadyKeepsForest(metas: seq<Meta>, sizes: seq<nat>, lo: nat, hi: nat)
    requires Forest(metas, sizes)
    ensures Forest(ReadyRange(metas, lo, hi), sizes)
  {
  }

  /** The first of the remaining children is the next subtree. */
  lemma NextChild(cs: seq<nat>, i: nat, lo: nat, hi: nat, sizes: seq<nat>)
    requires i < |cs| && Tiles(cs[i..], lo, hi, sizes)
    ensures cs[i] == lo < |sizes| && 1 <= sizes[lo] && lo + sizes[lo] <= hi && Tiles(cs[i + 1..], lo + sizes[lo], hi, sizes)
  {
    assert cs[i..][1..] == cs[i + 1..];
  }

  /** Pipelines that read from a hash join are only kept for right joins. */
  predicate Kept(p: Pipe) {
    p.source.Some? && (p.source.value.FromJoin? ==> p.source.value.kind.KeptAsSource())
  }

  /** What one meta-pipeline contributes to the schedule: its kept pipelines from `k` on. */
  function Block(metas: seq<Meta>, m: nat, k: nat): seq<PipeRef>
    requires m < |metas| && k <= |metas[m].pipes|
    decreases |metas[m].pipes| - k
  {
    if k == |metas[m].pipes| then []
    else (if Kept(metas[m].pipes[k]) then [PipeRef(m, k)] else []) + Block(metas, m, k + 1)
  }

  predicate InArena(metas: seq<Meta>, order: seq<nat>) {
    forall i :: 0 <= i < |order| ==> 1 <= order[i] < |metas| && 0 < |metas[order[i]].pipes|
  }

  function Blocks(metas: seq<Meta>, order: seq<nat>): seq<PipeRef>
    requires InArena(metas, order)
  {
    if order == [] then [] else Blocks(metas, order[..|order| - 1]) + Block(metas, order[|order| - 1], 0)
  }

  /** `order` is duplicate-free and puts every meta-pipeline behind all it depends on. */
  ghost predicate Topological(metas: seq<Meta>, order: seq<nat>) {
    && InArena(metas, order)
    && (forall i, j :: 0 <= i < j < |order| ==> order[i] != order[j])
    && (forall i, d :: 0 <= i < |order| && d in metas[order[i]].pipes[0].deps ==> d.index == 0 && d.meta in order[..i])
  }

  /** What the scheduling loop relies on: no base pipeline reads from a join, and its
      dependencies are base pipelines of meta-pipelines of lower rank. */
  ghost predicate Schedulable(metas: seq<Meta>, ranks: seq<nat>) {
    |ranks| == |metas| && 2 <= |metas| &&
    forall m :: 1 <= m < |metas| ==> BaseOrdered(metas, ranks, m)
  }

  ghost predicate BaseOrdered(metas: seq<Meta>, ranks: seq<nat>, m: nat)
    requires m < |metas| == |ranks|
  {
    && 0 < |metas[m].pipes|
    && (forall k :: 0 <= k < |metas[m].pipes| ==> metas[m].pipes[k].source.Some?)
    && !metas[m].pipes[0].source.value.FromJoin?
    && forall d <- metas[m].pipes[0].deps :: d.index == 0 && 1 <= d.meta < |metas| && ranks[d.meta] < ranks[m]
  }

  // -------------------------------------------------------------------------------------------
  // Some meta-pipeline is always ready
  // -------------------------------------------------------------------------------------------

  /** Not scheduled yet, and every dependency is. */
  ghost predicate CanGo(metas: seq<Meta>, order: seq<nat>, m: nat) {
    && 1 <= m < |metas| && 0 < |metas[m].pipes| && m !in order
    && forall d <- metas[m].pipes[0].deps :: d.meta in order
  }

  function Elements(order: seq<nat>): (all: set<nat>)
    ensures forall m :: m in all <==> m in order
    ensures (forall i, j :: 0 <= i < j < |order| ==> order[i] != order[j]) ==> |all| == |order|
  {
    if order == [] then {} else Elements(order[..|order| - 1]) + {order[|order| - 1]}
  }

  function Numbers(hi: nat): (all: set<nat>)
    requires 1 <= hi
    ensures forall m :: m in all <==> 1 <= m < hi
    ensures |all| == hi - 1
  {
    if hi == 1 then {} else Numbers(hi - 1) + {hi - 1}
  }

  lemma Unscheduled(metas: seq<Meta>, order: seq<nat>) returns (m: nat)
    requires Topological(metas, order) && |order| < |metas| - 1
    ensures 1 <= m < |metas| && m !in order
  {
    var left := Numbers(|metas|) - Elements(order);
    assert |left| >= |Numbers(|metas|)| - |Elements(order)|;
    m :| m in left;
  }

  lemma {:induction false} SomeCanGo(metas: seq<Meta>, ranks: seq<nat>, order: seq<nat>, m: nat) returns (r: nat)
    requires Schedulable(metas, ranks) && 1 <= m < |metas| && m !in order
    ensures CanGo(metas, order, r)
    decreases ranks[m]
  {
    assert BaseOrdered(metas, ranks, m);
    if d :| d in metas[m].pipes[0].deps && d.meta !in order {
      r := SomeCanGo(metas, ranks, order, d.meta);
    } else {
      r := m;
    }
  }

  lemma {:induction false} BlockRefs(metas: seq<Meta>, m: nat, k: nat)
    requires m < |metas| && k <= |metas[m].pipes|
    ensures forall r <- Block(metas, m, k) :: r.meta == m && k <= r.index < |metas[m].pipes|
    decreases |metas[m].pipes| - k
  {
    if k < |metas[m].pipes| {
      BlockRefs(metas, m, k + 1);
    }
  }

  /** The meta-pipeline at position `start + j` of the round was not ready. */
  ghost predicate TurnedDown(metas: seq<Meta>, order: seq<nat>, n: nat, start: nat, j: nat)
    requires start < n && j < n
  {
    !CanGo(metas, order, n - Wrap(start + j, n))
  }

  /** The position after `x` steps of a round over `n` positions. */
  function Wrap(x: nat, n: nat): nat {
    if x < n then x else x - n
  }

  /** `m` is scheduled next. */
  lemma OrderGrows(metas: seq<Meta>, ranks: seq<nat>, order: seq<nat>, m: nat)
    requires Topological(metas, order) && CanGo(metas, order, m) && Schedulable(metas, ranks)
    ensures Topological(metas, order + [m]) && InArena(metas, order) && InArena(metas, order + [m])
    ensures Blocks(metas, order + [m]) == Blocks(metas, order) + Block(metas, m, 0)
    ensures PipeRef(m, 0) in Block(metas, m, 0) && forall r <- Block(metas, m, 0) :: r.meta == m
  {
    var next := order + [m];
    assert next[..|next| - 1] == order;
    assert forall i :: 0 <= i < |order| ==> next[..i] == order[..i];
    assert BaseOrdered(metas, ranks, m);
    BlockRefs(metas, m, 0);
    forall i, d | 0 <= i < |next| && d in metas[next[i]].pipes[0].deps
      ensures d.index == 0 && d.meta in next[..i]
    {
      if i < |order| {
        assert d in metas[order[i]].pipes[0].deps;
      }
    }
  }

  lemma SchedulableSize(metas: seq<Meta>, ranks: seq<nat>)
    requires Schedulable(metas, ranks)
    ensures 2 <= |metas|
  {
  }

  lemma SourcesKnown(metas: seq<Meta>, ranks: seq<nat>, m: nat)
    requires Schedulable(metas, ranks) && 1 <= m < |metas|
    ensures forall k :: 0 <= k < |metas[m].pipes| ==> metas[m].pipes[k].source.Some?
  {
    assert BaseOrdered(metas, ranks, m);
  }

  lemma NothingScheduled(metas: seq<Meta>, n: nat)
    requires 0 < n
    ensures Topological(metas, []) && InArena(metas, []) && Blocks(metas, []) == [] && Tracks([], [])
    ensures Wrap(0 + 0, n) == 0
  {
  }

  /** While something is left, some position of the round is ready. */
  lemma ReadyPosition(metas: seq<Meta>, ranks: seq<nat>, order: seq<nat>, start: nat, n: nat) returns (j: nat)
    requires Topological(metas, order) && Schedulable(metas, ranks) && |order| < n == |metas| - 1 && start < n
    ensures j < n && !TurnedDown(metas, order, n, start, j)
  {
    var u := Unscheduled(metas, order);
    var r := SomeCanGo(metas, ranks, order, u);
    j := if n - r >= start then n - r - start else n - r + n - start;
    assert n - Wrap(start + j, n) == r;
  }

  lemma RoundsGoOn(metas: seq<Meta>, ranks: seq<nat>, order: seq<nat>, start: nat, idle: nat, n: nat)
    requires Topological(metas, order) && Schedulable(metas, ranks) && |order| < n == |metas| - 1
    requires start < n && idle <= n
    requires forall j :: 0 <= j < idle ==> TurnedDown(metas, order, n, start, j)
    ensures idle < n
  {
    var j := ReadyPosition(metas, ranks, order, start, n);
  }

  /** At most `n` rounds for each scheduled meta-pipeline. */
  function Budget(count: nat, n: nat): nat {
    count * n
  }

  lemma BudgetIs(n: nat)
    ensures Budget(n, n) == n * n
  {
  }

  lemma BudgetStep(count: nat, n: nat, start: nat, idle: nat)
    requires start < n && idle < n && Wrap(start + idle, n) < n
    ensures Budget(count + 1, n) == Budget(count, n) + n
    ensures var next := (Wrap(start + idle, n) + 1) % n;
            next < n && next == Wrap(start + (idle + 1), n) && next == Wrap(next, n)
  {
  }

  lemma TurnedDownNow(metas: seq<Meta>, order: seq<nat>, n: nat, start: nat, idle: nat)
    requires start < n && idle < n && !CanGo(metas, order, n - Wrap(start + idle, n))
    ensures TurnedDown(metas, order, n, start, idle)
  {
  }

  lemma StillTracks(scheduled: seq<PipeRef>, order: seq<nat>, metas: seq<Meta>, m: nat)
    requires Tracks(scheduled, order) && m < |metas|
    requires PipeRef(m, 0) in Block(metas, m, 0) && forall r <- Block(metas, m, 0) :: r.meta == m
    ensures Tracks(scheduled + Block(metas, m, 0), order + [m])
  {
  }

  predicate BasesIn(ms: seq<nat>, scheduled: seq<PipeRef>) {
    forall m <- ms :: PipeRef(m, 0) in scheduled
  }

  /** The bases in the schedule are those of the scheduled meta-pipelines. */
  ghost predicate Tracks(scheduled: seq<PipeRef>, order: seq<nat>) {
    forall m :: PipeRef(m, 0) in scheduled <==> m in order
  }

  // -------------------------------------------------------------------------------------------
  // Compiled plans can be scheduled
  // -------------------------------------------------------------------------------------------

  function Ranks(js: seq<Job>): seq<nat> {
    seq(|js|, i requires 0 <= i < |js| => js[i].Rank())
  }

  lemma {:induction false} ChildPipesSourced(ops: seq<Operator>, from: nat, sink: Option<Sink>)
    requires from <= |ops|
    ensures forall p <- ChildPipes(ops, from, sink) :: p.source.Some? && p.sink == sink && !p.ready
    decreases |ops| - from
  {
    if from < |ops| {
      ChildPipesSourced(ops, from + 1, sink);
    }
  }

  lemma ShapePipes(sink: Sink, s: Spine)
    ensures var m := Shape(sink, s);
            && m.sink == Some(sink) && m.children == s.children && 0 < |m.pipes|
            && m.pipes[0] == Pipe(Some(s.source), s.ops, Some(sink), BaseRefs(s.deps), false)
            && m.pipes[1..] == ChildPipes(s.ops, 0, Some(sink))
            && (forall k :: 0 <= k < |m.pipes| ==>
                  m.pipes[k].source.Some? && m.pipes[k].sink == Some(sink) && !m.pipes[k].ready)
            && m.inner == InnerMap(|m.pipes|)
  {
    hide ChildPipes, InnerMap;
    ChildPipesSourced(s.ops, 0, Some(sink));
    assert [] + s.ops == s.ops && [] + s.children == s.children && [] + BaseRefs(s.deps) == BaseRefs(s.deps);
  }

  lemma BaseRefsPoint(metas: seq<nat>)
    ensures forall d <- BaseRefs(metas) :: d.index == 0 && d.meta in metas
  {
  }

  lemma JobOrdered(collector: OpId, p: Plan, m: nat)
    requires WellFormed(p) && 1 <= m < 2 + NumMetas(p)
    ensures var js := AllJobs(collector, p);
            && BaseOrdered(Compiled(collector, p), Ranks(js), m)
            && 1 <= js[m].Size() && m + js[m].Size() <= |js|
            && Tiles(Compiled(collector, p)[m].children, m + 1, m + js[m].Size(), Sizes(js))
  {
    hide SpineOf, Compiled, AllJobs, JobsOf, Shape, EnvFits, ScopeFits, Tiles;
    var js := AllJobs(collector, p);
    var j := js[m];
    CompiledIsJobs(collector, p, m);
    AllJobsFit(collector, p);
    assert JobFits(js, m);
    SpineRanks(js, j.branch.plan, m + 1, j.rank0, j.env);
    SpineTiles(js, j.branch.plan, m + 1, j.rank0, j.env);
    ShapePipes(j.branch.sink, SpineOf(j.branch.plan, m + 1, j.env));
    BaseRefsPoint(SpineOf(j.branch.plan, m + 1, j.env).deps);
    assert |JobsOf(j.branch.plan, m + 1, j.rank0, j.env)| == NumMetas(j.branch.plan);
  }

  /** Compiled plans form a forest whose dependencies go down in build-finish order. */
  lemma CompiledSchedulable(collector: OpId, p: Plan)
    requires WellFormed(p)
    ensures var js, metas := AllJobs(collector, p), Compiled(collector, p);
            Schedulable(metas, Ranks(js)) && Forest(metas, Sizes(js)) && Sizes(js)[0] == |metas|
  {
    hide BaseOrdered, Compiled, AllJobs, Tiles;
    RootTiles(collector, p);
    var js, metas := AllJobs(collector, p), Compiled(collector, p);
    forall m | 1 <= m < |metas|
      ensures BaseOrdered(metas, Ranks(js), m) && 1 <= js[m].Size() && m + js[m].Size() <= |metas|
      ensures Tiles(metas[m].children, m + 1, m + js[m].Size(), Sizes(js))
    {
      JobOrdered(collector, p, m);
    }
  }

  lemma RootTiles(collector: OpId, p: Plan)
    requires WellFormed(p)
    ensures Tiles(Compiled(collector, p)[0].children, 1, 2 + NumMetas(p), Sizes(AllJobs(collector, p)))
    ensures AllJobs(collector, p)[0].Size() == 2 + NumMetas(p)
  {
    hide MetasOf, SpineOf, JobsOf, Shape, ChildPipes, InnerMap, UniqueIds, Scoped;
    var children := Compiled(collector, p)[0].children;
    assert children == [1] && children[1..] == [];
    assert NumMetas(Breaker(collector, p)) == BranchSize(Breaker(collector, p)) == 1 + NumMetas(p);
  }

  lemma ReadyKeepsSchedulable(metas: seq<Meta>, ranks: seq<nat>, lo: nat, hi: nat)
    requires Schedulable(metas, ranks)
    ensures Schedulable(ReadyRange(metas, lo, hi), ranks)
  {
    hide Reverse;
    var ready := ReadyRange(metas, lo, hi);
    forall m | 1 <= m < |metas|
      ensures BaseOrdered(ready, ranks, m)
    {
      assert BaseOrdered(metas, ranks, m);
      assert ready[m].pipes[0].deps == metas[m].pipes[0].deps;
    }
  }

  class QueryScheduler {
    var metas: seq<Meta>
    var scheduled: seq<PipeRef>

    constructor (compiled: seq<Meta>)
      ensures metas == compiled && scheduled == []
    {
      metas, scheduled := compiled, [];
    }

    // GPUPipeline::Ready: reverse once.
    method ReadyPipeline(r: PipeRef)
      requires r.meta < |metas| && r.index < |metas[r.meta].pipes|
      modifies this`metas
      ensures metas == old(metas)[r.meta := old(metas[r.meta]).(
                         pipes := old(metas[r.meta].pipes)[r.index := ReadyPipe(old(metas[r.meta].pipes[r.index]))])]
    {
      var pipe := metas[r.meta].pipes[r.index];
      if !pipe.ready {
        pipe := pipe.(ready := true);
        var reversed := [];
        for i := 0 to |pipe.operators|
          invariant reversed == Reverse(pipe.operators[..i]) && metas == old(metas)
        {
          ReverseAppend(pipe.operators[..i], pipe.operators[i]);
          assert pipe.operators[..i + 1] == pipe.operators[..i] + [pipe.operators[i]];
          reversed := [pipe.operators[i]] + reversed;
        }
        assert pipe.operators[..|pipe.operators|] == pipe.operators;
        pipe := pipe.(operators := reversed);
      }
      assert pipe == ReadyPipe(old(metas[r.meta].pipes[r.index]));
      metas := metas[r.meta := metas[r.meta].(pipes := metas[r.meta].pipes[r.index := pipe])];
    }

    // GPUMetaPipeline::Ready: its pipelines, then its children.
    method ReadyMetaPipeline(m: nat, ghost sizes: seq<nat>)
      requires Forest(metas, sizes) && m < |metas|
      modifies this`metas
      ensures metas == ReadyRange(old(metas), m, m + sizes[m])
      decreases |metas| - m
    {
      hide Forest, ReadyPipe;
      ForestUnpack(metas, sizes, m);
      ReadyOwnPipelines(m);
      var children := metas[m].children;
      assert children[0..] == children;
      ghost var next := m + 1;
      for i := 0 to |children|
        invariant m + 1 <= next <= |old(metas)| && metas == ReadyRange(old(metas), m, next)
        invariant Tiles(children[i..], next, m + sizes[m], sizes)
      {
        NextChild(children, i, next, m + sizes[m], sizes);
        ReadyKeepsForest(old(metas), sizes, m, next);
        ReadySplit(old(metas), m, next, next + sizes[next]);
        ReadyMetaPipeline(children[i], sizes);
        next := next + sizes[next];
      }
    }

    method ReadyOwnPipelines(m: nat)
      requires m < |metas|
      modifies this`metas
      ensures metas == ReadyRange(old(metas), m, m + 1)
    {
      var count := |metas[m].pipes|;
      for i := 0 to count
        invariant |metas| == |old(metas)| && metas == old(metas)[m := metas[m]]
        invariant metas[m] == old(metas[m]).(pipes := metas[m].pipes) && |metas[m].pipes| == count
        invariant forall k :: 0 <= k < i ==> metas[m].pipes[k] == ReadyPipe(old(metas[m].pipes[k]))
        invariant forall k :: i <= k < count ==> metas[m].pipes[k] == old(metas[m].pipes[k])
      {
        ReadyPipeline(PipeRef(m, i));
      }
      assert metas[m].pipes == ReadyMeta(old(metas[m])).pipes;
    }

    // GPUMetaPipeline::GetMetaPipelines
    method GetMetaPipelines(m: nat, recursive: bool, skip: bool, result: seq<nat>, ghost sizes: seq<nat>)
      returns (all: seq<nat>)
      requires Forest(metas, sizes) && m < |metas|
      ensures all == result + (if skip then [] else [m]) + (if recursive then Range(m + 1, m + sizes[m]) else [])
      decreases |metas| - m
    {
      hide Forest, Range;
      ForestUnpack(metas, sizes, m);
      RangeEmpty(m + 1);
      all := result;
      if !skip {
        all := all + [m];
      }
      ghost var start := all;
      if recursive {
        var children := metas[m].children;
        assert children[0..] == children;
        ghost var next := m + 1;
        for i := 0 to |children|
          invariant m + 1 <= next <= m + sizes[m] && all == start + Range(m + 1, next)
          invariant Tiles(children[i..], next, m + sizes[m], sizes)
        {
          NextChild(children, i, next, m + sizes[m], sizes);
          all := GetMetaPipelines(children[i], true, false, all, sizes);
          RangeStep(start, m + 1, next, next + sizes[next]);
          next := next + sizes[next];
        }
      }
    }

    // One round of the scheduling loop: is meta-pipeline `m` new, and is all it needs scheduled?
    method ShouldSchedule(m: nat, ghost sizes: seq<nat>, ghost ranks: seq<nat>, ghost order: seq<nat>) returns (b: bool)
      requires 1 <= m < |metas| && Forest(metas, sizes) && Schedulable(metas, ranks) && Tracks(scheduled, order)
      ensures b <==> CanGo(metas, order, m)
    {
      assert BaseOrdered(metas, ranks, m);
      // GetMetaPipelines(children, false, true) lists nothing, so this check never rejects
      var children := GetMetaPipelines(m, false, true, [], sizes);
      var base := PipeRef(m, 0);
      if base in scheduled {
        return false;
      }
      if !BasesIn(children, scheduled) {
        return false;
      }
      b := true;
      var deps := metas[m].pipes[0].deps;
      for i := 0 to |deps|
        invariant b && forall k :: 0 <= k < i ==> deps[k].meta in order
      {
        if deps[i] !in scheduled {
          assert deps[i] in metas[m].pipes[0].deps && deps[i] == PipeRef(deps[i].meta, 0);
          return false;
        }
        assert deps[i] in metas[m].pipes[0].deps && deps[i] == PipeRef(deps[i].meta, 0);
      }
    }

    // Push the pipelines of `m`, except those that only restart a non-right hash join.
    method PushPipelines(m: nat)
      requires m < |metas| && forall k :: 0 <= k < |metas[m].pipes| ==> metas[m].pipes[k].source.Some?
      modifies this`scheduled
      ensures scheduled == old(scheduled) + Block(metas, m, 0)
    {
      var inside := metas[m].pipes;
      for i := 0 to |inside|
        invariant scheduled + Block(metas, m, i) == old(scheduled) + Block(metas, m, 0)
      {
        var source := inside[i].source.value;
        if source.FromJoin? && source.kind.Hash? {
          var t := source.kind.joinType;
          if t.Right? || t.RightSemi? || t.RightAnti? {
            scheduled := scheduled + [PipeRef(m, i)];
          }
        } else {
          scheduled := scheduled + [PipeRef(m, i)];
        }
      }
    }

    // Schedule `m`, which is ready.
    method ScheduleOne(m: nat, ghost ranks: seq<nat>, ghost order: seq<nat>)
      requires Topological(metas, order) && InArena(metas, order) && CanGo(metas, order, m) && Schedulable(metas, ranks)
      requires scheduled == Blocks(metas, order) && Tracks(scheduled, order)
      modifies this`scheduled
      ensures Topological(metas, order + [m]) && InArena(metas, order + [m])
      ensures scheduled == Blocks(metas, order + [m]) && Tracks(scheduled, order + [m])
    {
      hide Schedulable, Topological, Blocks, Tracks, InArena;
      OrderGrows(metas, ranks, order, m);
      SourcesKnown(metas, ranks, m);
      StillTracks(scheduled, order, metas, m);
      PushPipelines(m);
    }

    // The scheduling loop of InitializeInternal: walk the meta-pipelines round and round, from
    // the last one collected to the first, until all are scheduled.
    method ScheduleAll(ghost sizes: seq<nat>, ghost ranks: seq<nat>) returns (ghost order: seq<nat>, ghost rounds: nat)
      requires Schedulable(metas, ranks) && Forest(metas, sizes) && sizes[0] == |metas| && scheduled == []
      modifies this`scheduled
      ensures Topological(metas, order) && |order| == |metas| - 1
      ensures scheduled == Blocks(metas, order)
      ensures rounds <= (|metas| - 1) * (|metas| - 1)
    {
      hide Forest, Schedulable, Topological, CanGo, TurnedDown, Wrap, Blocks, Budget, Tracks;
      SchedulableSize(metas, ranks);
      var toSchedule := GetMetaPipelines(0, true, true, [], sizes);
      var n := |toSchedule|;
      var count: nat, meta: nat := 0, 0;
      order, rounds := [], 0;
      ghost var start: nat, idle: nat := 0, 0;
      NothingScheduled(metas, n);
      while count < n
        invariant count == |order| <= n && Topological(metas, order) && InArena(metas, order) && scheduled == Blocks(metas, order)
        invariant Tracks(scheduled, order)
        invariant start < n && idle <= n && meta == Wrap(start + idle, n) && meta < n
        invariant forall j :: 0 <= j < idle ==> TurnedDown(metas, order, n, start, j)
        invariant rounds <= Budget(count, n) + idle && (count == n ==> rounds <= Budget(n, n))
        decreases n - count, n - idle
      {
        RoundsGoOn(metas, ranks, order, start, idle, n);
        var m := toSchedule[n - 1 - meta];
        assert m == n - meta;
        var should := ShouldSchedule(m, sizes, ranks, order);
        rounds := rounds + 1;
        BudgetStep(count, n, start, idle);
        if should {
          ScheduleOne(m, ranks, order);
          order := order + [m];
          count := count + 1;
          start, idle := (meta + 1) % n, 0;
        } else {
          TurnedDownNow(metas, order, n, start, idle);
          idle := idle + 1;
        }
        meta := (meta + 1) % n;
      }
      assert Budget(n, n) == n * n by { BudgetIs(n); }
    }
  }
}

/** The pipeline compiler: GPUMetaPipeline, GPUPipelineBuildState and the BuildPipelines methods
    of the operators, over one arena of meta-pipelines. */
module Compiler {
  import opened Options
  import opened Plans
  import opened Pipelines

  /** The pipelines numbered `lo` up to `hi`, without `dependant`. */
  function CreatedSince(lo: nat, hi: nat, dependant: nat): seq<nat>
    decreases hi - lo
  {
    if lo >= hi then []
    else (if lo == dependant then [] else [lo]) + CreatedSince(lo + 1, hi, dependant)
  }

  lemma CreatedStep(lo: nat, hi: nat, dependant: nat)
    requires lo < hi
    ensures CreatedSince(lo, hi, dependant) == (if lo == dependant then [] else [lo]) + CreatedSince(lo + 1, hi, dependant)
  {
  }

  lemma CreatedNone(lo: nat, hi: nat, dependant: nat)
    ensures lo >= hi ==> CreatedSince(lo, hi, dependant) == []
  {
  }

  // -------------------------------------------------------------------------------------------
  // The two scan tables
  // -------------------------------------------------------------------------------------------

  /** A scan table that only gained entries of operators in `ids`. */
  ghost predicate GrewBy(before: map<OpId, PipeRef>, after: map<OpId, PipeRef>, ids: set<OpId>) {
    && (forall s :: s in before ==> s in after && after[s] == before[s])
    && (forall s :: s in after && s !in before ==> s in ids)
  }

  /** The scan table holds exactly the DELIM scans of `p` that the delim join in force claims. */
  ghost predicate DelimsReady(p: Plan, env: Scope, table: map<OpId, PipeRef>) {
    && (forall s <- GatherDelimScans(p) ::
          env.delim.Some? && s in table && table[s] == PipeRef(env.delim.value.1, 0))
    && (forall s :: s in Ids(p) && s in table ==> s in GatherDelimScans(p))
  }

  /** The scan table holds exactly the CTE scans of `p` that the CTEs in scope claim. */
  ghost predicate CtesReady(p: Plan, env: Scope, table: map<OpId, PipeRef>) {
    && (forall c, s :: c in env.ctes && s in RecordedCteScans(p, c) ==>
          s in table && table[s] == PipeRef(env.ctes[c], 0))
    && (forall s :: s in Ids(p) && s in table ==> exists c :: c in env.ctes && s in RecordedCteScans(p, c))
  }

  /** `q` is a part of `p` that sees the same scopes. */
  ghost predicate DelimPart(q: Plan, p: Plan) {
    && Ids(q) <= Ids(p)
    && (forall s <- GatherDelimScans(q) :: s in GatherDelimScans(p))
    && (forall s <- GatherDelimScans(p) :: s in Ids(q) ==> s in GatherDelimScans(q))
  }

  ghost predicate CtePart(q: Plan, p: Plan) {
    && Ids(q) <= Ids(p)
    && (forall c, s :: s in RecordedCteScans(q, c) ==> s in RecordedCteScans(p, c))
    && (forall c, s :: s in RecordedCteScans(p, c) && s in Ids(q) ==> s in RecordedCteScans(q, c))
  }

  lemma {:induction false} PartDelimsReady(p: Plan, q: Plan, env: Scope, before: map<OpId, PipeRef>, after: map<OpId, PipeRef>,
                        ids: set<OpId>)
    requires DelimsReady(p, env, before) && DelimPart(q, p) && GrewBy(before, after, ids) && ids !! Ids(q)
    ensures DelimsReady(q, env, after)
  {
  }

  lemma {:induction false} PartCtesReady(p: Plan, q: Plan, env: Scope, before: map<OpId, PipeRef>,
                                         after: map<OpId, PipeRef>, ids: set<OpId>)
    requires CtesReady(p, env, before) && CtePart(q, p) && GrewBy(before, after, ids) && ids !! Ids(q)
    ensures CtesReady(q, env, after)
  {
    hide Ids, RecordedCteScans;
    forall c, s | c in env.ctes && s in RecordedCteScans(q, c)
      ensures s in after && after[s] == PipeRef(env.ctes[c], 0)
    {
      assert s in RecordedCteScans(p, c);
    }
    forall s | s in Ids(q) && s in after
      ensures exists c :: c in env.ctes && s in RecordedCteScans(q, c)
    {
      assert s in before && s in Ids(p);
      var c :| c in env.ctes && s in RecordedCteScans(p, c);
      assert s in RecordedCteScans(q, c);
    }
  }

  lemma {:induction false} OneCtePerScan(p: Plan, c: OpId, d: OpId, s: OpId)
    requires UniqueIds(p) && s in RecordedCteScans(p, c) && s in RecordedCteScans(p, d)
    ensures c == d
    decreases p, 1
  {
    match p
    case Streaming(_, q) => OneCtePerScan(q, c, d, s);
    case Breaker(_, q) => OneCtePerScan(q, c, d, s);
    case Join(_, _, l, r) => OneOfTwo(p, l, r, c, d, s);
    case Cte(_, t, b) => OneOfTwo(p, t, b, c, d, s);
    case LeftDelim(_, l, r) => OneOfTwo(p, l, r, c, d, s);
    case RightDelim(_, l, _, _, r) => OneOfTwo(p, l, r, c, d, s);
    case _ =>
  }

  lemma {:induction false} OneOfTwo(p: Plan, l: Plan, r: Plan, c: OpId, d: OpId, s: OpId)
    requires l < p && r < p && UniqueIds(l) && UniqueIds(r) && Ids(l) !! Ids(r)
    requires s in RecordedCteScans(l, c) || s in RecordedCteScans(r, c)
    requires s in RecordedCteScans(l, d) || s in RecordedCteScans(r, d)
    ensures c == d
    decreases p, 0
  {
    ScansAreOperators(l);
    ScansAreOperators(r);
    if s in Ids(l) {
      OneCtePerScan(l, c, d, s);
    } else {
      OneCtePerScan(r, c, d, s);
    }
  }

  /** The branch and the rest of `p` see the scopes of `p`; only the correlated side of a delim
      join has DELIM scans of its own. */
  lemma PartsSplit(p: Plan)
    requires UniqueIds(p)
    ensures BranchOf(p).Some? ==> var q := BranchOf(p).value.plan; UniqueIds(q) && DelimPart(q, p) && CtePart(q, p)
    ensures RestOf(p).Some? ==> var r := RestOf(p).value; UniqueIds(r) && CtePart(r, p)
    ensures RestOf(p).Some? && !p.LeftDelim? && !p.RightDelim? ==> DelimPart(RestOf(p).value, p)
    ensures BranchOf(p).Some? && RestOf(p).Some? ==> Ids(BranchOf(p).value.plan) !! Ids(RestOf(p).value)
    ensures forall o <- OperatorsOf(p) :: o.id in Ids(p) && (RestOf(p).Some? ==> o.id !in Ids(RestOf(p).value))
  {
    if BranchOf(p).Some? {
      ScansAreOperators(BranchOf(p).value.plan);
    }
    if RestOf(p).Some? {
      ScansAreOperators(RestOf(p).value);
    }
  }

  predicate IsDelimSink(s: Option<Sink>, id: OpId)
    ensures IsDelimSink(s, id) ==> s == Some(ToLeftDelim(id)) || (s.Some? && s.value.ToRightDelim? && s.value.id == id)
  {
    s.Some? && s.value.id == id && (s.value.ToLeftDelim? || s.value.ToRightDelim?)
  }

  function BaseSink(m: Meta): Option<Sink> {
    if |m.pipes| > 0 then m.pipes[0].sink else None
  }

  predicate DelimKnown(env: Scope, metas: seq<Meta>) {
    env.delim.Some? ==> env.delim.value.1 < |metas| && IsDelimSink(BaseSink(metas[env.delim.value.1]), env.delim.value.0)
  }

  lemma DelimStaysKnown(env: Scope, metas: seq<Meta>, m: nat, x: Meta, more: seq<Meta>)
    requires DelimKnown(env, metas) && m < |metas| && BaseSink(x) == BaseSink(metas[m])
    ensures DelimKnown(env, metas[m := x] + more)
  {
  }

  /** `q` can be built: its scans are in the tables. */
  ghost predicate SideReady(q: Plan, env: Scope, delims: map<OpId, PipeRef>, ctes: map<OpId, PipeRef>) {
    UniqueIds(q) && ScopeFits(q, env) && env.ctes.Keys !! Ids(q) && DelimsReady(q, env, delims) && CtesReady(q, env, ctes)
  }

  lemma BranchReady(p: Plan, env: Scope, d0: map<OpId, PipeRef>, c0: map<OpId, PipeRef>)
    requires SideReady(p, env, d0, c0) && BranchOf(p).Some?
    ensures SideReady(BranchOf(p).value.plan, BranchScope(env), d0, c0)
  {
    hide DelimsReady, CtesReady, DelimPart, CtePart, UniqueIds;
    PartsSplit(p);
    PartsFit(p, 0, env);
    var q := BranchOf(p).value.plan;
    PartDelimsReady(p, q, env, d0, d0, {});
    PartCtesReady(p, q, env, c0, c0, {});
    ScopedAlike(q, env, BranchScope(env));
  }

  /** The tables only speak about the delim join in force and the CTEs in scope. */
  lemma ScopedAlike(q: Plan, env: Scope, other: Scope)
    ensures env.delim == other.delim ==> forall d :: DelimsReady(q, env, d) ==> DelimsReady(q, other, d)
    ensures env.ctes == other.ctes ==> forall c :: CtesReady(q, env, c) ==> CtesReady(q, other, c)
  {
  }

  /** The rest of an operator that opens no scope, after its branch was built. */
  lemma RestReady(p: Plan, n: nat, env: Scope, d0: map<OpId, PipeRef>, c0: map<OpId, PipeRef>,
                  d1: map<OpId, PipeRef>, c1: map<OpId, PipeRef>)
    requires SideReady(p, env, d0, c0) && RestOf(p).Some? && (p.Streaming? || p.Join?)
    requires GrewBy(d0, d1, BranchIds(p)) && GrewBy(c0, c1, BranchIds(p))
    ensures SideReady(RestOf(p).value, RestScope(p, n, env), d1, c1)
  {
    hide DelimsReady, CtesReady, DelimPart, CtePart, UniqueIds;
    PartsSplit(p);
    PartsFit(p, n, env);
    var r := RestOf(p).value;
    PartDelimsReady(p, r, env, d0, d1, BranchIds(p));
    PartCtesReady(p, r, env, c0, c1, BranchIds(p));
  }

  function BranchIds(p: Plan): set<OpId> {
    if BranchOf(p).Some? then Ids(BranchOf(p).value.plan) else {}
  }

  /** The CTE scans of the body of a CTE, once the CTE has claimed its own. */
  lemma UnderCteReady(p: Plan, env: Scope, n: nat, c1: map<OpId, PipeRef>, c2: map<OpId, PipeRef>)
    requires p.Cte? && UniqueIds(p) && CtesReady(p.bottom, env, c1) && env.ctes.Keys !! Ids(p)
    requires forall s :: s in c1 ==> s in c2 && c2[s] == c1[s]
    requires forall s :: s in c2 && s !in c1 ==> s in RecordedCteScans(p, p.id) && c2[s] == PipeRef(n, 0)
    requires forall s <- RecordedCteScans(p, p.id) :: s in c2
    ensures CtesReady(p.bottom, RestScope(p, n, env), c2)
  {
    hide UniqueIds, RecordedCteScans, Ids;
    var q, inner := p.bottom, RestScope(p, n, env);
    forall c, s | c in inner.ctes && s in RecordedCteScans(q, c)
      ensures s in c2 && c2[s] == PipeRef(inner.ctes[c], 0)
    {
      ClaimedOnce(p, env, c1, c, s);
    }
    forall s | s in Ids(q) && s in c2
      ensures exists c :: c in inner.ctes && s in RecordedCteScans(q, c)
    {
      ClaimedBySome(p, env, c1, s);
    }
  }

  lemma ClaimedBySome(p: Plan, env: Scope, c1: map<OpId, PipeRef>, s: OpId)
    requires p.Cte? && UniqueIds(p) && CtesReady(p.bottom, env, c1) && s in Ids(p.bottom)
    requires s in c1 || s in RecordedCteScans(p, p.id)
    ensures exists c :: (c in env.ctes || c == p.id) && s in RecordedCteScans(p.bottom, c)
  {
    if s !in c1 {
      ScansAreOperators(p.top);
      assert s in RecordedCteScans(p.bottom, p.id);
    }
  }

  lemma ClaimedOnce(p: Plan, env: Scope, c1: map<OpId, PipeRef>, c: OpId, s: OpId)
    requires p.Cte? && UniqueIds(p) && CtesReady(p.bottom, env, c1) && env.ctes.Keys !! Ids(p)
    requires c in env.ctes || c == p.id
    requires s in RecordedCteScans(p.bottom, c)
    ensures s in RecordedCteScans(p, p.id) || c in env.ctes
    ensures s in c1 <==> c in env.ctes
    ensures c == p.id ==> p.id !in env.ctes
  {
    ScansAreOperators(p.bottom);
    assert p.id in Ids(p) && UniqueIds(p.bottom);
    if s in c1 {
      var d :| d in env.ctes && s in RecordedCteScans(p.bottom, d);
      OneCtePerScan(p.bottom, c, d, s);
    }
  }

  /** The correlated side of a delim join, once the join has claimed its scans. */
  lemma UnderDelimReady(p: Plan, env: Scope, n: nat, d0: map<OpId, PipeRef>, d1: map<OpId, PipeRef>, d2: map<OpId, PipeRef>)
    requires UniqueIds(p) && (p.LeftDelim? || p.RightDelim?) && DelimsReady(p, env, d0) && GrewBy(d0, d1, BranchIds(p))
    requires forall s :: s in d1 ==> s in d2
    requires forall s :: s in d2 && s !in d1 ==> s in GatherDelimScans(RestOf(p).value) && d2[s] == PipeRef(n, 0)
    requires forall s <- GatherDelimScans(RestOf(p).value) :: s in d2
    ensures DelimsReady(RestOf(p).value, RestScope(p, n, env), d2)
  {
    hide UniqueIds, BranchOf;
    var q := RestOf(p).value;
    ScansAreOperators(q);
    UnclaimedYet(p, env, d0, d1);
  }

  lemma UnclaimedYet(p: Plan, env: Scope, d0: map<OpId, PipeRef>, d1: map<OpId, PipeRef>)
    requires UniqueIds(p) && (p.LeftDelim? || p.RightDelim?) && DelimsReady(p, env, d0) && GrewBy(d0, d1, BranchIds(p))
    ensures forall s :: s in d1 ==> s !in Ids(RestOf(p).value)
  {
    PartsSplit(p);
    ScansAreOperators(BranchOf(p).value.plan);
  }

  lemma NothingClaimed(p: Plan)
    requires WellFormed(p)
    ensures GatherDelimScans(p) == []
    ensures SideReady(p, NO_SCOPE, map[], map[])
  {
    NoFreeDelimScan(p, {}, None);
    assert NO_SCOPE.ctes.Keys == {};
  }

  lemma NoFreeDelimScan(p: Plan, ctes: set<OpId>, cache: Option<OpId>)
    requires Scoped(p, false, ctes, cache)
    ensures GatherDelimScans(p) == []
  {
  }

  // -------------------------------------------------------------------------------------------
  // One step of the compiler, on one meta-pipeline
  // -------------------------------------------------------------------------------------------

  /** `m` after a dependency on the base of `d`. */
  function Waiting(m: Meta, d: nat): Meta
    requires |m.pipes| == 1
  {
    m.(pipes := m.pipes[0 := m.pipes[0].(deps := m.pipes[0].deps + [PipeRef(d, 0)])])
  }

  function WithChild(m: Meta, d: nat): Meta
    requires |m.pipes| == 1
  {
    Waiting(m, d).(children := m.children + [d])
  }

  function WithOperator(m: Meta, o: Operator): Meta
    requires |m.pipes| == 1
  {
    m.(pipes := m.pipes[0 := m.pipes[0].(operators := m.pipes[0].operators + [o])])
  }

  function WithSource(m: Meta, s: Source): Meta
    requires |m.pipes| == 1
  {
    m.(pipes := m.pipes[0 := m.pipes[0].(source := Some(s))])
  }

  lemma GrownLeaf(m: Meta, s: Source)
    requires |m.pipes| == 1 && m.inner == map[]
    ensures Grown(m, Spine([], s, [], [])) == WithSource(m, s)
  {
    var g := Grown(m, Spine([], s, [], []));
    assert m.pipes[0].operators + [] == m.pipes[0].operators && m.pipes[0].deps + BaseRefs([]) == m.pipes[0].deps;
    assert g.pipes == WithSource(m, s).pipes;
    assert InnerMap(1) == map[];
  }

  lemma GrownWaiting(m: Meta, d: nat, s: Spine)
    requires |m.pipes| == 1
    ensures Grown(Waiting(m, d), s) == Grown(m, s.(deps := [d] + s.deps))
    ensures Grown(WithChild(m, d), s) == Grown(m, s.(deps := [d] + s.deps, children := [d] + s.children))
  {
    assert m.pipes[0].deps + [PipeRef(d, 0)] + BaseRefs(s.deps) == m.pipes[0].deps + BaseRefs([d] + s.deps);
    assert m.children + [d] + s.children == m.children + ([d] + s.children);
  }

  lemma GrownOperator(m: Meta, o: Operator, s: Spine)
    requires |m.pipes| == 1 && !Restarts(o)
    ensures Grown(WithOperator(m, o), s) == Grown(m, s.(ops := [o] + s.ops))
  {
    assert m.pipes[0].operators + [o] + s.ops == m.pipes[0].operators + ([o] + s.ops);
  }

  lemma GrownJoin(m: Meta, o: Operator, s: Spine)
    requires |m.pipes| == 1 && Restarts(o)
    ensures var g := Grown(WithOperator(m, o), s);
            var k := |g.pipes|;
            Grown(m, s.(ops := [o] + s.ops)) ==
            g.(pipes := g.pipes + [ChildPipe(g.pipes[0].operators, |m.pipes[0].operators|, m.pipes[0].sink)],
               inner := g.inner[k := CreatedSince(1, k + 1, k) + [0]])
  {
    hide ChildPipes, CreatedSince, InnerDeps, InnerMap;
    var base := m.pipes[0].operators;
    var g := Grown(WithOperator(m, o), s);
    assert base + [o] + s.ops == base + ([o] + s.ops);
    var k := |g.pipes|;
    CreatedBefore(1, k);
    InnerMapGrows(k);
    ChildStep(base + ([o] + s.ops), |base|, m.pipes[0].sink);
    assert Grown(m, s.(ops := [o] + s.ops)).pipes == g.pipes + [ChildPipe(g.pipes[0].operators, |base|, m.pipes[0].sink)];
  }

  lemma ChildStep(ops: seq<Operator>, from: nat, sink: Option<Sink>)
    requires from < |ops|
    ensures ChildPipes(ops, from, sink) ==
            ChildPipes(ops, from + 1, sink) + if Restarts(ops[from]) then [ChildPipe(ops, from, sink)] else []
  {
  }

  lemma InnerMapGrows(k: nat)
    requires 1 <= k
    ensures InnerMap(k + 1) == InnerMap(k)[k := seq(k - 1, i => i + 1) + [0]]
  {
    assert InnerDeps(k) == seq(k - 1, i => i + 1) + [0];
  }

  lemma {:induction false} CreatedBefore(lo: nat, k: nat)
    requires lo <= k
    ensures CreatedSince(lo, k + 1, k) == seq(k - lo, i => i + lo)
    decreases k - lo
  {
    if lo < k {
      CreatedBefore(lo + 1, k);
    }
  }

  /** Two rounds of changing `m` and appending. */
  lemma Chain(metas: seq<Meta>, m: nat, x: Meta, more: seq<Meta>, y: Meta, rest: seq<Meta>)
    requires m < |metas|
    ensures (metas[m := x] + more)[m] == x
    ensures (metas[m := x] + more)[m := y] + rest == metas[m := y] + (more + rest)
    ensures (metas[m := x] + more)[m := y] == metas[m := y] + more
  {
  }

  /** `m` after the operator and the branch of `p` are in place and before its rest. */
  function Prepared(m: Meta, p: Plan, n: nat): Meta
    requires |m.pipes| == 1
  {
    var base := m.pipes[0];
    var own := if BranchOf(p).Some? then [n] else [];
    m.(pipes := m.pipes[0 := base.(operators := base.operators + OperatorsOf(p), deps := base.deps + BaseRefs(own))],
       children := m.children + own)
  }

  /** The last step of a join: one more pipeline, if the join is a source. */
  function WithRestart(g: Meta, o: Operator, at: nat): Meta
    requires |g.pipes| > 0 && at < |g.pipes[0].operators| && g.pipes[0].operators[at].JoinOp?
  {
    if !Restarts(o) then g
    else
      var k := |g.pipes|;
      g.(pipes := g.pipes + [ChildPipe(g.pipes[0].operators, at, g.pipes[0].sink)],
         inner := g.inner[k := CreatedSince(1, k + 1, k) + [0]])
  }

  lemma PreparedParts(m: Meta, p: Plan, n: nat)
    requires |m.pipes| == 1 && |OperatorsOf(p)| <= 1
    ensures var x := if BranchOf(p).Some? then WithChild(m, n) else m;
            Prepared(m, p, n) == if OperatorsOf(p) == [] then x else WithOperator(x, OperatorsOf(p)[0])
  {
    var base := m.pipes[0];
    assert base.operators + [] == base.operators && base.deps + BaseRefs([]) == base.deps && m.children + [] == m.children;
    assert BaseRefs([n]) == [PipeRef(n, 0)];
    assert m.pipes[0 := base] == m.pipes;
    if OperatorsOf(p) != [] {
      assert OperatorsOf(p) == [OperatorsOf(p)[0]];
    }
  }

  lemma GrownRest(m: Meta, p: Plan, n: nat, s: Spine)
    requires |m.pipes| == 1 && RestOf(p).Some?
    ensures var g := Grown(Prepared(m, p, n), s);
            var at := |m.pipes[0].operators|;
            if OperatorsOf(p) == [] then Grown(m, Topped(p, n, s)) == g
            else
              && |g.pipes| !in g.inner && |g.pipes| > 0 && g.pipes[0].source.Some?
              && at < |g.pipes[0].operators| && g.pipes[0].operators[at] == OperatorsOf(p)[0]
              && g.pipes[0].operators[..at] == m.pipes[0].operators
              && (OperatorsOf(p)[0].JoinOp? ==> Grown(m, Topped(p, n, s)) == WithRestart(g, OperatorsOf(p)[0], at))
              && (!OperatorsOf(p)[0].JoinOp? ==> Grown(m, Topped(p, n, s)) == g)
  {
    PreparedParts(m, p, n);
    var x := if BranchOf(p).Some? then WithChild(m, n) else m;
    var t := s.(ops := OperatorsOf(p) + s.ops);
    assert Grown(x, t) == Grown(m, Topped(p, n, s)) by {
      GrownWaiting(m, n, t);
      assert [] + t.deps == t.deps && [] + t.children == t.children;
    }
    if OperatorsOf(p) == [] {
      assert t.ops == s.ops;
    } else {
      var o := OperatorsOf(p)[0];
      assert OperatorsOf(p) == [o];
      if Restarts(o) {
        GrownJoin(x, o, s);
      } else {
        GrownOperator(x, o, s);
      }
    }
  }

  lemma GrownSource(m: Meta, p: Plan, n: nat, env: Scope)
    requires |m.pipes| == 1 && m.inner == map[] && ScopeFits(p, env) && RestOf(p).None? && ScanDeps(p, env) == []
    ensures var x := WithSource(m, SourceOf(p, env));
            Grown(m, SpineOf(p, n, env)) == if BranchOf(p).Some? then WithChild(x, n) else x
  {
    PreparedParts(m, p, n);
    var s := Spine([], SourceOf(p, env), [], []);
    GrownLeaf(Prepared(m, p, n), s.source);
    GrownWaiting(m, n, s);
    var own := if BranchOf(p).Some? then [n] else [];
    assert own + [] == own;
  }

  /** One round that appended `branch`, then one that appended `rest`. */
  lemma Assembled(m0: seq<Meta>, m1: seq<Meta>, m2: seq<Meta>, m: nat, x: Meta, branch: seq<Meta>, g: Meta, rest: seq<Meta>)
    requires m < |m0| && m1 == m0[m := x] + branch
    ensures m1[m] == x && |m1| == |m0| + |branch|
    ensures m2 == m1[m := g] + rest ==> m2 == m0[m := g] + (branch + rest) && m2[m] == g
  {
    Chain(m0, m, x, branch, g, rest);
  }

  lemma JoinPrepared(m: Meta, p: Plan, n: nat)
    requires |m.pipes| == 1 && (p.Join? || p.RightDelim?)
    ensures Prepared(m, p, n) == WithChild(WithOperator(m, OperatorsOf(p)[0]), n)
    ensures Prepared(m, p, n) == WithOperator(WithChild(m, n), OperatorsOf(p)[0])
  {
    PreparedParts(m, p, n);
  }

  /** The body of a CTE. */
  lemma BodyReady(p: Plan, n: nat, env: Scope, d0: map<OpId, PipeRef>, c0: map<OpId, PipeRef>,
                  d1: map<OpId, PipeRef>, c1: map<OpId, PipeRef>, c2: map<OpId, PipeRef>)
    requires p.Cte? && SideReady(p, env, d0, c0)
    requires GrewBy(d0, d1, BranchIds(p)) && GrewBy(c0, c1, BranchIds(p))
    requires forall s :: s in c1 ==> s in c2 && c2[s] == c1[s]
    requires forall s :: s in c2 && s !in c1 ==> s in RecordedCteScans(p, p.id) && c2[s] == PipeRef(n, 0)
    requires forall s <- RecordedCteScans(p, p.id) :: s in c2
    ensures SideReady(p.bottom, RestScope(p, n, env), d1, c2)
    ensures GrewBy(d0, d1, Ids(p)) && GrewBy(c0, c2, Ids(p))
  {
    hide DelimsReady, CtesReady, DelimPart, CtePart, RecordedCteScans;
    PartsSplit(p);
    PartsFit(p, n, env);
    ScansAreOperators(p);
    PartDelimsReady(p, p.bottom, env, d0, d1, BranchIds(p));
    ScopedAlike(p.bottom, env, RestScope(p, n, env));
    PartCtesReady(p, p.bottom, env, c0, c1, BranchIds(p));
    UnderCteReady(p, env, n, c1, c2);
  }

  /** The correlated side of a delim join. */
  lemma CorrelatedReady(p: Plan, n: nat, env: Scope, d0: map<OpId, PipeRef>, c0: map<OpId, PipeRef>,
                        d1: map<OpId, PipeRef>, d2: map<OpId, PipeRef>, c1: map<OpId, PipeRef>)
    requires (p.LeftDelim? || p.RightDelim?) && SideReady(p, env, d0, c0)
    requires GrewBy(d0, d1, BranchIds(p)) && GrewBy(c0, c1, BranchIds(p))
    requires forall s :: s in d1 ==> s in d2 && d2[s] == d1[s]
    requires forall s :: s in d2 && s !in d1 ==> s in GatherDelimScans(RestOf(p).value) && d2[s] == PipeRef(n, 0)
    requires forall s <- GatherDelimScans(RestOf(p).value) :: s in d2
    ensures SideReady(RestOf(p).value, RestScope(p, n, env), d2, c1)
    ensures GrewBy(d0, d2, Ids(p)) && GrewBy(c0, c1, Ids(p))
  {
    hide DelimsReady, CtesReady, DelimPart, CtePart, GatherDelimScans;
    PartsSplit(p);
    PartsFit(p, n, env);
    ScansAreOperators(RestOf(p).value);
    UnderDelimReady(p, env, n, d0, d1, d2);
    PartCtesReady(p, RestOf(p).value, env, c0, c1, BranchIds(p));
    ScopedAlike(RestOf(p).value, env, RestScope(p, n, env));
  }

  lemma RestCanBuild(p: Plan, m0: seq<Meta>, m1: seq<Meta>, m: nat, env: Scope)
    requires BaseOnly(m0, m, p) && DelimKnown(env, m0) && UniqueIds(p) && ScopeFits(p, env) && RestOf(p).Some?
    requires m1 == m0[m := Prepared(m0[m], p, |m0|)] + BranchMetasOf(p, |m0|, env)
    ensures |m1[m].pipes| == 1
    ensures BaseOnly(m1, m, RestOf(p).value) && DelimKnown(RestScope(p, |m0|, env), m1)
  {
    hide UniqueIds, GatherDelimScans, RecordedCteScans, DelimPart, CtePart;
    PartsSplit(p);
    var branch := BranchMetasOf(p, |m0|, env);
    DelimStaysKnown(env, m0, m, m1[m], branch);
    assert m1[m] == Prepared(m0[m], p, |m0|);
    if p.LeftDelim? || p.RightDelim? {
      assert m1[|m0|] == branch[0];
    }
  }

  predicate BaseOnly(metas: seq<Meta>, m: nat, p: Plan) {
    && m < |metas| && |metas[m].pipes| == 1 && metas[m].inner == map[]
    && forall o <- metas[m].pipes[0].operators :: o.id !in Ids(p)
  }

  class PipelineCompiler {
    var metas: seq<Meta>
    var delimDependencies: map<OpId, PipeRef>
    var cteDependencies: map<OpId, PipeRef>

    constructor ()
      ensures metas == [] && delimDependencies == map[] && cteDependencies == map[]
    {
      metas, delimDependencies, cteDependencies := [], map[], map[];
    }

    predicate Live(r: PipeRef)
      reads this
    {
      r.meta < |metas| && r.index < |metas[r.meta].pipes|
    }

    function At(r: PipeRef): Pipe
      requires Live(r)
      reads this
    {
      metas[r.meta].pipes[r.index]
    }

    function With(r: PipeRef, p: Pipe): seq<Meta>
      requires Live(r)
      reads this
    {
      metas[r.meta := metas[r.meta].(pipes := metas[r.meta].pipes[r.index := p])]
    }

    // A new meta-pipeline starts with its base pipeline, which has the same sink.
    method NewMeta(sink: Option<Sink>) returns (m: nat)
      modifies this`metas
      ensures m == |old(metas)| && metas == old(metas) + [FreshMeta(sink)]
    {
      m := |metas|;
      metas := metas + [Meta(sink, [], [], map[])];
      var pipe := EMPTY_PIPE;
      metas := metas[m := metas[m].(pipes := metas[m].pipes + [pipe])];
      metas := With(PipeRef(m, 0), pipe.(sink := sink));
      assert metas[m].pipes == FreshMeta(sink).pipes;
    }

    method AddDependency(current: PipeRef, dep: PipeRef)
      requires Live(current)
      modifies this`metas
      ensures metas == old(With(current, At(current).(deps := At(current).deps + [dep])))
    {
      var pipe := At(current);
      metas := With(current, pipe.(deps := pipe.deps + [dep]));
    }

    method SetPipelineSource(current: PipeRef, source: Source)
      requires Live(current)
      modifies this`metas
      ensures metas == old(With(current, At(current).(source := Some(source))))
    {
      metas := With(current, At(current).(source := Some(source)));
    }

    method AddPipelineOperator(current: PipeRef, op: Operator)
      requires Live(current)
      modifies this`metas
      ensures metas == old(With(current, At(current).(operators := At(current).operators + [op])))
    {
      var pipe := At(current);
      metas := With(current, pipe.(operators := pipe.operators + [op]));
    }

    // The new meta-pipeline must finish before the pipeline `current` of meta-pipeline `m` starts.
    method CreateChildMetaPipeline(current: PipeRef, m: nat, sink: Sink) returns (child: nat)
      requires Live(current) && current.meta == m
      modifies this`metas
      ensures child == |old(metas)|
      ensures metas ==
              old(With(current, At(current).(deps := At(current).deps + [PipeRef(|metas|, 0)])))
              [m := old(metas[m].(pipes := metas[m].pipes[current.index :=
                                    At(current).(deps := At(current).deps + [PipeRef(|metas|, 0)])],
                                  children := metas[m].children + [|metas|]))]
              + [FreshMeta(Some(sink))]
    {
      child := NewMeta(Some(sink));
      metas := metas[m := metas[m].(children := metas[m].children + [child])];
      AddDependency(current, PipeRef(child, 0));
    }

    method AddDependenciesFrom(m: nat, dependant: nat, start: nat, including: bool)
      requires m < |metas| && start < |metas[m].pipes| && dependant in metas[m].inner
      modifies this`metas
      ensures metas == old(metas)[m := old(metas[m]).(inner := old(metas[m].inner)[dependant :=
                         CreatedSince(if including then start else start + 1, |old(metas[m].pipes)|, dependant)
                         + old(metas[m].inner[dependant])])]
    {
      hide CreatedSince;
      var pipes := metas[m].pipes;
      var it := 0;
      while it != start
        invariant it <= start
      {
        it := it + 1;
      }
      if !including {
        it := it + 1;
      }
      ghost var lo := it;
      var created: seq<nat> := [];
      while it < |pipes|
        invariant lo <= it <= |pipes| && metas == old(metas)
        invariant created + CreatedSince(it, |pipes|, dependant) == CreatedSince(lo, |pipes|, dependant)
      {
        CreatedStep(it, |pipes|, dependant);
        if it != dependant {
          created := created + [it];
        }
        it := it + 1;
      }
      CreatedNone(it, |pipes|, dependant);
      var deps := metas[m].inner[dependant];
      assert created == CreatedSince(lo, |pipes|, dependant);
      metas := metas[m := metas[m].(inner := metas[m].inner[dependant := created + deps])];
    }

    // The operators of `current` up to (not including) the first occurrence of `op`.
    method OperatorsBefore(current: PipeRef, op: Operator) returns (prefix: seq<Operator>)
      requires Live(current)
      ensures prefix <= At(current).operators && op !in prefix
      ensures prefix == At(current).operators || At(current).operators[|prefix|] == op
    {
      var operators := At(current).operators;
      prefix := [];
      var i := 0;
      while i < |operators|
        invariant i <= |operators| && prefix == operators[..i] && op !in prefix
      {
        if operators[i] == op {
          break;
        }
        prefix := prefix + [operators[i]];
        i := i + 1;
      }
    }

    // `op` becomes the source of one more pipeline of `m` with the sink of `current`.
    method CreateChildPipeline(current: PipeRef, m: nat, op: Operator, last: nat, ghost at: nat)
      requires Live(current) && current.meta == m && last < |metas[m].pipes|
      requires at < |At(current).operators| && At(current).operators[at] == op && op.JoinOp?
      requires op !in At(current).operators[..at]
      requires At(current).source.Some? && |metas[m].pipes| !in metas[m].inner
      modifies this`metas
      ensures metas == old(metas)[m := old(metas[m]).(
                         pipes := old(metas[m].pipes) + [ChildPipe(old(At(current).operators), at, old(At(current).sink))],
                         inner := old(metas[m].inner)[|old(metas[m].pipes)| :=
                           CreatedSince(last + 1, |old(metas[m].pipes)| + 1, |old(metas[m].pipes)|) + [current.index]])]
    {
      var prefix := OperatorsBefore(current, op);
      assert prefix == At(current).operators[..at];
      var child := Pipe(Some(FromJoin(op.id, op.kind)), prefix, At(current).sink, [], false);
      var k := |metas[m].pipes|;
      metas := metas[m := metas[m].(pipes := metas[m].pipes + [child])];
      metas := metas[m := metas[m].(inner := metas[m].inner[k := [current.index]])];
      AddDependenciesFrom(m, k, last, false);
      assert metas[m].inner == old(metas[m].inner)[k := CreatedSince(last + 1, k + 1, k) + [current.index]];
    }

    /** What every BuildPipelines call needs: `current` is the base, and so far the only,
        pipeline of `m`, and the scans of `p` that outer operators claim are in the tables. */
    ghost predicate CanBuild(p: Plan, current: PipeRef, m: nat, env: Scope)
      reads this
    {
      && current == PipeRef(m, 0) && BaseOnly(metas, m, p)
      && SideReady(p, env, delimDependencies, cteDependencies) && DelimKnown(env, metas)
    }

    // insert() keeps an entry that is already there.
    method RegisterDelimScans(scans: seq<OpId>, target: PipeRef)
      modifies this`delimDependencies
      ensures forall s :: s in old(delimDependencies) ==> s in delimDependencies && delimDependencies[s] == old(delimDependencies)[s]
      ensures forall s :: s in delimDependencies && s !in old(delimDependencies) ==> s in scans && delimDependencies[s] == target
      ensures forall s <- scans :: s in delimDependencies
    {
      for i := 0 to |scans|
        invariant forall s :: s in old(delimDependencies) ==>
                    s in delimDependencies && delimDependencies[s] == old(delimDependencies)[s]
        invariant forall s :: s in delimDependencies && s !in old(delimDependencies) ==> s in scans && delimDependencies[s] == target
        invariant forall k :: 0 <= k < i ==> scans[k] in delimDependencies
      {
        if scans[i] !in delimDependencies {
          delimDependencies := delimDependencies[scans[i] := target];
        }
      }
    }

    method RegisterCteScans(scans: seq<OpId>, target: PipeRef)
      modifies this`cteDependencies
      ensures forall s :: s in old(cteDependencies) ==> s in cteDependencies && cteDependencies[s] == old(cteDependencies)[s]
      ensures forall s :: s in cteDependencies && s !in old(cteDependencies) ==> s in scans && cteDependencies[s] == target
      ensures forall s <- scans :: s in cteDependencies
    {
      for i := 0 to |scans|
        invariant forall s :: s in old(cteDependencies) ==> s in cteDependencies && cteDependencies[s] == old(cteDependencies)[s]
        invariant forall s :: s in cteDependencies && s !in old(cteDependencies) ==> s in scans && cteDependencies[s] == target
        invariant forall k :: 0 <= k < i ==> scans[k] in cteDependencies
      {
        if scans[i] !in cteDependencies {
          cteDependencies := cteDependencies[scans[i] := target];
        }
      }
    }

    // CreateChildMetaPipeline followed by Build.
    method BuildBranch(b: Branch, current: PipeRef, m: nat, ghost env: Scope) returns (child: nat)
      requires current == PipeRef(m, 0) && m < |metas| && |metas[m].pipes| == 1
      requires SideReady(b.plan, env, delimDependencies, cteDependencies) && DelimKnown(env, metas)
      modifies this
      ensures child == |old(metas)|
      ensures metas == old(metas)[m := WithChild(old(metas)[m], child)] + BranchMetas(b, child, env)
      ensures GrewBy(old(delimDependencies), delimDependencies, Ids(b.plan))
      ensures GrewBy(old(cteDependencies), cteDependencies, Ids(b.plan))
      decreases b.plan, 4
    {
      hide SpineOf, MetasOf, Grown, DelimsReady, CtesReady;
      child := CreateChildMetaPipeline(current, m, b.sink);
      assert metas == old(metas)[m := WithChild(old(metas)[m], child)] + [FreshMeta(Some(b.sink))];
      DelimStaysKnown(env, old(metas), m, metas[m], [FreshMeta(Some(b.sink))]);
      BuildPipelines(b.plan, PipeRef(child, 0), child, env);
    }

    // BuildPipelines, dispatched on the class of the operator `p`.
    method BuildPipelines(p: Plan, current: PipeRef, m: nat, ghost env: Scope)
      requires CanBuild(p, current, m, env)
      modifies this
      ensures metas == old(metas)[m := Grown(old(metas)[m], SpineOf(p, |old(metas)|, env))] + MetasOf(p, |old(metas)|, env)
      ensures GrewBy(old(delimDependencies), delimDependencies, Ids(p))
      ensures GrewBy(old(cteDependencies), cteDependencies, Ids(p))
      decreases p, 3
    {
      hide SpineOf, MetasOf, Grown, DelimsReady, CtesReady;
      match p
      case Scan(_) => BuildSource(p, current, m, env);
      case Streaming(_, _) => BuildStreaming(p, current, m, env);
      case Breaker(_, _) => BuildSource(p, current, m, env);
      case Join(_, _, _, _) => BuildJoin(p, current, m, env);
      case Cte(_, _, _) => BuildCte(p, current, m, env);
      case CteScan(_, _) => BuildColumnDataScan(p, current, m, env);
      case DelimScan(_) => BuildColumnDataScan(p, current, m, env);
      case CacheScan(_, _) => BuildColumnDataScan(p, current, m, env);
      case LeftDelim(_, _, _) => BuildLeftDelim(p, current, m, env);
      case RightDelim(_, _, _, _, _) => BuildRightDelim(p, current, m, env);
    }

    // A leaf, or a sink, which becomes the source of `current` and the sink of a branch.
    method BuildSource(p: Plan, current: PipeRef, m: nat, ghost env: Scope)
      requires CanBuild(p, current, m, env) && (p.Scan? || p.Breaker?)
      modifies this
      ensures metas == old(metas)[m := Grown(old(metas)[m], SpineOf(p, |old(metas)|, env))] + MetasOf(p, |old(metas)|, env)
      ensures GrewBy(old(delimDependencies), delimDependencies, Ids(p))
      ensures GrewBy(old(cteDependencies), cteDependencies, Ids(p))
      decreases p, 2
    {
      hide SpineOf, Grown, DelimsReady, CtesReady, BranchMetas;
      ghost var m0, n := metas, |metas|;
      ghost var source := SourceOf(p, env);
      GrownSource(m0[m], p, n, env);
      match p
      case Scan(id) =>
        SetPipelineSource(current, FromLeaf(id));
      case Breaker(id, child) =>
        SetPipelineSource(current, FromBreaker(id));
        assert metas == m0[m := WithSource(m0[m], source)] + [];
        DelimStaysKnown(env, m0, m, metas[m], []);
        BranchReady(p, env, delimDependencies, cteDependencies);
        var c := BuildBranch(Branch(ToBreaker(id), child), current, m, BranchScope(env));
        Chain(m0, m, WithSource(m0[m], source), [], WithChild(WithSource(m0[m], source), c),
              BranchMetas(BranchOf(p).value, c, BranchScope(env)));
    }

    // A streaming operator joins `current`.
    method BuildStreaming(p: Plan, current: PipeRef, m: nat, ghost env: Scope)
      requires CanBuild(p, current, m, env) && p.Streaming?
      modifies this
      ensures metas == old(metas)[m := Grown(old(metas)[m], SpineOf(p, |old(metas)|, env))] + MetasOf(p, |old(metas)|, env)
      ensures GrewBy(old(delimDependencies), delimDependencies, Ids(p))
      ensures GrewBy(old(cteDependencies), cteDependencies, Ids(p))
      decreases p, 2
    {
      hide SpineOf, MetasOf, Grown, DelimsReady, CtesReady;
      ghost var m0, n := metas, |metas|;
      AddPipelineOperator(current, StreamOp(p.id));
      PreparedParts(m0[m], p, n);
      assert metas == m0[m := Prepared(m0[m], p, n)] + BranchMetasOf(p, n, env);
      RestReady(p, n, env, delimDependencies, cteDependencies, delimDependencies, cteDependencies);
      BuildRest(p, m0, current, m, env);
    }

    // Scans of a CTE or of duplicate-eliminated data wait for the pipeline that fills them.
    method BuildColumnDataScan(p: Plan, current: PipeRef, m: nat, ghost env: Scope)
      requires CanBuild(p, current, m, env) && (p.CteScan? || p.DelimScan? || p.CacheScan?)
      modifies this
      ensures metas == old(metas)[m := Grown(old(metas)[m], SpineOf(p, |old(metas)|, env))] + MetasOf(p, |old(metas)|, env)
      ensures delimDependencies == old(delimDependencies) && cteDependencies == old(cteDependencies)
    {
      hide Prepared;
      ghost var before := metas[m];
      ghost var deps := ScanDeps(p, env);
      var source: Source;
      match p {
        case CteScan(id, cte) =>
          assert id in RecordedCteScans(p, cte);
          var dep := cteDependencies[id];
          AddDependency(current, dep);
          source := FromCte(cte);
        case DelimScan(id) =>
          assert id in GatherDelimScans(p);
          var dep := delimDependencies[id];
          var delim := At(dep).sink.value.id;
          AddDependency(current, dep);
          source := FromDistinct(delim);
        case CacheScan(_, delim) =>
          source := FromCache(delim);
      }
      ghost var waiting := if deps == [] then before else Waiting(before, deps[0]);
      assert metas == old(metas)[m := waiting];
      SetPipelineSource(current, source);
      GrownLeaf(waiting, source);
      if deps != [] {
        GrownWaiting(before, deps[0], Spine([], source, [], []));
        assert deps == [deps[0]] + [];
      }
      assert [] + deps == deps;
    }

    // Continue with the rest of `p`, whose branch and operator are in place.
    method BuildRest(p: Plan, ghost m0: seq<Meta>, current: PipeRef, m: nat, ghost env: Scope)
      requires current == PipeRef(m, 0) && BaseOnly(m0, m, p) && DelimKnown(env, m0)
      requires UniqueIds(p) && ScopeFits(p, env) && RestOf(p).Some?
      requires metas == m0[m := Prepared(m0[m], p, |m0|)] + BranchMetasOf(p, |m0|, env)
      requires SideReady(RestOf(p).value, RestScope(p, |m0|, env), delimDependencies, cteDependencies)
      modifies this
      ensures metas == m0[m := Grown(m0[m], SpineOf(p, |m0|, env))] + MetasOf(p, |m0|, env)
      ensures GrewBy(old(delimDependencies), delimDependencies, Ids(RestOf(p).value))
      ensures GrewBy(old(cteDependencies), cteDependencies, Ids(RestOf(p).value))
      decreases p, 0
    {
      hide SpineOf, MetasOf, Grown, DelimsReady, CtesReady, WithRestart, Topped, UniqueIds, BranchMetas, BranchMetasOf;
      ghost var m1, n := metas, |m0|;
      ghost var inner := RestScope(p, n, env);
      RestCanBuild(p, m0, m1, m, env);
      SpineStep(p, n, env);
      MetasStep(p, n, env);
      BuildPipelines(RestOf(p).value, current, m, inner);
      ghost var s := SpineOf(RestOf(p).value, n + BranchSize(p), inner);
      ghost var g := Grown(Prepared(m0[m], p, n), s);
      Assembled(m0, m1, metas, m, Prepared(m0[m], p, n), BranchMetasOf(p, n, env), g,
                MetasOf(RestOf(p).value, n + BranchSize(p), inner));
      assert metas == m0[m := g] + MetasOf(p, n, env);
      GrownRest(m0[m], p, n, s);
      if OperatorsOf(p) != [] && OperatorsOf(p)[0].JoinOp? {
        RestartAfter(OperatorsOf(p)[0], current, m, |m0[m].pipes[0].operators|);
        Chain(m0, m, g, MetasOf(p, n, env), metas[m], []);
      }
    }

    // A join that is a source restarts the pipeline above itself.
    method RestartAfter(op: Operator, current: PipeRef, m: nat, ghost at: nat)
      requires current == PipeRef(m, 0) && Live(current) && op.JoinOp?
      requires at < |At(current).operators| && At(current).operators[at] == op && op !in At(current).operators[..at]
      requires At(current).source.Some? && |metas[m].pipes| !in metas[m].inner
      modifies this`metas
      ensures metas == old(metas)[m := WithRestart(old(metas)[m], op, at)]
    {
      if op.kind.IsSource() {
        CreateChildPipeline(current, m, op, 0, at);
      }
    }

    // BuildJoinPipelines: `current` probes, the build side becomes a branch unless a delim join
    // already feeds it, and the join restarts the pipeline when it is a source.
    method BuildJoinPipelines(p: Plan, ghost m0: seq<Meta>, current: PipeRef, m: nat, buildRhs: bool, ghost env: Scope)
      requires current == PipeRef(m, 0) && BaseOnly(m0, m, p) && DelimKnown(env, m0)
      requires UniqueIds(p) && ScopeFits(p, env)
      requires if buildRhs then p.Join? else p.RightDelim?
      requires buildRhs ==> metas == m0 && SideReady(p, env, delimDependencies, cteDependencies)
      requires !buildRhs ==> metas == m0[m := WithChild(m0[m], |m0|)] + BranchMetasOf(p, |m0|, env)
      requires !buildRhs ==> SideReady(RestOf(p).value, RestScope(p, |m0|, env), delimDependencies, cteDependencies)
      modifies this
      ensures metas == m0[m := Grown(m0[m], SpineOf(p, |m0|, env))] + MetasOf(p, |m0|, env)
      ensures GrewBy(old(delimDependencies), delimDependencies, Ids(p))
      ensures GrewBy(old(cteDependencies), cteDependencies, Ids(p))
      decreases p, 1
    {
      hide SpineOf, MetasOf, Grown, DelimsReady, CtesReady, UniqueIds, BranchMetas;
      ghost var d0, c0, n := delimDependencies, cteDependencies, |m0|;
      var op := OperatorsOf(p)[0];
      JoinPrepared(m0[m], p, n);
      AddPipelineOperator(current, op);
      if buildRhs {
        var b := BranchOf(p).value;
        ghost var x := WithOperator(m0[m], op);
        assert metas == m0[m := x] + [];
        DelimStaysKnown(env, m0, m, metas[m], []);
        BranchReady(p, env, d0, c0);
        var c := BuildBranch(b, current, m, BranchScope(env));
        Chain(m0, m, x, [], WithChild(x, c), BranchMetas(b, c, BranchScope(env)));
        RestReady(p, n, env, d0, c0, delimDependencies, cteDependencies);
      } else {
        Chain(m0, m, WithChild(m0[m], n), BranchMetasOf(p, n, env), Prepared(m0[m], p, n), []);
      }
      BuildRest(p, m0, current, m, env);
    }

    method BuildJoin(p: Plan, current: PipeRef, m: nat, ghost env: Scope)
      requires CanBuild(p, current, m, env) && p.Join?
      modifies this
      ensures metas == old(metas)[m := Grown(old(metas)[m], SpineOf(p, |old(metas)|, env))] + MetasOf(p, |old(metas)|, env)
      ensures GrewBy(old(delimDependencies), delimDependencies, Ids(p))
      ensures GrewBy(old(cteDependencies), cteDependencies, Ids(p))
      decreases p, 2
    {
      BuildJoinPipelines(p, metas, current, m, true, env);
    }

    method BuildCte(p: Plan, current: PipeRef, m: nat, ghost env: Scope)
      requires CanBuild(p, current, m, env) && p.Cte?
      modifies this
      ensures metas == old(metas)[m := Grown(old(metas)[m], SpineOf(p, |old(metas)|, env))] + MetasOf(p, |old(metas)|, env)
      ensures GrewBy(old(delimDependencies), delimDependencies, Ids(p))
      ensures GrewBy(old(cteDependencies), cteDependencies, Ids(p))
      decreases p, 2
    {
      hide SpineOf, MetasOf, Grown, DelimsReady, CtesReady, UniqueIds, BranchMetas, WithChild, Prepared;
      ghost var m0, d0, c0, n := metas, delimDependencies, cteDependencies, |metas|;
      BranchReady(p, env, d0, c0);
      var child := BuildBranch(Branch(ToCte(p.id), p.top), current, m, BranchScope(env));
      ghost var c1 := cteDependencies;
      RegisterCteScans(RecordedCteScans(p, p.id), PipeRef(child, 0));
      BodyReady(p, n, env, d0, c0, delimDependencies, c1, cteDependencies);
      PreparedParts(m0[m], p, n);
      BuildRest(p, m0, current, m, env);
    }

    method BuildLeftDelim(p: Plan, current: PipeRef, m: nat, ghost env: Scope)
      requires CanBuild(p, current, m, env) && p.LeftDelim?
      modifies this
      ensures metas == old(metas)[m := Grown(old(metas)[m], SpineOf(p, |old(metas)|, env))] + MetasOf(p, |old(metas)|, env)
      ensures GrewBy(old(delimDependencies), delimDependencies, Ids(p))
      ensures GrewBy(old(cteDependencies), cteDependencies, Ids(p))
      decreases p, 2
    {
      hide SpineOf, MetasOf, Grown, DelimsReady, CtesReady, UniqueIds, BranchMetas, WithChild, Prepared;
      ghost var m0, d0, c0, n := metas, delimDependencies, cteDependencies, |metas|;
      BranchReady(p, env, d0, c0);
      var child := BuildBranch(Branch(ToLeftDelim(p.id), p.child), current, m, BranchScope(env));
      ghost var d1 := delimDependencies;
      // every scan of the duplicate-eliminated data waits for the child's base pipeline
      RegisterDelimScans(GatherDelimScans(p.join), PipeRef(child, 0));
      CorrelatedReady(p, n, env, d0, c0, d1, delimDependencies, cteDependencies);
      PreparedParts(m0[m], p, n);
      BuildRest(p, m0, current, m, env);
    }

    method BuildRightDelim(p: Plan, current: PipeRef, m: nat, ghost env: Scope)
      requires CanBuild(p, current, m, env) && p.RightDelim?
      modifies this
      ensures metas == old(metas)[m := Grown(old(metas)[m], SpineOf(p, |old(metas)|, env))] + MetasOf(p, |old(metas)|, env)
      ensures GrewBy(old(delimDependencies), delimDependencies, Ids(p))
      ensures GrewBy(old(cteDependencies), cteDependencies, Ids(p))
      decreases p, 2
    {
      hide SpineOf, MetasOf, Grown, DelimsReady, CtesReady, UniqueIds, BranchMetas, WithChild, Prepared;
      ghost var m0, d0, c0, n := metas, delimDependencies, cteDependencies, |metas|;
      BranchReady(p, env, d0, c0);
      var child := BuildBranch(Branch(ToRightDelim(p.id, p.joinId), p.child), current, m, BranchScope(env));
      ghost var d1 := delimDependencies;
      // every scan of the duplicate-eliminated data waits for the child's base pipeline
      RegisterDelimScans(GatherDelimScans(p.left), PipeRef(child, 0));
      CorrelatedReady(p, n, env, d0, c0, d1, delimDependencies, cteDependencies);
      // the join's build side is fed by this operator's sink, so it is not built again
      BuildJoinPipelines(p, m0, current, m, false, env);
    }

    // The build step of InitializeInternal: a root without a sink, and below it the result
    // collector, which is the source of the root and the sink of everything else.
    method Compile(collector: OpId, p: Plan)
      requires metas == [] && delimDependencies == map[] && cteDependencies == map[]
      requires WellFormed(p)
      modifies this
      ensures metas == Compiled(collector, p)
    {
      hide SpineOf, MetasOf, Shape, BranchMetas;
      var root := NewMeta(None);
      var current := PipeRef(root, 0);
      ghost var source := FromCollector(collector);
      SetPipelineSource(current, FromCollector(collector));
      ghost var m0 := [WithSource(FreshMeta(None), source)];
      assert metas == m0 by { assert metas[0].pipes == m0[0].pipes; }
      NothingClaimed(p);
      var top := BuildBranch(Branch(ToCollector(collector), p), current, root, NO_SCOPE);
      assert Grown(FreshMeta(None), Spine([], source, [1], [1])) == WithChild(m0[0], 1) by {
        GrownWaiting(FreshMeta(None), 1, Spine([], source, [], []));
        GrownLeaf(WithChild(FreshMeta(None), 1), source);
        assert [1] + [] == [1];
      }
    }
  }
}

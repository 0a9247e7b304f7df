/** Running pipelines: GPUExecutor::Execute, with the operators' stored state as logs. */
module Execution {
  import opened Options
  import opened Plans
  import opened Pipelines
  import opened Evaluation

  /** What operators hold between pipelines: the batches sunk into each of them, the batches that
      each join was probed with, and the joins that lost their hash table or the row ids of their
      build side since they were last built. */
  datatype Store<R> = Store(sunk: map<OpId, seq<R>>, probed: map<OpId, seq<R>>, released: set<OpId>)

  function EmptyStore<R>(): Store<R> {
    Store(map[], map[], {})
  }

  function Log<R>(m: map<OpId, seq<R>>, id: OpId): seq<R> {
    if id in m then m[id] else []
  }

  function Append<R>(m: map<OpId, seq<R>>, id: OpId, r: R): map<OpId, seq<R>> {
    m[id := Log(m, id) + [r]]
  }

  /** The hash table of a join that received these batches; every batch replaces it. */
  predicate HasTable<R>(sem: Semantics<R>, id: OpId, log: seq<R>) {
    log != [] && sem.hasTable(id, Last(log))
  }

  /** GetData; None when the operator read from has received nothing yet, or when its hash table was
      freed. */
  function GetData<R>(sem: Semantics<R>, source: Source, st: Store<R>): Option<R> {
    var log := Log(st.sunk, source.id);
    match source
    case FromLeaf(id) => Some(sem.scan(id))
    case FromBreaker(id) => if log == [] then None else Some(sem.breaker(id, log))
    case FromJoin(id, k) =>
      if log == [] || Log(st.probed, id) == [] || (k.Hash? && id in st.released) then None
      else Some(sem.rescan(id, k, log, Log(st.probed, id)))
    case FromCte(_) => if log == [] then None else Some(sem.copied(Last(log)))
    case FromCache(_) => if log == [] then None else Some(sem.copied(Last(log)))
    case FromDistinct(id) => if log == [] then None else Some(sem.distinct(id, log))
    case FromCollector(_) => None
  }

  /** The scan of a hash table for its unmatched or matched rows frees the table. */
  function AfterGetData<R>(sem: Semantics<R>, source: Source, st: Store<R>): Store<R> {
    if source.FromJoin? && source.kind.Hash? && HasTable(sem, source.id, Log(st.sunk, source.id)) then
      st.(released := st.released + {source.id})
    else st
  }

  /** One batch through the operator frees its hash table or its build side's row ids. */
  predicate Spends<R>(sem: Semantics<R>, o: Operator, log: seq<R>, r: R) {
    o.JoinOp? && o.kind.FreedByProbe() && if o.kind.Hash? then HasTable(sem, o.id, log) else sem.spends(o.id, log, r)
  }

  /** One batch makes the operator use them: a hash join always does. */
  predicate Needs<R>(sem: Semantics<R>, o: Operator, log: seq<R>, r: R) {
    o.JoinOp? && (o.kind.Hash? || sem.needs(o.id, log, r))
  }

  /** The operator is one that is implemented, and does not throw on the batch by itself. */
  predicate Passes<R>(sem: Semantics<R>, o: Operator, log: seq<R>, r: R) {
    (o.JoinOp? ==> o.kind.Supported()) && sem.passes(o.id, log, r)
  }

  function FreedBy<R>(sem: Semantics<R>, o: Operator, log: seq<R>, r: R): set<OpId> {
    if Spends(sem, o, log, r) then {o.id} else {}
  }

  /** Execute of one operator; None when it throws, when a join is probed before its build side is
      filled, or when it uses what was freed. */
  function ExecuteOne<R>(sem: Semantics<R>, o: Operator, r: R, st: Store<R>): Option<(R, Store<R>)> {
    match o
    case StreamOp(id) => if Passes(sem, o, [], r) then Some((sem.stream(id, r), st)) else None
    case JoinOp(id, k) =>
      var log := Log(st.sunk, id);
      if log == [] || !Passes(sem, o, log, r) || (Needs(sem, o, log, r) && id in st.released) then None
      else Some((sem.probe(id, k, log, r),
                 Store(st.sunk, Append(st.probed, id, r), st.released + FreedBy(sem, o, log, r))))
  }

  /** The operators one after the other. */
  function ExecuteAll<R>(sem: Semantics<R>, ops: seq<Operator>, r: R, st: Store<R>): Option<(R, Store<R>)> {
    if ops == [] then Some((r, st))
    else
      var step := ExecuteOne(sem, ops[0], r, st);
      if step.None? then None else ExecuteAll(sem, ops[1..], step.value.0, step.value.1)
  }

  function SinkIds(s: Sink): set<OpId> {
    match s
    case ToRightDelim(id, j) => {id, j}
    case _ => {s.id}
  }

  /** The sink takes the batch. CTE tables and the result collector take all. */
  predicate SinkTakes<R>(sem: Semantics<R>, sink: Sink, r: R, st: Store<R>) {
    match sink
    case ToCte(_) => true
    case ToCollector(_) => true
    case ToRightDelim(id, j) => sem.takes(j, Log(st.sunk, j), r) && sem.takes(id, Log(st.sunk, id), r)
    case _ => sem.takes(sink.id, Log(st.sunk, sink.id), r)
  }

  /** Sink. A right delim join hands its input to its join as well; what is built again replaces what
      was freed. */
  function SinkInto<R>(sink: Sink, r: R, st: Store<R>): Store<R> {
    var sunk :=
      match sink
      case ToRightDelim(id, j) => Append(Append(st.sunk, j, r), id, r)
      case _ => Append(st.sunk, sink.id, r);
    Store(sunk, st.probed, st.released - SinkIds(sink))
  }

  /** One pipeline: source, operators, sink. */
  function RunPipe<R>(sem: Semantics<R>, p: Pipe, st: Store<R>): Option<Store<R>> {
    if p.source.None? then None
    else
      var input := GetData(sem, p.source.value, st);
      if input.None? then None
      else
        var output := ExecuteAll(sem, p.operators, input.value, AfterGetData(sem, p.source.value, st));
        if output.None? then None
        else if p.sink.None? then Some(output.value.1)
        else if !SinkTakes(sem, p.sink.value, output.value.0, output.value.1) then None
        else Some(SinkInto(p.sink.value, output.value.0, output.value.1))
  }

  predicate LiveRefs(metas: seq<Meta>, refs: seq<PipeRef>) {
    forall r <- refs :: r.meta < |metas| && r.index < |metas[r.meta].pipes|
  }

  function PipesAt(metas: seq<Meta>, refs: seq<PipeRef>): seq<Pipe>
    requires LiveRefs(metas, refs)
  {
    seq(|refs|, i requires 0 <= i < |refs| => metas[refs[i].meta].pipes[refs[i].index])
  }

  /** A schedule, pipeline by pipeline; None as soon as one of them uses what is not there. */
  function RunPipes<R>(sem: Semantics<R>, pipes: seq<Pipe>, st: Store<R>): Option<Store<R>> {
    if pipes == [] then Some(st)
    else
      var first := RunPipe(sem, pipes[0], st);
      if first.None? then None else RunPipes(sem, pipes[1..], first.value)
  }

  /** A pipeline that runs has read nothing before it was written: its source is a leaf or has received a
      batch, a join as its source was probed, and so is every join in it built. */
  lemma RunReadsWritten<R>(sem: Semantics<R>, p: Pipe, st: Store<R>)
    requires RunPipe(sem, p, st).Some?
    ensures p.source.Some? && (p.source.value.FromLeaf? || Log(st.sunk, p.source.value.id) != [])
    ensures p.source.value.FromJoin? ==> Log(st.probed, p.source.value.id) != []
    ensures forall o <- p.operators :: o.JoinOp? ==> Log(st.sunk, o.id) != []
  {
    var source := p.source.value;
    AllBuilt(sem, p.operators, GetData(sem, source, st).value, AfterGetData(sem, source, st));
  }

  /** The life of a hash table: probing an inner, semi or mark join frees it, and so does scanning that of a
      right join; then neither works again, until the join is built again. */
  lemma HashTableLife<R>(sem: Semantics<R>, id: OpId, t: JoinType, r: R, st: Store<R>)
    requires HasTable(sem, id, Log(st.sunk, id))
    ensures var probed := ExecuteOne(sem, JoinOp(id, Hash(t)), r, st);
            && (probed.Some? && t in {Inner, Semi, Mark} ==> id in probed.value.1.released)
            && (probed.Some? && t !in {Inner, Semi, Mark} ==> probed.value.1.released == st.released)
    ensures id in AfterGetData(sem, FromJoin(id, Hash(t)), st).released
    ensures id in st.released ==>
              ExecuteOne(sem, JoinOp(id, Hash(t)), r, st).None? && GetData(sem, FromJoin(id, Hash(t)), st).None?
    ensures id !in SinkInto(ToBuild(id), r, st).released
  {
  }

  lemma {:induction false} AllBuilt<R>(sem: Semantics<R>, ops: seq<Operator>, r: R, st: Store<R>)
    requires ExecuteAll(sem, ops, r, st).Some?
    ensures forall o <- ops :: o.JoinOp? ==> Log(st.sunk, o.id) != []
  {
    if ops != [] {
      var step := ExecuteOne(sem, ops[0], r, st).value;
      AllBuilt(sem, ops[1..], step.0, step.1);
      assert ops == [ops[0]] + ops[1..];
    }
  }

  lemma {:induction false} RunAppend<R>(sem: Semantics<R>, a: seq<Pipe>, b: seq<Pipe>, st: Store<R>)
    ensures var mid := RunPipes(sem, a, st);
            RunPipes(sem, a + b, st) == if mid.None? then None else RunPipes(sem, b, mid.value)
  {
    if a == [] {
      assert a + b == b;
    } else {
      assert (a + b)[1..] == a[1..] + b;
      var first := RunPipe(sem, a[0], st);
      if first.Some? {
        RunAppend(sem, a[1..], b, first.value);
      }
    }
  }

  lemma {:induction false} ExecuteAppend<R>(sem: Semantics<R>, ops: seq<Operator>, o: Operator, r: R, st: Store<R>)
    ensures var mid := ExecuteAll(sem, ops, r, st);
            ExecuteAll(sem, ops + [o], r, st) == if mid.None? then None else ExecuteOne(sem, o, mid.value.0, mid.value.1)
  {
    if ops == [] {
      assert ops + [o] == [o];
      assert [o][1..] == [];
    } else {
      assert (ops + [o])[1..] == ops[1..] + [o];
      var step := ExecuteOne(sem, ops[0], r, st);
      if step.Some? {
        ExecuteAppend(sem, ops[1..], o, step.value.0, step.value.1);
      }
    }
  }

  class Executor<R> {
    const sem: Semantics<R>
    var store: Store<R>

    constructor (sem: Semantics<R>)
      ensures this.sem == sem && store == EmptyStore()
    {
      this.sem := sem;
      store := EmptyStore();
    }

    // One iteration of Execute: relations are passed along in numbered slots, and the last
    // operator writes to the relation that is sunk.
    method RunPipeline(pipe: Pipe) returns (ok: bool)
      requires pipe.source.Some?
      modifies this`store
      ensures var run := RunPipe(sem, pipe, old(store)); ok == run.Some? && (ok ==> store == run.value)
    {
      var ops := pipe.operators;
      var slots: seq<Option<R>> := seq(|ops|, _ => None);
      var final: Option<R> := None;
      var input := GetData(sem, pipe.source.value, store);
      if input.None? {
        return false;
      }
      store := AfterGetData(sem, pipe.source.value, store);
      if |ops| == 0 {
        final := input;
      } else {
        slots := slots[0 := input];
      }
      assert ops[0..] == ops;
      ghost var whole := ExecuteAll(sem, ops, input.value, store);
      for current := 1 to |ops| + 1
        invariant |slots| == |ops|
        invariant current <= |ops| ==> slots[current - 1].Some?
        invariant current <= |ops| ==> ExecuteAll(sem, ops[current - 1..], slots[current - 1].value, store) == whole
        invariant current == |ops| + 1 ==> final.Some? && whole == Some((final.value, store))
      {
        var previous := slots[current - 1].value;
        var op := ops[current - 1];
        assert ops[current - 1..][1..] == ops[current..] && ops[current - 1..][0] == op;
        var step := ExecuteOne(sem, op, previous, store);
        if step.None? {
          return false;
        }
        store := step.value.1;
        if current >= |slots| {
          final := Some(step.value.0);
        } else {
          slots := slots[current := Some(step.value.0)];
        }
      }
      if pipe.sink.Some? {
        if !SinkTakes(sem, pipe.sink.value, final.value, store) {
          return false;
        }
        store := SinkInto(pipe.sink.value, final.value, store);
      }
      return true;
    }

    // Execute: the scheduled pipelines in order.
    method Execute(metas: seq<Meta>, scheduled: seq<PipeRef>) returns (ok: bool)
      requires LiveRefs(metas, scheduled)
      requires forall r <- scheduled :: metas[r.meta].pipes[r.index].source.Some?
      modifies this`store
      ensures var run := RunPipes(sem, PipesAt(metas, scheduled), old(store)); ok == run.Some? && (ok ==> store == run.value)
    {
      ghost var pipes := PipesAt(metas, scheduled);
      assert pipes[0..] == pipes;
      for i := 0 to |scheduled|
        invariant RunPipes(sem, pipes[i..], store) == RunPipes(sem, pipes, old(store))
      {
        assert pipes[i..][1..] == pipes[i + 1..];
        var done := RunPipeline(metas[scheduled[i].meta].pipes[scheduled[i].index]);
        if !done {
          return false;
        }
      }
      return true;
    }
  }
}

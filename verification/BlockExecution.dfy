/** Running the pipelines of one meta-pipeline in order sinks exactly the batches that its spine
    computes, however many joins restart the pipeline. */
module BlockExecution {
  import opened Options
  import opened Plans
  import opened Pipelines
  import opened Evaluation
  import opened Scheduler
  import opened Execution

  // What is finally sunk into each operator.
  type Tables<R> = map<OpId, seq<R>>

  /** One batch through one operator. */
  function PushOne<R>(sem: Semantics<R>, w: Tables<R>, o: Operator, r: R): R {
    match o
    case StreamOp(id) => sem.stream(id, r)
    case JoinOp(id, k) => sem.probe(id, k, Log(w, id), r)
  }

  /** One batch up through `ops`, which are listed from the top. */
  function Push<R>(sem: Semantics<R>, w: Tables<R>, ops: seq<Operator>, r: R): R {
    if ops == [] then r else PushOne(sem, w, ops[0], Push(sem, w, ops[1..], r))
  }

  function PushAll<R>(sem: Semantics<R>, w: Tables<R>, ops: seq<Operator>, bs: seq<R>): (r: seq<R>)
    ensures |r| == |bs|
  {
    seq(|bs|, i requires 0 <= i < |bs| => Push(sem, w, ops, bs[i]))
  }

  predicate Rescans(o: Operator) {
    o.JoinOp? && o.kind.Rescans()
  }

  /** The batches that leave the top of `ops` when the source holds `v`. */
  function Batches<R>(sem: Semantics<R>, w: Tables<R>, ops: seq<Operator>, v: R): (bs: seq<R>)
    ensures bs != []
  {
    if ops == [] then [v]
    else
      var bs := Batches(sem, w, ops[1..], v);
      PushAll(sem, w, [ops[0]], bs)
      + if Rescans(ops[0]) then [sem.rescan(ops[0].id, ops[0].kind, Log(w, ops[0].id), bs)] else []
  }

  lemma {:induction false} PushAppend<R>(sem: Semantics<R>, w: Tables<R>, ops: seq<Operator>, o: Operator, r: R)
    ensures Push(sem, w, ops + [o], r) == Push(sem, w, ops, Push(sem, w, [o], r))
  {
    if ops == [] {
      assert ops + [o] == [o];
    } else {
      assert (ops + [o])[1..] == ops[1..] + [o];
      PushAppend(sem, w, ops[1..], o, r);
    }
  }

  lemma PushAllAppend<R>(sem: Semantics<R>, w: Tables<R>, ops: seq<Operator>, o: Operator, bs: seq<R>)
    ensures PushAll(sem, w, ops + [o], bs) == PushAll(sem, w, ops, PushAll(sem, w, [o], bs))
  {
    hide Push;
    forall i | 0 <= i < |bs|
      ensures Push(sem, w, ops + [o], bs[i]) == Push(sem, w, ops, Push(sem, w, [o], bs[i]))
    {
      PushAppend(sem, w, ops, o, bs[i]);
    }
  }

  // -------------------------------------------------------------------------------------------
  // One batch through the operators of a pipeline
  // -------------------------------------------------------------------------------------------

  /** What an operator holds: a join its build side, others nothing. */
  function Held<R>(w: Tables<R>, o: Operator): seq<R> {
    if o.JoinOp? then Log(w, o.id) else []
  }

  /** The store after one batch went up through `ops`: each join has seen what reached it, and some
      of them freed what they hold. */
  function Probed<R>(sem: Semantics<R>, w: Tables<R>, ops: seq<Operator>, r: R, st: Store<R>): Store<R> {
    if ops == [] then st
    else
      var below := Probed(sem, w, ops[1..], r, st);
      var b := Push(sem, w, ops[1..], r);
      if ops[0].JoinOp? then
        Store(below.sunk, Append(below.probed, ops[0].id, b), below.released + FreedBy(sem, ops[0], Held(w, ops[0]), b))
      else below
  }

  /** The build sides of all joins in `ops` are filled, with what finally is in them. */
  ghost predicate BuildsDone<R>(w: Tables<R>, ops: seq<Operator>, sunk: map<OpId, seq<R>>) {
    forall o <- ops :: o.JoinOp? ==> Log(sunk, o.id) == Log(w, o.id) != []
  }

  /** The batch that enters `ops` as `r` reaches `ops[i]` and makes it free what it holds. */
  predicate FreesAt<R>(sem: Semantics<R>, w: Tables<R>, ops: seq<Operator>, r: R, i: nat)
    requires i < |ops|
  {
    Spends(sem, ops[i], Held(w, ops[i]), Push(sem, w, ops[i + 1..], r))
  }

  predicate FreesOne<R>(sem: Semantics<R>, w: Tables<R>, ops: seq<Operator>, r: R, id: OpId) {
    exists i :: 0 <= i < |ops| && ops[i].id == id && FreesAt(sem, w, ops, r, i)
  }

  /** It gets through `ops[i]`. */
  predicate PassesAt<R>(sem: Semantics<R>, w: Tables<R>, ops: seq<Operator>, r: R, released: set<OpId>, i: nat)
    requires i < |ops|
  {
    var b := Push(sem, w, ops[i + 1..], r);
    Passes(sem, ops[i], Held(w, ops[i]), b) && (Needs(sem, ops[i], Held(w, ops[i]), b) ==> ops[i].id !in released)
  }

  predicate PassesAll<R>(sem: Semantics<R>, w: Tables<R>, ops: seq<Operator>, r: R, released: set<OpId>) {
    forall i :: 0 <= i < |ops| ==> PassesAt(sem, w, ops, r, released, i)
  }

  lemma AtRest<R>(sem: Semantics<R>, w: Tables<R>, ops: seq<Operator>, r: R, released: set<OpId>)
    requires ops != []
    ensures PassesAll(sem, w, ops, r, released) <==>
            PassesAll(sem, w, ops[1..], r, released) && PassesAt(sem, w, ops, r, released, 0)
    ensures forall id :: FreesOne(sem, w, ops, r, id) <==>
              FreesOne(sem, w, ops[1..], r, id) || (ops[0].id == id && FreesAt(sem, w, ops, r, 0))
  {
    hide Push;
    var rest := ops[1..];
    forall i | 0 <= i < |rest|
      ensures PassesAt(sem, w, rest, r, released, i) == PassesAt(sem, w, ops, r, released, i + 1)
      ensures FreesAt(sem, w, rest, r, i) == FreesAt(sem, w, ops, r, i + 1) && rest[i] == ops[i + 1]
    {
      assert rest[i + 1..] == ops[i + 1 + 1..];
    }
    if PassesAll(sem, w, rest, r, released) && PassesAt(sem, w, ops, r, released, 0) {
      forall i | 0 <= i < |ops|
        ensures PassesAt(sem, w, ops, r, released, i)
      {
        if i > 0 {
          assert PassesAt(sem, w, rest, r, released, i - 1);
        }
      }
    }
    forall id | FreesOne(sem, w, ops, r, id)
      ensures FreesOne(sem, w, rest, r, id) || (ops[0].id == id && FreesAt(sem, w, ops, r, 0))
    {
      var i :| 0 <= i < |ops| && ops[i].id == id && FreesAt(sem, w, ops, r, i);
      if i > 0 {
        assert rest[i - 1].id == id && FreesAt(sem, w, rest, r, i - 1);
      }
    }
    forall id | FreesOne(sem, w, rest, r, id)
      ensures FreesOne(sem, w, ops, r, id)
    {
      var i :| 0 <= i < |rest| && rest[i].id == id && FreesAt(sem, w, rest, r, i);
      assert ops[i + 1].id == id && FreesAt(sem, w, ops, r, i + 1);
    }
  }

  lemma JoinsSpend<R>(sem: Semantics<R>, o: Operator, log: seq<R>, r: R)
    ensures Spends(sem, o, log, r) || Needs(sem, o, log, r) ==> o.JoinOp?
  {
  }

  lemma {:induction false} ProbedReleased<R>(sem: Semantics<R>, w: Tables<R>, ops: seq<Operator>, r: R, st: Store<R>)
    ensures Probed(sem, w, ops, r, st).sunk == st.sunk
    ensures forall id :: id in Probed(sem, w, ops, r, st).released <==> id in st.released || FreesOne(sem, w, ops, r, id)
  {
    hide Push, FreesOne;
    if ops != [] {
      ProbedReleased(sem, w, ops[1..], r, st);
      AtRest(sem, w, ops, r, {});
    } else {
      NothingFrees(sem, w, r);
    }
  }

  lemma NothingFrees<R>(sem: Semantics<R>, w: Tables<R>, r: R)
    ensures forall id :: !FreesOne(sem, w, [], r, id)
  {
  }

  /** A batch gets through exactly if no operator on its way throws and no join on its way uses what
      it freed before. */
  lemma {:induction false} ExecuteReversed<R>(sem: Semantics<R>, w: Tables<R>, ops: seq<Operator>, r: R, st: Store<R>)
    requires BuildsDone(w, ops, st.sunk) && DistinctJoins(ops)
    ensures ExecuteAll(sem, Reverse(ops), r, st) ==
            if PassesAll(sem, w, ops, r, st.released) then Some((Push(sem, w, ops, r), Probed(sem, w, ops, r, st))) else None
  {
    hide PassesAll, FreesOne, Passes, Needs, Spends;
    if ops != [] {
      var rest := ops[1..];
      assert ops[0] in ops && forall o <- rest :: o in ops;
      ExecuteReversed(sem, w, rest, r, st);
      ExecuteAppend(sem, Reverse(rest), ops[0], r, st);
      ProbedReleased(sem, w, rest, r, st);
      AtRest(sem, w, ops, r, st.released);
      JoinsSpend(sem, ops[0], Held(w, ops[0]), Push(sem, w, rest, r));
      if ops[0].JoinOp? {
        NotFreedBelow(sem, w, ops, r);
      }
    } else {
      NothingStops(sem, w, r, st.released);
    }
  }

  lemma NothingStops<R>(sem: Semantics<R>, w: Tables<R>, r: R, released: set<OpId>)
    ensures PassesAll(sem, w, [], r, released)
  {
  }

  lemma NotFreedBelow<R>(sem: Semantics<R>, w: Tables<R>, ops: seq<Operator>, r: R)
    requires ops != [] && ops[0].JoinOp? && DistinctJoins(ops)
    ensures !FreesOne(sem, w, ops[1..], r, ops[0].id)
  {
    hide Push;
    forall i | 0 <= i < |ops[1..]| && FreesAt(sem, w, ops[1..], r, i)
      ensures ops[1..][i].id != ops[0].id
    {
      assert ops[i + 1] == ops[1..][i];
    }
  }

  ghost predicate DistinctJoins(ops: seq<Operator>) {
    forall i, j :: 0 <= i < j < |ops| && ops[i].JoinOp? && ops[j].JoinOp? ==> ops[i].id != ops[j].id
  }

  predicate HasJoin(ops: seq<Operator>, id: OpId) {
    exists o <- ops :: o.JoinOp? && o.id == id
  }

  lemma {:induction false} ProbedLogs<R>(sem: Semantics<R>, w: Tables<R>, ops: seq<Operator>, r: R, st: Store<R>)
    requires DistinctJoins(ops)
    ensures var after := Probed(sem, w, ops, r, st);
            && (forall i :: 0 <= i < |ops| && ops[i].JoinOp? ==>
                  Log(after.probed, ops[i].id) == Log(st.probed, ops[i].id) + [Push(sem, w, ops[i + 1..], r)])
            && (forall id :: !HasJoin(ops, id) ==> Log(after.probed, id) == Log(st.probed, id))
  {
    if ops != [] {
      var rest := ops[1..];
      ProbedLogs(sem, w, rest, r, st);
      var below, after := Probed(sem, w, rest, r, st), Probed(sem, w, ops, r, st);
      forall i | 0 <= i < |ops| && ops[i].JoinOp?
        ensures Log(after.probed, ops[i].id) == Log(st.probed, ops[i].id) + [Push(sem, w, ops[i + 1..], r)]
      {
        if i > 0 {
          assert rest[i - 1] == ops[i] && rest[i - 1 + 1..] == ops[i + 1..];
        } else {
          assert !HasJoin(rest, ops[0].id);
        }
      }
      forall id | !HasJoin(ops, id)
        ensures Log(after.probed, id) == Log(st.probed, id)
      {
        assert !HasJoin(rest, id);
        assert ops[0] in ops;
      }
    }
  }

  // -------------------------------------------------------------------------------------------
  // Base pipeline first, then a restart at every right join, deepest first
  // -------------------------------------------------------------------------------------------

  lemma PushAllSplit<R>(sem: Semantics<R>, w: Tables<R>, ops: seq<Operator>, a: seq<R>, b: seq<R>)
    ensures PushAll(sem, w, ops, a + b) == PushAll(sem, w, ops, a) + PushAll(sem, w, ops, b)
  {
    hide Push;
  }

  /** The batches that came out on top once the joins at `t` and below are done restarting. */
  function Out<R>(sem: Semantics<R>, w: Tables<R>, ops: seq<Operator>, v: R, t: nat): seq<R>
    requires t <= |ops|
  {
    PushAll(sem, w, ops[..t], Batches(sem, w, ops[t..], v))
  }

  /** What the join at `i` has been probed with by then. */
  function Seen<R>(sem: Semantics<R>, w: Tables<R>, ops: seq<Operator>, v: R, t: nat, i: nat): seq<R>
    requires t <= |ops| && i < |ops|
  {
    if i >= t then Batches(sem, w, ops[i + 1..], v)
    else PushAll(sem, w, ops[i + 1..t], Batches(sem, w, ops[t..], v))
  }

  /** What the join at `t` outputs when it restarts the pipeline. */
  function Again<R>(sem: Semantics<R>, w: Tables<R>, ops: seq<Operator>, v: R, t: nat): R
    requires t < |ops| && ops[t].JoinOp?
  {
    sem.rescan(ops[t].id, ops[t].kind, Log(w, ops[t].id), Batches(sem, w, ops[t + 1..], v))
  }

  /** How a range of operators lets the batches of step `t` through, from those of `t + 1`. */
  lemma BatchesStep<R>(sem: Semantics<R>, w: Tables<R>, ops: seq<Operator>, v: R, t: nat, i: nat)
    requires i <= t < |ops|
    ensures PushAll(sem, w, ops[i..t], Batches(sem, w, ops[t..], v)) ==
            PushAll(sem, w, ops[i..t + 1], Batches(sem, w, ops[t + 1..], v))
            + if Rescans(ops[t]) then [Push(sem, w, ops[i..t], Again(sem, w, ops, v, t))] else []
  {
    hide Push;
    var o, bs := ops[t], Batches(sem, w, ops[t + 1..], v);
    assert ops[t..][1..] == ops[t + 1..] && ops[t..][0] == o;
    assert ops[i..t + 1] == ops[i..t] + [o];
    PushAllAppend(sem, w, ops[i..t], o, bs);
    var more := if Rescans(o) then [Again(sem, w, ops, v, t)] else [];
    assert Batches(sem, w, ops[t..], v) == PushAll(sem, w, [o], bs) + more;
    PushAllSplit(sem, w, ops[i..t], PushAll(sem, w, [o], bs), more);
  }

  lemma OutStep<R>(sem: Semantics<R>, w: Tables<R>, ops: seq<Operator>, v: R, t: nat)
    requires t < |ops|
    ensures Out(sem, w, ops, v, t) == Out(sem, w, ops, v, t + 1)
            + if Rescans(ops[t]) then [Push(sem, w, ops[..t], Again(sem, w, ops, v, t))] else []
  {
    hide Push, Batches, PushAll;
    assert ops[0..t] == ops[..t] && ops[0..t + 1] == ops[..t + 1];
    BatchesStep(sem, w, ops, v, t, 0);
  }

  lemma SeenStep<R>(sem: Semantics<R>, w: Tables<R>, ops: seq<Operator>, v: R, t: nat, i: nat)
    requires t < |ops| && i < |ops|
    ensures Seen(sem, w, ops, v, t, i) == Seen(sem, w, ops, v, t + 1, i)
            + if i < t && Rescans(ops[t]) then [Push(sem, w, ops[i + 1..t], Again(sem, w, ops, v, t))] else []
  {
    if i < t {
      BatchesStep(sem, w, ops, v, t, i + 1);
    } else if i == t {
      var bs := Batches(sem, w, ops[t + 1..], v);
      assert ops[t + 1..t + 1] == [];
      assert PushAll(sem, w, [], bs) == bs;
    }
  }

  lemma SinkLogs<R>(s: Sink, r: R, st: Store<R>)
    requires s.ToRightDelim? ==> s.id != s.join
    ensures var after := SinkInto(s, r, st);
            && after.probed == st.probed && after.released == st.released - SinkIds(s)
            && (forall id <- SinkIds(s) :: Log(after.sunk, id) == Log(st.sunk, id) + [r])
            && (forall id :: id !in SinkIds(s) ==> Log(after.sunk, id) == Log(st.sunk, id))
  {
  }

  /** One meta-pipeline about to run: the builds of its joins are done, with their hash tables,
      nothing was sunk into its sink yet, and none of its joins was probed. */
  ghost predicate Ready<R>(w: Tables<R>, ops: seq<Operator>, sink: Sink, st: Store<R>) {
    && DistinctJoins(ops) && BuildsDone(w, ops, st.sunk) && (forall id :: HasJoin(ops, id) ==> id !in st.released)
    && (sink.ToRightDelim? ==> sink.id != sink.join)
    && (forall id <- SinkIds(sink) :: Log(st.sunk, id) == [] && id !in st.released && !HasJoin(ops, id))
    && forall o <- ops :: o.JoinOp? ==> Log(st.probed, o.id) == []
  }

  /** Some batch made the operator free what it holds. */
  predicate Spent<R>(sem: Semantics<R>, o: Operator, log: seq<R>, bs: seq<R>) {
    exists k :: 0 <= k < |bs| && Spends(sem, o, log, bs[k])
  }

  /** The operator gets all batches through: it throws on none, and uses nothing that it freed on an
      earlier one. */
  predicate GetsAll<R>(sem: Semantics<R>, o: Operator, log: seq<R>, bs: seq<R>) {
    forall k :: 0 <= k < |bs| ==>
      Passes(sem, o, log, bs[k]) && (Needs(sem, o, log, bs[k]) ==> !Spent(sem, o, log, bs[..k]))
  }

  /** The sink takes the batch, after those in `log`. */
  predicate TakesOne<R>(sem: Semantics<R>, sink: Sink, log: seq<R>, r: R) {
    match sink
    case ToCte(_) => true
    case ToCollector(_) => true
    case ToRightDelim(id, j) => sem.takes(j, log, r) && sem.takes(id, log, r)
    case _ => sem.takes(sink.id, log, r)
  }

  predicate TakesAll<R>(sem: Semantics<R>, sink: Sink, bs: seq<R>) {
    forall k :: 0 <= k < |bs| ==> TakesOne(sem, sink, bs[..k], bs[k])
  }

  lemma SpentMore<R>(sem: Semantics<R>, o: Operator, log: seq<R>, bs: seq<R>, r: R)
    ensures Spent(sem, o, log, bs + [r]) <==> Spent(sem, o, log, bs) || Spends(sem, o, log, r)
  {
    hide Spends;
    var all := bs + [r];
    if Spent(sem, o, log, bs) {
      var k :| 0 <= k < |bs| && Spends(sem, o, log, bs[k]);
      assert all[k] == bs[k];
    }
    if Spends(sem, o, log, r) {
      assert all[|bs|] == r;
    }
  }

  lemma GetsMore<R>(sem: Semantics<R>, o: Operator, log: seq<R>, bs: seq<R>, r: R)
    ensures GetsAll(sem, o, log, bs + [r]) <==>
            GetsAll(sem, o, log, bs) && Passes(sem, o, log, r) && (Needs(sem, o, log, r) ==> !Spent(sem, o, log, bs))
  {
    hide Passes, Needs, Spent;
    var all := bs + [r];
    assert all[..|bs|] == bs && all[|bs|] == r;
    forall k | 0 <= k < |bs|
      ensures all[k] == bs[k] && all[..k] == bs[..k]
    {
    }
  }

  lemma TakesMore<R>(sem: Semantics<R>, sink: Sink, bs: seq<R>, r: R)
    ensures TakesAll(sem, sink, bs + [r]) <==> TakesAll(sem, sink, bs) && TakesOne(sem, sink, bs, r)
  {
    hide TakesOne;
    var all := bs + [r];
    assert all[..|bs|] == bs && all[|bs|] == r;
    forall k | 0 <= k < |bs|
      ensures all[k] == bs[k] && all[..k] == bs[..k]
    {
    }
  }

  /** The join at `i` lost what it holds by the time that the joins at `t` and below are done
      restarting: it freed it, or it was scanned. */
  ghost predicate LostAt<R>(sem: Semantics<R>, w: Tables<R>, ops: seq<Operator>, v: R, t: nat, i: nat)
    requires t <= |ops| && i < |ops|
  {
    || Spent(sem, ops[i], Held(w, ops[i]), Seen(sem, w, ops, v, t, i))
    || (i >= t && Rescans(ops[i]) && ops[i].kind.Hash? && HasTable(sem, ops[i].id, Log(w, ops[i].id)))
  }

  ghost predicate Gone<R>(sem: Semantics<R>, w: Tables<R>, ops: seq<Operator>, v: R, t: nat, id: OpId)
    requires t <= |ops|
  {
    exists i :: 0 <= i < |ops| && ops[i].JoinOp? && ops[i].id == id && LostAt(sem, w, ops, v, t, i)
  }

  /** The store after the base pipeline and the restarts of the joins at `t` and below. */
  ghost predicate DoneDownTo<R>(sem: Semantics<R>, w: Tables<R>, ops: seq<Operator>, v: R, sink: Sink, t: nat,
                                before: Store<R>, st: Store<R>)
    requires t <= |ops|
  {
    && (forall i :: 0 <= i < |ops| && ops[i].JoinOp? ==> Log(st.probed, ops[i].id) == Seen(sem, w, ops, v, t, i))
    && (forall id :: !HasJoin(ops, id) ==> Log(st.probed, id) == Log(before.probed, id))
    && (forall id <- SinkIds(sink) :: Log(st.sunk, id) == Out(sem, w, ops, v, t))
    && (forall id :: id !in SinkIds(sink) ==> Log(st.sunk, id) == Log(before.sunk, id))
    && (forall id :: id in st.released <==> id in before.released || Gone(sem, w, ops, v, t, id))
  }

  /** All batches got through so far: those that went up through `ops`, and those that came out. */
  ghost predicate Passed<R>(sem: Semantics<R>, w: Tables<R>, ops: seq<Operator>, v: R, sink: Sink, t: nat)
    requires t <= |ops|
  {
    && (forall i :: 0 <= i < |ops| ==> GetsAll(sem, ops[i], Held(w, ops[i]), Seen(sem, w, ops, v, t, i)))
    && TakesAll(sem, sink, Out(sem, w, ops, v, t))
  }

  lemma GoneIsJoin<R>(sem: Semantics<R>, w: Tables<R>, ops: seq<Operator>, v: R, t: nat, id: OpId)
    requires t <= |ops| && Gone(sem, w, ops, v, t, id)
    ensures HasJoin(ops, id)
  {
    var i :| 0 <= i < |ops| && ops[i].JoinOp? && ops[i].id == id && LostAt(sem, w, ops, v, t, i);
    assert ops[i] in ops;
  }

  /** A join is gone only by itself. */
  lemma OnlyItself<R>(sem: Semantics<R>, w: Tables<R>, ops: seq<Operator>, v: R, t: nat, i: nat)
    requires i < |ops| && t <= |ops| && DistinctJoins(ops) && ops[i].JoinOp?
    ensures Gone(sem, w, ops, v, t, ops[i].id) <==> LostAt(sem, w, ops, v, t, i)
  {
    hide LostAt;
    if Gone(sem, w, ops, v, t, ops[i].id) {
      var k :| 0 <= k < |ops| && ops[k].JoinOp? && ops[k].id == ops[i].id && LostAt(sem, w, ops, v, t, k);
      assert k == i;
    }
  }

  /** One batch through a sink whose tables hold `log`. */
  lemma SinkSame<R>(sem: Semantics<R>, sink: Sink, r: R, st: Store<R>, log: seq<R>)
    requires forall id <- SinkIds(sink) :: Log(st.sunk, id) == log
    ensures SinkTakes(sem, sink, r, st) <==> TakesOne(sem, sink, log, r)
  {
    if sink.ToRightDelim? {
      assert sink.join in SinkIds(sink) && sink.id in SinkIds(sink);
    } else {
      assert sink.id in SinkIds(sink);
    }
  }

  /** One pipeline whose batch is `u`, through the operators `up`. */
  lemma PipeRuns<R>(sem: Semantics<R>, w: Tables<R>, up: seq<Operator>, u: R, sink: Sink, pipe: Pipe, st: Store<R>, log: seq<R>)
    requires pipe.source.Some? && GetData(sem, pipe.source.value, st) == Some(u)
    requires pipe.operators == Reverse(up) && pipe.sink == Some(sink)
    requires var scanned := AfterGetData(sem, pipe.source.value, st);
             BuildsDone(w, up, scanned.sunk) && forall id <- SinkIds(sink) :: Log(scanned.sunk, id) == log
    requires DistinctJoins(up)
    ensures var scanned := AfterGetData(sem, pipe.source.value, st);
            RunPipe(sem, pipe, st) ==
            if PassesAll(sem, w, up, u, scanned.released) && TakesOne(sem, sink, log, Push(sem, w, up, u)) then
              Some(SinkInto(sink, Push(sem, w, up, u), Probed(sem, w, up, u, scanned)))
            else None
  {
    hide GetData, ExecuteAll, Reverse, Probed, Push, PassesAll, SinkInto, BuildsDone, SinkTakes, TakesOne, SinkIds, AfterGetData;
    var scanned := AfterGetData(sem, pipe.source.value, st);
    ExecuteReversed(sem, w, up, u, scanned);
    ProbedReleased(sem, w, up, u, scanned);
    SinkSame(sem, sink, Push(sem, w, up, u), Probed(sem, w, up, u, scanned), log);
  }

  // -------------------------------------------------------------------------------------------
  // The base pipeline
  // -------------------------------------------------------------------------------------------

  lemma AtSource<R>(sem: Semantics<R>, w: Tables<R>, ops: seq<Operator>, v: R)
    ensures Out(sem, w, ops, v, |ops|) == [Push(sem, w, ops, v)]
    ensures forall i :: 0 <= i < |ops| ==> Seen(sem, w, ops, v, |ops|, i) == [Push(sem, w, ops[i + 1..], v)]
  {
    hide Push;
    assert ops[|ops|..] == [] && ops[..|ops|] == ops;
    forall i | 0 <= i < |ops|
      ensures Seen(sem, w, ops, v, |ops|, i) == [Push(sem, w, ops[i + 1..], v)]
    {
      assert ops[i + 1..|ops|] == ops[i + 1..];
    }
  }

  /** The first batch gets through the whole pipeline. */
  lemma FirstPasses<R>(sem: Semantics<R>, w: Tables<R>, ops: seq<Operator>, v: R, sink: Sink, st: Store<R>)
    requires Ready(w, ops, sink, st)
    ensures PassesAll(sem, w, ops, v, st.released) && TakesOne(sem, sink, [], Push(sem, w, ops, v)) <==>
            Passed(sem, w, ops, v, sink, |ops|)
    ensures forall id :: FreesOne(sem, w, ops, v, id) <==> Gone(sem, w, ops, v, |ops|, id)
  {
    hide Push, Seen, Out, Passes, Needs, Spends, TakesOne;
    AtSource(sem, w, ops, v);
    forall i | 0 <= i < |ops|
      ensures PassesAt(sem, w, ops, v, st.released, i) <==>
              GetsAll(sem, ops[i], Held(w, ops[i]), Seen(sem, w, ops, v, |ops|, i))
      ensures FreesAt(sem, w, ops, v, i) <==> LostAt(sem, w, ops, v, |ops|, i)
    {
      FirstAt(sem, w, ops, v, sink, st, i);
    }
    FirstTaken(sem, sink, Push(sem, w, ops, v));
    forall id | FreesOne(sem, w, ops, v, id)
      ensures Gone(sem, w, ops, v, |ops|, id)
    {
      var i :| 0 <= i < |ops| && ops[i].id == id && FreesAt(sem, w, ops, v, i);
      JoinsSpend(sem, ops[i], Held(w, ops[i]), Push(sem, w, ops[i + 1..], v));
    }
  }

  lemma FirstTaken<R>(sem: Semantics<R>, sink: Sink, r: R)
    ensures TakesAll(sem, sink, [r]) <==> TakesOne(sem, sink, [], r)
  {
    assert [r][..0] == [];
  }

  lemma FirstAt<R>(sem: Semantics<R>, w: Tables<R>, ops: seq<Operator>, v: R, sink: Sink, st: Store<R>, i: nat)
    requires Ready(w, ops, sink, st) && i < |ops|
    ensures PassesAt(sem, w, ops, v, st.released, i) <==>
            GetsAll(sem, ops[i], Held(w, ops[i]), Seen(sem, w, ops, v, |ops|, i))
    ensures FreesAt(sem, w, ops, v, i) <==> LostAt(sem, w, ops, v, |ops|, i)
  {
    hide Push, Seen, Passes, Spends, Needs;
    AtSource(sem, w, ops, v);
    var b := Push(sem, w, ops[i + 1..], v);
    assert [b][..0] == [] && [b][0] == b;
    JoinsSpend(sem, ops[i], Held(w, ops[i]), b);
    assert ops[i] in ops && (ops[i].JoinOp? ==> HasJoin(ops, ops[i].id));
  }

  /** The base pipeline gets through exactly if its operators and its sink take the first batch. */
  lemma BaseRuns<R>(sem: Semantics<R>, w: Tables<R>, ops: seq<Operator>, v: R, sink: Sink, base: Pipe, st: Store<R>)
    requires Ready(w, ops, sink, st)
    requires base.source.Some? && !base.source.value.FromJoin? && GetData(sem, base.source.value, st) == Some(v)
    requires base.operators == Reverse(ops) && base.sink == Some(sink)
    ensures var run := RunPipe(sem, base, st);
            && (run.Some? <==> Passed(sem, w, ops, v, sink, |ops|))
            && (run.Some? ==> DoneDownTo(sem, w, ops, v, sink, |ops|, st, run.value))
  {
    hide Push, Reverse, SinkInto, Seen, Out, Probed, RunPipe, GetData, PassesAll, FreesOne, Gone, Passed, Log, SinkIds, TakesOne;
    PipeRuns(sem, w, ops, v, sink, base, st, []);
    FirstPasses(sem, w, ops, v, sink, st);
    BaseDone(sem, w, ops, v, sink, st);
  }

  lemma BaseDone<R>(sem: Semantics<R>, w: Tables<R>, ops: seq<Operator>, v: R, sink: Sink, st: Store<R>)
    requires Ready(w, ops, sink, st)
    ensures DoneDownTo(sem, w, ops, v, sink, |ops|, st, SinkInto(sink, Push(sem, w, ops, v), Probed(sem, w, ops, v, st)))
  {
    hide Push, SinkInto, Seen, Out, Probed, FreesOne, Gone, Log, SinkIds, PassesAll, Passed, TakesOne;
    FirstPasses(sem, w, ops, v, sink, st);
    ProbedLogs(sem, w, ops, v, st);
    ProbedReleased(sem, w, ops, v, st);
    var mid := Probed(sem, w, ops, v, st);
    SinkLogs(sink, Push(sem, w, ops, v), mid);
    AtSource(sem, w, ops, v);
    forall i | 0 <= i < |ops| && ops[i].JoinOp?
      ensures Log(mid.probed, ops[i].id) == Seen(sem, w, ops, v, |ops|, i)
    {
      assert ops[i] in ops;
    }
    forall id | Gone(sem, w, ops, v, |ops|, id)
      ensures HasJoin(ops, id)
    {
      GoneIsJoin(sem, w, ops, v, |ops|, id);
    }
  }

  lemma PrefixJoins(ops: seq<Operator>, t: nat)
    requires t <= |ops| && DistinctJoins(ops)
    ensures DistinctJoins(ops[..t])
    ensures forall id :: HasJoin(ops[..t], id) ==> HasJoin(ops, id)
    ensures forall i :: t <= i < |ops| && ops[i].JoinOp? ==> !HasJoin(ops[..t], ops[i].id)
  {
    forall i | t <= i < |ops| && ops[i].JoinOp?
      ensures !HasJoin(ops[..t], ops[i].id)
    {
      forall o | o in ops[..t] && o.JoinOp?
        ensures o.id != ops[i].id
      {
        var k :| 0 <= k < t && ops[..t][k] == o;
      }
    }
  }

  // -------------------------------------------------------------------------------------------
  // The restarts
  // -------------------------------------------------------------------------------------------

  /** What the restart at `t` reads is there: its join freed nothing. */
  lemma RestartReads<R>(sem: Semantics<R>, w: Tables<R>, ops: seq<Operator>, v: R, sink: Sink, t: nat,
                        before: Store<R>, st: Store<R>)
    requires t < |ops| && Rescans(ops[t]) && Ready(w, ops, sink, before)
    requires DoneDownTo(sem, w, ops, v, sink, t + 1, before, st)
    ensures var scanned := AfterGetData(sem, FromJoin(ops[t].id, ops[t].kind), st);
            && GetData(sem, FromJoin(ops[t].id, ops[t].kind), st) == Some(Again(sem, w, ops, v, t))
            && BuildsDone(w, ops[..t], scanned.sunk) && DistinctJoins(ops[..t])
            && forall id <- SinkIds(sink) :: Log(scanned.sunk, id) == Out(sem, w, ops, v, t + 1)
  {
    hide Push, Out, Seen, Batches, Probed, Gone;
    assert ops[t] in ops && HasJoin(ops, ops[t].id);
    assert Log(st.probed, ops[t].id) == Batches(sem, w, ops[t + 1..], v) by { SeenSelf(sem, w, ops, v, t); }
    StillBuilt(sem, w, ops, v, sink, t, before, st);
    PrefixJoins(ops, t);
    OnlyItself(sem, w, ops, v, t + 1, t);
    RescansKeep(sem, w, ops, v, t);
  }

  lemma RescansKeep<R>(sem: Semantics<R>, w: Tables<R>, ops: seq<Operator>, v: R, t: nat)
    requires t < |ops| && Rescans(ops[t])
    ensures ops[t].kind.Hash? ==> !LostAt(sem, w, ops, v, t + 1, t)
  {
    hide Seen;
  }

  /** What the join or stream at `i` above the restart gets: one more batch. */
  lemma AboveStep<R>(sem: Semantics<R>, w: Tables<R>, ops: seq<Operator>, v: R, sink: Sink, t: nat, i: nat, u: R,
                     before: Store<R>, released: set<OpId>)
    requires i < t < |ops| && Rescans(ops[t]) && Ready(w, ops, sink, before) && u == Again(sem, w, ops, v, t)
    requires forall id :: id in released <==>
               id in before.released || Gone(sem, w, ops, v, t + 1, id) || (Scans(sem, w, ops[t]) && id == ops[t].id)
    ensures GetsAll(sem, ops[i], Held(w, ops[i]), Seen(sem, w, ops, v, t, i)) <==>
            && GetsAll(sem, ops[i], Held(w, ops[i]), Seen(sem, w, ops, v, t + 1, i))
            && PassesAt(sem, w, ops[..t], u, released, i)
    ensures LostAt(sem, w, ops, v, t, i) <==> LostAt(sem, w, ops, v, t + 1, i) || FreesAt(sem, w, ops[..t], u, i)
  {
    hide Push, Seen, Passes, Needs, Spends, GetsAll, Spent, Gone, Scans, Again;
    var o, up := ops[i], ops[..t];
    SeenStep(sem, w, ops, v, t, i);
    assert up[i] == o && up[i + 1..] == ops[i + 1..t];
    var b := Push(sem, w, ops[i + 1..t], u);
    SpentMore(sem, o, Held(w, o), Seen(sem, w, ops, v, t + 1, i), b);
    GetsMore(sem, o, Held(w, o), Seen(sem, w, ops, v, t + 1, i), b);
    JoinsSpend(sem, o, Held(w, o), b);
    if o.JoinOp? {
      OnlyItself(sem, w, ops, v, t + 1, i);
      assert o in ops && HasJoin(ops, o.id) && o.id !in before.released;
      assert o.id != ops[t].id;
    }
  }

  /** The restart at a join scans, and so frees, its hash table. */
  predicate Scans<R>(sem: Semantics<R>, w: Tables<R>, o: Operator) {
    o.JoinOp? && o.kind.Hash? && HasTable(sem, o.id, Log(w, o.id))
  }

  lemma BelowStep<R>(sem: Semantics<R>, w: Tables<R>, ops: seq<Operator>, v: R, t: nat, i: nat)
    requires t <= i < |ops| && t < |ops| && Rescans(ops[t])
    ensures Seen(sem, w, ops, v, t, i) == Seen(sem, w, ops, v, t + 1, i)
    ensures LostAt(sem, w, ops, v, t, i) <==> LostAt(sem, w, ops, v, t + 1, i) || (i == t && Scans(sem, w, ops[t]))
  {
    hide Push, Seen, Spent;
    SeenStep(sem, w, ops, v, t, i);
  }

  /** The restart's batch gets through exactly if all batches so far do. */
  lemma RestartPasses<R>(sem: Semantics<R>, w: Tables<R>, ops: seq<Operator>, v: R, sink: Sink, t: nat,
                         before: Store<R>, st: Store<R>)
    requires t < |ops| && Rescans(ops[t]) && Ready(w, ops, sink, before) && Passed(sem, w, ops, v, sink, t + 1)
    requires DoneDownTo(sem, w, ops, v, sink, t + 1, before, st)
    ensures var u := Again(sem, w, ops, v, t);
            var scanned := AfterGetData(sem, FromJoin(ops[t].id, ops[t].kind), st);
            && PassesAll(sem, w, ops[..t], u, scanned.released)
            && TakesOne(sem, sink, Out(sem, w, ops, v, t + 1), Push(sem, w, ops[..t], u))
            <==> Passed(sem, w, ops, v, sink, t)
  {
    hide Push, Seen, Out, Gone, PassesAt, GetsAll, TakesOne, TakesAll, LostAt, Again, Batches;
    var u, up := Again(sem, w, ops, v, t), ops[..t];
    var scanned := AfterGetData(sem, FromJoin(ops[t].id, ops[t].kind), st);
    ScannedReleased(sem, w, ops, v, sink, t, before, st);
    forall i | 0 <= i < |ops|
      ensures GetsAll(sem, ops[i], Held(w, ops[i]), Seen(sem, w, ops, v, t, i)) <==>
              (i < t ==> PassesAt(sem, w, up, u, scanned.released, i))
    {
      if i < t {
        AboveStep(sem, w, ops, v, sink, t, i, u, before, scanned.released);
      } else {
        BelowStep(sem, w, ops, v, t, i);
      }
    }
    OutStep(sem, w, ops, v, t);
    TakesMore(sem, sink, Out(sem, w, ops, v, t + 1), Push(sem, w, up, u));
  }

  lemma ScannedReleased<R>(sem: Semantics<R>, w: Tables<R>, ops: seq<Operator>, v: R, sink: Sink, t: nat,
                           before: Store<R>, st: Store<R>)
    requires t < |ops| && Rescans(ops[t]) && Ready(w, ops, sink, before)
    requires DoneDownTo(sem, w, ops, v, sink, t + 1, before, st)
    ensures var scanned := AfterGetData(sem, FromJoin(ops[t].id, ops[t].kind), st);
            && scanned.sunk == st.sunk && scanned.probed == st.probed
            && forall id :: id in scanned.released <==>
                 id in before.released || Gone(sem, w, ops, v, t + 1, id) || (Scans(sem, w, ops[t]) && id == ops[t].id)
  {
    hide Out, Seen, Gone;
    assert ops[t] in ops && HasJoin(ops, ops[t].id);
    assert Log(st.sunk, ops[t].id) == Log(w, ops[t].id);
  }

  /** What is gone after the restart. */
  lemma GoneStep<R>(sem: Semantics<R>, w: Tables<R>, ops: seq<Operator>, v: R, sink: Sink, t: nat, before: Store<R>,
                    released: set<OpId>, id: OpId)
    requires t < |ops| && Rescans(ops[t]) && Ready(w, ops, sink, before)
    requires forall id :: id in released <==>
               id in before.released || Gone(sem, w, ops, v, t + 1, id) || (Scans(sem, w, ops[t]) && id == ops[t].id)
    ensures Gone(sem, w, ops, v, t, id) <==>
            || Gone(sem, w, ops, v, t + 1, id) || (Scans(sem, w, ops[t]) && id == ops[t].id)
            || FreesOne(sem, w, ops[..t], Again(sem, w, ops, v, t), id)
  {
    hide Push, Seen, LostAt, FreesAt, Again, Batches, Spends;
    var u, up := Again(sem, w, ops, v, t), ops[..t];
    forall i | 0 <= i < |ops|
      ensures LostAt(sem, w, ops, v, t, i) <==>
              LostAt(sem, w, ops, v, t + 1, i) || (i == t && Scans(sem, w, ops[t])) || (i < t && FreesAt(sem, w, up, u, i))
      ensures i < t ==> up[i] == ops[i] && (FreesAt(sem, w, up, u, i) ==> ops[i].JoinOp?)
    {
      if i < t {
        AboveStep(sem, w, ops, v, sink, t, i, u, before, released);
        FreesAtJoin(sem, w, up, u, i);
      } else {
        BelowStep(sem, w, ops, v, t, i);
      }
    }
  }

  lemma FreesAtJoin<R>(sem: Semantics<R>, w: Tables<R>, ops: seq<Operator>, r: R, i: nat)
    requires i < |ops|
    ensures FreesAt(sem, w, ops, r, i) ==> ops[i].JoinOp?
  {
  }

  /** A restart whose batch gets through. */
  lemma RestartSinks<R>(sem: Semantics<R>, w: Tables<R>, ops: seq<Operator>, v: R, sink: Sink, t: nat,
                        before: Store<R>, st: Store<R>)
    requires t < |ops| && Rescans(ops[t]) && Ready(w, ops, sink, before)
    requires DoneDownTo(sem, w, ops, v, sink, t + 1, before, st)
    ensures var scanned := AfterGetData(sem, FromJoin(ops[t].id, ops[t].kind), st);
            var u := Again(sem, w, ops, v, t);
            DoneDownTo(sem, w, ops, v, sink, t, before,
                       SinkInto(sink, Push(sem, w, ops[..t], u), Probed(sem, w, ops[..t], u, scanned)))
  {
    hide Push, SinkInto, Out, Seen, Batches, Probed, Gone, FreesOne, Again;
    var up, u := ops[..t], Again(sem, w, ops, v, t);
    var scanned := AfterGetData(sem, FromJoin(ops[t].id, ops[t].kind), st);
    PrefixJoins(ops, t);
    ScannedReleased(sem, w, ops, v, sink, t, before, st);
    ProbedLogs(sem, w, up, u, scanned);
    ProbedReleased(sem, w, up, u, scanned);
    var mid := Probed(sem, w, up, u, scanned);
    SinkLogs(sink, Push(sem, w, up, u), mid);
    OutStep(sem, w, ops, v, t);
    forall i | 0 <= i < |ops| && ops[i].JoinOp?
      ensures Log(mid.probed, ops[i].id) == Seen(sem, w, ops, v, t, i)
    {
      SeenStep(sem, w, ops, v, t, i);
      if i < t {
        assert up[i] == ops[i] && up[i + 1..] == ops[i + 1..t];
      }
    }
    forall id
      ensures id in mid.released - SinkIds(sink) <==> id in before.released || Gone(sem, w, ops, v, t, id)
    {
      GoneStep(sem, w, ops, v, sink, t, before, scanned.released, id);
      if Gone(sem, w, ops, v, t, id) {
        GoneIsJoin(sem, w, ops, v, t, id);
      }
    }
  }

  /** The restart at `t` gets through exactly if all batches so far do, and adds one to the sink and to
      every operator above. */
  lemma RestartRuns<R>(sem: Semantics<R>, w: Tables<R>, ops: seq<Operator>, v: R, sink: Sink, t: nat,
                       before: Store<R>, st: Store<R>)
    requires t < |ops| && Rescans(ops[t]) && Ready(w, ops, sink, before) && Passed(sem, w, ops, v, sink, t + 1)
    requires DoneDownTo(sem, w, ops, v, sink, t + 1, before, st)
    ensures var run := RunPipe(sem, ReadyPipe(ChildPipe(ops, t, Some(sink))), st);
            && (run.Some? <==> Passed(sem, w, ops, v, sink, t))
            && (run.Some? ==> DoneDownTo(sem, w, ops, v, sink, t, before, run.value))
  {
    hide Push, Reverse, SinkInto, Out, Seen, Batches, Probed, DoneDownTo, Ready, Gone, Passed, PassesAll, TakesOne, RunPipe, SinkIds;
    RestartReads(sem, w, ops, v, sink, t, before, st);
    PipeRuns(sem, w, ops[..t], Again(sem, w, ops, v, t), sink, ReadyPipe(ChildPipe(ops, t, Some(sink))), st,
             Out(sem, w, ops, v, t + 1));
    RestartPasses(sem, w, ops, v, sink, t, before, st);
    RestartSinks(sem, w, ops, v, sink, t, before, st);
  }

  lemma SeenSelf<R>(sem: Semantics<R>, w: Tables<R>, ops: seq<Operator>, v: R, t: nat)
    requires t < |ops|
    ensures Seen(sem, w, ops, v, t + 1, t) == Batches(sem, w, ops[t + 1..], v)
  {
    SeenStep(sem, w, ops, v, t, t);
  }

  lemma StillBuilt<R>(sem: Semantics<R>, w: Tables<R>, ops: seq<Operator>, v: R, sink: Sink, t: nat,
                      before: Store<R>, st: Store<R>)
    requires t < |ops| && Ready(w, ops, sink, before) && DoneDownTo(sem, w, ops, v, sink, t + 1, before, st)
    ensures BuildsDone(w, ops, st.sunk) && BuildsDone(w, ops[..t], st.sunk)
  {
    forall o | o in ops && o.JoinOp?
      ensures Log(st.sunk, o.id) == Log(w, o.id) != []
    {
      assert HasJoin(ops, o.id);
    }
  }

  lemma NoRestart<R>(sem: Semantics<R>, w: Tables<R>, ops: seq<Operator>, v: R, sink: Sink, t: nat,
                     before: Store<R>, st: Store<R>)
    requires t < |ops| && !Rescans(ops[t]) && DoneDownTo(sem, w, ops, v, sink, t + 1, before, st)
    ensures DoneDownTo(sem, w, ops, v, sink, t, before, st)
  {
    hide Push, Out, Seen, Gone, LostAt;
    OutStep(sem, w, ops, v, t);
    StepWithout(sem, w, ops, v, sink, t);
    forall id
      ensures Gone(sem, w, ops, v, t, id) <==> Gone(sem, w, ops, v, t + 1, id)
    {
      GoneWithout(sem, w, ops, v, sink, t, id);
    }
  }

  /** Without a restart nothing more is seen. */
  lemma StepWithout<R>(sem: Semantics<R>, w: Tables<R>, ops: seq<Operator>, v: R, sink: Sink, t: nat)
    requires t < |ops| && !Rescans(ops[t])
    ensures Passed(sem, w, ops, v, sink, t) <==> Passed(sem, w, ops, v, sink, t + 1)
    ensures forall i :: 0 <= i < |ops| ==> Seen(sem, w, ops, v, t, i) == Seen(sem, w, ops, v, t + 1, i)
    ensures forall i :: 0 <= i < |ops| ==> (LostAt(sem, w, ops, v, t, i) <==> LostAt(sem, w, ops, v, t + 1, i))
  {
    hide Push, Seen, Out, GetsAll, Spent, TakesAll;
    OutStep(sem, w, ops, v, t);
    assert Out(sem, w, ops, v, t + 1) + [] == Out(sem, w, ops, v, t + 1);
    forall i | 0 <= i < |ops|
      ensures Seen(sem, w, ops, v, t, i) == Seen(sem, w, ops, v, t + 1, i)
    {
      SeenStep(sem, w, ops, v, t, i);
      assert Seen(sem, w, ops, v, t + 1, i) + [] == Seen(sem, w, ops, v, t + 1, i);
    }
  }

  lemma GoneWithout<R>(sem: Semantics<R>, w: Tables<R>, ops: seq<Operator>, v: R, sink: Sink, t: nat, id: OpId)
    requires t < |ops| && !Rescans(ops[t])
    ensures Gone(sem, w, ops, v, t, id) <==> Gone(sem, w, ops, v, t + 1, id)
  {
    hide LostAt, Seen;
    StepWithout(sem, w, ops, v, sink, t);
  }

  // -------------------------------------------------------------------------------------------
  // The whole meta-pipeline
  // -------------------------------------------------------------------------------------------

  function ReadyPipes(pipes: seq<Pipe>): seq<Pipe> {
    seq(|pipes|, i requires 0 <= i < |pipes| => ReadyPipe(pipes[i]))
  }

  function KeptOne(p: Pipe): seq<Pipe> {
    if Kept(p) then [p] else []
  }

  function KeptOnly(pipes: seq<Pipe>): seq<Pipe> {
    if pipes == [] then [] else KeptOne(pipes[0]) + KeptOnly(pipes[1..])
  }

  lemma KeptStep(pipes: seq<Pipe>)
    ensures KeptOnly(pipes) == if pipes == [] then [] else KeptOne(pipes[0]) + KeptOnly(pipes[1..])
  {
  }

  lemma {:induction false} KeptAppend(a: seq<Pipe>, b: seq<Pipe>)
    ensures KeptOnly(a + b) == KeptOnly(a) + KeptOnly(b)
  {
    hide KeptOnly, KeptOne;
    KeptStep(a);
    if a == [] {
      assert a + b == b;
    } else {
      var all := a + b;
      assert all[0] == a[0] && all[1..] == a[1..] + b;
      KeptStep(all);
      KeptAppend(a[1..], b);
    }
  }

  /** A step that fails stays failed. */
  lemma {:induction false} PassedBefore<R>(sem: Semantics<R>, w: Tables<R>, ops: seq<Operator>, v: R, sink: Sink, t: nat)
    requires t < |ops| && Passed(sem, w, ops, v, sink, t)
    ensures Passed(sem, w, ops, v, sink, t + 1)
  {
    hide Push, Seen, Out, GetsAll, TakesAll, Passes, Needs, Spent, TakesOne;
    if Rescans(ops[t]) {
      OutStep(sem, w, ops, v, t);
      TakesMore(sem, sink, Out(sem, w, ops, v, t + 1), Push(sem, w, ops[..t], Again(sem, w, ops, v, t)));
      forall i | 0 <= i < |ops|
        ensures GetsAll(sem, ops[i], Held(w, ops[i]), Seen(sem, w, ops, v, t + 1, i))
      {
        SeenStep(sem, w, ops, v, t, i);
        if i < t {
          GetsMore(sem, ops[i], Held(w, ops[i]), Seen(sem, w, ops, v, t + 1, i),
                   Push(sem, w, ops[i + 1..t], Again(sem, w, ops, v, t)));
        } else {
          assert Seen(sem, w, ops, v, t + 1, i) + [] == Seen(sem, w, ops, v, t + 1, i);
        }
      }
    } else {
      StepWithout(sem, w, ops, v, sink, t);
    }
  }

  /** All restarts, from the deepest join up to the one at `from`. */
  lemma {:induction false} RestartsRun<R>(sem: Semantics<R>, w: Tables<R>, ops: seq<Operator>, v: R, sink: Sink, from: nat,
                                          before: Store<R>, st: Store<R>)
    requires from <= |ops| && Ready(w, ops, sink, before) && DoneDownTo(sem, w, ops, v, sink, |ops|, before, st)
    requires Passed(sem, w, ops, v, sink, |ops|)
    ensures var run := RunPipes(sem, KeptOnly(ReadyPipes(ChildPipes(ops, from, Some(sink)))), st);
            && (run.Some? <==> Passed(sem, w, ops, v, sink, from))
            && (run.Some? ==> DoneDownTo(sem, w, ops, v, sink, from, before, run.value))
    decreases |ops| - from
  {
    hide Ready, DoneDownTo, RunPipe, ReadyPipe, Passed, RunPipes, KeptOnly, ReadyPipes, ChildPipes;
    if from < |ops| {
      RestartsRun(sem, w, ops, v, sink, from + 1, before, st);
      var deeper := KeptOnly(ReadyPipes(ChildPipes(ops, from + 1, Some(sink))));
      var run := RunPipes(sem, deeper, st);
      RestartKept(ops, from, sink);
      if Passed(sem, w, ops, v, sink, from) {
        PassedBefore(sem, w, ops, v, sink, from);
      }
      if Rescans(ops[from]) {
        var child := ReadyPipe(ChildPipe(ops, from, Some(sink)));
        RunAppend(sem, deeper, [child], st);
        if run.Some? {
          RunOne(sem, child, run.value);
          RestartRuns(sem, w, ops, v, sink, from, before, run.value);
        }
      } else {
        assert deeper + [] == deeper;
        StepWithout(sem, w, ops, v, sink, from);
        if run.Some? {
          NoRestart(sem, w, ops, v, sink, from, before, run.value);
        }
      }
    } else {
      NoRestarts(sem, ops, sink, st);
    }
  }

  lemma RunOne<R>(sem: Semantics<R>, p: Pipe, st: Store<R>)
    ensures RunPipes(sem, [p], st) == RunPipe(sem, p, st)
  {
    assert [p][1..] == [];
  }

  lemma NoRestarts<R>(sem: Semantics<R>, ops: seq<Operator>, sink: Sink, st: Store<R>)
    ensures RunPipes(sem, KeptOnly(ReadyPipes(ChildPipes(ops, |ops|, Some(sink)))), st) == Some(st)
  {
    assert ReadyPipes([]) == [];
  }

  lemma RestartKept(ops: seq<Operator>, from: nat, sink: Sink)
    requires from < |ops|
    ensures KeptOnly(ReadyPipes(ChildPipes(ops, from, Some(sink)))) ==
            KeptOnly(ReadyPipes(ChildPipes(ops, from + 1, Some(sink))))
            + if Rescans(ops[from]) then [ReadyPipe(ChildPipe(ops, from, Some(sink)))] else []
  {
    var deeper := ReadyPipes(ChildPipes(ops, from + 1, Some(sink)));
    var own := if Restarts(ops[from]) then [ReadyPipe(ChildPipe(ops, from, Some(sink)))] else [];
    assert ReadyPipes(ChildPipes(ops, from, Some(sink))) == deeper + own;
    KeptAppend(deeper, own);
    if own != [] {
      assert own[1..] == [];
    }
  }

  /** Every operator gets its batches through. */
  ghost predicate SpinePasses<R>(sem: Semantics<R>, w: Tables<R>, ops: seq<Operator>, v: R) {
    forall i :: 0 <= i < |ops| ==> GetsAll(sem, ops[i], Held(w, ops[i]), Batches(sem, w, ops[i + 1..], v))
  }

  lemma AllPassed<R>(sem: Semantics<R>, w: Tables<R>, ops: seq<Operator>, v: R, sink: Sink)
    ensures Passed(sem, w, ops, v, sink, 0) <==>
            SpinePasses(sem, w, ops, v) && TakesAll(sem, sink, Batches(sem, w, ops, v))
  {
    hide Push, Batches, GetsAll, TakesAll;
    assert ops[..0] == [] && ops[0..] == ops;
    PushNothing(sem, w, Batches(sem, w, ops, v));
  }

  /** Running everything that a meta-pipeline contributes to the schedule gets through exactly if
      every operator of its spine gets its batches through and the sink takes those that come out; then
      it sinks exactly the batches of its spine, and leaves all other sinks and joins alone. */
  lemma BlockRuns<R>(sem: Semantics<R>, w: Tables<R>, s: Spine, v: R, sink: Sink, st: Store<R>)
    requires Ready(w, s.ops, sink, st) && GetData(sem, s.source, st) == Some(v) && !s.source.FromJoin?
    ensures var run := RunPipes(sem, KeptOnly(ReadyMeta(Shape(sink, s)).pipes), st);
            && (run.Some? <==> SpinePasses(sem, w, s.ops, v) && TakesAll(sem, sink, Batches(sem, w, s.ops, v)))
            && (run.Some? ==>
                  && (forall id <- SinkIds(sink) :: Log(run.value.sunk, id) == Batches(sem, w, s.ops, v))
                  && (forall id :: id !in SinkIds(sink) ==> Log(run.value.sunk, id) == Log(st.sunk, id))
                  && (forall id :: !HasJoin(s.ops, id) ==> Log(run.value.probed, id) == Log(st.probed, id))
                  && (forall id <- run.value.released :: id in st.released || HasJoin(s.ops, id)))
  {
    hide Ready, RunPipe, Reverse, ChildPipes, Gone, DoneDownTo, RunPipes, KeptOnly, Passed, SpinePasses, TakesAll, Shape;
    ShapePipes(sink, s);
    var pipes := Shape(sink, s).pipes;
    var base := ReadyPipe(pipes[0]);
    var children := ReadyPipes(ChildPipes(s.ops, 0, Some(sink)));
    assert ReadyMeta(Shape(sink, s)).pipes == [base] + children;
    KeptAppend([base], children);
    KeptBase(base);
    BaseRuns(sem, w, s.ops, v, sink, base, st);
    RunOne(sem, base, st);
    RunAppend(sem, [base], KeptOnly(children), st);
    AllPassed(sem, w, s.ops, v, sink);
    if Passed(sem, w, s.ops, v, sink, |s.ops|) {
      var st1 := RunPipe(sem, base, st).value;
      RestartsRun(sem, w, s.ops, v, sink, 0, st, st1);
      var run := RunPipes(sem, KeptOnly(children), st1);
      if run.Some? {
        BlockDone(sem, w, s.ops, v, sink, st, run.value);
      }
    } else if Passed(sem, w, s.ops, v, sink, 0) {
      PassedFirst(sem, w, s.ops, v, sink, 0);
    }
  }

  lemma {:induction false} PassedFirst<R>(sem: Semantics<R>, w: Tables<R>, ops: seq<Operator>, v: R, sink: Sink, t: nat)
    requires t <= |ops| && Passed(sem, w, ops, v, sink, t)
    ensures Passed(sem, w, ops, v, sink, |ops|)
    decreases |ops| - t
  {
    hide Passed;
    if t < |ops| {
      PassedBefore(sem, w, ops, v, sink, t);
      PassedFirst(sem, w, ops, v, sink, t + 1);
    }
  }

  lemma KeptBase(base: Pipe)
    requires Kept(base)
    ensures KeptOnly([base]) == [base]
  {
    assert [base][1..] == [];
  }

  lemma BlockDone<R>(sem: Semantics<R>, w: Tables<R>, ops: seq<Operator>, v: R, sink: Sink, before: Store<R>, st: Store<R>)
    requires DoneDownTo(sem, w, ops, v, sink, 0, before, st)
    ensures forall id <- SinkIds(sink) :: Log(st.sunk, id) == Batches(sem, w, ops, v)
    ensures forall id :: id !in SinkIds(sink) ==> Log(st.sunk, id) == Log(before.sunk, id)
    ensures forall id :: !HasJoin(ops, id) ==> Log(st.probed, id) == Log(before.probed, id)
    ensures forall id <- st.released :: id in before.released || HasJoin(ops, id)
  {
    hide Push, Batches, Gone, Seen;
    assert ops[..0] == [] && ops[0..] == ops;
    var bs := Batches(sem, w, ops, v);
    assert PushAll(sem, w, [], bs) == bs by { PushNothing(sem, w, bs); }
    forall id | Gone(sem, w, ops, v, 0, id)
      ensures HasJoin(ops, id)
    {
      GoneIsJoin(sem, w, ops, v, 0, id);
    }
  }

  lemma PushNothing<R>(sem: Semantics<R>, w: Tables<R>, bs: seq<R>)
    ensures PushAll(sem, w, [], bs) == bs
  {
  }
}

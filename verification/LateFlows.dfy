/** Running a tree of tables, filters and joins with late materialization gives the rows and flags of
    eager evaluation, without reading or freeing anything twice. */
module LateFlows {
  import opened Options
  import opened Plans
  import opened JoinConditions
  import opened LateMaterialization
  import opened HashJoins
  import opened NestedLoopJoins
  import opened Flows
  import BufferManager
  import CacheAllocator

  // -------------------------------------------------------------------------------------------
  // Running a flow
  // -------------------------------------------------------------------------------------------

  /** A device column that stands for an eager one, in a relation of `n` rows. */
  ghost predicate Represents(c: Column, mem: Arrays, rows: Rows, n: nat) {
    && c.Valid(mem) && c.Rows(mem) == rows.values && c.isUnique == rows.unique
    && if c.rowIds.Some? then c.rowIdCount == n else c.Absent() || c.length == n
  }

  ghost predicate AllRepresent(cs: seq<Column>, mem: Arrays, rows: seq<Rows>, n: nat) {
    |cs| == |rows| && forall k :: 0 <= k < |cs| ==> Represents(cs[k], mem, rows[k], n)
  }

  lemma RepresentsPersists(cs: seq<Column>, mem: Arrays, rows: seq<Rows>, n: nat, later: Arrays)
    requires AllRepresent(cs, mem, rows, n) && mem <= later
    ensures AllRepresent(cs, later, rows, n)
  {
    forall k | 0 <= k < |cs|
      ensures Represents(cs[k], later, rows[k], n)
    {
      RowsPersist(cs[k], mem, later);
    }
  }

  lemma RepresentedSelectable(cs: seq<Column>, mem: Arrays, rows: seq<Rows>, n: nat, ids: seq<nat>)
    requires AllRepresent(cs, mem, rows, n) && Below(ids, n)
    ensures Selectable(cs, mem, ids)
  {
  }

  lemma OneSelected(c: Column, mem: Arrays, rows: Rows, n: nat, ids: seq<nat>, out: Column, later: Arrays, maintainUnique: bool)
    requires Represents(c, mem, rows, n) && Below(ids, n) && c.Selects(ids, mem)
    requires Selected(c, mem, ids, out, later, maintainUnique)
    ensures Represents(out, later, Take(rows, ids, n, maintainUnique), |ids|)
  {
    if rows.values == [] && ids != [] {
      assert ids[0] < n;
    }
  }

  /** Selecting late is taking rows. */
  lemma SelectedRepresents(cs: seq<Column>, mem: Arrays, rows: seq<Rows>, n: nat, ids: seq<nat>, outs: seq<Column>, later: Arrays,
                           maintainUnique: bool)
    requires AllRepresent(cs, mem, rows, n) && Below(ids, n) && Selectable(cs, mem, ids)
    requires AllSelected(cs, mem, ids, outs, later, maintainUnique)
    ensures AllRepresent(outs, later, TakeAll(rows, ids, n, maintainUnique), |ids|)
  {
    hide Selected, Represents, Take, Below, Column.Selects, Column.Valid;
    forall k | 0 <= k < |outs|
      ensures Represents(outs[k], later, TakeAll(rows, ids, n, maintainUnique)[k], |ids|)
    {
      OneSelected(cs[k], mem, rows[k], n, ids, outs[k], later, maintainUnique);
    }
  }

  lemma ProjectionRepresents(cs: seq<Column>, mem: Arrays, rows: seq<Rows>, n: nat, columns: seq<nat>)
    requires AllRepresent(cs, mem, rows, n) && Below(columns, |cs|)
    ensures AllRepresent(Chosen(cs, columns), mem, Project(rows, columns), n)
  {
    hide Represents;
  }

  lemma BothRepresent(a: seq<Column>, ra: seq<Rows>, b: seq<Column>, rb: seq<Rows>, mem: Arrays, n: nat)
    requires AllRepresent(a, mem, ra, n) && AllRepresent(b, mem, rb, n)
    ensures AllRepresent(a + b, mem, ra + rb, n)
  {
    hide Represents;
  }

  method LoadTable(columns: seq<Rows>, n: nat, ghost mem: Arrays) returns (cs: seq<Column>)
    requires forall c <- columns :: |c.values| == 0 || |c.values| == n
    ensures AllRepresent(cs, mem, columns, n)
    ensures forall c <- cs :: c.rowIds.None?
  {
    cs := [];
    for k := 0 to |columns|
      invariant AllRepresent(cs, mem, columns[..k], n) && forall c <- cs :: c.rowIds.None?
    {
      var c := columns[k];
      cs := cs + [if |c.values| == 0 then NO_ROWS.(isUnique := c.unique) else Column(Some(c.values), n, None, 0, c.unique)];
      assert columns[..k + 1] == columns[..k] + [c];
    }
    assert columns[..|columns|] == columns;
  }

  /** What was freed since there were `n` arrays is among those after. */
  predicate FreedFrom(before: set<Ptr>, after: set<Ptr>, n: nat) {
    before <= after && forall p <- after :: p in before || p >= n
  }

  /** Old arrays are not touched: a relation stays readable while another one is computed. */
  lemma StaysReadable(cs: seq<Column>, mem: Arrays, rows: seq<Rows>, n: nat, before: set<Ptr>, after: set<Ptr>)
    requires AllRepresent(cs, mem, rows, n) && Readable(cs, before) && FreedFrom(before, after, |mem|)
    ensures Readable(cs, after)
  {
    forall k | 0 <= k < |cs|
      ensures cs[k].Live(after)
    {
      assert Represents(cs[k], mem, rows[k], n);
    }
  }

  lemma OwnFreed(cs: seq<Column>, before: set<Ptr>, after: set<Ptr>, locked: set<Ptr>, n: nat)
    requires ArraysFrom(cs, n) && (after == before || after == before + (LateArrays(cs) - locked))
    ensures FreedFrom(before, after, n)
  {
  }

  lemma LateBelow(cs: seq<Column>, mem: Arrays, rows: seq<Rows>, n: nat)
    requires AllRepresent(cs, mem, rows, n)
    ensures forall p <- LateArrays(cs) :: p < |mem|
  {
    forall p | p in LateArrays(cs)
      ensures p < |mem|
    {
      var c :| c in cs && c.rowIds == Some(p);
      var k :| 0 <= k < |cs| && cs[k] == c;
      assert Represents(cs[k], mem, rows[k], n);
    }
  }

  lemma NewerReadable(cs: seq<Column>, n: nat, freed: set<Ptr>)
    requires ArraysFrom(cs, n) && forall p <- freed :: p < n
    ensures Readable(cs, freed)
  {
  }

  method RunFilter(device: Device, input: seq<Column>, keep: seq<nat>, ghost rows: seq<Rows>, ghost n: nat)
    returns (cs: seq<Column>)
    requires AllRepresent(input, device.arrays, rows, n) && Below(keep, n) && device.Tracked() && Readable(input, device.freed)
    modifies device
    ensures old(device.arrays) <= device.arrays && device.Tracked()
    ensures AllRepresent(cs, device.arrays, TakeAll(rows, keep, n, true), |keep|)
    ensures device.freed == old(device.freed) + if |keep| > 0 then LateArrays(input) - device.locked else {}
    ensures Readable(cs, device.freed) && ArraysFrom(cs, |old(device.arrays)|) && device.locked == old(device.locked)
  {
    hide Represents, Column.Selects, Column.Valid, Written, Selected, LateArrays, Readable;
    ghost var mem := device.arrays;
    RepresentedSelectable(input, mem, rows, n, keep);
    NewIsNone(input, mem, keep);
    var p := device.Alloc(keep);
    StillSelectable(input, mem, keep, device.arrays);
    var output := new Column[|input|](_ => NO_ROWS);
    ghost var now := device.arrays;
    device.HandleMaterializeRowIDs(input, output, |keep|, Some(p), true);
    cs := output[..];
    assert output[..|input|] == cs;
    AllWrittenSelects(input, mem, keep, now, p, true, cs, device.arrays);
    SelectedRepresents(input, mem, rows, n, keep, cs, device.arrays, true);
    LateBelow(input, mem, rows, n);
    NewerReadable(cs, |mem|, device.freed);
  }

  /** What the pool answers: never a live block or one of the caches, and NULL when it is full. */
  ghost predicate IsPool(manager: BufferManager.BufferManager, next: BufferManager.Blocks -> BufferManager.Ptr) {
    forall pool :: next(pool) !in pool && !manager.InCache(next(pool))
  }

  ghost predicate NeverFull(next: BufferManager.Blocks -> BufferManager.Ptr) {
    forall pool :: next(pool) != BufferManager.NULL
  }

  twostate predicate SameBlocks(manager: BufferManager.BufferManager)
    reads manager
  {
    manager.pool == old(manager.pool) && manager.allocationTable == old(manager.allocationTable)
  }

  lemma PoolAnswers(pool: BufferManager.Blocks, free: BufferManager.Blocks, locked: BufferManager.Blocks,
                    stored: BufferManager.Blocks, next: BufferManager.Blocks -> BufferManager.Ptr)
    requires BufferManager.Divided(pool, free, locked, stored) && next(pool) !in pool
    ensures next(pool) !in free && (NeverFull(next) ==> next(pool) != BufferManager.NULL)
  {
  }

  lemma BackAgain(blocks: BufferManager.Blocks, p: BufferManager.Ptr, size: nat)
    requires p !in blocks
    ensures blocks[p := size] - {p} == blocks
  {
  }

  /** What a hash join stores of its build side besides the keys. */
  function RightKept(j: JoinStep, r: seq<Rows>): seq<Rows> {
    if KeysOnly(j.kind.joinType) then [] else RightColumns(j, r)
  }

  /** The join holds its build side, whose rows are `r`, in arrays before place `n` that were not freed. */
  ghost predicate Built(join: HashJoin, j: JoinStep, l: seq<Rows>, r: seq<Rows>, nr: nat, mem: Arrays, freed: set<Ptr>, n: nat)
    reads join, join.hashTable
  {
    && join.joinType == j.kind.joinType && join.conditions == Partitioned(j.conditions)
    && join.lhsOutput == Projection(j.leftMap, |l|) && join.Builds()
    && join.uniqueBuildKeys == BuildFlag(j.conditions, r) && !join.uniqueProbeKeys
    && |join.rhsOutput| == |RightKept(j, r)|
    && (forall k :: 0 <= k < |join.rhsOutput| ==> join.rhsOutput[k] < join.hashTable.Length)
    && AllRepresent(Chosen(join.hashTable[..], join.rhsOutput), mem, RightKept(j, r), nr)
    && Readable(Chosen(join.hashTable[..], join.rhsOutput), freed)
    && forall p <- LateArrays(Chosen(join.hashTable[..], join.rhsOutput)) :: p < n
  }

  /** What the manager held before the join reserved its hash table. */
  ghost predicate Without(manager: BufferManager.BufferManager, table: BufferManager.Ptr,
                          pool: BufferManager.Blocks, free: BufferManager.Blocks)
    reads manager
  {
    if table == BufferManager.NULL then manager.pool == pool && manager.allocationTable == free
    else
      && table !in pool && table in manager.pool && manager.pool - {table} == pool
      && table !in free && table in manager.allocationTable && manager.allocationTable - {table} == free
  }

  lemma ChosenReadable(cs: seq<Column>, columns: seq<nat>, freed: set<Ptr>)
    requires Readable(cs, freed) && Below(columns, |cs|)
    ensures Readable(Chosen(cs, columns), freed)
  {
  }

  lemma KeysReadable(cs: seq<Condition>, input: seq<Column>, freed: set<Ptr>)
    requires Readable(input, freed)
    ensures KeysLive(cs, input, freed) && ProbesLive(cs, input, freed)
  {
  }

  lemma OlderApart(cs: seq<Column>, stored: seq<Column>, n: nat)
    requires ArraysFrom(cs, n) && forall p <- LateArrays(stored) :: p < n
    ensures LateArrays(cs) !! LateArrays(stored)
  {
    assert forall p <- LateArrays(cs) :: p >= n;
  }

  lemma ChosenFrom(cs: seq<Column>, columns: seq<nat>, n: nat)
    requires ArraysFrom(cs, n) && Below(columns, |cs|)
    ensures ArraysFrom(Chosen(cs, columns), n)
  {
  }

  // The constructor of a hash join, and the sink of its build side; `ok` is false when the pool is full
  // or the kernels do not know the conditions.
  method BuildJoin(device: Device, manager: BufferManager.BufferManager, next: BufferManager.Blocks -> BufferManager.Ptr,
                   build: seq<Column>, j: JoinStep, leftCount: nat, ghost l: seq<Rows>, ghost r: seq<Rows>, ghost nr: nat)
    returns (ok: bool, join: HashJoin)
    requires AllRepresent(build, device.arrays, r, nr) && JoinFits(j, l, r) && j.kind.Hash? && leftCount == |l|
    requires manager.LedgerValid() && IsPool(manager, next) && Readable(build, device.freed)
    modifies manager`pool, manager`granted, manager`allocationTable
    ensures manager.LedgerValid() && fresh(join) && fresh(join.hashTable)
    ensures NeverFull(next) && KernelsKnow(j) ==> ok
    ensures ok ==> KernelsKnow(j)
    ensures ok ==>
              && Built(join, j, l, r, nr, device.arrays, device.freed, |device.arrays|)
              && Without(manager, join.gpuHashTable, old(manager.pool), old(manager.allocationTable))
  {
    hide Represents, Column.Selects, Column.Valid, Partitioned, Reserved, SlotColumn, Materialize, NeverFull;
    hide BufferManager.Balanced, BufferManager.Divided, Comparable, LateInequality, StoredAt, DistinctKeys, AllRepresent;
    var t := j.kind.joinType;
    MapsInRange(j, build, device.arrays, l, r, nr);
    join := new HashJoin(t, j.conditions, j.leftMap, leftCount, j.rightMap, |build|);
    BuildSideReordered(j.conditions, join.conditions, build, r, device.arrays, nr);
    KeysReadable(join.conditions, build, device.freed);
    PayloadBelow(join.payload, build);
    var p := next(manager.pool);
    PoolAnswers(manager.pool, manager.allocationTable, manager.lockedTable, manager.storedBuffers, next);
    ok := join.Sink(device, manager, build, p);
    if ok {
      StoredSide(j, join.conditions, join.payload, build, join.hashTable[..], join.rhsOutput, r, device.arrays, nr, device.freed);
      BackAgain(old(manager.pool), p, CacheAllocator.Padded(join.TableBytes(join.htLen)));
      BackAgain(old(manager.allocationTable), p, CacheAllocator.Padded(join.TableBytes(join.htLen)));
    }
  }

  lemma MapsInRange(j: JoinStep, build: seq<Column>, mem: Arrays, l: seq<Rows>, r: seq<Rows>, nr: nat)
    requires AllRepresent(build, mem, r, nr) && Below(j.leftMap, |l|) && Below(j.rightMap, |r|)
    ensures |build| == |r| && (forall c <- j.leftMap :: c < |l|) && forall c <- j.rightMap :: c < |build|
    ensures Below(Projection(j.rightMap, |r|), |r|)
  {
  }

  /** The slots of the output columns stand for the projected columns of the build side. */
  lemma StoredSide(j: JoinStep, cs: seq<Condition>, payload: seq<nat>, build: seq<Column>, table: seq<Column>, outputs: seq<nat>,
                   r: seq<Rows>, mem: Arrays, nr: nat, freed: set<Ptr>)
    requires |table| == |cs| + |payload| && StoredAt(cs, payload, build, table)
    requires AllRepresent(build, mem, r, nr) && Readable(build, freed) && Below(Projection(j.rightMap, |r|), |r|)
    requires KeysOnly(j.kind.joinType) ==> outputs == []
    requires !KeysOnly(j.kind.joinType) ==>
               var rp := Projection(j.rightMap, |r|);
               && |outputs| == |rp|
               && forall i :: 0 <= i < |outputs| ==>
                    outputs[i] < |table| && SlotColumn(cs, payload, outputs[i]) == Some(rp[i])
    ensures |outputs| == |RightKept(j, r)| && forall k :: 0 <= k < |outputs| ==> outputs[k] < |table|
    ensures var stored := Chosen(table, outputs);
            && AllRepresent(stored, mem, RightKept(j, r), nr) && Readable(stored, freed)
            && forall p <- LateArrays(stored) :: p < |mem|
  {
    hide StoredAt, Represents, Project;
    if !KeysOnly(j.kind.joinType) {
      var rp := Projection(j.rightMap, |r|);
      StoredColumns(cs, payload, build, table, outputs, rp);
      ProjectionRepresents(build, mem, r, nr, rp);
      ChosenReadable(build, rp, freed);
    }
    LateBelow(Chosen(table, outputs), mem, RightKept(j, r), nr);
  }

  lemma SidesRepresent(a: seq<Column>, ra: seq<Rows>, nl: nat, left: seq<nat>, b: seq<Column>, rb: seq<Rows>, nr: nat, right: seq<nat>,
                       mem: Arrays, out: seq<Column>, later: Arrays, leftUnique: bool, rightUnique: bool)
    requires AllRepresent(a, mem, ra, nl) && Below(left, nl) && Selectable(a, mem, left)
    requires AllRepresent(b, mem, rb, nr) && Below(right, nr) && Selectable(b, mem, right) && |left| == |right|
    requires |a| <= |out| && AllSelected(a, mem, left, out[..|a|], later, leftUnique)
    requires AllSelected(b, mem, right, out[|a|..], later, rightUnique)
    ensures AllRepresent(out, later, TakeAll(ra, left, nl, leftUnique) + TakeAll(rb, right, nr, rightUnique), |left|)
  {
    hide AllRepresent, AllSelected, Selectable, Below;
    SelectedRepresents(a, mem, ra, nl, left, out[..|a|], later, leftUnique);
    SelectedRepresents(b, mem, rb, nr, right, out[|a|..], later, rightUnique);
    BothRepresent(out[..|a|], TakeAll(ra, left, nl, leftUnique), out[|a|..], TakeAll(rb, right, nr, rightUnique), later, |left|);
    assert out == out[..|a|] + out[|a|..];
  }

  /** Columns that are passed on in place, and the marks. */
  lemma MarksRepresent(a: seq<Column>, ra: seq<Rows>, n: nat, marks: seq<int>, out: seq<Column>, mem: Arrays, unique: bool)
    requires AllRepresent(a, mem, ra, n) && |out| == |a| + 1 && (|marks| == 0 || |marks| == n)
    requires forall k :: 0 <= k < |a| ==> out[k] == a[k].(isUnique := unique && a[k].isUnique)
    requires out[|a|] == Column(Some(marks), |marks|, None, 0, false)
    ensures AllRepresent(out, mem, Passed(ra, unique) + [Rows(marks, false)], n)
  {
    var rows := Passed(ra, unique) + [Rows(marks, false)];
    forall k | 0 <= k < |out|
      ensures Represents(out[k], mem, rows[k], n)
    {
      if k < |a| {
        assert Represents(a[k], mem, ra[k], n);
      }
    }
  }

  /** The first key's rows are those of the relation, or it has none. */
  lemma FirstKeyRows(cs: seq<Condition>, probe: seq<Column>, mem: Arrays, l: seq<Rows>, n: nat)
    requires AllRepresent(probe, mem, l, n)
    ensures |FirstKey(cs, l)| == 0 || |FirstKey(cs, l)| == n
  {
    hide Partitioned;
    var ordered := Partitioned(cs);
    if ordered != [] && ordered[0].left < |l| {
      assert Represents(probe[ordered[0].left], mem, l[ordered[0].left], n);
    }
  }

  /** What the kernel of a hash join hands to Execute. */
  function LeftIds(j: JoinStep): seq<nat> {
    if j.kind == Hash(Mark) then [] else j.left
  }

  function RightIds(j: JoinStep): seq<nat> {
    if j.kind == Hash(Inner) then j.right else []
  }

  /** What Execute finds: the selected rows, in arrays that are there and apart. */
  lemma ProbeFits(j: JoinStep, probe: seq<Column>, stored: seq<Column>, l: seq<Rows>, r: seq<Rows>, nl: nat, nr: nat,
                  mem: Arrays, freed: set<Ptr>, n: nat)
    requires AllRepresent(probe, mem, l, nl) && AllRepresent(stored, mem, RightKept(j, r), nr)
    requires JoinFits(j, l, r) && JoinDone(j, l, r, nl, nr) && j.kind.Hash?
    requires Readable(probe, freed) && ArraysFrom(probe, n) && forall p <- LateArrays(stored) :: p < n
    ensures var lp := Projection(j.leftMap, |l|);
            && Below(lp, |probe|) && (forall c <- lp :: c < |probe|)
            && Selectable(Chosen(probe, lp), mem, LeftIds(j)) && Selectable(stored, mem, RightIds(j))
            && AllRepresent(Chosen(probe, lp), mem, LeftColumns(j, l), nl)
            && Readable(Chosen(probe, lp), freed) && ArraysFrom(Chosen(probe, lp), n)
            && LateArrays(Chosen(probe, lp)) !! LateArrays(stored)
            && (forall p <- LateArrays(Chosen(probe, lp)) :: p < |mem|)
  {
    hide Represents, LateArrays, IsJoin, IsSemi, IsMarks, Partitioned;
    var lp := Projection(j.leftMap, |l|);
    ProjectionBelow(j.leftMap, |l|);
    ProjectionBelow(lp, |l|);
    ProjectionRepresents(probe, mem, l, nl, lp);
    RepresentedSelectable(Chosen(probe, lp), mem, LeftColumns(j, l), nl, LeftIds(j));
    RepresentedSelectable(stored, mem, RightKept(j, r), nr, RightIds(j));
    ChosenReadable(probe, lp, freed);
    ChosenFrom(probe, lp, n);
    OlderApart(Chosen(probe, lp), stored, n);
    LateBelow(Chosen(probe, lp), mem, LeftColumns(j, l), nl);
  }

  /** What Execute wrote, for the projected probe columns `left` and the stored ones. */
  ghost predicate Wrote(j: JoinStep, left: seq<Column>, stored: seq<Column>, mem: Arrays, out: seq<Column>, later: Arrays,
                        buildFlag: bool, probeFlag: bool)
  {
    if j.kind == Hash(Mark) then
      && |out| == |left| + 1 && out[|left|] == Column(Some(j.marks), |j.marks|, None, 0, false)
      && forall k :: 0 <= k < |left| ==> out[k] == left[k].(isUnique := buildFlag && left[k].isUnique)
    else if j.kind == Hash(Semi) then Selectable(left, mem, j.left) && AllSelected(left, mem, j.left, out, later, true)
    else
      && Selectable(left, mem, j.left) && |left| <= |out| && AllSelected(left, mem, j.left, out[..|left|], later, buildFlag)
      && Selectable(stored, mem, j.right) && AllSelected(stored, mem, j.right, out[|left|..], later, probeFlag)
  }

  /** That is what the join gives. */
  lemma WroteRows(j: JoinStep, probe: seq<Column>, left: seq<Column>, stored: seq<Column>, l: seq<Rows>, r: seq<Rows>,
                  nl: nat, nr: nat, mem: Arrays, out: seq<Column>, later: Arrays)
    requires JoinFits(j, l, r) && JoinDone(j, l, r, nl, nr) && j.kind.Hash? && mem <= later
    requires AllRepresent(probe, mem, l, nl) && AllRepresent(left, mem, LeftColumns(j, l), nl)
    requires AllRepresent(stored, mem, RightKept(j, r), nr)
    requires Wrote(j, left, stored, mem, out, later, BuildFlag(j.conditions, r), ProbeFlag(j.conditions, l))
    ensures AllRepresent(out, later, JoinedRows(j, l, r, nl, nr), if j.kind == Hash(Mark) then nl else |j.left|)
  {
    hide AllRepresent, AllSelected, Selectable, Below, IsSemi, IsJoin, DistinctKeys, AllReferences, BuildFlag, ProbeFlag, FirstKey;
    var buildFlag, probeFlag := BuildFlag(j.conditions, r), ProbeFlag(j.conditions, l);
    if j.kind == Hash(Mark) {
      FirstKeyRows(j.conditions, probe, mem, l, nl);
      MarksRepresent(left, LeftColumns(j, l), nl, j.marks, out, mem, buildFlag);
      RepresentsPersists(out, mem, JoinedRows(j, l, r, nl, nr), nl, later);
    } else if j.kind == Hash(Semi) {
      SelectedRepresents(left, mem, LeftColumns(j, l), nl, j.left, out, later, true);
    } else {
      PairsAgree(j.conditions, Values(l, LeftKeys(j.conditions)), Values(r, RightKeys(j.conditions)), j.left, j.right);
      SidesRepresent(left, LeftColumns(j, l), nl, j.left, stored, RightColumns(j, r), nr, j.right, mem, out, later,
                     buildFlag, probeFlag);
    }
  }

  /** A block that is not live is in none of the tables. */
  lemma NullIsFree(pool: BufferManager.Blocks, free: BufferManager.Blocks, locked: BufferManager.Blocks,
                   stored: BufferManager.Blocks)
    requires BufferManager.Divided(pool, free, locked, stored) && BufferManager.NULL !in pool
    ensures BufferManager.NULL !in free && free - {BufferManager.NULL} == free
  {
  }

  lemma KeptOf(j: JoinStep, r: seq<Rows>)
    ensures j.kind == Hash(Inner) ==> RightKept(j, r) == RightColumns(j, r)
    ensures j.kind == Hash(Semi) || j.kind == Hash(Mark) ==> RightKept(j, r) == []
  {
  }

  /** Execute accepts the output that the join is given, and its kernels do it. */
  lemma Accepted(join: HashJoin, j: JoinStep)
    requires OneBatch(j.kind) && j.kind.Hash? && join.joinType == j.kind.joinType && join.conditions != [] && join.Builds()
    requires KeysOnly(join.joinType) ==> join.rhsOutput == []
    ensures join.Accepts(|join.lhsOutput| + |join.rhsOutput| + if j.kind == Hash(Mark) then 1 else 0)
  {
  }

  lemma OutputsWrote(join: HashJoin, j: JoinStep, probe: seq<Column>, mem: Arrays, output: array<Column>, later: Arrays,
                     stored: seq<Column>)
    requires OneBatch(j.kind) && j.kind.Hash? && join.joinType == j.kind.joinType
    requires join.PairsFit(probe, mem, LeftIds(j), RightIds(j)) && stored == Chosen(join.hashTable[..], join.rhsOutput)
    requires join.Outputs(probe, mem, LeftIds(j), RightIds(j), j.marks, output, later)
    requires KeysOnly(join.joinType) ==> join.rhsOutput == []
    ensures Wrote(j, Chosen(probe, join.lhsOutput), stored, mem, output[..], later, join.uniqueBuildKeys, join.uniqueProbeKeys)
  {
    hide Column.Valid, Column.Selects, Selectable, AllSelected;
    if j.kind == Hash(Semi) {
      assert output[..|join.lhsOutput|] == output[..];
    }
  }

  // Execute of a hash join, after which its hash table is back in the pool.
  method ExecuteJoin(device: Device, manager: BufferManager.BufferManager, join: HashJoin, probe: seq<Column>, j: JoinStep,
                     ghost l: seq<Rows>, ghost r: seq<Rows>, ghost nl: nat, ghost nr: nat,
                     ghost pool: BufferManager.Blocks, ghost free: BufferManager.Blocks, ghost n: nat)
    returns (out: seq<Column>, ghost left: seq<Column>, ghost stored: seq<Column>)
    requires AllRepresent(probe, device.arrays, l, nl) && n <= |device.arrays|
    requires Built(join, j, l, r, nr, device.arrays, device.freed, n)
    requires JoinFits(j, l, r) && JoinDone(j, l, r, nl, nr) && j.kind.Hash?
    requires manager.LedgerValid() && Without(manager, join.gpuHashTable, pool, free)
    requires device.Tracked() && Readable(probe, device.freed) && ArraysFrom(probe, n)
    modifies join`uniqueProbeKeys, device, manager`pool, manager`released, manager`allocationTable
    ensures old(device.arrays) <= device.arrays && manager.LedgerValid() && device.Tracked()
    ensures manager.pool == pool && manager.allocationTable == free
    ensures AllRepresent(left, old(device.arrays), LeftColumns(j, l), nl)
    ensures AllRepresent(stored, old(device.arrays), RightKept(j, r), nr)
    ensures Wrote(j, left, stored, old(device.arrays), out, device.arrays, BuildFlag(j.conditions, r), ProbeFlag(j.conditions, l))
    ensures Readable(left, old(device.freed)) && ArraysFrom(left, n) && forall p <- LateArrays(left) :: p < |old(device.arrays)|
    ensures device.freed == old(device.freed) || device.freed == old(device.freed) + (LateArrays(left) - old(device.locked))
    ensures j.kind == Hash(Mark) ==> device.freed == old(device.freed)
    ensures j.kind != Hash(Mark) ==> ArraysFrom(out, |old(device.arrays)|)
  {
    hide Represents, Column.Selects, Column.Valid, LateArrays, Partitioned, Take, IsJoin, IsSemi, IsMarks, Selectable, AllSelected;
    hide ArraysFrom, Readable, KeysLive, ProbesLive, DistinctKeys, Project, AllReferences, AllRepresent, FirstKey;
    hide BufferManager.Balanced, BufferManager.Divided, Comparable, LateInequality, RightKept, JoinDone, JoinedRows;
    hide HashJoin.Outputs, Wrote, HashJoin.Accepts, HashJoin.Builds, LeftColumns;
    ghost var mem, lp := device.arrays, Projection(j.leftMap, |l|);
    stored := Chosen(join.hashTable[..], join.rhsOutput);
    ProbeSideReordered(j.conditions, join.conditions, probe, l, mem, nl);
    KeysReadable(join.conditions, probe, device.freed);
    ProbeFits(j, probe, stored, l, r, nl, nr, mem, device.freed, n);
    left := Chosen(probe, lp);
    NullIsFree(manager.pool, manager.allocationTable, manager.lockedTable, manager.storedBuffers);
    KeptOf(j, r);
    Accepted(join, j);
    var output := new Column[|join.lhsOutput| + |join.rhsOutput| + if j.kind == Hash(Mark) then 1 else 0](_ => NO_ROWS);
    var result := join.Execute(device, manager, probe, LeftIds(j), RightIds(j), j.marks, output);
    assert result.Done?;
    out := output[..];
    OutputsWrote(join, j, probe, mem, output, device.arrays, stored);
  }

  // The probe of a hash join.
  method ProbeJoin(device: Device, manager: BufferManager.BufferManager, join: HashJoin, probe: seq<Column>, j: JoinStep,
                   ghost l: seq<Rows>, ghost r: seq<Rows>, ghost nl: nat, ghost nr: nat,
                   ghost pool: BufferManager.Blocks, ghost free: BufferManager.Blocks, ghost n: nat)
    returns (out: seq<Column>)
    requires AllRepresent(probe, device.arrays, l, nl) && n <= |device.arrays|
    requires Built(join, j, l, r, nr, device.arrays, device.freed, n)
    requires JoinFits(j, l, r) && JoinDone(j, l, r, nl, nr) && j.kind.Hash?
    requires manager.LedgerValid() && Without(manager, join.gpuHashTable, pool, free)
    // the probe side's arrays are newer than those of the build side
    requires device.Tracked() && Readable(probe, device.freed) && ArraysFrom(probe, n)
    modifies join`uniqueProbeKeys, device, manager`pool, manager`released, manager`allocationTable
    ensures old(device.arrays) <= device.arrays && manager.LedgerValid() && device.Tracked()
    ensures FreedFrom(old(device.freed), device.freed, n)
    ensures Readable(out, device.freed) && ArraysFrom(out, n)
    ensures manager.pool == pool && manager.allocationTable == free
    ensures AllRepresent(out, device.arrays, JoinedRows(j, l, r, nl, nr), if j.kind == Hash(Mark) then nl else |j.left|)
  {
    hide ArraysFrom, Readable, FreedFrom, AllRepresent, Built, Without, JoinFits, JoinDone, JoinedRows, Wrote, LateArrays,
      BufferManager.Balanced, BufferManager.Divided;
    ghost var mem, freed, locked := device.arrays, device.freed, device.locked;
    ghost var left, stored;
    out, left, stored := ExecuteJoin(device, manager, join, probe, j, l, r, nl, nr, pool, free, n);
    OwnFreed(left, freed, device.freed, locked, n);
    WroteRows(j, probe, left, stored, l, r, nl, nr, mem, out, device.arrays);
    if j.kind == Hash(Mark) {
      InPlace(j, left, stored, mem, out, device.arrays, BuildFlag(j.conditions, r), ProbeFlag(j.conditions, l), freed, n);
    } else {
      NewerReadable(out, |mem|, device.freed);
      FromEarlier(out, |mem|, n);
    }
  }

  lemma InPlace(j: JoinStep, left: seq<Column>, stored: seq<Column>, mem: Arrays, out: seq<Column>, later: Arrays,
                buildFlag: bool, probeFlag: bool, freed: set<Ptr>, n: nat)
    requires j.kind == Hash(Mark) && Wrote(j, left, stored, mem, out, later, buildFlag, probeFlag)
    requires Readable(left, freed) && ArraysFrom(left, n)
    ensures Readable(out, freed) && ArraysFrom(out, n)
  {
    forall k | 0 <= k < |out|
      ensures out[k].Live(freed) && (out[k].rowIds.Some? ==> out[k].rowIds.value >= n)
    {
      if k < |left| {
        assert left[k].Live(freed);
      }
    }
  }

  lemma FromEarlier(cs: seq<Column>, n: nat, m: nat)
    requires ArraysFrom(cs, n) && m <= n
    ensures ArraysFrom(cs, m)
  {
  }

  lemma PayloadBelow(payload: seq<nat>, input: seq<Column>)
    requires forall c <- payload :: c < |input|
    ensures PayloadIn(payload, input)
  {
    assert forall k :: 0 <= k < |payload| ==> payload[k] in payload;
  }

  lemma ProjectionBelow(projected: seq<nat>, n: nat)
    requires Below(projected, n)
    ensures Below(Projection(projected, n), n)
    ensures forall c <- projected :: c < n
  {
  }

  /** The slots of the output columns hold the projected columns of the build side. */
  lemma StoredColumns(cs: seq<Condition>, payload: seq<nat>, build: seq<Column>, table: seq<Column>,
                      outputs: seq<nat>, rp: seq<nat>)
    requires |table| == |cs| + |payload| && StoredAt(cs, payload, build, table) && |outputs| == |rp|
    requires forall i :: 0 <= i < |outputs| ==> outputs[i] < |table| && SlotColumn(cs, payload, outputs[i]) == Some(rp[i])
    requires Below(rp, |build|)
    ensures Chosen(table, outputs) == Chosen(build, rp)
  {
  }

  lemma SameConditions(cs: seq<Condition>, ordered: seq<Condition>)
    requires multiset(ordered) == multiset(cs)
    ensures |ordered| == |cs| && forall c :: c in ordered <==> c in cs
  {
    assert forall c :: c in ordered <==> c in multiset(ordered);
    assert forall c :: c in cs <==> c in multiset(cs);
    assert |multiset(ordered)| == |ordered| && |multiset(cs)| == |cs|;
  }

  lemma KeyColumnsOf(cs: seq<Condition>)
    ensures forall k :: k in KeyColumns(cs, |cs|) <==> exists c <- cs :: c.right == Some(k)
  {
    forall k | exists c <- cs :: c.right == Some(k)
      ensures k in KeyColumns(cs, |cs|)
    {
      var c :| c in cs && c.right == Some(k);
      var i :| 0 <= i < |cs| && cs[i] == c;
      assert cs[i].right.value in KeyColumns(cs, |cs|);
    }
  }

  lemma PermutedDistinct(cs: seq<Condition>, ordered: seq<Condition>)
    requires multiset(ordered) == multiset(cs) && AllReferences(cs) && DistinctKeys(cs)
    ensures AllReferences(ordered) && DistinctKeys(ordered)
  {
    SameConditions(cs, ordered);
    forall i | 0 <= i < |ordered|
      ensures ordered[i].right.Some?
    {
      assert ordered[i] in ordered;
    }
    KeyColumnsOf(cs);
    KeyColumnsOf(ordered);
    assert KeyColumns(ordered, |ordered|) == KeyColumns(cs, |cs|);
    KeyCount(cs, |cs|);
    KeyCount(ordered, |ordered|);
    assert cs[..|cs|] == cs && ordered[..|ordered|] == ordered;
  }

  lemma BuildSideFits(cs: seq<Condition>, ordered: seq<Condition>, build: seq<Column>, r: seq<Rows>, mem: Arrays, n: nat)
    requires (forall c :: c in ordered <==> c in cs) && AllReferences(cs) && AllReferences(ordered)
    requires Below(RightKeys(cs), |r|) && AllRepresent(build, mem, r, n)
    ensures KeysValid(ordered, build, mem)
    ensures SomeBuildKeyUnique(ordered, build, |ordered|) == BuildFlag(cs, r)
  {
    forall i | 0 <= i < |ordered|
      ensures ordered[i].right.value < |build| && build[ordered[i].right.value].Valid(mem)
      ensures build[ordered[i].right.value].isUnique ==> BuildFlag(cs, r)
    {
      assert ordered[i] in ordered;
      var k :| 0 <= k < |cs| && cs[k] == ordered[i];
      assert RightKeys(cs)[k] == ordered[i].right.value;
      assert Represents(build[ordered[i].right.value], mem, r[cs[k].right.value], n);
    }
    if BuildFlag(cs, r) {
      var k :| 0 <= k < |cs| && cs[k].right.Some? && cs[k].right.value < |r| && r[cs[k].right.value].unique;
      assert cs[k] in cs;
      var i :| 0 <= i < |ordered| && ordered[i] == cs[k];
      assert Represents(build[ordered[i].right.value], mem, r[cs[k].right.value], n);
    }
  }

  lemma ProbeSideFits(cs: seq<Condition>, ordered: seq<Condition>, probe: seq<Column>, l: seq<Rows>, mem: Arrays, n: nat)
    requires (forall c :: c in ordered <==> c in cs) && Below(LeftKeys(cs), |l|) && AllRepresent(probe, mem, l, n)
    ensures ProbesValid(ordered, probe, mem)
    ensures SomeProbeKeyUnique(ordered, probe, |ordered|) == ProbeFlag(cs, l)
  {
    forall i | 0 <= i < |ordered|
      ensures ordered[i].left < |probe| && probe[ordered[i].left].Valid(mem)
      ensures probe[ordered[i].left].isUnique ==> ProbeFlag(cs, l)
    {
      assert ordered[i] in ordered;
      var k :| 0 <= k < |cs| && cs[k] == ordered[i];
      assert LeftKeys(cs)[k] == ordered[i].left;
      assert Represents(probe[ordered[i].left], mem, l[cs[k].left], n);
    }
    if ProbeFlag(cs, l) {
      var k :| 0 <= k < |cs| && cs[k].left < |l| && l[cs[k].left].unique;
      assert cs[k] in cs;
      var i :| 0 <= i < |ordered| && ordered[i] == cs[k];
      assert Represents(probe[ordered[i].left], mem, l[cs[k].left], n);
    }
  }

  /** Reordering the conditions changes neither the keys that exist nor the flags. */
  lemma BuildSideReordered(cs: seq<Condition>, ordered: seq<Condition>, build: seq<Column>, r: seq<Rows>, mem: Arrays, nr: nat)
    requires ordered == Partitioned(cs) && AllReferences(cs) && DistinctKeys(cs) && Below(RightKeys(cs), |r|)
    requires AllRepresent(build, mem, r, nr)
    ensures |ordered| == |cs| && DistinctKeys(ordered) && KeysValid(ordered, build, mem)
    ensures SomeBuildKeyUnique(ordered, build, |ordered|) == BuildFlag(cs, r)
  {
    hide Partitioned, DistinctKeys, Represents, Below;
    PartsOf(cs);
    SameConditions(cs, ordered);
    PermutedDistinct(cs, ordered);
    BuildSideFits(cs, ordered, build, r, mem, nr);
  }

  lemma ProbeSideReordered(cs: seq<Condition>, ordered: seq<Condition>, probe: seq<Column>, l: seq<Rows>, mem: Arrays, nl: nat)
    requires ordered == Partitioned(cs) && Below(LeftKeys(cs), |l|) && AllRepresent(probe, mem, l, nl)
    ensures |ordered| == |cs| && ProbesValid(ordered, probe, mem)
    ensures SomeProbeKeyUnique(ordered, probe, |ordered|) == ProbeFlag(cs, l)
  {
    hide Partitioned, Represents, Below;
    PartsOf(cs);
    SameConditions(cs, ordered);
    ProbeSideFits(cs, ordered, probe, l, mem, nl);
  }

  lemma BuiltPersists(join: HashJoin, j: JoinStep, l: seq<Rows>, r: seq<Rows>, nr: nat, mem: Arrays, later: Arrays,
                      freed: set<Ptr>, now: set<Ptr>)
    requires Built(join, j, l, r, nr, mem, freed, |mem|) && mem <= later && FreedFrom(freed, now, |mem|)
    ensures Built(join, j, l, r, nr, later, now, |mem|)
  {
    hide AllRepresent, Partitioned, RightKept, BuildFlag, Readable, FreedFrom, Comparable, LateInequality;
    var stored := Chosen(join.hashTable[..], join.rhsOutput);
    RepresentsPersists(stored, mem, RightKept(j, r), nr, later);
    StaysReadable(stored, mem, RightKept(j, r), nr, freed, now);
  }

  // -------------------------------------------------------------------------------------------
  // Nested-loop joins
  // -------------------------------------------------------------------------------------------

  /** The join holds its build side with its row ids, in arrays from place `m` on and before place `n`
      that were not freed. */
  ghost predicate Kept(loop: NestedLoopJoin, j: JoinStep, r: seq<Rows>, nr: nat, mem: Arrays, freed: set<Ptr>, m: nat, n: nat)
    reads loop.rightTempData
  {
    && loop.joinType == Inner && loop.conditions == Equalities(j.conditions) + Backwards(Others(j.conditions))
    && AllRepresent(loop.rightTempData[..], mem, Passed(r, false), nr) && Readable(loop.rightTempData[..], freed)
    && ArraysFrom(loop.rightTempData[..], m) && forall p <- LateArrays(loop.rightTempData[..]) :: p < n
  }

  lemma UnflaggedRepresents(build: seq<Column>, mem: Arrays, r: seq<Rows>, nr: nat, kept: seq<Column>, freed: set<Ptr>, m: nat)
    requires AllRepresent(build, mem, r, nr) && |kept| == |build| && Readable(build, freed) && ArraysFrom(build, m)
    requires forall i :: 0 <= i < |build| ==> kept[i] == build[i].(isUnique := false)
    ensures AllRepresent(kept, mem, Passed(r, false), nr) && Readable(kept, freed) && ArraysFrom(kept, m)
    ensures forall p <- LateArrays(kept) :: p < |mem|
  {
    forall i | 0 <= i < |kept|
      ensures Represents(kept[i], mem, Passed(r, false)[i], nr) && kept[i].Live(freed)
    {
      assert Represents(build[i], mem, r[i], nr) && build[i].Live(freed);
    }
    LateBelow(kept, mem, Passed(r, false), nr);
  }

  // The constructor of a nested-loop join, and the sink of its build side.
  method BuildLoop(device: Device, build: seq<Column>, j: JoinStep, ghost r: seq<Rows>, ghost nr: nat, ghost m: nat)
    returns (loop: NestedLoopJoin)
    requires AllRepresent(build, device.arrays, r, nr) && Readable(build, device.freed) && ArraysFrom(build, m)
    ensures fresh(loop) && fresh(loop.rightTempData) && loop.rightTempData.Length == |build|
    ensures Kept(loop, j, r, nr, device.arrays, device.freed, m, |device.arrays|)
  {
    hide AllRepresent, Readable, LateArrays, ArraysFrom, Equalities, Others, Backwards;
    loop := new NestedLoopJoin(Inner, j.conditions, |build|);
    loop.Sink(build);
    UnflaggedRepresents(build, device.arrays, r, nr, loop.rightTempData[..], device.freed, m);
  }

  lemma KeptPersists(loop: NestedLoopJoin, j: JoinStep, r: seq<Rows>, nr: nat, mem: Arrays, later: Arrays,
                     freed: set<Ptr>, now: set<Ptr>, m: nat)
    requires Kept(loop, j, r, nr, mem, freed, m, |mem|) && mem <= later && FreedFrom(freed, now, |mem|)
    ensures Kept(loop, j, r, nr, later, now, m, |mem|)
  {
    hide AllRepresent, Readable, FreedFrom, Equalities, Others, Backwards;
    RepresentsPersists(loop.rightTempData[..], mem, Passed(r, false), nr, later);
    StaysReadable(loop.rightTempData[..], mem, Passed(r, false), nr, freed, now);
  }

  /** Placing the conditions from both ends changes neither the keys that exist nor what the kernel knows. */
  lemma PlacedFits(j: JoinStep, ordered: seq<Condition>, probe: seq<Column>, kept: seq<Column>, l: seq<Rows>, r: seq<Rows>,
                   mem: Arrays, nl: nat, nr: nat)
    requires ordered == Equalities(j.conditions) + Backwards(Others(j.conditions)) && JoinFits(j, l, r) && j.kind.NestedLoop?
    requires AllRepresent(probe, mem, l, nl) && AllRepresent(kept, mem, Passed(r, false), nr)
    ensures ordered != [] && ProbesValid(ordered, probe, mem) && KeysValid(ordered, kept, mem)
    ensures WithinKernel(ordered, j.wide) <==> KernelsKnow(j)
  {
    hide Equalities, Others, Backwards, Represents;
    PartsOf(j.conditions);
    assert multiset(ordered) == multiset(Partitioned(j.conditions));
    SameConditions(j.conditions, ordered);
    ProbeSideFits(j.conditions, ordered, probe, l, mem, nl);
    AllReferred(j.conditions, ordered);
    BuildSideFits(j.conditions, ordered, kept, Passed(r, false), mem, nr);
  }

  lemma AllReferred(cs: seq<Condition>, ordered: seq<Condition>)
    requires AllReferences(cs) && forall c :: c in ordered <==> c in cs
    ensures AllReferences(ordered)
  {
    forall i | 0 <= i < |ordered|
      ensures ordered[i].right.Some?
    {
      assert ordered[i] in cs;
    }
  }

  lemma TakeUnflagged(cs: seq<Rows>, ids: seq<nat>, n: nat)
    ensures TakeAll(Passed(cs, false), ids, n, false) == TakeAll(cs, ids, n, false)
  {
  }

  /** What Execute finds. */
  lemma LoopFits(j: JoinStep, probe: seq<Column>, kept: seq<Column>, l: seq<Rows>, r: seq<Rows>, nl: nat, nr: nat,
                 mem: Arrays, freed: set<Ptr>, locked: set<Ptr>, n: nat)
    requires AllRepresent(probe, mem, l, nl) && AllRepresent(kept, mem, Passed(r, false), nr) && Readable(kept, freed)
    requires AllReferences(j.conditions) && JoinDone(j, l, r, nl, nr) && j.kind.NestedLoop?
    requires ArraysFrom(probe, n) && forall p <- LateArrays(kept) :: p < n
    ensures |j.left| == |j.right| && Below(j.left, nl) && Below(j.right, nr)
    ensures Selectable(probe, mem, j.left) && Selectable(kept, mem, j.right)
    ensures Readable(kept, freed + (LateArrays(probe) - locked))
    ensures forall p <- LateArrays(probe) + LateArrays(kept) :: p < |mem|
  {
    hide Represents, IsJoin;
    PairsAgree(j.conditions, Values(l, LeftKeys(j.conditions)), Values(r, RightKeys(j.conditions)), j.left, j.right);
    RepresentedSelectable(probe, mem, l, nl, j.left);
    RepresentedSelectable(kept, mem, Passed(r, false), nr, j.right);
    LateBelow(probe, mem, l, nl);
    LateBelow(kept, mem, Passed(r, false), nr);
    forall k | 0 <= k < |kept|
      ensures kept[k].Live(freed + (LateArrays(probe) - locked))
    {
      assert kept[k] in kept && kept[k].Live(freed);
      assert kept[k].rowIds.Some? ==> kept[k].rowIds.value in LateArrays(kept);
      assert forall p <- LateArrays(probe) :: p >= n;
    }
  }

  lemma LoopOutput(j: JoinStep, probe: seq<Column>, kept: seq<Column>, l: seq<Rows>, r: seq<Rows>, nl: nat, nr: nat,
                   mem: Arrays, out: seq<Column>, later: Arrays)
    requires AllRepresent(probe, mem, l, nl) && AllRepresent(kept, mem, Passed(r, false), nr) && j.kind.NestedLoop?
    requires |j.left| == |j.right| && Below(j.left, nl) && Below(j.right, nr)
    requires Selectable(probe, mem, j.left) && Selectable(kept, mem, j.right) && |probe| <= |out|
    requires AllSelected(probe, mem, j.left, out[..|probe|], later, false)
    requires AllSelected(kept, mem, j.right, out[|probe|..], later, false)
    ensures AllRepresent(out, later, JoinedRows(j, l, r, nl, nr), |j.left|)
  {
    hide AllRepresent, AllSelected, Selectable, Below;
    SidesRepresent(probe, l, nl, j.left, kept, Passed(r, false), nr, j.right, mem, out, later, false, false);
    TakeUnflagged(r, j.right, nr);
  }

  lemma BothFreed(a: seq<Column>, b: seq<Column>, before: set<Ptr>, after: set<Ptr>, locked: set<Ptr>, m: nat, n: nat)
    requires ArraysFrom(a, n) && ArraysFrom(b, m) && m <= n
    requires after == before || after == before + (LateArrays(a) + LateArrays(b) - locked)
    ensures FreedFrom(before, after, m)
  {
    assert forall p <- LateArrays(a) :: p >= n;
    assert forall p <- LateArrays(b) :: p >= m;
  }

  // The probe of a nested-loop join.
  method ProbeLoop(device: Device, loop: NestedLoopJoin, probe: seq<Column>, j: JoinStep,
                   ghost l: seq<Rows>, ghost r: seq<Rows>, ghost nl: nat, ghost nr: nat, ghost m: nat, ghost n: nat)
    returns (ok: bool, out: seq<Column>)
    requires AllRepresent(probe, device.arrays, l, nl) && m <= n <= |device.arrays|
    requires Kept(loop, j, r, nr, device.arrays, device.freed, m, n)
    requires JoinFits(j, l, r) && JoinDone(j, l, r, nl, nr) && j.kind.NestedLoop?
    requires device.Tracked() && Readable(probe, device.freed) && ArraysFrom(probe, n)
    modifies device
    ensures old(device.arrays) <= device.arrays && device.Tracked() && (ok <==> KernelsKnow(j))
    ensures FreedFrom(old(device.freed), device.freed, m)
    ensures ok ==> Readable(out, device.freed) && ArraysFrom(out, m)
    ensures ok ==> AllRepresent(out, device.arrays, JoinedRows(j, l, r, nl, nr), |j.left|)
  {
    hide AllRepresent, Selectable, AllSelected, Readable, ArraysFrom, LateArrays, Below, JoinDone, JoinedRows, KernelsKnow,
      WithinKernel, KeysLive, Equalities, Others, Backwards, FreedFrom;
    ghost var mem, freed, kept := device.arrays, device.freed, loop.rightTempData[..];
    PlacedFits(j, loop.conditions, probe, kept, l, r, mem, nl, nr);
    LoopFits(j, probe, kept, l, r, nl, nr, mem, freed, device.locked, n);
    KeysReadable(loop.conditions, kept, freed);
    assert !loop.Lost(device, probe, |j.left|);
    var output := new Column[|probe| + loop.rightTempData.Length](_ => NO_ROWS);
    var result := loop.Execute(device, probe, j.left, j.right, j.wide, output);
    BothFreed(probe, kept, freed, device.freed, device.locked, m, n);
    if !result.Done? {
      return false, [];
    }
    out := output[..];
    LoopOutput(j, probe, kept, l, r, nl, nr, mem, out, device.arrays);
    NewerReadable(out, |mem|, device.freed);
    FromEarlier(out, |mem|, m);
    ok := true;
  }

  // -------------------------------------------------------------------------------------------
  // Whole flows
  // -------------------------------------------------------------------------------------------

  // The whole flow, build sides first; `ok` is false when the pool was full or some kernel does not know
  // its conditions.
  method Run(device: Device, manager: BufferManager.BufferManager, next: BufferManager.Blocks -> BufferManager.Ptr, f: Flow)
    returns (ok: bool, cs: seq<Column>)
    requires WellFormedFlow(f) && manager.LedgerValid() && IsPool(manager, next) && device.Tracked()
    modifies device, manager`pool, manager`granted, manager`released, manager`allocationTable
    ensures old(device.arrays) <= device.arrays && manager.LedgerValid() && device.Tracked()
    ensures (NeverFull(next) && AllKnown(f) ==> ok) && (ok ==> AllKnown(f))
    ensures ok ==> SameBlocks(manager) && AllRepresent(cs, device.arrays, Eager(f), Count(f))
    // only own arrays are freed, and none that is still needed
    ensures FreedFrom(old(device.freed), device.freed, |old(device.arrays)|)
    ensures ok ==> Readable(cs, device.freed) && ArraysFrom(cs, |old(device.arrays)|)
    decreases f
  {
    hide AllRepresent, TakeAll, JoinedRows, JoinFits, JoinDone, Built, Kept, KernelsKnow;
    hide BufferManager.Balanced, BufferManager.Divided;
    ok := true;
    match f
    case Table(n, columns) =>
      cs := LoadTable(columns, n, device.arrays);
    case Filtered(input, keep) =>
      ok, cs := Run(device, manager, next, input);
      if ok {
        ghost var mem, freed, own := device.arrays, device.freed, cs;
        cs := RunFilter(device, cs, keep, Eager(input), Count(input));
        OwnFreed(own, freed, device.freed, device.locked, |old(device.arrays)|);
      }
    case Joined(probe, build, j) =>
      var b, p;
      ghost var l, r, pool, free := Eager(probe), Eager(build), manager.pool, manager.allocationTable;
      ok, b := Run(device, manager, next, build);
      if !ok {
        return false, [];
      }
      ghost var mem, freed := device.arrays, device.freed;
      if j.kind.Hash? {
        var join;
        ok, join := BuildJoin(device, manager, next, b, j, |Eager(probe)|, l, r, Count(build));
        if ok {
          ok, p := Run(device, manager, next, probe);
        }
        if !ok {
          return false, [];
        }
        BuiltPersists(join, j, l, r, Count(build), mem, device.arrays, freed, device.freed);
        cs := ProbeJoin(device, manager, join, p, j, l, r, Count(probe), Count(build), pool, free, |mem|);
      } else {
        var loop := BuildLoop(device, b, j, r, Count(build), |old(device.arrays)|);
        ok, p := Run(device, manager, next, probe);
        if !ok {
          return false, [];
        }
        KeptPersists(loop, j, r, Count(build), mem, device.arrays, freed, device.freed, |old(device.arrays)|);
        ok, cs := ProbeLoop(device, loop, p, j, l, r, Count(probe), Count(build), |old(device.arrays)|, |mem|);
      }
  }

  lemma PairsAgree(cs: seq<Condition>, probe: Keys, build: Keys, left: seq<nat>, right: seq<nat>)
    requires IsJoin(cs, probe, build, left, right)
    ensures |left| == |right|
  {
  }

  /** Materializing what a flow leaves on the device gives its rows, with flags that hold. */
  lemma RunMaterializes(f: Flow, cs: seq<Column>, mem: Arrays, k: nat)
    requires WellFormedFlow(f) && FlagsWarranted(f) && AllRepresent(cs, mem, Eager(f), Count(f)) && k < |cs|
    ensures k < |Eager(f)| && cs[k].Valid(mem)
    ensures var m := Materialize(cs[k], mem);
            && m.rowIds.None? && (if m.data.None? then [] else m.data.value) == Eager(f)[k].values
            && (m.isUnique ==> NoDuplicates(Eager(f)[k].values))
  {
    hide Eager, WellFormedFlow;
    FlagsAreSound(f);
    assert Represents(cs[k], mem, Eager(f)[k], Count(f));
    MaterializeKeepsRows(cs[k], mem, mem);
  }
}

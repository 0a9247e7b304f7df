/** The hash join: its column-index maps, where Sink puts the build columns, what Execute and GetData
    output, the uniqueness flags it passes on, and the life of its hash table. */
module HashJoins {
  import opened Options
  import opened Plans
  import opened Comparisons
  import opened JoinConditions
  import opened LateMaterialization
  import BufferManager
  import CacheAllocator

  datatype JoinResult = Done | Unsupported | NotFound

  /** For these joins only the keys are stored. */
  predicate KeysOnly(t: JoinType)
    ensures KeysOnly(t) <==> t in {Anti, Semi, Mark}
  {
    t.Anti? || t.Semi? || t.Mark?
  }

  /** An empty projection map stands for all columns. */
  function Projection(projected: seq<nat>, count: nat): (columns: seq<nat>)
    ensures projected == [] ==> |columns| == count && forall k :: 0 <= k < count ==> columns[k] == k
    ensures projected != [] ==> columns == projected
  {
    if projected == [] then seq(count, i => i) else projected
  }

  function KeyColumns(cs: seq<Condition>, n: nat): set<nat>
    requires n <= |cs|
  {
    set i | 0 <= i < n && cs[i].right.Some? :: cs[i].right.value
  }

  /** Which build column Sink stores in a slot of the hash table. */
  function SlotColumn(cs: seq<Condition>, payload: seq<nat>, slot: nat): Option<nat>
    requires slot < |cs| + |payload|
  {
    if slot < |cs| then cs[slot].right else Some(payload[slot - |cs|])
  }

  predicate AllReferences(cs: seq<Condition>) {
    forall i :: 0 <= i < |cs| ==> cs[i].right.Some?
  }

  predicate DistinctKeys(cs: seq<Condition>) {
    forall i, j :: 0 <= i < j < |cs| ==> cs[i].right != cs[j].right
  }

  /** How many slots the constructor reserves, against how many Sink writes. */
  function Reserved(cs: seq<Condition>, payload: seq<nat>): nat {
    |KeyColumns(cs, |cs|)| + |payload|
  }

  lemma DistinctStep(cs: seq<Condition>, n: nat)
    requires AllReferences(cs) && n < |cs|
    ensures DistinctKeys(cs[..n + 1]) <==> DistinctKeys(cs[..n]) && cs[n].right.value !in KeyColumns(cs, n)
    ensures KeyColumns(cs, n + 1) == KeyColumns(cs, n) + {cs[n].right.value}
  {
    var longer, front := cs[..n + 1], cs[..n];
    assert longer == front + [cs[n]];
    if DistinctKeys(longer) {
      forall i | 0 <= i < n
        ensures cs[i].right != cs[n].right
      {
        assert longer[i] == cs[i] && longer[n] == cs[n];
      }
      assert forall i, j :: 0 <= i < j < n ==> front[i] == longer[i] && front[j] == longer[j];
    }
  }

  lemma {:induction false} KeyCount(cs: seq<Condition>, n: nat)
    requires AllReferences(cs) && n <= |cs|
    ensures |KeyColumns(cs, n)| <= n
    ensures |KeyColumns(cs, n)| == n <==> DistinctKeys(cs[..n])
  {
    hide DistinctKeys, KeyColumns;
    if n > 0 {
      KeyCount(cs, n - 1);
      DistinctStep(cs, n - 1);
    } else {
      NoKeys(cs);
    }
  }

  lemma NoKeys(cs: seq<Condition>)
    ensures KeyColumns(cs, 0) == {} && DistinctKeys(cs[..0])
  {
  }

  /** Sink stays within the hash table's slots exactly when no build column is a key twice. */
  lemma SinkFitsIff(cs: seq<Condition>, payload: seq<nat>)
    requires AllReferences(cs)
    ensures |cs| + |payload| <= Reserved(cs, payload) <==> DistinctKeys(cs)
    ensures DistinctKeys(cs) ==> |cs| + |payload| == Reserved(cs, payload)
  {
    KeyCount(cs, |cs|);
    assert cs[..|cs|] == cs;
  }

  /** The comparisons that the kernels over the hash table know. */
  predicate Comparable(cs: seq<Condition>)
    ensures Comparable(cs) <==> forall c <- cs :: c.comparison in {Equal, NotDistinctFrom, NotEqual, DistinctFrom}
  {
    forall c :: 0 <= c < |cs| ==>
      cs[c].comparison.IsEquality() || cs[c].comparison.NotEqual? || cs[c].comparison.DistinctFrom?
  }

  /** An inequality only as the second of two conditions. */
  predicate LateInequality(cs: seq<Condition>)
    ensures LateInequality(cs) <==>
            forall c :: 0 <= c < |cs| ==>
              || cs[c].comparison in {Equal, NotDistinctFrom}
              || (c == 1 && |cs| == 2 && cs[c].comparison in {NotEqual, DistinctFrom})
  {
    Comparable(cs) && forall c :: 0 <= c < |cs| ==> cs[c].comparison.IsEquality() || (c == 1 && |cs| == 2)
  }

  /** Sink reads the column index of every key. */
  ghost predicate KeysValid(cs: seq<Condition>, input: seq<Column>, mem: Arrays) {
    forall i :: 0 <= i < |cs| ==> cs[i].right.Some? && cs[i].right.value < |input| && input[cs[i].right.value].Valid(mem)
  }

  /** The arrays behind the keys were not freed. */
  predicate KeysLive(cs: seq<Condition>, input: seq<Column>, freed: set<Ptr>) {
    forall i :: 0 <= i < |cs| && cs[i].right.Some? && cs[i].right.value < |input| ==> input[cs[i].right.value].Live(freed)
  }

  predicate ProbesLive(cs: seq<Condition>, input: seq<Column>, freed: set<Ptr>) {
    forall i :: 0 <= i < |cs| && cs[i].left < |input| ==> input[cs[i].left].Live(freed)
  }

  ghost predicate ProbesValid(cs: seq<Condition>, input: seq<Column>, mem: Arrays) {
    forall i :: 0 <= i < |cs| ==> cs[i].left < |input| && input[cs[i].left].Valid(mem)
  }

  predicate SomeBuildKeyUnique(cs: seq<Condition>, input: seq<Column>, n: nat)
    requires n <= |cs| && forall i :: 0 <= i < |cs| ==> cs[i].right.Some? && cs[i].right.value < |input|
  {
    exists i :: 0 <= i < n && input[cs[i].right.value].isUnique
  }

  predicate SomeProbeKeyUnique(cs: seq<Condition>, input: seq<Column>, n: nat)
    requires n <= |cs| && forall i :: 0 <= i < |cs| ==> cs[i].left < |input|
  {
    exists i :: 0 <= i < n && input[cs[i].left].isUnique
  }

  predicate PayloadIn(payload: seq<nat>, input: seq<Column>) {
    forall k :: 0 <= k < |payload| ==> payload[k] < |input|
  }

  /** Every slot holds the build column that it is for. */
  predicate StoredAt(cs: seq<Condition>, payload: seq<nat>, input: seq<Column>, table: seq<Column>)
    requires |table| == |cs| + |payload|
  {
    forall s :: 0 <= s < |table| ==>
      var column := SlotColumn(cs, payload, s);
      column.Some? && column.value < |input| && table[s] == input[column.value]
  }

  // -------------------------------------------------------------------------------------------
  // Selecting rows of several columns
  // -------------------------------------------------------------------------------------------

  ghost predicate Selectable(cs: seq<Column>, mem: Arrays, ids: seq<nat>) {
    forall k :: 0 <= k < |cs| ==> cs[k].Valid(mem) && cs[k].Selects(ids, mem)
  }

  /** Column by column, `outs` stands for the rows `ids` of `cs`. */
  ghost predicate AllSelected(cs: seq<Column>, mem: Arrays, ids: seq<nat>, outs: seq<Column>, later: Arrays, maintainUnique: bool)
    requires Selectable(cs, mem, ids)
  {
    |outs| == |cs| && forall k :: 0 <= k < |cs| ==> Selected(cs[k], mem, ids, outs[k], later, maintainUnique)
  }

  lemma StillSelectable(cs: seq<Column>, mem: Arrays, ids: seq<nat>, later: Arrays)
    requires Selectable(cs, mem, ids) && mem <= later
    ensures Selectable(cs, later, ids)
    ensures forall c <- cs :: c.Valid(later) && c.Selects(ids, later)
  {
    forall k | 0 <= k < |cs|
      ensures cs[k].Valid(later) && cs[k].Selects(ids, later)
    {
      RowsPersist(cs[k], mem, later);
    }
  }

  lemma SelectedPersists(cs: seq<Column>, mem: Arrays, ids: seq<nat>, outs: seq<Column>, later: Arrays,
                         maintainUnique: bool, last: Arrays)
    requires Selectable(cs, mem, ids) && AllSelected(cs, mem, ids, outs, later, maintainUnique) && later <= last
    ensures AllSelected(cs, mem, ids, outs, last, maintainUnique)
  {
    forall k | 0 <= k < |cs|
      ensures Selected(cs[k], mem, ids, outs[k], last, maintainUnique)
    {
      RowsPersist(outs[k], later, last);
    }
  }

  lemma SelectedSince(cs: seq<Column>, mem: Arrays, now: Arrays, ids: seq<nat>, outs: seq<Column>, later: Arrays,
                      maintainUnique: bool)
    requires Selectable(cs, mem, ids) && mem <= now && Selectable(cs, now, ids)
    requires AllSelected(cs, now, ids, outs, later, maintainUnique)
    ensures AllSelected(cs, mem, ids, outs, later, maintainUnique)
  {
    forall k | 0 <= k < |cs|
      ensures Selected(cs[k], mem, ids, outs[k], later, maintainUnique)
    {
      RowsPersist(cs[k], mem, now);
    }
  }

  /** What the row-id functions write, counted from an earlier state of the arrays. */
  lemma AllWrittenSelects(cs: seq<Column>, mem: Arrays, ids: seq<nat>, now: Arrays, p: Ptr, maintainUnique: bool,
                          outs: seq<Column>, later: Arrays)
    requires Selectable(cs, mem, ids) && mem <= now && p < |now| && now[p] == ids
    requires forall c <- cs :: c.Valid(now) && c.Selects(ids, now)
    requires AllWritten(cs, now, |ids|, Some(p), maintainUnique, outs, later)
    ensures AllSelected(cs, mem, ids, outs, later, maintainUnique)
  {
    forall k | 0 <= k < |cs|
      ensures Selected(cs[k], mem, ids, outs[k], later, maintainUnique)
    {
      assert Written(cs[k], now, |ids|, Some(p), maintainUnique, outs[k], later);
      RowsPersist(cs[k], mem, now);
    }
  }

  /** A new array is behind none of the columns. */
  lemma NewIsNone(cs: seq<Column>, mem: Arrays, ids: seq<nat>)
    requires Selectable(cs, mem, ids)
    ensures |mem| !in LateArrays(cs)
  {
  }

  lemma NoRowsFrom(cs: seq<Column>, n: nat)
    requires forall k :: 0 <= k < |cs| ==> cs[k] == NO_ROWS
    ensures ArraysFrom(cs, n)
  {
  }

  lemma BothFrom(a: seq<Column>, b: seq<Column>, n: nat, m: nat)
    requires ArraysFrom(a, n) && ArraysFrom(b, m) && n <= m
    ensures ArraysFrom(a + b, n)
  {
  }

  lemma ChosenArrays(input: seq<Column>, columns: seq<nat>)
    requires forall k :: 0 <= k < |columns| ==> columns[k] < |input|
    ensures forall p :: p in LateArrays(Chosen(input, columns)) <==>
                        exists k :: 0 <= k < |columns| && input[columns[k]].rowIds == Some(p)
  {
    var cs := Chosen(input, columns);
    forall p
      ensures p in LateArrays(cs) <==> exists k :: 0 <= k < |columns| && input[columns[k]].rowIds == Some(p)
    {
      if k :| 0 <= k < |columns| && input[columns[k]].rowIds == Some(p) {
        assert cs[k] in cs;
      }
    }
  }

  /** Locking all columns of the hash table keeps the arrays that are read next. */
  lemma AllLocked(table: seq<Column>, outputs: seq<nat>, mem: Arrays, ids: seq<nat>, later: Arrays, freed: set<Ptr>,
                  before: set<Ptr>, spent: set<Ptr>, locked: set<Ptr>)
    requires (forall k :: 0 <= k < |outputs| ==> outputs[k] < |table|) && Selectable(Chosen(table, outputs), mem, ids) && mem <= later
    requires freed <= before + spent && Readable(Chosen(table, outputs), before) && spent !! LateArrays(Chosen(table, outputs))
    requires forall p :: p in LateArrays(table) && p < |later| && p !in freed ==> p in locked
    ensures Selectable(Chosen(table, outputs), later, ids) && Readable(Chosen(table, outputs), freed)
    ensures LateArrays(Chosen(table, outputs)) <= locked
  {
    var cs := Chosen(table, outputs);
    StillSelectable(cs, mem, ids, later);
    forall k | 0 <= k < |cs| && cs[k].rowIds.Some?
      ensures cs[k].rowIds.value !in freed && cs[k].rowIds.value in locked
    {
      assert cs[k] in cs && table[outputs[k]] in table && cs[k].Live(before);
      assert cs[k].rowIds.value in LateArrays(cs) && cs[k].rowIds.value in LateArrays(table);
    }
  }

  class HashJoin {
    const joinType: JoinType
    const conditions: seq<Condition>
    const lhsOutput: seq<nat>
    const payload: seq<nat>
    const rhsOutput: seq<nat>
    const hashTable: array<Column>
    const buildKeys: array<Column>
    var uniqueBuildKeys: bool
    var uniqueProbeKeys: bool
    // the hash table on the device, and its length
    var gpuHashTable: BufferManager.Ptr
    var htLen: nat

    /** The `i`-th right column that the join outputs is in a slot of this build column. */
    ghost predicate Gives(i: nat, column: nat) {
      && i < |rhsOutput| && rhsOutput[i] < |conditions| + |payload|
      && SlotColumn(conditions, payload, rhsOutput[i]) == Some(column)
    }

    /** Slot by slot, the right columns that the join outputs are the projected ones. */
    ghost predicate Maps(rightProjection: seq<nat>) {
      && |rhsOutput| == |rightProjection|
      && forall i :: 0 <= i < |rhsOutput| ==>
           && rhsOutput[i] < |conditions| + |payload|
           && SlotColumn(conditions, payload, rhsOutput[i]) == Some(rightProjection[i])
    }

    ghost predicate Laid() {
      && hashTable.Length == Reserved(conditions, payload) && buildKeys.Length == |KeyColumns(conditions, |conditions|)|
      && buildKeys != hashTable
    }

    // Which key a build column is, the first one if it is several.
    static method KeyPlaces(ordered: seq<Condition>) returns (keyAt: map<nat, nat>)
      ensures keyAt.Keys == KeyColumns(ordered, |ordered|)
      ensures forall c <- keyAt :: keyAt[c] < |ordered| && ordered[keyAt[c]].right == Some(c)
    {
      keyAt := map[];
      for i := 0 to |ordered|
        invariant keyAt.Keys == KeyColumns(ordered, i)
        invariant forall c <- keyAt :: keyAt[c] < i && ordered[keyAt[c]].right == Some(c)
      {
        if ordered[i].right.Some? && ordered[i].right.value !in keyAt {
          keyAt := keyAt[ordered[i].right.value := i];
        }
      }
    }

    static method AllColumns(projected: seq<nat>, count: nat) returns (columns: seq<nat>)
      ensures columns == Projection(projected, count)
    {
      columns := projected;
      if |columns| == 0 {
        for i := 0 to count
          invariant columns == seq(i, k => k)
        {
          columns := columns + [i];
        }
      }
    }

    // The build columns that are no key become payload behind the keys.
    static method PlaceRight(ordered: seq<Condition>, keyAt: map<nat, nat>, right: seq<nat>)
      returns (payload: seq<nat>, outputs: seq<nat>)
      requires forall c <- keyAt :: keyAt[c] < |ordered| && ordered[keyAt[c]].right == Some(c)
      ensures |outputs| == |right| && forall c <- payload :: c in right && c !in keyAt
      ensures forall k :: 0 <= k < |outputs| ==>
                outputs[k] < |ordered| + |payload| && SlotColumn(ordered, payload, outputs[k]) == Some(right[k])
    {
      payload, outputs := [], [];
      for i := 0 to |right|
        invariant |outputs| == i && forall c <- payload :: c in right && c !in keyAt
        invariant forall k :: 0 <= k < i ==>
                    outputs[k] < |ordered| + |payload| && SlotColumn(ordered, payload, outputs[k]) == Some(right[k])
      {
        if right[i] !in keyAt {
          payload := payload + [right[i]];
          outputs := outputs + [|ordered| + |payload| - 1];
        } else {
          outputs := outputs + [keyAt[right[i]]];
        }
      }
    }

    constructor (joinType: JoinType, cond: seq<Condition>, leftMap: seq<nat>, leftCount: nat, rightMap: seq<nat>, rightCount: nat)
      requires (forall c <- leftMap :: c < leftCount) && (forall c <- rightMap :: c < rightCount)
      ensures this.joinType == joinType && conditions == Partitioned(cond)
      // an empty map stands for all columns, each at its own place
      ensures leftMap == [] ==> |lhsOutput| == leftCount && forall k :: 0 <= k < leftCount ==> lhsOutput[k] == k
      ensures leftMap != [] ==> lhsOutput == leftMap
      ensures joinType in {Anti, Semi, Mark} ==> rhsOutput == [] && payload == []
      ensures joinType !in {Anti, Semi, Mark} && rightMap == [] ==>
                |rhsOutput| == rightCount && forall k :: 0 <= k < rightCount ==> Gives(k, k)
      ensures joinType !in {Anti, Semi, Mark} && rightMap != [] ==>
                |rhsOutput| == |rightMap| && forall k :: 0 <= k < |rightMap| ==> Gives(k, rightMap[k])
      ensures lhsOutput == Projection(leftMap, leftCount) && (!KeysOnly(joinType) ==> Maps(Projection(rightMap, rightCount)))
      ensures forall c <- payload :: c < rightCount && c !in KeyColumns(conditions, |conditions|)
      ensures Laid() && fresh(hashTable) && fresh(buildKeys)
      ensures !uniqueBuildKeys && !uniqueProbeKeys && gpuHashTable == BufferManager.NULL && htLen == 0
    {
      hide KeyColumns, SlotColumn, Partitioned;
      var ordered := ReorderConditions(cond);
      var keyAt := KeyPlaces(ordered);
      var left := AllColumns(leftMap, leftCount);
      var others: seq<nat>, outputs: seq<nat> := [], [];
      if !(joinType.Anti? || joinType.Semi? || joinType.Mark?) {
        var right := AllColumns(rightMap, rightCount);
        others, outputs := PlaceRight(ordered, keyAt, right);
      }
      this.joinType := joinType;
      conditions := ordered;
      lhsOutput := left;
      payload := others;
      rhsOutput := outputs;
      hashTable := new Column[|keyAt.Keys| + |others|](_ => NO_ROWS);
      buildKeys := new Column[|keyAt.Keys|](_ => NO_ROWS);
      uniqueBuildKeys := false;
      uniqueProbeKeys := false;
      gpuHashTable := BufferManager.NULL;
      htLen := 0;
    }

    /** Joins that reserve a hash table. */
    predicate HasTable() {
      Hash(joinType).FreedByProbe() || joinType.Right? || joinType.RightSemi? || joinType.RightAnti?
    }

    /** HandleBuildExpression, which inner joins do without. */
    predicate Builds() {
      joinType.Inner? || (HasTable() && LateInequality(conditions))
    }

    /** The kernels that Execute can call. */
    predicate Probes() {
      || joinType.Inner?
      || (joinType.Mark? && LateInequality(conditions))
      || ((joinType.Semi? || joinType.Anti? || joinType.Right? || joinType.RightSemi? || joinType.RightAnti?)
          && Comparable(conditions))
    }

    // One word a key and one for the row; right joins mark what was matched in another one.
    function TableBytes(length: nat): nat {
      length * (|conditions| + if Hash(joinType).FreedByProbe() then 1 else 2) * 8
    }

    // The keys of the build side, materialized.
    method MaterializeKeys(device: Device, input: seq<Column>) returns (keys: seq<Column>)
      requires KeysValid(conditions, input, device.arrays) && KeysLive(conditions, input, device.freed)
      modifies this`uniqueBuildKeys
      ensures |keys| == |conditions|
      ensures forall c :: 0 <= c < |conditions| ==> keys[c] == Materialize(input[conditions[c].right.value], device.arrays)
      ensures uniqueBuildKeys == (old(uniqueBuildKeys) || SomeBuildKeyUnique(conditions, input, |conditions|))
    {
      hide Column.Rows;
      assert forall i :: 0 <= i < |conditions| ==> conditions[i].right.Some?;
      keys := [];
      for c := 0 to |conditions|
        invariant |keys| == c
        invariant forall k :: 0 <= k < c ==> keys[k] == Materialize(input[conditions[k].right.value], device.arrays)
        invariant uniqueBuildKeys == (old(uniqueBuildKeys) || SomeBuildKeyUnique(conditions, input, c))
      {
        var column := input[conditions[c].right.value];
        if column.isUnique {
          uniqueBuildKeys := true;
        }
        var key := device.MaterializeExpression(column);
        keys := keys + [key];
      }
    }

    // The hash table for build keys of this length; the pool answers with `fromPool`. False when it
    // has nothing left.
    method ReserveTable(manager: BufferManager.BufferManager, length: nat, fromPool: BufferManager.Ptr) returns (ok: bool)
      requires manager.LedgerValid() && fromPool !in manager.pool && !manager.InCache(fromPool)
      modifies this`gpuHashTable, this`htLen, manager`pool, manager`granted, manager`allocationTable
      ensures manager.LedgerValid() && htLen == length * 2
      ensures ok <==> !HasTable() || htLen == 0 || fromPool != BufferManager.NULL
      ensures var reserved := HasTable() && htLen > 0 && fromPool != BufferManager.NULL;
              var bytes := CacheAllocator.Padded(TableBytes(htLen));
              && manager.pool == (if reserved then old(manager.pool)[fromPool := bytes] else old(manager.pool))
              && manager.allocationTable ==
                 (if reserved then old(manager.allocationTable)[fromPool := bytes] else old(manager.allocationTable))
              && gpuHashTable == if reserved then fromPool
                                 else if HasTable() && htLen == 0 then BufferManager.NULL
                                 else old(gpuHashTable)
    {
      htLen := length * 2;
      if HasTable() {
        if htLen == 0 {
          gpuHashTable := BufferManager.NULL;
        } else {
          var block := manager.MallocProcessing(TableBytes(htLen), fromPool);
          if !block.Allocated? {
            return false;
          }
          gpuHashTable := block.ptr;
        }
      }
      return true;
    }

    /** Sink gets past the reservation of the hash table, which is then of this length. */
    predicate Sinkable(length: nat, fromPool: BufferManager.Ptr) {
      conditions != [] && Builds() && (length == 0 || fromPool != BufferManager.NULL)
    }

    // Sink: the keys' columns first, in the order of the conditions, then the payload. False where
    // the source throws.
    method Sink(device: Device, manager: BufferManager.BufferManager, input: seq<Column>, fromPool: BufferManager.Ptr)
      returns (ok: bool)
      requires Laid() && DistinctKeys(conditions) && KeysValid(conditions, input, device.arrays) && PayloadIn(payload, input)
      requires KeysLive(conditions, input, device.freed)
      requires manager.LedgerValid() && fromPool !in manager.pool && !manager.InCache(fromPool)
      modifies this`uniqueBuildKeys, this`gpuHashTable, this`htLen, hashTable, buildKeys
      modifies manager`pool, manager`granted, manager`allocationTable
      ensures manager.LedgerValid()
      ensures ok <==>
              conditions != [] &&
              Sinkable(Materialize(input[conditions[0].right.value], device.arrays).length, fromPool)
      ensures ok ==> hashTable.Length == |conditions| + |payload| && StoredAt(conditions, payload, input, hashTable[..])
      ensures ok ==> forall c :: 0 <= c < |conditions| ==>
                c < buildKeys.Length && buildKeys[c] == Materialize(input[conditions[c].right.value], device.arrays)
      ensures uniqueBuildKeys == (old(uniqueBuildKeys) || SomeBuildKeyUnique(conditions, input, |conditions|))
      // the hash table is a new block of the pool, unless the build side is empty
      ensures ok ==>
                && htLen == 2 * buildKeys[0].length
                && gpuHashTable == (if htLen == 0 then BufferManager.NULL else fromPool)
                && (if htLen == 0 then manager.pool == old(manager.pool) && manager.allocationTable == old(manager.allocationTable)
                    else
                      && manager.pool == old(manager.pool)[fromPool := CacheAllocator.Padded(TableBytes(htLen))]
                      && manager.allocationTable ==
                         old(manager.allocationTable)[fromPool := CacheAllocator.Padded(TableBytes(htLen))])
    {
      hide StoredAt, DistinctKeys, SlotColumn, Column.Rows, KeyColumns, Materialize;
      SinkFitsIff(conditions, payload);
      assert forall i :: 0 <= i < |conditions| ==> conditions[i].right.Some?;
      var keys := MaterializeKeys(device, input);
      if |keys| == 0 {
        return false;
      }
      ok := ReserveTable(manager, keys[0].length, fromPool);
      if !ok || !Builds() {
        return false;
      }
      StoreColumns(input, keys);
    }

    method StoreColumns(input: seq<Column>, keys: seq<Column>)
      requires hashTable.Length == |conditions| + |payload| && |conditions| == |keys| <= buildKeys.Length && buildKeys != hashTable
      requires forall i :: 0 <= i < |conditions| ==> conditions[i].right.Some? && conditions[i].right.value < |input|
      requires PayloadIn(payload, input)
      modifies hashTable, buildKeys
      ensures StoredAt(conditions, payload, input, hashTable[..])
      ensures forall c :: 0 <= c < |conditions| ==> buildKeys[c] == keys[c]
    {
      var rightIdx := 0;
      for c := 0 to |conditions|
        invariant rightIdx == c
        invariant forall k :: 0 <= k < c ==> hashTable[k] == input[conditions[k].right.value]
        invariant forall k :: 0 <= k < c ==> buildKeys[k] == keys[k]
      {
        hashTable[c] := input[conditions[c].right.value];
        buildKeys[c] := keys[c];
        rightIdx := rightIdx + 1;
      }
      for i := 0 to |payload|
        invariant forall k :: 0 <= k < |conditions| ==> hashTable[k] == input[conditions[k].right.value]
        invariant forall k :: 0 <= k < |conditions| ==> buildKeys[k] == keys[k]
        invariant forall s :: |conditions| <= s < |conditions| + i ==> hashTable[s] == input[payload[s - |conditions|]]
      {
        hashTable[rightIdx + i] := input[payload[i]];
      }
    }

    // Which output size Execute accepts; none for join types that it does not support.
    function OutputSize(): Option<nat> {
      if joinType.RightSemi? || joinType.RightAnti? then Some(|rhsOutput|)
      else if joinType.Semi? || joinType.Anti? then Some(|lhsOutput|)
      else if joinType.Inner? || joinType.Left? || joinType.Right? || joinType.Outer? then Some(|lhsOutput| + |rhsOutput|)
      else if joinType.Mark? then Some(|lhsOutput| + 1)
      else None
    }

    /** The left row ids select rows of the projected probe columns, the right ones rows of the slots. */
    ghost predicate PairsFit(input: seq<Column>, mem: Arrays, leftIds: seq<nat>, rightIds: seq<nat>)
      reads hashTable
    {
      && (forall k :: 0 <= k < |lhsOutput| ==> lhsOutput[k] < |input|)
      && (forall k :: 0 <= k < |rhsOutput| ==> rhsOutput[k] < hashTable.Length)
      && Selectable(Chosen(input, lhsOutput), mem, leftIds) && Selectable(Chosen(hashTable[..], rhsOutput), mem, rightIds)
    }

    /** The hash table leaves the ledger; `lost`: it is none of the manager's blocks. */
    twostate predicate FreesTable(manager: BufferManager.BufferManager, lost: bool)
      reads this, manager
    {
      && manager.allocationTable == old(manager.allocationTable) - {gpuHashTable}
      && manager.pool == (if gpuHashTable in old(manager.allocationTable) then old(manager.pool) - {gpuHashTable}
                          else old(manager.pool))
      && (lost <==> gpuHashTable != BufferManager.NULL && !manager.InCache(gpuHashTable) && gpuHashTable !in old(manager.pool))
    }

    // The pointer stays as it is.
    method FreeTable(manager: BufferManager.BufferManager) returns (lost: bool)
      requires manager.LedgerValid()
      modifies manager`pool, manager`released, manager`allocationTable
      ensures manager.LedgerValid() && FreesTable(manager, lost)
    {
      hide BufferManager.Balanced;
      assert BufferManager.NULL !in manager.allocationTable;
      if gpuHashTable != BufferManager.NULL {
        var freed := manager.CustomCudaFree(gpuHashTable);
        return freed.NotFound?;
      }
      return false;
    }

    /** Execute gets to the end, as far as it is not about its hash table. */
    predicate Accepts(columns: nat) {
      conditions != [] && OutputSize() == Some(columns) && Probes()
    }

    /** No array that Execute reads was freed, and the two sides share no array that it would free. */
    ghost predicate Unfreed(device: Device, input: seq<Column>)
      requires (forall k :: 0 <= k < |lhsOutput| ==> lhsOutput[k] < |input|)
      requires forall k :: 0 <= k < |rhsOutput| ==> rhsOutput[k] < hashTable.Length
      reads device, hashTable
    {
      && device.Tracked() && ProbesLive(conditions, input, device.freed)
      && Readable(Chosen(input, lhsOutput), device.freed) && Readable(Chosen(hashTable[..], rhsOutput), device.freed)
      && LateArrays(Chosen(input, lhsOutput)) - device.locked !! LateArrays(Chosen(hashTable[..], rhsOutput))
    }

    /** The arrays of the projected probe columns, which Execute frees. */
    function Spent(input: seq<Column>, rows: nat): set<Ptr>
      requires forall k :: 0 <= k < |lhsOutput| ==> lhsOutput[k] < |input|
    {
      if joinType.Mark? || joinType.RightSemi? || joinType.RightAnti? || rows == 0 then {}
      else LateArrays(Chosen(input, lhsOutput))
    }

    // Execute, for the row ids (and the marks) that the join kernel returned. The source throws where
    // the output has the wrong size or no kernel does the join; and, after all is written, when the
    // hash table that it frees is not one of the manager's blocks.
    method Execute(device: Device, manager: BufferManager.BufferManager, input: seq<Column>,
                   leftIds: seq<nat>, rightIds: seq<nat>, mark: seq<int>, output: array<Column>)
      returns (result: JoinResult)
      requires ProbesValid(conditions, input, device.arrays) && PairsFit(input, device.arrays, leftIds, rightIds)
      requires output != hashTable && manager.LedgerValid() && Unfreed(device, input)
      modifies this`uniqueProbeKeys, device, output, manager`pool, manager`released, manager`allocationTable
      ensures manager.LedgerValid() && device.Tracked() && old(device.arrays) <= device.arrays
      ensures result.Unsupported? <==> !Accepts(output.Length)
      // inner, semi and mark joins free their hash table, once
      ensures var frees := !result.Unsupported? && Hash(joinType).FreedByProbe();
              if frees then FreesTable(manager, result.NotFound?)
              else
                && !result.NotFound? && manager.pool == old(manager.pool)
                && manager.allocationTable == old(manager.allocationTable)
      ensures result.Done? ==> Outputs(input, old(device.arrays), leftIds, rightIds, mark, output, device.arrays)
      // the old arrays of the probe side are freed, those of the build side are not
      ensures device.freed == old(device.freed) + if result.Unsupported? then {} else Spent(input, |leftIds|) - old(device.locked)
      ensures result.Done? && !joinType.Mark? ==> ArraysFrom(output[..], |old(device.arrays)|)
      ensures result.Done? ==> uniqueProbeKeys == (old(uniqueProbeKeys) || SomeProbeKeyUnique(conditions, input, |conditions|))
    {
      hide Column.Valid, Column.Selects, Column.Rows, Selectable, AllSelected, Chosen, Materialize;
      hide BufferManager.Balanced, BufferManager.Divided, Outputs;
      if !Accepts(output.Length) {
        return Unsupported;
      }
      for c := 0 to |conditions|
        invariant device.arrays == old(device.arrays) && hashTable[..] == old(hashTable[..])
        invariant device.freed == old(device.freed) && device.locked == old(device.locked)
        invariant uniqueProbeKeys == (old(uniqueProbeKeys) || SomeProbeKeyUnique(conditions, input, c))
        invariant manager.LedgerValid()
        invariant manager.pool == old(manager.pool) && manager.allocationTable == old(manager.allocationTable)
      {
        if input[conditions[c].left].isUnique {
          uniqueProbeKeys := true;
        }
        var key := device.MaterializeExpression(input[conditions[c].left]);
      }
      WriteOutputs(device, input, leftIds, rightIds, mark, output);
      if joinType.Inner? || joinType.Semi? || joinType.Mark? {
        var lost := FreeTable(manager);
        if lost {
          return NotFound;
        }
      }
      return Done;
    }

    /** What Execute writes. */
    ghost predicate Outputs(input: seq<Column>, mem: Arrays, leftIds: seq<nat>, rightIds: seq<nat>, mark: seq<int>,
                            output: array<Column>, later: Arrays)
      requires PairsFit(input, mem, leftIds, rightIds)
      reads this, hashTable, output
    {
      && OutputSize() == Some(output.Length)
      // the projected probe columns at the left row ids, then the slots of the output map at the right ones
      && (joinType.Inner? || joinType.Right? || joinType.Semi? || joinType.Anti? ==>
            AllSelected(Chosen(input, lhsOutput), mem, leftIds, output[..|lhsOutput|], later,
                        uniqueBuildKeys || joinType.Semi? || joinType.Anti?))
      && (joinType.Inner? || joinType.Right? ==>
            AllSelected(Chosen(hashTable[..], rhsOutput), mem, rightIds, output[|lhsOutput|..], later, uniqueProbeKeys))
      // a mark join passes its columns through and adds the marks
      && (joinType.Mark? ==>
            && (forall k :: 0 <= k < |lhsOutput| ==>
                  output[k] == input[lhsOutput[k]].(isUnique := uniqueBuildKeys && input[lhsOutput[k]].isUnique))
            && output[|lhsOutput|] == Column(Some(mark), |mark|, None, 0, false))
      // right semi and right anti joins output nothing yet
      && (joinType.RightSemi? || joinType.RightAnti? ==> forall k :: 0 <= k < |rhsOutput| ==> output[k] == NO_ROWS)
    }

    method WriteOutputs(device: Device, input: seq<Column>, leftIds: seq<nat>, rightIds: seq<nat>, mark: seq<int>,
                        output: array<Column>)
      requires PairsFit(input, device.arrays, leftIds, rightIds) && output != hashTable && Accepts(output.Length)
      requires Unfreed(device, input)
      modifies device, output
      ensures old(device.arrays) <= device.arrays && device.Tracked()
      ensures Outputs(input, old(device.arrays), leftIds, rightIds, mark, output, device.arrays)
      ensures device.freed == old(device.freed) + (Spent(input, |leftIds|) - old(device.locked))
      ensures !joinType.Mark? ==> ArraysFrom(output[..], |old(device.arrays)|)
    {
      hide Column.Valid, Column.Selects, Column.Rows, Selectable, AllSelected, Chosen, LateArrays, Readable;
      hide Comparable, LateInequality, ArraysFrom, ProbesLive;
      if joinType.RightSemi? || joinType.RightAnti? {
        for k := 0 to |rhsOutput|
          invariant forall j :: 0 <= j < k ==> output[j] == NO_ROWS
          invariant device.arrays == old(device.arrays) && hashTable[..] == old(hashTable[..])
          invariant device.freed == old(device.freed) && device.Tracked()
        {
          output[k] := NO_ROWS;
        }
        NoRowsFrom(output[..], |device.arrays|);
      } else if joinType.Mark? {
        PassThrough(input, mark, output);
      } else {
        var keepsUnique := uniqueBuildKeys || joinType.Semi? || joinType.Anti?;
        WriteLeft(device, input, leftIds, output, keepsUnique);
        ghost var written, mem1, freed1 := output[..|lhsOutput|], device.arrays, device.freed;
        if joinType.Semi? || joinType.Anti? {
          assert output[..] == written;
        } else {
          ghost var cs := Chosen(hashTable[..], rhsOutput);
          device.Lock(hashTable[..]);
          AllLocked(hashTable[..], rhsOutput, old(device.arrays), rightIds, mem1, freed1, old(device.freed),
                    LateArrays(Chosen(input, lhsOutput)) - old(device.locked), device.locked);
          WriteRight(device, rightIds, |lhsOutput|, output);
          assert output[..|lhsOutput|] == written;
          assert output[|lhsOutput|..|lhsOutput| + |rhsOutput|] == output[|lhsOutput|..];
          SelectedPersists(Chosen(input, lhsOutput), old(device.arrays), leftIds, written, mem1, keepsUnique, device.arrays);
          SelectedSince(cs, old(device.arrays), mem1, rightIds, output[|lhsOutput|..], device.arrays, uniqueProbeKeys);
          BothFrom(written, output[|lhsOutput|..], |old(device.arrays)|, |mem1|);
          assert output[..] == written + output[|lhsOutput|..];
        }
      }
    }

    // The projected probe columns at the given row ids.
    method WriteLeft(device: Device, input: seq<Column>, ids: seq<nat>, output: array<Column>, keepsUnique: bool)
      requires (forall k :: 0 <= k < |lhsOutput| ==> lhsOutput[k] < |input|) && |lhsOutput| <= output.Length
      requires Selectable(Chosen(input, lhsOutput), device.arrays, ids)
      requires device.Tracked() && Readable(Chosen(input, lhsOutput), device.freed)
      modifies device`arrays, device`freed, output
      ensures old(device.arrays) <= device.arrays && device.Tracked()
      ensures AllSelected(Chosen(input, lhsOutput), old(device.arrays), ids, output[..|lhsOutput|], device.arrays, keepsUnique)
      ensures device.freed == old(device.freed) + if |ids| > 0 then LateArrays(Chosen(input, lhsOutput)) - device.locked else {}
      ensures ArraysFrom(output[..|lhsOutput|], |old(device.arrays)|)
    {
      hide Column.Valid, Column.Selects, Column.Rows, Selectable, AllSelected, AllWritten, LateArrays, Chosen, Readable;
      ghost var mem, cs := device.arrays, Chosen(input, lhsOutput);
      NewIsNone(cs, mem, ids);
      var p := device.Alloc(ids);
      ghost var now := device.arrays;
      StillSelectable(cs, mem, ids, now);
      device.HandleMaterializeRowIDsLHS(input, output, lhsOutput, |ids|, Some(p), keepsUnique);
      AllWrittenSelects(cs, mem, ids, now, p, keepsUnique, output[..|lhsOutput|], device.arrays);
    }

    // The slots of the output map at the given row ids, from `offset` on.
    method WriteRight(device: Device, ids: seq<nat>, offset: nat, output: array<Column>)
      requires (forall k :: 0 <= k < |rhsOutput| ==> rhsOutput[k] < hashTable.Length) && offset + |rhsOutput| <= output.Length
      requires Selectable(Chosen(hashTable[..], rhsOutput), device.arrays, ids) && output != hashTable
      requires device.Tracked() && Readable(Chosen(hashTable[..], rhsOutput), device.freed)
      modifies device`arrays, device`freed, output
      ensures old(device.arrays) <= device.arrays && device.Tracked()
      ensures AllSelected(Chosen(hashTable[..], rhsOutput), old(device.arrays), ids, output[offset..offset + |rhsOutput|],
                          device.arrays, uniqueProbeKeys)
      ensures forall i :: 0 <= i < output.Length && !(offset <= i < offset + |rhsOutput|) ==> output[i] == old(output[i])
      ensures device.freed ==
              old(device.freed) + if |ids| > 0 then LateArrays(Chosen(hashTable[..], rhsOutput)) - device.locked else {}
      ensures ArraysFrom(output[offset..offset + |rhsOutput|], |old(device.arrays)|)
    {
      hide Column.Valid, Column.Selects, Column.Rows, Selectable, AllSelected, AllWritten, LateArrays, Chosen, Readable;
      ghost var mem, cs := device.arrays, Chosen(hashTable[..], rhsOutput);
      NewIsNone(cs, mem, ids);
      var p := device.Alloc(ids);
      ghost var now := device.arrays;
      StillSelectable(cs, mem, ids, now);
      device.HandleMaterializeRowIDsRHS(hashTable[..], output, rhsOutput, offset, |ids|, Some(p), uniqueProbeKeys);
      AllWrittenSelects(cs, mem, ids, now, p, uniqueProbeKeys, output[offset..offset + |rhsOutput|], device.arrays);
    }

    method PassThrough(input: seq<Column>, mark: seq<int>, output: array<Column>)
      requires (forall k :: 0 <= k < |lhsOutput| ==> lhsOutput[k] < |input|) && output.Length == |lhsOutput| + 1
      modifies output
      ensures forall k :: 0 <= k < |lhsOutput| ==>
                output[k] == input[lhsOutput[k]].(isUnique := uniqueBuildKeys && input[lhsOutput[k]].isUnique)
      ensures output[|lhsOutput|] == Column(Some(mark), |mark|, None, 0, false)
    {
      for k := 0 to |lhsOutput|
        invariant forall j :: 0 <= j < k ==>
                    output[j] == input[lhsOutput[j]].(isUnique := uniqueBuildKeys && input[lhsOutput[j]].isUnique)
      {
        var c := input[lhsOutput[k]];
        output[k] := c.(isUnique := if uniqueBuildKeys then c.isUnique else false);
      }
      output[|lhsOutput|] := Column(Some(mark), |mark|, None, 0, false);
    }

    // GetData, when a right join restarts its pipeline with the build rows that the scan of its hash
    // table returned; for a full right join the probe side's columns are null. The scan frees the
    // table.
    method GetData(device: Device, manager: BufferManager.BufferManager, rightIds: seq<nat>, output: array<Column>)
      returns (result: JoinResult)
      requires forall k :: 0 <= k < |rhsOutput| ==> rhsOutput[k] < hashTable.Length
      requires Selectable(Chosen(hashTable[..], rhsOutput), device.arrays, rightIds)
      requires |rhsOutput| <= output.Length && output != hashTable && manager.LedgerValid()
      requires device.Tracked() && Readable(Chosen(hashTable[..], rhsOutput), device.freed)
      modifies device`arrays, device`freed, output, manager`pool, manager`released, manager`allocationTable
      ensures manager.LedgerValid() && device.Tracked()
      ensures result.Unsupported? <==> !(joinType.Right? || joinType.RightSemi? || joinType.RightAnti?)
      ensures var frees := !result.Unsupported? && htLen > 0;
              if frees then FreesTable(manager, result.NotFound?)
              else
                && !result.NotFound? && manager.pool == old(manager.pool)
                && manager.allocationTable == old(manager.allocationTable)
      ensures result.Done? ==>
                var left := if joinType.Right? then output.Length - |rhsOutput| else 0;
                && (forall k :: 0 <= k < left ==> output[k] == NO_ROWS)
                && AllSelected(Chosen(hashTable[..], rhsOutput), old(device.arrays), rightIds, output[left..left + |rhsOutput|],
                               device.arrays, uniqueProbeKeys)
                && ArraysFrom(output[left..left + |rhsOutput|], |old(device.arrays)|)
    {
      hide Column.Valid, Column.Selects, Column.Rows, Selectable, AllSelected, Chosen, Readable, LateArrays;
      hide BufferManager.Balanced, BufferManager.Divided;
      var leftColumnCount := output.Length - |rhsOutput|;
      if joinType.RightSemi? || joinType.RightAnti? {
        leftColumnCount := 0;
      } else if joinType.Right? {
        for k := 0 to leftColumnCount
          invariant forall j :: 0 <= j < k ==> output[j] == NO_ROWS
          invariant device.arrays == old(device.arrays) && hashTable[..] == old(hashTable[..])
          invariant manager.LedgerValid() && device.Tracked() && device.freed == old(device.freed)
          invariant manager.pool == old(manager.pool) && manager.allocationTable == old(manager.allocationTable)
        {
          output[k] := NO_ROWS;
        }
      } else {
        return Unsupported;
      }
      if htLen > 0 {
        var lost := FreeTable(manager);
        if lost {
          return NotFound;
        }
      }
      WriteRight(device, rightIds, leftColumnCount, output);
      return Done;
    }
  }

  /** Which output sizes each join type accepts, over conditions that some kernel knows. */
  lemma AcceptsIff(join: HashJoin, columns: nat)
    ensures join.Accepts(columns) <==>
            && join.conditions != []
            && match join.joinType
               case Inner => columns == |join.lhsOutput| + |join.rhsOutput|
               case Right => columns == |join.lhsOutput| + |join.rhsOutput| && Comparable(join.conditions)
               case Semi => columns == |join.lhsOutput| && Comparable(join.conditions)
               case Anti => columns == |join.lhsOutput| && Comparable(join.conditions)
               case Mark => columns == |join.lhsOutput| + 1 && LateInequality(join.conditions)
               case RightSemi => columns == |join.rhsOutput| && Comparable(join.conditions)
               case RightAnti => columns == |join.rhsOutput| && Comparable(join.conditions)
               case _ => false
  {
  }

  /** Which joins Sink builds: inner joins over any conditions, the others over equalities, the second of
      two conditions being an inequality at most. */
  lemma BuildsIff(join: HashJoin)
    ensures join.Builds() <==>
            || join.joinType == Inner
            || (join.joinType in {Semi, Mark, Right, RightSemi, RightAnti} &&
                forall c :: 0 <= c < |join.conditions| ==>
                  || join.conditions[c].comparison in {Equal, NotDistinctFrom}
                  || (c == 1 && |join.conditions| == 2 && join.conditions[c].comparison in {NotEqual, DistinctFrom}))
  {
  }

  /** Over one equality, a join of these types and no other is built and accepts its own output size;
      they are the ones that pipelines count as implemented. */
  lemma TypesOverEquality(join: HashJoin)
    requires |join.conditions| == 1 && join.conditions[0].comparison.IsEquality()
    ensures join.Builds() && (exists columns :: join.Accepts(columns)) <==>
            join.joinType in {Inner, Semi, Mark, Right, RightSemi, RightAnti}
    ensures Hash(join.joinType).Supported() <==> join.joinType in {Inner, Semi, Mark, Right, RightSemi, RightAnti}
  {
    if join.OutputSize().Some? {
      assert join.Accepts(join.OutputSize().value) || !join.Probes();
    }
  }

  /** The arrays that Execute frees, type by type. */
  lemma SpentIff(join: HashJoin, input: seq<Column>, rows: nat, p: Ptr)
    requires forall k :: 0 <= k < |join.lhsOutput| ==> join.lhsOutput[k] < |input|
    ensures p in join.Spent(input, rows) <==>
            && join.joinType !in {Mark, RightSemi, RightAnti} && rows > 0
            && exists k :: 0 <= k < |join.lhsOutput| && input[join.lhsOutput[k]].rowIds == Some(p)
  {
    ChosenArrays(input, join.lhsOutput);
  }

  /** Which joins reserve a hash table, and of what size. */
  lemma TableBytesAre(join: HashJoin, length: nat)
    ensures join.HasTable() <==> join.joinType in {Inner, Semi, Mark, Right, RightSemi, RightAnti}
    ensures join.joinType in {Inner, Semi, Mark} ==> join.TableBytes(length) == length * (|join.conditions| + 1) * 8
    ensures join.joinType in {Right, RightSemi, RightAnti} ==> join.TableBytes(length) == length * (|join.conditions| + 2) * 8
  {
  }
}

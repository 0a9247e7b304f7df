/** Late materialization: columns keep their data and share arrays of row ids. Filters and joins
    compose row ids, through a memo keyed by array, in place of gathering data. */
module LateMaterialization {
  import opened Options

  // A device array of row ids. Arrays are never written after their creation, but freed once they
  // have been composed with another, unless they are locked.
  type Ptr = nat
  type Arrays = seq<seq<nat>>

  /** A column on the device: its data, if any, and the array of row ids to read it through. */
  datatype Column = Column(data: Option<seq<int>>, length: nat, rowIds: Option<Ptr>, rowIdCount: nat, isUnique: bool) {

    /** The placeholder columns that joins and empty results hand on. */
    predicate Absent() {
      data.None? || length == 0
    }

    /** Its array of row ids, if it has one, was not freed. */
    predicate Live(freed: set<Ptr>) {
      rowIds.Some? ==> rowIds.value !in freed
    }

    ghost predicate Valid(mem: Arrays) {
      && (data.Some? ==> |data.value| == length)
      && (rowIds.Some? ==> rowIds.value < |mem| && |mem[rowIds.value]| == rowIdCount)
      && (rowIds.Some? && !Absent() ==> forall k :: 0 <= k < rowIdCount ==> mem[rowIds.value][k] < length)
    }

    /** `ids` select rows of this column. */
    ghost predicate Selects(ids: seq<nat>, mem: Arrays)
      requires Valid(mem)
    {
      if rowIds.Some? then forall k :: 0 <= k < |ids| ==> ids[k] < rowIdCount
      else !Absent() ==> forall k :: 0 <= k < |ids| ==> ids[k] < length
    }

    /** The rows that the column stands for. */
    function Rows(mem: Arrays): seq<int>
      requires Valid(mem)
    {
      if Absent() then []
      else if rowIds.Some? then Gather(data.value, mem[rowIds.value])
      else data.value
    }
  }

  const NO_ROWS := Column(None, 0, None, 0, false)

  /** materializeWithoutNull and the kernels like it. */
  function Gather<T>(data: seq<T>, ids: seq<nat>): (r: seq<T>)
    requires forall k :: 0 <= k < |ids| ==> ids[k] < |data|
    ensures |r| == |ids|
  {
    seq(|ids|, k requires 0 <= k < |ids| => data[ids[k]])
  }

  /** Eager selection; a placeholder column stays one. */
  function Pick(rows: seq<int>, ids: seq<nat>): seq<int>
    requires rows == [] || forall k :: 0 <= k < |ids| ==> ids[k] < |rows|
  {
    if rows == [] then [] else Gather(rows, ids)
  }

  lemma GatherGather<T>(data: seq<T>, inner: seq<nat>, outer: seq<nat>)
    requires forall k :: 0 <= k < |inner| ==> inner[k] < |data|
    requires forall k :: 0 <= k < |outer| ==> outer[k] < |inner|
    ensures Gather(Gather(data, inner), outer) == Gather(data, Gather(inner, outer))
  {
  }

  /** HandleMaterializeExpression. */
  function Materialize(c: Column, mem: Arrays): Column
    requires c.Valid(mem)
  {
    if c.data.None? || c.length == 0 || (c.rowIds.Some? && c.rowIdCount == 0) then NO_ROWS
    else if c.rowIds.Some? then Column(Some(Gather(c.data.value, mem[c.rowIds.value])), c.rowIdCount, None, 0, c.isUnique)
    else Column(c.data, c.length, None, 0, c.isUnique)
  }

  /** Materializing keeps the rows, drops the row ids, and is done once. */
  lemma MaterializeKeepsRows(c: Column, mem: Arrays, later: Arrays)
    requires c.Valid(mem)
    ensures var m := Materialize(c, mem);
            && m.rowIds.None? && m.Valid(later) && m.Rows(later) == c.Rows(mem)
            && (m.isUnique ==> c.isUnique) && (c.Rows(mem) != [] ==> m.isUnique == c.isUnique)
            && Materialize(m, later) == m
  {
  }

  /** What a working table and the column-data scan over it keep of a column. */
  function Copied(c: Column): Column {
    Column(c.data, c.length, None, 0, c.isUnique)
  }

  /** A column of this data, read through an array of row ids. */
  function Late(data: seq<int>, rowIds: Ptr, mem: Arrays): (c: Column)
    requires rowIds < |mem| && forall k :: 0 <= k < |mem[rowIds]| ==> mem[rowIds][k] < |data|
    ensures c.Valid(mem)
  {
    Column(Some(data), |data|, Some(rowIds), |mem[rowIds]|, false)
  }

  /** Copying drops the row ids: it keeps the rows of all columns read through an array if and only if
      that array lists all rows in place. A column without row ids keeps its rows. */
  lemma CopyKeepsRowsIff(length: nat, rowIds: Ptr, mem: Arrays)
    requires rowIds < |mem| && length > 0 && forall k :: 0 <= k < |mem[rowIds]| ==> mem[rowIds][k] < length
    ensures (forall data: seq<int> :: |data| == length ==>
               Copied(Late(data, rowIds, mem)).Rows(mem) == Late(data, rowIds, mem).Rows(mem))
            <==> mem[rowIds] == seq(length, i => i)
    ensures forall c: Column :: c.Valid(mem) && c.rowIds.None? ==> Copied(c).Valid(mem) && Copied(c).Rows(mem) == c.Rows(mem)
  {
    var ids, places := mem[rowIds], seq(length, i => i);
    var numbered: seq<int> := seq(length, i => i);
    if ids == places {
      forall data: seq<int> | |data| == length
        ensures Copied(Late(data, rowIds, mem)).Rows(mem) == Late(data, rowIds, mem).Rows(mem)
      {
        assert Gather(data, ids) == data;
      }
    } else {
      assert Copied(Late(numbered, rowIds, mem)).Rows(mem) == numbered;
      assert Late(numbered, rowIds, mem).Rows(mem) == Gather(numbered, ids);
      if |ids| == length {
        var k :| 0 <= k < length && ids[k] != places[k];
        assert Gather(numbered, ids)[k] == ids[k] != numbered[k];
      }
    }
  }

  /** New arrays leave old columns as they are. */
  lemma RowsPersist(c: Column, mem: Arrays, later: Arrays)
    requires c.Valid(mem) && mem <= later
    ensures c.Valid(later) && c.Rows(later) == c.Rows(mem)
  {
    if c.rowIds.Some? {
      assert later[c.rowIds.value] == mem[c.rowIds.value];
    }
  }

  /** `out` stands for the rows `ids` of `c`. */
  ghost predicate Selected(c: Column, mem: Arrays, ids: seq<nat>, out: Column, later: Arrays, maintainUnique: bool)
    requires c.Valid(mem) && c.Selects(ids, mem)
  {
    && out.Valid(later) && out.Rows(later) == Pick(c.Rows(mem), ids)
    && out.isUnique == (maintainUnique && c.isUnique)
    && if out.rowIds.Some? then out.rowIdCount == |ids| else out.Absent()
  }

  /** Composing row ids refines gathering. */
  lemma ComposedSelects(c: Column, mem: Arrays, ids: seq<nat>, out: Column, later: Arrays)
    requires c.Valid(mem) && c.Selects(ids, mem) && ids != []
    requires out.data == c.data && out.length == c.length && out.rowIds.Some? && out.rowIdCount == |ids|
    requires out.rowIds.value < |later|
    requires later[out.rowIds.value] == if c.rowIds.Some? then Gather(mem[c.rowIds.value], ids) else ids
    ensures out.Valid(later) && out.Rows(later) == Pick(c.Rows(mem), ids)
  {
    assert ids[0] in ids;
    if !c.Absent() && c.rowIds.Some? {
      var composed := Gather(mem[c.rowIds.value], ids);
      assert forall k :: 0 <= k < |ids| ==> composed[k] == mem[c.rowIds.value][ids[k]];
      GatherGather(c.data.value, mem[c.rowIds.value], ids);
      assert ids[0] < c.rowIdCount;
    }
  }

  lemma ComposedIsSelected(c: Column, mem: Arrays, ids: seq<nat>, out: Column, later: Arrays, maintainUnique: bool)
    requires c.Valid(mem) && c.Selects(ids, mem) && ids != [] && out.isUnique == (maintainUnique && c.isUnique)
    requires out.data == c.data && out.length == c.length && out.rowIds.Some? && out.rowIdCount == |ids|
    requires out.rowIds.value < |later|
    requires c.rowIds.Some? ==> c.rowIds.value < |mem| && forall k :: 0 <= k < |ids| ==> ids[k] < |mem[c.rowIds.value]|
    requires later[out.rowIds.value] == if c.rowIds.Some? then Gather(mem[c.rowIds.value], ids) else ids
    ensures Selected(c, mem, ids, out, later, maintainUnique)
  {
    ComposedSelects(c, mem, ids, out, later);
  }

  lemma ArrayOf(c: Column, mem: Arrays, ids: seq<nat>)
    requires c.Valid(mem) && c.Selects(ids, mem) && c.rowIds.Some?
    ensures c.rowIds.value < |mem| && forall k :: 0 <= k < |ids| ==> ids[k] < |mem[c.rowIds.value]|
  {
  }

  function Chosen(input: seq<Column>, columns: seq<nat>): (cs: seq<Column>)
    requires forall k :: 0 <= k < |columns| ==> columns[k] < |input|
    ensures |cs| == |columns|
  {
    Gather(input, columns)
  }

  /** The distinct arrays of row ids behind some columns. */
  function LateArrays(cs: seq<Column>): set<Ptr> {
    set c | c in cs && c.rowIds.Some? :: c.rowIds.value
  }

  lemma LateArraysIff(cs: seq<Column>, p: Ptr)
    ensures p in LateArrays(cs) <==> exists c <- cs :: c.rowIds == Some(p)
  {
  }

  lemma NoArrays()
    ensures LateArrays([]) == {}
  {
  }

  /** No array behind these columns was freed. */
  predicate Readable(cs: seq<Column>, freed: set<Ptr>) {
    forall i :: 0 <= i < |cs| ==> cs[i].Live(freed)
  }

  /** All arrays behind these columns are from place `n` on. */
  predicate ArraysFrom(cs: seq<Column>, n: nat) {
    forall i :: 0 <= i < |cs| && cs[i].rowIds.Some? ==> cs[i].rowIds.value >= n
  }

  /** What happens to one column: its rows `rowIds`, no rows when the count is zero, and, without
      row ids, its data as if it had none itself. */
  ghost predicate Written(c: Column, mem: Arrays, count: nat, rowIds: Option<Ptr>, maintainUnique: bool, out: Column, later: Arrays)
    requires c.Valid(mem) && (rowIds.Some? ==> rowIds.value < |mem| && c.Selects(mem[rowIds.value], mem))
  {
    if count == 0 then out == NO_ROWS.(isUnique := maintainUnique && c.isUnique)
    else if rowIds.Some? then Selected(c, mem, mem[rowIds.value], out, later, maintainUnique)
    else out == c.(rowIds := None, rowIdCount := count, isUnique := maintainUnique && c.isUnique)
  }

  lemma WrittenAs(c: Column, mem: Arrays, count: nat, rowIds: Option<Ptr>, maintainUnique: bool, out: Column, later: Arrays)
    requires c.Valid(mem) && (rowIds.Some? ==> rowIds.value < |mem| && c.Selects(mem[rowIds.value], mem))
    requires if count == 0 then out == NO_ROWS.(isUnique := maintainUnique && c.isUnique)
             else if rowIds.Some? then Selected(c, mem, mem[rowIds.value], out, later, maintainUnique)
             else out == c.(rowIds := None, rowIdCount := count, isUnique := maintainUnique && c.isUnique)
    ensures Written(c, mem, count, rowIds, maintainUnique, out, later)
  {
  }

  /** Column by column. */
  ghost predicate AllWritten(cs: seq<Column>, mem: Arrays, count: nat, rowIds: Option<Ptr>, maintainUnique: bool,
                             outs: seq<Column>, later: Arrays)
    requires forall c <- cs :: c.Valid(mem)
    requires rowIds.Some? ==> rowIds.value < |mem| && forall c <- cs :: c.Selects(mem[rowIds.value], mem)
  {
    |outs| == |cs| && forall i :: 0 <= i < |cs| ==> Written(cs[i], mem, count, rowIds, maintainUnique, outs[i], later)
  }

  /** Only `rowIds` and arrays from place `n` on are behind these columns. */
  predicate NewArrays(outs: seq<Column>, rowIds: Option<Ptr>, n: nat) {
    forall i :: 0 <= i < |outs| && outs[i].rowIds.Some? ==> outs[i].rowIds == rowIds || outs[i].rowIds.value >= n
  }

  lemma NoneWritten(mem: Arrays, count: nat, rowIds: Option<Ptr>, maintainUnique: bool)
    requires rowIds.Some? ==> rowIds.value < |mem|
    ensures AllWritten([], mem, count, rowIds, maintainUnique, [], mem)
  {
  }

  lemma OneMoreWritten(cs: seq<Column>, i: nat, mem: Arrays, count: nat, rowIds: Option<Ptr>, maintainUnique: bool,
                       outs: seq<Column>, later: Arrays, out: Column, last: Arrays)
    requires forall c <- cs :: c.Valid(mem)
    requires rowIds.Some? ==> rowIds.value < |mem| && forall c <- cs :: c.Selects(mem[rowIds.value], mem)
    requires i < |cs| && AllWritten(cs[..i], mem, count, rowIds, maintainUnique, outs, later) && later <= last
    requires Written(cs[i], mem, count, rowIds, maintainUnique, out, last)
    ensures AllWritten(cs[..i + 1], mem, count, rowIds, maintainUnique, outs + [out], last)
  {
    hide Written, Column.Valid, Column.Selects;
    forall k | 0 <= k < i
      ensures Written(cs[..i + 1][k], mem, count, rowIds, maintainUnique, (outs + [out])[k], last)
    {
      assert cs[..i][k] == cs[k];
      WrittenPersists(cs[k], mem, count, rowIds, maintainUnique, outs[k], later, last);
    }
  }

  lemma ChosenAt(input: seq<Column>, columns: seq<nat>, i: nat)
    requires (forall k :: 0 <= k < |columns| ==> columns[k] < |input|) && i < |columns|
    ensures Chosen(input, columns)[i] == input[columns[i]]
  {
  }

  lemma WrittenPersists(c: Column, mem: Arrays, count: nat, rowIds: Option<Ptr>, maintainUnique: bool, out: Column,
                        later: Arrays, last: Arrays)
    requires c.Valid(mem) && (rowIds.Some? ==> rowIds.value < |mem| && c.Selects(mem[rowIds.value], mem))
    requires Written(c, mem, count, rowIds, maintainUnique, out, later) && later <= last
    ensures Written(c, mem, count, rowIds, maintainUnique, out, last)
  {
    if count > 0 && rowIds.Some? {
      RowsPersist(out, later, last);
    }
  }

  lemma LateStep(cs: seq<Column>, i: nat)
    requires i < |cs|
    ensures LateArrays(cs[..i + 1]) == LateArrays(cs[..i]) + if cs[i].rowIds.Some? then {cs[i].rowIds.value} else {}
  {
    assert cs[..i + 1] == cs[..i] + [cs[i]];
  }

  /** Every array in `prev` has its composition with `ids` at the same place of `next`. */
  ghost predicate Memo(prev: seq<Ptr>, next: seq<Ptr>, mem: Arrays, ids: seq<nat>, later: Arrays) {
    && |prev| == |next|
    && (forall a, b :: 0 <= a < b < |prev| ==> prev[a] != prev[b])
    && (forall a :: 0 <= a < |next| ==> next[a] == |mem| + a < |later|)
    && forall a :: 0 <= a < |prev| ==>
         && prev[a] < |mem| && (forall k :: 0 <= k < |ids| ==> ids[k] < |mem[prev[a]]|)
         && later[next[a]] == Gather(mem[prev[a]], ids)
  }

  lemma MemoGrows(prev: seq<Ptr>, next: seq<Ptr>, mem: Arrays, ids: seq<nat>, later: Arrays, p: Ptr)
    requires Memo(prev, next, mem, ids, later) && p !in prev && p < |mem| && |later| == |mem| + |prev|
    requires forall k :: 0 <= k < |ids| ==> ids[k] < |mem[p]|
    ensures Memo(prev + [p], next + [|later|], mem, ids, later + [Gather(mem[p], ids)])
  {
  }

  function Distinct(s: seq<Ptr>): (all: set<Ptr>)
    ensures forall p :: p in all <==> p in s
    ensures (forall a, b :: 0 <= a < b < |s| ==> s[a] != s[b]) ==> |all| == |s|
  {
    if s == [] then {} else Distinct(s[..|s| - 1]) + {s[|s| - 1]}
  }

  lemma NoMemo(mem: Arrays, ids: seq<nat>)
    ensures Memo([], [], mem, ids, mem)
  {
  }

  lemma MemoDistinct(prev: seq<Ptr>, next: seq<Ptr>, mem: Arrays, ids: seq<nat>, later: Arrays)
    requires Memo(prev, next, mem, ids, later)
    ensures forall a, b :: 0 <= a < b < |prev| ==> prev[a] != prev[b]
  {
  }

  lemma CountLate(prev: seq<Ptr>, cs: seq<Column>)
    requires forall a, b :: 0 <= a < b < |prev| ==> prev[a] != prev[b]
    requires cs == [] ==> prev == []
    requires cs != [] ==> forall p :: p in prev <==> p in LateArrays(cs)
    ensures |prev| == |LateArrays(cs)|
  {
    assert Distinct(prev) == LateArrays(cs);
  }

  /** An array that was not met yet is still there. */
  lemma StillThere(cs: seq<Column>, i: nat, rowIds: Ptr, prev: seq<Ptr>, before: set<Ptr>, freed: set<Ptr>, locked: set<Ptr>)
    requires i < |cs| && rowIds !in before && Readable(cs, before) && rowIds !in LateArrays(cs)
    requires i > 0 ==> forall p :: p in prev <==> p in LateArrays(cs[..i])
    requires freed == before + (LateArrays(cs[..i]) - locked)
    ensures rowIds !in freed
    ensures cs[i].rowIds.Some? && cs[i].rowIds.value !in prev ==> cs[i].rowIds.value !in freed
  {
    assert forall c <- cs[..i] :: c in cs;
    assert i == 0 ==> LateArrays(cs[..i]) == {};
  }

  class Device {
    var arrays: Arrays
    var freed: set<Ptr>
    var locked: set<Ptr>

    /** Only arrays that exist were freed, and none that is locked. */
    ghost predicate Tracked()
      reads this
    {
      (forall p <- freed :: p < |arrays|) && (forall p <- locked :: p < |arrays|) && freed !! locked
    }

    constructor ()
      ensures arrays == [] && freed == {} && locked == {}
    {
      arrays, freed, locked := [], {}, {};
    }

    // lockAllocation, for the arrays behind some columns.
    method Lock(cs: seq<Column>)
      requires Tracked()
      modifies this`locked
      ensures Tracked() && locked == old(locked) + set p | p in LateArrays(cs) && p < |arrays| && p !in freed
    {
      NoArrays();
      assert cs[..0] == [];
      for i := 0 to |cs|
        invariant Tracked() && locked == old(locked) + set p | p in LateArrays(cs[..i]) && p < |arrays| && p !in freed
      {
        LateStep(cs, i);
        if cs[i].rowIds.Some? && cs[i].rowIds.value < |arrays| && cs[i].rowIds.value !in freed {
          locked := locked + {cs[i].rowIds.value};
        }
      }
      assert cs[..|cs|] == cs;
    }

    // HandleMaterializeExpression, which reads the column's array.
    method MaterializeExpression(c: Column) returns (m: Column)
      requires c.Valid(arrays) && c.Live(freed)
      ensures m == Materialize(c, arrays)
    {
      m := Materialize(c, arrays);
    }

    // customCudaFree, for an array of row ids.
    method Free(p: Ptr)
      requires Tracked() && p < |arrays| && p !in freed
      modifies this`freed
      ensures Tracked() && freed == old(freed) + ({p} - locked)
    {
      if p !in locked {
        freed := freed + {p};
      }
    }

    method Alloc(ids: seq<nat>) returns (p: Ptr)
      requires Tracked()
      modifies this`arrays
      ensures Tracked() && p == |old(arrays)| && arrays == old(arrays) + [ids]
    {
      p := |arrays|;
      arrays := arrays + [ids];
    }

    /** The arrays that are read are there, and the one they are composed with is none of them. */
    ghost predicate Composable(cs: seq<Column>, rowIds: Ptr)
      reads this
    {
      rowIds !in freed && Readable(cs, freed) && rowIds !in LateArrays(cs)
    }

    static method Find(prev: seq<Ptr>, p: Ptr) returns (at: nat)
      ensures at <= |prev| && p !in prev[..at] && (at < |prev| ==> prev[at] == p)
    {
      at := 0;
      while at < |prev| && prev[at] != p
        invariant at <= |prev| && p !in prev[..at]
      {
        at := at + 1;
      }
    }

    // One column of the loops below, with their memo: an array is read when it is met first, and
    // freed right away.
    method Compose(c: Column, rowIds: Ptr, maintainUnique: bool, prev: seq<Ptr>, next: seq<Ptr>, ghost mem: Arrays)
      returns (out: Column, prev': seq<Ptr>, next': seq<Ptr>)
      requires mem <= arrays && |arrays| == |mem| + |prev| && rowIds < |mem| && mem[rowIds] != []
      requires c.Valid(mem) && c.Selects(mem[rowIds], mem) && Memo(prev, next, mem, mem[rowIds], arrays)
      requires Tracked() && rowIds !in freed
      requires c.rowIds.Some? && c.rowIds.value !in prev ==> c.rowIds.value !in freed
      modifies this`arrays, this`freed
      ensures old(arrays) <= arrays && |arrays| == |mem| + |prev'| && Memo(prev', next', mem, mem[rowIds], arrays)
      ensures Selected(c, mem, mem[rowIds], out, arrays, maintainUnique)
      ensures forall p :: p in prev' <==> p in prev || c.rowIds == Some(p)
      ensures Tracked() && freed == old(freed) + if c.rowIds.Some? && c.rowIds.value !in prev then {c.rowIds.value} - locked else {}
      ensures out.rowIds == Some(rowIds) || (out.rowIds.Some? && out.rowIds.value >= |mem|)
    {
      hide Column.Valid, Column.Selects, Column.Rows, Selected;
      var count := |arrays[rowIds]|;
      out := Column(c.data, c.length, None, count, maintainUnique && c.isUnique);
      prev', next' := prev, next;
      if c.rowIds.None? {
        out := out.(rowIds := Some(rowIds));
      } else {
        ArrayOf(c, mem, mem[rowIds]);
        var at := Find(prev, c.rowIds.value);
        if at < |prev| {
          out := out.(rowIds := Some(next[at]));
        } else {
          assert prev[..at] == prev;
          MemoGrows(prev, next, mem, mem[rowIds], arrays, c.rowIds.value);
          var p := Alloc(Gather(arrays[c.rowIds.value], arrays[rowIds]));
          Free(c.rowIds.value);
          out := out.(rowIds := Some(p));
          prev', next' := prev + [c.rowIds.value], next + [p];
        }
      }
      ComposedIsSelected(c, mem, mem[rowIds], out, arrays, maintainUnique);
    }

    // HandleMaterializeRowIDsRHS: the given columns of `input` go to `output` from `offset` on.
    method HandleMaterializeRowIDsRHS(input: seq<Column>, output: array<Column>, columns: seq<nat>, offset: nat, count: nat,
                                      rowIds: Option<Ptr>, maintainUnique: bool)
      requires (forall k :: 0 <= k < |columns| ==> columns[k] < |input|) && offset + |columns| <= output.Length
      requires forall c <- Chosen(input, columns) :: c.Valid(arrays)
      requires rowIds.Some? ==> rowIds.value < |arrays| && |arrays[rowIds.value]| == count
      requires rowIds.Some? ==> forall c <- Chosen(input, columns) :: c.Selects(arrays[rowIds.value], arrays)
      requires Tracked() && (count > 0 && rowIds.Some? ==> Composable(Chosen(input, columns), rowIds.value))
      modifies this`arrays, this`freed, output
      ensures old(arrays) <= arrays && Tracked()
      ensures AllWritten(Chosen(input, columns), old(arrays), count, rowIds, maintainUnique,
                         output[offset..offset + |columns|], arrays)
      ensures forall i :: 0 <= i < output.Length && !(offset <= i < offset + |columns|) ==> output[i] == old(output[i])
      // one new array for each distinct array of row ids, which is freed
      ensures |arrays| == |old(arrays)| + if count > 0 && rowIds.Some? then |LateArrays(Chosen(input, columns))| else 0
      ensures freed == old(freed) + if count > 0 && rowIds.Some? then LateArrays(Chosen(input, columns)) - locked else {}
      ensures NewArrays(output[offset..offset + |columns|], rowIds, |old(arrays)|)
    {
      hide Written, AllWritten, Column.Valid, Column.Selects, Column.Rows, Selected, LateArrays, Gather, Memo;
      var next, prev: seq<Ptr> := [], [];
      ghost var mem, cs := arrays, Chosen(input, columns);
      ghost var ids := if rowIds.Some? then mem[rowIds.value] else [];
      ghost var outs: seq<Column> := [];
      assert cs[..0] == [] && LateArrays(cs[..0]) == {} by { NoArrays(); }
      assert Memo(prev, next, mem, ids, arrays) by { NoMemo(mem, ids); }
      assert AllWritten([], mem, count, rowIds, maintainUnique, [], arrays) by { NoneWritten(mem, count, rowIds, maintainUnique); }
      for i := 0 to |columns|
        invariant mem <= arrays && |arrays| == |mem| + |prev| && Memo(prev, next, mem, ids, arrays)
        invariant count == 0 || rowIds.None? || i == 0 ==> prev == []
        invariant count > 0 && rowIds.Some? && i > 0 ==> forall p :: p in prev <==> p in LateArrays(cs[..i])
        invariant |outs| == i && (forall k :: 0 <= k < i ==> output[offset + k] == outs[k])
        invariant AllWritten(cs[..i], mem, count, rowIds, maintainUnique, outs, arrays)
        invariant Tracked() && NewArrays(outs, rowIds, |mem|)
        invariant freed == old(freed) + if count > 0 && rowIds.Some? then LateArrays(cs[..i]) - locked else {}
        invariant forall k :: 0 <= k < output.Length && !(offset <= k < offset + i) ==> output[k] == old(output[k])
      {
        var c := input[columns[i]];
        assert c == cs[i] by { ChosenAt(input, columns, i); }
        assert c in cs;
        LateStep(cs, i);
        ghost var before := arrays;
        if count == 0 {
          output[offset + i] := NO_ROWS.(isUnique := maintainUnique && c.isUnique);
        } else if rowIds.Some? {
          var out;
          StillThere(cs, i, rowIds.value, prev, old(freed), freed, locked);
          out, prev, next := Compose(c, rowIds.value, maintainUnique, prev, next, mem);
          WrittenAs(c, mem, count, rowIds, maintainUnique, out, arrays);
          output[offset + i] := out;
        } else {
          output[offset + i] := c.(rowIds := None, rowIdCount := count, isUnique := maintainUnique && c.isUnique);
        }
        if count == 0 || rowIds.None? {
          WrittenAs(c, mem, count, rowIds, maintainUnique, output[offset + i], arrays);
        }
        OneMoreWritten(cs, i, mem, count, rowIds, maintainUnique, outs, before, output[offset + i], arrays);
        outs := outs + [output[offset + i]];
      }
      assert cs[..|columns|] == cs && output[offset..offset + |columns|] == outs;
      if count > 0 && rowIds.Some? {
        MemoDistinct(prev, next, mem, ids, arrays);
        CountLate(prev, cs);
      }
    }

    // HandleMaterializeRowIDsLHS: the given columns of `input` are the first of `output`.
    method HandleMaterializeRowIDsLHS(input: seq<Column>, output: array<Column>, columns: seq<nat>, count: nat,
                                      rowIds: Option<Ptr>, maintainUnique: bool)
      requires (forall k :: 0 <= k < |columns| ==> columns[k] < |input|) && |columns| <= output.Length
      requires forall c <- Chosen(input, columns) :: c.Valid(arrays)
      requires rowIds.Some? ==> rowIds.value < |arrays| && |arrays[rowIds.value]| == count
      requires rowIds.Some? ==> forall c <- Chosen(input, columns) :: c.Selects(arrays[rowIds.value], arrays)
      requires Tracked() && (count > 0 && rowIds.Some? ==> Composable(Chosen(input, columns), rowIds.value))
      modifies this`arrays, this`freed, output
      ensures old(arrays) <= arrays && Tracked()
      ensures AllWritten(Chosen(input, columns), old(arrays), count, rowIds, maintainUnique, output[..|columns|], arrays)
      ensures forall i :: |columns| <= i < output.Length ==> output[i] == old(output[i])
      ensures |arrays| == |old(arrays)| + if count > 0 && rowIds.Some? then |LateArrays(Chosen(input, columns))| else 0
      ensures freed == old(freed) + if count > 0 && rowIds.Some? then LateArrays(Chosen(input, columns)) - locked else {}
      ensures NewArrays(output[..|columns|], rowIds, |old(arrays)|)
    {
      HandleMaterializeRowIDsRHS(input, output, columns, 0, count, rowIds, maintainUnique);
    }

    // HandleMaterializeRowIDs: all columns of `input`, in place.
    method HandleMaterializeRowIDs(input: seq<Column>, output: array<Column>, count: nat, rowIds: Option<Ptr>, maintainUnique: bool)
      requires |input| <= output.Length && forall c <- input :: c.Valid(arrays)
      requires rowIds.Some? ==> rowIds.value < |arrays| && |arrays[rowIds.value]| == count
      requires rowIds.Some? ==> forall c <- input :: c.Selects(arrays[rowIds.value], arrays)
      requires Tracked() && (count > 0 && rowIds.Some? ==> Composable(input, rowIds.value))
      modifies this`arrays, this`freed, output
      ensures old(arrays) <= arrays && Tracked()
      ensures AllWritten(input, old(arrays), count, rowIds, maintainUnique, output[..|input|], arrays)
      ensures forall i :: |input| <= i < output.Length ==> output[i] == old(output[i])
      ensures |arrays| == |old(arrays)| + if count > 0 && rowIds.Some? then |LateArrays(input)| else 0
      ensures freed == old(freed) + if count > 0 && rowIds.Some? then LateArrays(input) - locked else {}
      ensures NewArrays(output[..|input|], rowIds, |old(arrays)|)
    {
      var columns := seq(|input|, i => i);
      assert Chosen(input, columns) == input;
      HandleMaterializeRowIDsRHS(input, output, columns, 0, count, rowIds, maintainUnique);
    }
  }
}

/** The nested-loop join: it keeps its build side with its row ids, composes both sides with the pairs
    of rows that match, and loses the build side's row ids by that. */
module NestedLoopJoins {
  import opened Options
  import opened Plans
  import opened Comparisons
  import opened JoinConditions
  import opened LateMaterialization
  import opened HashJoins

  /** The kernel for 64-bit keys leaves out two comparisons; other keys go to the library. */
  predicate WithinKernel(cs: seq<Condition>, wide: bool)
    ensures WithinKernel(cs, wide) <==>
            !wide || forall c <- cs :: c.comparison in {Equal, NotDistinctFrom, NotEqual, DistinctFrom, Less, Greater}
  {
    wide ==> forall c <- cs :: !c.comparison.LessEqual? && !c.comparison.GreaterEqual?
  }

  lemma UnlockedLost(cs: seq<Column>, freed: set<Ptr>, locked: set<Ptr>)
    requires LateArrays(cs) - locked <= freed
    ensures !(LateArrays(cs) <= locked) ==> !Readable(cs, freed)
  {
    if p :| p in LateArrays(cs) && p !in locked {
      var c :| c in cs && c.rowIds == Some(p);
      var k :| 0 <= k < |cs| && cs[k] == c;
      assert !cs[k].Live(freed);
    }
  }

  class NestedLoopJoin {
    const joinType: JoinType
    const conditions: seq<Condition>
    const rightTempData: array<Column>

    constructor (joinType: JoinType, cond: seq<Condition>, rightCount: nat)
      ensures this.joinType == joinType && conditions == Equalities(cond) + Backwards(Others(cond))
      ensures rightTempData.Length == rightCount && fresh(rightTempData)
    {
      var placed := new Condition[|cond|](_ => Condition(0, Equal, None));
      PlaceConditions(cond, placed);
      this.joinType := joinType;
      conditions := placed[..];
      rightTempData := new Column[rightCount](_ => NO_ROWS);
    }

    // Sink: all columns of the build side, with their row ids; the flags are not kept.
    method Sink(input: seq<Column>)
      requires |input| == rightTempData.Length
      modifies rightTempData
      ensures forall i :: 0 <= i < |input| ==> rightTempData[i] == input[i].(isUnique := false)
    {
      for i := 0 to |input|
        invariant forall k :: 0 <= k < i ==> rightTempData[k] == input[k].(isUnique := false)
      {
        rightTempData[i] := input[i].(isUnique := false);
      }
    }

    predicate Accepts(wide: bool) {
      joinType.Inner? && conditions != [] && WithinKernel(conditions, wide)
    }

    /** Some key of the build side is read through an array that was freed. */
    predicate KeysLost(freed: set<Ptr>)
      reads rightTempData
    {
      !KeysLive(conditions, rightTempData[..], freed)
    }

    /** The arrays of the probe side, which are freed before the build side is read. */
    function SpentLeft(input: seq<Column>, matches: nat): set<Ptr> {
      if matches == 0 then {} else LateArrays(input)
    }

    /** What the join reads of its build side is not there any more. */
    ghost predicate Lost(device: Device, input: seq<Column>, matches: nat)
      reads device, rightTempData
    {
      || KeysLost(device.freed)
      || (matches > 0 && !Readable(rightTempData[..], device.freed + (SpentLeft(input, matches) - device.locked)))
    }

    ghost predicate PairsFit(input: seq<Column>, mem: Arrays, leftIds: seq<nat>, rightIds: seq<nat>)
      reads rightTempData
    {
      && |leftIds| == |rightIds| && Selectable(input, mem, leftIds) && Selectable(rightTempData[..], mem, rightIds)
      && ProbesValid(conditions, input, mem) && KeysValid(conditions, rightTempData[..], mem)
    }

    // Execute, for the pairs of rows that the kernel returned. The arrays of both sides are composed and
    // freed, those of the build side although the join keeps them.
    method Execute(device: Device, input: seq<Column>, leftIds: seq<nat>, rightIds: seq<nat>, wide: bool, output: array<Column>)
      returns (result: JoinResult)
      requires PairsFit(input, device.arrays, leftIds, rightIds) && output != rightTempData
      requires output.Length == |input| + rightTempData.Length
      requires device.Tracked() && Readable(input, device.freed)
      modifies device`arrays, device`freed, output
      ensures old(device.arrays) <= device.arrays && device.Tracked()
      ensures result.Unsupported? <==> !Accepts(wide)
      ensures result.Unsupported? ==> device.arrays == old(device.arrays) && device.freed == old(device.freed)
      ensures result.NotFound? <==> Accepts(wide) && old(Lost(device, input, |leftIds|))
      ensures result.Done? ==>
                && AllSelected(input, old(device.arrays), leftIds, output[..|input|], device.arrays, false)
                && AllSelected(rightTempData[..], old(device.arrays), rightIds, output[|input|..], device.arrays, false)
                && ArraysFrom(output[..], |old(device.arrays)|)
      ensures result.Done? ==>
                device.freed == old(device.freed)
                  + if |leftIds| > 0 then LateArrays(input) + LateArrays(rightTempData[..]) - device.locked else {}
      // after matches nothing late is left of the build side, unless it is locked
      ensures result.Done? && |leftIds| > 0 && !(LateArrays(rightTempData[..]) <= device.locked) ==>
                !Readable(rightTempData[..], device.freed)
    {
      hide Column.Valid, Column.Selects, Column.Rows, Selectable, AllSelected, LateArrays, Readable, ArraysFrom, Materialize;
      hide KeysLive;
      if !joinType.Inner? || |conditions| == 0 {
        return Unsupported;
      }
      if !WithinKernel(conditions, wide) {
        return Unsupported;
      }
      if !KeysLive(conditions, rightTempData[..], device.freed) {
        return NotFound;
      }
      MaterializeKeys(device, input);
      ghost var mem, right := device.arrays, rightTempData[..];
      WriteSide(device, input, leftIds, 0, output);
      ghost var written, mem1 := output[..|input|], device.arrays;
      if |leftIds| > 0 {
        if !Readable(rightTempData[..], device.freed) {
          return NotFound;
        }
      }
      StillSelectable(right, mem, rightIds, mem1);
      WriteSide(device, rightTempData[..], rightIds, |input|, output);
      assert output[..|input|] == written;
      assert output[|input|..|input| + |right|] == output[|input|..];
      SelectedPersists(input, mem, leftIds, written, mem1, false, device.arrays);
      SelectedSince(right, mem, mem1, rightIds, output[|input|..], device.arrays, false);
      BothFrom(written, output[|input|..], |mem|, |mem1|);
      assert output[..] == written + output[|input|..];
      if |leftIds| > 0 {
        UnlockedLost(right, device.freed, device.locked);
      }
      return Done;
    }

    // Both sides' keys; none of this frees row ids.
    method MaterializeKeys(device: Device, input: seq<Column>)
      requires ProbesValid(conditions, input, device.arrays) && KeysValid(conditions, rightTempData[..], device.arrays)
      requires Readable(input, device.freed) && KeysLive(conditions, rightTempData[..], device.freed)
    {
      for c := 0 to |conditions| {
        var left := device.MaterializeExpression(input[conditions[c].left]);
      }
      for c := 0 to |conditions| {
        var right := device.MaterializeExpression(rightTempData[..][conditions[c].right.value]);
      }
    }

    // All columns of one side at the given row ids, from `offset` on, without their flags.
    method WriteSide(device: Device, cs: seq<Column>, ids: seq<nat>, offset: nat, output: array<Column>)
      requires offset + |cs| <= output.Length && Selectable(cs, device.arrays, ids)
      requires device.Tracked() && (|ids| > 0 ==> Readable(cs, device.freed))
      modifies device`arrays, device`freed, output
      ensures old(device.arrays) <= device.arrays && device.Tracked()
      ensures AllSelected(cs, old(device.arrays), ids, output[offset..offset + |cs|], device.arrays, false)
      ensures forall i :: 0 <= i < output.Length && !(offset <= i < offset + |cs|) ==> output[i] == old(output[i])
      ensures device.freed == old(device.freed) + if |ids| > 0 then LateArrays(cs) - device.locked else {}
      ensures ArraysFrom(output[offset..offset + |cs|], |old(device.arrays)|)
    {
      hide Column.Valid, Column.Selects, Column.Rows, Selectable, AllSelected, AllWritten, LateArrays, Readable;
      var columns := seq(|cs|, i => i);
      assert Chosen(cs, columns) == cs;
      ghost var mem := device.arrays;
      NewIsNone(cs, mem, ids);
      var p := device.Alloc(ids);
      ghost var now := device.arrays;
      StillSelectable(cs, mem, ids, now);
      device.HandleMaterializeRowIDsRHS(cs, output, columns, offset, |ids|, Some(p), false);
      AllWrittenSelects(cs, mem, ids, now, p, false, output[offset..offset + |cs|], device.arrays);
    }
  }

  /** The join misses a key column, or, if there are matches, any column of its build side that is read
      through an array that was freed before, or that the probe side had and freed now. */
  lemma LostIff(join: NestedLoopJoin, device: Device, input: seq<Column>, matches: nat)
    requires forall c <- join.conditions :: c.right.Some? && c.right.value < join.rightTempData.Length
    ensures join.Lost(device, input, matches) <==>
            || (exists c <- join.conditions ::
                  join.rightTempData[c.right.value].rowIds.Some? && join.rightTempData[c.right.value].rowIds.value in device.freed)
            || (matches > 0 &&
                exists k :: 0 <= k < join.rightTempData.Length && join.rightTempData[k].rowIds.Some? &&
                            var p := join.rightTempData[k].rowIds.value;
                            p in device.freed || (p !in device.locked && exists c <- input :: c.rowIds == Some(p)))
  {
    assert join.rightTempData[..] == join.rightTempData[..join.rightTempData.Length];
    if join.KeysLost(device.freed) {
      var i :| 0 <= i < |join.conditions| && !join.rightTempData[..][join.conditions[i].right.value].Live(device.freed);
      assert join.conditions[i] in join.conditions && !join.rightTempData[join.conditions[i].right.value].Live(device.freed);
    } else {
      forall c | c in join.conditions
        ensures join.rightTempData[c.right.value].Live(device.freed)
      {
        var i :| 0 <= i < |join.conditions| && join.conditions[i] == c;
        assert join.rightTempData[..][join.conditions[i].right.value].Live(device.freed);
      }
    }
    var freed := device.freed + (join.SpentLeft(input, matches) - device.locked);
    if matches > 0 {
      assert Readable(join.rightTempData[..], freed) <==>
             forall k :: 0 <= k < join.rightTempData.Length ==> join.rightTempData[k].Live(freed) by {
        assert forall k :: 0 <= k < join.rightTempData.Length ==> join.rightTempData[..][k] == join.rightTempData[k];
      }
    }
  }

  /** Over an equality the nested-loop join runs the types that pipelines count as implemented. */
  lemma LoopOverEquality(join: NestedLoopJoin, wide: bool)
    requires |join.conditions| == 1 && join.conditions[0].comparison.IsEquality()
    ensures join.Accepts(wide) <==> join.joinType == Inner
    ensures NestedLoop(join.joinType).Supported() <==> join.joinType == Inner
  {
  }
}

/** Aggregate planning: expressions inside groups and aggregates move into a projection below and
    leave references behind; and how the ungrouped aggregate finds its arguments again. */
module Aggregates {
  import opened Options
  import opened Expressions

  /** `sorted`: the arguments are to be ordered first. */
  datatype Aggregate = Aggregate(children: seq<Expr>, filter: Option<Expr>, isDistinct: bool, sorted: bool)

  /** How many expressions an aggregate moves into the projection. */
  function Width(a: Aggregate): nat {
    |a.children| + if a.filter.Some? then 1 else 0
  }

  function StartOf(aggregates: seq<Aggregate>, groups: nat, k: nat): nat
    requires k <= |aggregates|
  {
    if k == 0 then groups else StartOf(aggregates, groups, k - 1) + Width(aggregates[k - 1])
  }

  /** `ref` stands for the projected expression that `original` became. */
  predicate RefersTo(ref: Expr, original: Expr, index: nat, projected: seq<Expr>) {
    ref == Reference(index) && index < |projected| && projected[index] == original
  }

  /** `after` is `before` with references in the place of its expressions, from `start` on. */
  predicate Rewritten(before: Aggregate, after: Aggregate, start: nat, projected: seq<Expr>) {
    && |after.children| == |before.children| && after.isDistinct == before.isDistinct && after.sorted == before.sorted
    && (forall i :: 0 <= i < |before.children| ==> RefersTo(after.children[i], before.children[i], start + i, projected))
    && after.filter.Some? == before.filter.Some?
    && (before.filter.Some? ==> RefersTo(after.filter.value, before.filter.value, start + |before.children|, projected))
  }

  lemma RewrittenStays(before: Aggregate, after: Aggregate, start: nat, projected: seq<Expr>, more: seq<Expr>)
    requires Rewritten(before, after, start, projected) && projected <= more
    ensures Rewritten(before, after, start, more)
  {
  }

  // One aggregate of the loop below.
  method ExtractOne(a: Aggregate, expressions: seq<Expr>) returns (after: Aggregate, all: seq<Expr>)
    ensures expressions <= all && |all| == |expressions| + Width(a) && Rewritten(a, after, |expressions|, all)
  {
    all := expressions;
    var refs: seq<Expr> := [];
    for i := 0 to |a.children|
      invariant expressions <= all && |all| == |expressions| + i && |refs| == i
      invariant forall k :: 0 <= k < i ==> RefersTo(refs[k], a.children[k], |expressions| + k, all)
    {
      refs := refs + [Reference(|all|)];
      all := all + [a.children[i]];
    }
    after := a.(children := refs);
    if a.filter.Some? {
      after := after.(filter := Some(Reference(|all|)));
      all := all + [a.filter.value];
    }
  }

  predicate GroupsMoved(before: seq<Expr>, after: seq<Expr>, projected: seq<Expr>) {
    |after| == |before| && forall g :: 0 <= g < |before| ==> RefersTo(after[g], before[g], g, projected)
  }

  /** The first `n` aggregates are rewritten, the others are as they were. */
  predicate AggregatesMoved(before: seq<Aggregate>, after: seq<Aggregate>, groups: nat, n: nat, projected: seq<Expr>) {
    && |after| == |before| && n <= |before|
    && (forall k :: 0 <= k < n ==> Rewritten(before[k], after[k], StartOf(before, groups, k), projected))
    && (forall k :: n <= k < |before| ==> after[k] == before[k])
  }

  lemma {:induction false} OneMoreMoved(before: seq<Aggregate>, after: seq<Aggregate>, groups: nat, n: nat, projected: seq<Expr>,
                                        a: Aggregate, more: seq<Expr>)
    requires AggregatesMoved(before, after, groups, n, projected) && n < |before| && projected <= more
    requires Rewritten(before[n], a, StartOf(before, groups, n), more)
    ensures AggregatesMoved(before, after[n := a], groups, n + 1, more)
  {
    hide Rewritten, StartOf;
    forall k | 0 <= k < n
      ensures Rewritten(before[k], after[n := a][k], StartOf(before, groups, k), more)
    {
      RewrittenStays(before[k], after[k], StartOf(before, groups, k), projected, more);
    }
  }

  method ExtractGroups(groups: array<Expr>) returns (expressions: seq<Expr>)
    modifies groups
    ensures expressions == old(groups[..]) && GroupsMoved(old(groups[..]), groups[..], expressions)
  {
    expressions := [];
    for g := 0 to groups.Length
      invariant expressions == old(groups[..g])
      invariant forall k :: 0 <= k < g ==> groups[k] == Reference(k)
      invariant forall k :: g <= k < groups.Length ==> groups[k] == old(groups[k])
    {
      var ref := Reference(|expressions|);
      expressions := expressions + [groups[g]];
      groups[g] := ref;
    }
  }

  method ExtractAggregates(aggregates: array<Aggregate>, expressions: seq<Expr>) returns (all: seq<Expr>)
    modifies aggregates
    ensures expressions <= all && |all| == StartOf(old(aggregates[..]), |expressions|, aggregates.Length)
    ensures AggregatesMoved(old(aggregates[..]), aggregates[..], |expressions|, aggregates.Length, all)
  {
    hide Rewritten, AggregatesMoved;
    ghost var before, groups := aggregates[..], |expressions|;
    all := expressions;
    NoneMoved(before, groups, all);
    for a := 0 to aggregates.Length
      invariant expressions <= all && |all| == StartOf(before, groups, a)
      invariant aggregates[a..] == before[a..] && AggregatesMoved(before, aggregates[..], groups, a, all)
    {
      ghost var now, projected := aggregates[..], all;
      assert aggregates[a] == before[a] by { assert aggregates[a..][0] == before[a..][0]; }
      var after;
      after, all := ExtractOne(aggregates[a], all);
      OneMoreMoved(before, now, groups, a, projected, after, all);
      aggregates[a] := after;
      assert aggregates[..] == now[a := after];
      assert aggregates[a + 1..] == now[a..][1..];
    }
  }

  lemma NoneMoved(before: seq<Aggregate>, groups: nat, projected: seq<Expr>)
    ensures AggregatesMoved(before, before, groups, 0, projected)
  {
  }

  lemma GroupsStayMoved(before: seq<Expr>, after: seq<Expr>, projected: seq<Expr>, more: seq<Expr>)
    requires GroupsMoved(before, after, projected) && projected <= more
    ensures GroupsMoved(before, after, more)
  {
  }

  /** Sorted aggregates, which `bind` turns into ones that sort by themselves. */
  function Bound(aggregates: seq<Aggregate>, groups: seq<Expr>, bind: (Aggregate, seq<Expr>) -> Aggregate): (r: seq<Aggregate>)
    ensures |r| == |aggregates|
    ensures forall k :: 0 <= k < |r| && !aggregates[k].sorted ==> r[k] == aggregates[k]
  {
    seq(|aggregates|, k requires 0 <= k < |aggregates| =>
      if aggregates[k].sorted then bind(aggregates[k], groups) else aggregates[k])
  }

  method BindSorted(aggregates: array<Aggregate>, groups: seq<Expr>, bind: (Aggregate, seq<Expr>) -> Aggregate)
    modifies aggregates
    ensures aggregates[..] == Bound(old(aggregates[..]), groups, bind)
  {
    for k := 0 to aggregates.Length
      invariant forall j :: 0 <= j < k ==> aggregates[j] == Bound(old(aggregates[..]), groups, bind)[j]
      invariant forall j :: k <= j < aggregates.Length ==> aggregates[j] == old(aggregates[j])
    {
      if aggregates[k].sorted {
        aggregates[k] := bind(aggregates[k], groups);
      }
    }
  }

  // ExtractAggregateExpressions; no projection is made when there is nothing to compute.
  method ExtractAggregateExpressions(aggregates: array<Aggregate>, groups: array<Expr>, bind: (Aggregate, seq<Expr>) -> Aggregate)
    returns (projection: Option<seq<Expr>>)
    modifies aggregates, groups
    ensures var bound := Bound(old(aggregates[..]), old(groups[..]), bind);
            && (projection.Some? <==> StartOf(bound, groups.Length, |bound|) > 0)
            && (projection.None? ==> groups[..] == old(groups[..]) && aggregates[..] == bound)
            && (projection.Some? ==>
                  && |projection.value| == StartOf(bound, groups.Length, |bound|)
                  && GroupsMoved(old(groups[..]), groups[..], projection.value)
                  && AggregatesMoved(bound, aggregates[..], groups.Length, |bound|, projection.value))
  {
    hide AggregatesMoved, StartOf, Bound;
    ghost var gs0 := groups[..];
    BindSorted(aggregates, groups[..], bind);
    ghost var bound := aggregates[..];
    var expressions := ExtractGroups(groups);
    assert aggregates[..] == bound;
    var all := ExtractAggregates(aggregates, expressions);
    GroupsStayMoved(gs0, groups[..], expressions, all);
    if |all| == 0 {
      NothingMoved(bound, groups.Length, aggregates.Length);
      NothingRewritten(bound, aggregates[..], groups.Length, all);
      return None;
    }
    projection := Some(all);
  }

  lemma {:induction false} NothingMoved(aggregates: seq<Aggregate>, groups: nat, k: nat)
    requires k <= |aggregates| && StartOf(aggregates, groups, k) == 0
    ensures groups == 0 && forall j :: 0 <= j < k ==> Width(aggregates[j]) == 0
  {
    if k > 0 {
      NothingMoved(aggregates, groups, k - 1);
    }
  }

  lemma {:induction false} NothingRewritten(before: seq<Aggregate>, after: seq<Aggregate>, groups: nat, projected: seq<Expr>)
    requires AggregatesMoved(before, after, groups, |before|, projected) && forall k :: 0 <= k < |before| ==> Width(before[k]) == 0
    ensures after == before
  {
    forall k | 0 <= k < |before|
      ensures after[k] == before[k]
    {
      assert Width(before[k]) == 0 && Rewritten(before[k], after[k], StartOf(before, groups, k), projected);
    }
  }

  // -------------------------------------------------------------------------------------------
  // Meaning
  // -------------------------------------------------------------------------------------------

  /** The row that the projection hands up. */
  function Projected(projected: seq<Expr>, row: Row): (r: Row)
    ensures |r| == |projected|
  {
    seq(|projected|, k requires 0 <= k < |projected| => Value(projected[k], row))
  }

  /** Arguments and filter have, on the projected row, the values they had on the input row. */
  predicate SameValues(before: Aggregate, after: Aggregate, projected: seq<Expr>, row: Row) {
    && |after.children| == |before.children| && after.filter.Some? == before.filter.Some?
    && (forall i :: 0 <= i < |before.children| ==>
          Value(after.children[i], Projected(projected, row)) == Value(before.children[i], row))
    && (before.filter.Some? ==> Value(after.filter.value, Projected(projected, row)) == Value(before.filter.value, row))
  }

  lemma {:induction false} RewrittenMeansSame(before: Aggregate, after: Aggregate, start: nat, projected: seq<Expr>, row: Row)
    requires Rewritten(before, after, start, projected)
    ensures SameValues(before, after, projected, row)
  {
    forall i | 0 <= i < |before.children|
      ensures Value(after.children[i], Projected(projected, row)) == Value(before.children[i], row)
    {
      assert RefersTo(after.children[i], before.children[i], start + i, projected);
    }
  }

  /** Extraction keeps the meaning of all groups, arguments and filters, on every row. */
  lemma {:induction false} ExtractionMeansSame(groups: seq<Expr>, groups': seq<Expr>, aggregates: seq<Aggregate>,
                                               aggregates': seq<Aggregate>, projected: seq<Expr>, row: Row)
    requires GroupsMoved(groups, groups', projected)
    requires AggregatesMoved(aggregates, aggregates', |groups|, |aggregates|, projected)
    ensures forall g :: 0 <= g < |groups| ==> Value(groups'[g], Projected(projected, row)) == Value(groups[g], row)
    ensures forall k :: 0 <= k < |aggregates| ==> SameValues(aggregates[k], aggregates'[k], projected, row)
  {
    forall g | 0 <= g < |groups|
      ensures Value(groups'[g], Projected(projected, row)) == Value(groups[g], row)
    {
      assert RefersTo(groups'[g], groups[g], g, projected);
    }
    forall k | 0 <= k < |aggregates|
      ensures SameValues(aggregates[k], aggregates'[k], projected, row)
    {
      RewrittenMeansSame(aggregates[k], aggregates'[k], StartOf(aggregates, |groups|, k), projected, row);
    }
  }

  // -------------------------------------------------------------------------------------------
  // Ungrouped aggregates
  // -------------------------------------------------------------------------------------------

  function ArgumentsBefore(aggregates: seq<Aggregate>, k: nat): nat
    requires k <= |aggregates|
  {
    if k == 0 then 0 else ArgumentsBefore(aggregates, k - 1) + |aggregates[k - 1].children|
  }

  /** What an aggregate is computed on: an input column, or no column at all. */
  datatype Reading = Unset | Star | Column(index: nat)

  /** All arguments are references, as extraction leaves them. */
  predicate Extracted(aggregates: seq<Aggregate>) {
    forall k, i :: 0 <= k < |aggregates| && 0 <= i < |aggregates[k].children| ==> aggregates[k].children[i].Reference?
  }

  /** One of the first `n` arguments is column `c`. */
  predicate Mentions(arguments: seq<Expr>, n: nat, c: nat)
    requires n <= |arguments|
  {
    exists i :: 0 <= i < n && arguments[i] == Reference(c)
  }

  /** Some distinct aggregate among the first `n` refers to column `c`. */
  predicate ReadDistinct(aggregates: seq<Aggregate>, n: nat, c: nat)
    requires n <= |aggregates|
  {
    exists k :: 0 <= k < n && aggregates[k].isDistinct && Mentions(aggregates[k].children, |aggregates[k].children|, c)
  }

  /** What aggregate `k` gets. The argument of a distinct aggregate goes to the aggregate whose index
      is that of the column. */
  ghost predicate Gets(aggregates: seq<Aggregate>, k: nat, reading: Reading)
    requires k < |aggregates|
  {
    reading == if aggregates[k].children == [] then Star
               else if !aggregates[k].isDistinct then Column(ArgumentsBefore(aggregates, k))
               else if ReadDistinct(aggregates, |aggregates|, k) then Column(k)
               else Unset
  }

  /** The first `n` arguments have a slot and a column. */
  predicate Placeable(arguments: seq<Expr>, n: nat, slots: nat, columns: nat)
    requires n <= |arguments|
  {
    forall i :: 0 <= i < n && arguments[i].Reference? ==> arguments[i].index < slots && arguments[i].index < columns
  }

  /** The slots of the columns that the first `n` arguments refer to, and no others, were set to these. */
  predicate Placed(slots: seq<Reading>, after: seq<Reading>, arguments: seq<Expr>, n: nat)
    requires n <= |arguments|
  {
    |after| == |slots| &&
    forall c :: 0 <= c < |slots| ==> after[c] == if Mentions(arguments, n, c) then Column(c) else slots[c]
  }

  lemma PlacedStep(slots: seq<Reading>, after: seq<Reading>, arguments: seq<Expr>, i: nat)
    requires i < |arguments| && arguments[i].Reference? && arguments[i].index < |slots| && Placed(slots, after, arguments, i)
    ensures Placed(slots, after[arguments[i].index := Column(arguments[i].index)], arguments, i + 1)
  {
    hide Mentions;
    OneMoreArgument(arguments, i, |slots|, 0);
  }

  lemma NoArgument(arguments: seq<Expr>, slots: seq<Reading>, columns: nat)
    ensures Placeable(arguments, 0, |slots|, columns) && Placed(slots, slots, arguments, 0)
  {
  }

  lemma OneMoreArgument(arguments: seq<Expr>, i: nat, slots: nat, columns: nat)
    requires i < |arguments| && arguments[i].Reference?
    ensures Placeable(arguments, i + 1, slots, columns) <==>
            Placeable(arguments, i, slots, columns) && arguments[i].index < slots && arguments[i].index < columns
    ensures Placeable(arguments, |arguments|, slots, columns) ==> Placeable(arguments, i + 1, slots, columns)
    ensures forall c :: Mentions(arguments, i + 1, c) <==> arguments[i] == Reference(c) || Mentions(arguments, i, c)
  {
  }

  // The arguments of one distinct aggregate; None when there is no such slot or column.
  method PlaceDistinctOne(a: Aggregate, slots: seq<Reading>, columns: nat) returns (after: Option<seq<Reading>>)
    requires forall i :: 0 <= i < |a.children| ==> a.children[i].Reference?
    ensures after.None? <==> !Placeable(a.children, |a.children|, |slots|, columns)
    ensures after.Some? ==> Placed(slots, after.value, a.children, |a.children|)
  {
    hide Mentions, Placeable, Placed;
    var result := slots;
    NoArgument(a.children, slots, columns);
    for i := 0 to |a.children|
      invariant |result| == |slots| && Placed(slots, result, a.children, i) && Placeable(a.children, i, |slots|, columns)
    {
      var index := a.children[i].index;
      OneMoreArgument(a.children, i, |slots|, columns);
      if |slots| <= index || columns <= index {
        return None;
      }
      PlacedStep(slots, result, a.children, i);
      result := result[index := Column(index)];
    }
    after := Some(result);
  }

  /** An argument of a distinct aggregate has no slot or no column. */
  predicate OutOfRange(a: Aggregate, slots: nat, columns: nat) {
    a.isDistinct && !Placeable(a.children, |a.children|, slots, columns)
  }

  // MaterializeDistinctInput
  method PlaceDistinct(aggregates: seq<Aggregate>, columns: nat) returns (slots: Option<seq<Reading>>)
    requires Extracted(aggregates)
    ensures slots.None? <==> exists k :: 0 <= k < |aggregates| && OutOfRange(aggregates[k], |aggregates|, columns)
    ensures slots.Some? ==>
              && |slots.value| == |aggregates|
              && forall c: nat :: c < |aggregates| ==>
                   slots.value[c] == if ReadDistinct(aggregates, |aggregates|, c) then Column(c) else Unset
  {
    var result := seq(|aggregates|, _ => Unset);
    for k := 0 to |aggregates|
      invariant |result| == |aggregates|
      invariant forall j :: 0 <= j < k ==> !OutOfRange(aggregates[j], |aggregates|, columns)
      invariant forall c: nat :: c < |aggregates| ==> result[c] == if ReadDistinct(aggregates, k, c) then Column(c) else Unset
    {
      OneMoreDistinct(aggregates, k);
      if aggregates[k].isDistinct {
        var after := PlaceDistinctOne(aggregates[k], result, columns);
        if after.None? {
          assert OutOfRange(aggregates[k], |aggregates|, columns);
          return None;
        }
        assert !OutOfRange(aggregates[k], |aggregates|, columns);
        result := after.value;
      }
    }
    slots := Some(result);
  }

  lemma OneMoreDistinct(aggregates: seq<Aggregate>, k: nat)
    requires k < |aggregates|
    ensures forall c :: ReadDistinct(aggregates, k + 1, c) <==>
              || ReadDistinct(aggregates, k, c)
              || (aggregates[k].isDistinct && Mentions(aggregates[k].children, |aggregates[k].children|, c))
  {
  }

  /** Several arguments, or one that no column is left for. */
  predicate Unreadable(aggregates: seq<Aggregate>, k: nat, columns: nat)
    requires k < |aggregates|
  {
    && !aggregates[k].isDistinct
    && (|aggregates[k].children| > 1 || (|aggregates[k].children| == 1 && columns <= ArgumentsBefore(aggregates, k)))
  }

  // The arguments of one aggregate that is not distinct; None when they cannot be read.
  method PlacePayload(a: Aggregate, k: nat, payloadIdx: nat, slots: seq<Reading>, columns: nat) returns (after: Option<seq<Reading>>)
    requires k < |slots|
    ensures after.None? <==> |a.children| > 1 || (|a.children| == 1 && columns <= payloadIdx)
    ensures after.Some? ==> after.value == if a.children == [] then slots else slots[k := Column(payloadIdx)]
  {
    if |a.children| > 1 {
      return None;
    }
    var result, payloadCnt := slots, 0;
    for i := 0 to |a.children|
      invariant payloadCnt == i && result == if i == 0 then slots else slots[k := Column(payloadIdx)]
      invariant i > 0 ==> payloadIdx < columns
    {
      if columns <= payloadIdx + payloadCnt {
        return None;
      }
      result := result[k := Column(payloadIdx + payloadCnt)];
      payloadCnt := payloadCnt + 1;
    }
    after := Some(result);
  }

  // COUNT(*) is passed the row count only.
  method PlaceStars(aggregates: seq<Aggregate>, slots: seq<Reading>) returns (after: seq<Reading>)
    requires |slots| == |aggregates|
    ensures |after| == |slots|
    ensures forall k :: 0 <= k < |slots| ==> after[k] == if aggregates[k].children == [] then Star else slots[k]
  {
    after := slots;
    for k := 0 to |aggregates|
      invariant |after| == |slots|
      invariant forall j :: 0 <= j < |slots| ==> after[j] == if j < k && aggregates[j].children == [] then Star else slots[j]
    {
      if |aggregates[k].children| == 0 {
        after := after[k := Star];
      }
    }
  }

  lemma Expected(aggregates: seq<Aggregate>, k: nat, columns: nat)
    requires k < |aggregates|
    ensures ArgumentsBefore(aggregates, k + 1) == ArgumentsBefore(aggregates, k) + |aggregates[k].children|
    ensures aggregates[k].children == [] ==> Gets(aggregates, k, Star)
    ensures aggregates[k].children != [] ==>
              Gets(aggregates, k, if !aggregates[k].isDistinct then Column(ArgumentsBefore(aggregates, k))
                                  else if ReadDistinct(aggregates, |aggregates|, k) then Column(k) else Unset)
    ensures Unreadable(aggregates, k, columns) <==>
            !aggregates[k].isDistinct &&
            (|aggregates[k].children| > 1 || (|aggregates[k].children| == 1 && columns <= ArgumentsBefore(aggregates, k)))
  {
  }

  // The argument loops of Sink, with their running payload index; None when an argument cannot be
  // read.
  method ReadArguments(aggregates: seq<Aggregate>, columns: nat) returns (readings: Option<seq<Reading>>)
    requires Extracted(aggregates)
    ensures readings.None? <==>
            exists k :: 0 <= k < |aggregates| &&
              (OutOfRange(aggregates[k], |aggregates|, columns) || Unreadable(aggregates, k, columns))
    ensures readings.Some? ==>
              && |readings.value| == |aggregates|
              && forall k :: 0 <= k < |aggregates| ==> Gets(aggregates, k, readings.value[k])
  {
    hide ReadDistinct, OutOfRange, Extracted, Gets, Unreadable;
    var placed := PlaceDistinct(aggregates, columns);
    if placed.None? {
      return None;
    }
    var slots := placed.value;
    var payloadIdx, nextPayloadIdx := 0, 0;
    for k := 0 to |aggregates|
      invariant |slots| == |aggregates| && nextPayloadIdx == ArgumentsBefore(aggregates, k)
      invariant forall j :: 0 <= j < k ==> !Unreadable(aggregates, j, columns)
      invariant forall j :: 0 <= j < k && aggregates[j].children != [] ==> Gets(aggregates, j, slots[j])
      invariant forall j :: k <= j < |aggregates| ==> slots[j] == placed.value[j]
    {
      Expected(aggregates, k, columns);
      payloadIdx := nextPayloadIdx;
      nextPayloadIdx := payloadIdx + |aggregates[k].children|;
      if !aggregates[k].isDistinct {
        var after := PlacePayload(aggregates[k], k, payloadIdx, slots, columns);
        if after.None? {
          return None;
        }
        slots := after.value;
      }
    }
    slots := PlaceStars(aggregates, slots);
    forall k | 0 <= k < |aggregates|
      ensures Gets(aggregates, k, slots[k])
    {
      Expected(aggregates, k, columns);
    }
    readings := Some(slots);
  }

  lemma {:induction false} FiltersShift(aggregates: seq<Aggregate>, k: nat)
    requires k <= |aggregates|
    ensures ArgumentsBefore(aggregates, k) <= StartOf(aggregates, 0, k)
    ensures StartOf(aggregates, 0, k) == ArgumentsBefore(aggregates, k) <==>
            forall j :: 0 <= j < k ==> aggregates[j].filter.None?
  {
    if k > 0 {
      FiltersShift(aggregates, k - 1);
    }
  }

  /** After extraction without groups, an aggregate gets the column that its argument refers to if
      and only if no aggregate before it has a filter; a distinct one, if and only if the expressions
      moved before its own are as many as the aggregates before it. */
  lemma {:induction false} ReadsItsArgumentIff(before: seq<Aggregate>, after: seq<Aggregate>, k: nat, projected: seq<Expr>,
                                               reading: Reading)
    requires k < |before| && |before[k].children| == 1 && AggregatesMoved(before, after, 0, |before|, projected)
    requires Gets(after, k, reading)
    ensures Extracted(after)
    ensures reading == Column(after[k].children[0].index) <==>
            if before[k].isDistinct then StartOf(before, 0, k) == k else forall j :: 0 <= j < k ==> before[j].filter.None?
  {
    ReferencesOnly(before, after, projected);
    assert Rewritten(before[k], after[k], StartOf(before, 0, k), projected);
    assert RefersTo(after[k].children[0], before[k].children[0], StartOf(before, 0, k) + 0, projected);
    FiltersShift(before, k);
    SameArguments(before, after, k);
    if before[k].isDistinct && StartOf(before, 0, k) == k {
      assert after[k].children[0] == Reference(k) && Mentions(after[k].children, 1, k);
      assert ReadDistinct(after, |after|, k);
    }
  }

  lemma {:induction false} ReferencesOnly(before: seq<Aggregate>, after: seq<Aggregate>, projected: seq<Expr>)
    requires AggregatesMoved(before, after, 0, |before|, projected)
    ensures Extracted(after) && forall k :: 0 <= k < |before| ==> |after[k].children| == |before[k].children|
  {
    forall k, i | 0 <= k < |after| && 0 <= i < |after[k].children|
      ensures after[k].children[i].Reference?
    {
      assert Rewritten(before[k], after[k], StartOf(before, 0, k), projected);
      assert RefersTo(after[k].children[i], before[k].children[i], StartOf(before, 0, k) + i, projected);
    }
    forall k | 0 <= k < |before|
      ensures |after[k].children| == |before[k].children|
    {
      assert Rewritten(before[k], after[k], StartOf(before, 0, k), projected);
    }
  }

  lemma {:induction false} SameArguments(before: seq<Aggregate>, after: seq<Aggregate>, k: nat)
    requires k <= |before| == |after| && forall j :: 0 <= j < |before| ==> |after[j].children| == |before[j].children|
    ensures ArgumentsBefore(after, k) == ArgumentsBefore(before, k)
  {
    if k > 0 {
      SameArguments(before, after, k - 1);
    }
  }
}

/** Filters: the expression executor computes a truth column over the input, its true rows become
    the selection, and row ids are composed with it. */
module Filters {
  import opened Options
  import opened Expressions
  import opened LateMaterialization
  import opened Flows
  import opened LateFlows

  /** The rows of `col` that hold, in order. */
  function TrueRows(col: Col): (ids: seq<nat>)
    ensures Below(ids, |col|)
  {
    if col == [] then []
    else TrueRows(col[..|col| - 1]) + if col[|col| - 1] != 0 then [|col| - 1] else []
  }

  /** Exactly the true rows, each once and in order. */
  lemma {:induction false} TrueRowsAre(col: Col)
    ensures forall r :: r in TrueRows(col) <==> 0 <= r < |col| && col[r] != 0
    ensures forall a, b :: 0 <= a < b < |TrueRows(col)| ==> TrueRows(col)[a] < TrueRows(col)[b]
  {
    if col != [] {
      var front := col[..|col| - 1];
      TrueRowsAre(front);
      assert forall k :: 0 <= k < |TrueRows(front)| ==> TrueRows(front)[k] < |front|;
    }
  }

  /** Some reference in `e` is to a column without data. */
  predicate HasNullLeaf(e: Expr, input: seq<Column>) {
    match e
    case Reference(i) => i < |input| && input[i].data.None?
    case Constant(_) => false
    case Between(x, lo, hi, _, _) => HasNullLeaf(x, input) || HasNullLeaf(lo, input) || HasNullLeaf(hi, input)
    case Compare(_, l, r) => HasNullLeaf(l, input) || HasNullLeaf(r, input)
    case Conjunction(_, cs) => exists i | 0 <= i < |cs| :: HasNullLeaf(cs[i], input)
    case Not(c) => HasNullLeaf(c, input)
    case In(_, cs) => exists i | 0 <= i < |cs| :: HasNullLeaf(cs[i], input)
    case Case(checks, els) =>
      HasNullLeaf(els, input) ||
      exists i | 0 <= i < |checks| :: HasNullLeaf(checks[i].whenExpr, input) || HasNullLeaf(checks[i].thenExpr, input)
    case Error => false
  }

  function RowCount(c: Column): nat {
    if c.rowIds.None? then c.length else c.rowIdCount
  }

  /** All columns that are not null have the same count; one without data may have row ids all the
      same. */
  predicate CountsAgree(input: seq<Column>, n: nat) {
    forall i :: 0 <= i < |input| ==>
      if input[i].data.Some? then RowCount(input[i]) == n
      else RowCount(input[i]) == 0 || RowCount(input[i]) == n
  }

  /** Some column shows that it has no data. */
  predicate NullNoticed(input: seq<Column>) {
    exists i :: 0 <= i < |input| && RowCount(input[i]) == 0
  }

  /** All columns without data show it: they have no row ids. */
  predicate NullsNoticed(input: seq<Column>) {
    forall i :: 0 <= i < |input| && input[i].data.None? ==> RowCount(input[i]) == 0
  }

  /** Columns with data count their rows, and agree on the count when they are those of one relation. */
  lemma RowCountIsRows(input: seq<Column>, mem: Arrays, rows: seq<Rows>, n: nat)
    requires AllRepresent(input, mem, rows, n)
    ensures forall c <- input :: c.Valid(mem) && (!c.Absent() ==> RowCount(c) == |c.Rows(mem)| == n)
    ensures (forall c <- input :: !c.Absent()) ==> CountsAgree(input, n) && NullsNoticed(input)
  {
    forall c | c in input
      ensures c.Valid(mem) && (!c.Absent() ==> RowCount(c) == |c.Rows(mem)| == n)
    {
      var k :| 0 <= k < |input| && input[k] == c;
      assert Represents(input[k], mem, rows[k], n);
    }
  }

  // SetInputColumns: the row count, and whether some column has none.
  method SetInputColumns(input: seq<Column>) returns (count: nat, hasNull: bool)
    ensures input == [] ==> count == 1 && !hasNull
    ensures hasNull <==> NullNoticed(input)
    ensures input != [] ==> (count == 0 <==> forall i :: 0 <= i < |input| ==> RowCount(input[i]) == 0)
    ensures count > 0 && input != [] ==> exists i :: 0 <= i < |input| && RowCount(input[i]) == count
  {
    count, hasNull := 0, false;
    if |input| == 0 {
      count := 1;
    } else {
      for i := 0 to |input|
        invariant hasNull <==> exists k :: 0 <= k < i && RowCount(input[k]) == 0
        invariant count == 0 <==> forall k :: 0 <= k < i ==> RowCount(input[k]) == 0
        invariant count > 0 ==> exists k :: 0 <= k < i && RowCount(input[k]) == count
      {
        var tempCount := if input[i].rowIds.None? then input[i].length else input[i].rowIdCount;
        if tempCount > 0 {
          count := tempCount;
        } else {
          hasNull := true;
        }
      }
    }
  }

  /** The columns as the expression sees them; zeros stand for columns that it does not use. */
  function Dense(rows: seq<Rows>, n: nat): (columns: seq<Col>)
    ensures |columns| == |rows| && Shaped(columns, n)
  {
    seq(|rows|, i requires 0 <= i < |rows| => if |rows[i].values| == n then rows[i].values else seq(n, _ => 0))
  }

  /** Nothing is kept when the relation is empty, or when some column shows that it has no data and the
      expression reads one that has none. */
  predicate NothingKept(e: Expr, input: seq<Column>) {
    || (input != [] && forall i :: 0 <= i < |input| ==> RowCount(input[i]) == 0)
    || (NullNoticed(input) && HasNullLeaf(e, input))
  }

  /** The expression reads a column without data that goes unnoticed. */
  predicate ReadsUnnoticed(e: Expr, input: seq<Column>) {
    HasNullLeaf(e, input) && !NullNoticed(input)
  }

  /** Row `r` of the input satisfies what is executed for `e`. */
  predicate Satisfies(e: Expr, rows: seq<Rows>, n: nat, r: nat)
    requires r < n
  {
    Value(Executed(e), RowAt(Dense(rows, n), n, r)) != 0
  }

  /** `kept` are the rows that satisfy `e`, in order. */
  ghost predicate KeepsExactly(e: Expr, rows: seq<Rows>, n: nat, kept: seq<nat>) {
    && Below(kept, n)
    && (forall r :: 0 <= r < n ==> (r in kept <==> Satisfies(e, rows, n, r)))
    && forall a, b :: 0 <= a < b < |kept| ==> kept[a] < kept[b]
  }

  lemma BitmapKeeps(e: Expr, rows: seq<Rows>, n: nat, bitmap: Col)
    requires Computes(Some(bitmap), Executed(e), Dense(rows, n), n)
    ensures KeepsExactly(e, rows, n, TrueRows(bitmap))
  {
    TrueRowsAre(bitmap);
    forall r | 0 <= r < n
      ensures r in TrueRows(bitmap) <==> Satisfies(e, rows, n, r)
    {
      assert ComputesAt(Some(bitmap), Executed(e), Dense(rows, n), n, r);
    }
  }

  // The columns that the expression is evaluated on, materialized one by one.
  method InputColumns(device: Device, input: seq<Column>, count: nat, ghost rows: seq<Rows>) returns (columns: seq<Col>)
    requires AllRepresent(input, device.arrays, rows, count) && Readable(input, device.freed)
    ensures columns == Dense(rows, count)
  {
    hide Materialize;
    columns := [];
    for i := 0 to |input|
      invariant |columns| == i && forall k :: 0 <= k < i ==> columns[k] == Dense(rows, count)[k]
    {
      assert Represents(input[i], device.arrays, rows[i], count);
      MaterializeKeepsRows(input[i], device.arrays, device.arrays);
      var m := device.MaterializeExpression(input[i]);
      var values := if m.data.None? || m.length == 0 then [] else m.data.value;
      columns := columns + [if |values| == count then values else seq(count, _ => 0)];
    }
  }

  // The truth column; None when the expression throws on some row.
  method Bitmap(device: Device, input: seq<Column>, e: Expr, count: nat, ghost rows: seq<Rows>, ghost truths: set<nat>)
    returns (bitmap: Option<Col>)
    requires AllRepresent(input, device.arrays, rows, count) && count > 0 && Readable(input, device.freed)
    requires WellTyped(e, |input|, truths) && Bits(Dense(rows, count), truths)
    ensures bitmap.None? <==> exists r :: 0 <= r < count && !Quiet(Executed(e), RowAt(Dense(rows, count), count, r))
    ensures bitmap.Some? ==> |bitmap.value| == count && KeepsExactly(e, rows, count, TrueRows(bitmap.value))
  {
    hide AllRepresent, Executed, Computes, KeepsExactly, WellTyped, Mirrors, Column.Valid, Column.Rows;
    SameLength(input, device.arrays, rows, count);
    var columns := InputColumns(device, input, count, rows);
    var state := InitializeState(e);
    bitmap := Execute(e, state, columns, count, truths);
    if bitmap.None? {
      ThrowingRow(Executed(e), columns, count);
    } else {
      QuietRows(Executed(e), bitmap.value, columns, count);
      BitmapKeeps(e, rows, count, bitmap.value);
      ColumnHasCount(bitmap.value, Executed(e), columns, count);
    }
  }

  datatype Selection = Kept(columns: seq<Column>) | Throws | Unnoticed

  // The rows for which the truth column holds.
  method SelectRows(device: Device, input: seq<Column>, e: Expr, count: nat, ghost rows: seq<Rows>, ghost truths: set<nat>)
    returns (output: Selection, ghost kept: seq<nat>)
    requires AllRepresent(input, device.arrays, rows, count) && count > 0
    requires WellTyped(e, |input|, truths) && Bits(Dense(rows, count), truths)
    requires device.Tracked() && Readable(input, device.freed)
    modifies device
    ensures old(device.arrays) <= device.arrays && device.Tracked() && !output.Unnoticed?
    ensures output.Throws? <==> exists r :: 0 <= r < count && !Quiet(Executed(e), RowAt(Dense(rows, count), count, r))
    ensures output.Kept? ==>
              && KeepsExactly(e, rows, count, kept) && Readable(output.columns, device.freed)
              && AllRepresent(output.columns, device.arrays, TakeAll(rows, kept, count, true), |kept|)
  {
    hide AllRepresent, Executed, KeepsExactly, WellTyped, Readable, Bits, Quiet;
    var bitmap := Bitmap(device, input, e, count, rows, truths);
    kept := [];
    if bitmap.None? {
      return Throws, [];
    }
    var rowIds := TrueRows(bitmap.value);
    kept := rowIds;
    var selected := RunFilter(device, input, rowIds, rows, count);
    output := Kept(selected);
  }

  // Select. It throws when the expression does on some row. What the column library does with a
  // column of no rows beside others is not modelled: that is `Unnoticed`.
  method Select(device: Device, input: seq<Column>, e: Expr, ghost rows: seq<Rows>, ghost n: nat, ghost truths: set<nat>)
    returns (output: Selection, ghost kept: seq<nat>)
    requires AllRepresent(input, device.arrays, rows, n) && CountsAgree(input, n) && (input == [] ==> n == 1)
    requires WellTyped(e, |input|, truths) && Bits(Dense(rows, n), truths)
    requires device.Tracked() && Readable(input, device.freed)
    modifies device
    ensures old(device.arrays) <= device.arrays && device.Tracked()
    ensures output.Unnoticed? <==> ReadsUnnoticed(e, input)
    ensures NullsNoticed(input) ==> !output.Unnoticed?
    ensures output.Throws? <==>
            && !NothingKept(e, input) && !ReadsUnnoticed(e, input)
            && exists r :: 0 <= r < n && !Quiet(Executed(e), RowAt(Dense(rows, n), n, r))
    ensures output.Kept? ==>
              && (if NothingKept(e, input) then kept == [] else KeepsExactly(e, rows, n, kept))
              && AllRepresent(output.columns, device.arrays, TakeAll(rows, kept, n, true), |kept|)
              && Readable(output.columns, device.freed)
  {
    hide AllRepresent, Executed, KeepsExactly, WellTyped, Readable, Bits, Quiet, CountsAgree;
    var count, hasNull := SetInputColumns(input);
    kept := [];
    CountIsRows(input, n, count);
    if NullsNoticed(input) {
      NoNullLeaf(e, input);
    }
    if count == 0 || (hasNull && HasNullLeaf(e, input)) {
      var none := SelectNothing(device, input, rows, n);
      return Kept(none), [];
    }
    if HasNullLeaf(e, input) {
      return Unnoticed, [];
    }
    output, kept := SelectRows(device, input, e, count, rows, truths);
  }

  // An empty result: the count is zero and there are no row ids.
  method SelectNothing(device: Device, input: seq<Column>, ghost rows: seq<Rows>, ghost n: nat) returns (output: seq<Column>)
    requires AllRepresent(input, device.arrays, rows, n) && device.Tracked()
    modifies device
    ensures old(device.arrays) <= device.arrays && device.Tracked() && Readable(output, device.freed)
    ensures AllRepresent(output, device.arrays, TakeAll(rows, [], n, true), 0)
  {
    var out := new Column[|input|](_ => NO_ROWS);
    assert forall c <- input :: c.Valid(device.arrays) by {
      assert forall i :: 0 <= i < |input| ==> Represents(input[i], device.arrays, rows[i], n);
    }
    ghost var mem := device.arrays;
    device.HandleMaterializeRowIDs(input, out, 0, None, true);
    output := out[..];
    assert out[..|input|] == output;
    forall i | 0 <= i < |input|
      ensures Represents(output[i], device.arrays, TakeAll(rows, [], n, true)[i], 0)
    {
      assert Represents(input[i], mem, rows[i], n);
      assert Written(input[i], mem, 0, None, true, output[i], device.arrays);
    }
  }

  /** A positive row count is that of the relation, and there is none only if nothing is kept. */
  lemma CountIsRows(input: seq<Column>, n: nat, count: nat)
    requires CountsAgree(input, n) && (input == [] ==> n == 1 && count == 1)
    requires input != [] ==> (count == 0 <==> forall i :: 0 <= i < |input| ==> RowCount(input[i]) == 0)
    requires count > 0 && input != [] ==> exists i :: 0 <= i < |input| && RowCount(input[i]) == count
    ensures count > 0 ==> count == n
    ensures count == 0 ==> NullNoticed(input)
  {
    if input != [] && count > 0 {
      var i :| 0 <= i < |input| && RowCount(input[i]) == count;
    }
    if count == 0 {
      assert RowCount(input[0]) == 0;
    }
  }

  lemma SameLength(input: seq<Column>, mem: Arrays, rows: seq<Rows>, n: nat)
    requires AllRepresent(input, mem, rows, n)
    ensures |input| == |rows|
  {
  }

  /** Some part of the expression is a reference to the column. */
  predicate Reads(e: Expr, column: nat) {
    match e
    case Reference(i) => i == column
    case Constant(_) => false
    case Between(x, lo, hi, _, _) => Reads(x, column) || Reads(lo, column) || Reads(hi, column)
    case Compare(_, l, r) => Reads(l, column) || Reads(r, column)
    case Conjunction(_, cs) => exists i | 0 <= i < |cs| :: Reads(cs[i], column)
    case Not(c) => Reads(c, column)
    case In(_, cs) => exists i | 0 <= i < |cs| :: Reads(cs[i], column)
    case Case(checks, els) =>
      Reads(els, column) || exists i | 0 <= i < |checks| :: Reads(checks[i].whenExpr, column) || Reads(checks[i].thenExpr, column)
    case Error => false
  }

  predicate ReadsNull(e: Expr, input: seq<Column>) {
    exists k :: 0 <= k < |input| && input[k].data.None? && Reads(e, k)
  }

  /** The executor looks for a reference to a column without data, and finds one if there is one. */
  lemma {:induction false} NullLeafIff(e: Expr, input: seq<Column>)
    ensures HasNullLeaf(e, input) <==> exists k :: 0 <= k < |input| && input[k].data.None? && Reads(e, k)
  {
    match e
    case Between(x, lo, hi, _, _) => NullLeafIff(x, input); NullLeafIff(lo, input); NullLeafIff(hi, input);
    case Compare(_, l, r) => NullLeafIff(l, input); NullLeafIff(r, input);
    case Conjunction(_, cs) =>
      forall i | 0 <= i < |cs|
        ensures HasNullLeaf(cs[i], input) <==> ReadsNull(cs[i], input)
      {
        NullLeafIff(cs[i], input);
      }
    case Not(c) => NullLeafIff(c, input);
    case In(_, cs) =>
      forall i | 0 <= i < |cs|
        ensures HasNullLeaf(cs[i], input) <==> ReadsNull(cs[i], input)
      {
        NullLeafIff(cs[i], input);
      }
    case Case(checks, els) =>
      NullLeafIff(els, input);
      forall i | 0 <= i < |checks|
        ensures HasNullLeaf(checks[i].whenExpr, input) <==> ReadsNull(checks[i].whenExpr, input)
        ensures HasNullLeaf(checks[i].thenExpr, input) <==> ReadsNull(checks[i].thenExpr, input)
      {
        NullLeafIff(checks[i].whenExpr, input);
        NullLeafIff(checks[i].thenExpr, input);
      }
    case _ =>
  }

  predicate SameOn(e: Expr, row: Row, other: Row) {
    Value(e, row) == Value(e, other) && (Quiet(e, row) <==> Quiet(e, other))
  }

  /** An expression depends on the columns that it reads, and on no others. */
  lemma {:induction false} ReadsDecide(e: Expr, row: Row, other: Row)
    requires |row| == |other| && forall k :: 0 <= k < |row| && Reads(e, k) ==> row[k] == other[k]
    ensures Value(e, row) == Value(e, other) && (Quiet(e, row) <==> Quiet(e, other))
  {
    match e
    case Between(x, lo, hi, _, _) => ReadsDecide(x, row, other); ReadsDecide(lo, row, other); ReadsDecide(hi, row, other);
    case Compare(_, l, r) => ReadsDecide(l, row, other); ReadsDecide(r, row, other);
    case Conjunction(_, cs) =>
      forall i | 0 <= i < |cs|
        ensures SameOn(cs[i], row, other)
      {
        ReadsDecide(cs[i], row, other);
      }
    case Not(c) => ReadsDecide(c, row, other);
    case In(_, cs) =>
      forall i | 0 <= i < |cs|
        ensures SameOn(cs[i], row, other)
      {
        ReadsDecide(cs[i], row, other);
      }
    case Case(checks, els) =>
      ReadsDecide(els, row, other);
      forall i | 0 <= i < |checks|
        ensures SameOn(checks[i].whenExpr, row, other)
        ensures SameOn(checks[i].thenExpr, row, other)
      {
        ReadsDecide(checks[i].whenExpr, row, other);
        ReadsDecide(checks[i].thenExpr, row, other);
      }
      SameChecks(e, 0, row, other);
    case _ =>
  }

  lemma {:induction false} SameChecks(e: Expr, i: nat, row: Row, other: Row)
    requires e.Case? && i <= |e.checks| && Value(e.elseExpr, row) == Value(e.elseExpr, other)
    requires forall k | 0 <= k < |e.checks| ::
               && Value(e.checks[k].whenExpr, row) == Value(e.checks[k].whenExpr, other)
               && Value(e.checks[k].thenExpr, row) == Value(e.checks[k].thenExpr, other)
    ensures FirstTrue(e, i, row) == FirstTrue(e, i, other)
    decreases |e.checks| - i
  {
    if i < |e.checks| {
      SameChecks(e, i + 1, row, other);
    }
  }

  /** If all columns without data show it, a reference to one makes the executor look. */
  lemma NoNullLeaf(e: Expr, input: seq<Column>)
    requires NullsNoticed(input)
    ensures HasNullLeaf(e, input) ==> NullNoticed(input)
  {
    NullLeafIff(e, input);
  }

  lemma ThrowingRow(e: Expr, columns: seq<Col>, count: nat)
    requires Shaped(columns, count) && Computes(None, e, columns, count)
    ensures exists r :: 0 <= r < count && !Quiet(e, RowAt(columns, count, r))
  {
  }

  lemma QuietRows(e: Expr, col: Col, columns: seq<Col>, count: nat)
    requires Shaped(columns, count) && Computes(Some(col), e, columns, count)
    ensures forall r :: 0 <= r < count ==> Quiet(e, RowAt(columns, count, r))
  {
    forall r | 0 <= r < count
      ensures Quiet(e, RowAt(columns, count, r))
    {
      assert ComputesAt(Some(col), e, columns, count, r);
    }
  }
}

/** The expression executor: whole columns at a time, over a tree of states that mirrors the
    expression, against row-by-row evaluation on non-null data. */
module Expressions {
  import opened Options
  import opened Comparisons

  datatype CaseCheck = CaseCheck(whenExpr: Expr, thenExpr: Expr)

  /** Truth values are 0 and 1. */
  datatype Expr =
    | Reference(index: nat)
    | Constant(value: int)
    | Between(input: Expr, lower: Expr, upper: Expr, lowerInclusive: bool, upperInclusive: bool)
    | Compare(op: Comparison, left: Expr, right: Expr)
    | Conjunction(isAnd: bool, children: seq<Expr>)
    | Not(child: Expr)
    | In(negated: bool, operands: seq<Expr>)
    | Case(checks: seq<CaseCheck>, elseExpr: Expr)
    | Error

  function Truth(b: bool): int {
    if b then 1 else 0
  }

  // -------------------------------------------------------------------------------------------
  // Row by row
  // -------------------------------------------------------------------------------------------

  type Row = seq<int>

  function Checks(e: Expr): nat {
    if e.Case? then |e.checks| + 2 else 0
  }

  /** One bound of a BETWEEN: `a` is at most `b`, or below `b` when the bound is excluded. */
  predicate Within(a: int, b: int, inclusive: bool) {
    if inclusive then a <= b else a < b
  }

  /** The value of `e` on one row. */
  function Value(e: Expr, row: Row): int
    decreases e, Checks(e)
  {
    match e
    case Reference(i) => if i < |row| then row[i] else 0
    case Constant(v) => v
    case Between(x, lo, hi, lowerIncl, upperIncl) =>
      Truth(Within(Value(lo, row), Value(x, row), lowerIncl) && Within(Value(x, row), Value(hi, row), upperIncl))
    case Compare(op, l, r) => Truth(op.Holds(Value(l, row), Value(r, row)))
    case Conjunction(isAnd, cs) =>
      Truth(if isAnd then forall i | 0 <= i < |cs| :: Value(cs[i], row) != 0
            else exists i | 0 <= i < |cs| :: Value(cs[i], row) != 0)
    case Not(c) => Truth(Value(c, row) == 0)
    case In(negated, cs) =>
      Truth(negated != (exists i | 1 <= i < |cs| :: Value(cs[i], row) == Value(cs[0], row)))
    case Case(checks, els) => FirstTrue(e, 0, row)
    case Error => 0
  }

  /** The THEN of the first true WHEN from check `i` on, or the ELSE. */
  function FirstTrue(e: Expr, i: nat, row: Row): int
    requires e.Case? && i <= |e.checks|
    decreases e, |e.checks| - i + 1
  {
    if i == |e.checks| then Value(e.elseExpr, row)
    else if Value(e.checks[i].whenExpr, row) != 0 then Value(e.checks[i].thenExpr, row)
    else FirstTrue(e, i + 1, row)
  }

  /** The comparisons with DISTINCT FROM throw. */
  predicate IsImplemented(op: Comparison) {
    !op.DistinctFrom? && !op.NotDistinctFrom?
  }

  /** Nothing in `e` throws on this row when all of it is evaluated: every comparison is
      implemented, every IN has something to compare with, and no WHEN in front of an error() is
      true. */
  predicate Quiet(e: Expr, row: Row) {
    match e
    case Reference(_) => true
    case Constant(_) => true
    case Between(x, lo, hi, _, _) => Quiet(x, row) && Quiet(lo, row) && Quiet(hi, row)
    case Compare(op, l, r) => IsImplemented(op) && Quiet(l, row) && Quiet(r, row)
    case Conjunction(_, cs) => forall i | 0 <= i < |cs| :: Quiet(cs[i], row)
    case Not(c) => Quiet(c, row)
    case In(_, cs) => |cs| >= 2 && forall i | 0 <= i < |cs| :: Quiet(cs[i], row)
    case Case(checks, els) =>
      && Quiet(els, row)
      && forall i | 0 <= i < |checks| ::
           && Quiet(checks[i].whenExpr, row)
           && if checks[i].thenExpr.Error? then Value(checks[i].whenExpr, row) == 0 else Quiet(checks[i].thenExpr, row)
    case Error => false
  }

  /** `e` only yields 0 and 1, given the columns that do. */
  predicate YieldsTruth(e: Expr, truths: set<nat>) {
    match e
    case Reference(i) => i in truths
    case Constant(v) => v == 0 || v == 1
    case Case(checks, els) => YieldsTruth(els, truths) && forall i | 0 <= i < |checks| :: YieldsTruth(checks[i].thenExpr, truths)
    case _ => true
  }

  /** Column indices in range, and truth values under AND and OR, of which there is at least one. */
  predicate WellTyped(e: Expr, columns: nat, truths: set<nat>) {
    match e
    case Reference(i) => i < columns
    case Constant(_) => true
    case Between(x, lo, hi, _, _) => WellTyped(x, columns, truths) && WellTyped(lo, columns, truths) && WellTyped(hi, columns, truths)
    case Compare(_, l, r) => WellTyped(l, columns, truths) && WellTyped(r, columns, truths)
    case Conjunction(_, cs) =>
      |cs| > 0 && forall i | 0 <= i < |cs| :: WellTyped(cs[i], columns, truths) && YieldsTruth(cs[i], truths)
    case Not(c) => WellTyped(c, columns, truths)
    case In(_, cs) => forall i | 0 <= i < |cs| :: WellTyped(cs[i], columns, truths)
    case Case(checks, els) =>
      WellTyped(els, columns, truths) &&
      forall i | 0 <= i < |checks| ::
        WellTyped(checks[i].whenExpr, columns, truths) && WellTyped(checks[i].thenExpr, columns, truths)
    case Error => true
  }

  lemma {:induction false} TruthIsBit(e: Expr, row: Row, truths: set<nat>)
    requires YieldsTruth(e, truths) && forall i <- truths :: i < |row| ==> row[i] == 0 || row[i] == 1
    ensures Value(e, row) == 0 || Value(e, row) == 1
    decreases e, Checks(e)
  {
    if e.Case? {
      FirstTrueIsBit(e, 0, row, truths);
    }
  }

  lemma {:induction false} FirstTrueIsBit(e: Expr, i: nat, row: Row, truths: set<nat>)
    requires e.Case? && i <= |e.checks| && YieldsTruth(e, truths)
    requires forall i <- truths :: i < |row| ==> row[i] == 0 || row[i] == 1
    ensures FirstTrue(e, i, row) == 0 || FirstTrue(e, i, row) == 1
    decreases e, |e.checks| - i + 1
  {
    if i == |e.checks| {
      TruthIsBit(e.elseExpr, row, truths);
    } else {
      TruthIsBit(e.checks[i].thenExpr, row, truths);
      FirstTrueIsBit(e, i + 1, row, truths);
    }
  }

  // -------------------------------------------------------------------------------------------
  // States
  // -------------------------------------------------------------------------------------------

  datatype State = State(children: seq<State>)

  /** The state tree has a child for every subexpression, at the place where Execute looks for it. */
  predicate Mirrors(s: State, e: Expr) {
    var cs := s.children;
    match e
    case Reference(_) => cs == []
    case Constant(_) => cs == []
    case Between(x, lo, hi, _, _) => |cs| == 3 && Mirrors(cs[0], x) && Mirrors(cs[1], lo) && Mirrors(cs[2], hi)
    case Compare(_, l, r) => |cs| == 2 && Mirrors(cs[0], l) && Mirrors(cs[1], r)
    case Conjunction(_, es) => |cs| == |es| && forall i | 0 <= i < |es| :: Mirrors(cs[i], es[i])
    case Not(c) => |cs| == 1 && Mirrors(cs[0], c)
    case In(_, es) => |cs| == |es| && forall i | 0 <= i < |es| :: Mirrors(cs[i], es[i])
    case Case(checks, els) =>
      && |cs| == 2 * |checks| + 1 && Mirrors(cs[2 * |checks|], els)
      && forall i | 0 <= i < |checks| :: Mirrors(cs[2 * i], checks[i].whenExpr) && Mirrors(cs[2 * i + 1], checks[i].thenExpr)
    case Error => cs == []
  }

  method InitializeState(e: Expr) returns (s: State)
    ensures Mirrors(s, e)
    decreases e, 0
  {
    var cs: seq<State> := [];
    match e {
      case Between(x, lo, hi, _, _) =>
        var a := InitializeState(x);
        var b := InitializeState(lo);
        var c := InitializeState(hi);
        cs := [a, b, c];
      case Compare(_, l, r) =>
        var a := InitializeState(l);
        var b := InitializeState(r);
        cs := [a, b];
      case Conjunction(_, es) =>
        for i := 0 to |es|
          invariant |cs| == i && forall k :: 0 <= k < i ==> Mirrors(cs[k], es[k])
        {
          var c := InitializeState(es[i]);
          cs := cs + [c];
        }
      case Not(x) =>
        var c := InitializeState(x);
        cs := [c];
      case In(_, es) =>
        for i := 0 to |es|
          invariant |cs| == i && forall k :: 0 <= k < i ==> Mirrors(cs[k], es[k])
        {
          var c := InitializeState(es[i]);
          cs := cs + [c];
        }
      case Case(checks, els) =>
        for i := 0 to |checks|
          invariant |cs| == 2 * i
          invariant forall k :: 0 <= k < i ==> Mirrors(cs[2 * k], checks[k].whenExpr) && Mirrors(cs[2 * k + 1], checks[k].thenExpr)
        {
          var w := InitializeState(checks[i].whenExpr);
          var t := InitializeState(checks[i].thenExpr);
          cs := cs + [w] + [t];
        }
        var c := InitializeState(els);
        cs := cs + [c];
      case _ =>
    }
    s := State(cs);
  }

  // -------------------------------------------------------------------------------------------
  // Column at a time
  // -------------------------------------------------------------------------------------------

  type Col = seq<int>

  /** The input columns, and row `r` of them. */
  predicate Shaped(columns: seq<Col>, count: nat) {
    forall i :: 0 <= i < |columns| ==> |columns[i]| == count
  }

  function RowAt(columns: seq<Col>, count: nat, r: nat): (row: Row)
    requires Shaped(columns, count) && r < count
    ensures |row| == |columns|
  {
    seq(|columns|, i requires 0 <= i < |columns| => columns[i][r])
  }

  predicate AllConstant(es: seq<Expr>) {
    forall i :: 1 <= i < |es| ==> es[i].Constant?
  }

  /** What is evaluated in place of `e`: a NOT IN over constants only is not negated, and a BETWEEN
      takes in both its bounds. */
  function Executed(e: Expr): Expr
    ensures e.Error? <==> Executed(e).Error?
  {
    match e
    case Between(x, lo, hi, _, _) => Between(Executed(x), Executed(lo), Executed(hi), true, true)
    case Compare(op, l, r) => Compare(op, Executed(l), Executed(r))
    case Conjunction(isAnd, cs) => Conjunction(isAnd, seq(|cs|, i requires 0 <= i < |cs| => Executed(cs[i])))
    case Not(c) => Not(Executed(c))
    case In(negated, cs) =>
      In(negated && !AllConstant(cs), seq(|cs|, i requires 0 <= i < |cs| => Executed(cs[i])))
    case Case(checks, els) =>
      Case(seq(|checks|, i requires 0 <= i < |checks| => CaseCheck(Executed(checks[i].whenExpr), Executed(checks[i].thenExpr))),
           Executed(els))
    case _ => e
  }

  /** On row `r`, `e` has this value, or throws if there is none. */
  predicate ComputesAt(result: Option<Col>, e: Expr, columns: seq<Col>, count: nat, r: nat)
    requires Shaped(columns, count) && r < count && (result.Some? ==> |result.value| == count)
  {
    result.Some? && Quiet(e, RowAt(columns, count, r)) && result.value[r] == Value(e, RowAt(columns, count, r))
  }

  /** `result` is what `e` gives on every row; there is none exactly if `e` throws on some row. */
  ghost predicate Computes(result: Option<Col>, e: Expr, columns: seq<Col>, count: nat)
    requires Shaped(columns, count)
  {
    match result
    case Some(col) => |col| == count && forall r :: 0 <= r < count ==> ComputesAt(result, e, columns, count, r)
    case None => exists r :: 0 <= r < count && !Quiet(e, RowAt(columns, count, r))
  }

  /** A binary operation of the column library. */
  function Zip(a: Col, b: Col, f: (int, int) -> int): (c: Col)
    requires |a| == |b|
    ensures |c| == |a|
  {
    seq(|a|, r requires 0 <= r < |a| => f(a[r], b[r]))
  }

  /** Truth columns hold 0 and 1 only. */
  predicate Bits(columns: seq<Col>, truths: set<nat>) {
    forall i, r :: i in truths && i < |columns| && 0 <= r < |columns[i]| ==> columns[i][r] == 0 || columns[i][r] == 1
  }

  lemma {:induction false} ExecutedYieldsTruth(e: Expr, truths: set<nat>)
    requires YieldsTruth(e, truths)
    ensures YieldsTruth(Executed(e), truths)
  {
    if e.Case? {
      ExecutedYieldsTruth(e.elseExpr, truths);
      forall i | 0 <= i < |e.checks|
        ensures YieldsTruth(Executed(e.checks[i].thenExpr), truths)
      {
        ExecutedYieldsTruth(e.checks[i].thenExpr, truths);
      }
    }
  }

  lemma ColumnIsBits(e: Expr, col: Col, columns: seq<Col>, count: nat, truths: set<nat>)
    requires Shaped(columns, count) && Bits(columns, truths) && YieldsTruth(e, truths)
    requires Computes(Some(col), Executed(e), columns, count)
    ensures forall r :: 0 <= r < count ==> col[r] == 0 || col[r] == 1
  {
    forall r | 0 <= r < count
      ensures col[r] == 0 || col[r] == 1
    {
      assert ComputesAt(Some(col), Executed(e), columns, count, r);
      ExecutedYieldsTruth(e, truths);
      TruthIsBit(Executed(e), RowAt(columns, count, r), truths);
    }
  }

  // -------------------------------------------------------------------------------------------
  // AND and OR
  // -------------------------------------------------------------------------------------------

  function Both(isAnd: bool): (int, int) -> int {
    (a, b) => Truth(if isAnd then a != 0 && b != 0 else a != 0 || b != 0)
  }

  lemma FirstOfConjunction(isAnd: bool, c: Expr, col: Col, columns: seq<Col>, count: nat)
    requires Shaped(columns, count) && Computes(Some(col), c, columns, count)
    requires forall r :: 0 <= r < count ==> col[r] == 0 || col[r] == 1
    ensures Computes(Some(col), Conjunction(isAnd, [c]), columns, count)
  {
    forall r | 0 <= r < count
      ensures ComputesAt(Some(col), Conjunction(isAnd, [c]), columns, count, r)
    {
      assert ComputesAt(Some(col), c, columns, count, r);
      assert [c][0] == c;
    }
  }

  lemma NextOfConjunction(isAnd: bool, cs: seq<Expr>, c: Expr, out: Col, col: Col, columns: seq<Col>, count: nat)
    requires Shaped(columns, count) && cs != []
    requires Computes(Some(out), Conjunction(isAnd, cs), columns, count) && Computes(Some(col), c, columns, count)
    ensures Computes(Some(Zip(col, out, Both(isAnd))), Conjunction(isAnd, cs + [c]), columns, count)
  {
    var next, all := Zip(col, out, Both(isAnd)), cs + [c];
    forall r | 0 <= r < count
      ensures ComputesAt(Some(next), Conjunction(isAnd, all), columns, count, r)
    {
      var row := RowAt(columns, count, r);
      assert ComputesAt(Some(out), Conjunction(isAnd, cs), columns, count, r) && ComputesAt(Some(col), c, columns, count, r);
      assert forall i :: 0 <= i < |cs| ==> all[i] == cs[i];
      assert all[|cs|] == c;
    }
  }

  /** A part that throws makes the whole throw. */
  lemma PartThrows(whole: Expr, part: Expr, columns: seq<Col>, count: nat)
    requires Shaped(columns, count) && Computes(None, part, columns, count)
    requires forall row :: Quiet(whole, row) ==> Quiet(part, row)
    ensures Computes(None, whole, columns, count)
  {
  }

  method ExecuteConjunction(e: Expr, s: State, columns: seq<Col>, count: nat, ghost truths: set<nat>) returns (result: Option<Col>)
    requires e.Conjunction? && Executable(e, s, columns, count, truths)
    ensures Computes(result, Executed(e), columns, count)
    decreases e, 0
  {
    hide Computes, ComputesAt, YieldsTruth, Bits, Zip;
    ghost var cs := Executed(e).children;
    result := None;
    for i := 0 to |e.children|
      invariant i > 0 ==> result.Some? && Computes(result, Conjunction(e.isAnd, cs[..i]), columns, count)
    {
      var current := Execute(e.children[i], s.children[i], columns, count, truths);
      assert cs[i] == Executed(e.children[i]);
      if current.None? {
        PartThrows(Executed(e), cs[i], columns, count);
        return None;
      }
      ColumnHasCount(current.value, cs[i], columns, count);
      if i == 0 {
        ColumnIsBits(e.children[0], current.value, columns, count, truths);
        FirstOfConjunction(e.isAnd, cs[0], current.value, columns, count);
        assert cs[..1] == [cs[0]];
        result := current;
      } else {
        ColumnHasCount(result.value, Conjunction(e.isAnd, cs[..i]), columns, count);
        NextOfConjunction(e.isAnd, cs[..i], cs[i], result.value, current.value, columns, count);
        assert cs[..i + 1] == cs[..i] + [cs[i]];
        result := Some(Zip(current.value, result.value, Both(e.isAnd)));
      }
    }
    assert cs[..|cs|] == cs;
  }

  lemma ColumnHasCount(col: Col, e: Expr, columns: seq<Col>, count: nat)
    requires Shaped(columns, count) && Computes(Some(col), e, columns, count)
    ensures |col| == count
  {
  }

  // -------------------------------------------------------------------------------------------
  // CASE
  // -------------------------------------------------------------------------------------------

  lemma {:induction false} LaterChecks(e: Expr, i: nat, row: Row)
    requires e.Case? && 1 <= i <= |e.checks|
    ensures FirstTrue(e, i, row) == FirstTrue(Case(e.checks[1..], e.elseExpr), i - 1, row)
    decreases |e.checks| - i
  {
    if i < |e.checks| {
      LaterChecks(e, i + 1, row);
    }
  }

  /** One more check in front. */
  lemma CaseFront(c: CaseCheck, checks: seq<CaseCheck>, els: Expr, row: Row)
    ensures Value(Case([c] + checks, els), row) ==
            if Value(c.whenExpr, row) != 0 then Value(c.thenExpr, row) else Value(Case(checks, els), row)
    ensures Quiet(Case([c] + checks, els), row) <==>
            && Quiet(Case(checks, els), row) && Quiet(c.whenExpr, row)
            && if c.thenExpr.Error? then Value(c.whenExpr, row) == 0 else Quiet(c.thenExpr, row)
  {
    var e, rest := Case([c] + checks, els), Case(checks, els);
    assert e.checks[1..] == checks && e.checks[0] == c;
    LaterChecks(e, 1, row);
    assert forall i :: 0 <= i < |checks| ==> e.checks[i + 1] == checks[i];
    if Quiet(e, row) {
      forall i | 0 <= i < |checks|
        ensures Quiet(checks[i].whenExpr, row)
        ensures if checks[i].thenExpr.Error? then Value(checks[i].whenExpr, row) == 0 else Quiet(checks[i].thenExpr, row)
      {
        assert e.checks[i + 1] == checks[i];
      }
    }
  }

  /** copy_if_else. */
  function CopyIfElse(yes: Col, other: Col, mask: Col): (c: Col)
    requires |yes| == |other| == |mask|
    ensures |c| == |yes|
  {
    seq(|yes|, r requires 0 <= r < |yes| => if mask[r] != 0 then yes[r] else other[r])
  }

  lemma CopiedCase(c: CaseCheck, checks: seq<CaseCheck>, els: Expr, mask: Col, yes: Col, out: Col, columns: seq<Col>, count: nat)
    requires Shaped(columns, count) && !c.thenExpr.Error?
    requires Computes(Some(mask), c.whenExpr, columns, count) && Computes(Some(yes), c.thenExpr, columns, count)
    requires Computes(Some(out), Case(checks, els), columns, count)
    ensures Computes(Some(CopyIfElse(yes, out, mask)), Case([c] + checks, els), columns, count)
  {
    var next := CopyIfElse(yes, out, mask);
    forall r | 0 <= r < count
      ensures ComputesAt(Some(next), Case([c] + checks, els), columns, count, r)
    {
      assert ComputesAt(Some(mask), c.whenExpr, columns, count, r) && ComputesAt(Some(yes), c.thenExpr, columns, count, r);
      assert ComputesAt(Some(out), Case(checks, els), columns, count, r);
      CaseFront(c, checks, els, RowAt(columns, count, r));
    }
  }

  lemma SkippedError(c: CaseCheck, checks: seq<CaseCheck>, els: Expr, mask: Col, out: Col, columns: seq<Col>, count: nat)
    requires Shaped(columns, count) && c.thenExpr.Error? && Computes(Some(mask), c.whenExpr, columns, count)
    requires Computes(Some(out), Case(checks, els), columns, count)
    ensures (forall r :: 0 <= r < count ==> mask[r] == 0) ==> Computes(Some(out), Case([c] + checks, els), columns, count)
    ensures (exists r :: 0 <= r < count && mask[r] != 0) ==> Computes(None, Case([c] + checks, els), columns, count)
  {
    if r :| 0 <= r < count && mask[r] != 0 {
      assert ComputesAt(Some(mask), c.whenExpr, columns, count, r);
      CaseFront(c, checks, els, RowAt(columns, count, r));
    } else {
      forall r | 0 <= r < count
        ensures ComputesAt(Some(out), Case([c] + checks, els), columns, count, r)
      {
        assert ComputesAt(Some(mask), c.whenExpr, columns, count, r) && ComputesAt(Some(out), Case(checks, els), columns, count, r);
        CaseFront(c, checks, els, RowAt(columns, count, r));
      }
    }
  }

  lemma ChecksThrow(checks: seq<CaseCheck>, i: nat, els: Expr, columns: seq<Col>, count: nat)
    requires Shaped(columns, count) && i <= |checks| && Computes(None, Case(checks[i..], els), columns, count)
    ensures Computes(None, Case(checks, els), columns, count)
  {
    forall row | Quiet(Case(checks, els), row)
      ensures Quiet(Case(checks[i..], els), row)
    {
      assert forall k :: 0 <= k < |checks[i..]| ==> checks[i..][k] == checks[i + k];
    }
    PartThrows(Case(checks, els), Case(checks[i..], els), columns, count);
  }

  // The ELSE first, then the checks from the last to the first, so that the first true WHEN wins.
  method ExecuteCase(e: Expr, s: State, columns: seq<Col>, count: nat, ghost truths: set<nat>) returns (result: Option<Col>)
    requires e.Case? && Executable(e, s, columns, count, truths)
    ensures Computes(result, Executed(e), columns, count)
    decreases e, 0
  {
    hide Computes, ComputesAt, YieldsTruth, Bits, CopyIfElse, Value, FirstTrue;
    ghost var checks, els := Executed(e).checks, Executed(e).elseExpr;
    var n := |e.checks|;
    assert checks[n..] == [];
    result := Execute(e.elseExpr, s.children[2 * n], columns, count, truths);
    if result.None? {
      PartThrows(Executed(e), els, columns, count);
      return;
    }
    NoChecks(els, result, columns, count);
    var i := n - 1;
    while i >= 0
      invariant -1 <= i < n && result.Some? && Computes(result, Case(checks[i + 1..], els), columns, count)
    {
      var check := e.checks[i];
      ghost var c := checks[i];
      assert checks[i..] == [c] + checks[i + 1..];
      ColumnHasCount(result.value, Case(checks[i + 1..], els), columns, count);
      var mask := Execute(check.whenExpr, s.children[2 * i], columns, count, truths);
      if mask.None? {
        PartThrows(Executed(e), c.whenExpr, columns, count);
        return None;
      }
      ColumnHasCount(mask.value, c.whenExpr, columns, count);
      if check.thenExpr.Error? {
        SkippedError(c, checks[i + 1..], els, mask.value, result.value, columns, count);
        if exists r :: 0 <= r < |mask.value| && mask.value[r] != 0 {
          ChecksThrow(checks, i, els, columns, count);
          return None;
        }
      } else {
        var yes := Execute(check.thenExpr, s.children[2 * i + 1], columns, count, truths);
        if yes.None? {
          PartThrows(Executed(e), c.thenExpr, columns, count);
          return None;
        }
        ColumnHasCount(yes.value, c.thenExpr, columns, count);
        CopiedCase(c, checks[i + 1..], els, mask.value, yes.value, result.value, columns, count);
        result := Some(CopyIfElse(yes.value, result.value, mask.value));
      }
      i := i - 1;
    }
    assert checks[0..] == checks;
  }

  lemma NoChecks(els: Expr, result: Option<Col>, columns: seq<Col>, count: nat)
    requires Shaped(columns, count) && Computes(result, els, columns, count) && result.Some?
    ensures Computes(result, Case([], els), columns, count)
  {
    forall r | 0 <= r < count
      ensures ComputesAt(result, Case([], els), columns, count, r)
    {
      assert ComputesAt(result, els, columns, count, r);
    }
  }

  // -------------------------------------------------------------------------------------------
  // IN
  // -------------------------------------------------------------------------------------------

  function Equals(): (int, int) -> int {
    (a, b) => Truth(a == b)
  }

  function Flipped(a: Col): (c: Col)
    ensures |c| == |a|
  {
    seq(|a|, r requires 0 <= r < |a| => Truth(a[r] == 0))
  }

  /** contains, for the operands behind the first. */
  function Contains(es: seq<Expr>, a: Col): (c: Col)
    requires AllConstant(es)
    ensures |c| == |a|
  {
    seq(|a|, r requires 0 <= r < |a| => Truth(exists i | 1 <= i < |es| :: es[i].value == a[r]))
  }

  lemma ConstantsContained(left: Expr, es: seq<Expr>, a: Col, columns: seq<Col>, count: nat)
    requires Shaped(columns, count) && AllConstant(es) && |es| >= 2 && es[0] == left && Computes(Some(a), left, columns, count)
    ensures Computes(Some(Contains(es, a)), In(false, es), columns, count)
  {
    forall r | 0 <= r < count
      ensures ComputesAt(Some(Contains(es, a)), In(false, es), columns, count, r)
    {
      assert ComputesAt(Some(a), left, columns, count, r);
      assert forall i :: 1 <= i < |es| ==> Value(es[i], RowAt(columns, count, r)) == es[i].value;
    }
  }

  lemma FirstOfIn(left: Expr, c: Expr, a: Col, b: Col, columns: seq<Col>, count: nat)
    requires Shaped(columns, count) && Computes(Some(a), left, columns, count) && Computes(Some(b), c, columns, count)
    ensures Computes(Some(Zip(a, b, Equals())), In(false, [left, c]), columns, count)
  {
    var out, es := Zip(a, b, Equals()), [left, c];
    forall r | 0 <= r < count
      ensures ComputesAt(Some(out), In(false, es), columns, count, r)
    {
      assert ComputesAt(Some(a), left, columns, count, r) && ComputesAt(Some(b), c, columns, count, r);
      assert es[0] == left && es[1] == c;
    }
  }

  lemma NextOfIn(es: seq<Expr>, c: Expr, out: Col, a: Col, b: Col, columns: seq<Col>, count: nat)
    requires Shaped(columns, count) && |es| >= 2 && Computes(Some(out), In(false, es), columns, count)
    requires Computes(Some(a), es[0], columns, count) && Computes(Some(b), c, columns, count)
    ensures Computes(Some(Zip(out, Zip(a, b, Equals()), Both(false))), In(false, es + [c]), columns, count)
  {
    var next, all := Zip(out, Zip(a, b, Equals()), Both(false)), es + [c];
    forall r | 0 <= r < count
      ensures ComputesAt(Some(next), In(false, all), columns, count, r)
    {
      assert ComputesAt(Some(out), In(false, es), columns, count, r) && ComputesAt(Some(a), es[0], columns, count, r);
      assert ComputesAt(Some(b), c, columns, count, r);
      assert forall i :: 0 <= i < |es| ==> all[i] == es[i];
      assert all[|es|] == c;
    }
  }

  lemma FlippedIn(es: seq<Expr>, out: Col, columns: seq<Col>, count: nat)
    requires Shaped(columns, count) && Computes(Some(out), In(false, es), columns, count)
    ensures Computes(Some(Flipped(out)), In(true, es), columns, count)
  {
    forall r | 0 <= r < count
      ensures ComputesAt(Some(Flipped(out)), In(true, es), columns, count, r)
    {
      assert ComputesAt(Some(out), In(false, es), columns, count, r);
    }
  }

  method ExecuteIn(e: Expr, s: State, columns: seq<Col>, count: nat, ghost truths: set<nat>) returns (result: Option<Col>)
    requires e.In? && Executable(e, s, columns, count, truths)
    ensures Computes(result, Executed(e), columns, count)
    decreases e, 0
  {
    hide Computes, ComputesAt, YieldsTruth, Bits, Zip, Contains, Flipped, Value;
    if |e.operands| < 2 {
      TooFew(Executed(e), columns, count);
      return None;
    }
    ghost var es := Executed(e).operands;
    var left := Execute(e.operands[0], s.children[0], columns, count, truths);
    if left.None? {
      PartThrows(Executed(e), es[0], columns, count);
      return None;
    }
    ColumnHasCount(left.value, es[0], columns, count);
    if forall i :: 1 <= i < |e.operands| ==> e.operands[i].Constant? {
      SameConstants(e, left.value);
      ConstantsContained(es[0], es, left.value, columns, count);
      return Some(Contains(e.operands, left.value));
    }
    result := None;
    for i := 1 to |e.operands|
      invariant i > 1 ==> result.Some? && Computes(result, In(false, es[..i]), columns, count)
    {
      var comparator := Execute(e.operands[i], s.children[i], columns, count, truths);
      if comparator.None? {
        PartThrows(Executed(e), es[i], columns, count);
        return None;
      }
      ColumnHasCount(comparator.value, es[i], columns, count);
      var comparison := Zip(left.value, comparator.value, Equals());
      if i == 1 {
        FirstOfIn(es[0], es[1], left.value, comparator.value, columns, count);
        assert es[..2] == [es[0], es[1]];
        result := Some(comparison);
      } else {
        ColumnHasCount(result.value, In(false, es[..i]), columns, count);
        NextOfIn(es[..i], es[i], result.value, left.value, comparator.value, columns, count);
        assert es[..i + 1] == es[..i] + [es[i]];
        result := Some(Zip(result.value, comparison, Both(false)));
      }
    }
    assert es[..|es|] == es;
    if e.negated {
      FlippedIn(es, result.value, columns, count);
      result := Some(Flipped(result.value));
    }
  }

  lemma TooFew(e: Expr, columns: seq<Col>, count: nat)
    requires Shaped(columns, count) && count > 0 && e.In? && |e.operands| < 2
    ensures Computes(None, e, columns, count)
  {
    assert !Quiet(e, RowAt(columns, count, 0));
  }

  lemma SameConstants(e: Expr, a: Col)
    requires e.In? && AllConstant(e.operands)
    ensures AllConstant(Executed(e).operands) && Contains(Executed(e).operands, a) == Contains(e.operands, a)
  {
    assert forall i :: 1 <= i < |e.operands| ==> Executed(e).operands[i] == e.operands[i];
  }

  // -------------------------------------------------------------------------------------------
  // Dispatch
  // -------------------------------------------------------------------------------------------

  /** What Execute is called with: a state for the expression, and at least one row. */
  ghost predicate Executable(e: Expr, s: State, columns: seq<Col>, count: nat, truths: set<nat>) {
    Shaped(columns, count) && count > 0 && Mirrors(s, e) && WellTyped(e, |columns|, truths) && Bits(columns, truths)
  }

  lemma TwoColumns(e: Expr, l: Expr, r: Expr, a: Col, b: Col, columns: seq<Col>, count: nat, f: (int, int) -> int)
    requires Shaped(columns, count) && Computes(Some(a), l, columns, count) && Computes(Some(b), r, columns, count)
    requires forall row :: Quiet(e, row) <==> Quiet(l, row) && Quiet(r, row)
    requires forall row :: Value(e, row) == f(Value(l, row), Value(r, row))
    ensures |a| == |b| && Computes(Some(Zip(a, b, f)), e, columns, count)
  {
    forall k | 0 <= k < count
      ensures ComputesAt(Some(Zip(a, b, f)), e, columns, count, k)
    {
      assert ComputesAt(Some(a), l, columns, count, k) && ComputesAt(Some(b), r, columns, count, k);
    }
  }

  /** Evaluating whole columns gives, on every row, the value of the expression there, and throws
      exactly if some row does. */
  method Execute(e: Expr, s: State, columns: seq<Col>, count: nat, ghost truths: set<nat>) returns (result: Option<Col>)
    requires Executable(e, s, columns, count, truths)
    ensures Computes(result, Executed(e), columns, count)
    decreases e, 1
  {
    match e
    case Reference(i) =>
      result := Some(columns[i]);
    case Constant(v) =>
      result := Some(seq(count, _ => v));
    case Between(_, _, _, _, _) =>
      result := ExecuteBetween(e, s, columns, count, truths);
    case Compare(_, _, _) =>
      result := ExecuteCompare(e, s, columns, count, truths);
    case Conjunction(_, _) =>
      result := ExecuteConjunction(e, s, columns, count, truths);
    case Not(_) =>
      result := ExecuteNot(e, s, columns, count, truths);
    case In(_, _) =>
      result := ExecuteIn(e, s, columns, count, truths);
    case Case(_, _) =>
      result := ExecuteCase(e, s, columns, count, truths);
    case Error =>
      assert !Quiet(e, RowAt(columns, count, 0));
      result := None;
  }

  lemma ThrowsOnRow(e: Expr, columns: seq<Col>, count: nat, r: nat)
    requires Shaped(columns, count) && r < count && !Quiet(e, RowAt(columns, count, r))
    ensures Computes(None, e, columns, count)
  {
  }

  method ExecuteCompare(e: Expr, s: State, columns: seq<Col>, count: nat, ghost truths: set<nat>) returns (result: Option<Col>)
    requires e.Compare? && Executable(e, s, columns, count, truths)
    ensures Computes(result, Executed(e), columns, count)
    decreases e, 0
  {
    hide Computes, ComputesAt, YieldsTruth, Bits, Value, ComparisonOp;
    ghost var whole := Executed(e);
    if e.op.DistinctFrom? || e.op.NotDistinctFrom? {
      assert !Quiet(whole, RowAt(columns, count, 0));
      ThrowsOnRow(whole, columns, count, 0);
      return None;
    }
    var left := Execute(e.left, s.children[0], columns, count, truths);
    if left.None? {
      PartThrows(whole, whole.left, columns, count);
      return None;
    }
    var right := Execute(e.right, s.children[1], columns, count, truths);
    if right.None? {
      PartThrows(whole, whole.right, columns, count);
      return None;
    }
    Dispatched(e.op, whole.left, whole.right);
    TwoColumns(whole, whole.left, whole.right, left.value, right.value, columns, count, ComparisonOp(e.op));
    result := Some(Zip(left.value, right.value, ComparisonOp(e.op)));
  }

  /** The operator of the column library that a comparison is dispatched to. */
  function ComparisonOp(op: Comparison): (int, int) -> int {
    match op
    case Equal => (a, b) => Truth(a == b)
    case NotEqual => (a, b) => Truth(a != b)
    case Less => (a, b) => Truth(a < b)
    case Greater => (a, b) => Truth(a > b)
    case LessEqual => (a, b) => Truth(a <= b)
    case GreaterEqual => (a, b) => Truth(a >= b)
    case _ => (a, b) => 0
  }

  lemma Dispatched(op: Comparison, l: Expr, r: Expr)
    requires IsImplemented(op)
    ensures forall row :: Value(Compare(op, l, r), row) == ComparisonOp(op)(Value(l, row), Value(r, row))
    ensures forall row :: Quiet(Compare(op, l, r), row) <==> Quiet(l, row) && Quiet(r, row)
  {
  }

  method ExecuteBetween(e: Expr, s: State, columns: seq<Col>, count: nat, ghost truths: set<nat>) returns (result: Option<Col>)
    requires e.Between? && Executable(e, s, columns, count, truths)
    ensures Computes(result, Executed(e), columns, count)
    decreases e, 0
  {
    hide Computes, ComputesAt, YieldsTruth, Bits, Zip, Value, AtLeast, AtMost, Both;
    ghost var whole := Executed(e);
    var input := Execute(e.input, s.children[0], columns, count, truths);
    if input.None? {
      PartThrows(whole, whole.input, columns, count);
      return None;
    }
    var lower := Execute(e.lower, s.children[1], columns, count, truths);
    if lower.None? {
      PartThrows(whole, whole.lower, columns, count);
      return None;
    }
    var upper := Execute(e.upper, s.children[2], columns, count, truths);
    if upper.None? {
      PartThrows(whole, whole.upper, columns, count);
      return None;
    }
    ghost var ge, le := Compare(GreaterEqual, whole.input, whole.lower), Compare(LessEqual, whole.input, whole.upper);
    BetweenMeans(whole.input, whole.lower, whole.upper);
    TwoColumns(ge, whole.input, whole.lower, input.value, lower.value, columns, count, AtLeast());
    var lowerCmp := Zip(input.value, lower.value, AtLeast());
    TwoColumns(le, whole.input, whole.upper, input.value, upper.value, columns, count, AtMost());
    var upperCmp := Zip(input.value, upper.value, AtMost());
    TwoColumns(whole, ge, le, lowerCmp, upperCmp, columns, count, Both(true));
    result := Some(Zip(lowerCmp, upperCmp, Both(true)));
  }

  function AtLeast(): (int, int) -> int {
    (a, b) => Truth(a >= b)
  }

  function AtMost(): (int, int) -> int {
    (a, b) => Truth(a <= b)
  }

  /** BETWEEN with both bounds is the conjunction of two comparisons. */
  lemma BetweenMeans(x: Expr, lo: Expr, hi: Expr)
    ensures var ge, le, whole := Compare(GreaterEqual, x, lo), Compare(LessEqual, x, hi), Between(x, lo, hi, true, true);
            forall row ::
              && (Quiet(ge, row) <==> Quiet(x, row) && Quiet(lo, row)) && Value(ge, row) == AtLeast()(Value(x, row), Value(lo, row))
              && (Quiet(le, row) <==> Quiet(x, row) && Quiet(hi, row)) && Value(le, row) == AtMost()(Value(x, row), Value(hi, row))
              && (Quiet(whole, row) <==> Quiet(ge, row) && Quiet(le, row))
              && Value(whole, row) == Both(true)(Value(ge, row), Value(le, row))
  {
  }

  method ExecuteNot(e: Expr, s: State, columns: seq<Col>, count: nat, ghost truths: set<nat>) returns (result: Option<Col>)
    requires e.Not? && Executable(e, s, columns, count, truths)
    ensures Computes(result, Executed(e), columns, count)
    decreases e, 0
  {
    ghost var whole := Executed(e);
    var child := Execute(e.child, s.children[0], columns, count, truths);
    if child.None? {
      PartThrows(whole, whole.child, columns, count);
      return None;
    }
    result := Some(Flipped(child.value));
    forall r | 0 <= r < count
      ensures ComputesAt(result, whole, columns, count, r)
    {
      assert ComputesAt(child, whole.child, columns, count, r);
    }
  }

  // -------------------------------------------------------------------------------------------
  // What the operators mean, in terms of each other
  // -------------------------------------------------------------------------------------------

  /** Every comparison yields 1 or 0, by the order of the two values. */
  lemma CompareMeans(op: Comparison, l: Expr, r: Expr, row: Row)
    ensures var a, b := Value(l, row), Value(r, row);
            Value(Compare(op, l, r), row) ==
              match op
              case Equal => if a == b then 1 else 0
              case NotDistinctFrom => if a == b then 1 else 0
              case NotEqual => if a == b then 0 else 1
              case DistinctFrom => if a == b then 0 else 1
              case Less => if a < b then 1 else 0
              case Greater => if b < a then 1 else 0
              case LessEqual => if b < a then 0 else 1
              case GreaterEqual => if a < b then 0 else 1
    ensures Quiet(Compare(op, l, r), row) <==>
            op in {Equal, NotEqual, Less, Greater, LessEqual, GreaterEqual} && Quiet(l, row) && Quiet(r, row)
  {
  }

  /** Each comparison is the negation of its opposite, and equality is both bounds together. */
  lemma ComparisonsAreOpposites(l: Expr, r: Expr, row: Row)
    ensures Value(Compare(Less, l, r), row) == Value(Not(Compare(GreaterEqual, l, r)), row)
    ensures Value(Compare(Greater, l, r), row) == Value(Not(Compare(LessEqual, l, r)), row)
    ensures Value(Compare(Less, l, r), row) == Value(Compare(Greater, r, l), row)
    ensures Value(Compare(NotEqual, l, r), row) == Value(Not(Compare(Equal, l, r)), row)
    ensures Value(Compare(DistinctFrom, l, r), row) == Value(Not(Compare(NotDistinctFrom, l, r)), row)
    ensures Value(Compare(Equal, l, r), row) ==
            Value(Conjunction(true, [Compare(GreaterEqual, l, r), Compare(LessEqual, l, r)]), row)
  {
    var ge, le := Compare(GreaterEqual, l, r), Compare(LessEqual, l, r);
    var both := [ge, le];
    assert both[0] == ge && both[1] == le;
    assert Value(Conjunction(true, both), row) == Truth(Value(both[0], row) != 0 && Value(both[1], row) != 0);
  }

  /** AND holds if all children do, and OR is AND by De Morgan's law. */
  lemma ConjunctionMeans(cs: seq<Expr>, row: Row)
    ensures Value(Conjunction(true, cs), row) == 1 <==> forall c <- cs :: Value(c, row) != 0
    ensures Value(Conjunction(false, cs), row) ==
            Value(Not(Conjunction(true, seq(|cs|, i requires 0 <= i < |cs| => Not(cs[i])))), row)
  {
    if Value(Conjunction(true, cs), row) == 1 {
      forall c | c in cs
        ensures Value(c, row) != 0
      {
        var i :| 0 <= i < |cs| && cs[i] == c;
      }
    } else {
      var i :| 0 <= i < |cs| && Value(cs[i], row) == 0;
      assert cs[i] in cs;
    }
    var negated := seq(|cs|, i requires 0 <= i < |cs| => Not(cs[i]));
    forall i | 0 <= i < |cs|
      ensures Value(negated[i], row) != 0 <==> Value(cs[i], row) == 0
    {
      assert negated[i] == Not(cs[i]);
    }
  }

  /** BETWEEN is the conjunction of two comparisons, strict ones for the bounds that it excludes. */
  lemma BetweenIsConjunction(x: Expr, lo: Expr, hi: Expr, lowerInclusive: bool, upperInclusive: bool, row: Row)
    ensures var lower := Compare(if lowerInclusive then GreaterEqual else Greater, x, lo);
            var upper := Compare(if upperInclusive then LessEqual else Less, x, hi);
            Value(Between(x, lo, hi, lowerInclusive, upperInclusive), row) == Value(Conjunction(true, [lower, upper]), row)
  {
    var lower := Compare(if lowerInclusive then GreaterEqual else Greater, x, lo);
    var upper := Compare(if upperInclusive then LessEqual else Less, x, hi);
    var both := [lower, upper];
    assert both[0] == lower && both[1] == upper;
    assert Value(Conjunction(true, both), row) == Truth(Value(both[0], row) != 0 && Value(both[1], row) != 0);
  }

  /** IN is the disjunction of equalities, NOT IN its negation; with fewer than two operands it throws. */
  lemma InIsDisjunction(x: Expr, ys: seq<Expr>, row: Row)
    ensures var any := Conjunction(false, seq(|ys|, i requires 0 <= i < |ys| => Compare(Equal, x, ys[i])));
            && Value(In(false, [x] + ys), row) == Value(any, row)
            && Value(In(true, [x] + ys), row) == Value(Not(any), row)
    ensures ys == [] ==> !Quiet(In(false, [x] + ys), row) && !Quiet(In(true, [x] + ys), row)
  {
    var equals, all := seq(|ys|, i requires 0 <= i < |ys| => Compare(Equal, x, ys[i])), [x] + ys;
    forall i | 0 <= i < |ys|
      ensures Value(equals[i], row) != 0 <==> Value(all[i + 1], row) == Value(all[0], row)
    {
      assert equals[i] == Compare(Equal, x, ys[i]) && all[i + 1] == ys[i];
    }
    if exists i | 1 <= i < |all| :: Value(all[i], row) == Value(all[0], row) {
      var i :| 1 <= i < |all| && Value(all[i], row) == Value(all[0], row);
      assert Value(equals[i - 1], row) != 0;
    }
  }

  /** CASE takes the THEN of its first WHEN if that is true, and is the CASE of the other checks if not. */
  lemma {:induction false} CaseUnfolds(checks: seq<CaseCheck>, els: Expr, row: Row)
    ensures Value(Case([], els), row) == Value(els, row)
    ensures checks != [] ==>
              Value(Case(checks, els), row) ==
              if Value(checks[0].whenExpr, row) != 0 then Value(checks[0].thenExpr, row) else Value(Case(checks[1..], els), row)
  {
    if checks != [] && Value(checks[0].whenExpr, row) == 0 {
      TailOfChecks(checks, els, 1, row);
    }
  }

  lemma {:induction false} TailOfChecks(checks: seq<CaseCheck>, els: Expr, i: nat, row: Row)
    requires 1 <= i <= |checks|
    ensures FirstTrue(Case(checks, els), i, row) == FirstTrue(Case(checks[1..], els), i - 1, row)
    decreases |checks| - i
  {
    if i < |checks| {
      TailOfChecks(checks, els, i + 1, row);
      assert checks[1..][i - 1] == checks[i];
    }
  }

  // -------------------------------------------------------------------------------------------
  // Where execution departs from the expression
  // -------------------------------------------------------------------------------------------

  /** No part of `e` is a NOT IN over constants only or a BETWEEN that excludes a bound. */
  predicate RunsAsWritten(e: Expr) {
    match e
    case Between(x, lo, hi, lowerIncl, upperIncl) =>
      lowerIncl && upperIncl && RunsAsWritten(x) && RunsAsWritten(lo) && RunsAsWritten(hi)
    case Compare(_, l, r) => RunsAsWritten(l) && RunsAsWritten(r)
    case Conjunction(_, cs) => forall i | 0 <= i < |cs| :: RunsAsWritten(cs[i])
    case Not(c) => RunsAsWritten(c)
    case In(negated, cs) => !(negated && AllConstant(cs)) && forall i | 0 <= i < |cs| :: RunsAsWritten(cs[i])
    case Case(checks, els) =>
      RunsAsWritten(els) &&
      forall i | 0 <= i < |checks| :: RunsAsWritten(checks[i].whenExpr) && RunsAsWritten(checks[i].thenExpr)
    case _ => true
  }

  /** Without such a part, what is executed is the expression itself. */
  lemma {:induction false} ExecutedAsWritten(e: Expr)
    requires RunsAsWritten(e)
    ensures Executed(e) == e
  {
    match e
    case Between(x, lo, hi, _, _) => ExecutedAsWritten(x); ExecutedAsWritten(lo); ExecutedAsWritten(hi);
    case Compare(_, l, r) => ExecutedAsWritten(l); ExecutedAsWritten(r);
    case Conjunction(_, cs) => AllAsWritten(e, cs);
    case Not(c) => ExecutedAsWritten(c);
    case In(_, cs) => AllAsWritten(e, cs);
    case Case(checks, els) =>
      ExecutedAsWritten(els);
      forall i | 0 <= i < |checks|
        ensures CaseCheck(Executed(checks[i].whenExpr), Executed(checks[i].thenExpr)) == checks[i]
      {
        ExecutedAsWritten(checks[i].whenExpr);
        ExecutedAsWritten(checks[i].thenExpr);
      }
    case _ =>
  }

  lemma {:induction false} AllAsWritten(e: Expr, cs: seq<Expr>)
    requires (forall i :: 0 <= i < |cs| ==> cs[i] < e) && forall i | 0 <= i < |cs| :: RunsAsWritten(cs[i])
    ensures seq(|cs|, i requires 0 <= i < |cs| => Executed(cs[i])) == cs
  {
    forall i | 0 <= i < |cs|
      ensures Executed(cs[i]) == cs[i]
    {
      ExecutedAsWritten(cs[i]);
    }
  }

  /** An IN whose operands are executed as written is right on a row if and only if it is not a
      NOT IN over constants only; then it is wrong on every row. */
  lemma InIsRightIff(e: Expr, row: Row)
    requires e.In? && forall i | 0 <= i < |e.operands| :: RunsAsWritten(e.operands[i])
    ensures Value(Executed(e), row) == Value(e, row) <==>
            !(e.negated && forall i :: 1 <= i < |e.operands| ==> e.operands[i].Constant?)
  {
    AllAsWritten(e, e.operands);
  }

  /** A BETWEEN whose operands are executed as written is right on a row if and only if the input
      there is not, within the two bounds, equal to a bound that the BETWEEN excludes; such a row is
      kept. */
  lemma BetweenIsRightIff(e: Expr, row: Row)
    requires e.Between? && RunsAsWritten(e.input) && RunsAsWritten(e.lower) && RunsAsWritten(e.upper)
    ensures var x, lo, hi := Value(e.input, row), Value(e.lower, row), Value(e.upper, row);
            Value(Executed(e), row) == Value(e, row) <==>
              !(lo <= x <= hi && ((x == lo && !e.lowerInclusive) || (x == hi && !e.upperInclusive)))
    ensures Value(Executed(e), row) != Value(e, row) ==> Value(Executed(e), row) == 1
  {
    ExecutedAsWritten(e.input);
    ExecutedAsWritten(e.lower);
    ExecutedAsWritten(e.upper);
  }
}

/** Comparison operators on non-null data. */
module Comparisons {
  datatype Comparison = Equal | NotDistinctFrom | NotEqual | DistinctFrom | Less | Greater | LessEqual | GreaterEqual {

    predicate IsEquality() {
      Equal? || NotDistinctFrom?
    }

    predicate Holds(left: int, right: int) {
      match this
      case Equal => left == right
      case NotDistinctFrom => left == right
      case NotEqual => left != right
      case DistinctFrom => left != right
      case Less => left < right
      case Greater => left > right
      case LessEqual => left <= right
      case GreaterEqual => left >= right
    }
  }

  /** Each operator is its opposite negated, and the two bounds together are equality. */
  lemma Opposites(left: int, right: int)
    ensures Less.Holds(left, right) <==> !GreaterEqual.Holds(left, right)
    ensures Greater.Holds(left, right) <==> !LessEqual.Holds(left, right)
    ensures Less.Holds(left, right) <==> Greater.Holds(right, left)
    ensures NotEqual.Holds(left, right) <==> !Equal.Holds(left, right)
    ensures DistinctFrom.Holds(left, right) <==> !NotDistinctFrom.Holds(left, right)
    ensures Equal.Holds(left, right) <==> GreaterEqual.Holds(left, right) && LessEqual.Holds(left, right)
    ensures NotDistinctFrom.Holds(left, right) <==> Equal.Holds(left, right)
    ensures GreaterEqual.Holds(left, right) <==> left >= right
  {
  }

  /** The equalities are the operators that hold of equal values only, and of all of these. */
  lemma EqualityIff(op: Comparison)
    ensures op.IsEquality() <==> forall left: int, right: int :: op.Holds(left, right) <==> left == right
  {
    assert op.Holds(0, 0) || !op.Holds(0, 0);
    assert op.Holds(0, 1) || !op.Holds(0, 1);
    assert op.Holds(1, 0) || !op.Holds(1, 0);
  }
}

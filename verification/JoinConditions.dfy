/** Join conditions on non-null data: the two orders that the join constructors give them, and
    what the pairs of rows that satisfy all of them look like. */
module JoinConditions {
  import opened Options
  import opened Comparisons

  /** `right` is the build-side column, if that side is a plain column reference. */
  datatype Condition = Condition(left: nat, comparison: Comparison, right: Option<nat>)

  function Equalities(cs: seq<Condition>): seq<Condition> {
    if cs == [] then []
    else Equalities(cs[..|cs| - 1]) + if cs[|cs| - 1].comparison.IsEquality() then [cs[|cs| - 1]] else []
  }

  function Others(cs: seq<Condition>): seq<Condition> {
    if cs == [] then []
    else Others(cs[..|cs| - 1]) + if cs[|cs| - 1].comparison.IsEquality() then [] else [cs[|cs| - 1]]
  }

  /** Equalities first, both parts in their own order. */
  function Partitioned(cs: seq<Condition>): seq<Condition> {
    Equalities(cs) + Others(cs)
  }

  lemma {:induction false} PartsOf(cs: seq<Condition>)
    ensures multiset(Partitioned(cs)) == multiset(cs)
    ensures forall c <- Equalities(cs) :: c.comparison.IsEquality()
    ensures forall c <- Others(cs) :: !c.comparison.IsEquality()
    ensures |Equalities(cs)| + |Others(cs)| == |cs|
  {
    if cs != [] {
      var k := |cs| - 1;
      PartsOf(cs[..k]);
      assert cs == cs[..k] + [cs[k]];
      assert multiset(Partitioned(cs)) == multiset(Equalities(cs)) + multiset(Others(cs));
    }
  }

  /** All conditions hold for rows whose compared values `value` gives. */
  ghost predicate AllHold(cs: seq<Condition>, value: Condition -> (int, int)) {
    forall c <- cs :: c.comparison.Holds(value(c).0, value(c).1)
  }

  lemma PermutedHold(a: seq<Condition>, b: seq<Condition>, value: Condition -> (int, int))
    requires multiset(a) == multiset(b)
    ensures AllHold(a, value) <==> AllHold(b, value)
  {
    assert forall c :: c in a <==> c in multiset(a);
    assert forall c :: c in b <==> c in multiset(b);
  }

  /** No equality comes behind another condition. */
  predicate EqualitiesLead(cs: seq<Condition>) {
    forall i, j :: 0 <= i < j < |cs| && cs[j].comparison.IsEquality() ==> cs[i].comparison.IsEquality()
  }

  lemma {:induction false} OnlyEqualities(cs: seq<Condition>)
    requires forall c <- cs :: c.comparison.IsEquality()
    ensures Equalities(cs) == cs && Others(cs) == []
  {
    if cs != [] {
      assert cs == cs[..|cs| - 1] + [cs[|cs| - 1]];
      OnlyEqualities(cs[..|cs| - 1]);
    }
  }

  lemma {:induction false} LeadingIsPartitioned(cs: seq<Condition>)
    requires EqualitiesLead(cs)
    ensures Partitioned(cs) == cs
  {
    if cs != [] {
      var k := |cs| - 1;
      assert cs == cs[..k] + [cs[k]];
      if cs[k].comparison.IsEquality() {
        OnlyEqualities(cs);
      } else {
        LeadingIsPartitioned(cs[..k]);
      }
    }
  }

  // ReorderConditions, with its early return when the order is right already.
  method ReorderConditions(conditions: seq<Condition>) returns (ordered: seq<Condition>)
    ensures ordered == Partitioned(conditions)
    ensures EqualitiesLead(conditions) ==> ordered == conditions
  {
    var isOrdered, seenNonEqual := true, false;
    var i := 0;
    while i < |conditions|
      invariant i <= |conditions| && isOrdered
      invariant seenNonEqual <==> exists k :: 0 <= k < i && !conditions[k].comparison.IsEquality()
      invariant EqualitiesLead(conditions[..i])
    {
      if conditions[i].comparison.IsEquality() {
        if seenNonEqual {
          isOrdered := false;
          break;
        }
      } else {
        seenNonEqual := true;
      }
      i := i + 1;
    }
    if EqualitiesLead(conditions) {
      LeadingIsPartitioned(conditions);
    }
    if isOrdered {
      assert conditions[..i] == conditions;
      return conditions;
    }
    var equalConditions, otherConditions: seq<Condition> := [], [];
    for k := 0 to |conditions|
      invariant equalConditions == Equalities(conditions[..k]) && otherConditions == Others(conditions[..k])
    {
      assert conditions[..k + 1][..k] == conditions[..k];
      if conditions[k].comparison.IsEquality() {
        equalConditions := equalConditions + [conditions[k]];
      } else {
        otherConditions := otherConditions + [conditions[k]];
      }
    }
    assert conditions[..|conditions|] == conditions;
    ordered := equalConditions + otherConditions;
  }

  function Backwards<T>(s: seq<T>): (r: seq<T>)
    ensures |r| == |s| && multiset(r) == multiset(s) && forall k :: 0 <= k < |s| ==> r[k] == s[|s| - 1 - k]
  {
    if s == [] then []
    else
      assert s == s[..|s| - 1] + [s[|s| - 1]];
      [s[|s| - 1]] + Backwards(s[..|s| - 1])
  }

  // The nested-loop join's constructor fills its conditions from both ends.
  method PlaceConditions(cond: seq<Condition>, conditions: array<Condition>)
    requires conditions.Length == |cond|
    modifies conditions
    ensures conditions[..] == Equalities(cond) + Backwards(Others(cond))
  {
    hide Equalities, Others, Backwards;
    var n := |cond|;
    var equalPosition: nat, otherPosition: int := 0, n - 1;
    ghost var e, o: seq<Condition> := [], [];
    assert cond[..0] == [] && e == Equalities([]) && o == Others([]) && Backwards(o) == [] by { NoParts(); }
    for i := 0 to n
      invariant e == Equalities(cond[..i]) && o == Others(cond[..i])
      invariant equalPosition == |e| && n - 1 - otherPosition == |o| && |e| + |o| == i
      invariant forall k :: 0 <= k < |e| ==> conditions[k] == e[k]
      invariant forall k :: 0 <= k < |o| ==> conditions[otherPosition + 1 + k] == Backwards(o)[k]
    {
      PartsStep(cond, i);
      if cond[i].comparison.IsEquality() {
        conditions[equalPosition] := cond[i];
        equalPosition := equalPosition + 1;
        e := e + [cond[i]];
      } else {
        BackwardsStep(o, cond[i]);
        conditions[otherPosition] := cond[i];
        otherPosition := otherPosition - 1;
        o := o + [cond[i]];
      }
    }
    assert cond[..n] == cond;
    assert conditions[..] == e + Backwards(o);
  }

  lemma NoParts()
    ensures Equalities([]) == [] && Others([]) == [] && Backwards<Condition>([]) == []
  {
  }

  lemma PartsStep(cs: seq<Condition>, i: nat)
    requires i < |cs|
    ensures Equalities(cs[..i + 1]) == Equalities(cs[..i]) + if cs[i].comparison.IsEquality() then [cs[i]] else []
    ensures Others(cs[..i + 1]) == Others(cs[..i]) + if cs[i].comparison.IsEquality() then [] else [cs[i]]
  {
    assert cs[..i + 1][..i] == cs[..i];
  }

  lemma BackwardsStep<T>(s: seq<T>, x: T)
    ensures Backwards(s + [x]) == [x] + Backwards(s)
  {
    assert (s + [x])[..|s|] == s;
  }

  /** Neither order changes which rows join. */
  lemma OrdersAgree(cond: seq<Condition>, value: Condition -> (int, int))
    ensures AllHold(Partitioned(cond), value) <==> AllHold(cond, value)
    ensures AllHold(Equalities(cond) + Backwards(Others(cond)), value) <==> AllHold(cond, value)
  {
    PartsOf(cond);
    PermutedHold(Partitioned(cond), cond, value);
    assert multiset(Equalities(cond) + Backwards(Others(cond))) == multiset(Equalities(cond)) + multiset(Others(cond));
    PermutedHold(Equalities(cond) + Backwards(Others(cond)), Partitioned(cond), value);
  }

  // -------------------------------------------------------------------------------------------
  // Matching rows
  // -------------------------------------------------------------------------------------------

  type Keys = seq<seq<int>>

  predicate NoDuplicates<T(==)>(s: seq<T>) {
    forall a, b :: 0 <= a < b < |s| ==> s[a] != s[b]
  }

  /** Row `i` of the probe keys and row `j` of the build keys satisfy every condition. */
  predicate Matches(cs: seq<Condition>, probe: Keys, build: Keys, i: nat, j: nat) {
    |probe| == |build| == |cs| &&
    forall c :: 0 <= c < |cs| ==> i < |probe[c]| && j < |build[c]| && cs[c].comparison.Holds(probe[c][i], build[c][j])
  }

  /** A pair of rows satisfies a condition exactly if it does not satisfy the opposite one; on data without
      nulls DISTINCT FROM is inequality. */
  lemma OppositeConditions(left: nat, right: Option<nat>, probe: seq<int>, build: seq<int>, i: nat, j: nat)
    requires i < |probe| && j < |build|
    ensures Matches([Condition(left, DistinctFrom, right)], [probe], [build], i, j)
            <==> !Matches([Condition(left, NotDistinctFrom, right)], [probe], [build], i, j)
    ensures Matches([Condition(left, NotEqual, right)], [probe], [build], i, j)
            <==> !Matches([Condition(left, Equal, right)], [probe], [build], i, j)
    ensures Matches([Condition(left, Less, right)], [probe], [build], i, j)
            <==> !Matches([Condition(left, GreaterEqual, right)], [probe], [build], i, j)
    ensures Matches([Condition(left, Greater, right)], [probe], [build], i, j)
            <==> !Matches([Condition(left, LessEqual, right)], [probe], [build], i, j)
    ensures Matches([Condition(left, NotDistinctFrom, right)], [probe], [build], i, j)
            <==> Matches([Condition(left, GreaterEqual, right), Condition(left, LessEqual, right)],
                         [probe, probe], [build, build], i, j)
    ensures Matches([Condition(left, Equal, right)], [probe], [build], i, j) <==> probe[i] == build[j]
  {
    Opposites(probe[i], build[j]);
    forall op: Comparison
      ensures Matches([Condition(left, op, right)], [probe], [build], i, j) <==> op.Holds(probe[i], build[j])
    {
      assert [Condition(left, op, right)][0].comparison == op && [probe][0] == probe && [build][0] == build;
    }
    var both := [Condition(left, GreaterEqual, right), Condition(left, LessEqual, right)];
    assert both[0].comparison == GreaterEqual && both[1].comparison == LessEqual;
    assert [probe, probe][1] == probe && [build, build][1] == build;
  }

  /** What the join kernels return: every matching pair of rows, once. */
  ghost predicate IsJoin(cs: seq<Condition>, probe: Keys, build: Keys, left: seq<nat>, right: seq<nat>) {
    && |left| == |right|
    && (forall a :: 0 <= a < |left| ==> Matches(cs, probe, build, left[a], right[a]))
    && (forall a, b :: 0 <= a < b < |left| ==> left[a] != left[b] || right[a] != right[b])
    && forall i: nat, j: nat :: Matches(cs, probe, build, i, j) ==> exists a :: 0 <= a < |left| && left[a] == i && right[a] == j
  }

  /** A build key without duplicates on an equality: each probe row matches at most once. */
  lemma UniqueBuildKey(cs: seq<Condition>, probe: Keys, build: Keys, left: seq<nat>, right: seq<nat>, c: nat)
    requires IsJoin(cs, probe, build, left, right) && |probe| == |build| == |cs|
    requires c < |cs| && cs[c].comparison.IsEquality() && NoDuplicates(build[c])
    ensures NoDuplicates(left)
  {
    forall a, b | 0 <= a < b < |left|
      ensures left[a] != left[b]
    {
      assert Matches(cs, probe, build, left[a], right[a]) && Matches(cs, probe, build, left[b], right[b]);
    }
  }

  lemma UniqueProbeKey(cs: seq<Condition>, probe: Keys, build: Keys, left: seq<nat>, right: seq<nat>, c: nat)
    requires IsJoin(cs, probe, build, left, right) && |probe| == |build| == |cs|
    requires c < |cs| && cs[c].comparison.IsEquality() && NoDuplicates(probe[c])
    ensures NoDuplicates(right)
  {
    forall a, b | 0 <= a < b < |right|
      ensures right[a] != right[b]
    {
      assert Matches(cs, probe, build, left[a], right[a]) && Matches(cs, probe, build, left[b], right[b]);
    }
  }

  /** The flagged build keys hold no duplicates. */
  ghost predicate Flagged(flags: seq<bool>, keys: Keys) {
    |flags| == |keys| && forall c :: 0 <= c < |keys| && flags[c] ==> NoDuplicates(keys[c])
  }

  /** On all data, unique build keys as flagged keep probe rows from being repeated. */
  ghost predicate FlagsSuffice(cs: seq<Condition>, flags: seq<bool>) {
    forall probe: Keys, build: Keys, left: seq<nat>, right: seq<nat> ::
      IsJoin(cs, probe, build, left, right) && Flagged(flags, build) && |probe| == |build| == |cs| ==> NoDuplicates(left)
  }

  /** A probe value that compares with 1 and, unless for an equality, with 2 as well. */
  function ProbeValue(c: Comparison): int {
    if c.IsEquality() then 1 else if c.Greater? || c.GreaterEqual? then 3 else 0
  }

  /** One flagged key is enough for `unique_build_keys` to be set; it is right to conclude that
      no probe row repeats if and only if some flagged key sits on an equality. */
  lemma FlagsSufficeIff(cs: seq<Condition>, flags: seq<bool>)
    requires |flags| == |cs| && cs != []
    ensures FlagsSuffice(cs, flags) <==> exists c :: 0 <= c < |cs| && flags[c] && cs[c].comparison.IsEquality()
  {
    if c :| 0 <= c < |cs| && flags[c] && cs[c].comparison.IsEquality() {
      forall probe: Keys, build: Keys, left: seq<nat>, right: seq<nat> |
        IsJoin(cs, probe, build, left, right) && Flagged(flags, build) && |probe| == |build| == |cs|
        ensures NoDuplicates(left)
      {
        UniqueBuildKey(cs, probe, build, left, right, c);
      }
    } else {
      var probe := seq(|cs|, c requires 0 <= c < |cs| => [ProbeValue(cs[c].comparison)]);
      var build := seq(|cs|, c requires 0 <= c < |cs| => if flags[c] then [1, 2] else [1, 1]);
      var left, right := [0, 0], [0, 1];
      assert Matches(cs, probe, build, 0, 0) && Matches(cs, probe, build, 0, 1);
      forall i: nat, j: nat | Matches(cs, probe, build, i, j)
        ensures exists a :: 0 <= a < |left| && left[a] == i && right[a] == j
      {
        assert i < |probe[0]| && j < |build[0]|;
        assert left[j] == i && right[j] == j;
      }
      assert IsJoin(cs, probe, build, left, right) && Flagged(flags, build);
      assert left[0] == left[1];
    }
  }

  /** On all data, unique probe keys as flagged keep build rows from being repeated. */
  ghost predicate ProbeFlagsSuffice(cs: seq<Condition>, flags: seq<bool>) {
    forall probe: Keys, build: Keys, left: seq<nat>, right: seq<nat> ::
      IsJoin(cs, probe, build, left, right) && Flagged(flags, probe) && |probe| == |build| == |cs| ==> NoDuplicates(right)
  }

  /** A build value that 1 and, unless for an equality, 2 as well compare with. */
  function BuildValue(c: Comparison): int {
    if c.IsEquality() then 1 else if c.Less? || c.LessEqual? then 3 else 0
  }

  /** The same on the other side: `unique_probe_keys` is right to conclude that no build row repeats
      if and only if some flagged key sits on an equality. */
  lemma ProbeFlagsSufficeIff(cs: seq<Condition>, flags: seq<bool>)
    requires |flags| == |cs| && cs != []
    ensures ProbeFlagsSuffice(cs, flags) <==> exists c :: 0 <= c < |cs| && flags[c] && cs[c].comparison.IsEquality()
  {
    if c :| 0 <= c < |cs| && flags[c] && cs[c].comparison.IsEquality() {
      forall probe: Keys, build: Keys, left: seq<nat>, right: seq<nat> |
        IsJoin(cs, probe, build, left, right) && Flagged(flags, probe) && |probe| == |build| == |cs|
        ensures NoDuplicates(right)
      {
        UniqueProbeKey(cs, probe, build, left, right, c);
      }
    } else {
      var probe := seq(|cs|, c requires 0 <= c < |cs| => if flags[c] then [1, 2] else [1, 1]);
      var build := seq(|cs|, c requires 0 <= c < |cs| => [BuildValue(cs[c].comparison)]);
      var left, right := [0, 1], [0, 0];
      assert Matches(cs, probe, build, 0, 0) && Matches(cs, probe, build, 1, 0);
      forall i: nat, j: nat | Matches(cs, probe, build, i, j)
        ensures exists a :: 0 <= a < |left| && left[a] == i && right[a] == j
      {
        assert i < |probe[0]| && j < |build[0]|;
        assert left[i] == i && right[i] == j;
      }
      assert IsJoin(cs, probe, build, left, right) && Flagged(flags, probe);
      assert right[0] == right[1];
    }
  }
}

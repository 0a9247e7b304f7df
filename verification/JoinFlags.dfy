/** When the uniqueness flags that a hash inner join hands on are right, whatever the two relations
    hold. */
module JoinFlags {
  import opened Options
  import opened Comparisons
  import opened JoinConditions
  import opened LateMaterialization
  import opened HashJoins
  import opened Flows

  /** Columns of `n` rows that are flagged like `like`, rightly so. */
  ghost predicate IsData(columns: seq<Rows>, like: seq<Rows>, n: nat) {
    && |columns| == |like| && FlagsHold(columns)
    && forall k :: 0 <= k < |columns| ==> columns[k].unique == like[k].unique && (columns[k].values == [] || |columns[k].values| == n)
  }

  /** All references in range, and no build column used twice. */
  ghost predicate Keyed(cs: seq<Condition>, l: seq<Rows>, r: seq<Rows>) {
    AllReferences(cs) && DistinctKeys(cs) && Below(LeftKeys(cs), |l|) && Below(RightKeys(cs), |r|)
  }

  ghost predicate JoinsTo(cs: seq<Condition>, l: seq<Rows>, r: seq<Rows>, left: seq<nat>, right: seq<nat>)
    requires AllReferences(cs)
  {
    IsJoin(cs, Values(l, LeftKeys(cs)), Values(r, RightKeys(cs)), left, right)
  }

  /** The output of the join `j`. */
  function Output(j: JoinStep, l: seq<Rows>, r: seq<Rows>, left: seq<nat>, right: seq<nat>, n: nat, m: nat): seq<Rows> {
    TakeAll(LeftColumns(j, l), left, n, BuildFlag(j.conditions, r))
    + TakeAll(RightColumns(j, r), right, m, ProbeFlag(j.conditions, l))
  }

  /** On all relations flagged like `l` and `r`, all flagged output columns have no duplicates. */
  ghost predicate FlagsRight(j: JoinStep, l: seq<Rows>, r: seq<Rows>)
    requires AllReferences(j.conditions)
  {
    forall l': seq<Rows>, r': seq<Rows>, left: seq<nat>, right: seq<nat>, n: nat, m: nat ::
      IsData(l', l, n) && IsData(r', r, m) && JoinsTo(j.conditions, l', r', left, right) ==>
      FlagsHold(Output(j, l', r', left, right, n, m))
  }

  lemma SameFlags(j: JoinStep, l: seq<Rows>, r: seq<Rows>, l': seq<Rows>, r': seq<Rows>, n: nat, m: nat)
    requires AllReferences(j.conditions) && IsData(l', l, n) && IsData(r', r, m)
    ensures BuildFlag(j.conditions, r') == BuildFlag(j.conditions, r) && ProbeFlag(j.conditions, l') == ProbeFlag(j.conditions, l)
    ensures FlagsCarried(j, l, r) ==> FlagsCarried(j, l', r')
  {
    hide NoDuplicates;
    var lp, rp := Projection(j.leftMap, |l|), Projection(j.rightMap, |r|);
    assert forall k :: 0 <= k < |lp| ==> Project(l', lp)[k].unique == Project(l, lp)[k].unique;
    assert forall k :: 0 <= k < |rp| ==> Project(r', rp)[k].unique == Project(r, rp)[k].unique;
  }

  /** The comparison that build column `k` is used in. */
  function ComparisonOf(cs: seq<Condition>, k: nat): Option<Comparison> {
    if cs == [] then None
    else if cs[0].right == Some(k) then Some(cs[0].comparison)
    else ComparisonOf(cs[1..], k)
  }

  lemma {:induction false} ComparisonIs(cs: seq<Condition>, c: nat)
    requires AllReferences(cs) && DistinctKeys(cs) && c < |cs|
    ensures ComparisonOf(cs, cs[c].right.value) == Some(cs[c].comparison)
  {
    if c > 0 {
      assert cs[0].right != cs[c].right;
      ComparisonIs(cs[1..], c - 1);
    }
  }

  lemma {:induction false} ComparisonFrom(cs: seq<Condition>, k: nat)
    requires ComparisonOf(cs, k).Some?
    ensures exists c :: 0 <= c < |cs| && cs[c].right == Some(k) && ComparisonOf(cs, k) == Some(cs[c].comparison)
  {
    if cs[0].right != Some(k) {
      ComparisonFrom(cs[1..], k);
      var c :| 0 <= c < |cs[1..]| && cs[1..][c].right == Some(k) && ComparisonOf(cs[1..], k) == Some(cs[1..][c].comparison);
      assert cs[c + 1].right == Some(k);
    }
  }

  /** Two build values that 0 compares with; the same ones only for an equality. */
  function TwoBelowZero(c: Option<Comparison>): (values: seq<int>)
    ensures |values| == 2 && (c.Some? ==> c.value.Holds(0, values[0]) && c.value.Holds(0, values[1]))
    ensures values[0] == values[1] ==> c.Some? && c.value.IsEquality()
  {
    if c.None? then [1, 2]
    else if c.value.IsEquality() then [0, 0]
    else if c.value.Greater? || c.value.GreaterEqual? then [-1, -2]
    else [1, 2]
  }

  lemma PairsOfOneAndTwo(cs: seq<Condition>, probe: Keys, build: Keys)
    requires cs != [] && |probe| == |build| == |cs|
    requires forall c :: 0 <= c < |cs| ==> |probe[c]| == 1 && |build[c]| == 2
    requires forall c :: 0 <= c < |cs| ==>
               cs[c].comparison.Holds(probe[c][0], build[c][0]) && cs[c].comparison.Holds(probe[c][0], build[c][1])
    ensures IsJoin(cs, probe, build, [0, 0], [0, 1])
  {
    var left, right := [0, 0], [0, 1];
    forall i: nat, j: nat | Matches(cs, probe, build, i, j)
      ensures exists a :: 0 <= a < |left| && left[a] == i && right[a] == j
    {
      assert i < |probe[0]| && j < |build[0]|;
      assert left[j] == i && right[j] == j;
    }
  }

  lemma PairsOfTwoAndOne(cs: seq<Condition>, probe: Keys, build: Keys)
    requires cs != [] && |probe| == |build| == |cs|
    requires forall c :: 0 <= c < |cs| ==> |probe[c]| == 2 && |build[c]| == 1
    requires forall c :: 0 <= c < |cs| ==>
               cs[c].comparison.Holds(probe[c][0], build[c][0]) && cs[c].comparison.Holds(probe[c][1], build[c][0])
    ensures IsJoin(cs, probe, build, [0, 1], [0, 0])
  {
    var left, right := [0, 1], [0, 0];
    forall i: nat, j: nat | Matches(cs, probe, build, i, j)
      ensures exists a :: 0 <= a < |left| && left[a] == i && right[a] == j
    {
      assert i < |probe[0]| && j < |build[0]|;
      assert left[i] == i && right[i] == j;
    }
  }

  /** One probe row, and two build rows that it matches. */
  function OneRow(l: seq<Rows>): seq<Rows> {
    seq(|l|, k requires 0 <= k < |l| => Rows([0], l[k].unique))
  }

  function TwoMatches(cs: seq<Condition>, r: seq<Rows>): seq<Rows> {
    seq(|r|, k requires 0 <= k < |r| => Rows(TwoBelowZero(ComparisonOf(cs, k)), r[k].unique))
  }

  lemma TwoMatchesData(cs: seq<Condition>, l: seq<Rows>, r: seq<Rows>)
    requires !BuildEqualityFlagged(cs, r)
    ensures IsData(OneRow(l), l, 1) && IsData(TwoMatches(cs, r), r, 2)
  {
    hide ComparisonOf, TwoBelowZero;
    forall k | 0 <= k < |r| && r[k].unique
      ensures NoDuplicates(TwoMatches(cs, r)[k].values)
    {
      if ComparisonOf(cs, k).Some? {
        ComparisonFrom(cs, k);
      }
    }
  }

  lemma TwoMatchesKeys(cs: seq<Condition>, l: seq<Rows>, r: seq<Rows>, c: nat)
    requires Keyed(cs, l, r) && c < |cs|
    ensures Values(OneRow(l), LeftKeys(cs))[c] == [0]
    ensures Values(TwoMatches(cs, r), RightKeys(cs))[c] == TwoBelowZero(Some(cs[c].comparison))
  {
    hide ComparisonOf, TwoBelowZero, DistinctKeys;
    assert LeftKeys(cs)[c] < |l| && RightKeys(cs)[c] < |r|;
    ComparisonIs(cs, c);
  }

  lemma TwoMatchesJoin(cs: seq<Condition>, l: seq<Rows>, r: seq<Rows>)
    requires Keyed(cs, l, r) && cs != []
    ensures JoinsTo(cs, OneRow(l), TwoMatches(cs, r), [0, 0], [0, 1])
  {
    hide OneRow, TwoMatches, Values, Below, DistinctKeys, TwoBelowZero;
    var lk, rk := Values(OneRow(l), LeftKeys(cs)), Values(TwoMatches(cs, r), RightKeys(cs));
    forall c | 0 <= c < |cs|
      ensures lk[c] == [0] && rk[c] == TwoBelowZero(Some(cs[c].comparison))
    {
      TwoMatchesKeys(cs, l, r, c);
    }
    PairsOfOneAndTwo(cs, lk, rk);
  }

  /** The flagged column of the one probe row holds it twice. */
  lemma LeftRepeated(j: JoinStep, l: seq<Rows>, r': seq<Rows>)
    requires Below(Projection(j.leftMap, |l|), |l|) && SomeFlagged(LeftColumns(j, l)) && BuildFlag(j.conditions, r')
    ensures !FlagsHold(Output(j, OneRow(l), r', [0, 0], [0, 1], 1, 2))
  {
    hide BuildFlag, ProbeFlag, NoDuplicates;
    var l', left := OneRow(l), [0, 0];
    var k :| 0 <= k < |LeftColumns(j, l)| && LeftColumns(j, l)[k].unique;
    var out := Output(j, l', r', left, [0, 1], 1, 2);
    assert LeftColumns(j, l')[k] == Rows([0], true);
    assert out[k] == Take(Rows([0], true), left, 1, true);
    assert Gather([0], left) == [0, 0] == out[k].values;
    RepeatedZero(out[k].values);
  }

  lemma RepeatedProbeRow(j: JoinStep, l: seq<Rows>, r: seq<Rows>)
    requires Keyed(j.conditions, l, r) && BuildFlag(j.conditions, r) && !BuildEqualityFlagged(j.conditions, r)
    requires Below(Projection(j.leftMap, |l|), |l|) && SomeFlagged(LeftColumns(j, l))
    ensures !FlagsRight(j, l, r)
  {
    hide TwoMatches, OneRow, DistinctKeys, IsData, JoinsTo, BuildEqualityFlagged, BuildFlag, ProbeFlag, FlagsHold, Output, SomeFlagged;
    SomeCondition(j.conditions, r);
    TwoMatchesData(j.conditions, l, r);
    TwoMatchesJoin(j.conditions, l, r);
    SameFlags(j, l, r, OneRow(l), TwoMatches(j.conditions, r), 1, 2);
    LeftRepeated(j, l, TwoMatches(j.conditions, r));
  }

  lemma SomeCondition(cs: seq<Condition>, r: seq<Rows>)
    ensures BuildFlag(cs, r) || ProbeFlag(cs, r) ==> cs != []
  {
  }

  lemma RepeatedZero(values: seq<int>)
    requires |values| == 2 && values[0] == values[1]
    ensures !NoDuplicates(values)
  {
  }

  /** One build row, and two probe rows that it matches. */
  function TwoProbes(l: seq<Rows>): seq<Rows> {
    seq(|l|, k requires 0 <= k < |l| => Rows(if l[k].unique then [1, 2] else [1, 1], l[k].unique))
  }

  function OneMatch(cs: seq<Condition>, r: seq<Rows>): seq<Rows> {
    seq(|r|, k requires 0 <= k < |r| =>
      Rows([if ComparisonOf(cs, k).Some? then BuildValue(ComparisonOf(cs, k).value) else 0], r[k].unique))
  }

  lemma OneMatchData(cs: seq<Condition>, l: seq<Rows>, r: seq<Rows>)
    ensures IsData(TwoProbes(l), l, 2) && IsData(OneMatch(cs, r), r, 1)
  {
    hide ComparisonOf;
  }

  lemma OneMatchKeys(cs: seq<Condition>, l: seq<Rows>, r: seq<Rows>, c: nat)
    requires Keyed(cs, l, r) && c < |cs| && !ProbeEqualityFlagged(cs, l)
    ensures var values := Values(TwoProbes(l), LeftKeys(cs))[c];
            |values| == 2 && values[0] == 1 && (values[1] == 1 || (values[1] == 2 && !cs[c].comparison.IsEquality()))
    ensures Values(OneMatch(cs, r), RightKeys(cs))[c] == [BuildValue(cs[c].comparison)]
  {
    hide ComparisonOf, DistinctKeys;
    assert LeftKeys(cs)[c] < |l| && RightKeys(cs)[c] < |r|;
    ComparisonIs(cs, c);
  }

  lemma OneMatchJoin(cs: seq<Condition>, l: seq<Rows>, r: seq<Rows>)
    requires Keyed(cs, l, r) && cs != [] && !ProbeEqualityFlagged(cs, l)
    ensures JoinsTo(cs, TwoProbes(l), OneMatch(cs, r), [0, 1], [0, 0])
  {
    hide TwoProbes, OneMatch, Values, Below, DistinctKeys, ProbeEqualityFlagged;
    var lk, rk := Values(TwoProbes(l), LeftKeys(cs)), Values(OneMatch(cs, r), RightKeys(cs));
    forall c | 0 <= c < |cs|
      ensures |lk[c]| == 2 && |rk[c]| == 1
      ensures cs[c].comparison.Holds(lk[c][0], rk[c][0]) && cs[c].comparison.Holds(lk[c][1], rk[c][0])
    {
      OneMatchKeys(cs, l, r, c);
    }
    PairsOfTwoAndOne(cs, lk, rk);
  }

  lemma RightRepeated(j: JoinStep, l': seq<Rows>, r: seq<Rows>)
    requires Below(Projection(j.rightMap, |r|), |r|) && SomeFlagged(RightColumns(j, r)) && ProbeFlag(j.conditions, l')
    ensures !FlagsHold(Output(j, l', OneMatch(j.conditions, r), [0, 1], [0, 0], 2, 1))
  {
    hide BuildFlag, ProbeFlag, NoDuplicates, ComparisonOf;
    var r', right := OneMatch(j.conditions, r), [0, 0];
    var k :| 0 <= k < |RightColumns(j, r)| && RightColumns(j, r)[k].unique;
    var out, at := Output(j, l', r', [0, 1], right, 2, 1), |LeftColumns(j, l')| + k;
    var c := RightColumns(j, r')[k];
    assert c.unique && |c.values| == 1;
    assert out[at] == Take(c, right, 1, true);
    assert Gather(c.values, right) == [c.values[0], c.values[0]] == out[at].values;
    RepeatedZero(out[at].values);
  }

  lemma RepeatedBuildRow(j: JoinStep, l: seq<Rows>, r: seq<Rows>)
    requires Keyed(j.conditions, l, r) && ProbeFlag(j.conditions, l) && !ProbeEqualityFlagged(j.conditions, l)
    requires Below(Projection(j.rightMap, |r|), |r|) && SomeFlagged(RightColumns(j, r))
    ensures !FlagsRight(j, l, r)
  {
    hide TwoProbes, OneMatch, DistinctKeys, IsData, JoinsTo, ProbeEqualityFlagged, BuildFlag, ProbeFlag, FlagsHold,
      Output, SomeFlagged;
    SomeCondition(j.conditions, l);
    OneMatchData(j.conditions, l, r);
    OneMatchJoin(j.conditions, l, r);
    SameFlags(j, l, r, TwoProbes(l), OneMatch(j.conditions, r), 2, 1);
    RightRepeated(j, TwoProbes(l), r);
  }

  /** The flags of the output columns are right on all relations if and only if, for either side: when
      some key of the other side is flagged and a flagged column of this side is handed on, the other
      side has a flagged key on an equality. */
  lemma FlagsRightIff(j: JoinStep, l: seq<Rows>, r: seq<Rows>)
    requires Keyed(j.conditions, l, r) && Below(j.leftMap, |l|) && Below(j.rightMap, |r|)
    ensures FlagsRight(j, l, r) <==> FlagsCarried(j, l, r)
  {
    hide IsData, JoinsTo, BuildFlag, ProbeFlag, BuildEqualityFlagged, ProbeEqualityFlagged, Output, SomeFlagged, FlagsHold;
    if FlagsCarried(j, l, r) {
      forall l': seq<Rows>, r': seq<Rows>, left: seq<nat>, right: seq<nat>, n: nat, m: nat |
        IsData(l', l, n) && IsData(r', r, m) && JoinsTo(j.conditions, l', r', left, right)
        ensures FlagsHold(Output(j, l', r', left, right, n, m))
      {
        DataFlags(j, l, r, l', r', left, right, n, m);
      }
    } else if BuildFlag(j.conditions, r) && SomeFlagged(LeftColumns(j, l)) && !BuildEqualityFlagged(j.conditions, r) {
      RepeatedProbeRow(j, l, r);
    } else {
      RepeatedBuildRow(j, l, r);
    }
  }

  lemma DataFlags(j: JoinStep, l: seq<Rows>, r: seq<Rows>, l': seq<Rows>, r': seq<Rows>,
                  left: seq<nat>, right: seq<nat>, n: nat, m: nat)
    requires Keyed(j.conditions, l, r) && FlagsCarried(j, l, r)
    requires IsData(l', l, n) && IsData(r', r, m) && JoinsTo(j.conditions, l', r', left, right)
    ensures FlagsHold(Output(j, l', r', left, right, n, m))
  {
    hide NoDuplicates, IsJoin, FlagsCarried;
    SameFlags(j, l, r, l', r', n, m);
    InnerFlags(j, l', r', left, right, n, m);
  }
}

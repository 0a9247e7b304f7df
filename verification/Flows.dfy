/** Trees of tables, filters and joins, evaluated eagerly, and when the uniqueness flags that come out
    of them are right. */
module Flows {
  import opened Plans
  import opened JoinConditions
  import opened LateMaterialization
  import opened HashJoins
  import opened NestedLoopJoins

  /** A column in full, with its uniqueness flag. */
  datatype Rows = Rows(values: seq<int>, unique: bool)

  /** One join: its type, conditions and projections, and what its kernel returns, that is, the pairs of
      rows, the left rows of a semi join, or the marks of a mark join. `wide`: all keys are 64-bit numbers. */
  datatype JoinStep = JoinStep(kind: JoinKind, conditions: seq<Condition>, leftMap: seq<nat>, rightMap: seq<nat>,
                               left: seq<nat>, right: seq<nat>, marks: seq<int>, wide: bool)

  /** Tables, filters with the selection they compute, and joins. A column without values is a
      placeholder. */
  datatype Flow =
    | Table(count: nat, columns: seq<Rows>)
    | Filtered(input: Flow, keep: seq<nat>)
    | Joined(probe: Flow, build: Flow, step: JoinStep)

  function Count(f: Flow): nat {
    match f
    case Table(n, _) => n
    case Filtered(_, keep) => |keep|
    case Joined(probe, _, j) => if j.kind == Hash(Mark) then Count(probe) else |j.left|
  }

  predicate Below(ids: seq<nat>, n: nat) {
    forall k :: 0 <= k < |ids| ==> ids[k] < n
  }

  /** Rows of an eager column; a column of the wrong length stands for none. */
  function Take(c: Rows, ids: seq<nat>, n: nat, maintainUnique: bool): Rows {
    Rows(if |c.values| == n && Below(ids, n) then Gather(c.values, ids) else [], maintainUnique && c.unique)
  }

  function TakeAll(cs: seq<Rows>, ids: seq<nat>, n: nat, maintainUnique: bool): (r: seq<Rows>)
    ensures |r| == |cs|
  {
    seq(|cs|, k requires 0 <= k < |cs| => Take(cs[k], ids, n, maintainUnique))
  }

  function Project(cs: seq<Rows>, columns: seq<nat>): (r: seq<Rows>)
    ensures |r| == |columns|
  {
    seq(|columns|, k requires 0 <= k < |columns| => if columns[k] < |cs| then cs[columns[k]] else Rows([], false))
  }

  predicate BuildFlag(cs: seq<Condition>, build: seq<Rows>) {
    exists c :: 0 <= c < |cs| && cs[c].right.Some? && cs[c].right.value < |build| && build[cs[c].right.value].unique
  }

  predicate ProbeFlag(cs: seq<Condition>, probe: seq<Rows>) {
    exists c :: 0 <= c < |cs| && cs[c].left < |probe| && probe[cs[c].left].unique
  }

  /** A column that is passed on in place. */
  function Passed(cs: seq<Rows>, maintainUnique: bool): (r: seq<Rows>)
    ensures |r| == |cs|
  {
    seq(|cs|, k requires 0 <= k < |cs| => Rows(cs[k].values, maintainUnique && cs[k].unique))
  }

  function LeftColumns(j: JoinStep, l: seq<Rows>): seq<Rows> {
    Project(l, Projection(j.leftMap, |l|))
  }

  function RightColumns(j: JoinStep, r: seq<Rows>): seq<Rows> {
    Project(r, Projection(j.rightMap, |r|))
  }

  /** What a join gives, for relations of `nl` and `nr` rows. */
  function JoinedRows(j: JoinStep, l: seq<Rows>, r: seq<Rows>, nl: nat, nr: nat): seq<Rows> {
    match j.kind
    case NestedLoop(_) => TakeAll(l, j.left, nl, false) + TakeAll(r, j.right, nr, false)
    case Hash(Semi) => TakeAll(LeftColumns(j, l), j.left, nl, true)
    case Hash(Mark) => Passed(LeftColumns(j, l), BuildFlag(j.conditions, r)) + [Rows(j.marks, false)]
    case Hash(_) =>
      TakeAll(LeftColumns(j, l), j.left, nl, BuildFlag(j.conditions, r))
      + TakeAll(RightColumns(j, r), j.right, nr, ProbeFlag(j.conditions, l))
  }

  /** Eager evaluation. */
  function Eager(f: Flow): seq<Rows> {
    match f
    case Table(_, columns) => columns
    case Filtered(input, keep) => TakeAll(Eager(input), keep, Count(input), true)
    case Joined(probe, build, j) => JoinedRows(j, Eager(probe), Eager(build), Count(probe), Count(build))
  }

  function Values(cs: seq<Rows>, columns: seq<nat>): (keys: Keys)
    ensures |keys| == |columns|
  {
    seq(|columns|, k requires 0 <= k < |columns| => if columns[k] < |cs| then cs[columns[k]].values else [])
  }

  function LeftKeys(cs: seq<Condition>): seq<nat> {
    seq(|cs|, k requires 0 <= k < |cs| => cs[k].left)
  }

  function RightKeys(cs: seq<Condition>): seq<nat>
    requires AllReferences(cs)
  {
    seq(|cs|, k requires 0 <= k < |cs| => cs[k].right.value)
  }

  predicate BuildEqualityFlagged(cs: seq<Condition>, build: seq<Rows>) {
    exists c :: 0 <= c < |cs| && cs[c].comparison.IsEquality() && cs[c].right.Some?
                && cs[c].right.value < |build| && build[cs[c].right.value].unique
  }

  predicate ProbeEqualityFlagged(cs: seq<Condition>, probe: seq<Rows>) {
    exists c :: 0 <= c < |cs| && cs[c].comparison.IsEquality() && cs[c].left < |probe| && probe[cs[c].left].unique
  }

  /** The joins that hand over their result at once. */
  predicate OneBatch(k: JoinKind) {
    k == Hash(Inner) || k == Hash(Semi) || k == Hash(Mark) || k == NestedLoop(Inner)
  }

  /** Columns are in range, and no build column of a hash join is a key twice. */
  ghost predicate JoinFits(j: JoinStep, l: seq<Rows>, r: seq<Rows>) {
    && OneBatch(j.kind) && j.conditions != [] && AllReferences(j.conditions) && (j.kind.Hash? ==> DistinctKeys(j.conditions))
    && Below(j.leftMap, |l|) && Below(j.rightMap, |r|)
    && Below(LeftKeys(j.conditions), |l|) && Below(RightKeys(j.conditions), |r|)
  }

  /** The left rows that match, each once. */
  ghost predicate IsSemi(cs: seq<Condition>, probe: Keys, build: Keys, left: seq<nat>) {
    NoDuplicates(left) && forall i: nat :: i in left <==> exists j: nat :: Matches(cs, probe, build, i, j)
  }

  /** One mark for every row of the first key. */
  ghost predicate IsMarks(cs: seq<Condition>, probe: Keys, build: Keys, rows: nat, marks: seq<int>) {
    |marks| == rows &&
    forall i :: 0 <= i < rows ==> marks[i] == if exists j: nat :: Matches(cs, probe, build, i, j) then 1 else 0
  }

  /** The key that a hash join's kernels take the row count from. */
  function FirstKey(cs: seq<Condition>, l: seq<Rows>): seq<int> {
    var ordered := Partitioned(cs);
    if ordered != [] && ordered[0].left < |l| then l[ordered[0].left].values else []
  }

  /** The join's kernels know its comparisons. */
  predicate KernelsKnow(j: JoinStep) {
    match j.kind
    case NestedLoop(_) => WithinKernel(j.conditions, j.wide)
    case Hash(Inner) => true
    case Hash(_) => LateInequality(Partitioned(j.conditions))
  }

  predicate AllKnown(f: Flow) {
    match f
    case Table(_, _) => true
    case Filtered(input, _) => AllKnown(input)
    case Joined(probe, build, j) => AllKnown(probe) && AllKnown(build) && KernelsKnow(j)
  }

  /** What the kernel promises of its result. */
  ghost predicate JoinDone(j: JoinStep, l: seq<Rows>, r: seq<Rows>, nl: nat, nr: nat)
    requires AllReferences(j.conditions)
  {
    var lk, rk := Values(l, LeftKeys(j.conditions)), Values(r, RightKeys(j.conditions));
    match j.kind
    case Hash(Semi) => Below(j.left, nl) && IsSemi(j.conditions, lk, rk, j.left)
    case Hash(Mark) => IsMarks(j.conditions, lk, rk, |FirstKey(j.conditions, l)|, j.marks)
    case _ => Below(j.left, nl) && Below(j.right, nr) && IsJoin(j.conditions, lk, rk, j.left, j.right)
  }

  ghost predicate WellFormedFlow(f: Flow) {
    match f
    case Table(n, columns) =>
      forall c <- columns :: |c.values| == 0 || |c.values| == n
    case Filtered(input, keep) => WellFormedFlow(input) && Below(keep, Count(input))
    case Joined(probe, build, j) =>
      var l, r := Eager(probe), Eager(build);
      && WellFormedFlow(probe) && WellFormedFlow(build) && JoinFits(j, l, r)
      && JoinDone(j, l, r, Count(probe), Count(build))
  }

  // -------------------------------------------------------------------------------------------
  // Flags
  // -------------------------------------------------------------------------------------------

  ghost predicate FlagsHold(cs: seq<Rows>) {
    forall k :: 0 <= k < |cs| && cs[k].unique ==> NoDuplicates(cs[k].values)
  }

  predicate SomeFlagged(cs: seq<Rows>) {
    exists k :: 0 <= k < |cs| && cs[k].unique
  }

  /** If a side has a flagged column that the join hands on, and some key of the other side is flagged,
      then one on an equality is. */
  predicate FlagsCarried(j: JoinStep, l: seq<Rows>, r: seq<Rows>) {
    && (BuildFlag(j.conditions, r) && SomeFlagged(LeftColumns(j, l)) ==> BuildEqualityFlagged(j.conditions, r))
    && (ProbeFlag(j.conditions, l) && SomeFlagged(RightColumns(j, r)) ==> ProbeEqualityFlagged(j.conditions, l))
  }

  /** `out` has the rows `ids` of `c`, in that order. */
  predicate HasRows(out: Rows, c: Rows, ids: seq<nat>) {
    |out.values| == |ids| && forall a :: 0 <= a < |ids| ==> ids[a] < |c.values| && out.values[a] == c.values[ids[a]]
  }

  /** Place by place, what a join hands on: the probe columns of its map, or all of them in their order,
      and then the build columns in the same way; a mark join adds the marks. Nested-loop joins have no
      maps. */
  lemma JoinedRowsAre(j: JoinStep, l: seq<Rows>, r: seq<Rows>, nl: nat, nr: nat)
    requires JoinFits(j, l, r) && JoinDone(j, l, r, nl, nr)
    requires (forall c <- l :: |c.values| == nl) && forall c <- r :: |c.values| == nr
    ensures var out := JoinedRows(j, l, r, nl, nr);
            var allLeft, allRight := j.kind.NestedLoop? || j.leftMap == [], j.kind.NestedLoop? || j.rightMap == [];
            var lefts, rights := if allLeft then |l| else |j.leftMap|, if allRight then |r| else |j.rightMap|;
            && lefts <= |out|
            && (j.kind != Hash(Mark) ==>
                  forall k :: 0 <= k < lefts ==> HasRows(out[k], l[if allLeft then k else j.leftMap[k]], j.left))
            && (j.kind == Hash(Inner) || j.kind == NestedLoop(Inner) ==>
                  && |out| == lefts + rights
                  && forall k :: 0 <= k < rights ==> HasRows(out[lefts + k], r[if allRight then k else j.rightMap[k]], j.right))
            && (j.kind == Hash(Semi) ==> |out| == lefts)
            && (j.kind == Hash(Mark) ==>
                  && |out| == lefts + 1 && out[lefts] == Rows(j.marks, false)
                  && forall k :: 0 <= k < lefts ==> out[k].values == l[if allLeft then k else j.leftMap[k]].values)
  {
    hide IsJoin, IsSemi, IsMarks, FirstKey, BuildFlag, ProbeFlag, Take, TakeAll, Project, Projection, HasRows, LeftKeys, RightKeys,
      Values, AllReferences, DistinctKeys;
    PlaceByPlace(l, j.leftMap);
    PlaceByPlace(r, j.rightMap);
    forall u: bool, left: seq<Rows> | left == l || left == LeftColumns(j, l)
      ensures j.kind != Hash(Mark) ==> forall k :: 0 <= k < |left| ==> HasRows(TakeAll(left, j.left, nl, u)[k], left[k], j.left)
    {
      if j.kind != Hash(Mark) {
        RowByRow(left, j.left, nl, u);
      }
    }
    if j.kind == Hash(Inner) || j.kind == NestedLoop(Inner) {
      forall u: bool, right: seq<Rows> | right == r || right == RightColumns(j, r)
        ensures forall k :: 0 <= k < |right| ==> HasRows(TakeAll(right, j.right, nr, u)[k], right[k], j.right)
      {
        RowByRow(right, j.right, nr, u);
      }
    }
  }

  lemma PlaceByPlace(cs: seq<Rows>, columns: seq<nat>)
    requires Below(columns, |cs|)
    ensures var p := Project(cs, Projection(columns, |cs|));
            && |p| == (if columns == [] then |cs| else |columns|)
            && forall k :: 0 <= k < |p| ==> p[k] == cs[if columns == [] then k else columns[k]]
    ensures forall c <- Project(cs, Projection(columns, |cs|)) :: c in cs
  {
  }

  lemma RowByRow(cs: seq<Rows>, ids: seq<nat>, n: nat, maintainUnique: bool)
    requires Below(ids, n) && forall c <- cs :: |c.values| == n
    ensures forall k :: 0 <= k < |cs| ==> HasRows(TakeAll(cs, ids, n, maintainUnique)[k], cs[k], ids)
  {
  }

  /** The flags of the tables are right, filters select no row twice, and hash inner joins hand flags
      on for a reason; semi, mark and nested-loop joins always do. */
  ghost predicate FlagsWarranted(f: Flow) {
    match f
    case Table(_, columns) => FlagsHold(columns)
    case Filtered(input, keep) => FlagsWarranted(input) && NoDuplicates(keep)
    case Joined(probe, build, j) =>
      && FlagsWarranted(probe) && FlagsWarranted(build)
      && (j.kind == Hash(Inner) ==> FlagsCarried(j, Eager(probe), Eager(build)))
  }

  lemma TakeKeepsUnique(cs: seq<Rows>, ids: seq<nat>, n: nat, maintainUnique: bool)
    requires FlagsHold(cs) && (maintainUnique && SomeFlagged(cs) ==> NoDuplicates(ids))
    ensures FlagsHold(TakeAll(cs, ids, n, maintainUnique))
  {
    hide NoDuplicates;
    forall k | 0 <= k < |cs| && maintainUnique && cs[k].unique && |cs[k].values| == n && Below(ids, n)
      ensures NoDuplicates(Gather(cs[k].values, ids))
    {
      GatherUnique(cs[k].values, ids);
    }
    NoneUnique();
  }

  lemma GatherUnique(values: seq<int>, ids: seq<nat>)
    requires Below(ids, |values|) && NoDuplicates(values) && NoDuplicates(ids)
    ensures NoDuplicates(Gather(values, ids))
  {
  }

  lemma NoneUnique()
    ensures NoDuplicates<int>([])
  {
  }

  lemma PassedUnique(cs: seq<Rows>, maintainUnique: bool, marks: seq<int>)
    requires FlagsHold(cs)
    ensures FlagsHold(Passed(cs, maintainUnique) + [Rows(marks, false)])
  {
    hide NoDuplicates;
  }

  lemma ProjectKeepsUnique(cs: seq<Rows>, columns: seq<nat>)
    requires FlagsHold(cs)
    ensures FlagsHold(Project(cs, columns))
  {
  }

  lemma BothHold(a: seq<Rows>, b: seq<Rows>)
    ensures FlagsHold(a + b) <==> FlagsHold(a) && FlagsHold(b)
  {
    hide NoDuplicates;
    if FlagsHold(a + b) {
      assert forall k :: 0 <= k < |a| ==> a[k] == (a + b)[k];
      assert forall k :: 0 <= k < |b| ==> b[k] == (a + b)[|a| + k];
    }
  }

  /** A flagged key on an equality matches at most once. */
  lemma EqualityFlags(cs: seq<Condition>, l: seq<Rows>, r: seq<Rows>, left: seq<nat>, right: seq<nat>)
    requires AllReferences(cs) && Below(LeftKeys(cs), |l|) && Below(RightKeys(cs), |r|) && FlagsHold(l) && FlagsHold(r)
    requires IsJoin(cs, Values(l, LeftKeys(cs)), Values(r, RightKeys(cs)), left, right)
    ensures BuildEqualityFlagged(cs, r) ==> NoDuplicates(left)
    ensures ProbeEqualityFlagged(cs, l) ==> NoDuplicates(right)
  {
    hide IsJoin;
    var lk, rk := Values(l, LeftKeys(cs)), Values(r, RightKeys(cs));
    if BuildEqualityFlagged(cs, r) {
      var c :| 0 <= c < |cs| && cs[c].comparison.IsEquality() && cs[c].right.Some?
               && cs[c].right.value < |r| && r[cs[c].right.value].unique;
      assert rk[c] == r[cs[c].right.value].values;
      UniqueBuildKey(cs, lk, rk, left, right, c);
    }
    if ProbeEqualityFlagged(cs, l) {
      var c :| 0 <= c < |cs| && cs[c].comparison.IsEquality() && cs[c].left < |l| && l[cs[c].left].unique;
      assert lk[c] == l[cs[c].left].values;
      UniqueProbeKey(cs, lk, rk, left, right, c);
    }
  }

  /** The flags that a hash inner join hands on. */
  lemma InnerFlags(j: JoinStep, l: seq<Rows>, r: seq<Rows>, left: seq<nat>, right: seq<nat>, nl: nat, nr: nat)
    requires AllReferences(j.conditions) && Below(LeftKeys(j.conditions), |l|) && Below(RightKeys(j.conditions), |r|)
    requires FlagsHold(l) && FlagsHold(r) && FlagsCarried(j, l, r)
    requires IsJoin(j.conditions, Values(l, LeftKeys(j.conditions)), Values(r, RightKeys(j.conditions)), left, right)
    ensures FlagsHold(TakeAll(LeftColumns(j, l), left, nl, BuildFlag(j.conditions, r))
                      + TakeAll(RightColumns(j, r), right, nr, ProbeFlag(j.conditions, l)))
  {
    hide TakeAll, Project, FlagsHold, NoDuplicates, IsJoin, Values, Below, BuildFlag, ProbeFlag, SomeFlagged,
      BuildEqualityFlagged, ProbeEqualityFlagged;
    EqualityFlags(j.conditions, l, r, left, right);
    ProjectKeepsUnique(l, Projection(j.leftMap, |l|));
    ProjectKeepsUnique(r, Projection(j.rightMap, |r|));
    TakeKeepsUnique(LeftColumns(j, l), left, nl, BuildFlag(j.conditions, r));
    TakeKeepsUnique(RightColumns(j, r), right, nr, ProbeFlag(j.conditions, l));
    BothHold(TakeAll(LeftColumns(j, l), left, nl, BuildFlag(j.conditions, r)),
             TakeAll(RightColumns(j, r), right, nr, ProbeFlag(j.conditions, l)));
  }

  lemma JoinFlagsHold(j: JoinStep, l: seq<Rows>, r: seq<Rows>, nl: nat, nr: nat)
    requires FlagsHold(l) && FlagsHold(r) && JoinFits(j, l, r) && JoinDone(j, l, r, nl, nr)
    requires j.kind == Hash(Inner) ==> FlagsCarried(j, l, r)
    ensures FlagsHold(JoinedRows(j, l, r, nl, nr))
  {
    hide TakeAll, Project, FlagsHold, NoDuplicates, IsJoin, Values, Below, BuildFlag, ProbeFlag, IsMarks, FlagsCarried;
    match j.kind
    case NestedLoop(_) =>
      TakeKeepsUnique(l, j.left, nl, false);
      TakeKeepsUnique(r, j.right, nr, false);
      BothHold(TakeAll(l, j.left, nl, false), TakeAll(r, j.right, nr, false));
    case Hash(Semi) =>
      ProjectKeepsUnique(l, Projection(j.leftMap, |l|));
      TakeKeepsUnique(LeftColumns(j, l), j.left, nl, true);
    case Hash(Mark) =>
      ProjectKeepsUnique(l, Projection(j.leftMap, |l|));
      PassedUnique(LeftColumns(j, l), BuildFlag(j.conditions, r), j.marks);
    case Hash(_) =>
      InnerFlags(j, l, r, j.left, j.right, nl, nr);
  }

  /** A flagged column has no duplicate values. */
  lemma {:induction false} FlagsAreSound(f: Flow)
    requires WellFormedFlow(f) && FlagsWarranted(f)
    ensures FlagsHold(Eager(f))
  {
    hide TakeAll, FlagsHold, NoDuplicates, JoinFits, JoinDone, JoinedRows, FlagsCarried;
    match f
    case Table(_, columns) =>
    case Filtered(input, keep) =>
      FlagsAreSound(input);
      TakeKeepsUnique(Eager(input), keep, Count(input), true);
    case Joined(probe, build, j) =>
      FlagsAreSound(probe);
      FlagsAreSound(build);
      JoinFlagsHold(j, Eager(probe), Eager(build), Count(probe), Count(build));
  }
}

/** Physical plans: the operator tree that the pipeline compiler cuts up, with the scoping of
    its CTE scans and of its duplicate-eliminated (DELIM) scans. */
module Plans {
  import opened Options

  // An operator object. Distinct C++ objects get distinct identifiers.
  type OpId = nat

  datatype JoinType = Inner | Left | Right | Outer | Semi | Anti | Mark | Single | RightSemi | RightAnti

  datatype JoinKind = Hash(joinType: JoinType) | NestedLoop(joinType: JoinType) {

    /** GPUPhysicalHashJoin always calls itself a source; the nested-loop join only when it
        propagates its build side. */
    predicate IsSource() {
      Hash? || joinType.Right? || joinType.Outer? || joinType.RightSemi? || joinType.RightAnti?
    }

    /** Whether the scheduler keeps a pipeline that reads its data from this join. */
    predicate KeptAsSource() {
      NestedLoop? || joinType.Right? || joinType.RightSemi? || joinType.RightAnti?
    }

    /** The join hands a second batch of rows to the operators above it. */
    predicate Rescans() {
      IsSource() && KeptAsSource()
    }

    /** Execute of these joins can free what they read of their build side, and keeps the pointers:
        hash joins free their hash table, the nested-loop join its row ids. */
    predicate FreedByProbe() {
      joinType.Inner? || (Hash? && (joinType.Semi? || joinType.Mark?))
    }

    /** The others throw, hash joins in Sink and nested-loop joins in Execute. */
    predicate Supported() {
      joinType.Inner?
      || (Hash? && (joinType.Semi? || joinType.Mark? || joinType.Right? || joinType.RightSemi? || joinType.RightAnti?))
    }

    /** Joins that output build-side rows only, and only in their second batch. */
    predicate BuildSideOnly() {
      Hash? && (joinType.RightSemi? || joinType.RightAnti?)
    }
  }

  /** The joins of each sort, one by one. */
  lemma JoinKindsAre(k: JoinKind)
    ensures !k.IsSource() <==> k.NestedLoop? && k.joinType in {Inner, Left, Semi, Anti, Mark, Single}
    ensures !k.KeptAsSource() <==> k.Hash? && k.joinType in {Inner, Left, Outer, Semi, Anti, Mark, Single}
    ensures k.FreedByProbe() <==> k in {Hash(Inner), Hash(Semi), Hash(Mark), NestedLoop(Inner)}
    ensures k.Supported() <==>
            k in {Hash(Inner), Hash(Semi), Hash(Mark), Hash(Right), Hash(RightSemi), Hash(RightAnti), NestedLoop(Inner)}
    ensures k.BuildSideOnly() <==> k in {Hash(RightSemi), Hash(RightAnti)}
  {
  }

  /** The operator tree. `child` of a delim join is the side that its constructor moved out of the
      original join. A left delim join keeps that join with a scan of its cached input in the
      place of the moved side; a right delim join keeps the join's probe side, since the build side
      is fed by the delim join itself. */
  datatype Plan =
    | Scan(id: OpId)
    | Streaming(id: OpId, child: Plan)
    | Breaker(id: OpId, child: Plan)
    | Join(id: OpId, kind: JoinKind, left: Plan, right: Plan)
    | Cte(id: OpId, top: Plan, bottom: Plan)
    | CteScan(id: OpId, cte: OpId)
    | DelimScan(id: OpId)
    | CacheScan(id: OpId, delim: OpId)
    | LeftDelim(id: OpId, child: Plan, join: Plan)
    | RightDelim(id: OpId, child: Plan, joinId: OpId, joinType: JoinType, left: Plan)

  function Ids(p: Plan): set<OpId> {
    match p
    case Scan(id) => {id}
    case Streaming(id, c) => {id} + Ids(c)
    case Breaker(id, c) => {id} + Ids(c)
    case Join(id, _, l, r) => {id} + Ids(l) + Ids(r)
    case Cte(id, t, b) => {id} + Ids(t) + Ids(b)
    case CteScan(id, _) => {id}
    case DelimScan(id) => {id}
    case CacheScan(id, _) => {id}
    case LeftDelim(id, c, j) => {id} + Ids(c) + Ids(j)
    case RightDelim(id, c, j, _, l) => {id, j} + Ids(c) + Ids(l)
  }

  /** Every operator of the plan is an object of its own. */
  predicate UniqueIds(p: Plan) {
    match p
    case Scan(_) => true
    case Streaming(id, c) => id !in Ids(c) && UniqueIds(c)
    case Breaker(id, c) => id !in Ids(c) && UniqueIds(c)
    case Join(id, _, l, r) => id !in Ids(l) + Ids(r) && Ids(l) !! Ids(r) && UniqueIds(l) && UniqueIds(r)
    case Cte(id, t, b) => id !in Ids(t) + Ids(b) && Ids(t) !! Ids(b) && UniqueIds(t) && UniqueIds(b)
    case CteScan(_, _) => true
    case DelimScan(_) => true
    case CacheScan(_, _) => true
    case LeftDelim(id, c, j) => id !in Ids(c) + Ids(j) && Ids(c) !! Ids(j) && UniqueIds(c) && UniqueIds(j)
    case RightDelim(id, c, j, _, l) =>
      id != j && {id, j} !! Ids(c) + Ids(l) && Ids(c) !! Ids(l) && UniqueIds(c) && UniqueIds(l)
  }

  /** CTE scans sit below the CTE they read; DELIM scans sit on the correlated side of a delim
      join; the scan of a left delim join's cached input starts the probe side of its join. */
  predicate Scoped(p: Plan, inDelim: bool, ctes: set<OpId>, cache: Option<OpId>) {
    match p
    case Scan(_) => true
    case Streaming(_, c) => Scoped(c, inDelim, ctes, cache)
    case Breaker(_, c) => Scoped(c, inDelim, ctes, None)
    case Join(_, _, l, r) => Scoped(l, inDelim, ctes, cache) && Scoped(r, inDelim, ctes, None)
    case Cte(id, t, b) => Scoped(t, inDelim, ctes, None) && Scoped(b, inDelim, ctes + {id}, cache)
    case CteScan(_, cte) => cte in ctes
    case DelimScan(_) => inDelim
    case CacheScan(_, delim) => cache == Some(delim)
    case LeftDelim(id, c, j) =>
      j.Join? && j.left.CacheScan? && Scoped(c, inDelim, ctes, None) && Scoped(j, true, ctes, Some(id))
    case RightDelim(_, c, _, _, l) => Scoped(c, inDelim, ctes, None) && Scoped(l, true, ctes, cache)
  }

  predicate WellFormed(p: Plan) {
    UniqueIds(p) && Scoped(p, false, {}, None)
  }

  /** GatherDelimScans: the DELIM scans reached through `children`. The correlated side of a
      nested delim join hangs below its `join` field, not below `children`, so it is skipped. */
  function GatherDelimScans(p: Plan): seq<OpId> {
    match p
    case Scan(_) => []
    case Streaming(_, c) => GatherDelimScans(c)
    case Breaker(_, c) => GatherDelimScans(c)
    case Join(_, _, l, r) => GatherDelimScans(l) + GatherDelimScans(r)
    case Cte(_, t, b) => GatherDelimScans(t) + GatherDelimScans(b)
    case CteScan(_, _) => []
    case DelimScan(id) => [id]
    case CacheScan(_, _) => []
    case LeftDelim(_, c, _) => GatherDelimScans(c)
    case RightDelim(_, c, _, _, _) => GatherDelimScans(c)
  }

  /** The scans that the plan generator recorded for a CTE while it planned `p`. */
  function RecordedCteScans(p: Plan, cte: OpId): seq<OpId> {
    match p
    case Scan(_) => []
    case Streaming(_, c) => RecordedCteScans(c, cte)
    case Breaker(_, c) => RecordedCteScans(c, cte)
    case Join(_, _, l, r) => RecordedCteScans(l, cte) + RecordedCteScans(r, cte)
    case Cte(_, t, b) => RecordedCteScans(t, cte) + RecordedCteScans(b, cte)
    case CteScan(id, c) => if c == cte then [id] else []
    case DelimScan(_) => []
    case CacheScan(_, _) => []
    case LeftDelim(_, c, j) => RecordedCteScans(c, cte) + RecordedCteScans(j, cte)
    case RightDelim(_, c, _, _, l) => RecordedCteScans(l, cte) + RecordedCteScans(c, cte)
  }

  lemma ScansAreOperators(p: Plan)
    ensures forall s <- GatherDelimScans(p) :: s in Ids(p)
    ensures forall cte, s :: s in RecordedCteScans(p, cte) ==> s in Ids(p)
  {
  }
}

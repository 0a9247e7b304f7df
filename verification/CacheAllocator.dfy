/** The caching side of the buffer manager: two regions with bump counters, first the GPU's, then
    the CPU's, advanced and, when a request does not fit, set back by atomic steps. */
module CacheAllocator {

  const ALIGNMENT := 256

  datatype Block = Block(start: nat, size: nat) {

    predicate Fits(limit: nat) {
      start + size <= limit
    }

    predicate Apart(other: Block) {
      start + size <= other.start || other.start + other.size <= start
    }
  }

  /** The bytes set aside for a request: always at least one more than asked for. */
  function Padded(bytes: nat): (alloc: nat)
    ensures alloc % 256 == 0 && bytes < alloc <= bytes + 256
  {
    bytes + (ALIGNMENT - bytes % ALIGNMENT)
  }

  datatype Status = InFlight | Granted | Undone

  datatype Request = Request(block: Block, status: Status) {

    /** In flight, and about to be undone. */
    predicate Overflows(limit: nat) {
      status.InFlight? && !block.Fits(limit)
    }
  }

  /** One region: its counter and all requests since the last reset, in the order of their atomic
      adds. */
  datatype Region = Region(limit: nat, counter: nat, requests: seq<Request>)

  /** The atomic add. */
  function Add(r: Region, size: nat): Region {
    r.(counter := r.counter + size, requests := r.requests + [Request(Block(r.counter, size), InFlight)])
  }

  predicate CanSettle(r: Region, i: nat) {
    i < |r.requests| && r.requests[i].status.InFlight?
  }

  /** The end of request `i`: its block is granted, or taken off the counter again. */
  function Settle(r: Region, i: nat): Region
    requires CanSettle(r, i) && Counted(r)
  {
    var b := r.requests[i].block;
    OneOfAll(r.requests, r.limit, i);
    if b.Fits(r.limit) then r.(requests := r.requests[i := Request(b, Granted)])
    else r.(counter := r.counter - b.size, requests := r.requests[i := Request(b, Undone)])
  }

  /** The bytes of all requests that fit, and of those in flight that do not. */
  function Placed(rs: seq<Request>, limit: nat): nat {
    if rs == [] then 0
    else
      var last := rs[|rs| - 1];
      Placed(rs[..|rs| - 1], limit) + if last.block.Fits(limit) then last.block.size else 0
  }

  function Excess(rs: seq<Request>, limit: nat): nat {
    if rs == [] then 0
    else
      var last := rs[|rs| - 1];
      Excess(rs[..|rs| - 1], limit) + if last.Overflows(limit) then last.block.size else 0
  }

  function Held(rs: seq<Request>): nat {
    if rs == [] then 0
    else
      var last := rs[|rs| - 1];
      Held(rs[..|rs| - 1]) + if last.status.Undone? then 0 else last.block.size
  }

  /** Only requests that fit are granted, and only others are undone. */
  predicate Decided(rs: seq<Request>, limit: nat) {
    forall i :: 0 <= i < |rs| ==>
      (rs[i].status.Granted? ==> rs[i].block.Fits(limit)) && (rs[i].status.Undone? ==> !rs[i].block.Fits(limit))
  }

  /** The counter is what was granted plus what is in flight. */
  predicate Counted(r: Region) {
    r.counter == Held(r.requests) && Decided(r.requests, r.limit)
  }

  lemma {:induction false} HeldIsBoth(rs: seq<Request>, limit: nat)
    requires Decided(rs, limit)
    ensures Held(rs) == Placed(rs, limit) + Excess(rs, limit)
  {
    if rs != [] {
      HeldIsBoth(rs[..|rs| - 1], limit);
    }
  }

  lemma {:induction false} OneOfAll(rs: seq<Request>, limit: nat, i: nat)
    requires i < |rs| && rs[i].status.InFlight?
    ensures rs[i].block.size <= Held(rs)
  {
    if i < |rs| - 1 {
      OneOfAll(rs[..|rs| - 1], limit, i);
    }
  }

  lemma {:induction false} HeldAfter(rs: seq<Request>, i: nat, status: Status)
    requires i < |rs| && rs[i].status.InFlight?
    ensures Held(rs[i := Request(rs[i].block, status)]) == Held(rs) - if status.Undone? then rs[i].block.size else 0
  {
    var after, k := rs[i := Request(rs[i].block, status)], |rs| - 1;
    if i < k {
      HeldAfter(rs[..k], i, status);
      assert after[..k] == rs[..k][i := Request(rs[i].block, status)];
    } else {
      assert after[..k] == rs[..k];
    }
  }

  lemma {:induction false} PlacedAfter(rs: seq<Request>, limit: nat, i: nat, status: Status)
    requires i < |rs|
    ensures Placed(rs[i := Request(rs[i].block, status)], limit) == Placed(rs, limit)
  {
    var after, k := rs[i := Request(rs[i].block, status)], |rs| - 1;
    if i < k {
      PlacedAfter(rs[..k], limit, i, status);
      assert after[..k] == rs[..k][i := Request(rs[i].block, status)];
    } else {
      assert after[..k] == rs[..k];
    }
  }

  lemma {:induction false} NoExcess(rs: seq<Request>, limit: nat)
    requires forall i :: 0 <= i < |rs| ==> !rs[i].Overflows(limit)
    ensures Excess(rs, limit) == 0
  {
    if rs != [] {
      NoExcess(rs[..|rs| - 1], limit);
    }
  }

  /** Nothing is in flight. */
  predicate AllSettled(r: Region) {
    forall i :: 0 <= i < |r.requests| ==> !r.requests[i].status.InFlight?
  }

  /** The blocks that fit, granted or in flight, lie within the bytes they add up to and are
      pairwise apart. */
  predicate Sound(r: Region) {
    && (forall i :: 0 <= i < |r.requests| && r.requests[i].block.Fits(r.limit) ==>
          r.requests[i].block.start + r.requests[i].block.size <= Placed(r.requests, r.limit))
    && forall i, j :: 0 <= i < j < |r.requests| && r.requests[i].block.Fits(r.limit) && r.requests[j].block.Fits(r.limit) ==>
         r.requests[i].block.Apart(r.requests[j].block)
  }

  /** No request that fits begins while one that will be undone is in flight. */
  predicate Disciplined(r: Region, size: nat) {
    r.counter + size <= r.limit ==> forall i :: 0 <= i < |r.requests| ==> !r.requests[i].Overflows(r.limit)
  }

  lemma AddKeeps(r: Region, size: nat)
    requires Counted(r)
    ensures Counted(Add(r, size))
    ensures Sound(r) && Disciplined(r, size) ==> Sound(Add(r, size))
  {
    var next := Add(r, size);
    assert next.requests[..|next.requests| - 1] == r.requests;
    HeldIsBoth(r.requests, r.limit);
    if r.counter + size <= r.limit && Disciplined(r, size) {
      NoExcess(r.requests, r.limit);
    }
  }

  lemma SettleKeeps(r: Region, i: nat)
    requires Counted(r) && CanSettle(r, i)
    ensures Counted(Settle(r, i)) && (Sound(r) ==> Sound(Settle(r, i)))
  {
    hide Held, Placed;
    var status := if r.requests[i].block.Fits(r.limit) then Granted else Undone;
    HeldAfter(r.requests, i, status);
    PlacedAfter(r.requests, r.limit, i, status);
  }

  // -------------------------------------------------------------------------------------------
  // Both regions, any number of requests at once
  // -------------------------------------------------------------------------------------------

  /** `retry` are the requests that left the GPU region and have not reached the CPU region. */
  datatype Cache = Cache(gpu: Region, cpu: Region, retry: seq<nat>)

  datatype Step =
    | BeginGpu(bytes: nat)
    | SettleGpu(index: nat)
    | BeginCpu(index: nat)
    | SettleCpu(index: nat)

  predicate Enabled(c: Cache, s: Step) {
    match s
    case BeginGpu(_) => true
    case SettleGpu(i) => CanSettle(c.gpu, i) && Counted(c.gpu)
    case BeginCpu(i) => i < |c.retry|
    case SettleCpu(i) => CanSettle(c.cpu, i) && Counted(c.cpu)
  }

  function Next(c: Cache, s: Step): Cache
    requires Enabled(c, s)
  {
    match s
    case BeginGpu(bytes) => c.(gpu := Add(c.gpu, Padded(bytes)))
    case SettleGpu(i) =>
      var b := c.gpu.requests[i].block;
      c.(gpu := Settle(c.gpu, i), retry := if b.Fits(c.gpu.limit) then c.retry else c.retry + [b.size])
    case BeginCpu(i) => c.(cpu := Add(c.cpu, c.retry[i]), retry := c.retry[..i] + c.retry[i + 1..])
    case SettleCpu(i) => c.(cpu := Settle(c.cpu, i))
  }

  /** The step does not begin a fitting request beside one that is about to be undone. */
  predicate StepDisciplined(c: Cache, s: Step)
    requires Enabled(c, s)
  {
    match s
    case BeginGpu(bytes) => Disciplined(c.gpu, Padded(bytes))
    case BeginCpu(i) => Disciplined(c.cpu, c.retry[i])
    case _ => true
  }

  /** A run of the cache: each state follows from the one before by the step at its place. */
  predicate IsRun(states: seq<Cache>, steps: seq<Step>) {
    |states| == |steps| + 1 &&
    forall i :: 0 <= i < |steps| ==> Enabled(states[i], steps[i]) && states[i + 1] == Next(states[i], steps[i])
  }

  predicate IsEmpty(c: Cache) {
    c.gpu == Region(c.gpu.limit, 0, []) && c.cpu == Region(c.cpu.limit, 0, []) && c.retry == []
  }

  /** Sizes and starts stay multiples of the alignment. */
  predicate RegionAligned(r: Region) {
    r.counter % ALIGNMENT == 0 &&
    forall i :: 0 <= i < |r.requests| ==>
      r.requests[i].block.size % ALIGNMENT == 0 && r.requests[i].block.start % ALIGNMENT == 0
  }

  predicate Aligned(c: Cache) {
    RegionAligned(c.gpu) && RegionAligned(c.cpu) && forall i :: 0 <= i < |c.retry| ==> c.retry[i] % ALIGNMENT == 0
  }

  lemma StepStaysAligned(c: Cache, s: Step)
    requires Aligned(c) && Enabled(c, s)
    ensures Aligned(Next(c, s))
  {
    hide Held;
  }

  lemma StepKeeps(c: Cache, s: Step)
    requires Counted(c.gpu) && Counted(c.cpu) && Enabled(c, s)
    ensures Counted(Next(c, s).gpu) && Counted(Next(c, s).cpu)
    ensures StepDisciplined(c, s) && Sound(c.gpu) && Sound(c.cpu) ==> Sound(Next(c, s).gpu) && Sound(Next(c, s).cpu)
  {
    match s
    case BeginGpu(bytes) => AddKeeps(c.gpu, Padded(bytes));
    case SettleGpu(i) => SettleKeeps(c.gpu, i);
    case BeginCpu(i) => AddKeeps(c.cpu, c.retry[i]);
    case SettleCpu(i) => SettleKeeps(c.cpu, i);
  }

  /** In every interleaving, both counters are what was granted plus what is in flight, and all
      blocks are aligned. */
  lemma {:induction false} RunsCount(states: seq<Cache>, steps: seq<Step>, n: nat)
    requires IsRun(states, steps) && IsEmpty(states[0]) && n < |states|
    ensures Counted(states[n].gpu) && Counted(states[n].cpu) && Aligned(states[n])
  {
    if n > 0 {
      RunsCount(states, steps, n - 1);
      StepKeeps(states[n - 1], steps[n - 1]);
      StepStaysAligned(states[n - 1], steps[n - 1]);
    }
  }

  /** Granted blocks are in bounds and pairwise apart as long as no fitting request begins while
      an overflowing one is in flight; with one request at a time this is always so. */
  lemma {:induction false} RunsStayApart(states: seq<Cache>, steps: seq<Step>, n: nat)
    requires IsRun(states, steps) && IsEmpty(states[0]) && n < |states|
    requires forall i :: 0 <= i < n ==> StepDisciplined(states[i], steps[i])
    ensures Sound(states[n].gpu) && Sound(states[n].cpu)
  {
    if n > 0 {
      RunsStayApart(states, steps, n - 1);
      RunsCount(states, steps, n - 1);
      StepKeeps(states[n - 1], steps[n - 1]);
    }
  }

  /** Without that discipline they are not: two requests that both have to be undone let the
      counter fall below a block granted in between. */
  lemma OverlapExample() returns (states: seq<Cache>, steps: seq<Step>)
    ensures IsRun(states, steps) && IsEmpty(states[0]) && states[0].gpu.limit == 1024
    ensures var rs := states[|steps|].gpu.requests;
            |rs| == 4 && rs[2].status.Granted? && rs[3].status.Granted? && !rs[2].block.Apart(rs[3].block)
  {
    hide Counted;
    var c0 := Cache(Region(1024, 0, []), Region(0, 0, []), []);
    NothingHeld();
    steps := [BeginGpu(1024), BeginGpu(0), SettleGpu(0), BeginGpu(256), SettleGpu(1), BeginGpu(256), SettleGpu(2), SettleGpu(3)];
    var c1 := Stepped(c0, BeginGpu(1024));
    var c2 := Stepped(c1, BeginGpu(0));
    var c3 := Stepped(c2, SettleGpu(0));
    var c4 := Stepped(c3, BeginGpu(256));
    var c5 := Stepped(c4, SettleGpu(1));
    var c6 := Stepped(c5, BeginGpu(256));
    var c7 := Stepped(c6, SettleGpu(2));
    var c8 := Stepped(c7, SettleGpu(3));
    states := [c0, c1, c2, c3, c4, c5, c6, c7, c8];
  }

  lemma NothingHeld()
    ensures Counted(Region(1024, 0, [])) && Counted(Region(0, 0, []))
  {
  }

  lemma Stepped(c: Cache, s: Step) returns (next: Cache)
    requires Counted(c.gpu) && Counted(c.cpu) && Enabled(c, s)
    ensures next == Next(c, s) && Counted(next.gpu) && Counted(next.cpu)
  {
    StepKeeps(c, s);
    next := Next(c, s);
  }

  // -------------------------------------------------------------------------------------------
  // What follows from a step without that discipline
  // -------------------------------------------------------------------------------------------

  /** A request begins only when nothing else is in flight in its region. */
  predicate Calm(c: Cache, s: Step) {
    match s
    case BeginGpu(_) => AllSettled(c.gpu)
    case BeginCpu(_) => AllSettled(c.cpu)
    case _ => true
  }

  /** A run in which requests are served one by one. */
  predicate IsCalmRun(states: seq<Cache>, steps: seq<Step>) {
    IsRun(states, steps) && forall i :: 0 <= i < |steps| ==> Calm(states[i], steps[i])
  }

  ghost predicate Leads(c: Cache, d: Cache) {
    exists states: seq<Cache>, steps: seq<Step> :: IsCalmRun(states, steps) && states[0] == c && states[|steps|] == d
  }

  predicate Overlapping(r: Region) {
    exists i, j :: 0 <= i < j < |r.requests| && r.requests[i].status.Granted? && r.requests[j].status.Granted?
                   && !r.requests[i].block.Apart(r.requests[j].block)
  }

  lemma LeadsNext(c: Cache, s: Step)
    requires Enabled(c, s) && Calm(c, s)
    ensures Leads(c, c) && Leads(c, Next(c, s))
  {
    assert IsCalmRun([c], []);
    assert IsCalmRun([c, Next(c, s)], [s]);
  }

  lemma LeadsOn(a: Cache, b: Cache, c: Cache)
    requires Leads(a, b) && Leads(b, c)
    ensures Leads(a, c)
  {
    var xs: seq<Cache>, s: seq<Step> :| IsCalmRun(xs, s) && xs[0] == a && xs[|s|] == b;
    var ys: seq<Cache>, t: seq<Step> :| IsCalmRun(ys, t) && ys[0] == b && ys[|t|] == c;
    var all, steps := xs + ys[1..], s + t;
    forall i | 0 <= i < |steps|
      ensures Enabled(all[i], steps[i]) && all[i + 1] == Next(all[i], steps[i]) && Calm(all[i], steps[i])
    {
      if i >= |s| {
        assert all[i] == ys[i - |s|] && all[i + 1] == ys[i - |s| + 1] && steps[i] == t[i - |s|];
      }
    }
    assert IsCalmRun(all, steps) && all[0] == a && all[|steps|] == c;
  }

  lemma CalmIsDisciplined(c: Cache, s: Step)
    requires Enabled(c, s) && Calm(c, s)
    ensures StepDisciplined(c, s)
  {
  }

  lemma {:induction false} CalmRunsSound(states: seq<Cache>, steps: seq<Step>, n: nat)
    requires IsCalmRun(states, steps) && n < |states| && Fit(states[0]) && Sound(states[0].gpu) && Sound(states[0].cpu)
    ensures Fit(states[n]) && Sound(states[n].gpu) && Sound(states[n].cpu)
  {
    hide Sound, Fit;
    if n > 0 {
      CalmRunsSound(states, steps, n - 1);
      CalmIsDisciplined(states[n - 1], steps[n - 1]);
      StepStaysFit(states[n - 1], steps[n - 1]);
    }
  }

  lemma SoundIsApart(r: Region)
    requires Counted(r) && Sound(r)
    ensures !Overlapping(r)
  {
    hide Held, Placed;
  }

  /** No request is for nothing. */
  predicate Sized(c: Cache) {
    && (forall i :: 0 <= i < |c.gpu.requests| ==> c.gpu.requests[i].block.size > 0)
    && (forall i :: 0 <= i < |c.cpu.requests| ==> c.cpu.requests[i].block.size > 0)
    && forall i :: 0 <= i < |c.retry| ==> c.retry[i] > 0
  }

  lemma StepStaysSized(c: Cache, s: Step)
    requires Sized(c) && Enabled(c, s)
    ensures Sized(Next(c, s))
  {
    hide Held, Decided;
  }

  /** What every run keeps. */
  predicate Fit(c: Cache) {
    Counted(c.gpu) && Counted(c.cpu) && Aligned(c) && Sized(c)
  }

  lemma StepStaysFit(c: Cache, s: Step)
    requires Fit(c) && Enabled(c, s)
    ensures Fit(Next(c, s))
    ensures StepDisciplined(c, s) && Sound(c.gpu) && Sound(c.cpu) ==> Sound(Next(c, s).gpu) && Sound(Next(c, s).cpu)
  {
    hide Counted, Aligned, Sized, Sound, StepDisciplined;
    StepKeeps(c, s);
    StepStaysAligned(c, s);
    StepStaysSized(c, s);
  }

  lemma {:induction false} RunsAreFit(states: seq<Cache>, steps: seq<Step>, n: nat)
    requires IsRun(states, steps) && IsEmpty(states[0]) && n < |states|
    ensures Fit(states[n])
  {
    if n > 0 {
      RunsAreFit(states, steps, n - 1);
      StepStaysFit(states[n - 1], steps[n - 1]);
    }
  }

  /** The requests of `r` again, further on or not. */
  predicate SameBlocks(r: Region, later: Region) {
    later.limit == r.limit && |later.requests| == |r.requests| &&
    forall i :: 0 <= i < |r.requests| ==> later.requests[i].block == r.requests[i].block
  }

  lemma {:induction false} SamePlaced(rs: seq<Request>, later: seq<Request>, limit: nat)
    requires |later| == |rs| && forall i :: 0 <= i < |rs| ==> later[i].block == rs[i].block
    ensures Placed(later, limit) == Placed(rs, limit)
  {
    if rs != [] {
      SamePlaced(rs[..|rs| - 1], later[..|rs| - 1], limit);
    }
  }

  lemma {:induction false} ExcessIsMultiple(rs: seq<Request>, limit: nat)
    requires forall i :: 0 <= i < |rs| ==> rs[i].block.size % ALIGNMENT == 0
    ensures Excess(rs, limit) % ALIGNMENT == 0
    ensures forall i :: 0 <= i < |rs| && rs[i].Overflows(limit) ==> rs[i].block.size <= Excess(rs, limit)
  {
    if rs != [] {
      var front := rs[..|rs| - 1];
      ExcessIsMultiple(front, limit);
      forall i | 0 <= i < |rs| && rs[i].Overflows(limit)
        ensures rs[i].block.size <= Excess(rs, limit)
      {
        if i < |front| {
          assert front[i] == rs[i];
        }
      }
    }
  }

  /** Once everything has settled, the counter is below the end of the request that began too early
      by what was about to be undone. */
  lemma CounterFallsBack(r: Region, size: nat, later: Region)
    requires Counted(r) && r.counter + size <= r.limit
    requires SameBlocks(Add(r, size), later) && Counted(later) && AllSettled(later)
    ensures later.counter + Excess(r.requests, r.limit) == r.counter + size
  {
    var next := Add(r, size);
    AddKeeps(r, size);
    HeldIsBoth(r.requests, r.limit);
    HeldIsBoth(later.requests, later.limit);
    NoExcess(later.requests, later.limit);
    SamePlaced(next.requests, later.requests, r.limit);
    assert next.requests[..|next.requests| - 1] == r.requests;
  }

  /** A request of just these bytes then overlaps it. */
  lemma ExcessOverlaps(r: Region, size: nat, later: Region)
    requires Counted(r) && r.counter + size <= r.limit && size > 0 && Excess(r.requests, r.limit) > 0
    requires SameBlocks(Add(r, size), later) && Counted(later) && AllSettled(later)
    ensures var e, k := Excess(r.requests, r.limit), |later.requests|;
            && later.counter + e <= later.limit
            && Counted(Add(later, e)) && CanSettle(Add(later, e), k) && Overlapping(Settle(Add(later, e), k))
  {
    var e, i := Excess(r.requests, r.limit), |r.requests|;
    CounterFallsBack(r, size, later);
    AddKeeps(later, e);
    var last := Settle(Add(later, e), |later.requests|);
    assert later.requests[i].block == Block(r.counter, size) && later.requests[i].status.Granted?;
    assert last.requests[i] == later.requests[i];
    assert last.requests[|later.requests|] == Request(Block(later.counter, e), Granted);
  }

  lemma LeadsFit(c: Cache, s: Step, b: Cache)
    requires Fit(c) && Enabled(c, s) && Calm(c, s) && Leads(b, c)
    ensures Fit(Next(c, s)) && Leads(b, Next(c, s))
  {
    StepStaysFit(c, s);
    LeadsNext(c, s);
    LeadsOn(b, c, Next(c, s));
  }

  lemma {:induction false} SettleAllGpu(b: Cache, c: Cache, k: nat) returns (d: Cache)
    requires Fit(c) && Leads(b, c) && k <= |c.gpu.requests|
    requires forall i :: 0 <= i < k ==> !c.gpu.requests[i].status.InFlight?
    ensures Fit(d) && Leads(b, d) && AllSettled(d.gpu) && SameBlocks(c.gpu, d.gpu) && d.cpu == c.cpu
    decreases |c.gpu.requests| - k
  {
    hide Leads, Counted, Aligned, Sized;
    if k == |c.gpu.requests| {
      d := c;
    } else if c.gpu.requests[k].status.InFlight? {
      LeadsFit(c, SettleGpu(k), b);
      d := SettleAllGpu(b, Next(c, SettleGpu(k)), k + 1);
    } else {
      d := SettleAllGpu(b, c, k + 1);
    }
  }

  lemma {:induction false} SettleAllCpu(b: Cache, c: Cache, k: nat) returns (d: Cache)
    requires Fit(c) && Leads(b, c) && k <= |c.cpu.requests|
    requires forall i :: 0 <= i < k ==> !c.cpu.requests[i].status.InFlight?
    ensures Fit(d) && Leads(b, d) && AllSettled(d.cpu) && SameBlocks(c.cpu, d.cpu) && d.gpu == c.gpu
    decreases |c.cpu.requests| - k
  {
    hide Leads, Counted, Aligned, Sized;
    if k == |c.cpu.requests| {
      d := c;
    } else if c.cpu.requests[k].status.InFlight? {
      LeadsFit(c, SettleCpu(k), b);
      d := SettleAllCpu(b, Next(c, SettleCpu(k)), k + 1);
    } else {
      d := SettleAllCpu(b, c, k + 1);
    }
  }

  /** The request for exactly `size` bytes. */
  lemma PaddedTo(size: nat)
    requires size > 0 && size % ALIGNMENT == 0
    ensures size >= ALIGNMENT && Padded(size - ALIGNMENT) == size
  {
  }

  /** One request in a GPU region where nothing else is in flight. */
  lemma ServeGpu(b: Cache, c: Cache, size: nat) returns (d: Cache)
    requires Fit(c) && Leads(b, c) && AllSettled(c.gpu) && size > 0 && size % ALIGNMENT == 0
    ensures Fit(d) && Leads(b, d) && AllSettled(d.gpu) && d.cpu == c.cpu && d.gpu.limit == c.gpu.limit
    ensures Counted(Add(c.gpu, size)) && CanSettle(Add(c.gpu, size), |c.gpu.requests|)
    ensures d.gpu == Settle(Add(c.gpu, size), |c.gpu.requests|)
    ensures if c.gpu.counter + size <= c.gpu.limit then d.gpu.counter == c.gpu.counter + size && d.retry == c.retry
            else d.gpu.counter == c.gpu.counter && d.retry == c.retry + [size]
  {
    hide Leads, Aligned, Sized, Held, Decided;
    PaddedTo(size);
    var begin, k := BeginGpu(size - ALIGNMENT), |c.gpu.requests|;
    LeadsFit(c, begin, b);
    var m := Next(c, begin);
    LeadsFit(m, SettleGpu(k), b);
    d := Next(m, SettleGpu(k));
  }

  /** A GPU region in which not even the smallest request fits. */
  lemma FillGpu(b: Cache, c: Cache) returns (d: Cache)
    requires Fit(c) && Leads(b, c) && AllSettled(c.gpu)
    ensures Fit(d) && Leads(b, d) && AllSettled(d.gpu) && d.cpu == c.cpu && d.gpu.counter + ALIGNMENT > d.gpu.limit
  {
    hide Leads, Aligned, Sized, Counted;
    if c.gpu.counter + ALIGNMENT > c.gpu.limit {
      d := c;
    } else {
      var free := (c.gpu.limit - c.gpu.counter) / ALIGNMENT * ALIGNMENT;
      d := ServeGpu(b, c, free);
    }
  }

  lemma LeadsSelf(c: Cache)
    ensures Leads(c, c)
  {
    assert IsCalmRun([c], []);
  }

  lemma GpuOverlap(c: Cache, bytes: nat) returns (d: Cache)
    requires Fit(c) && !Disciplined(c.gpu, Padded(bytes))
    ensures Leads(Next(c, BeginGpu(bytes)), d) && Overlapping(d.gpu)
  {
    hide Leads, Held, Decided, Overlapping, Sized, SameBlocks;
    var b, e := Next(c, BeginGpu(bytes)), Excess(c.gpu.requests, c.gpu.limit);
    StepStaysFit(c, BeginGpu(bytes));
    LeadsSelf(b);
    SomethingUndone(c, c.gpu, Padded(bytes));
    d := SettleAllGpu(b, b, 0);
    ExcessOverlaps(c.gpu, Padded(bytes), d.gpu);
    d := ServeGpu(b, d, e);
  }

  lemma CpuOverlap(c: Cache, i: nat) returns (d: Cache)
    requires Fit(c) && i < |c.retry| && !Disciplined(c.cpu, c.retry[i])
    ensures Leads(Next(c, BeginCpu(i)), d) && Overlapping(d.cpu)
  {
    hide Leads, Held, Decided, Overlapping, SameBlocks;
    var b, e := Next(c, BeginCpu(i)), Excess(c.cpu.requests, c.cpu.limit);
    StepStaysFit(c, BeginCpu(i));
    LeadsSelf(b);
    SomethingUndone(c, c.cpu, c.retry[i]);
    d := SettleAllCpu(b, b, 0);
    ExcessOverlaps(c.cpu, c.retry[i], d.cpu);
    var k := |d.cpu.requests|;
    d := SettleAllGpu(b, d, 0);
    d := FillGpu(b, d);
    d := ServeGpu(b, d, e);
    LeadsFit(d, BeginCpu(|d.retry| - 1), b);
    d := Next(d, BeginCpu(|d.retry| - 1));
    LeadsFit(d, SettleCpu(k), b);
    d := Next(d, SettleCpu(k));
  }

  lemma SomethingUndone(c: Cache, r: Region, size: nat)
    requires Fit(c) && (r == c.gpu || r == c.cpu) && !Disciplined(r, size)
    ensures var e := Excess(r.requests, r.limit); e >= ALIGNMENT && e % ALIGNMENT == 0
  {
    ExcessIsMultiple(r.requests, r.limit);
  }

  /** After a disciplined run, a step can be followed, with requests served one by one, by two
      granted blocks that overlap if and only if the step itself is not disciplined. */
  lemma OverlapFollowsIff(states: seq<Cache>, steps: seq<Step>, n: nat, s: Step)
    requires IsRun(states, steps) && IsEmpty(states[0]) && n < |states| && Enabled(states[n], s)
    requires forall i :: 0 <= i < n ==> StepDisciplined(states[i], steps[i])
    ensures (exists d :: Leads(Next(states[n], s), d) && (Overlapping(d.gpu) || Overlapping(d.cpu)))
            <==> !StepDisciplined(states[n], s)
  {
    hide Leads, Fit, Sound, Overlapping, Disciplined;
    var c := states[n];
    RunsAreFit(states, steps, n);
    RunsStayApart(states, steps, n);
    if StepDisciplined(c, s) {
      forall d | Leads(Next(c, s), d)
        ensures !Overlapping(d.gpu) && !Overlapping(d.cpu)
      {
        StepStaysFit(c, s);
        LeadsSound(Next(c, s), d);
      }
    } else if s.BeginGpu? {
      var d := GpuOverlap(c, s.bytes);
    } else {
      var d := CpuOverlap(c, s.index);
    }
  }

  lemma LeadsSound(c: Cache, d: Cache)
    requires Leads(c, d) && Fit(c) && Sound(c.gpu) && Sound(c.cpu)
    ensures !Overlapping(d.gpu) && !Overlapping(d.cpu)
  {
    hide Sound, Overlapping;
    var states: seq<Cache>, steps: seq<Step> :| IsCalmRun(states, steps) && states[0] == c && states[|steps|] == d;
    CalmRunsSound(states, steps, |steps|);
    SoundIsApart(d.gpu);
    SoundIsApart(d.cpu);
  }
}

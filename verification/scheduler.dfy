/** Single-node allocation (services/scheduler.py): best fit in three anti-affinity passes. */
module Scheduler {
  import opened Common
  import opened Models
  import opened Sorting
  import Sets

  /** A GPU: its host and its index there. */
  datatype GpuKey = GpuKey(worker: Id, index: int)

  /** One GPU as the scan sees it: its host, its index there, and the VRAM still free on it. */
  datatype Slot = Slot(worker: Id, index: int, free: int) {
    function Key(): GpuKey { GpuKey(worker, index) }
  }

  datatype Placement = Placement(worker: Id, gpuIndex: int, port: int)

  datatype AllocError =
    | NoWorkers
    | NoFreeHosts
    | NoAddressedHost
    | NotEnoughHosts(available: nat)
    | NoGpu(replica: nat)
    | NoPort
    | NoRendezvousPort

  datatype PortRange = PortRange(lo: int, hi: int)

  function Vendors(engine: string): set<string> {
    if engine in {"vllm", "sglang"} then {"nvidia", "mock"} else {}
  }

  // ---- Database queries ----

  function LiveOn(rows: seq<Instance>, worker: Id): seq<Instance> {
    Filter(rows, (r: Instance) => r.worker == Some(worker) && r.state.Live())
  }

  function ReservedOn(rows: seq<Instance>, worker: Id): seq<Instance> {
    Filter(rows, (r: Instance) => r.worker == Some(worker) && r.Reserved())
  }

  function PortsOf(rows: seq<Instance>): set<int> {
    set r | r in rows && r.port.Some? && r.port.value != 0 :: r.port.value
  }

  /** Unicode code point order, as the database and `sorted` compare names. */
  predicate NameLeq(a: string, b: string) {
    a == [] || (b != [] && (a[0] < b[0] || (a[0] == b[0] && NameLeq(a[1..], b[1..]))))
  }

  predicate ByName(a: Worker, b: Worker) {
    NameLeq(a.name, b.name)
  }

  function Connected(workers: seq<Worker>, cluster: Id): seq<Worker> {
    Sort(Filter(workers, (w: Worker) => w.cluster == cluster && w.connected), ByName)
  }

  lemma {:induction false} NameLeqTotal(a: string, b: string)
    ensures NameLeq(a, b) || NameLeq(b, a)
  {
    if a != [] && b != [] && a[0] == b[0] {
      NameLeqTotal(a[1..], b[1..]);
    }
  }

  lemma {:induction false} NameLeqTransitive(a: string, b: string, c: string)
    requires NameLeq(a, b) && NameLeq(b, c)
    ensures NameLeq(a, c)
  {
    if a != [] && a[0] == b[0] && b[0] == c[0] {
      NameLeqTransitive(a[1..], b[1..], c[1..]);
    }
  }

  /** A name comes before another when it is its beginning, or smaller where they first differ. */
  lemma {:induction false} NameLeqIff(a: string, b: string)
    ensures NameLeq(a, b) <==> a <= b || exists k: nat :: k < |a| && k < |b| && a[..k] == b[..k] && a[k] < b[k]
  {
    if a != [] && b != [] && a[0] == b[0] {
      NameLeqIff(a[1..], b[1..]);
      if k: nat :| k < |a[1..]| && k < |b[1..]| && a[1..][..k] == b[1..][..k] && a[1..][k] < b[1..][k] {
        assert a[..k + 1] == [a[0]] + a[1..][..k] == b[..k + 1] && a[k + 1] < b[k + 1];
      }
      if k: nat :| k < |a| && k < |b| && a[..k] == b[..k] && a[k] < b[k] {
        assert a[1..][..k - 1] == a[..k][1..] == b[1..][..k - 1] && a[1..][k - 1] < b[1..][k - 1];
      }
    } else if a != [] && b != [] && a[0] < b[0] {
      assert a[..0] == b[..0];
    }
  }

  /** Exactly the connected workers of the cluster, by name. */
  lemma ConnectedAre(workers: seq<Worker>, cluster: Id)
    ensures forall w :: w in Connected(workers, cluster) <==> w in workers && w.cluster == cluster && w.connected
    ensures var there := Connected(workers, cluster);
            forall i, j :: 0 <= i < j < |there| ==> NameLeq(there[i].name, there[j].name)
  {
    var there := (w: Worker) => w.cluster == cluster && w.connected;
    FilterMembers(workers, there);
    SortPermutes(Filter(workers, there), ByName);
    forall a: Worker, b: Worker ensures ByName(a, b) || ByName(b, a) {
      NameLeqTotal(a.name, b.name);
    }
    forall a: Worker, b: Worker, c: Worker | ByName(a, b) && ByName(b, c) ensures ByName(a, c) {
      NameLeqTransitive(a.name, b.name, c.name);
    }
    SortSorts(Filter(workers, there), ByName);
    assert forall i, j :: 0 <= i < j < |Connected(workers, cluster)| ==>
             ByName(Connected(workers, cluster)[i], Connected(workers, cluster)[j]);
  }

  /** VRAM that one instance's index list claims on a GPU. */
  function Claim(indexes: seq<int>, vram: int, index: int): int {
    if indexes == [] then 0
    else Claim(indexes[..|indexes| - 1], vram, index)
         + if indexes[|indexes| - 1] == index then vram else 0
  }

  function UsageOf(rows: seq<Instance>, index: int): int {
    if rows == [] then 0
    else
      var last := rows[|rows| - 1];
      UsageOf(rows[..|rows| - 1], index) + Claim(last.gpuIndexes, last.vram, index)
  }

  function Lookup<K>(m: map<K, int>, k: K): int { if k in m then m[k] else 0 }

  method GpuUsage(rows: seq<Instance>) returns (usage: map<int, int>)
    ensures forall i :: Lookup(usage, i) == UsageOf(rows, i)
  {
    usage := map[];
    for n := 0 to |rows|
      invariant forall i :: Lookup(usage, i) == UsageOf(rows[..n], i)
    {
      var row := rows[n];
      for k := 0 to |row.gpuIndexes|
        invariant forall i :: Lookup(usage, i)
                              == UsageOf(rows[..n], i) + Claim(row.gpuIndexes[..k], row.vram, i)
      {
        var index := row.gpuIndexes[k];
        usage := usage[index := Lookup(usage, index) + row.vram];
        assert row.gpuIndexes[..k + 1][..k] == row.gpuIndexes[..k];
      }
      assert row.gpuIndexes[..|row.gpuIndexes|] == row.gpuIndexes;
      assert rows[..n + 1][..n] == rows[..n];
    }
    assert rows[..|rows|] == rows;
  }

  function FreePorts(reserved: seq<Instance>, range: PortRange): set<int> {
    set p | range.lo <= p <= range.hi && p !in PortsOf(reserved)
  }

  /** No free port below this one is left. */
  ghost predicate Lowest(free: set<int>, extra: set<int>, port: int) {
    forall q :: q in free && q !in extra ==> port <= q
  }

  /** The lowest port of the range that no reserved row and no earlier hand-out holds. */
  method AllocPort(reserved: seq<Instance>, range: PortRange, extra: set<int>) returns (port: Option<int>)
    ensures match port
            case Some(p) =>
              p in FreePorts(reserved, range) && p !in extra && Lowest(FreePorts(reserved, range), extra, p)
            case None => FreePorts(reserved, range) <= extra
  {
    var used := PortsOf(reserved) + extra;
    var p := range.lo;
    while p <= range.hi
      invariant range.lo <= p
      invariant Lowest(FreePorts(reserved, range), extra, p)
    {
      if p !in used {
        return Some(p);
      }
      p := p + 1;
    }
    return None;
  }

  // ---- The scan ----

  function GpuSlots(worker: Id, gpus: seq<Gpu>, live: seq<Instance>, vendors: set<string>): seq<Slot> {
    if gpus == [] then []
    else
      var last := gpus[|gpus| - 1];
      GpuSlots(worker, gpus[..|gpus| - 1], live, vendors)
      + if last.vendor in vendors then [Slot(worker, last.index, last.vram - UsageOf(live, last.index))] else []
  }

  /** Every supported GPU of every worker, in scan order, with its free VRAM. */
  function SlotsOf(workers: seq<Worker>, rows: seq<Instance>, vendors: set<string>): seq<Slot> {
    if workers == [] then []
    else
      var last := workers[|workers| - 1];
      SlotsOf(workers[..|workers| - 1], rows, vendors)
      + GpuSlots(last.id, last.gpus, LiveOn(rows, last.id), vendors)
  }

  ghost predicate DistinctKeys(slots: seq<Slot>) {
    forall i, j :: 0 <= i < j < |slots| ==> slots[i].Key() != slots[j].Key()
  }

  lemma {:induction false} GpuSlotsKeys(worker: Id, gpus: seq<Gpu>, live: seq<Instance>, vendors: set<string>)
    requires DistinctGpus(gpus)
    ensures var slots := GpuSlots(worker, gpus, live, vendors);
            && DistinctKeys(slots)
            && forall s :: s in slots ==> s.worker == worker && exists g :: g in gpus && g.index == s.index
  {
    if gpus != [] {
      var front := gpus[..|gpus| - 1];
      GpuSlotsKeys(worker, front, live, vendors);
      assert gpus == front + [gpus[|gpus| - 1]];
      var slots := GpuSlots(worker, front, live, vendors);
      forall s | s in slots ensures s.index != gpus[|gpus| - 1].index {
        var g :| g in front && g.index == s.index;
      }
    }
  }

  lemma {:induction false} SlotsOfKeys(workers: seq<Worker>, rows: seq<Instance>, vendors: set<string>)
    requires ValidWorkers(workers)
    ensures var slots := SlotsOf(workers, rows, vendors);
            DistinctKeys(slots) && forall s :: s in slots ==> exists w :: w in workers && w.id == s.worker
  {
    if workers != [] {
      var front, last := workers[..|workers| - 1], workers[|workers| - 1];
      SlotsOfKeys(front, rows, vendors);
      GpuSlotsKeys(last.id, last.gpus, LiveOn(rows, last.id), vendors);
      assert workers == front + [last];
      forall s | s in SlotsOf(front, rows, vendors) ensures s.worker != last.id {
        var w :| w in front && w.id == s.worker;
      }
    }
  }

  /** What is left of the scan once the VRAM this call has handed out is subtracted. */
  function Settled(slots: seq<Slot>, pending: map<GpuKey, int>): seq<Slot> {
    seq(|slots|, i requires 0 <= i < |slots| =>
      slots[i].(free := slots[i].free - Lookup(pending, slots[i].Key())))
  }

  /** The scan after a replica of size v lands on slot i. */
  function Take(slots: seq<Slot>, i: nat, v: int): (after: seq<Slot>)
    requires i < |slots|
    ensures |after| == |slots|
  {
    slots[i := slots[i].(free := slots[i].free - v)]
  }

  /** The three passes, strongest anti-affinity first. */
  datatype Tier = FreshWorker | FreshGpu | AnyGpu

  /** The scan's state: GPUs with what is left on them, and the GPUs and hosts already used. */
  datatype Board = Board(slots: seq<Slot>, used: set<GpuKey>, usedWorkers: set<Id>) {
    predicate Allowed(tier: Tier, s: Slot) {
      match tier
      case FreshWorker => s.worker !in usedWorkers
      case FreshGpu => s.Key() !in used
      case AnyGpu => true
    }

    predicate Candidate(tier: Tier, v: int, i: int) {
      0 <= i < |slots| && slots[i].free >= v && Allowed(tier, slots[i])
    }

    /** The slot with the least sufficient free VRAM among the first n, first in scan order. */
    function BestIn(tier: Tier, v: int, n: nat): (best: Option<nat>)
      requires n <= |slots|
      ensures best.Some? ==> best.value < n
    {
      if n == 0 then None
      else
        var best := BestIn(tier, v, n - 1);
        if Candidate(tier, v, n - 1) && (best.None? || slots[n - 1].free < slots[best.value].free)
        then Some(n - 1) else best
    }

    function Pick(v: int): (best: Option<nat>)
      ensures best.Some? ==> best.value < |slots|
    {
      var n := |slots|;
      var first := BestIn(FreshWorker, v, n);
      if first.Some? then first
      else
        var second := BestIn(FreshGpu, v, n);
        if second.Some? then second else BestIn(AnyGpu, v, n)
    }

    function Place(v: int, i: nat): Board
      requires i < |slots|
    {
      Board(Take(slots, i, v), used + {slots[i].Key()}, usedWorkers + {slots[i].worker})
    }

    /** The slots the loop takes, in order; shorter than `count` when it runs out of GPUs. */
    function Plan(v: int, count: nat): (plan: seq<nat>)
      ensures |plan| <= count && forall p :: 0 <= p < |plan| ==> plan[p] < |slots|
      decreases count
    {
      if count == 0 then []
      else
        match Pick(v)
        case None => []
        case Some(i) => [i] + Place(v, i).Plan(v, count - 1)
    }

    /** A used GPU makes its host used: how the caller's set is split on entry. */
    ghost predicate Consistent() {
      forall i :: 0 <= i < |slots| && slots[i].Key() in used ==> slots[i].worker in usedWorkers
    }
  }

  lemma {:induction false} BestInIsBest(b: Board, tier: Tier, v: int, n: nat)
    requires n <= |b.slots|
    ensures match b.BestIn(tier, v, n)
            case None => forall i :: 0 <= i < n ==> !b.Candidate(tier, v, i)
            case Some(i) =>
              && b.Candidate(tier, v, i)
              && (forall j :: 0 <= j < n && b.Candidate(tier, v, j) ==> b.slots[i].free <= b.slots[j].free)
              && (forall j :: 0 <= j < i && b.Candidate(tier, v, j) ==> b.slots[i].free < b.slots[j].free)
  {
    if n > 0 {
      BestInIsBest(b, tier, v, n - 1);
    }
  }

  /** The strongest pass that has any candidate wins, and within it the tightest fit, scanned first. */
  lemma PickIsBestFit(b: Board, v: int)
    ensures b.Pick(v).None? <==> forall i :: !b.Candidate(AnyGpu, v, i)
    ensures b.Pick(v).Some? ==>
      var i := b.Pick(v).value;
      var tier := if exists j :: b.Candidate(FreshWorker, v, j) then FreshWorker
                  else if exists j :: b.Candidate(FreshGpu, v, j) then FreshGpu
                  else AnyGpu;
      && b.Candidate(tier, v, i)
      && (forall j :: b.Candidate(tier, v, j) ==> b.slots[i].free <= b.slots[j].free)
      && (forall j :: j < i && b.Candidate(tier, v, j) ==> b.slots[i].free < b.slots[j].free)
  {
    BestInIsBest(b, FreshWorker, v, |b.slots|);
    BestInIsBest(b, FreshGpu, v, |b.slots|);
    BestInIsBest(b, AnyGpu, v, |b.slots|);
    forall tier, i | b.Candidate(tier, v, i) ensures b.Candidate(AnyGpu, v, i) {}
  }

  // ---- Capacity: how many replicas fit at all ----

  function Units(free: int, v: int): nat
    requires v > 0
  {
    if free >= v then free / v else 0
  }

  /** The sum over GPUs of how many replicas of size v each still holds. */
  function Capacity(slots: seq<Slot>, v: int): nat
    requires v > 0
  {
    if slots == [] then 0
    else Capacity(slots[..|slots| - 1], v) + Units(slots[|slots| - 1].free, v)
  }

  lemma QuotientUnique(a: int, v: int, q: int, r: int)
    requires v > 0 && a == q * v + r && 0 <= r < v
    ensures a / v == q
  {
    var d := a / v - q;
    assert d >= 1 ==> d * v >= v;
    assert d <= -1 ==> d * v <= -v;
    assert d * v == r - a % v;
  }

  lemma UnitsStep(free: int, v: int)
    requires v > 0 && free >= v
    ensures Units(free, v) == Units(free - v, v) + 1
  {
    var q, r := free / v, free % v;
    assert free - v == (q - 1) * v + r;
    QuotientUnique(free - v, v, q - 1, r);
    if free - v < v {
      QuotientUnique(free - v, v, 0, free - v);
    }
  }

  lemma {:induction false} CapacityUpdate(slots: seq<Slot>, v: int, i: nat, s: Slot)
    requires v > 0 && i < |slots|
    ensures Capacity(slots[i := s], v) == Capacity(slots, v) - Units(slots[i].free, v) + Units(s.free, v)
  {
    var n := |slots| - 1;
    if i == n {
      assert slots[i := s][..n] == slots[..n];
    } else {
      assert slots[i := s][..n] == slots[..n][i := s];
      CapacityUpdate(slots[..n], v, i, s);
    }
  }

  lemma {:induction false} CapacityZero(slots: seq<Slot>, v: int)
    requires v > 0
    ensures Capacity(slots, v) == 0 <==> forall s :: s in slots ==> s.free < v
  {
    if slots != [] {
      var n := |slots| - 1;
      CapacityZero(slots[..n], v);
      assert slots == slots[..n] + [slots[n]];
      if slots[n].free >= v {
        UnitsStep(slots[n].free, v);
      }
    }
  }

  lemma PlaceCapacity(b: Board, v: int, i: nat)
    requires v > 0 && i < |b.slots| && b.slots[i].free >= v
    ensures Capacity(b.slots, v) == Capacity(b.Place(v, i).slots, v) + 1
  {
    CapacityUpdate(b.slots, v, i, b.Place(v, i).slots[i]);
    UnitsStep(b.slots[i].free, v);
  }

  /** A placement somebody else might choose: each replica fits in what the earlier ones left. */
  ghost predicate ValidRun(slots: seq<Slot>, v: int, run: seq<nat>)
    decreases |run|
  {
    run == []
    || (&& run[0] < |slots| && slots[run[0]].free >= v
        && ValidRun(Take(slots, run[0], v), v, run[1..]))
  }

  lemma {:induction false} ValidRunBound(slots: seq<Slot>, v: int, run: seq<nat>)
    requires v > 0 && ValidRun(slots, v, run)
    ensures |run| <= Capacity(slots, v)
    decreases |run|
  {
    if run != [] {
      var b := Board(slots, {}, {});
      PlaceCapacity(b, v, run[0]);
      ValidRunBound(b.Place(v, run[0]).slots, v, run[1..]);
    }
  }

  lemma {:induction false} PlanSize(b: Board, v: int, count: nat)
    requires v > 0
    ensures |b.Plan(v, count)| == Min(count, Capacity(b.slots, v))
    ensures ValidRun(b.slots, v, b.Plan(v, count))
    decreases count
  {
    PickIsBestFit(b, v);
    if count > 0 {
      match b.Pick(v)
      case None =>
        forall s | s in b.slots ensures s.free < v {
          var i :| 0 <= i < |b.slots| && b.slots[i] == s;
          assert !b.Candidate(AnyGpu, v, i);
        }
        CapacityZero(b.slots, v);
      case Some(i) =>
        PlaceCapacity(b, v, i);
        PlanSize(b.Place(v, i), v, count - 1);
        assert b.Plan(v, count)[1..] == b.Place(v, i).Plan(v, count - 1);
    }
  }

  /** Complete: the passes place `count` replicas exactly when any placement at all could, which is
      exactly when `count` is within the sum of what each GPU holds. */
  lemma AllocationComplete(b: Board, v: int, count: nat)
    requires v > 0
    ensures |b.Plan(v, count)| == count <==> count <= Capacity(b.slots, v)
    ensures |b.Plan(v, count)| == count <==> exists run :: ValidRun(b.slots, v, run) && |run| == count
  {
    PlanSize(b, v, count);
    forall run | ValidRun(b.slots, v, run) && |run| == count ensures count <= Capacity(b.slots, v) {
      ValidRunBound(b.slots, v, run);
    }
  }

  // ---- Spread: how many fresh hosts and fresh GPUs are used ----

  /** The hosts of a run that nobody used before. */
  function FreshWorkersTaken(b: Board, run: seq<nat>): set<Id> {
    set i | i in run && i < |b.slots| && b.slots[i].worker !in b.usedWorkers :: b.slots[i].worker
  }

  /** The GPUs of a run that nobody used before. */
  function FreshGpusTaken(b: Board, run: seq<nat>): set<GpuKey> {
    set i | i in run && i < |b.slots| && b.slots[i].Key() !in b.used :: b.slots[i].Key()
  }

  function FittingFreshWorkers(b: Board, v: int): set<Id> {
    set i | 0 <= i < |b.slots| && b.Candidate(FreshWorker, v, i) :: b.slots[i].worker
  }

  function FittingFreshGpus(b: Board, v: int): set<GpuKey> {
    set i | 0 <= i < |b.slots| && b.Candidate(FreshGpu, v, i) :: b.slots[i].Key()
  }

  /** How one step of a run counts: its host adds one if it was unused... */
  lemma WorkerTaken(b: Board, v: int, i: nat, rest: seq<nat>)
    requires i < |b.slots|
    ensures |FreshWorkersTaken(b, [i] + rest)|
            == |FreshWorkersTaken(b.Place(v, i), rest)| + (if b.slots[i].worker in b.usedWorkers then 0 else 1)
  {
    var after, w := b.Place(v, i), b.slots[i].worker;
    assert forall j :: j in [i] + rest <==> j == i || j in rest;
    assert forall j :: 0 <= j < |b.slots| ==> after.slots[j].worker == b.slots[j].worker;
    if w in b.usedWorkers {
      assert FreshWorkersTaken(b, [i] + rest) == FreshWorkersTaken(after, rest);
    } else {
      assert FreshWorkersTaken(b, [i] + rest) == {w} + FreshWorkersTaken(after, rest);
    }
  }

  /** ... and so does its GPU. */
  lemma GpuTaken(b: Board, v: int, i: nat, rest: seq<nat>)
    requires i < |b.slots|
    ensures |FreshGpusTaken(b, [i] + rest)|
            == |FreshGpusTaken(b.Place(v, i), rest)| + (if b.slots[i].Key() in b.used then 0 else 1)
  {
    var after, k := b.Place(v, i), b.slots[i].Key();
    assert forall j :: j in [i] + rest <==> j == i || j in rest;
    assert forall j :: 0 <= j < |b.slots| ==> after.slots[j].Key() == b.slots[j].Key();
    if k in b.used {
      assert FreshGpusTaken(b, [i] + rest) == FreshGpusTaken(after, rest);
    } else {
      assert FreshGpusTaken(b, [i] + rest) == {k} + FreshGpusTaken(after, rest);
    }
  }

  /** The pick uses up a fitting fresh host, unless there was none. */
  lemma FittingWorkersStep(b: Board, v: int, i: nat)
    requires v > 0 && b.Pick(v) == Some(i)
    ensures var open, left := FittingFreshWorkers(b, v), FittingFreshWorkers(b.Place(v, i), v);
            if b.slots[i].worker in b.usedWorkers then |open| == |left| == 0 else |open| == |left| + 1
  {
    var after, w := b.Place(v, i), b.slots[i].worker;
    PickIsBestFit(b, v);
    assert forall j :: after.Candidate(FreshWorker, v, j) ==> b.Candidate(FreshWorker, v, j);
    if w !in b.usedWorkers {
      assert b.Candidate(FreshWorker, v, i);
      forall x | x in FittingFreshWorkers(b, v) && x != w ensures x in FittingFreshWorkers(after, v) {
        var j :| 0 <= j < |b.slots| && b.Candidate(FreshWorker, v, j) && b.slots[j].worker == x;
        assert after.Candidate(FreshWorker, v, j);
      }
      assert FittingFreshWorkers(b, v) == {w} + FittingFreshWorkers(after, v);
    } else {
      assert FittingFreshWorkers(b, v) == {} && FittingFreshWorkers(after, v) == {};
    }
  }

  lemma {:induction false} SpreadsOverWorkers(b: Board, v: int, count: nat)
    requires v > 0
    ensures |FreshWorkersTaken(b, b.Plan(v, count))| == Min(|b.Plan(v, count)|, |FittingFreshWorkers(b, v)|)
    decreases count
  {
    if b.Plan(v, count) == [] {
      assert FreshWorkersTaken(b, []) == {};
    } else {
      var i := b.Pick(v).value;
      SpreadsOverWorkers(b.Place(v, i), v, count - 1);
      FittingWorkersStep(b, v, i);
      WorkerTaken(b, v, i, b.Place(v, i).Plan(v, count - 1));
    }
  }

  /** A GPU of a fresh host is a fresh GPU, so the pick is one whenever a fresh GPU fits. */
  lemma PickIsFreshGpu(b: Board, v: int, i: nat)
    requires b.Consistent() && b.Pick(v) == Some(i)
    ensures if b.slots[i].Key() in b.used then forall j :: !b.Candidate(FreshGpu, v, j)
            else b.Candidate(FreshGpu, v, i)
  {
    PickIsBestFit(b, v);
    assert forall j :: b.Candidate(FreshWorker, v, j) ==> b.Candidate(FreshGpu, v, j);
  }

  lemma FittingGpusStep(b: Board, v: int, i: nat)
    requires v > 0 && b.Consistent() && b.Pick(v) == Some(i)
    ensures var open, left := FittingFreshGpus(b, v), FittingFreshGpus(b.Place(v, i), v);
            if b.slots[i].Key() in b.used then |open| == |left| == 0 else |open| == |left| + 1
  {
    var after, k := b.Place(v, i), b.slots[i].Key();
    PickIsFreshGpu(b, v, i);
    assert forall j :: after.Candidate(FreshGpu, v, j) ==> b.Candidate(FreshGpu, v, j);
    if k !in b.used {
      forall x | x in FittingFreshGpus(b, v) && x != k ensures x in FittingFreshGpus(after, v) {
        var j :| 0 <= j < |b.slots| && b.Candidate(FreshGpu, v, j) && b.slots[j].Key() == x;
        assert after.Candidate(FreshGpu, v, j);
      }
      assert FittingFreshGpus(b, v) == {k} + FittingFreshGpus(after, v);
    } else {
      assert FittingFreshGpus(b, v) == {} && FittingFreshGpus(after, v) == {};
    }
  }

  lemma {:induction false} SpreadsOverGpus(b: Board, v: int, count: nat)
    requires v > 0 && b.Consistent()
    ensures |FreshGpusTaken(b, b.Plan(v, count))| == Min(|b.Plan(v, count)|, |FittingFreshGpus(b, v)|)
    decreases count
  {
    if b.Plan(v, count) == [] {
      assert FreshGpusTaken(b, []) == {};
    } else {
      var i := b.Pick(v).value;
      assert forall j :: 0 <= j < |b.slots| ==> b.Place(v, i).slots[j].Key() == b.slots[j].Key();
      SpreadsOverGpus(b.Place(v, i), v, count - 1);
      FittingGpusStep(b, v, i);
      GpuTaken(b, v, i, b.Place(v, i).Plan(v, count - 1));
    }
  }

  lemma {:induction false} ValidRunFits(slots: seq<Slot>, v: int, run: seq<nat>)
    requires v > 0 && ValidRun(slots, v, run)
    ensures forall i :: i in run ==> i < |slots| && slots[i].free >= v
    decreases |run|
  {
    if run != [] {
      var next := Take(slots, run[0], v);
      ValidRunFits(next, v, run[1..]);
      assert run == [run[0]] + run[1..];
    }
  }

  lemma {:induction false} TakenAtMost(b: Board, run: seq<nat>)
    ensures |FreshWorkersTaken(b, run)| <= |run| && |FreshGpusTaken(b, run)| <= |run|
  {
    if run == [] {
      assert FreshWorkersTaken(b, run) == {} && FreshGpusTaken(b, run) == {};
    } else {
      var front, last := run[..|run| - 1], run[|run| - 1];
      TakenAtMost(b, front);
      assert run == front + [last];
      if last < |b.slots| {
        Sets.SubsetSize(FreshWorkersTaken(b, run), FreshWorkersTaken(b, front) + {b.slots[last].worker});
        Sets.SubsetSize(FreshGpusTaken(b, run), FreshGpusTaken(b, front) + {b.slots[last].Key()});
      } else {
        Sets.SubsetSize(FreshWorkersTaken(b, run), FreshWorkersTaken(b, front));
        Sets.SubsetSize(FreshGpusTaken(b, run), FreshGpusTaken(b, front));
      }
    }
  }

  /** Maximum spread: the plan reaches at least as many fresh hosts and fresh GPUs as any other
      placement of the same number of replicas. */
  lemma NoPlacementSpreadsWider(b: Board, v: int, count: nat, run: seq<nat>)
    requires v > 0 && b.Consistent()
    requires ValidRun(b.slots, v, run) && |run| == count
    ensures |FreshWorkersTaken(b, run)| <= |FreshWorkersTaken(b, b.Plan(v, count))|
    ensures |FreshGpusTaken(b, run)| <= |FreshGpusTaken(b, b.Plan(v, count))|
  {
    AllocationComplete(b, v, count);
    ValidRunFits(b.slots, v, run);
    SpreadsOverWorkers(b, v, count);
    SpreadsOverGpus(b, v, count);
    TakenAtMost(b, run);
    forall w | w in FreshWorkersTaken(b, run) ensures w in FittingFreshWorkers(b, v) {
      var i :| i in run && i < |b.slots| && b.slots[i].worker == w;
      assert b.Candidate(FreshWorker, v, i);
    }
    forall k | k in FreshGpusTaken(b, run) ensures k in FittingFreshGpus(b, v) {
      var i :| i in run && i < |b.slots| && b.slots[i].Key() == k;
      assert b.Candidate(FreshGpu, v, i);
    }
    Sets.SubsetSize(FreshWorkersTaken(b, run), FittingFreshWorkers(b, v));
    Sets.SubsetSize(FreshGpusTaken(b, run), FittingFreshGpus(b, v));
  }

  // ---- What the placed rows do to the next scan ----

  /** The free VRAM of every GPU once a run has been placed. */
  function Drain(slots: seq<Slot>, v: int, run: seq<nat>): (left: seq<Slot>)
    requires forall i :: i in run ==> i < |slots|
    ensures |left| == |slots|
    decreases |run|
  {
    if run == [] then slots
    else
      assert run[0] in run && forall i :: i in run[1..] ==> i in run;
      Drain(Take(slots, run[0], v), v, run[1..])
  }

  lemma {:induction false} DrainLeavesRoom(slots: seq<Slot>, v: int, run: seq<nat>)
    requires v > 0 && ValidRun(slots, v, run)
    requires forall i :: i in run ==> i < |slots|
    ensures var left := Drain(slots, v, run);
            forall i :: 0 <= i < |slots| ==>
              && left[i].Key() == slots[i].Key()
              && if i in run then 0 <= left[i].free < slots[i].free else left[i] == slots[i]
    decreases |run|
  {
    if run != [] {
      assert run[0] in run && forall i :: i in run <==> i == run[0] || i in run[1..];
      var next := Take(slots, run[0], v);
      DrainLeavesRoom(next, v, run[1..]);
    }
  }

  /** Every slot with this key loses v. */
  function Charge(slots: seq<Slot>, k: GpuKey, v: int): seq<Slot> {
    seq(|slots|, i requires 0 <= i < |slots| =>
      if slots[i].Key() == k then slots[i].(free := slots[i].free - v) else slots[i])
  }

  lemma ChargeConcat(a: seq<Slot>, b: seq<Slot>, k: GpuKey, v: int)
    ensures Charge(a + b, k, v) == Charge(a, k, v) + Charge(b, k, v)
  {
  }

  /** A row that holds v MB of one GPU, as deploy and apply_scale insert it. */
  ghost predicate Occupies(r: Instance, k: GpuKey, v: int) {
    r.worker == Some(k.worker) && r.state.Live() && r.gpuIndexes == [k.index] && r.vram == v
  }

  lemma LiveOnSnoc(rows: seq<Instance>, r: Instance, worker: Id)
    ensures LiveOn(rows + [r], worker)
            == if r.worker == Some(worker) && r.state.Live() then LiveOn(rows, worker) + [r] else LiveOn(rows, worker)
  {
    FilterConcat(rows, [r], (r: Instance) => r.worker == Some(worker) && r.state.Live());
  }

  lemma UsageSnoc(rows: seq<Instance>, r: Instance, k: GpuKey, v: int, worker: Id, index: int)
    requires Occupies(r, k, v)
    ensures UsageOf(LiveOn(rows + [r], worker), index)
            == UsageOf(LiveOn(rows, worker), index) + (if GpuKey(worker, index) == k then v else 0)
  {
    LiveOnSnoc(rows, r, worker);
    if worker == k.worker {
      UsageOfSnoc(LiveOn(rows, worker), r, index);
    }
  }

  lemma UsageOfSnoc(rows: seq<Instance>, r: Instance, index: int)
    requires |r.gpuIndexes| == 1
    ensures UsageOf(rows + [r], index) == UsageOf(rows, index) + (if r.gpuIndexes[0] == index then r.vram else 0)
  {
    assert (rows + [r])[..|rows + [r]| - 1] == rows;
    assert r.gpuIndexes[..0] == [];
    assert Claim(r.gpuIndexes[..0], r.vram, index) == 0;
  }

  // ---- What the scan shows, in columns ----

  function ClaimOn(r: Instance, k: GpuKey): int {
    if r.worker == Some(k.worker) && r.state.Live() then Claim(r.gpuIndexes, r.vram, k.index) else 0
  }

  /** What the live rows claim of a GPU together. */
  function Load(rows: seq<Instance>, k: GpuKey): int {
    if rows == [] then 0 else Load(rows[..|rows| - 1], k) + ClaimOn(rows[|rows| - 1], k)
  }

  /** It is what the allocators subtract. */
  lemma {:induction false} LoadIsUsage(rows: seq<Instance>, k: GpuKey)
    ensures Load(rows, k) == UsageOf(LiveOn(rows, k.worker), k.index)
  {
    if rows != [] {
      var front, last := rows[..|rows| - 1], rows[|rows| - 1];
      LoadIsUsage(front, k);
      LiveOnSnoc(front, last, k.worker);
      assert rows == front + [last];
      if last.worker == Some(k.worker) && last.state.Live() {
        var live := LiveOn(front, k.worker);
        assert (live + [last])[..|live + [last]| - 1] == live;
      }
    }
  }

  /** A GPU an engine can use: of a vendor it supports, on a connected worker of the cluster. */
  ghost predicate Usable(workers: seq<Worker>, cluster: Id, engine: string, w: Worker, g: Gpu) {
    && w in workers && w.cluster == cluster && w.connected && g in w.gpus
    && (engine == "vllm" || engine == "sglang") && (g.vendor == "nvidia" || g.vendor == "mock")
  }

  function Room(rows: seq<Instance>, w: Worker, g: Gpu): int {
    g.vram - Load(rows, GpuKey(w.id, g.index))
  }

  lemma {:induction false} GpuSlotsAre(worker: Id, gpus: seq<Gpu>, live: seq<Instance>, vendors: set<string>, s: Slot)
    ensures s in GpuSlots(worker, gpus, live, vendors) <==>
              exists g :: g in gpus && g.vendor in vendors && s == Slot(worker, g.index, g.vram - UsageOf(live, g.index))
  {
    if gpus != [] {
      var front := gpus[..|gpus| - 1];
      GpuSlotsAre(worker, front, live, vendors, s);
      assert gpus == front + [gpus[|gpus| - 1]];
    }
  }

  lemma {:induction false} SlotsAre(workers: seq<Worker>, rows: seq<Instance>, vendors: set<string>, s: Slot)
    ensures s in SlotsOf(workers, rows, vendors) <==>
              exists w, g :: w in workers && g in w.gpus && g.vendor in vendors && s == Slot(w.id, g.index, Room(rows, w, g))
  {
    if workers != [] {
      var front, last := workers[..|workers| - 1], workers[|workers| - 1];
      SlotsAre(front, rows, vendors, s);
      assert workers == front + [last];
      GpuSlotsAre(last.id, last.gpus, LiveOn(rows, last.id), vendors, s);
      forall g | g in last.gpus ensures Room(rows, last, g) == g.vram - UsageOf(LiveOn(rows, last.id), g.index) {
        LoadIsUsage(rows, GpuKey(last.id, g.index));
      }
    }
  }

  /** A usable GPU, with the VRAM that live instances leave of it. */
  ghost predicate Shows(workers: seq<Worker>, cluster: Id, engine: string, rows: seq<Instance>, s: Slot) {
    exists w, g :: Usable(workers, cluster, engine, w, g) && s == Slot(w.id, g.index, Room(rows, w, g))
  }

  /** The scan shows exactly these. */
  lemma ScanIs(workers: seq<Worker>, cluster: Id, engine: string, rows: seq<Instance>, s: Slot)
    ensures s in SlotsOf(Connected(workers, cluster), rows, Vendors(engine)) <==> Shows(workers, cluster, engine, rows, s)
  {
    ConnectedAre(workers, cluster);
    SlotsAre(Connected(workers, cluster), rows, Vendors(engine), s);
  }

  lemma {:induction false} GpuSlotsSnoc(worker: Id, gpus: seq<Gpu>, rows: seq<Instance>, r: Instance, k: GpuKey, v: int,
                                       vendors: set<string>)
    requires Occupies(r, k, v)
    ensures GpuSlots(worker, gpus, LiveOn(rows + [r], worker), vendors)
            == Charge(GpuSlots(worker, gpus, LiveOn(rows, worker), vendors), k, v)
  {
    if gpus != [] {
      var last, live := gpus[|gpus| - 1], LiveOn(rows, worker);
      GpuSlotsSnoc(worker, gpus[..|gpus| - 1], rows, r, k, v, vendors);
      UsageSnoc(rows, r, k, v, worker, last.index);
      ChargeConcat(GpuSlots(worker, gpus[..|gpus| - 1], live, vendors),
                   if last.vendor in vendors then [Slot(worker, last.index, last.vram - UsageOf(live, last.index))] else [],
                   k, v);
    }
  }

  lemma {:induction false} SlotsOfSnoc(workers: seq<Worker>, rows: seq<Instance>, r: Instance, k: GpuKey, v: int,
                                      vendors: set<string>)
    requires Occupies(r, k, v)
    ensures SlotsOf(workers, rows + [r], vendors) == Charge(SlotsOf(workers, rows, vendors), k, v)
  {
    if workers != [] {
      var last := workers[|workers| - 1];
      SlotsOfSnoc(workers[..|workers| - 1], rows, r, k, v, vendors);
      GpuSlotsSnoc(last.id, last.gpus, rows, r, k, v, vendors);
      ChargeConcat(SlotsOf(workers[..|workers| - 1], rows, vendors),
                   GpuSlots(last.id, last.gpus, LiveOn(rows, last.id), vendors), k, v);
    }
  }

  lemma ChargeOne(slots: seq<Slot>, i: nat, v: int)
    requires DistinctKeys(slots) && i < |slots|
    ensures Charge(slots, slots[i].Key(), v) == Take(slots, i, v)
  {
  }

  lemma RescanSeesOne(workers: seq<Worker>, rows: seq<Instance>, vendors: set<string>, v: int, i: nat, r: Instance)
    requires ValidWorkers(workers) && i < |SlotsOf(workers, rows, vendors)|
    requires Occupies(r, SlotsOf(workers, rows, vendors)[i].Key(), v)
    ensures var slots := SlotsOf(workers, rows, vendors);
            SlotsOf(workers, rows + [r], vendors) == Take(slots, i, v)
  {
    var slots := SlotsOf(workers, rows, vendors);
    SlotsOfSnoc(workers, rows, r, slots[i].Key(), v, vendors);
    SlotsOfKeys(workers, rows, vendors);
    ChargeOne(slots, i, v);
  }

  /** Scanning again after the placed rows are inserted shows exactly the planned VRAM, GPU by GPU. */
  lemma {:induction false} RescanSeesDrain(workers: seq<Worker>, rows: seq<Instance>, vendors: set<string>, v: int,
                                          run: seq<nat>, added: seq<Instance>)
    requires ValidWorkers(workers) && |run| == |added|
    requires var slots := SlotsOf(workers, rows, vendors);
             forall p :: 0 <= p < |run| ==> run[p] < |slots| && Occupies(added[p], slots[run[p]].Key(), v)
    ensures forall i :: i in run ==> i < |SlotsOf(workers, rows, vendors)|
    ensures SlotsOf(workers, rows + added, vendors) == Drain(SlotsOf(workers, rows, vendors), v, run)
    decreases |run|
  {
    var slots := SlotsOf(workers, rows, vendors);
    if run == [] {
      assert rows + added == rows;
    } else {
      RescanSeesOne(workers, rows, vendors, v, run[0], added[0]);
      RescanSeesDrain(workers, rows + [added[0]], vendors, v, run[1..], added[1..]);
      assert rows + added == (rows + [added[0]]) + added[1..];
    }
  }

  /** Safe: after the plan's rows are inserted, no chosen GPU is overcommitted and no other GPU changed. */
  lemma AllocationSafe(workers: seq<Worker>, rows: seq<Instance>, vendors: set<string>, used: set<GpuKey>, v: int,
                       count: nat, added: seq<Instance>)
    requires ValidWorkers(workers) && v > 0
    requires var b := OpeningBoard(SlotsOf(workers, rows, vendors), used);
             var plan := b.Plan(v, count);
             |added| == |plan| && forall p :: 0 <= p < |plan| ==> Occupies(added[p], b.slots[plan[p]].Key(), v)
    ensures var before, after := SlotsOf(workers, rows, vendors), SlotsOf(workers, rows + added, vendors);
            var plan := OpeningBoard(before, used).Plan(v, count);
            |after| == |before| && forall i :: 0 <= i < |before| ==>
              after[i].Key() == before[i].Key() && if i in plan then after[i].free >= 0 else after[i] == before[i]
  {
    var b := OpeningBoard(SlotsOf(workers, rows, vendors), used);
    var plan := b.Plan(v, count);
    PlanSize(b, v, count);
    RescanSeesDrain(workers, rows, vendors, v, plan, added);
    DrainLeavesRoom(b.slots, v, plan);
  }

  // ---- The allocator ----

  /** How the loop starts: the scan, the caller's used GPUs, and the hosts they are on. */
  function OpeningBoard(slots: seq<Slot>, used: set<GpuKey>): (b: Board)
    ensures b.Consistent()
  {
    Board(slots, used, set k | k in used :: k.worker)
  }

  /** Every port is from the range, free of reserved rows on its host, handed out once, and the lowest such. */
  ghost predicate PortsGranted(rows: seq<Instance>, range: PortRange, placements: seq<Placement>) {
    && (forall i :: 0 <= i < |placements| ==>
         placements[i].port in FreePorts(ReservedOn(rows, placements[i].worker), range))
    && (forall i, j :: 0 <= i < j < |placements| ==> placements[i].port != placements[j].port)
    && (forall i :: 0 <= i < |placements| ==> LowestLeft(rows, range, placements[..i], placements[i]))
  }

  function Handed(placements: seq<Placement>): set<int> {
    set p | p in placements :: p.port
  }

  /** Every lower free port of the host went to an earlier replica. */
  ghost predicate LowestLeft(rows: seq<Instance>, range: PortRange, earlier: seq<Placement>, p: Placement) {
    Lowest(FreePorts(ReservedOn(rows, p.worker), range), Handed(earlier), p.port)
  }

  lemma GrantNext(rows: seq<Instance>, range: PortRange, placed: seq<Placement>, p: Placement)
    requires PortsGranted(rows, range, placed)
    requires p.port in FreePorts(ReservedOn(rows, p.worker), range) - Handed(placed) && LowestLeft(rows, range, placed, p)
    ensures PortsGranted(rows, range, placed + [p]) && Handed(placed + [p]) == Handed(placed) + {p.port}
  {
    var all := placed + [p];
    forall i | 0 <= i < |all| ensures LowestLeft(rows, range, all[..i], all[i]) {
      assert all[..i] == placed[..i];
    }
    forall i | 0 <= i < |placed| ensures all[i].port != p.port {
      assert placed[i] in placed;
    }
  }

  method Snapshot(workers: seq<Worker>, rows: seq<Instance>, vendors: set<string>) returns (slots: seq<Slot>)
    ensures slots == SlotsOf(workers, rows, vendors)
  {
    slots := [];
    for n := 0 to |workers|
      invariant slots == SlotsOf(workers[..n], rows, vendors)
    {
      var worker := workers[n];
      var live := LiveOn(rows, worker.id);
      var usage := GpuUsage(live);
      var own: seq<Slot> := [];
      for g := 0 to |worker.gpus|
        invariant own == GpuSlots(worker.id, worker.gpus[..g], live, vendors)
      {
        var gpu := worker.gpus[g];
        if gpu.vendor in vendors {
          own := own + [Slot(worker.id, gpu.index, gpu.vram - Lookup(usage, gpu.index))];
        }
        assert worker.gpus[..g + 1][..g] == worker.gpus[..g];
      }
      assert worker.gpus[..|worker.gpus|] == worker.gpus;
      assert workers[..n + 1][..n] == workers[..n];
      slots := slots + own;
    }
    assert workers[..|workers|] == workers;
  }

  method Best(slots: seq<Slot>, pending: map<GpuKey, int>, used: set<GpuKey>, usedWorkers: set<Id>, tier: Tier, v: int)
    returns (best: Option<nat>)
    ensures best == Board(Settled(slots, pending), used, usedWorkers).BestIn(tier, v, |slots|)
  {
    ghost var b := Board(Settled(slots, pending), used, usedWorkers);
    best := None;
    var bestFree := 0;
    for n := 0 to |slots|
      invariant best == b.BestIn(tier, v, n)
      invariant best.Some? ==> best.value < n && bestFree == b.slots[best.value].free
    {
      var s := slots[n];
      var allowed := match tier
        case FreshWorker => s.worker !in usedWorkers
        case FreshGpu => s.Key() !in used
        case AnyGpu => true;
      var free := s.free - Lookup(pending, s.Key());
      if allowed && free >= v && (best.None? || free < bestFree) {
        best, bestFree := Some(n), free;
      }
    }
  }

  /** The three passes of one iteration. */
  method PickSlot(slots: seq<Slot>, pending: map<GpuKey, int>, used: set<GpuKey>, usedWorkers: set<Id>, v: int)
    returns (best: Option<nat>)
    ensures best == Board(Settled(slots, pending), used, usedWorkers).Pick(v)
  {
    best := Best(slots, pending, used, usedWorkers, FreshWorker, v);
    if best.None? {
      best := Best(slots, pending, used, usedWorkers, FreshGpu, v);
    }
    if best.None? {
      best := Best(slots, pending, used, usedWorkers, AnyGpu, v);
    }
  }

  /** Marks a slot's GPU and host used and charges the replica to it. */
  method Reserve(slots: seq<Slot>, pending: map<GpuKey, int>, used: set<GpuKey>, usedWorkers: set<Id>, i: nat, v: int)
    returns (pending': map<GpuKey, int>, used': set<GpuKey>, usedWorkers': set<Id>)
    requires DistinctKeys(slots) && i < |slots|
    ensures Board(Settled(slots, pending'), used', usedWorkers')
            == Board(Settled(slots, pending), used, usedWorkers).Place(v, i)
  {
    var s := slots[i];
    used', usedWorkers' := used + {s.Key()}, usedWorkers + {s.worker};
    pending' := pending[s.Key() := Lookup(pending, s.Key()) + v];
    assert Settled(slots, pending') == Take(Settled(slots, pending), i, v);
  }

  /** What the caller gets, in terms of the plan from board b: all of it with ports, or the first obstacle. */
  ghost predicate Outcome(b: Board, v: int, count: nat, rows: seq<Instance>, range: PortRange,
                          r: Result<seq<Placement>, AllocError>)
  {
    var plan := b.Plan(v, count);
    match r
    case Ok(placed) =>
      && |placed| == |plan| == count
      && (forall p :: 0 <= p < count ==> GpuKey(placed[p].worker, placed[p].gpuIndex) == b.slots[plan[p]].Key())
      && PortsGranted(rows, range, placed)
    case Err(NoGpu(i)) => |plan| == i - 1 < count
    case Err(NoPort) => exists p :: 0 <= p < |plan| && |FreePorts(ReservedOn(rows, b.slots[plan[p]].worker), range)| <= p
    case Err(_) => false
  }

  /** The loop's state after some iterations: the plan from b0 is `taken` followed by the plan from b,
      and `placed` puts replicas on exactly the taken slots. */
  ghost predicate Progress(b0: Board, b: Board, v: int, count: nat, taken: seq<nat>, placed: seq<Placement>) {
    && |placed| == |taken| <= count
    && b0.Plan(v, count) == taken + b.Plan(v, count - |taken|)
    && (forall p :: 0 <= p < |placed| ==>
         && taken[p] < |b0.slots|
         && GpuKey(placed[p].worker, placed[p].gpuIndex) == b0.slots[taken[p]].Key())
  }

  lemma ProgressStep(b0: Board, b: Board, v: int, count: nat, taken: seq<nat>, placed: seq<Placement>, j: nat, port: int)
    requires Progress(b0, b, v, count, taken, placed)
    requires |taken| < count && b.Pick(v) == Some(j) && j < |b0.slots|
    ensures var s := b0.slots[j];
            Progress(b0, b.Place(v, j), v, count, taken + [j], placed + [Placement(s.worker, s.index, port)])
  {
    var rest := b.Place(v, j).Plan(v, count - |taken| - 1);
    assert taken + ([j] + rest) == (taken + [j]) + rest;
  }

  lemma ProgressEnds(b0: Board, b: Board, v: int, count: nat, taken: seq<nat>, placed: seq<Placement>,
                     rows: seq<Instance>, range: PortRange)
    requires Progress(b0, b, v, count, taken, placed) && PortsGranted(rows, range, placed)
    ensures |taken| == count ==> Outcome(b0, v, count, rows, range, Ok(placed))
    ensures |taken| < count && b.Pick(v).None? ==> Outcome(b0, v, count, rows, range, Err(NoGpu(|taken| + 1)))
    ensures |taken| < count && b.Pick(v).Some? && b.Pick(v).value < |b0.slots|
            && FreePorts(ReservedOn(rows, b0.slots[b.Pick(v).value].worker), range) <= Handed(placed) ==>
            Outcome(b0, v, count, rows, range, Err(NoPort))
  {
    var plan := b0.Plan(v, count);
    if |taken| == count {
      assert plan == taken;
    } else if b.Pick(v).Some? && b.Pick(v).value < |b0.slots|
              && FreePorts(ReservedOn(rows, b0.slots[b.Pick(v).value].worker), range) <= Handed(placed) {
      assert plan[|taken|] == b.Pick(v).value;
      HandedAtMost(placed);
      Sets.SubsetSize(FreePorts(ReservedOn(rows, b0.slots[plan[|taken|]].worker), range), Handed(placed));
    }
  }

  lemma {:induction false} HandedAtMost(placed: seq<Placement>)
    ensures |Handed(placed)| <= |placed|
  {
    if placed == [] {
      assert Handed(placed) == {};
    } else {
      var front, last := placed[..|placed| - 1], placed[|placed| - 1];
      HandedAtMost(front);
      assert placed == front + [last];
      assert Handed(placed) == Handed(front) + {last.port};
    }
  }

  /** The allocation loop over one scan. */
  method PlaceAll(slots: seq<Slot>, rows: seq<Instance>, v: int, count: nat, used0: set<GpuKey>, range: PortRange)
    returns (r: Result<seq<Placement>, AllocError>)
    requires DistinctKeys(slots)
    ensures Outcome(OpeningBoard(slots, used0), v, count, rows, range, r)
  {
    var used, usedWorkers := used0, set k | k in used0 :: k.worker;
    var pending: map<GpuKey, int> := map[];
    var callPorts: set<int> := {};
    var placed: seq<Placement> := [];
    ghost var b0 := OpeningBoard(slots, used0);
    ghost var b := b0;
    ghost var taken: seq<nat> := [];
    assert Settled(slots, pending) == slots;
    for i := 0 to count
      invariant |placed| == i
      invariant b == Board(Settled(slots, pending), used, usedWorkers)
      invariant Progress(b0, b, v, count, taken, placed)
      invariant PortsGranted(rows, range, placed) && callPorts == Handed(placed)
    {
      ProgressEnds(b0, b, v, count, taken, placed, rows, range);
      var best := PickSlot(slots, pending, used, usedWorkers, v);
      if best.None? {
        return Err(NoGpu(i + 1));
      }
      var s := slots[best.value];
      var port := AllocPort(ReservedOn(rows, s.worker), range, callPorts);
      if port.None? {
        return Err(NoPort);
      }
      ProgressStep(b0, b, v, count, taken, placed, best.value, port.value);
      GrantNext(rows, range, placed, Placement(s.worker, s.index, port.value));
      taken, b := taken + [best.value], b.Place(v, best.value);
      callPorts := callPorts + {port.value};
      pending, used, usedWorkers := Reserve(slots, pending, used, usedWorkers, best.value, v);
      placed := placed + [Placement(s.worker, s.index, port.value)];
    }
    ProgressEnds(b0, b, v, count, taken, placed, rows, range);
    return Ok(placed);
  }

  lemma {:induction false} GpuOrder(worker: Id, gpus: seq<Gpu>, live: seq<Instance>, vendors: set<string>, i: nat, j: nat,
                                   c: nat, d: nat)
    requires DistinctGpus(gpus) && i < j < |GpuSlots(worker, gpus, live, vendors)| && c < |gpus| && d < |gpus|
    requires gpus[c].index == GpuSlots(worker, gpus, live, vendors)[i].index
    requires gpus[d].index == GpuSlots(worker, gpus, live, vendors)[j].index
    ensures c < d
  {
    var n, slots := |gpus| - 1, GpuSlots(worker, gpus, live, vendors);
    var front := GpuSlots(worker, gpus[..n], live, vendors);
    assert slots[i] in front;
    var m := GpuAt(worker, gpus[..n], live, vendors, slots[i]);
    assert m == c;
    if j < |front| {
      assert slots[j] in front;
      var k := GpuAt(worker, gpus[..n], live, vendors, slots[j]);
      assert k == d;
      GpuOrder(worker, gpus[..n], live, vendors, i, j, c, d);
    }
  }

  lemma GpuAt(worker: Id, gpus: seq<Gpu>, live: seq<Instance>, vendors: set<string>, s: Slot) returns (m: nat)
    requires s in GpuSlots(worker, gpus, live, vendors)
    ensures m < |gpus| && gpus[m].index == s.index
  {
    GpuSlotsAre(worker, gpus, live, vendors, s);
    var g :| g in gpus && g.index == s.index;
    m :| 0 <= m < |gpus| && gpus[m] == g;
  }

  /** Ties go to the first GPU of the scan: worker by worker, and each worker's GPUs in their order. */
  lemma {:induction false} ScanOrder(workers: seq<Worker>, rows: seq<Instance>, vendors: set<string>, i: nat, j: nat,
                                    a: nat, b: nat)
    requires ValidWorkers(workers) && i < j < |SlotsOf(workers, rows, vendors)| && a < |workers| && b < |workers|
    requires workers[a].id == SlotsOf(workers, rows, vendors)[i].worker
    requires workers[b].id == SlotsOf(workers, rows, vendors)[j].worker
    ensures a <= b
    ensures a == b ==>
              forall c, d | 0 <= c < |workers[a].gpus| && 0 <= d < |workers[a].gpus|
                            && workers[a].gpus[c].index == SlotsOf(workers, rows, vendors)[i].index
                            && workers[a].gpus[d].index == SlotsOf(workers, rows, vendors)[j].index :: c < d
  {
    var n, slots := |workers| - 1, SlotsOf(workers, rows, vendors);
    var front, last := SlotsOf(workers[..n], rows, vendors), workers[n];
    var own := GpuSlots(last.id, last.gpus, LiveOn(rows, last.id), vendors);
    forall k | 0 <= k < |front| ensures exists m :: 0 <= m < n && workers[m].id == slots[k].worker {
      assert slots[k] in front;
      SlotsAre(workers[..n], rows, vendors, slots[k]);
      var w :| w in workers[..n] && w.id == slots[k].worker;
      var m :| 0 <= m < n && workers[m] == w;
    }
    forall k | |front| <= k < |slots| ensures slots[k] == own[k - |front|] && slots[k].worker == last.id {
      assert own[k - |front|] in own;
      GpuSlotsAre(last.id, last.gpus, LiveOn(rows, last.id), vendors, slots[k]);
    }
    if j < |front| {
      ScanOrder(workers[..n], rows, vendors, i, j, a, b);
    } else if i >= |front| {
      forall c, d | 0 <= c < |last.gpus| && 0 <= d < |last.gpus|
                    && last.gpus[c].index == slots[i].index && last.gpus[d].index == slots[j].index
        ensures c < d {
        GpuOrder(last.id, last.gpus, LiveOn(rows, last.id), vendors, i - |front|, j - |front|, c, d);
      }
    }
  }

  // ---- The outcome, in rows and columns ----

  /** The hosts with room on a usable GPU that carry none of the GPUs already used. */
  ghost function OpenHosts(db: Database, cluster: Id, engine: string, v: int, used: set<GpuKey>): set<Id> {
    set w, g | w in db.workers && g in w.gpus && Usable(db.workers, cluster, engine, w, g) && Room(db.rows, w, g) >= v
               && (forall k :: k in used ==> k.worker != w.id) :: w.id
  }

  /** The usable GPUs with room that are not among those already used. */
  ghost function OpenGpus(db: Database, cluster: Id, engine: string, v: int, used: set<GpuKey>): set<GpuKey> {
    set w, g | w in db.workers && g in w.gpus && Usable(db.workers, cluster, engine, w, g) && Room(db.rows, w, g) >= v
               && GpuKey(w.id, g.index) !in used :: GpuKey(w.id, g.index)
  }

  /** Anti-affinity: the replicas reach as many open hosts, and as many open GPUs, as there are replicas,
      or else all of them. */
  ghost predicate SpreadOut(db: Database, cluster: Id, engine: string, v: int, used: set<GpuKey>, gpus: seq<GpuKey>) {
    && |set k | k in gpus && (forall u :: u in used ==> u.worker != k.worker) :: k.worker|
       == Min(|gpus|, |OpenHosts(db, cluster, engine, v, used)|)
    && |set k | k in gpus && k !in used|
       == Min(|gpus|, |OpenGpus(db, cluster, engine, v, used)|)
  }

  function KeysOf(placed: seq<Placement>): (keys: seq<GpuKey>)
    ensures |keys| == |placed|
  {
    seq(|placed|, i requires 0 <= i < |placed| => GpuKey(placed[i].worker, placed[i].gpuIndex))
  }

  lemma OpenHostIff(db: Database, cluster: Id, engine: string, v: int, used: set<GpuKey>, id: Id)
    ensures id in OpenHosts(db, cluster, engine, v, used) <==>
              exists s :: Shows(db.workers, cluster, engine, db.rows, s) && s.free >= v && s.worker == id
                          && forall k :: k in used ==> k.worker != id
  {
    if id in OpenHosts(db, cluster, engine, v, used) {
      var w, g :| w in db.workers && g in w.gpus && Usable(db.workers, cluster, engine, w, g) && Room(db.rows, w, g) >= v
                  && (forall k :: k in used ==> k.worker != w.id) && id == w.id;
      assert Shows(db.workers, cluster, engine, db.rows, Slot(w.id, g.index, Room(db.rows, w, g)));
    }
  }

  lemma OpenGpuIff(db: Database, cluster: Id, engine: string, v: int, used: set<GpuKey>, k: GpuKey)
    ensures k in OpenGpus(db, cluster, engine, v, used) <==>
              exists s :: Shows(db.workers, cluster, engine, db.rows, s) && s.free >= v && s.Key() == k && k !in used
  {
    if k in OpenGpus(db, cluster, engine, v, used) {
      var w, g :| w in db.workers && g in w.gpus && Usable(db.workers, cluster, engine, w, g) && Room(db.rows, w, g) >= v
                  && GpuKey(w.id, g.index) !in used && k == GpuKey(w.id, g.index);
      assert Shows(db.workers, cluster, engine, db.rows, Slot(w.id, g.index, Room(db.rows, w, g)));
    }
  }

  lemma FittingWorkerIff(b: Board, v: int, id: Id)
    ensures id in FittingFreshWorkers(b, v) <==>
              exists s :: s in b.slots && s.free >= v && s.worker == id && id !in b.usedWorkers
  {
    if s :| s in b.slots && s.free >= v && s.worker == id && id !in b.usedWorkers {
      var i :| 0 <= i < |b.slots| && b.slots[i] == s;
      assert b.Candidate(FreshWorker, v, i);
    }
  }

  lemma FittingGpuIff(b: Board, v: int, k: GpuKey)
    ensures k in FittingFreshGpus(b, v) <==> exists s :: s in b.slots && s.free >= v && s.Key() == k && k !in b.used
  {
    if s :| s in b.slots && s.free >= v && s.Key() == k && k !in b.used {
      var i :| 0 <= i < |b.slots| && b.slots[i] == s;
      assert b.Candidate(FreshGpu, v, i);
    }
  }

  /** The candidates of the first two passes are the open hosts and the open GPUs. */
  lemma OpenIsFitting(db: Database, cluster: Id, engine: string, v: int, used: set<GpuKey>)
    ensures var b := OpeningBoard(SlotsOf(Connected(db.workers, cluster), db.rows, Vendors(engine)), used);
            && FittingFreshWorkers(b, v) == OpenHosts(db, cluster, engine, v, used)
            && FittingFreshGpus(b, v) == OpenGpus(db, cluster, engine, v, used)
  {
    var b := OpeningBoard(SlotsOf(Connected(db.workers, cluster), db.rows, Vendors(engine)), used);
    forall s ensures s in b.slots <==> Shows(db.workers, cluster, engine, db.rows, s) {
      ScanIs(db.workers, cluster, engine, db.rows, s);
    }
    forall id ensures id in FittingFreshWorkers(b, v) <==> id in OpenHosts(db, cluster, engine, v, used) {
      FittingWorkerIff(b, v, id);
      OpenHostIff(db, cluster, engine, v, used, id);
      assert id in b.usedWorkers <==> exists k :: k in used && k.worker == id;
    }
    forall k ensures k in FittingFreshGpus(b, v) <==> k in OpenGpus(db, cluster, engine, v, used) {
      FittingGpuIff(b, v, k);
      OpenGpuIff(db, cluster, engine, v, used, k);
    }
  }

  /** What a run of the three passes takes, as the placements show it. */
  lemma TakenIsPlaced(b: Board, plan: seq<nat>, gpus: seq<GpuKey>, used: set<GpuKey>)
    requires b == OpeningBoard(b.slots, used) && |gpus| == |plan|
    requires forall p :: 0 <= p < |plan| ==> plan[p] < |b.slots| && gpus[p] == b.slots[plan[p]].Key()
    ensures FreshWorkersTaken(b, plan)
            == set k | k in gpus && (forall u :: u in used ==> u.worker != k.worker) :: k.worker
    ensures FreshGpusTaken(b, plan) == set k | k in gpus && k !in used
  {
    forall p | 0 <= p < |plan| ensures plan[p] in plan && gpus[p] in gpus {}
    forall i | i in plan && i < |b.slots| ensures b.slots[i].Key() in gpus {
      var p :| 0 <= p < |plan| && plan[p] == i;
    }
    forall k | k in gpus ensures exists i :: i in plan && i < |b.slots| && b.slots[i].Key() == k {
      var p :| 0 <= p < |gpus| && gpus[p] == k;
      assert plan[p] in plan;
    }
  }

  /** Planned replicas are on usable GPUs and spread out. */
  lemma PlannedSpread(db: Database, cluster: Id, engine: string, v: int, used: set<GpuKey>, range: PortRange,
                      placed: seq<Placement>)
    requires ValidWorkers(db.workers) && v > 0
    requires Outcome(OpeningBoard(SlotsOf(Connected(db.workers, cluster), db.rows, Vendors(engine)), used), v, |placed|,
                     db.rows, range, Ok(placed))
    ensures forall p :: p in placed ==>
              exists w, g :: Usable(db.workers, cluster, engine, w, g) && p.worker == w.id && p.gpuIndex == g.index
    ensures SpreadOut(db, cluster, engine, v, used, KeysOf(placed))
  {
    var b := OpeningBoard(SlotsOf(Connected(db.workers, cluster), db.rows, Vendors(engine)), used);
    var plan := b.Plan(v, |placed|);
    forall p | p in placed
      ensures exists w, g :: Usable(db.workers, cluster, engine, w, g) && p.worker == w.id && p.gpuIndex == g.index {
      var n :| 0 <= n < |placed| && placed[n] == p;
      ScanIs(db.workers, cluster, engine, db.rows, b.slots[plan[n]]);
      assert b.slots[plan[n]] in b.slots;
    }
    SpreadsOverWorkers(b, v, |placed|);
    SpreadsOverGpus(b, v, |placed|);
    OpenIsFitting(db, cluster, engine, v, used);
    TakenIsPlaced(b, plan, KeysOf(placed), used);
  }

  /** The error cases, and where the replicas go: to usable GPUs, spread over hosts and GPUs not used yet. */
  method AllocateReplicas(db: Database, cluster: Id, v: int, engine: string, count: nat, used0: set<GpuKey>,
                          range: PortRange)
    returns (r: Result<seq<Placement>, AllocError>)
    requires ValidWorkers(db.workers) && v > 0
    ensures r == Err(NoWorkers) <==> forall w :: w in db.workers ==> w.cluster != cluster || !w.connected
    ensures r.Ok? ==>
              && (forall p :: p in r.value ==>
                   exists w, g :: Usable(db.workers, cluster, engine, w, g) && p.worker == w.id && p.gpuIndex == g.index)
              && SpreadOut(db, cluster, engine, v, used0, KeysOf(r.value))
    ensures var workers := Connected(db.workers, cluster);
            var b := OpeningBoard(SlotsOf(workers, db.rows, Vendors(engine)), used0);
            && (workers == [] <==> r == Err(NoWorkers))
            && (workers != [] ==> Outcome(b, v, count, db.rows, range, r))
            && (workers != [] && (forall w :: w in workers ==> |FreePorts(ReservedOn(db.rows, w.id), range)| >= count) ==>
                 (r.Ok? <==> count <= Capacity(b.slots, v)))
  {
    var workers := Connected(db.workers, cluster);
    ConnectedAre(db.workers, cluster);
    if workers == [] {
      return Err(NoWorkers);
    }
    assert workers[0] in workers;
    var slots := Snapshot(workers, db.rows, Vendors(engine));
    ConnectedValid(db.workers, cluster);
    SlotsOfKeys(workers, db.rows, Vendors(engine));
    r := PlaceAll(slots, db.rows, v, count, used0, range);
    AllocationComplete(OpeningBoard(slots, used0), v, count);
    if r.Ok? {
      PlannedSpread(db, cluster, engine, v, used0, range, r.value);
    }
  }

  lemma ConnectedValid(workers: seq<Worker>, cluster: Id)
    requires ValidWorkers(workers)
    ensures ValidWorkers(Connected(workers, cluster))
  {
    var there, apart := (w: Worker) => w.cluster == cluster && w.connected, (a: Worker, b: Worker) => a.id != b.id;
    assert PairwiseApart(workers, apart);
    FilterKeepsApart(workers, there, apart);
    SortKeepsApart(Filter(workers, there), ByName, apart);
    var result := Connected(workers, cluster);
    assert PairwiseApart(result, apart);
    FilterMembers(workers, there);
    SortPermutes(Filter(workers, there), ByName);
    forall i | 0 <= i < |result| ensures DistinctGpus(result[i].gpus) {
      assert result[i] in workers;
    }
  }
}

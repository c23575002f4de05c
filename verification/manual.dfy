/** Allocation on a host and GPUs the user names (services/scheduler.py, allocate_manual). */
module ManualScheduler {
  import opened Common
  import opened Models
  import opened Scheduler

  /** The host, its GPUs in ascending order, and the port. */
  datatype Manual = Manual(worker: Id, gpuIndexes: seq<int>, port: int)

  datatype ManualError =
    | WorkerUnavailable
    | WrongCluster
    | NoSuchGpu(index: int)
    | VendorUnsupported(index: int)
    | DoesNotFit(index: int)
    | NoPort

  /** Adds an element to an ascending list, once. */
  function Include(s: seq<int>, x: int): seq<int> {
    if s == [] then [x]
    else if x < s[0] then [x] + s
    else if x == s[0] then s
    else [s[0]] + Include(s[1..], x)
  }

  /** `sorted(set(indexes))`. */
  function Ascending(indexes: seq<int>): seq<int> {
    if indexes == [] then [] else Include(Ascending(indexes[..|indexes| - 1]), indexes[|indexes| - 1])
  }

  ghost predicate StrictlyAscending(s: seq<int>) {
    forall i, j :: 0 <= i < j < |s| ==> s[i] < s[j]
  }

  lemma {:induction false} IncludeAscends(s: seq<int>, x: int)
    requires StrictlyAscending(s)
    ensures StrictlyAscending(Include(s, x))
    ensures forall y :: y in Include(s, x) <==> y == x || y in s
  {
    if s != [] {
      IncludeAscends(s[1..], x);
      assert s == [s[0]] + s[1..];
      var rest := Include(s[1..], x);
      forall j | 0 <= j < |rest| && s[0] < x ensures s[0] < rest[j] {
        assert rest[j] in rest;
      }
    }
  }

  /** Every index once, in ascending order. */
  lemma {:induction false} AscendingIsSortedSet(indexes: seq<int>)
    ensures StrictlyAscending(Ascending(indexes))
    ensures forall x :: x in Ascending(indexes) <==> x in indexes
  {
    if indexes != [] {
      var front := indexes[..|indexes| - 1];
      AscendingIsSortedSet(front);
      IncludeAscends(Ascending(front), indexes[|indexes| - 1]);
      assert indexes == front + [indexes[|indexes| - 1]];
    }
  }

  /** What a GPU of the worker must be for the user's choice to stand. */
  predicate Suits(w: Worker, rows: seq<Instance>, vendors: set<string>, v: int, index: int) {
    exists g :: g in w.gpus && g.index == index && g.vendor in vendors && g.vram - UsageOf(LiveOn(rows, w.id), index) >= v
  }

  /** The named worker can take an instance on all the named GPUs. */
  predicate Accepts(w: Worker, rows: seq<Instance>, cluster: Id, vendors: set<string>, v: int, indexes: seq<int>) {
    w.connected && w.cluster == cluster && forall i :: i in indexes ==> Suits(w, rows, vendors, v, i)
  }

  /** What is granted: the named GPUs of a worker that accepts, and its lowest free port. */
  ghost predicate ManualGranted(workers: seq<Worker>, rows: seq<Instance>, cluster: Id, vendors: set<string>, v: int,
                                indexes: seq<int>, range: PortRange, m: Manual)
  {
    && (exists w :: w in workers && w.id == m.worker && Accepts(w, rows, cluster, vendors, v, indexes))
    && m.gpuIndexes == Ascending(indexes)
    && m.port in FreePorts(ReservedOn(rows, m.worker), range)
    && forall p :: p in FreePorts(ReservedOn(rows, m.worker), range) ==> m.port <= p
  }

  method FindWorker(workers: seq<Worker>, id: Id) returns (found: Option<Worker>)
    ensures match found
            case Some(w) => w in workers && w.id == id
            case None => forall w :: w in workers ==> w.id != id
  {
    for i := 0 to |workers|
      invariant forall j :: 0 <= j < i ==> workers[j].id != id
    {
      if workers[i].id == id {
        return Some(workers[i]);
      }
    }
    return None;
  }

  method FindGpu(gpus: seq<Gpu>, index: int) returns (found: Option<Gpu>)
    ensures match found
            case Some(g) => g in gpus && g.index == index
            case None => forall g :: g in gpus ==> g.index != index
  {
    for i := 0 to |gpus|
      invariant forall j :: 0 <= j < i ==> gpus[j].index != index
    {
      if gpus[i].index == index {
        return Some(gpus[i]);
      }
    }
    return None;
  }

  lemma OneWorker(workers: seq<Worker>, v: Worker, w: Worker)
    requires ValidWorkers(workers) && v in workers && w in workers && v.id == w.id
    ensures v == w && DistinctGpus(v.gpus)
  {
    var i :| 0 <= i < |workers| && workers[i] == v;
    var j :| 0 <= j < |workers| && workers[j] == w;
    assert i == j by {
      assert workers[Min(i, j)].id == workers[Max(i, j)].id;
    }
  }

  lemma OneGpu(gpus: seq<Gpu>, g: Gpu, h: Gpu)
    requires DistinctGpus(gpus) && g in gpus && h in gpus && g.index == h.index
    ensures g == h
  {
    var i :| 0 <= i < |gpus| && gpus[i] == g;
    var j :| 0 <= j < |gpus| && gpus[j] == h;
    assert i == j by {
      assert gpus[Min(i, j)].index == gpus[Max(i, j)].index;
    }
  }

  /** The three checks of the named GPUs, each over the whole list before the next. */
  method CheckGpus(w: Worker, rows: seq<Instance>, vendors: set<string>, v: int, indexes: seq<int>)
    returns (error: Option<ManualError>)
    requires DistinctGpus(w.gpus)
    ensures match error
            case None => forall i :: i in indexes ==> Suits(w, rows, vendors, v, i)
            case Some(NoSuchGpu(i)) => i in indexes && forall g :: g in w.gpus ==> g.index != i
            case Some(VendorUnsupported(i)) => i in indexes && exists g :: g in w.gpus && g.index == i && g.vendor !in vendors
            case Some(DoesNotFit(i)) =>
              i in indexes && exists g :: g in w.gpus && g.index == i && g.vram - UsageOf(LiveOn(rows, w.id), i) < v
            case Some(_) => false
    ensures error.Some? ==> exists i :: i in indexes && !Suits(w, rows, vendors, v, i)
  {
    for n := 0 to |indexes|
      invariant forall i :: 0 <= i < n ==> exists g :: g in w.gpus && g.index == indexes[i]
    {
      var gpu := FindGpu(w.gpus, indexes[n]);
      if gpu.None? {
        return Some(NoSuchGpu(indexes[n]));
      }
    }
    for n := 0 to |indexes|
      invariant forall i :: 0 <= i < n ==> exists g :: g in w.gpus && g.index == indexes[i] && g.vendor in vendors
    {
      var gpu := FindGpu(w.gpus, indexes[n]);
      var known :| known in w.gpus && known.index == indexes[n];
      if gpu.Some? && gpu.value.vendor !in vendors {
        OneVendor(w, rows, vendors, v, gpu.value);
        return Some(VendorUnsupported(indexes[n]));
      }
    }
    var usage := GpuUsage(LiveOn(rows, w.id));
    for n := 0 to |indexes|
      invariant forall i :: 0 <= i < n ==> Suits(w, rows, vendors, v, indexes[i])
    {
      var gpu := FindGpu(w.gpus, indexes[n]);
      var known :| known in w.gpus && known.index == indexes[n] && known.vendor in vendors;
      if gpu.Some? {
        OneGpu(w.gpus, gpu.value, known);
        if gpu.value.vram - Lookup(usage, indexes[n]) < v {
          OneFit(w, rows, vendors, v, gpu.value);
          return Some(DoesNotFit(indexes[n]));
        }
      }
    }
    return None;
  }

  lemma OneVendor(w: Worker, rows: seq<Instance>, vendors: set<string>, v: int, g: Gpu)
    requires DistinctGpus(w.gpus) && g in w.gpus && g.vendor !in vendors
    ensures !Suits(w, rows, vendors, v, g.index)
  {
    forall h | h in w.gpus && h.index == g.index ensures h == g {
      OneGpu(w.gpus, g, h);
    }
  }

  lemma OneFit(w: Worker, rows: seq<Instance>, vendors: set<string>, v: int, g: Gpu)
    requires DistinctGpus(w.gpus) && g in w.gpus && g.vram - UsageOf(LiveOn(rows, w.id), g.index) < v
    ensures !Suits(w, rows, vendors, v, g.index)
  {
    forall h | h in w.gpus && h.index == g.index ensures h == g {
      OneGpu(w.gpus, g, h);
    }
  }

  /** Succeeds exactly when the named worker accepts and has a port left. */
  method AllocateManual(db: Database, cluster: Id, worker: Id, indexes: seq<int>, v: int, engine: string, range: PortRange)
    returns (r: Result<Manual, ManualError>)
    requires ValidWorkers(db.workers)
    ensures r.Ok? ==> r.value.worker == worker
                      && ManualGranted(db.workers, db.rows, cluster, Vendors(engine), v, indexes, range, r.value)
    ensures r.Ok? <==>
              && (exists w :: w in db.workers && w.id == worker && Accepts(w, db.rows, cluster, Vendors(engine), v, indexes))
              && FreePorts(ReservedOn(db.rows, worker), range) != {}
    ensures r == Err(ManualError.NoPort) <==>
              && (exists w :: w in db.workers && w.id == worker && Accepts(w, db.rows, cluster, Vendors(engine), v, indexes))
              && FreePorts(ReservedOn(db.rows, worker), range) == {}
    ensures r == Err(WorkerUnavailable) <==> forall w :: w in db.workers && w.id == worker ==> !w.connected
    ensures r == Err(WrongCluster) <==> exists w :: w in db.workers && w.id == worker && w.connected && w.cluster != cluster
  {
    var found := FindWorker(db.workers, worker);
    if found.None? || !found.value.connected {
      OnlyWorker(db.workers, found, worker);
      return Err(WorkerUnavailable);
    }
    var w := found.value;
    OnlyWorker(db.workers, found, worker);
    if w.cluster != cluster {
      return Err(WrongCluster);
    }
    var error := CheckGpus(w, db.rows, Vendors(engine), v, indexes);
    if error.Some? {
      return Err(error.value);
    }
    var port := AllocPort(ReservedOn(db.rows, worker), range, {});
    if port.None? {
      return Err(ManualError.NoPort);
    }
    return Ok(Manual(worker, Ascending(indexes), port.value));
  }

  lemma OnlyWorker(workers: seq<Worker>, found: Option<Worker>, id: Id)
    requires ValidWorkers(workers)
    requires match found
             case Some(w) => w in workers && w.id == id
             case None => forall w :: w in workers ==> w.id != id
    ensures found.Some? ==> DistinctGpus(found.value.gpus)
    ensures forall w :: w in workers && w.id == id ==> found == Some(w)
  {
    if found.Some? {
      OneWorker(workers, found.value, found.value);
      forall w | w in workers && w.id == id ensures w == found.value {
        OneWorker(workers, found.value, w);
      }
    }
  }
}

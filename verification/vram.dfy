/** GPU memory over the runs of PlacementRuns: what the allocators keep, and the one kind of step that breaks it. */
module Vram {
  import opened Common
  import opened Models
  import opened Sorting
  import opened Scheduler
  import opened ParallelScheduler
  import opened ManualScheduler
  import opened PlacementRuns

  /** The VRAM of every GPU that was ever reported; a GPU keeps its size. */
  type Capacities = map<GpuKey, nat>

  ghost predicate Reports(workers: seq<Worker>, cap: Capacities) {
    forall w, g :: w in workers && g in w.gpus ==>
      GpuKey(w.id, g.index) in cap && cap[GpuKey(w.id, g.index)] == g.vram
  }

  // ---- The load of a GPU ----

  /** No live rows claim more of a GPU than it has. */
  ghost predicate WithinVram(cap: Capacities, rows: seq<Instance>) {
    && (forall r :: r in rows ==> r.vram >= 0)
    && forall k :: k in cap ==> Load(rows, k) <= cap[k]
  }

  lemma {:induction false} LoadConcat(a: seq<Instance>, b: seq<Instance>, k: GpuKey)
    ensures Load(a + b, k) == Load(a, k) + Load(b, k)
  {
    if b == [] {
      assert a + b == a;
    } else {
      LoadConcat(a, b[..|b| - 1], k);
      assert (a + b)[..|a + b| - 1] == a + b[..|b| - 1];
    }
  }

  lemma LoadSplit(rows: seq<Instance>, i: nat, k: GpuKey)
    requires i < |rows|
    ensures Load(rows, k) == Load(rows[..i], k) + ClaimOn(rows[i], k) + Load(rows[i + 1..], k)
  {
    assert rows == rows[..i] + [rows[i]] + rows[i + 1..];
    LoadConcat(rows[..i] + [rows[i]], rows[i + 1..], k);
    LoadConcat(rows[..i], [rows[i]], k);
    assert [rows[i]][..0] == [];
  }

  lemma LoadUpdate(rows: seq<Instance>, i: nat, r: Instance, k: GpuKey)
    requires i < |rows|
    ensures Load(rows[i := r], k) == Load(rows, k) - ClaimOn(rows[i], k) + ClaimOn(r, k)
  {
    LoadSplit(rows, i, k);
    LoadSplit(rows[i := r], i, k);
    assert rows[i := r][..i] == rows[..i] && rows[i := r][i + 1..] == rows[i + 1..];
  }

  lemma {:induction false} LoadNone(rows: seq<Instance>, k: GpuKey)
    requires forall r :: r in rows ==> ClaimOn(r, k) == 0
    ensures Load(rows, k) == 0
  {
    if rows != [] {
      LoadNone(rows[..|rows| - 1], k);
    }
  }

  lemma LoadOne(rows: seq<Instance>, i: nat, k: GpuKey)
    requires i < |rows| && forall j :: 0 <= j < |rows| && j != i ==> ClaimOn(rows[j], k) == 0
    ensures Load(rows, k) == ClaimOn(rows[i], k)
  {
    LoadSplit(rows, i, k);
    LoadNone(rows[..i], k);
    LoadNone(rows[i + 1..], k);
  }

  lemma {:induction false} ClaimNonNegative(indexes: seq<int>, vram: int, index: int)
    requires vram >= 0
    ensures Claim(indexes, vram, index) >= 0
  {
    if indexes != [] {
      ClaimNonNegative(indexes[..|indexes| - 1], vram, index);
    }
  }

  lemma {:induction false} ClaimAbsent(indexes: seq<int>, vram: int, index: int)
    requires index !in indexes
    ensures Claim(indexes, vram, index) == 0
  {
    if indexes != [] {
      ClaimAbsent(indexes[..|indexes| - 1], vram, index);
    }
  }

  /** An ascending list claims each of its GPUs once. */
  lemma {:induction false} ClaimOnce(indexes: seq<int>, vram: int, index: int)
    requires StrictlyAscending(indexes) && index in indexes
    ensures Claim(indexes, vram, index) == vram
  {
    var front, last := indexes[..|indexes| - 1], indexes[|indexes| - 1];
    assert indexes == front + [last];
    if last == index {
      ClaimAbsent(front, vram, index);
    } else {
      ClaimOnce(front, vram, index);
    }
  }

  // ---- What the allocators leave free ----

  /** A slot of the scan shows a reported GPU with what its live rows leave of it. */
  lemma SlotShowsLoad(cap: Capacities, workers: seq<Worker>, rows: seq<Instance>, vendors: set<string>, s: Slot)
    requires Reports(workers, cap) && s in SlotsOf(workers, rows, vendors)
    ensures s.Key() in cap && s.free == cap[s.Key()] - Load(rows, s.Key())
  {
    SlotsAre(workers, rows, vendors, s);
  }

  /** A fitting host has that much room on the GPU it offers. */
  lemma {:induction false} HostHasRoom(cap: Capacities, workers: seq<Worker>, rows: seq<Instance>, vendors: set<string>,
                                      v: int, h: Host)
    requires Reports(workers, cap) && h in Fitting(workers, rows, vendors, v)
    ensures var k := GpuKey(h.worker, h.gpuIndex); k in cap && Load(rows, k) + v <= cap[k]
  {
    var front, last := workers[..|workers| - 1], workers[|workers| - 1];
    assert workers == front + [last];
    if h in Fitting(front, rows, vendors, v) {
      HostHasRoom(cap, front, rows, vendors, v, h);
    } else {
      LargestIsLargest(last.gpus, LiveOn(rows, last.id), vendors, v, |last.gpus|);
      LoadIsUsage(rows, GpuKey(h.worker, h.gpuIndex));
    }
  }

  lemma ReportsConnected(workers: seq<Worker>, cluster: Id, cap: Capacities)
    requires Reports(workers, cap)
    ensures Reports(Connected(workers, cluster), cap)
  {
    ConnectedAre(workers, cluster);
  }

  lemma ReportsEligible(workers: seq<Worker>, cluster: Id, exclude: set<Id>, cap: Capacities)
    requires Reports(workers, cap)
    ensures Reports(Eligible(workers, cluster, exclude), cap)
  {
    ReportsConnected(workers, cluster, cap);
    FilterMembers(Connected(workers, cluster), (w: Worker) => w.id !in exclude);
  }

  /** One row per replica of the plan. */
  ghost predicate Inserted(slots: seq<Slot>, used: set<GpuKey>, v: int, added: seq<Instance>) {
    var plan := OpeningBoard(slots, used).Plan(v, |added|);
    |plan| == |added| && forall p :: 0 <= p < |plan| ==> Occupies(added[p], slots[plan[p]].Key(), v)
  }

  lemma InsertedOn(slots: seq<Slot>, used: set<GpuKey>, v: int, added: seq<Instance>, k: GpuKey, p: nat)
    requires Inserted(slots, used, v, added) && p < |added|
    ensures slots[OpeningBoard(slots, used).Plan(v, |added|)[p]].Key() != k ==>
              added[p].worker != Some(k.worker) || k.index !in added[p].gpuIndexes
  {
  }

  /** After the plan's rows are inserted, a chosen GPU is not overcommitted ... */
  lemma ChosenWithin(cap: Capacities, workers: seq<Worker>, vendors: set<string>, used: set<GpuKey>, v: int,
                     rows: seq<Instance>, added: seq<Instance>, p: nat)
    requires ValidWorkers(workers) && Reports(workers, cap) && v > 0
    requires Inserted(SlotsOf(workers, rows, vendors), used, v, added)
    requires p < |added|
    ensures var slots := SlotsOf(workers, rows, vendors);
            var k := slots[OpeningBoard(slots, used).Plan(v, |added|)[p]].Key();
            k in cap && Load(rows + added, k) <= cap[k]
  {
    var before, after := SlotsOf(workers, rows, vendors), SlotsOf(workers, rows + added, vendors);
    var plan := OpeningBoard(before, used).Plan(v, |added|);
    AllocationSafe(workers, rows, vendors, used, v, |added|, added);
    assert plan[p] in plan && after[plan[p]] in after;
    SlotShowsLoad(cap, workers, rows + added, vendors, after[plan[p]]);
  }

  /** ... and any other is unchanged. */
  lemma UntouchedLoad(rows: seq<Instance>, added: seq<Instance>, k: GpuKey)
    requires forall a :: a in added ==> a.worker != Some(k.worker) || k.index !in a.gpuIndexes
    ensures Load(rows + added, k) == Load(rows, k)
  {
    forall a | a in added ensures ClaimOn(a, k) == 0 {
      if a.worker == Some(k.worker) {
        ClaimAbsent(a.gpuIndexes, a.vram, k.index);
      }
    }
    LoadNone(added, k);
    LoadConcat(rows, added, k);
  }

  lemma PlanWithin(cap: Capacities, workers: seq<Worker>, vendors: set<string>, used: set<GpuKey>, v: int,
                   rows: seq<Instance>, added: seq<Instance>, k: GpuKey)
    requires ValidWorkers(workers) && Reports(workers, cap) && v > 0
    requires Inserted(SlotsOf(workers, rows, vendors), used, v, added)
    requires k in cap && Load(rows, k) <= cap[k]
    ensures Load(rows + added, k) <= cap[k]
  {
    var slots := SlotsOf(workers, rows, vendors);
    if p :| 0 <= p < |added| && slots[OpeningBoard(slots, used).Plan(v, |added|)[p]].Key() == k {
      ChosenWithin(cap, workers, vendors, used, v, rows, added, p);
    } else {
      forall a | a in added ensures a.worker != Some(k.worker) || k.index !in a.gpuIndexes {
        var p :| 0 <= p < |added| && added[p] == a;
        InsertedOn(slots, used, v, added, k, p);
      }
      UntouchedLoad(rows, added, k);
    }
  }

  lemma ReplicasWithin(cap: Capacities, q: Request, used: set<GpuKey>, t: Template, rows: seq<Instance>, range: PortRange,
                       placements: seq<Placement>, added: seq<Instance>, now: int, k: GpuKey)
    requires ValidWorkers(q.workers) && Reports(q.workers, cap) && t.vram > 0
    requires ReplicasPlanned(q, used, t.vram, rows, range, placements) && NewReplicas(t, rows, placements, added, now)
    requires forall i :: 0 <= i < |added| ==> added[i].gpuIndexes == [placements[i].gpuIndex]
    requires k in cap && Load(rows, k) <= cap[k]
    ensures Load(rows + added, k) <= cap[k]
  {
    ConnectedValid(q.workers, q.cluster);
    ReportsConnected(q.workers, q.cluster, cap);
    PlanWithin(cap, Connected(q.workers, q.cluster), Vendors(q.engine), used, t.vram, rows, added, k);
  }

  lemma ManualWithin(cap: Capacities, q: Request, indexes: seq<int>, t: Template, rows: seq<Instance>, range: PortRange,
                     m: Manual, added: seq<Instance>, now: int, k: GpuKey)
    requires Reports(q.workers, cap)
    requires ManualGranted(q.workers, rows, q.cluster, Vendors(q.engine), t.vram, indexes, range, m)
    requires NewReplicas(t, rows, [PortHold(m)], added, now) && added[0].gpuIndexes == m.gpuIndexes
    requires k in cap && Load(rows, k) <= cap[k]
    ensures Load(rows + added, k) <= cap[k]
  {
    AscendingIsSortedSet(indexes);
    LoadConcat(rows, added, k);
    LoadOne(added, 0, k);
    if k.worker == m.worker && k.index in m.gpuIndexes {
      ClaimOnce(m.gpuIndexes, t.vram, k.index);
      LoadIsUsage(rows, k);
      var w :| w in q.workers && w.id == m.worker && Accepts(w, rows, q.cluster, Vendors(q.engine), t.vram, indexes);
      assert Suits(w, rows, Vendors(q.engine), t.vram, k.index);
    } else if k.worker == m.worker {
      ClaimAbsent(m.gpuIndexes, t.vram, k.index);
    }
  }

  lemma RankHasRoom(cap: Capacities, q: Request, exclude: set<Id>, v: int, n: nat, rows: seq<Instance>, pools: Pools,
                    ranks: seq<Rank>, i: nat)
    requires ValidWorkers(q.workers) && Reports(q.workers, cap) && n >= 1
    requires GroupPlanned(q, exclude, v, n, rows, pools, ranks) && i < |ranks|
    ensures var k := GpuKey(ranks[i].worker, ranks[i].gpuIndex); k in cap && Load(rows, k) + v <= cap[k]
  {
    var workers := Eligible(q.workers, q.cluster, exclude);
    var hosts := Fitting(workers, rows, Vendors(q.engine), v);
    ReportsEligible(q.workers, q.cluster, exclude, cap);
    ChosenIsGroup(hosts, n);
    var h := Chosen(hosts, n)[i];
    assert h in (set x | x in Chosen(hosts, n));
    HostHasRoom(cap, workers, rows, Vendors(q.engine), v, h);
  }

  lemma GroupWithin(cap: Capacities, t: Template, rows: seq<Instance>, ranks: seq<Rank>, host: string, added: seq<Instance>,
                    now: int, k: GpuKey)
    requires NewGroup(t, rows, ranks, host, added, now) && t.vram > 0
    requires forall i, j :: 0 <= i < j < |ranks| ==> ranks[i].worker != ranks[j].worker
    requires forall i :: 0 <= i < |ranks| && GpuKey(ranks[i].worker, ranks[i].gpuIndex) == k ==>
               k in cap && Load(rows, k) + t.vram <= cap[k]
    requires k in cap && Load(rows, k) <= cap[k]
    ensures Load(rows + added, k) <= cap[k]
  {
    if i :| 0 <= i < |added| && GpuKey(ranks[i].worker, ranks[i].gpuIndex) == k {
      LoadConcat(rows, added, k);
      LoadOne(added, i, k);
      ClaimOnce([k.index], t.vram, k.index);
    } else {
      forall a | a in added ensures a.worker != Some(k.worker) || k.index !in a.gpuIndexes {
        var i :| 0 <= i < |added| && added[i] == a;
      }
      UntouchedLoad(rows, added, k);
    }
  }

  lemma AdditionWithin(pools: Pools, cap: Capacities, rows: seq<Instance>, step: Step, added: seq<Instance>)
    requires WithinVram(cap, rows) && !step.Change? && !step.Delete?
    requires ValidWorkers(step.q.workers) && Reports(step.q.workers, cap) && step.t.vram > 0
    requires Added(rows, step, pools, added)
    ensures WithinVram(cap, rows + added)
  {
    forall k | k in cap ensures Load(rows + added, k) <= cap[k] {
      match step
      case Deploy(q, used, t, placements, now) =>
        ReplicasWithin(cap, q, used, t, rows, pools.instances, placements, added, now, k);
      case DeployManual(q, indexes, t, m, now) =>
        ManualWithin(cap, q, indexes, t, rows, pools.instances, m, added, now, k);
      case DeployGroup(q, exclude, t, ranks, host, now) =>
        AllocatorGrants(Database(q.workers, rows), q.cluster, t.vram, q.engine, t.nodes, exclude, pools, ranks);
        forall i | 0 <= i < |ranks| && GpuKey(ranks[i].worker, ranks[i].gpuIndex) == k
          ensures Load(rows, k) + t.vram <= cap[k] {
          RankHasRoom(cap, q, exclude, t.vram, t.nodes, rows, pools, ranks, i);
        }
        GroupWithin(cap, t, rows, ranks, host, added, now, k);
    }
    forall a | a in added ensures a.vram >= 0 {
      var i :| 0 <= i < |added| && added[i] == a;
    }
  }

  // ---- Rows that go live again ----

  /** The GPUs of the row still have room for it. */
  ghost predicate RoomFor(cap: Capacities, rows: seq<Instance>, i: nat)
    requires i < |rows|
  {
    forall k :: k in cap && rows[i].worker == Some(k.worker) && k.index in rows[i].gpuIndexes ==>
      Load(rows, k) + Claim(rows[i].gpuIndexes, rows[i].vram, k.index) <= cap[k]
  }

  /** A row that did not count goes live where there is no room left for it. */
  ghost predicate Overfills(cap: Capacities, rows: seq<Instance>, step: Step) {
    step.Change? && step.i < |rows| && PortsApart(rows[step.i := step.after])
    && !rows[step.i].state.Live() && step.after.state.Live() && !RoomFor(cap, rows, step.i)
  }

  lemma ChangeWithinIff(cap: Capacities, rows: seq<Instance>, i: nat, after: Instance)
    requires WithinVram(cap, rows) && i < |rows| && SamePlace(rows[i], after)
    ensures WithinVram(cap, rows[i := after])
            <==> (!rows[i].state.Live() && after.state.Live() ==> RoomFor(cap, rows, i))
  {
    var rows' := rows[i := after];
    forall r | r in rows' ensures r.vram >= 0 {
      var j :| 0 <= j < |rows'| && rows'[j] == r;
      assert rows[j] in rows;
    }
    forall k | k in cap
      ensures Load(rows', k) == Load(rows, k) - ClaimOn(rows[i], k) + ClaimOn(after, k)
      ensures Claim(rows[i].gpuIndexes, rows[i].vram, k.index) >= 0
      ensures k.index !in rows[i].gpuIndexes ==> Claim(rows[i].gpuIndexes, rows[i].vram, k.index) == 0 {
      LoadUpdate(rows, i, after, k);
      assert rows[i] in rows;
      ClaimNonNegative(rows[i].gpuIndexes, rows[i].vram, k.index);
      if k.index !in rows[i].gpuIndexes {
        ClaimAbsent(rows[i].gpuIndexes, rows[i].vram, k.index);
      }
    }
  }

  /** Updates that neither move a row nor make it live claim no more than before. */
  lemma {:induction false} UpdatesLoad(rows: seq<Instance>, rows': seq<Instance>, k: GpuKey)
    requires |rows'| == |rows| && forall r :: r in rows ==> r.vram >= 0
    requires forall i :: 0 <= i < |rows| ==> SamePlace(rows[i], rows'[i]) && (rows'[i].state.Live() ==> rows[i].state.Live())
    ensures Load(rows', k) <= Load(rows, k)
  {
    if rows != [] {
      var n := |rows| - 1;
      assert rows[n] in rows;
      UpdatesLoad(rows[..n], rows'[..n], k);
      ClaimNonNegative(rows[n].gpuIndexes, rows[n].vram, k.index);
    }
  }

  lemma UpdatesWithin(cap: Capacities, rows: seq<Instance>, rows': seq<Instance>)
    requires WithinVram(cap, rows) && |rows'| == |rows|
    requires forall i :: 0 <= i < |rows| ==> SamePlace(rows[i], rows'[i]) && (rows'[i].state.Live() ==> rows[i].state.Live())
    ensures WithinVram(cap, rows')
  {
    forall k | k in cap ensures Load(rows', k) <= cap[k] {
      UpdatesLoad(rows, rows', k);
    }
    forall r | r in rows' ensures r.vram >= 0 {
      var i :| 0 <= i < |rows'| && rows'[i] == r;
      assert rows[i] in rows;
    }
  }

  lemma DeleteWithin(cap: Capacities, rows: seq<Instance>, i: nat)
    requires WithinVram(cap, rows) && i < |rows|
    ensures WithinVram(cap, rows[..i] + rows[i + 1..])
  {
    forall k | k in cap ensures Load(rows[..i] + rows[i + 1..], k) <= cap[k] {
      LoadSplit(rows, i, k);
      LoadConcat(rows[..i], rows[i + 1..], k);
      assert rows[i] in rows;
      ClaimNonNegative(rows[i].gpuIndexes, rows[i].vram, k.index);
    }
  }

  /** The workers an allocation saw reported their GPUs as they are. */
  ghost predicate SeesGpus(cap: Capacities, step: Step) {
    step.Change? || step.Delete? || Reports(step.q.workers, cap)
  }

  lemma StepWithinIff(pools: Pools, cap: Capacities, rows: seq<Instance>, step: Step, rows': seq<Instance>)
    requires WithinVram(cap, rows) && Next(pools, rows, step, rows') && SeesGpus(cap, step)
    ensures WithinVram(cap, rows') <==> !Overfills(cap, rows, step)
  {
    match step
    case Change(i, after) => ChangeWithinIff(cap, rows, i, after);
    case Delete(i) => DeleteWithin(cap, rows, i);
    case _ =>
      AdditionWithin(pools, cap, rows, step, rows'[|rows|..]);
      assert rows' == rows + rows'[|rows|..];
  }

  // ---- Runs ----

  /** Over any run from an empty table up to a step that overfills a GPU, none is overcommitted. */
  lemma {:induction false} RunWithinVram(pools: Pools, cap: Capacities, tables: seq<seq<Instance>>, steps: seq<Step>, n: nat)
    requires Run(pools, tables, steps) && n < |tables|
    requires forall j :: 0 <= j < n ==> SeesGpus(cap, steps[j]) && !Overfills(cap, tables[j], steps[j])
    ensures WithinVram(cap, tables[n])
  {
    if n > 0 {
      RunWithinVram(pools, cap, tables, steps, n - 1);
      StepWithinIff(pools, cap, tables[n - 1], steps[n - 1], tables[n]);
    }
  }

  /** No GPU is ever overcommitted exactly when no row goes live again where there is no room for it. */
  lemma RunWithinVramIff(pools: Pools, cap: Capacities, tables: seq<seq<Instance>>, steps: seq<Step>)
    requires Run(pools, tables, steps) && forall j :: 0 <= j < |steps| ==> SeesGpus(cap, steps[j])
    ensures (forall n :: 0 <= n < |tables| ==> WithinVram(cap, tables[n]))
            <==> (forall j :: 0 <= j < |steps| ==> !Overfills(cap, tables[j], steps[j]))
  {
    if forall j :: 0 <= j < |steps| ==> !Overfills(cap, tables[j], steps[j]) {
      forall n | 0 <= n < |tables| ensures WithinVram(cap, tables[n]) {
        RunWithinVram(pools, cap, tables, steps, n);
      }
    } else {
      var j :| 0 <= j < |steps| && Overfills(cap, tables[j], steps[j]);
      if WithinVram(cap, tables[j]) {
        StepWithinIff(pools, cap, tables[j], steps[j], tables[j + 1]);
      }
    }
  }
}

/** What stays true of the instance table over any run of deploys, scale-outs, stops, restarts, deletes and
    status reports: who holds which port, which rendezvous port, and which host. */
module PlacementRuns {
  import opened Common
  import opened Models
  import opened Sorting
  import opened Scheduler
  import opened ParallelScheduler
  import opened ManualScheduler
  import Rendezvous
  import WorkersSvc

  /** The two port pools (config.py); by default 8010..8100 and 8110..8199. */
  datatype Pools = Pools(instances: PortRange, rendezvous: PortRange) {
    predicate Valid() {
      0 < instances.lo && 0 <= rendezvous.lo
    }

    predicate Disjoint() {
      instances.hi < rendezvous.lo || rendezvous.hi < instances.lo
    }
  }

  const DEFAULT_POOLS := Pools(PortRange(8010, 8100), PortRange(8110, 8199))

  /** The columns a deployment gives all its instances. */
  datatype Template = Template(deployment: Id, vram: int, needsToken: bool, nodes: nat, parallelMode: Option<string>)

  // ---- Row creation, as in deploy and apply_scale ----

  function ReplicaRow(t: Template, id: Id, p: Placement, now: int): Instance {
    Instance(id, t.deployment, Some(p.worker), [p.gpuIndex], t.vram, Scheduled, WantRunning, 1, Some(p.port),
             None, None, None, None, None, t.needsToken, None, now)
  }

  function RankRow(t: Template, id: Id, group: Id, rank: Rank, rendezvous: string, now: int): Instance {
    Instance(id, t.deployment, Some(rank.worker), [rank.gpuIndex], t.vram, Scheduled, WantRunning, 1, rank.port,
             Some(group), Some(rank.nodeRank), Some(t.nodes), t.parallelMode, Some(rendezvous), t.needsToken, None, now)
  }

  ghost predicate NewIds(rows: seq<Instance>, added: seq<Instance>) {
    && (forall i, j :: 0 <= i < j < |added| ==> added[i].id != added[j].id)
    && (forall i, r :: 0 <= i < |added| && r in rows ==> r.id != added[i].id)
  }

  /** One row per placement; a manual selection may list other GPUs than the one placed on. */
  ghost predicate NewReplicas(t: Template, rows: seq<Instance>, placements: seq<Placement>, added: seq<Instance>, now: int) {
    && NewIds(rows, added) && |added| == |placements|
    && (forall i :: 0 <= i < |added| ==>
         added[i] == Instance(added[i].id, t.deployment, Some(placements[i].worker), added[i].gpuIndexes, t.vram, Scheduled,
                              WantRunning, 1, Some(placements[i].port), None, None, None, None, None, t.needsToken, None, now))
  }

  /** One group: the allocator's ranks, an unused group id, and the head's rendezvous text on every row. */
  ghost predicate NewGroup(t: Template, rows: seq<Instance>, ranks: seq<Rank>, host: string, added: seq<Instance>, now: int) {
    && NewIds(rows, added) && |added| == |ranks| == t.nodes && ranks != []
    && ranks[0].rendezvousPort.Some? && ranks[0].rendezvousPort.value >= 0
    && added[0].group.Some? && (forall r :: r in rows ==> r.group != added[0].group)
    && var text := Some(Rendezvous.Encode(host, ranks[0].rendezvousPort.value));
       (forall i :: 0 <= i < |added| ==>
         added[i] == Instance(added[i].id, t.deployment, Some(ranks[i].worker), [ranks[i].gpuIndex], t.vram, Scheduled,
                              WantRunning, 1, ranks[i].port, added[0].group, Some(ranks[i].nodeRank), Some(t.nodes),
                              t.parallelMode, text, t.needsToken, None, now))
  }

  function NewReplicaRows(t: Template, id: Id, placements: seq<Placement>, now: int): (added: seq<Instance>)
    ensures |added| == |placements|
  {
    seq(|placements|, i requires 0 <= i < |placements| => ReplicaRow(t, id + i, placements[i], now))
  }

  function NewRankRows(t: Template, group: Id, ranks: seq<Rank>, rendezvous: string, now: int): (added: seq<Instance>)
    ensures |added| == |ranks|
  {
    seq(|ranks|, i requires 0 <= i < |ranks| => RankRow(t, group + 1 + i, group, ranks[i], rendezvous, now))
  }

  /** No row has this identifier or a later one. */
  ghost predicate IdsBelow(rows: seq<Instance>, next: Id) {
    forall r :: r in rows ==> r.id < next && (r.group.Some? ==> r.group.value < next)
  }

  lemma ReplicaRowsOwned(t: Template, id: Id, placements: seq<Placement>, now: int)
    ensures var added := NewReplicaRows(t, id, placements, now);
            IdsBelow(added, id + |placements|) && forall r :: r in added ==> r.deployment == t.deployment
  {
  }

  lemma RankRowsOwned(t: Template, group: Id, ranks: seq<Rank>, rendezvous: string, now: int)
    ensures var added := NewRankRows(t, group, ranks, rendezvous, now);
            IdsBelow(added, group + 1 + |ranks|) && forall r :: r in added ==> r.deployment == t.deployment
  {
  }

  lemma ReplicaRowsNew(t: Template, rows: seq<Instance>, id: Id, placements: seq<Placement>, now: int)
    requires IdsBelow(rows, id)
    ensures NewReplicas(t, rows, placements, NewReplicaRows(t, id, placements, now), now)
  {
  }

  lemma RankRowsNew(t: Template, rows: seq<Instance>, group: Id, ranks: seq<Rank>, host: string, now: int)
    requires |ranks| == t.nodes >= 1 && IdsBelow(rows, group)
    requires ranks[0].rendezvousPort.Some? && ranks[0].rendezvousPort.value >= 0
    ensures NewGroup(t, rows, ranks, host,
                     NewRankRows(t, group, ranks, Rendezvous.Encode(host, ranks[0].rendezvousPort.value), now), now)
  {
    var added := NewRankRows(t, group, ranks, Rendezvous.Encode(host, ranks[0].rendezvousPort.value), now);
    assert added[0].group == Some(group);
  }

  /** What the group allocator promises of its ranks, given the hosts it was told to avoid. */
  ghost predicate RanksGranted(rows: seq<Instance>, pools: Pools, exclude: set<Id>, ranks: seq<Rank>) {
    && (forall i :: 0 <= i < |ranks| ==>
         ranks[i].nodeRank == i && (ranks[i].port.Some? <==> i == 0) && ranks[i].worker !in exclude)
    && (forall i, j :: 0 <= i < j < |ranks| ==> ranks[i].worker != ranks[j].worker)
    && (ranks != [] ==>
         var reserved := ReservedOn(rows, ranks[0].worker);
         && ranks[0].port.value in FreePorts(reserved, pools.instances)
         && ranks[0].rendezvousPort.Some?
         && ranks[0].rendezvousPort.value in FreePorts(reserved, pools.rendezvous) - RendezvousPorts(reserved))
  }

  /** The allocator keeps that promise. */
  lemma AllocatorGrants(db: Database, cluster: Id, v: int, engine: string, n: nat, exclude: set<Id>, pools: Pools,
                        ranks: seq<Rank>)
    requires ValidWorkers(db.workers) && n >= 1
    requires var hosts := Fitting(Eligible(db.workers, cluster, exclude), db.rows, Vendors(engine), v);
             && DistinctHosts(hosts) && Heads(hosts) != [] && |hosts| >= n
             && Placed(db.rows, Chosen(hosts, n), pools.instances, pools.rendezvous, ranks)
    ensures RanksGranted(db.rows, pools, exclude, ranks) && |ranks| == n
  {
    var workers := Eligible(db.workers, cluster, exclude);
    var hosts := Fitting(workers, db.rows, Vendors(engine), v);
    EligibleValid(db.workers, cluster, exclude);
    FittingDistinct(workers, db.rows, Vendors(engine), v);
    ChosenIsGroup(hosts, n);
    var chosen := Chosen(hosts, n);
    FilterMembers(Connected(db.workers, cluster), (w: Worker) => w.id !in exclude);
    forall i | 0 <= i < n ensures ranks[i].worker !in exclude {
      assert chosen[i] in (set h | h in chosen);
      assert chosen[i] in hosts;
      var w :| w in workers && w.id == chosen[i].worker;
    }
  }

  // ---- The invariant ----

  predicate IsHead(r: Instance) {
    r.group.Some? && r.rank == Some(0)
  }

  /** The partial unique index on (worker, port). */
  predicate PortClash(a: Instance, b: Instance) {
    a.Reserved() && b.Reserved() && a.worker.Some? && a.worker == b.worker && a.port.Some? && a.port == b.port
  }

  predicate RendezvousClash(a: Instance, b: Instance) {
    && a.Reserved() && b.Reserved() && IsHead(a) && IsHead(b) && a.worker == b.worker
    && Rendezvous.PortOf(a.rendezvous) == Rendezvous.PortOf(b.rendezvous)
  }

  /** Ranks of one group: different ranks, one rendezvous, one size. */
  predicate GroupMates(a: Instance, b: Instance) {
    a.rank != b.rank && a.rendezvous == b.rendezvous && a.worldSize == b.worldSize && a.deployment == b.deployment
  }

  predicate Apart(a: Instance, b: Instance) {
    && a.id != b.id
    && !PortClash(a, b)
    && !RendezvousClash(a, b)
    && (a.group.Some? && a.group == b.group ==> GroupMates(a, b))
    && (a.group.Some? && b.group.Some? && a.deployment == b.deployment ==> a.worker != b.worker)
  }

  /** A placed row, a rank of a group only if it has a rank below the group's size and its shared address;
      only a head publishes a port. */
  predicate RowPlaced(pools: Pools, r: Instance) {
    && r.worker.Some?
    && (r.port.Some? ==> pools.instances.lo <= r.port.value <= pools.instances.hi)
    && (r.group.Some? ==>
         && r.rank.Some? && r.worldSize.Some? && r.rank.value < r.worldSize.value
         && (r.port.Some? <==> r.rank == Some(0))
         && var p := Rendezvous.PortOf(r.rendezvous);
            p.Some? && pools.rendezvous.lo <= p.value <= pools.rendezvous.hi)
  }

  ghost predicate WellPlaced(pools: Pools, rows: seq<Instance>) {
    PairwiseApart(rows, Apart) && forall r :: r in rows ==> RowPlaced(pools, r)
  }

  /** Nothing active on a host listens where an active head of that host holds its rendezvous. */
  lemma RendezvousClearOfInstances(pools: Pools, rows: seq<Instance>, head: Instance, other: Instance)
    requires WellPlaced(pools, rows) && pools.Disjoint() && head in rows && other in rows
    requires IsHead(head) && other.port.Some?
    ensures Rendezvous.PortOf(head.rendezvous).Some?
    ensures Rendezvous.PortOf(head.rendezvous).value != other.port.value
  {
  }

  lemma Concat(rows: seq<Instance>, added: seq<Instance>)
    requires PairwiseApart(rows, Apart) && PairwiseApart(added, Apart)
    requires forall r, a :: r in rows && a in added ==> Apart(r, a)
    ensures PairwiseApart(rows + added, Apart)
  {
  }

  lemma ReservedMember(rows: seq<Instance>, worker: Id, r: Instance)
    ensures r in ReservedOn(rows, worker) <==> r in rows && r.worker == Some(worker) && r.Reserved()
  {
    FilterMembers(rows, (r: Instance) => r.worker == Some(worker) && r.Reserved());
  }

  /** Single-instance replicas on granted ports fit in, without the database index having to object. */
  lemma ReplicasFit(pools: Pools, t: Template, rows: seq<Instance>, placements: seq<Placement>, added: seq<Instance>, now: int)
    requires pools.Valid() && WellPlaced(pools, rows)
    requires PortsGranted(rows, pools.instances, placements) && NewReplicas(t, rows, placements, added, now)
    ensures WellPlaced(pools, rows + added)
  {
    forall r, a | r in rows && a in added ensures Apart(r, a) {
      var i :| 0 <= i < |added| && added[i] == a;
      ReservedMember(rows, placements[i].worker, r);
    }
    Concat(rows, added);
    forall a | a in added ensures RowPlaced(pools, a) {
      var i :| 0 <= i < |added| && added[i] == a;
      assert placements[i].port in FreePorts(ReservedOn(rows, placements[i].worker), pools.instances);
    }
  }

  /** A rank is told the address its row carries. */
  lemma TopologyOf(r: Instance)
    requires r.group.Some? && r.rank.Some? && r.rendezvous.Some? && r.worldSize.Some? && r.worldSize.value > 0
    ensures var topology := WorkersSvc.ApplyParallelism(r);
            && topology.Some? && topology.value.nodeRank == r.rank.value
            && topology.value.worldSize == r.worldSize.value
            && topology.value.endpoint == Rendezvous.Decode(r.rendezvous.value)
  {
  }

  /** Every rank of a new group learns its own rank and the group's size, and dials the head's host on the
      granted port. */
  lemma GroupDecodes(t: Template, rows: seq<Instance>, ranks: seq<Rank>, host: string, added: seq<Instance>, now: int, i: nat)
    requires NewGroup(t, rows, ranks, host, added, now) && i < |added|
    ensures var port: nat := ranks[0].rendezvousPort.value;
            && Rendezvous.PortOf(added[i].rendezvous) == Some(port)
            && var topology := WorkersSvc.ApplyParallelism(added[i]);
               && topology.Some? && topology.value.nodeRank == ranks[i].nodeRank && topology.value.worldSize == t.nodes
               && topology.value.endpoint == Rendezvous.Endpoint(host, port, Rendezvous.Digits(port))
  {
    TopologyOf(added[i]);
    Rendezvous.EncodeDecode(host, ranks[0].rendezvousPort.value);
  }

  lemma GroupPort(t: Template, rows: seq<Instance>, ranks: seq<Rank>, host: string, added: seq<Instance>, now: int)
    requires NewGroup(t, rows, ranks, host, added, now)
    ensures forall i :: 0 <= i < |added| ==>
              Rendezvous.PortOf(added[i].rendezvous) == Some(ranks[0].rendezvousPort.value)
  {
    forall i | 0 <= i < |added|
      ensures Rendezvous.PortOf(added[i].rendezvous) == Some(ranks[0].rendezvousPort.value) {
      GroupDecodes(t, rows, ranks, host, added, now, i);
    }
  }

  /** A new rank and a row that was there before: neither port clashes, and they do not share a host when
      they belong to one deployment. */
  lemma GroupRankFits(pools: Pools, t: Template, rows: seq<Instance>, ranks: seq<Rank>, host: string, added: seq<Instance>,
                      now: int, exclude: set<Id>, r: Instance, i: nat)
    requires WellPlaced(pools, rows) && r in rows && i < |added|
    requires RanksGranted(rows, pools, exclude, ranks) && NewGroup(t, rows, ranks, host, added, now)
    requires r.deployment == t.deployment && r.worker.Some? ==> r.worker.value in exclude
    requires Rendezvous.PortOf(added[i].rendezvous) == Some(ranks[0].rendezvousPort.value)
    requires pools.Valid()
    ensures Apart(r, added[i])
  {
    var a := added[i];
    if r.worker == Some(ranks[0].worker) && r.Reserved() {
      RankClear(pools, rows, exclude, ranks, r);
    }
    assert a.port == ranks[i].port && a.worker == Some(ranks[i].worker) && a.rank == Some(i);
    assert i == 0 <==> a.port.Some?;
    assert RowPlaced(pools, r);
  }

  /** What the grant of the head's two ports rules out for a row that was there before. */
  lemma RankClear(pools: Pools, rows: seq<Instance>, exclude: set<Id>, ranks: seq<Rank>, r: Instance)
    requires r in rows && ranks != [] && RanksGranted(rows, pools, exclude, ranks) && pools.Valid()
    requires r.worker == Some(ranks[0].worker) && r.Reserved()
    ensures r.port != ranks[0].port
    ensures Rendezvous.PortOf(r.rendezvous).Some? ==>
              Rendezvous.PortOf(r.rendezvous).value != ranks[0].rendezvousPort.value
  {
    var reserved := ReservedOn(rows, ranks[0].worker);
    ReservedMember(rows, ranks[0].worker, r);
    assert r in reserved;
    if Rendezvous.PortOf(r.rendezvous).Some? {
      assert Rendezvous.PortOf(r.rendezvous).value in RendezvousPorts(reserved);
    }
  }

  lemma GroupFits(pools: Pools, t: Template, rows: seq<Instance>, ranks: seq<Rank>, host: string, added: seq<Instance>,
                  now: int, exclude: set<Id>)
    requires pools.Valid() && WellPlaced(pools, rows)
    requires RanksGranted(rows, pools, exclude, ranks) && NewGroup(t, rows, ranks, host, added, now)
    requires forall r :: r in rows && r.deployment == t.deployment && r.worker.Some? ==> r.worker.value in exclude
    ensures WellPlaced(pools, rows + added)
  {
    GroupPort(t, rows, ranks, host, added, now);
    forall r, a | r in rows && a in added ensures Apart(r, a) {
      var i :| 0 <= i < |added| && added[i] == a;
      GroupRankFits(pools, t, rows, ranks, host, added, now, exclude, r, i);
    }
    Concat(rows, added);
    forall a | a in added ensures RowPlaced(pools, a) {
      var i :| 0 <= i < |added| && added[i] == a;
    }
  }

  /** A row whose place is unchanged and which is reserved only if it was. */
  predicate NoMoreReserved(before: Instance, after: Instance) {
    && after == before.(state := after.state, desired := after.desired, generation := after.generation,
                        errorDetail := after.errorDetail)
    && (after.Reserved() ==> before.Reserved())
  }

  lemma UpdatesFit(pools: Pools, rows: seq<Instance>, rows': seq<Instance>)
    requires WellPlaced(pools, rows) && |rows'| == |rows|
    requires forall i :: 0 <= i < |rows| ==> NoMoreReserved(rows[i], rows'[i])
    ensures WellPlaced(pools, rows')
  {
    forall j, k | 0 <= j < k < |rows'| ensures Apart(rows'[j], rows'[k]) {
      assert Apart(rows[j], rows[k]);
    }
    forall r | r in rows' ensures RowPlaced(pools, r) {
      var i :| 0 <= i < |rows'| && rows'[i] == r;
      assert rows[i] in rows;
    }
  }

  // ---- Changes in place, which can make a released row reserved again ----

  /** What stops, restarts and status reports leave alone. */
  predicate SamePlace(before: Instance, after: Instance) {
    after == before.(state := after.state, desired := after.desired, generation := after.generation,
                     errorDetail := after.errorDetail)
  }

  /** uq_model_instances_worker_port_active. */
  predicate PortsApart(rows: seq<Instance>) {
    forall j, k :: 0 <= j < k < |rows| ==> !PortClash(rows[j], rows[k])
  }

  /** The row still holds its port, or nobody active has it on that worker. */
  predicate PortStillFree(rows: seq<Instance>, i: nat)
    requires i < |rows|
  {
    || rows[i].Reserved() || rows[i].worker.None? || rows[i].port.None?
    || forall j :: 0 <= j < |rows| && j != i && rows[j].Reserved() ==>
         rows[j].worker != rows[i].worker || rows[j].port != rows[i].port
  }

  /** The same for the rendezvous port of a group's head. */
  predicate RendezvousStillFree(rows: seq<Instance>, i: nat)
    requires i < |rows|
  {
    || rows[i].Reserved() || !IsHead(rows[i])
    || forall j :: 0 <= j < |rows| && j != i && rows[j].Reserved() && IsHead(rows[j]) ==>
         rows[j].worker != rows[i].worker || Rendezvous.PortOf(rows[j].rendezvous) != Rendezvous.PortOf(rows[i].rendezvous)
  }

  /** No endpoint looks at the port: a change keeps the pairs unique exactly when the row is released, or
      still held its port, or nobody took it meanwhile. */
  lemma ChangeKeepsPortsIff(rows: seq<Instance>, i: nat, after: Instance)
    requires i < |rows| && PortsApart(rows) && SamePlace(rows[i], after)
    ensures PortsApart(rows[i := after]) <==> (after.Reserved() ==> PortStillFree(rows, i))
  {
    var rows' := rows[i := after];
    if PortsApart(rows') && after.Reserved() {
      forall j | 0 <= j < |rows| && j != i && rows[j].Reserved() && rows[i].worker.Some? && rows[i].port.Some?
        ensures rows[j].worker != rows[i].worker || rows[j].port != rows[i].port {
        assert !PortClash(rows'[Min(i, j)], rows'[Max(i, j)]);
      }
    } else if !PortsApart(rows') {
      var j, k :| 0 <= j < k < |rows'| && PortClash(rows'[j], rows'[k]);
      assert !PortClash(rows[j], rows[k]);
    }
  }

  /** It keeps everything exactly when the rendezvous port of a revived head is free as well, which no
      index checks. */
  lemma ChangeFitsIff(pools: Pools, rows: seq<Instance>, i: nat, after: Instance)
    requires WellPlaced(pools, rows) && i < |rows| && SamePlace(rows[i], after)
    ensures WellPlaced(pools, rows[i := after])
            <==> (after.Reserved() ==> PortStillFree(rows, i) && RendezvousStillFree(rows, i))
  {
    var rows' := rows[i := after];
    WellPlacedPorts(pools, rows);
    ChangeKeepsPortsIff(rows, i, after);
    if WellPlaced(pools, rows') {
      WellPlacedPorts(pools, rows');
      forall j | after.Reserved() && IsHead(rows[i]) && 0 <= j < |rows| && j != i && rows[j].Reserved() && IsHead(rows[j])
        ensures rows[j].worker != rows[i].worker
                || Rendezvous.PortOf(rows[j].rendezvous) != Rendezvous.PortOf(rows[i].rendezvous) {
        assert Apart(rows'[Min(i, j)], rows'[Max(i, j)]);
      }
    } else if PortsApart(rows') && (after.Reserved() ==> RendezvousStillFree(rows, i)) {
      forall j, k | 0 <= j < k < |rows'| ensures Apart(rows'[j], rows'[k]) {
        assert Apart(rows[j], rows[k]) && !PortClash(rows'[j], rows'[k]);
      }
      forall r | r in rows' ensures RowPlaced(pools, r) {
        var j :| 0 <= j < |rows'| && rows'[j] == r;
        assert rows[j] in rows;
      }
    }
  }

  lemma WellPlacedPorts(pools: Pools, rows: seq<Instance>)
    requires WellPlaced(pools, rows)
    ensures PortsApart(rows)
  {
    forall j, k | 0 <= j < k < |rows| ensures !PortClash(rows[j], rows[k]) {
      assert Apart(rows[j], rows[k]);
    }
  }

  // ---- Runs ----

  /** What an allocation reads besides the instances: the workers as they were then, and who asks. */
  datatype Request = Request(workers: seq<Worker>, cluster: Id, engine: string)

  datatype Step =
    | Deploy(q: Request, used: set<GpuKey>, t: Template, placements: seq<Placement>, now: int)
    | DeployManual(q: Request, indexes: seq<int>, t: Template, m: Manual, now: int)
    | DeployGroup(q: Request, exclude: set<Id>, t: Template, ranks: seq<Rank>, host: string, now: int)
    | Change(i: nat, after: Instance)
    | Delete(i: nat)

  /** The plan of the three passes, on granted ports. */
  ghost predicate ReplicasPlanned(q: Request, used: set<GpuKey>, v: int, rows: seq<Instance>, range: PortRange,
                                  placements: seq<Placement>)
  {
    Outcome(OpeningBoard(SlotsOf(Connected(q.workers, q.cluster), rows, Vendors(q.engine)), used), v, |placements|,
            rows, range, Ok(placements))
  }

  /** The best hosts outside `exclude`, with ports for the head. */
  ghost predicate GroupPlanned(q: Request, exclude: set<Id>, v: int, n: nat, rows: seq<Instance>, pools: Pools,
                               ranks: seq<Rank>)
  {
    var hosts := Fitting(Eligible(q.workers, q.cluster, exclude), rows, Vendors(q.engine), v);
    && DistinctHosts(hosts) && Heads(hosts) != [] && |hosts| >= n
    && Placed(rows, Chosen(hosts, n), pools.instances, pools.rendezvous, ranks)
  }

  /** Outside `exclude` an addressed host with a port of each kind fits, and enough hosts do. */
  ghost predicate GroupPossible(q: Request, exclude: set<Id>, t: Template, rows: seq<Instance>, pools: Pools) {
    var hosts := Fitting(Eligible(q.workers, q.cluster, exclude), rows, Vendors(q.engine), t.vram);
    Heads(hosts) != [] && |hosts| >= t.nodes && PortsLeft(rows, hosts, pools.instances, pools.rendezvous)
  }

  /** Every connected worker could give all the replicas a port. */
  ghost predicate PortsSuffice(q: Request, rows: seq<Instance>, pools: Pools, replicas: nat) {
    forall w :: w in Connected(q.workers, q.cluster) ==> |FreePorts(ReservedOn(rows, w.id), pools.instances)| >= replicas
  }

  /** There are workers, and their supported GPUs hold that many more replicas together. */
  ghost predicate ReplicasPossible(q: Request, t: Template, rows: seq<Instance>, replicas: nat)
    requires t.vram > 0
  {
    var workers := Connected(q.workers, q.cluster);
    workers != [] && replicas <= Capacity(SlotsOf(workers, rows, Vendors(q.engine)), t.vram)
  }

  /** The index lets a transaction commit, or nothing happens. */
  function Commit(rows: seq<Instance>, changed: seq<Instance>): seq<Instance> {
    if PortsApart(changed) then changed else rows
  }

  /** A placement without its GPU list, which a manual selection replaces. */
  function PortHold(m: Manual): Placement {
    Placement(m.worker, 0, m.port)
  }

  ghost predicate Added(rows: seq<Instance>, step: Step, pools: Pools, added: seq<Instance>)
    requires !step.Change? && !step.Delete?
  {
    match step
    case Deploy(q, used, t, placements, now) =>
      && ReplicasPlanned(q, used, t.vram, rows, pools.instances, placements)
      && NewReplicas(t, rows, placements, added, now)
      && forall i :: 0 <= i < |added| ==> added[i].gpuIndexes == [placements[i].gpuIndex]
    case DeployManual(q, indexes, t, m, now) =>
      && ManualGranted(q.workers, rows, q.cluster, Vendors(q.engine), t.vram, indexes, pools.instances, m)
      && NewReplicas(t, rows, [PortHold(m)], added, now)
      && added[0].gpuIndexes == m.gpuIndexes
    case DeployGroup(q, exclude, t, ranks, host, now) =>
      && t.nodes >= 1
      && (forall r :: r in rows && r.deployment == t.deployment && r.worker.Some? ==> r.worker.value in exclude)
      && GroupPlanned(q, exclude, t.vram, t.nodes, rows, pools, ranks)
      && NewGroup(t, rows, ranks, host, added, now)
  }

  /** Deploy and apply_scale insert what the allocators grant; stops, scale-ins, restarts, disconnects and
      status reports change a row in place, if the index lets them; delete removes one. */
  ghost predicate Next(pools: Pools, rows: seq<Instance>, step: Step, rows': seq<Instance>) {
    match step
    case Change(i, after) =>
      i < |rows| && SamePlace(rows[i], after) && rows' == Commit(rows, rows[i := after])
    case Delete(i) => i < |rows| && rows' == rows[..i] + rows[i + 1..]
    case _ => ValidWorkers(step.q.workers) && step.t.vram > 0 && rows <= rows' && Added(rows, step, pools, rows'[|rows|..])
  }

  /** The rows deploy and apply_scale build from a plan are such an addition. */
  lemma ReplicasAreAdded(pools: Pools, rows: seq<Instance>, q: Request, used: set<GpuKey>, t: Template, id: Id,
                         placements: seq<Placement>, now: int)
    requires IdsBelow(rows, id) && ReplicasPlanned(q, used, t.vram, rows, pools.instances, placements)
    ensures Added(rows, Step.Deploy(q, used, t, placements, now), pools, NewReplicaRows(t, id, placements, now))
  {
    ReplicaRowsNew(t, rows, id, placements, now);
  }

  lemma RanksAreAdded(pools: Pools, rows: seq<Instance>, q: Request, exclude: set<Id>, t: Template, id: Id, ranks: seq<Rank>,
                      host: string, now: int)
    requires pools.Valid() && IdsBelow(rows, id) && |ranks| == t.nodes >= 1 && RanksGranted(rows, pools, exclude, ranks)
    requires GroupPlanned(q, exclude, t.vram, t.nodes, rows, pools, ranks)
    requires forall r :: r in rows && r.deployment == t.deployment && r.worker.Some? ==> r.worker.value in exclude
    ensures ranks[0].rendezvousPort.value >= 0
    ensures Added(rows, Step.DeployGroup(q, exclude, t, ranks, host, now), pools,
                  NewRankRows(t, id, ranks, Rendezvous.Encode(host, ranks[0].rendezvousPort.value), now))
  {
    RankRowsNew(t, rows, id, ranks, host, now);
  }

  lemma AdditionFits(pools: Pools, rows: seq<Instance>, step: Step, added: seq<Instance>)
    requires pools.Valid() && WellPlaced(pools, rows)
    requires !step.Change? && !step.Delete? && ValidWorkers(step.q.workers) && Added(rows, step, pools, added)
    ensures WellPlaced(pools, rows + added)
  {
    match step
    case Deploy(q, used, t, placements, now) =>
      ReplicasFit(pools, t, rows, placements, added, now);
    case DeployManual(q, indexes, t, m, now) =>
      ReplicasFit(pools, t, rows, [PortHold(m)], added, now);
    case DeployGroup(q, exclude, t, ranks, host, now) =>
      AllocatorGrants(Database(q.workers, rows), q.cluster, t.vram, q.engine, t.nodes, exclude, pools, ranks);
      GroupFits(pools, t, rows, ranks, host, added, now, exclude);
  }

  /** The steps that no index keeps from breaking the invariant: a head made reserved again whose
      rendezvous port somebody took, while its instance port is free. */
  ghost predicate TakesRendezvous(rows: seq<Instance>, step: Step) {
    step.Change? && step.i < |rows|
    && step.after.Reserved() && PortsApart(rows[step.i := step.after]) && !RendezvousStillFree(rows, step.i)
  }

  lemma StepFitsIff(pools: Pools, rows: seq<Instance>, step: Step, rows': seq<Instance>)
    requires pools.Valid() && WellPlaced(pools, rows) && Next(pools, rows, step, rows')
    ensures WellPlaced(pools, rows') <==> !TakesRendezvous(rows, step)
  {
    match step
    case Change(i, after) =>
      WellPlacedPorts(pools, rows);
      ChangeKeepsPortsIff(rows, i, after);
      ChangeFitsIff(pools, rows, i, after);
    case Delete(i) =>
    case _ =>
      AdditionFits(pools, rows, step, rows'[|rows|..]);
      assert rows' == rows + rows'[|rows|..];
  }

  ghost predicate Run(pools: Pools, tables: seq<seq<Instance>>, steps: seq<Step>) {
    && |tables| == |steps| + 1 && tables[0] == []
    && forall j :: 0 <= j < |steps| ==> Next(pools, tables[j], steps[j], tables[j + 1])
  }

  /** Over any run from an empty table up to a step that takes a rendezvous port: unique active (worker,
      port) pairs, distinct rendezvous ports of active heads, consistent groups, and at most one rank of a
      deployment per host. */
  lemma {:induction false} RunWellPlaced(pools: Pools, tables: seq<seq<Instance>>, steps: seq<Step>, k: nat)
    requires pools.Valid() && Run(pools, tables, steps) && k < |tables|
    requires forall j :: 0 <= j < k ==> !TakesRendezvous(tables[j], steps[j])
    ensures WellPlaced(pools, tables[k])
  {
    if k > 0 {
      RunWellPlaced(pools, tables, steps, k - 1);
      StepFitsIff(pools, tables[k - 1], steps[k - 1], tables[k]);
    }
  }

  /** ... and that is exactly when all of it holds all the time. */
  lemma RunWellPlacedIff(pools: Pools, tables: seq<seq<Instance>>, steps: seq<Step>)
    requires pools.Valid() && Run(pools, tables, steps)
    ensures (forall k :: 0 <= k < |tables| ==> WellPlaced(pools, tables[k]))
            <==> (forall j :: 0 <= j < |steps| ==> !TakesRendezvous(tables[j], steps[j]))
  {
    if forall j :: 0 <= j < |steps| ==> !TakesRendezvous(tables[j], steps[j]) {
      forall k | 0 <= k < |tables| ensures WellPlaced(pools, tables[k]) {
        RunWellPlaced(pools, tables, steps, k);
      }
    } else {
      var j :| 0 <= j < |steps| && TakesRendezvous(tables[j], steps[j]);
      if WellPlaced(pools, tables[j]) {
        StepFitsIff(pools, tables[j], steps[j], tables[j + 1]);
      }
    }
  }
}

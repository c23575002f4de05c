/** The endpoints that create, stop, restart and delete instances (api/instances.py), as the steps the run
    invariants and the protocol are about. */
module Instances {
  import opened Common
  import opened Models
  import opened Sorting
  import opened Scheduler
  import opened ParallelScheduler
  import opened ManualScheduler
  import opened PlacementRuns
  import Protocol
  import Rendezvous

  /** How the request selects GPUs. */
  datatype Selection = Auto | Named(worker: Id, indexes: seq<int>)

  datatype DeployError =
    | UnsupportedEngine
    | ManualSingleOnly
    | ModeRequired
    | ModeNotAllowed
    | OneGroupOnly
    | Allocation(error: AllocError)
    | Rejected(reason: ManualError)

  /** The checks before anything is allocated; the first that fails is reported. */
  function Refusal(engine: string, supported: set<string>, t: Template, replicas: nat, selection: Selection)
    : Option<DeployError>
  {
    var single := t.parallelMode == Some("single");
    if engine !in supported then Some(UnsupportedEngine)
    else if selection.Named? && (replicas != 1 || t.nodes > 1) then Some(ManualSingleOnly)
    else if t.nodes > 1 && single then Some(ModeRequired)
    else if t.nodes <= 1 && !single then Some(ModeNotAllowed)
    else if t.nodes > 1 && replicas != 1 then Some(OneGroupOnly)
    else None
  }

  // ---- When a deployment is possible ----

  /** The named worker accepts the named GPUs and has a port. */
  ghost predicate ManualPossible(q: Request, t: Template, rows: seq<Instance>, pools: Pools, worker: Id, indexes: seq<int>) {
    && (exists w :: w in q.workers && w.id == worker && Accepts(w, rows, q.cluster, Vendors(q.engine), t.vram, indexes))
    && FreePorts(ReservedOn(rows, worker), pools.instances) != {}
  }

  /** The step is the deployment that was asked for; a group's rendezvous is on its head's host. */
  ghost predicate Serves(step: Step, q: Request, t: Template, selection: Selection, host: Id -> string, now: int) {
    match step
    case Deploy(q', used, t', _, now') =>
      t.nodes == 1 && selection.Auto? && q' == q && used == {} && t' == t && now' == now
    case DeployManual(q', indexes, t', m, now') =>
      && t.nodes == 1 && q' == q && t' == t && now' == now
      && selection.Named? && indexes == selection.indexes && m.worker == selection.worker
    case DeployGroup(q', exclude, t', ranks, text, now') =>
      t.nodes > 1 && q' == q && exclude == {} && t' == t && now' == now && ranks != [] && text == host(ranks[0].worker)
    case _ => false
  }

  class InstanceTable {
    const workers: seq<Worker>
    const pools: Pools
    /** rendezvous_host of a worker. */
    const host: Id -> string
    var rows: seq<Instance>
    var nextId: Id

    constructor (workers: seq<Worker>, pools: Pools, host: Id -> string)
      ensures this.workers == workers && this.pools == pools && this.host == host && rows == []
    {
      this.workers, this.pools, this.host, rows, nextId := workers, pools, host, [], 0;
    }

    ghost predicate Valid()
      reads this
    {
      ValidWorkers(workers) && pools.Valid() && IdsBelow(rows, nextId)
    }

    /** A new deployment: one group, one instance on named GPUs, or single-node replicas. It succeeds when the
        allocator can serve it, and is a step of the runs that keep the placement invariants. */
    method Deploy(t: Template, cluster: Id, engine: string, supported: set<string>, replicas: nat, selection: Selection,
                  now: int)
      returns (r: Result<nat, DeployError>, ghost step: Option<Step>)
      requires Valid() && t.vram > 0 && t.nodes >= 1
      requires forall row :: row in rows ==> row.deployment != t.deployment
      modifies this
      ensures Valid()
      ensures Refusal(engine, supported, t, replicas, selection).Some? ==>
                r == Err(Refusal(engine, supported, t, replicas, selection).value)
      ensures engine !in supported <==> r == Err(UnsupportedEngine)
      ensures engine in supported && selection.Named? && (replicas != 1 || t.nodes > 1) <==> r == Err(ManualSingleOnly)
      ensures engine in supported && selection.Auto? && t.nodes > 1 && t.parallelMode == Some("single")
              <==> r == Err(ModeRequired)
      ensures engine in supported && (selection.Named? ==> replicas == 1) && t.nodes == 1 && t.parallelMode != Some("single")
              <==> r == Err(ModeNotAllowed)
      ensures engine in supported && selection.Auto? && t.nodes > 1 && t.parallelMode != Some("single") && replicas != 1
              <==> r == Err(OneGroupOnly)
      ensures r.Err? ==> rows == old(rows)
      ensures r.Ok? ==> step.Some? && Next(pools, old(rows), step.value, rows)
                        && Serves(step.value, Request(workers, cluster, engine), t, selection, host, now)
                        && r.value == |rows| - |old(rows)| == (if t.nodes > 1 then t.nodes else replicas)
      ensures var q := Request(workers, cluster, engine);
              Refusal(engine, supported, t, replicas, selection).None? ==>
                && (t.nodes > 1 ==> (r.Ok? <==> GroupPossible(q, {}, t, old(rows), pools)))
                && (selection.Named? ==>
                     (r.Ok? <==> ManualPossible(q, t, old(rows), pools, selection.worker, selection.indexes)))
                && (t.nodes == 1 && selection.Auto? && PortsSuffice(q, old(rows), pools, replicas) ==>
                     (r.Ok? <==> ReplicasPossible(q, t, old(rows), replicas)))
    {
      step := None;
      var refusal := Refusal(engine, supported, t, replicas, selection);
      if refusal.Some? {
        return Err(refusal.value), None;
      }
      if t.nodes > 1 {
        r, step := DeployGroup(t, cluster, engine, now);
      } else {
        match selection
        case Named(worker, indexes) => r, step := DeployManual(t, cluster, engine, worker, indexes, now);
        case Auto => r, step := DeployReplicas(t, cluster, engine, replicas, now);
      }
    }

    method DeployGroup(t: Template, cluster: Id, engine: string, now: int)
      returns (r: Result<nat, DeployError>, ghost step: Option<Step>)
      requires Valid() && t.vram > 0 && t.nodes > 1
      requires forall row :: row in rows ==> row.deployment != t.deployment
      modifies this
      ensures r.Err? ==> r.error.Allocation?
      ensures Valid() && (r.Err? ==> rows == old(rows))
      ensures r.Ok? <==> GroupPossible(Request(workers, cluster, engine), {}, t, old(rows), pools)
      ensures r.Ok? ==> step.Some? && Next(pools, old(rows), step.value, rows)
                        && Serves(step.value, Request(workers, cluster, engine), t, Auto, host, now)
                        && r.value == |rows| - |old(rows)| == t.nodes
    {
      var q := Request(workers, cluster, engine);
      var grant := AllocateRanks(t, cluster, engine);
      if grant.Err? {
        return Err(Allocation(grant.error)), None;
      }
      var ranks := grant.value;
      var address := host(ranks[0].worker);
      GroupIsStep(pools, rows, q, t, nextId, ranks, address, now);
      AppendRanks(t, ranks, Rendezvous.Encode(address, ranks[0].rendezvousPort.value), now);
      return Ok(t.nodes), Some(Step.DeployGroup(q, {}, t, ranks, address, now));
    }

    method AllocateRanks(t: Template, cluster: Id, engine: string) returns (grant: Result<seq<Rank>, AllocError>)
      requires Valid() && t.vram > 0 && t.nodes > 1
      ensures var q := Request(workers, cluster, engine);
              && (grant.Ok? <==> GroupPossible(q, {}, t, rows, pools))
              && (grant.Ok? ==> |grant.value| == t.nodes && RanksGranted(rows, pools, {}, grant.value)
                                && GroupPlanned(q, {}, t.vram, t.nodes, rows, pools, grant.value))
    {
      var db := Database(workers, rows);
      grant := AllocateParallelReplicas(db, cluster, t.vram, engine, t.nodes, {}, pools.instances, pools.rendezvous);
      if grant.Ok? {
        AllocatorGrants(db, cluster, t.vram, engine, t.nodes, {}, pools, grant.value);
      }
    }

    /** One instance on the GPUs the user named. */
    method DeployManual(t: Template, cluster: Id, engine: string, worker: Id, indexes: seq<int>, now: int)
      returns (r: Result<nat, DeployError>, ghost step: Option<Step>)
      requires Valid() && t.vram > 0 && t.nodes == 1
      modifies this
      ensures Valid() && (r.Err? ==> rows == old(rows) && r.error.Rejected?)
      ensures r.Ok? <==> ManualPossible(Request(workers, cluster, engine), t, old(rows), pools, worker, indexes)
      ensures r.Ok? ==> step.Some? && Next(pools, old(rows), step.value, rows) && r.value == |rows| - |old(rows)| == 1
                        && Serves(step.value, Request(workers, cluster, engine), t, Named(worker, indexes), host, now)
      ensures r.Ok? ==> rows[|old(rows)|].worker == Some(worker) && rows[|old(rows)|].gpuIndexes == Ascending(indexes)
    {
      var q := Request(workers, cluster, engine);
      var grant := AllocateManual(Database(workers, rows), cluster, worker, indexes, t.vram, engine, pools.instances);
      if grant.Err? {
        return Err(Rejected(grant.error)), None;
      }
      var m := grant.value;
      ManualIsStep(pools, rows, q, indexes, t, nextId, m, now);
      rows := rows + [ReplicaRow(t, nextId, PortHold(m), now).(gpuIndexes := m.gpuIndexes)];
      nextId := nextId + 1;
      return Ok(1), Some(Step.DeployManual(q, indexes, t, m, now));
    }

    method AppendRanks(t: Template, ranks: seq<Rank>, text: string, now: int)
      requires Valid()
      modifies this
      ensures Valid() && rows == old(rows) + NewRankRows(t, old(nextId), ranks, text, now)
    {
      var group := nextId;
      nextId := nextId + 1;
      for n := 0 to |ranks|
        invariant nextId == group + 1 + n && rows == old(rows) + NewRankRows(t, group, ranks[..n], text, now)
      {
        rows := rows + [RankRow(t, nextId, group, ranks[n], text, now)];
        nextId := nextId + 1;
      }
      assert ranks[..|ranks|] == ranks;
      RankRowsOwned(t, group, ranks, text, now);
    }

    method DeployReplicas(t: Template, cluster: Id, engine: string, replicas: nat, now: int)
      returns (r: Result<nat, DeployError>, ghost step: Option<Step>)
      requires Valid() && t.vram > 0 && t.nodes == 1
      modifies this
      ensures Valid() && (r.Err? ==> rows == old(rows) && r.error.Allocation?)
      ensures var q := Request(workers, cluster, engine);
              PortsSuffice(q, old(rows), pools, replicas) ==> (r.Ok? <==> ReplicasPossible(q, t, old(rows), replicas))
      ensures r.Ok? ==> step.Some? && Next(pools, old(rows), step.value, rows)
                        && Serves(step.value, Request(workers, cluster, engine), t, Auto, host, now)
                        && r.value == |rows| - |old(rows)| == replicas
      ensures r.Ok? ==>
        && step.value.Deploy?
        && Outcome(OpeningBoard(SlotsOf(Connected(workers, cluster), old(rows), Vendors(engine)), {}), t.vram, replicas,
                   old(rows), pools.instances, Ok(step.value.placements))
    {
      var q := Request(workers, cluster, engine);
      var grant := AllocateReplicas(Database(workers, rows), cluster, t.vram, engine, replicas, {}, pools.instances);
      if grant.Err? {
        return Err(Allocation(grant.error)), None;
      }
      ReplicasAreStep(pools, rows, q, t, nextId, grant.value, now);
      AppendReplicas(t, grant.value, now);
      return Ok(replicas), Some(Step.Deploy(q, {}, t, grant.value, now));
    }

    method AppendReplicas(t: Template, placements: seq<Placement>, now: int)
      requires Valid()
      modifies this
      ensures Valid() && rows == old(rows) + NewReplicaRows(t, old(nextId), placements, now)
    {
      for n := 0 to |placements|
        invariant nextId == old(nextId) + n && rows == old(rows) + NewReplicaRows(t, old(nextId), placements[..n], now)
      {
        rows := rows + [ReplicaRow(t, nextId, placements[n], now)];
        nextId := nextId + 1;
      }
      assert placements[..|placements|] == placements;
      ReplicaRowsOwned(t, old(nextId), placements, now);
    }

    method Find(id: Id) returns (found: Option<nat>)
      ensures match found
              case Some(i) => i < |rows| && rows[i].id == id
              case None => forall r :: r in rows ==> r.id != id
    {
      for i := 0 to |rows|
        invariant forall j :: 0 <= j < i ==> rows[j].id != id
      {
        if rows[i].id == id {
          return Some(i);
        }
      }
      return None;
    }

    /** Stopping twice raises the generation once. */
    method Stop(id: Id) returns (found: bool)
      requires DistinctRows(rows) && PortsApart(rows)
      modifies `rows
      ensures found <==> exists r :: r in old(rows) && r.id == id
      ensures |rows| == |old(rows)| && forall i :: 0 <= i < |rows| ==>
                rows[i] == if old(rows)[i].id == id && old(rows)[i].desired != WantStopped
                           then old(rows)[i].(desired := WantStopped, generation := old(rows)[i].generation + 1,
                                              errorDetail := None)
                           else old(rows)[i]
      ensures found ==> exists i: nat ::
                i < |rows| && old(rows)[i].id == id && Next(pools, old(rows), Change(i, rows[i]), rows)
    {
      var at := Find(id);
      found := at.Some?;
      if found {
        if rows[at.value].desired != WantStopped {
          ChangeKeepsPortsIff(rows, at.value, rows[at.value].Halted());
          rows := rows[at.value := rows[at.value].Halted()];
        }
        assert Next(pools, old(rows), Change(at.value, rows[at.value]), rows);
      }
    }

    /** The commit fails on the unique index exactly when somebody else holds the port by now. A commit keeps
        the placement invariants exactly when nobody else holds the head's rendezvous port either. */
    method Restart(id: Id) returns (found: bool, committed: bool)
      requires DistinctRows(rows) && PortsApart(rows)
      modifies `rows
      ensures PortsApart(rows)
      ensures found <==> exists r :: r in old(rows) && r.id == id
      ensures !committed ==> rows == old(rows)
      ensures forall i: nat :: i < |old(rows)| && old(rows)[i].id == id ==>
                && Next(pools, old(rows), Change(i, old(rows)[i].Restarted()), rows)
                && (committed <==> PortStillFree(old(rows), i))
                && (committed ==> rows == old(rows)[i := old(rows)[i].(desired := WantRunning,
                                                                       generation := old(rows)[i].generation + 1,
                                                                       errorDetail := None)])
                && (WellPlaced(pools, old(rows)) && committed ==>
                     (WellPlaced(pools, rows) <==> RendezvousStillFree(old(rows), i)))
    {
      var at := Find(id);
      found, committed := at.Some?, false;
      if found {
        var i := at.value;
        RestartEffect(pools, rows, i);
        var changed := rows[i := rows[i].Restarted()];
        committed := PortsApart(changed);
        if committed {
          rows := changed;
        }
      }
    }

    /** Deleting the last instance of a deployment deletes the deployment. */
    method Delete(id: Id) returns (found: bool, deploymentToo: bool)
      requires DistinctRows(rows)
      modifies `rows
      ensures found <==> exists r :: r in old(rows) && r.id == id
      ensures !found ==> rows == old(rows)
      ensures forall i :: 0 <= i < |old(rows)| && old(rows)[i].id == id ==>
                && Next(pools, old(rows), Step.Delete(i), rows)
                && (deploymentToo <==> forall r :: r in rows ==> r.deployment != old(rows)[i].deployment)
    {
      var at := Find(id);
      found, deploymentToo := at.Some?, false;
      if found {
        var i := at.value;
        var deployment := rows[i].deployment;
        rows := rows[..i] + rows[i + 1..];
        deploymentToo := forall r :: r in rows ==> r.deployment != deployment;
      }
    }
  }

  lemma RestartEffect(pools: Pools, rows: seq<Instance>, i: nat)
    requires i < |rows| && PortsApart(rows)
    ensures var changed := rows[i := rows[i].Restarted()];
            && (PortsApart(changed) <==> PortStillFree(rows, i))
            && (WellPlaced(pools, rows) && PortsApart(changed) ==>
                 (WellPlaced(pools, changed) <==> RendezvousStillFree(rows, i)))
  {
    ChangeKeepsPortsIff(rows, i, rows[i].Restarted());
    if WellPlaced(pools, rows) {
      ChangeFitsIff(pools, rows, i, rows[i].Restarted());
    }
  }

  lemma GroupIsStep(pools: Pools, rows: seq<Instance>, q: Request, t: Template, id: Id, ranks: seq<Rank>, address: string,
                    now: int)
    requires pools.Valid() && ValidWorkers(q.workers) && t.vram > 0
    requires IdsBelow(rows, id) && |ranks| == t.nodes > 1 && RanksGranted(rows, pools, {}, ranks)
    requires GroupPlanned(q, {}, t.vram, t.nodes, rows, pools, ranks)
    requires forall row :: row in rows ==> row.deployment != t.deployment
    ensures ranks[0].rendezvousPort.value >= 0
    ensures Next(pools, rows, Step.DeployGroup(q, {}, t, ranks, address, now),
                 rows + NewRankRows(t, id, ranks, Rendezvous.Encode(address, ranks[0].rendezvousPort.value), now))
  {
    RanksAreAdded(pools, rows, q, {}, t, id, ranks, address, now);
    var added := NewRankRows(t, id, ranks, Rendezvous.Encode(address, ranks[0].rendezvousPort.value), now);
    assert (rows + added)[|rows|..] == added;
  }

  lemma ManualIsStep(pools: Pools, rows: seq<Instance>, q: Request, indexes: seq<int>, t: Template, id: Id, m: Manual,
                     now: int)
    requires ValidWorkers(q.workers) && t.vram > 0 && IdsBelow(rows, id)
    requires ManualGranted(q.workers, rows, q.cluster, Vendors(q.engine), t.vram, indexes, pools.instances, m)
    ensures Next(pools, rows, Step.DeployManual(q, indexes, t, m, now),
                 rows + [ReplicaRow(t, id, PortHold(m), now).(gpuIndexes := m.gpuIndexes)])
  {
    var added := [ReplicaRow(t, id, PortHold(m), now).(gpuIndexes := m.gpuIndexes)];
    assert (rows + added)[|rows|..] == added;
  }

  lemma ReplicasAreStep(pools: Pools, rows: seq<Instance>, q: Request, t: Template, id: Id, placements: seq<Placement>,
                        now: int)
    requires ValidWorkers(q.workers) && t.vram > 0 && IdsBelow(rows, id)
    requires ReplicasPlanned(q, {}, t.vram, rows, pools.instances, placements)
    ensures Next(pools, rows, Step.Deploy(q, {}, t, placements, now), rows + NewReplicaRows(t, id, placements, now))
  {
    var added := NewReplicaRows(t, id, placements, now);
    ReplicasAreAdded(pools, rows, q, {}, t, id, placements, now);
    assert (rows + added)[|rows|..] == added;
  }

  /** A stop is a step of the protocol, with the same effect on the row. */
  lemma StopIsProtocolStep(w: Protocol.World, id: Id)
    requires id in w.rows
    ensures Protocol.Next(w, Protocol.UserStop(id), w.(rows := w.rows[id :=
              if w.rows[id].desired != WantStopped then w.rows[id].Halted() else w.rows[id]]))
  {
    if w.rows[id].desired == WantStopped {
      assert w.rows[id := w.rows[id]] == w.rows;
    }
  }
}

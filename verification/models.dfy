/** The rows the control plane reasons about (models.py), with the columns its decisions read. */
module Models {
  import opened Common

  datatype Gpu = Gpu(index: int, vendor: string, vram: int)

  datatype Worker = Worker(
    id: Id,
    cluster: Id,
    name: string,
    hostname: string,
    address: Option<string>,
    connected: bool,
    gpus: seq<Gpu>)

  /** One ModelInstance: a single replica, or one rank of a parallel group. */
  datatype Instance = Instance(
    id: Id,
    deployment: Id,
    worker: Option<Id>,
    gpuIndexes: seq<int>,
    vram: int,
    state: InstanceState,
    desired: Desired,
    generation: nat,
    port: Option<int>,
    group: Option<Id>,
    rank: Option<nat>,
    worldSize: Option<nat>,
    parallelMode: Option<string>,
    rendezvous: Option<string>,
    needsToken: bool,
    errorDetail: Option<string>,
    created: int)
  {
    /** PORT_RESERVED, and the predicate of the partial unique index on (worker, port). */
    predicate Reserved() {
      desired == WantRunning || state.Live()
    }

    /** What stop_instance and apply_scale write: the generation tells the worker to act. */
    function Halted(): Instance {
      this.(desired := WantStopped, generation := generation + 1, errorDetail := None)
    }

    /** What restart_instance writes. */
    function Restarted(): Instance {
      this.(desired := WantRunning, generation := generation + 1, errorDetail := None)
    }
  }

  datatype Database = Database(workers: seq<Worker>, rows: seq<Instance>)

  /** The table constraints the scheduler relies on: primary keys and uq_worker_gpus_worker_index. */
  ghost predicate ValidWorkers(workers: seq<Worker>) {
    && (forall i, j :: 0 <= i < j < |workers| ==> workers[i].id != workers[j].id)
    && (forall i :: 0 <= i < |workers| ==> DistinctGpus(workers[i].gpus))
  }

  /** Primary keys are unique. */
  ghost predicate DistinctRows(rows: seq<Instance>) {
    forall i, j :: 0 <= i < j < |rows| ==> rows[i].id != rows[j].id
  }

  ghost predicate DistinctGpus(gpus: seq<Gpu>) {
    forall i, j :: 0 <= i < j < |gpus| ==> gpus[i].index != gpus[j].index
  }
}

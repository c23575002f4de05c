/** The server's half of the desired-state protocol (services/workers_svc.py, sync_worker): apply what
    the worker reports, then answer with the commands that move it towards the desired state. */
module WorkersSvc {
  import opened Common
  import opened Models
  import Rendezvous

  /** What a worker reports about one instance it tracks. */
  datatype Status = Status(id: Id, state: InstanceState, generation: nat, detail: string, port: int)

  /** The Parallelism and Rendezvous messages of a start command. */
  datatype Topology = Topology(
    mode: string,
    tensorParallel: nat,
    pipelineParallel: nat,
    worldSize: nat,
    nodeRank: nat,
    endpoint: Rendezvous.Endpoint)

  datatype Command =
    | Start(id: Id, generation: nat, port: int, topology: Option<Topology>, needsToken: bool)
    | Stop(id: Id)
    | Delete(id: Id)

  /** _apply_parallelism: empty for a single-node instance. */
  function ApplyParallelism(inst: Instance): Option<Topology> {
    if inst.group.None? || inst.rendezvous.None? then None
    else
      var size := match inst.worldSize case Some(n) => if n == 0 then 1 else n case None => 1;
      var mode := match inst.parallelMode case Some(m) => if m == "" then "single" else m case None => "single";
      Some(Topology(
        mode, |inst.gpuIndexes|, if inst.parallelMode == Some("pp") then size else 1, size,
        if inst.rank.Some? then inst.rank.value else 0, Rendezvous.Decode(inst.rendezvous.value)))
  }

  function StartOf(inst: Instance): Command {
    Start(inst.id, inst.generation, if inst.port.Some? then inst.port.value else 0, ApplyParallelism(inst), inst.needsToken)
  }

  /** The command a row calls for, given what the worker reports about it. */
  function RowCommand(inst: Instance, reported: Option<Status>): Option<Command> {
    match inst.desired
    case WantRunning =>
      var applied := if reported.Some? then reported.value.generation else 0;
      var observed := if reported.Some? then reported.value.state else Stopped;
      if applied < inst.generation || observed == Stopped then Some(StartOf(inst)) else None
    case WantStopped =>
      if reported.Some? && reported.value.state in {Starting, Running} then Some(Stop(inst.id)) else None
  }

  /** The report about an id; the last one when a request repeats it. */
  function ReportOf(statuses: seq<Status>, id: Id): Option<Status> {
    if statuses == [] then None
    else if statuses[|statuses| - 1].id == id then Some(statuses[|statuses| - 1])
    else ReportOf(statuses[..|statuses| - 1], id)
  }

  function ApplyStatus(inst: Instance, s: Status): Instance {
    inst.(state := s.state,
          errorDetail := if s.detail == "" then None else Some(s.detail),
          port := if s.port != 0 then Some(s.port) else inst.port)
  }

  /** The reports about a row, applied in request order. */
  function Refreshed(inst: Instance, worker: Id, statuses: seq<Status>): Instance {
    if statuses == [] then inst
    else
      var before := Refreshed(inst, worker, statuses[..|statuses| - 1]);
      var s := statuses[|statuses| - 1];
      if inst.worker == Some(worker) && s.id == inst.id then ApplyStatus(before, s) else before
  }

  function Assigned(rows: seq<Instance>, worker: Id): set<Id> {
    set r | r in rows && r.worker == Some(worker) :: r.id
  }

  function RowCommands(rows: seq<Instance>, worker: Id, statuses: seq<Status>): seq<Command> {
    if rows == [] then []
    else
      var last := rows[|rows| - 1];
      var command := RowCommand(last, ReportOf(statuses, last.id));
      RowCommands(rows[..|rows| - 1], worker, statuses)
      + if last.worker == Some(worker) && command.Some? then [command.value] else []
  }

  function DeleteCommands(statuses: seq<Status>, known: set<Id>): seq<Command> {
    if statuses == [] then []
    else
      var last := statuses[|statuses| - 1];
      DeleteCommands(statuses[..|statuses| - 1], known) + if last.id in known then [] else [Delete(last.id)]
  }

  /** The answer to a Sync, from the rows as they are after the reports were applied. */
  function Commands(rows: seq<Instance>, worker: Id, statuses: seq<Status>): seq<Command> {
    RowCommands(rows, worker, statuses) + DeleteCommands(statuses, Assigned(rows, worker))
  }

  // ---- What a Sync does, in columns ----

  /** The last report about an id. */
  ghost predicate LastAbout(statuses: seq<Status>, id: Id, k: int) {
    0 <= k < |statuses| && statuses[k].id == id && forall j :: k < j < |statuses| ==> statuses[j].id != id
  }

  /** The last report about an id that has a port. */
  ghost predicate LastPort(statuses: seq<Status>, id: Id, k: int) {
    && 0 <= k < |statuses| && statuses[k].id == id && statuses[k].port != 0
    && forall j :: k < j < |statuses| && statuses[j].id == id ==> statuses[j].port == 0
  }

  /** A reported row of this worker has the state and the detail of the last report about it, and the last
      port reported, if any; nothing else changes. */
  ghost predicate TakesOver(before: Instance, after: Instance, worker: Id, statuses: seq<Status>) {
    && after == before.(state := after.state, errorDetail := after.errorDetail, port := after.port)
    && (before.worker != Some(worker) || (forall k :: !LastAbout(statuses, before.id, k)) ==> after == before)
    && (forall k :: before.worker == Some(worker) && LastAbout(statuses, before.id, k) ==>
         && after.state == statuses[k].state
         && after.errorDetail == (if statuses[k].detail == "" then None else Some(statuses[k].detail)))
    && (forall k :: before.worker == Some(worker) && LastPort(statuses, before.id, k) ==>
         after.port == Some(statuses[k].port))
    && ((forall k :: !LastPort(statuses, before.id, k)) ==> after.port == before.port)
  }

  lemma {:induction false} RefreshedTakesOver(inst: Instance, worker: Id, statuses: seq<Status>)
    ensures TakesOver(inst, Refreshed(inst, worker, statuses), worker, statuses)
  {
    if statuses != [] {
      var n := |statuses| - 1;
      var front, last := statuses[..n], statuses[n];
      RefreshedTakesOver(inst, worker, front);
      assert statuses == front + [last];
      if last.id == inst.id {
        assert LastAbout(statuses, inst.id, n);
        assert last.port != 0 ==> LastPort(statuses, inst.id, n);
      }
      forall k | k != n ensures LastAbout(statuses, inst.id, k) <==> last.id != inst.id && LastAbout(front, inst.id, k) {}
      forall k | k != n
        ensures LastPort(statuses, inst.id, k) <==> (last.id != inst.id || last.port == 0) && LastPort(front, inst.id, k) {}
    }
  }

  /** The topology of a start: none for a single instance, else what the row says of its rank, its group's
      size and mode, its GPUs, and where the head is. */
  ghost predicate TopologyFor(r: Instance, topology: Option<Topology>) {
    if r.group.None? || r.rendezvous.None? then topology.None?
    else
      && topology.Some?
      && topology.value.nodeRank == (if r.rank.Some? then r.rank.value else 0)
      && topology.value.worldSize == (if r.worldSize.Some? && r.worldSize.value > 0 then r.worldSize.value else 1)
      && topology.value.mode == (if r.parallelMode.Some? && r.parallelMode.value != "" then r.parallelMode.value else "single")
      && topology.value.tensorParallel == |r.gpuIndexes|
      && topology.value.pipelineParallel == (if r.parallelMode == Some("pp") then topology.value.worldSize else 1)
      && topology.value.endpoint == Rendezvous.Decode(r.rendezvous.value)
  }

  /** When a command is sent. A row of this worker that is wanted running is started unless its last report has
      its generation or a later one and is not "stopped"; one that is wanted stopped is stopped when its last
      report says it is up; and what is reported without a row of this worker is deleted. */
  ghost predicate Sent(rows: seq<Instance>, worker: Id, statuses: seq<Status>, c: Command) {
    match c
    case Start(id, generation, port, topology, needsToken) =>
      exists r :: r in rows && r.worker == Some(worker) && r.id == id && r.desired == WantRunning
                  && generation == r.generation && port == (if r.port.Some? then r.port.value else 0)
                  && needsToken == r.needsToken && TopologyFor(r, topology)
                  && forall k :: LastAbout(statuses, id, k) ==>
                       statuses[k].generation < r.generation || statuses[k].state == Stopped
    case Stop(id) =>
      && (exists r :: r in rows && r.worker == Some(worker) && r.id == id && r.desired == WantStopped)
      && (exists k :: LastAbout(statuses, id, k) && (statuses[k].state == Starting || statuses[k].state == Running))
    case Delete(id) =>
      (exists s :: s in statuses && s.id == id) && forall r :: r in rows && r.worker == Some(worker) ==> r.id != id
  }

  lemma {:induction false} ReportIsLast(statuses: seq<Status>, id: Id)
    ensures match ReportOf(statuses, id)
            case None => forall k :: !LastAbout(statuses, id, k)
            case Some(s) => exists k :: LastAbout(statuses, id, k) && statuses[k] == s
  {
    if statuses != [] {
      var n := |statuses| - 1;
      ReportIsLast(statuses[..n], id);
      assert statuses == statuses[..n] + [statuses[n]];
      if statuses[n].id == id {
        assert LastAbout(statuses, id, n);
      } else {
        forall k ensures LastAbout(statuses, id, k) <==> LastAbout(statuses[..n], id, k) {}
      }
    }
  }

  lemma LastIsOne(statuses: seq<Status>, id: Id, j: int, k: int)
    requires LastAbout(statuses, id, j) && LastAbout(statuses, id, k)
    ensures j == k
  {
  }

  lemma RowSends(r: Instance, worker: Id, statuses: seq<Status>, c: Command)
    requires r.worker == Some(worker)
    ensures RowCommand(r, ReportOf(statuses, r.id)) == Some(c) <==> !c.Delete? && c.id == r.id && Sent([r], worker, statuses, c)
  {
    ReportIsLast(statuses, r.id);
    assert r in [r];
    if k :| LastAbout(statuses, r.id, k) {
      forall j | LastAbout(statuses, r.id, j) ensures j == k {
        LastIsOne(statuses, r.id, j, k);
      }
      assert ReportOf(statuses, r.id) == Some(statuses[k]);
    }
  }

  class SyncServer {
    var rows: seq<Instance>

    constructor (rows: seq<Instance>)
      ensures this.rows == rows
    {
      this.rows := rows;
    }

    /** One reported status: the rows of this worker with that id take it over. */
    method ApplyReport(worker: Id, s: Status)
      modifies this
      ensures |rows| == |old(rows)|
      ensures forall i :: 0 <= i < |rows| ==>
                rows[i] == if old(rows)[i].worker == Some(worker) && old(rows)[i].id == s.id
                           then ApplyStatus(old(rows)[i], s) else old(rows)[i]
    {
      for k := 0 to |rows|
        invariant |rows| == |old(rows)|
        invariant forall i :: k <= i < |rows| ==> rows[i] == old(rows)[i]
        invariant forall i :: 0 <= i < k ==>
                    rows[i] == if old(rows)[i].worker == Some(worker) && old(rows)[i].id == s.id
                               then ApplyStatus(old(rows)[i], s) else old(rows)[i]
      {
        if rows[k].worker == Some(worker) && rows[k].id == s.id {
          rows := rows[k := ApplyStatus(rows[k], s)];
        }
      }
    }

    method ApplyReports(worker: Id, statuses: seq<Status>)
      modifies this
      ensures |rows| == |old(rows)|
      ensures forall i :: 0 <= i < |rows| ==> rows[i] == Refreshed(old(rows)[i], worker, statuses)
    {
      for n := 0 to |statuses|
        invariant |rows| == |old(rows)|
        invariant forall i :: 0 <= i < |rows| ==> rows[i] == Refreshed(old(rows)[i], worker, statuses[..n])
      {
        forall i | 0 <= i < |rows|
          ensures rows[i].id == old(rows)[i].id && rows[i].worker == old(rows)[i].worker {
          RefreshKeepsIdentity(old(rows)[i], worker, statuses[..n]);
        }
        assert statuses[..n + 1][..n] == statuses[..n];
        ApplyReport(worker, statuses[n]);
      }
      assert statuses[..|statuses|] == statuses;
    }

    /** sync_worker for an authenticated worker. */
    method SyncWorker(worker: Id, statuses: seq<Status>) returns (commands: seq<Command>)
      modifies this
      ensures |rows| == |old(rows)|
      ensures forall i :: 0 <= i < |rows| ==> TakesOver(old(rows)[i], rows[i], worker, statuses)
      ensures forall c :: c in commands <==> Sent(rows, worker, statuses, c)
      ensures forall i :: 0 <= i < |rows| ==> rows[i] == Refreshed(old(rows)[i], worker, statuses)
      ensures commands == Commands(rows, worker, statuses)
    {
      ApplyReports(worker, statuses);
      commands := BuildCommands(rows, worker, statuses);
      forall i | 0 <= i < |rows| ensures TakesOver(old(rows)[i], rows[i], worker, statuses) {
        RefreshedTakesOver(old(rows)[i], worker, statuses);
      }
      forall c ensures c in commands <==> Sent(rows, worker, statuses, c) {
        CommandsAreSent(rows, worker, statuses, c);
      }
    }
  }

  method BuildCommands(rows: seq<Instance>, worker: Id, statuses: seq<Status>) returns (commands: seq<Command>)
    ensures commands == Commands(rows, worker, statuses)
  {
    commands := [];
    for n := 0 to |rows|
      invariant commands == RowCommands(rows[..n], worker, statuses)
    {
      var command := RowCommand(rows[n], ReportOf(statuses, rows[n].id));
      assert rows[..n + 1][..n] == rows[..n];
      if rows[n].worker == Some(worker) && command.Some? {
        commands := commands + [command.value];
      }
    }
    assert rows[..|rows|] == rows;
    var known := Assigned(rows, worker);
    ghost var starts := commands;
    for n := 0 to |statuses|
      invariant commands == starts + DeleteCommands(statuses[..n], known)
    {
      assert statuses[..n + 1][..n] == statuses[..n];
      if statuses[n].id !in known {
        commands := commands + [Delete(statuses[n].id)];
      }
    }
    assert statuses[..|statuses|] == statuses;
  }

  /** Reports never touch what the user asked for: desired state, generation, assignment, identity. */
  lemma {:induction false} RefreshKeepsIdentity(inst: Instance, worker: Id, statuses: seq<Status>)
    ensures var r := Refreshed(inst, worker, statuses);
            r == inst.(state := r.state, errorDetail := r.errorDetail, port := r.port)
  {
    if statuses != [] {
      RefreshKeepsIdentity(inst, worker, statuses[..|statuses| - 1]);
    }
  }

  lemma {:induction false} DeletesAre(statuses: seq<Status>, known: set<Id>, c: Command)
    ensures c in DeleteCommands(statuses, known) <==> c.Delete? && c.id !in known && exists s :: s in statuses && s.id == c.id
  {
    if statuses != [] {
      var front, last := statuses[..|statuses| - 1], statuses[|statuses| - 1];
      DeletesAre(front, known, c);
      assert statuses == front + [last];
    }
  }

  lemma RowsSend(rows: seq<Instance>, worker: Id, statuses: seq<Status>, c: Command)
    ensures RowDue(rows, worker, statuses, c) <==> !c.Delete? && Sent(rows, worker, statuses, c)
  {
    forall r | r in rows && r.worker == Some(worker)
      ensures RowCommand(r, ReportOf(statuses, r.id)) == Some(c)
              <==> !c.Delete? && c.id == r.id && Sent([r], worker, statuses, c) {
      RowSends(r, worker, statuses, c);
    }
    if !c.Delete? && Sent(rows, worker, statuses, c) {
      var r :| r in rows && r.worker == Some(worker) && r.id == c.id && r in [r]
               && Sent([r], worker, statuses, c);
    }
  }

  /** Every row command and every delete of the answer, and nothing else, in columns. */
  lemma CommandsAreSent(rows: seq<Instance>, worker: Id, statuses: seq<Status>, c: Command)
    ensures c in Commands(rows, worker, statuses) <==> Sent(rows, worker, statuses, c)
  {
    RowCommandsDue(rows, worker, statuses, c);
    RowsSend(rows, worker, statuses, c);
    DeletesAre(statuses, Assigned(rows, worker), c);
  }

  // ---- What the answer means, instance by instance ----

  ghost predicate DistinctReports(statuses: seq<Status>) {
    forall i, j :: 0 <= i < j < |statuses| ==> statuses[i].id != statuses[j].id
  }

  ghost predicate RowDue(rows: seq<Instance>, worker: Id, statuses: seq<Status>, c: Command) {
    exists r :: r in rows && r.worker == Some(worker) && RowCommand(r, ReportOf(statuses, r.id)) == Some(c)
  }

  /** The command an instance is due: by its row when it is assigned here, a delete when the worker
      tracks it without being assigned it, none otherwise. */
  ghost predicate Due(rows: seq<Instance>, worker: Id, statuses: seq<Status>, c: Command) {
    || RowDue(rows, worker, statuses, c)
    || (c.Delete? && c.id !in Assigned(rows, worker) && exists s :: s in statuses && s.id == c.id)
  }

  lemma {:induction false} RowCommandsDue(rows: seq<Instance>, worker: Id, statuses: seq<Status>, c: Command)
    ensures c in RowCommands(rows, worker, statuses) <==> RowDue(rows, worker, statuses, c)
  {
    if rows != [] {
      var front, last := rows[..|rows| - 1], rows[|rows| - 1];
      RowCommandsDue(front, worker, statuses, c);
      assert rows == front + [last];
    }
  }

  lemma {:induction false} RowCommandsOnce(rows: seq<Instance>, worker: Id, statuses: seq<Status>)
    requires DistinctRows(rows)
    ensures var cs := RowCommands(rows, worker, statuses);
            && (forall c :: c in cs ==> exists r :: r in rows && r.worker == Some(worker) && r.id == c.id)
            && (forall i, j :: 0 <= i < j < |cs| ==> cs[i].id != cs[j].id)
  {
    if rows != [] {
      var front, last := rows[..|rows| - 1], rows[|rows| - 1];
      RowCommandsOnce(front, worker, statuses);
      assert rows == front + [last];
      var cs := RowCommands(front, worker, statuses);
      forall i | 0 <= i < |cs| ensures cs[i].id != last.id {
        assert cs[i] in cs;
      }
    }
  }

  lemma {:induction false} DeleteCommandsDue(statuses: seq<Status>, known: set<Id>)
    requires DistinctReports(statuses)
    ensures var cs := DeleteCommands(statuses, known);
            && (forall i, j :: 0 <= i < j < |cs| ==> cs[i].id != cs[j].id)
            && (forall c :: c in cs <==> c.Delete? && c.id !in known && exists s :: s in statuses && s.id == c.id)
  {
    if statuses != [] {
      var front, last := statuses[..|statuses| - 1], statuses[|statuses| - 1];
      DeleteCommandsDue(front, known);
      assert statuses == front + [last];
      var cs := DeleteCommands(front, known);
      forall i | 0 <= i < |cs| ensures cs[i].id != last.id {
        assert cs[i] in cs;
        var s :| s in front && s.id == cs[i].id;
      }
    }
  }

  /** A Sync answers with exactly the commands that are due, and with at most one per instance. */
  lemma CommandsAreDue(rows: seq<Instance>, worker: Id, statuses: seq<Status>)
    requires DistinctRows(rows) && DistinctReports(statuses)
    ensures var cs := Commands(rows, worker, statuses);
            && (forall i, j :: 0 <= i < j < |cs| ==> cs[i].id != cs[j].id)
            && (forall c :: c in cs <==> Due(rows, worker, statuses, c))
  {
    RowCommandsOnce(rows, worker, statuses);
    forall c ensures c in RowCommands(rows, worker, statuses) <==> RowDue(rows, worker, statuses, c) {
      RowCommandsDue(rows, worker, statuses, c);
    }
    DeleteCommandsDue(statuses, Assigned(rows, worker));
    var starts, deletes := RowCommands(rows, worker, statuses), DeleteCommands(statuses, Assigned(rows, worker));
    forall i, j | 0 <= i < |starts| && 0 <= j < |deletes| ensures starts[i].id != deletes[j].id {
      assert starts[i] in starts && deletes[j] in deletes;
    }
  }

  /** What it takes for one row to call for nothing. */
  predicate RowSettled(r: Instance, reported: Option<Status>) {
    match r.desired
    case WantRunning =>
      reported.Some? && reported.value.generation >= r.generation && reported.value.state != Stopped
    case WantStopped =>
      reported.None? || reported.value.state !in {Starting, Running}
  }

  /** The worker is where the rows want it. */
  ghost predicate Settled(rows: seq<Instance>, worker: Id, statuses: seq<Status>) {
    && (forall r :: r in rows && r.worker == Some(worker) ==> RowSettled(r, ReportOf(statuses, r.id)))
    && (forall s :: s in statuses ==> s.id in Assigned(rows, worker))
  }

  lemma RowSettledIff(r: Instance, reported: Option<Status>)
    ensures RowSettled(r, reported) <==> RowCommand(r, reported).None?
  {
  }

  lemma UnsettledIsDue(rows: seq<Instance>, worker: Id, statuses: seq<Status>, r: Instance)
    requires r in rows && r.worker == Some(worker) && !RowSettled(r, ReportOf(statuses, r.id))
    ensures RowCommand(r, ReportOf(statuses, r.id)).Some?
    ensures Due(rows, worker, statuses, RowCommand(r, ReportOf(statuses, r.id)).value)
  {
    var c := RowCommand(r, ReportOf(statuses, r.id)).value;
    assert RowDue(rows, worker, statuses, c);
  }

  /** No commands, exactly when settled. */
  lemma NoCommandsIffSettled(rows: seq<Instance>, worker: Id, statuses: seq<Status>)
    requires DistinctRows(rows) && DistinctReports(statuses)
    ensures Commands(rows, worker, statuses) == [] <==> Settled(rows, worker, statuses)
  {
    CommandsAreDue(rows, worker, statuses);
    var cs := Commands(rows, worker, statuses);
    if cs == [] {
      forall r | r in rows && r.worker == Some(worker) ensures RowSettled(r, ReportOf(statuses, r.id)) {
        if !RowSettled(r, ReportOf(statuses, r.id)) {
          UnsettledIsDue(rows, worker, statuses, r);
        }
      }
      forall s | s in statuses ensures s.id in Assigned(rows, worker) {
        assert s.id !in Assigned(rows, worker) ==> Due(rows, worker, statuses, Delete(s.id));
      }
    } else if Settled(rows, worker, statuses) {
      assert Due(rows, worker, statuses, cs[0]);
      if RowDue(rows, worker, statuses, cs[0]) {
        var r :| r in rows && r.worker == Some(worker) && RowCommand(r, ReportOf(statuses, r.id)) == Some(cs[0]);
        RowSettledIff(r, ReportOf(statuses, r.id));
      }
    }
  }
}

/** Server and worker together: user actions, Syncs whose answer may be lost, busy batches, probes and
    worker restarts in any order. Each row of this worker, and everything known about it, evolves here. */
module Protocol {
  import opened Common
  import opened Models
  import opened Sorting
  import opened WorkersSvc
  import opened Manager

  datatype World = World(
    rows: map<Id, Instance>,
    tracked: Registry,
    batch: Option<seq<Command>>,
    pending: seq<Command>,
    /** The answer of a Sync on its way to the worker. */
    wire: Option<seq<Command>>,
    /** Containers on the host, with the generation on their label. */
    containers: map<Id, nat>,
    /** History: the last command received and the last one applied, per instance, since the worker started. */
    received: map<Id, Command>,
    applied: map<Id, Command>)

  datatype Step =
    | UserStop(id: Id)
    | UserRestart(id: Id)
    | ScaleStop(id: Id)
    | Create(row: Instance)
    | Remove(id: Id)
    | Sync(answer: seq<Command>)
    | Deliver
    | Lose
    | ApplyNext(token: bool, outcome: Outcome)
    | FinishBatch
    | Probe(id: Id, healthy: bool, detail: string)
    | RestartWorker

  function ReportFor(tracked: Registry, id: Id): Option<Status> {
    if id in tracked then Some(StatusOf(id, tracked[id])) else None
  }

  /** The command an instance is due. */
  function DueFor(rows: map<Id, Instance>, tracked: Registry, id: Id): Option<Command> {
    if id in rows then RowCommand(rows[id], ReportFor(tracked, id))
    else if id in tracked then Some(Delete(id))
    else None
  }

  /** A Sync's answer: for each instance, what it is due. */
  ghost predicate Answers(rows: map<Id, Instance>, tracked: Registry, answer: seq<Command>) {
    OnePerInstance(answer) && forall id :: CommandFor(answer, id) == DueFor(rows, tracked, id)
  }

  /** The rows of one worker, by id. */
  ghost predicate RowsOf(byId: map<Id, Instance>, rows: seq<Instance>, worker: Id) {
    && byId.Keys == Assigned(rows, worker)
    && forall r :: r in rows && r.worker == Some(worker) ==> byId[r.id] == r
  }

  /** What sync_worker computes from rows and a reported registry is such an answer. */
  lemma SyncAnswers(byId: map<Id, Instance>, rows: seq<Instance>, worker: Id, tracked: Registry, statuses: seq<Status>)
    requires DistinctRows(rows) && RowsOf(byId, rows, worker) && Reports(statuses, tracked)
    ensures Answers(byId, tracked, Commands(rows, worker, statuses))
  {
    var cs := Commands(rows, worker, statuses);
    CommandsAreDue(rows, worker, statuses);
    forall id ensures CommandFor(cs, id) == DueFor(byId, tracked, id) {
      CommandForMember(cs, id);
      assert ReportOf(statuses, id) == ReportFor(tracked, id);
      var due := DueFor(byId, tracked, id);
      if due.Some? {
        if id in byId {
          assert byId[id] in rows by { var r :| r in rows && r.worker == Some(worker) && r.id == id; }
          assert RowDue(rows, worker, statuses, due.value);
        } else {
          ReportedIsListed(statuses, id);
        }
        assert Due(rows, worker, statuses, due.value);
      }
      var sent := CommandFor(cs, id);
      if sent.Some? {
        assert Due(rows, worker, statuses, sent.value);
      }
    }
  }

  lemma {:induction false} ReportedIsListed(statuses: seq<Status>, id: Id)
    ensures ReportOf(statuses, id).Some? <==> exists s :: s in statuses && s.id == id
  {
    if statuses != [] {
      var front := statuses[..|statuses| - 1];
      ReportedIsListed(front, id);
      assert statuses == front + [statuses[|statuses| - 1]];
    }
  }

  // ---- Steps ----

  predicate SameRequest(a: Instance, b: Instance) {
    b == a.(state := b.state, errorDetail := b.errorDetail, port := b.port)
  }

  predicate SameRequests(rows: map<Id, Instance>, rows': map<Id, Instance>) {
    rows.Keys == rows'.Keys && forall id :: id in rows ==> SameRequest(rows[id], rows'[id])
  }

  /** An id nobody has used: what a fresh UUID gives. */
  ghost predicate Unused(w: World, id: Id) {
    && id !in w.rows && id !in w.tracked && id !in w.containers
    && CommandFor(Queue(w), id).None? && CommandFor(w.pending, id).None? && CommandFor(Wire(w), id).None?
  }

  function Queue(w: World): seq<Command> { if w.batch.Some? then w.batch.value else [] }

  function Wire(w: World): seq<Command> { if w.wire.Some? then w.wire.value else [] }

  function Receive(received: map<Id, Command>, commands: seq<Command>): map<Id, Command> {
    if commands == [] then received
    else Receive(received, commands[..|commands| - 1])[commands[|commands| - 1].id := commands[|commands| - 1]]
  }

  /** Docker may fail to remove a container, and only a start creates one, labelled with its generation. */
  ghost predicate ContainersAfter(before: map<Id, nat>, c: Command, after: map<Id, nat>) {
    forall id :: id in after ==>
      || (id in before && after[id] == before[id])
      || (c.Start? && id == c.id && after[id] == c.generation)
  }

  /** What a restarted worker adopts: some of the containers, as running or stopped, rank unknown. */
  ghost predicate Adopts(containers: map<Id, nat>, adopted: Registry) {
    forall id :: id in adopted ==>
      && id in containers && adopted[id].generation in {0, containers[id]}
      && adopted[id].state in {Running, Stopped} && adopted[id].rank.None?
  }

  ghost predicate Next(w: World, step: Step, w': World) {
    match step
    case UserStop(id) =>
      id in w.rows
      && w' == if w.rows[id].desired == WantStopped then w else w.(rows := w.rows[id := w.rows[id].Halted()])
    case ScaleStop(id) => id in w.rows && w' == w.(rows := w.rows[id := w.rows[id].Halted()])
    case UserRestart(id) => id in w.rows && w' == w.(rows := w.rows[id := w.rows[id].Restarted()])
    case Create(row) => Unused(w, row.id) && row.generation == 1 && w' == w.(rows := w.rows[row.id := row])
    case Remove(id) => id in w.rows && w' == w.(rows := w.rows - {id})
    case Sync(answer) =>
      && w.wire.None? && SameRequests(w.rows, w'.rows)
      && Answers(w'.rows, w.tracked, answer)
      && w' == w.(rows := w'.rows, wire := Some(answer))
    case Deliver =>
      && w.wire.Some?
      && w' == w.(wire := None, received := Receive(w.received, w.wire.value),
                  batch := if w.batch.None? then Some(Ordered(w.tracked, w.wire.value)) else w.batch,
                  pending := if w.batch.None? then w.pending else PutAll(w.pending, w.wire.value))
    case Lose => w.wire.Some? && w' == w.(wire := None)
    case ApplyNext(token, outcome) =>
      && w.batch.Some? && w.batch.value != []
      && var c := w.batch.value[0];
         && ContainersAfter(w.containers, c, w'.containers)
         && w' == w.(tracked := Apply(w.tracked, c, token, outcome), batch := Some(w.batch.value[1..]),
                     applied := w.applied[c.id := c], containers := w'.containers)
    case FinishBatch =>
      && w.batch == Some([])
      && w'.containers.Items <= w.containers.Items
      && w' == w.(batch := if w.pending == [] then None else Some(Ordered(w.tracked, w.pending)), pending := [],
                  containers := w'.containers)
    case Probe(id, healthy, detail) =>
      && id in w.tracked && w.tracked[id].state == Starting
      && w' == w.(tracked := w.tracked[id := w.tracked[id].(state := if healthy then Running else Error,
                                                             detail := detail)])
    case RestartWorker =>
      && Adopts(w.containers, w'.tracked)
      && w' == w.(tracked := w'.tracked, batch := None, pending := [], wire := None,
                  received := map[], applied := map[])
  }

  /** A user (or the scaler) changes what is wanted, or the worker loses its memory. */
  predicate Disturbs(step: Step) {
    step.UserStop? || step.UserRestart? || step.ScaleStop? || step.Create? || step.Remove? || step.RestartWorker?
  }

  ghost predicate Run(ws: seq<World>, steps: seq<Step>) {
    |ws| == |steps| + 1 && forall k :: 0 <= k < |steps| ==> Next(ws[k], steps[k], ws[k + 1])
  }

  // ---- Shape: at most one command per instance in each place ----

  ghost predicate Shaped(w: World) {
    && (forall id :: id in w.rows ==> w.rows[id].id == id)
    && OnePerInstance(Queue(w)) && OnePerInstance(w.pending) && OnePerInstance(Wire(w))
    && (w.batch.None? ==> w.pending == [])
  }

  lemma OrderedFor(registry: Registry, commands: seq<Command>, id: Id)
    requires OnePerInstance(commands)
    ensures OnePerInstance(Ordered(registry, commands))
    ensures CommandFor(Ordered(registry, commands), id) == CommandFor(commands, id)
  {
    var batch, leq := Ordered(registry, commands), BatchOrder(registry);
    SortPermutes(commands, leq);
    assert PairwiseApart(commands, (a: Command, b: Command) => a.id != b.id);
    SortKeepsApart(commands, leq, (a: Command, b: Command) => a.id != b.id);
    assert PairwiseApart(batch, (a: Command, b: Command) => a.id != b.id);
    CommandForMember(commands, id);
    CommandForMember(batch, id);
  }

  lemma TailFor(commands: seq<Command>, id: Id)
    requires commands != [] && OnePerInstance(commands)
    ensures OnePerInstance(commands[1..])
    ensures CommandFor(commands[1..], id) == if id == commands[0].id then None else CommandFor(commands, id)
  {
    assert commands == [commands[0]] + commands[1..];
    CommandForMember(commands[1..], id);
  }

  /** What a step does to the three places a command for this instance can be. */
  ghost predicate Moves(w: World, step: Step, w': World, id: Id) {
    var (b, p, s) := (CommandFor(Queue(w), id), CommandFor(w.pending, id), CommandFor(Wire(w), id));
    var (b', p', s') := (CommandFor(Queue(w'), id), CommandFor(w'.pending, id), CommandFor(Wire(w'), id));
    match step
    case Sync(answer) => b' == b && p' == p && s.None? && s' == DueFor(w'.rows, w.tracked, id)
    case Deliver =>
      && s'.None?
      && if w.batch.None? then b.None? && p.None? && p'.None? && b' == s
         else b' == b && p' == if s.Some? then s else p
    case Lose => b' == b && p' == p && s'.None?
    case ApplyNext(_, _) =>
      && p' == p && s' == s && w.batch.Some? && w.batch.value != []
      && b' == if id == w.batch.value[0].id then None else b
    case FinishBatch => b.None? && b' == p && p'.None? && s' == s
    case RestartWorker => b'.None? && p'.None? && s'.None?
    case _ => b' == b && p' == p && s' == s
  }

  lemma DeliverMoves(w: World, w': World, id: Id)
    requires Shaped(w) && Next(w, Deliver, w')
    ensures Shaped(w') && Moves(w, Deliver, w', id)
  {
    if w.batch.None? {
      OrderedFor(w.tracked, w.wire.value, id);
    } else {
      PutAllKeepsLast(w.pending, w.wire.value);
    }
  }

  lemma FinishMoves(w: World, w': World, id: Id)
    requires Shaped(w) && Next(w, FinishBatch, w')
    ensures Shaped(w') && Moves(w, FinishBatch, w', id)
  {
    OrderedFor(w.tracked, w.pending, id);
  }

  lemma ApplyMoves(w: World, step: Step, w': World, id: Id)
    requires Shaped(w) && Next(w, step, w') && step.ApplyNext?
    ensures Shaped(w') && Moves(w, step, w', id)
  {
    TailFor(w.batch.value, id);
  }

  lemma PlacesStep(w: World, step: Step, w': World, id: Id)
    requires Shaped(w) && Next(w, step, w')
    ensures Shaped(w') && Moves(w, step, w', id)
  {
    match step
    case Deliver => DeliverMoves(w, w', id);
    case ApplyNext(_, _) => ApplyMoves(w, step, w', id);
    case FinishBatch => FinishMoves(w, w', id);
    case _ =>
  }

  // ---- Generation safety ----

  /** Commands only reach the worker in the order they were issued: their generations do not decrease
      from the registry through the batch, the queue and the wire up to the row. */
  ghost predicate Chained(w: World, id: Id) {
    var t := if id in w.tracked then w.tracked[id].generation else 0;
    var b, p, s := StartGen(Queue(w), id), StartGen(w.pending, id), StartGen(Wire(w), id);
    && (b.Some? ==> t <= b.value)
    && (p.Some? ==> t <= p.value && (b.Some? ==> b.value <= p.value))
    && (s.Some? ==> t <= s.value && (b.Some? ==> b.value <= s.value) && (p.Some? ==> p.value <= s.value))
    && (id in w.rows ==>
         var g := w.rows[id].generation;
         && t <= g && (b.Some? ==> b.value <= g) && (p.Some? ==> p.value <= g) && (s.Some? ==> s.value <= g)
         && (id in w.containers ==> w.containers[id] <= g))
  }

  /** The generation of the start queued for an instance, if any. */
  function StartGen(commands: seq<Command>, id: Id): Option<nat> {
    var c := CommandFor(commands, id);
    if c.Some? && c.value.Start? then Some(c.value.generation) else None
  }

  ghost predicate Safe(w: World) {
    Shaped(w) && forall id :: Chained(w, id)
  }

  lemma ChainApply(w: World, token: bool, outcome: Outcome, w': World, id: Id)
    requires Shaped(w) && Chained(w, id) && Next(w, ApplyNext(token, outcome), w')
    ensures Chained(w', id)
    ensures id in w.tracked && id in w'.tracked ==> w.tracked[id].generation <= w'.tracked[id].generation
  {
    PlacesStep(w, ApplyNext(token, outcome), w', id);
    var c := w.batch.value[0];
    if id == c.id {
      assert CommandFor(Queue(w), id) == Some(c);
    } else {
      assert Find(w'.tracked, id) == Find(w.tracked, id);
    }
  }

  lemma ChainFinish(w: World, w': World, id: Id)
    requires Shaped(w) && Chained(w, id) && Next(w, FinishBatch, w')
    ensures Chained(w', id)
  {
    PlacesStep(w, FinishBatch, w', id);
    if id in w'.containers {
      assert (id, w'.containers[id]) in w'.containers.Items;
      assert (id, w'.containers[id]) in w.containers.Items;
    }
  }

  /** The steps that change a row: they only raise its generation... */
  lemma ChainRequests(w: World, step: Step, w': World, id: Id)
    requires Shaped(w) && Chained(w, id) && Next(w, step, w')
    requires step.UserStop? || step.ScaleStop? || step.UserRestart?
    ensures Chained(w', id) && w'.tracked == w.tracked
  {
    assert id in w.rows <==> id in w'.rows;
    assert id in w.rows ==> w.rows[id].generation <= w'.rows[id].generation;
  }

  /** ... or add one nobody knows, or take one away. */
  lemma ChainRows(w: World, step: Step, w': World, id: Id)
    requires Shaped(w) && Chained(w, id) && Next(w, step, w')
    requires step.Create? || step.Remove?
    ensures Chained(w', id) && w'.tracked == w.tracked
  {
  }

  /** The steps that move an answer or change the registry alone. */
  lemma ChainMoves(w: World, step: Step, w': World, id: Id)
    requires Shaped(w) && Chained(w, id) && Next(w, step, w')
    requires step.Sync? || step.Deliver? || step.Lose?
    ensures Chained(w', id) && w'.tracked == w.tracked
  {
    PlacesStep(w, step, w', id);
  }

  lemma ChainStep(w: World, step: Step, w': World, id: Id)
    requires Shaped(w) && Chained(w, id) && Next(w, step, w')
    ensures Chained(w', id)
    ensures !step.RestartWorker? && id in w.tracked && id in w'.tracked ==>
              w.tracked[id].generation <= w'.tracked[id].generation
  {
    match step
    case ApplyNext(token, outcome) => ChainApply(w, token, outcome, w', id);
    case FinishBatch => ChainFinish(w, w', id);
    case Sync(_) => ChainMoves(w, step, w', id);
    case Deliver => ChainMoves(w, step, w', id);
    case Lose => ChainMoves(w, step, w', id);
    case Probe(_, _, _) =>
    case RestartWorker =>
    case Create(_) => ChainRows(w, step, w', id);
    case Remove(_) => ChainRows(w, step, w', id);
    case _ => ChainRequests(w, step, w', id);
  }

  lemma SafeStep(w: World, step: Step, w': World)
    requires Safe(w) && Next(w, step, w')
    ensures Safe(w')
  {
    PlacesStep(w, step, w', 0);
    forall id ensures Chained(w', id) {
      ChainStep(w, step, w', id);
    }
  }

  /** A worker that has just been started on a host where no container is ahead of its row. */
  ghost predicate Initial(w: World) {
    && (forall id :: id in w.rows ==> w.rows[id].id == id)
    && (forall id :: id in w.rows && id in w.containers ==> w.containers[id] <= w.rows[id].generation)
    && w.tracked == map[] && w.batch.None? && w.pending == [] && w.wire.None?
    && w.received == map[] && w.applied == map[]
  }

  lemma {:induction false} SafeRun(ws: seq<World>, steps: seq<Step>, k: nat)
    requires Run(ws, steps) && Initial(ws[0]) && k < |ws|
    ensures Safe(ws[k])
  {
    if k > 0 {
      SafeRun(ws, steps, k - 1);
      SafeStep(ws[k - 1], steps[k - 1], ws[k]);
    }
  }

  /** In every run: the worker's generation never exceeds the row's, and never falls while it is tracked,
      except that a restarted worker starts over from what its containers say. */
  lemma GenerationSafety(ws: seq<World>, steps: seq<Step>, k: nat, id: Id)
    requires Run(ws, steps) && Initial(ws[0]) && k < |ws|
    ensures id in ws[k].tracked && id in ws[k].rows ==> ws[k].tracked[id].generation <= ws[k].rows[id].generation
    ensures k < |steps| && !steps[k].RestartWorker? && id in ws[k].tracked && id in ws[k + 1].tracked ==>
              ws[k].tracked[id].generation <= ws[k + 1].tracked[id].generation
  {
    SafeRun(ws, steps, k);
    assert Chained(ws[k], id);
    if k < |steps| {
      ChainStep(ws[k], steps[k], ws[k + 1], id);
    }
  }

  // ---- What a restart forgets ----

  function Teardowns(commands: seq<Command>): seq<Command> {
    Filter(commands, (c: Command) => !c.Start?)
  }

  /** Containers carry no rank, so after a worker restart teardowns run in the order they were sent:
      higher ranks first is only guaranteed for instances this worker process started. */
  lemma RestartForgetsRanks(containers: map<Id, nat>, adopted: Registry, commands: seq<Command>)
    requires Adopts(containers, adopted)
    ensures Teardowns(Ordered(adopted, commands)) == Teardowns(commands)
  {
    var leq, teardowns := BatchOrder(adopted), Teardowns(commands);
    SortStable(commands, leq, (c: Command) => !c.Start?);
    SortKeepsOrder(teardowns, leq);
    FilterMembers(commands, (c: Command) => !c.Start?);
    forall i, j | 0 <= i < j < |teardowns| ensures leq(teardowns[i], teardowns[j]) {
      assert teardowns[i] in teardowns && teardowns[j] in teardowns;
      assert TrackedRank(adopted, teardowns[i].id) == TrackedRank(adopted, teardowns[j].id) == 0;
    }
  }

  // ---- Coalescing loses nothing but superseded commands ----

  /** The command whose effect this instance will end up with. */
  function Latest(w: World, id: Id): Option<Command> {
    if CommandFor(w.pending, id).Some? then CommandFor(w.pending, id)
    else if CommandFor(Queue(w), id).Some? then CommandFor(Queue(w), id)
    else if id in w.applied then Some(w.applied[id]) else None
  }

  ghost predicate Faithful(w: World, id: Id) {
    Latest(w, id) == if id in w.received then Some(w.received[id]) else None
  }

  lemma {:induction false} ReceiveLast(received: map<Id, Command>, commands: seq<Command>, id: Id)
    requires OnePerInstance(commands)
    ensures var after := Receive(received, commands);
            var c := CommandFor(commands, id);
            if c.Some? then id in after && after[id] == c.value
            else (id in after <==> id in received) && (id in received ==> after[id] == received[id])
  {
    if commands != [] {
      var front, last := commands[..|commands| - 1], commands[|commands| - 1];
      ReceiveLast(received, front, id);
      assert commands == front + [last];
      CommandForMember(commands, id);
      CommandForMember(front, id);
    }
  }

  lemma FaithfulStep(w: World, step: Step, w': World, id: Id)
    requires Shaped(w) && Next(w, step, w') && Faithful(w, id)
    ensures Faithful(w', id)
  {
    PlacesStep(w, step, w', id);
    if step.Deliver? {
      ReceiveLast(w.received, w.wire.value, id);
    }
    if step.ApplyNext? {
      var c := w.batch.value[0];
      assert CommandFor(w.batch.value, c.id) == Some(c);
    }
  }

  /** In every run, whenever no batch runs, the last command applied to an instance is the last one
      received for it: what coalescing dropped had been superseded. */
  lemma {:induction false} LastReceivedIsLastApplied(ws: seq<World>, steps: seq<Step>, k: nat, id: Id)
    requires Run(ws, steps) && Initial(ws[0]) && k < |ws|
    ensures Faithful(ws[k], id)
    ensures ws[k].batch.None? ==>
              (if id in ws[k].applied then Some(ws[k].applied[id]) else None)
              == (if id in ws[k].received then Some(ws[k].received[id]) else None)
  {
    SafeRun(ws, steps, k);
    if k > 0 {
      LastReceivedIsLastApplied(ws, steps, k - 1, id);
      SafeRun(ws, steps, k - 1);
      FaithfulStep(ws[k - 1], steps[k - 1], ws[k], id);
    }
  }

  // ---- Convergence ----

  /** Applying this command leaves its instance due nothing. */
  predicate Resolves(rows: map<Id, Instance>, c: Command) {
    match c
    case Start(id, generation, _, _, _) =>
      id in rows && rows[id].desired == WantRunning && generation >= rows[id].generation
    case Stop(id) => id in rows && rows[id].desired == WantStopped
    case Delete(id) => id !in rows
  }

  lemma ApplyResolves(rows: map<Id, Instance>, tracked: Registry, c: Command, token: bool, outcome: Outcome)
    requires Resolves(rows, c)
    ensures DueFor(rows, Apply(tracked, c, token, outcome), c.id).None?
    ensures DueFor(rows, ApplyMock(tracked, c, token), c.id).None?
  {
  }

  lemma DueResolves(rows: map<Id, Instance>, tracked: Registry, id: Id)
    requires forall i :: i in rows ==> rows[i].id == i
    requires DueFor(rows, tracked, id).Some?
    ensures var c := DueFor(rows, tracked, id).value; c.id == id && Resolves(rows, c)
  {
  }

  /** Every command on its way resolves its instance, and an instance with none queued is due nothing. */
  ghost predicate Pledged(w: World, id: Id) {
    var b, p, s := CommandFor(Queue(w), id), CommandFor(w.pending, id), CommandFor(Wire(w), id);
    && (b.Some? ==> Resolves(w.rows, b.value))
    && (p.Some? ==> Resolves(w.rows, p.value))
    && (s.Some? ==> Resolves(w.rows, s.value))
    && (b.None? && p.None? ==> DueFor(w.rows, w.tracked, id).None?)
  }

  lemma PledgeStep(w: World, step: Step, w': World, id: Id)
    requires Shaped(w) && Next(w, step, w') && !Disturbs(step) && Pledged(w, id)
    ensures Pledged(w', id)
  {
    PlacesStep(w, step, w', id);
    match step
    case Sync(answer) =>
      if DueFor(w'.rows, w.tracked, id).Some? {
        DueResolves(w'.rows, w.tracked, id);
      }
    case ApplyNext(token, outcome) =>
      var c := w.batch.value[0];
      if id == c.id {
        assert CommandFor(w.batch.value, id) == Some(c);
        ApplyResolves(w.rows, w.tracked, c, token, outcome);
      }
    case _ =>
  }

  /** A Sync by an idle worker, once delivered, pledges everything: from any rows and any registry. */
  lemma SyncPledges(w: World, answer: seq<Command>, sent: World, delivered: World, id: Id)
    requires Shaped(w) && w.batch.None?
    requires Next(w, Sync(answer), sent) && Next(sent, Deliver, delivered)
    ensures Shaped(delivered) && Pledged(delivered, id)
  {
    PlacesStep(w, Sync(answer), sent, id);
    PlacesStep(sent, Deliver, delivered, id);
    if DueFor(sent.rows, w.tracked, id).Some? {
      DueResolves(sent.rows, w.tracked, id);
    }
  }

  lemma {:induction false} PledgeRun(ws: seq<World>, steps: seq<Step>, k: nat, id: Id)
    requires Run(ws, steps) && |steps| >= 2 && Shaped(ws[0]) && ws[0].batch.None?
    requires steps[0].Sync? && steps[1].Deliver? && forall j :: 0 <= j < |steps| ==> !Disturbs(steps[j])
    requires 2 <= k < |ws|
    ensures Shaped(ws[k]) && Pledged(ws[k], id)
  {
    if k == 2 {
      SyncPledges(ws[0], steps[0].answer, ws[1], ws[2], id);
    } else {
      PledgeRun(ws, steps, k - 1, id);
      PledgeStep(ws[k - 1], steps[k - 1], ws[k], id);
      PlacesStep(ws[k - 1], steps[k - 1], ws[k], id);
    }
  }

  /** What a status report changes does not make an instance due or not. */
  lemma SameRequestsDue(rows: map<Id, Instance>, rows': map<Id, Instance>, tracked: Registry, id: Id)
    requires SameRequests(rows, rows')
    ensures DueFor(rows, tracked, id).None? <==> DueFor(rows', tracked, id).None?
  {
  }

  /** Convergence: start from any rows and any registry of an idle worker, let one Sync be delivered, and
      let nobody change what is wanted. Whenever the worker is idle again, however starts and probes ended
      and whatever further Syncs happened or were lost, the next Sync has nothing to say. */
  lemma Converges(ws: seq<World>, steps: seq<Step>, k: nat, rows': map<Id, Instance>, answer: seq<Command>)
    requires Run(ws, steps) && |steps| >= 2 && Shaped(ws[0]) && ws[0].batch.None?
    requires steps[0].Sync? && steps[1].Deliver? && forall j :: 0 <= j < |steps| ==> !Disturbs(steps[j])
    requires 2 <= k < |ws| && ws[k].batch.None?
    requires SameRequests(ws[k].rows, rows') && Answers(rows', ws[k].tracked, answer)
    ensures answer == []
  {
    if answer != [] {
      var id := answer[0].id;
      assert CommandFor(answer, id) == Some(answer[0]);
      SameRequestsDue(ws[k].rows, rows', ws[k].tracked, id);
      PledgeRun(ws, steps, k, id);
    }
  }

  /** How much work an undisturbed worker has queued. */
  function Backlog(w: World): nat { |Queue(w)| + |w.pending| }

  /** Work runs out: each applied command shortens the backlog, and finishing a batch never lengthens it. */
  lemma BacklogShrinks(w: World, step: Step, w': World)
    requires Shaped(w) && Next(w, step, w') && (step.ApplyNext? || step.FinishBatch?)
    ensures step.ApplyNext? ==> Backlog(w') == Backlog(w) - 1
    ensures step.FinishBatch? ==> Backlog(w') == Backlog(w) && (w'.batch.None? <==> Backlog(w) == 0)
  {
    SortPermutes(w.pending, BatchOrder(w.tracked));
  }

  lemma MockTouchesOne(tracked: Registry, c: Command, token: bool, id: Id)
    requires id != c.id
    ensures ReportFor(ApplyMock(tracked, c, token), id) == ReportFor(tracked, id)
  {
  }

  /** The mock engine settles in one round, with nothing in between. */
  lemma {:induction false} MockRoundResolves(rows: map<Id, Instance>, tracked: Registry, commands: seq<Command>,
                                            token: bool, id: Id)
    requires OnePerInstance(commands)
    requires forall c :: c in commands ==> Resolves(rows, c)
    ensures var after := ApplyAllMock(tracked, commands, token);
            if CommandFor(commands, id).Some? then DueFor(rows, after, id).None?
            else ReportFor(after, id) == ReportFor(tracked, id)
  {
    if commands != [] {
      var front, last := commands[..|commands| - 1], commands[|commands| - 1];
      var before := ApplyAllMock(tracked, front, token);
      assert commands == front + [last];
      MockRoundResolves(rows, tracked, front, token, id);
      CommandForMember(commands, id);
      CommandForMember(front, id);
      assert last in commands;
      if id == last.id {
        ApplyResolves(rows, before, last, token, Up);
      } else {
        MockTouchesOne(before, last, token, id);
        assert CommandFor(commands, id) == CommandFor(front, id);
      }
    }
  }

  lemma MockConverges(rows: map<Id, Instance>, tracked: Registry, answer: seq<Command>, token: bool, id: Id)
    requires forall i :: i in rows ==> rows[i].id == i
    requires Answers(rows, tracked, answer)
    ensures DueFor(rows, ApplyAllMock(tracked, answer, token), id).None?
  {
    forall c | c in answer ensures Resolves(rows, c) {
      CommandForMember(answer, c.id);
      DueResolves(rows, tracked, c.id);
    }
    MockRoundResolves(rows, tracked, answer, token, id);
  }
}

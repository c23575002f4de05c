/** The worker's half of the protocol (engines/manager.py): a registry of instances, one batch of commands
    being applied at a time, and commands received meanwhile coalesced per instance. */
module Manager {
  import opened Common
  import opened Sorting
  import Rendezvous
  import Sets
  import opened WorkersSvc

  /** What the manager knows about an instance. `rank` is only known from a successful start. */
  datatype Tracked = Tracked(state: InstanceState, generation: nat, port: int, rank: Option<nat>, detail: string)

  type Registry = map<Id, Tracked>

  /** How the Docker calls of a start end. */
  datatype Outcome = Up | Failed(detail: string)

  function StatusOf(id: Id, t: Tracked): Status {
    Status(id, t.state, t.generation, t.detail, t.port)
  }

  /** MultiNodeSpec.from_config: no rank for a single-node start. */
  function RankOf(topology: Option<Topology>): Option<nat> {
    if topology.None? || topology.value.mode in {"", "single"} then None else Some(topology.value.nodeRank)
  }

  function Started(tracked: Option<Tracked>, c: Command, token: bool, outcome: Outcome): Tracked
    requires c.Start?
  {
    if tracked.Some? && tracked.value.state in {Starting, Running} && tracked.value.generation >= c.generation then
      tracked.value
    else if c.needsToken && !token then
      Tracked(Error, c.generation, c.port, None, "model requires HF token")
    else
      match outcome
      case Up => Tracked(Starting, c.generation, c.port, RankOf(c.topology), "")
      case Failed(detail) => Tracked(Error, c.generation, c.port, None, detail)
  }

  function Find(registry: Registry, id: Id): Option<Tracked> {
    if id in registry then Some(registry[id]) else None
  }

  /** _start_sync, _stop_sync, _delete_sync. */
  function Apply(registry: Registry, c: Command, token: bool, outcome: Outcome): Registry {
    match c
    case Start(id, _, _, _, _) => registry[id := Started(Find(registry, id), c, token, outcome)]
    case Stop(id) => if id in registry then registry[id := registry[id].(state := Stopped, detail := "")] else registry
    case Delete(id) => registry - {id}
  }

  function ApplyMock(registry: Registry, c: Command, token: bool): Registry {
    match c
    case Start(id, generation, port, topology, needsToken) =>
      registry[id := if needsToken && !token
                     then Tracked(Error, generation, port, RankOf(topology), "model requires HF token")
                     else Tracked(Starting, generation, port, RankOf(topology), "")]
    case Stop(id) => if id in registry then registry[id := registry[id].(state := Stopped, detail := "")] else registry
    case Delete(id) => registry - {id}
  }

  /** A start in mock mode is tracked as starting, or in error without the token it needs; a stop and a delete
      act on what is tracked. */
  ghost predicate Mocked(before: Option<Tracked>, c: Command, token: bool, after: Option<Tracked>) {
    match c
    case Start(_, generation, port, topology, needsToken) =>
      && after.Some? && after.value.generation == generation && after.value.port == port
      && after.value.rank == KnownRank(topology)
      && (after.value.state, after.value.detail)
         == if needsToken && !token then (Error, "model requires HF token") else (Starting, "")
    case Stop(_) =>
      (after.Some? <==> before.Some?) && (after.Some? ==> after.value == before.value.(state := Stopped, detail := ""))
    case Delete(_) => after.None?
  }

  /** The rank of a start: none unless it names a parallel mode. */
  ghost function KnownRank(topology: Option<Topology>): Option<nat> {
    if topology.Some? && topology.value.mode != "" && topology.value.mode != "single" then Some(topology.value.nodeRank)
    else None
  }

  lemma {:induction false} MockApplies(registry: Registry, commands: seq<Command>, token: bool, id: Id)
    requires OnePerInstance(commands)
    ensures var before, after := Find(registry, id), Find(ApplyAllMock(registry, commands, token), id);
            match CommandFor(commands, id)
            case None => after == before
            case Some(c) => Mocked(before, c, token, after)
  {
    if commands != [] {
      var front, last := commands[..|commands| - 1], commands[|commands| - 1];
      MockApplies(registry, front, token, id);
      assert commands == front + [last];
      CommandForMember(commands, id);
      CommandForMember(front, id);
      assert last in commands && forall c :: c in commands <==> c in front || c == last;
      assert id == last.id ==> CommandFor(front, id).None?;
    }
  }

  function ApplyAllMock(registry: Registry, commands: seq<Command>, token: bool): Registry {
    if commands == [] then registry
    else ApplyMock(ApplyAllMock(registry, commands[..|commands| - 1], token), commands[|commands| - 1], token)
  }

  // ---- Batch order ----

  function TrackedRank(registry: Registry, id: Id): nat {
    if id in registry && registry[id].rank.Some? then registry[id].rank.value else 0
  }

  /** Starts before teardown; within each, higher tracked ranks first. */
  predicate Precedes(registry: Registry, a: Command, b: Command) {
    if a.Start? != b.Start? then a.Start?
    else TrackedRank(registry, a.id) >= TrackedRank(registry, b.id)
  }

  function BatchOrder(registry: Registry): (Command, Command) -> bool {
    (a, b) => Precedes(registry, a, b)
  }

  function Ordered(registry: Registry, commands: seq<Command>): seq<Command> {
    Sort(commands, BatchOrder(registry))
  }

  /** Every received command is applied once, all starts before any teardown, and a teardown never before
      one of a higher tracked rank: followers stop before their head. */
  lemma TeardownOrder(registry: Registry, commands: seq<Command>)
    ensures var batch := Ordered(registry, commands);
            && multiset(batch) == multiset(commands)
            && (forall i, j :: 0 <= i < |batch| && 0 <= j < |batch| && batch[i].Start? && !batch[j].Start? ==> i < j)
            && (forall i, j :: 0 <= i < j < |batch| && !batch[i].Start? ==>
                 !batch[j].Start? && TrackedRank(registry, batch[i].id) >= TrackedRank(registry, batch[j].id))
    ensures forall id :: TrackedRank(registry, id) ==
              match Find(registry, id)
              case None => 0
              case Some(t) => if t.rank == None then 0 else t.rank.value
  {
    var leq := BatchOrder(registry);
    SortPermutes(commands, leq);
    SortSorts(commands, leq);
    var batch := Ordered(registry, commands);
    forall i, j | 0 <= i < |batch| && 0 <= j < |batch| && batch[i].Start? && !batch[j].Start? ensures i < j {
      assert !leq(batch[j], batch[i]);
    }
    forall i, j | 0 <= i < j < |batch| && !batch[i].Start?
      ensures !batch[j].Start? && TrackedRank(registry, batch[i].id) >= TrackedRank(registry, batch[j].id) {
      assert leq(batch[i], batch[j]);
    }
  }

  function Starts(commands: seq<Command>): seq<Command> {
    Filter(commands, (c: Command) => c.Start?)
  }

  /** The comment in _apply_batch says starts keep the server's order. They do exactly when the ranks the
      registry already holds for them do not increase along that order. */
  lemma StartsKeepOrderIff(registry: Registry, commands: seq<Command>)
    ensures Starts(Ordered(registry, commands)) == Starts(commands)
            <==> forall i, j :: 0 <= i < j < |Starts(commands)| ==>
                   TrackedRank(registry, Starts(commands)[i].id) >= TrackedRank(registry, Starts(commands)[j].id)
  {
    var leq, starts := BatchOrder(registry), Starts(commands);
    SortStable(commands, leq, (c: Command) => c.Start?);
    SortKeepsOrder(starts, leq);
    FilterMembers(commands, (c: Command) => c.Start?);
    assert forall i :: 0 <= i < |starts| ==> starts[i] in starts;
    assert SortedBy(starts, leq) <==> forall i, j :: 0 <= i < j < |starts| ==> leq(starts[i], starts[j]);
  }

  /** An order of starts that is not kept: restarting two tracked ranks, the head first. */
  lemma StartsReordered() returns (registry: Registry, commands: seq<Command>)
    ensures forall c :: c in commands ==> c.Start? && c.topology.Some? && c.id in registry
                                          && registry[c.id].rank == RankOf(c.topology)
    ensures Ordered(registry, commands) != commands
  {
    var endpoint := Rendezvous.Decode("head:8110");
    var head, follower := Topology("pp", 1, 2, 2, 0, endpoint), Topology("pp", 1, 2, 2, 1, endpoint);
    registry := map[0 := Tracked(Running, 1, 8010, RankOf(Some(head)), ""),
                    1 := Tracked(Running, 1, 0, RankOf(Some(follower)), "")];
    commands := [Start(0, 2, 8010, Some(head), false), Start(1, 2, 0, Some(follower), false)];
    var leq := BatchOrder(registry);
    SortKeepsOrder(commands, leq);
    assert !leq(commands[0], commands[1]);
  }

  // ---- Coalescing ----

  /** The command for an instance, among commands that have at most one per instance. */
  function CommandFor(commands: seq<Command>, id: Id): Option<Command> {
    if commands == [] then None
    else if commands[0].id == id then Some(commands[0])
    else CommandFor(commands[1..], id)
  }

  /** One command per instance. */
  ghost predicate OnePerInstance(commands: seq<Command>) {
    forall i, j :: 0 <= i < j < |commands| ==> commands[i].id != commands[j].id
  }

  /** Assignment to the pending dictionary: an instance keeps its place, its command is replaced. */
  function Put(pending: seq<Command>, c: Command): seq<Command> {
    if pending == [] then [c]
    else if pending[0].id == c.id then [c] + pending[1..]
    else [pending[0]] + Put(pending[1..], c)
  }

  /** A command for an instance already pending takes its place; any other goes to the end. */
  lemma {:induction false} PutKeepsPlace(pending: seq<Command>, c: Command, i: nat)
    requires i < |pending|
    ensures CommandFor(pending, c.id).Some? ==>
              |Put(pending, c)| == |pending| && Put(pending, c)[i].id == pending[i].id
    ensures CommandFor(pending, c.id).None? ==> Put(pending, c) == pending + [c]
  {
    assert pending == [pending[0]] + pending[1..];
    if pending[0].id != c.id {
      if |pending| > 1 {
        PutKeepsPlace(pending[1..], c, if i > 0 then i - 1 else 0);
      } else {
        assert CommandFor(pending[1..], c.id).None? && Put(pending[1..], c) == [c];
      }
    }
  }

  function PutAll(pending: seq<Command>, commands: seq<Command>): seq<Command> {
    if commands == [] then pending
    else Put(PutAll(pending, commands[..|commands| - 1]), commands[|commands| - 1])
  }

  lemma {:induction false} PutFor(pending: seq<Command>, c: Command, id: Id)
    ensures CommandFor(Put(pending, c), id) == if id == c.id then Some(c) else CommandFor(pending, id)
  {
    if pending != [] && pending[0].id != c.id {
      PutFor(pending[1..], c, id);
    }
  }

  lemma {:induction false} CommandForMember(pending: seq<Command>, id: Id)
    requires OnePerInstance(pending)
    ensures CommandFor(pending, id).None? <==> forall c :: c in pending ==> c.id != id
    ensures forall c :: c in pending && c.id == id ==> CommandFor(pending, id) == Some(c)
    ensures CommandFor(pending, id).Some? ==> CommandFor(pending, id).value in pending && CommandFor(pending, id).value.id == id
  {
    if pending != [] {
      CommandForMember(pending[1..], id);
      assert pending == [pending[0]] + pending[1..];
    }
  }

  lemma {:induction false} PutOnePer(pending: seq<Command>, c: Command)
    requires OnePerInstance(pending)
    ensures OnePerInstance(Put(pending, c))
    ensures forall d :: d in Put(pending, c) ==> d == c || d in pending
  {
    if pending != [] && pending[0].id != c.id {
      PutOnePer(pending[1..], c);
      var rest := Put(pending[1..], c);
      forall j | 0 <= j < |rest| ensures rest[j].id != pending[0].id {
        assert rest[j] in rest;
        if rest[j] != c {
          var k :| 1 <= k < |pending| && pending[k] == rest[j];
        }
      }
    }
  }

  /** Only superseded commands are dropped: afterwards each instance has the last command received for it. */
  lemma {:induction false} PutAllKeepsLast(pending: seq<Command>, commands: seq<Command>)
    requires OnePerInstance(pending)
    ensures OnePerInstance(PutAll(pending, commands))
    ensures OnePerInstance(commands) ==>
      forall id :: CommandFor(PutAll(pending, commands), id)
                   == if CommandFor(commands, id).Some? then CommandFor(commands, id) else CommandFor(pending, id)
  {
    if commands != [] {
      var front, last := commands[..|commands| - 1], commands[|commands| - 1];
      PutAllKeepsLast(pending, front);
      PutOnePer(PutAll(pending, front), last);
      assert commands == front + [last];
      if OnePerInstance(commands) {
        forall id ensures CommandFor(PutAll(pending, commands), id)
                          == if CommandFor(commands, id).Some? then CommandFor(commands, id) else CommandFor(pending, id) {
          PutFor(PutAll(pending, front), last, id);
          CommandForMember(commands, id);
          CommandForMember(front, id);
          assert last in commands;
          assert forall c :: c in commands <==> c in front || c == last;
        }
      }
    }
  }

  // ---- The manager ----

  /** A registry, as a Sync request reports it. */
  ghost predicate Reports(statuses: seq<Status>, registry: Registry) {
    && DistinctReports(statuses)
    && (forall id :: ReportOf(statuses, id) ==
          if id in registry then
            Some(Status(id, registry[id].state, registry[id].generation, registry[id].detail, registry[id].port))
          else None)
    && (forall s :: s in statuses ==> s.id in registry)
  }

  class InstanceManager {
    const token: bool
    var instances: Registry
    /** What the running batch still has to apply; None when no batch runs. */
    var batch: Option<seq<Command>>
    var pending: seq<Command>

    constructor (token: bool)
      ensures this.token == token && instances == map[] && batch == None && pending == []
    {
      this.token := token;
      instances := map[];
      batch := None;
      pending := [];
    }

    /** Real mode: start a batch, or queue the commands behind the running one. */
    method Reconcile(commands: seq<Command>)
      modifies this
      ensures instances == old(instances)
      ensures old(batch).None? ==> batch == Some(Ordered(instances, commands)) && pending == old(pending)
      ensures old(batch).Some? ==> batch == old(batch) && pending == PutAll(old(pending), commands)
    {
      if batch.Some? {
        for n := 0 to |commands|
          invariant pending == PutAll(old(pending), commands[..n])
          invariant batch == old(batch) && instances == old(instances)
        {
          assert commands[..n + 1][..n] == commands[..n];
          pending := Put(pending, commands[n]);
        }
        assert commands[..|commands|] == commands;
      } else {
        batch := Some(Ordered(instances, commands));
      }
    }

    /** Mock mode: every command is applied at once. */
    method ReconcileMock(commands: seq<Command>)
      modifies this
      ensures instances == ApplyAllMock(old(instances), commands, token)
      ensures batch == old(batch) && pending == old(pending)
      ensures OnePerInstance(commands) ==> forall id ::
                match CommandFor(commands, id)
                case None => Find(instances, id) == Find(old(instances), id)
                case Some(c) => Mocked(Find(old(instances), id), c, token, Find(instances, id))
    {
      for n := 0 to |commands|
        invariant instances == ApplyAllMock(old(instances), commands[..n], token)
        invariant batch == old(batch) && pending == old(pending)
      {
        assert commands[..n + 1][..n] == commands[..n];
        instances := ApplyMock(instances, commands[n], token);
      }
      assert commands[..|commands|] == commands;
      if OnePerInstance(commands) {
        forall id ensures match CommandFor(commands, id)
                          case None => Find(instances, id) == Find(old(instances), id)
                          case Some(c) => Mocked(Find(old(instances), id), c, token, Find(instances, id)) {
          MockApplies(old(instances), commands, token, id);
        }
      }
    }

    /** One iteration of _apply_batch; the event loop may run other code before the next one. */
    method ApplyNext(outcome: Outcome)
      requires batch.Some? && batch.value != []
      modifies this
      ensures batch == Some(old(batch).value[1..]) && pending == old(pending)
      ensures instances == Apply(old(instances), old(batch).value[0], token, outcome)
      ensures forall id :: id != old(batch).value[0].id ==> Find(instances, id) == Find(old(instances), id)
      ensures var before, after := Find(old(instances), old(batch).value[0].id), Find(instances, old(batch).value[0].id);
              match old(batch).value[0]
              case Start(_, generation, port, topology, needsToken) =>
                after.Some?
                && if before.Some? && before.value.state in {Starting, Running} && before.value.generation >= generation
                   then after == before
                   else && after.value.generation == generation && after.value.port == port
                        && after.value.state == (if outcome.Up? && !(needsToken && !token) then Starting else Error)
                        && after.value.rank == (if after.value.state == Starting then KnownRank(topology) else None)
                        && after.value.detail == (if needsToken && !token then "model requires HF token"
                                                  else if outcome.Up? then "" else outcome.detail)
              case Stop(_) =>
                && (after.Some? <==> before.Some?)
                && (after.Some? ==> after.value == before.value.(state := Stopped, detail := ""))
              case Delete(_) => after.None?
    {
      var command := batch.value[0];
      instances := Apply(instances, command, token, outcome);
      batch := Some(batch.value[1..]);
    }

    /** The end of _apply_batch: the coalesced commands become the next batch. */
    method FinishBatch()
      requires batch == Some([])
      modifies this
      ensures instances == old(instances) && pending == []
      ensures batch == if old(pending) == [] then None else Some(Ordered(instances, old(pending)))
    {
      batch := None;
      if pending != [] {
        batch := Some(Ordered(instances, pending));
        pending := [];
      }
    }

    method Statuses() returns (statuses: seq<Status>)
      ensures Reports(statuses, instances)
    {
      statuses := [];
      var left: set<Id> := instances.Keys;
      while left != {}
        invariant left <= instances.Keys
        invariant Reports(statuses, instances - left)
        decreases left
      {
        var id := Sets.AnyOf(left);
        ghost var before := statuses;
        statuses := statuses + [StatusOf(id, instances[id])];
        ReportOfSnoc(before, StatusOf(id, instances[id]));
        left := left - {id};
      }
    }
  }

  lemma ReportOfSnoc(statuses: seq<Status>, s: Status)
    ensures forall id :: ReportOf(statuses + [s], id) == if id == s.id then Some(s) else ReportOf(statuses, id)
  {
    assert (statuses + [s])[..|statuses|] == statuses;
  }
}

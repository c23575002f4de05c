/** Runs from an empty table in which restart_instance takes back what somebody else has by now: a port, which
    the index refuses; a rendezvous port and GPU memory, which nothing refuses. */
module RestartRuns {
  import opened Common
  import opened Models
  import opened Scheduler
  import opened ParallelScheduler
  import opened ManualScheduler
  import opened PlacementRuns
  import opened Sorting
  import opened Vram
  import Rendezvous

  const POOLS := DEFAULT_POOLS
  const FIRST := Worker(1, 0, "a", "a", Some("http://a"), true, [Gpu(0, "nvidia", 100)])
  const SECOND := Worker(2, 0, "b", "b", None, true, [Gpu(0, "nvidia", 100)])
  const ASK := Request([FIRST, SECOND], 0, "vllm")
  const CAPACITIES: Capacities := map[GpuKey(1, 0) := 100, GpuKey(2, 0) := 100]

  function Single(deployment: Id, vram: int): Template {
    Template(deployment, vram, false, 1, None)
  }

  /** The row of a single instance on the first worker. */
  function Row(t: Template, id: Id, port: int): Instance {
    ReplicaRow(t, id, Placement(1, 0, port), 0)
  }

  function ManualDeploy(t: Template, port: int): Step {
    DeployManual(ASK, [0], t, Manual(1, [0], port), 0)
  }

  function Reported(r: Instance, state: InstanceState): Instance {
    r.(state := state)
  }

  // ---- Ports and loads of small tables ----

  predicate Holds(rows: seq<Instance>, worker: Id, port: int) {
    exists r :: r in rows && r.worker == Some(worker) && r.Reserved() && r.port == Some(port)
  }

  /** The lowest instance port that nobody active holds on the first worker. */
  ghost predicate NextPort(rows: seq<Instance>, port: int) {
    && POOLS.instances.lo <= port <= POOLS.instances.hi && !Holds(rows, 1, port)
    && forall p :: POOLS.instances.lo <= p < port ==> Holds(rows, 1, p)
  }

  ghost predicate RoomOn(rows: seq<Instance>, worker: Id, v: int) {
    Load(rows, GpuKey(worker, 0)) + v <= 100
  }

  /** No active row on the first worker carries a rendezvous. */
  ghost predicate NoRendezvous(rows: seq<Instance>) {
    !Holds(rows, 1, 8110) && forall r :: r in rows && r.worker == Some(1) && r.Reserved() ==> r.rendezvous.None?
  }

  lemma FreePortIff(rows: seq<Instance>, worker: Id, range: PortRange, port: int)
    requires range.lo <= port <= range.hi && port != 0
    ensures port in FreePorts(ReservedOn(rows, worker), range) <==> !Holds(rows, worker, port)
  {
    forall r: Instance ensures r in ReservedOn(rows, worker) <==> r in rows && r.worker == Some(worker) && r.Reserved() {
      ReservedMember(rows, worker, r);
    }
  }

  lemma LoadSnoc(rows: seq<Instance>, r: Instance, k: GpuKey)
    ensures Load(rows + [r], k) == Load(rows, k) + ClaimOn(r, k)
  {
    assert (rows + [r])[..|rows|] == rows;
  }

  lemma ClaimOfRow(t: Template, id: Id, port: int)
    ensures ClaimOn(Row(t, id, port), GpuKey(1, 0)) == t.vram
  {
    assert [0][..0] == [] && Claim([0][..0], t.vram, 0) == 0;
  }

  /** A deploy on the first worker, by name. */
  lemma ManualStep(rows: seq<Instance>, t: Template, id: Id, port: int)
    requires IdsBelow(rows, id) && t.vram > 0 && RoomOn(rows, 1, t.vram) && NextPort(rows, port)
    ensures Next(POOLS, rows, ManualDeploy(t, port), rows + [Row(t, id, port)])
  {
    LoadIsUsage(rows, GpuKey(1, 0));
    assert Suits(FIRST, rows, Vendors("vllm"), t.vram, 0) by {
      assert Gpu(0, "nvidia", 100) in FIRST.gpus;
    }
    assert FIRST in ASK.workers && Accepts(FIRST, rows, 0, Vendors("vllm"), t.vram, [0]);
    assert [0][..0] == [];
    assert Ascending([0]) == [0];
    FreePortIff(rows, 1, POOLS.instances, port);
    forall p | p in FreePorts(ReservedOn(rows, 1), POOLS.instances) ensures port <= p {
      FreePortIff(rows, 1, POOLS.instances, p);
    }
    var added := [Row(t, id, port)];
    assert (rows + added)[|rows|..] == added;
  }

  /** A change the index lets commit. */
  ghost predicate Commits(rows: seq<Instance>, i: nat, after: Instance) {
    && i < |rows| && SamePlace(rows[i], after) && PortsApart(rows)
    && (after.Reserved() ==> PortStillFree(rows, i))
  }

  lemma ChangeStep(rows: seq<Instance>, i: nat, after: Instance)
    requires Commits(rows, i, after)
    ensures Next(POOLS, rows, Change(i, after), rows[i := after])
  {
    ChangeKeepsPortsIff(rows, i, after);
  }

  /** Nobody else reserves a port on its worker. */
  lemma CommitsAlone(rows: seq<Instance>, i: nat, after: Instance)
    requires i < |rows| && SamePlace(rows[i], after) && PortsApart(rows)
    requires forall j :: 0 <= j < |rows| && j != i ==> rows[j].worker != rows[i].worker
    ensures Commits(rows, i, after)
  {
  }

  // ---- Runs, step by step ----

  datatype History = History(tables: seq<seq<Instance>>, steps: seq<Step>) {
    ghost predicate Valid() {
      && Run(POOLS, tables, steps)
      && forall j :: 0 <= j < |steps| ==> SeesGpus(CAPACITIES, steps[j])
    }

    function Last(): seq<Instance>
      requires tables != []
    {
      tables[|tables| - 1]
    }
  }

  const START := History([[]], [])

  lemma Then(h: History, step: Step, rows: seq<Instance>) returns (h': History)
    requires h.Valid() && Next(POOLS, h.Last(), step, rows) && SeesGpus(CAPACITIES, step)
    ensures h'.Valid() && h'.Last() == rows && h'.steps == h.steps + [step] && h'.tables == h.tables + [rows]
  {
    h' := History(h.tables + [rows], h.steps + [step]);
  }

  lemma ThenDeploy(h: History, rows: seq<Instance>, t: Template, id: Id, port: int) returns (h': History)
    requires h.Valid() && h.Last() == rows
    requires IdsBelow(rows, id) && t.vram > 0 && RoomOn(rows, 1, t.vram) && NextPort(rows, port)
    ensures h'.Valid() && h'.Last() == rows + [Row(t, id, port)]
  {
    ManualStep(rows, t, id, port);
    h' := Then(h, ManualDeploy(t, port), rows + [Row(t, id, port)]);
  }

  lemma ThenChange(h: History, rows: seq<Instance>, i: nat, after: Instance) returns (h': History)
    requires h.Valid() && h.Last() == rows && Commits(rows, i, after)
    ensures h'.Valid() && h'.Last() == rows[i := after]
    ensures h'.steps == h.steps + [Change(i, after)] && h'.tables == h.tables + [rows[i := after]]
  {
    ChangeStep(rows, i, after);
    h' := Then(h, Change(i, after), rows[i := after]);
  }

  /** Stopped by its user, then reported stopped, with at most one other row, on another worker. */
  lemma ThenStopped(h: History, r: Instance, others: seq<Instance>) returns (h': History)
    requires h.Valid() && h.Last() == [r] + others && r.state == Scheduled && r.worker == Some(1)
    requires |others| <= 1 && forall o :: o in others ==> o.worker == Some(2)
    ensures h'.Valid() && h'.Last() == [Reported(r.Halted(), Stopped)] + others
  {
    var rows := [r] + others;
    CommitsAlone(rows, 0, r.Halted());
    h' := ThenChange(h, rows, 0, r.Halted());
    var halted := [r.Halted()] + others;
    assert rows[0 := r.Halted()] == halted;
    CommitsAlone(halted, 0, Reported(r.Halted(), Stopped));
    h' := ThenChange(h', halted, 0, Reported(r.Halted(), Stopped));
    assert halted[0 := Reported(r.Halted(), Stopped)] == [Reported(r.Halted(), Stopped)] + others;
  }

  /** Deployed, stopped, and reported stopped. */
  lemma DeployedAndStopped(t: Template) returns (h: History, stopped: Instance)
    requires 0 < t.vram <= 100
    ensures stopped == Reported(Row(t, 1, 8010).Halted(), Stopped)
    ensures h.Valid() && h.Last() == [stopped] && Load([stopped], GpuKey(1, 0)) == 0
  {
    var first := Row(t, 1, 8010);
    stopped := Reported(first.Halted(), Stopped);
    h := ThenDeploy(START, [], t, 1, 8010);
    assert [] + [first] == [first] + [];
    h := ThenStopped(h, first, []);
    assert [stopped] + [] == [] + [stopped] == [stopped];
    LoadSnoc([], stopped, GpuKey(1, 0));
  }

  // ---- The port ----

  /** Deploy, stop, deploy again: the second instance gets the first one's port, and only the index keeps a
      restart of the first from sharing it. */
  lemma RestartTakesPort() returns (h: History)
    ensures h.Valid() && h.Last() != [] && !PortsApart(h.Last()[0 := h.Last()[0].Restarted()])
  {
    var stopped;
    h, stopped := DeployedAndStopped(Single(7, 10));
    h := ThenDeploy(h, [stopped], Single(8, 10), 2, 8010);
    var revived := h.Last()[0 := stopped.Restarted()];
    assert PortClash(revived[0], revived[1]);
  }

  // ---- GPU memory ----

  /** The first instance is stopped and two others share its GPU, on the next ports; then the one that took
      its port goes. */
  lemma PortFreedMemoryTaken() returns (h: History, stopped: Instance)
    ensures stopped == Reported(Row(Single(7, 100), 1, 8010).Halted(), Stopped)
    ensures h.Valid() && h.Last() == [stopped, Row(Single(9, 90), 3, 8011)]
  {
    var k := GpuKey(1, 0);
    var small, rest := Row(Single(8, 10), 2, 8010), Row(Single(9, 90), 3, 8011);
    h, stopped := DeployedAndStopped(Single(7, 100));
    h := ThenDeploy(h, [stopped], Single(8, 10), 2, 8010);
    ClaimOfRow(Single(8, 10), 2, 8010);
    LoadSnoc([stopped], small, k);
    var shared, rows := [stopped] + [small], [stopped, rest];
    assert Holds(shared, 1, 8010) by {
      assert small in shared;
    }
    h := ThenDeploy(h, shared, Single(9, 90), 3, 8011);
    assert h.Last()[..1] + h.Last()[2..] == rows;
    h := Then(h, Delete(1), rows);
  }

  lemma BothLoads(starting: Instance, rest: Instance)
    requires starting == Reported(Row(Single(7, 100), 1, 8010).Halted().Restarted(), Starting)
    requires rest == Row(Single(9, 90), 3, 8011)
    ensures Load([starting, rest], GpuKey(1, 0)) == 190
  {
    var k := GpuKey(1, 0);
    ClaimOfRow(Single(7, 100), 1, 8010);
    ClaimOfRow(Single(9, 90), 3, 8011);
    LoadSnoc([], starting, k);
    LoadSnoc([starting], rest, k);
    assert [] + [starting] == [starting] && [starting] + [rest] == [starting, rest];
  }

  /** The port of a stopped instance is free again, its memory is not: once the restarted instance reports
      that it is starting, its GPU is overcommitted. */
  lemma RestartOverfills() returns (h: History)
    ensures h.Valid() && Load(h.Last(), GpuKey(1, 0)) == 190 > CAPACITIES[GpuKey(1, 0)]
    ensures !WithinVram(CAPACITIES, h.Last())
  {
    var stopped;
    h, stopped := PortFreedMemoryTaken();
    var rest, wanted := Row(Single(9, 90), 3, 8011), stopped.Restarted();
    var starting := Reported(wanted, Starting);
    h := ThenChange(h, [stopped, rest], 0, wanted);
    assert [stopped, rest][0 := wanted] == [wanted, rest];
    h := ThenChange(h, [wanted, rest], 0, starting);
    assert [wanted, rest][0 := starting] == [starting, rest];
    BothLoads(starting, rest);
  }

  // ---- The rendezvous port ----

  /** What the group allocator grants on the two workers: only the first can be dialled. */
  function Ranks(port: int): seq<Rank> {
    [Rank(1, 0, 0, Some(port), Some(8110)), Rank(2, 0, 1, None, None)]
  }

  function Pair(deployment: Id): Template {
    Template(deployment, 10, false, 2, Some("tp"))
  }

  function PairRows(t: Template, group: Id, port: int): seq<Instance> {
    NewRankRows(t, group, Ranks(port), Rendezvous.Encode("a", 8110), 0)
  }

  function PairDeploy(t: Template, port: int): Step {
    DeployGroup(ASK, {}, t, Ranks(port), "a", 0)
  }

  function HostLeft(w: Worker, rows: seq<Instance>): Host {
    Host(w.id, w.name, Addressed(w), 0, 100 - Load(rows, GpuKey(w.id, 0)))
  }

  lemma AllEligible(workers: seq<Worker>, cluster: Id, exclude: set<Id>)
    requires forall w :: w in workers ==> w.cluster == cluster && w.connected && w.id !in exclude
    ensures Eligible(workers, cluster, exclude) == Sort(workers, ByName)
  {
    FilterAll(workers, (w: Worker) => w.cluster == cluster && w.connected);
    SortPermutes(workers, ByName);
    FilterAll(Sort(workers, ByName), (w: Worker) => w.id !in exclude);
  }

  lemma BothEligible()
    ensures Eligible(ASK.workers, 0, {}) == [FIRST, SECOND]
  {
    AllEligible(ASK.workers, 0, {});
    assert NameLeq("a", "b");
    assert [FIRST, SECOND][1..] == [SECOND];
    assert Sort([SECOND], ByName) == [SECOND];
  }

  lemma BothFit(rows: seq<Instance>, v: int)
    requires RoomOn(rows, 1, v) && RoomOn(rows, 2, v)
    ensures Fitting([FIRST, SECOND], rows, Vendors("vllm"), v) == [HostLeft(FIRST, rows), HostLeft(SECOND, rows)]
  {
    var vendors := Vendors("vllm");
    forall w | w in {FIRST, SECOND} ensures HostOf(w, rows, vendors, v) == Some(HostLeft(w, rows)) {
      LoadIsUsage(rows, GpuKey(w.id, 0));
      LargestIsLargest(w.gpus, LiveOn(rows, w.id), vendors, v, 1);
    }
    assert [FIRST, SECOND][..1] == [FIRST] && [FIRST][..0] == [];
    assert Fitting([FIRST], rows, vendors, v) == [HostLeft(FIRST, rows)];
  }

  lemma BothChosen(a: Host, b: Host)
    requires a.addressed && !b.addressed && a.worker != b.worker
    ensures DistinctHosts([a, b]) && Heads([a, b]) != [] && Chosen([a, b], 2) == [a, b]
  {
    FilterMembers([a, b], (h: Host) => h.addressed);
    assert a in Heads([a, b]);
    HeadIsBest([a, b]);
    OthersAreRest([a, b], a);
    var others := Others([a, b], a);
    assert others[0] in others;
  }

  lemma PairPlanned(rows: seq<Instance>, v: int, port: int)
    requires v > 0 && RoomOn(rows, 1, v) && RoomOn(rows, 2, v) && NextPort(rows, port) && NoRendezvous(rows)
    ensures GroupPlanned(ASK, {}, v, 2, rows, POOLS, Ranks(port))
  {
    var a, b := HostLeft(FIRST, rows), HostLeft(SECOND, rows);
    BothEligible();
    BothFit(rows, v);
    BothChosen(a, b);
    HeadPorts(rows, port);
    assert Placed(rows, [a, b], POOLS.instances, POOLS.rendezvous, Ranks(port));
  }

  lemma HeadPorts(rows: seq<Instance>, port: int)
    requires NextPort(rows, port) && NoRendezvous(rows)
    ensures var reserved := ReservedOn(rows, 1);
            && port in FreePorts(reserved, POOLS.instances)
            && (forall p :: p in FreePorts(reserved, POOLS.instances) ==> port <= p)
            && 8110 in FreePorts(reserved, POOLS.rendezvous) && RendezvousPorts(reserved) == {}
  {
    var reserved := ReservedOn(rows, 1);
    FreePortIff(rows, 1, POOLS.instances, port);
    FreePortIff(rows, 1, POOLS.rendezvous, 8110);
    forall p | p in FreePorts(reserved, POOLS.instances) ensures port <= p {
      FreePortIff(rows, 1, POOLS.instances, p);
    }
    forall r | r in reserved ensures r.rendezvous.None? {
      ReservedMember(rows, 1, r);
    }
  }

  /** A group on both workers. */
  lemma PairStep(rows: seq<Instance>, t: Template, group: Id, port: int)
    requires IdsBelow(rows, group) && t.nodes == 2 && t.vram > 0
    requires forall r :: r in rows ==> r.deployment != t.deployment
    requires GroupPlanned(ASK, {}, t.vram, 2, rows, POOLS, Ranks(port))
    ensures Next(POOLS, rows, PairDeploy(t, port), rows + PairRows(t, group, port))
  {
    RankRowsNew(t, rows, group, Ranks(port), "a", 0);
    var added := PairRows(t, group, port);
    assert (rows + added)[|rows|..] == added;
  }

  lemma ThenPair(h: History, rows: seq<Instance>, t: Template, group: Id, port: int) returns (h': History)
    requires h.Valid() && h.Last() == rows
    requires IdsBelow(rows, group) && t.nodes == 2 && t.vram > 0 && forall r :: r in rows ==> r.deployment != t.deployment
    requires RoomOn(rows, 1, t.vram) && RoomOn(rows, 2, t.vram) && NextPort(rows, port) && NoRendezvous(rows)
    ensures h'.Valid() && h'.Last() == rows + PairRows(t, group, port)
  {
    PairPlanned(rows, t.vram, port);
    PairStep(rows, t, group, port);
    h' := Then(h, PairDeploy(t, port), rows + PairRows(t, group, port));
  }

  lemma PairRowsAre(t: Template, group: Id, port: int)
    requires t.nodes == 2
    ensures var added, text := PairRows(t, group, port), Some(Rendezvous.Encode("a", 8110));
            && added == [added[0], added[1]]
            && added[0] == RankRow(t, group + 1, group, Ranks(port)[0], text.value, 0)
            && added[1] == RankRow(t, group + 2, group, Ranks(port)[1], text.value, 0)
            && added[0].worker == Some(1) && added[0].port == Some(port) && added[1].worker == Some(2) && added[1].port.None?
            && ClaimOn(added[1], GpuKey(1, 0)) == 0 && ClaimOn(added[1], GpuKey(2, 0)) == t.vram
  {
    assert [0][..0] == [] && Claim([0][..0], t.vram, 0) == 0;
  }

  /** The loads while the head is stopped, and once a single instance is there too. */
  lemma PairLoads(stopped: Instance, follower: Instance)
    requires !stopped.state.Live() && follower == PairRows(Pair(7), 1, 8010)[1]
    ensures var rows := [stopped, follower];
            && RoomOn(rows, 1, 100) && RoomOn(rows, 2, 90)
            && var more := rows + [Row(Single(8, 10), 4, 8010)]; RoomOn(more, 1, 90) && RoomOn(more, 2, 90)
  {
    PairRowsAre(Pair(7), 1, 8010);
    ClaimOfRow(Single(8, 10), 4, 8010);
    forall k | k in {GpuKey(1, 0), GpuKey(2, 0)} ensures Load([stopped, follower], k) == ClaimOn(follower, k) {
      LoadSnoc([], stopped, k);
      LoadSnoc([] + [stopped], follower, k);
      assert [] + [stopped] + [follower] == [stopped, follower];
    }
    LoadSnoc([stopped, follower], Row(Single(8, 10), 4, 8010), GpuKey(1, 0));
    LoadSnoc([stopped, follower], Row(Single(8, 10), 4, 8010), GpuKey(2, 0));
  }

  /** A group is deployed, its head stopped and reported stopped. */
  lemma GroupHeadStopped() returns (h: History, stopped: Instance, follower: Instance)
    ensures stopped == Reported(PairRows(Pair(7), 1, 8010)[0].Halted(), Stopped)
    ensures follower == PairRows(Pair(7), 1, 8010)[1]
    ensures h.Valid() && h.Last() == [stopped, follower]
  {
    var group := PairRows(Pair(7), 1, 8010);
    PairRowsAre(Pair(7), 1, 8010);
    stopped, follower := Reported(group[0].Halted(), Stopped), group[1];
    h := ThenPair(START, [], Pair(7), 1, 8010);
    assert [] + group == [group[0]] + [follower];
    h := ThenStopped(h, group[0], [follower]);
  }

  /** With a single instance on the head's port the next group gets the next port, and 8110 once more. */
  lemma PortsOfThree(stopped: Instance, follower: Instance)
    requires stopped == Reported(PairRows(Pair(7), 1, 8010)[0].Halted(), Stopped)
    requires follower == PairRows(Pair(7), 1, 8010)[1]
    ensures NextPort([stopped, follower], 8010) && IdsBelow([stopped, follower], 4)
    ensures var rows := [stopped, follower] + [Row(Single(8, 10), 4, 8010)];
            && NextPort(rows, 8011) && NoRendezvous(rows) && IdsBelow(rows, 5)
            && forall r :: r in rows ==> r.deployment != 9
  {
    PairRowsAre(Pair(7), 1, 8010);
    var single := Row(Single(8, 10), 4, 8010);
    assert single in [stopped, follower] + [single];
  }

  /** A single instance takes the head's port; another group is deployed; then the single instance goes. */
  lemma HeadStoppedRendezvousTaken() returns (h: History, stopped: Instance, follower: Instance)
    ensures stopped == Reported(PairRows(Pair(7), 1, 8010)[0].Halted(), Stopped)
    ensures follower == PairRows(Pair(7), 1, 8010)[1]
    ensures h.Valid() && h.Last() == [stopped, follower] + PairRows(Pair(9), 5, 8011)
  {
    var single, other := Row(Single(8, 10), 4, 8010), PairRows(Pair(9), 5, 8011);
    h, stopped, follower := GroupHeadStopped();
    PairRowsAre(Pair(7), 1, 8010);
    PairLoads(stopped, follower);
    PortsOfThree(stopped, follower);
    h := ThenDeploy(h, [stopped, follower], Single(8, 10), 4, 8010);
    var rows := [stopped, follower] + [single];
    h := ThenPair(h, rows, Pair(9), 5, 8011);
    var left := [stopped, follower] + other;
    assert (rows + other)[..2] + (rows + other)[3..] == left;
    h := Then(h, Delete(2), left);
  }

  /** Restarting the stopped head commits, as its port is free, and two active heads of one host share a
      rendezvous port. */
  lemma RestartTakesRendezvous() returns (before: History, h: History)
    ensures before.Valid() && |before.Last()| == 4 && PortStillFree(before.Last(), 0)
    ensures h.Valid() && h.steps == before.steps + [Change(0, before.Last()[0].Restarted())]
    ensures |h.Last()| == 4 && RendezvousClash(h.Last()[0], h.Last()[2]) && !WellPlaced(POOLS, h.Last())
  {
    var stopped, follower;
    before, stopped, follower := HeadStoppedRendezvousTaken();
    var rows := [stopped, follower] + PairRows(Pair(9), 5, 8011);
    HeadRevived(rows, stopped, follower);
    h := ThenChange(before, rows, 0, stopped.Restarted());
  }

  lemma HeadRevived(rows: seq<Instance>, stopped: Instance, follower: Instance)
    requires stopped == Reported(PairRows(Pair(7), 1, 8010)[0].Halted(), Stopped)
    requires follower == PairRows(Pair(7), 1, 8010)[1] && rows == [stopped, follower] + PairRows(Pair(9), 5, 8011)
    ensures |rows| == 4 && rows[0] == stopped && Commits(rows, 0, stopped.Restarted()) && PortStillFree(rows, 0)
    ensures var after := rows[0 := stopped.Restarted()];
            RendezvousClash(after[0], after[2]) && !WellPlaced(POOLS, after)
  {
    PairRowsAre(Pair(7), 1, 8010);
    PairRowsAre(Pair(9), 5, 8011);
    var after := rows[0 := stopped.Restarted()];
    assert RendezvousClash(after[0], after[2]) && !Apart(after[0], after[2]);
  }
}

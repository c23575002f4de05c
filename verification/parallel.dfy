/** Group placement (services/scheduler.py): one rank per host, the head on a host every rank can dial. */
module ParallelScheduler {
  import opened Common
  import opened Models
  import opened Sorting
  import opened Scheduler
  import Rendezvous
  import Sets

  /** A host that can take a rank: its largest fitting GPU and whether ranks can dial it. */
  datatype Host = Host(worker: Id, name: string, addressed: bool, gpuIndex: int, free: int)

  datatype Rank = Rank(worker: Id, gpuIndex: int, nodeRank: nat, port: Option<int>, rendezvousPort: Option<int>)

  /** Most free VRAM first, then by name. */
  predicate Ahead(a: Host, b: Host) {
    a.free > b.free || (a.free == b.free && NameLeq(a.name, b.name))
  }

  lemma AheadIsOrder()
    ensures TotalPreorder(Ahead)
  {
    forall a: Host, b: Host ensures Ahead(a, b) || Ahead(b, a) {
      NameLeqTotal(a.name, b.name);
    }
    forall a: Host, b: Host, c: Host | Ahead(a, b) && Ahead(b, c) ensures Ahead(a, c) {
      if a.free == b.free == c.free {
        NameLeqTransitive(a.name, b.name, c.name);
      }
    }
  }

  // ---- Which hosts fit ----

  /** Index of the largest fitting GPU of a supported vendor among the first n, first on ties. */
  function LargestIn(gpus: seq<Gpu>, live: seq<Instance>, vendors: set<string>, v: int, n: nat): (best: Option<nat>)
    requires n <= |gpus|
    ensures best.Some? ==> best.value < n
  {
    if n == 0 then None
    else
      var best := LargestIn(gpus, live, vendors, v, n - 1);
      var free := FreeOn(gpus[n - 1], live);
      if gpus[n - 1].vendor in vendors && free >= v && (best.None? || free > FreeOn(gpus[best.value], live))
      then Some(n - 1) else best
  }

  function FreeOn(gpu: Gpu, live: seq<Instance>): int {
    gpu.vram - UsageOf(live, gpu.index)
  }

  lemma {:induction false} LargestIsLargest(gpus: seq<Gpu>, live: seq<Instance>, vendors: set<string>, v: int, n: nat)
    requires n <= |gpus|
    ensures match LargestIn(gpus, live, vendors, v, n)
            case None => forall i :: 0 <= i < n && gpus[i].vendor in vendors ==> FreeOn(gpus[i], live) < v
            case Some(b) =>
              && gpus[b].vendor in vendors && FreeOn(gpus[b], live) >= v
              && (forall i :: 0 <= i < n && gpus[i].vendor in vendors ==> FreeOn(gpus[i], live) <= FreeOn(gpus[b], live))
              && (forall i :: 0 <= i < b && gpus[i].vendor in vendors ==> FreeOn(gpus[i], live) < FreeOn(gpus[b], live))
  {
    if n > 0 {
      LargestIsLargest(gpus, live, vendors, v, n - 1);
    }
  }

  predicate Addressed(w: Worker) {
    w.address.Some? && w.address.value != []
  }

  function HostOf(w: Worker, rows: seq<Instance>, vendors: set<string>, v: int): Option<Host> {
    var live := LiveOn(rows, w.id);
    match LargestIn(w.gpus, live, vendors, v, |w.gpus|)
    case None => None
    case Some(g) => Some(Host(w.id, w.name, Addressed(w), w.gpus[g].index, FreeOn(w.gpus[g], live)))
  }

  /** The fitting hosts, in scan order. */
  function Fitting(workers: seq<Worker>, rows: seq<Instance>, vendors: set<string>, v: int): seq<Host> {
    if workers == [] then []
    else
      var front, host := Fitting(workers[..|workers| - 1], rows, vendors, v),
                         HostOf(workers[|workers| - 1], rows, vendors, v);
      if host.Some? then front + [host.value] else front
  }

  /** One host per worker. */
  ghost predicate DistinctHosts(hosts: seq<Host>) {
    PairwiseApart(hosts, (a: Host, b: Host) => a.worker != b.worker)
  }

  lemma {:induction false} FittingDistinct(workers: seq<Worker>, rows: seq<Instance>, vendors: set<string>, v: int)
    requires ValidWorkers(workers)
    ensures var hosts := Fitting(workers, rows, vendors, v);
            DistinctHosts(hosts) && forall h :: h in hosts ==> exists w :: w in workers && w.id == h.worker
  {
    if workers != [] {
      var front, last := workers[..|workers| - 1], workers[|workers| - 1];
      FittingDistinct(front, rows, vendors, v);
      assert workers == front + [last];
      var hosts := Fitting(front, rows, vendors, v);
      forall i | 0 <= i < |hosts| ensures hosts[i].worker != last.id {
        assert hosts[i] in hosts;
        var w :| w in front && w.id == hosts[i].worker;
      }
    }
  }

  // ---- The fitting hosts, in columns ----

  /** A GPU that could take a rank. */
  datatype Offer = Offer(host: Worker, gpu: Gpu) {
    predicate CanLead() {
      host.address.Some? && host.address.value != ""
    }
  }

  /** It is usable, has room, and its host is not excluded. */
  ghost predicate Offered(db: Database, cluster: Id, engine: string, exclude: set<Id>, v: int, o: Offer) {
    && Usable(db.workers, cluster, engine, o.host, o.gpu) && o.host.id !in exclude
    && Room(db.rows, o.host, o.gpu) >= v
  }

  /** The usable GPU of a worker with the most room, the first on ties. */
  ghost predicate Roomiest(db: Database, cluster: Id, engine: string, w: Worker, n: nat) {
    && n < |w.gpus| && Usable(db.workers, cluster, engine, w, w.gpus[n])
    && forall m :: 0 <= m < |w.gpus| && Usable(db.workers, cluster, engine, w, w.gpus[m]) ==>
         && Room(db.rows, w, w.gpus[m]) <= Room(db.rows, w, w.gpus[n])
         && (m < n ==> Room(db.rows, w, w.gpus[m]) < Room(db.rows, w, w.gpus[n]))
  }

  ghost predicate HostShows(db: Database, w: Worker, n: nat, h: Host) {
    && n < |w.gpus| && h.worker == w.id && h.name == w.name && h.gpuIndex == w.gpus[n].index
    && h.free == Room(db.rows, w, w.gpus[n]) && (h.addressed <==> w.address.Some? && w.address.value != "")
  }

  lemma HostOfIs(db: Database, cluster: Id, engine: string, v: int, w: Worker)
    requires w in db.workers && w.cluster == cluster && w.connected
    ensures match HostOf(w, db.rows, Vendors(engine), v)
            case None => forall g :: Usable(db.workers, cluster, engine, w, g) ==> Room(db.rows, w, g) < v
            case Some(h) => h.free >= v && exists n :: Roomiest(db, cluster, engine, w, n) && HostShows(db, w, n, h)
  {
    var live, vendors := LiveOn(db.rows, w.id), Vendors(engine);
    LargestIsLargest(w.gpus, live, vendors, v, |w.gpus|);
    forall g | g in w.gpus ensures FreeOn(g, live) == Room(db.rows, w, g) {
      LoadIsUsage(db.rows, GpuKey(w.id, g.index));
    }
    var best := LargestIn(w.gpus, live, vendors, v, |w.gpus|);
    if best.Some? {
      assert Roomiest(db, cluster, engine, w, best.value);
    }
  }

  lemma {:induction false} FittingFrom(workers: seq<Worker>, rows: seq<Instance>, vendors: set<string>, v: int, h: Host)
    ensures h in Fitting(workers, rows, vendors, v) <==> exists w :: w in workers && HostOf(w, rows, vendors, v) == Some(h)
  {
    if workers != [] {
      var front := workers[..|workers| - 1];
      FittingFrom(front, rows, vendors, v, h);
      assert workers == front + [workers[|workers| - 1]];
    }
  }

  lemma EligibleAre(workers: seq<Worker>, cluster: Id, exclude: set<Id>)
    ensures forall w :: w in Eligible(workers, cluster, exclude) <==>
              w in workers && w.cluster == cluster && w.connected && w.id !in exclude
  {
    ConnectedAre(workers, cluster);
    FilterMembers(Connected(workers, cluster), (w: Worker) => w.id !in exclude);
  }

  /** The fitting hosts are exactly the workers with an offered GPU, each with its roomiest one. */
  lemma FittingAre(db: Database, cluster: Id, engine: string, exclude: set<Id>, v: int, h: Host)
    ensures h in Fitting(Eligible(db.workers, cluster, exclude), db.rows, Vendors(engine), v) <==>
              exists w: Worker, n: nat :: w.id !in exclude && Roomiest(db, cluster, engine, w, n) && HostShows(db, w, n, h) && h.free >= v
  {
    EligibleAre(db.workers, cluster, exclude);
    FittingFrom(Eligible(db.workers, cluster, exclude), db.rows, Vendors(engine), v, h);
    forall w | w in db.workers && w.cluster == cluster && w.connected
      ensures HostOf(w, db.rows, Vendors(engine), v) == Some(h) <==>
                h.free >= v && exists n :: Roomiest(db, cluster, engine, w, n) && HostShows(db, w, n, h) {
      HostOfIs(db, cluster, engine, v, w);
    }
  }

  lemma HostOffers(db: Database, cluster: Id, engine: string, exclude: set<Id>, v: int, h: Host) returns (o: Offer)
    requires h in Fitting(Eligible(db.workers, cluster, exclude), db.rows, Vendors(engine), v)
    ensures Offered(db, cluster, engine, exclude, v, o) && (h.addressed <==> o.CanLead())
    ensures h.worker == o.host.id && h.name == o.host.name && h.gpuIndex == o.gpu.index && h.free == Room(db.rows, o.host, o.gpu)
    ensures forall g :: Usable(db.workers, cluster, engine, o.host, g) ==> Room(db.rows, o.host, g) <= h.free
  {
    FittingAre(db, cluster, engine, exclude, v, h);
    var w: Worker, n: nat :| w.id !in exclude && Roomiest(db, cluster, engine, w, n) && HostShows(db, w, n, h) && h.free >= v;
    o := Offer(w, w.gpus[n]);
    forall g | Usable(db.workers, cluster, engine, w, g) ensures Room(db.rows, w, g) <= h.free {
      var m :| 0 <= m < |w.gpus| && w.gpus[m] == g;
    }
  }

  lemma OfferHosted(db: Database, cluster: Id, engine: string, exclude: set<Id>, v: int, o: Offer) returns (h: Host)
    requires Offered(db, cluster, engine, exclude, v, o)
    ensures h in Fitting(Eligible(db.workers, cluster, exclude), db.rows, Vendors(engine), v)
    ensures h.worker == o.host.id && h.name == o.host.name && h.free >= Room(db.rows, o.host, o.gpu)
    ensures h.addressed <==> o.CanLead()
  {
    HostOfIs(db, cluster, engine, v, o.host);
    h := HostOf(o.host, db.rows, Vendors(engine), v).value;
    EligibleAre(db.workers, cluster, exclude);
    FittingFrom(Eligible(db.workers, cluster, exclude), db.rows, Vendors(engine), v, h);
    var n :| Roomiest(db, cluster, engine, o.host, n) && HostShows(db, o.host, n, h);
    var m :| 0 <= m < |o.host.gpus| && o.host.gpus[m] == o.gpu;
  }

  // ---- Which hosts are chosen ----

  function Heads(fitting: seq<Host>): seq<Host> {
    Filter(fitting, (h: Host) => h.addressed)
  }

  function Others(fitting: seq<Host>, head: Host): seq<Host> {
    Sort(Filter(fitting, (h: Host) => h.worker != head.worker), Ahead)
  }

  function Head(fitting: seq<Host>): Host
    requires Heads(fitting) != []
  {
    SortPermutes(Heads(fitting), Ahead);
    Sort(Heads(fitting), Ahead)[0]
  }

  /** The head, then the best other hosts: the group in rank order. */
  function Chosen(fitting: seq<Host>, n: nat): seq<Host>
    requires Heads(fitting) != []
  {
    var others := Others(fitting, Head(fitting));
    [Head(fitting)] + others[..Max(0, Min(n - 1, |others|))]
  }

  lemma HeadIsBest(fitting: seq<Host>)
    requires Heads(fitting) != []
    ensures Head(fitting) in fitting && Head(fitting).addressed
    ensures forall h :: h in fitting && h.addressed ==> Ahead(Head(fitting), h)
  {
    AheadIsOrder();
    var heads := Heads(fitting);
    FilterMembers(fitting, (h: Host) => h.addressed);
    SortPermutes(heads, Ahead);
    SortSorts(heads, Ahead);
    var sorted := Sort(heads, Ahead);
    assert sorted[0] in sorted;
    forall h | h in fitting && h.addressed ensures Ahead(sorted[0], h) {
      assert h in sorted;
      var i :| 0 <= i < |sorted| && sorted[i] == h;
      NameLeqTotal(h.name, h.name);
    }
  }

  lemma OthersAreRest(fitting: seq<Host>, head: Host)
    requires DistinctHosts(fitting) && head in fitting
    ensures var others := Others(fitting, head);
            && SortedBy(others, Ahead) && DistinctHosts(others) && |others| == |fitting| - 1
            && (forall h :: h in others <==> h in fitting && h != head)
            && (forall h :: h in others ==> h.worker != head.worker)
  {
    AheadIsOrder();
    var rest, apart := (h: Host) => h.worker != head.worker, (a: Host, b: Host) => a.worker != b.worker;
    FilterMembers(fitting, rest);
    FilterKeepsApart(fitting, rest, apart);
    var kept := Filter(fitting, rest);
    SortPermutes(kept, Ahead);
    SortSorts(kept, Ahead);
    SortKeepsApart(kept, Ahead, apart);
    AllButOne(fitting, head);
    var i :| 0 <= i < |fitting| && fitting[i] == head;
    forall h | h in fitting && h.worker == head.worker ensures h == head {
      var j :| 0 <= j < |fitting| && fitting[j] == h;
      assert apart(fitting[Min(i, j)], fitting[Max(i, j)]) || i == j;
    }
  }

  lemma {:induction false} AllButOne(hosts: seq<Host>, head: Host)
    requires DistinctHosts(hosts)
    ensures var rest := Filter(hosts, (h: Host) => h.worker != head.worker);
            |rest| == |hosts| - (if exists h :: h in hosts && h.worker == head.worker then 1 else 0)
  {
    if hosts != [] {
      AllButOne(hosts[1..], head);
      assert hosts == [hosts[0]] + hosts[1..];
      if hosts[0].worker == head.worker {
        forall h | h in hosts[1..] ensures h.worker != head.worker {
          var j :| 0 <= j < |hosts[1..]| && hosts[1..][j] == h;
          assert hosts[j + 1] == h;
        }
      }
    }
  }

  // ---- Optimality ----

  function SumFree(hosts: seq<Host>): int {
    if hosts == [] then 0 else hosts[0].free + SumFree(hosts[1..])
  }

  /** The free VRAM of the first k of a ranking. */
  function TopSum(ranking: seq<Host>, k: nat): int
    requires k <= |ranking|
  {
    if k == 0 then 0 else ranking[0].free + TopSum(ranking[1..], k - 1)
  }

  lemma {:induction false} TopSumIsSum(ranking: seq<Host>, k: nat)
    requires k <= |ranking|
    ensures TopSum(ranking, k) == SumFree(ranking[..k])
  {
    if k > 0 {
      TopSumIsSum(ranking[1..], k - 1);
      assert ranking[..k][1..] == ranking[1..][..k - 1];
    }
  }

  ghost function TotalFree(hosts: set<Host>): int {
    if hosts == {} then 0
    else
      var h :| h in hosts;
      h.free + TotalFree(hosts - {h})
  }

  lemma {:induction false} TotalFreeSplit(hosts: set<Host>, h: Host)
    requires h in hosts
    ensures TotalFree(hosts) == h.free + TotalFree(hosts - {h})
    decreases |hosts|
  {
    var first :| first in hosts && TotalFree(hosts) == first.free + TotalFree(hosts - {first});
    if first != h {
      TotalFreeSplit(hosts - {first}, h);
      TotalFreeSplit(hosts - {h}, first);
      assert hosts - {first} - {h} == hosts - {h} - {first};
    }
  }

  /** Every host of the group has at least m free: m is a lower bound of its minimum. */
  ghost predicate AllAtLeast(group: set<Host>, m: int) {
    forall h :: h in group ==> h.free >= m
  }

  ghost predicate Within(group: set<Host>, ranking: seq<Host>) {
    forall h :: h in group ==> h in ranking
  }

  lemma WithinSize(group: set<Host>, ranking: seq<Host>)
    requires Within(group, ranking)
    ensures |group| <= |ranking|
  {
    Sets.SubsetSize(group, set h | h in ranking);
    Sets.ElementsAtMost(ranking);
  }

  lemma WithinTail(group: set<Host>, ranking: seq<Host>)
    requires ranking != [] && Within(group, ranking)
    ensures Within(group - {ranking[0]}, ranking[1..])
  {
    assert ranking == [ranking[0]] + ranking[1..];
  }

  lemma SortedTail(ranking: seq<Host>)
    requires ranking != [] && SortedBy(ranking, Ahead)
    ensures SortedBy(ranking[1..], Ahead)
  {
  }

  /** The first k of a ranking outweigh any k hosts of it... */
  lemma {:induction false} TopOutweighs(ranking: seq<Host>, k: nat, group: set<Host>)
    requires SortedBy(ranking, Ahead) && Within(group, ranking) && |group| == k <= |ranking|
    ensures TopSum(ranking, k) >= TotalFree(group)
    decreases |ranking|
  {
    if k == 0 {
      assert group == {};
    } else {
      var top := ranking[0];
      SortedTail(ranking);
      WithinTail(group, ranking);
      if top in group {
        TotalFreeSplit(group, top);
        TopOutweighs(ranking[1..], k - 1, group - {top});
      } else {
        assert group - {top} == group;
        WithinSize(group, ranking[1..]);
        TopOutweighs(ranking[1..], k, group);
        ShiftOutweighs(ranking, k);
      }
    }
  }

  /** ... and none of them is weaker than the group's weakest. */
  lemma TopNoWeaker(ranking: seq<Host>, group: set<Host>, m: int, i: nat)
    requires SortedBy(ranking, Ahead) && Within(group, ranking)
    requires AllAtLeast(group, m) && i < |group| <= |ranking|
    ensures ranking[i].free >= m
  {
    if ranking[i].free < m {
      forall h | h in group ensures h in ranking[..i] {
        var j :| 0 <= j < |ranking| && ranking[j] == h;
        assert j > i ==> Ahead(ranking[i], ranking[j]);
        assert ranking[..i][j] == h;
      }
      Sets.SubsetSize(group, set h | h in ranking[..i]);
      Sets.ElementsAtMost(ranking[..i]);
    }
  }

  lemma {:induction false} ShiftOutweighs(ranking: seq<Host>, k: nat)
    requires SortedBy(ranking, Ahead) && k < |ranking|
    ensures TopSum(ranking, k) >= TopSum(ranking[1..], k)
  {
    if k > 0 {
      ShiftOutweighs(ranking[1..], k - 1);
      assert Ahead(ranking[0], ranking[1]);
    }
  }

  /** A group somebody else might choose: n fitting hosts, one of them addressed. */
  ghost predicate ValidGroup(fitting: seq<Host>, n: nat, group: set<Host>) {
    |group| == n && Within(group, fitting) && exists h :: h in group && h.addressed
  }

  /** The chosen hosts are a group, in which rank 0 is addressed. */
  lemma ChosenIsGroup(fitting: seq<Host>, n: nat)
    requires DistinctHosts(fitting) && Heads(fitting) != [] && 1 <= n <= |fitting|
    ensures var chosen := Chosen(fitting, n);
            && |chosen| == n && chosen[0].addressed && DistinctHosts(chosen)
            && ValidGroup(fitting, n, set h | h in chosen)
  {
    HeadIsBest(fitting);
    var head := Head(fitting);
    OthersAreRest(fitting, head);
    var others := Others(fitting, head);
    var chosen := Chosen(fitting, n);
    assert chosen == [head] + others[..n - 1];
    forall i | 0 < i < n ensures chosen[i] in others {
      assert chosen[i] == others[i - 1];
    }
    Sets.DistinctSize(chosen);
  }

  /** Feasible exactly when it should be: some group of n hosts with an addressed member exists if and
      only if an addressed host fits and at least n hosts fit. */
  lemma FeasibleIff(fitting: seq<Host>, n: nat)
    requires DistinctHosts(fitting) && n >= 1
    ensures (exists group :: ValidGroup(fitting, n, group)) <==> Heads(fitting) != [] && n <= |fitting|
  {
    FilterMembers(fitting, (h: Host) => h.addressed);
    if Heads(fitting) != [] && n <= |fitting| {
      ChosenIsGroup(fitting, n);
    }
    forall group: set<Host> | ValidGroup(fitting, n, group) ensures Heads(fitting) != [] && n <= |fitting| {
      var h :| h in group && h.addressed;
      assert h in Heads(fitting);
      WithinSize(group, fitting);
    }
  }

  /** Exchange: trading one addressed member for the head leaves n - 1 hosts to outweigh. */
  lemma Exchange(fitting: seq<Host>, n: nat, group: set<Host>) returns (out: Host)
    requires DistinctHosts(fitting) && n >= 1 && ValidGroup(fitting, n, group)
    ensures Heads(fitting) != [] && n <= |fitting|
    ensures out in group && Head(fitting).free >= out.free
    ensures var others := Others(fitting, Head(fitting));
            && SortedBy(others, Ahead) && |others| == |fitting| - 1
            && Chosen(fitting, n) == [Head(fitting)] + others[..n - 1]
            && |group - {out}| == n - 1 && Within(group - {out}, others)
  {
    FeasibleIff(fitting, n);
    HeadIsBest(fitting);
    var head := Head(fitting);
    OthersAreRest(fitting, head);
    var leader :| leader in group && leader.addressed;
    assert Ahead(head, leader);
    out := if head in group then head else leader;
  }

  lemma ChosenHeaviest(fitting: seq<Host>, n: nat, group: set<Host>)
    requires DistinctHosts(fitting) && n >= 1 && ValidGroup(fitting, n, group)
    ensures Heads(fitting) != []
    ensures SumFree(Chosen(fitting, n)) >= TotalFree(group)
  {
    var out := Exchange(fitting, n, group);
    var others := Others(fitting, Head(fitting));
    assert Chosen(fitting, n)[1..] == others[..n - 1];
    TotalFreeSplit(group, out);
    TopOutweighs(others, n - 1, group - {out});
    TopSumIsSum(others, n - 1);
  }

  lemma ChosenNoWeaker(fitting: seq<Host>, n: nat, group: set<Host>, m: int)
    requires DistinctHosts(fitting) && n >= 1 && ValidGroup(fitting, n, group) && AllAtLeast(group, m)
    ensures Heads(fitting) != []
    ensures AllAtLeast((set h | h in Chosen(fitting, n)), m)
  {
    var out := Exchange(fitting, n, group);
    var others, chosen := Others(fitting, Head(fitting)), Chosen(fitting, n);
    assert AllAtLeast(group - {out}, m);
    forall i | 0 <= i < n ensures chosen[i].free >= m {
      if i > 0 {
        TopNoWeaker(others, group - {out}, m, i - 1);
      }
    }
  }

  /** Optimal: no group of n fitting hosts with an addressed member has more free VRAM in total, or a
      larger minimum. */
  lemma ChosenOptimal(fitting: seq<Host>, n: nat, group: set<Host>)
    requires DistinctHosts(fitting) && n >= 1 && ValidGroup(fitting, n, group)
    ensures Heads(fitting) != []
    ensures SumFree(Chosen(fitting, n)) >= TotalFree(group)
    ensures forall m :: AllAtLeast(group, m) ==> AllAtLeast((set h | h in Chosen(fitting, n)), m)
  {
    ChosenHeaviest(fitting, n, group);
    forall m | AllAtLeast(group, m) ensures AllAtLeast((set h | h in Chosen(fitting, n)), m) {
      ChosenNoWeaker(fitting, n, group, m);
    }
  }

  // ---- The allocator ----

  function RendezvousPorts(reserved: seq<Instance>): set<int> {
    set r | r in reserved && Rendezvous.PortOf(r.rendezvous).Some? :: Rendezvous.PortOf(r.rendezvous).value
  }

  method LargestGpu(w: Worker, live: seq<Instance>, vendors: set<string>, v: int) returns (best: Option<(int, int)>)
    ensures best == match LargestIn(w.gpus, live, vendors, v, |w.gpus|)
                    case None => None
                    case Some(g) => Some((FreeOn(w.gpus[g], live), w.gpus[g].index))
  {
    var usage := GpuUsage(live);
    best := None;
    for n := 0 to |w.gpus|
      invariant best == match LargestIn(w.gpus, live, vendors, v, n)
                        case None => None
                        case Some(g) => Some((FreeOn(w.gpus[g], live), w.gpus[g].index))
    {
      var gpu := w.gpus[n];
      var free := gpu.vram - Lookup(usage, gpu.index);
      if gpu.vendor in vendors && free >= v && (best.None? || free > best.value.0) {
        best := Some((free, gpu.index));
      }
    }
  }

  method FittingHosts(workers: seq<Worker>, rows: seq<Instance>, vendors: set<string>, v: int) returns (hosts: seq<Host>)
    ensures hosts == Fitting(workers, rows, vendors, v)
  {
    hosts := [];
    for n := 0 to |workers|
      invariant hosts == Fitting(workers[..n], rows, vendors, v)
    {
      var w := workers[n];
      var best := LargestGpu(w, LiveOn(rows, w.id), vendors, v);
      assert workers[..n + 1][..n] == workers[..n];
      if best.Some? {
        hosts := hosts + [Host(w.id, w.name, Addressed(w), best.value.1, best.value.0)];
      }
    }
    assert workers[..|workers|] == workers;
  }

  /** The workers a group may use: connected, in the cluster, and not excluded. */
  function Eligible(workers: seq<Worker>, cluster: Id, exclude: set<Id>): seq<Worker> {
    Filter(Connected(workers, cluster), (w: Worker) => w.id !in exclude)
  }

  /** Rank i sits on the i-th chosen host; only the head has ports, the lowest free ones of its host. */
  ghost predicate Placed(rows: seq<Instance>, chosen: seq<Host>, instances: PortRange, rendezvous: PortRange,
                         ranks: seq<Rank>)
  {
    && |ranks| == |chosen|
    && (forall i :: 0 <= i < |ranks| ==>
         && ranks[i].worker == chosen[i].worker && ranks[i].gpuIndex == chosen[i].gpuIndex
         && ranks[i].nodeRank == i
         && (ranks[i].port.Some? <==> i == 0) && (ranks[i].rendezvousPort.Some? <==> i == 0))
    && (ranks != [] ==>
         var reserved := ReservedOn(rows, ranks[0].worker);
         && ranks[0].port.value in FreePorts(reserved, instances)
         && ranks[0].rendezvousPort.value in FreePorts(reserved, rendezvous) - RendezvousPorts(reserved)
         && (forall p :: p in FreePorts(reserved, instances) ==> ranks[0].port.value <= p)
         && (forall p :: p in FreePorts(reserved, rendezvous) - RendezvousPorts(reserved) ==>
              ranks[0].rendezvousPort.value <= p))
  }

  /** The head's host has a port of each kind left. */
  ghost predicate PortsLeft(rows: seq<Instance>, hosts: seq<Host>, instances: PortRange, rendezvous: PortRange)
    requires Heads(hosts) != []
  {
    var reserved := ReservedOn(rows, Head(hosts).worker);
    FreePorts(reserved, instances) != {} && !(FreePorts(reserved, rendezvous) <= RendezvousPorts(reserved))
  }

  /** One rank per host, once the hosts are chosen. */
  method PlaceRanks(rows: seq<Instance>, chosen: seq<Host>, instances: PortRange, rendezvous: PortRange)
    returns (r: Result<seq<Rank>, AllocError>)
    requires chosen != []
    ensures var reserved := ReservedOn(rows, chosen[0].worker);
            match r
            case Ok(ranks) =>
              && Placed(rows, chosen, instances, rendezvous, ranks)
              && FreePorts(reserved, instances) != {} && !(FreePorts(reserved, rendezvous) <= RendezvousPorts(reserved))
            case Err(NoPort) => FreePorts(reserved, instances) == {}
            case Err(NoRendezvousPort) => FreePorts(reserved, rendezvous) <= RendezvousPorts(reserved)
            case Err(_) => false
  {
    var reserved := ReservedOn(rows, chosen[0].worker);
    var port := AllocPort(reserved, instances, {});
    if port.None? {
      return Err(NoPort);
    }
    var rendezvousPort := AllocPort(reserved, rendezvous, RendezvousPorts(reserved));
    if rendezvousPort.None? {
      return Err(NoRendezvousPort);
    }
    return Ok(seq(|chosen|, i requires 0 <= i < |chosen| =>
      Rank(chosen[i].worker, chosen[i].gpuIndex, i, if i == 0 then port else None, if i == 0 then rendezvousPort else None)));
  }

  // ---- The group, in columns ----

  /** A group somebody might choose: offered GPUs on n different hosts, one of them addressed. */
  ghost predicate OfferGroup(db: Database, cluster: Id, engine: string, exclude: set<Id>, v: int, n: nat, group: seq<Offer>) {
    && |group| == n && (forall i :: 0 <= i < n ==> Offered(db, cluster, engine, exclude, v, group[i]))
    && (forall i, j :: 0 <= i < j < n ==> group[i].host.id != group[j].host.id)
    && exists i :: 0 <= i < n && group[i].CanLead()
  }

  function TotalRoom(rows: seq<Instance>, group: seq<Offer>): int {
    if group == [] then 0 else Room(rows, group[0].host, group[0].gpu) + TotalRoom(rows, group[1..])
  }

  ghost predicate RoomsAtLeast(rows: seq<Instance>, group: seq<Offer>, m: int) {
    forall i :: 0 <= i < |group| ==> Room(rows, group[i].host, group[i].gpu) >= m
  }

  /** More room, or as much and the name first. */
  ghost predicate OfferAhead(rows: seq<Instance>, a: Offer, b: Offer) {
    || Room(rows, a.host, a.gpu) > Room(rows, b.host, b.gpu)
    || (Room(rows, a.host, a.gpu) == Room(rows, b.host, b.gpu) && NameLeq(a.host.name, b.host.name))
  }

  /** The ranks sit on this group, the first of which leads: no other group has more room in total or a larger
      minimum. The leader is ahead of every offer that could lead, and the others are ahead of every offer on
      a host that is not taken, in that order. */
  ghost predicate BestGroup(db: Database, cluster: Id, engine: string, exclude: set<Id>, v: int, ranks: seq<Rank>,
                            group: seq<Offer>)
  {
    && OfferGroup(db, cluster, engine, exclude, v, |ranks|, group) && group[0].CanLead()
    && (forall i :: 0 <= i < |ranks| ==>
         ranks[i].worker == group[i].host.id && ranks[i].gpuIndex == group[i].gpu.index && ranks[i].nodeRank == i)
    && (forall other :: OfferGroup(db, cluster, engine, exclude, v, |ranks|, other) ==>
         && TotalRoom(db.rows, group) >= TotalRoom(db.rows, other)
         && forall m :: RoomsAtLeast(db.rows, other, m) ==> RoomsAtLeast(db.rows, group, m))
    && (forall o :: Offered(db, cluster, engine, exclude, v, o) && o.CanLead() ==> OfferAhead(db.rows, group[0], o))
    && (forall i, j :: 1 <= i < j < |ranks| ==> OfferAhead(db.rows, group[i], group[j]))
    && (forall i, o :: 1 <= i < |ranks| && Offered(db, cluster, engine, exclude, v, o) && OffHosts(group, o.host.id) ==>
         OfferAhead(db.rows, group[i], o))
  }

  ghost predicate OffHosts(group: seq<Offer>, worker: Id) {
    forall i :: 0 <= i < |group| ==> group[i].host.id != worker
  }

  /** A group of offers, as fitting hosts. */
  lemma GroupHosted(db: Database, cluster: Id, engine: string, exclude: set<Id>, v: int, n: nat, group: seq<Offer>)
    returns (hosted: seq<Host>)
    requires OfferGroup(db, cluster, engine, exclude, v, n, group)
    ensures var hosts := Fitting(Eligible(db.workers, cluster, exclude), db.rows, Vendors(engine), v);
            |hosted| == n && ValidGroup(hosts, n, set h | h in hosted)
    ensures DistinctHosts(hosted)
    ensures forall i :: 0 <= i < n ==> hosted[i].worker == group[i].host.id
                                       && hosted[i].free >= Room(db.rows, group[i].host, group[i].gpu)
  {
    hosted := [];
    var hosts := Fitting(Eligible(db.workers, cluster, exclude), db.rows, Vendors(engine), v);
    for k := 0 to n
      invariant |hosted| == k
      invariant forall i :: 0 <= i < k ==>
        && hosted[i] in hosts && hosted[i].worker == group[i].host.id && (hosted[i].addressed <==> group[i].CanLead())
        && hosted[i].free >= Room(db.rows, group[i].host, group[i].gpu)
    {
      var h := OfferHosted(db, cluster, engine, exclude, v, group[k]);
      hosted := hosted + [h];
    }
    Sets.DistinctSize(hosted);
    var lead :| 0 <= lead < n && group[lead].CanLead();
    assert hosted[lead] in (set h | h in hosted);
  }

  lemma {:induction false} SumOfSet(hosts: seq<Host>)
    requires DistinctHosts(hosts)
    ensures TotalFree(set h | h in hosts) == SumFree(hosts)
  {
    if hosts == [] {
      assert (set h | h in hosts) == {};
    } else {
      SumOfSet(hosts[1..]);
      SetTail(hosts);
      TotalFreeSplit((set h | h in hosts), hosts[0]);
    }
  }

  lemma SetTail(hosts: seq<Host>)
    requires DistinctHosts(hosts) && hosts != []
    ensures hosts[0] in (set h | h in hosts) && (set h | h in hosts) - {hosts[0]} == set h | h in hosts[1..]
  {
    assert hosts == [hosts[0]] + hosts[1..];
    forall i | 0 <= i < |hosts[1..]| ensures hosts[1..][i].worker != hosts[0].worker {
      assert hosts[1..][i] == hosts[i + 1];
    }
  }

  lemma {:induction false} SumsOrdered(rows: seq<Instance>, hosts: seq<Host>, group: seq<Offer>)
    requires |hosts| == |group|
    requires forall i :: 0 <= i < |group| ==> hosts[i].free >= Room(rows, group[i].host, group[i].gpu)
    ensures SumFree(hosts) >= TotalRoom(rows, group)
  {
    if group != [] {
      SumsOrdered(rows, hosts[1..], group[1..]);
    }
  }

  lemma {:induction false} SumsEqual(rows: seq<Instance>, hosts: seq<Host>, group: seq<Offer>)
    requires |hosts| == |group|
    requires forall i :: 0 <= i < |group| ==> hosts[i].free == Room(rows, group[i].host, group[i].gpu)
    ensures SumFree(hosts) == TotalRoom(rows, group)
  {
    if group != [] {
      SumsEqual(rows, hosts[1..], group[1..]);
    }
  }

  lemma RestBehind(others: seq<Host>, n: nat, i: nat, h: Host)
    requires SortedBy(others, Ahead) && 1 <= i < n <= |others| + 1 && h in others
    requires forall k :: 0 <= k < n - 1 ==> others[k] != h
    ensures Ahead(others[i - 1], h)
  {
    var j :| 0 <= j < |others| && others[j] == h;
    assert Ahead(others[i - 1], others[j]);
  }

  /** Whom the chosen hosts are ahead of. */
  lemma ChosenAhead(fitting: seq<Host>, n: nat)
    requires DistinctHosts(fitting) && Heads(fitting) != [] && 1 <= n <= |fitting|
    ensures var chosen := Chosen(fitting, n);
            && |chosen| == n
            && (forall h :: h in fitting && h.addressed ==> Ahead(chosen[0], h))
            && (forall i, j :: 1 <= i < j < n ==> Ahead(chosen[i], chosen[j]))
            && (forall i, h :: 1 <= i < n && h in fitting && h !in chosen ==> Ahead(chosen[i], h))
  {
    var chosen, others := Chosen(fitting, n), Others(fitting, Head(fitting));
    HeadIsBest(fitting);
    OthersAreRest(fitting, Head(fitting));
    assert chosen == [Head(fitting)] + others[..n - 1];
    assert forall k :: 0 <= k < n - 1 ==> others[k] == chosen[k + 1] && chosen[k + 1] in chosen;
    forall i, h | 1 <= i < n && h in fitting && h !in chosen ensures Ahead(chosen[i], h) {
      RestBehind(others, n, i, h);
    }
    forall i, j | 1 <= i < j < n ensures Ahead(chosen[i], chosen[j]) {
      assert Ahead(others[i - 1], others[j - 1]);
    }
  }

  /** Each chosen host stands for one offered GPU, its roomiest. */
  ghost predicate Stands(db: Database, h: Host, o: Offer) {
    && h.worker == o.host.id && h.name == o.host.name && h.gpuIndex == o.gpu.index
    && h.free == Room(db.rows, o.host, o.gpu) && (h.addressed <==> o.CanLead())
  }

  lemma ChosenOffers(db: Database, cluster: Id, engine: string, exclude: set<Id>, v: int, chosen: seq<Host>)
    returns (group: seq<Offer>)
    requires forall i :: 0 <= i < |chosen| ==>
               chosen[i] in Fitting(Eligible(db.workers, cluster, exclude), db.rows, Vendors(engine), v)
    ensures |group| == |chosen|
    ensures forall i :: 0 <= i < |chosen| ==>
              Offered(db, cluster, engine, exclude, v, group[i]) && Stands(db, chosen[i], group[i])
  {
    group := [];
    for k := 0 to |chosen|
      invariant |group| == k
      invariant forall i :: 0 <= i < k ==>
        Offered(db, cluster, engine, exclude, v, group[i]) && Stands(db, chosen[i], group[i])
    {
      var o := HostOffers(db, cluster, engine, exclude, v, chosen[k]);
      group := group + [o];
    }
  }

  lemma GroupFormed(db: Database, cluster: Id, engine: string, exclude: set<Id>, v: int, chosen: seq<Host>,
                    group: seq<Offer>)
    requires DistinctHosts(chosen) && chosen != [] && chosen[0].addressed && |group| == |chosen|
    requires forall i :: 0 <= i < |chosen| ==>
               Offered(db, cluster, engine, exclude, v, group[i]) && Stands(db, chosen[i], group[i])
    ensures OfferGroup(db, cluster, engine, exclude, v, |chosen|, group) && group[0].CanLead()
  {
    assert Stands(db, chosen[0], group[0]);
    forall i, j | 0 <= i < j < |chosen| ensures group[i].host.id != group[j].host.id {
      assert Stands(db, chosen[i], group[i]) && Stands(db, chosen[j], group[j]);
    }
  }

  lemma RoomsMirrored(db: Database, chosen: seq<Host>, group: seq<Offer>, hosted: seq<Host>, other: seq<Offer>, m: int)
    requires |group| == |chosen| && forall i :: 0 <= i < |chosen| ==> Stands(db, chosen[i], group[i])
    requires |other| == |hosted|
    requires forall i :: 0 <= i < |other| ==> hosted[i].free >= Room(db.rows, other[i].host, other[i].gpu)
    requires AllAtLeast((set h | h in hosted), m) ==> AllAtLeast((set h | h in chosen), m)
    ensures RoomsAtLeast(db.rows, other, m) ==> RoomsAtLeast(db.rows, group, m)
  {
    if RoomsAtLeast(db.rows, other, m) {
      forall i | 0 <= i < |group| ensures Room(db.rows, group[i].host, group[i].gpu) >= m {
        assert Stands(db, chosen[i], group[i]) && chosen[i] in (set h | h in chosen);
      }
    }
  }

  lemma GroupHeaviest(db: Database, cluster: Id, engine: string, exclude: set<Id>, v: int, n: nat, group: seq<Offer>,
                      other: seq<Offer>)
    requires var hosts := Fitting(Eligible(db.workers, cluster, exclude), db.rows, Vendors(engine), v);
             && DistinctHosts(hosts) && Heads(hosts) != [] && 1 <= n <= |hosts| && |group| == n == |Chosen(hosts, n)|
             && forall i :: 0 <= i < n ==> Stands(db, Chosen(hosts, n)[i], group[i])
    requires OfferGroup(db, cluster, engine, exclude, v, n, other)
    ensures TotalRoom(db.rows, group) >= TotalRoom(db.rows, other)
    ensures forall m :: RoomsAtLeast(db.rows, other, m) ==> RoomsAtLeast(db.rows, group, m)
  {
    var hosts := Fitting(Eligible(db.workers, cluster, exclude), db.rows, Vendors(engine), v);
    var chosen := Chosen(hosts, n);
    var hosted := GroupHosted(db, cluster, engine, exclude, v, n, other);
    ChosenOptimal(hosts, n, set h | h in hosted);
    SumOfSet(hosted);
    SumsOrdered(db.rows, hosted, other);
    SumsEqual(db.rows, chosen, group);
    forall m ensures RoomsAtLeast(db.rows, other, m) ==> RoomsAtLeast(db.rows, group, m) {
      RoomsMirrored(db, chosen, group, hosted, other, m);
    }
  }

  lemma GroupAhead(db: Database, cluster: Id, engine: string, exclude: set<Id>, v: int, n: nat, group: seq<Offer>, o: Offer)
    requires var hosts := Fitting(Eligible(db.workers, cluster, exclude), db.rows, Vendors(engine), v);
             && DistinctHosts(hosts) && Heads(hosts) != [] && 1 <= n <= |hosts| && |group| == n == |Chosen(hosts, n)|
             && forall i :: 0 <= i < n ==> Stands(db, Chosen(hosts, n)[i], group[i])
    requires Offered(db, cluster, engine, exclude, v, o)
    ensures o.CanLead() ==> OfferAhead(db.rows, group[0], o)
    ensures OffHosts(group, o.host.id) ==> forall i :: 1 <= i < n ==> OfferAhead(db.rows, group[i], o)
  {
    var hosts := Fitting(Eligible(db.workers, cluster, exclude), db.rows, Vendors(engine), v);
    var chosen := Chosen(hosts, n);
    var h := OfferHosted(db, cluster, engine, exclude, v, o);
    ChosenAhead(hosts, n);
    assert Stands(db, chosen[0], group[0]);
    if OffHosts(group, o.host.id) {
      assert h !in chosen;
      forall i | 1 <= i < n ensures OfferAhead(db.rows, group[i], o) {
        assert Stands(db, chosen[i], group[i]) && Ahead(chosen[i], h);
      }
    }
  }

  lemma GroupIsBest(db: Database, cluster: Id, engine: string, exclude: set<Id>, v: int, instances: PortRange,
                    rendezvous: PortRange, ranks: seq<Rank>) returns (group: seq<Offer>)
    requires var hosts := Fitting(Eligible(db.workers, cluster, exclude), db.rows, Vendors(engine), v);
             && DistinctHosts(hosts) && Heads(hosts) != [] && 1 <= |ranks| <= |hosts|
             && Placed(db.rows, Chosen(hosts, |ranks|), instances, rendezvous, ranks)
    ensures BestGroup(db, cluster, engine, exclude, v, ranks, group)
  {
    var hosts, n := Fitting(Eligible(db.workers, cluster, exclude), db.rows, Vendors(engine), v), |ranks|;
    var chosen := Chosen(hosts, n);
    ChosenIsGroup(hosts, n);
    forall i | 0 <= i < n ensures chosen[i] in hosts {
      assert chosen[i] in (set h | h in chosen);
    }
    group := ChosenOffers(db, cluster, engine, exclude, v, chosen);
    GroupFormed(db, cluster, engine, exclude, v, chosen, group);
    forall other | OfferGroup(db, cluster, engine, exclude, v, n, other)
      ensures TotalRoom(db.rows, group) >= TotalRoom(db.rows, other)
      ensures forall m :: RoomsAtLeast(db.rows, other, m) ==> RoomsAtLeast(db.rows, group, m) {
      GroupHeaviest(db, cluster, engine, exclude, v, n, group, other);
    }
    forall o | Offered(db, cluster, engine, exclude, v, o)
      ensures o.CanLead() ==> OfferAhead(db.rows, group[0], o)
      ensures OffHosts(group, o.host.id) ==> forall i :: 1 <= i < n ==> OfferAhead(db.rows, group[i], o) {
      GroupAhead(db, cluster, engine, exclude, v, n, group, o);
    }
    ChosenAhead(hosts, n);
    forall i, j | 1 <= i < j < n ensures OfferAhead(db.rows, group[i], group[j]) {
      assert Stands(db, chosen[i], group[i]) && Stands(db, chosen[j], group[j]) && Ahead(chosen[i], chosen[j]);
    }
  }

  /** A group of offers exists exactly when an addressed host fits and enough hosts do. */
  lemma GroupExistsIff(db: Database, cluster: Id, engine: string, exclude: set<Id>, v: int, n: nat)
    requires ValidWorkers(db.workers) && n >= 1
    ensures var hosts := Fitting(Eligible(db.workers, cluster, exclude), db.rows, Vendors(engine), v);
            (exists group :: OfferGroup(db, cluster, engine, exclude, v, n, group))
            <==> Heads(hosts) != [] && |hosts| >= n
  {
    var hosts := Fitting(Eligible(db.workers, cluster, exclude), db.rows, Vendors(engine), v);
    EligibleValid(db.workers, cluster, exclude);
    FittingDistinct(Eligible(db.workers, cluster, exclude), db.rows, Vendors(engine), v);
    if group :| OfferGroup(db, cluster, engine, exclude, v, n, group) {
      var hosted := GroupHosted(db, cluster, engine, exclude, v, n, group);
      FeasibleIff(hosts, n);
    }
    if Heads(hosts) != [] && |hosts| >= n {
      ChosenIsGroup(hosts, n);
      var chosen := Chosen(hosts, n);
      forall i | 0 <= i < n ensures chosen[i] in hosts {
        assert chosen[i] in (set h | h in chosen);
      }
      var group := ChosenOffers(db, cluster, engine, exclude, v, chosen);
      GroupFormed(db, cluster, engine, exclude, v, chosen, group);
    }
  }

  /** What the caller gets: ranks on the chosen hosts, or why not. */
  ghost predicate GroupOutcome(db: Database, cluster: Id, v: int, engine: string, n: nat, exclude: set<Id>,
                               instances: PortRange, rendezvous: PortRange, r: Result<seq<Rank>, AllocError>)
  {
    var workers := Connected(db.workers, cluster);
    var hosts := Fitting(Eligible(db.workers, cluster, exclude), db.rows, Vendors(engine), v);
    && (workers == [] <==> r == Err(NoWorkers))
    && (workers != [] && (forall w :: w in workers ==> w.id in exclude) <==> r == Err(NoFreeHosts))
    && (r.Ok? <==> Heads(hosts) != [] && |hosts| >= n && PortsLeft(db.rows, hosts, instances, rendezvous))
    && match r
       case Err(NoWorkers) => true
       case Err(NoFreeHosts) => true
       case Err(NoAddressedHost) => forall h :: h in hosts ==> !h.addressed
       case Err(NotEnoughHosts(k)) => k == |hosts| < n
       case Err(NoPort) =>
         Heads(hosts) != [] && |hosts| >= n && FreePorts(ReservedOn(db.rows, Head(hosts).worker), instances) == {}
       case Err(NoRendezvousPort) =>
         && Heads(hosts) != [] && |hosts| >= n
         && var reserved := ReservedOn(db.rows, Head(hosts).worker);
            FreePorts(reserved, rendezvous) <= RendezvousPorts(reserved)
       case Err(NoGpu(_)) => false
       case Ok(ranks) =>
         && DistinctHosts(hosts) && Heads(hosts) != [] && |hosts| >= n
         && Placed(db.rows, Chosen(hosts, n), instances, rendezvous, ranks)
  }

  /** The allocation, step by step. */
  method AllocateGroup(db: Database, cluster: Id, v: int, engine: string, n: nat, exclude: set<Id>,
                       instances: PortRange, rendezvous: PortRange)
    returns (r: Result<seq<Rank>, AllocError>)
    requires ValidWorkers(db.workers) && n >= 1
    ensures GroupOutcome(db, cluster, v, engine, n, exclude, instances, rendezvous, r)
  {
    var connected := Connected(db.workers, cluster);
    if connected == [] {
      return Err(NoWorkers);
    }
    var workers := connected;
    if exclude != {} {
      workers := Filter(connected, (w: Worker) => w.id !in exclude);
      FilterMembers(connected, (w: Worker) => w.id !in exclude);
      if workers == [] {
        return Err(NoFreeHosts);
      }
      assert workers[0] in workers && workers[0].id !in exclude;
    } else {
      FilterAll(connected, (w: Worker) => w.id !in exclude);
      assert connected[0] in connected;
    }
    EligibleValid(db.workers, cluster, exclude);
    var hosts := FittingHosts(workers, db.rows, Vendors(engine), v);
    FittingDistinct(workers, db.rows, Vendors(engine), v);
    var heads := Filter(hosts, (h: Host) => h.addressed);
    FilterMembers(hosts, (h: Host) => h.addressed);
    if heads == [] {
      return Err(NoAddressedHost);
    }
    if |hosts| < n {
      return Err(NotEnoughHosts(|hosts|));
    }
    SortPermutes(heads, Ahead);
    var head := Sort(heads, Ahead)[0];
    var others := Sort(Filter(hosts, (h: Host) => h.worker != head.worker), Ahead);
    ChosenIsGroup(hosts, n);
    r := PlaceRanks(db.rows, [head] + others[..n - 1], instances, rendezvous);
  }

  /** In columns: it fails for want of workers, of a group, or of a port, and otherwise the ranks sit on the
      best group. */
  lemma OutcomeInColumns(db: Database, cluster: Id, v: int, engine: string, n: nat, exclude: set<Id>,
                         instances: PortRange, rendezvous: PortRange, r: Result<seq<Rank>, AllocError>)
    requires ValidWorkers(db.workers) && n >= 1
    requires GroupOutcome(db, cluster, v, engine, n, exclude, instances, rendezvous, r)
    ensures r == Err(NoWorkers) <==> forall w :: w in db.workers ==> w.cluster != cluster || !w.connected
    ensures r == Err(NoFreeHosts) <==>
              && (exists w :: w in db.workers && w.cluster == cluster && w.connected)
              && (forall w :: w in db.workers && w.cluster == cluster && w.connected ==> w.id in exclude)
    ensures r.Ok? || r.error.NoPort? || r.error.NoRendezvousPort? <==>
              exists group :: OfferGroup(db, cluster, engine, exclude, v, n, group)
    ensures r.Ok? ==> |r.value| == n && exists group :: BestGroup(db, cluster, engine, exclude, v, r.value, group)
  {
    var workers, hosts := Connected(db.workers, cluster),
                          Fitting(Eligible(db.workers, cluster, exclude), db.rows, Vendors(engine), v);
    ConnectedAre(db.workers, cluster);
    assert workers != [] ==> workers[0] in workers;
    GroupExistsIff(db, cluster, engine, exclude, v, n);
    NoneEligible(db, cluster, exclude, v, engine);
    FilterMembers(hosts, (h: Host) => h.addressed);
    if r.Ok? {
      RanksAreBest(db, cluster, v, engine, n, exclude, instances, rendezvous, r.value);
    } else if r.error.NoAddressedHost? && Heads(hosts) != [] {
      assert Heads(hosts)[0] in Heads(hosts);
    }
  }

  lemma RanksAreBest(db: Database, cluster: Id, v: int, engine: string, n: nat, exclude: set<Id>, instances: PortRange,
                     rendezvous: PortRange, ranks: seq<Rank>)
    requires n >= 1
    requires var hosts := Fitting(Eligible(db.workers, cluster, exclude), db.rows, Vendors(engine), v);
             && DistinctHosts(hosts) && Heads(hosts) != [] && |hosts| >= n
             && Placed(db.rows, Chosen(hosts, n), instances, rendezvous, ranks)
    ensures |ranks| == n && exists group :: BestGroup(db, cluster, engine, exclude, v, ranks, group)
  {
    ChosenIsGroup(Fitting(Eligible(db.workers, cluster, exclude), db.rows, Vendors(engine), v), n);
    var group := GroupIsBest(db, cluster, engine, exclude, v, instances, rendezvous, ranks);
  }

  method AllocateParallelReplicas(db: Database, cluster: Id, v: int, engine: string, n: nat, exclude: set<Id>,
                                  instances: PortRange, rendezvous: PortRange)
    returns (r: Result<seq<Rank>, AllocError>)
    requires ValidWorkers(db.workers) && n >= 1
    ensures r == Err(NoWorkers) <==> forall w :: w in db.workers ==> w.cluster != cluster || !w.connected
    ensures r == Err(NoFreeHosts) <==>
              && (exists w :: w in db.workers && w.cluster == cluster && w.connected)
              && (forall w :: w in db.workers && w.cluster == cluster && w.connected ==> w.id in exclude)
    ensures r.Ok? || r.error.NoPort? || r.error.NoRendezvousPort? <==>
              exists group :: OfferGroup(db, cluster, engine, exclude, v, n, group)
    ensures r.Ok? ==> |r.value| == n && exists group :: BestGroup(db, cluster, engine, exclude, v, r.value, group)
    ensures GroupOutcome(db, cluster, v, engine, n, exclude, instances, rendezvous, r)
  {
    r := AllocateGroup(db, cluster, v, engine, n, exclude, instances, rendezvous);
    OutcomeInColumns(db, cluster, v, engine, n, exclude, instances, rendezvous, r);
  }

  /** Without an eligible worker no host fits. */
  lemma NoneEligible(db: Database, cluster: Id, exclude: set<Id>, v: int, engine: string)
    ensures (forall w :: w in Connected(db.workers, cluster) ==> w.id in exclude) ==>
              Fitting(Eligible(db.workers, cluster, exclude), db.rows, Vendors(engine), v) == []
  {
    var eligible := Eligible(db.workers, cluster, exclude);
    FilterMembers(Connected(db.workers, cluster), (w: Worker) => w.id !in exclude);
    if (forall w :: w in Connected(db.workers, cluster) ==> w.id in exclude) && eligible != [] {
      assert eligible[0] in eligible;
    }
  }

  lemma EligibleValid(workers: seq<Worker>, cluster: Id, exclude: set<Id>)
    requires ValidWorkers(workers)
    ensures ValidWorkers(Eligible(workers, cluster, exclude))
  {
    ConnectedValid(workers, cluster);
    var connected, allowed, apart := Connected(workers, cluster), (w: Worker) => w.id !in exclude,
                                     (a: Worker, b: Worker) => a.id != b.id;
    assert PairwiseApart(connected, apart);
    FilterKeepsApart(connected, allowed, apart);
    FilterMembers(connected, allowed);
    var result := Eligible(workers, cluster, exclude);
    assert PairwiseApart(result, apart);
    forall i | 0 <= i < |result| ensures DistinctGpus(result[i].gpus) {
      assert result[i] in connected;
    }
  }
}

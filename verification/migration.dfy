/** The worker deduplication of the phase 0 migration: workers that share a hostname or a name are merged,
    their instances move along, and active ports are repaired before the unique indexes are created. */
module Migration {
  import opened Common
  import opened Models
  import opened Sorting
  import Sets

  /** A workers row, with the columns the migration reads. */
  datatype Host = Host(id: Id, cluster: Id, hostname: string, name: string, lastSeen: Option<int>, created: Option<int>)

  datatype Column = ByHostname | ByName

  /** What has to become unique. */
  datatype HostKey = HostKey(cluster: Id, value: string)

  function KeyOf(column: Column, w: Host): HostKey {
    HostKey(w.cluster, if column == ByHostname then w.hostname else w.name)
  }

  function Members(workers: seq<Host>, column: Column, key: HostKey): seq<Host> {
    Filter(workers, (w: Host) => KeyOf(column, w) == key)
  }

  /** A missing time sorts before any other. */
  predicate TimeLeq(a: Option<int>, b: Option<int>) {
    a.None? || (b.Some? && a.value <= b.value)
  }

  function Primary(w: Host): Option<int> {
    if w.lastSeen.Some? then w.lastSeen else w.created
  }

  /** Most recently seen first, then most recently created, then the larger id. */
  predicate Newer(a: Host, b: Host) {
    if Primary(a) != Primary(b) then TimeLeq(Primary(b), Primary(a))
    else if a.created != b.created then TimeLeq(b.created, a.created)
    else a.id >= b.id
  }

  lemma NewerIsOrder()
    ensures TotalPreorder(Newer)
  {
    forall a: Host, b: Host ensures Newer(a, b) || Newer(b, a) {
    }
    forall a: Host, b: Host, c: Host | Newer(a, b) && Newer(b, c) ensures Newer(a, c) {
    }
  }

  /** A worker with the same key that is at least as new. */
  ghost predicate HasNewer(workers: seq<Host>, column: Column, w: Host) {
    exists v :: v in workers && KeyOf(column, v) == KeyOf(column, w) && Newer(v, w)
  }

  /** Every worker is still there or was merged into one with the same key that is newer. */
  ghost predicate NewestStay(before: seq<Host>, after: seq<Host>, column: Column) {
    before == [] || (HasNewer(after, column, before[0]) && NewestStay(before[1..], after, column))
  }

  lemma {:induction false} NewestAt(before: seq<Host>, after: seq<Host>, column: Column, w: Host)
    requires NewestStay(before, after, column) && w in before
    ensures HasNewer(after, column, w)
  {
    if w != before[0] {
      NewestAt(before[1..], after, column, w);
    }
  }

  lemma {:induction false} NewestIf(before: seq<Host>, after: seq<Host>, column: Column)
    requires forall w :: w in before ==> HasNewer(after, column, w)
    ensures NewestStay(before, after, column)
  {
    if before != [] {
      NewestIf(before[1..], after, column);
    }
  }

  lemma NewestAtFirst(workers: seq<Host>, column: Column)
    ensures NewestStay(workers, workers, column)
  {
    forall w: Host | w in workers ensures HasNewer(workers, column, w) {
      assert Newer(w, w);
    }
    NewestIf(workers, workers, column);
  }

  lemma NewestCompose(a: seq<Host>, b: seq<Host>, c: seq<Host>, column: Column)
    requires NewestStay(a, b, column) && NewestStay(b, c, column)
    ensures NewestStay(a, c, column)
  {
    NewerIsOrder();
    forall w | w in a ensures HasNewer(c, column, w) {
      NewestAt(a, b, column, w);
      var u :| u in b && KeyOf(column, u) == KeyOf(column, w) && Newer(u, w);
      NewestAt(b, c, column, u);
    }
    NewestIf(a, c, column);
  }

  // ---- The same in columns ----

  predicate SameGroup(column: Column, v: Host, w: Host) {
    v.cluster == w.cluster && match column case ByHostname => v.hostname == w.hostname case ByName => v.name == w.name
  }

  /** A missing time is before any other. */
  predicate SeenAfter(a: Option<int>, b: Option<int>) {
    a.Some? && (b.None? || a.value > b.value)
  }

  /** Seen later, or created later when it was never seen; then created later; then the larger id. */
  predicate NoLessRecent(v: Host, w: Host) {
    var seenV, seenW := if v.lastSeen.Some? then v.lastSeen else v.created, if w.lastSeen.Some? then w.lastSeen else w.created;
    || SeenAfter(seenV, seenW)
    || (seenV == seenW && (SeenAfter(v.created, w.created) || (v.created == w.created && v.id >= w.id)))
  }

  lemma NewerIs(column: Column, v: Host, w: Host)
    ensures Newer(v, w) <==> NoLessRecent(v, w)
    ensures KeyOf(column, v) == KeyOf(column, w) <==> SameGroup(column, v, w)
  {
  }

  // ---- Merging one worker into another ----

  function Nulled(r: Instance, detail: string): Instance {
    r.(port := None, state := Error, errorDetail := Some(detail), desired := WantStopped)
  }

  const COLLISION := "worker dedup port collision"
  const DUPLICATE := "dedup duplicate port"

  predicate Holds(r: Instance, worker: Id, port: int) {
    r.worker == Some(worker) && r.port == Some(port) && r.Reserved()
  }

  predicate Collides(rows: seq<Instance>, kept: Id, r: Instance) {
    r.Reserved() && r.port.Some? && exists k :: k in rows && Holds(k, kept, r.port.value)
  }

  /** A row of `dup` moves to `kept`, giving up its port when `kept` has an active row on it. */
  function MergedRow(rows: seq<Instance>, kept: Id, dup: Id, r: Instance): Instance {
    if r.worker != Some(dup) then r
    else if Collides(rows, kept, r) then Nulled(r, COLLISION).(worker := Some(kept))
    else r.(worker := Some(kept))
  }

  function Merged(rows: seq<Instance>, kept: Id, dup: Id): (after: seq<Instance>)
    ensures |after| == |rows|
  {
    seq(|rows|, i requires 0 <= i < |rows| => MergedRow(rows, kept, dup, rows[i]))
  }

  datatype Merge = Merge(kept: Id, dup: Id)

  function MergedAll(rows: seq<Instance>, merges: seq<Merge>): (after: seq<Instance>)
    ensures |after| == |rows|
  {
    if merges == [] then rows
    else
      var n := |merges| - 1;
      Merged(MergedAll(rows, merges[..n]), merges[n].kept, merges[n].dup)
  }

  function Left(workers: seq<Host>, merges: seq<Merge>): seq<Host> {
    Filter(workers, (w: Host) => forall m :: m in merges ==> m.dup != w.id)
  }

  /** Where a worker's instances end up. */
  function Follow(merges: seq<Merge>, worker: Id): Id {
    if merges == [] then worker
    else
      var n := |merges| - 1;
      var w := Follow(merges[..n], worker);
      if w == merges[n].dup then merges[n].kept else w
  }

  function FollowRow(merges: seq<Merge>, worker: Option<Id>): Option<Id> {
    if worker.None? then None else Some(Follow(merges, worker.value))
  }

  /** What a row may have become: it survives, on the worker its own was merged into, and otherwise
      unchanged unless it gave up its port. */
  predicate Survives(merges: seq<Merge>, r: Instance, after: Instance) {
    var moved := r.(worker := FollowRow(merges, r.worker));
    after == moved || GaveUpPort(moved, after, "worker dedup port collision") || GaveUpPort(moved, after, "dedup duplicate port")
  }

  /** A row that loses its port is stopped, in error, and says why. */
  predicate GaveUpPort(before: Instance, after: Instance, detail: string) {
    after == before.(port := None, state := Error, errorDetail := Some(detail), desired := WantStopped)
  }

  /** Who is active where. */
  function ActivePairs(rows: seq<Instance>): set<(Id, int)> {
    set r | r in rows && r.Reserved() && r.worker.Some? && r.port.Some? :: (r.worker.value, r.port.value)
  }

  lemma PairMember(rows: seq<Instance>, worker: Id, port: int)
    ensures (worker, port) in ActivePairs(rows) <==> exists r :: r in rows && Holds(r, worker, port)
  {
    if (worker, port) in ActivePairs(rows) {
      var r :| r in rows && r.Reserved() && r.worker.Some? && r.port.Some? && (r.worker.value, r.port.value) == (worker, port);
      assert Holds(r, worker, port);
    }
  }

  /** Merging moves the active pairs of `dup` to `kept` and loses none: the row that gives up its port
      leaves it to an active row there. */
  lemma MergeMovesPairs(rows: seq<Instance>, kept: Id, dup: Id, worker: Id, port: int)
    requires kept != dup
    ensures (worker, port) in ActivePairs(Merged(rows, kept, dup)) <==>
              && worker != dup
              && ((worker, port) in ActivePairs(rows) || (worker == kept && (dup, port) in ActivePairs(rows)))
  {
    var after := Merged(rows, kept, dup);
    PairMember(rows, worker, port);
    PairMember(rows, dup, port);
    PairMember(after, worker, port);
    if r :| r in after && Holds(r, worker, port) {
      var i :| 0 <= i < |after| && after[i] == r;
      assert rows[i] in rows;
      assert Holds(rows[i], worker, port) || Holds(rows[i], dup, port);
    }
    if worker != dup {
      if r :| r in rows && Holds(r, worker, port) {
        var i :| 0 <= i < |rows| && rows[i] == r;
        assert after[i] == r && after[i] in after;
      } else if worker == kept && exists r :: r in rows && Holds(r, dup, port) {
        var r :| r in rows && Holds(r, dup, port);
        var i :| 0 <= i < |rows| && rows[i] == r;
        assert !Collides(rows, kept, r);
        assert after[i] in after;
      }
    }
  }

  // ---- Any number of merges ----

  predicate Known(workers: seq<Host>, id: Id) {
    exists w :: w in workers && w.id == id
  }

  predicate SameCluster(workers: seq<Host>, a: Id, b: Id) {
    exists v, w :: v in workers && w in workers && v.id == a && w.id == b && v.cluster == w.cluster
  }

  /** Each merge is of two workers still there, of one cluster. */
  ghost predicate ValidMerges(workers: seq<Host>, merges: seq<Merge>) {
    merges == []
    || var n := |merges| - 1;
       && ValidMerges(workers, merges[..n])
       && merges[n].kept != merges[n].dup && SameCluster(Left(workers, merges[..n]), merges[n].kept, merges[n].dup)
  }

  ghost predicate DistinctHosts(workers: seq<Host>) {
    forall i, j :: 0 <= i < j < |workers| ==> workers[i].id != workers[j].id
  }

  lemma LeftMember(workers: seq<Host>, merges: seq<Merge>, w: Host)
    ensures w in Left(workers, merges) <==> w in workers && forall m :: m in merges ==> m.dup != w.id
  {
    FilterMembers(workers, (w: Host) => forall m :: m in merges ==> m.dup != w.id);
  }

  lemma SameRow(workers: seq<Host>, v: Host, w: Host)
    requires DistinctHosts(workers) && v in workers && w in workers && v.id == w.id
    ensures v == w
  {
    var i :| 0 <= i < |workers| && workers[i] == v;
    var j :| 0 <= j < |workers| && workers[j] == w;
    assert i == j by {
      assert workers[Min(i, j)].id == workers[Max(i, j)].id;
    }
  }

  /** A worker's instances end up on a worker of the same cluster that is still there. */
  lemma {:induction false} FollowStays(workers: seq<Host>, merges: seq<Merge>, w: Host) returns (v: Host)
    requires DistinctHosts(workers) && ValidMerges(workers, merges) && w in workers
    ensures v in Left(workers, merges) && v.id == Follow(merges, w.id) && v.cluster == w.cluster
    decreases |merges|
  {
    if merges == [] {
      v := w;
      LeftMember(workers, merges, w);
    } else {
      var n := |merges| - 1;
      var front, last := merges[..n], merges[n];
      assert merges == front + [last];
      v := FollowStays(workers, front, w);
      LeftMember(workers, front, v);
      if v.id == last.dup {
        var x, y :| x in Left(workers, front) && y in Left(workers, front)
                    && x.id == last.kept && y.id == last.dup && x.cluster == y.cluster;
        LeftMember(workers, front, x);
        LeftMember(workers, front, y);
        SameRow(workers, v, y);
        v := x;
      }
      LeftMember(workers, merges, v);
    }
  }

  /** An orphan's worker is never merged. */
  lemma {:induction false} FollowUnknown(workers: seq<Host>, merges: seq<Merge>, id: Id)
    requires ValidMerges(workers, merges) && !Known(workers, id)
    ensures Follow(merges, id) == id
    decreases |merges|
  {
    if merges != [] {
      var n := |merges| - 1;
      FollowUnknown(workers, merges[..n], id);
      var x, y :| x in Left(workers, merges[..n]) && y in Left(workers, merges[..n]) && y.id == merges[n].dup;
      LeftMember(workers, merges[..n], y);
    }
  }

  lemma {:induction false} MergedSurvive(rows: seq<Instance>, merges: seq<Merge>, i: nat)
    requires i < |rows|
    ensures Survives(merges, rows[i], MergedAll(rows, merges)[i])
    decreases |merges|
  {
    if merges != [] {
      MergedSurvive(rows, merges[..|merges| - 1], i);
    }
  }

  /** The active pairs are the original ones, with every worker followed through the merges. */
  lemma {:induction false} MergedPairs(rows: seq<Instance>, merges: seq<Merge>, worker: Id, port: int)
    requires forall m :: m in merges ==> m.kept != m.dup
    ensures (worker, port) in ActivePairs(MergedAll(rows, merges)) <==>
              exists w :: (w, port) in ActivePairs(rows) && Follow(merges, w) == worker
    decreases |merges|
  {
    if merges != [] {
      var n := |merges| - 1;
      var front, last := merges[..n], merges[n];
      assert merges == front + [last];
      MergeMovesPairs(MergedAll(rows, front), last.kept, last.dup, worker, port);
      MergedPairs(rows, front, worker, port);
      MergedPairs(rows, front, last.dup, port);
      if w :| (w, port) in ActivePairs(rows) && Follow(merges, w) == worker {
        assert Follow(front, w) == worker || Follow(front, w) == last.dup;
      }
      if worker != last.dup {
        if w :| (w, port) in ActivePairs(rows) && Follow(front, w) == worker {
          assert Follow(merges, w) == worker;
        }
        if w :| (w, port) in ActivePairs(rows) && Follow(front, w) == last.dup {
          assert Follow(merges, w) == last.kept;
        }
      }
    } else {
      assert Follow(merges, worker) == worker;
    }
  }

  // ---- Repairing active ports ----

  /** Created earlier, or at the same time with a smaller id. */
  predicate Earlier(a: Instance, b: Instance) {
    a.created < b.created || (a.created == b.created && a.id < b.id)
  }

  predicate EarlierOrSame(a: Instance, b: Instance) {
    a.created < b.created || (a.created == b.created && a.id <= b.id)
  }

  /** Another active row has the same worker and port, and comes first. */
  predicate Superseded(rows: seq<Instance>, r: Instance) {
    && r.Reserved() && r.worker.Some? && r.port.Some?
    && exists q :: q in rows && Holds(q, r.worker.value, r.port.value) && Earlier(q, r)
  }

  function RepairedRow(rows: seq<Instance>, r: Instance): Instance {
    if Superseded(rows, r) then Nulled(r, DUPLICATE) else r
  }

  function Repaired(rows: seq<Instance>): (after: seq<Instance>)
    ensures |after| == |rows|
  {
    seq(|rows|, i requires 0 <= i < |rows| => RepairedRow(rows, rows[i]))
  }

  /** The partial unique index on (worker, port). */
  ghost predicate PortsUnique(rows: seq<Instance>) {
    forall i, j :: 0 <= i < j < |rows| && rows[i].Reserved() && rows[j].Reserved()
                   && rows[i].worker.Some? && rows[i].port.Some? && rows[i].worker == rows[j].worker ==>
                   rows[i].port != rows[j].port
  }

  lemma OneSuperseded(rows: seq<Instance>, a: Instance, b: Instance, worker: Id, port: int)
    requires a in rows && b in rows && a.id != b.id && Holds(a, worker, port) && Holds(b, worker, port)
    ensures Superseded(rows, a) || Superseded(rows, b)
  {
    assert Earlier(a, b) || Earlier(b, a);
  }

  lemma RepairedUnique(rows: seq<Instance>)
    requires DistinctRows(rows)
    ensures PortsUnique(Repaired(rows))
  {
    var after := Repaired(rows);
    forall i, j | 0 <= i < j < |after| && after[i].Reserved() && after[j].Reserved()
                  && after[i].worker.Some? && after[i].port.Some? && after[i].worker == after[j].worker
      ensures after[i].port != after[j].port {
      assert after[i] == rows[i] && after[j] == rows[j];
      if rows[i].port == rows[j].port {
        OneSuperseded(rows, rows[i], rows[j], rows[i].worker.value, rows[i].port.value);
      }
    }
  }

  /** Among the holders of a pair there is one that nothing supersedes. */
  lemma {:induction false} FirstHolder(rows: seq<Instance>, n: nat, worker: Id, port: int) returns (first: Instance)
    requires n <= |rows| && exists r :: r in rows[..n] && Holds(r, worker, port)
    ensures first in rows && Holds(first, worker, port)
    ensures forall r :: r in rows[..n] && Holds(r, worker, port) ==> !Earlier(r, first)
  {
    var last := rows[n - 1];
    assert rows[..n] == rows[..n - 1] + [last];
    if exists r :: r in rows[..n - 1] && Holds(r, worker, port) {
      first := FirstHolder(rows, n - 1, worker, port);
      if Holds(last, worker, port) && Earlier(last, first) {
        first := last;
      }
    } else {
      first := last;
    }
  }

  /** Repairing loses no active pair. */
  lemma RepairedPairs(rows: seq<Instance>)
    ensures ActivePairs(Repaired(rows)) == ActivePairs(rows)
  {
    var after := Repaired(rows);
    forall worker, port ensures (worker, port) in ActivePairs(after) <==> (worker, port) in ActivePairs(rows) {
      PairMember(after, worker, port);
      PairMember(rows, worker, port);
      if r :| r in after && Holds(r, worker, port) {
        var i :| 0 <= i < |after| && after[i] == r;
        assert rows[i] in rows;
      }
      if exists r :: r in rows && Holds(r, worker, port) {
        assert rows[..|rows|] == rows;
        var first := FirstHolder(rows, |rows|, worker, port);
        var i :| 0 <= i < |rows| && rows[i] == first;
        assert !Superseded(rows, first);
        assert after[i] in after;
      }
    }
  }

  // ---- The upgrade ----

  datatype PortKey = PortKey(worker: Option<Id>, port: int)

  /** Active rows with this worker and port; a comparison with a missing worker matches nothing. */
  function Holders(rows: seq<Instance>, key: PortKey): seq<Instance> {
    Filter(rows, (r: Instance) => key.worker.Some? && Holds(r, key.worker.value, key.port))
  }

  function PortKeys(rows: seq<Instance>): set<PortKey> {
    set r | r in rows && r.Reserved() && r.port.Some? :: PortKey(r.worker, r.port.value)
  }

  /** The groups the query finds: here a missing worker is a group like any other. */
  function SharedPorts(rows: seq<Instance>): set<PortKey> {
    set k | k in PortKeys(rows)
            && |Filter(rows, (r: Instance) => r.Reserved() && r.worker == k.worker && r.port == Some(k.port))| > 1
  }

  function HostKeys(workers: seq<Host>, column: Column): set<HostKey> {
    set w | w in workers :: KeyOf(column, w)
  }

  function SharedHosts(workers: seq<Host>, column: Column): set<HostKey> {
    set k | k in HostKeys(workers, column) && |Members(workers, column, k)| > 1
  }

  /** At most one worker per key. */
  ghost predicate HostsUnique(workers: seq<Host>, column: Column) {
    forall v, w :: v in workers && w in workers && KeyOf(column, v) == KeyOf(column, w) ==> v == w
  }

  // ---- Composing merges ----

  lemma LeftNothing(workers: seq<Host>)
    ensures Left(workers, []) == workers
  {
    var none: seq<Merge> := [];
    FilterAll(workers, (w: Host) => forall m :: m in none ==> m.dup != w.id);
  }

  lemma {:induction false} LeftSnoc(workers: seq<Host>, merges: seq<Merge>, m: Merge)
    ensures Left(workers, merges + [m]) == Filter(Left(workers, merges), (w: Host) => w.id != m.dup)
  {
    if workers != [] {
      LeftSnoc(workers[1..], merges, m);
      assert forall x :: x in merges + [m] <==> x in merges || x == m;
    }
  }

  lemma MergedSnoc(rows: seq<Instance>, merges: seq<Merge>, m: Merge)
    ensures MergedAll(rows, merges + [m]) == Merged(MergedAll(rows, merges), m.kept, m.dup)
  {
    assert (merges + [m])[..|merges|] == merges;
  }

  lemma ValidSnoc(workers: seq<Host>, merges: seq<Merge>, m: Merge)
    requires ValidMerges(workers, merges) && m.kept != m.dup && SameCluster(Left(workers, merges), m.kept, m.dup)
    ensures ValidMerges(workers, merges + [m])
  {
    assert (merges + [m])[..|merges|] == merges;
  }

  lemma Rebracket<T>(a: seq<T>, b: seq<T>, k: nat)
    requires 0 < k <= |b|
    ensures a + b[..k] == (a + b[..k - 1]) + [b[k - 1]]
  {
  }

  lemma {:induction false} ComposeLeft(workers: seq<Host>, first: seq<Merge>, more: seq<Merge>)
    ensures Left(workers, first + more) == Left(Left(workers, first), more)
    decreases |more|
  {
    if more == [] {
      assert first + more == first;
      LeftNothing(Left(workers, first));
    } else {
      var n := |more| - 1;
      ComposeLeft(workers, first, more[..n]);
      LeftSnoc(workers, first + more[..n], more[n]);
      LeftSnoc(Left(workers, first), more[..n], more[n]);
      assert first + more == (first + more[..n]) + [more[n]] && more == more[..n] + [more[n]];
    }
  }

  lemma {:induction false} ComposeRows(rows: seq<Instance>, first: seq<Merge>, more: seq<Merge>)
    ensures MergedAll(rows, first + more) == MergedAll(MergedAll(rows, first), more)
    decreases |more|
  {
    if more == [] {
      assert first + more == first;
    } else {
      var n := |more| - 1;
      ComposeRows(rows, first, more[..n]);
      MergedSnoc(rows, first + more[..n], more[n]);
      assert first + more == (first + more[..n]) + [more[n]];
    }
  }

  lemma LastValid(workers: seq<Host>, merges: seq<Merge>)
    requires ValidMerges(workers, merges) && merges != []
    ensures var n := |merges| - 1;
            && ValidMerges(workers, merges[..n]) && merges[n].kept != merges[n].dup
            && SameCluster(Left(workers, merges[..n]), merges[n].kept, merges[n].dup)
  {
  }

  lemma {:induction false} ComposeValid(workers: seq<Host>, first: seq<Merge>, more: seq<Merge>, k: nat)
    requires ValidMerges(workers, first) && k <= |more| && ValidMerges(Left(workers, first), more[..k])
    ensures ValidMerges(workers, first + more[..k])
    decreases k
  {
    if k == 0 {
      assert first + more[..0] == first;
    } else {
      var front, last := more[..k - 1], more[k - 1];
      assert more[..k][..k - 1] == front;
      LastValid(Left(workers, first), more[..k]);
      ComposeValid(workers, first, more, k - 1);
      ComposeLeft(workers, first, front);
      ValidSnoc(workers, first + front, last);
      Rebracket(first, more, k);
    }
  }

  lemma Compose(workers: seq<Host>, rows: seq<Instance>, first: seq<Merge>, more: seq<Merge>)
    requires ValidMerges(workers, first) && ValidMerges(Left(workers, first), more)
    ensures ValidMerges(workers, first + more)
    ensures Left(workers, first + more) == Left(Left(workers, first), more)
    ensures MergedAll(rows, first + more) == MergedAll(MergedAll(rows, first), more)
  {
    ComposeLeft(workers, first, more);
    ComposeRows(rows, first, more);
    assert more[..|more|] == more;
    ComposeValid(workers, first, more, |more|);
  }

  lemma LeftDistinct(workers: seq<Host>, merges: seq<Merge>)
    requires DistinctHosts(workers)
    ensures DistinctHosts(Left(workers, merges))
  {
    var stays, apart := (w: Host) => forall m :: m in merges ==> m.dup != w.id, (a: Host, b: Host) => a.id != b.id;
    assert PairwiseApart(workers, apart);
    FilterKeepsApart(workers, stays, apart);
    assert PairwiseApart(Left(workers, merges), apart);
  }

  // ---- One group ----

  /** The merges of one group: every worker but the first of the ranking goes into the first. */
  function GroupMerges(sorted: seq<Host>, n: nat): seq<Merge>
    requires 1 <= n <= |sorted|
  {
    seq(n - 1, i requires 0 <= i < n - 1 => Merge(sorted[0].id, sorted[i + 1].id))
  }

  lemma GroupFacts(workers: seq<Host>, column: Column, key: HostKey)
    requires DistinctHosts(workers)
    ensures var sorted := Sort(Members(workers, column, key), Newer);
            && (forall w :: w in sorted <==> w in workers && KeyOf(column, w) == key)
            && DistinctHosts(sorted)
  {
    var inGroup, apart := (w: Host) => KeyOf(column, w) == key, (a: Host, b: Host) => a.id != b.id;
    FilterMembers(workers, inGroup);
    assert PairwiseApart(workers, apart);
    FilterKeepsApart(workers, inGroup, apart);
    SortPermutes(Members(workers, column, key), Newer);
    SortKeepsApart(Members(workers, column, key), Newer, apart);
    assert PairwiseApart(Sort(Members(workers, column, key), Newer), apart);
  }

  lemma GroupKeepsNewest(workers: seq<Host>, column: Column, key: HostKey)
    requires DistinctHosts(workers) && key in HostKeys(workers, column)
    ensures var sorted := Sort(Members(workers, column, key), Newer);
            sorted != [] && NewestStay(workers, Left(workers, GroupMerges(sorted, |sorted|)), column)
  {
    var sorted := Sort(Members(workers, column, key), Newer);
    GroupFacts(workers, column, key);
    var some :| some in workers && KeyOf(column, some) == key;
    assert some in sorted;
    NewerIsOrder();
    SortSorts(Members(workers, column, key), Newer);
    GroupDone(workers, column, key, sorted);
    var after := Left(workers, GroupMerges(sorted, |sorted|));
    forall w | w in workers ensures HasNewer(after, column, w) {
      assert Newer(w, w);
      if KeyOf(column, w) == key {
        var k :| 0 <= k < |sorted| && sorted[k] == w;
        assert sorted[0] in sorted;
        GroupStays(workers, sorted, |sorted|, 0);
        assert k > 0 ==> Newer(sorted[0], sorted[k]);
      }
    }
    NewestIf(workers, after, column);
  }

  lemma GroupStays(workers: seq<Host>, sorted: seq<Host>, n: nat, k: nat)
    requires DistinctHosts(sorted) && 1 <= n <= |sorted| && k < |sorted| && (k == 0 || k >= n)
    requires sorted[k] in workers
    ensures sorted[k] in Left(workers, GroupMerges(sorted, n))
  {
    var merges := GroupMerges(sorted, n);
    LeftMember(workers, merges, sorted[k]);
    forall m | m in merges ensures m.dup != sorted[k].id {
      var i :| 0 <= i < |merges| && merges[i] == m;
      assert sorted[Min(k, i + 1)].id != sorted[Max(k, i + 1)].id;
    }
  }

  lemma GroupStep(workers: seq<Host>, sorted: seq<Host>, n: nat)
    requires DistinctHosts(sorted) && 1 <= n < |sorted|
    requires sorted[0] in workers && sorted[n] in workers && sorted[0].cluster == sorted[n].cluster
    requires ValidMerges(workers, GroupMerges(sorted, n))
    ensures sorted[0].id != sorted[n].id
    ensures GroupMerges(sorted, n + 1) == GroupMerges(sorted, n) + [Merge(sorted[0].id, sorted[n].id)]
    ensures ValidMerges(workers, GroupMerges(sorted, n + 1))
  {
    var merges := GroupMerges(sorted, n);
    GroupMeets(workers, sorted, n);
    ValidSnoc(workers, merges, Merge(sorted[0].id, sorted[n].id));
    assert GroupMerges(sorted, n + 1) == merges + [Merge(sorted[0].id, sorted[n].id)];
  }

  /** Both are still there. */
  lemma GroupMeets(workers: seq<Host>, sorted: seq<Host>, n: nat)
    requires DistinctHosts(sorted) && 1 <= n < |sorted|
    requires sorted[0] in workers && sorted[n] in workers && sorted[0].cluster == sorted[n].cluster
    ensures sorted[0].id != sorted[n].id && SameCluster(Left(workers, GroupMerges(sorted, n)), sorted[0].id, sorted[n].id)
  {
    GroupStays(workers, sorted, n, 0);
    GroupStays(workers, sorted, n, n);
  }

  /** The n-th member of the group is merged next. */
  lemma GroupAdvance(workers: seq<Host>, rows: seq<Instance>, sorted: seq<Host>, n: nat)
    requires DistinctHosts(sorted) && 1 <= n < |sorted|
    requires sorted[0] in workers && sorted[n] in workers && sorted[0].cluster == sorted[n].cluster
    requires ValidMerges(workers, GroupMerges(sorted, n))
    ensures sorted[0].id != sorted[n].id && ValidMerges(workers, GroupMerges(sorted, n + 1))
    ensures Filter(Left(workers, GroupMerges(sorted, n)), (w: Host) => w.id != sorted[n].id)
            == Left(workers, GroupMerges(sorted, n + 1))
    ensures Merged(MergedAll(rows, GroupMerges(sorted, n)), sorted[0].id, sorted[n].id)
            == MergedAll(rows, GroupMerges(sorted, n + 1))
  {
    var m := Merge(sorted[0].id, sorted[n].id);
    GroupStep(workers, sorted, n);
    LeftSnoc(workers, GroupMerges(sorted, n), m);
    MergedSnoc(rows, GroupMerges(sorted, n), m);
  }

  ghost predicate OnlyOne(workers: seq<Host>, column: Column, key: HostKey) {
    forall v, w :: v in workers && w in workers && KeyOf(column, v) == key && KeyOf(column, w) == key ==> v == w
  }

  ghost predicate OthersStay(before: seq<Host>, after: seq<Host>, column: Column, key: HostKey) {
    forall w :: w in before && KeyOf(column, w) != key ==> w in after
  }

  /** No two workers share a key, unless it is still to be processed. */
  ghost predicate UniqueExcept(workers: seq<Host>, column: Column, left: set<HostKey>) {
    forall v, w :: v in workers && w in workers ==>
      KeyOf(column, v) == KeyOf(column, w) && KeyOf(column, v) !in left ==> v == w
  }

  lemma UniqueStep(before: seq<Host>, merges: seq<Merge>, after: seq<Host>, column: Column, key: HostKey, left: set<HostKey>)
    requires after == Left(before, merges)
    requires UniqueExcept(before, column, left) && left <= HostKeys(before, column)
    requires OnlyOne(after, column, key) && OthersStay(before, after, column, key)
    ensures UniqueExcept(after, column, left - {key}) && left - {key} <= HostKeys(after, column)
  {
    forall w | w in after ensures w in before {
      LeftMember(before, merges, w);
    }
  }

  lemma UniqueAtFirst(workers: seq<Host>, column: Column)
    ensures UniqueExcept(workers, column, SharedHosts(workers, column))
  {
    forall v, w | v in workers && w in workers && KeyOf(column, v) == KeyOf(column, w)
                  && KeyOf(column, v) !in SharedHosts(workers, column)
      ensures v == w {
      UnsharedUnique(workers, column, v, w);
    }
  }

  lemma GroupDone(workers: seq<Host>, column: Column, key: HostKey, sorted: seq<Host>)
    requires DistinctHosts(workers) && sorted != [] && DistinctHosts(sorted)
    requires forall w :: w in sorted <==> w in workers && KeyOf(column, w) == key
    ensures var after := Left(workers, GroupMerges(sorted, |sorted|));
            OnlyOne(after, column, key) && OthersStay(workers, after, column, key)
  {
    var merges := GroupMerges(sorted, |sorted|);
    forall w | w in Left(workers, merges) ensures w in workers && (KeyOf(column, w) == key ==> w == sorted[0]) {
      LeftMember(workers, merges, w);
      assert forall i :: 0 <= i < |merges| ==> merges[i] in merges && merges[i].dup == sorted[i + 1].id;
      if KeyOf(column, w) == key {
        var k :| 0 <= k < |sorted| && sorted[k] == w;
        assert forall i :: 0 <= i < |merges| ==> merges[i].dup != w.id;
        assert forall i :: 1 <= i < |sorted| ==> merges[i - 1].dup == sorted[i].id;
      }
    }
    forall w | w in workers && KeyOf(column, w) != key ensures w in Left(workers, merges) {
      LeftMember(workers, merges, w);
      forall m | m in merges ensures m.dup != w.id {
        var i :| 0 <= i < |merges| && merges[i] == m;
        assert sorted[i + 1] in sorted;
        if sorted[i + 1].id == w.id {
          SameRow(workers, sorted[i + 1], w);
        }
      }
    }
  }

  lemma UnsharedUnique(workers: seq<Host>, column: Column, v: Host, w: Host)
    requires v in workers && w in workers && KeyOf(column, v) == KeyOf(column, w)
    requires KeyOf(column, v) !in SharedHosts(workers, column)
    ensures v == w
  {
    var key := KeyOf(column, v);
    var members := Members(workers, column, key);
    FilterMembers(workers, (w: Host) => KeyOf(column, w) == key);
    assert key in HostKeys(workers, column);
    assert |members| <= 1 && v in members && w in members;
  }

  /** While the ports of `dup` are freed, what is active on `kept` stays the same. */
  lemma CollidesSame(before: seq<Instance>, current: seq<Instance>, kept: Id, dup: Id, n: nat)
    requires kept != dup && |current| == |before| && n < |before|
    requires current[n] == before[n]
    requires forall i :: 0 <= i < |before| ==>
               current[i] == before[i] || (before[i].worker == Some(dup) && current[i] == Nulled(before[i], COLLISION))
    ensures Collides(current, kept, current[n]) <==> Collides(before, kept, before[n])
  {
    var r := before[n];
    if r.port.Some? {
      if k :| k in before && Holds(k, kept, r.port.value) {
        var i :| 0 <= i < |before| && before[i] == k;
        assert current[i] in current;
      }
      if k :| k in current && Holds(k, kept, r.port.value) {
        var i :| 0 <= i < |current| && current[i] == k;
        assert before[i] in before;
      }
    }
  }

  // ---- One shared port ----

  function NullAll(rows: seq<Instance>, ids: set<Id>): (after: seq<Instance>)
    ensures |after| == |rows|
  {
    seq(|rows|, i requires 0 <= i < |rows| => if rows[i].id in ids then Nulled(rows[i], DUPLICATE) else rows[i])
  }

  /** The ids of all but the first of a ranking. */
  function LaterIds(sorted: seq<Instance>, n: nat): set<Id>
    requires 1 <= n <= |sorted|
  {
    set i | 1 <= i < n :: sorted[i].id
  }

  /** Which rows of a group are not its earliest. */
  predicate Later(rows: seq<Instance>, key: PortKey, r: Instance) {
    && key.worker.Some? && Holds(r, key.worker.value, key.port)
    && exists q :: q in rows && Holds(q, key.worker.value, key.port) && Earlier(q, r)
  }

  lemma HoldersOrdered(rows: seq<Instance>, key: PortKey)
    requires DistinctRows(rows)
    ensures var sorted := Sort(Holders(rows, key), EarlierOrSame);
            && (forall r :: r in sorted <==> r in rows && key.worker.Some? && Holds(r, key.worker.value, key.port))
            && (forall i, j :: 0 <= i < j < |sorted| ==> Earlier(sorted[i], sorted[j]))
  {
    var holds := (r: Instance) => key.worker.Some? && Holds(r, key.worker.value, key.port);
    var apart := (a: Instance, b: Instance) => a.id != b.id;
    FilterMembers(rows, holds);
    assert PairwiseApart(rows, apart);
    FilterKeepsApart(rows, holds, apart);
    SortPermutes(Holders(rows, key), EarlierOrSame);
    SortKeepsApart(Holders(rows, key), EarlierOrSame, apart);
    SortSorts(Holders(rows, key), EarlierOrSame);
    var sorted := Sort(Holders(rows, key), EarlierOrSame);
    forall i, j | 0 <= i < j < |sorted| ensures Earlier(sorted[i], sorted[j]) {
      assert EarlierOrSame(sorted[i], sorted[j]);
      assert apart(sorted[i], sorted[j]);
    }
  }

  lemma LaterIsNotFirst(rows: seq<Instance>, key: PortKey, r: Instance)
    requires DistinctRows(rows) && r in rows
    requires Sort(Holders(rows, key), EarlierOrSame) != []
    ensures var sorted := Sort(Holders(rows, key), EarlierOrSame);
            r.id in LaterIds(sorted, |sorted|) <==> Later(rows, key, r)
  {
    var sorted := Sort(Holders(rows, key), EarlierOrSame);
    HoldersOrdered(rows, key);
    if r.id in LaterIds(sorted, |sorted|) {
      var i :| 1 <= i < |sorted| && sorted[i].id == r.id;
      assert sorted[i] in sorted;
      OneInstance(rows, sorted[i], r);
      assert Earlier(sorted[0], sorted[i]) && sorted[0] in sorted;
    }
    if Later(rows, key, r) {
      var q :| q in rows && Holds(q, key.worker.value, key.port) && Earlier(q, r);
      var i :| 0 <= i < |sorted| && sorted[i] == r;
      var j :| 0 <= j < |sorted| && sorted[j] == q;
      assert i != 0;
    }
  }

  lemma OneInstance(rows: seq<Instance>, a: Instance, b: Instance)
    requires DistinctRows(rows) && a in rows && b in rows && a.id == b.id
    ensures a == b
  {
    var i :| 0 <= i < |rows| && rows[i] == a;
    var j :| 0 <= j < |rows| && rows[j] == b;
    assert i == j by {
      assert rows[Min(i, j)].id == rows[Max(i, j)].id;
    }
  }

  /** A row once the groups outside `left` are repaired. */
  function RepairedExcept(rows: seq<Instance>, left: set<PortKey>, r: Instance): Instance {
    if r.Reserved() && r.port.Some? && PortKey(r.worker, r.port.value) in SharedPorts(rows) - left
    then RepairedRow(rows, r) else r
  }

  ghost predicate Underway(rows: seq<Instance>, left: set<PortKey>, current: seq<Instance>) {
    |current| == |rows| && forall i :: 0 <= i < |rows| ==> current[i] == RepairedExcept(rows, left, rows[i])
  }

  /** A group still to be repaired looks as it did at the start. */
  lemma GroupUntouched(rows: seq<Instance>, left: set<PortKey>, current: seq<Instance>, key: PortKey, i: nat)
    requires Underway(rows, left, current) && key in left && key.worker.Some? && i < |rows|
    ensures Holds(current[i], key.worker.value, key.port) <==> Holds(rows[i], key.worker.value, key.port)
    ensures Holds(rows[i], key.worker.value, key.port) ==> current[i] == rows[i]
  {
  }

  lemma LaterIsSuperseded(rows: seq<Instance>, left: set<PortKey>, current: seq<Instance>, key: PortKey, i: nat)
    requires Underway(rows, left, current) && key in left && i < |rows|
    ensures Later(current, key, current[i]) <==>
              key.worker.Some? && Holds(rows[i], key.worker.value, key.port) && Superseded(rows, rows[i])
  {
    if key.worker.Some? {
      GroupUntouched(rows, left, current, key, i);
      forall j | 0 <= j < |rows| ensures Holds(current[j], key.worker.value, key.port) ==> current[j] == rows[j] && rows[j] in rows {
        GroupUntouched(rows, left, current, key, j);
      }
      if Later(current, key, current[i]) {
        var q :| q in current && Holds(q, key.worker.value, key.port) && Earlier(q, current[i]);
        var j :| 0 <= j < |current| && current[j] == q;
        assert q in rows;
      }
      if Holds(rows[i], key.worker.value, key.port) && Superseded(rows, rows[i]) {
        var q :| q in rows && Holds(q, key.worker.value, key.port) && Earlier(q, rows[i]);
        var j :| 0 <= j < |rows| && rows[j] == q;
        GroupUntouched(rows, left, current, key, j);
        assert current[j] in current;
      }
    }
  }

  /** Repairing one more group. */
  lemma RepairStep(rows: seq<Instance>, left: set<PortKey>, current: seq<Instance>, key: PortKey, next: seq<Instance>)
    requires Underway(rows, left, current) && key in left && left <= SharedPorts(rows) && |next| == |current|
    requires forall i :: 0 <= i < |current| ==>
               next[i] == if Later(current, key, current[i]) then Nulled(current[i], DUPLICATE) else current[i]
    ensures Underway(rows, left - {key}, next)
  {
    forall i | 0 <= i < |rows| ensures next[i] == RepairedExcept(rows, left - {key}, rows[i]) {
      LaterIsSuperseded(rows, left, current, key, i);
      if key.worker.Some? {
        GroupUntouched(rows, left, current, key, i);
      }
    }
  }

  lemma UnderwayDistinct(rows: seq<Instance>, left: set<PortKey>, current: seq<Instance>)
    requires Underway(rows, left, current) && DistinctRows(rows)
    ensures DistinctRows(current)
  {
    assert forall i :: 0 <= i < |rows| ==> current[i].id == rows[i].id;
  }

  /** A row that is superseded shares its port: when all shared ports are repaired, all is repaired. */
  lemma RepairDone(rows: seq<Instance>, current: seq<Instance>)
    requires Underway(rows, {}, current)
    ensures current == Repaired(rows)
  {
    forall i | 0 <= i < |rows| && Superseded(rows, rows[i])
      ensures PortKey(rows[i].worker, rows[i].port.value) in SharedPorts(rows) {
      var r := rows[i];
      var key := PortKey(r.worker, r.port.value);
      var q :| q in rows && Holds(q, r.worker.value, r.port.value) && Earlier(q, r);
      var inGroup := (r: Instance) => r.Reserved() && r.worker == key.worker && r.port == Some(key.port);
      FilterMembers(rows, inGroup);
      var group := Filter(rows, inGroup);
      assert r in rows && r in group && q in group && q != r;
      assert key in PortKeys(rows);
    }
  }

  // ---- What a deduplication keeps, in columns ----

  /** Each merge is of two workers of one group. */
  ghost predicate Keyed(workers: seq<Host>, column: Column, merges: seq<Merge>) {
    forall m, v, w :: m in merges && v in workers && w in workers && v.id == m.kept && w.id == m.dup ==>
      SameGroup(column, v, w)
  }

  lemma GroupKeyed(workers: seq<Host>, column: Column, key: HostKey, sorted: seq<Host>)
    requires DistinctHosts(workers) && sorted != []
    requires forall w :: w in sorted <==> w in workers && KeyOf(column, w) == key
    ensures Keyed(workers, column, GroupMerges(sorted, |sorted|))
  {
    var merges := GroupMerges(sorted, |sorted|);
    forall m, v, w | m in merges && v in workers && w in workers && v.id == m.kept && w.id == m.dup
      ensures SameGroup(column, v, w) {
      var i :| 0 <= i < |merges| && merges[i] == m;
      assert sorted[0] in sorted && sorted[i + 1] in sorted;
      SameRow(workers, v, sorted[0]);
      SameRow(workers, w, sorted[i + 1]);
      NewerIs(column, v, w);
    }
  }

  lemma {:induction false} MergeKnown(workers: seq<Host>, merges: seq<Merge>, m: Merge)
    requires ValidMerges(workers, merges) && m in merges
    ensures Known(workers, m.kept) && Known(workers, m.dup)
    decreases |merges|
  {
    var n := |merges| - 1;
    if m == merges[n] {
      var v, w :| v in Left(workers, merges[..n]) && w in Left(workers, merges[..n]) && v.id == m.kept && w.id == m.dup;
      LeftMember(workers, merges[..n], v);
      LeftMember(workers, merges[..n], w);
    } else {
      assert merges == merges[..n] + [merges[n]];
      MergeKnown(workers, merges[..n], m);
    }
  }

  lemma KeyedStep(before: seq<Host>, column: Column, first: seq<Merge>, more: seq<Merge>)
    requires DistinctHosts(before) && Keyed(before, column, first)
    requires ValidMerges(Left(before, first), more) && Keyed(Left(before, first), column, more)
    ensures Keyed(before, column, first + more)
  {
    var current := Left(before, first);
    forall m, v, w | m in first + more && v in before && w in before && v.id == m.kept && w.id == m.dup
      ensures SameGroup(column, v, w) {
      if m !in first {
        MergeKnown(current, more, m);
        var x :| x in current && x.id == m.kept;
        var y :| y in current && y.id == m.dup;
        LeftMember(before, first, x);
        LeftMember(before, first, y);
        SameRow(before, v, x);
        SameRow(before, w, y);
      }
    }
  }

  lemma {:induction false} FollowGroup(workers: seq<Host>, column: Column, merges: seq<Merge>, w: Host) returns (v: Host)
    requires DistinctHosts(workers) && ValidMerges(workers, merges) && Keyed(workers, column, merges) && w in workers
    ensures v in Left(workers, merges) && v.id == Follow(merges, w.id) && SameGroup(column, v, w)
    decreases |merges|
  {
    v := FollowStays(workers, merges, w);
    if merges != [] {
      var n := |merges| - 1;
      var front, last := merges[..n], merges[n];
      assert merges == front + [last];
      var u := FollowGroup(workers, column, front, w);
      LeftMember(workers, front, u);
      LeftMember(workers, merges, v);
      if u.id != last.dup {
        SameRow(workers, u, v);
      } else {
        assert last in merges && SameGroup(column, v, u);
      }
    } else {
      LeftMember(workers, merges, v);
      SameRow(workers, v, w);
    }
  }

  /** Every worker's instances are now on the one worker left of its group, and nobody in the group was seen
      later, or as late and created later, or as late with a larger id. */
  ghost predicate NewestKept(before: seq<Host>, after: seq<Host>, column: Column, merges: seq<Merge>) {
    && (forall v, w :: v in after && w in after && SameGroup(column, v, w) ==> v == w)
    && forall w :: w in before ==> exists v :: v in after && v.id == Follow(merges, w.id) && Heads(before, column, v, w)
  }

  ghost predicate Heads(workers: seq<Host>, column: Column, v: Host, w: Host) {
    SameGroup(column, v, w) && forall u :: u in workers && SameGroup(column, u, w) ==> NoLessRecent(v, u)
  }

  lemma KeptIsNewest(before: seq<Host>, column: Column, merges: seq<Merge>)
    requires DistinctHosts(before) && ValidMerges(before, merges) && Keyed(before, column, merges)
    requires HostsUnique(Left(before, merges), column) && NewestStay(before, Left(before, merges), column)
    ensures NewestKept(before, Left(before, merges), column, merges)
  {
    var after := Left(before, merges);
    forall v, w ensures KeyOf(column, v) == KeyOf(column, w) <==> SameGroup(column, v, w) {
      NewerIs(column, v, w);
    }
    forall w | w in before ensures exists v :: v in after && v.id == Follow(merges, w.id) && Heads(before, column, v, w) {
      var v := FollowGroup(before, column, merges, w);
      forall u | u in before && SameGroup(column, u, w) ensures NoLessRecent(v, u) {
        NewestAt(before, after, column, u);
        var x :| x in after && KeyOf(column, x) == KeyOf(column, u) && Newer(x, u);
        assert x == v;
        NewerIs(column, x, u);
      }
    }
  }

  /** Another active row of the worker has the port too, and was created earlier, or at the same time with a
      smaller id. */
  ghost predicate LosesPort(rows: seq<Instance>, r: Instance) {
    && Active(r) && r.worker.Some? && r.port.Some?
    && exists q :: q in rows && Active(q) && q.worker == r.worker && q.port == r.port
                   && (q.created < r.created || (q.created == r.created && q.id < r.id))
  }

  predicate Active(r: Instance) {
    r.desired == WantRunning || r.state == Scheduled || r.state == Starting || r.state == Running
  }

  class Upgrade {
    var workers: seq<Host>
    var instances: seq<Instance>

    constructor (workers: seq<Host>, instances: seq<Instance>)
      ensures this.workers == workers && this.instances == instances
    {
      this.workers, this.instances := workers, instances;
    }

    /** One duplicate: free the colliding ports, move the instances, delete the worker. */
    method MergeInto(kept: Id, dup: Id)
      requires kept != dup
      modifies this
      ensures instances == Merged(old(instances), kept, dup)
      ensures workers == Filter(old(workers), (w: Host) => w.id != dup)
    {
      var before := instances;
      for n := 0 to |instances|
        invariant |instances| == |before| && workers == old(workers)
        invariant forall i :: n <= i < |before| ==> instances[i] == before[i]
        invariant forall i :: 0 <= i < n ==>
          instances[i] == if before[i].worker == Some(dup) && Collides(before, kept, before[i])
                          then Nulled(before[i], COLLISION) else before[i]
      {
        CollidesSame(before, instances, kept, dup, n);
        if instances[n].worker == Some(dup) && Collides(instances, kept, instances[n]) {
          instances := instances[n := Nulled(instances[n], COLLISION)];
        }
      }
      for n := 0 to |instances|
        invariant |instances| == |before| && workers == old(workers)
        invariant forall i :: n <= i < |before| ==>
          instances[i] == if before[i].worker == Some(dup) && Collides(before, kept, before[i])
                          then Nulled(before[i], COLLISION) else before[i]
        invariant forall i :: 0 <= i < n ==> instances[i] == MergedRow(before, kept, dup, before[i])
      {
        if instances[n].worker == Some(dup) {
          instances := instances[n := instances[n].(worker := Some(kept))];
        }
      }
      workers := Filter(workers, (w: Host) => w.id != dup);
    }

    /** One shared key: all its workers are merged into the newest. */
    method MergeGroup(column: Column, key: HostKey) returns (ghost merges: seq<Merge>)
      requires DistinctHosts(workers) && key in HostKeys(workers, column)
      modifies this
      ensures ValidMerges(old(workers), merges)
      ensures workers == Left(old(workers), merges) && instances == MergedAll(old(instances), merges)
      ensures OnlyOne(workers, column, key) && OthersStay(old(workers), workers, column, key)
      ensures NewestStay(old(workers), workers, column) && Keyed(old(workers), column, merges)
    {
      ghost var before, rows := workers, instances;
      var sorted := Sort(Members(workers, column, key), Newer);
      GroupFacts(workers, column, key);
      var kept := sorted[0].id;
      LeftNothing(workers);
      for n := 1 to |sorted|
        invariant ValidMerges(before, GroupMerges(sorted, n)) && workers == Left(before, GroupMerges(sorted, n))
        invariant instances == MergedAll(rows, GroupMerges(sorted, n))
      {
        assert sorted[0] in sorted && sorted[n] in sorted;
        GroupAdvance(before, rows, sorted, n);
        MergeInto(kept, sorted[n].id);
      }
      GroupDone(before, column, key, sorted);
      GroupKeepsNewest(before, column, key);
      GroupKeyed(before, column, key, sorted);
      merges := GroupMerges(sorted, |sorted|);
    }

    /** All keys shared at the start, one after the other. */
    method Deduplicate(column: Column) returns (ghost merges: seq<Merge>)
      requires DistinctHosts(workers)
      modifies this
      ensures ValidMerges(old(workers), merges)
      ensures workers == Left(old(workers), merges) && instances == MergedAll(old(instances), merges)
      ensures NewestKept(old(workers), workers, column, merges)
      ensures HostsUnique(workers, column) && NewestStay(old(workers), workers, column)
    {
      ghost var before, rows := workers, instances;
      var left := SharedHosts(workers, column);
      merges := [];
      LeftNothing(workers);
      UniqueAtFirst(workers, column);
      NewestAtFirst(workers, column);
      while left != {}
        invariant ValidMerges(before, merges)
        invariant workers == Left(before, merges) && instances == MergedAll(rows, merges)
        invariant left <= HostKeys(workers, column) && UniqueExcept(workers, column, left)
        invariant NewestStay(before, workers, column) && Keyed(before, column, merges)
        decreases left
      {
        var key := Sets.AnyOf(left);
        LeftDistinct(before, merges);
        ghost var current := workers;
        ghost var more := MergeGroup(column, key);
        Compose(before, rows, merges, more);
        KeyedStep(before, column, merges, more);
        UniqueStep(current, more, workers, column, key, left);
        NewestCompose(before, current, workers, column);
        left := left - {key};
        merges := merges + more;
      }
      KeptIsNewest(before, column, merges);
    }

    method NullRow(id: Id)
      modifies `instances
      ensures instances == NullAll(old(instances), {id})
    {
      for n := 0 to |instances|
        invariant |instances| == |old(instances)|
        invariant forall i :: n <= i < |instances| ==> instances[i] == old(instances)[i]
        invariant forall i :: 0 <= i < n ==> instances[i] == NullAll(old(instances), {id})[i]
      {
        if instances[n].id == id {
          instances := instances[n := Nulled(instances[n], DUPLICATE)];
        }
      }
    }

    /** One shared port: its earliest active row keeps it. */
    method RepairGroup(key: PortKey)
      requires DistinctRows(instances)
      modifies `instances
      ensures |instances| == |old(instances)|
      ensures forall i :: 0 <= i < |instances| ==>
                instances[i] == if Later(old(instances), key, old(instances)[i]) then Nulled(old(instances)[i], DUPLICATE)
                                else old(instances)[i]
    {
      ghost var before := instances;
      var sorted := Sort(Holders(instances, key), EarlierOrSame);
      if sorted == [] {
        NoHolders(before, key);
        return;
      }
      for n := 1 to |sorted|
        invariant instances == NullAll(before, LaterIds(sorted, n))
      {
        NullRow(sorted[n].id);
        NullNext(before, sorted, n);
      }
      forall i | 0 <= i < |before| ensures before[i].id in LaterIds(sorted, |sorted|) <==> Later(before, key, before[i]) {
        LaterIsNotFirst(before, key, before[i]);
      }
    }

    method RepairPorts()
      requires DistinctRows(instances)
      modifies `instances
      ensures instances == Repaired(old(instances))
      ensures |instances| == |old(instances)| && forall i :: 0 <= i < |instances| ==>
                if LosesPort(old(instances), old(instances)[i])
                then GaveUpPort(old(instances)[i], instances[i], "dedup duplicate port")
                else instances[i] == old(instances)[i]
    {
      ghost var before := instances;
      var left := SharedPorts(instances);
      while left != {}
        invariant left <= SharedPorts(before) && Underway(before, left, instances)
        decreases left
      {
        var key := Sets.AnyOf(left);
        UnderwayDistinct(before, left, instances);
        ghost var current := instances;
        RepairGroup(key);
        RepairStep(before, left, current, key, instances);
        left := left - {key};
      }
      RepairDone(before, instances);
    }

    /** Merges by hostname, merges by name, the orphan check and the port repair. It raises exactly when an
        instance referred to a missing worker from the start. */
    method Run() returns (raised: bool, ghost first: seq<Merge>, ghost second: seq<Merge>)
      requires DistinctHosts(workers) && DistinctRows(instances)
      modifies this
      ensures ValidMerges(old(workers), first + second) && workers == Left(old(workers), first + second)
      ensures HostsUnique(workers, ByHostname) && HostsUnique(workers, ByName)
      ensures NewestKept(old(workers), Left(old(workers), first), ByHostname, first)
              && NewestKept(Left(old(workers), first), workers, ByName, second)
      ensures raised <==> Orphaned(old(workers), old(instances))
      ensures !raised ==> instances == Repaired(MergedAll(old(instances), first + second))
    {
      ghost var before, rows := workers, instances;
      first := Deduplicate(ByHostname);
      LeftDistinct(before, first);
      ghost var current := workers;
      second := Deduplicate(ByName);
      Compose(before, rows, first, second);
      forall w | w in workers ensures w in current {
        LeftMember(current, second, w);
      }
      OrphansStay(before, rows, first + second);
      raised := Orphaned(workers, instances);
      if !raised {
        MergedDistinct(rows, first + second);
        RepairPorts();
      }
    }
  }

  /** Some instance refers to a worker that does not exist. */
  predicate Orphaned(workers: seq<Host>, rows: seq<Instance>) {
    exists r :: r in rows && r.worker.Some? && !Known(workers, r.worker.value)
  }

  lemma NoHolders(rows: seq<Instance>, key: PortKey)
    requires Sort(Holders(rows, key), EarlierOrSame) == []
    ensures forall i :: 0 <= i < |rows| ==> !Later(rows, key, rows[i])
  {
    SortPermutes(Holders(rows, key), EarlierOrSame);
    FilterMembers(rows, (r: Instance) => key.worker.Some? && Holds(r, key.worker.value, key.port));
    forall i | 0 <= i < |rows| ensures !Later(rows, key, rows[i]) {
      assert rows[i] in rows;
    }
  }

  lemma NullNext(rows: seq<Instance>, sorted: seq<Instance>, n: nat)
    requires 1 <= n < |sorted|
    ensures NullAll(NullAll(rows, LaterIds(sorted, n)), {sorted[n].id}) == NullAll(rows, LaterIds(sorted, n + 1))
  {
    assert LaterIds(sorted, n + 1) == LaterIds(sorted, n) + {sorted[n].id};
  }

  lemma MergedDistinct(rows: seq<Instance>, merges: seq<Merge>)
    requires DistinctRows(rows)
    ensures DistinctRows(MergedAll(rows, merges))
  {
    forall i | 0 <= i < |rows| ensures MergedAll(rows, merges)[i].id == rows[i].id {
      MergedSurvive(rows, merges, i);
    }
  }

  lemma OrphansStay(workers: seq<Host>, rows: seq<Instance>, merges: seq<Merge>)
    requires DistinctHosts(workers) && ValidMerges(workers, merges)
    ensures Orphaned(Left(workers, merges), MergedAll(rows, merges)) <==> Orphaned(workers, rows)
  {
    var after := MergedAll(rows, merges);
    forall i | 0 <= i < |rows|
      ensures after[i].worker == FollowRow(merges, rows[i].worker)
      ensures rows[i].worker.Some? ==>
        (Known(Left(workers, merges), after[i].worker.value) <==> Known(workers, rows[i].worker.value)) {
      MergedSurvive(rows, merges, i);
      if rows[i].worker.Some? {
        KnownStays(workers, merges, rows[i].worker.value);
      }
    }
    if r :| r in rows && r.worker.Some? && !Known(workers, r.worker.value) {
      var i :| 0 <= i < |rows| && rows[i] == r;
      assert after[i] in after;
    }
    if r :| r in after && r.worker.Some? && !Known(Left(workers, merges), r.worker.value) {
      var i :| 0 <= i < |after| && after[i] == r;
      assert rows[i] in rows;
    }
  }

  lemma KnownStays(workers: seq<Host>, merges: seq<Merge>, id: Id)
    requires DistinctHosts(workers) && ValidMerges(workers, merges)
    ensures Known(Left(workers, merges), Follow(merges, id)) <==> Known(workers, id)
  {
    if w :| w in workers && w.id == id {
      var v := FollowStays(workers, merges, w);
    } else {
      FollowUnknown(workers, merges, id);
      forall w | w in Left(workers, merges) ensures w.id != id {
        LeftMember(workers, merges, w);
      }
    }
  }

  lemma {:induction false} ValidApart(workers: seq<Host>, merges: seq<Merge>)
    requires ValidMerges(workers, merges)
    ensures forall m :: m in merges ==> m.kept != m.dup
    decreases |merges|
  {
    if merges != [] {
      var n := |merges| - 1;
      ValidApart(workers, merges[..n]);
      assert merges == merges[..n] + [merges[n]];
    }
  }

  /** What the upgrade did, whichever merges it made. Every instance row survives, on the worker its own was
      merged into: by FollowStays a worker of the same cluster that is still there. */
  lemma UpgradeKeepsRows(rows: seq<Instance>, merges: seq<Merge>, after: seq<Instance>, i: nat)
    requires after == Repaired(MergedAll(rows, merges)) && i < |rows|
    ensures |after| == |rows| && Survives(merges, rows[i], after[i])
  {
    MergedSurvive(rows, merges, i);
  }

  /** The active (worker, port) pairs are exactly the original ones with merged workers followed. */
  lemma UpgradeKeepsPairs(workers: seq<Host>, rows: seq<Instance>, merges: seq<Merge>, after: seq<Instance>,
                          worker: Id, port: int)
    requires ValidMerges(workers, merges) && after == Repaired(MergedAll(rows, merges))
    ensures (worker, port) in ActivePairs(after) <==>
              exists w :: (w, port) in ActivePairs(rows) && Follow(merges, w) == worker
  {
    RepairedPairs(MergedAll(rows, merges));
    ValidApart(workers, merges);
    MergedPairs(rows, merges, worker, port);
  }

  /** No two active rows share one, so the index can be created. */
  lemma UpgradePortsUnique(rows: seq<Instance>, merges: seq<Merge>)
    requires DistinctRows(rows)
    ensures PortsUnique(Repaired(MergedAll(rows, merges)))
  {
    MergedDistinct(rows, merges);
    RepairedUnique(MergedAll(rows, merges));
  }
}

/** Scaling a deployment to a number of replicas (services/scaling.py). A replica unit is one instance, or
    a whole parallel group; a unit is identified by its key and consists of the rows with that key. */
module Scaling {
  import opened Common
  import opened Models
  import opened Sorting
  import opened Scheduler
  import opened ParallelScheduler
  import opened PlacementRuns
  import opened Vram
  import Rendezvous
  import Sets

  // ---- Replica units ----

  function KeyOf(nodes: nat, r: Instance): Id {
    if nodes > 1 && r.group.Some? then r.group.value else r.id
  }

  /** The keys in the order the grouping dictionary holds them. */
  function Keys(nodes: nat, rows: seq<Instance>): seq<Id> {
    if rows == [] then []
    else
      var front, key := Keys(nodes, rows[..|rows| - 1]), KeyOf(nodes, rows[|rows| - 1]);
      if key in front then front else front + [key]
  }

  function KeySet(nodes: nat, rows: seq<Instance>): set<Id> {
    set r | r in rows :: KeyOf(nodes, r)
  }

  function Members(nodes: nat, rows: seq<Instance>, key: Id): seq<Instance> {
    Filter(rows, (r: Instance) => KeyOf(nodes, r) == key)
  }

  predicate Live(unit: seq<Instance>) {
    exists m :: m in unit && m.desired == WantRunning
  }

  predicate AllRunning(unit: seq<Instance>) {
    forall m :: m in unit ==> m.state == Running
  }

  predicate Serving(unit: seq<Instance>) {
    Live(unit) && AllRunning(unit)
  }

  predicate Pending(unit: seq<Instance>) {
    Live(unit) && !AllRunning(unit) && forall m :: m in unit ==> m.state.Live()
  }

  predicate Broken(unit: seq<Instance>) {
    Live(unit) && exists m :: m in unit && m.state == Error
  }

  /** Counted as capacity: serving or pending. */
  predicate OnTrack(unit: seq<Instance>) {
    Live(unit) && forall m :: m in unit ==> m.state.Live()
  }

  /** Wanted, but neither serving, pending nor broken: no member failed and one is observed stopped, as
      after a restart that the worker has not picked up yet. */
  predicate Overlooked(unit: seq<Instance>) {
    Live(unit) && (exists m :: m in unit && m.state == Stopped) && forall m :: m in unit ==> m.state != Error
  }

  function UnitsWhere(nodes: nat, rows: seq<Instance>, p: seq<Instance> -> bool): set<Id> {
    set k | k in KeySet(nodes, rows) && p(Members(nodes, rows, k))
  }

  lemma {:induction false} KeysAreSet(nodes: nat, rows: seq<Instance>)
    ensures var keys := Keys(nodes, rows);
            && (forall k :: k in keys <==> k in KeySet(nodes, rows))
            && (forall i, j :: 0 <= i < j < |keys| ==> keys[i] != keys[j])
  {
    if rows != [] {
      var front := rows[..|rows| - 1];
      KeysAreSet(nodes, front);
      assert rows == front + [rows[|rows| - 1]];
      assert KeySet(nodes, rows) == KeySet(nodes, front) + {KeyOf(nodes, rows[|rows| - 1])};
    }
  }

  /** A unit comes before another when its first row does. */
  lemma {:induction false} KeysInOrder(nodes: nat, rows: seq<Instance>, i: nat, j: nat) returns (first: nat)
    requires i < j < |Keys(nodes, rows)|
    ensures first < |rows| && KeyOf(nodes, rows[first]) == Keys(nodes, rows)[i]
    ensures forall q :: 0 <= q < |rows| && KeyOf(nodes, rows[q]) == Keys(nodes, rows)[j] ==> first < q
  {
    var n := |rows| - 1;
    var keys, front := Keys(nodes, rows), Keys(nodes, rows[..n]);
    if j < |front| {
      first := KeysInOrder(nodes, rows[..n], i, j);
      assert KeyOf(nodes, rows[n]) == keys[j] ==> first < n;
    } else {
      first := RowOfKey(nodes, rows[..n], front[i]);
      forall q | 0 <= q < n ensures KeyOf(nodes, rows[q]) in front {
        KeyListed(nodes, rows[..n], q);
      }
    }
  }

  lemma RowOfKey(nodes: nat, rows: seq<Instance>, key: Id) returns (p: nat)
    requires key in Keys(nodes, rows)
    ensures p < |rows| && KeyOf(nodes, rows[p]) == key
  {
    KeysAreSet(nodes, rows);
    var r :| r in rows && KeyOf(nodes, r) == key;
    p :| 0 <= p < |rows| && rows[p] == r;
  }

  lemma KeyListed(nodes: nat, rows: seq<Instance>, q: nat)
    requires q < |rows|
    ensures KeyOf(nodes, rows[q]) in Keys(nodes, rows)
  {
    KeysAreSet(nodes, rows);
    assert rows[q] in rows;
  }

  // ---- Stopping units ----

  /** Every row of these units is stopped, and no other row is touched. */
  function HaltUnits(nodes: nat, rows: seq<Instance>, keys: set<Id>): (after: seq<Instance>)
    ensures |after| == |rows|
  {
    seq(|rows|, i requires 0 <= i < |rows| => if KeyOf(nodes, rows[i]) in keys then rows[i].Halted() else rows[i])
  }

  /** A row as a user's stop leaves it: wanted stopped, one generation later, without its error. */
  ghost function StoppedRow(r: Instance): Instance {
    r.(desired := WantStopped, generation := r.generation + 1, errorDetail := None)
  }

  function HaltAll(unit: seq<Instance>): seq<Instance> {
    seq(|unit|, i requires 0 <= i < |unit| => unit[i].Halted())
  }

  lemma {:induction false} HaltMembers(nodes: nat, rows: seq<Instance>, keys: set<Id>, key: Id)
    ensures Members(nodes, HaltUnits(nodes, rows, keys), key)
            == if key in keys then HaltAll(Members(nodes, rows, key)) else Members(nodes, rows, key)
  {
    if rows != [] {
      HaltMembers(nodes, rows[1..], keys, key);
      assert HaltUnits(nodes, rows, keys)[1..] == HaltUnits(nodes, rows[1..], keys);
      var unit := Members(nodes, rows[1..], key);
      assert HaltAll([rows[0]] + unit) == [rows[0].Halted()] + HaltAll(unit);
    }
  }

  lemma HaltKeySet(nodes: nat, rows: seq<Instance>, keys: set<Id>)
    ensures KeySet(nodes, HaltUnits(nodes, rows, keys)) == KeySet(nodes, rows)
  {
    var after := HaltUnits(nodes, rows, keys);
    forall k | k in KeySet(nodes, rows) ensures k in KeySet(nodes, after) {
      var i :| 0 <= i < |rows| && KeyOf(nodes, rows[i]) == k;
      assert after[i] in after;
    }
  }

  lemma MembersConcat(nodes: nat, a: seq<Instance>, b: seq<Instance>, key: Id)
    ensures KeySet(nodes, a + b) == KeySet(nodes, a) + KeySet(nodes, b)
    ensures Members(nodes, a + b, key) == Members(nodes, a, key) + Members(nodes, b, key)
  {
    FilterConcat(a, b, (r: Instance) => KeyOf(nodes, r) == key);
  }

  lemma {:induction false} NoMembers(nodes: nat, rows: seq<Instance>, key: Id)
    requires key !in KeySet(nodes, rows)
    ensures Members(nodes, rows, key) == []
  {
    if rows != [] {
      assert rows == [rows[0]] + rows[1..];
      NoMembers(nodes, rows[1..], key);
    }
  }

  lemma SomeKey(nodes: nat, rows: seq<Instance>)
    requires rows != []
    ensures KeySet(nodes, rows) != {}
  {
    assert rows[0] in rows;
    assert KeyOf(nodes, rows[0]) in KeySet(nodes, rows);
  }

  // ---- Which units a scale-in stops ----

  function Select(nodes: nat, rows: seq<Instance>, p: seq<Instance> -> bool): seq<Id> {
    Filter(Keys(nodes, rows), (k: Id) => p(Members(nodes, rows, k)))
  }

  function Candidates(nodes: nat, rows: seq<Instance>): seq<Id> {
    Select(nodes, rows, Serving) + Select(nodes, rows, Pending)
  }

  function Oldest(unit: seq<Instance>): int {
    if unit == [] then 0
    else if |unit| == 1 then unit[0].created
    else Min(unit[0].created, Oldest(unit[1..]))
  }

  /** Units that are not all running first, then the ones created earliest. */
  predicate Sooner(a: seq<Instance>, b: seq<Instance>) {
    if AllRunning(a) != AllRunning(b) then AllRunning(b) else Oldest(a) <= Oldest(b)
  }

  function StopOrder(nodes: nat, rows: seq<Instance>): (Id, Id) -> bool {
    (a, b) => Sooner(Members(nodes, rows, a), Members(nodes, rows, b))
  }

  /** The first `effective - target` candidates; none when the target is not below the capacity. */
  function ToStop(nodes: nat, rows: seq<Instance>, target: int): seq<Id> {
    var sorted := Sort(Candidates(nodes, rows), StopOrder(nodes, rows));
    sorted[..Max(0, Min(|sorted|, |sorted| - target))]
  }

  ghost function Surplus(nodes: nat, rows: seq<Instance>, target: int): set<Id> {
    Sets.Elements(ToStop(nodes, rows, target))
  }

  ghost function StoppedUnits(nodes: nat, rows: seq<Instance>, target: int): set<Id> {
    UnitsWhere(nodes, rows, Broken) + Surplus(nodes, rows, target)
  }

  lemma Selected(nodes: nat, rows: seq<Instance>, p: seq<Instance> -> bool)
    ensures forall k :: k in Select(nodes, rows, p) <==> k in UnitsWhere(nodes, rows, p)
    ensures forall i, j :: 0 <= i < j < |Select(nodes, rows, p)| ==> Select(nodes, rows, p)[i] != Select(nodes, rows, p)[j]
  {
    var test, apart := (k: Id) => p(Members(nodes, rows, k)), (a: Id, b: Id) => a != b;
    KeysAreSet(nodes, rows);
    assert PairwiseApart(Keys(nodes, rows), apart);
    FilterMembers(Keys(nodes, rows), test);
    FilterKeepsApart(Keys(nodes, rows), test, apart);
    assert PairwiseApart(Select(nodes, rows, p), apart);
  }

  lemma SelectedSet(nodes: nat, rows: seq<Instance>, p: seq<Instance> -> bool)
    ensures Sets.Elements(Select(nodes, rows, p)) == UnitsWhere(nodes, rows, p)
  {
    Selected(nodes, rows, p);
    var keys, units := Select(nodes, rows, p), UnitsWhere(nodes, rows, p);
    assert forall k :: k in keys <==> k in units;
    Sets.SameElements(keys, units);
  }

  lemma CandidatesAreOnTrack(nodes: nat, rows: seq<Instance>)
    ensures var keys := Candidates(nodes, rows);
            && (forall k :: k in keys <==> k in UnitsWhere(nodes, rows, OnTrack))
            && (forall i, j :: 0 <= i < j < |keys| ==> keys[i] != keys[j])
            && |keys| == |UnitsWhere(nodes, rows, OnTrack)|
  {
    var keys := Candidates(nodes, rows);
    Selected(nodes, rows, Serving);
    Selected(nodes, rows, Pending);
    ApartConcat(Select(nodes, rows, Serving), Select(nodes, rows, Pending));
    Sets.DistinctSize(keys);
    assert (set k | k in keys) == UnitsWhere(nodes, rows, OnTrack);
  }

  lemma ApartConcat(a: seq<Id>, b: seq<Id>)
    requires forall i, j :: 0 <= i < j < |a| ==> a[i] != a[j]
    requires forall i, j :: 0 <= i < j < |b| ==> b[i] != b[j]
    requires forall x :: x in a ==> x !in b
    ensures forall i, j :: 0 <= i < j < |a + b| ==> (a + b)[i] != (a + b)[j]
  {
    forall i, j | 0 <= i < j < |a + b| ensures (a + b)[i] != (a + b)[j] {
      assert i < |a| ==> a[i] in a;
      assert j >= |a| ==> b[j - |a|] in b;
    }
  }

  lemma ToStopDistinct(nodes: nat, rows: seq<Instance>, target: int)
    ensures var stop := ToStop(nodes, rows, target);
            && (forall i, j :: 0 <= i < j < |stop| ==> stop[i] != stop[j])
            && (forall k :: k in stop ==> k in UnitsWhere(nodes, rows, OnTrack))
            && |stop| == Max(0, Min(|UnitsWhere(nodes, rows, OnTrack)|, |UnitsWhere(nodes, rows, OnTrack)| - target))
  {
    var leq, keys, apart := StopOrder(nodes, rows), Candidates(nodes, rows), (a: Id, b: Id) => a != b;
    CandidatesAreOnTrack(nodes, rows);
    SortPermutes(keys, leq);
    assert PairwiseApart(keys, apart);
    SortKeepsApart(keys, leq, apart);
    var sorted, stop := Sort(keys, leq), ToStop(nodes, rows, target);
    assert PairwiseApart(sorted, apart);
    forall i, j | 0 <= i < j < |stop| ensures stop[i] != stop[j] {
      assert apart(sorted[i], sorted[j]);
    }
    assert forall k :: k in stop ==> k in sorted;
  }

  /** The units picked to be stopped are capacity, as many as there are too many of. */
  lemma ToStopIsSurplus(nodes: nat, rows: seq<Instance>, target: int)
    ensures var stop, capacity := Surplus(nodes, rows, target), UnitsWhere(nodes, rows, OnTrack);
            && stop <= capacity
            && |stop| == Max(0, Min(|capacity|, |capacity| - target))
  {
    ToStopDistinct(nodes, rows, target);
    Sets.DistinctSize(ToStop(nodes, rows, target));
  }

  /** Scale-in never stops a unit while keeping one that should go sooner: no serving unit is stopped while
      a pending one is kept, and within each kind the one with the oldest row goes first. */
  lemma StopsInOrder(nodes: nat, rows: seq<Instance>, target: int, stopped: Id, kept: Id)
    requires stopped in ToStop(nodes, rows, target)
    requires kept in UnitsWhere(nodes, rows, OnTrack) && kept !in ToStop(nodes, rows, target)
    ensures var s, k := Members(nodes, rows, stopped), Members(nodes, rows, kept);
            && (Serving(s) ==> Serving(k))
            && (Serving(s) == Serving(k) ==> exists m :: m in s && forall n :: n in k ==> m.created <= n.created)
  {
    var leq, keys := StopOrder(nodes, rows), Candidates(nodes, rows);
    CandidatesAreOnTrack(nodes, rows);
    SortPermutes(keys, leq);
    SortSorts(keys, leq);
    var sorted, stop := Sort(keys, leq), ToStop(nodes, rows, target);
    var i :| 0 <= i < |stop| && stop[i] == stopped;
    var j :| 0 <= j < |sorted| && sorted[j] == kept;
    assert forall n :: 0 <= n < |stop| ==> stop[n] == sorted[n] && stop[n] in stop;
    assert leq(sorted[i], sorted[j]);
    assert stopped in sorted;
    ToStopIsSurplus(nodes, rows, target);
    assert stopped in Surplus(nodes, rows, target);
    OldestIs(Members(nodes, rows, stopped));
    OldestIs(Members(nodes, rows, kept));
  }

  lemma {:induction false} OldestIs(unit: seq<Instance>)
    requires unit != []
    ensures (exists m :: m in unit && m.created == Oldest(unit)) && forall n :: n in unit ==> Oldest(unit) <= n.created
  {
    assert unit == [unit[0]] + unit[1..];
    if |unit| > 1 {
      OldestIs(unit[1..]);
      var m :| m in unit[1..] && m.created == Oldest(unit[1..]);
      assert m in unit && unit[0] in unit;
    } else {
      assert unit[0] in unit;
    }
  }

  // ---- New units ----

  /** A unit as it is created: all its rows at once, and for a group every rank, one ported head and one
      shared rendezvous. */
  predicate Whole(nodes: nat, unit: seq<Instance>) {
    && |unit| == Max(1, nodes)
    && (forall m :: m in unit ==> m.state == Scheduled && m.desired == WantRunning && m.generation == 1)
    && (nodes > 1 ==>
         forall i :: 0 <= i < |unit| ==>
           && unit[i].rank == Some(i) && unit[i].worldSize == Some(nodes)
           && (unit[i].port.Some? <==> i == 0) && unit[i].rendezvous == unit[0].rendezvous)
  }

  /** The added rows form this many whole units, all of them new. */
  ghost predicate Grown(nodes: nat, base: seq<Instance>, added: seq<Instance>, count: nat) {
    && |KeySet(nodes, added)| == count
    && KeySet(nodes, added) !! KeySet(nodes, base)
    && forall k :: k in KeySet(nodes, added) ==> Whole(nodes, Members(nodes, added, k))
  }

  lemma GrowStep(nodes: nat, base: seq<Instance>, added: seq<Instance>, count: nat, unit: seq<Instance>, key: Id)
    requires Grown(nodes, base, added, count) && Whole(nodes, unit)
    requires forall m :: m in unit ==> KeyOf(nodes, m) == key
    requires key !in KeySet(nodes, base) && key !in KeySet(nodes, added)
    ensures Grown(nodes, base, added + unit, count + 1)
  {
    assert unit[0] in unit;
    assert KeySet(nodes, unit) == {key};
    MembersConcat(nodes, added, unit, key);
    FilterAll(unit, (r: Instance) => KeyOf(nodes, r) == key);
    NoMembers(nodes, added, key);
    forall k | k in KeySet(nodes, added) ensures Members(nodes, added + unit, k) == Members(nodes, added, k) {
      MembersConcat(nodes, added, unit, k);
      NoMembers(nodes, unit, k);
    }
    assert [] + unit == unit;
  }

  // ---- What a scale does ----

  /** The outcome: the units to stop are stopped whole, every other row is as it was, none is gone, and
      what is missing is added as whole units. */
  ghost predicate Scaled(nodes: nat, target: int, before: seq<Instance>, after: seq<Instance>) {
    && |before| <= |after|
    && after[..|before|] == HaltUnits(nodes, before, StoppedUnits(nodes, before, target))
    && Grown(nodes, before, after[|before|..], Max(0, target - |UnitsWhere(nodes, before, OnTrack)|))
  }

  /** A unit afterwards: new, stopped, or as it was. */
  lemma MembersAfter(nodes: nat, target: int, before: seq<Instance>, after: seq<Instance>, k: Id)
    requires Scaled(nodes, target, before, after)
    ensures var added := after[|before|..];
            && KeySet(nodes, after) == KeySet(nodes, before) + KeySet(nodes, added)
            && Members(nodes, after, k)
               == if k in KeySet(nodes, added) then Members(nodes, added, k)
                  else if k in StoppedUnits(nodes, before, target) then HaltAll(Members(nodes, before, k))
                  else Members(nodes, before, k)
  {
    var stop, added := StoppedUnits(nodes, before, target), after[|before|..];
    var halted := HaltUnits(nodes, before, stop);
    assert after == halted + added;
    HaltKeySet(nodes, before, stop);
    MembersConcat(nodes, halted, added, k);
    HaltMembers(nodes, before, stop, k);
    if k in KeySet(nodes, added) {
      NoMembers(nodes, halted, k);
    } else {
      NoMembers(nodes, added, k);
    }
  }

  /** How a class of wanted units changes: stopped units leave it, new ones may enter. */
  lemma UnitsAfter(nodes: nat, target: int, before: seq<Instance>, after: seq<Instance>, p: seq<Instance> -> bool)
    requires Scaled(nodes, target, before, after)
    requires forall unit :: p(unit) ==> Live(unit)
    ensures var added := after[|before|..];
            UnitsWhere(nodes, after, p)
            == (UnitsWhere(nodes, before, p) - StoppedUnits(nodes, before, target)) + UnitsWhere(nodes, added, p)
  {
    var stop, added := StoppedUnits(nodes, before, target), after[|before|..];
    forall k ensures k in UnitsWhere(nodes, after, p) <==>
                     (k in UnitsWhere(nodes, before, p) && k !in stop) || k in UnitsWhere(nodes, added, p) {
      MembersAfter(nodes, target, before, after, k);
      HaltedNotLive(Members(nodes, before, k));
    }
  }

  lemma HaltedNotLive(unit: seq<Instance>)
    ensures !Live(HaltAll(unit))
  {
  }

  /** All new units count as capacity; none of them is broken or overlooked. */
  lemma NewUnitsOnTrack(nodes: nat, base: seq<Instance>, added: seq<Instance>, count: nat)
    requires Grown(nodes, base, added, count)
    ensures UnitsWhere(nodes, added, OnTrack) == KeySet(nodes, added)
    ensures UnitsWhere(nodes, added, Broken) == {} && UnitsWhere(nodes, added, Overlooked) == {}
  {
    forall k | k in KeySet(nodes, added) ensures OnTrack(Members(nodes, added, k)) {
      var unit := Members(nodes, added, k);
      assert unit[0] in unit;
    }
  }

  lemma OnTrackCases(unit: seq<Instance>)
    ensures OnTrack(unit) ==> Live(unit) && !Broken(unit) && !Overlooked(unit)
    ensures Broken(unit) ==> Live(unit) && !Overlooked(unit)
    ensures Live(unit) ==> OnTrack(unit) || Broken(unit) || Overlooked(unit)
  {
    if Live(unit) && !OnTrack(unit) && !Broken(unit) {
      var m: Instance :| m in unit && !m.state.Live();
    }
  }

  /** Of the units on track, only the surplus is stopped. */
  lemma StoppedOnTrack(nodes: nat, rows: seq<Instance>, target: int)
    ensures UnitsWhere(nodes, rows, OnTrack) - StoppedUnits(nodes, rows, target)
            == UnitsWhere(nodes, rows, OnTrack) - Surplus(nodes, rows, target)
  {
    forall k | k in UnitsWhere(nodes, rows, OnTrack) ensures k !in UnitsWhere(nodes, rows, Broken) {
      OnTrackCases(Members(nodes, rows, k));
    }
  }

  lemma CapacityAfter(nodes: nat, target: int, before: seq<Instance>, after: seq<Instance>)
    requires Scaled(nodes, target, before, after)
    ensures UnitsWhere(nodes, after, OnTrack)
            == (UnitsWhere(nodes, before, OnTrack) - Surplus(nodes, before, target)) + KeySet(nodes, after[|before|..])
  {
    var added := after[|before|..];
    NewUnitsOnTrack(nodes, before, added, Max(0, target - |UnitsWhere(nodes, before, OnTrack)|));
    UnitsAfter(nodes, target, before, after, OnTrack);
    StoppedOnTrack(nodes, before, target);
  }

  lemma BrokenAfter(nodes: nat, target: int, before: seq<Instance>, after: seq<Instance>)
    requires Scaled(nodes, target, before, after)
    ensures UnitsWhere(nodes, after, Broken) == {}
  {
    NewUnitsOnTrack(nodes, before, after[|before|..], Max(0, target - |UnitsWhere(nodes, before, OnTrack)|));
    UnitsAfter(nodes, target, before, after, Broken);
  }

  lemma OverlookedAfter(nodes: nat, target: int, before: seq<Instance>, after: seq<Instance>)
    requires Scaled(nodes, target, before, after)
    ensures UnitsWhere(nodes, after, Overlooked) == UnitsWhere(nodes, before, Overlooked)
  {
    NewUnitsOnTrack(nodes, before, after[|before|..], Max(0, target - |UnitsWhere(nodes, before, OnTrack)|));
    UnitsAfter(nodes, target, before, after, Overlooked);
    ToStopIsSurplus(nodes, before, target);
    forall k | k in UnitsWhere(nodes, before, Overlooked) ensures k !in StoppedUnits(nodes, before, target) {
      OnTrackCases(Members(nodes, before, k));
    }
  }

  lemma Arithmetic(capacity: set<Id>, stop: set<Id>, newKeys: set<Id>, k: nat, target: nat)
    requires stop <= capacity && |capacity| == k && newKeys !! capacity
    requires |stop| == Max(0, k - target) && |newKeys| == Max(0, target - k)
    ensures |(capacity - stop) + newKeys| == target
  {
    Sets.DifferenceSize(capacity, stop);
    Sets.DisjointUnionSize(capacity - stop, newKeys);
  }

  lemma NewUnitsApart(nodes: nat, base: seq<Instance>, added: seq<Instance>, count: nat)
    requires Grown(nodes, base, added, count)
    ensures KeySet(nodes, added) !! UnitsWhere(nodes, base, OnTrack)
  {
  }

  lemma ExactCapacity(nodes: nat, target: nat, before: seq<Instance>, after: seq<Instance>)
    requires Scaled(nodes, target, before, after)
    ensures |UnitsWhere(nodes, after, OnTrack)| == target
  {
    var capacity, added := UnitsWhere(nodes, before, OnTrack), after[|before|..];
    var k := |capacity|;
    CapacityAfter(nodes, target, before, after);
    ToStopIsSurplus(nodes, before, target);
    NewUnitsApart(nodes, before, added, Max(0, target - k));
    Arithmetic(capacity, Surplus(nodes, before, target), KeySet(nodes, added), k, target);
  }

  /** Exact: afterwards the units that serve or are coming up are the target, no wanted unit holds a failed
      member, and the overlooked units are still wanted. */
  lemma ScaledExactly(nodes: nat, target: nat, before: seq<Instance>, after: seq<Instance>)
    requires Scaled(nodes, target, before, after)
    ensures |UnitsWhere(nodes, after, OnTrack)| == target
    ensures UnitsWhere(nodes, after, Broken) == {}
    ensures UnitsWhere(nodes, after, Overlooked) == UnitsWhere(nodes, before, Overlooked)
  {
    ExactCapacity(nodes, target, before, after);
    BrokenAfter(nodes, target, before, after);
    OverlookedAfter(nodes, target, before, after);
  }

  /** Every wanted unit is capacity, broken or overlooked, and only one of them. */
  lemma LiveUnits(nodes: nat, rows: seq<Instance>)
    ensures |UnitsWhere(nodes, rows, Live)|
            == |UnitsWhere(nodes, rows, OnTrack)| + |UnitsWhere(nodes, rows, Broken)| + |UnitsWhere(nodes, rows, Overlooked)|
  {
    LiveSplit(nodes, rows);
    var a, b, c := UnitsWhere(nodes, rows, OnTrack), UnitsWhere(nodes, rows, Broken), UnitsWhere(nodes, rows, Overlooked);
    Sets.DisjointUnionSize(a, b);
    Sets.DisjointUnionSize(a + b, c);
  }

  lemma LiveSplit(nodes: nat, rows: seq<Instance>)
    ensures var a, b, c := UnitsWhere(nodes, rows, OnTrack), UnitsWhere(nodes, rows, Broken), UnitsWhere(nodes, rows, Overlooked);
            UnitsWhere(nodes, rows, Live) == a + b + c && a !! b && (a + b) !! c
  {
    forall k ensures var unit := Members(nodes, rows, k);
                     && (Live(unit) <==> OnTrack(unit) || Broken(unit) || Overlooked(unit))
                     && !(OnTrack(unit) && Broken(unit)) && !((OnTrack(unit) || Broken(unit)) && Overlooked(unit)) {
      OnTrackCases(Members(nodes, rows, k));
    }
  }

  /** Overlooked units stay wanted on top of the target. */
  lemma OverlookedOnTop(nodes: nat, target: nat, before: seq<Instance>, after: seq<Instance>)
    requires Scaled(nodes, target, before, after)
    ensures |UnitsWhere(nodes, after, Live)| == target + |UnitsWhere(nodes, before, Overlooked)|
  {
    ScaledExactly(nodes, target, before, after);
    LiveUnits(nodes, after);
  }

  /** Repeating a scale changes no instance. */
  lemma ScaledTwice(nodes: nat, target: nat, before: seq<Instance>, after: seq<Instance>, again: seq<Instance>)
    requires Scaled(nodes, target, before, after) && Scaled(nodes, target, after, again)
    ensures again == after
  {
    ScaledExactly(nodes, target, before, after);
    ToStopIsSurplus(nodes, after, target);
    assert StoppedUnits(nodes, after, target) == {};
    assert HaltUnits(nodes, after, {}) == after;
    var added := again[|after|..];
    if added != [] {
      SomeKey(nodes, added);
    }
  }

  // ---- apply_scale ----

  /** `after` is `base` followed by groups, each planned by the allocator on the rows before it, on hosts that
      no row of the deployment is on, with the rendezvous on the head's host. */
  ghost predicate GroupsFrom(q: Request, t: Template, pools: Pools, host: Id -> string, now: int, others: seq<Instance>,
                             base: seq<Instance>, after: seq<Instance>)
    decreases |after|
  {
    || after == base
    || (&& 0 < t.nodes <= |after|
        && var front := after[..|after| - t.nodes];
           GroupsFrom(q, t, pools, host, now, others, base, front) && GroupAdded(q, t, pools, host, now, others, front, after))
  }

  ghost predicate GroupAdded(q: Request, t: Template, pools: Pools, host: Id -> string, now: int, others: seq<Instance>,
                             front: seq<Instance>, after: seq<Instance>)
  {
    exists ranks: seq<Rank>, id ::
      && |ranks| == t.nodes > 0 && GroupPlanned(q, WorkersOf(front), t.vram, t.nodes, others + front, pools, ranks)
      && ranks[0].rendezvousPort.Some? && ranks[0].rendezvousPort.value >= 0
      && after == front + NewRankRows(t, id, ranks, HeadText(host, ranks[0]), now)
  }

  /** Where the head can be dialled. */
  function HeadText(host: Id -> string, head: Rank): string
    requires head.rendezvousPort.Some? && head.rendezvousPort.value >= 0
  {
    Rendezvous.Encode(host(head.worker), head.rendezvousPort.value)
  }

  lemma GroupsNext(q: Request, t: Template, pools: Pools, host: Id -> string, now: int, others: seq<Instance>,
                   base: seq<Instance>, current: seq<Instance>, id: Id, ranks: seq<Rank>)
    requires GroupsFrom(q, t, pools, host, now, others, base, current) && |ranks| == t.nodes > 0
    requires GroupPlanned(q, WorkersOf(current), t.vram, t.nodes, others + current, pools, ranks)
    requires ranks[0].rendezvousPort.Some? && ranks[0].rendezvousPort.value >= 0
    ensures GroupsFrom(q, t, pools, host, now, others, base, current + NewRankRows(t, id, ranks, HeadText(host, ranks[0]), now))
  {
    var after := current + NewRankRows(t, id, ranks, HeadText(host, ranks[0]), now);
    assert after[..|after| - t.nodes] == current;
    assert GroupAdded(q, t, pools, host, now, others, current, after);
  }

  /** A failed allocation propagates as an exception; the commit may violate ck_deployments_min_max. */
  datatype ScaleError = Allocation(error: AllocError) | Constraint

  function WorkersOf(rows: seq<Instance>): set<Id> {
    set r | r in rows && r.worker.Some? :: r.worker.value
  }

  /** The columns an added row takes from its deployment. */
  predicate FromTemplate(t: Template, r: Instance) {
    && r.deployment == t.deployment && r.vram == t.vram && r.needsToken == t.needsToken
    && r.worker.Some? && |r.gpuIndexes| == 1 && (r.group.Some? <==> t.nodes > 1)
    && (r.group.Some? ==> r.parallelMode == t.parallelMode)
  }

  predicate Templated(t: Template, added: seq<Instance>) {
    added == [] || (FromTemplate(t, added[0]) && Templated(t, added[1..]))
  }

  lemma {:induction false} TemplatedMember(t: Template, added: seq<Instance>, r: Instance)
    requires Templated(t, added) && r in added
    ensures FromTemplate(t, r)
  {
    if r != added[0] {
      TemplatedMember(t, added[1..], r);
    }
  }

  lemma {:induction false} TemplatedConcat(t: Template, a: seq<Instance>, b: seq<Instance>)
    requires Templated(t, a) && Templated(t, b)
    ensures Templated(t, a + b)
  {
    if a == [] {
      assert a + b == b;
    } else {
      TemplatedConcat(t, a[1..], b);
      assert (a + b)[1..] == a[1..] + b;
    }
  }

  lemma {:induction false} TemplatedIf(t: Template, added: seq<Instance>)
    requires forall r :: r in added ==> FromTemplate(t, r)
    ensures Templated(t, added)
  {
    if added != [] {
      TemplatedIf(t, added[1..]);
    }
  }

  lemma ReplicaRowsTemplated(t: Template, id: Id, placements: seq<Placement>, now: int)
    requires t.nodes == 1
    ensures Templated(t, NewReplicaRows(t, id, placements, now))
  {
    TemplatedIf(t, NewReplicaRows(t, id, placements, now));
  }

  lemma RankRowsTemplated(t: Template, id: Id, ranks: seq<Rank>, rendezvous: string, now: int)
    requires t.nodes >= 2
    ensures Templated(t, NewRankRows(t, id, ranks, rendezvous, now))
  {
    TemplatedIf(t, NewRankRows(t, id, ranks, rendezvous, now));
  }

  /** The added rows are what the single-node allocator grants, next to the GPUs already used. */
  ghost predicate Replicated(t: Template, workers: seq<Worker>, rows: seq<Instance>, vendors: set<string>, used: set<GpuKey>,
                             range: PortRange, count: nat, added: seq<Instance>, now: int)
  {
    exists placements, id ::
      && Outcome(OpeningBoard(SlotsOf(workers, rows, vendors), used), t.vram, count, rows, range, Ok(placements))
      && added == NewReplicaRows(t, id, placements, now)
  }

  /** Such rows overcommit no GPU. */
  lemma ReplicatedSafely(t: Template, workers: seq<Worker>, rows: seq<Instance>, vendors: set<string>, used: set<GpuKey>,
                         range: PortRange, count: nat, added: seq<Instance>, now: int)
    requires ValidWorkers(workers) && t.vram > 0
    requires Replicated(t, workers, rows, vendors, used, range, count, added, now)
    ensures var before, after := SlotsOf(workers, rows, vendors), SlotsOf(workers, rows + added, vendors);
            |added| == count && |after| == |before| && forall i :: 0 <= i < |before| ==>
              after[i].Key() == before[i].Key() && (after[i] == before[i] || after[i].free >= 0)
  {
    var placements, id :|
      && Outcome(OpeningBoard(SlotsOf(workers, rows, vendors), used), t.vram, count, rows, range, Ok(placements))
      && added == NewReplicaRows(t, id, placements, now);
    OutcomeSafe(t, workers, rows, vendors, used, range, count, placements, id, now);
  }

  lemma OutcomeSafe(t: Template, workers: seq<Worker>, rows: seq<Instance>, vendors: set<string>, used: set<GpuKey>,
                    range: PortRange, count: nat, placements: seq<Placement>, id: Id, now: int)
    requires ValidWorkers(workers) && t.vram > 0
    requires Outcome(OpeningBoard(SlotsOf(workers, rows, vendors), used), t.vram, count, rows, range, Ok(placements))
    ensures var added := NewReplicaRows(t, id, placements, now);
            var before, after := SlotsOf(workers, rows, vendors), SlotsOf(workers, rows + added, vendors);
            |added| == count && |after| == |before| && forall i :: 0 <= i < |before| ==>
              after[i].Key() == before[i].Key() && (after[i] == before[i] || after[i].free >= 0)
  {
    AllocationSafe(workers, rows, vendors, used, t.vram, count, NewReplicaRows(t, id, placements, now));
  }

  /** The GPU pairs that serving and pending units hold. */
  function GpusHeld(nodes: nat, rows: seq<Instance>): set<GpuKey> {
    set r, g | r in rows && r.worker.Some? && g in r.gpuIndexes && OnTrack(Members(nodes, rows, KeyOf(nodes, r))) ::
      GpuKey(r.worker.value, g)
  }

  // ---- Where added replicas go, in rows ----

  /** The instance is wanted, and observed to serve or to be coming up. */
  ghost predicate InService(rows: seq<Instance>, id: Id) {
    && (exists m :: m in rows && m.id == id && m.desired == WantRunning)
    && (forall m :: m in rows && m.id == id ==> m.state == Scheduled || m.state == Starting || m.state == Running)
  }

  /** The GPUs that such instances list. */
  ghost function HeldBy(rows: seq<Instance>): set<GpuKey> {
    set r, g | r in rows && r.worker.Some? && g in r.gpuIndexes && InService(rows, r.id) :: GpuKey(r.worker.value, g)
  }

  lemma OnTrackIs(rows: seq<Instance>, id: Id)
    ensures OnTrack(Members(1, rows, id)) <==> InService(rows, id)
  {
    FilterMembers(rows, (r: Instance) => KeyOf(1, r) == id);
    var unit := Members(1, rows, id);
    assert forall m :: m in unit <==> m in rows && m.id == id;
  }

  lemma HeldIs(rows: seq<Instance>)
    ensures GpusHeld(1, rows) == HeldBy(rows)
  {
    forall r | r in rows ensures OnTrack(Members(1, rows, KeyOf(1, r))) <==> InService(rows, r.id) {
      OnTrackIs(rows, r.id);
    }
  }

  lemma BrokenOutOfService(rows: seq<Instance>, id: Id)
    ensures InService(HaltUnits(1, rows, UnitsWhere(1, rows, Broken)), id) <==> InService(rows, id)
  {
    var broken := UnitsWhere(1, rows, Broken);
    var halted := HaltUnits(1, rows, broken);
    OnTrackIs(rows, id);
    OnTrackIs(halted, id);
    HaltMembers(1, rows, broken, id);
    OnTrackCases(Members(1, rows, id));
    HaltedNotLive(Members(1, rows, id));
  }

  /** Stopping the broken instances changes neither what is held nor what is loaded. */
  lemma HeldAfterBroken(rows: seq<Instance>)
    ensures HeldBy(HaltUnits(1, rows, UnitsWhere(1, rows, Broken))) == HeldBy(rows)
  {
    var halted := HaltUnits(1, rows, UnitsWhere(1, rows, Broken));
    forall id ensures InService(halted, id) <==> InService(rows, id) {
      BrokenOutOfService(rows, id);
    }
    forall r, g | r in rows && r.worker.Some? && g in r.gpuIndexes && InService(rows, r.id)
      ensures GpuKey(r.worker.value, g) in HeldBy(halted) {
      var i :| 0 <= i < |rows| && rows[i] == r;
      assert halted[i] in halted;
    }
    forall r, g | r in halted && r.worker.Some? && g in r.gpuIndexes && InService(halted, r.id)
      ensures GpuKey(r.worker.value, g) in HeldBy(rows) {
      var i :| 0 <= i < |halted| && halted[i] == r;
      assert rows[i] in rows;
    }
  }

  lemma {:induction false} HaltLoad(nodes: nat, rows: seq<Instance>, keys: set<Id>, k: GpuKey)
    ensures Load(HaltUnits(nodes, rows, keys), k) == Load(rows, k)
  {
    if rows != [] {
      var n := |rows| - 1;
      HaltLoad(nodes, rows[..n], keys, k);
      assert HaltUnits(nodes, rows, keys)[..n] == HaltUnits(nodes, rows[..n], keys);
    }
  }

  lemma SpreadSame(workers: seq<Worker>, rows: seq<Instance>, rows': seq<Instance>, cluster: Id, engine: string, v: int,
                   used: set<GpuKey>, gpus: seq<GpuKey>)
    requires forall k :: Load(rows, k) == Load(rows', k)
    ensures SpreadOut(Database(workers, rows), cluster, engine, v, used, gpus)
            <==> SpreadOut(Database(workers, rows'), cluster, engine, v, used, gpus)
  {
    var a, b := Database(workers, rows), Database(workers, rows');
    assert forall w, g :: Room(rows, w, g) == Room(rows', w, g);
    assert OpenHosts(a, cluster, engine, v, used) == OpenHosts(b, cluster, engine, v, used);
    assert OpenGpus(a, cluster, engine, v, used) == OpenGpus(b, cluster, engine, v, used);
  }

  /** The GPU of each single-node row. */
  function RowKeys(added: seq<Instance>): (keys: seq<GpuKey>)
    ensures |keys| == |added|
  {
    seq(|added|, i requires 0 <= i < |added| =>
      GpuKey(if added[i].worker.Some? then added[i].worker.value else 0, if added[i].gpuIndexes != [] then added[i].gpuIndexes[0] else 0))
  }

  lemma NothingSpread(db: Database, cluster: Id, engine: string, v: int, used: set<GpuKey>)
    ensures SpreadOut(db, cluster, engine, v, used, RowKeys([]))
  {
    var none := RowKeys([]);
    assert (set k | k in none && (forall u :: u in used ==> u.worker != k.worker) :: k.worker) == {};
    assert (set k | k in none && k !in used) == {};
  }

  /** Replicas added next to what the deployment holds reach as many hosts and GPUs it does not hold as they can. */
  lemma OutcomeSpread(t: Template, workers: seq<Worker>, cluster: Id, engine: string, others: seq<Instance>,
                      before: seq<Instance>, halted: seq<Instance>, range: PortRange, placements: seq<Placement>, id: Id,
                      now: int)
    requires ValidWorkers(workers) && t.vram > 0 && halted == HaltUnits(1, before, UnitsWhere(1, before, Broken))
    requires Outcome(OpeningBoard(SlotsOf(Connected(workers, cluster), others + halted, Vendors(engine)), HeldBy(before)),
                     t.vram, |placements|, others + halted, range, Ok(placements))
    ensures SpreadOut(Database(workers, others + before), cluster, engine, t.vram, HeldBy(before),
                      RowKeys(NewReplicaRows(t, id, placements, now)))
  {
    PlannedSpread(Database(workers, others + halted), cluster, engine, t.vram, HeldBy(before), range, placements);
    assert RowKeys(NewReplicaRows(t, id, placements, now)) == KeysOf(placements);
    forall k ensures Load(others + halted, k) == Load(others + before, k) {
      HaltLoad(1, before, UnitsWhere(1, before, Broken), k);
      LoadConcat(others, halted, k);
      LoadConcat(others, before, k);
    }
    SpreadSame(workers, others + halted, others + before, cluster, engine, t.vram, HeldBy(before), KeysOf(placements));
  }

  lemma HaltOwned(nodes: nat, rows: seq<Instance>, keys: set<Id>)
    ensures forall r :: r in HaltUnits(nodes, rows, keys) ==>
              exists q :: q in rows && q.id == r.id && q.group == r.group && q.deployment == r.deployment
  {
    var after := HaltUnits(nodes, rows, keys);
    forall r | r in after ensures exists q :: q in rows && q.id == r.id && q.group == r.group && q.deployment == r.deployment {
      var i :| 0 <= i < |after| && after[i] == r;
      assert rows[i] in rows;
    }
  }

  /** Each new replica row is a whole unit. */
  lemma {:induction false} ReplicaRowsGrow(t: Template, base: seq<Instance>, id: Id, placements: seq<Placement>, now: int)
    requires t.nodes == 1 && IdsBelow(base, id)
    ensures Grown(1, base, NewReplicaRows(t, id, placements, now), |placements|)
    decreases |placements|
  {
    if placements == [] {
      assert KeySet(1, NewReplicaRows(t, id, [], now)) == {};
    } else {
      var n := |placements| - 1;
      var front, row := NewReplicaRows(t, id, placements[..n], now), ReplicaRow(t, id + n, placements[n], now);
      ReplicaRowsGrow(t, base, id, placements[..n], now);
      ReplicaRowsOwned(t, id, placements[..n], now);
      GrowStep(1, base, front, n, [row], id + n);
      assert NewReplicaRows(t, id, placements, now) == front + [row];
    }
  }

  /** The rows of a new group are one whole unit. */
  lemma RankRowsWhole(t: Template, group: Id, ranks: seq<Rank>, rendezvous: string, now: int)
    requires |ranks| == t.nodes >= 2
    requires forall i :: 0 <= i < |ranks| ==> ranks[i].nodeRank == i && (ranks[i].port.Some? <==> i == 0)
    ensures var added := NewRankRows(t, group, ranks, rendezvous, now);
            Whole(t.nodes, added) && forall m :: m in added ==> KeyOf(t.nodes, m) == group
  {
    var added := NewRankRows(t, group, ranks, rendezvous, now);
    forall m | m in added
      ensures m.state == Scheduled && m.desired == WantRunning && m.generation == 1 && KeyOf(t.nodes, m) == group {
      var i :| 0 <= i < |added| && added[i] == m;
    }
  }

  /** A session in which one deployment is being scaled. */
  class Deployment {
    const template: Template
    const cluster: Id
    const engine: string
    const workers: seq<Worker>
    /** The rows of all other deployments. */
    const others: seq<Instance>
    const pools: Pools
    /** rendezvous_host of a worker. */
    const host: Id -> string
    /** The VRAM of every GPU, as the workers report it. */
    ghost const capacities: Capacities

    var instances: seq<Instance>
    var minReplicas: int
    var maxReplicas: int
    /** Source of unused identifiers. */
    var nextId: Id

    constructor (template: Template, cluster: Id, engine: string, workers: seq<Worker>, others: seq<Instance>, pools: Pools,
                 host: Id -> string, instances: seq<Instance>, minReplicas: int, maxReplicas: int, nextId: Id,
                 ghost capacities: Capacities)
      ensures this.template == template && this.cluster == cluster && this.engine == engine && this.workers == workers
      ensures this.others == others && this.pools == pools && this.host == host && this.instances == instances
      ensures this.minReplicas == minReplicas && this.maxReplicas == maxReplicas && this.nextId == nextId
      ensures this.capacities == capacities
    {
      this.template, this.cluster, this.engine, this.workers := template, cluster, engine, workers;
      this.others, this.pools, this.host, this.instances := others, pools, host, instances;
      this.minReplicas, this.maxReplicas, this.nextId := minReplicas, maxReplicas, nextId;
      this.capacities := capacities;
    }

    ghost predicate Valid()
      reads this
    {
      && ValidWorkers(workers) && template.vram > 0 && template.nodes >= 1 && pools.Valid()
      && Reports(workers, capacities)
      && IdsBelow(others, nextId) && IdsBelow(instances, nextId)
      && (forall r :: r in others ==> r.deployment != template.deployment)
      && (forall r :: r in instances ==> r.deployment == template.deployment)
      && 1 <= minReplicas <= maxReplicas <= 8
    }

    /** No further group fits next to the hosts the deployment is on. */
    ghost predicate NoGroupPossible()
      reads this
    {
      !GroupPossible(Request(workers, cluster, engine), WorkersOf(instances), template, others + instances, pools)
    }

    /** That many replicas do not fit, or some worker might run out of ports for them. */
    ghost predicate NoReplicasPossible(missing: nat)
      requires template.vram > 0
      reads this
    {
      var q, rows := Request(workers, cluster, engine), others + instances;
      !ReplicasPossible(q, template, rows, missing) || !PortsSuffice(q, rows, pools, missing)
    }

    /** What a failed allocation asked for was not to be had. */
    ghost predicate Impossible(target: int, before: seq<Instance>)
      requires template.vram > 0
      reads this
    {
      if template.nodes > 1 then NoGroupPossible()
      else NoReplicasPossible(Max(0, target - |UnitsWhere(1, before, OnTrack)|))
    }

    /** All rows, as queries of this session see them. */
    ghost function Rows(): seq<Instance>
      reads this
    {
      others + instances
    }

    method ReplicaUnits() returns (units: seq<Id>)
      ensures units == Keys(template.nodes, instances)
    {
      units := [];
      for n := 0 to |instances|
        invariant units == Keys(template.nodes, instances[..n])
      {
        assert instances[..n + 1][..n] == instances[..n];
        var key := KeyOf(template.nodes, instances[n]);
        if key !in units {
          units := units + [key];
        }
      }
      assert instances[..|instances|] == instances;
    }

    /** Stops every row of these units. */
    method StopUnits(keys: seq<Id>)
      requires Valid() && forall i, j :: 0 <= i < j < |keys| ==> keys[i] != keys[j]
      modifies `instances
      ensures Valid()
      ensures instances == HaltUnits(template.nodes, old(instances), Sets.Elements(keys))
      ensures |instances| == |old(instances)| && forall i :: 0 <= i < |instances| ==>
                instances[i] == if KeyOf(template.nodes, old(instances)[i]) in keys then StoppedRow(old(instances)[i])
                                else old(instances)[i]
    {
      ghost var before := instances;
      for u := 0 to |keys|
        invariant instances == HaltUnits(template.nodes, before, Sets.Elements(keys[..u]))
      {
        StopUnit(keys[u]);
        HaltNext(template.nodes, before, keys, u);
      }
      assert keys[..|keys|] == keys;
      HaltOwned(template.nodes, before, Sets.Elements(keys));
    }

    method StopUnit(key: Id)
      modifies `instances
      ensures instances == HaltUnits(template.nodes, old(instances), {key})
    {
      for n := 0 to |instances|
        invariant |instances| == |old(instances)|
        invariant forall i :: n <= i < |instances| ==> instances[i] == old(instances)[i]
        invariant forall i :: 0 <= i < n ==>
                    instances[i] == if KeyOf(template.nodes, old(instances)[i]) == key then old(instances)[i].Halted()
                                    else old(instances)[i]
      {
        if KeyOf(template.nodes, instances[n]) == key {
          instances := instances[n := instances[n].Halted()];
        }
      }
    }

    /** The rows of single-node replicas, one per placement. */
    method AppendReplicas(placements: seq<Placement>, now: int)
      requires Valid()
      modifies `instances, `nextId
      ensures instances == old(instances) + NewReplicaRows(template, old(nextId), placements, now)
      ensures Valid()
    {
      for n := 0 to |placements|
        invariant nextId == old(nextId) + n
        invariant instances == old(instances) + NewReplicaRows(template, old(nextId), placements[..n], now)
      {
        instances := instances + [ReplicaRow(template, nextId, placements[n], now)];
        nextId := nextId + 1;
      }
      assert placements[..|placements|] == placements;
      ReplicaRowsOwned(template, old(nextId), placements, now);
    }

    /** The rows of one parallel group, in rank order. */
    method AppendGroup(ranks: seq<Rank>, rendezvous: string, now: int)
      requires Valid()
      modifies `instances, `nextId
      ensures instances == old(instances) + NewRankRows(template, old(nextId), ranks, rendezvous, now)
      ensures Valid() && nextId > old(nextId)
    {
      var group := nextId;
      nextId := nextId + 1;
      for n := 0 to |ranks|
        invariant nextId == group + 1 + n
        invariant instances == old(instances) + NewRankRows(template, group, ranks[..n], rendezvous, now)
      {
        instances := instances + [RankRow(template, nextId, group, ranks[n], rendezvous, now)];
        nextId := nextId + 1;
      }
      assert ranks[..|ranks|] == ranks;
      RankRowsOwned(template, group, ranks, rendezvous, now);
    }

    /** The ranks of one group, as the allocator sees this session. */
    method AllocateRanks(occupied: set<Id>) returns (grant: Result<seq<Rank>, AllocError>)
      requires Valid() && template.nodes >= 2
      ensures grant.Ok? <==> GroupPossible(Request(workers, cluster, engine), occupied, template, Rows(), pools)
      ensures grant.Ok? ==>
        && |grant.value| == template.nodes && RanksGranted(Rows(), pools, occupied, grant.value)
        && GroupPlanned(Request(workers, cluster, engine), occupied, template.vram, template.nodes, Rows(), pools, grant.value)
    {
      var db := Database(workers, others + instances);
      grant := AllocateParallelReplicas(db, cluster, template.vram, engine, template.nodes, occupied,
                                        pools.instances, pools.rendezvous);
      if grant.Ok? {
        AllocatorGrants(db, cluster, template.vram, engine, template.nodes, occupied, pools, grant.value);
      }
    }

    /** One more parallel group, on hosts that no instance of the deployment uses yet. */
    method GrowGroup(ghost base: seq<Instance>, ghost u: nat, occupied: set<Id>, now: int)
      returns (error: Option<AllocError>, taken: set<Id>)
      requires Valid() && template.nodes >= 2 && base <= instances && occupied == WorkersOf(instances)
      requires Grown(template.nodes, base, instances[|base|..], u) && Templated(template, instances[|base|..])
      requires Grouped(base, instances, now)
      modifies `instances, `nextId
      ensures Valid() && base <= instances && taken == WorkersOf(instances)
      ensures error.Some? ==> instances == old(instances) && NoGroupPossible()
      ensures error.None? ==> Grown(template.nodes, base, instances[|base|..], u + 1)
      ensures Templated(template, instances[|base|..]) && Grouped(base, instances, now)
      ensures Keeps(pools, capacities, old(Rows()), Rows())
    {
      var grant := AllocateRanks(occupied);
      if grant.Err? {
        return Some(grant.error), occupied;
      }
      var ranks := grant.value;
      var text := Rendezvous.Encode(host(ranks[0].worker), ranks[0].rendezvousPort.value);
      GroupNext(template, base, instances, u, nextId, ranks, text, now);
      GroupKeeps(template, pools, capacities, Request(workers, cluster, engine), others, instances, nextId, ranks,
                 host(ranks[0].worker), now);
      GroupsNext(Request(workers, cluster, engine), template, pools, host, now, others, base, instances, nextId, ranks);
      AppendGroup(ranks, text, now);
      return None, occupied + set rank | rank in ranks :: rank.worker;
    }

    /** Whole parallel groups, one after the other, until one cannot be placed. */
    method GrowGroups(count: nat, now: int) returns (made: nat, error: Option<AllocError>)
      requires Valid() && template.nodes >= 2
      modifies `instances, `nextId
      ensures Valid() && old(instances) <= instances
      ensures made <= count && (error.None? <==> made == count) && (error.Some? ==> NoGroupPossible())
      ensures Grown(template.nodes, old(instances), instances[|old(instances)|..], made)
      ensures Templated(template, instances[|old(instances)|..]) && Grouped(old(instances), instances, now)
      ensures Keeps(pools, capacities, old(Rows()), Rows())
    {
      var occupied := WorkersOf(instances);
      GrownNothing(template.nodes, instances);
      for u := 0 to count
        invariant Valid() && old(instances) <= instances && occupied == WorkersOf(instances)
        invariant Grown(template.nodes, old(instances), instances[|old(instances)|..], u)
        invariant Templated(template, instances[|old(instances)|..]) && Grouped(old(instances), instances, now)
        invariant Keeps(pools, capacities, old(Rows()), Rows())
      {
        error, occupied := GrowGroup(old(instances), u, occupied, now);
        if error.Some? {
          return u, error;
        }
      }
      return count, None;
    }

    method ApplyScale(replicas: int, setRange: bool, now: int) returns (r: Result<int, ScaleError>)
      requires Valid()
      modifies this
      ensures Valid()
      ensures Keeps(pools, capacities, old(Rows()), Rows())
      ensures var target := if setRange then replicas else Max(old(minReplicas), Min(old(maxReplicas), replicas));
              match r
              case Ok(_) =>
                && 1 <= target <= 8 && Scaled(template.nodes, target, old(instances), instances)
                && Provided(old(instances), instances, target, now)
                && (minReplicas, maxReplicas) == if setRange then (target, target) else (old(minReplicas), old(maxReplicas))
              case Err(Allocation(_)) =>
                && Abandoned(template.nodes, target, old(instances), instances) && Impossible(target, old(instances))
                && minReplicas == old(minReplicas) && maxReplicas == old(maxReplicas)
              case Err(Constraint) =>
                && !(1 <= target <= 8)
                && instances == old(instances) && minReplicas == old(minReplicas) && maxReplicas == old(maxReplicas)
    {
      var target := if setRange then replicas else Max(minReplicas, Min(maxReplicas, replicas));
      var before, firstId := instances, nextId;
      var error := Resize(target, now);
      if error.Some? {
        return Err(Allocation(error.value));
      }
      var ok := CommitScale(target, setRange, before, firstId);
      r := if ok then Ok(target) else Err(Constraint);
    }

    /** The commit violates ck_deployments_min_max for a range out of bounds; then the session rolls back. */
    method CommitScale(target: int, setRange: bool, before: seq<Instance>, firstId: Id) returns (ok: bool)
      modifies this
      ensures ok <==> (setRange ==> 1 <= target <= 8)
      ensures (instances, nextId) == if ok then (old(instances), old(nextId)) else (before, firstId)
      ensures (minReplicas, maxReplicas) == if ok && setRange then (target, target) else (old(minReplicas), old(maxReplicas))
    {
      ok := !setRange || 1 <= target <= 8;
      if !ok {
        instances, nextId := before, firstId;
      } else if setRange {
        minReplicas, maxReplicas := target, target;
      }
    }

    /** Where added rows come from: all from the template, and single-node ones from the allocator as it sees
        the broken units stopped, kept apart from the GPUs that serving and pending units hold: they reach as
        many hosts and GPUs that `before` did not hold as they can. Groups come from the allocator one after
        the other. */
    ghost predicate Provided(before: seq<Instance>, after: seq<Instance>, target: int, now: int) {
      && |before| <= |after| && Templated(template, after[|before|..])
      && (template.nodes == 1 ==> Spread(before, after[|before|..]))
      && (template.nodes > 1 && target > |UnitsWhere(template.nodes, before, OnTrack)| ==>
           Grouped(HaltUnits(template.nodes, before, UnitsWhere(template.nodes, before, Broken)), after, now))
      && var capacity, halted := |UnitsWhere(1, before, OnTrack)|, HaltUnits(1, before, UnitsWhere(1, before, Broken));
         template.nodes == 1 && target > capacity ==>
           Replicated(template, Connected(workers, cluster), others + halted, Vendors(engine), GpusHeld(1, halted),
                      pools.instances, target - capacity, after[|before|..], now)
    }

    ghost predicate Grouped(base: seq<Instance>, after: seq<Instance>, now: int) {
      GroupsFrom(Request(workers, cluster, engine), template, pools, host, now, others, base, after)
    }

    ghost predicate Spread(before: seq<Instance>, added: seq<Instance>) {
      SpreadOut(Database(workers, others + before), cluster, engine, template.vram, HeldBy(before), RowKeys(added))
    }

    /** Stops the broken units; what counts as capacity is returned, serving units first. */
    method StopBroken() returns (candidates: seq<Id>)
      requires Valid()
      modifies `instances
      ensures Valid() && |instances| == |old(instances)| && Underway(template.nodes, old(instances), instances, 0)
      ensures Keeps(pools, capacities, old(Rows()), Rows())
      ensures candidates == Candidates(template.nodes, old(instances))
      ensures |candidates| == |UnitsWhere(template.nodes, old(instances), OnTrack)|
    {
      var before, nodes := instances, template.nodes;
      var serving, pending := Select(nodes, before, Serving), Select(nodes, before, Pending);
      var broken := Select(nodes, before, Broken);
      Selected(nodes, before, Broken);
      CandidatesAreOnTrack(nodes, before);
      BrokenHalted(pools, capacities, nodes, others, before);
      StopUnits(broken);
      return serving + pending;
    }

    /** Everything but the range and the commit. */
    method Resize(target: int, now: int) returns (error: Option<AllocError>)
      requires Valid()
      modifies `instances, `nextId
      ensures Valid()
      ensures Keeps(pools, capacities, old(Rows()), Rows())
      ensures error.Some? ==> Abandoned(template.nodes, target, old(instances), instances)
                              && Impossible(target, old(instances))
      ensures error.None? ==> Scaled(template.nodes, target, old(instances), instances)
                              && Provided(old(instances), instances, target, now)
    {
      error := None;
      var before := instances;
      var candidates := StopBroken();
      if target > |candidates| {
        if template.nodes > 1 {
          error := GrowGroupsTo(before, target, target - |candidates|, now);
        } else {
          error := GrowReplicasTo(before, target, target - |candidates|, now);
        }
      } else if target < |candidates| {
        Shrink(before, candidates, target, now);
      } else {
        NothingToDo(template.nodes, target, before, instances);
        NothingSpread(Database(workers, others + before), cluster, engine, template.vram, HeldBy(before));
      }
    }

    /** The scale-in branch, once the broken units of `before` are stopped. */
    method Shrink(before: seq<Instance>, candidates: seq<Id>, target: int, ghost now: int)
      requires Valid() && Underway(template.nodes, before, instances, 0) && |instances| == |before|
      requires candidates == Candidates(template.nodes, before) && target < |candidates|
      modifies `instances
      ensures Valid() && Scaled(template.nodes, target, before, instances) && Provided(before, instances, target, now)
      ensures Keeps(pools, capacities, old(Rows()), Rows())
    {
      var nodes, effective := template.nodes, |candidates|;
      SortPermutes(candidates, StopOrder(nodes, before));
      var toStop := Sort(candidates, StopOrder(nodes, before))[..Min(effective, effective - target)];
      ShrinkSound(pools, capacities, nodes, target, others, before, instances, toStop);
      StopUnits(toStop);
      NothingSpread(Database(workers, others + before), cluster, engine, template.vram, HeldBy(before));
    }

    /** The scale-out branch for groups, once the broken units of `before` are stopped. */
    method GrowGroupsTo(ghost before: seq<Instance>, ghost target: int, missing: nat, now: int)
      returns (error: Option<AllocError>)
      requires Valid() && template.nodes > 1 && missing > 0
      requires Underway(template.nodes, before, instances, 0) && |instances| == |before|
      requires target == |UnitsWhere(template.nodes, before, OnTrack)| + missing
      modifies `instances, `nextId
      ensures Valid()
      ensures Keeps(pools, capacities, old(Rows()), Rows())
      ensures error.None? ==> Scaled(template.nodes, target, before, instances) && Provided(before, instances, target, now)
      ensures error.Some? ==> Abandoned(template.nodes, target, before, instances) && Impossible(target, before)
    {
      var made: nat;
      UnderwayHalted(template.nodes, before, instances);
      made, error := GrowGroups(missing, now);
      UnderwayGrown(template.nodes, before, old(instances), instances, made);
      if error.None? {
        UnderwayDone(template.nodes, target, before, instances, made);
      }
    }

    /** The same for single-node replicas. */
    method GrowReplicasTo(ghost before: seq<Instance>, ghost target: int, missing: nat, now: int)
      returns (error: Option<AllocError>)
      requires Valid() && template.nodes == 1 && missing > 0
      requires Underway(1, before, instances, 0) && |instances| == |before|
      requires target == |UnitsWhere(1, before, OnTrack)| + missing
      modifies `instances, `nextId
      ensures Valid()
      ensures Keeps(pools, capacities, old(Rows()), Rows())
      ensures error.None? ==> Scaled(1, target, before, instances) && Provided(before, instances, target, now)
      ensures error.Some? ==> Abandoned(1, target, before, instances) && Impossible(target, before)
    {
      UnderwayHalted(1, before, instances);
      var used := GpusHeld(1, instances);
      var grant := AllocateReplicas(Database(workers, others + instances), cluster, template.vram, engine, missing,
                                    used, pools.instances);
      if grant.Err? {
        return Some(grant.error);
      }
      ReplicasAdded(template, pools, capacities, Request(workers, cluster, engine), used, others, instances, nextId,
                    grant.value, now);
      ReplicaRowsTemplated(template, nextId, grant.value, now);
      HeldIs(instances);
      HeldAfterBroken(before);
      OutcomeSpread(template, workers, cluster, engine, others, before, instances, pools.instances, grant.value, nextId, now);
      AppendReplicas(grant.value, now);
      UnderwayGrown(1, before, old(instances), instances, missing);
      UnderwayDone(1, target, before, instances, missing);
      assert instances[|before|..] == NewReplicaRows(template, old(nextId), grant.value, now);
      return None;
    }
  }

  /** What a scale has done so far: broken units stopped, some whole units added. */
  ghost predicate Underway(nodes: nat, before: seq<Instance>, after: seq<Instance>, made: nat) {
    && |before| <= |after|
    && after[..|before|] == HaltUnits(nodes, before, UnitsWhere(nodes, before, Broken))
    && Grown(nodes, before, after[|before|..], made)
  }

  /** What a failed allocation leaves in the session: broken units stopped and too few units added, each
      of them whole. autoscale_tick goes on with such a session. */
  ghost predicate Abandoned(nodes: nat, target: int, before: seq<Instance>, after: seq<Instance>) {
    exists made :: 0 <= made < target - |UnitsWhere(nodes, before, OnTrack)| && Underway(nodes, before, after, made)
  }

  lemma GrownNothing(nodes: nat, base: seq<Instance>)
    ensures Grown(nodes, base, base[|base|..], 0)
  {
    assert KeySet(nodes, base[|base|..]) == {};
  }

  /** Neither the placement invariants nor the bound on GPU memory get lost. */
  ghost predicate Keeps(pools: Pools, cap: Capacities, before: seq<Instance>, after: seq<Instance>) {
    && (WellPlaced(pools, before) ==> WellPlaced(pools, after))
    && (WithinVram(cap, before) ==> WithinVram(cap, after))
  }

  lemma BrokenHalted(pools: Pools, cap: Capacities, nodes: nat, others: seq<Instance>, before: seq<Instance>)
    ensures var halted := HaltUnits(nodes, before, Sets.Elements(Select(nodes, before, Broken)));
            && Underway(nodes, before, halted, 0)
            && Keeps(pools, cap, others + before, others + halted)
  {
    SelectedSet(nodes, before, Broken);
    var halted := HaltUnits(nodes, before, UnitsWhere(nodes, before, Broken));
    assert halted[..|before|] == halted && halted[|before|..] == [];
    assert KeySet(nodes, []) == {};
    HaltsKeep(pools, cap, nodes, others, before, UnitsWhere(nodes, before, Broken));
  }

  lemma ShrinkSound(pools: Pools, cap: Capacities, nodes: nat, target: int, others: seq<Instance>, before: seq<Instance>,
                    rows: seq<Instance>, stop: seq<Id>)
    requires Underway(nodes, before, rows, 0) && |rows| == |before| && target < |Candidates(nodes, before)|
    requires stop == ToStop(nodes, before, target)
    ensures forall i, j :: 0 <= i < j < |stop| ==> stop[i] != stop[j]
    ensures var after := HaltUnits(nodes, rows, Sets.Elements(stop));
            Scaled(nodes, target, before, after) && Keeps(pools, cap, others + rows, others + after)
  {
    CandidatesAreOnTrack(nodes, before);
    ToStopDistinct(nodes, before, target);
    SurplusStopped(nodes, target, before, rows);
    HaltsKeep(pools, cap, nodes, others, rows, Surplus(nodes, before, target));
  }

  /** A stop reserves nothing and claims nothing. */
  lemma HaltsKeep(pools: Pools, cap: Capacities, nodes: nat, others: seq<Instance>, rows: seq<Instance>, keys: set<Id>)
    ensures Keeps(pools, cap, others + rows, others + HaltUnits(nodes, rows, keys))
  {
    var before, after := others + rows, others + HaltUnits(nodes, rows, keys);
    forall i | 0 <= i < |before| ensures NoMoreReserved(before[i], after[i]) && after[i].state == before[i].state {
      assert i < |others| ==> before[i] == after[i] == others[i];
    }
    if WellPlaced(pools, before) {
      UpdatesFit(pools, before, after);
    }
    if WithinVram(cap, before) {
      UpdatesWithin(cap, before, after);
    }
  }

  lemma ReplicasAdded(t: Template, pools: Pools, cap: Capacities, q: Request, used: set<GpuKey>, others: seq<Instance>,
                      current: seq<Instance>, id: Id, placements: seq<Placement>, now: int)
    requires t.nodes == 1 && t.vram > 0 && pools.Valid() && IdsBelow(others, id) && IdsBelow(current, id)
    requires ValidWorkers(q.workers) && Reports(q.workers, cap)
    requires ReplicasPlanned(q, used, t.vram, others + current, pools.instances, placements)
    ensures var added := NewReplicaRows(t, id, placements, now);
            && Grown(1, current, added, |placements|)
            && Keeps(pools, cap, others + current, others + (current + added))
  {
    ReplicasKeep(t, pools, cap, q, used, others + current, id, placements, now);
    ReplicaRowsGrow(t, current, id, placements, now);
    assert (others + current) + NewReplicaRows(t, id, placements, now)
        == others + (current + NewReplicaRows(t, id, placements, now));
  }

  lemma ReplicasKeep(t: Template, pools: Pools, cap: Capacities, q: Request, used: set<GpuKey>, rows: seq<Instance>,
                     id: Id, placements: seq<Placement>, now: int)
    requires t.vram > 0 && pools.Valid() && IdsBelow(rows, id) && ValidWorkers(q.workers) && Reports(q.workers, cap)
    requires ReplicasPlanned(q, used, t.vram, rows, pools.instances, placements)
    ensures Keeps(pools, cap, rows, rows + NewReplicaRows(t, id, placements, now))
  {
    ReplicasAreAdded(pools, rows, q, used, t, id, placements, now);
    AdditionKeeps(pools, cap, rows, Step.Deploy(q, used, t, placements, now), NewReplicaRows(t, id, placements, now));
  }

  /** What the allocators grant is a step of the runs that keep both. */
  lemma AdditionKeeps(pools: Pools, cap: Capacities, rows: seq<Instance>, step: Step, added: seq<Instance>)
    requires pools.Valid() && !step.Change? && !step.Delete?
    requires ValidWorkers(step.q.workers) && Reports(step.q.workers, cap) && step.t.vram > 0
    requires Added(rows, step, pools, added)
    ensures Keeps(pools, cap, rows, rows + added)
  {
    if WellPlaced(pools, rows) {
      AdditionFits(pools, rows, step, added);
    }
    if WithinVram(cap, rows) {
      AdditionWithin(pools, cap, rows, step, added);
    }
  }

  /** The next group: one more unit... */
  lemma GroupGrows(t: Template, base: seq<Instance>, current: seq<Instance>, u: nat, id: Id, ranks: seq<Rank>, text: string,
                   now: int)
    requires |ranks| == t.nodes >= 2 && IdsBelow(current, id) && base <= current
    requires forall i :: 0 <= i < |ranks| ==> ranks[i].nodeRank == i && (ranks[i].port.Some? <==> i == 0)
    requires Grown(t.nodes, base, current[|base|..], u)
    ensures Grown(t.nodes, base, (current + NewRankRows(t, id, ranks, text, now))[|base|..], u + 1)
  {
    var added := NewRankRows(t, id, ranks, text, now);
    RankRowsWhole(t, id, ranks, text, now);
    assert (current + added)[|base|..] == current[|base|..] + added;
    assert id !in KeySet(t.nodes, base) && id !in KeySet(t.nodes, current[|base|..]);
    GrowStep(t.nodes, base, current[|base|..], u, added, id);
  }

  /** ... in a place of its own... */
  lemma GroupKeeps(t: Template, pools: Pools, cap: Capacities, q: Request, others: seq<Instance>, current: seq<Instance>,
                   id: Id, ranks: seq<Rank>, host: string, now: int)
    requires |ranks| == t.nodes >= 2 && t.vram > 0 && pools.Valid() && IdsBelow(others, id) && IdsBelow(current, id)
    requires forall r :: r in others ==> r.deployment != t.deployment
    requires ValidWorkers(q.workers) && Reports(q.workers, cap)
    requires RanksGranted(others + current, pools, WorkersOf(current), ranks)
    requires GroupPlanned(q, WorkersOf(current), t.vram, t.nodes, others + current, pools, ranks)
    ensures Keeps(pools, cap, others + current, others + (current +
              NewRankRows(t, id, ranks, Rendezvous.Encode(host, ranks[0].rendezvousPort.value), now)))
  {
    OwnWorkers(t, others, current);
    RanksKeep(t, pools, cap, q, WorkersOf(current), others + current, id, ranks, host, now);
    var added := NewRankRows(t, id, ranks, Rendezvous.Encode(host, ranks[0].rendezvousPort.value), now);
    Reassociate(others, current, added);
  }

  lemma Reassociate<T>(a: seq<T>, b: seq<T>, c: seq<T>)
    ensures (a + b) + c == a + (b + c)
  {
  }

  lemma OwnWorkers(t: Template, others: seq<Instance>, current: seq<Instance>)
    requires forall r :: r in others ==> r.deployment != t.deployment
    ensures forall r :: r in others + current && r.deployment == t.deployment && r.worker.Some? ==>
              r.worker.value in WorkersOf(current)
  {
    forall r | r in others + current && r.deployment == t.deployment && r.worker.Some?
      ensures r.worker.value in WorkersOf(current) {
      assert r in current;
    }
  }

  lemma RanksKeep(t: Template, pools: Pools, cap: Capacities, q: Request, exclude: set<Id>, rows: seq<Instance>, id: Id,
                  ranks: seq<Rank>, host: string, now: int)
    requires |ranks| == t.nodes >= 2 && t.vram > 0 && pools.Valid() && IdsBelow(rows, id)
    requires forall r :: r in rows && r.deployment == t.deployment && r.worker.Some? ==> r.worker.value in exclude
    requires ValidWorkers(q.workers) && Reports(q.workers, cap) && RanksGranted(rows, pools, exclude, ranks)
    requires GroupPlanned(q, exclude, t.vram, t.nodes, rows, pools, ranks)
    ensures ranks[0].rendezvousPort.value >= 0
    ensures Keeps(pools, cap, rows, rows +
              NewRankRows(t, id, ranks, Rendezvous.Encode(host, ranks[0].rendezvousPort.value), now))
  {
    RanksAreAdded(pools, rows, q, exclude, t, id, ranks, host, now);
    AdditionKeeps(pools, cap, rows, Step.DeployGroup(q, exclude, t, ranks, host, now),
                  NewRankRows(t, id, ranks, Rendezvous.Encode(host, ranks[0].rendezvousPort.value), now));
  }

  /** ... whose hosts are taken from now on. */
  lemma GroupWorkers(t: Template, current: seq<Instance>, id: Id, ranks: seq<Rank>, text: string, now: int)
    ensures WorkersOf(current + NewRankRows(t, id, ranks, text, now))
            == WorkersOf(current) + (set rank | rank in ranks :: rank.worker)
  {
    var added := NewRankRows(t, id, ranks, text, now);
    forall rank | rank in ranks ensures rank.worker in WorkersOf(added) {
      var i :| 0 <= i < |ranks| && ranks[i] == rank;
      assert added[i] in added;
    }
  }

  lemma GroupNext(t: Template, base: seq<Instance>, current: seq<Instance>, u: nat, id: Id, ranks: seq<Rank>, text: string,
                  now: int)
    requires |ranks| == t.nodes >= 2 && IdsBelow(current, id) && base <= current
    requires forall i :: 0 <= i < |ranks| ==> ranks[i].nodeRank == i && (ranks[i].port.Some? <==> i == 0)
    requires Grown(t.nodes, base, current[|base|..], u) && Templated(t, current[|base|..])
    ensures var after := current + NewRankRows(t, id, ranks, text, now);
            && Grown(t.nodes, base, after[|base|..], u + 1) && Templated(t, after[|base|..])
            && WorkersOf(after) == WorkersOf(current) + (set rank | rank in ranks :: rank.worker)
  {
    var added := NewRankRows(t, id, ranks, text, now);
    GroupGrows(t, base, current, u, id, ranks, text, now);
    GroupWorkers(t, current, id, ranks, text, now);
    RankRowsTemplated(t, id, ranks, text, now);
    TemplatedConcat(t, current[|base|..], added);
    assert (current + added)[|base|..] == current[|base|..] + added;
  }

  lemma UnderwayGrown(nodes: nat, before: seq<Instance>, halted: seq<Instance>, after: seq<Instance>, made: nat)
    requires Underway(nodes, before, halted, 0) && halted <= after
    requires Grown(nodes, halted, after[|halted|..], made)
    ensures Underway(nodes, before, after, made)
  {
    var stop := UnitsWhere(nodes, before, Broken);
    if |halted| > |before| {
      SomeKey(nodes, halted[|before|..]);
    }
    assert halted == HaltUnits(nodes, before, stop);
    HaltKeySet(nodes, before, stop);
  }

  /** Nothing is missing and nothing is too much: the scale is done. */
  lemma UnderwayDone(nodes: nat, target: int, before: seq<Instance>, after: seq<Instance>, made: nat)
    requires Underway(nodes, before, after, made) && target - |UnitsWhere(nodes, before, OnTrack)| == made
    ensures Scaled(nodes, target, before, after)
  {
    CandidatesAreOnTrack(nodes, before);
    SortPermutes(Candidates(nodes, before), StopOrder(nodes, before));
    assert Surplus(nodes, before, target) == {};
  }

  /** What autoscale_tick then carries on with: fewer units than asked for, but every unit whole, none of
      the wanted ones broken, and no unit stopped that was on track. */
  lemma AbandonedKeepsUnits(nodes: nat, target: int, before: seq<Instance>, after: seq<Instance>)
    requires Abandoned(nodes, target, before, after)
    ensures |UnitsWhere(nodes, before, OnTrack)| <= |UnitsWhere(nodes, after, OnTrack)| < target
    ensures UnitsWhere(nodes, after, Broken) == {}
    ensures UnitsWhere(nodes, after, Overlooked) == UnitsWhere(nodes, before, Overlooked)
    ensures UnitsWhere(nodes, before, OnTrack) <= UnitsWhere(nodes, after, OnTrack)
  {
    var capacity := |UnitsWhere(nodes, before, OnTrack)|;
    var made :| 0 <= made < target - capacity && Underway(nodes, before, after, made);
    UnderwayDone(nodes, capacity + made, before, after, made);
    ScaledExactly(nodes, capacity + made, before, after);
    CapacityAfter(nodes, capacity + made, before, after);
    ToStopIsSurplus(nodes, before, capacity + made);
    assert Surplus(nodes, before, capacity + made) == {};
  }

  lemma NothingToDo(nodes: nat, target: int, before: seq<Instance>, halted: seq<Instance>)
    requires Underway(nodes, before, halted, 0) && |halted| == |before| && target == |UnitsWhere(nodes, before, OnTrack)|
    ensures Scaled(nodes, target, before, halted) && halted[|before|..] == []
  {
    UnderwayDone(nodes, target, before, halted, 0);
  }

  lemma SurplusApart(nodes: nat, rows: seq<Instance>, target: int)
    ensures UnitsWhere(nodes, rows, Broken) !! Surplus(nodes, rows, target)
  {
    ToStopIsSurplus(nodes, rows, target);
    forall k | k in Surplus(nodes, rows, target) ensures k !in UnitsWhere(nodes, rows, Broken) {
      OnTrackCases(Members(nodes, rows, k));
    }
  }

  lemma SurplusStopped(nodes: nat, target: int, before: seq<Instance>, halted: seq<Instance>)
    requires Underway(nodes, before, halted, 0) && |halted| == |before|
    requires target < |UnitsWhere(nodes, before, OnTrack)|
    ensures Scaled(nodes, target, before, HaltUnits(nodes, halted, Surplus(nodes, before, target)))
  {
    var after := HaltUnits(nodes, halted, Surplus(nodes, before, target));
    SurplusApart(nodes, before, target);
    assert halted[..|before|] == halted;
    HaltTwice(nodes, before, UnitsWhere(nodes, before, Broken), Surplus(nodes, before, target));
    assert after[..|before|] == after && after[|before|..] == halted[|before|..];
  }

  lemma UnderwayHalted(nodes: nat, before: seq<Instance>, halted: seq<Instance>)
    requires Underway(nodes, before, halted, 0) && |halted| == |before|
    ensures halted == HaltUnits(nodes, before, UnitsWhere(nodes, before, Broken))
  {
    assert halted[..|before|] == halted;
  }

  lemma HaltTwice(nodes: nat, rows: seq<Instance>, a: set<Id>, b: set<Id>)
    requires a !! b
    ensures HaltUnits(nodes, HaltUnits(nodes, rows, a), b) == HaltUnits(nodes, rows, a + b)
  {
  }

  lemma HaltNext(nodes: nat, rows: seq<Instance>, keys: seq<Id>, u: nat)
    requires u < |keys| && forall i, j :: 0 <= i < j < |keys| ==> keys[i] != keys[j]
    ensures HaltUnits(nodes, HaltUnits(nodes, rows, Sets.Elements(keys[..u])), {keys[u]})
            == HaltUnits(nodes, rows, Sets.Elements(keys[..u + 1]))
  {
    var done := Sets.Elements(keys[..u]);
    assert keys[..u + 1] == keys[..u] + [keys[u]];
    assert done + {keys[u]} == Sets.Elements(keys[..u + 1]);
    HaltTwice(nodes, rows, done, {keys[u]});
  }
}

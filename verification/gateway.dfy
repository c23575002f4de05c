/** Routing slots of the gateway (api/gateway.py): which replica a request goes to, and the count of
    requests each replica is serving, across every way a request can end. */
module Gateway {
  import opened Common
  import Sets

  /** A live row that serves the API, in creation order; `routable` when its worker is known. */
  datatype Row = Row(id: Id, routable: bool)

  function Count(counts: map<Id, int>, id: Id): int {
    if id in counts then counts[id] else 0
  }

  /** The bookkeeping of a reservation and of _release_instance. */
  function Taken(active: map<Id, int>, id: Id): map<Id, int> {
    active[id := Count(active, id) + 1]
  }

  function Released(active: map<Id, int>, id: Id): map<Id, int> {
    var n := (if id in active then active[id] else 1) - 1;
    if n <= 0 then active - {id} else active[id := n]
  }

  /** The selection key is (active requests, last assignment), compared lexicographically. */
  predicate Below(active: map<Id, int>, last: map<Id, int>, a: Id, b: Id) {
    || Count(active, a) < Count(active, b)
    || (Count(active, a) == Count(active, b) && Count(last, a) < Count(last, b))
  }

  /** The row a request is routed to: the longest resident prefix, then the fewest active requests, then
      the least recently assigned, then the oldest. */
  ghost predicate Selected(rows: seq<Row>, overlaps: seq<nat>, active: map<Id, int>, last: map<Id, int>, i: nat)
    requires |overlaps| == |rows|
  {
    && i < |rows|
    && (forall j :: 0 <= j < |rows| ==> overlaps[j] <= overlaps[i])
    && (forall j :: 0 <= j < |rows| && overlaps[j] == overlaps[i] ==> !Below(active, last, rows[j].id, rows[i].id))
    && (forall j :: 0 <= j < i && overlaps[j] == overlaps[i] ==> Below(active, last, rows[i].id, rows[j].id))
  }

  class Router {
    var active: map<Id, int>
    var last: map<Id, int>
    /** The next assignment number. */
    var next: int

    constructor ()
      ensures active == map[] && last == map[] && next == 1
    {
      active, last, next := map[], map[], 1;
    }

    /** The first row with the least key among those in the pool. */
    method Choose(rows: seq<Row>, overlaps: seq<nat>) returns (chosen: Option<nat>)
      requires |overlaps| == |rows|
      ensures match chosen
              case None => rows == []
              case Some(i) => Selected(rows, overlaps, active, last, i)
    {
      var best := 0;
      for n := 0 to |rows|
        invariant forall j :: 0 <= j < n ==> overlaps[j] <= best
        invariant best == 0 || exists j :: 0 <= j < n && overlaps[j] == best
      {
        if overlaps[n] > best {
          best := overlaps[n];
        }
      }
      assert |rows| > 0 ==> overlaps[0] <= best;
      chosen := None;
      for n := 0 to |rows|
        invariant chosen.None? ==> forall j :: 0 <= j < n ==> overlaps[j] != best
        invariant chosen.Some? ==>
          && chosen.value < n && overlaps[chosen.value] == best
          && (forall j :: 0 <= j < n && overlaps[j] == best ==> !Below(active, last, rows[j].id, rows[chosen.value].id))
          && (forall j :: 0 <= j < chosen.value && overlaps[j] == best ==>
               Below(active, last, rows[chosen.value].id, rows[j].id))
      {
        var inPool := best == 0 || overlaps[n] == best;
        if inPool && (chosen.None? || Below(active, last, rows[n].id, rows[chosen.value].id)) {
          chosen := Some(n);
        }
      }
    }

    /** The locked section: select, stamp, reserve. A row without a worker is refused, not reserved. */
    method Reserve(rows: seq<Row>, overlaps: seq<nat>) returns (slot: Option<Id>)
      requires |overlaps| == |rows|
      modifies this
      ensures match slot
              case None =>
                && active == old(active) && last == old(last) && next == old(next)
                && (rows == [] || exists i: nat :: Selected(rows, overlaps, active, last, i) && !rows[i].routable)
              case Some(id) =>
                && (exists i: nat :: Selected(rows, overlaps, old(active), old(last), i) && rows[i] == Row(id, true))
                && active == Taken(old(active), id) && last == old(last)[id := old(next)] && next == old(next) + 1
                && active == old(active)[id := (if id in old(active) then old(active)[id] else 0) + 1]
    {
      var chosen := Choose(rows, overlaps);
      if chosen.None? || !rows[chosen.value].routable {
        return None;
      }
      var id := rows[chosen.value].id;
      last, next := last[id := next], next + 1;
      active := active[id := Count(active, id) + 1];
      return Some(id);
    }

    method Release(id: Id)
      modifies `active
      ensures active == Released(old(active), id)
      ensures active == if id in old(active) && old(active)[id] > 1 then old(active)[id := old(active)[id] - 1]
                        else old(active) - {id}
    {
      var n := (if id in active then active[id] else 1) - 1;
      if n <= 0 {
        active := active - {id};
      } else {
        active := active[id := n];
      }
    }
  }

  // ---- Requests ----

  /** Where a request is. Whoever is resolving or owns a request must release its slot; a handed-off slot
      is released by the response's background task. */
  datatype Phase = Arrived | Resolving(slot: Id) | Owned(slot: Id) | HandedOff(slot: Id) | Done

  /** A request and how many slots it has reserved and released so far. */
  datatype Request = Request(phase: Phase, reserved: nat, released: nat) {
    predicate Holds(id: Id) {
      (phase.Resolving? || phase.Owned? || phase.HandedOff?) && phase.slot == id
    }
  }

  datatype World = World(active: map<Id, int>, requests: map<Id, Request>)

  datatype Step =
    | Arrive(r: Id)
    /** Unknown model, no instance, or any failure before the slot is reserved. */
    | Reject(r: Id)
    | Reserve(r: Id, id: Id)
    | Resolved(r: Id)
    /** Blocked target, untrusted https upstream, cancellation while resolving. */
    | ResolveFails(r: Id)
    /** Quota exceeded, build or send failure, cancellation: the finally releases. */
    | ProxyFails(r: Id)
    | HandOff(r: Id)
    /** The stream ended or the client left. */
    | Background(r: Id)

  /** When a request in this phase can take a step; None before it arrives. */
  predicate Allowed(phase: Option<Phase>, step: Step) {
    match step
    case Arrive(_) => phase.None?
    case Reject(_) => phase.Some? && phase.value.Arrived?
    case Reserve(_, _) => phase.Some? && phase.value.Arrived?
    case Resolved(_) => phase.Some? && phase.value.Resolving?
    case ResolveFails(_) => phase.Some? && phase.value.Resolving?
    case ProxyFails(_) => phase.Some? && phase.value.Owned?
    case HandOff(_) => phase.Some? && phase.value.Owned?
    case Background(_) => phase.Some? && phase.value.HandedOff?
  }

  predicate Releases(step: Step) {
    step.ResolveFails? || step.ProxyFails? || step.Background?
  }

  function PhaseOf(requests: map<Id, Request>, r: Id): Option<Phase> {
    if r in requests then Some(requests[r].phase) else None
  }

  function RequestOf(requests: map<Id, Request>, r: Id): Request {
    if r in requests then requests[r] else Request(Arrived, 0, 0)
  }

  /** The request after its step. */
  function After(q: Request, step: Step): Request
    requires step.Arrive? || Allowed(Some(q.phase), step)
  {
    match step
    case Arrive(_) => q
    case Reserve(_, id) => Request(Resolving(id), q.reserved + 1, q.released)
    case Resolved(_) => q.(phase := Owned(q.phase.slot))
    case HandOff(_) => q.(phase := HandedOff(q.phase.slot))
    case Reject(_) => q.(phase := Done)
    case _ => Request(Done, q.reserved, q.released + 1)
  }

  ghost predicate Next(w: World, step: Step, w': World) {
    && Allowed(PhaseOf(w.requests, step.r), step)
    && var q := RequestOf(w.requests, step.r);
       && w'.requests == w.requests[step.r := After(q, step)]
       && w'.active == (if step.Reserve? then Taken(w.active, step.id)
                        else if Releases(step) then Released(w.active, q.phase.slot)
                        else w.active)
  }

  function Holders(requests: map<Id, Request>, id: Id): set<Id> {
    set r | r in requests && requests[r].Holds(id)
  }

  /** The count of each instance is the number of requests that hold a slot on it, and only instances with
      a slot held have an entry. */
  ghost predicate Counted(w: World, id: Id) {
    && (id in w.active <==> Holders(w.requests, id) != {})
    && Count(w.active, id) == |Holders(w.requests, id)|
  }

  /** A request reserves at most once, holds exactly what it has reserved and not released, and is done
      with nothing left to release. */
  predicate Balanced(q: Request) {
    match q.phase
    case Arrived => q.reserved == 0 && q.released == 0
    case Done => q.reserved == q.released && q.released <= 1
    case _ => q.reserved == 1 && q.released == 0
  }

  ghost predicate Accounted(w: World) {
    (forall id :: Counted(w, id)) && forall r :: r in w.requests ==> Balanced(w.requests[r])
  }

  /** A request that changes nothing about who holds an instance changes none of its counts. */
  lemma SameHolders(w: World, w': World, r: Id, id: Id)
    requires Counted(w, id) && Count(w'.active, id) == Count(w.active, id) && (id in w'.active <==> id in w.active)
    requires r in w'.requests && w'.requests == w.requests[r := w'.requests[r]]
    requires w'.requests[r].Holds(id) <==> (r in w.requests && w.requests[r].Holds(id))
    ensures Counted(w', id)
  {
    assert Holders(w'.requests, id) == Holders(w.requests, id);
  }

  lemma Joins(w: World, w': World, r: Id, id: Id)
    requires Counted(w, id) && r in w.requests && !w.requests[r].Holds(id)
    requires w'.active == Taken(w.active, id)
    requires r in w'.requests && w'.requests == w.requests[r := w'.requests[r]] && w'.requests[r].Holds(id)
    ensures Counted(w', id)
  {
    assert Holders(w'.requests, id) == Holders(w.requests, id) + {r};
  }

  lemma Leaves(w: World, w': World, r: Id, id: Id)
    requires Counted(w, id) && r in w.requests && w.requests[r].Holds(id)
    requires w'.active == Released(w.active, id)
    requires r in w'.requests && w'.requests == w.requests[r := w'.requests[r]] && !w'.requests[r].Holds(id)
    ensures Counted(w', id)
  {
    var left := Holders(w'.requests, id);
    assert Holders(w.requests, id) == left + {r};
    assert left == {} <==> |left| == 0;
  }

  lemma {:induction false} AfterBalanced(q: Request, step: Step)
    requires (step.Arrive? || Allowed(Some(q.phase), step)) && Balanced(q)
    ensures Balanced(After(q, step))
  {
  }

  lemma StepCounted(w: World, step: Step, w': World, id: Id)
    requires Counted(w, id) && Next(w, step, w')
    ensures Counted(w', id)
  {
    if step.Reserve? && step.id == id {
      Joins(w, w', step.r, id);
    } else if Releases(step) && w.requests[step.r].phase.slot == id {
      Leaves(w, w', step.r, id);
    } else {
      SameHolders(w, w', step.r, id);
    }
  }

  lemma StepAccounted(w: World, step: Step, w': World)
    requires Accounted(w) && Next(w, step, w')
    ensures Accounted(w')
  {
    AfterBalanced(RequestOf(w.requests, step.r), step);
    forall id ensures Counted(w', id) {
      StepCounted(w, step, w', id);
    }
  }

  /** An entry stands for a request that still has to release it. */
  lemma EntryHeld(w: World, id: Id)
    requires Counted(w, id) && id in w.active
    ensures w.active[id] >= 1 && exists r :: r in w.requests && w.requests[r].Holds(id)
  {
    var holders := Holders(w.requests, id);
    assert holders != {};
    var r := Sets.Member(holders);
  }

  /** In every interleaving of requests that may fail or be cancelled anywhere: counts equal holders and are
      never negative, every slot is released exactly once, and when all requests are done no count is left. */
  lemma {:induction false} SlotsAccounted(ws: seq<World>, steps: seq<Step>, k: nat)
    requires |ws| == |steps| + 1 && ws[0] == World(map[], map[])
    requires forall j :: 0 <= j < |steps| ==> Next(ws[j], steps[j], ws[j + 1])
    requires k < |ws|
    ensures Accounted(ws[k])
    ensures forall id :: id in ws[k].active ==> ws[k].active[id] >= 1
    ensures forall r :: r in ws[k].requests && ws[k].requests[r].phase.Done? ==>
              ws[k].requests[r].reserved == ws[k].requests[r].released
    ensures (forall r :: r in ws[k].requests ==> ws[k].requests[r].phase.Done?) ==> ws[k].active == map[]
  {
    if k == 0 {
      forall id ensures Counted(ws[0], id) {
        assert Holders(map[], id) == {};
      }
    } else {
      SlotsAccounted(ws, steps, k - 1);
      StepAccounted(ws[k - 1], steps[k - 1], ws[k]);
    }
    forall id | id in ws[k].active
      ensures ws[k].active[id] >= 1 && exists r :: r in ws[k].requests && ws[k].requests[r].Holds(id) {
      assert Counted(ws[k], id);
      EntryHeld(ws[k], id);
    }
    if ws[k].active != map[] {
      var id :| id in ws[k].active;
    }
  }

  // ---- Rotation and balance ----

  ghost predicate DistinctIds(rows: seq<Row>) {
    forall i, j :: 0 <= i < j < |rows| ==> rows[i].id != rows[j].id
  }

  /** The routing state between two selections. */
  datatype Stamps = Stamps(last: map<Id, int>, next: int) {
    ghost predicate Valid() {
      0 < next && forall id :: Count(last, id) < next
    }
  }

  function NoOverlap(rows: seq<Row>): seq<nat> {
    seq(|rows|, _ => 0)
  }

  /** Sequential requests: each is routed while every candidate is equally loaded (idle, say), and stamps
      the row it gets. */
  ghost predicate Rotates(rows: seq<Row>, active: seq<map<Id, int>>, stamps: seq<Stamps>, picks: seq<nat>) {
    && |active| == |picks| && |stamps| == |picks| + 1
    && forall k :: 0 <= k < |picks| ==>
      && Selected(rows, NoOverlap(rows), active[k], stamps[k].last, picks[k])
      && (forall i, j :: 0 <= i < |rows| && 0 <= j < |rows| ==> Count(active[k], rows[i].id) == Count(active[k], rows[j].id))
      && stamps[k + 1] == Stamps(stamps[k].last[rows[picks[k]].id := stamps[k].next], stamps[k].next + 1)
  }

  ghost predicate PicksApart(picks: seq<nat>) {
    forall i, j :: 0 <= i < j < |picks| ==> picks[i] != picks[j]
  }

  lemma StampKeepsValid(s: Stamps, id: Id)
    requires s.Valid()
    ensures Stamps(s.last[id := s.next], s.next + 1).Valid()
  {
    var last := s.last[id := s.next];
    forall other ensures Count(last, other) < s.next + 1 {
      assert Count(s.last, other) < s.next;
    }
  }

  /** After k requests, the rows picked carry recent stamps and all others their old ones. */
  lemma {:induction false} RotationStamps(rows: seq<Row>, active: seq<map<Id, int>>, stamps: seq<Stamps>, picks: seq<nat>,
                                         k: nat)
    requires DistinctIds(rows) && Rotates(rows, active, stamps, picks) && stamps[0].Valid() && k <= |picks|
    ensures stamps[k].Valid() && stamps[k].next == stamps[0].next + k
    ensures forall i :: 0 <= i < |rows| ==>
              if i in picks[..k] then Count(stamps[k].last, rows[i].id) >= stamps[0].next
              else Count(stamps[k].last, rows[i].id) == Count(stamps[0].last, rows[i].id)
  {
    if k > 0 {
      RotationStamps(rows, active, stamps, picks, k - 1);
      StampKeepsValid(stamps[k - 1], rows[picks[k - 1]].id);
      assert picks[..k] == picks[..k - 1] + [picks[k - 1]];
    }
  }

  /** Some row is still unpicked while fewer than n picks were made. */
  lemma UnpickedExists(n: nat, picks: seq<nat>)
    requires |picks| < n
    ensures exists i: nat :: i < n && i !in picks
  {
    var all := seq(n, i => i);
    Sets.DistinctSize(all);
    Sets.ElementsAtMost(picks);
    if forall i: nat :: i < n ==> i in picks {
      assert forall i :: i in all ==> i in picks;
      Sets.SubsetSize(Sets.Elements(all), Sets.Elements(picks));
    }
  }

  /** While some candidate is unpicked, the next pick is a new one. */
  lemma NextPickIsNew(rows: seq<Row>, active: seq<map<Id, int>>, stamps: seq<Stamps>, picks: seq<nat>, k: nat)
    requires DistinctIds(rows) && Rotates(rows, active, stamps, picks) && stamps[0].Valid()
    requires k < |picks| && k < |rows|
    ensures picks[k] !in picks[..k]
  {
    RotationStamps(rows, active, stamps, picks, k);
    UnpickedExists(|rows|, picks[..k]);
    var i: nat :| i < |rows| && i !in picks[..k];
    assert Count(stamps[0].last, rows[i].id) < stamps[0].next;
    assert !Below(active[k], stamps[k].last, rows[i].id, rows[picks[k]].id);
  }

  /** Fair rotation: any n consecutive such requests over n candidates go to n different instances. */
  lemma FairRotation(rows: seq<Row>, active: seq<map<Id, int>>, stamps: seq<Stamps>, picks: seq<nat>)
    requires DistinctIds(rows) && Rotates(rows, active, stamps, picks) && stamps[0].Valid()
    requires |picks| == |rows|
    ensures PicksApart(picks)
  {
    forall i, j | 0 <= i < j < |picks| ensures picks[i] != picks[j] {
      NextPickIsNew(rows, active, stamps, picks, j);
      assert picks[..j][i] == picks[i];
    }
  }

  /** Every candidate has m or m + 1 active requests. */
  ghost predicate Level(rows: seq<Row>, active: map<Id, int>, m: int) {
    forall i :: 0 <= i < |rows| ==> m <= Count(active, rows[i].id) <= m + 1
  }

  /** Arrivals without prefix overlap keep the load level: from idle, counts stay within one of each other. */
  lemma {:induction false} ArrivalsStayLevel(rows: seq<Row>, last: seq<map<Id, int>>, active: seq<map<Id, int>>,
                                            picks: seq<nat>, k: nat) returns (m: int)
    requires DistinctIds(rows) && |last| == |picks| && |active| == |picks| + 1 && k <= |picks|
    requires forall i :: 0 <= i < |rows| ==> Count(active[0], rows[i].id) == 0
    requires forall j :: 0 <= j < |picks| ==>
               && Selected(rows, NoOverlap(rows), active[j], last[j], picks[j])
               && active[j + 1] == Taken(active[j], rows[picks[j]].id)
    ensures Level(rows, active[k], m)
  {
    if k == 0 {
      m := 0;
    } else {
      m := ArrivalsStayLevel(rows, last, active, picks, k - 1);
      var p := picks[k - 1];
      forall i | 0 <= i < |rows| ensures Count(active[k - 1], rows[p].id) <= Count(active[k - 1], rows[i].id) {
        assert !Below(active[k - 1], last[k - 1], rows[i].id, rows[p].id);
      }
      if Count(active[k - 1], rows[p].id) > m {
        m := m + 1;
      }
    }
  }
}

/** Usage accounting (services/usage.py): requests are added to an in-memory buffer, and one background
    loop folds the buffer into database rows while more requests arrive. */
module Usage {
  import opened Common
  import Sets

  const MAX_PENDING_KEYS := 10_000

  datatype Key = Key(user: Id, apiKey: Id, model: Id, day: int)

  datatype Accum = Accum(requests: nat, tokensIn: nat, tokensOut: nat, latency: nat) {
    function Add(other: Accum): Accum {
      Accum(requests + other.requests, tokensIn + other.tokensIn, tokensOut + other.tokensOut, latency + other.latency)
    }
  }

  type Ledger = map<Key, Accum>

  /** What one request adds; negative measurements count as zero. */
  function Event(tokensIn: int, tokensOut: int, latency: int): Accum {
    Accum(1, Max(tokensIn, 0), Max(tokensOut, 0), Max(latency, 0))
  }

  /** One ledger added into another, key by key. */
  function Folded(into: Ledger, batch: Ledger): Ledger {
    map k | k in into.Keys + batch.Keys ::
      if k !in batch then into[k] else if k !in into then batch[k] else into[k].Add(batch[k])
  }

  /** A new key is dropped when the buffer is full. */
  predicate Accepts(pending: Ledger, k: Key) {
    k in pending || |pending| < MAX_PENDING_KEYS
  }

  function Recorded(pending: Ledger, k: Key, e: Accum): Ledger {
    if Accepts(pending, k) then Folded(pending, map[k := e]) else pending
  }

  /** The loop that adds a batch to rows, or back to the buffer. */
  method Fold(into: Ledger, batch: Ledger) returns (result: Ledger)
    ensures result == Folded(into, batch)
  {
    result := into;
    var left := batch.Keys;
    while left != {}
      invariant left <= batch.Keys
      invariant result == Folded(into, batch - left)
      decreases left
    {
      var k := Sets.AnyOf(left);
      if k in result {
        result := result[k := result[k].Add(batch[k])];
      } else {
        result := result[k := batch[k]];
      }
      left := left - {k};
    }
    assert batch - left == batch;
  }

  class Meter {
    var pending: Ledger
    /** The swapped-out aggregates of the flush in progress. */
    var batch: Option<Ledger>
    /** usage_records. */
    var rows: Ledger

    constructor ()
      ensures pending == map[] && batch == None && rows == map[]
    {
      pending, batch, rows := map[], None, map[];
    }

    method RecordRequest(k: Key, tokensIn: int, tokensOut: int, latency: int)
      modifies `pending
      ensures pending == Recorded(old(pending), k, Event(tokensIn, tokensOut, latency))
      ensures var before := if k in old(pending) then old(pending)[k] else Accum(0, 0, 0, 0);
              pending == if k !in old(pending) && |old(pending)| >= 10_000 then old(pending)
                         else old(pending)[k := Accum(before.requests + 1,
                                                      before.tokensIn + (if tokensIn > 0 then tokensIn else 0),
                                                      before.tokensOut + (if tokensOut > 0 then tokensOut else 0),
                                                      before.latency + (if latency > 0 then latency else 0))]
    {
      var accum := Accum(0, 0, 0, 0);
      if k in pending {
        accum := pending[k];
      } else if |pending| >= MAX_PENDING_KEYS {
        return;
      }
      accum := Accum(accum.requests + 1, accum.tokensIn + Max(tokensIn, 0), accum.tokensOut + Max(tokensOut, 0),
                     accum.latency + Max(latency, 0));
      pending := pending[k := accum];
    }

    /** flush_usage up to its first await. */
    method BeginFlush() returns (started: bool)
      requires batch.None?
      modifies this
      ensures started <==> old(pending) != map[]
      ensures pending == map[] && rows == old(rows) && batch == if started then Some(old(pending)) else None
    {
      started := pending != map[];
      if started {
        batch, pending := Some(pending), map[];
      }
    }

    /** The transaction commits: every aggregate is in its row. */
    method CommitFlush()
      requires batch.Some?
      modifies this
      ensures rows == Folded(old(rows), old(batch).value) && batch == None && pending == old(pending)
    {
      rows := Fold(rows, batch.value);
      batch := None;
    }

    /** The transaction failed and was rolled back: the aggregates return to the buffer. */
    method FailFlush()
      requires batch.Some?
      modifies this
      ensures pending == Folded(old(pending), old(batch).value) && batch == None && rows == old(rows)
    {
      pending := Fold(pending, batch.value);
      batch := None;
    }

    /** The second half of usage_today: the query's sums, and the buffer as it is when the query returns. */
    method UsageToday(user: Id, day: int, storedRequests: nat, storedTokens: nat) returns (requests: nat, tokens: nat)
      ensures requests == storedRequests + Total(pending, user, day, Requests)
      ensures tokens == storedTokens + Total(pending, user, day, Tokens)
    {
      requests, tokens := storedRequests, storedTokens;
      var left := pending.Keys;
      while left != {}
        invariant left <= pending.Keys
        invariant requests + Sum(left, pending, user, day, Requests) == storedRequests + Total(pending, user, day, Requests)
        invariant tokens + Sum(left, pending, user, day, Tokens) == storedTokens + Total(pending, user, day, Tokens)
        decreases left
      {
        var k := Sets.AnyOf(left);
        SumSplit(left, k, pending, user, day, Requests);
        SumSplit(left, k, pending, user, day, Tokens);
        if k.user == user && k.day == day {
          requests, tokens := requests + pending[k].requests, tokens + pending[k].tokensIn + pending[k].tokensOut;
        }
        left := left - {k};
      }
    }
  }

  // ---- Totals of a user's day ----

  /** What can be counted; tokens are input and output together. */
  datatype Column = Requests | TokensIn | TokensOut | Latency | Tokens

  function Value(a: Accum, c: Column): nat {
    match c
    case Requests => a.requests
    case TokensIn => a.tokensIn
    case TokensOut => a.tokensOut
    case Latency => a.latency
    case Tokens => a.tokensIn + a.tokensOut
  }

  function Of(m: Ledger, k: Key, c: Column): nat {
    if k in m then Value(m[k], c) else 0
  }

  function Share(m: Ledger, k: Key, user: Id, day: int, c: Column): nat {
    if k.user == user && k.day == day then Of(m, k, c) else 0
  }

  ghost function Sum(keys: set<Key>, m: Ledger, user: Id, day: int, c: Column): nat {
    if keys == {} then 0
    else
      var k :| k in keys;
      Share(m, k, user, day, c) + Sum(keys - {k}, m, user, day, c)
  }

  /** One user's requests, or tokens, on one day. */
  ghost function Total(m: Ledger, user: Id, day: int, c: Column): nat {
    Sum(m.Keys, m, user, day, c)
  }

  lemma {:induction false} SumSplit(keys: set<Key>, k: Key, m: Ledger, user: Id, day: int, c: Column)
    requires k in keys
    ensures Sum(keys, m, user, day, c) == Share(m, k, user, day, c) + Sum(keys - {k}, m, user, day, c)
    decreases |keys|
  {
    var first :| first in keys
      && Sum(keys, m, user, day, c) == Share(m, first, user, day, c) + Sum(keys - {first}, m, user, day, c);
    if first != k {
      SumSplit(keys - {first}, k, m, user, day, c);
      SumSplit(keys - {k}, first, m, user, day, c);
      assert keys - {first} - {k} == keys - {k} - {first};
    }
  }

  /** A key a ledger does not have adds nothing. */
  lemma SumExtra(keys: set<Key>, k: Key, m: Ledger, user: Id, day: int, c: Column)
    requires k !in keys && k !in m
    ensures Sum(keys + {k}, m, user, day, c) == Sum(keys, m, user, day, c)
  {
    SumSplit(keys + {k}, k, m, user, day, c);
    assert keys + {k} - {k} == keys;
  }

  lemma {:induction false} SumRest(keys: set<Key>, extra: set<Key>, m: Ledger, user: Id, day: int, c: Column)
    requires extra !! keys && forall k :: k in extra ==> k !in m
    ensures Sum(keys + extra, m, user, day, c) == Sum(keys, m, user, day, c)
    decreases |extra|
  {
    if extra == {} {
      assert keys + extra == keys;
    } else {
      var k := Sets.Member(extra);
      var rest := extra - {k};
      SumRest(keys, rest, m, user, day, c);
      SumExtra(keys + rest, k, m, user, day, c);
      PutBack(keys, extra, k);
    }
  }

  lemma PutBack(keys: set<Key>, extra: set<Key>, k: Key)
    requires k in extra
    ensures keys + extra == (keys + (extra - {k})) + {k}
  {
  }

  lemma TotalRest(m: Ledger, extra: set<Key>, user: Id, day: int, c: Column)
    ensures Sum(m.Keys + extra, m, user, day, c) == Total(m, user, day, c)
  {
    var more := extra - m.Keys;
    SumRest(m.Keys, more, m, user, day, c);
    assert m.Keys + extra == m.Keys + more;
  }

  lemma FoldOf(a: Ledger, b: Ledger, k: Key, c: Column)
    ensures Of(Folded(a, b), k, c) == Of(a, k, c) + Of(b, k, c)
  {
  }

  lemma {:induction false} SumAdds(keys: set<Key>, a: Ledger, b: Ledger, user: Id, day: int, c: Column)
    ensures Sum(keys, Folded(a, b), user, day, c) == Sum(keys, a, user, day, c) + Sum(keys, b, user, day, c)
    decreases |keys|
  {
    if keys != {} {
      var k := Sets.Member(keys);
      SumSplit(keys, k, a, user, day, c);
      SumSplit(keys, k, b, user, day, c);
      SumSplit(keys, k, Folded(a, b), user, day, c);
      FoldOf(a, b, k, c);
      SumAdds(keys - {k}, a, b, user, day, c);
    }
  }

  /** Folding one ledger into another adds the totals of every user's day. */
  lemma FoldAddsTotals(a: Ledger, b: Ledger, user: Id, day: int, c: Column)
    ensures Total(Folded(a, b), user, day, c) == Total(a, user, day, c) + Total(b, user, day, c)
  {
    SumAdds(a.Keys + b.Keys, a, b, user, day, c);
    assert Folded(a, b).Keys == a.Keys + b.Keys;
    TotalRest(a, b.Keys, user, day, c);
    assert a.Keys + b.Keys == b.Keys + a.Keys;
    TotalRest(b, a.Keys, user, day, c);
  }

  /** One request adds to exactly its user's day: one to the requests, its input and output to the tokens. */
  lemma RecordTotals(m: Ledger, k: Key, tokensIn: nat, tokensOut: nat, latency: nat, user: Id, day: int)
    requires Accepts(m, k)
    ensures var after, own := Recorded(m, k, Event(tokensIn, tokensOut, latency)), k.user == user && k.day == day;
            && Total(after, user, day, Requests) == Total(m, user, day, Requests) + (if own then 1 else 0)
            && Total(after, user, day, Tokens) == Total(m, user, day, Tokens) + (if own then tokensIn + tokensOut else 0)
  {
    var e := Event(tokensIn, tokensOut, latency);
    forall c ensures Total(Recorded(m, k, e), user, day, c)
                     == Total(m, user, day, c) + (if k.user == user && k.day == day then Value(e, c) else 0) {
      FoldAddsTotals(m, map[k := e], user, day, c);
      assert map[k := e].Keys == {k};
      SumSplit({k}, k, map[k := e], user, day, c);
      assert {k} - {k} == {};
    }
  }

  // ---- Interleavings ----

  /** The meter and, as history, everything it has accepted. */
  datatype State = State(pending: Ledger, batch: Ledger, flushing: bool, rows: Ledger, accepted: Ledger)

  datatype Step = Record(k: Key, e: Accum) | Begin | Commit | Fail

  const INITIAL := State(map[], map[], false, map[], map[])

  ghost predicate Next(s: State, step: Step, s': State) {
    match step
    case Record(k, e) =>
      s' == s.(pending := Recorded(s.pending, k, e),
               accepted := if Accepts(s.pending, k) then Folded(s.accepted, map[k := e]) else s.accepted)
    case Begin => !s.flushing && s' == s.(pending := map[], batch := s.pending, flushing := s.pending != map[])
    case Commit => s.flushing && s' == s.(rows := Folded(s.rows, s.batch), batch := map[], flushing := false)
    case Fail => s.flushing && s' == s.(pending := Folded(s.pending, s.batch), batch := map[], flushing := false)
  }

  ghost predicate Run(states: seq<State>, steps: seq<Step>) {
    && |states| == |steps| + 1 && states[0] == INITIAL
    && forall j :: 0 <= j < |steps| ==> Next(states[j], steps[j], states[j + 1])
  }

  /** Accepted events are in the rows, in the batch being flushed, or in the buffer, and nowhere twice. */
  ghost predicate Conserved(s: State, k: Key, c: Column) {
    && (!s.flushing ==> s.batch == map[])
    && Of(s.accepted, k, c) == Of(s.rows, k, c) + Of(s.batch, k, c) + Of(s.pending, k, c)
  }

  lemma ConserveStep(s: State, step: Step, s': State, k: Key, c: Column)
    requires Conserved(s, k, c) && Next(s, step, s')
    ensures Conserved(s', k, c)
  {
    match step
    case Record(i, e) =>
      FoldOf(s.pending, map[i := e], k, c);
      FoldOf(s.accepted, map[i := e], k, c);
    case Begin =>
    case Commit => FoldOf(s.rows, s.batch, k, c);
    case Fail => FoldOf(s.pending, s.batch, k, c);
  }

  /** Conservation, key by key and column by column, over every interleaving of requests with flushes that
      commit or fail. */
  lemma {:induction false} UsageConserved(states: seq<State>, steps: seq<Step>, n: nat, k: Key, c: Column)
    requires Run(states, steps) && n < |states|
    ensures Conserved(states[n], k, c)
  {
    if n > 0 {
      UsageConserved(states, steps, n - 1, k, c);
      ConserveStep(states[n - 1], steps[n - 1], states[n], k, c);
    }
  }

  lemma TotalsStep(s: State, step: Step, s': State, user: Id, day: int, c: Column)
    requires TotalsConserved(s, user, day, c) && Next(s, step, s')
    ensures TotalsConserved(s', user, day, c) && Total(s.rows, user, day, c) <= Total(s'.rows, user, day, c)
  {
    match step
    case Record(i, e) =>
      FoldAddsTotals(s.pending, map[i := e], user, day, c);
      FoldAddsTotals(s.accepted, map[i := e], user, day, c);
    case Begin =>
    case Commit => FoldAddsTotals(s.rows, s.batch, user, day, c);
    case Fail => FoldAddsTotals(s.pending, s.batch, user, day, c);
  }

  ghost predicate TotalsConserved(s: State, user: Id, day: int, c: Column) {
    && (!s.flushing ==> s.batch == map[])
    && Total(s.accepted, user, day, c)
       == Total(s.rows, user, day, c) + Total(s.batch, user, day, c) + Total(s.pending, user, day, c)
  }

  lemma {:induction false} RunTotals(states: seq<State>, steps: seq<Step>, n: nat, user: Id, day: int, c: Column)
    requires Run(states, steps) && n < |states|
    ensures TotalsConserved(states[n], user, day, c)
  {
    if n > 0 {
      RunTotals(states, steps, n - 1, user, day, c);
      TotalsStep(states[n - 1], steps[n - 1], states[n], user, day, c);
    }
  }

  /** Rows only ever grow. */
  lemma {:induction false} RowsGrow(states: seq<State>, steps: seq<Step>, i: nat, j: nat, user: Id, day: int, c: Column)
    requires Run(states, steps) && i <= j < |states|
    ensures Total(states[i].rows, user, day, c) <= Total(states[j].rows, user, day, c)
    decreases j
  {
    if i < j {
      RowsGrow(states, steps, i, j - 1, user, day, c);
      RunTotals(states, steps, j - 1, user, day, c);
      TotalsStep(states[j - 1], steps[j - 1], states[j], user, day, c);
    }
  }

  /** usage_today: the stored rows as of step i, and the buffer as of step j, after the query's await. */
  ghost function Measured(states: seq<State>, i: nat, j: nat, user: Id, day: int, c: Column): nat
    requires i <= j < |states|
  {
    Total(states[i].rows, user, day, c) + Total(states[j].pending, user, day, c)
  }

  /** What is measured never exceeds what was accepted, whatever happens between the query and the buffer
      scan; it falls short exactly by what a flush moved past it. */
  lemma MeasuredAtMostTrue(states: seq<State>, steps: seq<Step>, i: nat, j: nat, user: Id, day: int, c: Column)
    requires Run(states, steps) && i <= j < |states|
    ensures Measured(states, i, j, user, day, c) <= Total(states[j].accepted, user, day, c)
    ensures Measured(states, i, j, user, day, c) == Total(states[j].accepted, user, day, c) <==>
              && Total(states[i].rows, user, day, c) == Total(states[j].rows, user, day, c)
              && Total(states[j].batch, user, day, c) == 0
  {
    RunTotals(states, steps, j, user, day, c);
    RowsGrow(states, steps, i, j, user, day, c);
  }

  /** No flush is in progress at the query, and none begins before the buffer scan. */
  ghost predicate Undisturbed(states: seq<State>, steps: seq<Step>, i: nat, j: nat)
    requires |states| == |steps| + 1 && i <= j < |states|
  {
    !states[i].flushing && forall n :: i <= n < j ==> steps[n].Record?
  }

  lemma {:induction false} RowsStay(states: seq<State>, steps: seq<Step>, i: nat, j: nat)
    requires Run(states, steps) && i <= j < |states| && Undisturbed(states, steps, i, j)
    ensures !states[j].flushing && states[j].rows == states[i].rows
    decreases j
  {
    if i < j {
      RowsStay(states, steps, i, j - 1);
    }
  }

  /** So it is exact when no flush overlaps. */
  lemma ExactWithoutFlush(states: seq<State>, steps: seq<Step>, i: nat, j: nat, user: Id, day: int, c: Column)
    requires Run(states, steps) && i <= j < |states| && Undisturbed(states, steps, i, j)
    ensures Measured(states, i, j, user, day, c) == Total(states[j].accepted, user, day, c)
  {
    RowsStay(states, steps, i, j);
    RunTotals(states, steps, j, user, day, c);
    assert Total(map[], user, day, c) == 0;
  }

  // ---- Quota ----

  /** check_quota: the exhausted limit and what was measured against it. */
  function CheckQuota(requestLimit: Option<int>, tokenLimit: Option<int>, requests: int, tokens: int): Option<(int, int)> {
    if requestLimit.Some? && requests >= requestLimit.value then Some((requests, requestLimit.value))
    else if tokenLimit.Some? && tokens >= tokenLimit.value then Some((tokens, tokenLimit.value))
    else None
  }

  predicate Exhausted(limit: Option<int>, used: int) {
    limit.Some? && used >= limit.value
  }

  /** A user who is truly below both limits is never rejected, and without an overlapping flush exactly
      the users at or above one are. */
  lemma QuotaNeverTooStrict(states: seq<State>, steps: seq<Step>, i: nat, j: nat, user: Id, day: int,
                            requestLimit: Option<int>, tokenLimit: Option<int>)
    requires Run(states, steps) && i <= j < |states|
    ensures var verdict := CheckQuota(requestLimit, tokenLimit, Measured(states, i, j, user, day, Requests),
                                      Measured(states, i, j, user, day, Tokens));
            var exhausted := || Exhausted(requestLimit, Total(states[j].accepted, user, day, Requests))
                             || Exhausted(tokenLimit, Total(states[j].accepted, user, day, Tokens));
            && (verdict.Some? ==> exhausted)
            && (verdict.Some? ==>
                 || (requestLimit.Some? && verdict.value == (Measured(states, i, j, user, day, Requests), requestLimit.value))
                 || (tokenLimit.Some? && verdict.value == (Measured(states, i, j, user, day, Tokens), tokenLimit.value)))
            && (Undisturbed(states, steps, i, j) ==> (verdict.Some? <==> exhausted))
  {
    MeasuredAtMostTrue(states, steps, i, j, user, day, Requests);
    MeasuredAtMostTrue(states, steps, i, j, user, day, Tokens);
    if Undisturbed(states, steps, i, j) {
      ExactWithoutFlush(states, steps, i, j, user, day, Requests);
      ExactWithoutFlush(states, steps, i, j, user, day, Tokens);
    }
  }

  // ---- The size of the buffer ----

  lemma FoldKeys(a: Ledger, b: Ledger)
    ensures |Folded(a, b)| == |a.Keys + b.Keys|
  {
    assert Folded(a, b).Keys == a.Keys + b.Keys;
  }

  lemma RecordedKeys(pending: Ledger, k: Key, e: Accum)
    ensures |Recorded(pending, k, e)| == |pending| + if Accepts(pending, k) && k !in pending then 1 else 0
  {
    FoldKeys(pending, map[k := e]);
    assert map[k := e].Keys == {k};
    if k in pending {
      assert pending.Keys + {k} == pending.Keys;
    }
  }

  /** Recording never takes the buffer over its limit, and a failed flush does exactly when the keys that
      came back and the keys that arrived meanwhile are too many together. */
  lemma BufferBound(s: State, step: Step, s': State)
    requires Next(s, step, s') && |s.pending| <= MAX_PENDING_KEYS
    ensures |s'.pending| <= MAX_PENDING_KEYS
            <==> (step.Fail? ==> |s.pending.Keys + s.batch.Keys| <= MAX_PENDING_KEYS)
  {
    match step
    case Record(k, e) => RecordedKeys(s.pending, k, e);
    case Fail => FoldKeys(s.pending, s.batch);
    case _ =>
  }

  /** Requests with n new keys, one after the other, fill an empty buffer with n keys. */
  lemma {:induction false} FillBuffer(n: nat) returns (states: seq<State>, steps: seq<Step>)
    requires n <= MAX_PENDING_KEYS
    ensures Run(states, steps) && |steps| == n
    ensures Holds(states[n], n)
  {
    if n == 0 {
      states, steps := [INITIAL], [];
    } else {
      states, steps := FillBuffer(n - 1);
      var step, next := OneMoreKey(states[n - 1], n);
      RunSnoc(states, steps, step, next);
      states, steps := states + [next], steps + [step];
    }
  }

  /** The buffer holds n keys of user 0, for days up to n. */
  ghost predicate Holds(s: State, n: nat) {
    !s.flushing && |s.pending| == n && forall k :: k in s.pending ==> k.user == 0 && k.day <= n
  }

  lemma OneMoreKey(s: State, n: nat) returns (step: Step, next: State)
    requires 0 < n <= MAX_PENDING_KEYS && Holds(s, n - 1)
    ensures Next(s, step, next) && Holds(next, n)
  {
    var k, e := Key(0, 0, 0, n), Event(0, 0, 0);
    step := Record(k, e);
    next := s.(pending := Recorded(s.pending, k, e), accepted := Folded(s.accepted, map[k := e]));
    RecordedKeys(s.pending, k, e);
  }

  /** A run of any step relation grows at its end. */
  lemma ChainSnoc<S(!new), T(!new)>(next: (S, T, S) -> bool, states: seq<S>, steps: seq<T>, step: T, last: S)
    requires |states| == |steps| + 1 && next(states[|steps|], step, last)
    requires forall j :: 0 <= j < |steps| ==> next(states[j], steps[j], states[j + 1])
    ensures var (states', steps') := (states + [last], steps + [step]);
            forall j :: 0 <= j < |steps'| ==> next(states'[j], steps'[j], states'[j + 1])
  {
  }

  lemma RunSnoc(states: seq<State>, steps: seq<Step>, step: Step, last: State)
    requires Run(states, steps) && Next(states[|steps|], step, last)
    ensures Run(states + [last], steps + [step])
  {
    ChainSnoc((s: State, t: Step, s': State) => Next(s, t, s'), states, steps, step, last);
  }

  /** A run after which the buffer is over its limit: it is filled, swapped out, one more request arrives,
      and the flush fails. */
  lemma FailedFlushOverfills() returns (states: seq<State>, steps: seq<Step>)
    ensures Run(states, steps) && |states[|steps|].pending| > MAX_PENDING_KEYS
  {
    states, steps := FillBuffer(MAX_PENDING_KEYS);
    var full, k, e := states[|steps|], Key(1, 0, 0, 0), Event(0, 0, 0);
    var swapped := full.(pending := map[], batch := full.pending, flushing := true);
    var arrived := swapped.(pending := Recorded(map[], k, e), accepted := Folded(full.accepted, map[k := e]));
    var failed := arrived.(pending := Folded(arrived.pending, full.pending), batch := map[], flushing := false);
    RunSnoc(states, steps, Begin, swapped);
    states, steps := states + [swapped], steps + [Begin];
    RunSnoc(states, steps, Record(k, e), arrived);
    states, steps := states + [arrived], steps + [Record(k, e)];
    RunSnoc(states, steps, Fail, failed);
    states, steps := states + [failed], steps + [Fail];
    FoldKeys(arrived.pending, full.pending);
    assert arrived.pending.Keys == {k};
    Sets.DisjointUnionSize({k}, full.pending.Keys);
  }
}

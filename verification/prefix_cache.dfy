/** Prefix residency (services/prefix_cache.py): prompts as chained block digests, and a bounded ring of
    recent prompts per instance. */
module PrefixCache {
  import opened Common
  import Sets

  // ---- Blocks ----

  /** A digest stands for what was hashed: the previous digest and the block's text. */
  datatype Digest = Start | Block(previous: Digest, chunk: string)

  /** The text cut into blocks of `size` characters; the last one may be shorter. */
  function Chunks(text: string, size: nat): (chunks: seq<string>)
    requires size > 0
    decreases |text|
  {
    if text == [] then []
    else if |text| <= size then [text]
    else [text[..size]] + Chunks(text[size..], size)
  }

  function Chain(previous: Digest, chunks: seq<string>): (digests: seq<Digest>)
    ensures |digests| == |chunks|
    decreases |chunks|
  {
    if chunks == [] then []
    else
      var digest := Block(previous, chunks[0]);
      [digest] + Chain(digest, chunks[1..])
  }

  function Digests(text: string, size: nat): seq<Digest>
    requires size > 0
  {
    Chain(Start, Chunks(text, size))
  }

  method Blocks(text: string, size: nat) returns (digests: seq<Digest>)
    requires size > 0
    ensures digests == Digests(text, size)
  {
    digests := [];
    var previous := Start;
    var start := 0;
    while start < |text|
      invariant 0 <= start
      invariant digests + Chain(previous, Chunks(text[Min(start, |text|)..], size)) == Digests(text, size)
      decreases |text| - start
    {
      ghost var rest, before := text[start..], digests;
      var chunk := text[start..Min(start + size, |text|)];
      var digest := Block(previous, chunk);
      digests := digests + [digest];
      assert Chunks(rest, size) == [chunk] + Chunks(text[Min(start + size, |text|)..], size) by {
        if |rest| > size {
          assert rest[..size] == chunk && rest[size..] == text[start + size..];
        } else {
          assert rest == chunk;
        }
      }
      previous := digest;
      start := start + size;
      assert before + ([digest] + Chain(digest, Chunks(text[Min(start, |text|)..], size)))
             == digests + Chain(digest, Chunks(text[Min(start, |text|)..], size));
    }
  }

  /** How many leading digests are in the set. */
  function LeadingRun(digests: seq<Digest>, resident: set<Digest>): (run: nat)
    ensures run <= |digests|
  {
    if digests == [] || digests[0] !in resident then 0 else 1 + LeadingRun(digests[1..], resident)
  }

  function CommonPrefix<T(==)>(a: seq<T>, b: seq<T>): (k: nat)
    ensures k <= |a| && k <= |b| && a[..k] == b[..k]
    ensures k < |a| && k < |b| ==> a[k] != b[k]
  {
    if a == [] || b == [] || a[0] != b[0] then 0 else 1 + CommonPrefix(a[1..], b[1..])
  }

  function Depth(d: Digest): nat {
    match d
    case Start => 0
    case Block(previous, _) => 1 + Depth(previous)
  }

  /** Digest i of a chain has i + 1 blocks above the chain's start. */
  lemma {:induction false} ChainDepth(previous: Digest, chunks: seq<string>, i: nat)
    requires i < |chunks|
    ensures Depth(Chain(previous, chunks)[i]) == Depth(previous) + i + 1
    decreases |chunks|
  {
    if i > 0 {
      ChainDepth(Block(previous, chunks[0]), chunks[1..], i - 1);
    }
  }

  /** A digest resident in another chain with the same start sits at the same place there. */
  lemma ResidentInPlace(previous: Digest, a: seq<string>, b: seq<string>, i: nat)
    requires i < |a|
    ensures Chain(previous, a)[i] in Chain(previous, b) <==> i < |b| && Chain(previous, a)[i] == Chain(previous, b)[i]
  {
    var x, y := Chain(previous, a), Chain(previous, b);
    ChainDepth(previous, a, i);
    forall j | 0 <= j < |b| && y[j] == x[i] ensures j == i {
      ChainDepth(previous, b, j);
    }
  }

  /** The set of one prompt's digests is as good as the sequence: the leading run of another prompt in it
      is the longest common prefix of the two block lists. */
  lemma {:induction false} RunIsCommonPrefix(previous: Digest, a: seq<string>, b: seq<string>)
    ensures LeadingRun(Chain(previous, a), Sets.Elements(Chain(previous, b))) == CommonPrefix(a, b)
    decreases |a|
  {
    if a != [] {
      ResidentInPlace(previous, a, b, 0);
      if b != [] && a[0] == b[0] {
        RunIsCommonPrefix(Block(previous, a[0]), a[1..], b[1..]);
        TailRun(previous, a, b);
      }
    }
  }

  /** Behind an equal first block, only the rest of the other chain matters. */
  lemma TailRun(previous: Digest, a: seq<string>, b: seq<string>)
    requires a != [] && b != [] && a[0] == b[0]
    ensures var digest := Block(previous, a[0]);
            var rest := Chain(digest, a[1..]);
            && Chain(previous, a)[1..] == rest
            && LeadingRun(rest, Sets.Elements(Chain(previous, b))) == LeadingRun(rest, Sets.Elements(Chain(digest, b[1..])))
  {
    var digest := Block(previous, a[0]);
    var x, y := Chain(previous, a), Chain(previous, b);
    var rest := Chain(digest, a[1..]);
    forall i | 0 <= i < |rest| ensures rest[i] in y <==> rest[i] in Chain(digest, b[1..]) {
      assert rest[i] == x[i + 1];
      ResidentInPlace(previous, a, b, i + 1);
      ResidentInPlace(digest, a[1..], b[1..], i);
    }
    SameRun(rest, Sets.Elements(y), Sets.Elements(Chain(digest, b[1..])));
  }

  lemma {:induction false} SameRun(digests: seq<Digest>, r: set<Digest>, s: set<Digest>)
    requires forall i :: 0 <= i < |digests| ==> (digests[i] in r <==> digests[i] in s)
    ensures LeadingRun(digests, r) == LeadingRun(digests, s)
  {
    if digests != [] {
      SameRun(digests[1..], r, s);
    }
  }

  function Flat(chunks: seq<string>): string {
    if chunks == [] then [] else chunks[0] + Flat(chunks[1..])
  }

  lemma Times(k: int, size: int)
    ensures (k - 1) * size == k * size - size
    ensures k > 0 && size >= 0 ==> k * size >= size
  {
  }

  /** Block i, and whether there is one: the characters from n == i * size on, up to `size` of them. */
  lemma {:induction false} ChunksAre(text: string, size: nat, i: nat, n: nat)
    requires size > 0 && n == i * size
    ensures i < |Chunks(text, size)| <==> n < |text|
    ensures n < |text| ==> Chunks(text, size)[i] == text[n..Min(n + size, |text|)]
    decreases |text|
  {
    if i > 0 {
      Times(i, size);
      if |text| > size {
        ChunksAre(text[size..], size, i - 1, n - size);
        if n < |text| {
          assert text[size..][n - size..Min(n, |text| - size)] == text[n..Min(n + size, |text|)];
        }
      }
    }
  }

  /** The first k blocks cover the first n == k * size characters. */
  lemma {:induction false} FirstChunks(text: string, size: nat, k: nat, n: int)
    requires size > 0 && k <= |Chunks(text, size)| && n == k * size
    ensures n >= 0 && Flat(Chunks(text, size)[..k]) == text[..Min(n, |text|)]
    decreases |text|
  {
    var chunks := Chunks(text, size);
    if k > 0 {
      Times(k, size);
      assert chunks[..k][1..] == chunks[1..][..k - 1];
      if |text| > size {
        FirstChunks(text[size..], size, k - 1, n - size);
        assert text[..Min(n, |text|)] == text[..size] + text[size..][..Min(n - size, |text| - size)];
      }
    }
  }

  lemma SameChunksSameText(a: string, b: string, size: nat, k: nat, n: int)
    requires size > 0 && k <= |Chunks(a, size)| && k <= |Chunks(b, size)| && n == k * size
    requires Chunks(a, size)[..k] == Chunks(b, size)[..k]
    ensures var m := Min(n, |a|); 0 <= m <= |b| && a[..m] == b[..m]
  {
    FirstChunks(a, size, k, n);
    FirstChunks(b, size, k, n);
    assert |a[..Min(n, |a|)]| == |b[..Min(n, |b|)]|;
  }

  /** The overlap of a prompt with a resident one: both directions. It is the number of leading blocks they
      share, so the texts agree on that many blocks, and unless a text ends there the next blocks differ. */
  lemma OverlapMeansSamePrefix(a: string, b: string, size: nat)
    requires size > 0
    ensures var k := LeadingRun(Digests(a, size), Sets.Elements(Digests(b, size)));
            && (var m := Min(k * size, |a|); 0 <= m <= |b| && a[..m] == b[..m])
            && (k < |Chunks(a, size)| && k < |Chunks(b, size)| ==> Chunks(a, size)[k] != Chunks(b, size)[k])
  {
    RunIsCommonPrefix(Start, Chunks(a, size), Chunks(b, size));
    var k := CommonPrefix(Chunks(a, size), Chunks(b, size));
    SameChunksSameText(a, b, size, k, k * size);
  }

  // ---- The ring of one instance ----

  datatype Entry = Entry(time: real, digests: set<Digest>)

  function Last<T>(s: seq<T>, n: nat): seq<T> {
    if |s| <= n then s else s[|s| - n..]
  }

  /** A deque of bounded length: appending drops the oldest entry when it is full. */
  function Append(ring: seq<Entry>, entry: Entry, limit: nat): seq<Entry> {
    Last(ring + [entry], limit)
  }

  /** _expire: entries older than the cutoff leave from the front. */
  function Drop(ring: seq<Entry>, cutoff: real): seq<Entry> {
    if ring != [] && ring[0].time < cutoff then Drop(ring[1..], cutoff) else ring
  }

  /** The longest leading run in any entry. */
  function LongestRun(entries: seq<Entry>, digests: seq<Digest>): (run: nat)
    ensures run <= |digests|
  {
    if entries == [] then 0
    else Max(LeadingRun(digests, entries[0].digests), LongestRun(entries[1..], digests))
  }

  /** The longest leading run in any entry that is not older than the cutoff. */
  function UnexpiredRun(entries: seq<Entry>, digests: seq<Digest>, cutoff: real): nat {
    if entries == [] then 0
    else
      var rest := UnexpiredRun(entries[1..], digests, cutoff);
      if entries[0].time >= cutoff then Max(LeadingRun(digests, entries[0].digests), rest) else rest
  }

  /** That is a maximum over exactly the unexpired entries, 0 when there are none. */
  lemma {:induction false} UnexpiredRunIsMaximum(entries: seq<Entry>, digests: seq<Digest>, cutoff: real)
    ensures forall e :: e in entries && e.time >= cutoff ==>
              LeadingRun(digests, e.digests) <= UnexpiredRun(entries, digests, cutoff)
    ensures UnexpiredRun(entries, digests, cutoff) > 0 ==>
              exists e :: e in entries && e.time >= cutoff
                          && LeadingRun(digests, e.digests) == UnexpiredRun(entries, digests, cutoff)
  {
    if entries != [] {
      UnexpiredRunIsMaximum(entries[1..], digests, cutoff);
      assert entries == [entries[0]] + entries[1..];
    }
  }

  /** What happens to an instance's ring: a prompt is recorded, or an overlap is asked for. */
  datatype Event = Recorded(entry: Entry) | Asked(time: real) {
    function Time(): real { if Recorded? then entry.time else time }
  }

  function RingAfter(events: seq<Event>, limit: nat, ttl: real): seq<Entry> {
    if events == [] then []
    else
      var ring := RingAfter(events[..|events| - 1], limit, ttl);
      match events[|events| - 1]
      case Recorded(entry) => Append(ring, entry, limit)
      case Asked(time) => Drop(ring, time - ttl)
  }

  function History(events: seq<Event>): seq<Entry> {
    if events == [] then []
    else
      var before, last := History(events[..|events| - 1]), events[|events| - 1];
      if last.Recorded? then before + [last.entry] else before
  }

  /** The clock does not go back along the events, up to `now`. */
  predicate Clocked(events: seq<Event>, now: real) {
    events == []
    || var time := events[|events| - 1].Time();
       time <= now && Clocked(events[..|events| - 1], time)
  }

  predicate Ordered(entries: seq<Entry>, now: real) {
    entries == []
    || (entries[0].time <= (if |entries| == 1 then now else entries[1].time) && Ordered(entries[1..], now))
  }

  predicate AllExpired(entries: seq<Entry>, cutoff: real) {
    entries == [] || (entries[0].time < cutoff && AllExpired(entries[1..], cutoff))
  }

  /** The history is `lost` followed by the ring; of its last `limit` entries, the lost ones have expired. */
  ghost predicate Tracks(lost: seq<Entry>, ring: seq<Entry>, limit: nat, cutoff: real, now: real) {
    |ring| <= limit && Ordered(ring, now) && AllExpired(Last(lost, limit - |ring|), cutoff)
  }

  lemma {:induction false} OrderedLater(entries: seq<Entry>, now: real, later: real)
    requires Ordered(entries, now) && now <= later
    ensures Ordered(entries, later)
  {
    if entries != [] {
      OrderedLater(entries[1..], now, later);
    }
  }

  lemma {:induction false} OrderedAppend(entries: seq<Entry>, entry: Entry)
    requires Ordered(entries, entry.time)
    ensures Ordered(entries + [entry], entry.time)
  {
    if entries != [] {
      OrderedAppend(entries[1..], entry);
      assert (entries + [entry])[1..] == entries[1..] + [entry];
    }
  }

  lemma {:induction false} ExpiredLater(entries: seq<Entry>, cutoff: real, later: real)
    requires AllExpired(entries, cutoff) && cutoff <= later
    ensures AllExpired(entries, later)
  {
    if entries != [] {
      ExpiredLater(entries[1..], cutoff, later);
    }
  }

  lemma {:induction false} ExpiredAppend(entries: seq<Entry>, entry: Entry, cutoff: real)
    requires AllExpired(entries, cutoff) && entry.time < cutoff
    ensures AllExpired(entries + [entry], cutoff)
  {
    if entries != [] {
      ExpiredAppend(entries[1..], entry, cutoff);
      assert (entries + [entry])[1..] == entries[1..] + [entry];
    }
  }

  /** One more entry in the ring: it needs one expired entry less, or pushes its oldest out. */
  lemma TracksAppend(lost: seq<Entry>, ring: seq<Entry>, limit: nat, cutoff: real, entry: Entry) returns (lost': seq<Entry>)
    requires Tracks(lost, ring, limit, cutoff, entry.time)
    ensures lost' + Append(ring, entry, limit) == lost + ring + [entry]
    ensures Tracks(lost', Append(ring, entry, limit), limit, cutoff, entry.time)
  {
    OrderedAppend(ring, entry);
    if |ring| < limit {
      lost' := lost;
      var room := limit - |ring|;
      assert Last(lost, room - 1) == if |lost| < room then Last(lost, room) else Last(lost, room)[1..];
    } else {
      lost' := lost + (ring + [entry])[..1];
    }
  }

  lemma TracksDropOne(lost: seq<Entry>, ring: seq<Entry>, limit: nat, cutoff: real, now: real)
    requires Tracks(lost, ring, limit, cutoff, now) && ring != [] && ring[0].time < cutoff
    ensures Tracks(lost + [ring[0]], ring[1..], limit, cutoff, now)
  {
    var room := limit - |ring|;
    assert Last(lost + [ring[0]], room + 1) == Last(lost, room) + [ring[0]];
    ExpiredAppend(Last(lost, room), ring[0], cutoff);
  }

  /** Expiry moves entries from the ring to the lost part, and every one of them has expired. */
  lemma {:induction false} TracksDrop(lost: seq<Entry>, ring: seq<Entry>, limit: nat, cutoff: real, now: real)
    returns (lost': seq<Entry>)
    requires Tracks(lost, ring, limit, cutoff, now)
    ensures lost' + Drop(ring, cutoff) == lost + ring
    ensures Tracks(lost', Drop(ring, cutoff), limit, cutoff, now)
    decreases |ring|
  {
    lost' := lost;
    if ring != [] && ring[0].time < cutoff {
      TracksDropOne(lost, ring, limit, cutoff, now);
      lost' := TracksDrop(lost + [ring[0]], ring[1..], limit, cutoff, now);
      assert (lost + [ring[0]]) + ring[1..] == lost + ring;
    }
  }

  /** After any sequence of records and overlaps, the ring is a suffix of the history, at most `limit` long,
      and contains every unexpired entry among the last `limit`. */
  lemma {:induction false} RingIsSuffix(events: seq<Event>, limit: nat, ttl: real, now: real) returns (lost: seq<Entry>)
    requires Clocked(events, now)
    ensures History(events) == lost + RingAfter(events, limit, ttl)
    ensures Tracks(lost, RingAfter(events, limit, ttl), limit, now - ttl, now)
    decreases |events|
  {
    if events == [] {
      lost := [];
    } else {
      var before, last := events[..|events| - 1], events[|events| - 1];
      var ring, time := RingAfter(before, limit, ttl), last.Time();
      lost := RingIsSuffix(before, limit, ttl, time);
      match last {
        case Recorded(entry) => lost := TracksAppend(lost, ring, limit, time - ttl, entry);
        case Asked(_) => lost := TracksDrop(lost, ring, limit, time - ttl, time);
      }
      TracksLater(lost, RingAfter(events, limit, ttl), limit, ttl, time, now);
    }
  }

  lemma TracksLater(lost: seq<Entry>, ring: seq<Entry>, limit: nat, ttl: real, time: real, now: real)
    requires Tracks(lost, ring, limit, time - ttl, time) && time <= now
    ensures Tracks(lost, ring, limit, now - ttl, now)
  {
    OrderedLater(ring, time, now);
    ExpiredLater(Last(lost, limit - |ring|), time - ttl, now - ttl);
  }

  lemma {:induction false} ExpiredFront(gone: seq<Entry>, kept: seq<Entry>, digests: seq<Digest>, cutoff: real)
    requires AllExpired(gone, cutoff)
    ensures UnexpiredRun(gone + kept, digests, cutoff) == UnexpiredRun(kept, digests, cutoff)
  {
    if gone == [] {
      assert gone + kept == kept;
    } else {
      ExpiredFront(gone[1..], kept, digests, cutoff);
      assert (gone + kept)[1..] == gone[1..] + kept;
    }
  }

  lemma {:induction false} OrderedRun(entries: seq<Entry>, now: real, digests: seq<Digest>, cutoff: real)
    requires Ordered(entries, now) && (entries != [] ==> entries[0].time >= cutoff)
    ensures UnexpiredRun(entries, digests, cutoff) == LongestRun(entries, digests)
  {
    if |entries| > 1 {
      OrderedRun(entries[1..], now, digests, cutoff);
    }
  }

  lemma {:induction false} DroppedRun(ring: seq<Entry>, now: real, digests: seq<Digest>, cutoff: real)
    requires Ordered(ring, now)
    ensures LongestRun(Drop(ring, cutoff), digests) == UnexpiredRun(ring, digests, cutoff)
  {
    if ring != [] && ring[0].time < cutoff {
      DroppedRun(ring[1..], now, digests, cutoff);
    } else {
      OrderedRun(ring, now, digests, cutoff);
    }
  }

  /** The bounded ring refines the full history: an overlap asked at `now` is the longest leading run over
      exactly the unexpired entries among the last `limit` ever recorded. */
  lemma RingAnswersHistory(events: seq<Event>, limit: nat, ttl: real, now: real, digests: seq<Digest>)
    requires Clocked(events, now)
    ensures LongestRun(Drop(RingAfter(events, limit, ttl), now - ttl), digests)
            == UnexpiredRun(Last(History(events), limit), digests, now - ttl)
  {
    var ring, cutoff := RingAfter(events, limit, ttl), now - ttl;
    var lost := RingIsSuffix(events, limit, ttl, now);
    var gone := Last(lost, limit - |ring|);
    assert Last(lost + ring, limit) == gone + ring;
    ExpiredFront(gone, ring, digests, cutoff);
    DroppedRun(ring, now, digests, cutoff);
  }

  // ---- The index ----

  class PrefixCacheIndex {
    const ttl: real
    const limit: nat
    var seen: map<Id, seq<Entry>>

    constructor (ttl: real, limit: nat)
      ensures seen == map[] && this.ttl == ttl && this.limit == limit
    {
      this.ttl, this.limit, seen := ttl, limit, map[];
    }

    /** An instance never recorded, or forgotten, has an empty ring. */
    function Ring(id: Id): seq<Entry>
      reads this
    {
      if id in seen then seen[id] else []
    }

    function Answer(ring: seq<Entry>, digests: seq<Digest>, now: real): nat {
      LongestRun(Drop(ring, now - ttl), digests)
    }

    method Record(id: Id, digests: seq<Digest>, now: real)
      modifies this
      ensures seen == if digests == [] then old(seen)
                      else old(seen)[id := Append(old(Ring(id)), Entry(now, Sets.Elements(digests)), limit)]
    {
      if digests == [] {
        return;
      }
      var ring := Ring(id) + [Entry(now, Sets.Elements(digests))];
      seen := seen[id := if |ring| > limit then ring[|ring| - limit..] else ring];
    }

    method Expire(id: Id, now: real)
      requires id in seen
      modifies this
      ensures seen == old(seen)[id := Drop(old(seen)[id], now - ttl)]
    {
      var cutoff := now - ttl;
      while seen[id] != [] && seen[id][0].time < cutoff
        invariant id in seen && seen == old(seen)[id := seen[id]]
        invariant Drop(seen[id], cutoff) == Drop(old(seen)[id], cutoff)
        decreases |seen[id]|
      {
        seen := seen[id := seen[id][1..]];
      }
    }

    /** No entry of any other instance changes; expired entries of this one may leave. */
    method Overlap(id: Id, digests: seq<Digest>, now: real) returns (best: nat)
      modifies this
      ensures best == Answer(old(Ring(id)), digests, now)
      ensures seen == if digests == [] || old(Ring(id)) == [] then old(seen)
                      else old(seen)[id := Drop(old(Ring(id)), now - ttl)]
    {
      if digests == [] || id !in seen || seen[id] == [] {
        return 0;
      }
      Expire(id, now);
      best := Scan(seen[id], digests);
    }

    method Forget(id: Id)
      modifies this
      ensures seen == old(seen) - {id}
    {
      seen := seen - {id};
    }

    /** The candidate with the largest overlap, first on ties; each overlap reads the clock anew. */
    method BestInstance(digests: seq<Digest>, candidates: seq<Id>, readings: seq<real>)
      returns (best: Option<(Id, nat)>, overlaps: seq<nat>)
      requires |readings| == |candidates|
      modifies this
      ensures digests == [] || candidates == [] ==> best.None?
      ensures digests != [] ==> |overlaps| == |candidates|
      ensures Distinct(candidates) ==> forall j :: 0 <= j < |overlaps| && j < |candidates| ==>
                overlaps[j] == Answer(old(Ring(candidates[j])), digests, readings[j])
      ensures match best
              case None => forall j :: 0 <= j < |overlaps| ==> overlaps[j] == 0
              case Some((c, k)) =>
                exists i: nat :: i < |overlaps| && i < |candidates| && candidates[i] == c && FirstLargest(overlaps, i, k)
    {
      best, overlaps := None, [];
      if digests == [] || candidates == [] {
        return;
      }
      ghost var at := 0;
      ghost var rings := seq(|candidates|, j requires 0 <= j < |candidates| reads this => Ring(candidates[j]));
      for n := 0 to |candidates|
        invariant |overlaps| == n
        invariant Distinct(candidates) ==> forall j :: n <= j < |candidates| ==> Ring(candidates[j]) == rings[j]
        invariant Distinct(candidates) ==> forall j :: 0 <= j < n ==> overlaps[j] == Answer(rings[j], digests, readings[j])
        invariant best.None? ==> forall j :: 0 <= j < n ==> overlaps[j] == 0
        invariant best.Some? ==> at < n && candidates[at] == best.value.0 && FirstLargest(overlaps, at, best.value.1)
      {
        var shared := Overlap(candidates[n], digests, readings[n]);
        overlaps := overlaps + [shared];
        if shared > 0 && (best.None? || shared > best.value.1) {
          best := Some((candidates[n], shared));
          at := n;
        }
      }
    }
  }

  ghost predicate Distinct(ids: seq<Id>) {
    forall i, j :: 0 <= i < j < |ids| ==> ids[i] != ids[j]
  }

  ghost predicate FirstLargest(overlaps: seq<nat>, i: nat, k: nat) {
    && i < |overlaps| && overlaps[i] == k && k > 0
    && (forall j :: 0 <= j < |overlaps| ==> overlaps[j] <= k)
    && (forall j :: 0 <= j < i ==> overlaps[j] < k)
  }

  /** The scan over a ring; it stops early at a full match. */
  method Scan(ring: seq<Entry>, digests: seq<Digest>) returns (best: nat)
    ensures best == LongestRun(ring, digests)
  {
    best := 0;
    for n := 0 to |ring|
      invariant best <= |digests| && LongestRun(ring, digests) == Max(best, LongestRun(ring[n..], digests))
    {
      var shared := 0;
      while shared < |digests| && digests[shared] in ring[n].digests
        invariant shared <= |digests|
        invariant LeadingRun(digests, ring[n].digests) == shared + LeadingRun(digests[shared..], ring[n].digests)
      {
        shared := shared + 1;
      }
      if shared > best {
        best := shared;
        if best == |digests| {
          return;
        }
      }
    }
  }
}

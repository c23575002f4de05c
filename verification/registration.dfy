/** Which row a registering worker gets (services/workers_svc.py, register_worker): the machine it runs on
    first, then the name it was configured with, never a value that another row owns. */
module Registration {
  import opened Common
  import opened Models

  datatype Request = Request(cluster: Id, workerName: string, hostname: string, address: Option<string>) {
    function Name(): string {
      if workerName != "" then workerName else hostname
    }
  }

  /** uq_workers: primary key, (cluster, name) and (cluster, hostname). */
  predicate SameKeys(a: Worker, b: Worker) {
    a.id == b.id || (a.cluster == b.cluster && (a.name == b.name || a.hostname == b.hostname))
  }

  predicate Unique(rows: seq<Worker>) {
    forall i, j :: 0 <= i < j < |rows| ==> !SameKeys(rows[i], rows[j])
  }

  datatype MatchedBy = Both | Hostname | Name

  predicate Matches(how: MatchedBy, w: Worker, q: Request) {
    && w.cluster == q.cluster
    && (how == Name || w.hostname == q.hostname)
    && (how == Hostname || w.name == q.Name())
  }

  predicate Taken(rows: seq<Worker>, cluster: Id, name: string, except: Id) {
    exists w :: w in rows && w.cluster == cluster && w.name == name && w.id != except
  }

  /** The row as its registration leaves it. */
  function Refreshed(rows: seq<Worker>, w: Worker, q: Request): Worker {
    w.(connected := true, address := q.address, hostname := q.hostname,
       name := if q.workerName != "" && !Taken(rows, q.cluster, q.workerName, w.id) then q.workerName else w.name)
  }

  function Created(id: Id, q: Request): Worker {
    Worker(id, q.cluster, q.Name(), q.hostname, q.address, true, [])
  }

  /** The row a request is about: the machine's own, or else the one with its name. */
  ghost predicate Resolves(rows: seq<Worker>, q: Request, i: nat) {
    && i < |rows|
    && if exists j :: 0 <= j < |rows| && Matches(Hostname, rows[j], q) then Matches(Hostname, rows[i], q)
       else Matches(Name, rows[i], q)
  }

  /** The whole effect of a registration that is answered with `id`. */
  ghost predicate Registered(before: seq<Worker>, q: Request, id: Id, after: seq<Worker>) {
    || (exists i: nat :: Resolves(before, q, i) && id == before[i].id
                         && after == before[i := Refreshed(before, before[i], q)])
    || (&& (forall j :: 0 <= j < |before| ==> !Matches(Hostname, before[j], q) && !Matches(Name, before[j], q))
        && (forall w :: w in before ==> w.id != id)
        && after == before + [Created(id, q)])
  }

  // ---- The same in columns ----

  predicate OfMachine(w: Worker, q: Request) {
    w.cluster == q.cluster && w.hostname == q.hostname
  }

  predicate Named(w: Worker, q: Request) {
    w.cluster == q.cluster && w.name == if q.workerName == "" then q.hostname else q.workerName
  }

  /** Connected at the reported address, on the requested host, and renamed if the configured name is free. */
  ghost predicate TakesRequest(rows: seq<Worker>, w: Worker, q: Request, after: Worker) {
    var free := q.workerName != "" && forall x :: x in rows && x.cluster == q.cluster && x.name == q.workerName ==> x.id == w.id;
    after == w.(connected := true, address := q.address, hostname := q.hostname, name := if free then q.workerName else w.name)
  }

  /** The machine's row takes the request, or else the one with its name; without either a row is added. */
  ghost predicate RegisteredAs(before: seq<Worker>, q: Request, id: Id, after: seq<Worker>) {
    if exists w :: w in before && (OfMachine(w, q) || Named(w, q)) then
      exists i: nat ::
        && i < |before| == |after| && id == before[i].id
        && (OfMachine(before[i], q) || (Named(before[i], q) && forall w :: w in before ==> !OfMachine(w, q)))
        && TakesRequest(before, before[i], q, after[i])
        && forall j :: 0 <= j < |before| && j != i ==> after[j] == before[j]
    else
      && (forall w :: w in before ==> w.id != id)
      && after == before + [Worker(id, q.cluster, if q.workerName == "" then q.hostname else q.workerName, q.hostname,
                                   q.address, true, [])]
  }

  /** No two rows share an id, or a name or a hostname within a cluster. */
  ghost predicate KeysUnique(rows: seq<Worker>) {
    forall i, j :: 0 <= i < j < |rows| ==>
      && rows[i].id != rows[j].id
      && (rows[i].cluster == rows[j].cluster ==> rows[i].name != rows[j].name && rows[i].hostname != rows[j].hostname)
  }

  lemma UniqueIs(rows: seq<Worker>)
    ensures Unique(rows) <==> KeysUnique(rows)
  {
    if KeysUnique(rows) {
      forall i, j | 0 <= i < j < |rows| ensures !SameKeys(rows[i], rows[j]) {}
    }
    if Unique(rows) {
      forall i, j | 0 <= i < j < |rows| ensures !SameKeys(rows[i], rows[j]) {}
    }
  }

  lemma RegisteredIs(before: seq<Worker>, q: Request, id: Id, after: seq<Worker>)
    requires Registered(before, q, id, after)
    ensures RegisteredAs(before, q, id, after)
  {
    forall j | 0 <= j < |before|
      ensures before[j] in before
      ensures Matches(Hostname, before[j], q) <==> OfMachine(before[j], q)
      ensures Matches(Name, before[j], q) <==> Named(before[j], q) {}
    if i: nat :| Resolves(before, q, i) && id == before[i].id && after == before[i := Refreshed(before, before[i], q)] {
      forall w | w in before && OfMachine(w, q) ensures exists j :: 0 <= j < |before| && Matches(Hostname, before[j], q) {
        var j :| 0 <= j < |before| && before[j] == w;
      }
      assert TakesRequest(before, before[i], q, after[i]);
    } else {
      forall w | w in before ensures !OfMachine(w, q) && !Named(w, q) {
        var j :| 0 <= j < |before| && before[j] == w;
      }
    }
  }

  datatype RegisterError = AlreadyExists

  class Workers {
    var rows: seq<Worker>

    constructor ()
      ensures rows == []
    {
      rows := [];
    }

    method Find(how: MatchedBy, q: Request) returns (found: Option<nat>)
      ensures match found
              case Some(i) => i < |rows| && Matches(how, rows[i], q)
              case None => forall j :: 0 <= j < |rows| ==> !Matches(how, rows[j], q)
    {
      for i := 0 to |rows|
        invariant forall j :: 0 <= j < i ==> !Matches(how, rows[j], q)
      {
        if Matches(how, rows[i], q) {
          return Some(i);
        }
      }
      return None;
    }

    /** register_worker for a known cluster. Uniqueness is what the indexes enforce; the registration keeps
        it by itself, so the commit never fails and AlreadyExists is only for concurrent registrations. */
    method Register(q: Request, newId: Id) returns (r: Result<Id, RegisterError>)
      requires Unique(rows) && forall w :: w in rows ==> w.id != newId
      modifies this
      ensures r.Ok? && Unique(rows)
      ensures RegisteredAs(old(rows), q, r.value, rows) && KeysUnique(rows)
      ensures Registered(old(rows), q, r.value, rows)
    {
      var before := rows;
      var how := Both;
      var found := Find(Both, q);
      if found.None? {
        found := Find(Hostname, q);
        how := Hostname;
      }
      if found.None? {
        found := Find(Name, q);
        how := Name;
      }
      var id := newId;
      if found.None? {
        rows := rows + [Created(newId, q)];
        CreatedUnique(before, q, newId);
      } else {
        var i := found.value;
        id := rows[i].id;
        var w := rows[i].(connected := true, address := q.address);
        if how == Name && forall v :: v in rows && v.cluster == q.cluster && v.hostname == q.hostname ==> v.id == id {
          w := w.(hostname := q.hostname);
        }
        if q.workerName != "" && q.workerName != w.name && !Taken(rows, q.cluster, q.workerName, id) {
          w := w.(name := q.workerName);
        }
        rows := rows[i := w];
        assert Resolves(before, q, i) by {
          NoneBoth(before, q, i, how);
        }
        NameRefreshed(before, q, i);
        RefreshedUnique(before, q, i);
        assert w.hostname == q.hostname;
        assert w == Refreshed(before, before[i], q);
      }
      RegisteredIs(before, q, id, rows);
      UniqueIs(rows);
      var ok := Commit(before);
      r := if ok then Ok(id) else Err(AlreadyExists);
    }

    /** The commit checks the unique indexes; when it fails the transaction is rolled back. */
    method Commit(before: seq<Worker>) returns (ok: bool)
      modifies this
      ensures ok <==> Unique(old(rows))
      ensures rows == if ok then old(rows) else before
    {
      ok := Unique(rows);
      if !ok {
        rows := before;
      }
    }
  }

  /** The three lookups in turn find the row the request resolves to. */
  lemma NoneBoth(rows: seq<Worker>, q: Request, i: nat, how: MatchedBy)
    requires i < |rows| && Matches(how, rows[i], q)
    requires how == Name ==> forall j :: 0 <= j < |rows| ==> !Matches(Hostname, rows[j], q)
    ensures Resolves(rows, q, i)
  {
  }

  /** A row that has the requested name already keeps it, taken or not. */
  lemma NameRefreshed(rows: seq<Worker>, q: Request, i: nat)
    requires Unique(rows) && i < |rows|
    ensures q.workerName == rows[i].name ==> Refreshed(rows, rows[i], q).name == rows[i].name
  {
  }

  lemma CreatedUnique(rows: seq<Worker>, q: Request, id: Id)
    requires Unique(rows) && forall w :: w in rows ==> w.id != id
    requires forall j :: 0 <= j < |rows| ==> !Matches(Hostname, rows[j], q) && !Matches(Name, rows[j], q)
    ensures Unique(rows + [Created(id, q)])
  {
  }

  lemma RefreshedUnique(rows: seq<Worker>, q: Request, i: nat)
    requires Unique(rows) && Resolves(rows, q, i)
    ensures Unique(rows[i := Refreshed(rows, rows[i], q)])
  {
    var w := Refreshed(rows, rows[i], q);
    forall j | 0 <= j < |rows| && j != i ensures !SameKeys(rows[j], w) {
      assert !SameKeys(rows[Min(i, j)], rows[Max(i, j)]);
      assert rows[j] in rows;
    }
  }

  /** What changes the keys of a worker: its registration, or the hostname a Sync reports. */
  datatype Step = Registers(q: Request, id: Id) | Syncs(i: nat, reported: string)

  /** A Sync keeps the old hostname when it reports none. */
  function Reported(w: Worker, reported: string): Worker {
    w.(hostname := if reported != "" then reported else w.hostname)
  }

  /** No other worker of the cluster has the hostname that worker i would get. */
  predicate HostnameFree(rows: seq<Worker>, i: nat, reported: string)
    requires i < |rows|
  {
    forall j :: 0 <= j < |rows| && j != i && rows[j].cluster == rows[i].cluster ==>
      rows[j].hostname != if reported != "" then reported else rows[i].hostname
  }

  /** A registration never looks at the index. A Sync writes without looking: its commit fails on the index,
      and changes nothing, exactly when the hostname is not free. */
  ghost predicate Next(before: seq<Worker>, step: Step, after: seq<Worker>) {
    match step
    case Registers(q, id) => Registered(before, q, id, after)
    case Syncs(i, reported) =>
      && i < |before|
      && var written := before[i := Reported(before[i], reported)];
         after == if Unique(written) then written else before
  }

  /** However hostnames and names collide or change over a run of registrations and Syncs, both keys stay
      unique; each registration is answered with a row of the requested cluster that carries the requested
      hostname; and a Sync is refused exactly when the hostname is taken. */
  lemma {:induction false} RunKeepsKeys(tables: seq<seq<Worker>>, steps: seq<Step>, k: nat)
    requires |tables| == |steps| + 1 && tables[0] == [] && k < |tables|
    requires forall n :: 0 <= n < |steps| ==> Next(tables[n], steps[n], tables[n + 1])
    ensures Unique(tables[k]) && KeysUnique(tables[k])
    ensures k > 0 && steps[k - 1].Registers? ==> Carries(tables[k], steps[k - 1].q, steps[k - 1].id)
    ensures k > 0 && steps[k - 1].Syncs? ==>
              var before, i := tables[k - 1], steps[k - 1].i;
              i < |before| && tables[k] == if HostnameFree(before, i, steps[k - 1].reported)
                                           then before[i := Reported(before[i], steps[k - 1].reported)] else before
  {
    UniqueIs(tables[k]);
    if k > 0 {
      RunKeepsKeys(tables, steps, k - 1);
      match steps[k - 1]
      case Registers(q, id) => RegisteredKeeps(tables[k - 1], q, id, tables[k]);
      case Syncs(i, reported) => SyncHostnameIff(tables[k - 1], i, reported);
    }
  }

  ghost predicate Carries(rows: seq<Worker>, q: Request, id: Id) {
    exists w :: w in rows && w.id == id && w.cluster == q.cluster && w.hostname == q.hostname
  }

  lemma RegisteredKeeps(before: seq<Worker>, q: Request, id: Id, after: seq<Worker>)
    requires Unique(before) && Registered(before, q, id, after)
    ensures Unique(after) && Carries(after, q, id)
  {
    if i: nat :| Resolves(before, q, i) && id == before[i].id && after == before[i := Refreshed(before, before[i], q)] {
      RefreshedUnique(before, q, i);
      assert after[i] in after;
    } else {
      CreatedUnique(before, q, id);
      assert after[|before|] in after;
    }
  }

  lemma OneRow(rows: seq<Worker>, i: nat, j: nat)
    requires Unique(rows) && i < |rows| && j < |rows| && SameKeys(rows[i], rows[j])
    ensures i == j
  {
    assert SameKeys(rows[Min(i, j)], rows[Max(i, j)]);
  }

  /** Registering again with the same request finds the same row and leaves its keys alone. */
  lemma RegisterAgain(before: seq<Worker>, q: Request, id: Id, after: seq<Worker>, again: seq<Worker>, id': Id)
    requires Unique(before) && Registered(before, q, id, after) && Registered(after, q, id', again)
    ensures id' == id && again == after
  {
    RegisteredKeeps(before, q, id, after);
    var w :| w in after && w.id == id && w.cluster == q.cluster && w.hostname == q.hostname;
    var n :| 0 <= n < |after| && after[n] == w;
    assert Matches(Hostname, after[n], q);
    var i: nat :| Resolves(after, q, i) && id' == after[i].id && again == after[i := Refreshed(after, after[i], q)];
    OneRow(after, i, n);
    NameSettles(before, q, id, after, n);
    assert again == after;
  }

  /** The name a registration leaves is the one a repetition would. */
  lemma NameSettles(before: seq<Worker>, q: Request, id: Id, after: seq<Worker>, n: nat)
    requires Unique(before) && Registered(before, q, id, after) && Unique(after)
    requires n < |after| && after[n].id == id
    ensures Refreshed(after, after[n], q) == after[n]
  {
    if i: nat :| Resolves(before, q, i) && id == before[i].id && after == before[i := Refreshed(before, before[i], q)] {
      OneRow(after, i, n);
      assert Taken(after, q.cluster, q.workerName, id) <==> Taken(before, q.cluster, q.workerName, id) by {
        forall w | w in after && w.id != id ensures w in before {
          var j :| 0 <= j < |after| && after[j] == w;
          assert before[j] == w;
        }
        forall w | w in before && w.id != id ensures w in after {
          var j :| 0 <= j < |before| && before[j] == w;
          assert after[j] == w;
        }
      }
    } else {
      assert forall j :: 0 <= j < |before| ==> before[j] in before;
      assert q.workerName != "" ==> after[n].name == q.workerName;
    }
  }

  /** A Sync writes the reported hostname without looking: it keeps the keys unique exactly when no other
      worker of the cluster has that hostname. */
  lemma SyncHostnameIff(rows: seq<Worker>, i: nat, reported: string)
    requires Unique(rows) && i < |rows|
    ensures Unique(rows[i := Reported(rows[i], reported)]) <==> HostnameFree(rows, i, reported)
  {
    var after := rows[i := Reported(rows[i], reported)];
    if Unique(after) {
      forall j | 0 <= j < |rows| && j != i && rows[j].cluster == rows[i].cluster
        ensures rows[j].hostname != after[i].hostname {
        assert !SameKeys(after[Min(i, j)], after[Max(i, j)]);
      }
    } else {
      var j, k :| 0 <= j < k < |after| && SameKeys(after[j], after[k]);
      assert !SameKeys(rows[j], rows[k]);
    }
  }
}

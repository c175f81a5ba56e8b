/** The release operations as the platform service runs them against the store. */
module ReleaseService {
  import opened Prelude
  import opened Releases
  import opened ReleaseRuns

  /** What another replica completes while this one is between its listing and its commit. */
  datatype Other =
    | OtherDeploy(app: string, id: string, snapshot: Snapshot, status: Status)
    | OtherReconcile(app: string, machine: Machine)

  ghost predicate DeploysTo(batch: seq<Other>, app: string) {
    exists k :: 0 <= k < |batch| && batch[k].OtherDeploy? && batch[k].app == app
  }

  ghost predicate OthersOk(batch: seq<Other>) {
    forall k :: 0 <= k < |batch| && batch[k].OtherDeploy? ==> batch[k].status in {Superseded, RolledBack}
  }

  ghost predicate NoNewRow(rows: Rows, rows': Rows, app: string) {
    forall id :: id in rows' && rows'[id].appID == app ==> id in rows
  }

  predicate NewestFirst(list: seq<Release>) {
    forall j, k :: 0 <= j < k < |list| ==> list[j].revision >= list[k].revision
  }

  function InsertRow(list: seq<Release>, r: Release): (out: seq<Release>)
    ensures forall x :: x in out <==> x == r || x in list
    ensures |out| == |list| + 1
  {
    if list == [] || r.revision > list[0].revision then [r] + list else [list[0]] + InsertRow(list[1..], r)
  }

  ghost predicate DistinctIds(list: seq<Release>) {
    forall j, k :: 0 <= j < k < |list| ==> list[j].id != list[k].id
  }

  lemma {:induction false} InsertRowSorted(list: seq<Release>, r: Release)
    requires NewestFirst(list) && DistinctIds(list) && forall x :: x in list ==> x.id != r.id
    ensures NewestFirst(InsertRow(list, r)) && DistinctIds(InsertRow(list, r))
  {
    if list == [] || r.revision > list[0].revision {
    } else {
      InsertRowSorted(list[1..], r);
      var rest := InsertRow(list[1..], r);
      forall k | 0 <= k < |rest| ensures list[0].revision >= rest[k].revision && list[0].id != rest[k].id {
        assert rest[k] in rest;
      }
    }
  }

  lemma OneMoreRow(rows: Rows, list: seq<Release>, k: nat, status: Status)
    requires k < |list|
    ensures NextRevision(list[..k + 1])
            == if list[k].revision >= NextRevision(list[..k]) then list[k].revision + 1 else NextRevision(list[..k])
    ensures Supersede(rows, list[..k + 1], status)
            == if Current(list[k]) then Supersede(rows, list[..k], status)[list[k].id := list[k].(status := status)]
               else Supersede(rows, list[..k], status)
  {
    assert list[..k + 1][..k] == list[..k];
  }

  /** What recording a release comes to when nobody interferes: one new active row with the next free revision, the
      active release of the app superseded, and every other row as it was. */
  ghost predicate Recorded(rows: Rows, rows': Rows, app: string, rel: Release, status: Status) {
    && rel.id !in rows && rel.appID == app && rel.status == Active
    && (forall k :: HasRevision(rows, app, k) <==> 1 <= k < rel.revision)
    && rows'.Keys == rows.Keys + {rel.id} && rows'[rel.id] == rel
    && forall id :: id in rows ==>
         rows'[id] == if rows[id].appID == app && rows[id].status == Active
                      then rows[id].(status := status) else rows[id]
  }

  lemma AloneRecords(rows: Rows, app: string, list: seq<Release>, id: string, snap: Snapshot, status: Status)
    requires Ledger(rows) && IsListing(rows, app, list) && status in {Superseded, RolledBack} && id !in rows
    ensures var rel := Release(id, app, NextRevision(list), snap, Active);
            var committed := Commit(rows, app, list, id, snap, status);
            committed.Some? && Recorded(rows, committed.value, app, rel, status)
  {
    forall i | i in rows ensures rows[i] == rows[i].(status := rows[i].status) {
    }
    NoConflictWithoutDeploy(rows, rows, app, list, id, snap, status);
    FreshSupersedeEffect(rows, app, list, status);
    RevisionsAreDense(rows, app, list);
  }

  class Service {
    var rows: Rows

    constructor ()
      ensures rows == map[]
    {
      rows := map[];
    }

    method ListReleasesByApp(app: string) returns (list: seq<Release>)
      requires WellKeyed(rows)
      ensures IsListing(rows, app, list)
    {
      list := [];
      var rest := rows.Keys;
      while rest != {}
        invariant rest <= rows.Keys
        invariant NewestFirst(list) && DistinctIds(list)
        invariant forall r :: r in list <==> r.id in rows && r.id !in rest && rows[r.id] == r && r.appID == app
        decreases |rest|
      {
        var id :| id in rest;
        rest := rest - {id};
        if rows[id].appID == app {
          InsertRowSorted(list, rows[id]);
          list := InsertRow(list, rows[id]);
        }
      }
      forall k | 0 <= k < |list| ensures list[k].id in rows && rows[list[k].id] == list[k] && list[k].appID == app {
        assert list[k] in list;
      }
      assert forall id :: id in rows ==> rows[id].id == id;
    }

    method UpdateRelease(rel: Release) returns (ok: bool)
      modifies this
      ensures ok <==> rel.id in old(rows)
      ensures rows == if ok then old(rows)[rel.id := rel] else old(rows)
    {
      if rel.id !in rows {
        return false;
      }
      rows := rows[rel.id := rel];
      return true;
    }

    /** Supersede and insert inside one transaction; on a conflict nothing is written. */
    method AllocateAndInsert(app: string, existing: seq<Release>, id: string, snap: Snapshot, status: Status)
      returns (rel: Option<Release>)
      requires forall k :: 0 <= k < |existing| ==> existing[k].id in rows
      modifies this
      ensures rel.Some? <==> Commit(old(rows), app, existing, id, snap, status).Some?
      ensures rel.None? ==> rows == old(rows)
      ensures rel.Some? ==> rel == Some(Release(id, app, NextRevision(existing), snap, Active))
                            && Some(rows) == Commit(old(rows), app, existing, id, snap, status)
    {
      var tx := rows;
      var next := 1;
      for k := 0 to |existing|
        invariant next == NextRevision(existing[..k])
        invariant tx == Supersede(rows, existing[..k], status)
        invariant rows == old(rows)
      {
        OneMoreRow(rows, existing, k, status);
        var r := existing[k];
        if r.revision >= next {
          next := r.revision + 1;
        }
        if r.status == Active || r.status == Deploying {
          tx := tx[r.id := r.(status := status)];
        }
      }
      assert existing[..|existing|] == existing;
      var created := Release(id, app, next, snap, Active);
      if !Insertable(tx, created) {
        return None;
      }
      rows := tx[id := created];
      return Some(created);
    }

    method OtherStep(other: Other)
      requires Ledger(rows) && (other.OtherDeploy? ==> other.status in {Superseded, RolledBack})
      modifies this
      ensures Evolves(old(rows), rows)
      ensures forall app :: !(other.OtherDeploy? && other.app == app) ==> NoNewRow(old(rows), rows, app)
    {
      match other
      case OtherDeploy(app, id, snap, status) =>
        var list := ListReleasesByApp(app);
        ListingIsStale(rows, app, list);
        var created := AllocateAndInsert(app, list, id, snap, status);
        if created.Some? {
          CommitEvolves(old(rows), app, list, id, snap, status);
          CommitKeepsLedger(old(rows), app, list, id, snap, status);
          NewestAfterCommit(old(rows), app, list, id, snap, status);
        }
      case OtherReconcile(app, machine) =>
        ReconcileReleaseStatus(app, machine);
    }

    method OthersRun(batch: seq<Other>)
      requires Ledger(rows) && OthersOk(batch)
      modifies this
      ensures Evolves(old(rows), rows)
      ensures batch == [] ==> rows == old(rows)
      ensures forall app :: !DeploysTo(batch, app) ==> NoNewRow(old(rows), rows, app)
    {
      for k := 0 to |batch|
        invariant Ledger(rows) && Evolves(old(rows), rows)
        invariant k == 0 ==> rows == old(rows)
        invariant forall app :: !DeploysTo(batch, app) ==> NoNewRow(old(rows), rows, app)
      {
        ghost var before := rows;
        OtherStep(batch[k]);
        EvolvesTransitive(old(rows), before, rows);
        forall app | !DeploysTo(batch, app) ensures NoNewRow(old(rows), rows, app) {
          assert NoNewRow(before, rows, app);
        }
      }
    }

    /** One attempt: list, and commit from that listing whatever others have completed since. */
    method Attempt(app: string, snap: Snapshot, status: Status, id: string, batch: seq<Other>)
      returns (rel: Option<Release>)
      requires Ledger(rows) && status in {Superseded, RolledBack} && OthersOk(batch)
      modifies this
      ensures Evolves(old(rows), rows)
      ensures rel.Some? ==>
                && rel.value.id in rows && rows[rel.value.id] == rel.value && rel.value.status == Active
                && rel.value.appID == app && rel.value.snapshot == snap
                && forall i :: i in rows && rows[i].appID == app ==> rows[i].revision <= rel.value.revision
      ensures rel.None? ==> id in rows || DeploysTo(batch, app)
      ensures batch == [] && id !in old(rows) ==>
                rel.Some? && rel.value.id == id && Recorded(old(rows), rows, app, rel.value, status)
    {
      var existing := ListReleasesByApp(app);
      ListingIsStale(rows, app, existing);
      OthersRun(batch);
      StaleKept(old(rows), rows, app, existing);
      ghost var before := rows;
      rel := AllocateAndInsert(app, existing, id, snap, status);
      if rel.Some? {
        RecordedIsNewest(old(rows), before, app, existing, id, snap, status);
      } else if !DeploysTo(batch, app) && id !in rows {
        NoConflictWithoutDeploy(old(rows), before, app, existing, id, snap, status);
      }
      if batch == [] && id !in old(rows) {
        AloneRecords(before, app, existing, id, snap, status);
      }
    }

    /** Record a release, re-reading after every conflict, five attempts in all. `ids[k]` is the id generated for
        the k-th attempt and `others[k]` what other replicas complete during it. */
    method RecordRelease(app: string, snap: Snapshot, status: Status, ids: seq<string>, others: seq<seq<Other>>)
      returns (rel: Option<Release>)
      requires Ledger(rows) && status in {Superseded, RolledBack}
      requires |ids| == |others| == MAX_ATTEMPTS
      requires forall k :: 0 <= k < MAX_ATTEMPTS ==> OthersOk(others[k])
      modifies this
      ensures Evolves(old(rows), rows)
      ensures rel.Some? ==>
                && rel.value.id in rows && rows[rel.value.id] == rel.value && rel.value.status == Active
                && rel.value.appID == app && rel.value.snapshot == snap
                && forall id :: id in rows && rows[id].appID == app ==> rows[id].revision <= rel.value.revision
      ensures rel.None? ==> forall k :: 0 <= k < MAX_ATTEMPTS ==> ids[k] in rows || DeploysTo(others[k], app)
      ensures others[0] == [] && ids[0] !in old(rows) ==>
                rel.Some? && rel.value.id == ids[0] && Recorded(old(rows), rows, app, rel.value, status)
    {
      for attempt := 0 to MAX_ATTEMPTS
        invariant Ledger(rows) && Evolves(old(rows), rows)
        invariant forall k :: 0 <= k < attempt ==> ids[k] in rows || DeploysTo(others[k], app)
        invariant attempt == 0 ==> rows == old(rows)
        invariant attempt > 0 ==> others[0] != [] || ids[0] in old(rows)
      {
        ghost var before := rows;
        rel := Attempt(app, snap, status, ids[attempt], others[attempt]);
        EvolvesTransitive(old(rows), before, rows);
        if rel.Some? {
          return;
        }
      }
      return None;
    }

    method CurrentRelease(app: string) returns (cur: Option<Release>)
      requires Ledger(rows)
      ensures cur.Some? ==> cur.value.id in rows && rows[cur.value.id] == cur.value && cur.value.appID == app
                            && cur.value.status == Active
      ensures cur.None? ==> forall id :: id in rows && rows[id].appID == app ==> rows[id].status != Active
    {
      var list := ListReleasesByApp(app);
      for k := 0 to |list|
        invariant forall j :: 0 <= j < k ==> !Current(list[j])
      {
        if Current(list[k]) {
          return Some(list[k]);
        }
      }
      forall id | id in rows && rows[id].appID == app ensures rows[id].status != Active {
        var j :| 0 <= j < |list| && list[j] == rows[id];
      }
      return None;
    }

    /** Mirror the observed machine phase onto the current release. */
    method ReconcileReleaseStatus(app: string, machine: Machine)
      requires Ledger(rows)
      modifies this
      ensures Evolves(old(rows), rows) && rows.Keys == old(rows).Keys
      ensures machine != MachineFailed ==> rows == old(rows)
      ensures forall id :: id in rows ==>
                rows[id] == if machine == MachineFailed && rows[id].appID == app && old(rows)[id].status == Active
                            then old(rows)[id].(status := Failed) else old(rows)[id]
    {
      if machine == OtherPhase {
        return;
      }
      var target := if machine == Running then Active else Failed;
      var cur := CurrentRelease(app);
      if cur.None? || cur.value.status == target {
        return;
      }
      var row := cur.value.(status := target);
      StatusChangeKeepsLedger(rows, rows[row.id := row]);
      forall id | id in rows && rows[id].appID == app && rows[id].status == Active ensures id == row.id {
        OneActive(rows, id, row.id);
      }
      var _ := UpdateRelease(row);
    }
  }

  lemma EvolvesTransitive(a: Rows, b: Rows, c: Rows)
    requires Evolves(a, b) && Evolves(b, c)
    ensures Evolves(a, c)
  {
    ExtendsTransitive(a, b, c);
  }

  lemma NewestAfterCommit(rows: Rows, app: string, list: seq<Release>, id: string, snap: Snapshot, status: Status)
    requires Ledger(rows) && Stale(rows, app, list) && status in {Superseded, RolledBack}
    requires Commit(rows, app, list, id, snap, status).Some?
    ensures var rows' := Commit(rows, app, list, id, snap, status).value;
            && id in rows' && rows'[id] == Release(id, app, NextRevision(list), snap, Active)
            && forall i :: i in rows' && rows'[i].appID == app ==> rows'[i].revision <= NextRevision(list)
  {
    SupersedeEffect(rows, app, list, status);
    SameRevisions(rows, Supersede(rows, list, status), app, NextRevision(list));
    NothingLeftActive(rows, app, list, status);
  }

  lemma RecordedIsNewest(start: Rows, rows: Rows, app: string, list: seq<Release>, id: string, snap: Snapshot,
                         status: Status)
    requires Evolves(start, rows) && Stale(rows, app, list) && status in {Superseded, RolledBack}
    requires Commit(rows, app, list, id, snap, status).Some?
    ensures var rows' := Commit(rows, app, list, id, snap, status).value;
            && Evolves(start, rows')
            && id in rows' && rows'[id] == Release(id, app, NextRevision(list), snap, Active)
            && forall i :: i in rows' && rows'[i].appID == app ==> rows'[i].revision <= NextRevision(list)
  {
    CommitEvolves(rows, app, list, id, snap, status);
    NewestAfterCommit(rows, app, list, id, snap, status);
    EvolvesTransitive(start, rows, Commit(rows, app, list, id, snap, status).value);
  }

  /** If no row of the app was added since the listing, only an id collision can make the commit conflict. */
  lemma NoConflictWithoutDeploy(listed: Rows, rows: Rows, app: string, list: seq<Release>, id: string,
                                snap: Snapshot, status: Status)
    requires IsListing(listed, app, list) && Evolves(listed, rows) && NoNewRow(listed, rows, app)
    requires status in {Superseded, RolledBack} && id !in rows
    ensures Commit(rows, app, list, id, snap, status).Some?
  {
    var next := NextRevision(list);
    assert forall k :: 0 <= k < |list| ==> rows[list[k].id] == list[k].(status := rows[list[k].id].status);
    SupersedeEffect(rows, app, list, status);
    SameRevisions(rows, Supersede(rows, list, status), app, next);
    forall i | i in rows && rows[i].appID == app ensures rows[i].revision < next {
      assert listed[i].appID == app && listed[i] in list;
    }
  }
}

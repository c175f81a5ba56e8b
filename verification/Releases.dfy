/** The release ledger of the apps: revision allocation, superseding, reconciliation. */
module Releases {
  import opened Prelude

  datatype Status = Deploying | Active | Failed | Superseded | RolledBack

  /** The frozen part of a release: what was applied. */
  datatype Snapshot = Snapshot(orgID: string, image: string, gitRef: string, configHash: string,
                               cpu: real, memoryMB: int, note: string)

  datatype Release = Release(id: string, appID: string, revision: int, snapshot: Snapshot, status: Status)

  type Rows = map<string, Release>

  predicate Current(r: Release) {
    r.status == Active || r.status == Deploying
  }

  predicate HasRevision(rows: Rows, app: string, rev: int) {
    exists id :: id in rows && rows[id].appID == app && rows[id].revision == rev
  }

  /** What ListReleasesByApp returns: every row of the app once, newest revision first. */
  ghost predicate IsListing(rows: Rows, app: string, list: seq<Release>) {
    && (forall k :: 0 <= k < |list| ==> list[k].id in rows && rows[list[k].id] == list[k] && list[k].appID == app)
    && (forall id :: id in rows && rows[id].appID == app ==> rows[id] in list)
    && (forall j, k :: 0 <= j < k < |list| ==> list[j].id != list[k].id && list[j].revision >= list[k].revision)
  }

  /** MAX(revision) + 1, as the loop over the listing computes it. */
  function NextRevision(list: seq<Release>): (next: int)
    ensures next >= 1
    ensures forall k :: 0 <= k < |list| ==> list[k].revision < next
    ensures next == 1 || exists k :: 0 <= k < |list| && list[k].revision == next - 1
  {
    if list == [] then 1
    else
      var before := NextRevision(list[..|list| - 1]);
      var last := list[|list| - 1];
      if last.revision >= before then last.revision + 1 else before
  }

  /** Every current row of the listing is rewritten with the given status. */
  function Supersede(rows: Rows, list: seq<Release>, status: Status): Rows {
    if list == [] then rows
    else
      var before := Supersede(rows, list[..|list| - 1], status);
      var last := list[|list| - 1];
      if Current(last) then before[last.id := last.(status := status)] else before
  }

  /** The insert obeys the primary key and the uniqueness of (app, revision). */
  predicate Insertable(rows: Rows, rel: Release) {
    rel.id !in rows && !HasRevision(rows, rel.appID, rel.revision)
  }

  /** The transaction: supersede, then insert; None is the conflict that rolls everything back. */
  function Commit(rows: Rows, app: string, list: seq<Release>, id: string, snap: Snapshot,
                  status: Status): Option<Rows>
  {
    var rel := Release(id, app, NextRevision(list), snap, Active);
    var superseded := Supersede(rows, list, status);
    if Insertable(superseded, rel) then Some(superseded[id := rel]) else None
  }

  /** The newest active or deploying release of a listing. */
  function CurrentOf(list: seq<Release>): Option<Release> {
    if list == [] then None else if Current(list[0]) then Some(list[0]) else CurrentOf(list[1..])
  }

  datatype Machine = Running | MachineFailed | OtherPhase

  /** The row a reconciler that has read `list` will write, if any. */
  function Reconciled(list: seq<Release>, machine: Machine): Option<Release> {
    match machine
    case OtherPhase => None
    case _ =>
      var target := if machine == Running then Active else Failed;
      match CurrentOf(list)
      case None => None
      case Some(cur) => if cur.status == target then None else Some(cur.(status := target))
  }

  function PickRollbackTarget(list: seq<Release>, revision: int): Option<Release> {
    if list == [] then None
    else if (if revision > 0 then list[0].revision == revision else !Current(list[0])) then Some(list[0])
    else PickRollbackTarget(list[1..], revision)
  }

  // ---- the ledger invariant ----

  ghost predicate WellKeyed(rows: Rows) {
    forall id :: id in rows ==> rows[id].id == id
  }

  ghost predicate UniqueRevisions(rows: Rows) {
    forall i, j ::
      i in rows && j in rows && rows[i].appID == rows[j].appID && rows[i].revision == rows[j].revision ==> i == j
  }

  ghost predicate HasPredecessor(rows: Rows, id: string)
    requires id in rows
  {
    rows[id].revision > 1 ==> HasRevision(rows, rows[id].appID, rows[id].revision - 1)
  }

  ghost predicate DenseRevisions(rows: Rows) {
    && (forall id :: id in rows ==> rows[id].revision >= 1)
    && (forall id {:trigger HasPredecessor(rows, id)} :: id in rows ==> HasPredecessor(rows, id))
  }

  /** No row is deploying, and only an app's newest revision may be active. */
  ghost predicate OnlyNewestActive(rows: Rows) {
    forall id :: id in rows ==>
      rows[id].status != Deploying
      && (rows[id].status == Active ==> !HasRevision(rows, rows[id].appID, rows[id].revision + 1))
  }

  ghost predicate Ledger(rows: Rows) {
    WellKeyed(rows) && UniqueRevisions(rows) && DenseRevisions(rows) && OnlyNewestActive(rows)
  }

  /** History is append-only: later rows agree with earlier ones on everything but the status. */
  ghost predicate Extends(rows: Rows, rows': Rows) {
    forall id :: id in rows ==> id in rows' && rows'[id] == rows[id].(status := rows'[id].status)
  }

  lemma {:induction false} RevisionsBelow(rows: Rows, app: string, rev: int, k: int)
    requires DenseRevisions(rows) && HasRevision(rows, app, rev) && 1 <= k <= rev
    ensures HasRevision(rows, app, k)
    decreases rev - k
  {
    if k == rev {
    } else {
      RevisionsBelow(rows, app, rev, k + 1);
      var id :| id in rows && rows[id].appID == app && rows[id].revision == k + 1;
      assert HasPredecessor(rows, id);
    }
  }

  /** In a ledger an app's revisions are exactly 1..n. */
  lemma RevisionsAreDense(rows: Rows, app: string, list: seq<Release>)
    requires Ledger(rows) && IsListing(rows, app, list)
    ensures forall k :: HasRevision(rows, app, k) <==> 1 <= k < NextRevision(list)
  {
    var n := NextRevision(list) - 1;
    forall k | HasRevision(rows, app, k) ensures 1 <= k <= n {
      var id :| id in rows && rows[id].appID == app && rows[id].revision == k;
      var m :| 0 <= m < |list| && list[m] == rows[id];
    }
    if n >= 1 {
      var m :| 0 <= m < |list| && list[m].revision == n;
      assert rows[list[m].id].revision == n;
      assert HasRevision(rows, app, n);
      forall k | 1 <= k <= n ensures HasRevision(rows, app, k) {
        RevisionsBelow(rows, app, n, k);
      }
    }
  }

  /** At most one release of an app is active, and it is the newest. */
  lemma OneActive(rows: Rows, i: string, j: string)
    requires Ledger(rows) && i in rows && j in rows && rows[i].appID == rows[j].appID && rows[i].status == Active
    ensures rows[j].revision <= rows[i].revision
    ensures rows[j].status == Active ==> i == j
  {
    if rows[j].revision > rows[i].revision {
      RevisionsBelow(rows, rows[i].appID, rows[j].revision, rows[i].revision + 1);
    }
    if rows[j].status == Active && rows[i].revision > rows[j].revision {
      RevisionsBelow(rows, rows[i].appID, rows[i].revision, rows[j].revision + 1);
    }
  }

  // ---- what a pending writer knows about the rows ----

  /** A listing read earlier: its rows are still there up to status, it still covers every active row among the
      revisions it knew, and it never showed a deploying row. */
  ghost predicate Stale(rows: Rows, app: string, list: seq<Release>) {
    && (forall k :: 0 <= k < |list| ==>
          && list[k].id in rows && list[k].appID == app && list[k].status != Deploying
          && rows[list[k].id] == list[k].(status := rows[list[k].id].status))
    && (forall id :: id in rows && rows[id].appID == app && rows[id].status == Active
                     && rows[id].revision < NextRevision(list) ==>
          exists k :: 0 <= k < |list| && list[k].id == id && list[k].status == Active)
  }

  lemma ListingIsStale(rows: Rows, app: string, list: seq<Release>)
    requires Ledger(rows) && IsListing(rows, app, list)
    ensures Stale(rows, app, list)
  {
    forall id | id in rows && rows[id].appID == app && rows[id].status == Active
      ensures exists k :: 0 <= k < |list| && list[k].id == id && list[k].status == Active
    {
      var k :| 0 <= k < |list| && list[k] == rows[id];
    }
  }

  /** The listing shows this row as active or deploying. */
  predicate ShownCurrent(list: seq<Release>, id: string) {
    exists k :: 0 <= k < |list| && list[k].id == id && Current(list[k])
  }

  /** Superseding from a stale listing rewrites the status of exactly the rows the listing shows as current, whatever
      has become of them since, and changes nothing else. */
  lemma {:induction false} SupersedeEffect(rows: Rows, app: string, list: seq<Release>, status: Status)
    requires WellKeyed(rows) && (status == Superseded || status == RolledBack)
    requires forall k :: 0 <= k < |list| ==>
               list[k].id in rows && rows[list[k].id] == list[k].(status := rows[list[k].id].status)
    ensures var rows' := Supersede(rows, list, status);
            && rows'.Keys == rows.Keys && Extends(rows, rows')
            && (forall id :: id in rows ==>
                  rows'[id] == if ShownCurrent(list, id) then rows[id].(status := status) else rows[id])
  {
    if list == [] {
    } else {
      var front, last := list[..|list| - 1], list[|list| - 1];
      SupersedeEffect(rows, app, front, status);
      assert last.id in rows && rows[last.id] == last.(status := rows[last.id].status);
      forall id ensures ShownCurrent(list, id) <==> ShownCurrent(front, id) || (last.id == id && Current(last)) {
        ShownByOne(list, id);
      }
    }
  }

  lemma ShownByOne(list: seq<Release>, id: string)
    requires list != []
    ensures ShownCurrent(list, id)
            <==> ShownCurrent(list[..|list| - 1], id) || (list[|list| - 1].id == id && Current(list[|list| - 1]))
  {
    var front := list[..|list| - 1];
    if ShownCurrent(front, id) {
      var k :| 0 <= k < |front| && front[k].id == id && Current(front[k]);
      assert list[k] == front[k];
    }
    if k :| 0 <= k < |front| && list[k].id == id && Current(list[k]) {
      assert front[k] == list[k];
    }
  }

  /** From an up-to-date listing it supersedes the app's active release and nothing else. */
  lemma FreshSupersedeEffect(rows: Rows, app: string, list: seq<Release>, status: Status)
    requires Ledger(rows) && IsListing(rows, app, list) && (status == Superseded || status == RolledBack)
    ensures var rows' := Supersede(rows, list, status);
            && rows'.Keys == rows.Keys
            && forall id :: id in rows ==>
                 rows'[id] == if rows[id].appID == app && rows[id].status == Active
                              then rows[id].(status := status) else rows[id]
  {
    SupersedeEffect(rows, app, list, status);
    forall id | id in rows ensures ShownCurrent(list, id) <==> rows[id].appID == app && rows[id].status == Active {
      if rows[id].appID == app {
        var k :| 0 <= k < |list| && list[k] == rows[id];
      }
    }
  }

  lemma SameRevisions(rows: Rows, rows': Rows, app: string, rev: int)
    requires rows'.Keys == rows.Keys && Extends(rows, rows')
    ensures HasRevision(rows', app, rev) == HasRevision(rows, app, rev)
  {
    if HasRevision(rows, app, rev) {
      var id :| id in rows && rows[id].appID == app && rows[id].revision == rev;
      assert rows'[id].appID == app && rows'[id].revision == rev;
    }
    if HasRevision(rows', app, rev) {
      var id :| id in rows' && rows'[id].appID == app && rows'[id].revision == rev;
      assert rows[id].appID == app && rows[id].revision == rev;
    }
  }

  lemma {:induction false} StatusChangeKeepsLedger(rows: Rows, rows': Rows)
    requires Ledger(rows) && rows'.Keys == rows.Keys && Extends(rows, rows')
    requires forall id :: id in rows ==> rows'[id].status == rows[id].status || rows'[id].status !in {Active, Deploying}
    ensures Ledger(rows')
  {
    forall app, rev { SameRevisions(rows, rows', app, rev); }
    forall id | id in rows' ensures HasPredecessor(rows', id) {
      assert HasPredecessor(rows, id);
    }
    forall id | id in rows' && rows'[id].status == Active
      ensures !HasRevision(rows', rows'[id].appID, rows'[id].revision + 1)
    {
      SameRevisions(rows, rows', rows[id].appID, rows[id].revision + 1);
    }
  }

  /** The next revision a stale listing computes is free only if no revision was added since: the number
      alone validates the whole supersede step. */
  lemma FreeRevisionMeansFresh(rows: Rows, app: string, list: seq<Release>)
    requires Ledger(rows) && Stale(rows, app, list) && !HasRevision(rows, app, NextRevision(list))
    ensures forall id :: id in rows && rows[id].appID == app ==> rows[id].revision < NextRevision(list)
    ensures NextRevision(list) > 1 ==> HasRevision(rows, app, NextRevision(list) - 1)
  {
    var next := NextRevision(list);
    forall id | id in rows && rows[id].appID == app ensures rows[id].revision < next {
      if rows[id].revision >= next {
        RevisionsBelow(rows, app, rows[id].revision, next);
      }
    }
    if next > 1 {
      var k :| 0 <= k < |list| && list[k].revision == next - 1;
      assert rows[list[k].id].revision == next - 1;
    }
  }

  /** After superseding from a stale listing whose next revision is free, no row of the app is active. */
  lemma NothingLeftActive(rows: Rows, app: string, list: seq<Release>, status: Status)
    requires Ledger(rows) && Stale(rows, app, list) && !HasRevision(rows, app, NextRevision(list))
    requires status == Superseded || status == RolledBack
    ensures var sup := Supersede(rows, list, status);
            forall i :: i in sup && sup[i].appID == app ==>
                      sup[i].status != Active && sup[i].revision < NextRevision(list)
  {
    var sup := Supersede(rows, list, status);
    SupersedeEffect(rows, app, list, status);
    FreeRevisionMeansFresh(rows, app, list);
    forall i | i in sup && sup[i].appID == app
      ensures sup[i].status != Active && sup[i].revision < NextRevision(list)
    {
      assert rows[i].appID == app && rows[i].revision == sup[i].revision;
      if rows[i].status == Active {
        var k :| 0 <= k < |list| && list[k].id == i && list[k].status == Active;
      }
    }
  }

  lemma CommitKeepsLedger(rows: Rows, app: string, list: seq<Release>, id: string, snap: Snapshot, status: Status)
    requires Ledger(rows) && Stale(rows, app, list) && (status == Superseded || status == RolledBack)
    requires Commit(rows, app, list, id, snap, status).Some?
    ensures var rows' := Commit(rows, app, list, id, snap, status).value;
            Ledger(rows') && Extends(rows, rows') && rows'.Keys == rows.Keys + {id}
  {
    var sup := Supersede(rows, list, status);
    var next := NextRevision(list);
    SupersedeEffect(rows, app, list, status);
    StatusChangeKeepsLedger(rows, sup);
    SameRevisions(rows, sup, app, next);
    NothingLeftActive(rows, app, list, status);
    FreeRevisionMeansFresh(rows, app, list);
    SameRevisions(rows, sup, app, next - 1);
    InsertKeepsLedger(sup, Release(id, app, next, snap, Active));
  }

  lemma InsertedRevisions(rows: Rows, rel: Release, app: string, rev: int)
    requires rel.id !in rows
    ensures HasRevision(rows[rel.id := rel], app, rev)
            <==> HasRevision(rows, app, rev) || (app == rel.appID && rev == rel.revision)
  {
    var rows' := rows[rel.id := rel];
    if HasRevision(rows, app, rev) {
      var i :| i in rows && rows[i].appID == app && rows[i].revision == rev;
      assert rows'[i] == rows[i];
    }
    assert rows'[rel.id] == rel;
  }

  lemma InsertKeepsLedger(rows: Rows, rel: Release)
    requires Ledger(rows) && rel.id !in rows && rel.revision >= 1 && rel.status == Active
    requires forall i :: i in rows && rows[i].appID == rel.appID ==>
              rows[i].status != Active && rows[i].revision < rel.revision
    requires rel.revision > 1 ==> HasRevision(rows, rel.appID, rel.revision - 1)
    ensures Ledger(rows[rel.id := rel])
  {
    var rows' := rows[rel.id := rel];
    assert DenseRevisions(rows') by {
      forall i | i in rows' ensures HasPredecessor(rows', i) {
        assert i in rows ==> HasPredecessor(rows, i);
        InsertedRevisions(rows, rel, rows'[i].appID, rows'[i].revision - 1);
      }
    }
    assert OnlyNewestActive(rows') by {
      forall i | i in rows' && rows'[i].status == Active
        ensures !HasRevision(rows', rows'[i].appID, rows'[i].revision + 1)
      {
        InsertedRevisions(rows, rel, rows'[i].appID, rows'[i].revision + 1);
      }
    }
  }
}

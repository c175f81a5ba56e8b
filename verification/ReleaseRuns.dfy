/** Concurrent deploys and reconcilers over one release ledger, and the service that runs them. */
module ReleaseRuns {
  import opened Prelude
  import opened Releases

  const MAX_ATTEMPTS := 5

  /** One recordRelease call: what it records, the first revision it aimed at, the attempts that conflicted because
      their revision was taken or their id was, and the rows as they were when it began, which no step reads. */
  datatype Deploy = Deploy(
    app: string, snapshot: Snapshot, status: Status, start: int, attempt: nat, collisions: nat, before: Rows)

  datatype Proc =
    | Idle
    | Recording(job: Deploy, list: seq<Release>)
    | Retrying(job: Deploy)
    | GaveUp(job: Deploy)
    | Reconciling(row: Release)

  datatype State = State(rows: Rows, procs: map<nat, Proc>)

  /** A step that lists releases names the listing it got. */
  datatype Action =
    | Begin(p: nat, app: string, snapshot: Snapshot, status: Status, list: seq<Release>)
    | Reread(p: nat, list: seq<Release>)
    | CommitTx(p: nat, id: string)
    | ReadCurrent(p: nat, app: string, machine: Machine, list: seq<Release>)
    | WriteCurrent(p: nat)
    | Abandon(p: nat)

  function ProcOf(s: State, p: nat): Proc {
    if p in s.procs then s.procs[p] else Idle
  }

  function Put(s: State, p: nat, proc: Proc): State {
    State(s.rows, s.procs[p := proc])
  }

  ghost function Step(s: State, a: Action): State {
    var proc := ProcOf(s, a.p);
    match a
    case Begin(p, app, snapshot, status, list) =>
      if proc.Idle? && status in {Superseded, RolledBack} && IsListing(s.rows, app, list)
      then Put(s, p, Recording(Deploy(app, snapshot, status, NextRevision(list), 0, 0, s.rows), list)) else s
    case Reread(p, list) =>
      if proc.Retrying? && IsListing(s.rows, proc.job.app, list) then Put(s, p, Recording(proc.job, list)) else s
    case CommitTx(p, id) => if proc.Recording? then TryCommit(s, p, proc, id) else s
    case ReadCurrent(p, app, machine, list) =>
      if proc.Idle? && IsListing(s.rows, app, list) && Reconciled(list, machine).Some?
      then Put(s, p, Reconciling(Reconciled(list, machine).value)) else s
    case WriteCurrent(p) =>
      if proc.Reconciling? then
        if proc.row.id in s.rows then State(s.rows[proc.row.id := proc.row], s.procs[p := Idle]) else Put(s, p, Idle)
      else s
    case Abandon(p) => Put(s, p, Idle)
  }

  /** The job after one more conflict. */
  function Conflicted(rows: Rows, job: Deploy, revision: int): Deploy {
    if HasRevision(rows, job.app, revision) then job.(attempt := job.attempt + 1)
    else job.(collisions := job.collisions + 1)
  }

  /** Commit, or roll back and either read again or give up. An id collision is a conflict like a taken revision. */
  function TryCommit(s: State, p: nat, proc: Proc, id: string): State
    requires proc.Recording?
  {
    var job := proc.job;
    match Commit(s.rows, job.app, proc.list, id, job.snapshot, job.status)
    case Some(rows) => State(rows, s.procs[p := Idle])
    case None =>
      var next := Conflicted(s.rows, job, NextRevision(proc.list));
      Put(s, p, if next.attempt + next.collisions == MAX_ATTEMPTS then GaveUp(next) else Retrying(next))
  }

  ghost function Run(s: State, acts: seq<Action>): State
    decreases |acts|
  {
    if acts == [] then s else Run(Step(s, acts[0]), acts[1..])
  }

  // ---- invariant ----

  /** None of the revisions from the first aimed at was there when the call began; one is now for each attempt that
      found its revision taken. */
  ghost predicate JobOk(rows: Rows, job: Deploy) {
    && job.status in {Superseded, RolledBack} && job.start >= 1
    && (job.start + job.attempt > 1 ==> HasRevision(rows, job.app, job.start + job.attempt - 1))
    && (forall k :: k >= job.start ==> !HasRevision(job.before, job.app, k))
    && Extends(job.before, rows)
  }

  ghost predicate ProcOk(rows: Rows, proc: Proc) {
    match proc
    case Idle => true
    case Recording(job, list) =>
      && JobOk(rows, job) && job.attempt + job.collisions < MAX_ATTEMPTS
      && Stale(rows, job.app, list) && NextRevision(list) >= job.start + job.attempt
    case Retrying(job) => JobOk(rows, job) && job.attempt + job.collisions < MAX_ATTEMPTS
    case GaveUp(job) => JobOk(rows, job) && job.attempt + job.collisions == MAX_ATTEMPTS
    case Reconciling(row) =>
      row.status == Failed && row.id in rows && rows[row.id] == row.(status := rows[row.id].status)
  }

  ghost predicate Inv(s: State) {
    Ledger(s.rows) && forall p :: p in s.procs ==> ProcOk(s.rows, s.procs[p])
  }

  /** What any step does to the rows. */
  ghost predicate Evolves(rows: Rows, rows': Rows) {
    && Ledger(rows')
    && Extends(rows, rows')
    && (forall id :: id in rows && rows'[id].status == Active ==> rows[id].status == Active)
  }

  lemma RevisionKept(rows: Rows, rows': Rows, app: string, rev: int)
    requires Extends(rows, rows') && HasRevision(rows, app, rev)
    ensures HasRevision(rows', app, rev)
  {
    var id :| id in rows && rows[id].appID == app && rows[id].revision == rev;
    assert rows'[id].appID == app && rows'[id].revision == rev;
  }

  /** A stale listing stays one: what was added since lies beyond the revisions it knew. */
  lemma StaleKept(rows: Rows, rows': Rows, app: string, list: seq<Release>)
    requires Ledger(rows) && Evolves(rows, rows') && Stale(rows, app, list)
    ensures Stale(rows', app, list)
  {
    var next := NextRevision(list);
    forall id | id in rows' && rows'[id].appID == app && rows'[id].status == Active && rows'[id].revision < next
      ensures exists k :: 0 <= k < |list| && list[k].id == id && list[k].status == Active
    {
      var rev := rows'[id].revision;
      if id !in rows {
        var k :| 0 <= k < |list| && list[k].revision == next - 1;
        assert rows[list[k].id].revision == next - 1;
        assert HasRevision(rows, app, next - 1);
        RevisionsBelow(rows, app, next - 1, rev);
      }
    }
  }

  lemma JobKept(rows: Rows, rows': Rows, job: Deploy)
    requires Extends(rows, rows') && JobOk(rows, job)
    ensures JobOk(rows', job)
  {
    if job.start + job.attempt > 1 {
      RevisionKept(rows, rows', job.app, job.start + job.attempt - 1);
    }
    ExtendsTransitive(job.before, rows, rows');
  }

  lemma ExtendsTransitive(a: Rows, b: Rows, c: Rows)
    requires Extends(a, b) && Extends(b, c)
    ensures Extends(a, c)
  {
    forall id | id in a ensures id in c && c[id] == a[id].(status := c[id].status) {
      assert b[id] == a[id].(status := b[id].status);
    }
  }

  lemma ProcKept(rows: Rows, rows': Rows, proc: Proc)
    requires Ledger(rows) && Evolves(rows, rows') && ProcOk(rows, proc)
    ensures ProcOk(rows', proc)
  {
    match proc
    case Recording(job, list) =>
      JobKept(rows, rows', job);
      StaleKept(rows, rows', job.app, list);
    case Retrying(job) => JobKept(rows, rows', job);
    case GaveUp(job) => JobKept(rows, rows', job);
    case _ =>
  }

  lemma ListingReaches(rows: Rows, app: string, list: seq<Release>, rev: int)
    requires IsListing(rows, app, list) && HasRevision(rows, app, rev)
    ensures NextRevision(list) > rev
  {
    var id :| id in rows && rows[id].appID == app && rows[id].revision == rev;
    var k :| 0 <= k < |list| && list[k] == rows[id];
  }

  lemma ListingEnds(rows: Rows, app: string, list: seq<Release>)
    requires IsListing(rows, app, list)
    ensures forall k :: k >= NextRevision(list) ==> !HasRevision(rows, app, k)
    ensures NextRevision(list) > 1 ==> HasRevision(rows, app, NextRevision(list) - 1)
  {
    forall k | k >= NextRevision(list) ensures !HasRevision(rows, app, k) {
      if HasRevision(rows, app, k) { ListingReaches(rows, app, list, k); }
    }
    if NextRevision(list) > 1 {
      var k :| 0 <= k < |list| && list[k].revision == NextRevision(list) - 1;
      assert rows[list[k].id] == list[k];
    }
  }

  /** A reconciler of a ledger only ever sets out to write a failure onto a row it saw active. */
  lemma {:induction false} ReconcilesToFailed(rows: Rows, list: seq<Release>, machine: Machine)
    requires Ledger(rows) && forall k :: 0 <= k < |list| ==> list[k].id in rows && rows[list[k].id] == list[k]
    requires Reconciled(list, machine).Some?
    ensures var row := Reconciled(list, machine).value;
            row.status == Failed && row.id in rows && rows[row.id] == row.(status := rows[row.id].status)
  {
    CurrentIsListed(list);
  }

  lemma {:induction false} CurrentIsListed(list: seq<Release>)
    ensures CurrentOf(list).Some? ==> CurrentOf(list).value in list && Current(CurrentOf(list).value)
  {
    if list == [] || Current(list[0]) {
    } else {
      CurrentIsListed(list[1..]);
    }
  }

  lemma CommitGood(s: State, p: nat, id: string)
    requires Inv(s) && ProcOf(s, p).Recording?
    ensures StepOk(s, TryCommit(s, p, ProcOf(s, p), id), p)
  {
    var proc := ProcOf(s, p);
    assert ProcOk(s.rows, proc);
    var job := proc.job;
    var next := NextRevision(proc.list);
    var result := Commit(s.rows, job.app, proc.list, id, job.snapshot, job.status);
    if result.Some? {
      CommitEvolves(s.rows, job.app, proc.list, id, job.snapshot, job.status);
      assert TryCommit(s, p, proc, id) == State(result.value, s.procs[p := Idle]);
    } else {
      if HasRevision(s.rows, job.app, next) {
        RevisionsBelow(s.rows, job.app, next, job.start + job.attempt);
      }
      assert JobOk(s.rows, Conflicted(s.rows, job, next));
      LocalGood(s, p, TryCommit(s, p, proc, id).procs[p]);
    }
  }

  lemma CommitEvolves(rows: Rows, app: string, list: seq<Release>, id: string, snap: Snapshot, status: Status)
    requires Ledger(rows) && Stale(rows, app, list) && (status == Superseded || status == RolledBack)
    requires Commit(rows, app, list, id, snap, status).Some?
    ensures Evolves(rows, Commit(rows, app, list, id, snap, status).value)
  {
    CommitKeepsLedger(rows, app, list, id, snap, status);
    SupersedeEffect(rows, app, list, status);
  }

  ghost predicate StepOk(s: State, s': State, p: nat) {
    && Evolves(s.rows, s'.rows)
    && s'.procs.Keys <= s.procs.Keys + {p}
    && (forall q :: q in s'.procs && q != p ==> q in s.procs && s'.procs[q] == s.procs[q])
    && (p in s'.procs ==> ProcOk(s'.rows, s'.procs[p]))
  }

  lemma LocalGood(s: State, p: nat, proc: Proc)
    requires Inv(s) && ProcOk(s.rows, proc)
    ensures StepOk(s, Put(s, p, proc), p)
  {
  }

  lemma BeginGood(s: State, p: nat, app: string, snapshot: Snapshot, status: Status, list: seq<Release>)
    requires Inv(s)
    ensures StepOk(s, Step(s, Begin(p, app, snapshot, status, list)), p)
  {
    if ProcOf(s, p).Idle? && status in {Superseded, RolledBack} && IsListing(s.rows, app, list) {
      ListingIsStale(s.rows, app, list);
      var job := Deploy(app, snapshot, status, NextRevision(list), 0, 0, s.rows);
      ListingEnds(s.rows, app, list);
      assert JobOk(s.rows, job);
      LocalGood(s, p, Recording(job, list));
    }
  }

  lemma RereadGood(s: State, p: nat, list: seq<Release>)
    requires Inv(s)
    ensures StepOk(s, Step(s, Reread(p, list)), p)
  {
    var proc := ProcOf(s, p);
    if proc.Retrying? && IsListing(s.rows, proc.job.app, list) {
      assert ProcOk(s.rows, proc);
      ListingIsStale(s.rows, proc.job.app, list);
      if proc.job.start + proc.job.attempt > 1 {
        ListingReaches(s.rows, proc.job.app, list, proc.job.start + proc.job.attempt - 1);
      }
      LocalGood(s, p, Recording(proc.job, list));
    }
  }

  lemma ReadCurrentGood(s: State, p: nat, app: string, machine: Machine, list: seq<Release>)
    requires Inv(s)
    ensures StepOk(s, Step(s, ReadCurrent(p, app, machine, list)), p)
  {
    if ProcOf(s, p).Idle? && IsListing(s.rows, app, list) && Reconciled(list, machine).Some? {
      ReconcilesToFailed(s.rows, list, machine);
      LocalGood(s, p, Reconciling(Reconciled(list, machine).value));
    }
  }

  lemma WriteGood(s: State, p: nat)
    requires Inv(s) && ProcOf(s, p).Reconciling?
    ensures StepOk(s, Step(s, WriteCurrent(p)), p)
  {
    assert ProcOk(s.rows, ProcOf(s, p));
    StatusChangeKeepsLedger(s.rows, Step(s, WriteCurrent(p)).rows);
  }

  lemma StepGood(s: State, a: Action)
    requires Inv(s)
    ensures StepOk(s, Step(s, a), a.p)
  {
    match a
    case CommitTx(p, id) => if ProcOf(s, p).Recording? { CommitGood(s, p, id); }
    case WriteCurrent(p) => if ProcOf(s, p).Reconciling? { WriteGood(s, p); }
    case Abandon(p) =>
    case Begin(p, app, snapshot, status, list) => BeginGood(s, p, app, snapshot, status, list);
    case Reread(p, list) => RereadGood(s, p, list);
    case ReadCurrent(p, app, machine, list) => ReadCurrentGood(s, p, app, machine, list);
  }

  lemma StepKeeps(s: State, a: Action)
    requires Inv(s)
    ensures Inv(Step(s, a)) && Extends(s.rows, Step(s, a).rows)
  {
    var s' := Step(s, a);
    StepGood(s, a);
    forall q | q in s'.procs ensures ProcOk(s'.rows, s'.procs[q]) {
      if q != a.p { ProcKept(s.rows, s'.rows, s.procs[q]); }
    }
  }

  lemma {:induction false} RunKeeps(s: State, acts: seq<Action>)
    requires Inv(s)
    ensures Inv(Run(s, acts)) && Extends(s.rows, Run(s, acts).rows)
    decreases |acts|
  {
    if acts == [] {
    } else {
      StepKeeps(s, acts[0]);
      RunKeeps(Step(s, acts[0]), acts[1..]);
    }
  }

  // ---- the main results ----

  /** From an empty ledger, every interleaving leaves each app with revisions exactly 1..n, at most one active
      release, which is revision n, and a history that only ever changed statuses. */
  lemma LedgerAlways(acts: seq<Action>, app: string, list: seq<Release>)
    requires IsListing(Run(State(map[], map[]), acts).rows, app, list)
    ensures var rows := Run(State(map[], map[]), acts).rows;
            && (forall k :: HasRevision(rows, app, k) <==> 1 <= k < NextRevision(list))
            && UniqueRevisions(rows)
            && (forall i :: i in rows && rows[i].appID == app && Current(rows[i]) ==>
                  rows[i].status == Active && rows[i].revision == NextRevision(list) - 1)
  {
    var s := State(map[], map[]);
    RunKeeps(s, acts);
    var rows := Run(s, acts).rows;
    RevisionsAreDense(rows, app, list);
    forall i | i in rows && rows[i].appID == app && Current(rows[i])
      ensures rows[i].revision == NextRevision(list) - 1
    {
      assert HasRevision(rows, app, rows[i].revision);
      assert !HasRevision(rows, app, rows[i].revision + 1);
    }
  }

  /** Rows written once keep their app, revision and snapshot for ever. */
  lemma HistoryIsFrozen(s: State, acts: seq<Action>, id: string)
    requires Inv(s) && id in s.rows
    ensures var rows := Run(s, acts).rows;
            id in rows && rows[id] == s.rows[id].(status := rows[id].status)
  {
    RunKeeps(s, acts);
  }

  /** A commit with a fresh id conflicts exactly when a revision was added for the app since its listing. */
  lemma ConflictIffRaced(s: State, p: nat, id: string)
    requires Inv(s) && ProcOf(s, p).Recording? && id !in s.rows
    ensures var proc := ProcOf(s, p);
            Commit(s.rows, proc.job.app, proc.list, id, proc.job.snapshot, proc.job.status).None?
            <==> exists j :: j in s.rows && s.rows[j].appID == proc.job.app
                      && s.rows[j].revision >= NextRevision(proc.list)
  {
    var proc := ProcOf(s, p);
    var next := NextRevision(proc.list);
    assert ProcOk(s.rows, proc);
    SupersedeEffect(s.rows, proc.job.app, proc.list, proc.job.status);
    SameRevisions(s.rows, Supersede(s.rows, proc.list, proc.job.status), proc.job.app, next);
    if j :| j in s.rows && s.rows[j].appID == proc.job.app && s.rows[j].revision >= next {
      assert HasRevision(s.rows, proc.job.app, s.rows[j].revision);
      RevisionsBelow(s.rows, proc.job.app, s.rows[j].revision, next);
    }
  }

  /** A deploy whose release is given up on made five attempts. Each of them met an id collision or a revision that
      others recorded meanwhile: the revisions it lost to are there now and were not when the call began. */
  lemma GivingUpIsCharged(s: State, acts: seq<Action>, p: nat)
    requires Inv(s) && ProcOf(Run(s, acts), p).GaveUp?
    ensures var s' := Run(s, acts);
            var job := ProcOf(s', p).job;
            && job.attempt + job.collisions == 5 && Extends(job.before, s'.rows)
            && forall k :: job.start <= k < job.start + job.attempt ==>
                 HasRevision(s'.rows, job.app, k) && !HasRevision(job.before, job.app, k)
  {
    RunKeeps(s, acts);
    var s' := Run(s, acts);
    var job := ProcOf(s', p).job;
    assert ProcOk(s'.rows, s'.procs[p]);
    forall k | job.start <= k < job.start + job.attempt ensures HasRevision(s'.rows, job.app, k) {
      RevisionsBelow(s'.rows, job.app, job.start + job.attempt - 1, k);
    }
  }

  /** Why no row may be `deploying`: a reconciler that saw one writes it active after a deploy superseded it. */
  lemma DeployingRowBreaksIt(snap: Snapshot)
    ensures var row := Release("a", "app", 1, snap, Deploying);
            var rows: Rows := map["a" := row];
            var deployed := Commit(rows, "app", [row], "b", snap, Superseded);
            && IsListing(rows, "app", [row])
            && Reconciled([row], Running) == Some(row.(status := Active))
            && deployed.Some?
            && var late := deployed.value["a" := row.(status := Active)];
               late["a"].status == Active && late["b"].status == Active && late["a"].appID == late["b"].appID
  {
    var row := Release("a", "app", 1, snap, Deploying);
    var rows: Rows := map["a" := row];
    assert [row][..0] == [];
    assert NextRevision([row]) == 2;
    assert Supersede(rows, [row], Superseded) == rows["a" := row.(status := Superseded)];
  }

  // ---- rollback targets ----

  ghost predicate CountsDown(list: seq<Release>, n: int) {
    && (forall j, k :: 0 <= j < k < |list| ==> list[j].revision > list[k].revision)
    && (forall k :: 0 <= k < |list| ==> 1 <= list[k].revision <= n)
    && (forall rev :: 1 <= rev <= n ==> Listed(list, rev))
  }

  ghost predicate Listed(list: seq<Release>, rev: int) {
    exists k :: 0 <= k < |list| && list[k].revision == rev
  }

  lemma {:induction false} CountsDownAt(list: seq<Release>, n: int, k: nat)
    requires CountsDown(list, n) && k < |list|
    ensures list[k].revision == n - k
  {
    if k == 0 {
    } else {
      CountsDownAt(list, n, k - 1);
      assert list[k].revision <= n - k;
    }
    assert n - k >= 1;
    assert Listed(list, n - k);
    var j :| 0 <= j < |list| && list[j].revision == n - k;
    assert j >= k;
  }

  lemma ListingCountsDown(rows: Rows, app: string, list: seq<Release>)
    requires Ledger(rows) && IsListing(rows, app, list)
    ensures CountsDown(list, NextRevision(list) - 1)
  {
    RevisionsAreDense(rows, app, list);
    forall rev | 1 <= rev < NextRevision(list) ensures Listed(list, rev) {
      assert HasRevision(rows, app, rev);
      var id :| id in rows && rows[id].appID == app && rows[id].revision == rev;
      var m :| 0 <= m < |list| && list[m] == rows[id];
    }
    forall m | 0 <= m < |list| ensures list[m].revision >= 1 {
      assert rows[list[m].id] == list[m];
    }
    forall i, m | 0 <= i < m < |list| ensures list[i].revision > list[m].revision {
      assert rows[list[i].id] == list[i] && rows[list[m].id] == list[m];
    }
  }

  /** In a ledger the k-th entry of a listing is revision n-k. */
  lemma ListingRevisions(rows: Rows, app: string, list: seq<Release>, k: nat)
    requires Ledger(rows) && IsListing(rows, app, list) && k < |list|
    ensures list[k].revision == NextRevision(list) - 1 - k
  {
    ListingCountsDown(rows, app, list);
    CountsDownAt(list, NextRevision(list) - 1, k);
  }

  /** The default target is an earlier revision exactly when the newest release is active; a newest release
      that has failed is its own rollback target. */
  lemma DefaultRollbackTarget(rows: Rows, app: string, list: seq<Release>)
    requires Ledger(rows) && IsListing(rows, app, list) && list != []
    ensures var target := PickRollbackTarget(list, 0);
            && (list[0].status == Active ==>
                  if |list| == 1 then target == None
                  else target.Some? && target.value.revision == NextRevision(list) - 2)
            && (list[0].status != Active ==> target.Some? && target.value.revision == NextRevision(list) - 1)
  {
    ListingRevisions(rows, app, list, 0);
    assert rows[list[0].id] == list[0];
    if |list| > 1 {
      ListingRevisions(rows, app, list, 1);
      assert rows[list[1].id] == list[1];
      assert HasRevision(rows, app, list[1].revision + 1);
      assert list[1..][0] == list[1];
    }
  }

  /** An explicit target is found exactly when the revision exists, and it is that revision's row. */
  lemma {:induction false} ExplicitRollbackTarget(rows: Rows, app: string, list: seq<Release>, revision: int)
    requires revision > 0 && forall r :: r in list ==> r.id in rows && rows[r.id] == r
    ensures var target := PickRollbackTarget(list, revision);
            && (target.Some? ==> target.value in list && target.value.revision == revision)
            && (target.None? <==> forall r :: r in list ==> r.revision != revision)
  {
    if list == [] || list[0].revision == revision {
    } else {
      ExplicitRollbackTarget(rows, app, list[1..], revision);
      assert list == [list[0]] + list[1..];
    }
  }
}

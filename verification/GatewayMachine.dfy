/** The shard pool under concurrent control-plane replicas. Every API call of an attach, a detach or a
    wildcard merge is one step; a Gateway update succeeds only if its version is the one that was read. */
module GatewayMachine {
  import opened Prelude
  import opened GatewayShard

  /** One call of EnsureGatewayListener: what to add, how long the insertion log was when it began,
      and how many merges have already reported a full shard. */
  datatype Attach = Attach(l: Listener, start: nat, attempt: nat)

  /** What the last pool read saw on the chosen shard, leaving out the host's own listener. */
  datatype Seen = Seen(mark: nat, custom: nat, total: nat)

  datatype Proc =
    | Idle
    | Lookup(job: Attach)
    | Allocate(job: Attach)
    | Creating(job: Attach, shard: nat, seen: Seen)
    | Merging(job: Attach, shard: nat, seen: Seen)
    | Writing(job: Attach, shard: nat, seen: Seen, read: seq<Listener>, version: nat)
    | GaveUp(start: nat)
    | Finding(name: string)
    | Removing(name: string, shard: nat, emptied: bool)
    | Shrinking(name: string, shard: nat, read: seq<Listener>, version: nat)
    | Collecting(shard: nat)
    | OrgReading(specs: seq<Listener>)
    | OrgWriting(specs: seq<Listener>, read: seq<Listener>, version: nat)

  datatype Insertion = Insertion(who: nat, shard: nat)

  /** The cluster: the Gateways, their versions, and a record of every listener ever inserted,
      which no step reads. */
  datatype Shared = Shared(pool: Pool, version: map<nat, nat>, clock: nat, log: seq<Insertion>)

  datatype State = State(sh: Shared, procs: map<nat, Proc>)

  datatype Action =
    | BeginAttach(p: nat, host: string, cert: string)
    | LookupHit(p: nat, shard: nat)
    | LookupMiss(p: nat)
    | Pick(p: nat, shard: nat)
    | CreateShard(p: nat)
    | GetForMerge(p: nat)
    | UpdateMerge(p: nat)
    | BeginDetach(p: nat, host: string)
    | FindHit(p: nat, shard: nat)
    | GetForRemove(p: nat)
    | UpdateRemove(p: nat)
    | DeleteEmptied(p: nat)
    | BeginOrg(p: nat, specs: seq<Listener>)
    | GetForOrg(p: nat)
    | UpdateOrg(p: nat)
    | Abandon(p: nat)

  function ProcOf(s: State, p: nat): Proc {
    if p in s.procs then s.procs[p] else Idle
  }

  function Put(s: State, p: nat, proc: Proc): State {
    State(s.sh, s.procs[p := proc])
  }

  /** A successful write of one Gateway: new listeners under a fresh version. */
  function Write(sh: Shared, shard: nat, ls: seq<Listener>, added: seq<Insertion>): Shared {
    Shared(sh.pool[shard := ls], sh.version[shard := sh.clock], sh.clock + 1, sh.log + added)
  }

  function VersionOf(sh: Shared, shard: nat): nat {
    if shard in sh.version then sh.version[shard] else 0
  }

  function See(sh: Shared, shard: nat, name: string): Seen {
    var rest := if shard in sh.pool then Without(sh.pool[shard], name) else [];
    Seen(|sh.log|, CustomCount(rest), |rest|)
  }

  // ---- the steps; an action whose process is not at that point leaves the state alone ----

  ghost function Step(cfg: int, s: State, a: Action): State {
    var proc, pool := ProcOf(s, a.p), s.sh.pool;
    match a
    case BeginAttach(p, host, cert) =>
      if proc.Idle? then Put(s, p, Lookup(Attach(DomainListener(host, cert), |s.sh.log|, 0))) else s
    case LookupHit(p, shard) =>
      if proc.Lookup? && Holds(pool, shard, proc.job.l.name)
      then Put(s, p, Merging(proc.job, shard, See(s.sh, shard, proc.job.l.name))) else s
    case LookupMiss(p) =>
      if proc.Lookup? && forall i :: i in pool ==> !Holds(pool, i, proc.job.l.name)
      then Put(s, p, Allocate(proc.job)) else s
    case Pick(p, shard) =>
      if proc.Allocate? && IsFirstFit(cfg, pool, shard) then
        var seen := See(s.sh, shard, proc.job.l.name);
        Put(s, p, if shard in pool || pool == map[] then Merging(proc.job, shard, seen)
                  else Creating(proc.job, shard, seen))
      else s
    case CreateShard(p) => if proc.Creating? then Create(s, p, proc) else s
    case GetForMerge(p) => if proc.Merging? then MergeRead(cfg, s, p, proc) else s
    case UpdateMerge(p) => if proc.Writing? then MergeWrite(s, p, proc) else s
    case BeginDetach(p, host) =>
      if proc.Idle? then Put(s, p, Finding(DomainListenerName(host))) else s
    case FindHit(p, shard) =>
      if proc.Finding? && Holds(pool, shard, proc.name) then Put(s, p, Removing(proc.name, shard, false)) else s
    case GetForRemove(p) =>
      if proc.Removing? then
        if Holds(pool, proc.shard, proc.name)
        then Put(s, p, Shrinking(proc.name, proc.shard, pool[proc.shard], VersionOf(s.sh, proc.shard)))
        else Put(s, p, if proc.emptied then Collecting(proc.shard) else Idle)
      else s
    case UpdateRemove(p) => if proc.Shrinking? then RemoveWrite(s, p, proc) else s
    case DeleteEmptied(p) =>
      if proc.Collecting? then State(s.sh.(pool := pool - {proc.shard}), s.procs[p := Idle]) else s
    case BeginOrg(p, specs) =>
      if proc.Idle? && AllOrg(specs) then Put(s, p, OrgReading(specs)) else s
    case GetForOrg(p) =>
      if proc.OrgReading? then
        if 0 in pool then Put(s, p, OrgWriting(proc.specs, pool[0], VersionOf(s.sh, 0))) else Put(s, p, Idle)
      else s
    case UpdateOrg(p) => if proc.OrgWriting? then OrgWrite(s, p, proc) else s
    case Abandon(p) => Put(s, p, Idle)
  }

  predicate AllOrg(specs: seq<Listener>) {
    forall i :: 0 <= i < |specs| ==> IsOrg(specs[i])
  }

  /** A new shard is cloned from the primary, which must exist; an existing shard is left alone. */
  function Create(s: State, p: nat, proc: Proc): State
    requires proc.Creating?
  {
    if 0 !in s.sh.pool then Put(s, p, Idle)
    else
      var made := if proc.shard in s.sh.pool then s.sh else Write(s.sh, proc.shard, [], []);
      State(made, s.procs[p := Merging(proc.job, proc.shard, proc.seen)])
  }

  /** Read the chosen Gateway: gone, already holding the host, full, or a listener list to extend. */
  function MergeRead(cfg: int, s: State, p: nat, proc: Proc): State
    requires proc.Merging?
  {
    var job, pool := proc.job, s.sh.pool;
    if proc.shard !in pool || Has(pool[proc.shard], job.l.name) then Put(s, p, Idle)
    else if Free(cfg, proc.shard, pool[proc.shard]) == 0 then
      if job.attempt + 1 == MAX_ATTEMPTS then Put(s, p, GaveUp(job.start))
      else Put(s, p, Lookup(job.(attempt := job.attempt + 1)))
    else Put(s, p, Writing(job, proc.shard, proc.seen, pool[proc.shard], VersionOf(s.sh, proc.shard)))
  }

  function MergeWrite(s: State, p: nat, proc: Proc): State
    requires proc.Writing?
  {
    if proc.shard !in s.sh.pool then Put(s, p, Idle)
    else if VersionOf(s.sh, proc.shard) != proc.version then Put(s, p, Merging(proc.job, proc.shard, proc.seen))
    else State(Write(s.sh, proc.shard, proc.read + [proc.job.l], [Insertion(p, proc.shard)]), s.procs[p := Idle])
  }

  /** Emptying an overflow shard is followed by its deletion, as a separate call. After a conflict the shard is read
      again, and the verdict that it would be emptied is kept until another write is prepared. */
  function RemoveWrite(s: State, p: nat, proc: Proc): State
    requires proc.Shrinking?
  {
    var rest := Without(proc.read, proc.name);
    var emptied := proc.shard > 0 && rest == [];
    if proc.shard !in s.sh.pool then Put(s, p, Idle)
    else if VersionOf(s.sh, proc.shard) != proc.version then Put(s, p, Removing(proc.name, proc.shard, emptied))
    else State(Write(s.sh, proc.shard, rest, []),
               s.procs[p := if emptied then Collecting(proc.shard) else Idle])
  }

  /** One log entry per listener a wildcard merge added to the primary. */
  function Entries(p: nat, n: int): (entries: seq<Insertion>)
    ensures forall k :: 0 <= k < |entries| ==> entries[k] == Insertion(p, 0)
    ensures |entries| == if n < 0 then 0 else n
  {
    if n <= 0 then [] else Entries(p, n - 1) + [Insertion(p, 0)]
  }

  function OrgWrite(s: State, p: nat, proc: Proc): State
    requires proc.OrgWriting?
  {
    match MergeSpecs(proc.read, proc.specs)
    case None => Put(s, p, Idle)
    case Some(r) =>
      if r == proc.read || 0 !in s.sh.pool then Put(s, p, Idle)
      else if VersionOf(s.sh, 0) != proc.version then Put(s, p, OrgReading(proc.specs))
      else
        State(Write(s.sh, 0, r, Entries(p, |r| - |proc.read|)), s.procs[p := Idle])
  }

  ghost function Run(cfg: int, s: State, acts: seq<Action>): State
    decreases |acts|
  {
    if acts == [] then s else Run(cfg, Step(cfg, s, acts[0]), acts[1..])
  }

  ghost predicate OthersUntouched(s: State, s': State, p: nat) {
    forall q :: q != p ==> ProcOf(s', q) == ProcOf(s, q)
  }

  // ---- invariant ----

  ghost predicate GatewayOk(cfg: int, idx: nat, ls: seq<Listener>) {
    |ls| <= MAX_LISTENERS && CustomCount(ls) <= CustomLimit(cfg, idx)
  }

  ghost predicate PoolOk(cfg: int, sh: Shared) {
    && (forall i :: i in sh.pool ==> GatewayOk(cfg, i, sh.pool[i]))
    && (forall i :: i in sh.version ==> sh.version[i] < sh.clock)
    && sh.clock > 0
  }

  /** Nothing was inserted into the shard since the log had length `mark`. */
  ghost predicate Quiet(log: seq<Insertion>, mark: nat, shard: nat) {
    forall k :: mark <= k < |log| ==> log[k].shard != shard
  }

  ghost predicate OthersSince(log: seq<Insertion>, start: nat, p: nat) {
    start <= |log| && forall k :: start <= k < |log| ==> log[k].who != p
  }

  /** As long as the shard stays quiet, it keeps the room that made the allocator choose it. */
  ghost predicate RoomOk(cfg: int, sh: Shared, shard: nat, seen: Seen, name: string) {
    && (Capacity(cfg, shard, seen.custom, seen.total) > 0 || (shard == 0 && 0 !in sh.pool))
    && (shard in sh.pool && Quiet(sh.log, seen.mark, shard) ==>
          && |Without(sh.pool[shard], name)| <= seen.total
          && CustomCount(Without(sh.pool[shard], name)) <= seen.custom)
  }

  ghost predicate JobOk(sh: Shared, p: nat, job: Attach, mark: nat) {
    && IsCustom(job.l)
    && job.attempt < MAX_ATTEMPTS
    && OthersSince(sh.log, job.start, p)
    && job.start + job.attempt <= mark <= |sh.log|
  }

  /** A pending write is based on what the Gateway still holds, unless its version has moved on. */
  ghost predicate ReadOk(sh: Shared, shard: nat, read: seq<Listener>, version: nat) {
    version < sh.clock && (shard in sh.pool && VersionOf(sh, shard) == version ==> sh.pool[shard] == read)
  }

  ghost predicate ProcOk(cfg: int, sh: Shared, p: nat, proc: Proc) {
    match proc
    case Lookup(job) => JobOk(sh, p, job, |sh.log|)
    case Allocate(job) => JobOk(sh, p, job, |sh.log|)
    case Creating(job, shard, seen) =>
      shard > 0 && JobOk(sh, p, job, seen.mark) && RoomOk(cfg, sh, shard, seen, job.l.name)
    case Merging(job, shard, seen) =>
      JobOk(sh, p, job, seen.mark) && RoomOk(cfg, sh, shard, seen, job.l.name)
    case Writing(job, shard, seen, read, version) =>
      && JobOk(sh, p, job, seen.mark) && RoomOk(cfg, sh, shard, seen, job.l.name)
      && ReadOk(sh, shard, read, version)
      && !Has(read, job.l.name) && Free(cfg, shard, read) > 0
    case GaveUp(start) => OthersSince(sh.log, start, p) && start + MAX_ATTEMPTS <= |sh.log|
    case Finding(name) => "d-" <= name
    case Removing(name, _, _) => "d-" <= name
    case Shrinking(name, shard, read, version) => "d-" <= name && ReadOk(sh, shard, read, version)
    case OrgReading(specs) => AllOrg(specs)
    case OrgWriting(specs, read, version) => AllOrg(specs) && ReadOk(sh, 0, read, version)
    case _ => true
  }

  ghost predicate Inv(cfg: int, s: State) {
    PoolOk(cfg, s.sh) && forall p :: p in s.procs ==> ProcOk(cfg, s.sh, p, s.procs[p])
  }

  // ---- what one step may do to the cluster ----

  ghost predicate NewBy(log: seq<Insertion>, log': seq<Insertion>, p: nat) {
    log <= log' && forall k :: |log| <= k < |log'| ==> log'[k].who == p
  }

  /** Whatever name is left aside, the new list counts no more listeners than the old one. */
  ghost predicate NoLarger(ls': seq<Listener>, ls: seq<Listener>) {
    forall name :: |Without(ls', name)| <= |Without(ls, name)|
                   && CustomCount(Without(ls', name)) <= CustomCount(Without(ls, name))
  }

  /** A shard received an insertion, or it is new and empty, or it holds no more than before. */
  ghost predicate ShrinksOrLogged(sh: Shared, sh': Shared, i: nat)
    requires i in sh'.pool
  {
    || !Quiet(sh'.log, |sh.log|, i)
    || sh'.pool[i] == []
    || (i in sh.pool && (sh'.pool[i] == sh.pool[i] || NoLarger(sh'.pool[i], sh.pool[i])))
  }

  ghost predicate Evolves(sh: Shared, sh': Shared, p: nat) {
    && sh.clock <= sh'.clock
    && NewBy(sh.log, sh'.log, p)
    && (0 !in sh.pool ==> 0 !in sh'.pool)
    && (forall i :: i in sh'.pool ==>
          || (i in sh.pool && sh'.pool[i] == sh.pool[i] && VersionOf(sh', i) == VersionOf(sh, i))
          || VersionOf(sh', i) >= sh.clock)
    && (forall i :: i in sh'.pool ==> ShrinksOrLogged(sh, sh', i))
  }

  lemma RoomKept(cfg: int, sh: Shared, sh': Shared, p: nat, shard: nat, seen: Seen, name: string)
    requires Evolves(sh, sh', p) && seen.mark <= |sh.log| && RoomOk(cfg, sh, shard, seen, name)
    ensures RoomOk(cfg, sh', shard, seen, name)
  {
    if shard in sh'.pool && Quiet(sh'.log, seen.mark, shard) {
      assert ShrinksOrLogged(sh, sh', shard);
      forall k | seen.mark <= k < |sh.log| ensures sh.log[k].shard != shard {
        assert sh'.log[k] == sh.log[k];
      }
    }
  }

  lemma OthersKept(sh: Shared, sh': Shared, p: nat, q: nat, start: nat)
    requires Evolves(sh, sh', p) && p != q && OthersSince(sh.log, start, q)
    ensures OthersSince(sh'.log, start, q)
  {
    forall k | start <= k < |sh'.log| ensures sh'.log[k].who != q {
      if k < |sh.log| {
        assert sh'.log[k] == sh.log[k];
      }
    }
  }

  /** A step of p leaves every other process in a good state. */
  lemma OtherProcKept(cfg: int, sh: Shared, sh': Shared, p: nat, q: nat, proc: Proc)
    requires Evolves(sh, sh', p) && p != q && ProcOk(cfg, sh, q, proc)
    ensures ProcOk(cfg, sh', q, proc)
  {
    match proc
    case Lookup(job) => OthersKept(sh, sh', p, q, job.start);
    case Allocate(job) => OthersKept(sh, sh', p, q, job.start);
    case Creating(job, shard, seen) =>
      OthersKept(sh, sh', p, q, job.start);
      RoomKept(cfg, sh, sh', p, shard, seen, job.l.name);
    case Merging(job, shard, seen) =>
      OthersKept(sh, sh', p, q, job.start);
      RoomKept(cfg, sh, sh', p, shard, seen, job.l.name);
    case Writing(job, shard, seen, read, version) =>
      OthersKept(sh, sh', p, q, job.start);
      RoomKept(cfg, sh, sh', p, shard, seen, job.l.name);
    case GaveUp(start) => OthersKept(sh, sh', p, q, start);
    case _ =>
  }

  /** What has to be shown about a step of p itself. */
  ghost predicate Good(cfg: int, s: State, s': State, p: nat) {
    && Evolves(s.sh, s'.sh, p)
    && PoolOk(cfg, s'.sh)
    && s'.procs.Keys <= s.procs.Keys + {p}
    && (forall q :: q in s'.procs && q != p ==> q in s.procs && s'.procs[q] == s.procs[q])
    && (p in s'.procs ==> ProcOk(cfg, s'.sh, p, s'.procs[p]))
  }

  lemma LocalGood(cfg: int, s: State, p: nat, proc: Proc)
    requires Inv(cfg, s) && ProcOk(cfg, s.sh, p, proc)
    ensures Good(cfg, s, Put(s, p, proc), p)
  {
  }

  lemma SeeIsRoom(cfg: int, sh: Shared, shard: nat, name: string)
    requires PoolOk(cfg, sh) && "d-" <= name
    requires Holds(sh.pool, shard, name) || IsFirstFit(cfg, sh.pool, shard)
    ensures RoomOk(cfg, sh, shard, See(sh, shard, name), name)
  {
    if shard in sh.pool {
      WithoutCounts(sh.pool[shard], name);
    }
  }

  /** A merge that finds its shard full: somebody else inserted a listener there after the pool was read. */
  lemma FullIsCharged(cfg: int, s: State, p: nat)
    requires Inv(cfg, s) && ProcOf(s, p).Merging?
    requires var proc := ProcOf(s, p);
             && proc.shard in s.sh.pool
             && !Has(s.sh.pool[proc.shard], proc.job.l.name)
             && Free(cfg, proc.shard, s.sh.pool[proc.shard]) == 0
    ensures var proc := ProcOf(s, p);
            exists k :: proc.seen.mark <= k < |s.sh.log| && s.sh.log[k].shard == proc.shard && s.sh.log[k].who != p
  {
    var proc := ProcOf(s, p);
    assert ProcOk(cfg, s.sh, p, proc);
    WithoutAbsent(s.sh.pool[proc.shard], proc.job.l.name);
    assert !Quiet(s.sh.log, proc.seen.mark, proc.shard);
  }

  lemma MergeReadGood(cfg: int, s: State, p: nat)
    requires Inv(cfg, s) && ProcOf(s, p).Merging?
    ensures Good(cfg, s, MergeRead(cfg, s, p, ProcOf(s, p)), p)
  {
    var proc := ProcOf(s, p);
    var s' := MergeRead(cfg, s, p, proc);
    if && proc.shard in s.sh.pool && !Has(s.sh.pool[proc.shard], proc.job.l.name)
       && Free(cfg, proc.shard, s.sh.pool[proc.shard]) == 0 {
      FullIsCharged(cfg, s, p);
    }
    LocalGood(cfg, s, p, s'.procs[p]);
  }

  lemma CreateGood(cfg: int, s: State, p: nat)
    requires Inv(cfg, s) && ProcOf(s, p).Creating?
    ensures Good(cfg, s, Create(s, p, ProcOf(s, p)), p)
  {
    var proc := ProcOf(s, p);
    if 0 in s.sh.pool {
      var s' := Create(s, p, proc);
      assert Evolves(s.sh, s'.sh, p);
      RoomKept(cfg, s.sh, s'.sh, p, proc.shard, proc.seen, proc.job.l.name);
    }
  }

  /** One Gateway is written, and the log records it unless the Gateway holds no more than before. */
  lemma WriteGood(cfg: int, s: State, p: nat, shard: nat, ls: seq<Listener>, added: seq<Insertion>, proc: Proc)
    requires Inv(cfg, s) && shard in s.sh.pool && GatewayOk(cfg, shard, ls)
    requires forall k :: 0 <= k < |added| ==> added[k] == Insertion(p, shard)
    requires added != [] || NoLarger(ls, s.sh.pool[shard])
    requires proc.Idle? || proc.Collecting?
    ensures Good(cfg, s, State(Write(s.sh, shard, ls, added), s.procs[p := proc]), p)
  {
    var sh' := Write(s.sh, shard, ls, added);
    if added != [] {
      assert sh'.log[|s.sh.log|] == added[0];
    }
    assert ShrinksOrLogged(s.sh, sh', shard);
  }

  lemma MergeWriteGood(cfg: int, s: State, p: nat)
    requires Inv(cfg, s) && ProcOf(s, p).Writing?
    ensures Good(cfg, s, MergeWrite(s, p, ProcOf(s, p)), p)
  {
    var proc := ProcOf(s, p);
    assert ProcOk(cfg, s.sh, p, proc);
    if proc.shard in s.sh.pool && VersionOf(s.sh, proc.shard) == proc.version {
      CustomCountAppend(proc.read, proc.job.l);
      WriteGood(cfg, s, p, proc.shard, proc.read + [proc.job.l], [Insertion(p, proc.shard)], Idle);
    } else {
      LocalGood(cfg, s, p, MergeWrite(s, p, proc).procs[p]);
    }
  }

  lemma RemovalIsNoLarger(ls: seq<Listener>, name: string)
    ensures NoLarger(Without(ls, name), ls)
  {
    forall other
      ensures |Without(Without(ls, name), other)| <= |Without(ls, other)|
              && CustomCount(Without(Without(ls, name), other)) <= CustomCount(Without(ls, other))
    {
      WithoutTwice(ls, name, other);
    }
  }

  lemma RemoveWriteGood(cfg: int, s: State, p: nat)
    requires Inv(cfg, s) && ProcOf(s, p).Shrinking?
    ensures Good(cfg, s, RemoveWrite(s, p, ProcOf(s, p)), p)
  {
    var proc := ProcOf(s, p);
    var proc' := RemoveWrite(s, p, proc).procs[p];
    assert ProcOk(cfg, s.sh, p, proc);
    if proc.shard in s.sh.pool && VersionOf(s.sh, proc.shard) == proc.version {
      WithoutCounts(proc.read, proc.name);
      RemovalIsNoLarger(proc.read, proc.name);
      WriteGood(cfg, s, p, proc.shard, Without(proc.read, proc.name), [], proc');
    } else {
      LocalGood(cfg, s, p, proc');
    }
  }

  lemma OrgWriteGood(cfg: int, s: State, p: nat)
    requires Inv(cfg, s) && ProcOf(s, p).OrgWriting?
    ensures Good(cfg, s, OrgWrite(s, p, ProcOf(s, p)), p)
  {
    var proc := ProcOf(s, p);
    var s' := OrgWrite(s, p, proc);
    assert ProcOk(cfg, s.sh, p, proc);
    if s'.sh == s.sh {
      LocalGood(cfg, s, p, s'.procs[p]);
    } else {
      MergeSpecsBounds(proc.read, proc.specs);
      var r := MergeSpecs(proc.read, proc.specs).value;
      assert 0 in s.sh.pool && s.sh.pool[0] == proc.read && GatewayOk(cfg, 0, r) && |r| > |proc.read|;
      WriteGood(cfg, s, p, 0, r, Entries(p, |r| - |proc.read|), Idle);
    }
  }

  /** The steps that read the pool or nothing at all move only their own process. */
  predicate MovesOnly(a: Action) {
    match a
    case CreateShard(_) => false
    case GetForMerge(_) => false
    case UpdateMerge(_) => false
    case UpdateRemove(_) => false
    case DeleteEmptied(_) => false
    case UpdateOrg(_) => false
    case _ => true
  }

  /** A step that puts its own process somewhere good, and does nothing else, is good. */
  lemma PutGood(cfg: int, s: State, s': State, p: nat)
    requires Inv(cfg, s)
    requires s' == s || (p in s'.procs && s' == Put(s, p, s'.procs[p]) && ProcOk(cfg, s.sh, p, s'.procs[p]))
    ensures Good(cfg, s, s', p)
  {
    if s' != s { LocalGood(cfg, s, p, s'.procs[p]); }
  }

  lemma LookupGood(cfg: int, s: State, a: Action)
    requires Inv(cfg, s) && (a.BeginAttach? || a.LookupHit? || a.LookupMiss? || a.Pick?)
    ensures Good(cfg, s, Step(cfg, s, a), a.p)
  {
    var proc := ProcOf(s, a.p);
    assert proc.Lookup? || proc.Allocate? ==> ProcOk(cfg, s.sh, a.p, proc);
    match a {
      case LookupHit(p, shard) =>
        if proc.Lookup? && Holds(s.sh.pool, shard, proc.job.l.name) { SeeIsRoom(cfg, s.sh, shard, proc.job.l.name); }
      case Pick(p, shard) =>
        if proc.Allocate? && IsFirstFit(cfg, s.sh.pool, shard) { SeeIsRoom(cfg, s.sh, shard, proc.job.l.name); }
      case _ =>
    }
    PutGood(cfg, s, Step(cfg, s, a), a.p);
  }

  lemma MovesOnlyGood(cfg: int, s: State, a: Action)
    requires Inv(cfg, s) && MovesOnly(a)
    ensures Good(cfg, s, Step(cfg, s, a), a.p)
  {
    if a.BeginAttach? || a.LookupHit? || a.LookupMiss? || a.Pick? {
      LookupGood(cfg, s, a);
    } else {
      assert ProcOf(s, a.p).Idle? || ProcOk(cfg, s.sh, a.p, ProcOf(s, a.p));
      PutGood(cfg, s, Step(cfg, s, a), a.p);
    }
  }

  lemma DeleteGood(cfg: int, s: State, p: nat)
    requires Inv(cfg, s) && ProcOf(s, p).Collecting?
    ensures Good(cfg, s, Step(cfg, s, DeleteEmptied(p)), p)
  {
    var s' := Step(cfg, s, DeleteEmptied(p));
    forall i | i in s'.sh.pool
      ensures i in s.sh.pool && s'.sh.pool[i] == s.sh.pool[i] && GatewayOk(cfg, i, s'.sh.pool[i])
    {
    }
    assert Evolves(s.sh, s'.sh, p);
  }

  lemma StepGood(cfg: int, s: State, a: Action)
    requires Inv(cfg, s)
    ensures Good(cfg, s, Step(cfg, s, a), a.p)
  {
    if MovesOnly(a) {
      MovesOnlyGood(cfg, s, a);
    } else if Step(cfg, s, a) != s {
      match a
      case CreateShard(p) => CreateGood(cfg, s, p);
      case GetForMerge(p) => MergeReadGood(cfg, s, p);
      case UpdateMerge(p) => MergeWriteGood(cfg, s, p);
      case UpdateRemove(p) => RemoveWriteGood(cfg, s, p);
      case UpdateOrg(p) => OrgWriteGood(cfg, s, p);
      case DeleteEmptied(p) => DeleteGood(cfg, s, p);
    }
  }

  lemma StepKeeps(cfg: int, s: State, a: Action)
    requires Inv(cfg, s)
    ensures Inv(cfg, Step(cfg, s, a))
  {
    var s' := Step(cfg, s, a);
    StepGood(cfg, s, a);
    forall q | q in s'.procs ensures ProcOk(cfg, s'.sh, q, s'.procs[q]) {
      if q != a.p { OtherProcKept(cfg, s.sh, s'.sh, a.p, q, s.procs[q]); }
    }
  }

  lemma {:induction false} RunKeeps(cfg: int, s: State, acts: seq<Action>)
    requires Inv(cfg, s)
    ensures Inv(cfg, Run(cfg, s, acts))
    decreases |acts|
  {
    if acts == [] {
    } else {
      StepKeeps(cfg, s, acts[0]);
      RunKeeps(cfg, Step(cfg, s, acts[0]), acts[1..]);
    }
  }
}

/** When an attached listener stays: which detaches in flight can take it along, and which cannot. */
module GatewayDrops {
  import opened Prelude
  import opened GatewayShard
  import opened GatewayMachine
  import opened GatewayRuns
  import Backend = GatewayBackend
  import Seq = GatewaySequential

  // ---- the threats ----

  /** What can take the listener off shard i without anybody asking for it again: a detach of its host on the way
      there, or a detach of another host with a verdict that the overflow shard is empty. */
  predicate Threat(proc: Proc, i: nat, name: string) {
    match proc
    case Finding(n) => n == name
    case Removing(n, shard, emptied) => shard == i && (n == name || emptied)
    case Shrinking(n, shard, read, _) => shard == i && (n == name || (i > 0 && Without(read, n) == []))
    case Collecting(shard) => shard == i
    case _ => false
  }

  ghost predicate NoThreat(s: State, i: nat, name: string) {
    forall p :: p in s.procs ==> !Threat(s.procs[p], i, name)
  }

  predicate DetachesHost(a: Action, name: string) {
    a.BeginDetach? && DomainListenerName(a.host) == name
  }

  predicate NoDetachOf(acts: seq<Action>, name: string) {
    forall k :: 0 <= k < |acts| ==> !DetachesHost(acts[k], name)
  }

  lemma HasAppend(ls: seq<Listener>, more: seq<Listener>, name: string)
    requires Has(ls, name)
    ensures Has(ls + more, name)
  {
    var k :| 0 <= k < |ls| && ls[k].name == name;
    assert (ls + more)[k].name == name;
  }

  lemma HasWithout(ls: seq<Listener>, gone: string, name: string)
    requires Has(ls, name) && gone != name
    ensures Has(Without(ls, gone), name) && Without(ls, gone) != []
  {
    var k :| 0 <= k < |ls| && ls[k].name == name;
    WithoutMembers(ls, gone);
    assert ls[k] in Without(ls, gone);
    var m :| 0 <= m < |Without(ls, gone)| && Without(ls, gone)[m] == ls[k];
  }

  lemma MergeKeepsHolder(cfg: int, s: State, p: nat, i: nat, name: string)
    requires Inv(cfg, s) && ProcOf(s, p).Writing? && Holds(s.sh.pool, i, name)
    ensures Holds(MergeWrite(s, p, ProcOf(s, p)).sh.pool, i, name)
  {
    var proc := ProcOf(s, p);
    assert ProcOk(cfg, s.sh, p, proc);
    if proc.shard == i { HasAppend(s.sh.pool[i], [proc.job.l], name); }
  }

  lemma WildcardKeepsHolder(cfg: int, s: State, p: nat, i: nat, name: string)
    requires Inv(cfg, s) && ProcOf(s, p).OrgWriting? && Holds(s.sh.pool, i, name)
    ensures Holds(OrgWrite(s, p, ProcOf(s, p)).sh.pool, i, name)
  {
    var proc := ProcOf(s, p);
    assert ProcOk(cfg, s.sh, p, proc);
    if MergeSpecs(proc.read, proc.specs).Some? && i == 0 && VersionOf(s.sh, 0) == proc.version {
      var r := MergeSpecs(proc.read, proc.specs).value;
      MergeSpecsNames(proc.read, proc.specs);
      HasAppend(proc.read, r[|proc.read|..], name);
      assert r == proc.read + r[|proc.read|..];
    }
  }

  lemma RemovalKeepsHolder(cfg: int, s: State, p: nat, i: nat, name: string)
    requires Inv(cfg, s) && ProcOf(s, p).Shrinking? && Holds(s.sh.pool, i, name)
    requires !Threat(ProcOf(s, p), i, name)
    ensures Holds(RemoveWrite(s, p, ProcOf(s, p)).sh.pool, i, name)
  {
    var proc := ProcOf(s, p);
    assert ProcOk(cfg, s.sh, p, proc);
    if proc.shard == i { HasWithout(s.sh.pool[i], proc.name, name); }
  }

  lemma PoolUnmoved(cfg: int, s: State, a: Action)
    requires MovesOnly(a) || a.GetForMerge?
    ensures Step(cfg, s, a).sh == s.sh
  {
  }

  lemma HolderKept(cfg: int, s: State, a: Action, i: nat, name: string)
    requires Inv(cfg, s) && Holds(s.sh.pool, i, name) && NoThreat(s, i, name)
    ensures Holds(Step(cfg, s, a).sh.pool, i, name)
  {
    var proc := ProcOf(s, a.p);
    if MovesOnly(a) || a.GetForMerge? {
      PoolUnmoved(cfg, s, a);
    } else {
      assert !Threat(proc, i, name);
      match a
      case UpdateMerge(p) => if proc.Writing? { MergeKeepsHolder(cfg, s, p, i, name); }
      case UpdateOrg(p) => if proc.OrgWriting? { WildcardKeepsHolder(cfg, s, p, i, name); }
      case UpdateRemove(p) => if proc.Shrinking? { RemovalKeepsHolder(cfg, s, p, i, name); }
      case CreateShard(_) =>
      case DeleteEmptied(_) =>
    }
  }

  /** A process that is neither looking for the host nor removing anything threatens nothing after its step either. */
  lemma HarmlessStep(cfg: int, s: State, a: Action, i: nat, name: string)
    requires !Threat(ProcOf(s, a.p), i, name) && !DetachesHost(a, name)
    requires !a.GetForRemove? && !a.UpdateRemove? && !a.FindHit?
    ensures !Threat(ProcOf(Step(cfg, s, a), a.p), i, name)
  {
  }

  lemma ReadingIsHarmless(cfg: int, s: State, p: nat, i: nat, name: string)
    requires Holds(s.sh.pool, i, name) && !Threat(ProcOf(s, p), i, name)
    ensures !Threat(ProcOf(Step(cfg, s, GetForRemove(p)), p), i, name)
  {
    var proc := ProcOf(s, p);
    if proc.Removing? && Holds(s.sh.pool, proc.shard, proc.name) {
      DetachReads(cfg, s, p);
      if proc.shard == i { HasWithout(s.sh.pool[i], proc.name, name); }
    }
  }

  lemma FindingIsHarmless(cfg: int, s: State, p: nat, shard: nat, i: nat, name: string)
    requires !Threat(ProcOf(s, p), i, name)
    ensures !Threat(ProcOf(Step(cfg, s, FindHit(p, shard)), p), i, name)
  {
  }

  lemma RemovalIsHarmless(cfg: int, s: State, p: nat, i: nat, name: string)
    requires !Threat(ProcOf(s, p), i, name)
    ensures !Threat(ProcOf(Step(cfg, s, UpdateRemove(p)), p), i, name)
  {
  }

  /** No step but the start of a detach of the host brings a threat about. */
  lemma NoNewThreat(cfg: int, s: State, a: Action, i: nat, name: string)
    requires Inv(cfg, s) && Holds(s.sh.pool, i, name) && NoThreat(s, i, name) && !DetachesHost(a, name)
    ensures NoThreat(Step(cfg, s, a), i, name)
  {
    assert !Threat(ProcOf(s, a.p), i, name);
    if a.GetForRemove? {
      ReadingIsHarmless(cfg, s, a.p, i, name);
    } else if a.FindHit? {
      FindingIsHarmless(cfg, s, a.p, a.shard, i, name);
    } else if a.UpdateRemove? {
      RemovalIsHarmless(cfg, s, a.p, i, name);
    } else {
      HarmlessStep(cfg, s, a, i, name);
    }
    OwnThreatOnly(cfg, s, a, i, name);
  }

  lemma OwnThreatOnly(cfg: int, s: State, a: Action, i: nat, name: string)
    requires Inv(cfg, s) && NoThreat(s, i, name) && !Threat(ProcOf(Step(cfg, s, a), a.p), i, name)
    ensures NoThreat(Step(cfg, s, a), i, name)
  {
    StepGood(cfg, s, a);
    var s' := Step(cfg, s, a);
    forall p | p in s'.procs ensures !Threat(s'.procs[p], i, name) {
      if p != a.p { assert s'.procs[p] == s.procs[p]; }
    }
  }

  /** Without a threat an attached listener stays where it is, through every run in which nobody begins to detach its
      host, whatever else is attached, detached, collected or merged. */
  lemma {:induction false} AttachedStays(cfg: int, s: State, acts: seq<Action>, i: nat, name: string)
    requires Inv(cfg, s) && Holds(s.sh.pool, i, name) && NoThreat(s, i, name) && NoDetachOf(acts, name)
    ensures Holds(Run(cfg, s, acts).sh.pool, i, name)
    decreases |acts|
  {
    if acts == [] {
    } else {
      assert !DetachesHost(acts[0], name);
      HolderKept(cfg, s, acts[0], i, name);
      NoNewThreat(cfg, s, acts[0], i, name);
      StepKeeps(cfg, s, acts[0]);
      AttachedStays(cfg, Step(cfg, s, acts[0]), acts[1..], i, name);
    }
  }

  // ---- every threat can come true ----

  ghost predicate Drops(cfg: int, s: State, acts: seq<Action>, i: nat, name: string) {
    NoDetachOf(acts, name) && !Holds(Run(cfg, s, acts).sh.pool, i, name)
  }

  lemma CollectingDrops(cfg: int, s: State, p: nat, i: nat, name: string)
    requires ProcOf(s, p) == Collecting(i)
    ensures Drops(cfg, s, [DeleteEmptied(p)], i, name)
  {
    assert [DeleteEmptied(p)] == [DeleteEmptied(p)] + [];
    RunCons(cfg, s, DeleteEmptied(p), []);
  }

  /** One more call before a run that drops the listener. */
  lemma DropsLater(cfg: int, s: State, a: Action, acts: seq<Action>, i: nat, name: string)
    requires Drops(cfg, Step(cfg, s, a), acts, i, name) && !DetachesHost(a, name)
    ensures Drops(cfg, s, [a] + acts, i, name)
  {
    RunCons(cfg, s, a, acts);
  }

  lemma ShrinkingOwnDrops(cfg: int, s: State, p: nat, i: nat, name: string) returns (acts: seq<Action>)
    requires Inv(cfg, s) && Holds(s.sh.pool, i, name)
    requires var proc := ProcOf(s, p); proc.Shrinking? && proc.shard == i && proc.name == name
    ensures Drops(cfg, s, acts, i, name)
  {
    var proc := ProcOf(s, p);
    var s1 := Step(cfg, s, UpdateRemove(p));
    if VersionOf(s.sh, i) == proc.version {
      WithoutMembers(proc.read, name);
      acts := [UpdateRemove(p)] + [];
      RunCons(cfg, s, UpdateRemove(p), []);
      assert !Holds(s1.sh.pool, i, name);
    } else {
      StepKeeps(cfg, s, UpdateRemove(p));
      assert s1.sh == s.sh && ProcOf(s1, p).Removing?;
      var rest := RemovingOwnDrops(cfg, s1, p, i, name);
      acts := [UpdateRemove(p)] + rest;
      DropsLater(cfg, s, UpdateRemove(p), rest, i, name);
    }
  }

  lemma RemovingOwnDrops(cfg: int, s: State, p: nat, i: nat, name: string) returns (acts: seq<Action>)
    requires Inv(cfg, s) && Holds(s.sh.pool, i, name)
    requires var proc := ProcOf(s, p); proc.Removing? && proc.shard == i && proc.name == name
    ensures Drops(cfg, s, acts, i, name)
  {
    var s1 := Step(cfg, s, GetForRemove(p));
    assert s1.sh == s.sh && s1.procs[p] == Shrinking(name, i, s.sh.pool[i], VersionOf(s.sh, i));
    var s2 := Step(cfg, s1, UpdateRemove(p));
    WithoutMembers(s.sh.pool[i], name);
    assert !Holds(s2.sh.pool, i, name);
    assert Run(cfg, s2, []) == s2;
    DropsLater(cfg, s1, UpdateRemove(p), [], i, name);
    DropsLater(cfg, s, GetForRemove(p), [UpdateRemove(p)] + [], i, name);
    acts := [GetForRemove(p)] + ([UpdateRemove(p)] + []);
  }

  lemma FindingDrops(cfg: int, s: State, p: nat, i: nat, name: string) returns (acts: seq<Action>)
    requires Inv(cfg, s) && Holds(s.sh.pool, i, name) && ProcOf(s, p) == Finding(name)
    ensures Drops(cfg, s, acts, i, name)
  {
    var s1 := Step(cfg, s, FindHit(p, i));
    StepKeeps(cfg, s, FindHit(p, i));
    assert s1.sh == s.sh && s1.procs[p] == Removing(name, i, false);
    var rest := RemovingOwnDrops(cfg, s1, p, i, name);
    acts := [FindHit(p, i)] + rest;
    DropsLater(cfg, s, FindHit(p, i), rest, i, name);
  }

  /** A verdict whose listener is gone is carried out. */
  lemma VerdictDrops(cfg: int, s: State, p: nat, i: nat, name: string)
    requires ProcOf(s, p).Removing? && ProcOf(s, p).emptied && ProcOf(s, p).shard == i
    requires !Holds(s.sh.pool, i, ProcOf(s, p).name)
    ensures Drops(cfg, s, [GetForRemove(p)] + [DeleteEmptied(p)], i, name)
  {
    var s1 := Step(cfg, s, GetForRemove(p));
    assert ProcOf(s1, p) == Collecting(i);
    CollectingDrops(cfg, s1, p, i, name);
    DropsLater(cfg, s, GetForRemove(p), [DeleteEmptied(p)], i, name);
  }

  /** Another process removes a host's listener from a shard that also holds others. */
  lemma OtherRemoves(cfg: int, s: State, q: nat, i: nat, host: string, name: string)
    requires q !in s.procs && Holds(s.sh.pool, i, DomainListenerName(host)) && Holds(s.sh.pool, i, name)
    requires DomainListenerName(host) != name
    ensures var s' := Run(cfg, s, [BeginDetach(q, host), FindHit(q, i), GetForRemove(q)] + [UpdateRemove(q)]);
            && !Holds(s'.sh.pool, i, DomainListenerName(host))
            && forall p :: p in s.procs ==> p in s'.procs && s'.procs[p] == s.procs[p]
  {
    var n := DomainListenerName(host);
    RunPair(cfg, s, [BeginDetach(q, host), FindHit(q, i), GetForRemove(q)], [UpdateRemove(q)]);
    DetachRun(cfg, s, q, host, i);
    var s3 := Put(s, q, Shrinking(n, i, s.sh.pool[i], VersionOf(s.sh, i)));
    assert [UpdateRemove(q)] == [UpdateRemove(q)] + [];
    RunCons(cfg, s3, UpdateRemove(q), []);
    HasWithout(s.sh.pool[i], n, name);
    WithoutMembers(s.sh.pool[i], n);
    RemovesOne(cfg, s3, q);
  }

  lemma RemovesOne(cfg: int, s: State, q: nat)
    requires var proc := ProcOf(s, q);
             && proc.Shrinking? && proc.shard in s.sh.pool && VersionOf(s.sh, proc.shard) == proc.version
             && Without(proc.read, proc.name) != []
    ensures var proc := ProcOf(s, q);
            var s' := Step(cfg, s, UpdateRemove(q));
            && s'.sh.pool == s.sh.pool[proc.shard := Without(proc.read, proc.name)] && s'.procs == s.procs[q := Idle]
            && VersionOf(s'.sh, proc.shard) == s.sh.clock
  {
  }

  /** A verdict comes true in some run even if its listener is still there: a second detach takes that one off. */
  lemma StandingVerdictDrops(cfg: int, s: State, p: nat, i: nat, name: string) returns (acts: seq<Action>)
    requires Inv(cfg, s) && p in s.procs && Holds(s.sh.pool, i, name)
    requires var proc := ProcOf(s, p); proc.Removing? && proc.shard == i && proc.emptied && proc.name != name
    ensures Drops(cfg, s, acts, i, name)
  {
    var proc := ProcOf(s, p);
    assert ProcOk(cfg, s.sh, p, proc);
    if !Holds(s.sh.pool, i, proc.name) {
      VerdictDrops(cfg, s, p, i, name);
      return [GetForRemove(p)] + [DeleteEmptied(p)];
    }
    var greatest := GreatestKey(s.procs.Keys);
    var q := greatest + 1;
    var host := proc.name[2..];
    assert DomainListenerName(host) == proc.name;
    var first := [BeginDetach(q, host), FindHit(q, i), GetForRemove(q)] + [UpdateRemove(q)];
    var last := [GetForRemove(p)] + [DeleteEmptied(p)];
    OtherRemoves(cfg, s, q, i, host, name);
    VerdictDrops(cfg, Run(cfg, s, first), p, i, name);
    RunPair(cfg, s, first, last);
    acts := first + last;
  }

  lemma ThreatDrops(cfg: int, s: State, p: nat, i: nat, name: string) returns (acts: seq<Action>)
    requires Inv(cfg, s) && Holds(s.sh.pool, i, name) && p in s.procs && Threat(s.procs[p], i, name)
    ensures Drops(cfg, s, acts, i, name)
  {
    var proc := s.procs[p];
    assert ProcOk(cfg, s.sh, p, proc);
    match proc
    case Finding(_) => acts := FindingDrops(cfg, s, p, i, name);
    case Collecting(_) =>
      CollectingDrops(cfg, s, p, i, name);
      acts := [DeleteEmptied(p)];
    case Removing(n, _, _) =>
      if n == name {
        acts := RemovingOwnDrops(cfg, s, p, i, name);
      } else {
        acts := StandingVerdictDrops(cfg, s, p, i, name);
      }
    case Shrinking(n, _, read, version) =>
      if n == name {
        acts := ShrinkingOwnDrops(cfg, s, p, i, name);
      } else {
        if VersionOf(s.sh, i) == version {
          HasWithout(read, n, name);
        }
        var s1 := Step(cfg, s, UpdateRemove(p));
        StepKeeps(cfg, s, UpdateRemove(p));
        assert s1.sh == s.sh && s1.procs[p] == Removing(n, i, true);
        var rest := StandingVerdictDrops(cfg, s1, p, i, name);
        DropsLater(cfg, s, UpdateRemove(p), rest, i, name);
        acts := [UpdateRemove(p)] + rest;
      }
  }

  /** An attached listener is safe, through every run that does not begin a detach of its host, exactly when no such
      detach is on its way to it and nobody holds a verdict that its shard is empty. */
  lemma AttachedStaysIff(cfg: int, s: State, i: nat, name: string)
    requires Inv(cfg, s) && Holds(s.sh.pool, i, name)
    ensures (forall acts :: NoDetachOf(acts, name) ==> Holds(Run(cfg, s, acts).sh.pool, i, name))
            <==> NoThreat(s, i, name)
  {
    if NoThreat(s, i, name) {
      forall acts | NoDetachOf(acts, name) ensures Holds(Run(cfg, s, acts).sh.pool, i, name) {
        AttachedStays(cfg, s, acts, i, name);
      }
    } else {
      var p :| p in s.procs && Threat(s.procs[p], i, name);
      var acts := ThreatDrops(cfg, s, p, i, name);
      assert NoDetachOf(acts, name) && !Holds(Run(cfg, s, acts).sh.pool, i, name);
    }
  }

  // ---- a collection that comes late ----

  /** A budget of three leaves the primary one custom-domain slot. */
  const ONE_SLOT := 3

  /** A budget of two leaves the primary no custom-domain slot. */
  const NO_SLOT := 2

  /** An overflow shard that a detach has just emptied and is about to delete, and an attach of the same host
      that had found it there. */
  function EmptiedShard(host: string): State {
    State(Shared(map[0 := [], 1 := []], map[0 := 0, 1 := 1], 2, []),
          map[1 := Collecting(1), 2 := Merging(Attach(DomainListener(host, ""), 0, 0), 1, Seen(0, 0, 0))])
  }

  /** The host is on an overflow shard by itself. */
  function OnOverflow(host: string): State {
    State(Shared(map[0 := [], 1 := [DomainListener(host, "")]], map[0 := 0, 1 := 0], 1, []), map[])
  }

  function StartsDetach(host: string): seq<Action> {
    [BeginDetach(1, host), FindHit(1, 1), GetForRemove(1)]
  }

  function AttachFinds(host: string): seq<Action> {
    [BeginAttach(2, host, ""), LookupHit(2, 1), UpdateRemove(1)]
  }

  /** The detach has read the shard. */
  function DetachPending(host: string): State {
    var l := DomainListener(host, "");
    OnOverflow(host).(procs := map[1 := Shrinking(l.name, 1, [l], 0)])
  }

  lemma StartsDetachRun(host: string)
    ensures Run(ONE_SLOT, OnOverflow(host), StartsDetach(host)) == DetachPending(host)
    ensures Run(NO_SLOT, OnOverflow(host), StartsDetach(host)) == DetachPending(host)
  {
    var s := OnOverflow(host);
    var l := DomainListener(host, "");
    assert [l][0].name == l.name;
    DetachRun(ONE_SLOT, s, 1, host, 1);
    DetachRun(NO_SLOT, s, 1, host, 1);
    assert Put(s, 1, Shrinking(l.name, 1, [l], 0)).procs == DetachPending(host).procs;
  }

  lemma AttachFindsRun(host: string)
    ensures Run(ONE_SLOT, DetachPending(host), AttachFinds(host)) == EmptiedShard(host)
  {
    var s := DetachPending(host);
    var l := DomainListener(host, "");
    RunThree(ONE_SLOT, s, BeginAttach(2, host, ""), LookupHit(2, 1), UpdateRemove(1));
    LoneListener(l);
    var s1 := Step(ONE_SLOT, s, BeginAttach(2, host, ""));
    assert s1.procs[2] == Lookup(Attach(l, 0, 0));
    var s2 := Step(ONE_SLOT, s1, LookupHit(2, 1));
    assert s2.sh == s.sh && s2.procs == s.procs[2 := EmptiedShard(host).procs[2]];
    var s3 := Step(ONE_SLOT, s2, UpdateRemove(1));
    assert s3.sh.pool == EmptiedShard(host).sh.pool && s3.sh.version == EmptiedShard(host).sh.version;
    assert s3.procs == EmptiedShard(host).procs;
  }

  /** The host's detach and another attach of it get there from a cluster with no call in flight. */
  lemma EmptiedShardIsReachable(host: string)
    ensures Inv(ONE_SLOT, OnOverflow(host))
    ensures Run(ONE_SLOT, OnOverflow(host), StartsDetach(host) + AttachFinds(host)) == EmptiedShard(host)
  {
    RunPair(ONE_SLOT, OnOverflow(host), StartsDetach(host), AttachFinds(host));
    StartsDetachRun(host);
    AttachFindsRun(host);
  }

  /** The late deletion takes along a listener whose attach has reported success. */
  lemma LateCollectionDropsListener(host: string)
    ensures var s := Step(ONE_SLOT, Step(ONE_SLOT, EmptiedShard(host), GetForMerge(2)), UpdateMerge(2));
            && ProcOf(s, 2) == Idle && Holds(s.sh.pool, 1, DomainListenerName(host))
            && 1 !in Step(ONE_SLOT, s, DeleteEmptied(1)).sh.pool
  {
    var s0 := EmptiedShard(host);
    var s1 := Step(ONE_SLOT, s0, GetForMerge(2));
    assert s1.sh == s0.sh && s1.procs[2].Writing? && s1.procs[2].version == 1;
    var s := Step(ONE_SLOT, s1, UpdateMerge(2));
    assert s.sh.pool[1][0].name == DomainListenerName(host);
  }

  // ---- a verdict that outlives its write ----

  /** A detach that found it would empty an overflow shard, lost its write to somebody else's, and then no longer
      finds its listener there, deletes the shard together with whatever listeners the others have put on it. */
  lemma StaleVerdictDeletesShard(cfg: int, s: State, p: nat)
    requires var proc := ProcOf(s, p);
             && proc.Shrinking? && proc.shard > 0 && Without(proc.read, proc.name) == []
             && proc.shard in s.sh.pool && VersionOf(s.sh, proc.shard) != proc.version
             && !Has(s.sh.pool[proc.shard], proc.name)
    ensures var s' := Run(cfg, s, [UpdateRemove(p), GetForRemove(p), DeleteEmptied(p)]);
            s'.sh.pool == s.sh.pool - {ProcOf(s, p).shard} && ProcOf(s', p) == Idle
  {
    var proc := ProcOf(s, p);
    RunThree(cfg, s, UpdateRemove(p), GetForRemove(p), DeleteEmptied(p));
    var s1 := Step(cfg, s, UpdateRemove(p));
    assert s1.sh == s.sh && s1.procs[p] == Removing(proc.name, proc.shard, true);
    var s2 := Step(cfg, s1, GetForRemove(p));
    assert s2.sh == s.sh && s2.procs[p] == Collecting(proc.shard);
  }

  function Looks(other: string): seq<Action> {
    [BeginAttach(2, other, ""), LookupMiss(2), Pick(2, 1)]
  }

  function Joins(other: string): seq<Action> {
    Looks(other) + [GetForMerge(2)] + [UpdateMerge(2)]
  }

  function Leaves(host: string): seq<Action> {
    [BeginDetach(3, host), FindHit(3, 1), GetForRemove(3)] + [UpdateRemove(3)]
  }

  /** Another host has joined it since. */
  ghost predicate Joined(s: State, l: Listener, other: Listener) {
    && s.sh.pool == map[0 := [], 1 := [l, other]] && VersionOf(s.sh, 1) == 1 && s.sh.clock == 2
    && ProcOf(s, 1) == Shrinking(l.name, 1, [l], 0) && ProcOf(s, 3) == Idle
  }

  lemma JoinsCalls(s: State, other: string)
    ensures Run(NO_SLOT, s, Joins(other))
            == Step(NO_SLOT, Step(NO_SLOT, Run(NO_SLOT, s, Looks(other)), GetForMerge(2)), UpdateMerge(2))
  {
    Seq.RunSnoc(NO_SLOT, s, Looks(other), GetForMerge(2));
    Seq.RunSnoc(NO_SLOT, s, Looks(other) + [GetForMerge(2)], UpdateMerge(2));
  }

  /** An attach that is about to merge into shard 1 does. */
  lemma MergesBeside(s: State, l: Listener, other: Listener)
    requires s.sh.pool == map[0 := [], 1 := [l]] && s.sh.clock == 1 && l.name != other.name
    requires ProcOf(s, 2).Merging? && ProcOf(s, 2).shard == 1 && ProcOf(s, 2).job.l == other
    requires Free(NO_SLOT, 1, [l]) > 0 && ProcOf(s, 1) == Shrinking(l.name, 1, [l], 0) && ProcOf(s, 3) == Idle
    ensures Joined(Step(NO_SLOT, Step(NO_SLOT, s, GetForMerge(2)), UpdateMerge(2)), l, other)
  {
    Seq.MergeCommits(NO_SLOT, s, 2);
    assert [l] + [other] == [l, other];
    assert map[0 := [], 1 := [l]][1 := [l, other]] == map[0 := [], 1 := [l, other]];
  }

  lemma JoinsRun(host: string, other: string)
    requires host != other
    ensures Joined(Run(NO_SLOT, DetachPending(host), Joins(other)), DomainListener(host, ""), DomainListener(other, ""))
  {
    var s := DetachPending(host);
    RoomOnOverflow(host, other);
    Seq.AloneAllocates(NO_SLOT, s, 2, other, "", 1);
    JoinsCalls(s, other);
    var s3 := Run(NO_SLOT, s, Looks(other));
    assert ProcOf(s3, 1) == ProcOf(s, 1) && ProcOf(s3, 3) == ProcOf(s, 3);
    MergesBeside(s3, DomainListener(host, ""), DomainListener(other, ""));
  }

  lemma RoomOnOverflow(host: string, other: string)
    requires host != other
    ensures var pool := DetachPending(host).sh.pool;
            && Backend.Nobody(pool, DomainListenerName(other)) && IsFirstFit(NO_SLOT, pool, 1)
            && Free(NO_SLOT, 1, pool[1]) > 0 && DomainListenerName(host) != DomainListenerName(other)
  {
    var l, lo := DomainListener(host, ""), DomainListener(other, "");
    assert l.name[2..] == host && lo.name[2..] == other;
    CustomCountAppend([], l);
    assert [] + [l] == [l];
    assert Free(NO_SLOT, 0, []) == 0 && Free(NO_SLOT, 1, [l]) > 0;
  }

  lemma FirstTaken(l: Listener, other: Listener)
    requires l.name != other.name
    ensures Has([l, other], l.name) && Without([l, other], l.name) == [other]
  {
    assert [l, other][0].name == l.name;
    WithoutAppend([], l, l.name);
    WithoutAppend([l], other, l.name);
    assert [] + [l] == [l] && [l] + [other] == [l, other] && [] + [other] == [other];
  }

  lemma LeavesRun(s: State, host: string, other: string)
    requires Joined(s, DomainListener(host, ""), DomainListener(other, ""))
    requires DomainListenerName(host) != DomainListenerName(other)
    ensures var l, lo := DomainListener(host, ""), DomainListener(other, "");
            var s' := Run(NO_SLOT, s, Leaves(host));
            && s'.sh.pool == map[0 := [], 1 := [lo]] && VersionOf(s'.sh, 1) == s.sh.clock
            && ProcOf(s', 1) == ProcOf(s, 1)
  {
    var l, lo := DomainListener(host, ""), DomainListener(other, "");
    FirstTaken(l, lo);
    DetachRun(NO_SLOT, s, 3, host, 1);
    Seq.RunSnoc(NO_SLOT, s, [BeginDetach(3, host), FindHit(3, 1), GetForRemove(3)], UpdateRemove(3));
    RemovesOne(NO_SLOT, Put(s, 3, Shrinking(l.name, 1, [l, lo], VersionOf(s.sh, 1))), 3);
  }

  lemma StaleVerdictRun(host: string, other: string)
    requires host != other
    ensures var l, lo := DomainListener(host, ""), DomainListener(other, "");
            var s := Run(NO_SLOT, OnOverflow(host), StartsDetach(host) + (Joins(other) + Leaves(host)));
            && s.sh.pool == map[0 := [], 1 := [lo]] && VersionOf(s.sh, 1) == 2
            && ProcOf(s, 1) == Shrinking(l.name, 1, [l], 0) && l.name != lo.name
  {
    var s0, s1 := OnOverflow(host), DetachPending(host);
    RunPair(NO_SLOT, s0, StartsDetach(host), Joins(other) + Leaves(host));
    StartsDetachRun(host);
    RunPair(NO_SLOT, s1, Joins(other), Leaves(host));
    RoomOnOverflow(host, other);
    JoinsRun(host, other);
    LeavesRun(Run(NO_SLOT, s1, Joins(other)), host, other);
  }

  /** The start of that schedule is reached from a cluster with no call in flight: one detach reads the shard, another
      host joins it, and a second detach of the first host gets its write in. */
  lemma StaleVerdictIsReachable(host: string, other: string)
    requires host != other
    ensures Inv(NO_SLOT, OnOverflow(host))
    ensures var s := Run(NO_SLOT, OnOverflow(host), StartsDetach(host) + (Joins(other) + Leaves(host)));
            var proc := ProcOf(s, 1);
            && proc.Shrinking? && proc.shard == 1 && Without(proc.read, proc.name) == []
            && 1 in s.sh.pool && VersionOf(s.sh, 1) != proc.version && !Has(s.sh.pool[1], proc.name)
            && Holds(s.sh.pool, 1, DomainListenerName(other)) && Threat(proc, 1, DomainListenerName(other))
  {
    StaleVerdictRun(host, other);
    LoneListener(DomainListener(host, ""));
    LoneListener(DomainListener(other, ""));
  }

  lemma LoneListener(l: Listener)
    ensures Has([l], l.name) && Without([l], l.name) == []
  {
    assert [l][0].name == l.name;
    WithoutAppend([], l, l.name);
    assert [] + [l] == [l];
  }
}

/** What holds over every interleaving of attaches, detaches and wildcard merges. */
module GatewayRuns {
  import opened GatewayShard
  import opened GatewayMachine

  /** No Gateway ever exceeds 64 listeners, no overflow shard the configured number of custom-domain listeners, and the
      primary not that number less two, whatever the schedule. A budget outside 1..64 counts as 64. */
  lemma CapacityAlways(cfg: int, s: State, acts: seq<Action>, i: nat)
    requires Inv(cfg, s) && i in Run(cfg, s, acts).sh.pool
    ensures var listeners, budget := Run(cfg, s, acts).sh.pool[i], if 1 <= cfg <= 64 then cfg else 64;
            && |listeners| <= 64
            && (i > 0 ==> CustomCount(listeners) <= budget)
            && (i == 0 ==> CustomCount(listeners) <= if budget > 2 then budget - 2 else 0)
  {
    RunKeeps(cfg, s, acts);
    assert GatewayOk(cfg, i, Run(cfg, s, acts).sh.pool[i]);
  }

  /** A cluster within these limits and with no call in flight starts every such run. */
  lemma QuiescentStart(cfg: int, sh: Shared)
    requires forall i :: i in sh.pool ==> |sh.pool[i]| <= 64
    requires var budget := if 1 <= cfg <= 64 then cfg else 64;
             forall i :: i in sh.pool ==>
               CustomCount(sh.pool[i]) <= if i > 0 then budget else if budget > 2 then budget - 2 else 0
    requires sh.clock > 0 && forall i :: i in sh.version ==> sh.version[i] < sh.clock
    ensures Inv(cfg, State(sh, map[]))
  {
    forall i | i in sh.pool ensures GatewayOk(cfg, i, sh.pool[i]) {
    }
  }

  /** An attach is turned away for a full shard only because of an insertion that someone else made
      into that very shard after the pool was read to choose it. */
  lemma ShardFullIsSomeoneElse(cfg: int, s: State, acts: seq<Action>, p: nat)
    requires Inv(cfg, s)
    requires var s' := Run(cfg, s, acts);
             var proc := ProcOf(s', p);
             && proc.Merging? && proc.shard in s'.sh.pool
             && !Has(s'.sh.pool[proc.shard], proc.job.l.name)
             && Free(cfg, proc.shard, s'.sh.pool[proc.shard]) == 0
    ensures var s' := Run(cfg, s, acts);
            var proc := ProcOf(s', p);
            exists k :: proc.seen.mark <= k < |s'.sh.log| && s'.sh.log[k].shard == proc.shard && s'.sh.log[k].who != p
  {
    RunKeeps(cfg, s, acts);
    FullIsCharged(cfg, Run(cfg, s, acts), p);
  }

  /** Giving up after eight attempts means at least eight insertions by others during the call. */
  lemma GivingUpIsCharged(cfg: int, s: State, acts: seq<Action>, p: nat)
    requires Inv(cfg, s) && ProcOf(Run(cfg, s, acts), p).GaveUp?
    ensures var s' := Run(cfg, s, acts);
            var start := ProcOf(s', p).start;
            start + 8 <= |s'.sh.log| && forall k :: start <= k < |s'.sh.log| ==> s'.sh.log[k].who != p
  {
    RunKeeps(cfg, s, acts);
    var s' := Run(cfg, s, acts);
    assert ProcOk(cfg, s'.sh, p, s'.procs[p]);
  }

  // ---- one host, one shard ----

  predicate Attaching(proc: Proc, name: string) {
    (proc.Lookup? || proc.Allocate? || proc.Creating? || proc.Merging? || proc.Writing?) && proc.job.l.name == name
  }

  ghost predicate AtMostOneAttach(s: State, name: string) {
    forall p, q :: p in s.procs && q in s.procs && Attaching(s.procs[p], name) && Attaching(s.procs[q], name) ==> p == q
  }

  ghost predicate OnOneShard(pool: Pool, name: string) {
    forall i, j :: Holds(pool, i, name) && Holds(pool, j, name) ==> i == j
  }

  /** An attach that has looked the host up will not create a second holder. */
  ghost predicate TargetOk(pool: Pool, proc: Proc, name: string) {
    Attaching(proc, name) ==>
      match proc
      case Allocate(_) => forall i :: i in pool ==> !Holds(pool, i, name)
      case Creating(_, _, _) => forall i :: i in pool ==> !Holds(pool, i, name)
      case Merging(_, shard, _) => forall i :: i in pool && Holds(pool, i, name) ==> i == shard
      case Writing(_, shard, _, _, _) => forall i :: i in pool && Holds(pool, i, name) ==> i == shard
      case _ => true
  }

  ghost predicate Placed(s: State, name: string) {
    OnOneShard(s.sh.pool, name) && forall p :: p in s.procs ==> TargetOk(s.sh.pool, s.procs[p], name)
  }

  ghost predicate CommitsMerge(s: State, a: Action, name: string) {
    var proc := ProcOf(s, a.p);
    a.UpdateMerge? && proc.Writing? && proc.job.l.name == name
  }

  lemma WildcardAddsNoDomain(read: seq<Listener>, specs: seq<Listener>, name: string)
    requires AllOrg(specs) && "d-" <= name && MergeSpecs(read, specs).Some?
    ensures Has(MergeSpecs(read, specs).value, name) ==> Has(read, name)
  {
    var r := MergeSpecs(read, specs).value;
    MergeSpecsNames(read, specs);
    forall k | |read| <= k < |r| ensures r[k].name != name {
      assert r[k] in specs;
      OrgIsNotCustom(r[k]);
    }
  }

  lemma RemovalAddsNoHolder(cfg: int, s: State, p: nat, name: string, i: nat)
    requires Inv(cfg, s) && ProcOf(s, p).Shrinking?
    requires Holds(RemoveWrite(s, p, ProcOf(s, p)).sh.pool, i, name)
    ensures Holds(s.sh.pool, i, name)
  {
    var proc := ProcOf(s, p);
    assert ProcOk(cfg, s.sh, p, proc);
    WithoutMembers(proc.read, proc.name);
  }

  lemma WildcardAddsNoHolder(cfg: int, s: State, p: nat, name: string, i: nat)
    requires Inv(cfg, s) && ProcOf(s, p).OrgWriting? && "d-" <= name
    requires Holds(OrgWrite(s, p, ProcOf(s, p)).sh.pool, i, name)
    ensures Holds(s.sh.pool, i, name)
  {
    var proc := ProcOf(s, p);
    assert ProcOk(cfg, s.sh, p, proc);
    if MergeSpecs(proc.read, proc.specs).Some? {
      WildcardAddsNoDomain(proc.read, proc.specs, name);
    }
  }

  lemma MergeAddsOwnHolder(cfg: int, s: State, p: nat, name: string, i: nat)
    requires Inv(cfg, s) && ProcOf(s, p).Writing?
    requires Holds(MergeWrite(s, p, ProcOf(s, p)).sh.pool, i, name) && !Holds(s.sh.pool, i, name)
    ensures ProcOf(s, p).job.l.name == name && i == ProcOf(s, p).shard
  {
    assert ProcOk(cfg, s.sh, p, ProcOf(s, p));
  }

  /** Only a committed merge for the host makes a shard a holder of it. */
  lemma NewHolder(cfg: int, s: State, a: Action, name: string, i: nat)
    requires Inv(cfg, s) && "d-" <= name
    requires Holds(Step(cfg, s, a).sh.pool, i, name) && !Holds(s.sh.pool, i, name)
    ensures CommitsMerge(s, a, name) && i == ProcOf(s, a.p).shard
  {
    var proc := ProcOf(s, a.p);
    match a
    case UpdateMerge(p) => if proc.Writing? { MergeAddsOwnHolder(cfg, s, p, name, i); }
    case UpdateOrg(p) => if proc.OrgWriting? { WildcardAddsNoHolder(cfg, s, p, name, i); }
    case UpdateRemove(p) => if proc.Shrinking? { RemovalAddsNoHolder(cfg, s, p, name, i); }
    case _ =>
  }

  ghost predicate NoNewHolder(pool: Pool, pool': Pool, name: string) {
    forall i :: Holds(pool', i, name) ==> Holds(pool, i, name)
  }

  lemma OwnTarget(cfg: int, s: State, a: Action, name: string)
    requires Placed(s, name) && NoNewHolder(s.sh.pool, Step(cfg, s, a).sh.pool, name)
    ensures TargetOk(Step(cfg, s, a).sh.pool, ProcOf(Step(cfg, s, a), a.p), name)
  {
    if MovesOnly(a) {
      LookupTarget(cfg, s, a, name);
    } else {
      var proc := ProcOf(s, a.p);
      assert TargetOk(s.sh.pool, proc, name);
      if proc.Creating? || proc.Merging? || proc.Writing? {
        var proc' := ProcOf(Step(cfg, s, a), a.p);
        assert Attaching(proc', name) ==> proc'.Lookup? || (Attaching(proc, name) && proc'.shard == proc.shard);
      }
    }
  }

  lemma LookupTarget(cfg: int, s: State, a: Action, name: string)
    requires Placed(s, name) && MovesOnly(a)
    ensures TargetOk(Step(cfg, s, a).sh.pool, ProcOf(Step(cfg, s, a), a.p), name)
  {
    assert TargetOk(s.sh.pool, ProcOf(s, a.p), name);
  }

  lemma FirstHolder(cfg: int, s: State, a: Action, name: string, i: nat)
    requires Inv(cfg, s) && "d-" <= name && Placed(s, name) && AtMostOneAttach(s, name)
    requires Holds(Step(cfg, s, a).sh.pool, i, name) && !Holds(s.sh.pool, i, name)
    ensures Placed(Step(cfg, s, a), name)
  {
    var s' := Step(cfg, s, a);
    NewHolder(cfg, s, a, name, i);
    assert TargetOk(s.sh.pool, ProcOf(s, a.p), name);
    assert s' == MergeWrite(s, a.p, ProcOf(s, a.p));
    forall q | q in s'.procs ensures !Attaching(s'.procs[q], name) {
      assert Attaching(s.procs[a.p], name);
    }
    forall j | Holds(s'.sh.pool, j, name) ensures j == i {
      if !Holds(s.sh.pool, j, name) { NewHolder(cfg, s, a, name, j); }
    }
  }

  lemma StepPlaces(cfg: int, s: State, a: Action, name: string)
    requires Inv(cfg, s) && "d-" <= name && Placed(s, name) && AtMostOneAttach(s, name)
    ensures Placed(Step(cfg, s, a), name)
  {
    var s' := Step(cfg, s, a);
    if NoNewHolder(s.sh.pool, s'.sh.pool, name) {
      StepGood(cfg, s, a);
      OwnTarget(cfg, s, a, name);
      forall q | q in s'.procs ensures TargetOk(s'.sh.pool, s'.procs[q], name) {
        if q != a.p {
          assert TargetOk(s.sh.pool, s.procs[q], name);
        }
      }
    } else {
      var i :| Holds(s'.sh.pool, i, name) && !Holds(s.sh.pool, i, name);
      FirstHolder(cfg, s, a, name, i);
    }
  }

  /** If attaches of a host never overlap, the host is on at most one shard however everything else interleaves. */
  lemma {:induction false} SerialAttachesPlaceOnce(cfg: int, s: State, acts: seq<Action>, name: string)
    requires Inv(cfg, s) && "d-" <= name && Placed(s, name)
    requires forall k :: 0 <= k < |acts| ==> AtMostOneAttach(Run(cfg, s, acts[..k]), name)
    ensures OnOneShard(Run(cfg, s, acts).sh.pool, name)
    decreases |acts|
  {
    if acts == [] {
    } else {
      assert acts[..0] == [];
      assert AtMostOneAttach(Run(cfg, s, acts[..0]), name);
      StepPlaces(cfg, s, acts[0], name);
      StepKeeps(cfg, s, acts[0]);
      var s' := Step(cfg, s, acts[0]);
      forall k | 0 <= k < |acts| - 1 ensures AtMostOneAttach(Run(cfg, s', acts[1..][..k]), name) {
        assert acts[..k + 1][0] == acts[0] && acts[..k + 1][1..] == acts[1..][..k];
        assert Run(cfg, s, acts[..k + 1]) == Run(cfg, s', acts[1..][..k]);
      }
      SerialAttachesPlaceOnce(cfg, s', acts[1..], name);
    }
  }

  // ---- the calls of one detach, up to its read ----

  lemma DetachBegins(cfg: int, s: State, p: nat, host: string)
    requires ProcOf(s, p).Idle?
    ensures Step(cfg, s, BeginDetach(p, host)) == Put(s, p, Finding(DomainListenerName(host)))
  {
  }

  lemma DetachFinds(cfg: int, s: State, p: nat, i: nat)
    requires ProcOf(s, p).Finding? && Holds(s.sh.pool, i, ProcOf(s, p).name)
    ensures Step(cfg, s, FindHit(p, i)) == Put(s, p, Removing(ProcOf(s, p).name, i, false))
  {
  }

  lemma DetachReads(cfg: int, s: State, p: nat)
    requires var proc := ProcOf(s, p); proc.Removing? && Holds(s.sh.pool, proc.shard, proc.name)
    ensures var proc := ProcOf(s, p);
            Step(cfg, s, GetForRemove(p))
            == Put(s, p, Shrinking(proc.name, proc.shard, s.sh.pool[proc.shard], VersionOf(s.sh, proc.shard)))
  {
  }

  lemma DetachRun(cfg: int, s: State, p: nat, host: string, i: nat)
    requires ProcOf(s, p).Idle? && Holds(s.sh.pool, i, DomainListenerName(host))
    ensures Run(cfg, s, [BeginDetach(p, host), FindHit(p, i), GetForRemove(p)])
            == Put(s, p, Shrinking(DomainListenerName(host), i, s.sh.pool[i], VersionOf(s.sh, i)))
  {
    var n := DomainListenerName(host);
    RunThree(cfg, s, BeginDetach(p, host), FindHit(p, i), GetForRemove(p));
    DetachBegins(cfg, s, p, host);
    var s1 := Put(s, p, Finding(n));
    DetachFinds(cfg, s1, p, i);
    var s2 := Put(s1, p, Removing(n, i, false));
    DetachReads(cfg, s2, p);
  }

  // ---- runs call by call ----

  lemma RunCons(cfg: int, s: State, a: Action, rest: seq<Action>)
    ensures Run(cfg, s, [a] + rest) == Run(cfg, Step(cfg, s, a), rest)
  {
    assert ([a] + rest)[1..] == rest;
  }

  /** Three calls in a row. */
  lemma RunThree(cfg: int, s: State, a: Action, b: Action, c: Action)
    ensures Run(cfg, s, [a, b, c]) == Step(cfg, Step(cfg, Step(cfg, s, a), b), c)
  {
    var s1 := Step(cfg, s, a);
    var s2 := Step(cfg, s1, b);
    RunCons(cfg, s, a, [b, c]);
    RunCons(cfg, s1, b, [c]);
    RunCons(cfg, s2, c, []);
    assert [a, b, c] == [a] + [b, c] && [b, c] == [b] + [c] && [c] == [c] + [];
  }

  lemma {:induction false} RunPair(cfg: int, s: State, xs: seq<Action>, ys: seq<Action>)
    ensures Run(cfg, s, xs + ys) == Run(cfg, Run(cfg, s, xs), ys)
    decreases |xs|
  {
    if xs == [] {
      assert xs + ys == ys;
    } else {
      var first, rest := xs[0], xs[1..];
      assert xs == [first] + rest && xs + ys == [first] + (rest + ys);
      RunCons(cfg, s, first, rest + ys);
      RunCons(cfg, s, first, rest);
      RunPair(cfg, Step(cfg, s, first), rest, ys);
    }
  }
}

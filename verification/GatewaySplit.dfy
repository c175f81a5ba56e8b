/** When a host stays on one Gateway: exactly when no two attaches of it are under way at once. */
module GatewaySplit {
  import opened Prelude
  import opened GatewayShard
  import opened GatewayMachine
  import opened GatewayRuns
  import opened Backend = GatewayBackend
  import Seq = GatewaySequential

  predicate AttachesHost(a: Action, name: string) {
    a.BeginAttach? && DomainListenerName(a.host) == name
  }

  predicate NoAttachOf(acts: seq<Action>, name: string) {
    forall k :: 0 <= k < |acts| ==> !AttachesHost(acts[k], name)
  }

  /** Every attach of the host that is under way has not looked it up yet. */
  ghost predicate AllLookups(s: State, name: string) {
    forall p :: p in s.procs && Attaching(s.procs[p], name) ==> s.procs[p].Lookup?
  }

  // ---- at most one attach stays at most one ----

  /** A step that begins no attach of the host leaves nobody attaching it who was not before. */
  lemma AttachingBefore(cfg: int, s: State, a: Action, name: string)
    requires !AttachesHost(a, name) && Attaching(ProcOf(Step(cfg, s, a), a.p), name)
    ensures Attaching(ProcOf(s, a.p), name)
  {
    if MovesOnly(a) {
      MovedAttaching(cfg, s, a, name);
    }
  }

  lemma MovedAttaching(cfg: int, s: State, a: Action, name: string)
    requires MovesOnly(a) && !AttachesHost(a, name) && Attaching(ProcOf(Step(cfg, s, a), a.p), name)
    ensures Attaching(ProcOf(s, a.p), name)
  {
  }

  lemma StepKeepsOneAttach(cfg: int, s: State, a: Action, name: string)
    requires Inv(cfg, s) && !AttachesHost(a, name) && AtMostOneAttach(s, name)
    ensures AtMostOneAttach(Step(cfg, s, a), name)
  {
    var s' := Step(cfg, s, a);
    StepGood(cfg, s, a);
    forall p | p in s'.procs && Attaching(s'.procs[p], name) ensures p in s.procs && Attaching(s.procs[p], name) {
      if p == a.p { AttachingBefore(cfg, s, a, name); }
    }
  }

  lemma {:induction false} OneAttachAlways(cfg: int, s: State, acts: seq<Action>, name: string)
    requires Inv(cfg, s) && NoAttachOf(acts, name) && AtMostOneAttach(s, name)
    ensures AtMostOneAttach(Run(cfg, s, acts), name)
    decreases |acts|
  {
    if acts == [] {
    } else {
      assert !AttachesHost(acts[0], name);
      StepKeepsOneAttach(cfg, s, acts[0], name);
      StepKeeps(cfg, s, acts[0]);
      OneAttachAlways(cfg, Step(cfg, s, acts[0]), acts[1..], name);
    }
  }

  lemma OneAttachPlacesOnce(cfg: int, s: State, acts: seq<Action>, name: string)
    requires Inv(cfg, s) && "d-" <= name && Placed(s, name) && NoAttachOf(acts, name) && AtMostOneAttach(s, name)
    ensures OnOneShard(Run(cfg, s, acts).sh.pool, name)
  {
    forall k | 0 <= k < |acts| ensures AtMostOneAttach(Run(cfg, s, acts[..k]), name) {
      OneAttachAlways(cfg, s, acts[..k], name);
    }
    SerialAttachesPlaceOnce(cfg, s, acts, name);
  }

  // ---- two attaches can be driven apart ----

  /** From an allocation to the merge, undisturbed: the listener lands on the chosen shard. */
  lemma AllocatedLands(cfg: int, s: State, q: nat, i: nat) returns (acts: seq<Action>)
    requires ProcOf(s, q).Allocate? && 0 in s.sh.pool && IsFirstFit(cfg, s.sh.pool, i)
    requires !Holds(s.sh.pool, i, ProcOf(s, q).job.l.name)
    ensures forall k :: 0 <= k < |acts| ==> !acts[k].BeginAttach?
    ensures var l, s' := ProcOf(s, q).job.l, Run(cfg, s, acts);
            && s'.sh.pool == s.sh.pool[i := (if i in s.sh.pool then s.sh.pool[i] else []) + [l]]
            && ProcOf(s', q) == Idle && OthersUntouched(s, s', q)
  {
    var l := ProcOf(s, q).job.l;
    var picked := Step(cfg, s, Pick(q, i));
    PickedThere(cfg, s, q, i);
    if i in s.sh.pool {
      acts := MergingLands(cfg, picked, q);
      acts := [Pick(q, i)] + acts;
    } else {
      var made := Step(cfg, picked, CreateShard(q));
      CreatedThere(cfg, picked, q);
      var rest := MergingLands(cfg, made, q);
      RunCons(cfg, picked, CreateShard(q), rest);
      acts := [Pick(q, i)] + ([CreateShard(q)] + rest);
      assert s.sh.pool[i := []][i := [] + [l]] == s.sh.pool[i := [] + [l]];
    }
    RunCons(cfg, s, Pick(q, i), acts[1..]);
    assert acts == [Pick(q, i)] + acts[1..];
  }

  lemma PickedThere(cfg: int, s: State, q: nat, i: nat)
    requires ProcOf(s, q).Allocate? && 0 in s.sh.pool && IsFirstFit(cfg, s.sh.pool, i)
    ensures var s' := Step(cfg, s, Pick(q, i));
            && s'.sh == s.sh && OthersUntouched(s, s', q)
            && (if i in s.sh.pool then ProcOf(s', q).Merging? else ProcOf(s', q).Creating?)
            && ProcOf(s', q).shard == i && ProcOf(s', q).job == ProcOf(s, q).job
  {
  }

  lemma CreatedThere(cfg: int, s: State, q: nat)
    requires ProcOf(s, q).Creating? && 0 in s.sh.pool && ProcOf(s, q).shard !in s.sh.pool
    ensures var s' := Step(cfg, s, CreateShard(q));
            && s'.sh.pool == s.sh.pool[ProcOf(s, q).shard := []] && OthersUntouched(s, s', q)
            && ProcOf(s', q).Merging? && ProcOf(s', q).shard == ProcOf(s, q).shard
            && ProcOf(s', q).job == ProcOf(s, q).job
  {
  }

  lemma MergingLands(cfg: int, s: State, q: nat) returns (acts: seq<Action>)
    requires var proc := ProcOf(s, q);
             && proc.Merging? && proc.shard in s.sh.pool && !Has(s.sh.pool[proc.shard], proc.job.l.name)
             && Free(cfg, proc.shard, s.sh.pool[proc.shard]) > 0
    ensures forall k :: 0 <= k < |acts| ==> !acts[k].BeginAttach?
    ensures var proc, s' := ProcOf(s, q), Run(cfg, s, acts);
            && s'.sh.pool == s.sh.pool[proc.shard := s.sh.pool[proc.shard] + [proc.job.l]]
            && ProcOf(s', q) == Idle && OthersUntouched(s, s', q)
  {
    acts := [GetForMerge(q)] + ([UpdateMerge(q)] + []);
    RunCons(cfg, s, GetForMerge(q), [UpdateMerge(q)] + []);
    RunCons(cfg, Step(cfg, s, GetForMerge(q)), UpdateMerge(q), []);
    Seq.MergeCommits(cfg, s, q);
  }

  // ---- a host nobody has ----

  lemma {:induction false} ListNameBound(ls: seq<Listener>) returns (n: nat)
    ensures forall k :: 0 <= k < |ls| ==> |ls[k].name| <= n
  {
    if ls == [] {
      n := 0;
    } else {
      var m := ListNameBound(ls[1..]);
      n := if |ls[0].name| > m then |ls[0].name| else m;
      forall k | 0 <= k < |ls| ensures |ls[k].name| <= n {
        if k > 0 { assert ls[k] == ls[1..][k - 1]; }
      }
    }
  }

  lemma {:induction false} PoolNameBound(pool: Pool, keys: set<nat>) returns (n: nat)
    requires keys <= pool.Keys
    ensures forall i, k :: i in keys && 0 <= k < |pool[i]| ==> |pool[i][k].name| <= n
  {
    if keys == {} {
      n := 0;
    } else {
      var i :| i in keys;
      var here := ListNameBound(pool[i]);
      var others := PoolNameBound(pool, keys - {i});
      n := if here > others then here else others;
      forall j, k | j in keys && 0 <= k < |pool[j]| ensures |pool[j][k].name| <= n {
        if j != i { assert j in keys - {i}; }
      }
    }
  }

  lemma FreshHost(pool: Pool, name: string) returns (host: string)
    ensures Nobody(pool, DomainListenerName(host)) && DomainListenerName(host) != name
  {
    var n := PoolNameBound(pool, pool.Keys);
    host := seq(n + |name| + 1, _ => 'a');
    forall i | i in pool ensures !Has(pool[i], DomainListenerName(host)) {
      forall k | 0 <= k < |pool[i]| ensures pool[i][k].name != DomainListenerName(host) {
        assert i in pool.Keys && |pool[i][k].name| <= n;
      }
    }
  }

  // ---- filling a shard until allocation moves on ----

  /** Process p looks a host up that nobody has. */
  lemma LooksUp(cfg: int, s: State, p: nat, host: string)
    requires ProcOf(s, p).Idle? && Nobody(s.sh.pool, DomainListenerName(host))
    ensures var s' := Run(cfg, s, [BeginAttach(p, host, ""), LookupMiss(p)]);
            && s'.sh == s.sh && OthersUntouched(s, s', p)
            && ProcOf(s', p).Allocate? && ProcOf(s', p).job.l == DomainListener(host, "")
  {
    Seq.AloneLooksUp(cfg, s, p, host, "");
    RunCons(cfg, s, BeginAttach(p, host, ""), [LookupMiss(p)]);
    RunCons(cfg, Step(cfg, s, BeginAttach(p, host, "")), LookupMiss(p), []);
    assert [BeginAttach(p, host, "")] + [LookupMiss(p)] == [BeginAttach(p, host, ""), LookupMiss(p)];
    assert [LookupMiss(p)] + [] == [LookupMiss(p)];
  }

  lemma FreeDecreases(cfg: int, i: nat, ls: seq<Listener>, l: Listener)
    requires IsCustom(l) && Free(cfg, i, ls) > 0
    ensures Free(cfg, i, ls + [l]) == Free(cfg, i, ls) - 1
  {
    CustomCountAppend(ls, l);
  }

  /** Only shard i holds the name. */
  ghost predicate OnlyOn(pool: Pool, i: nat, name: string) {
    forall j :: Holds(pool, j, name) <==> j == i
  }

  lemma HeldAfterAppend(pool: Pool, i: nat, l: Listener, name: string)
    requires OnlyOn(pool, i, name) && i in pool && l.name != name
    ensures OnlyOn(pool[i := pool[i] + [l]], i, name)
  {
    assert Holds(pool, i, name);
    var k :| 0 <= k < |pool[i]| && pool[i][k].name == name;
    assert (pool[i] + [l])[k].name == name;
    var pool' := pool[i := pool[i] + [l]];
    forall j | Holds(pool', j, name) ensures j == i {
      if j != i { assert Holds(pool, j, name); }
    }
  }

  /** One more fresh host fills a slot of the shard that allocation prefers. */
  lemma FillsOne(cfg: int, s: State, p: nat, i: nat, name: string) returns (acts: seq<Action>)
    requires ProcOf(s, p) == Idle && 0 in s.sh.pool && OnlyOn(s.sh.pool, i, name) && i in s.sh.pool
    requires IsFirstFit(cfg, s.sh.pool, i)
    ensures NoAttachOf(acts, name)
    ensures var s' := Run(cfg, s, acts);
            && OthersUntouched(s, s', p) && ProcOf(s', p) == Idle && 0 in s'.sh.pool
            && OnlyOn(s'.sh.pool, i, name) && i in s'.sh.pool
            && Free(cfg, i, s'.sh.pool[i]) < Free(cfg, i, s.sh.pool[i])
  {
    var host := FreshHost(s.sh.pool, name);
    var l := DomainListener(host, "");
    var begin := [BeginAttach(p, host, ""), LookupMiss(p)];
    LooksUp(cfg, s, p, host);
    var rest := AllocatedLands(cfg, Run(cfg, s, begin), p, i);
    acts := begin + rest;
    RunPair(cfg, s, begin, rest);
    FreeDecreases(cfg, i, s.sh.pool[i], l);
    HeldAfterAppend(s.sh.pool, i, l, name);
  }

  /** Fresh hosts are attached until the first fit is another shard. */
  lemma {:induction false} FillUntilMoved(cfg: int, s: State, p: nat, i: nat, name: string) returns (acts: seq<Action>)
    requires ProcOf(s, p) == Idle && 0 in s.sh.pool && OnlyOn(s.sh.pool, i, name) && i in s.sh.pool
    ensures NoAttachOf(acts, name)
    ensures var s' := Run(cfg, s, acts);
            && OthersUntouched(s, s', p) && ProcOf(s', p) == Idle && 0 in s'.sh.pool
            && OnlyOn(s'.sh.pool, i, name) && !IsFirstFit(cfg, s'.sh.pool, i)
    decreases Free(cfg, i, s.sh.pool[i])
  {
    if !IsFirstFit(cfg, s.sh.pool, i) {
      acts := [];
    } else {
      var first := FillsOne(cfg, s, p, i, name);
      var rest := FillUntilMoved(cfg, Run(cfg, s, first), p, i, name);
      acts := first + rest;
      RunPair(cfg, s, first, rest);
    }
  }

  // ---- so two attaches can split the host ----

  ghost predicate Splits(cfg: int, s: State, acts: seq<Action>, name: string) {
    NoAttachOf(acts, name) && !OnOneShard(Run(cfg, s, acts).sh.pool, name)
  }

  /** Both have been told that nobody holds the host. */
  lemma BothAllocateSplits(cfg: int, s: State, p: nat, q: nat, name: string) returns (acts: seq<Action>)
    requires p != q && 0 in s.sh.pool && Nobody(s.sh.pool, name)
    requires ProcOf(s, p).Allocate? && ProcOf(s, p).job.l.name == name
    requires ProcOf(s, q).Allocate? && ProcOf(s, q).job.l.name == name
    ensures Splits(cfg, s, acts, name)
  {
    var i := Seq.FirstFit(cfg, s.sh.pool);
    var l := ProcOf(s, p).job.l;
    var place := AllocatedLands(cfg, s, p, i);
    var s1 := Run(cfg, s, place);
    LandsOnly(s.sh.pool, i, l);
    var fill := FillUntilMoved(cfg, s1, p, i, name);
    var s2 := Run(cfg, s1, fill);
    assert ProcOf(s2, q) == ProcOf(s, q);
    var j := Seq.FirstFit(cfg, s2.sh.pool);
    assert !Holds(s2.sh.pool, j, name) && Holds(s2.sh.pool, i, name);
    var last := AllocatedLands(cfg, s2, q, j);
    var s3 := Run(cfg, s2, last);
    SplitAfter(s2.sh.pool, i, j, ProcOf(s, q).job.l);
    acts := place + (fill + last);
    RunPair(cfg, s, place, fill + last);
    RunPair(cfg, s1, fill, last);
  }

  lemma LandsOnly(pool: Pool, i: nat, l: Listener)
    requires Nobody(pool, l.name)
    ensures OnlyOn(pool[i := (if i in pool then pool[i] else []) + [l]], i, l.name)
  {
    var before := if i in pool then pool[i] else [];
    assert (before + [l])[|before|].name == l.name;
  }

  lemma SplitAfter(pool: Pool, i: nat, j: nat, l: Listener)
    requires i != j && Holds(pool, i, l.name)
    ensures !OnOneShard(pool[j := (if j in pool then pool[j] else []) + [l]], l.name)
  {
    var before := if j in pool then pool[j] else [];
    var pool' := pool[j := before + [l]];
    assert (before + [l])[|before|].name == l.name;
    assert Holds(pool', i, l.name) && Holds(pool', j, l.name);
  }

  lemma MissesStep(cfg: int, s: State, p: nat, name: string)
    requires ProcOf(s, p).Lookup? && ProcOf(s, p).job.l.name == name && Nobody(s.sh.pool, name)
    ensures Step(cfg, s, LookupMiss(p)) == Put(s, p, Allocate(ProcOf(s, p).job))
  {
  }

  lemma BothLookupsSplit(cfg: int, s: State, p: nat, q: nat, name: string) returns (acts: seq<Action>)
    requires p != q && 0 in s.sh.pool && Nobody(s.sh.pool, name)
    requires ProcOf(s, p).Lookup? && ProcOf(s, p).job.l.name == name
    requires ProcOf(s, q).Lookup? && ProcOf(s, q).job.l.name == name
    ensures Splits(cfg, s, acts, name)
  {
    MissesStep(cfg, s, p, name);
    var s1 := Put(s, p, Allocate(ProcOf(s, p).job));
    MissesStep(cfg, s1, q, name);
    var s2 := Put(s1, q, Allocate(ProcOf(s, q).job));
    var rest := BothAllocateSplits(cfg, s2, p, q, name);
    acts := [LookupMiss(p)] + ([LookupMiss(q)] + rest);
    RunCons(cfg, s, LookupMiss(p), [LookupMiss(q)] + rest);
    RunCons(cfg, s1, LookupMiss(q), rest);
  }

  /** A fresh process detaches the host first, if somebody holds it. */
  lemma DetachesFirst(cfg: int, s: State, r: nat, i: nat, host: string)
    requires r !in s.procs && 0 in s.sh.pool
    requires var name := DomainListenerName(host); Holds(s.sh.pool, i, name) && OnOneShard(s.sh.pool, name)
    ensures var s' := Run(cfg, s, [BeginDetach(r, host), FindHit(r, i), GetForRemove(r)] + [UpdateRemove(r)]);
            && Nobody(s'.sh.pool, DomainListenerName(host)) && 0 in s'.sh.pool && OthersUntouched(s, s', r)
  {
    var name := DomainListenerName(host);
    DetachRun(cfg, s, r, host, i);
    Seq.RunSnoc(cfg, s, [BeginDetach(r, host), FindHit(r, i), GetForRemove(r)], UpdateRemove(r));
    var s3 := Put(s, r, Shrinking(name, i, s.sh.pool[i], VersionOf(s.sh, i)));
    WithoutMembers(s.sh.pool[i], name);
    RemovalWritten(cfg, s3, r);
    var s4 := Step(cfg, s3, UpdateRemove(r));
    forall j | j in s4.sh.pool ensures !Has(s4.sh.pool[j], name) {
      if j != i { assert !Holds(s.sh.pool, j, name); }
    }
  }

  lemma RemovalWritten(cfg: int, s: State, r: nat)
    requires var proc := ProcOf(s, r);
             proc.Shrinking? && proc.shard in s.sh.pool && VersionOf(s.sh, proc.shard) == proc.version
    ensures var proc, s' := ProcOf(s, r), Step(cfg, s, UpdateRemove(r));
            s'.sh.pool == s.sh.pool[proc.shard := Without(proc.read, proc.name)] && OthersUntouched(s, s', r)
  {
  }

  lemma TwoLookupsSplit(cfg: int, s: State, p: nat, q: nat, name: string) returns (acts: seq<Action>)
    requires p != q && p in s.procs && q in s.procs && 0 in s.sh.pool && OnOneShard(s.sh.pool, name) && "d-" <= name
    requires s.procs[p].Lookup? && s.procs[p].job.l.name == name && s.procs[q].Lookup? && s.procs[q].job.l.name == name
    ensures Splits(cfg, s, acts, name)
  {
    if Nobody(s.sh.pool, name) {
      acts := BothLookupsSplit(cfg, s, p, q, name);
    } else {
      var i :| i in s.sh.pool && Has(s.sh.pool[i], name);
      var greatest := GreatestKey(s.procs.Keys);
      var r, host := greatest + 1, name[2..];
      assert DomainListenerName(host) == name;
      var first := [BeginDetach(r, host), FindHit(r, i), GetForRemove(r)] + [UpdateRemove(r)];
      DetachesFirst(cfg, s, r, i, host);
      var s1 := Run(cfg, s, first);
      assert ProcOf(s1, p) == ProcOf(s, p) && ProcOf(s1, q) == ProcOf(s, q);
      var rest := BothLookupsSplit(cfg, s1, p, q, name);
      acts := first + rest;
      RunPair(cfg, s, first, rest);
    }
  }

  /** For every budget, pool and schedule: a host whose attaches under way have not looked it up yet is on at most one
      shard in every run that begins no further attach of it exactly when it is now, and at most one is under way. */
  lemma OneShardIff(cfg: int, s: State, name: string)
    requires Inv(cfg, s) && "d-" <= name && 0 in s.sh.pool && AllLookups(s, name)
    ensures (forall acts :: NoAttachOf(acts, name) ==> OnOneShard(Run(cfg, s, acts).sh.pool, name))
            <==> OnOneShard(s.sh.pool, name) && AtMostOneAttach(s, name)
  {
    if !OnOneShard(s.sh.pool, name) {
      assert NoAttachOf([], name) && Run(cfg, s, []) == s;
    } else if AtMostOneAttach(s, name) {
      assert Placed(s, name);
      forall acts | NoAttachOf(acts, name) ensures OnOneShard(Run(cfg, s, acts).sh.pool, name) {
        OneAttachPlacesOnce(cfg, s, acts, name);
      }
    } else {
      var p, q :| p in s.procs && q in s.procs && p != q
                  && Attaching(s.procs[p], name) && Attaching(s.procs[q], name);
      var acts := TwoLookupsSplit(cfg, s, p, q, name);
      assert NoAttachOf(acts, name) && !OnOneShard(Run(cfg, s, acts).sh.pool, name);
    }
  }

  /** In particular two attaches of a host begun together can split it, on every pool and with every budget: the
      lookup and the allocation read the pool separately. */
  lemma OverlappingAttachesSplitHost(cfg: int, sh: Shared, host: string)
    requires PoolOk(cfg, sh) && 0 in sh.pool && OnOneShard(sh.pool, DomainListenerName(host))
    ensures exists acts :: NoAttachOf(acts, DomainListenerName(host))
                           && !OnOneShard(Run(cfg, State(sh, map[]),
                                              [BeginAttach(1, host, "")] + ([BeginAttach(2, host, "")] + acts)).sh.pool,
                                          DomainListenerName(host))
  {
    var name, s := DomainListenerName(host), State(sh, map[]);
    var s1 := Step(cfg, s, BeginAttach(1, host, ""));
    var s2 := Step(cfg, s1, BeginAttach(2, host, ""));
    assert s2.sh == sh && s2.procs.Keys == {1, 2};
    assert s2.procs[1].Lookup? && s2.procs[1].job.l.name == name;
    assert s2.procs[2].Lookup? && s2.procs[2].job.l.name == name;
    var acts := TwoLookupsSplit(cfg, s2, 1, 2, name);
    RunCons(cfg, s, BeginAttach(1, host, ""), [BeginAttach(2, host, "")] + acts);
    RunCons(cfg, s1, BeginAttach(2, host, ""), acts);
    assert NoAttachOf(acts, name);
  }
}

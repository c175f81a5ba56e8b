/** What a run without interference achieves: how many shards, what detach undoes, which routes. */
module GatewaySequential {
  import opened Prelude
  import opened GatewayShard
  import opened GatewayBackend
  import M = GatewayMachine
  import R = GatewayRuns

  // ---- the first fit exists and is unique ----

  lemma {:induction false} LeastWithRoom(cfg: int, pool: Pool, j: nat) returns (i: nat)
    requires j in pool && Free(cfg, j, pool[j]) > 0
    ensures i in pool && IsFirstFit(cfg, pool, i)
    decreases j
  {
    if k :| k in pool && k < j && Free(cfg, k, pool[k]) > 0 {
      i := LeastWithRoom(cfg, pool, k);
    } else {
      i := j;
    }
  }

  lemma FirstFitExists(cfg: int, pool: Pool)
    ensures exists i: nat :: IsFirstFit(cfg, pool, i)
  {
    if pool == map[] {
      assert IsFirstFit(cfg, pool, 0);
    } else if j :| j in pool && Free(cfg, j, pool[j]) > 0 {
      var i := LeastWithRoom(cfg, pool, j);
    } else {
      assert exists k :: k in pool;
      var m := GreatestKey(pool.Keys);
      assert IsFirstFit(cfg, pool, m + 1);
    }
  }

  lemma FirstFitUnique(cfg: int, pool: Pool, i: nat, j: nat)
    requires IsFirstFit(cfg, pool, i) && IsFirstFit(cfg, pool, j)
    ensures i == j
  {
  }

  ghost function FirstFit(cfg: int, pool: Pool): (i: nat)
    ensures IsFirstFit(cfg, pool, i)
  {
    FirstFitExists(cfg, pool);
    var i: nat :| IsFirstFit(cfg, pool, i);
    i
  }

  ghost function AttachPool(cfg: int, pool: Pool, l: Listener): Pool {
    if Nobody(pool, l.name) then
      var i := FirstFit(cfg, pool);
      pool[i := (if i in pool then pool[i] else []) + [l]]
    else pool
  }

  /** The attach contract determines the resulting pool. */
  lemma AttachIsDetermined(cfg: int, pool: Pool, pool': Pool, l: Listener)
    ensures AttachedTo(cfg, pool, pool', l) <==> pool' == AttachPool(cfg, pool, l)
  {
    var i := FirstFit(cfg, pool);
    if AttachedTo(cfg, pool, pool', l) && Nobody(pool, l.name) {
      var idx :| IsFirstFit(cfg, pool, idx)
                 && pool' == pool[idx := (if idx in pool then pool[idx] else []) + [l]];
      FirstFitUnique(cfg, pool, i, idx);
    }
  }

  // ---- attach leaves everything else in place; detach undoes it ----

  /** Exactly one listener for the host, at the end of one shard; every earlier listener keeps its place. */
  lemma AttachPlacesOnce(cfg: int, pool: Pool, l: Listener)
    requires Nobody(pool, l.name)
    ensures var i, pool' := FirstFit(cfg, pool), AttachPool(cfg, pool, l);
            && Holds(pool', i, l.name)
            && (forall j, k :: j in pool' && 0 <= k < |pool'[j]| ==>
                  (pool'[j][k].name == l.name <==> j == i && k == |pool'[i]| - 1))
            && (forall j :: j in pool ==> j in pool' && pool[j] <= pool'[j])
            && pool'.Keys == pool.Keys + {i}
  {
    var i, pool' := FirstFit(cfg, pool), AttachPool(cfg, pool, l);
    assert pool'[i][|pool'[i]| - 1] == l;
    forall j, k | j in pool' && 0 <= k < |pool'[j]| && (j != i || k < |pool'[i]| - 1)
      ensures pool'[j][k].name != l.name
    {
      assert j in pool && pool'[j][k] == pool[j][k];
      assert !Has(pool[j], l.name);
    }
  }

  lemma DetachAfterAppend(pool: Pool, i: nat, l: Listener)
    requires i in pool ==> !Has(pool[i], l.name)
    ensures var before := if i in pool then pool[i] else [];
            DetachAt(pool[i := before + [l]], i, l.name)
            == if i > 0 && before == [] then pool - {i} else pool[i := before]
  {
    var before := if i in pool then pool[i] else [];
    WithoutAbsent(before, l.name);
    WithoutAppend(before, l, l.name);
    assert Without(before + [l], l.name) == before + [] == before;
    assert pool[i := before + [l]] - {i} == pool - {i};
    assert pool[i := before + [l]][i := before] == pool[i := before];
  }

  /** Detaching a host that was just attached restores the pool, including the removal of a shard the attach
      created, unless the attach landed on an overflow shard that was already there and empty. */
  lemma DetachUndoesAttachIff(cfg: int, pool: Pool, l: Listener)
    requires 0 in pool && Nobody(pool, l.name)
    ensures var i := FirstFit(cfg, pool);
            var pool' := AttachPool(cfg, pool, l);
            && (forall j :: Holds(pool', j, l.name) ==> j == i)
            && i in pool'
            && (DetachAt(pool', i, l.name) == pool <==> !(i > 0 && i in pool && pool[i] == []))
  {
    var i := FirstFit(cfg, pool);
    AttachPlacesOnce(cfg, pool, l);
    DetachAfterAppend(pool, i, l);
    if i in pool {
      assert i !in pool - {i} && pool[i := pool[i]] == pool;
    } else {
      assert i > 0 && pool - {i} == pool;
    }
  }

  /** The calls of one attach of an unplaced host, made without interruption. */
  ghost function AloneCalls(pool: Pool, p: nat, host: string, cert: string, i: nat): seq<M.Action> {
    [M.BeginAttach(p, host, cert), M.LookupMiss(p), M.Pick(p, i)]
    + (if i in pool then [] else [M.CreateShard(p)])
    + [M.GetForMerge(p), M.UpdateMerge(p)]
  }

  lemma RunSnoc(cfg: int, s: M.State, acts: seq<M.Action>, a: M.Action)
    ensures M.Run(cfg, s, acts + [a]) == M.Step(cfg, M.Run(cfg, s, acts), a)
    decreases |acts|
  {
    if acts == [] {
      assert [a][1..] == [];
    } else {
      RunSnoc(cfg, M.Step(cfg, s, acts[0]), acts[1..], a);
      assert (acts + [a])[1..] == acts[1..] + [a];
    }
  }

  /** A lookup that finds nobody only moves its own process. */
  lemma AloneLooksUp(cfg: int, s: M.State, p: nat, host: string, cert: string)
    requires M.ProcOf(s, p) == M.Idle && Nobody(s.sh.pool, DomainListenerName(host))
    ensures var s' := M.Step(cfg, M.Step(cfg, s, M.BeginAttach(p, host, cert)), M.LookupMiss(p));
            var proc := M.ProcOf(s', p);
            && s'.sh == s.sh && proc.Allocate? && proc.job.l == DomainListener(host, cert)
            && M.OthersUntouched(s, s', p)
  {
    assert M.ProcOf(M.Step(cfg, s, M.BeginAttach(p, host, cert)), p).Lookup?;
  }

  /** Up to the allocation nothing is written. */
  lemma AloneAllocates(cfg: int, s: M.State, p: nat, host: string, cert: string, i: nat)
    requires M.ProcOf(s, p) == M.Idle && 0 in s.sh.pool
    requires Nobody(s.sh.pool, DomainListenerName(host)) && IsFirstFit(cfg, s.sh.pool, i)
    ensures var s' := M.Run(cfg, s, [M.BeginAttach(p, host, cert), M.LookupMiss(p), M.Pick(p, i)]);
            var proc := M.ProcOf(s', p);
            && s'.sh == s.sh && M.OthersUntouched(s, s', p)
            && (if i in s.sh.pool then proc.Merging? else proc.Creating?)
            && proc.shard == i && proc.job.l == DomainListener(host, cert)
  {
    R.RunThree(cfg, s, M.BeginAttach(p, host, cert), M.LookupMiss(p), M.Pick(p, i));
    AloneLooksUp(cfg, s, p, host, cert);
  }

  lemma MergeCommits(cfg: int, s: M.State, p: nat)
    requires var proc := M.ProcOf(s, p);
             && proc.Merging? && proc.shard in s.sh.pool
             && !Has(s.sh.pool[proc.shard], proc.job.l.name) && Free(cfg, proc.shard, s.sh.pool[proc.shard]) > 0
    ensures var proc := M.ProcOf(s, p);
            var s' := M.Step(cfg, M.Step(cfg, s, M.GetForMerge(p)), M.UpdateMerge(p));
            && M.ProcOf(s', p) == M.Idle && M.OthersUntouched(s, s', p)
            && s'.sh.pool == s.sh.pool[proc.shard := s.sh.pool[proc.shard] + [proc.job.l]]
            && s'.sh.version == s.sh.version[proc.shard := s.sh.clock] && s'.sh.clock == s.sh.clock + 1
  {
    assert M.ProcOf(M.Step(cfg, s, M.GetForMerge(p)), p).Writing?;
  }

  lemma AloneMerges(cfg: int, s0: M.State, calls: seq<M.Action>, p: nat, l: Listener)
    requires var s := M.Run(cfg, s0, calls);
             var proc := M.ProcOf(s, p);
             && proc.Merging? && proc.job.l == l && proc.shard in s.sh.pool
             && !Has(s.sh.pool[proc.shard], l.name) && Free(cfg, proc.shard, s.sh.pool[proc.shard]) > 0
    ensures var s := M.Run(cfg, s0, calls);
            var i := M.ProcOf(s, p).shard;
            var s' := M.Run(cfg, s0, calls + [M.GetForMerge(p), M.UpdateMerge(p)]);
            M.ProcOf(s', p) == M.Idle && s'.sh.pool == s.sh.pool[i := s.sh.pool[i] + [l]]
  {
    MergeCommits(cfg, M.Run(cfg, s0, calls), p);
    RunSnoc(cfg, s0, calls, M.GetForMerge(p));
    RunSnoc(cfg, s0, calls + [M.GetForMerge(p)], M.UpdateMerge(p));
    assert calls + [M.GetForMerge(p)] + [M.UpdateMerge(p)] == calls + [M.GetForMerge(p), M.UpdateMerge(p)];
  }

  /** The interleaved protocol, run by one replica alone, does what a sequential attach does at the first attempt. */
  lemma AloneIsSequential(cfg: int, s: M.State, p: nat, host: string, cert: string)
    requires M.ProcOf(s, p) == M.Idle && 0 in s.sh.pool
    requires Nobody(s.sh.pool, DomainListenerName(host))
    ensures var i := FirstFit(cfg, s.sh.pool);
            var s' := M.Run(cfg, s, AloneCalls(s.sh.pool, p, host, cert, i));
            M.ProcOf(s', p) == M.Idle && s'.sh.pool == AttachPool(cfg, s.sh.pool, DomainListener(host, cert))
  {
    var i, l := FirstFit(cfg, s.sh.pool), DomainListener(host, cert);
    var begin := [M.BeginAttach(p, host, cert), M.LookupMiss(p), M.Pick(p, i)];
    AloneAllocates(cfg, s, p, host, cert, i);
    if i in s.sh.pool {
      assert begin + [] == begin;
      AloneMerges(cfg, s, begin, p, l);
    } else {
      RunSnoc(cfg, s, begin, M.CreateShard(p));
      assert M.Run(cfg, s, begin + [M.CreateShard(p)]).sh.pool == s.sh.pool[i := []];
      AloneMerges(cfg, s, begin + [M.CreateShard(p)], p, l);
      assert [] + [l] == [l] && s.sh.pool[i := []][i := [l]] == s.sh.pool[i := [l]];
    }
  }

  lemma RemovalCommits(cfg: int, s: M.State, p: nat, name: string, i: nat)
    requires i in s.sh.pool
    requires M.ProcOf(s, p) == M.Shrinking(name, i, s.sh.pool[i], M.VersionOf(s.sh, i))
    ensures var s' := M.Step(cfg, M.Step(cfg, s, M.UpdateRemove(p)), M.DeleteEmptied(p));
            M.ProcOf(s', p) == M.Idle && s'.sh.pool == DetachAt(s.sh.pool, i, name)
  {
    var rest := Without(s.sh.pool[i], name);
    assert M.Step(cfg, s, M.UpdateRemove(p)).sh.pool == s.sh.pool[i := rest];
    assert s.sh.pool[i := rest] - {i} == s.sh.pool - {i};
  }

  /** The calls of one detach of a placed host, made without interruption, do what a sequential detach does. */
  lemma AloneDetaches(cfg: int, s: M.State, p: nat, host: string, i: nat)
    requires M.ProcOf(s, p) == M.Idle && Holds(s.sh.pool, i, DomainListenerName(host))
    ensures var name := DomainListenerName(host);
            var calls := [M.BeginDetach(p, host), M.FindHit(p, i), M.GetForRemove(p)]
                         + [M.UpdateRemove(p)] + [M.DeleteEmptied(p)];
            var s' := M.Run(cfg, s, calls);
            M.ProcOf(s', p) == M.Idle && s'.sh.pool == DetachAt(s.sh.pool, i, name)
  {
    var name := DomainListenerName(host);
    var calls := [M.BeginDetach(p, host), M.FindHit(p, i), M.GetForRemove(p)];
    R.DetachRun(cfg, s, p, host, i);
    RunSnoc(cfg, s, calls, M.UpdateRemove(p));
    RunSnoc(cfg, s, calls + [M.UpdateRemove(p)], M.DeleteEmptied(p));
    RemovalCommits(cfg, M.Run(cfg, s, calls), p, name, i);
  }

  /** And those of one wildcard merge: all that is requested, or nothing when it does not fit. */
  lemma AloneMergesWildcards(cfg: int, s: M.State, p: nat, specs: seq<Listener>)
    requires M.ProcOf(s, p) == M.Idle && 0 in s.sh.pool && M.AllOrg(specs)
    ensures var s' := M.Run(cfg, s, [M.BeginOrg(p, specs), M.GetForOrg(p), M.UpdateOrg(p)]);
            var merged := MergeSpecs(s.sh.pool[0], specs);
            && M.ProcOf(s', p) == M.Idle
            && s'.sh.pool == if merged.Some? then s.sh.pool[0 := merged.value] else s.sh.pool
  {
    R.RunThree(cfg, s, M.BeginOrg(p, specs), M.GetForOrg(p), M.UpdateOrg(p));
    assert s.sh.pool[0 := s.sh.pool[0]] == s.sh.pool;
  }

  // ---- how many shards first fit uses ----

  /** Custom-domain slots of a primary with b base listeners. */
  function PrimarySlots(cfg: int, b: nat): nat {
    var ceiling := MAX_LISTENERS - b;
    var limit := CustomLimit(cfg, 0);
    if ceiling < 0 then 0 else if ceiling < limit then ceiling else limit
  }

  function ShardsFor(cfg: int, b: nat, n: nat): nat {
    var slots := PrimarySlots(cfg, b);
    if n <= slots then 1 else 1 + (n - slots + Budget(cfg) - 1) / Budget(cfg)
  }

  /** q times d, by repeated addition. */
  ghost function Times(q: nat, d: nat): nat {
    if q == 0 then 0 else Times(q - 1, d) + d
  }

  lemma {:induction false} TimesIsProduct(q: nat, d: nat)
    ensures Times(q, d) == q * d
  {
    if q == 0 {
    } else {
      TimesIsProduct(q - 1, d);
      assert (q - 1) * d + d == q * d;
    }
  }

  lemma {:induction false} TimesMonotone(p: nat, q: nat, d: nat)
    requires p <= q
    ensures Times(p, d) <= Times(q, d)
  {
    if p == q {
    } else {
      TimesMonotone(p, q - 1, d);
    }
  }

  lemma QuotientOf(q: nat, x: nat, d: nat)
    requires Times(q, d) <= x < Times(q, d) + d
    ensures x / d == q
  {
    var p := x / d;
    assert x == p * d + x % d;
    TimesIsProduct(p, d);
    if p < q { TimesMonotone(p + 1, q, d); }
    if q < p { TimesMonotone(q + 1, p, d); }
  }

  ghost function AttachAll(cfg: int, pool: Pool, ls: seq<Listener>): Pool {
    if ls == [] then pool
    else AttachPool(cfg, AttachAll(cfg, pool, ls[..|ls| - 1]), ls[|ls| - 1])
  }

  /** Shards 0..k-1, every one but the last full, holding n custom listeners in all. */
  ghost predicate Packed(cfg: int, b: nat, pool: Pool, n: nat, k: nat) {
    var slots := PrimarySlots(cfg, b);
    var primary := if n < slots then n else slots;
    && k >= 1 && (forall i :: i in pool <==> 0 <= i < k)
    && |pool[0]| == b + primary && CustomCount(pool[0]) == primary
    && (forall i :: 0 < i < k ==> CustomCount(pool[i]) == |pool[i]| && 1 <= |pool[i]| <= Budget(cfg))
    && (forall i :: 0 < i < k - 1 ==> |pool[i]| == Budget(cfg))
    && (if k == 1 then n <= slots else n == slots + Times(k - 2, Budget(cfg)) + |pool[k - 1]|)
  }

  ghost predicate IsPacked(cfg: int, b: nat, pool: Pool, n: nat) {
    exists k: nat :: Packed(cfg, b, pool, n, k)
  }

  lemma PackedCount(cfg: int, b: nat, pool: Pool, n: nat, k: nat)
    requires Packed(cfg, b, pool, n, k)
    ensures k == ShardsFor(cfg, b, n)
  {
    if k > 1 {
      QuotientOf(k - 1, n - PrimarySlots(cfg, b) + Budget(cfg) - 1, Budget(cfg));
    }
  }

  /** Where the next host goes in a packed pool. */
  lemma PackedFit(cfg: int, b: nat, pool: Pool, n: nat, k: nat)
    requires Packed(cfg, b, pool, n, k)
    ensures FirstFit(cfg, pool) == if n < PrimarySlots(cfg, b) then 0
                                   else if k > 1 && |pool[k - 1]| < Budget(cfg) then k - 1 else k
  {
    var i := FirstFit(cfg, pool);
    if n < PrimarySlots(cfg, b) {
      assert Free(cfg, 0, pool[0]) > 0;
    } else {
      assert Free(cfg, 0, pool[0]) == 0;
      assert forall j :: 0 < j < k - 1 ==> Free(cfg, j, pool[j]) == 0;
      if k > 1 && |pool[k - 1]| < Budget(cfg) {
        assert Free(cfg, k - 1, pool[k - 1]) > 0;
      } else {
        assert k > 1 ==> Free(cfg, k - 1, pool[k - 1]) == 0;
        assert forall j :: j in pool ==> Free(cfg, j, pool[j]) == 0;
        assert IsFirstFit(cfg, pool, k);
        FirstFitUnique(cfg, pool, i, k);
      }
    }
  }

  lemma PackedOnPrimary(cfg: int, b: nat, pool: Pool, n: nat, k: nat, l: Listener)
    requires Packed(cfg, b, pool, n, k) && IsCustom(l) && n < PrimarySlots(cfg, b)
    ensures Packed(cfg, b, pool[0 := pool[0] + [l]], n + 1, k)
  {
    CustomCountAppend(pool[0], l);
    assert k == 1;
  }

  lemma PackedOnLast(cfg: int, b: nat, pool: Pool, n: nat, k: nat, l: Listener)
    requires Packed(cfg, b, pool, n, k) && IsCustom(l) && k > 1 && |pool[k - 1]| < Budget(cfg)
    ensures Packed(cfg, b, pool[k - 1 := pool[k - 1] + [l]], n + 1, k)
  {
    CustomCountAppend(pool[k - 1], l);
  }

  lemma PackedOnNew(cfg: int, b: nat, pool: Pool, n: nat, k: nat, l: Listener)
    requires Packed(cfg, b, pool, n, k) && IsCustom(l)
    requires n >= PrimarySlots(cfg, b) && (k > 1 ==> |pool[k - 1]| == Budget(cfg))
    ensures Packed(cfg, b, pool[k := [l]], n + 1, k + 1)
  {
    assert CustomCount([l]) == 1;
    var pool' := pool[k := [l]];
    assert forall i :: i in pool' <==> 0 <= i < k + 1;
    assert forall i :: 0 <= i < k ==> pool'[i] == pool[i];
    assert k > 1 ==> Times(k - 1, Budget(cfg)) == Times(k - 2, Budget(cfg)) + Budget(cfg);
  }

  lemma PackedStep(cfg: int, b: nat, pool: Pool, n: nat, l: Listener)
    requires IsPacked(cfg, b, pool, n) && IsCustom(l) && Nobody(pool, l.name)
    ensures IsPacked(cfg, b, AttachPool(cfg, pool, l), n + 1)
  {
    var k: nat :| Packed(cfg, b, pool, n, k);
    PackedFit(cfg, b, pool, n, k);
    if n < PrimarySlots(cfg, b) {
      PackedOnPrimary(cfg, b, pool, n, k, l);
    } else if k > 1 && |pool[k - 1]| < Budget(cfg) {
      PackedOnLast(cfg, b, pool, n, k, l);
    } else {
      PackedOnNew(cfg, b, pool, n, k, l);
      assert [] + [l] == [l];
    }
  }

  ghost predicate FreshHosts(base: seq<Listener>, ls: seq<Listener>) {
    && (forall i :: 0 <= i < |ls| ==> IsCustom(ls[i]) && !Has(base, ls[i].name))
    && UniqueNames(ls)
  }

  ghost predicate DrawnFrom(pool: Pool, base: seq<Listener>, ls: seq<Listener>) {
    forall i: nat, k: nat :: i in pool && k < |pool[i]| ==> pool[i][k] in base || pool[i][k] in ls
  }

  lemma AttachDrawsFrom(cfg: int, pool: Pool, base: seq<Listener>, ls: seq<Listener>, l: Listener)
    requires DrawnFrom(pool, base, ls)
    ensures DrawnFrom(AttachPool(cfg, pool, l), base, ls + [l])
  {
    var pool' := AttachPool(cfg, pool, l);
    forall i: nat, k: nat | i in pool' && k < |pool'[i]| ensures pool'[i][k] in base || pool'[i][k] in ls + [l] {
      if i in pool && k < |pool[i]| {
        assert pool'[i][k] == pool[i][k];
      } else {
        assert pool'[i][k] == l;
      }
    }
  }

  lemma {:induction false} AttachAllMembers(cfg: int, base: seq<Listener>, ls: seq<Listener>)
    ensures DrawnFrom(AttachAll(cfg, map[0 := base], ls), base, ls)
  {
    if ls == [] {
    } else {
      var front, last := ls[..|ls| - 1], ls[|ls| - 1];
      AttachAllMembers(cfg, base, front);
      AttachDrawsFrom(cfg, AttachAll(cfg, map[0 := base], front), base, front, last);
      assert ls == front + [last];
    }
  }

  lemma AttachAllFresh(cfg: int, base: seq<Listener>, ls: seq<Listener>)
    requires FreshHosts(base, ls) && ls != []
    ensures Nobody(AttachAll(cfg, map[0 := base], ls[..|ls| - 1]), ls[|ls| - 1].name)
  {
    var front, last := ls[..|ls| - 1], ls[|ls| - 1];
    var pool: Pool := AttachAll(cfg, map[0 := base], front);
    AttachAllMembers(cfg, base, front);
    assert !Has(base, last.name);
    forall i: nat, k: nat | i in pool && k < |pool[i]| ensures pool[i][k].name != last.name {
      var x := pool[i][k];
      if x in front {
        var m :| 0 <= m < |front| && front[m] == x;
        assert ls[m] == x;
      }
    }
  }

  lemma BasePacked(cfg: int, base: seq<Listener>)
    requires CustomCount(base) == 0
    ensures Packed(cfg, |base|, map[0 := base], 0, 1)
  {
    var pool: Pool := map[0 := base];
    assert pool[0] == base && forall i :: i in pool <==> i == 0;
  }

  lemma {:induction false} AttachAllPacked(cfg: int, base: seq<Listener>, ls: seq<Listener>)
    requires CustomCount(base) == 0 && FreshHosts(base, ls)
    ensures IsPacked(cfg, |base|, AttachAll(cfg, map[0 := base], ls), |ls|)
  {
    if ls == [] {
      BasePacked(cfg, base);
    } else {
      AttachAllPacked(cfg, base, ls[..|ls| - 1]);
      AttachAllFresh(cfg, base, ls);
      PackedStep(cfg, |base|, AttachAll(cfg, map[0 := base], ls[..|ls| - 1]), |ls| - 1, ls[|ls| - 1]);
    }
  }

  /** A budget outside 1..64 counts as 64; the primary keeps two slots back and has at most 64 listeners in all. */
  predicate SlotsAre(cfg: int, b: nat, budget: nat, primary: nat) {
    && budget == (if 1 <= cfg <= 64 then cfg else 64)
    && primary == (if budget <= 2 || b >= 64 then 0 else if budget - 2 <= 64 - b then budget - 2 else 64 - b)
  }

  lemma SlotsAgree(cfg: int, b: nat, budget: nat, primary: nat)
    requires SlotsAre(cfg, b, budget, primary)
    ensures Budget(cfg) == budget && PrimarySlots(cfg, b) == primary
    ensures forall n: nat :: ShardsFor(cfg, b, n)
                             == if n <= primary then 1 else 1 + (n - primary + budget - 1) / budget
  {
  }

  /** n distinct hosts attached in sequence to a fresh primary with b base listeners occupy the primary alone if they
      fit there, and otherwise as many further Gateways as the rest needs at the full budget, without a gap. */
  lemma FirstFitCount(cfg: int, base: seq<Listener>, ls: seq<Listener>, budget: nat, primary: nat)
    requires CustomCount(base) == 0 && FreshHosts(base, ls) && SlotsAre(cfg, |base|, budget, primary)
    ensures var count := if |ls| <= primary then 1 else 1 + (|ls| - primary + budget - 1) / budget;
            forall i :: i in AttachAll(cfg, map[0 := base], ls) <==> 0 <= i < count
  {
    SlotsAgree(cfg, |base|, budget, primary);
    AttachAllPacked(cfg, base, ls);
    var pool := AttachAll(cfg, map[0 := base], ls);
    var k: nat :| Packed(cfg, |base|, pool, |ls|, k);
    PackedCount(cfg, |base|, pool, |ls|, k);
  }

  // ---- no placement does better ----

  ghost function TotalCustom(pool: Pool): nat
    decreases |pool|
  {
    if pool == map[] then 0
    else
      assert exists i :: i in pool;
      var i :| i in pool;
      assert |pool - {i}| < |pool| by { assert (pool - {i}).Keys == pool.Keys - {i}; }
      CustomCount(pool[i]) + TotalCustom(pool - {i})
  }

  ghost predicate WithinLimits(cfg: int, b: nat, pool: Pool) {
    forall i :: i in pool ==>
      CustomCount(pool[i]) <= if i == 0 then PrimarySlots(cfg, b) else Budget(cfg)
  }

  ghost function Room(cfg: int, b: nat, pool: Pool): nat {
    if 0 in pool then PrimarySlots(cfg, b) + Times(|pool| - 1, Budget(cfg)) else Times(|pool|, Budget(cfg))
  }

  lemma {:induction false} TotalBound(cfg: int, b: nat, pool: Pool)
    requires WithinLimits(cfg, b, pool)
    ensures TotalCustom(pool) <= Room(cfg, b, pool)
    decreases |pool|
  {
    if pool == map[] {
    } else {
      var i :| i in pool && TotalCustom(pool) == CustomCount(pool[i]) + TotalCustom(pool - {i});
      var rest := pool - {i};
      assert rest.Keys == pool.Keys - {i};
      assert |rest| == |pool| - 1;
      TotalBound(cfg, b, rest);
      assert 0 in rest ==> |rest| > 0 by { if 0 in rest { assert 0 in rest.Keys; } }
    }
  }

  lemma {:induction false} NamesFit(ls: seq<Listener>, names: set<string>)
    requires forall n :: n in names ==> "d-" <= n && Has(ls, n)
    ensures |names| <= CustomCount(ls)
    decreases |ls|
  {
    if ls == [] {
      assert names == {};
    } else {
      var front, last := ls[..|ls| - 1], ls[|ls| - 1];
      var rest := names - {last.name};
      forall n | n in rest ensures Has(front, n) {
        var i :| 0 <= i < |ls| && ls[i].name == n;
        assert front[i].name == n;
      }
      NamesFit(front, rest);
      assert names <= rest + {last.name};
      if last.name in names {
        assert names == rest + {last.name};
      } else {
        assert names == rest;
      }
    }
  }

  ghost function HeldBy(ls: seq<Listener>, names: set<string>): (here: set<string>)
    ensures here <= names && forall n :: n in here <==> n in names && Has(ls, n)
  {
    set n | n in names && Has(ls, n)
  }

  /** The pool holds every one of these custom-domain listeners somewhere. */
  ghost predicate Houses(pool: Pool, names: set<string>) {
    forall n :: n in names ==> "d-" <= n && !Nobody(pool, n)
  }

  lemma RestHouses(pool: Pool, names: set<string>, i: nat)
    requires i in pool && Houses(pool, names)
    ensures Houses(pool - {i}, names - HeldBy(pool[i], names))
  {
    forall n | n in names - HeldBy(pool[i], names) ensures !Nobody(pool - {i}, n) {
      var j :| j in pool && Has(pool[j], n);
      assert j in pool - {i} && (pool - {i})[j] == pool[j];
    }
  }

  lemma HeldByFits(pool: Pool, names: set<string>, i: nat)
    requires i in pool && Houses(pool, names)
    ensures |names| <= CustomCount(pool[i]) + |names - HeldBy(pool[i], names)|
  {
    var here := HeldBy(pool[i], names);
    NamesFit(pool[i], here);
    assert names == here + (names - here);
  }

  /** Such a pool has at least as many custom listeners. */
  lemma {:induction false} HostsFit(pool: Pool, names: set<string>)
    requires Houses(pool, names)
    ensures |names| <= TotalCustom(pool)
    decreases |pool|
  {
    if pool == map[] {
      if n :| n in names { assert Nobody(pool, n); }
    } else {
      var i :| i in pool && TotalCustom(pool) == CustomCount(pool[i]) + TotalCustom(pool - {i});
      assert (pool - {i}).Keys == pool.Keys - {i};
      RestHouses(pool, names, i);
      HeldByFits(pool, names, i);
      HostsFit(pool - {i}, names - HeldBy(pool[i], names));
    }
  }

  /** Any pool within the limits that holds n distinct hosts, wherever they are, has at least as many Gateways as first
      fit uses for n. */
  lemma FirstFitIsOptimal(cfg: int, b: nat, pool: Pool, names: set<string>, budget: nat, primary: nat)
    requires 0 in pool && SlotsAre(cfg, b, budget, primary)
    requires forall i :: i in pool ==> CustomCount(pool[i]) <= if i == 0 then primary else budget
    requires Houses(pool, names)
    ensures |pool| >= if |names| <= primary then 1 else 1 + (|names| - primary + budget - 1) / budget
  {
    SlotsAgree(cfg, b, budget, primary);
    HostsFit(pool, names);
    TotalBound(cfg, b, pool);
    assert |pool| >= 1 by { assert 0 in pool.Keys; }
    if |names| > primary {
      CeilingBound(|names| - primary, |pool| - 1, budget);
    }
  }

  lemma CeilingBound(x: nat, m: nat, d: nat)
    requires d > 0 && x <= Times(m, d)
    ensures (x + d - 1) / d <= m
  {
    var q := (x + d - 1) / d;
    if q > m {
      assert q * d <= x + d - 1;
      TimesIsProduct(q, d);
      TimesMonotone(m + 1, q, d);
    }
  }

  // ---- routing ----

  /** When every host of the workload is on at most one shard, the references are exactly the overflow shards
      that hold a listener for one of its hosts. */
  lemma RoutingComplete(pool: Pool, hosts: seq<string>, refs: seq<nat>)
    requires RefsCover(pool, hosts, refs)
    requires forall h, i, j ::
               (h in hosts && Holds(pool, i, DomainListenerName(h)) && Holds(pool, j, DomainListenerName(h))) ==> i == j
    ensures forall i: nat :: i in refs <==> i > 0 && exists h :: h in hosts && Holds(pool, i, DomainListenerName(h))
  {
    forall i: nat, h | i > 0 && h in hosts && Holds(pool, i, DomainListenerName(h))
      ensures i in refs
    {
      var name := DomainListenerName(h);
      assert !Nobody(pool, name);
      var j: nat :| (j == 0 || j in refs) && Holds(pool, j, name);
      assert i == j;
    }
  }

  // ---- normalisation is stable, so looking a host up and attaching it agree on the name ----

  lemma {:induction false} LowerKeeps(s: string)
    ensures Lower(Lower(s)) == Lower(s)
    ensures forall k :: 0 <= k < |s| ==> IsSpace(Lower(s)[k]) == IsSpace(s[k])
  {
    if s == [] {
    } else {
      LowerKeeps(s[1..]);
      assert Lower(s)[1..] == Lower(s[1..]);
    }
  }

  lemma {:induction false} TrimLeftEnds(s: string)
    ensures var t := TrimLeft(s); t != [] ==> !IsSpace(t[0]) && s != [] && t[|t| - 1] == s[|s| - 1]
  {
    if s == [] || !IsSpace(s[0]) {
    } else {
      TrimLeftEnds(s[1..]);
    }
  }

  lemma {:induction false} TrimRightEnds(s: string)
    ensures var t := TrimRight(s); t != [] ==> !IsSpace(t[|t| - 1]) && s != [] && t[0] == s[0]
  {
    if s == [] || !IsSpace(s[|s| - 1]) {
    } else {
      TrimRightEnds(s[..|s| - 1]);
    }
  }

  lemma NormalizeIdempotent(host: string)
    ensures Normalize(Normalize(host)) == Normalize(host)
  {
    var left := TrimLeft(host);
    var core := TrimRight(left);
    TrimLeftEnds(host);
    TrimRightEnds(left);
    LowerKeeps(core);
  }

  lemma {:induction false} TrimLeftIs(s: string) returns (a: nat)
    ensures a <= |s| && TrimLeft(s) == s[a..] && (forall k :: 0 <= k < a ==> IsSpace(s[k]))
    ensures a < |s| ==> !IsSpace(s[a])
  {
    if s == [] || !IsSpace(s[0]) {
      a := 0;
    } else {
      var rest := TrimLeftIs(s[1..]);
      a := rest + 1;
      assert s[1..][rest..] == s[a..];
      assert forall k :: 0 < k < a ==> s[k] == s[1..][k - 1];
    }
  }

  lemma {:induction false} TrimRightIs(s: string) returns (b: nat)
    ensures b <= |s| && TrimRight(s) == s[..b] && (forall k :: b <= k < |s| ==> IsSpace(s[k]))
    ensures b > 0 ==> !IsSpace(s[b - 1])
  {
    if s == [] || !IsSpace(s[|s| - 1]) {
      b := |s|;
    } else {
      b := TrimRightIs(s[..|s| - 1]);
      assert s[..|s| - 1][..b] == s[..b];
    }
  }

  lemma {:induction false} LowerIs(s: string, k: nat)
    requires k < |s|
    ensures Lower(s)[k] == if 'A' <= s[k] <= 'Z' then (s[k] as int + 32) as char else s[k]
    decreases k
  {
    if k == 0 {
    } else {
      LowerIs(s[1..], k - 1);
    }
  }

  /** A normalised host is the host without the white space around it, in lower case. */
  lemma NormalizeIs(host: string) returns (a: nat, b: nat)
    ensures a <= b <= |host| && |Normalize(host)| == b - a
    ensures forall k :: 0 <= k < a || b <= k < |host| ==> IsSpace(host[k])
    ensures a < b ==> !IsSpace(host[a]) && !IsSpace(host[b - 1])
    ensures forall k :: 0 <= k < b - a ==>
              Normalize(host)[k]
              == if 'A' <= host[a + k] <= 'Z' then (host[a + k] as int + 32) as char else host[a + k]
  {
    a := TrimLeftIs(host);
    var left := TrimLeft(host);
    var kept := TrimRightIs(left);
    b := a + kept;
    var core := TrimRight(left);
    assert core == host[a..b];
    forall k | b <= k < |host| ensures IsSpace(host[k]) {
      assert host[k] == left[k - a];
    }
    forall k | 0 <= k < b - a
      ensures Normalize(host)[k]
              == if 'A' <= host[a + k] <= 'Z' then (host[a + k] as int + 32) as char else host[a + k]
    {
      LowerIs(core, k);
    }
  }

  /** A workload's hosts are the normalised forms of its domains that are not empty. */
  lemma {:induction false} SanitizedHosts(domains: seq<string>, host: string)
    ensures host in SanitizeDomains(domains) <==> host != "" && exists d :: d in domains && Normalize(d) == host
  {
    if domains == [] {
    } else {
      SanitizedHosts(domains[1..], host);
      assert forall d :: d in domains <==> d == domains[0] || d in domains[1..];
    }
  }
}

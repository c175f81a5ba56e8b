/** The listener operations as the backend runs them, against the Gateways of one cluster. */
module GatewayBackend {
  import opened Prelude
  import opened GatewayShard

  datatype MergeResult = Merged | ShardFull | GatewayMissing

  datatype AttachResult = Attached | EmptyHost | NoGateway | GaveUp

  /** What another replica does to the pool while an attach is between its allocation and its merge. */
  datatype Other =
    OtherInsert(shard: nat, l: Listener) | OtherRemove(shard: nat, name: string) | OtherWildcards(specs: seq<Listener>)

  predicate Removes(others: seq<Other>) {
    exists k :: 0 <= k < |others| && others[k].OtherRemove?
  }

  datatype View = View(index: nat, custom: nat, total: nat)

  ghost predicate Nobody(pool: Pool, name: string) {
    forall i :: i in pool ==> !Has(pool[i], name)
  }

  function ViewOf(pool: Pool, idx: nat): View
    requires idx in pool
  {
    View(idx, CustomCount(pool[idx]), |pool[idx]|)
  }

  /** What a successful attach does: nothing if the host is placed, else one append on the first fit. */
  ghost predicate AttachedTo(cfg: int, pool: Pool, pool': Pool, l: Listener) {
    if Nobody(pool, l.name) then
      exists idx :: IsFirstFit(cfg, pool, idx)
                    && pool' == pool[idx := (if idx in pool then pool[idx] else []) + [l]]
    else pool' == pool
  }

  /** The shard chosen for an unplaced listener has room for it, if it is there at all. */
  lemma FirstFitTakes(cfg: int, pool: Pool, idx: nat, l: Listener)
    requires Nobody(pool, l.name) && IsFirstFit(cfg, pool, idx)
    ensures var made := if pool == map[] || idx in pool then pool else pool[idx := []];
            if idx !in made then pool == map[]
            else
              && !Has(made[idx], l.name) && Free(cfg, idx, made[idx]) > 0
              && AttachedTo(cfg, pool, made[idx := made[idx] + [l]], l)
  {
    if idx !in pool && pool != map[] {
      assert pool[idx := []][idx := [] + [l]] == pool[idx := [] + [l]];
    }
  }

  /** Overflow shards without repeats: each serves one of the hosts, and every placed host is served
      by one of them or by the primary. */
  ghost predicate RefsCover(pool: Pool, hosts: seq<string>, refs: seq<nat>) {
    && 0 !in refs
    && (forall a, b :: 0 <= a < b < |refs| ==> refs[a] != refs[b])
    && (forall i :: i in refs ==> exists h :: h in hosts && Holds(pool, i, DomainListenerName(h)))
    && (forall h :: h in hosts && !Nobody(pool, DomainListenerName(h)) ==>
          exists i :: (i == 0 || i in refs) && Holds(pool, i, DomainListenerName(h)))
  }

  /** No Gateway is lost and every listener keeps its place. */
  ghost predicate Keeps(pool: Pool, pool': Pool) {
    forall i :: i in pool ==> i in pool' && pool[i] <= pool'[i]
  }

  lemma KeepsTransitive(a: Pool, b: Pool, c: Pool)
    requires Keeps(a, b) && Keeps(b, c)
    ensures Keeps(a, c)
  {
  }

  function DetachAt(pool: Pool, idx: nat, name: string): Pool
    requires idx in pool
  {
    var rest := Without(pool[idx], name);
    if idx > 0 && rest == [] then pool - {idx} else pool[idx := rest]
  }

  // ---- sorting the views by index ----

  predicate Ascending(views: seq<View>) {
    forall a, b :: 0 <= a < b < |views| ==> views[a].index < views[b].index
  }

  function Insert(views: seq<View>, v: View): (r: seq<View>)
    ensures forall w :: w in r <==> w == v || w in views
  {
    if views == [] || v.index < views[0].index then [v] + views else [views[0]] + Insert(views[1..], v)
  }

  lemma {:induction false} InsertAscending(views: seq<View>, v: View)
    requires Ascending(views) && forall w :: w in views ==> w.index != v.index
    ensures Ascending(Insert(views, v))
  {
    if views == [] || views[0].index >= v.index {
    } else {
      InsertAscending(views[1..], v);
      var rest := Insert(views[1..], v);
      forall b | 0 <= b < |rest| ensures views[0].index < rest[b].index {
        assert rest[b] in rest;
      }
    }
  }

  // ---- host normalisation (ASCII) ----

  predicate IsSpace(c: char) {
    c == ' ' || '\t' <= c <= '\r'
  }

  function Lower(s: string): (r: string)
    ensures |r| == |s|
  {
    if s == [] then []
    else [if 'A' <= s[0] <= 'Z' then (s[0] as int + 32) as char else s[0]] + Lower(s[1..])
  }

  function TrimLeft(s: string): string {
    if s != [] && IsSpace(s[0]) then TrimLeft(s[1..]) else s
  }

  function TrimRight(s: string): string {
    if s != [] && IsSpace(s[|s| - 1]) then TrimRight(s[..|s| - 1]) else s
  }

  function Normalize(host: string): string {
    Lower(TrimRight(TrimLeft(host)))
  }

  function DomainCertSecret(host: string): string {
    "vortex-dom-tls-" + host
  }

  /** Normalised hosts of a workload, empties dropped. */
  function SanitizeDomains(domains: seq<string>): seq<string> {
    if domains == [] then []
    else
      var d := Normalize(domains[0]);
      (if d == "" then [] else [d]) + SanitizeDomains(domains[1..])
  }

  class Backend {
    const cfg: int
    var pool: Pool

    constructor (cfg: int, pool: Pool)
      ensures this.cfg == cfg && this.pool == pool
    {
      this.cfg := cfg;
      this.pool := pool;
    }

    /** Some shard holding the listener; the API lists Gateways in no order the caller controls. */
    method ShardForHost(name: string) returns (found: Option<nat>)
      ensures found.None? <==> Nobody(pool, name)
      ensures found.Some? ==> Holds(pool, found.value, name)
    {
      var rest := pool.Keys;
      while rest != {}
        invariant rest <= pool.Keys
        invariant forall i :: i in pool && i !in rest ==> !Has(pool[i], name)
        decreases |rest|
      {
        var i :| i in rest;
        if Has(pool[i], name) {
          return Some(i);
        }
        rest := rest - {i};
      }
      return None;
    }

    /** The pool as allocation sees it: one view per Gateway, by ascending index. */
    method ListGatewayShards() returns (views: seq<View>)
      ensures Ascending(views)
      ensures forall v :: v in views <==> v.index in pool && v == ViewOf(pool, v.index)
    {
      views := [];
      var rest := pool.Keys;
      while rest != {}
        invariant rest <= pool.Keys
        invariant Ascending(views)
        invariant forall v :: v in views <==> v.index in pool && v.index !in rest && v == ViewOf(pool, v.index)
        decreases |rest|
      {
        var i :| i in rest;
        rest := rest - {i};
        InsertAscending(views, ViewOf(pool, i));
        views := Insert(views, ViewOf(pool, i));
      }
    }

    /** Create an overflow shard unless it exists; the primary must be there to be cloned. */
    method EnsureShardGateway(idx: nat) returns (ok: bool)
      modifies this
      ensures ok <==> 0 in old(pool)
      ensures pool == if ok && idx !in old(pool) then old(pool)[idx := []] else old(pool)
    {
      if 0 !in pool {
        return false;
      }
      if idx !in pool {
        pool := pool[idx := []];
      }
      return true;
    }

    method AllocateListenerShard(name: string) returns (idx: Option<nat>)
      modifies this
      ensures idx.Some? && !Nobody(old(pool), name) ==> Holds(old(pool), idx.value, name) && pool == old(pool)
      ensures idx.Some? && Nobody(old(pool), name) ==>
                && IsFirstFit(cfg, old(pool), idx.value)
                && pool == if old(pool) == map[] || idx.value in old(pool) then old(pool)
                           else old(pool)[idx.value := []]
      ensures Keeps(old(pool), pool)
      ensures idx.None? ==> pool == old(pool) && 0 !in pool && pool != map[] && Nobody(pool, name)
                            && forall j :: j in pool ==> Free(cfg, j, pool[j]) == 0
    {
      var found := ShardForHost(name);
      if found.Some? {
        return found;
      }
      var views := ListGatewayShards();
      assert forall i :: i in pool ==> ViewOf(pool, i) in views;
      if |views| == 0 {
        return Some(0);
      }
      assert views[0] in views;
      for k := 0 to |views|
        invariant forall a :: 0 <= a < k ==> Capacity(cfg, views[a].index, views[a].custom, views[a].total) == 0
      {
        if Capacity(cfg, views[k].index, views[k].custom, views[k].total) > 0 {
          forall j | j in pool && j < views[k].index ensures Free(cfg, j, pool[j]) == 0 {
            assert ViewOf(pool, j) in views;
          }
          assert views[k] in views;
          return Some(views[k].index);
        }
      }
      var last := views[|views| - 1];
      var next := last.index + 1;
      forall j | j in pool ensures j < next && Free(cfg, j, pool[j]) == 0 {
        assert ViewOf(pool, j) in views;
      }
      assert last in views;
      var ok := EnsureShardGateway(next);
      return if ok then Some(next) else None;
    }

    method MergeListenerIntoGateway(idx: nat, l: Listener) returns (r: MergeResult)
      modifies this
      ensures r == (if idx !in old(pool) then GatewayMissing
                    else if Has(old(pool)[idx], l.name) || Free(cfg, idx, old(pool)[idx]) > 0 then Merged
                    else ShardFull)
      ensures pool == if r == Merged && !Has(old(pool)[idx], l.name)
                      then old(pool)[idx := old(pool)[idx] + [l]] else old(pool)
      ensures r == Merged ==> Holds(pool, idx, l.name)
      ensures Keeps(old(pool), pool)
    {
      if idx !in pool {
        return GatewayMissing;
      }
      if Has(pool[idx], l.name) {
        return Merged;
      }
      if Capacity(cfg, idx, CustomCount(pool[idx]), |pool[idx]|) <= 0 {
        return ShardFull;
      }
      pool := pool[idx := pool[idx] + [l]];
      assert pool[idx][|pool[idx]| - 1].name == l.name;
      return Merged;
    }

    method OtherStep(other: Other)
      modifies this
      ensures !other.OtherRemove? ==> Keeps(old(pool), pool)
      ensures 0 in pool <==> 0 in old(pool)
    {
      match other
      case OtherInsert(shard, l) => var _ := MergeListenerIntoGateway(shard, l);
      case OtherRemove(shard, name) => RemoveListenerFromGateway(shard, name);
      case OtherWildcards(specs) =>
        if 0 in pool && MergeSpecs(pool[0], specs).Some? {
          MergeSpecsNames(pool[0], specs);
        }
        var _ := EnsureGatewayListeners(specs);
    }

    /** What other replicas do meanwhile, each through the same guarded operations. */
    method OthersRun(others: seq<Other>)
      modifies this
      ensures others == [] ==> pool == old(pool)
      ensures !Removes(others) ==> Keeps(old(pool), pool)
      ensures 0 in pool <==> 0 in old(pool)
    {
      for k := 0 to |others|
        invariant others[..k] == [] ==> pool == old(pool)
        invariant !Removes(others) ==> Keeps(old(pool), pool)
        invariant 0 in pool <==> 0 in old(pool)
      {
        OtherStep(others[k]);
      }
    }

    /** One allocation and one merge, with whatever others do in between; None asks for another attempt. */
    method AllocateAndMerge(l: Listener, others: seq<Other>) returns (r: Option<AttachResult>)
      modifies this
      ensures r == Some(Attached) || r == Some(NoGateway) || r == None
      ensures !Removes(others) ==> Keeps(old(pool), pool)
      ensures r == Some(Attached) ==> !Nobody(pool, l.name)
      ensures r == Some(NoGateway) ==> 0 !in pool || Removes(others)
      ensures r == None ==> others != []
      ensures others == [] && r == Some(Attached) ==> AttachedTo(cfg, old(pool), pool, l)
      ensures others == [] && r == Some(NoGateway) ==>
                Nobody(pool, l.name) && pool == old(pool) && forall j :: j in pool ==> Free(cfg, j, pool[j]) == 0
    {
      var idx := AllocateListenerShard(l.name);
      if idx.None? {
        return Some(NoGateway);
      }
      if Nobody(old(pool), l.name) {
        FirstFitTakes(cfg, old(pool), idx.value, l);
      }
      ghost var allotted := pool;
      OthersRun(others);
      ghost var met := pool;
      var merged := MergeListenerIntoGateway(idx.value, l);
      if !Removes(others) {
        KeepsTransitive(old(pool), allotted, met);
        KeepsTransitive(old(pool), met, pool);
      }
      match merged
      case Merged =>
        return Some(Attached);
      case GatewayMissing => return Some(NoGateway);
      case ShardFull => return None;
    }

    /** Attach a custom host, re-allocating while others keep filling the chosen shard first.
        `others[k]` is what they do between the k-th allocation and its merge. */
    method EnsureGatewayListener(host: string, certSecret: string, others: seq<seq<Other>>) returns (r: AttachResult)
      requires |others| == MAX_ATTEMPTS
      modifies this
      ensures r == EmptyHost <==> Normalize(host) == ""
      ensures r == EmptyHost ==> pool == old(pool)
      ensures (forall k :: 0 <= k < MAX_ATTEMPTS ==> !Removes(others[k])) ==> Keeps(old(pool), pool)
      ensures r == Attached ==> !Nobody(pool, DomainListenerName(Normalize(host)))
      ensures r == GaveUp ==> forall k :: 0 <= k < MAX_ATTEMPTS ==> others[k] != []
      ensures r == NoGateway ==> 0 !in pool || exists k :: 0 <= k < MAX_ATTEMPTS && Removes(others[k])
      ensures var h := Normalize(host);
              var l := DomainListener(h, if certSecret == "" then DomainCertSecret(h) else certSecret);
              h != "" && others[0] == [] ==>
                if r == Attached then AttachedTo(cfg, old(pool), pool, l)
                else r == NoGateway && Nobody(pool, l.name) && pool == old(pool)
                     && forall j :: j in pool ==> Free(cfg, j, pool[j]) == 0
    {
      var h := Normalize(host);
      if h == "" {
        return EmptyHost;
      }
      var l := DomainListener(h, if certSecret == "" then DomainCertSecret(h) else certSecret);
      for attempt := 0 to MAX_ATTEMPTS
        invariant forall k :: 0 <= k < attempt ==> others[k] != []
        invariant attempt == 0 ==> pool == old(pool)
        invariant (forall k :: 0 <= k < attempt ==> !Removes(others[k])) ==> Keeps(old(pool), pool)
      {
        ghost var before := pool;
        var outcome := AllocateAndMerge(l, others[attempt]);
        if forall k :: 0 <= k < attempt + 1 ==> !Removes(others[k]) {
          KeepsTransitive(old(pool), before, pool);
        }
        if outcome.Some? {
          return outcome.value;
        }
      }
      return GaveUp;
    }

    /** Remove the listener from one Gateway and collect an overflow shard that this leaves empty. */
    method RemoveListenerFromGateway(idx: nat, name: string)
      modifies this
      ensures pool == if Holds(old(pool), idx, name) then DetachAt(old(pool), idx, name) else old(pool)
    {
      if idx !in pool {
        return;
      }
      var listeners := pool[idx];
      var out, removed := [], false;
      for k := 0 to |listeners|
        invariant out == Without(listeners[..k], name)
        invariant |out| <= k && (removed <==> |out| < k)
        invariant pool == old(pool)
      {
        assert listeners[..k + 1] == listeners[..k] + [listeners[k]];
        WithoutAppend(listeners[..k], listeners[k], name);
        if listeners[k].name == name {
          removed := true;
        } else {
          out := out + [listeners[k]];
        }
      }
      assert listeners[..|listeners|] == listeners;
      assert removed <==> Has(listeners, name) by {
        WithoutCounts(listeners, name);
        if !Has(listeners, name) { WithoutAbsent(listeners, name); }
      }
      if !removed {
        return;
      }
      pool := pool[idx := out];
      if idx > 0 && |out| == 0 {
        pool := pool - {idx};
      }
    }

    method RemoveGatewayListener(host: string)
      modifies this
      ensures var name := DomainListenerName(Normalize(host));
              if Normalize(host) == "" || Nobody(old(pool), name) then pool == old(pool)
              else exists idx :: Holds(old(pool), idx, name) && pool == DetachAt(old(pool), idx, name)
    {
      var h := Normalize(host);
      if h == "" {
        return;
      }
      var found := ShardForHost(DomainListenerName(h));
      if found.Some? {
        RemoveListenerFromGateway(found.value, DomainListenerName(h));
      }
    }

    /** Merge an organization's wildcard listeners onto the primary, all of them or none. */
    method EnsureGatewayListeners(specs: seq<Listener>) returns (ok: bool)
      modifies this
      ensures specs == [] ==> ok && pool == old(pool)
      ensures specs != [] ==> (ok <==> 0 in old(pool) && MergeSpecs(old(pool)[0], specs).Some?)
      ensures specs != [] ==> pool == if ok then old(pool)[0 := MergeSpecs(old(pool)[0], specs).value] else old(pool)
    {
      if specs == [] {
        return true;
      }
      if 0 !in pool {
        return false;
      }
      var listeners := pool[0];
      for k := 0 to |specs|
        invariant MergeSpecs(pool[0], specs) == MergeSpecs(listeners, specs[k..])
        invariant pool == old(pool)
      {
        assert specs[k..][0] == specs[k] && specs[k..][1..] == specs[k + 1..];
        if !Has(listeners, specs[k].name) {
          if |listeners| >= MAX_LISTENERS {
            return false;
          }
          listeners := listeners + [specs[k]];
        }
      }
      pool := pool[0 := listeners];
      return true;
    }

    /** The overflow shards a route must reference besides the primary. */
    method ShardParentRefs(domains: seq<string>) returns (refs: seq<nat>)
      ensures RefsCover(pool, SanitizeDomains(domains), refs)
    {
      var hosts := SanitizeDomains(domains);
      refs := [];
      for k := 0 to |hosts|
        invariant RefsCover(pool, hosts[..k], refs)
      {
        var found := ShardForHost(DomainListenerName(hosts[k]));
        assert hosts[..k + 1] == hosts[..k] + [hosts[k]];
        if found.Some? && found.value != 0 && found.value !in refs {
          assert hosts[k] in hosts[..k + 1];
          refs := refs + [found.value];
        }
      }
      assert hosts[..|hosts|] == hosts;
    }
  }
}

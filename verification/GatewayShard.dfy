/** Capacity arithmetic and listener-list surgery shared by every view of the Gateway pool.
    A pool maps a shard index (0 is the primary) to the listeners of that Gateway. */
module GatewayShard {
  import opened Prelude

  const MAX_LISTENERS := 64
  const BASE_RESERVE := 2
  const MAX_ATTEMPTS := 8

  datatype Listener = Listener(name: string, hostname: string, certSecret: string)

  type Pool = map<nat, seq<Listener>>

  /** The name embeds a collision-resistant slug of the host; the slug is taken to be the host itself. */
  function DomainListenerName(host: string): string {
    "d-" + host
  }

  function DomainListener(host: string, certSecret: string): Listener {
    Listener(DomainListenerName(host), host, certSecret)
  }

  predicate IsCustom(l: Listener) {
    "d-" <= l.name
  }

  /** Listeners of an organization's wildcard hosts; they live on the primary only. */
  predicate IsOrg(l: Listener) {
    "o-" <= l.name
  }

  function Budget(cfg: int): (b: int)
    ensures 1 <= b <= MAX_LISTENERS
  {
    if cfg <= 0 || cfg > MAX_LISTENERS then MAX_LISTENERS else cfg
  }

  /** What the budget allows a shard to hold in custom-domain listeners. */
  function CustomLimit(cfg: int, idx: nat): nat {
    var limit := Budget(cfg) - if idx == 0 then BASE_RESERVE else 0;
    if limit < 0 then 0 else limit
  }

  function Capacity(cfg: int, idx: nat, custom: nat, total: nat): (free: nat)
    ensures free > 0 <==> custom + (if idx == 0 then 2 else 0) < (if 1 <= cfg <= 64 then cfg else 64) && total < 64
  {
    var budget := Budget(cfg) - if idx == 0 then BASE_RESERVE else 0;
    var free := budget - custom;
    var ceiling := MAX_LISTENERS - total;
    var least := if ceiling < free then ceiling else free;
    if least < 0 then 0 else least
  }

  function CustomCount(ls: seq<Listener>): (n: nat)
    ensures n <= |ls|
  {
    if ls == [] then 0
    else CustomCount(ls[..|ls| - 1]) + if IsCustom(ls[|ls| - 1]) then 1 else 0
  }

  function Free(cfg: int, idx: nat, ls: seq<Listener>): nat {
    Capacity(cfg, idx, CustomCount(ls), |ls|)
  }

  predicate Has(ls: seq<Listener>, name: string) {
    exists i :: 0 <= i < |ls| && ls[i].name == name
  }

  predicate Holds(pool: Pool, idx: nat, name: string) {
    idx in pool && Has(pool[idx], name)
  }

  predicate UniqueNames(ls: seq<Listener>) {
    forall i, j :: 0 <= i < j < |ls| ==> ls[i].name != ls[j].name
  }

  function Without(ls: seq<Listener>, name: string): seq<Listener> {
    if ls == [] then []
    else
      var front := Without(ls[..|ls| - 1], name);
      if ls[|ls| - 1].name == name then front else front + [ls[|ls| - 1]]
  }

  /** The shard that should take a new listener: the lowest one with room, else the next index. */
  ghost predicate IsFirstFit(cfg: int, pool: Pool, idx: nat) {
    if pool == map[] then idx == 0
    else if idx in pool then
      && Free(cfg, idx, pool[idx]) > 0
      && forall j :: j in pool && j < idx ==> Free(cfg, j, pool[j]) == 0
    else
      && idx > 0 && idx - 1 in pool
      && forall j :: j in pool ==> j < idx && Free(cfg, j, pool[j]) == 0
  }

  /** One pass over an organization's wildcard listeners; None is the refusal at the ceiling. */
  function MergeSpecs(ls: seq<Listener>, specs: seq<Listener>): Option<seq<Listener>>
    decreases |specs|
  {
    if specs == [] then Some(ls)
    else if Has(ls, specs[0].name) then MergeSpecs(ls, specs[1..])
    else if |ls| >= MAX_LISTENERS then None
    else MergeSpecs(ls + [specs[0]], specs[1..])
  }

  // ---- facts about the list functions ----

  lemma CustomCountAppend(ls: seq<Listener>, l: Listener)
    ensures CustomCount(ls + [l]) == CustomCount(ls) + if IsCustom(l) then 1 else 0
  {
    assert (ls + [l])[..|ls|] == ls;
  }

  lemma WithoutAppend(ls: seq<Listener>, l: Listener, name: string)
    ensures Without(ls + [l], name) == Without(ls, name) + if l.name == name then [] else [l]
  {
    assert (ls + [l])[..|ls|] == ls;
  }

  lemma {:induction false} WithoutAbsent(ls: seq<Listener>, name: string)
    requires !Has(ls, name)
    ensures Without(ls, name) == ls
  {
    if ls == [] {
    } else {
      var front := ls[..|ls| - 1];
      assert forall i :: 0 <= i < |front| ==> front[i] == ls[i];
      WithoutAbsent(front, name);
    }
  }

  lemma {:induction false} WithoutIsFilter(ls: seq<Listener>, name: string)
    ensures forall l :: l in Without(ls, name) <==> l in ls && l.name != name
  {
    if ls == [] {
    } else {
      var front := ls[..|ls| - 1];
      WithoutIsFilter(front, name);
      assert ls == front + [ls[|ls| - 1]];
    }
  }

  lemma {:induction false} WithoutStaysUnique(ls: seq<Listener>, name: string)
    requires UniqueNames(ls)
    ensures UniqueNames(Without(ls, name))
  {
    if ls == [] {
    } else {
      var front, last := ls[..|ls| - 1], ls[|ls| - 1];
      assert UniqueNames(front);
      WithoutStaysUnique(front, name);
      WithoutIsFilter(front, name);
      forall l | l in Without(front, name) ensures l.name != last.name {
        assert l in front;
      }
    }
  }

  /** Removal drops exactly the named listeners and invents nothing. */
  lemma WithoutMembers(ls: seq<Listener>, name: string)
    ensures forall l :: l in Without(ls, name) <==> l in ls && l.name != name
    ensures !Has(Without(ls, name), name)
    ensures UniqueNames(ls) ==> UniqueNames(Without(ls, name))
  {
    WithoutIsFilter(ls, name);
    forall k | 0 <= k < |Without(ls, name)| ensures Without(ls, name)[k].name != name {
      assert Without(ls, name)[k] in Without(ls, name);
    }
    if UniqueNames(ls) { WithoutStaysUnique(ls, name); }
  }

  /** A named custom-domain listener occupies one slot of each limit; a name that is absent, none. */
  lemma {:induction false} WithoutCounts(ls: seq<Listener>, name: string)
    ensures |Without(ls, name)| <= |ls|
    ensures CustomCount(Without(ls, name)) <= CustomCount(ls)
    ensures Has(ls, name) ==> |Without(ls, name)| < |ls|
    ensures Has(ls, name) && "d-" <= name ==> CustomCount(Without(ls, name)) < CustomCount(ls)
  {
    if ls == [] {
    } else {
      var front, last := ls[..|ls| - 1], ls[|ls| - 1];
      WithoutCounts(front, name);
      CustomCountAppend(Without(front, name), last);
      if Has(ls, name) && last.name != name {
        var i :| 0 <= i < |ls| && ls[i].name == name;
        assert front[i].name == name;
      }
    }
  }

  lemma {:induction false} WithoutTwice(ls: seq<Listener>, gone: string, name: string)
    ensures |Without(Without(ls, gone), name)| <= |Without(ls, name)|
    ensures CustomCount(Without(Without(ls, gone), name)) <= CustomCount(Without(ls, name))
  {
    if ls == [] {
    } else {
      var front, last := ls[..|ls| - 1], ls[|ls| - 1];
      WithoutTwice(front, gone, name);
      if last.name != gone {
        WithoutAppend(Without(front, gone), last, name);
      }
      if last.name != name {
        CustomCountAppend(Without(front, name), last);
        CustomCountAppend(Without(Without(front, gone), name), last);
      }
    }
  }

  lemma OrgIsNotCustom(l: Listener)
    requires IsOrg(l)
    ensures !IsCustom(l)
  {
    assert l.name[0] == 'o';
  }

  /** A wildcard merge only appends and keeps both limits. */
  lemma {:induction false} MergeSpecsBounds(ls: seq<Listener>, specs: seq<Listener>)
    requires forall i :: 0 <= i < |specs| ==> IsOrg(specs[i])
    requires MergeSpecs(ls, specs).Some?
    ensures var r := MergeSpecs(ls, specs).value;
            && ls <= r
            && (r == ls || |r| <= MAX_LISTENERS)
            && CustomCount(r) == CustomCount(ls)
    decreases |specs|
  {
    if specs == [] {
    } else {
      if Has(ls, specs[0].name) {
        MergeSpecsBounds(ls, specs[1..]);
      } else {
        MergeSpecsBounds(ls + [specs[0]], specs[1..]);
        OrgIsNotCustom(specs[0]);
        CustomCountAppend(ls, specs[0]);
      }
    }
  }

  /** The requested names that are not there yet. */
  function NewNames(ls: seq<Listener>, specs: seq<Listener>): set<string> {
    set i | 0 <= i < |specs| && !Has(ls, specs[i].name) :: specs[i].name
  }

  lemma NewNamesStep(ls: seq<Listener>, specs: seq<Listener>)
    requires specs != []
    ensures var name := specs[0].name;
            if Has(ls, name) then NewNames(ls, specs) == NewNames(ls, specs[1..])
            else
              && name !in NewNames(ls + [specs[0]], specs[1..])
              && NewNames(ls, specs) == NewNames(ls + [specs[0]], specs[1..]) + {name}
  {
    var name, rest, longer := specs[0].name, specs[1..], ls + [specs[0]];
    assert longer[|ls|].name == name;
    assert forall n :: Has(ls, n) ==> Has(longer, n) by {
      forall n | Has(ls, n) ensures Has(longer, n) {
        var i :| 0 <= i < |ls| && ls[i].name == n;
        assert longer[i].name == n;
      }
    }
    assert forall n :: Has(longer, n) ==> Has(ls, n) || n == name;
    forall n | n in NewNames(ls, specs) && n != name ensures n in NewNames(ls, rest) {
      var i :| 0 <= i < |specs| && !Has(ls, specs[i].name) && specs[i].name == n;
      assert rest[i - 1].name == n;
    }
    forall n | n in NewNames(ls, rest) ensures n in NewNames(ls, specs) {
      var i :| 0 <= i < |rest| && !Has(ls, rest[i].name) && rest[i].name == n;
      assert specs[i + 1].name == n;
    }
  }

  /** A wildcard merge is refused exactly when there are names to add and they do not all fit below the ceiling;
      otherwise it adds one listener per new name. */
  lemma {:induction false} MergeSpecsRefusedIff(ls: seq<Listener>, specs: seq<Listener>)
    ensures var added := |NewNames(ls, specs)|;
            && (MergeSpecs(ls, specs).None? <==> added > 0 && |ls| + added > 64)
            && (MergeSpecs(ls, specs).Some? ==> |MergeSpecs(ls, specs).value| == |ls| + added)
    decreases |specs|
  {
    if specs == [] {
      assert NewNames(ls, specs) == {};
    } else {
      NewNamesStep(ls, specs);
      if Has(ls, specs[0].name) {
        MergeSpecsRefusedIff(ls, specs[1..]);
      } else {
        var longer := ls + [specs[0]];
        MergeSpecsRefusedIff(longer, specs[1..]);
        assert |NewNames(ls, specs)| == |NewNames(longer, specs[1..])| + 1;
      }
    }
  }

  /** What it appends is requested, it never repeats a name, and afterwards every request is present. */
  lemma {:induction false} MergeSpecsNames(ls: seq<Listener>, specs: seq<Listener>)
    requires MergeSpecs(ls, specs).Some?
    ensures var r := MergeSpecs(ls, specs).value;
            && ls <= r
            && (UniqueNames(ls) ==> UniqueNames(r))
            && (forall i :: |ls| <= i < |r| ==> r[i] in specs)
            && (forall spec :: spec in specs ==> Has(r, spec.name))
    decreases |specs|
  {
    if specs == [] {
    } else {
      var r := MergeSpecs(ls, specs).value;
      var next := if Has(ls, specs[0].name) then ls else ls + [specs[0]];
      MergeSpecsNames(next, specs[1..]);
      assert Has(next, specs[0].name) by {
        if next != ls {
          assert next[|ls|].name == specs[0].name;
        }
      }
      assert Has(r, specs[0].name) by {
        var j :| 0 <= j < |next| && next[j].name == specs[0].name;
        assert r[j].name == specs[0].name;
      }
      assert specs == [specs[0]] + specs[1..];
    }
  }
}

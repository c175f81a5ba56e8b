/** Refresh-token rotation: the token store and every interleaving of logins, refreshes and revocations. */
module RefreshTokens {
  import opened Prelude

  /** A stored token; an expiry of zero means none. */
  datatype Token = Token(user: string, revoked: bool, expiresAt: int)

  type Store = map<string, Token>

  function RevokeOne(store: Store, id: string): Store {
    if id in store then store[id := store[id].(revoked := true)] else store
  }

  function RevokeAll(store: Store, user: string): Store {
    map id | id in store :: if store[id].user == user then store[id].(revoked := true) else store[id]
  }

  predicate Expired(t: Token, before: int) {
    t.expiresAt != 0 && t.expiresAt < before
  }

  function DeleteExpired(store: Store, before: int): Store {
    map id | id in store && !Expired(store[id], before) :: store[id]
  }

  /** The stored expiry also bounds use: a token is refused from its expiry on. */
  predicate Usable(t: Token, now: int) {
    !t.revoked && (t.expiresAt == 0 || now < t.expiresAt)
  }

  predicate Live(store: Store, id: string) {
    id in store && !store[id].revoked
  }

  /** Where a call stands between two store operations. `parent` is the token that was consumed, if any. */
  datatype Proc =
    | Idle
    | Rotating(id: string)
    | KillingFamily(user: string)
    | Minting(chain: nat, parent: Option<string>)

  /** `owner[c]` is the user of login c. For every id ever issued, `chain` is the login it descends from and
      `parent` the id it replaced; `spent` are the ids a rotation consumed. These histories never shrink. */
  datatype State = State(
    store: Store,
    procs: map<nat, Proc>,
    owner: seq<string>,
    chain: map<string, nat>,
    parent: map<string, string>,
    spent: set<string>)

  datatype Action =
    | Login(p: nat, user: string)
    | Present(p: nat, id: string, now: int)
    | CompareAndSet(p: nat)
    | KillFamily(p: nat)
    | Create(p: nat, id: string, expiresAt: int)
    | Logout(id: string)
    | ResetPassword(user: string)
    | Cleanup(before: int)
    | Abandon(p: nat)

  function ProcOf(s: State, p: nat): Proc {
    if p in s.procs then s.procs[p] else Idle
  }

  function Put(s: State, p: nat, proc: Proc): State {
    s.(procs := s.procs[p := proc])
  }

  function Step(s: State, a: Action): State {
    match a
    case Login(p, user) =>
      if ProcOf(s, p).Idle?
      then Put(s, p, Minting(|s.owner|, None)).(owner := s.owner + [user]) else s
    case Present(p, id, now) =>
      if ProcOf(s, p).Idle? && id in s.store then
        if s.store[id].revoked then Put(s, p, KillingFamily(s.store[id].user))
        else if Usable(s.store[id], now) then Put(s, p, Rotating(id))
        else s
      else s
    case CompareAndSet(p) => if ProcOf(s, p).Rotating? then Rotate(s, p, ProcOf(s, p).id) else s
    case KillFamily(p) =>
      if ProcOf(s, p).KillingFamily?
      then Put(s, p, Idle).(store := RevokeAll(s.store, ProcOf(s, p).user)) else s
    case Create(p, id, expiresAt) =>
      if ProcOf(s, p).Minting? && id !in s.chain then Mint(s, p, ProcOf(s, p), id, expiresAt) else s
    case Logout(id) => s.(store := RevokeOne(s.store, id))
    case ResetPassword(user) => s.(store := RevokeAll(s.store, user))
    case Cleanup(before) => s.(store := DeleteExpired(s.store, before))
    case Abandon(p) => Put(s, p, Idle)
  }

  /** The compare-and-set: gone, lost, or won. */
  function Rotate(s: State, p: nat, id: string): State {
    if id !in s.store || id !in s.chain then Put(s, p, Idle)
    else if s.store[id].revoked then Put(s, p, KillingFamily(s.store[id].user))
    else Put(s, p, Minting(s.chain[id], Some(id))).(store := RevokeOne(s.store, id), spent := s.spent + {id})
  }

  function Mint(s: State, p: nat, proc: Proc, id: string, expiresAt: int): State
    requires proc.Minting?
  {
    if id in s.store || proc.chain >= |s.owner| then Put(s, p, Idle)
    else
      Put(s, p, Idle).(
        store := s.store[id := Token(s.owner[proc.chain], false, expiresAt)],
        chain := s.chain[id := proc.chain],
        parent := if proc.parent.Some? then s.parent[id := proc.parent.value] else s.parent)
  }

  function Run(s: State, acts: seq<Action>): State
    decreases |acts|
  {
    if acts == [] then s else Run(Step(s, acts[0]), acts[1..])
  }

  // ---- invariant ----

  predicate MintsFor(s: State, p: nat, c: nat) {
    p in s.procs && s.procs[p].Minting? && s.procs[p].chain == c
  }

  predicate MintsFrom(s: State, p: nat, id: string) {
    p in s.procs && s.procs[p].Minting? && s.procs[p].parent == Some(id)
  }

  predicate LiveOf(s: State, id: string, c: nat) {
    Live(s.store, id) && id in s.chain && s.chain[id] == c
  }

  ghost predicate Histories(s: State) {
    && (forall id :: id in s.store ==> id in s.chain)
    && (forall id :: id in s.chain ==> s.chain[id] < |s.owner|)
    && (forall id :: id in s.store ==> s.store[id].user == s.owner[s.chain[id]])
    && (forall id :: id in s.spent ==> id in s.chain && !Live(s.store, id))
    && (forall id :: id in s.parent ==>
          id in s.chain && s.parent[id] in s.spent && s.chain[id] == s.chain[s.parent[id]])
    && (forall p :: p in s.procs && s.procs[p].Minting? ==> s.procs[p].chain < |s.owner|)
  }

  /** One successor per consumed id, already stored or still being minted. */
  ghost predicate OneSuccessor(s: State) {
    && (forall x, y :: x in s.parent && y in s.parent && s.parent[x] == s.parent[y] ==> x == y)
    && (forall p, q, id :: MintsFrom(s, p, id) && MintsFrom(s, q, id) ==> p == q)
    && (forall p, id :: MintsFrom(s, p, id) ==> id in s.spent && id in s.chain && s.chain[id] == s.procs[p].chain)
    && (forall p, x :: x in s.parent ==> !MintsFrom(s, p, s.parent[x]))
  }

  /** One live or about-to-be-live token per login. */
  ghost predicate OnePerLogin(s: State) {
    && (forall x, y, c :: LiveOf(s, x, c) && LiveOf(s, y, c) ==> x == y)
    && (forall p, q, c :: MintsFor(s, p, c) && MintsFor(s, q, c) ==> p == q)
    && (forall p, x, c :: MintsFor(s, p, c) ==> !LiveOf(s, x, c))
  }

  ghost predicate Inv(s: State) {
    Histories(s) && OneSuccessor(s) && OnePerLogin(s)
  }

  /** A step that mints nothing: tokens may only die and processes may only stop minting. */
  ghost predicate Quieter(s: State, s': State) {
    && s'.owner == s.owner && s'.chain == s.chain && s'.parent == s.parent && s'.spent == s.spent
    && Fades(s.store, s'.store)
    && (forall p :: p in s'.procs && s'.procs[p].Minting? ==> p in s.procs && s.procs[p] == s'.procs[p])
  }

  lemma QuieterKeeps(s: State, s': State)
    requires Inv(s) && Quieter(s, s')
    ensures Inv(s')
  {
    assert forall p, c :: MintsFor(s', p, c) ==> MintsFor(s, p, c);
    assert forall p, id :: MintsFrom(s', p, id) ==> MintsFrom(s, p, id);
    assert forall id, c :: LiveOf(s', id, c) ==> LiveOf(s, id, c);
  }

  lemma LoginKeeps(s: State, p: nat, user: string)
    requires Inv(s) && ProcOf(s, p).Idle?
    ensures Inv(Step(s, Login(p, user)))
  {
    var s' := Step(s, Login(p, user));
    assert forall q, c :: MintsFor(s', q, c) <==> MintsFor(s, q, c) || (q == p && c == |s.owner|);
    assert forall q, id :: MintsFrom(s', q, id) ==> MintsFrom(s, q, id);
    assert forall id, c: nat :: LiveOf(s', id, c) ==> LiveOf(s, id, c) && c < |s.owner|;
    assert forall q: nat, c: nat :: MintsFor(s, q, c) ==> c < |s.owner|;
  }

  lemma RotateKeeps(s: State, p: nat)
    requires Inv(s) && ProcOf(s, p).Rotating? && Live(s.store, ProcOf(s, p).id)
    ensures Inv(Step(s, CompareAndSet(p)))
  {
    var s', id := Step(s, CompareAndSet(p)), ProcOf(s, p).id;
    var c := s.chain[id];
    assert LiveOf(s, id, c);
    assert forall q, d :: MintsFor(s', q, d) <==> MintsFor(s, q, d) || (q == p && d == c);
    assert forall q, x :: MintsFrom(s', q, x) <==> MintsFrom(s, q, x) || (q == p && x == id);
    assert forall x, d :: LiveOf(s', x, d) ==> LiveOf(s, x, d) && x != id;
    assert id !in s.spent;
  }

  lemma MintEffect(s: State, p: nat, id: string, expiresAt: int)
    requires Inv(s) && ProcOf(s, p).Minting? && id !in s.chain
    ensures var s', proc := Step(s, Create(p, id, expiresAt)), ProcOf(s, p);
            && s'.owner == s.owner && s'.spent == s.spent && s'.procs == s.procs[p := Idle]
            && s'.chain == s.chain[id := proc.chain]
            && s'.store == s.store[id := Token(s.owner[proc.chain], false, expiresAt)]
            && s'.parent == if proc.parent.Some? then s.parent[id := proc.parent.value] else s.parent
  {
    var s' := Step(s, Create(p, id, expiresAt));
    assert id !in s.store;
  }

  lemma MintKeeps(s: State, p: nat, id: string, expiresAt: int)
    requires Inv(s) && ProcOf(s, p).Minting? && id !in s.chain
    ensures Inv(Step(s, Create(p, id, expiresAt)))
  {
    var s', proc := Step(s, Create(p, id, expiresAt)), ProcOf(s, p);
    MintEffect(s, p, id, expiresAt);
    MintHistories(s, s', p, id, expiresAt);
    MintParents(s, s', p, id);
    assert MintsFor(s, p, proc.chain);
    assert forall q, d :: MintsFor(s', q, d) ==> MintsFor(s, q, d) && q != p;
    assert forall q, x :: MintsFrom(s', q, x) ==> MintsFrom(s, q, x) && q != p;
    assert forall x, d :: LiveOf(s', x, d) ==> LiveOf(s, x, d) || (x == id && d == proc.chain);
  }

  lemma MintHistories(s: State, s': State, p: nat, id: string, expiresAt: int)
    requires Inv(s) && ProcOf(s, p).Minting? && id !in s.chain
    requires s'.owner == s.owner && s'.spent == s.spent && s'.procs == s.procs[p := Idle]
    requires s'.chain == s.chain[id := ProcOf(s, p).chain]
    requires ProcOf(s, p).chain < |s.owner|
              && s'.store == s.store[id := Token(s.owner[ProcOf(s, p).chain], false, expiresAt)]
    requires s'.parent == if ProcOf(s, p).parent.Some? then s.parent[id := ProcOf(s, p).parent.value] else s.parent
    ensures Histories(s')
  {
    if ProcOf(s, p).parent.Some? {
      assert MintsFrom(s, p, ProcOf(s, p).parent.value);
    }
    assert id !in s.spent && id !in s.parent;
  }

  lemma MintParents(s: State, s': State, p: nat, id: string)
    requires Inv(s) && ProcOf(s, p).Minting? && id !in s.chain && s'.procs == s.procs[p := Idle]
    requires s'.parent == if ProcOf(s, p).parent.Some? then s.parent[id := ProcOf(s, p).parent.value] else s.parent
    ensures forall q, x :: x in s'.parent ==> !MintsFrom(s', q, s'.parent[x])
    ensures forall x, y :: x in s'.parent && y in s'.parent && s'.parent[x] == s'.parent[y] ==> x == y
  {
    if ProcOf(s, p).parent.Some? {
      assert MintsFrom(s, p, ProcOf(s, p).parent.value);
    }
    assert forall q, x :: MintsFrom(s', q, x) ==> MintsFrom(s, q, x) && q != p;
  }

  lemma StepKeeps(s: State, a: Action)
    requires Inv(s)
    ensures Inv(Step(s, a))
  {
    if a.Login? && ProcOf(s, a.p).Idle? {
      LoginKeeps(s, a.p, a.user);
    } else if a.CompareAndSet? && ProcOf(s, a.p).Rotating? && Live(s.store, ProcOf(s, a.p).id) {
      RotateKeeps(s, a.p);
    } else if a.Create? && ProcOf(s, a.p).Minting? && a.id !in s.chain {
      MintKeeps(s, a.p, a.id, a.expiresAt);
    } else {
      QuietStep(s, a);
      QuieterKeeps(s, Step(s, a));
    }
  }

  /** Nothing but a login, a won compare-and-set and an insert of a minted token adds anything. */
  lemma QuietStep(s: State, a: Action)
    requires Inv(s) && !(a.Login? && ProcOf(s, a.p).Idle?)
    requires !(a.CompareAndSet? && ProcOf(s, a.p).Rotating? && Live(s.store, ProcOf(s, a.p).id))
    requires !(a.Create? && ProcOf(s, a.p).Minting? && a.id !in s.chain)
    ensures Quieter(s, Step(s, a))
  {
    if a.Logout? || a.ResetPassword? || a.Cleanup? || a.KillFamily? {
      RevocationFades(s, a);
    } else {
      WaitingStep(s, a);
      if Step(s, a) != s {
        WaitingIsQuiet(s, a.p, ProcOf(Step(s, a), a.p));
      }
    }
  }

  lemma WaitingStep(s: State, a: Action)
    requires Inv(s) && (a.Login? || a.Present? || a.CompareAndSet? || a.Create? || a.Abandon?)
    requires !(a.Login? && ProcOf(s, a.p).Idle?)
    requires !(a.CompareAndSet? && ProcOf(s, a.p).Rotating? && Live(s.store, ProcOf(s, a.p).id))
    requires !(a.Create? && ProcOf(s, a.p).Minting? && a.id !in s.chain)
    ensures var proc := ProcOf(Step(s, a), a.p);
            Step(s, a) == s || (!proc.Minting? && Step(s, a) == Put(s, a.p, proc))
  {
  }

  lemma WaitingIsQuiet(s: State, p: nat, proc: Proc)
    requires !proc.Minting?
    ensures Quieter(s, Put(s, p, proc))
  {
  }

  /** Tokens may only die or vanish. */
  ghost predicate Fades(store: Store, store': Store) {
    && (forall id :: id in store' ==> id in store && store'[id].user == store[id].user)
    && (forall id :: Live(store', id) ==> Live(store, id))
  }

  lemma RevocationFades(s: State, a: Action)
    requires a.Logout? || a.ResetPassword? || a.Cleanup? || a.KillFamily?
    ensures Fades(s.store, Step(s, a).store)
  {
  }

  lemma {:induction false} RunKeeps(s: State, acts: seq<Action>)
    requires Inv(s)
    ensures Inv(Run(s, acts))
    decreases |acts|
  {
    if acts == [] {
    } else {
      StepKeeps(s, acts[0]);
      RunKeeps(Step(s, acts[0]), acts[1..]);
    }
  }

  const EMPTY := State(map[], map[], [], map[], map[], {})

  // ---- over all runs ----

  /** Each id is replaced at most once, in every run. */
  lemma OneSuccessorEver(acts: seq<Action>, x: string, y: string)
    requires var s := Run(EMPTY, acts); x in s.parent && y in s.parent && s.parent[x] == s.parent[y]
    ensures x == y
  {
    InvFromEmpty(acts);
  }

  ghost function LiveTokens(s: State, user: string): set<string> {
    set id | id in s.store && !s.store[id].revoked && s.store[id].user == user
  }

  ghost function LoginsOf(s: State, user: string): set<nat> {
    set c: nat | c < |s.owner| && s.owner[c] == user
  }

  ghost function MintersFor(s: State, user: string): set<nat> {
    set p | p in s.procs && s.procs[p].Minting? && s.procs[p].chain < |s.owner| && s.owner[s.procs[p].chain] == user
  }

  ghost function LiveLogins(s: State, user: string): set<nat> {
    set id | id in LiveTokens(s, user) && id in s.chain :: s.chain[id]
  }

  lemma LiveInjects(s: State, user: string)
    requires Inv(s)
    ensures |LiveTokens(s, user)| <= |LiveLogins(s, user)|
    ensures LiveLogins(s, user) <= LoginsOf(s, user)
  {
    var live := LiveTokens(s, user);
    var chainOf := map id | id in live :: s.chain[id];
    assert chainOf.Keys == live;
    forall x, y | x in live && y in live && chainOf[x] == chainOf[y] ensures x == y {
      assert LiveOf(s, x, s.chain[x]) && LiveOf(s, y, s.chain[x]);
    }
    InjectionBound(chainOf, LiveLogins(s, user));
  }

  lemma MintersInject(s: State, user: string)
    requires Inv(s)
    ensures |MintersFor(s, user)| <= |LoginsOf(s, user) - LiveLogins(s, user)|
  {
    var minting := MintersFor(s, user);
    var chainOf := map p | p in minting :: s.procs[p].chain;
    assert chainOf.Keys == minting;
    forall p, q | p in minting && q in minting && chainOf[p] == chainOf[q] ensures p == q {
      assert MintsFor(s, p, chainOf[p]) && MintsFor(s, q, chainOf[p]);
    }
    forall p | p in minting ensures chainOf[p] in LoginsOf(s, user) - LiveLogins(s, user) {
      assert MintsFor(s, p, chainOf[p]);
      forall id | id in LiveTokens(s, user) && id in s.chain ensures s.chain[id] != chainOf[p] {
        assert LiveOf(s, id, s.chain[id]);
      }
    }
    InjectionBound(chainOf, LoginsOf(s, user) - LiveLogins(s, user));
  }

  lemma SplitCount(whole: set<nat>, part: set<nat>)
    requires part <= whole
    ensures |whole| == |part| + |whole - part|
  {
    assert whole == part + (whole - part);
  }

  lemma LiveBound(s: State, user: string)
    requires Inv(s)
    ensures |LiveTokens(s, user)| + |MintersFor(s, user)| <= |LoginsOf(s, user)|
  {
    LiveInjects(s, user);
    MintersInject(s, user);
    SplitCount(LoginsOf(s, user), LiveLogins(s, user));
  }

  lemma InvFromEmpty(acts: seq<Action>)
    ensures Inv(Run(EMPTY, acts))
  {
    assert Inv(EMPTY);
    RunKeeps(EMPTY, acts);
  }

  /** A user's live tokens, together with those about to be minted, never outnumber that user's logins. */
  lemma LiveAtMostLogins(acts: seq<Action>, user: string)
    ensures var s := Run(EMPTY, acts);
            |LiveTokens(s, user)| + |MintersFor(s, user)| <= |LoginsOf(s, user)|
  {
    InvFromEmpty(acts);
    LiveBound(Run(EMPTY, acts), user);
  }

  /** An id that was issued and is no longer live is finished: no rotation ever consumes it again, and unless its
      successor is being minted right now it never gets another one. */
  lemma {:induction false} RevokedNeverRefreshes(s: State, acts: seq<Action>, id: string)
    requires Inv(s) && id in s.chain && !Live(s.store, id)
    ensures var s' := Run(s, acts);
            && id in s'.chain && !Live(s'.store, id)
            && (id in s'.spent <==> id in s.spent)
            && ((forall p :: !MintsFrom(s, p, id)) ==>
                  forall x :: x in s'.parent && s'.parent[x] == id ==> x in s.parent && s.parent[x] == id)
    decreases |acts|
  {
    if acts == [] {
    } else {
      DeadStep(s, acts[0], id);
      StepKeeps(s, acts[0]);
      RevokedNeverRefreshes(Step(s, acts[0]), acts[1..], id);
    }
  }

  lemma DeadStep(s: State, a: Action, id: string)
    requires Inv(s) && id in s.chain && !Live(s.store, id)
    ensures var s' := Step(s, a);
            && id in s'.chain && !Live(s'.store, id)
            && (id in s'.spent <==> id in s.spent)
            && ((forall p :: !MintsFrom(s, p, id)) ==>
                  && (forall p :: !MintsFrom(s', p, id))
                  && forall x :: x in s'.parent && s'.parent[x] == id ==> x in s.parent && s.parent[x] == id)
  {
    var s' := Step(s, a);
    if a.Create? && ProcOf(s, a.p).Minting? && a.id !in s.chain {
      MintEffect(s, a.p, a.id, a.expiresAt);
      assert ProcOf(s, a.p).parent == Some(id) ==> MintsFrom(s, a.p, id);
      assert forall p :: MintsFrom(s', p, id) ==> MintsFrom(s, p, id);
    } else if a.CompareAndSet? && ProcOf(s, a.p).Rotating? && Live(s.store, ProcOf(s, a.p).id) {
      assert forall p :: MintsFrom(s', p, id) ==> MintsFrom(s, p, id);
    } else if a.Login? && ProcOf(s, a.p).Idle? {
      assert forall p :: MintsFrom(s', p, id) ==> MintsFrom(s, p, id);
    } else {
      QuietStep(s, a);
      assert forall p :: MintsFrom(s', p, id) ==> MintsFrom(s, p, id);
    }
  }

  // ---- what a rotation needs, and what a token dies of ----

  lemma RunLast(s: State, acts: seq<Action>)
    requires acts != []
    ensures Run(s, acts) == Step(Run(s, acts[..|acts| - 1]), acts[|acts| - 1])
  {
    var front := acts[..|acts| - 1];
    assert acts == front + [acts[|acts| - 1]];
    RunThen(s, front, acts[|acts| - 1]);
  }

  /** Action k presents the id while its row is stored, unrevoked, and without an expiry or before it. */
  ghost predicate PresentedInTime(acts: seq<Action>, k: nat, id: string) {
    && k < |acts| && acts[k].Present? && acts[k].id == id
    && var store := Run(EMPTY, acts[..k]).store;
       id in store && !store[id].revoked && (store[id].expiresAt == 0 || acts[k].now < store[id].expiresAt)
  }

  lemma PresentedEarlier(acts: seq<Action>, n: nat, k: nat, id: string)
    requires n <= |acts| && PresentedInTime(acts[..n], k, id)
    ensures PresentedInTime(acts, k, id)
  {
    assert acts[..n][..k] == acts[..k];
  }

  lemma RotatingEntered(s: State, a: Action, p: nat, id: string)
    requires ProcOf(Step(s, a), p) == Rotating(id) && ProcOf(s, p) != Rotating(id)
    ensures a.Present? && a.p == p && a.id == id
    ensures id in s.store && !s.store[id].revoked && (s.store[id].expiresAt == 0 || a.now < s.store[id].expiresAt)
  {
  }

  /** A process rotates only a token that it presented unrevoked and unexpired. */
  lemma {:induction false} RotatingFrom(acts: seq<Action>, p: nat, id: string) returns (k: nat)
    requires ProcOf(Run(EMPTY, acts), p) == Rotating(id)
    ensures PresentedInTime(acts, k, id) && acts[k].p == p
    decreases |acts|
  {
    if acts == [] {
    } else {
      k := |acts| - 1;
      RunLast(EMPTY, acts);
      if ProcOf(Run(EMPTY, acts[..k]), p) == Rotating(id) {
        var earlier := RotatingFrom(acts[..k], p, id);
        PresentedEarlier(acts, k, earlier, id);
        k := earlier;
      } else {
        RotatingEntered(Run(EMPTY, acts[..k]), acts[k], p, id);
      }
    }
  }

  lemma SpentEntered(s: State, a: Action, id: string)
    requires id in Step(s, a).spent && id !in s.spent
    ensures a.CompareAndSet? && ProcOf(s, a.p) == Rotating(id)
  {
  }

  lemma {:induction false} SpentFrom(acts: seq<Action>, id: string) returns (k: nat)
    requires id in Run(EMPTY, acts).spent
    ensures PresentedInTime(acts, k, id)
    decreases |acts|
  {
    if acts == [] {
    } else {
      var last := |acts| - 1;
      var before := Run(EMPTY, acts[..last]);
      RunLast(EMPTY, acts);
      if id in before.spent {
        k := SpentFrom(acts[..last], id);
      } else {
        SpentEntered(before, acts[last], id);
        k := RotatingFrom(acts[..last], acts[last].p, id);
      }
      PresentedEarlier(acts, last, k, id);
    }
  }

  /** In every run a refreshed token replaces one that was presented while it was stored, unrevoked and unexpired, and
      it belongs to the same login: neither an expired nor a revoked token is ever exchanged. */
  lemma SuccessorWasEarned(acts: seq<Action>, x: string) returns (k: nat)
    requires x in Run(EMPTY, acts).parent
    ensures var s := Run(EMPTY, acts);
            && PresentedInTime(acts, k, s.parent[x])
            && x in s.chain && s.parent[x] in s.chain && s.chain[x] == s.chain[s.parent[x]]
  {
    InvFromEmpty(acts);
    k := SpentFrom(acts, Run(EMPTY, acts).parent[x]);
  }

  /** What takes a live token down: its rotation, its own revocation, a revocation of all of its user's tokens, or
      the collection of its expired row. */
  predicate DiesBy(s: State, a: Action, id: string)
    requires id in s.store
  {
    match a
    case CompareAndSet(p) => ProcOf(s, p) == Rotating(id)
    case KillFamily(p) => ProcOf(s, p) == KillingFamily(s.store[id].user)
    case Logout(other) => other == id
    case ResetPassword(user) => user == s.store[id].user
    case Cleanup(before) => s.store[id].expiresAt != 0 && s.store[id].expiresAt < before
    case _ => false
  }

  /** A step kills a token exactly when it is one of these, and otherwise leaves its row as it is: above all, other
      users' tokens survive whatever happens to this one's. */
  lemma DiesIff(s: State, a: Action, id: string)
    requires Inv(s) && Live(s.store, id)
    ensures Live(Step(s, a).store, id) <==> !DiesBy(s, a, id)
    ensures id in Step(s, a).store ==> Step(s, a).store[id] == s.store[id].(revoked := DiesBy(s, a, id))
  {
    if a.Create? && ProcOf(s, a.p).Minting? && a.id !in s.chain {
      MintEffect(s, a.p, a.id, a.expiresAt);
    }
  }

  ghost predicate NothingKills(s: State, acts: seq<Action>, id: string)
    decreases |acts|
  {
    acts == [] || (id in s.store && !DiesBy(s, acts[0], id) && NothingKills(Step(s, acts[0]), acts[1..], id))
  }

  lemma {:induction false} LivesOnIff(s: State, acts: seq<Action>, id: string)
    requires Inv(s) && Live(s.store, id)
    ensures Live(Run(s, acts).store, id) <==> NothingKills(s, acts, id)
    ensures NothingKills(s, acts, id) ==> Run(s, acts).store[id] == s.store[id]
    decreases |acts|
  {
    if acts == [] {
    } else {
      StepKeeps(s, acts[0]);
      DiesIff(s, acts[0], id);
      if DiesBy(s, acts[0], id) {
        RevokedNeverRefreshes(Step(s, acts[0]), acts[1..], id);
      } else {
        LivesOnIff(Step(s, acts[0]), acts[1..], id);
      }
    }
  }

  /** The process finds the id revoked, by presenting it or at its compare-and-set. */
  predicate FindsRevoked(s: State, a: Action, p: nat, id: string, user: string) {
    && id in s.store && s.store[id].revoked && s.store[id].user == user
    && ((a == CompareAndSet(p) && ProcOf(s, p) == Rotating(id)) || (a.Present? && a.p == p && a.id == id))
  }

  lemma KillingEntered(s: State, a: Action, p: nat, user: string) returns (id: string)
    requires ProcOf(Step(s, a), p) == KillingFamily(user) && ProcOf(s, p) != KillingFamily(user)
    ensures FindsRevoked(s, a, p, id, user)
  {
    id := if a.Present? then a.id else ProcOf(s, p).id;
  }

  ghost predicate FoundAt(acts: seq<Action>, k: nat, p: nat, id: string, user: string) {
    k < |acts| && FindsRevoked(Run(EMPTY, acts[..k]), acts[k], p, id, user)
  }

  lemma FoundEarlier(acts: seq<Action>, n: nat, k: nat, p: nat, id: string, user: string)
    requires n <= |acts| && FoundAt(acts[..n], k, p, id, user)
    ensures FoundAt(acts, k, p, id, user)
  {
    assert acts[..n][..k] == acts[..k];
  }

  /** A family is killed only after one of its tokens was found revoked. */
  lemma {:induction false} KillingFrom(acts: seq<Action>, p: nat, user: string) returns (k: nat, id: string)
    requires ProcOf(Run(EMPTY, acts), p) == KillingFamily(user)
    ensures FoundAt(acts, k, p, id, user)
    decreases |acts|
  {
    if acts == [] {
    } else {
      var last := |acts| - 1;
      RunLast(EMPTY, acts);
      var before := Run(EMPTY, acts[..last]);
      if ProcOf(before, p) == KillingFamily(user) {
        k, id := KillingFrom(acts[..last], p, user);
        FoundEarlier(acts, last, k, p, id, user);
      } else {
        id := KillingEntered(before, acts[last], p, user);
        k := last;
      }
    }
  }

  // ---- what revoking a whole family achieves ----

  ghost predicate NoLive(s: State, user: string) {
    forall id :: Live(s.store, id) ==> s.store[id].user != user
  }

  ghost predicate NoMinter(s: State, user: string) {
    forall p :: p in s.procs && s.procs[p].Minting? && s.procs[p].chain < |s.owner| ==>
              s.owner[s.procs[p].chain] != user
  }

  predicate NoLoginOf(acts: seq<Action>, user: string) {
    forall k :: 0 <= k < |acts| && acts[k].Login? ==> acts[k].user != user
  }

  lemma SilentStep(s: State, a: Action, user: string)
    requires Inv(s) && NoLive(s, user) && NoMinter(s, user) && (a.Login? ==> a.user != user)
    ensures NoLive(Step(s, a), user) && NoMinter(Step(s, a), user)
  {
    var s' := Step(s, a);
    if a.Create? && ProcOf(s, a.p).Minting? && a.id !in s.chain {
      MintEffect(s, a.p, a.id, a.expiresAt);
    } else if a.CompareAndSet? && ProcOf(s, a.p).Rotating? && Live(s.store, ProcOf(s, a.p).id) {
      assert LiveOf(s, ProcOf(s, a.p).id, s.chain[ProcOf(s, a.p).id]);
    } else if a.Login? && ProcOf(s, a.p).Idle? {
    } else {
      QuietStep(s, a);
    }
  }

  lemma {:induction false} SilentRun(s: State, acts: seq<Action>, user: string)
    requires Inv(s) && NoLive(s, user) && NoMinter(s, user) && NoLoginOf(acts, user)
    ensures NoLive(Run(s, acts), user)
    decreases |acts|
  {
    if acts == [] {
    } else {
      SilentStep(s, acts[0], user);
      StepKeeps(s, acts[0]);
      SilentRun(Step(s, acts[0]), acts[1..], user);
    }
  }

  /** Revoking all of a user's tokens ends every session until the next login exactly when no rotation or login of
      that user is between its compare-and-set and its insert; one that is still brings a live token back. */
  lemma RevokeAllIsFinalIff(s: State, user: string, newId: string)
    requires Inv(s) && newId !in s.chain
    ensures (forall acts :: NoLoginOf(acts, user) ==> NoLive(Run(Step(s, ResetPassword(user)), acts), user))
            <==> NoMinter(s, user)
  {
    var s0 := Step(s, ResetPassword(user));
    StepKeeps(s, ResetPassword(user));
    if NoMinter(s, user) {
      forall acts | NoLoginOf(acts, user) ensures NoLive(Run(s0, acts), user) {
        SilentRun(s0, acts, user);
      }
    } else {
      var p :| p in s.procs && s.procs[p].Minting? && s.procs[p].chain < |s.owner| && s.owner[s.procs[p].chain] == user;
      var acts := [Create(p, newId, 0)];
      MintEffect(s0, p, newId, 0);
      assert acts[1..] == [];
      assert Run(s0, acts) == Step(s0, acts[0]);
      assert Live(Step(s0, acts[0]).store, newId) && Step(s0, acts[0]).store[newId].user == user;
      assert NoLoginOf(acts, user) && !NoLive(Run(s0, acts), user);
    }
  }

  // ---- one refresh, uninterrupted ----

  datatype Claim = Claim(id: string, subject: string)

  datatype Outcome = Rejected | StoreConflict | Issued(id: string)

  /** A presented token that passed signature checks: the outcome and the new store. `store` is what the first
      read sees, `later` what the compare-and-set finds, and `known` whether the subject still exists. */
  function RefreshSpec(store: Store, later: Store, claim: Option<Claim>, known: bool, now: int, newId: string,
                       expiresAt: int): (Outcome, Store)
  {
    if claim.None? || claim.value.id == "" || claim.value.id !in store then (Rejected, store)
    else
      var id, rec := claim.value.id, store[claim.value.id];
      if rec.revoked then (Rejected, RevokeAll(store, rec.user))
      else if !Usable(rec, now) || !known then (Rejected, store)
      else if id !in later then (Rejected, later)
      else if later[id].revoked then (Rejected, RevokeAll(later, rec.user))
      else
        var spent := RevokeOne(later, id);
        if newId in spent then (StoreConflict, spent)
        else (Issued(newId), spent[newId := Token(claim.value.subject, false, expiresAt)])
  }

  /** A token is exchanged exactly when its row is stored, unrevoked, and without an expiry or before it, its user is
      known, its row is still there unrevoked at the compare-and-set, and the new id is free. Then it is dead, the new
      one is live, and all else is as the others left it. */
  lemma IssuedIff(store: Store, later: Store, claim: Option<Claim>, known: bool, now: int, newId: string,
                  expiresAt: int)
    ensures var (out, after) := RefreshSpec(store, later, claim, known, now, newId, expiresAt);
            && (out.Issued? <==>
                  && claim.Some? && claim.value.id != "" && claim.value.id in store && known
                  && !store[claim.value.id].revoked
                  && (store[claim.value.id].expiresAt == 0 || now < store[claim.value.id].expiresAt)
                  && claim.value.id in later && !later[claim.value.id].revoked && newId !in later)
            && (out.Issued? ==>
                  && out.id == newId && after.Keys == later.Keys + {newId}
                  && after[newId] == Token(claim.value.subject, false, expiresAt)
                  && after[claim.value.id] == later[claim.value.id].(revoked := true)
                  && forall id :: id in later && id != claim.value.id ==> after[id] == later[id])
  {
  }

  /** Who finds the token revoked, at once or at the compare-and-set, is refused and ends all sessions of its user,
      and nobody else's; who finds it gone changes nothing. */
  lemma ReplayEndsTheFamily(store: Store, later: Store, claim: Claim, now: int, newId: string, expiresAt: int)
    requires claim.id != "" && claim.id in store
    requires store[claim.id].revoked
             || (Usable(store[claim.id], now) && (claim.id !in later || later[claim.id].revoked))
    ensures var (out, after) := RefreshSpec(store, later, Some(claim), true, now, newId, expiresAt);
            var found := if store[claim.id].revoked then store else later;
            && out == Rejected && after.Keys == found.Keys
            && forall id :: id in found ==>
                 after[id] == if found[id].user == store[claim.id].user && claim.id in found
                              then found[id].(revoked := true) else found[id]
  {
  }

  /** Collecting rows that have expired by now never changes whether a token is exchanged. */
  lemma CleanupIsInvisible(store: Store, claim: Option<Claim>, known: bool, now: int, newId: string, expiresAt: int,
                           before: int)
    requires before <= now && newId !in store
    ensures var cleaned := DeleteExpired(store, before);
            RefreshSpec(cleaned, cleaned, claim, known, now, newId, expiresAt).0.Issued?
            <==> RefreshSpec(store, store, claim, known, now, newId, expiresAt).0.Issued?
  {
    IssuedIff(store, store, claim, known, now, newId, expiresAt);
  }

  /** Presenting a rotated token again takes its successor down, exactly as long as garbage collection has kept
      the rotated token's row as a tombstone. */
  lemma ReplayIsDetectedIff(store: Store, claim: Claim, now: int, newId: string, expiresAt: int, before: int,
                            later: int, otherId: string, otherExpiry: int)
    requires RefreshSpec(store, store, Some(claim), true, now, newId, expiresAt).0 == Issued(newId)
    requires store[claim.id].user == claim.subject
    requires !Expired(Token(claim.subject, false, expiresAt), before)
    ensures var rotated := DeleteExpired(RefreshSpec(store, store, Some(claim), true, now, newId, expiresAt).1, before);
            var replayed := RefreshSpec(rotated, rotated, Some(claim), true, later, otherId, otherExpiry);
            && Live(rotated, newId) && replayed.0 == Rejected
            && (!Live(replayed.1, newId) <==> !Expired(store[claim.id], before))
  {
  }

  /** The interleaved protocol, run by one call alone, is that refresh. */
  lemma AloneIsRefresh(s: State, p: nat, id: string, now: int, newId: string, expiresAt: int)
    requires Inv(s) && ProcOf(s, p).Idle? && id != "" && newId !in s.chain
    requires id in s.store
    ensures var claim := Some(Claim(id, s.store[id].user));
            var acts := if s.store[id].revoked then [Present(p, id, now), KillFamily(p)]
                        else [Present(p, id, now), CompareAndSet(p)] + [Create(p, newId, expiresAt)];
            Run(s, acts).store == RefreshSpec(s.store, s.store, claim, true, now, newId, expiresAt).1
  {
    var s1 := Step(s, Present(p, id, now));
    if s.store[id].revoked {
      RunTwo(s, Present(p, id, now), KillFamily(p));
    } else {
      var s2 := Step(s1, CompareAndSet(p));
      RunTwo(s, Present(p, id, now), CompareAndSet(p));
      RunThen(s, [Present(p, id, now), CompareAndSet(p)], Create(p, newId, expiresAt));
      if Usable(s.store[id], now) {
        assert s1.procs[p] == Rotating(id);
        StepKeeps(s, Present(p, id, now));
        StepKeeps(s1, CompareAndSet(p));
        MintEffect(s2, p, newId, expiresAt);
      } else {
        assert s1 == s && s2 == s;
      }
    }
  }

  /** So with nobody in between, presenting a stored token brings the new one to life exactly when the token is neither
      revoked nor expired. */
  lemma AloneSucceedsIff(s: State, p: nat, id: string, now: int, newId: string, expiresAt: int)
    requires Inv(s) && ProcOf(s, p).Idle? && id != "" && newId !in s.chain
    requires id in s.store
    ensures var acts := if s.store[id].revoked then [Present(p, id, now), KillFamily(p)]
                        else [Present(p, id, now), CompareAndSet(p)] + [Create(p, newId, expiresAt)];
            Live(Run(s, acts).store, newId)
            <==> !s.store[id].revoked && (s.store[id].expiresAt == 0 || now < s.store[id].expiresAt)
  {
    AloneIsRefresh(s, p, id, now, newId, expiresAt);
    IssuedIff(s.store, s.store, Some(Claim(id, s.store[id].user)), true, now, newId, expiresAt);
    assert newId !in s.store;
  }

  lemma RunTwo(s: State, a: Action, b: Action)
    ensures Run(s, [a, b]) == Step(Step(s, a), b)
  {
    assert [a, b][1..] == [b] && [b][1..] == [];
    assert Run(Step(s, a), [b]) == Run(Step(Step(s, a), b), []);
  }

  lemma {:induction false} RunThen(s: State, acts: seq<Action>, a: Action)
    ensures Run(s, acts + [a]) == Step(Run(s, acts), a)
    decreases |acts|
  {
    if acts == [] {
      assert ([] + [a])[1..] == [];
    } else {
      RunThen(Step(s, acts[0]), acts[1..], a);
      assert (acts + [a])[1..] == acts[1..] + [a];
    }
  }
}

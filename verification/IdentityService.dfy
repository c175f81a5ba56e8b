/** The refresh-token operations as the store and the identity service run them. */
module IdentityService {
  import opened Prelude
  import opened RefreshTokens

  /** What other replicas do to the store between a refresh's read and its compare-and-set. */
  datatype Other =
    | OtherCreate(id: string, t: Token)
    | OtherRevoke(id: string)
    | OtherRevokeAll(user: string)
    | OtherCleanup(before: int)

  function Meanwhile(store: Store, others: seq<Other>): Store {
    if others == [] then store
    else
      var s := Meanwhile(store, others[..|others| - 1]);
      match others[|others| - 1]
      case OtherCreate(id, t) => if id in s then s else s[id := t]
      case OtherRevoke(id) => RevokeOne(s, id)
      case OtherRevokeAll(user) => RevokeAll(s, user)
      case OtherCleanup(before) => DeleteExpired(s, before)
  }

  /** The claim names a stored token of a known user that is neither revoked nor past its expiry. */
  predicate Presentable(store: Store, claim: Option<Claim>, known: bool, now: int) {
    && claim.Some? && claim.value.id != "" && claim.value.id in store && known
    && !store[claim.value.id].revoked
    && (store[claim.value.id].expiresAt == 0 || now < store[claim.value.id].expiresAt)
  }

  class Service {
    const refreshTTL: int
    var tokens: Store

    constructor (refreshTTL: int)
      ensures this.refreshTTL == refreshTTL && tokens == map[]
    {
      this.refreshTTL := refreshTTL;
      tokens := map[];
    }

    method CreateRefreshToken(id: string, t: Token) returns (ok: bool)
      modifies this
      ensures ok <==> id !in old(tokens)
      ensures tokens == if ok then old(tokens)[id := t] else old(tokens)
    {
      if id in tokens {
        return false;
      }
      tokens := tokens[id := t];
      return true;
    }

    method RevokeRefreshToken(id: string) returns (found: bool)
      modifies this
      ensures found <==> id in old(tokens)
      ensures tokens == RevokeOne(old(tokens), id)
    {
      if id !in tokens {
        return false;
      }
      tokens := tokens[id := tokens[id].(revoked := true)];
      return true;
    }

    /** The compare-and-set of a rotation: None when the row is gone, Some(false) when it was revoked already. */
    method RevokeRefreshTokenIfActive(id: string) returns (won: Option<bool>)
      modifies this
      ensures won == if id !in old(tokens) then None else Some(!old(tokens)[id].revoked)
      ensures tokens == if won == Some(true) then RevokeOne(old(tokens), id) else old(tokens)
    {
      if id !in tokens {
        return None;
      }
      if tokens[id].revoked {
        return Some(false);
      }
      tokens := tokens[id := tokens[id].(revoked := true)];
      return Some(true);
    }

    method RevokeAllUserRefreshTokens(user: string)
      modifies this
      ensures tokens == RevokeAll(old(tokens), user)
    {
      var rest := tokens.Keys;
      while rest != {}
        invariant rest <= tokens.Keys && tokens.Keys == old(tokens).Keys
        invariant forall id :: id in tokens ==>
                    tokens[id] == if id in rest then old(tokens)[id] else RevokeAll(old(tokens), user)[id]
        decreases |rest|
      {
        var id :| id in rest;
        rest := rest - {id};
        if tokens[id].user == user && !tokens[id].revoked {
          tokens := tokens[id := tokens[id].(revoked := true)];
        }
      }
    }

    /** Garbage collection drops expired rows and nothing else, and counts them. */
    method DeleteExpiredRefreshTokens(before: int) returns (n: nat)
      modifies this
      ensures tokens == DeleteExpired(old(tokens), before)
      ensures n == |old(tokens)| - |tokens|
    {
      n := 0;
      var rest := tokens.Keys;
      while rest != {}
        invariant rest <= tokens.Keys <= old(tokens).Keys
        invariant forall id :: id in tokens ==> tokens[id] == old(tokens)[id]
        invariant forall id :: id in old(tokens) ==> (id in tokens <==> id in rest || !Expired(old(tokens)[id], before))
        invariant n + |tokens| == |old(tokens)|
        decreases |rest|
      {
        var id :| id in rest;
        rest := rest - {id};
        if Expired(tokens[id], before) {
          ghost var was := tokens;
          tokens := tokens - {id};
          assert tokens.Keys == was.Keys - {id};
          n := n + 1;
        }
      }
    }

    /** Mint a token pair; the refresh token's record mirrors its expiry. */
    method Issue(user: string, now: int, jti: string) returns (out: Outcome)
      modifies this
      ensures out == if jti in old(tokens) then StoreConflict else Issued(jti)
      ensures tokens == if jti in old(tokens) then old(tokens)
                        else old(tokens)[jti := Token(user, false, if refreshTTL > 0 then now + refreshTTL else 0)]
    {
      var rec := Token(user, false, 0);
      if refreshTTL > 0 {
        rec := rec.(expiresAt := now + refreshTTL);
      }
      var ok := CreateRefreshToken(jti, rec);
      return if ok then Issued(jti) else StoreConflict;
    }

    method OthersRun(others: seq<Other>)
      modifies this
      ensures tokens == Meanwhile(old(tokens), others)
    {
      for k := 0 to |others|
        invariant tokens == Meanwhile(old(tokens), others[..k])
      {
        assert others[..k + 1][..k] == others[..k];
        match others[k]
        case OtherCreate(id, t) => var _ := CreateRefreshToken(id, t);
        case OtherRevoke(id) => var _ := RevokeRefreshToken(id);
        case OtherRevokeAll(user) => RevokeAllUserRefreshTokens(user);
        case OtherCleanup(before) => var _ := DeleteExpiredRefreshTokens(before);
      }
      assert others[..|others|] == others;
    }

    /** Exchange a refresh token for a new one. `claim` is what verification made of the presented string. */
    method Refresh(claim: Option<Claim>, known: bool, now: int, jti: string, others: seq<Other>) returns (out: Outcome)
      modifies this
      ensures (out, tokens) == RefreshSpec(old(tokens), Meanwhile(old(tokens), others), claim, known, now, jti,
                                           if refreshTTL > 0 then now + refreshTTL else 0)
      ensures (out.Issued? ==> Presentable(old(tokens), claim, known, now))
              && (Presentable(old(tokens), claim, known, now) && others == [] && jti !in old(tokens)
                  ==> out == Issued(jti))
    {
      if claim.None? || claim.value.id == "" {
        return Rejected;
      }
      var id := claim.value.id;
      if id !in tokens {
        return Rejected;
      }
      var rec := tokens[id];
      if rec.revoked {
        RevokeAllUserRefreshTokens(rec.user);
        return Rejected;
      }
      if rec.expiresAt != 0 && !(now < rec.expiresAt) {
        return Rejected;
      }
      if !known {
        return Rejected;
      }
      OthersRun(others);
      var won := RevokeRefreshTokenIfActive(id);
      if won == None {
        return Rejected;
      }
      if won == Some(false) {
        RevokeAllUserRefreshTokens(rec.user);
        return Rejected;
      }
      out := Issue(claim.value.subject, now, jti);
    }

    method Logout(claim: Option<Claim>)
      modifies this
      ensures tokens
                == if claim.None? || claim.value.id == "" then old(tokens) else RevokeOne(old(tokens), claim.value.id)
    {
      if claim.Some? && claim.value.id != "" {
        var _ := RevokeRefreshToken(claim.value.id);
      }
    }
  }
}

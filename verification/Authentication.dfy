/** The token check as it runs, with a cache in front of the table, proved to decide exactly
    as the table alone whatever the cache holds. */
module Authentication {
  import opened Wrappers
  import opened Tokens

  datatype CachedUser = CachedUser(id: string, active: bool)

  /** `marked` is the versioned marker only a non-SAML validation writes. */
  datatype Cached = Cached(token: string, user: Option<CachedUser>, marked: bool)

  /** The decision on a presented token, decryption included, with no cache. */
  function DecideToken(secrets: map<string, Claims>, tokens: map<string, TokenRow>, dir: Directory, token: string,
                       now: nat): Decision
  {
    if token == "" then Decision(Denied(EmptyToken), tokens)
    else if token !in secrets then Decision(Denied(Undecryptable), tokens)
    else Decide(tokens, dir, secrets[token], now)
  }

  /** A presented token is accepted exactly when it decrypts to a live token within its scope. */
  lemma PresentedExactly(secrets: map<string, Claims>, tokens: map<string, TokenRow>, dir: Directory, token: string,
                         now: nat)
    ensures
      var d := DecideToken(secrets, tokens, dir, token, now);
      && (d.result.Accepted? <==>
            && token != "" && token in secrets && LiveToken(tokens, dir, secrets[token], now)
            && (tokens[secrets[token].id].saml ==> WithinScope(tokens[secrets[token].id], dir)))
      && (d.result == Denied(EmptyToken) <==> token == "")
      && (d.result == Denied(Undecryptable) <==> token != "" && token !in secrets)
      && (d.tokens != tokens ==> token != "" && token in secrets)
  {
    if token != "" && token in secrets { AcceptedExactly(tokens, dir, secrets[token], now); }
  }

  class Authenticator {
    const secrets: map<string, Claims>
    var tokens: map<string, TokenRow>
    var dir: Directory
    var cache: map<string, Cached>

    constructor (secrets: map<string, Claims>, tokens: map<string, TokenRow>, dir: Directory,
                 cache: map<string, Cached>)
      ensures this.secrets == secrets && this.tokens == tokens && this.dir == dir && this.cache == cache
    {
      this.secrets, this.tokens, this.dir, this.cache := secrets, tokens, dir, cache;
    }

    /** One query that both checks and touches a non-SAML token. */
    method TouchNonSamlAccessToken(id: string, user: string, now: nat) returns (touched: bool)
      modifies this`tokens
      ensures touched <==> id in old(tokens) && !old(tokens)[id].saml
                           && old(tokens)[id].user == user && ActiveUser(dir, user)
                           && old(tokens)[id].access && old(tokens)[id].active && Fresh(old(tokens)[id], now)
      ensures tokens == if touched then Touched(old(tokens), id, now) else old(tokens)
    {
      touched := false;
      if id in tokens && tokens[id].user == user && ActiveUser(dir, user) && tokens[id].access && tokens[id].active {
        if tokens[id].lastUsed.Some? && tokens[id].lastUsed.value + LIFETIME >= now && !tokens[id].saml {
          tokens := Touched(tokens, id, now);
          touched := true;
        }
      }
    }

    /** Cache transparency: for any cache contents the result, the user, the scope and the
        token rows left behind are those of the table alone; only the cache's entry for this
        token may change, and no entry is written for a SAML token. */
    method DecodeToken(token: string, now: nat) returns (r: Result)
      modifies this`tokens, this`cache
      ensures Decision(r, tokens) == DecideToken(secrets, old(tokens), dir, token, now)
      ensures forall id :: id in cache && (id !in old(cache) || cache[id] != old(cache)[id]) ==>
                             r.Accepted? && r.scope.None? && id in tokens && !tokens[id].saml
      ensures token in secrets ==>
                forall id :: id in old(cache) && id != secrets[token].id ==> id in cache && cache[id] == old(cache)[id]
    {
      if token == "" {
        return Denied(EmptyToken);
      }
      if token !in secrets {
        return Denied(Undecryptable);
      }
      var claims := secrets[token];
      if claims.user == "" {
        return Denied(NoUser);
      }
      var id := claims.id;
      if id in cache && cache[id].marked {
        var user := cache[id].user;
        if user.Some? && user.value.id == claims.user && user.value.active && cache[id].token == token {
          var touched := TouchNonSamlAccessToken(id, claims.user, now);
          if touched {
            cache := cache[id := Cached(token, user, true)];
            return Accepted(user.value.id, None);
          }
        }
      }
      if id in cache {
        cache := cache - {id};
      }
      if id !in tokens {
        return Denied(NotAToken);
      }
      var row := tokens[id];
      if row.saml {
        r := ValidateSaml(row, claims, dir, now);
        if r.Accepted? {
          tokens := Touched(tokens, id, now);
        }
        return;
      }
      if row.user != claims.user || !row.access {
        return Denied(NotAToken);
      }
      if !row.active {
        return Denied(Inactive);
      }
      if row.lastUsed.None? || row.lastUsed.value + LIFETIME < now {
        tokens := tokens[id := row.(active := false)];
        return Denied(Idle);
      }
      if !ActiveUser(dir, claims.user) {
        return Denied(UserGone);
      }
      var touched := TouchNonSamlAccessToken(id, claims.user, now);
      if !touched {
        return Denied(NotAToken);
      }
      cache := cache[id := Cached(token, Some(CachedUser(claims.user, true)), true)];
      r := Accepted(claims.user, None);
    }
  }
}

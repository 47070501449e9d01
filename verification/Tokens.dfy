/** Access tokens: the decision the token table makes on a presented token, what it rests
    on, and the inactivity limit over whole runs of calls. */
module Tokens {
  import opened Wrappers

  /** Two days of inactivity, in seconds. */
  const LIFETIME: nat := 2 * 24 * 60 * 60

  datatype TokenRow = TokenRow(
    user: string,
    access: bool,
    active: bool,
    lastUsed: Option<nat>,
    saml: bool,
    org: Option<string>,
    idp: Option<string>,
    generation: Option<int>)

  datatype Provider = Provider(org: string, enabled: bool, generation: int)

  /** The other tables a decision reads: users with their active flag, active organization
      memberships, and SAML identity providers. */
  datatype Directory = Directory(
    users: map<string, bool>,
    memberships: set<(string, string)>,
    providers: map<string, Provider>)

  /** What a token decrypts to. */
  datatype Claims = Claims(user: string, id: string)

  datatype Credential = Credential(id: string, user: string, org: string, idp: string, generation: int,
                                   validatedAt: nat)

  datatype Reason =
    | EmptyToken | Undecryptable | NoUser | NotAToken | Inactive | Idle | UserGone
    | SamlType | SamlInactive | SamlIdle | SamlUser | SamlScope | SamlUserInactive
    | SamlMembership | SamlProvider | SamlGeneration

  datatype Result = Accepted(user: string, scope: Option<Credential>) | Denied(reason: Reason)

  predicate ActiveUser(dir: Directory, user: string) {
    user in dir.users && dir.users[user]
  }

  /** Used within the inactivity limit. */
  predicate Fresh(row: TokenRow, now: nat) {
    row.lastUsed.Some? && row.lastUsed.value + LIFETIME >= now
  }

  /** The SAML boundaries, checked in order against the live tables. */
  function ValidateSaml(row: TokenRow, c: Claims, dir: Directory, now: nat): Result {
    if !row.access then Denied(SamlType)
    else if !row.active then Denied(SamlInactive)
    else if !Fresh(row, now) then Denied(SamlIdle)
    else if row.user != c.user then Denied(SamlUser)
    else if row.org.None? || row.idp.None? || row.generation.None? then Denied(SamlScope)
    else if !ActiveUser(dir, row.user) then Denied(SamlUserInactive)
    else if (row.user, row.org.value) !in dir.memberships then Denied(SamlMembership)
    else if row.idp.value !in dir.providers || !dir.providers[row.idp.value].enabled
            || dir.providers[row.idp.value].org != row.org.value then Denied(SamlProvider)
    else if dir.providers[row.idp.value].generation != row.generation.value then Denied(SamlGeneration)
    else Accepted(row.user, Some(Credential(c.id, row.user, row.org.value, row.idp.value, row.generation.value, now)))
  }

  function Touched(tokens: map<string, TokenRow>, id: string, now: nat): map<string, TokenRow>
    requires id in tokens
  {
    tokens[id := tokens[id].(lastUsed := Some(now))]
  }

  datatype Decision = Decision(result: Result, tokens: map<string, TokenRow>)

  /** The decision on a decrypted token with no cache anywhere. */
  function Decide(tokens: map<string, TokenRow>, dir: Directory, c: Claims, now: nat): Decision {
    if c.user == "" then Decision(Denied(NoUser), tokens)
    else if c.id !in tokens then Decision(Denied(NotAToken), tokens)
    else
      var row := tokens[c.id];
      if row.saml then
        var r := ValidateSaml(row, c, dir, now);
        Decision(r, if r.Accepted? then Touched(tokens, c.id, now) else tokens)
      else if row.user != c.user || !row.access then Decision(Denied(NotAToken), tokens)
      else if !row.active then Decision(Denied(Inactive), tokens)
      else if !Fresh(row, now) then Decision(Denied(Idle), tokens[c.id := row.(active := false)])
      else if !ActiveUser(dir, c.user) then Decision(Denied(UserGone), tokens)
      else Decision(Accepted(c.user, None), Touched(tokens, c.id, now))
  }

  /** A live token: its row is an active access token of the claimed user, used within the last
      two days, and the user is active. */
  predicate LiveToken(tokens: map<string, TokenRow>, dir: Directory, c: Claims, now: nat) {
    && c.user != "" && c.id in tokens
    && tokens[c.id].user == c.user && tokens[c.id].access && tokens[c.id].active
    && tokens[c.id].lastUsed.Some? && now <= tokens[c.id].lastUsed.value + 172800
    && c.user in dir.users && dir.users[c.user]
  }

  /** The organization boundary of a SAML token: a member of the organization it is scoped
      to, whose provider is enabled there and still on the generation that issued it. */
  predicate WithinScope(row: TokenRow, dir: Directory) {
    && row.org.Some? && row.idp.Some? && row.generation.Some?
    && (row.user, row.org.value) in dir.memberships
    && row.idp.value in dir.providers
    && dir.providers[row.idp.value] == Provider(row.org.value, true, row.generation.value)
  }

  /** A token is accepted exactly when it is live and, if SAML issued it, within its scope; it
      then carries that scope, and only a SAML token carries one.  All that changes in the table
      is when it was last used. */
  lemma AcceptedExactly(tokens: map<string, TokenRow>, dir: Directory, c: Claims, now: nat)
    ensures
      var d := Decide(tokens, dir, c, now);
      && (d.result.Accepted? <==>
            LiveToken(tokens, dir, c, now) && (tokens[c.id].saml ==> WithinScope(tokens[c.id], dir)))
      && (d.result.Accepted? ==>
            && d.result.user == c.user
            && d.tokens == tokens[c.id := tokens[c.id].(lastUsed := Some(now))]
            && (d.result.scope.Some? <==> tokens[c.id].saml)
            && (tokens[c.id].saml ==>
                  d.result.scope.value
                  == Credential(c.id, c.user, tokens[c.id].org.value, tokens[c.id].idp.value,
                                tokens[c.id].generation.value, now)))
  {}

  /** A non-SAML token that is only too long unused. */
  predicate OnlyIdle(tokens: map<string, TokenRow>, c: Claims, now: nat) {
    && c.user != "" && c.id in tokens && !tokens[c.id].saml
    && tokens[c.id].user == c.user && tokens[c.id].access && tokens[c.id].active
    && (tokens[c.id].lastUsed.None? || tokens[c.id].lastUsed.value + 172800 < now)
  }

  /** Such a token is denied for that, and its row deactivated; no other denial changes anything. */
  lemma IdleIsDeactivated(tokens: map<string, TokenRow>, dir: Directory, c: Claims, now: nat)
    ensures
      var d := Decide(tokens, dir, c, now);
      && (d.result == Denied(Idle) <==> OnlyIdle(tokens, c, now))
      && (d.result == Denied(Idle) ==> d.tokens == tokens[c.id := tokens[c.id].(active := false)])
      && (d.result.Denied? && d.result.reason != Idle ==> d.tokens == tokens)
  {}

  /** Why a non-SAML token is denied otherwise. */
  lemma DeniedBecause(tokens: map<string, TokenRow>, dir: Directory, c: Claims, now: nat)
    requires c.id in tokens ==> !tokens[c.id].saml
    ensures
      var r := Decide(tokens, dir, c, now).result;
      && (r == Denied(NoUser) <==> c.user == "")
      && (r == Denied(NotAToken) <==>
            c.user != "" && (c.id in tokens ==> tokens[c.id].user != c.user || !tokens[c.id].access))
      && (r == Denied(Inactive) <==>
            && c.user != "" && c.id in tokens && tokens[c.id].user == c.user && tokens[c.id].access
            && !tokens[c.id].active)
      && (r == Denied(UserGone) <==>
            && c.user != "" && c.id in tokens && tokens[c.id].user == c.user && tokens[c.id].access
            && tokens[c.id].active && !OnlyIdle(tokens, c, now) && !(c.user in dir.users && dir.users[c.user]))
  {}

  /** The boundaries of a SAML token, in the order they are checked. */
  function Boundaries(row: TokenRow, c: Claims, dir: Directory, now: nat): seq<(bool, Reason)> {
    [(row.access, SamlType),
     (row.active, SamlInactive),
     (row.lastUsed.Some? && now <= row.lastUsed.value + 172800, SamlIdle),
     (row.user == c.user, SamlUser),
     (row.org.Some? && row.idp.Some? && row.generation.Some?, SamlScope),
     (row.user in dir.users && dir.users[row.user], SamlUserInactive),
     (row.org.Some? && (row.user, row.org.value) in dir.memberships, SamlMembership),
     (&& row.org.Some? && row.idp.Some? && row.idp.value in dir.providers && dir.providers[row.idp.value].enabled
      && dir.providers[row.idp.value].org == row.org.value, SamlProvider),
     (&& row.idp.Some? && row.generation.Some? && row.idp.value in dir.providers
      && dir.providers[row.idp.value].generation == row.generation.value, SamlGeneration)]
  }

  /** A SAML token is denied for the first boundary it is outside of. */
  lemma FirstBoundaryDenies(tokens: map<string, TokenRow>, dir: Directory, c: Claims, now: nat, k: nat)
    requires c.user != "" && c.id in tokens && tokens[c.id].saml && k < 9
    requires
      var bounds := Boundaries(tokens[c.id], c, dir, now);
      !bounds[k].0 && forall i :: 0 <= i < k ==> bounds[i].0
    ensures Decide(tokens, dir, c, now) == Decision(Denied(Boundaries(tokens[c.id], c, dir, now)[k].1), tokens)
  {
    var bounds := Boundaries(tokens[c.id], c, dir, now);
    assert forall i :: 0 <= i < k ==> bounds[i].0;
    assert k == 0 || bounds[0].0;
    assert k <= 1 || bounds[1].0;
    assert k <= 2 || bounds[2].0;
    assert k <= 3 || bounds[3].0;
    assert k <= 4 || bounds[4].0;
    assert k <= 5 || bounds[5].0;
    assert k <= 6 || bounds[6].0;
    assert k <= 7 || bounds[7].0;
  }

  // ----------------------------------------------------------- inactivity over runs

  /** A use of some token, with the directory as it stands then, or a revocation. */
  datatype Act = Use(claims: Claims, dir: Directory, now: nat) | Revoke(id: string)

  function Step(tokens: map<string, TokenRow>, a: Act): map<string, TokenRow> {
    match a
    case Use(c, dir, now) => Decide(tokens, dir, c, now).tokens
    case Revoke(id) => if id in tokens then tokens[id := tokens[id].(active := false)] else tokens
  }

  function Run(tokens: map<string, TokenRow>, acts: seq<Act>): map<string, TokenRow> {
    if |acts| == 0 then tokens else Step(Run(tokens, acts[..|acts| - 1]), acts[|acts| - 1])
  }

  /** The outcome of the k-th act, if it is a use. */
  predicate UseAccepted(tokens: map<string, TokenRow>, acts: seq<Act>, k: nat, id: string)
    requires k < |acts|
  {
    acts[k].Use? && acts[k].claims.id == id
        && Decide(Run(tokens, acts[..k]), acts[k].dir, acts[k].claims, acts[k].now).result.Accepted?
  }

  predicate UseIdle(tokens: map<string, TokenRow>, acts: seq<Act>, k: nat, id: string)
    requires k < |acts|
  {
    && acts[k].Use? && acts[k].claims.id == id
    && var r := Decide(Run(tokens, acts[..k]), acts[k].dir, acts[k].claims, acts[k].now).result;
       r == Denied(Idle) || r == Denied(SamlIdle)
  }

  lemma RunTo(tokens: map<string, TokenRow>, acts: seq<Act>, k: nat)
    requires k < |acts|
    ensures Run(tokens, acts[..k + 1]) == Step(Run(tokens, acts[..k]), acts[k])
  {
    assert acts[..k + 1][..k] == acts[..k];
  }

  lemma OtherStepsKeepLastUse(tokens: map<string, TokenRow>, a: Act, id: string)
    requires id in tokens
    requires a.Use? && a.claims.id == id ==> !Decide(tokens, a.dir, a.claims, a.now).result.Accepted?
    ensures id in Step(tokens, a) && Step(tokens, a)[id].lastUsed == tokens[id].lastUsed
  {
    if a.Use? { IdleIsDeactivated(tokens, a.dir, a.claims, a.now); }
  }

  /** After an accepted use the row's last use stays that moment until the next one. */
  lemma {:induction false} LastUseStays(tokens: map<string, TokenRow>, acts: seq<Act>, i: nat, j: nat, id: string)
    requires i < j <= |acts| && UseAccepted(tokens, acts, i, id)
    requires forall k :: i < k < j ==> !UseAccepted(tokens, acts, k, id)
    ensures id in Run(tokens, acts[..j]) && Run(tokens, acts[..j])[id].lastUsed == Some(acts[i].now)
  {
    RunTo(tokens, acts, j - 1);
    if j > i + 1 {
      LastUseStays(tokens, acts, i, j - 1, id);
      assert !UseAccepted(tokens, acts, j - 1, id);
      OtherStepsKeepLastUse(Run(tokens, acts[..j - 1]), acts[j - 1], id);
    } else {
      AcceptedExactly(Run(tokens, acts[..i]), acts[i].dir, acts[i].claims, acts[i].now);
    }
  }

  /** Two consecutive accepted uses of a token are at most the limit apart. */
  lemma AcceptedUsesAreClose(tokens: map<string, TokenRow>, acts: seq<Act>, i: nat, j: nat, id: string)
    requires i < j < |acts| && UseAccepted(tokens, acts, i, id) && UseAccepted(tokens, acts, j, id)
    requires forall k :: i < k < j ==> !UseAccepted(tokens, acts, k, id)
    ensures acts[j].now <= acts[i].now + LIFETIME
  {
    LastUseStays(tokens, acts, i, j, id);
  }

  /** Beyond revival: no row, an inactive one, or one idle past the limit. */
  predicate Dead(tokens: map<string, TokenRow>, id: string, now: nat) {
    id in tokens ==> !tokens[id].active || !Fresh(tokens[id], now)
  }

  lemma StepKeepsDead(tokens: map<string, TokenRow>, a: Act, id: string, now: nat)
    requires Dead(tokens, id, now) && (a.Use? ==> now <= a.now)
    ensures Dead(Step(tokens, a), id, now)
  {
    if a.Use? {
      AcceptedExactly(tokens, a.dir, a.claims, a.now);
    }
  }

  lemma IdleIsDead(tokens: map<string, TokenRow>, c: Claims, dir: Directory, now: nat)
    requires var r := Decide(tokens, dir, c, now).result; r == Denied(Idle) || r == Denied(SamlIdle)
    ensures Dead(tokens, c.id, now)
  {}

  lemma {:induction false} DeadStays(tokens: map<string, TokenRow>, acts: seq<Act>, i: nat, j: nat, id: string)
    requires i < j <= |acts| && UseIdle(tokens, acts, i, id)
    requires forall k, l :: 0 <= k <= l < |acts| && acts[k].Use? && acts[l].Use? ==> acts[k].now <= acts[l].now
    ensures Dead(Run(tokens, acts[..j]), id, acts[i].now)
  {
    RunTo(tokens, acts, j - 1);
    if j > i + 1 {
      DeadStays(tokens, acts, i, j - 1, id);
    } else {
      IdleIsDead(Run(tokens, acts[..i]), acts[i].claims, acts[i].dir, acts[i].now);
    }
    StepKeepsDead(Run(tokens, acts[..j - 1]), acts[j - 1], id, acts[i].now);
  }

  /** On a clock that does not go back, a token once denied for inactivity is denied for
      ever, whatever other calls and revocations come between. */
  lemma IdleForEver(tokens: map<string, TokenRow>, acts: seq<Act>, i: nat, j: nat, id: string)
    requires i < j < |acts| && UseIdle(tokens, acts, i, id)
    requires forall k, l :: 0 <= k <= l < |acts| && acts[k].Use? && acts[l].Use? ==> acts[k].now <= acts[l].now
    ensures !UseAccepted(tokens, acts, j, id)
  {
    DeadStays(tokens, acts, i, j, id);
  }

  lemma {:induction false} InactiveStays(tokens: map<string, TokenRow>, acts: seq<Act>, i: nat, j: nat, id: string)
    requires i <= j <= |acts|
    requires id in Run(tokens, acts[..i]) && !Run(tokens, acts[..i])[id].active
    ensures id in Run(tokens, acts[..j]) && !Run(tokens, acts[..j])[id].active
  {
    if i < j {
      InactiveStays(tokens, acts, i, j - 1, id);
      RunTo(tokens, acts, j - 1);
      if acts[j - 1].Use? {
        AcceptedExactly(Run(tokens, acts[..j - 1]), acts[j - 1].dir, acts[j - 1].claims, acts[j - 1].now);
        IdleIsDeactivated(Run(tokens, acts[..j - 1]), acts[j - 1].dir, acts[j - 1].claims, acts[j - 1].now);
      }
    }
  }

  /** A token revoked, or deactivated for inactivity, is never accepted again, whatever the
      clocks say. */
  lemma DeactivatedForEver(tokens: map<string, TokenRow>, acts: seq<Act>, i: nat, j: nat, id: string)
    requires i < j < |acts| && id in Run(tokens, acts[..i])
    requires
      || acts[i] == Revoke(id)
      || (&& acts[i].Use? && acts[i].claims.id == id
          && Decide(Run(tokens, acts[..i]), acts[i].dir, acts[i].claims, acts[i].now).result == Denied(Idle))
    ensures !UseAccepted(tokens, acts, j, id)
  {
    var before := Run(tokens, acts[..i]);
    RunTo(tokens, acts, i);
    if acts[i].Use? { IdleIsDeactivated(before, acts[i].dir, acts[i].claims, acts[i].now); }
    InactiveStays(tokens, acts, i + 1, j, id);
    if acts[j].Use? { AcceptedExactly(Run(tokens, acts[..j]), acts[j].dir, acts[j].claims, acts[j].now); }
  }

  /** Revoking deactivates one row. */
  lemma RevokesOne(tokens: map<string, TokenRow>, id: string)
    ensures Step(tokens, Revoke(id)) == if id in tokens then tokens[id := tokens[id].(active := false)] else tokens
  {}
}

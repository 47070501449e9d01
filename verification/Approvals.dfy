/** Sign-up, the creation event and the two hourly repairs, as the steps that call Google's
    account and entitlement approvals, in any interleaving and cut short anywhere. */
module Approvals {
  import opened Wrappers

  /** What has happened, in order. */
  datatype Event =
    | Joined(org: string)
    | AccountApproved(account: string, org: string)
    | EntitlementApproved(entitlement: string, account: string)

  /** A local entitlement row: its account, and whether it still awaits activation. */
  datatype Entry = Entry(account: Option<string>, requested: bool)

  /** How a call to Google ends: done, refused, or done with the answer lost. */
  datatype Outcome = Answered | Refused | Lost

  /** `atGoogle` says of each account Google knows whether its approval is still pending;
      `signingUp` holds the sign-ups that have their user and `cleared` the flows that have
      passed the account approval, both only in the memory of a running process. */
  datatype Desk = Desk(
    atGoogle: map<string, bool>,
    orgOf: map<string, string>,
    members: set<string>,
    approvedAt: set<string>,
    entries: map<string, Entry>,
    signingUp: map<string, string>,
    cleared: set<string>,
    trail: seq<Event>)

  datatype Act =
    | GoogleAwaits(account: string)
    | Links(account: string, org: string)
    | Unlinks(account: string)
    | SignsUp(account: string)
    | Leaves(org: string)
    | ApprovesAccount(account: string, repair: bool, outcome: Outcome)
    | Mirrors(entitlement: string, entry: Entry)
    | ApprovesEntitlement(entitlement: string, held: bool, outcome: Outcome)
    | Ends(account: string)

  /** The organization an account approval is made for: the one a sign-up has just given its
      user, or, in the repair, one with users whose account is not yet recorded approved. */
  function ApprovingFor(d: Desk, account: string, repair: bool): Option<string> {
    if repair then
      if account !in d.approvedAt && account in d.orgOf && d.orgOf[account] in d.members
      then Some(d.orgOf[account]) else None
    else if account in d.signingUp then Some(d.signingUp[account]) else None
  }

  /** The account an entitlement may be approved under: recorded approved, or, for the held
      entitlements of a flow, just approved by it. */
  function ApprovingUnder(d: Desk, entitlement: string, held: bool): Option<string> {
    if entitlement !in d.entries || !d.entries[entitlement].requested || d.entries[entitlement].account.None? then None
    else
      var account := d.entries[entitlement].account.value;
      if account in d.approvedAt || (held && account in d.cleared) then Some(account) else None
  }

  function Step(d: Desk, a: Act): Desk {
    match a
    case GoogleAwaits(account) => d.(atGoogle := d.atGoogle[account := true])
    case Links(account, org) => if account in d.orgOf then d else d.(orgOf := d.orgOf[account := org])
    case Unlinks(account) => d.(orgOf := d.orgOf - {account})
    case SignsUp(account) =>
      if account !in d.orgOf then d
      else
        var org := d.orgOf[account];
        var joined := if org in d.members then d
                      else d.(members := d.members + {org}, trail := d.trail + [Joined(org)]);
        joined.(signingUp := d.signingUp[account := org])
    case Leaves(org) => d.(members := d.members - {org})
    case ApprovesAccount(account, repair, outcome) =>
      var org := ApprovingFor(d, account, repair);
      if org.None? || account !in d.atGoogle then d
      else if d.atGoogle[account] then
        if outcome == Refused then d
        else
          var called := d.(atGoogle := d.atGoogle[account := false],
                           trail := d.trail + [AccountApproved(account, org.value)]);
          if outcome == Lost then called
          else called.(approvedAt := d.approvedAt + {account}, cleared := d.cleared + {account})
      else d.(approvedAt := d.approvedAt + {account}, cleared := d.cleared + {account})
    case Mirrors(entitlement, entry) => d.(entries := d.entries[entitlement := entry])
    case ApprovesEntitlement(entitlement, held, outcome) =>
      var account := ApprovingUnder(d, entitlement, held);
      if account.None? || outcome == Refused then d
      else d.(trail := d.trail + [EntitlementApproved(entitlement, account.value)])
    case Ends(account) => d.(signingUp := d.signingUp - {account}, cleared := d.cleared - {account})
  }

  const Start := Desk(map[], map[], {}, {}, map[], map[], {}, [])

  function Run(d: Desk, acts: seq<Act>): Desk {
    if |acts| == 0 then d else Step(Run(d, acts[..|acts| - 1]), acts[|acts| - 1])
  }

  lemma RunOneMore(d: Desk, acts: seq<Act>, a: Act)
    ensures Run(d, acts + [a]) == Step(Run(d, acts), a)
  {
    assert (acts + [a])[..|acts|] == acts;
  }

  predicate ApprovedBefore(trail: seq<Event>, account: string) {
    exists i :: 0 <= i < |trail| && trail[i].AccountApproved? && trail[i].account == account
  }

  /** Every account approval follows a user of its organization; every entitlement approval
      follows the approval of its account. */
  ghost predicate Ordered(trail: seq<Event>) {
    forall k :: 0 <= k < |trail| ==>
                  && (trail[k].AccountApproved? ==> Joined(trail[k].org) in trail[..k])
                  && (trail[k].EntitlementApproved? ==> ApprovedBefore(trail[..k], trail[k].account))
  }

  /** What holds at every moment: users, recorded approvals and running flows all have
      their cause behind them, and Google holds no approval it was not asked for. */
  ghost predicate Accounted(d: Desk) {
    Ordered(d.trail) && Caused(d)
  }

  ghost predicate Caused(d: Desk) {
    && (forall org :: org in d.members ==> Joined(org) in d.trail)
    && (forall a :: a in d.signingUp ==> Joined(d.signingUp[a]) in d.trail)
    && (forall a :: a in d.approvedAt || a in d.cleared ==> ApprovedBefore(d.trail, a))
    && (forall a :: a in d.atGoogle && !d.atGoogle[a] ==> ApprovedBefore(d.trail, a))
  }

  lemma OrderGrows(trail: seq<Event>, e: Event)
    requires Ordered(trail)
    requires e.AccountApproved? ==> Joined(e.org) in trail
    requires e.EntitlementApproved? ==> ApprovedBefore(trail, e.account)
    ensures Ordered(trail + [e])
  {
    var trail' := trail + [e];
    forall k | 0 <= k < |trail'|
      ensures trail'[k].AccountApproved? ==> Joined(trail'[k].org) in trail'[..k]
      ensures trail'[k].EntitlementApproved? ==> ApprovedBefore(trail'[..k], trail'[k].account)
    {
      assert trail'[..k] == trail[..k];
      if k == |trail| { assert trail'[..k] == trail; }
    }
  }

  lemma CausesGrow(trail: seq<Event>, e: Event)
    ensures forall a :: ApprovedBefore(trail, a) ==> ApprovedBefore(trail + [e], a)
    ensures e.AccountApproved? ==> ApprovedBefore(trail + [e], e.account)
    ensures forall x :: x in trail ==> x in trail + [e]
  {
    var trail' := trail + [e];
    forall a | ApprovedBefore(trail, a) ensures ApprovedBefore(trail', a) {
      var i :| 0 <= i < |trail| && trail[i].AccountApproved? && trail[i].account == a;
      assert trail'[i] == trail[i];
    }
    if e.AccountApproved? { assert trail'[|trail|] == e; }
  }

  lemma StepOrdered(d: Desk, a: Act)
    requires Accounted(d)
    ensures Ordered(Step(d, a).trail)
  {
    match a
    case SignsUp(account) =>
      if account in d.orgOf { OrderGrows(d.trail, Joined(d.orgOf[account])); }
    case ApprovesAccount(account, repair, _) =>
      var org := ApprovingFor(d, account, repair);
      if org.Some? { OrderGrows(d.trail, AccountApproved(account, org.value)); }
    case ApprovesEntitlement(entitlement, held, _) =>
      var account := ApprovingUnder(d, entitlement, held);
      if account.Some? { OrderGrows(d.trail, EntitlementApproved(entitlement, account.value)); }
    case _ =>
  }

  lemma ApprovalCaused(d: Desk, account: string, repair: bool, outcome: Outcome)
    requires Caused(d)
    ensures Caused(Step(d, ApprovesAccount(account, repair, outcome)))
  {
    var org := ApprovingFor(d, account, repair);
    if org.Some? && account in d.atGoogle {
      CausesGrow(d.trail, AccountApproved(account, org.value));
    }
  }

  lemma StepCaused(d: Desk, a: Act)
    requires Caused(d)
    ensures Caused(Step(d, a))
  {
    match a
    case SignsUp(account) =>
      if account in d.orgOf { CausesGrow(d.trail, Joined(d.orgOf[account])); }
    case ApprovesAccount(account, repair, outcome) => ApprovalCaused(d, account, repair, outcome);
    case ApprovesEntitlement(entitlement, held, _) =>
      var account := ApprovingUnder(d, entitlement, held);
      if account.Some? { CausesGrow(d.trail, EntitlementApproved(entitlement, account.value)); }
    case _ =>
  }

  lemma StepAccounted(d: Desk, a: Act)
    requires Accounted(d)
    ensures Accounted(Step(d, a))
  {
    StepOrdered(d, a);
    StepCaused(d, a);
  }

  lemma {:induction false} RunAccounted(d: Desk, acts: seq<Act>)
    requires Accounted(d)
    ensures Accounted(Run(d, acts))
  {
    if |acts| > 0 {
      RunAccounted(d, acts[..|acts| - 1]);
      StepAccounted(Run(d, acts[..|acts| - 1]), acts[|acts| - 1]);
    }
  }

  /** Over every run: an account is approved at Google only after its organization has had a
      user, and an entitlement only after its own account. */
  lemma ApprovalOrder(acts: seq<Act>, k: nat)
    requires k < |Run(Start, acts).trail|
    ensures
      var trail := Run(Start, acts).trail;
      && (trail[k].AccountApproved? ==> exists i :: 0 <= i < k && trail[i] == Joined(trail[k].org))
      && (trail[k].EntitlementApproved? ==>
            exists i, j :: 0 <= i < j < k && trail[j].AccountApproved? && trail[j].account == trail[k].account
                           && trail[i] == Joined(trail[j].org))
  {
    RunAccounted(Start, acts);
    var trail := Run(Start, acts).trail;
    if trail[k].AccountApproved? {
      var i :| 0 <= i < k && trail[..k][i] == Joined(trail[k].org);
      assert trail[i] == Joined(trail[k].org);
    }
    if trail[k].EntitlementApproved? {
      var j :| 0 <= j < k && trail[..k][j].AccountApproved? && trail[..k][j].account == trail[k].account;
      var i :| 0 <= i < j && trail[..j][i] == Joined(trail[j].org);
      assert trail[i] == Joined(trail[j].org) && trail[j] == trail[..k][j];
    }
  }

  // ------------------------------------------------------- whether an approval still holds

  /** Google holds the account's approval. */
  predicate StillHeld(d: Desk, account: string) {
    account in d.atGoogle && !d.atGoogle[account]
  }

  /** The service takes the account's approval for granted. */
  predicate TakenAsApproved(d: Desk, account: string) {
    account in d.approvedAt || account in d.cleared
  }

  /** This step finds or makes the account approved at Google. */
  predicate Obtains(d: Desk, a: Act, account: string) {
    && a.ApprovesAccount? && a.account == account && ApprovingFor(d, account, a.repair).Some?
    && account in d.atGoogle && (d.atGoogle[account] ==> a.outcome != Refused)
  }

  /** Google puts the account back to pending at step `k`, and no step after that gets its
      approval again. */
  predicate ReopenedAt(acts: seq<Act>, account: string, k: nat) {
    && k < |acts| && acts[k] == GoogleAwaits(account)
    && forall j :: k < j < |acts| ==> !Obtains(Run(Start, acts[..j]), acts[j], account)
  }

  ghost predicate Reopened(acts: seq<Act>, account: string) {
    exists k: nat :: ReopenedAt(acts, account, k)
  }

  lemma ReopenedOneMore(acts: seq<Act>, a: Act, account: string)
    ensures Reopened(acts + [a], account)
            <==> a == GoogleAwaits(account) || (Reopened(acts, account) && !Obtains(Run(Start, acts), a, account))
  {
    var n, all := |acts|, acts + [a];
    assert all[..n] == acts && forall j :: 0 <= j < n ==> all[..j] == acts[..j] && all[j] == acts[j];
    if a == GoogleAwaits(account) { assert ReopenedAt(all, account, n); }
    forall k: nat | k < n
      ensures ReopenedAt(all, account, k) <==> ReopenedAt(acts, account, k) && !Obtains(Run(Start, acts), a, account)
    {}
    if Reopened(acts, account) {
      var k: nat :| ReopenedAt(acts, account, k);
      assert ReopenedAt(all, account, k) || Obtains(Run(Start, acts), a, account);
    }
  }

  lemma HeldAfter(d: Desk, a: Act, account: string)
    requires TakenAsApproved(Step(d, a), account)
    ensures a == GoogleAwaits(account) ==> !StillHeld(Step(d, a), account)
    ensures Obtains(d, a, account) ==> StillHeld(Step(d, a), account)
    ensures a != GoogleAwaits(account) && !Obtains(d, a, account) ==>
              TakenAsApproved(d, account) && (StillHeld(Step(d, a), account) <==> StillHeld(d, account))
    ensures a == GoogleAwaits(account) ==> TakenAsApproved(d, account)
  {}

  /** An account the service takes as approved is one Google holds approved, exactly unless
      Google has put it back to pending since: a recorded approval is never taken back. */
  lemma {:induction false} HeldUnlessReopened(acts: seq<Act>, account: string)
    requires TakenAsApproved(Run(Start, acts), account)
    ensures StillHeld(Run(Start, acts), account) <==> !Reopened(acts, account)
  {
    if |acts| > 0 {
      var front, a := acts[..|acts| - 1], acts[|acts| - 1];
      assert acts == front + [a];
      ReopenedOneMore(front, a, account);
      HeldAfter(Run(Start, front), a, account);
      if TakenAsApproved(Run(Start, front), account) {
        HeldUnlessReopened(front, account);
      }
    }
  }

  /** So an entitlement is approved under an approval that holds, unless it was reopened. */
  lemma EntitlementUnderHeld(acts: seq<Act>, entitlement: string, held: bool)
    requires ApprovingUnder(Run(Start, acts), entitlement, held).Some?
    ensures
      var account := ApprovingUnder(Run(Start, acts), entitlement, held).value;
      StillHeld(Run(Start, acts), account) <==> !Reopened(acts, account)
  {
    HeldUnlessReopened(acts, ApprovingUnder(Run(Start, acts), entitlement, held).value);
  }

  const Rejoined: seq<Act> :=
    [GoogleAwaits("a"), Links("a", "o"), SignsUp("a"), ApprovesAccount("a", false, Answered), Ends("a")]
    + [Unlinks("a"), GoogleAwaits("a"), Mirrors("e", Entry(Some("a"), true))]

  /** A customer who left and came back: the old approval is still on record, and the new
      entitlement is approved before the account is. */
  lemma RejoinedUnderOldApproval()
    ensures
      var d := Run(Start, Rejoined);
      && ApprovingUnder(d, "e", false) == Some("a") && !StillHeld(d, "a")
      && Step(d, ApprovesEntitlement("e", false, Answered)).trail == d.trail + [EntitlementApproved("e", "a")]
  {
    var first, second := Rejoined[..5], Rejoined[5..];
    assert Rejoined == first + second;
    RunConcat(Start, first, second);
    FirstTime();
    assert second == [] + [second[0]] + [second[1]] + [second[2]];
    var d := Run(Start, first);
    RunOneMore(d, [], second[0]);
    RunOneMore(d, [] + [second[0]], second[1]);
    RunOneMore(d, [] + [second[0]] + [second[1]], second[2]);
  }

  lemma FirstTime()
    ensures
      var d := Run(Start, Rejoined[..5]);
      d.entries == map[] && d.approvedAt == {"a"} && d.cleared == {}
  {
    var s := Rejoined;
    assert s[..5] == [] + [s[0]] + [s[1]] + [s[2]] + [s[3]] + [s[4]];
    RunOneMore(Start, [], s[0]);
    RunOneMore(Start, [] + [s[0]], s[1]);
    RunOneMore(Start, [] + [s[0]] + [s[1]], s[2]);
    RunOneMore(Start, [] + [s[0]] + [s[1]] + [s[2]], s[3]);
    RunOneMore(Start, [] + [s[0]] + [s[1]] + [s[2]] + [s[3]], s[4]);
  }

  /** What no step undoes: once Google has taken an approval whose answer was lost, the next
      attempt to approve the account records it, so held entitlements are not left waiting. */
  lemma LostApprovalIsRecorded(d: Desk, account: string, repair: bool, outcome: Outcome)
    requires account in d.atGoogle && d.atGoogle[account] && ApprovingFor(d, account, repair).Some?
    ensures
      var lost := Step(d, ApprovesAccount(account, repair, Lost));
      && (account in d.approvedAt <==> account in lost.approvedAt)
      && account in Step(lost, ApprovesAccount(account, repair, outcome)).approvedAt
      && Step(lost, ApprovesAccount(account, repair, outcome)).trail == lost.trail
  {}

  // ------------------------------------------------- what each flow does, as its steps

  /** An attempt to approve an account ends with its approval held: Google answered, or the
      account was no longer pending there. */
  predicate Holds(d: Desk, account: string, repair: bool, outcome: Outcome) {
    ApprovingFor(d, account, repair).Some? && account in d.atGoogle && (d.atGoogle[account] ==> outcome == Answered)
  }

  lemma HeldIsRecorded(d: Desk, account: string, repair: bool, outcome: Outcome)
    ensures Holds(d, account, repair, outcome) ==>
            account in Step(d, ApprovesAccount(account, repair, outcome)).approvedAt
    ensures Step(d, ApprovesAccount(account, repair, outcome)).entries == d.entries
  {}

  /** One attempt on an account: how its approval call ends, the entitlements it holds, and
      how the call for each ends, a refused one not having been taken or not been made. */
  datatype Attempt = Attempt(account: string, outcome: Outcome, held: seq<Call>)

  datatype Call = Call(entitlement: string, outcome: Outcome)

  predicate IsHeld(entries: map<string, Entry>, account: string, entitlement: string) {
    entitlement in entries && entries[entitlement] == Entry(Some(account), true)
  }

  /** The held entitlements of an account: its rows still awaiting activation. */
  ghost predicate ListsHeld(entries: map<string, Entry>, a: Attempt) {
    && (forall c :: c in a.held ==> IsHeld(entries, a.account, c.entitlement))
    && (forall e :: IsHeld(entries, a.account, e) ==> exists i :: 0 <= i < |a.held| && a.held[i].entitlement == e)
  }

  function Releases(held: seq<Call>): seq<Act> {
    if |held| == 0 then []
    else
      var last := held[|held| - 1];
      Releases(held[..|held| - 1]) + [ApprovesEntitlement(last.entitlement, true, last.outcome)]
  }

  function Answers(held: seq<Call>): nat {
    if |held| == 0 then 0
    else Answers(held[..|held| - 1]) + if held[|held| - 1].outcome == Answered then 1 else 0
  }

  /** Approve the account, then whatever it holds. */
  function ApprovalActs(d: Desk, a: Attempt, repair: bool): seq<Act>  {
    [ApprovesAccount(a.account, repair, a.outcome)]
    + if Holds(d, a.account, repair, a.outcome) then Releases(a.held) else []
  }

  /** A sign-up is refused when the account has no organization, or somebody else has joined
      it; otherwise its user exists, and the approvals follow. */
  function SignupActs(d: Desk, a: Attempt, resumes: bool): seq<Act>  {
    if a.account !in d.orgOf || (d.orgOf[a.account] in d.members && !resumes) then []
    else
      [SignsUp(a.account)] + ApprovalActs(Step(d, SignsUp(a.account)), a, false) + [Ends(a.account)]
  }

  function RepairActs(d: Desk, attempts: seq<Attempt>): seq<Act> {
    if |attempts| == 0 then []
    else
      var acts := RepairActs(d, attempts[..|attempts| - 1]);
      acts + ApprovalActs(Run(d, acts), attempts[|attempts| - 1], true)
  }

  /** How many attempts of a repair end with the account's approval held. */
  function Recovered(d: Desk, attempts: seq<Attempt>): nat {
    if |attempts| == 0 then 0
    else
      var before := attempts[..|attempts| - 1];
      var a := attempts[|attempts| - 1];
      Recovered(d, before) + if Holds(Run(d, RepairActs(d, before)), a.account, true, a.outcome) then 1 else 0
  }

  predicate RecoversAt(d: Desk, attempts: seq<Attempt>, i: nat) {
    i < |attempts| && Holds(Run(d, RepairActs(d, attempts[..i])), attempts[i].account, true, attempts[i].outcome)
  }

  /** The count is of the attempts that do. */
  lemma {:induction false} RecoveredCount(d: Desk, attempts: seq<Attempt>, n: nat)
    requires n <= |attempts|
    ensures Recovered(d, attempts[..n]) == |set i: nat | i < n && RecoversAt(d, attempts, i)|
  {
    if n == 0 {
      assert attempts[..n] == [];
      assert (set i: nat | i < n && RecoversAt(d, attempts, i)) == {};
    } else {
      RecoveredCount(d, attempts, n - 1);
      RecoveredOneMore(d, attempts, n - 1);
      RecoversOneMore(d, attempts, n - 1);
    }
  }

  lemma RecoveredOneMore(d: Desk, attempts: seq<Attempt>, n: nat)
    requires n < |attempts|
    ensures Recovered(d, attempts[..n + 1]) == Recovered(d, attempts[..n]) + if RecoversAt(d, attempts, n) then 1 else 0
  {
    RepairOneMore(d, attempts, n);
  }

  lemma RecoversOneMore(d: Desk, attempts: seq<Attempt>, n: nat)
    requires n < |attempts|
    ensures |set i: nat | i < n + 1 && RecoversAt(d, attempts, i)|
            == |set i: nat | i < n && RecoversAt(d, attempts, i)| + if RecoversAt(d, attempts, n) then 1 else 0
  {
    assert (set i: nat | i < n + 1 && RecoversAt(d, attempts, i))
        == (set i: nat | i < n && RecoversAt(d, attempts, i)) + if RecoversAt(d, attempts, n) then {n} else {};
  }

  lemma {:induction false} RunConcat(d: Desk, acts: seq<Act>, more: seq<Act>)
    ensures Run(d, acts + more) == Run(Run(d, acts), more)
  {
    if |more| == 0 {
      assert acts + more == acts;
    } else {
      assert (acts + more)[..|acts + more| - 1] == acts + more[..|more| - 1];
      RunConcat(d, acts, more[..|more| - 1]);
    }
  }

  lemma RunSingle(d: Desk, a: Act)
    ensures Run(d, [a]) == Step(d, a)
  {
    RunOneMore(d, [], a);
    assert [] + [a] == [a];
  }

  lemma ReleaseOneMore(d: Desk, held: seq<Call>, i: nat)
    requires i < |held|
    ensures Run(d, Releases(held[..i + 1]))
            == Step(Run(d, Releases(held[..i])), ApprovesEntitlement(held[i].entitlement, true, held[i].outcome))
    ensures Answers(held[..i + 1]) == Answers(held[..i]) + if held[i].outcome == Answered then 1 else 0
  {
    assert held[..i + 1][..i] == held[..i];
    RunOneMore(d, Releases(held[..i]), ApprovesEntitlement(held[i].entitlement, true, held[i].outcome));
  }

  lemma RepairOneMore(d: Desk, attempts: seq<Attempt>, i: nat)
    requires i < |attempts|
    ensures
      var now := Run(d, RepairActs(d, attempts[..i]));
      && Run(d, RepairActs(d, attempts[..i + 1])) == Run(now, ApprovalActs(now, attempts[i], true))
      && Recovered(d, attempts[..i + 1])
         == Recovered(d, attempts[..i]) + if Holds(now, attempts[i].account, true, attempts[i].outcome) then 1 else 0
  {
    assert attempts[..i + 1][..i] == attempts[..i];
    var acts := RepairActs(d, attempts[..i]);
    RunConcat(d, acts, ApprovalActs(Run(d, acts), attempts[i], true));
  }

  /** What a call for a held entitlement of an approved account does. */
  lemma ReleaseIs(d: Desk, account: string, c: Call)
    requires IsHeld(d.entries, account, c.entitlement) && account in d.approvedAt
    ensures Step(d, ApprovesEntitlement(c.entitlement, true, c.outcome))
            == if c.outcome == Refused then d else d.(trail := d.trail + [EntitlementApproved(c.entitlement, account)])
  {}

  // -------------------------------------------------------- what each flow comes to

  /** A waiting account of the hourly repair: its organization has users, and its approval is not
      on record. */
  predicate Waits(d: Desk, account: string) {
    account !in d.approvedAt && account in d.orgOf && d.orgOf[account] in d.members
  }

  /** The repair approves a waiting account, unless Google refuses; records what Google holds;
      and leaves every other account alone. */
  lemma RepairsExactly(d: Desk, account: string, outcome: Outcome)
    ensures
      var d' := Step(d, ApprovesAccount(account, true, outcome));
      if !Waits(d, account) || account !in d.atGoogle then d' == d
      else if !d.atGoogle[account] then
        d' == d.(approvedAt := d.approvedAt + {account}, cleared := d.cleared + {account})
      else if outcome == Refused then d' == d
      else
        && d'.atGoogle == d.atGoogle[account := false]
        && d'.trail == d.trail + [AccountApproved(account, d.orgOf[account])]
        && (account in d'.approvedAt <==> outcome == Answered) && (account in d'.cleared <==>
              outcome == Answered || account in d.cleared)
        && d'.members == d.members && d'.entries == d.entries && d'.orgOf == d.orgOf && d'.signingUp == d.signingUp
  {}

  /** A sign-up asks for the approval whether or not one is on record, for the organization it
      has just given its user. */
  lemma SignupApprovesExactly(d: Desk, account: string, outcome: Outcome)
    ensures
      var d' := Step(d, ApprovesAccount(account, false, outcome));
      if account !in d.signingUp || account !in d.atGoogle then d' == d
      else if !d.atGoogle[account] then account in d'.approvedAt && account in d'.cleared && d'.trail == d.trail
      else if outcome == Refused then d' == d
      else
        && !d'.atGoogle[account] && d'.trail == d.trail + [AccountApproved(account, d.signingUp[account])]
        && (outcome == Answered ==> account in d'.approvedAt && account in d'.cleared)
        && (outcome == Lost ==> d'.approvedAt == d.approvedAt && d'.cleared == d.cleared)
  {}

  /** The approvals that Google has taken of these calls, in order. */
  function Taken(held: seq<Call>, account: string): seq<Event> {
    if |held| == 0 then []
    else
      var last := held[|held| - 1];
      Taken(held[..|held| - 1], account)
      + if last.outcome == Refused then [] else [EntitlementApproved(last.entitlement, account)]
  }

  /** Releasing what an account holds approves each of its entitlements that Google does not
      refuse, and does nothing else. */
  lemma {:induction false} ReleasesExactly(d: Desk, account: string, held: seq<Call>)
    requires account in d.approvedAt && forall c :: c in held ==> IsHeld(d.entries, account, c.entitlement)
    ensures Run(d, Releases(held)) == d.(trail := d.trail + Taken(held, account))
  {
    if |held| == 0 {
      assert d.trail + [] == d.trail;
    } else {
      var n := |held| - 1;
      ReleasesExactly(d, account, held[..n]);
      assert held[..n + 1] == held;
      ReleaseOneMore(d, held, n);
      ReleaseIs(d.(trail := d.trail + Taken(held[..n], account)), account, held[n]);
    }
  }

  /** The calls that came back with an answer. */
  function Answering(held: seq<Call>): set<nat> {
    set i: nat | i < |held| && held[i].outcome == Answered
  }

  lemma {:induction false} AnswersCount(held: seq<Call>)
    ensures Answers(held) == |Answering(held)|
  {
    if |held| > 0 {
      var n := |held| - 1;
      AnswersCount(held[..n]);
      assert Answering(held) == Answering(held[..n]) + if held[n].outcome == Answered then {n} else {};
    }
  }

  /** A completed sign-up, from start to finish: the user, the account's approval at Google, its
      record, and the held entitlements, in that order. */
  lemma SignupCompletes(d: Desk, a: Attempt, resumes: bool)
    requires a.account in d.orgOf && (d.orgOf[a.account] in d.members ==> resumes)
    requires a.account in d.atGoogle && d.atGoogle[a.account] && a.outcome == Answered && ListsHeld(d.entries, a)
    ensures
      var org, end := d.orgOf[a.account], Run(d, SignupActs(d, a, resumes));
      && end.trail == d.trail + (if org in d.members then [] else [Joined(org)])
                      + [AccountApproved(a.account, org)] + Taken(a.held, a.account)
      && end.members == d.members + {org} && end.approvedAt == d.approvedAt + {a.account}
      && end.atGoogle == d.atGoogle[a.account := false]
      && a.account !in end.signingUp && a.account !in end.cleared
  {
    var joined := Step(d, SignsUp(a.account));
    JoinsExactly(d, a.account);
    ApprovalReleases(joined, a, false);
    SignupInSteps(d, a);
    EndsExactly(Run(joined, ApprovalActs(joined, a, false)), a.account);
  }

  lemma EndsExactly(d: Desk, account: string)
    ensures
      var d' := Step(d, Ends(account));
      && d'.trail == d.trail && d'.members == d.members && d'.approvedAt == d.approvedAt
      && d'.atGoogle == d.atGoogle && account !in d'.signingUp && account !in d'.cleared
  {}

  /** A refused sign-up is nothing at all. */
  lemma SignupRefused(d: Desk, a: Attempt, resumes: bool)
    requires a.account !in d.orgOf || (d.orgOf[a.account] in d.members && !resumes)
    ensures Run(d, SignupActs(d, a, resumes)) == d
  {}

  /** An answered approval of a pending account, and then whatever the account holds. */
  lemma ApprovalReleases(d: Desk, a: Attempt, repair: bool)
    requires ApprovingFor(d, a.account, repair).Some? && a.account in d.atGoogle && d.atGoogle[a.account]
    requires a.outcome == Answered && ListsHeld(d.entries, a)
    ensures
      var call := Step(d, ApprovesAccount(a.account, repair, a.outcome));
      && Run(d, ApprovalActs(d, a, repair)) == call.(trail := call.trail + Taken(a.held, a.account))
      && call.trail == d.trail + [AccountApproved(a.account, ApprovingFor(d, a.account, repair).value)]
      && call.approvedAt == d.approvedAt + {a.account} && call.atGoogle == d.atGoogle[a.account := false]
      && call.members == d.members
  {
    var call := ApprovesAccount(a.account, repair, a.outcome);
    RunSingle(d, call);
    RunConcat(d, [call], Releases(a.held));
    HeldIsRecorded(d, a.account, repair, a.outcome);
    ReleasesExactly(Step(d, call), a.account, a.held);
  }

  /** The hourly repair of one account that waits, answered: approved and recorded, and what it
      holds released.  An account that does not wait, or that Google refuses, keeps waiting. */
  lemma RepairReleases(d: Desk, a: Attempt)
    requires ListsHeld(d.entries, a) && a.account in d.atGoogle
    ensures
      var end := Run(d, ApprovalActs(d, a, true));
      if Waits(d, a.account) && d.atGoogle[a.account] && a.outcome == Answered then
        && end.trail == d.trail + [AccountApproved(a.account, d.orgOf[a.account])] + Taken(a.held, a.account)
        && end.approvedAt == d.approvedAt + {a.account} && end.atGoogle == d.atGoogle[a.account := false]
      else if !Waits(d, a.account) || (d.atGoogle[a.account] && a.outcome == Refused) then end == d
      else true
    ensures Holds(d, a.account, true, a.outcome)
            <==> Waits(d, a.account) && (d.atGoogle[a.account] ==> a.outcome == Answered)
  {
    var call := ApprovesAccount(a.account, true, a.outcome);
    if Waits(d, a.account) && d.atGoogle[a.account] && a.outcome == Answered {
      ApprovalReleases(d, a, true);
    } else {
      RunSingle(d, call);
      assert [call] + [] == [call];
    }
  }

  /** A creation event approves its entitlement exactly if it awaits activation under an account
      whose approval is on record, and Google does not refuse. */
  lemma CreationApprovesExactly(d: Desk, entitlement: string, entry: Entry, outcome: Outcome)
    ensures
      var mirrored := Step(d, Mirrors(entitlement, entry));
      && mirrored == d.(entries := d.entries[entitlement := entry])
      && Step(mirrored, ApprovesEntitlement(entitlement, false, outcome))
         == if entry.requested && entry.account.Some? && entry.account.value in d.approvedAt && outcome != Refused
            then mirrored.(trail := d.trail + [EntitlementApproved(entitlement, entry.account.value)])
            else mirrored
  {}

  /** Joining: the first user of the account's organization, on record once. */
  lemma JoinsExactly(d: Desk, account: string)
    ensures
      var d' := Step(d, SignsUp(account));
      if account !in d.orgOf then d' == d
      else
        && d'.members == d.members + {d.orgOf[account]} && d'.signingUp == d.signingUp[account := d.orgOf[account]]
        && d'.trail == d.trail + (if d.orgOf[account] in d.members then [] else [Joined(d.orgOf[account])])
        && d'.approvedAt == d.approvedAt && d'.atGoogle == d.atGoogle && d'.entries == d.entries
  {
    if account in d.orgOf && d.orgOf[account] in d.members {
      assert d.members + {d.orgOf[account]} == d.members && d.trail + [] == d.trail;
    }
  }

  /** A link stands until the account is unlinked; only then does another take its place. */
  lemma LinksExactly(d: Desk, account: string, org: string)
    ensures account in d.orgOf ==> Step(d, Links(account, org)) == d
    ensures
      var again := Step(Step(d, Unlinks(account)), Links(account, org));
      again == d.(orgOf := d.orgOf[account := org])
  {
    assert (d.orgOf - {account})[account := org] == d.orgOf[account := org];
  }

  /** An organization whose users have left is not repaired any more, and can be joined again. */
  lemma JoinsAgain(d: Desk, account: string)
    requires account in d.orgOf
    ensures
      var left := Step(d, Leaves(d.orgOf[account]));
      var back := Step(left, SignsUp(account));
      && left == d.(members := left.members) && !Waits(left, account)
      && back.trail == d.trail + [Joined(d.orgOf[account])] && back.members == d.members + {d.orgOf[account]}
  {}

  /** The sign-up service, whose every flow is the run of steps above that it should be. */
  class SignupDesk {
    var atGoogle: map<string, bool>
    var orgOf: map<string, string>
    var members: set<string>
    var approvedAt: set<string>
    var entries: map<string, Entry>
    var signingUp: map<string, string>
    var cleared: set<string>
    ghost var trail: seq<Event>

    ghost function State(): Desk
      reads this
    {
      Desk(atGoogle, orgOf, members, approvedAt, entries, signingUp, cleared, trail)
    }

    constructor ()
      ensures State() == Start
    {
      atGoogle, orgOf, members, approvedAt := map[], map[], {}, {};
      entries, signingUp, cleared, trail := map[], map[], {}, [];
    }

    /** Tell Google the customer completed sign-up, unless its approval is already held. */
    method ApproveSignup(account: string, repair: bool, outcome: Outcome) returns (held: bool)
      modifies this`atGoogle, this`approvedAt, this`cleared, this`trail
      ensures State() == Step(old(State()), ApprovesAccount(account, repair, outcome))
      ensures held == Holds(old(State()), account, repair, outcome)
    {
      held := false;
      ghost var org := ApprovingFor(State(), account, repair);
      if repair {
        if account in approvedAt || account !in orgOf || orgOf[account] !in members {
          return;
        }
      } else if account !in signingUp {
        return;
      }
      if account !in atGoogle {
        return;
      }
      if atGoogle[account] {
        if outcome == Refused {
          return;
        }
        atGoogle := atGoogle[account := false];
        trail := trail + [AccountApproved(account, org.value)];
        if outcome == Lost {
          return;
        }
      } else if account in approvedAt {
        cleared := cleared + {account};
        held := true;
        assert approvedAt == approvedAt + {account};
        return;
      }
      approvedAt := approvedAt + {account};
      cleared := cleared + {account};
      held := true;
    }

    /** Approve what an account's held entitlements still await, one call each: by its sign-up,
        or by the repair once its approval is recorded. */
    method ApprovePendingEntitlements(a: Attempt) returns (approved: nat)
      requires ListsHeld(entries, a) && a.account in approvedAt
      modifies this`trail
      ensures State() == Run(old(State()), Releases(a.held))
      ensures approved == Answers(a.held)
    {
      approved := 0;
      ghost var d := State();
      for i := 0 to |a.held|
        invariant Rest() == old(Rest())
        invariant State() == Run(d, Releases(a.held[..i]))
        invariant approved == Answers(a.held[..i])
      {
        ReleaseOneMore(d, a.held, i);
        assert a.held[i] in a.held;
        var answered := ApproveHeld(a.account, a.held[i]);
        if answered {
          approved := approved + 1;
        }
      }
      assert a.held[..|a.held|] == a.held;
    }

    /** Everything but what has been called. */
    ghost function Rest(): Desk
      reads this`atGoogle, this`orgOf, this`members, this`approvedAt, this`entries, this`signingUp, this`cleared
    {
      Desk(atGoogle, orgOf, members, approvedAt, entries, signingUp, cleared, [])
    }

    method ApproveHeld(account: string, c: Call) returns (answered: bool)
      requires IsHeld(entries, account, c.entitlement) && account in approvedAt
      modifies this`trail
      ensures State() == Step(old(State()), ApprovesEntitlement(c.entitlement, true, c.outcome))
      ensures answered <==> c.outcome == Answered
    {
      ReleaseIs(State(), account, c);
      if c.outcome != Refused {
        trail := trail + [EntitlementApproved(c.entitlement, account)];
      }
      answered := c.outcome == Answered;
    }

    /** Approve an account and, once its approval is held, what it holds. */
    method FinishSignup(a: Attempt, repair: bool) returns (held: bool)
      requires ListsHeld(entries, a)
      modifies this`atGoogle, this`approvedAt, this`cleared, this`trail
      ensures State() == Run(old(State()), ApprovalActs(old(State()), a, repair))
      ensures held == Holds(old(State()), a.account, repair, a.outcome)
    {
      ghost var call := ApprovesAccount(a.account, repair, a.outcome);
      RunSingle(State(), call);
      RunConcat(State(), [call], Releases(a.held));
      HeldIsRecorded(State(), a.account, repair, a.outcome);
      held := ApproveSignup(a.account, repair, a.outcome);
      if held {
        var _ := ApprovePendingEntitlements(a);
      }
    }

    /** A sign-up form: the user, if nobody has joined yet, then the approvals. */
    method ProcessSignup(a: Attempt, resumes: bool) returns (finished: bool)
      requires ListsHeld(entries, a)
      modifies this
      ensures State() == Run(old(State()), SignupActs(old(State()), a, resumes))
      ensures finished <==> SignupActs(old(State()), a, resumes) != []
                            && Holds(Step(old(State()), SignsUp(a.account)), a.account, false, a.outcome)
    {
      if a.account !in orgOf || (orgOf[a.account] in members && !resumes) {
        return false;
      }
      SignupInSteps(State(), a);
      JoinOrganization(a.account);
      finished := FinishSignup(a, false);
      EndProcess(a.account);
    }

    /** The first user of the account's organization, or the one a retry finds there. */
    method JoinOrganization(account: string)
      modifies this`members, this`signingUp, this`trail
      ensures State() == Step(old(State()), SignsUp(account))
    {
      if account !in orgOf {
        return;
      }
      var org := orgOf[account];
      if org !in members {
        members, trail := members + {org}, trail + [Joined(org)];
      }
      signingUp := signingUp[account := org];
    }

    method EndProcess(account: string)
      modifies this`signingUp, this`cleared
      ensures State() == Step(old(State()), Ends(account))
    {
      signingUp, cleared := signingUp - {account}, cleared - {account};
    }

    /** The hourly retry of sign-ups whose approval never went through. */
    method ReconcileUnapprovedAccounts(attempts: seq<Attempt>) returns (approved: nat)
      requires forall a :: a in attempts ==> ListsHeld(entries, a)
      modifies this`atGoogle, this`approvedAt, this`cleared, this`trail
      ensures State() == Run(old(State()), RepairActs(old(State()), attempts))
      ensures approved == Recovered(old(State()), attempts)
    {
      approved := 0;
      ghost var d := State();
      for i := 0 to |attempts|
        invariant State() == Run(d, RepairActs(d, attempts[..i]))
        invariant approved == Recovered(d, attempts[..i])
      {
        RepairOneMore(d, attempts, i);
        var held := FinishSignup(attempts[i], true);
        if held {
          approved := approved + 1;
        }
      }
      assert attempts[..|attempts|] == attempts;
    }

    /** The creation event: mirror the entitlement,
        then approve it, or hold it until sign-up completes. */
    method HandleCreationRequested(entitlement: string, entry: Entry, outcome: Outcome)
      modifies this`entries, this`trail
      ensures State() == Run(old(State()),
                             [Mirrors(entitlement, entry), ApprovesEntitlement(entitlement, false, outcome)])
    {
      RunSingle(State(), Mirrors(entitlement, entry));
      RunOneMore(State(), [Mirrors(entitlement, entry)], ApprovesEntitlement(entitlement, false, outcome));
      assert [Mirrors(entitlement, entry)] + [ApprovesEntitlement(entitlement, false, outcome)]
          == [Mirrors(entitlement, entry), ApprovesEntitlement(entitlement, false, outcome)];
      entries := entries[entitlement := entry];
      if !entry.requested || entry.account.None? || entry.account.value !in approvedAt {
        return;
      }
      if outcome != Refused {
        trail := trail + [EntitlementApproved(entitlement, entry.account.value)];
      }
    }
  }

  lemma SignupInSteps(d: Desk, a: Attempt)
    ensures
      var joined := Step(d, SignsUp(a.account));
      var acts := ApprovalActs(joined, a, false);
      Run(d, [SignsUp(a.account)] + acts + [Ends(a.account)]) == Step(Run(joined, acts), Ends(a.account))
  {
    var joined := Step(d, SignsUp(a.account));
    var acts := ApprovalActs(joined, a, false);
    RunSingle(d, SignsUp(a.account));
    RunConcat(d, [SignsUp(a.account)], acts);
    RunOneMore(d, [SignsUp(a.account)] + acts, Ends(a.account));
  }
}

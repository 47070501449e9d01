/** Concurrent onboarding of one marketplace account: an unlocked read, then a row lock, a
    second read and, only if it still finds none, a new organization. */
module Onboarding {
  import opened Wrappers

  /** A worker has read the row without the lock, holds the lock on what it re-read or has
      just created, or is past the transaction. */
  datatype Phase =
    | Seen(org: Option<nat>)
    | Locked(org: Option<nat>, created: bool)
    | Linked(to: nat)

  /** Committed state: the account's organization, every organization made for it and the
      organizations onboarding tokens name; and the workers, one of which may hold the lock. */
  datatype Account = Account(
    org: Option<nat>,
    organizations: seq<nat>,
    tokens: seq<nat>,
    lock: Option<nat>,
    workers: map<nat, Phase>)

  datatype Act =
    | Reads(worker: nat)
    | Locks(worker: nat)
    | Creates(worker: nat, id: nat)
    | Commits(worker: nat)
    | Mints(worker: nat)
    | Dies(worker: nat)

  function Step(s: Account, a: Act): Account {
    match a
    case Reads(w) => if w in s.workers then s else s.(workers := s.workers[w := Seen(s.org)])
    case Locks(w) =>
      if w in s.workers && s.workers[w] == Seen(None) && s.lock.None?
      then s.(lock := Some(w), workers := s.workers[w := Locked(s.org, false)])
      else s
    case Creates(w, id) =>
      if w in s.workers && s.workers[w] == Locked(None, false)
      then s.(workers := s.workers[w := Locked(Some(id), true)])
      else s
    case Commits(w) =>
      if w in s.workers && s.workers[w].Locked? && s.workers[w].org.Some? then
        var phase := s.workers[w];
        s.(org := phase.org,
           organizations := if phase.created then s.organizations + [phase.org.value] else s.organizations,
           lock := None,
           workers := s.workers[w := Linked(phase.org.value)])
      else s
    case Mints(w) =>
      if w !in s.workers then s
      else (match s.workers[w]
            case Seen(Some(org)) => s.(tokens := s.tokens + [org], workers := s.workers - {w})
            case Linked(org) => s.(tokens := s.tokens + [org], workers := s.workers - {w})
            case _ => s)
    case Dies(w) => s.(lock := if s.lock == Some(w) then None else s.lock, workers := s.workers - {w})
  }

  function Run(acts: seq<Act>): Account {
    if |acts| == 0 then Account(None, [], [], None, map[]) else Step(Run(acts[..|acts| - 1]), acts[|acts| - 1])
  }

  ghost predicate Consistent(s: Account) {
    && s.organizations == (if s.org.Some? then [s.org.value] else [])
    && (forall t :: t in s.tokens ==> s.org == Some(t))
    && (forall w :: w in s.workers && s.workers[w].Locked? ==>
                      && s.lock == Some(w)
                      && (if s.workers[w].created then s.org.None? && s.workers[w].org.Some?
                          else s.workers[w].org == s.org))
    && (forall w :: w in s.workers && s.workers[w].Seen? && s.workers[w].org.Some? ==> s.workers[w].org == s.org)
    && (forall w :: w in s.workers && s.workers[w].Linked? ==> s.org == Some(s.workers[w].to))
  }

  lemma StepConsistent(s: Account, a: Act)
    requires Consistent(s)
    ensures Consistent(Step(s, a))
  {
    match a
    case Reads(_) =>
    case Locks(_) =>
    case Creates(_, _) =>
    case Commits(_) =>
    case Mints(_) =>
    case Dies(_) =>
  }

  lemma {:induction false} RunConsistent(acts: seq<Act>)
    ensures Consistent(Run(acts))
  {
    if |acts| > 0 {
      RunConsistent(acts[..|acts| - 1]);
      StepConsistent(Run(acts[..|acts| - 1]), acts[|acts| - 1]);
    }
  }

  /** Whatever the interleaving, at most one organization is made for the account, it is the
      one the account is linked to, and every onboarding token names it. */
  lemma OneOrganization(acts: seq<Act>)
    ensures
      var s := Run(acts);
      && |s.organizations| <= 1
      && (s.org.Some? <==> |s.organizations| == 1)
      && (s.org.Some? ==> s.organizations[0] == s.org.value)
      && (forall t :: t in s.tokens ==> s.org == Some(t))
  {
    RunConsistent(acts);
  }

  /** A worker that finds no organization makes one under the lock, links it and mints its token,
      if no other holds the lock; one that finds an organization mints a token for that. */
  lemma OnboardsAlone(s: Account, w: nat, id: nat)
    requires w !in s.workers && s.lock.None?
    ensures
      var read := Step(s, Reads(w));
      if s.org.Some? then
        Step(read, Mints(w)) == s.(tokens := s.tokens + [s.org.value], workers := s.workers[w := Seen(s.org)] - {w})
      else
        var locked := Step(read, Locks(w));
        var committed := Step(Step(locked, Creates(w, id)), Commits(w));
        var end := Step(committed, Mints(w));
        && locked.lock == Some(w) && committed.org == Some(id) && committed.lock == None
        && end.org == Some(id) && end.organizations == s.organizations + [id] && end.tokens == s.tokens + [id]
        && w !in end.workers
  {}

  /** A worker that waited for the lock finds what the one before it linked, and makes none. */
  lemma SecondLinksFirst(s: Account, w: nat, id: nat)
    requires w in s.workers && s.workers[w] == Seen(None) && s.lock.None? && s.org.Some?
    ensures
      var locked := Step(s, Locks(w));
      var end := Step(Step(Step(locked, Creates(w, id)), Commits(w)), Mints(w));
      && end.org == s.org && end.organizations == s.organizations && end.tokens == s.tokens + [s.org.value]
      && end.lock == None
  {}

  /** The lock is for those who found no organization: every other worker gets by without it. */
  lemma LocksOnlyUnlinked(s: Account, w: nat)
    requires s.lock.None?
    ensures Step(s, Locks(w)).lock == Some(w)
            <==> w in s.workers && s.workers[w].Seen? && s.workers[w].org.None?
    ensures Step(s, Locks(w)).lock.None? ==> Step(s, Locks(w)) == s
  {}

  /** Only one works under the lock, and one that dies there leaves nothing but the lock free. */
  lemma LockHeldByOne(s: Account, w: nat)
    ensures s.lock.Some? ==> Step(s, Locks(w)) == s
    ensures s.lock == Some(w) ==> Step(s, Dies(w)) == s.(lock := None, workers := s.workers - {w})
    ensures s.lock != Some(w) ==> Step(s, Dies(w)) == s.(workers := s.workers - {w})
  {}
}

/** Marketplace entitlements: what Google says of one, the local row that mirrors it, and
    the store that must not let an older answer overwrite a newer one. */
module Entitlements {
  import opened Wrappers

  datatype State =
    | Unspecified
    | ActivationRequested
    | Active
    | PendingPlanChangeApproval
    | PendingPlanChange
    | PendingCancellation
    | Cancelled
    | Suspended

  /** A pending cancellation or plan change is still live. */
  predicate InService(s: State) {
    s == Active || s == PendingCancellation || s == PendingPlanChange || s == PendingPlanChangeApproval
  }

  /** The Procurement API's answer for one entitlement. */
  datatype Remote = Remote(plan: string, state: State, consumer: string, createTime: nat, updateTime: Option<nat>)

  /** The local row.  The organization is that of the account the entitlement belongs to. */
  datatype Row = Row(
    id: string,
    org: Option<string>,
    plan: string,
    status: State,
    consumer: string,
    effectiveAt: nat,
    googleUpdate: Option<nat>)

  function Mirrored(id: string, org: Option<string>, r: Remote): Row {
    Row(id, org, r.plan, r.state, r.consumer, r.createTime, r.updateTime)
  }

  /** The stored update time is later than the incoming one; either missing, it is not. */
  predicate Stale(row: Row, r: Remote) {
    row.googleUpdate.Some? && r.updateTime.Some? && row.googleUpdate.value > r.updateTime.value
  }

  /** One store of a fetched answer: None leaves the row as it is. */
  function Stored(existing: Option<Row>, id: string, org: Option<string>, r: Remote): Option<Row> {
    if existing.Some? && Stale(existing.value, r) then None else Some(Mirrored(id, org, r))
  }

  /** Not in service: what was never activated, has ended or is suspended. */
  lemma OutOfService(s: State)
    ensures !InService(s) <==> s in {Unspecified, ActivationRequested, Cancelled, Suspended}
  {}

  /** A store replaces every field by Google's, unless Google's answer is older than the row; one
      of the same time, or of none, is stored. */
  lemma StoredExactly(row: Row, r: Remote)
    ensures
      var kept := Stored(Some(row), row.id, row.org, r);
      && (kept == None <==> row.googleUpdate.Some? && r.updateTime.Some? && row.googleUpdate.value > r.updateTime.value)
      && (kept.Some? ==>
            && kept.value.id == row.id && kept.value.org == row.org && kept.value.plan == r.plan
            && kept.value.status == r.state && kept.value.consumer == r.consumer
            && kept.value.effectiveAt == r.createTime && kept.value.googleUpdate == r.updateTime)
  {}

  // ------------------------------------------- several workers, fetching and storing

  /** An answer that was not stale when its worker looked at the row, with how many answers
      had been brought to the table by then. */
  datatype Cleared = Cleared(answer: Remote, seen: nat)

  /** Google moves an entitlement on, a worker fetches it, a worker compares what it holds with
      the row, and then stores it; nothing keeps other workers out between the last two. */
  datatype Act =
    | Moves(to: Remote)
    | Fetches(worker: nat)
    | Checks(worker: nat)
    | Stores(worker: nat, org: Option<string>)

  /** `brought` lists every answer that was compared with the row, stored or found stale. */
  datatype Mirror = Mirror(google: Remote, held: map<nat, Remote>, cleared: map<nat, Cleared>, row: Option<Row>,
                           brought: seq<Remote>)

  function Step(id: string, m: Mirror, a: Act): Mirror {
    match a
    case Moves(to) => m.(google := to)
    case Fetches(w) => m.(held := m.held[w := m.google])
    case Checks(w) =>
      if w !in m.held then m
      else if m.row.Some? && Stale(m.row.value, m.held[w])
      then m.(held := m.held - {w}, brought := m.brought + [m.held[w]])
      else m.(held := m.held - {w}, cleared := m.cleared[w := Cleared(m.held[w], |m.brought|)])
    case Stores(w, org) =>
      if w !in m.cleared then m
      else
        m.(cleared := m.cleared - {w}, row := Some(Mirrored(id, org, m.cleared[w].answer)),
           brought := m.brought + [m.cleared[w].answer])
  }

  /** A fetch, its check and its store with nothing in between: the row shows what Google had,
      unless that was older than the row, and the worker has nothing left in hand. */
  lemma FetchedAndStored(id: string, m: Mirror, w: nat, org: Option<string>)
    requires w !in m.cleared
    ensures
      var end := Step(id, Step(id, Step(id, m, Fetches(w)), Checks(w)), Stores(w, org));
      var older := && m.row.Some? && m.row.value.googleUpdate.Some? && m.google.updateTime.Some?
                   && m.row.value.googleUpdate.value > m.google.updateTime.value;
      && w !in end.held && w !in end.cleared && end.google == m.google && end.brought == m.brought + [m.google]
      && end.row == if older then m.row else Some(Mirrored(id, org, m.google))
  {}

  function Run(id: string, first: Remote, acts: seq<Act>): Mirror {
    if |acts| == 0 then Mirror(first, map[], map[], None, [])
    else Step(id, Run(id, first, acts[..|acts| - 1]), acts[|acts| - 1])
  }

  function Latest(from: Remote, acts: seq<Act>): Remote {
    if |acts| == 0 then from
    else if acts[|acts| - 1].Moves? then acts[|acts| - 1].to
    else Latest(from, acts[..|acts| - 1])
  }

  predicate Later(r: Remote, s: Remote) {
    r.updateTime.Some? && s.updateTime.Some? && r.updateTime.value < s.updateTime.value
  }

  /** Google stamps every change with a later time. */
  predicate Stamped(from: Remote, acts: seq<Act>) {
    if |acts| == 0 then from.updateTime.Some?
    else
      var front, a := acts[..|acts| - 1], acts[|acts| - 1];
      Stamped(from, front) && (a.Moves? ==> Later(Latest(from, front), a.to))
  }

  predicate Shows(row: Row, r: Remote) {
    Mirrored(row.id, row.org, r) == row
  }

  /** No later answer has been brought to the row since this one was compared with it. */
  predicate StillFresh(m: Mirror, c: Cleared) {
    c.seen <= |m.brought| && forall i :: c.seen <= i < |m.brought| ==> !Later(c.answer, m.brought[i])
  }

  /** A store, if it is one, is of an answer that is still fresh. */
  predicate Fresh(m: Mirror, a: Act) {
    a.Stores? && a.worker in m.cleared ==> StillFresh(m, m.cleared[a.worker])
  }

  ghost predicate FreshRun(id: string, first: Remote, acts: seq<Act>) {
    forall i :: 0 <= i < |acts| ==> Fresh(Run(id, first, acts[..i]), acts[i])
  }

  /** Everything fetched is one of Google's versions, told apart by its time. */
  ghost predicate Versions(m: Mirror, all: set<Remote>) {
    && m.google in all
    && (forall w :: w in m.held ==> m.held[w] in all)
    && (forall w :: w in m.cleared ==> m.cleared[w].answer in all && m.cleared[w].seen <= |m.brought|)
    && (forall r :: r in m.brought ==> r in all)
    && (forall r :: r in all ==> r.updateTime.Some?)
    && (forall r :: r in all && m.google.updateTime.Some? ==> r.updateTime.value <= m.google.updateTime.value)
    && (forall r, s :: r in all && s in all && r.updateTime == s.updateTime ==> r == s)
  }

  /** The row shows the latest of the answers brought to it. */
  predicate ShowsLatest(m: Mirror, r: Remote) {
    && m.row.Some? && r in m.brought && Shows(m.row.value, r)
    && forall s :: s in m.brought ==> !Later(r, s)
  }

  ghost predicate NewestKept(m: Mirror) {
    if m.brought == [] then m.row.None? else exists r :: ShowsLatest(m, r)
  }

  /** An answer cleared for storing is no older than any that had been brought by then. */
  ghost predicate ClearedWell(m: Mirror) {
    forall w, i :: w in m.cleared && 0 <= i < m.cleared[w].seen <= |m.brought| ==>
                     !Later(m.cleared[w].answer, m.brought[i])
  }

  lemma {:induction false} RunVersions(id: string, first: Remote, acts: seq<Act>) returns (all: set<Remote>)
    requires Stamped(first, acts)
    ensures Versions(Run(id, first, acts), all) && Run(id, first, acts).google == Latest(first, acts)
  {
    if |acts| == 0 {
      all := {first};
    } else {
      all := RunVersions(id, first, acts[..|acts| - 1]);
      if acts[|acts| - 1].Moves? { all := all + {acts[|acts| - 1].to}; }
    }
  }

  /** What was brought before an answer was cleared, and since. */
  lemma FreshAgainstAll(m: Mirror, w: nat, r: Remote)
    requires ClearedWell(m) && w in m.cleared && m.cleared[w].seen <= |m.brought| && r in m.brought
    requires StillFresh(m, m.cleared[w])
    ensures !Later(m.cleared[w].answer, r)
  {
    var i :| 0 <= i < |m.brought| && m.brought[i] == r;
  }

  /** Whether a store leaves the newest answer in the row: exactly if no later one has been
      brought to it since the check. */
  lemma StoreKeepsNewestExactly(id: string, m: Mirror, w: nat, org: Option<string>, all: set<Remote>)
    requires Versions(m, all) && ClearedWell(m) && w in m.cleared
    ensures NewestKept(Step(id, m, Stores(w, org))) <==> StillFresh(m, m.cleared[w])
  {
    var m', c := Step(id, m, Stores(w, org)), m.cleared[w];
    assert m'.brought[|m.brought|] == c.answer;
    if StillFresh(m, c) {
      forall r | r in m.brought ensures !Later(c.answer, r) { FreshAgainstAll(m, w, r); }
      assert ShowsLatest(m', c.answer);
    } else {
      var i :| c.seen <= i < |m.brought| && Later(c.answer, m.brought[i]);
      assert m'.brought[i] == m.brought[i];
      forall r ensures !ShowsLatest(m', r) {
        if r in m'.brought && Shows(m'.row.value, r) { assert r.updateTime == c.answer.updateTime; }
      }
    }
  }

  lemma StepKeepsNewest(id: string, m: Mirror, a: Act, all: set<Remote>)
    requires Versions(m, all) && ClearedWell(m) && NewestKept(m) && Fresh(m, a)
    ensures NewestKept(Step(id, m, a)) && ClearedWell(Step(id, m, a))
  {
    match a
    case Checks(w) => if w in m.held { CheckKeepsNewest(id, m, w, all); }
    case Stores(w, org) =>
      if w in m.cleared {
        StoreKeepsNewestExactly(id, m, w, org, all);
        ClearedAfterStore(m, Step(id, m, a), m.cleared[w].answer);
      }
    case _ => if m.brought != [] { var r :| ShowsLatest(m, r); assert ShowsLatest(Step(id, m, a), r); }
  }

  lemma ClearedAfterStore(m: Mirror, m': Mirror, r: Remote)
    requires ClearedWell(m) && m'.brought == m.brought + [r] && m'.cleared.Keys <= m.cleared.Keys
    requires forall w :: w in m'.cleared ==> m'.cleared[w] == m.cleared[w] && m.cleared[w].seen <= |m.brought|
    ensures ClearedWell(m')
  {}

  lemma CheckKeepsNewest(id: string, m: Mirror, w: nat, all: set<Remote>)
    requires Versions(m, all) && ClearedWell(m) && NewestKept(m) && w in m.held
    ensures NewestKept(Step(id, m, Checks(w))) && ClearedWell(Step(id, m, Checks(w)))
  {
    var m', held := Step(id, m, Checks(w)), m.held[w];
    if m.brought == [] {
      assert m'.brought == [];
    } else {
      var r :| ShowsLatest(m, r);
      assert ShowsLatest(m', r);
      if Stale(m.row.value, held) {
        ClearedAfterStore(m, m', held);
      } else {
        forall i | 0 <= i < |m.brought| ensures !Later(held, m.brought[i]) { assert m.brought[i] in m.brought; }
      }
    }
  }

  lemma {:induction false} FreshKeepsNewest(id: string, first: Remote, acts: seq<Act>)
    requires Stamped(first, acts) && FreshRun(id, first, acts)
    ensures NewestKept(Run(id, first, acts)) && ClearedWell(Run(id, first, acts))
  {
    if |acts| > 0 {
      var front, a := acts[..|acts| - 1], acts[|acts| - 1];
      forall i | 0 <= i < |front| ensures Fresh(Run(id, first, front[..i]), front[i]) {
        assert front[..i] == acts[..i];
      }
      FreshKeepsNewest(id, first, front);
      var all := RunVersions(id, first, front);
      StepKeepsNewest(id, Run(id, first, front), a, all);
    }
  }

  /** However fetches, checks and stores by several workers interleave, the row shows the answer
      with the greatest update time of all those brought to it, as long as no later answer is
      brought between a worker's check and its store. */
  lemma MirrorNeverRegresses(id: string, first: Remote, acts: seq<Act>)
    requires Stamped(first, acts) && FreshRun(id, first, acts)
    ensures NewestKept(Run(id, first, acts))
  {
    FreshKeepsNewest(id, first, acts);
  }

  /** And that is exact: the next store leaves the newest answer if and only if none later has
      been brought since its check. */
  lemma RegressesExactly(id: string, first: Remote, acts: seq<Act>, w: nat, org: Option<string>)
    requires Stamped(first, acts) && FreshRun(id, first, acts) && w in Run(id, first, acts).cleared
    ensures NewestKept(Run(id, first, acts + [Stores(w, org)]))
            <==> StillFresh(Run(id, first, acts), Run(id, first, acts).cleared[w])
  {
    FreshKeepsNewest(id, first, acts);
    var all := RunVersions(id, first, acts);
    StoreKeepsNewestExactly(id, Run(id, first, acts), w, org, all);
    RunOneMore(id, first, acts, Stores(w, org));
  }

  lemma RunOneMore(id: string, first: Remote, acts: seq<Act>, a: Act)
    ensures Run(id, first, acts + [a]) == Step(id, Run(id, first, acts), a)
  {
    assert (acts + [a])[..|acts|] == acts;
  }

  // ------------------------------------------------------------- how a row can go back

  const Before := Remote("payg", Active, "", 1, Some(1))
  const After := Remote("payg", Cancelled, "", 1, Some(9))

  /** Both workers have fetched, before and after Google moved on, and the second has stored. */
  function SecondStored(checkedFirst: bool): seq<Act> {
    [Fetches(1)] + (if checkedFirst then [Checks(1)] else []) + [Moves(After)] + [Fetches(2)] + [Checks(2)]
    + [Stores(2, None)]
  }

  lemma SecondStoredIs(first: Remote, checkedFirst: bool)
    ensures
      var m := Run("e", first, SecondStored(checkedFirst));
      && m.google == After && m.row == Some(Mirrored("e", None, After)) && m.brought == [After]
      && (if checkedFirst then m.held == map[] && m.cleared == map[1 := Cleared(first, 0)]
          else m.held == map[1 := first] && m.cleared == map[])
  {
    var a1: seq<Act> := [Fetches(1)];
    var a2 := a1 + if checkedFirst then [Checks(1)] else [];
    assert [] + a1 == a1;
    RunOneMore("e", first, [], Fetches(1));
    if checkedFirst { RunOneMore("e", first, a1, Checks(1)); } else { assert a2 == a1; }
    SecondWorker(first, a2);
  }

  lemma SecondWorker(first: Remote, acts: seq<Act>)
    requires var m := Run("e", first, acts); m.row == None && m.brought == [] && 2 !in m.held && 2 !in m.cleared
    ensures
      var m := Run("e", first, acts);
      var m' := Run("e", first, acts + [Moves(After)] + [Fetches(2)] + [Checks(2)] + [Stores(2, None)]);
      && m'.google == After && m'.row == Some(Mirrored("e", None, After)) && m'.brought == [After]
      && m'.held == m.held && m'.cleared == m.cleared
  {
    var b1 := acts + [Moves(After)];
    var b2 := b1 + [Fetches(2)];
    RunOneMore("e", first, acts, Moves(After));
    RunOneMore("e", first, b1, Fetches(2));
    RunOneMore("e", first, b2, Checks(2));
    RunOneMore("e", first, b2 + [Checks(2)], Stores(2, None));
  }

  /** Two workers overlap: the older answer was checked against the empty row, and is stored
      last. */
  lemma OverlappingStoresRegress()
    ensures Stamped(Before, SecondStored(true) + [Stores(1, None)])
    ensures
      var end := Run("e", Before, SecondStored(true) + [Stores(1, None)]);
      end.google == After && end.row == Some(Mirrored("e", None, Before)) && !NewestKept(end)
  {
    SecondStoredIs(Before, true);
    RunOneMore("e", Before, SecondStored(true), Stores(1, None));
    var end := Run("e", Before, SecondStored(true) + [Stores(1, None)]);
    assert end.brought == [After] + [Before] && After in end.brought && Later(Before, After);
    StampedOnce();
  }

  lemma StampedOnce()
    ensures Stamped(Before, SecondStored(true) + [Stores(1, None)])
  {
    StampedMore(Before, [], Fetches(1));
    assert [] + [Fetches(1)] == [Fetches(1)];
    StampedMore(Before, [Fetches(1)], Checks(1));
    StampedMore(Before, [Fetches(1)] + [Checks(1)], Moves(After));
    StampedMore(Before, [Fetches(1)] + [Checks(1)] + [Moves(After)], Fetches(2));
    StampedMore(Before, [Fetches(1)] + [Checks(1)] + [Moves(After)] + [Fetches(2)], Checks(2));
    StampedMore(Before, [Fetches(1)] + [Checks(1)] + [Moves(After)] + [Fetches(2)] + [Checks(2)], Stores(2, None));
    StampedMore(Before, SecondStored(true), Stores(1, None));
  }

  lemma StampedMore(from: Remote, acts: seq<Act>, a: Act)
    requires Stamped(from, acts) && (a.Moves? ==> Later(Latest(from, acts), a.to))
    ensures Stamped(from, acts + [a])
    ensures Latest(from, acts + [a]) == if a.Moves? then a.to else Latest(from, acts)
  {
    assert (acts + [a])[..|acts|] == acts;
  }

  /** Why the times matter: an answer that carries none is never stale, so with no two workers
      between check and store at once a run can still end on an older version. */
  lemma UntimedAnswerRegresses()
    ensures
      var first := Before.(updateTime := None);
      var end := Run("e", first, SecondStored(false) + [Checks(1)] + [Stores(1, None)]);
      end.google == After && end.row == Some(Mirrored("e", None, first))
  {
    var first := Before.(updateTime := None);
    SecondStoredIs(first, false);
    RunOneMore("e", first, SecondStored(false), Checks(1));
    RunOneMore("e", first, SecondStored(false) + [Checks(1)], Stores(1, None));
  }
}

/** The hourly repair of entitlement rows and subscriptions, as functions on the state, and
    its convergence on what Google serves. */
module Repair {
  import opened Wrappers
  import opened Entitlements

  datatype Plan = Plan(name: string, interval: string)

  datatype BillingMethod = Card | Marketplace | Elsewhere

  datatype Subscription = Subscription(plan: string, interval: string, billing: BillingMethod)

  const FREE := "free"

  /** What stands still during the repair: Google's entitlements and the plan mapping. */
  datatype Env = Env(google: map<string, Remote>, plans: map<string, Plan>)

  /** The local tables: rows in order of creation, one subscription per organization. */
  datatype World = World(rows: seq<Row>, subs: map<string, Subscription>)

  predicate Live(row: Row, org: string) {
    row.org == Some(org) && InService(row.status)
  }

  /** The latest purchase in service on an organization, a later row winning a tie. */
  function NewestLive(rows: seq<Row>, org: string, except: Option<nat>): (i: Option<nat>)
    ensures i.Some? ==> i.value < |rows| && Live(rows[i.value], org) && i != except
  {
    if |rows| == 0 then None
    else
      var n := |rows| - 1;
      var best := NewestLive(rows[..n], org, except);
      if Live(rows[n], org) && Some(n) != except && (best.None? || rows[best.value].effectiveAt <= rows[n].effectiveAt)
      then Some(n) else best
  }

  function Applied(env: Env, s: Subscription, row: Row): Subscription {
    if row.plan in env.plans
    then Subscription(env.plans[row.plan].name, env.plans[row.plan].interval, Marketplace)
    else s
  }

  function Freed(s: Subscription): Subscription {
    s.(plan := FREE, billing := Card)
  }

  /** A row after it has been fetched and stored; one Google has purged cannot be fetched. */
  function Resynced(env: Env, row: Row): Row {
    if row.id !in env.google then row
    else
      var kept := Stored(Some(row), row.id, row.org, env.google[row.id]);
      if kept.Some? then kept.value else row
  }

  // ------------------------------------------------------------------ first pass

  predicate IsNewest(rows: seq<Row>, j: nat)
    requires j < |rows|
  {
    rows[j].org.Some? && NewestLive(rows, rows[j].org.value, None) == Some(j)
  }

  function Pass1Row(env: Env, rows: seq<Row>, j: nat): Row
    requires j < |rows|
  {
    if IsNewest(rows, j) then Resynced(env, rows[j]) else rows[j]
  }

  /** Where the repair of one in-service row leaves its organization's subscription: on the
      row's plan, or, if the row has left service, on the plan of the newest other live
      entitlement, or free. */
  function RepairedSub(env: Env, rows: seq<Row>, i: nat, org: string, s: Subscription): Subscription
    requires i < |rows|
  {
    if rows[i].id !in env.google then s
    else if InService(Resynced(env, rows[i]).status) then Applied(env, s, Resynced(env, rows[i]))
    else match NewestLive(rows, org, Some(i))
      case None => Freed(s)
      case Some(k) => Applied(env, s, rows[k])
  }

  function Pass1Sub(env: Env, rows: seq<Row>, org: string, s: Subscription): Subscription {
    match NewestLive(rows, org, None)
    case None => s
    case Some(i) => RepairedSub(env, rows, i, org, s)
  }

  function Pass1(env: Env, w: World): World {
    World(seq(|w.rows|, j requires 0 <= j < |w.rows| => Pass1Row(env, w.rows, j)),
          map org | org in w.subs :: Pass1Sub(env, w.rows, org, w.subs[org]))
  }

  // ----------------------------------------------------------------- second pass

  /** The pending rows in the order the second pass meets them. */
  ghost predicate ListsPending(rows: seq<Row>, order: seq<nat>) {
    && (forall j: nat :: j in order <==> j < |rows| && rows[j].status == ActivationRequested)
    && (forall a, b :: 0 <= a < b < |order| ==> order[a] != order[b])
  }

  /** Google has activated a row whose activation event never arrived. */
  predicate Activates(env: Env, row: Row) {
    && row.status == ActivationRequested && row.id in env.google
    && InService(Resynced(env, row).status)
  }

  function Pass2Row(env: Env, rows: seq<Row>, order: seq<nat>, j: nat): Row
    requires j < |rows|
  {
    if j in order then Resynced(env, rows[j]) else rows[j]
  }

  function Pass2Sub(env: Env, rows: seq<Row>, order: seq<nat>, org: string, s: Subscription): Subscription {
    if |order| == 0 then s
    else
      var j := order[|order| - 1];
      var before := Pass2Sub(env, rows, order[..|order| - 1], org, s);
      if j < |rows| && rows[j].org == Some(org) && Activates(env, rows[j])
      then Applied(env, before, Resynced(env, rows[j]))
      else before
  }

  function Pass2(env: Env, w: World, order: seq<nat>): World {
    World(seq(|w.rows|, j requires 0 <= j < |w.rows| => Pass2Row(env, w.rows, order, j)),
          map org | org in w.subs :: Pass2Sub(env, w.rows, order, org, w.subs[org]))
  }

  // ------------------------------------------------------------------ third pass

  predicate Watched(row: Row) {
    InService(row.status) || row.status == ActivationRequested
  }

  predicate Backed(rows: seq<Row>, org: string) {
    exists j :: 0 <= j < |rows| && rows[j].org == Some(org) && Watched(rows[j])
  }

  function Pass3Sub(rows: seq<Row>, org: string, s: Subscription): Subscription {
    if s.billing == Marketplace && s.plan != FREE && !Backed(rows, org) then Freed(s) else s
  }

  function Pass3(w: World): World {
    w.(subs := map org | org in w.subs :: Pass3Sub(w.rows, org, w.subs[org]))
  }

  function Round(env: Env, w: World, order: seq<nat>): World {
    Pass3(Pass2(env, Pass1(env, w), order))
  }

  function Rounds(env: Env, w: World, orders: seq<seq<nat>>): (w': World)
    ensures w'.subs.Keys == w.subs.Keys
    decreases |orders|
  {
    if |orders| == 0 then w else Rounds(env, Round(env, w, orders[0]), orders[1..])
  }

  ghost predicate ListsPendingEachTime(env: Env, w: World, orders: seq<seq<nat>>)
    decreases |orders|
  {
    if |orders| == 0 then true
    else ListsPending(Pass1(env, w).rows, orders[0]) && ListsPendingEachTime(env, Round(env, w, orders[0]), orders[1..])
  }

  // --------------------------------------------------- what the convergence rests on

  predicate Of(row: Row, org: string) {
    row.org == Some(org)
  }

  predicate Served(env: Env, row: Row) {
    row.id in env.google && InService(env.google[row.id].state)
  }

  /** A live row whose record Google has purged: it can never be fetched again. */
  predicate Purged(env: Env, row: Row) {
    InService(row.status) && row.id !in env.google
  }

  /** Of one organization's rows: a watched one that can be fetched dates from the same
      purchase and is not ahead of Google; one no longer watched is not live at Google. */
  ghost predicate Known(env: Env, rows: seq<Row>, org: string) {
    forall j :: 0 <= j < |rows| && Of(rows[j], org) ==>
                  && (Watched(rows[j]) && rows[j].id in env.google ==>
                        && rows[j].effectiveAt == env.google[rows[j].id].createTime
                        && !Stale(rows[j], env.google[rows[j].id]))
                  && (!Watched(rows[j]) ==> !Served(env, rows[j]))
  }

  /** A row whose local status the repair can still move. */
  predicate Unsettled(env: Env, row: Row) {
    && row.id in env.google
    && (|| (InService(row.status) && !Served(env, row))
        || (row.status == ActivationRequested && env.google[row.id].state != ActivationRequested))
  }

  function Measure(env: Env, rows: seq<Row>, org: string): nat {
    if |rows| == 0 then 0
    else
      var last := rows[|rows| - 1];
      Measure(env, rows[..|rows| - 1], org) + if Of(last, org) && Unsettled(env, last) then 1 else 0
  }

  /** The newest entitlement of an organization that Google serves. */
  predicate NewestAtGoogle(env: Env, rows: seq<Row>, org: string, i: nat) {
    && i < |rows| && Of(rows[i], org) && Served(env, rows[i])
    && forall j :: 0 <= j < |rows| && Of(rows[j], org) && Served(env, rows[j]) ==>
                     var a, b := env.google[rows[j].id].createTime, env.google[rows[i].id].createTime;
                     a < b || (a == b && j <= i)
  }

  /** A later purchase of the organization stands in the way: still live here, purged there. */
  ghost predicate PurgedIsNewer(env: Env, rows: seq<Row>, org: string, i: nat)
    requires i < |rows| && Served(env, rows[i])
  {
    exists j :: 0 <= j < |rows| && Of(rows[j], org) && Purged(env, rows[j]) &&
                var a, b := rows[j].effectiveAt, env.google[rows[i].id].createTime;
                a > b || (a == b && j > i)
  }

  predicate Mapped(env: Env, row: Row) {
    row.id in env.google && env.google[row.id].plan in env.plans
  }

  /** The subscription that goes with what Google says of a row. */
  function Wanted(env: Env, row: Row): Subscription
    requires Mapped(env, row)
  {
    var p := env.plans[env.google[row.id].plan];
    Subscription(p.name, p.interval, Marketplace)
  }

  // ------------------------------------------------------------------------ lemmas

  lemma {:induction false} NewestLiveIsNewest(rows: seq<Row>, org: string, except: Option<nat>, j: nat)
    requires j < |rows| && Live(rows[j], org) && Some(j) != except
    ensures
      var i := NewestLive(rows, org, except);
      && i.Some?
      && (rows[j].effectiveAt < rows[i.value].effectiveAt
          || (rows[j].effectiveAt == rows[i.value].effectiveAt && j <= i.value))
  {
    var n := |rows| - 1;
    if j < n { NewestLiveIsNewest(rows[..n], org, except, j); }
  }

  lemma {:induction false} NewestLiveAgrees(rows: seq<Row>, rows': seq<Row>, org: string, except: Option<nat>)
    requires |rows| == |rows'|
    requires forall j :: 0 <= j < |rows| ==>
                           && (Live(rows[j], org) <==> Live(rows'[j], org))
                           && (Live(rows[j], org) ==> rows[j].effectiveAt == rows'[j].effectiveAt)
    ensures NewestLive(rows, org, except) == NewestLive(rows', org, except)
  {
    if |rows| > 0 {
      var n := |rows| - 1;
      NewestLiveAgrees(rows[..n], rows'[..n], org, except);
    }
  }

  /** A round renames and moves no row, and cannot touch one Google has purged. */
  lemma RoundKeeps(env: Env, w: World, order: seq<nat>, j: nat)
    requires j < |w.rows|
    ensures
      var row, row' := w.rows[j], Round(env, w, order).rows[j];
      row'.id == row.id && row'.org == row.org && (row.id !in env.google ==> row' == row)
  {
    assert Pass1(env, w).rows[j] == Pass1Row(env, w.rows, j);
  }

  /** Every row a round ends with is the one it began with or Google's own answer. */
  lemma RoundRow(env: Env, w: World, order: seq<nat>, org: string, j: nat)
    requires Known(env, w.rows, org) && ListsPending(Pass1(env, w).rows, order)
    requires j < |w.rows| && Of(w.rows[j], org)
    ensures
      var row, row' := w.rows[j], Round(env, w, order).rows[j];
      && (row' == row
          || (Watched(row) && row.id in env.google && row' == Mirrored(row.id, row.org, env.google[row.id])))
      && (row.id in env.google && (IsNewest(w.rows, j) || row.status == ActivationRequested) ==>
            row' == Mirrored(row.id, row.org, env.google[row.id]))
  {
    var row1 := Pass1(env, w).rows[j];
    assert row1 == Pass1Row(env, w.rows, j);
    if IsNewest(w.rows, j) {
      assert Live(w.rows[j], org);
    }
  }

  lemma RoundKeepsKnown(env: Env, w: World, order: seq<nat>, org: string)
    requires Known(env, w.rows, org) && ListsPending(Pass1(env, w).rows, order)
    ensures Known(env, Round(env, w, order).rows, org)
  {
    var rows' := Round(env, w, order).rows;
    forall j | 0 <= j < |rows'| && Of(rows'[j], org)
      ensures Watched(rows'[j]) && rows'[j].id in env.google ==>
                rows'[j].effectiveAt == env.google[rows'[j].id].createTime && !Stale(rows'[j], env.google[rows'[j].id])
      ensures !Watched(rows'[j]) ==> !Served(env, rows'[j])
    {
      RoundKeeps(env, w, order, j);
      RoundRow(env, w, order, org, j);
    }
  }

  predicate Counts(env: Env, row: Row, org: string) {
    Of(row, org) && Unsettled(env, row)
  }

  lemma {:induction false} MeasureFalls(env: Env, rows: seq<Row>, rows': seq<Row>, org: string)
    requires |rows| == |rows'|
    requires forall j :: 0 <= j < |rows| && Counts(env, rows'[j], org) ==> Counts(env, rows[j], org)
    ensures Measure(env, rows', org) <= Measure(env, rows, org)
    ensures (exists j :: 0 <= j < |rows| && Counts(env, rows[j], org) && !Counts(env, rows'[j], org))
            ==> Measure(env, rows', org) < Measure(env, rows, org)
  {
    if |rows| > 0 {
      var n := |rows| - 1;
      MeasureFalls(env, rows[..n], rows'[..n], org);
      if j :| 0 <= j < |rows| && Counts(env, rows[j], org) && !Counts(env, rows'[j], org) {
        if j < n { assert Counts(env, rows[..n][j], org) && !Counts(env, rows'[..n][j], org); }
      }
    }
  }

  lemma {:induction false} MeasuredRow(env: Env, rows: seq<Row>, org: string, j: nat)
    requires j < |rows| && Counts(env, rows[j], org)
    ensures Measure(env, rows, org) > 0
  {
    if j < |rows| - 1 { MeasuredRow(env, rows[..|rows| - 1], org, j); }
  }

  /** Nothing left that a round would move: the newest live row and the pending ones are
      what Google says they are, or out of reach. */
  predicate Still(env: Env, rows: seq<Row>, j: nat)
    requires j < |rows|
  {
    IsNewest(rows, j) || rows[j].status == ActivationRequested ==> !Unsettled(env, rows[j])
  }

  ghost predicate Quiet(env: Env, rows: seq<Row>, org: string) {
    forall j :: 0 <= j < |rows| && Of(rows[j], org) ==> Still(env, rows, j)
  }

  /** A round in which an organization is not quiet settles one of its rows for good. */
  lemma RoundSettles(env: Env, w: World, order: seq<nat>, org: string)
    requires Known(env, w.rows, org) && ListsPending(Pass1(env, w).rows, order)
    ensures Measure(env, Round(env, w, order).rows, org) <= Measure(env, w.rows, org)
    ensures !Quiet(env, w.rows, org) ==> Measure(env, Round(env, w, order).rows, org) < Measure(env, w.rows, org)
  {
    var rows, rows' := w.rows, Round(env, w, order).rows;
    forall j | 0 <= j < |rows| ensures Counts(env, rows'[j], org) ==> Counts(env, rows[j], org) {
      RoundKeeps(env, w, order, j);
      if Of(rows[j], org) { RoundRow(env, w, order, org, j); }
    }
    if !Quiet(env, rows, org) {
      var j :| 0 <= j < |rows| && Of(rows[j], org) && !Still(env, rows, j);
      RoundRow(env, w, order, org, j);
      assert Counts(env, rows[j], org) && !Counts(env, rows'[j], org);
    }
    MeasureFalls(env, rows, rows', org);
  }

  lemma {:induction false} NoActivation(env: Env, rows: seq<Row>, order: seq<nat>, org: string, s: Subscription)
    requires forall j :: 0 <= j < |rows| && Of(rows[j], org) ==> !Activates(env, rows[j])
    ensures Pass2Sub(env, rows, order, org, s) == s
  {
    if |order| > 0 { NoActivation(env, rows, order[..|order| - 1], org, s); }
  }

  /** A round moves no row of a quiet organization in or out of service. */
  lemma QuietRow(env: Env, w: World, order: seq<nat>, org: string, j: nat)
    requires Known(env, w.rows, org) && Quiet(env, w.rows, org) && ListsPending(Pass1(env, w).rows, order)
    requires j < |w.rows| && Of(w.rows[j], org)
    ensures
      var row, row1, row' := w.rows[j], Pass1(env, w).rows[j], Round(env, w, order).rows[j];
      && (InService(row'.status) <==> InService(row.status)) && (Watched(row') <==> Watched(row))
      && (row.status == ActivationRequested <==> row'.status == ActivationRequested)
      && (Watched(row) ==> row'.effectiveAt == row.effectiveAt)
      && !Activates(env, row1)
  {
    RoundRow(env, w, order, org, j);
    assert Still(env, w.rows, j);
    assert Pass1(env, w).rows[j] == Pass1Row(env, w.rows, j);
    if IsNewest(w.rows, j) { assert InService(w.rows[j].status); }
  }

  lemma QuietNewest(env: Env, w: World, order: seq<nat>, org: string)
    requires Known(env, w.rows, org) && Quiet(env, w.rows, org) && ListsPending(Pass1(env, w).rows, order)
    ensures NewestLive(Round(env, w, order).rows, org, None) == NewestLive(w.rows, org, None)
    ensures Backed(Round(env, w, order).rows, org) <==> Backed(w.rows, org)
  {
    var rows, rows' := w.rows, Round(env, w, order).rows;
    forall j | 0 <= j < |rows|
      ensures Of(rows'[j], org) <==> Of(rows[j], org)
      ensures Of(rows[j], org) ==> (InService(rows'[j].status) <==> InService(rows[j].status))
      ensures Of(rows[j], org) ==> (Watched(rows'[j]) <==> Watched(rows[j]))
      ensures Of(rows[j], org) && Watched(rows[j]) ==> rows'[j].effectiveAt == rows[j].effectiveAt
    {
      RoundKeeps(env, w, order, j);
      if Of(rows[j], org) { QuietRow(env, w, order, org, j); }
    }
    NewestLiveAgrees(rows, rows', org, None);
    if j :| 0 <= j < |rows| && Of(rows[j], org) && Watched(rows[j]) { assert Of(rows'[j], org) && Watched(rows'[j]); }
    if j :| 0 <= j < |rows| && Of(rows'[j], org) && Watched(rows'[j]) { assert Of(rows[j], org) && Watched(rows[j]); }
  }

  lemma QuietStays(env: Env, w: World, order: seq<nat>, org: string)
    requires Known(env, w.rows, org) && Quiet(env, w.rows, org) && ListsPending(Pass1(env, w).rows, order)
    ensures Quiet(env, Round(env, w, order).rows, org)
  {
    var rows, rows' := w.rows, Round(env, w, order).rows;
    QuietNewest(env, w, order, org);
    forall j | 0 <= j < |rows'| && Of(rows'[j], org) ensures Still(env, rows', j) {
      RoundKeeps(env, w, order, j);
      QuietRow(env, w, order, org, j);
      assert Still(env, rows, j);
      assert IsNewest(rows', j) <==> IsNewest(rows, j);
    }
  }

  /** What a round leaves a quiet organization's subscription at: on its newest live row's
      plan, or, if Google has purged that row, where it was. */
  lemma QuietSub(env: Env, w: World, order: seq<nat>, org: string)
    requires Known(env, w.rows, org) && Quiet(env, w.rows, org) && ListsPending(Pass1(env, w).rows, order)
    requires org in w.subs
    ensures
      var s, s' := w.subs[org], Round(env, w, order).subs[org];
      match NewestLive(w.rows, org, None)
      case Some(i) => s' == if Mapped(env, w.rows[i]) then Wanted(env, w.rows[i]) else s
      case None => s' == Pass3Sub(w.rows, org, s)
  {
    QuietPasses(env, w, order, org);
    match NewestLive(w.rows, org, None)
    case Some(i) =>
      assert IsNewest(w.rows, i) && Still(env, w.rows, i) && Watched(w.rows[i]);
      assert Backed(w.rows, org);
    case None =>
  }

  /** In its quiet round the second pass leaves the subscription alone, and the third sees
      the same backing as before the round. */
  lemma QuietPasses(env: Env, w: World, order: seq<nat>, org: string)
    requires Known(env, w.rows, org) && Quiet(env, w.rows, org) && ListsPending(Pass1(env, w).rows, order)
    requires org in w.subs
    ensures Round(env, w, order).subs[org] == Pass3Sub(w.rows, org, Pass1Sub(env, w.rows, org, w.subs[org]))
  {
    var w1 := Pass1(env, w);
    forall j | 0 <= j < |w1.rows| && Of(w1.rows[j], org) ensures !Activates(env, w1.rows[j]) {
      assert w1.rows[j] == Pass1Row(env, w.rows, j);
      QuietRow(env, w, order, org, j);
    }
    NoActivation(env, w1.rows, order, org, w1.subs[org]);
    QuietNewest(env, w, order, org);
    assert Pass2(env, w1, order).rows == Round(env, w, order).rows;
  }

  /** Once it is quiet, the rounds after the next change nothing in its subscription. */
  lemma QuietRoundIsStable(env: Env, w: World, order: seq<nat>, next: seq<nat>, org: string)
    requires Known(env, w.rows, org) && Quiet(env, w.rows, org) && ListsPending(Pass1(env, w).rows, order)
    requires ListsPending(Pass1(env, Round(env, w, order)).rows, next) && org in w.subs
    ensures Round(env, Round(env, w, order), next).subs[org] == Round(env, w, order).subs[org]
  {
    var w' := Round(env, w, order);
    QuietStays(env, w, order, org);
    QuietNewest(env, w, order, org);
    RoundKeepsKnown(env, w, order, org);
    QuietSub(env, w, order, org);
    QuietSub(env, w', next, org);
    if NewestLive(w.rows, org, None).Some? { RoundKeeps(env, w, order, NewestLive(w.rows, org, None).value); }
  }

  // ----------------------------------------------------------------- several rounds

  lemma {:induction false} RoundsKeep(env: Env, w: World, orders: seq<seq<nat>>, org: string)
    requires Known(env, w.rows, org) && ListsPendingEachTime(env, w, orders)
    ensures Known(env, Rounds(env, w, orders).rows, org)
    ensures |Rounds(env, w, orders).rows| == |w.rows|
    ensures forall j :: 0 <= j < |w.rows| ==>
                          var row, row' := w.rows[j], Rounds(env, w, orders).rows[j];
                          row'.id == row.id && row'.org == row.org && (row.id !in env.google ==> row' == row)
    decreases |orders|
  {
    if |orders| > 0 {
      RoundKeepsKnown(env, w, orders[0], org);
      forall j | 0 <= j < |w.rows| { RoundKeeps(env, w, orders[0], j); }
      RoundsKeep(env, Round(env, w, orders[0]), orders[1..], org);
    }
  }

  lemma {:induction false} RoundsSplit(env: Env, w: World, orders: seq<seq<nat>>, n: nat)
    requires n <= |orders| && ListsPendingEachTime(env, w, orders)
    ensures ListsPendingEachTime(env, w, orders[..n])
    ensures ListsPendingEachTime(env, Rounds(env, w, orders[..n]), orders[n..])
    ensures Rounds(env, w, orders) == Rounds(env, Rounds(env, w, orders[..n]), orders[n..])
    decreases n
  {
    if n == 0 {
      assert orders[n..] == orders && Rounds(env, w, orders[..n]) == w;
    } else {
      RoundsSplit(env, Round(env, w, orders[0]), orders[1..], n - 1);
      assert orders[..n][1..] == orders[1..][..n - 1] && orders[1..][n - 1..] == orders[n..]
             && orders[..n][0] == orders[0];
    }
  }

  /** After as many rounds as an organization has rows to settle, it is quiet. */
  lemma {:induction false} QuietWithin(env: Env, w: World, orders: seq<seq<nat>>, org: string)
    requires Known(env, w.rows, org) && ListsPendingEachTime(env, w, orders)
    requires |orders| >= Measure(env, w.rows, org)
    ensures Quiet(env, Rounds(env, w, orders).rows, org)
    decreases |orders|
  {
    if |orders| == 0 {
      forall j | 0 <= j < |w.rows| && Of(w.rows[j], org) ensures Still(env, w.rows, j) {
        if Counts(env, w.rows[j], org) { MeasuredRow(env, w.rows, org, j); }
      }
    } else if Quiet(env, w.rows, org) {
      QuietLasts(env, w, orders, org);
    } else {
      RoundSettles(env, w, orders[0], org);
      RoundKeepsKnown(env, w, orders[0], org);
      QuietWithin(env, Round(env, w, orders[0]), orders[1..], org);
    }
  }

  lemma {:induction false} QuietLasts(env: Env, w: World, orders: seq<seq<nat>>, org: string)
    requires Known(env, w.rows, org) && Quiet(env, w.rows, org) && ListsPendingEachTime(env, w, orders)
    ensures Quiet(env, Rounds(env, w, orders).rows, org)
    ensures |orders| > 0 && org in w.subs ==> Rounds(env, w, orders).subs[org] == Round(env, w, orders[0]).subs[org]
    decreases |orders|
  {
    if |orders| > 0 {
      var w' := Round(env, w, orders[0]);
      QuietStays(env, w, orders[0], org);
      RoundKeepsKnown(env, w, orders[0], org);
      QuietLasts(env, w', orders[1..], org);
      if |orders| > 1 && org in w.subs {
        QuietRoundIsStable(env, w, orders[0], orders[1], org);
      }
    }
  }

  // ------------------------------------------------------------------- the theorems

  /** A quiet organization's newest live row is its newest at Google, unless a purged row is
      newer still. */
  lemma NewestUnlessPurged(env: Env, rows: seq<Row>, org: string, i: nat)
    requires Known(env, rows, org) && Quiet(env, rows, org) && NewestAtGoogle(env, rows, org, i)
    ensures PurgedIsNewer(env, rows, org, i) ==>
              NewestLive(rows, org, None).Some? && Purged(env, rows[NewestLive(rows, org, None).value])
    ensures !PurgedIsNewer(env, rows, org, i) ==> NewestLive(rows, org, None) == Some(i)
  {
    assert Still(env, rows, i) && Live(rows[i], org);
    NewestLiveIsNewest(rows, org, None, i);
    var k := NewestLive(rows, org, None).value;
    assert IsNewest(rows, k) && Still(env, rows, k);
    if PurgedIsNewer(env, rows, org, i) {
      var j :| 0 <= j < |rows| && Of(rows[j], org) && Purged(env, rows[j]) &&
               var a, b := rows[j].effectiveAt, env.google[rows[i].id].createTime; a > b || (a == b && j > i);
      NewestLiveIsNewest(rows, org, None, j);
    }
  }

  /** Where the rounds leave a quiet organization: on the plan of its newest entitlement served
      by Google if and only if no purged row is newer, or it was on that plan to begin with. */
  lemma QuietRoundsRepair(env: Env, w: World, orders: seq<seq<nat>>, org: string, i: nat)
    requires Known(env, w.rows, org) && Quiet(env, w.rows, org) && ListsPendingEachTime(env, w, orders)
    requires |orders| > 0 && org in w.subs && NewestAtGoogle(env, w.rows, org, i) && Mapped(env, w.rows[i])
    ensures Rounds(env, w, orders).subs[org] == Wanted(env, w.rows[i])
            <==> !PurgedIsNewer(env, w.rows, org, i) || w.subs[org] == Wanted(env, w.rows[i])
  {
    QuietLasts(env, w, orders, org);
    QuietSub(env, w, orders[0], org);
    NewestUnlessPurged(env, w.rows, org, i);
  }

  lemma SameAtGoogle(env: Env, w: World, orders: seq<seq<nat>>, org: string, i: nat)
    requires Known(env, w.rows, org) && ListsPendingEachTime(env, w, orders)
    requires NewestAtGoogle(env, w.rows, org, i)
    ensures
      var rows := Rounds(env, w, orders).rows;
      && NewestAtGoogle(env, rows, org, i) && rows[i].id == w.rows[i].id
      && (PurgedIsNewer(env, rows, org, i) <==> PurgedIsNewer(env, w.rows, org, i))
  {
    RoundsKeep(env, w, orders, org);
    var rows := Rounds(env, w, orders).rows;
    forall j | 0 <= j < |rows|
      ensures Purged(env, rows[j]) <==> Purged(env, w.rows[j])
      ensures Purged(env, rows[j]) ==> rows[j] == w.rows[j]
    {}
  }

  /** Where the repair converges: an organization ends on its newest served plan exactly when
      no purged row is newer, or its subscription is on that plan once its rows are settled. */
  lemma SettledDecides(env: Env, w: World, orders: seq<seq<nat>>, org: string, n: nat, i: nat)
    requires Known(env, w.rows, org) && ListsPendingEachTime(env, w, orders) && org in w.subs
    requires Measure(env, w.rows, org) <= n < |orders|
    requires NewestAtGoogle(env, w.rows, org, i) && Mapped(env, w.rows[i])
    ensures Rounds(env, w, orders).subs[org] == Wanted(env, w.rows[i])
            <==> !PurgedIsNewer(env, w.rows, org, i) || Rounds(env, w, orders[..n]).subs[org] == Wanted(env, w.rows[i])
  {
    RoundsKeep(env, w, orders, org);
    RoundsSplit(env, w, orders, n);
    RoundsKeep(env, w, orders[..n], org);
    QuietWithin(env, w, orders[..n], org);
    SameAtGoogle(env, w, orders[..n], org, i);
    QuietRoundsRepair(env, Rounds(env, w, orders[..n]), orders[n..], org, i);
  }

  lemma LastRound(env: Env, w: World, orders: seq<seq<nat>>)
    requires |orders| > 0 && ListsPendingEachTime(env, w, orders)
    ensures
      var n := |orders| - 1;
      var before := Rounds(env, w, orders[..n]);
      && ListsPendingEachTime(env, w, orders[..n]) && ListsPending(Pass1(env, before).rows, orders[n])
      && Rounds(env, w, orders) == Round(env, before, orders[n])
  {
    var n := |orders| - 1;
    RoundsSplit(env, w, orders, n);
    assert orders[n..] == [orders[n]];
  }

  lemma LastRoundStays(env: Env, w: World, orders: seq<seq<nat>>, next: seq<nat>, org: string)
    requires Known(env, w.rows, org) && ListsPendingEachTime(env, w, orders) && org in w.subs
    requires |orders| > Measure(env, w.rows, org)
    requires ListsPending(Pass1(env, Rounds(env, w, orders)).rows, next)
    ensures Round(env, Rounds(env, w, orders), next).subs[org] == Rounds(env, w, orders).subs[org]
  {
    var n := |orders| - 1;
    LastRound(env, w, orders);
    RoundsKeep(env, w, orders[..n], org);
    QuietWithin(env, w, orders[..n], org);
    QuietRoundIsStable(env, Rounds(env, w, orders[..n]), orders[n], next, org);
  }

  /** The repair converges, organization by organization.  Whatever events were lost, repeated
      or reordered before, and whatever becomes of other organizations: after more hourly
      rounds than it has rows to settle, no later round changes its subscription, and if no
      row purged at Google is newer it is on the plan of its newest entitlement served there. */
  lemma RepairConverges(env: Env, w: World, orders: seq<seq<nat>>, next: seq<nat>, org: string)
    requires Known(env, w.rows, org) && ListsPendingEachTime(env, w, orders) && org in w.subs
    requires |orders| > Measure(env, w.rows, org)
    requires ListsPending(Pass1(env, Rounds(env, w, orders)).rows, next)
    ensures Round(env, Rounds(env, w, orders), next).subs[org] == Rounds(env, w, orders).subs[org]
    ensures forall i: nat :: NewestAtGoogle(env, w.rows, org, i) && Mapped(env, w.rows[i])
                             && !PurgedIsNewer(env, w.rows, org, i)
                             ==> Rounds(env, w, orders).subs[org] == Wanted(env, w.rows[i])
  {
    var n := |orders| - 1;
    forall i: nat | NewestAtGoogle(env, w.rows, org, i) && Mapped(env, w.rows[i]) && !PurgedIsNewer(env, w.rows, org, i)
      ensures Rounds(env, w, orders).subs[org] == Wanted(env, w.rows[i])
    {
      SettledDecides(env, w, orders, org, n, i);
    }
    LastRoundStays(env, w, orders, next, org);
  }

  function Starting(w: World, org: string, s: Subscription): World {
    w.(subs := w.subs[org := s])
  }

  lemma {:induction false} RowsIgnoreSubscriptions(env: Env, w: World, w': World, orders: seq<seq<nat>>)
    requires w.rows == w'.rows && ListsPendingEachTime(env, w, orders)
    ensures ListsPendingEachTime(env, w', orders)
    decreases |orders|
  {
    if |orders| > 0 {
      assert Round(env, w, orders[0]).rows == Round(env, w', orders[0]).rows;
      RowsIgnoreSubscriptions(env, Round(env, w, orders[0]), Round(env, w', orders[0]), orders[1..]);
    }
  }

  /** So from rows nothing is left to settle in, every starting subscription is repaired if
      and only if no purged row is newer. */
  lemma RepairsEveryStartExactly(env: Env, w: World, orders: seq<seq<nat>>, org: string, i: nat)
    requires Known(env, w.rows, org) && Quiet(env, w.rows, org) && ListsPendingEachTime(env, w, orders) && |orders| > 0
    requires NewestAtGoogle(env, w.rows, org, i) && Mapped(env, w.rows[i])
    ensures
      (forall s :: Rounds(env, Starting(w, org, s), orders).subs[org] == Wanted(env, w.rows[i]))
      <==> !PurgedIsNewer(env, w.rows, org, i)
  {
    forall s
      ensures Rounds(env, Starting(w, org, s), orders).subs[org] == Wanted(env, w.rows[i])
              <==> !PurgedIsNewer(env, w.rows, org, i) || s == Wanted(env, w.rows[i])
    {
      RowsIgnoreSubscriptions(env, w, Starting(w, org, s), orders);
      QuietRoundsRepair(env, Starting(w, org, s), orders, org, i);
    }
    var other := Wanted(env, w.rows[i]).(billing := Card);
    assert Starting(w, org, other).subs[org] != Wanted(env, w.rows[i]);
    assert PurgedIsNewer(env, w.rows, org, i) ==>
             Rounds(env, Starting(w, org, other), orders).subs[org] != Wanted(env, w.rows[i]);
  }

  /** A live row leaves service in a round exactly when it is its organization's newest and
      Google answers that it has. */
  lemma LeavesServiceExactly(env: Env, w: World, order: seq<nat>, j: nat)
    requires ListsPending(Pass1(env, w).rows, order) && j < |w.rows| && InService(w.rows[j].status)
    requires w.rows[j].id in env.google ==> !Stale(w.rows[j], env.google[w.rows[j].id])
    ensures !InService(Round(env, w, order).rows[j].status)
            <==> IsNewest(w.rows, j) && w.rows[j].id in env.google && !InService(env.google[w.rows[j].id].state)
  {
    var row1 := Pass1(env, w).rows[j];
    assert row1 == Pass1Row(env, w.rows, j);
    assert Round(env, w, order).rows[j] == Pass2Row(env, Pass1(env, w).rows, order, j);
  }

  /** The row an organization is repaired by: in service, and of the latest purchase in service; of
      two of the same moment, the later row. */
  lemma NewestExactly(rows: seq<Row>, j: nat)
    requires j < |rows|
    ensures IsNewest(rows, j)
            <==> && rows[j].org.Some? && InService(rows[j].status)
                 && forall k: nat :: k < |rows| && rows[k].org == rows[j].org && InService(rows[k].status) ==>
                      rows[k].effectiveAt < rows[j].effectiveAt
                      || (rows[k].effectiveAt == rows[j].effectiveAt && k <= j)
  {
    if rows[j].org.Some? && InService(rows[j].status) {
      var org := rows[j].org.value;
      NewestLiveIsNewest(rows, org, None, j);
      forall k: nat | k < |rows| && rows[k].org == Some(org) && InService(rows[k].status)
        ensures NewestLive(rows, org, None) == Some(j) ==>
                  rows[k].effectiveAt < rows[j].effectiveAt
                  || (rows[k].effectiveAt == rows[j].effectiveAt && k <= j)
      {
        NewestLiveIsNewest(rows, org, None, k);
      }
    }
  }

  /** A row that now shows Google's answer, or one that cannot: Google has none, or an older one. */
  predicate Refetched(env: Env, row: Row, row': Row) {
    if row.id in env.google
       && !(row.googleUpdate.Some? && env.google[row.id].updateTime.Some?
            && row.googleUpdate.value > env.google[row.id].updateTime.value)
    then
      var r := env.google[row.id];
      && row'.id == row.id && row'.org == row.org && row'.plan == r.plan && row'.status == r.state
      && row'.effectiveAt == r.createTime && row'.googleUpdate == r.updateTime
    else row' == row
  }

  /** Row by row, the first pass fetches the one each organization is repaired by, the second those
      that await activation, and neither touches another. */
  lemma RowsAfter(env: Env, w: World, order: seq<nat>, j: nat)
    requires j < |w.rows| && ListsPending(Pass1(env, w).rows, order)
    ensures
      var first := Pass1(env, w).rows[j];
      var end := Round(env, w, order).rows[j];
      && |Round(env, w, order).rows| == |w.rows|
      && (if IsNewest(w.rows, j) then Refetched(env, w.rows[j], first) else first == w.rows[j])
      && (if first.status == ActivationRequested then Refetched(env, first, end) else end == first)
  {
    assert j in order <==> Pass1(env, w).rows[j].status == ActivationRequested;
  }

  /** A row that Google has activated puts its organization on its plan, if no other does. */
  lemma {:induction false} OneActivated(env: Env, rows: seq<Row>, order: seq<nat>, org: string, s: Subscription, j: nat)
    requires j in order && j < |rows| && rows[j].org == Some(org) && rows[j].status == ActivationRequested
    requires rows[j].id in env.google && !Stale(rows[j], env.google[rows[j].id])
    requires InService(env.google[rows[j].id].state) && env.google[rows[j].id].plan in env.plans
    requires forall k :: k in order && k < |rows| && k != j && rows[k].org == Some(org) ==> !Activates(env, rows[k])
    ensures
      var plan := env.plans[env.google[rows[j].id].plan];
      Pass2Sub(env, rows, order, org, s) == Subscription(plan.name, plan.interval, Marketplace)
  {
    var front, last := order[..|order| - 1], order[|order| - 1];
    assert order == front + [last];
    if last != j {
      OneActivated(env, rows, front, org, s, j);
    }
  }

  /** Whose last live purchase has ended goes to the free plan with card billing, and keeps its
      interval. */
  lemma LastOneEnds(env: Env, w: World, org: string, i: nat)
    requires org in w.subs && NewestLive(w.rows, org, None) == Some(i) && w.rows[i].id in env.google
    requires !Stale(w.rows[i], env.google[w.rows[i].id]) && !InService(env.google[w.rows[i].id].state)
    requires forall j: nat :: j < |w.rows| && j != i && w.rows[j].org == Some(org) ==> !InService(w.rows[j].status)
    ensures Pass1(env, w).subs[org] == Subscription("free", w.subs[org].interval, Card)
  {}

  /** After any round nobody is on a paid plan billed by the marketplace with no entitlement in
      service or awaiting activation; whoever was is on the free plan with card billing. */
  lemma NoPaidPlanUnbacked(env: Env, w: World, order: seq<nat>, org: string)
    requires org in w.subs
    requires forall j: nat :: j < |w.rows| && Round(env, w, order).rows[j].org == Some(org) ==>
                                var status := Round(env, w, order).rows[j].status;
                                !InService(status) && status != ActivationRequested
    ensures
      var s := Round(env, w, order).subs[org];
      (s.billing == Marketplace ==> s.plan == "free")
      && (var before := Pass2(env, Pass1(env, w), order).subs[org];
          s == if before.billing == Marketplace && before.plan != "free"
               then Subscription("free", before.interval, Card) else before)
  {}

  /** And the third pass touches nobody else. */
  lemma BackedPlansStay(w: World, org: string, j: nat)
    requires org in w.subs && j < |w.rows| && w.rows[j].org == Some(org)
    requires InService(w.rows[j].status) || w.rows[j].status == ActivationRequested
    ensures Pass3(w).subs[org] == w.subs[org]
  {
    assert Watched(w.rows[j]);
  }

  /** Repaired, a live row's organization has the plan that its marketplace plan maps to, and
      nothing else about it changes where there is none. */
  lemma LivePlanApplied(env: Env, w: World, org: string, i: nat)
    requires org in w.subs && NewestLive(w.rows, org, None) == Some(i) && w.rows[i].id in env.google
    requires !Stale(w.rows[i], env.google[w.rows[i].id]) && InService(env.google[w.rows[i].id].state)
    ensures
      var plan := env.google[w.rows[i].id].plan;
      Pass1(env, w).subs[org]
      == if plan in env.plans then Subscription(env.plans[plan].name, env.plans[plan].interval, Marketplace)
         else w.subs[org]
  {}

  /** A live row whose record Google has purged stays live however often the repair runs. */
  lemma {:induction false} PurgedRowNeverLeaves(env: Env, w: World, orders: seq<seq<nat>>, j: nat)
    requires j < |w.rows| && w.rows[j].id !in env.google
    ensures j < |Rounds(env, w, orders).rows| && Rounds(env, w, orders).rows[j] == w.rows[j]
    decreases |orders|
  {
    if |orders| > 0 {
      RoundKeeps(env, w, orders[0], j);
      PurgedRowNeverLeaves(env, Round(env, w, orders[0]), orders[1..], j);
    }
  }

  // One organization with two purchases: the first still served by Google, the second
  // purged there with nobody told.

  const ServedPurchase := Remote("team", Active, "c", 1, Some(1))
  const StrandedEnv := Env(map["served" := ServedPurchase],
                           map["team" := Plan("boost", "monthly"), "scale" := Plan("scale", "monthly")])
  const StrandedRows := [
    Mirrored("served", Some("acme"), ServedPurchase),
    Row("purged", Some("acme"), "scale", Active, "c", 2, Some(2))]
  const Stranded := World(StrandedRows, map["acme" := Subscription("scale", "monthly", Marketplace)])

  /** No number of rounds moves it off the purged purchase's plan. */
  lemma {:induction false} PurgedRowStrands(orders: seq<seq<nat>>)
    requires ListsPendingEachTime(StrandedEnv, Stranded, orders)
    ensures NewestAtGoogle(StrandedEnv, StrandedRows, "acme", 0) && Mapped(StrandedEnv, StrandedRows[0])
    ensures Known(StrandedEnv, StrandedRows, "acme")
    ensures Rounds(StrandedEnv, Stranded, orders) == Stranded
    ensures Stranded.subs["acme"] != Wanted(StrandedEnv, StrandedRows[0])
    decreases |orders|
  {
    if |orders| > 0 {
      StrandedRound(orders[0]);
      PurgedRowStrands(orders[1..]);
    }
  }

  lemma SomeListed(order: seq<nat>)
    ensures |order| > 0 ==> exists j: nat :: j in order
  {
    if |order| > 0 { assert order[0] in order; }
  }

  lemma StrandedRound(order: seq<nat>)
    requires ListsPending(Pass1(StrandedEnv, Stranded).rows, order)
    ensures Round(StrandedEnv, Stranded, order) == Stranded
  {
    var rows := StrandedRows;
    assert rows[..1] == [rows[0]] && rows[..1][..0] == [];
    assert NewestLive(rows, "acme", None) == Some(1);
    var w1 := Pass1(StrandedEnv, Stranded);
    assert w1.rows == rows;
    assert w1.subs == Stranded.subs;
    SomeListed(order);
    assert Pass2(StrandedEnv, w1, order) == Stranded;
    assert Watched(rows[0]);
  }
}

/** The hourly repair, row by row on its tables, proved against the rounds of Repair. */
module EntitlementRepairing {
  import opened Wrappers
  import opened Entitlements
  import opened Repair
  import opened RepairTails

  predicate Before(rows: seq<Row>, i: nat, j: nat)
    requires i < |rows| && j < |rows|
  {
    rows[i].effectiveAt > rows[j].effectiveAt || (rows[i].effectiveAt == rows[j].effectiveAt && i > j)
  }

  predicate LiveSomewhere(row: Row) {
    row.org.Some? && InService(row.status)
  }

  /** The query of the first pass: the rows in service on some organization, each once, and
      newest first within an organization. */
  ghost predicate ListsLive(rows: seq<Row>, order: seq<nat>) {
    && (forall j: nat :: j in order <==> j < |rows| && LiveSomewhere(rows[j]))
    && (forall a, b :: 0 <= a < b < |order| ==> order[a] < |rows| && order[b] < |rows|)
    && (forall a, b :: 0 <= a < b < |order| && rows[order[a]].org == rows[order[b]].org ==>
                          Before(rows, order[a], order[b]))
  }

  /** The first row listed for an organization is its newest. */
  lemma FirstListedIsNewest(rows: seq<Row>, order: seq<nat>, k: nat)
    requires ListsLive(rows, order) && k < |order|
    requires forall a :: 0 <= a < k ==>
                           order[a] < |rows| && (order[k] < |rows| ==> rows[order[a]].org != rows[order[k]].org)
    ensures order[k] < |rows| && IsNewest(rows, order[k])
  {
    var j := order[k];
    assert j in order && LiveSomewhere(rows[j]);
    var org := rows[j].org.value;
    NewestLiveIsNewest(rows, org, None, j);
    var i := NewestLive(rows, org, None).value;
    assert LiveSomewhere(rows[i]) && i in order;
    var a :| 0 <= a < |order| && order[a] == i;
  }

  lemma {:induction false} ExceptIgnores(rows: seq<Row>, org: string, i: nat, row: Row)
    requires i < |rows|
    ensures NewestLive(rows[i := row], org, Some(i)) == NewestLive(rows, org, Some(i))
  {
    var n := |rows| - 1;
    if i < n {
      assert rows[i := row][..n] == rows[..n][i := row];
      ExceptIgnores(rows[..n], org, i, row);
    } else {
      assert rows[i := row][..n] == rows[..n];
    }
  }

  /** The organizations of the rows listed so far have been seen. */
  ghost predicate Listed(rows: seq<Row>, order: seq<nat>, k: nat, seen: set<string>)
    requires k <= |order|
  {
    forall a :: 0 <= a < k ==> order[a] < |rows| && rows[order[a]].org.Some? && rows[order[a]].org.value in seen
  }

  lemma ListedOneMore(rows: seq<Row>, order: seq<nat>, k: nat, seen: set<string>, org: string)
    requires ListsLive(rows, order) && k < |order| && Listed(rows, order, k, seen)
    requires order[k] < |rows| && rows[order[k]].org == Some(org)
    ensures Listed(rows, order, k + 1, seen + {org})
    ensures org in seen ==> seen + {org} == seen
    ensures org !in seen ==> IsNewest(rows, order[k])
  {
    if org !in seen { FirstListedIsNewest(rows, order, k); }
  }

  lemma ListedIsLive(rows: seq<Row>, order: seq<nat>, k: nat)
    requires ListsLive(rows, order) && k < |order|
    ensures order[k] < |rows| && LiveSomewhere(rows[order[k]])
  {
    assert order[k] in order;
  }

  /** And only those. */
  ghost predicate OnlyListed(rows: seq<Row>, order: seq<nat>, k: nat, seen: set<string>)
    requires k <= |order|
  {
    forall org :: org in seen ==> exists a :: 0 <= a < k && IsRowOf(rows, order[a], org)
  }

  predicate IsRowOf(rows: seq<Row>, j: nat, org: string) {
    j < |rows| && rows[j].org == Some(org)
  }

  lemma OnlyListedOneMore(rows: seq<Row>, order: seq<nat>, k: nat, seen: set<string>, org: string)
    requires k < |order| && OnlyListed(rows, order, k, seen) && IsRowOf(rows, order[k], org)
    ensures OnlyListed(rows, order, k + 1, seen + {org})
  {
    forall o | o in seen + {org} ensures exists a :: 0 <= a < k + 1 && IsRowOf(rows, order[a], o) {
      if o == org {
        assert IsRowOf(rows, order[k], o);
      } else {
        var a :| 0 <= a < k && IsRowOf(rows, order[a], o);
      }
    }
  }

  /** A row of an organization already seen is not its newest. */
  lemma SeenIsNotNewest(rows: seq<Row>, order: seq<nat>, k: nat, seen: set<string>, org: string)
    requires ListsLive(rows, order) && k < |order| && OnlyListed(rows, order, k, seen)
    requires IsRowOf(rows, order[k], org) && org in seen
    ensures !IsNewest(rows, order[k])
  {
    var a :| 0 <= a < k && IsRowOf(rows, order[a], org);
    assert order[a] in order && Before(rows, order[a], order[k]);
    NewestLiveIsNewest(rows, org, None, order[a]);
  }

  /** The first pass done for some organizations and not begun for the others. */
  ghost predicate Passed(env: Env, w0: World, w: World, seen: set<string>) {
    && |w.rows| == |w0.rows| && w.subs.Keys == w0.subs.Keys
    && (forall j :: 0 <= j < |w.rows| ==>
                      w.rows[j].org == w0.rows[j].org
                      && w.rows[j] == if w0.rows[j].org.Some? && w0.rows[j].org.value in seen
                                      then Pass1Row(env, w0.rows, j) else w0.rows[j])
    && (forall org :: org in w.subs ==>
                        w.subs[org] == if org in seen then Pass1Sub(env, w0.rows, org, w0.subs[org]) else w0.subs[org])
  }

  lemma PassOne(env: Env, w0: World, w: World, w': World, seen: set<string>, j: nat, org: string)
    requires Passed(env, w0, w, seen) && org !in seen && j < |w0.rows|
    requires IsNewest(w0.rows, j) && w0.rows[j].org == Some(org)
    requires w'.rows == w.rows[j := Resynced(env, w.rows[j])]
    requires w'.subs == if org in w.subs then w.subs[org := RepairedSub(env, w.rows, j, org, w.subs[org])] else w.subs
    ensures Passed(env, w0, w', seen + {org})
  {
    assert w.rows[j] == w0.rows[j];
    NewestLiveAgrees(w.rows, w0.rows, org, Some(j));
    if NewestLive(w.rows, org, Some(j)).Some? {
      var k := NewestLive(w.rows, org, Some(j)).value;
      assert w.rows[k] == w0.rows[k];
    }
    forall i | 0 <= i < |w'.rows|
      ensures w'.rows[i].org == w0.rows[i].org
      ensures w'.rows[i] == if w0.rows[i].org.Some? && w0.rows[i].org.value in seen + {org}
                            then Pass1Row(env, w0.rows, i) else w0.rows[i]
    {
      if i != j && w0.rows[i].org == Some(org) { assert !IsNewest(w0.rows, i); }
    }
  }

  /** What the first `k` rows of a list come to: the organizations seen, and the tails. */
  ghost predicate Through(env: Env, reported: set<string>, rows: seq<Row>, order: seq<nat>, k: nat,
                          charged: seq<string>, seen: set<string>)
    requires k <= |order|
  {
    && Listed(rows, order, k, seen) && OnlyListed(rows, order, k, seen)
    && charged == LiveTails(env, reported, rows, order[..k])
  }

  lemma TailsOneMore(env: Env, reported: set<string>, rows: seq<Row>, order: seq<nat>, k: nat)
    requires k < |order| && order[k] < |rows|
    ensures LiveTails(env, reported, rows, order[..k + 1])
            == LiveTails(env, reported, rows, order[..k])
               + if IsNewest(rows, order[k]) then Tail(env, reported, rows[order[k]]) else []
  {
    assert order[..k + 1][..k] == order[..k];
  }

  lemma ThroughOneMore(env: Env, reported: set<string>, rows: seq<Row>, order: seq<nat>, k: nat,
                       charged: seq<string>, seen: set<string>, org: string)
    requires ListsLive(rows, order) && k < |order| && Through(env, reported, rows, order, k, charged, seen)
    requires IsRowOf(rows, order[k], org)
    ensures org in seen ==> Through(env, reported, rows, order, k + 1, charged, seen)
    ensures org !in seen ==>
              Through(env, reported, rows, order, k + 1, charged + Tail(env, reported, rows[order[k]]), seen + {org})
    ensures org !in seen ==> IsNewest(rows, order[k])
  {
    TailsOneMore(env, reported, rows, order, k);
    ListedOneMore(rows, order, k, seen, org);
    OnlyListedOneMore(rows, order, k, seen, org);
    if org in seen {
      assert seen + {org} == seen;
      SeenIsNotNewest(rows, order, k, seen, org);
    }
  }

  lemma PassedAll(env: Env, w0: World, w: World, seen: set<string>)
    requires Passed(env, w0, w, seen)
    requires forall org :: NewestLive(w0.rows, org, None).Some? ==> org in seen
    ensures w == Pass1(env, w0)
  {
    var w1 := Pass1(env, w0);
    forall j | 0 <= j < |w.rows| ensures w.rows[j] == w1.rows[j] {}
    forall org | org in w.subs ensures w.subs[org] == w1.subs[org] {}
  }

  lemma ThroughAll(env: Env, reported: set<string>, w0: World, order: seq<nat>,
                   w: World, charged: seq<string>, seen: set<string>)
    requires ListsLive(w0.rows, order) && Through(env, reported, w0.rows, order, |order|, charged, seen)
    requires Passed(env, w0, w, seen)
    ensures w == Pass1(env, w0) && charged == LiveTails(env, reported, w0.rows, order)
  {
    assert order[..|order|] == order;
    forall org | NewestLive(w0.rows, org, None).Some? ensures org in seen {
      var i := NewestLive(w0.rows, org, None).value;
      assert LiveSomewhere(w0.rows[i]) && i in order;
    }
    PassedAll(env, w0, w, seen);
  }

  /** The second pass done for the rows of an order. */
  ghost predicate Passed2(env: Env, rows0: seq<Row>, subs0: map<string, Subscription>, order: seq<nat>,
                          rows: seq<Row>, subs: map<string, Subscription>) {
    && |rows| == |rows0| && subs.Keys == subs0.Keys
    && (forall j :: 0 <= j < |rows| ==> rows[j] == Pass2Row(env, rows0, order, j))
    && (forall org :: org in subs ==> subs[org] == Pass2Sub(env, rows0, order, org, subs0[org]))
  }

  lemma Pass2One(env: Env, rows0: seq<Row>, subs0: map<string, Subscription>, order: seq<nat>, k: nat,
                 rows: seq<Row>, subs: map<string, Subscription>)
    requires k < |order| && order[k] < |rows0| && order[k] !in order[..k]
    requires Passed2(env, rows0, subs0, order[..k], rows, subs)
    ensures
      var j := order[k];
      var row, org := Resynced(env, rows0[j]), rows0[j].org;
      && rows[j] == rows0[j]
      && Passed2(env, rows0, subs0, order[..k + 1], rows[j := row],
                 if Activates(env, rows0[j]) && org.Some? && org.value in subs
                 then subs[org.value := Applied(env, subs[org.value], row)] else subs)
  {
    var j := order[k];
    assert order[..k + 1] == order[..k] + [j] && order[..k + 1][..k] == order[..k];
  }

  class EntitlementRepair {
    var rows: seq<Row>
    var subs: map<string, Subscription>
    var tails: seq<string>

    constructor (rows: seq<Row>, subs: map<string, Subscription>)
      ensures this.rows == rows && this.subs == subs && tails == []
    {
      this.rows := rows;
      this.subs := subs;
      tails := [];
    }

    ghost function Tables(): World
      reads this
    {
      World(rows, subs)
    }

    /** Fetch a row from Google and mirror it; false when Google has no such entitlement. */
    method SyncEntitlement(env: Env, j: nat) returns (fetched: bool)
      requires j < |rows|
      modifies this`rows
      ensures fetched == (old(rows)[j].id in env.google)
      ensures rows == old(rows)[j := Resynced(env, old(rows)[j])]
    {
      fetched := rows[j].id in env.google;
      if fetched {
        var remote := env.google[rows[j].id];
        if !Stale(rows[j], remote) {
          rows := rows[j := Mirrored(rows[j].id, rows[j].org, remote)];
        }
      }
      assert rows == old(rows)[j := Resynced(env, old(rows)[j])];
    }

    /** Set the organization's plan from a row's marketplace plan, if it is mapped. */
    method ApplyPlan(env: Env, row: Row)
      modifies this`subs
      ensures subs == if row.org.Some? && row.org.value in old(subs)
                      then old(subs)[row.org.value := Applied(env, old(subs)[row.org.value], row)] else old(subs)
    {
      if row.org.Some? && row.plan in env.plans && row.org.value in subs {
        var p := env.plans[row.plan];
        subs := subs[row.org.value := Subscription(p.name, p.interval, Marketplace)];
      }
      assert row.org.Some? && row.org.value in old(subs) ==>
               subs == old(subs)[row.org.value := Applied(env, old(subs)[row.org.value], row)];
    }

    method DowngradeOrgToFree(org: string)
      modifies this`subs
      ensures subs == if org in old(subs) then old(subs)[org := Freed(old(subs)[org])] else old(subs)
    {
      if org in subs {
        subs := subs[org := subs[org].(plan := FREE, billing := Card)];
      }
    }

    /** A row has left service: its organization goes to its newest other entitlement, or to
        free, and the tail is charged where one is owed. */
    method SettleLeftService(env: Env, j: nat, reported: set<string>)
      requires j < |rows| && rows[j].org.Some?
      modifies this`subs, this`tails
      ensures
        var org := rows[j].org.value;
        subs == if org !in old(subs) then old(subs)
                else match NewestLive(rows, org, Some(j))
                     case None => old(subs)[org := Freed(old(subs)[org])]
                     case Some(k) => old(subs)[org := Applied(env, old(subs)[org], rows[k])]
      ensures tails == old(tails) + if rows[j].status != ActivationRequested || rows[j].id in reported
                                    then [rows[j].id] else []
    {
      var org := rows[j].org.value;
      var survivor := NewestLive(rows, org, Some(j));
      if survivor.None? {
        DowngradeOrgToFree(org);
      } else {
        ApplyPlan(env, rows[survivor.value]);
      }
      if rows[j].status != ActivationRequested || rows[j].id in reported {
        tails := tails + [rows[j].id];
      }
    }

    /** Bring one in-service row, and its organization's subscription, back to Google's truth. */
    method ReconcileEntitlementPlan(env: Env, j: nat, reported: set<string>)
      requires j < |rows| && rows[j].org.Some? && InService(rows[j].status)
      modifies this
      ensures tails == old(tails) + Tail(env, reported, old(rows)[j])
      ensures rows == old(rows)[j := Resynced(env, old(rows)[j])]
      ensures
        var org := rows[j].org.value;
        subs == if org in old(subs)
                then old(subs)[org := RepairedSub(env, old(rows), j, org, old(subs)[org])] else old(subs)
    {
      var org := rows[j].org.value;
      var fetched := SyncEntitlement(env, j);
      if !fetched {
        assert org in subs ==> subs[org := subs[org]] == subs;
        return;
      }
      var row := rows[j];
      if !InService(row.status) {
        ExceptIgnores(old(rows), org, j, row);
        SettleLeftService(env, j, reported);
        return;
      }
      if row.plan in env.plans {
        var p := env.plans[row.plan];
        var wanted := Subscription(p.name, p.interval, Marketplace);
        if org in subs && subs[org] == wanted {
          assert subs[org := wanted] == subs;
          return;
        }
        ApplyPlan(env, row);
      } else {
        assert org in subs ==> subs[org := subs[org]] == subs;
      }
    }

    /** The first pass: one row per organization, its newest in service. */
    method ReconcileLive(env: Env, order: seq<nat>, reported: set<string>)
      requires ListsLive(rows, order)
      modifies this
      ensures Tables() == Pass1(env, old(Tables()))
      ensures tails == old(tails) + LiveTails(env, reported, old(rows), order)
    {
      ghost var w0, tails0, charged := Tables(), tails, [];
      var seenOrgs: set<string> := {};
      for k := 0 to |order|
        invariant Passed(env, w0, Tables(), seenOrgs)
        invariant Through(env, reported, w0.rows, order, k, charged, seenOrgs)
        invariant tails == tails0 + charged
      {
        ListedIsLive(w0.rows, order, k);
        var org := rows[order[k]].org.value;
        ThroughOneMore(env, reported, w0.rows, order, k, charged, seenOrgs, org);
        if org !in seenOrgs {
          ReconcileFirst(env, order[k], reported, org, seenOrgs, w0);
          charged := charged + Tail(env, reported, w0.rows[order[k]]);
          seenOrgs := seenOrgs + {org};
        }
      }
      ThroughAll(env, reported, w0, order, Tables(), charged, seenOrgs);
    }

    /** The first row listed for an organization, which is its newest. */
    method ReconcileFirst(env: Env, j: nat, reported: set<string>, org: string, ghost seen: set<string>,
                          ghost w0: World)
      requires Passed(env, w0, Tables(), seen) && org !in seen
      requires j < |w0.rows| && IsNewest(w0.rows, j) && w0.rows[j].org == Some(org)
      modifies this
      ensures Passed(env, w0, Tables(), seen + {org})
      ensures tails == old(tails) + Tail(env, reported, w0.rows[j])
    {
      assert rows[j] == w0.rows[j];
      ReconcileEntitlementPlan(env, j, reported);
      PassOne(env, w0, old(Tables()), Tables(), seen, j, org);
    }

    /** The second pass: rows still awaiting activation, activated ones put on their plan. */
    method ReconcilePending(env: Env, order: seq<nat>)
      requires ListsPending(rows, order)
      modifies this`rows, this`subs
      ensures Tables() == Pass2(env, old(Tables()), order)
    {
      ghost var rows0, subs0 := rows, subs;
      for k := 0 to |order|
        invariant Passed2(env, rows0, subs0, order[..k], rows, subs)
      {
        var j := order[k];
        assert j in order && j !in order[..k];
        Pass2One(env, rows0, subs0, order, k, rows, subs);
        var fetched := SyncEntitlement(env, j);
        if fetched && rows[j].status != ActivationRequested && InService(rows[j].status) {
          ApplyPlan(env, rows[j]);
        }
      }
      assert order[..|order|] == order;
    }

    /** The third pass: a paid marketplace plan that no row backs is handed back. */
    method ReconcilePaidWithoutEntitlement()
      modifies this`subs
      ensures Tables() == Pass3(old(Tables()))
    {
      ghost var subs0 := subs;
      var stranded := set org |
        org in subs && subs[org].billing == Marketplace && subs[org].plan != FREE && !Backed(rows, org);
      ghost var all := stranded;
      while stranded != {}
        invariant stranded <= all && subs.Keys == subs0.Keys
        invariant forall org :: org in subs ==>
                                  subs[org] == if org in all - stranded then Freed(subs0[org]) else subs0[org]
        decreases stranded
      {
        var org :| org in stranded;
        DowngradeOrgToFree(org);
        stranded := stranded - {org};
      }
      assert forall org :: org in subs ==> subs[org] == Pass3Sub(rows, org, subs0[org]);
    }

    /** One hourly repair: the three passes in turn. */
    method ReconcileEntitlementPlans(env: Env, live: seq<nat>, pending: seq<nat>, reported: set<string>)
      requires ListsLive(rows, live) && ListsPending(Pass1(env, Tables()).rows, pending)
      modifies this
      ensures Tables() == Round(env, old(Tables()), pending)
      ensures tails == old(tails) + LiveTails(env, reported, old(rows), live)
    {
      ReconcileLive(env, live, reported);
      ReconcilePending(env, pending);
      ReconcilePaidWithoutEntitlement();
    }
  }
}

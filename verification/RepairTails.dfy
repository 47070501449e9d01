/** The tails the hourly repair charges: the last part-hour of an entitlement it finds to have
    left service, as the cancellation event would have charged it. */
module RepairTails {
  import opened Wrappers
  import opened Entitlements
  import opened Repair

  /** Fetched again, the row turns out to have left service. */
  predicate Leaves(env: Env, row: Row) {
    InService(row.status) && !InService(Resynced(env, row).status)
  }

  /** An entitlement back at awaiting activation was never live at Google, and owes a tail
      only if usage of it was reported; `reported` holds the ids that have checkpoints. */
  predicate OwesTail(env: Env, reported: set<string>, row: Row) {
    Leaves(env, row) && (Resynced(env, row).status != ActivationRequested || row.id in reported)
  }

  function Tail(env: Env, reported: set<string>, row: Row): seq<string> {
    if OwesTail(env, reported, row) then [row.id] else []
  }

  /** The tails of a first pass over the rows in this order. */
  function LiveTails(env: Env, reported: set<string>, rows: seq<Row>, order: seq<nat>): seq<string> {
    if |order| == 0 then []
    else
      var j := order[|order| - 1];
      LiveTails(env, reported, rows, order[..|order| - 1])
      + if j < |rows| && IsNewest(rows, j) then Tail(env, reported, rows[j]) else []
  }

  /** How many tails are charged for one row over several rounds. */
  function TailsOver(env: Env, reported: set<string>, w: World, orders: seq<seq<nat>>, j: nat): nat
    requires j < |w.rows|
    decreases |orders|
  {
    if |orders| == 0 then 0
    else
      (if IsNewest(w.rows, j) then |Tail(env, reported, w.rows[j])| else 0)
      + TailsOver(env, reported, Round(env, w, orders[0]), orders[1..], j)
  }

  lemma ResyncedTwice(env: Env, row: Row)
    ensures Resynced(env, Resynced(env, row)) == Resynced(env, row)
    ensures Resynced(env, row).id == row.id
  {}

  /** A round fetches a row's organization's newest in service and those that are pending. */
  lemma RoundIs(env: Env, w: World, order: seq<nat>, j: nat)
    requires ListsPending(Pass1(env, w).rows, order) && j < |w.rows|
    ensures
      var row, row' := w.rows[j], Round(env, w, order).rows[j];
      row' == if IsNewest(w.rows, j) || row.status == ActivationRequested then Resynced(env, row) else row
  {
    var row1 := Pass1(env, w).rows[j];
    assert row1 == Pass1Row(env, w.rows, j);
    assert Round(env, w, order).rows[j] == Pass2Row(env, Pass1(env, w).rows, order, j);
    ResyncedTwice(env, w.rows[j]);
  }

  /** Once out of service, or found still in it, a row is charged nothing any more. */
  lemma {:induction false} NoMoreTails(env: Env, reported: set<string>, w: World, orders: seq<seq<nat>>, j: nat)
    requires ListsPendingEachTime(env, w, orders) && j < |w.rows| && !Leaves(env, w.rows[j])
    ensures j < |Rounds(env, w, orders).rows|
    ensures TailsOver(env, reported, w, orders, j) == 0
    ensures InService(w.rows[j].status) ==> InService(Rounds(env, w, orders).rows[j].status)
    ensures Resynced(env, w.rows[j]) == w.rows[j] ==> Rounds(env, w, orders).rows[j] == w.rows[j]
    decreases |orders|
  {
    if |orders| > 0 {
      RoundIs(env, w, orders[0], j);
      ResyncedTwice(env, w.rows[j]);
      NoMoreTails(env, reported, Round(env, w, orders[0]), orders[1..], j);
    }
  }

  /** Over any number of rounds each entitlement the repair takes out of service is charged
      its tail once, and no other entitlement is charged one. */
  lemma {:induction false} TailOnceExactly(env: Env, reported: set<string>, w: World, orders: seq<seq<nat>>, j: nat)
    requires ListsPendingEachTime(env, w, orders) && j < |w.rows|
    ensures j < |Rounds(env, w, orders).rows|
    ensures
      var row, row' := w.rows[j], Rounds(env, w, orders).rows[j];
      TailsOver(env, reported, w, orders, j)
      == if InService(row.status) && !InService(row'.status)
            && (row'.status != ActivationRequested || row.id in reported)
         then 1 else 0
    decreases |orders|
  {
    if !Leaves(env, w.rows[j]) {
      NoMoreTails(env, reported, w, orders, j);
    } else if |orders| > 0 {
      var w' := Round(env, w, orders[0]);
      RoundIs(env, w, orders[0], j);
      if IsNewest(w.rows, j) {
        ResyncedTwice(env, w.rows[j]);
        NoMoreTails(env, reported, w', orders[1..], j);
      } else {
        TailOnceExactly(env, reported, w', orders[1..], j);
      }
    }
  }

  /** A live row that Google says has left service owes its tail, if it was ever live there or had
      usage reported. */
  lemma OwesExactly(env: Env, reported: set<string>, row: Row)
    ensures OwesTail(env, reported, row)
            <==> && row.id in env.google && InService(row.status) && !Stale(row, env.google[row.id])
                 && !InService(env.google[row.id].state)
                 && (env.google[row.id].state == ActivationRequested ==> row.id in reported)
  {}

  predicate Charged(env: Env, reported: set<string>, rows: seq<Row>, j: nat, id: string) {
    j < |rows| && IsNewest(rows, j) && rows[j].id == id && OwesTail(env, reported, rows[j])
  }

  /** What the first pass charges over a list of rows: the tail of each newest live row that owes
      one. */
  lemma {:induction false} TailsExactly(env: Env, reported: set<string>, rows: seq<Row>, order: seq<nat>, id: string)
    ensures id in LiveTails(env, reported, rows, order)
            <==> exists j :: j in order && Charged(env, reported, rows, j, id)
    ensures |LiveTails(env, reported, rows, order)| <= |order|
  {
    if |order| > 0 {
      var front, n := order[..|order| - 1], order[|order| - 1];
      TailsExactly(env, reported, rows, front, id);
      assert order == front + [n];
      if j :| j in order && Charged(env, reported, rows, j, id) {
        assert j in front || j == n;
      }
      if j :| j in front && Charged(env, reported, rows, j, id) {
        assert j in order;
      }
      assert n in order;
    }
  }
}

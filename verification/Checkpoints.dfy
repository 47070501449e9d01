/** The table of usage checkpoints: one row per (entitlement, metric, window start),
    with the queries and row writes the usage reporter makes on it. */
module Checkpoints {
  import opened Wrappers
  import opened Calendar

  datatype Status = Pending | Reported | Failed

  /** The unique key of a row, and the name its operation goes by. */
  datatype Window = Window(entitlement: nat, metric: string, start: nat)

  /** Quantities are whole millionths of a unit, the precision of the column. */
  datatype Checkpoint = Checkpoint(window: Window, end: nat, quantity: nat, status: Status)

  type Table = seq<Checkpoint>

  /** The row filters the sums below are taken over. */
  datatype Selector =
    | ReportedSince(entitlement: nat, metric: string, from: nat)
    | ReportedBetween(entitlement: nat, metric: string, from: nat, before: nat)
    | InMonth(entitlement: nat, metric: string, month: nat)
    | BilledIn(entitlement: nat, metric: string, month: nat, billed: set<Window>)
  {
    predicate Picks(c: Checkpoint) {
      && c.window.entitlement == entitlement
      && c.window.metric == metric
      && match this
         case ReportedSince(_, _, from) => c.status == Reported && from <= c.window.start
         case ReportedBetween(_, _, from, before) => c.status == Reported && from <= c.window.start < before
         case InMonth(_, _, month) => MonthOf(c.window.start) == month
         case BilledIn(_, _, month, billed) => MonthOf(c.window.start) == month && c.window in billed
    }

    function Weight(c: Checkpoint): nat {
      if Picks(c) then c.quantity else 0
    }
  }

  function Sum(t: Table, s: Selector): nat {
    if |t| == 0 then 0 else Sum(t[..|t| - 1], s) + s.Weight(t[|t| - 1])
  }

  /** What has been sent for a metric by windows starting at or after `from`. */
  function AlreadyReported(t: Table, entitlement: nat, metric: string, from: nat): nat {
    Sum(t, ReportedSince(entitlement, metric, from))
  }

  /** What the reconciliation reads back for one month. */
  function ReportedIn(t: Table, entitlement: nat, metric: string, month: nat): nat {
    Sum(t, ReportedBetween(entitlement, metric, MonthStart(month), MonthStart(month + 1)))
  }

  predicate Same(c: Checkpoint, entitlement: nat, metric: string) {
    c.window.entitlement == entitlement && c.window.metric == metric
  }

  /** Where the last reported window of a metric ended. */
  function LastWindowEnd(t: Table, entitlement: nat, metric: string): Option<nat> {
    if |t| == 0 then None
    else
      var c := t[|t| - 1];
      var before := LastWindowEnd(t[..|t| - 1], entitlement, metric);
      if Same(c, entitlement, metric) && c.status == Reported && (before.None? || before.value < c.end)
      then Some(c.end)
      else before
  }

  /** It is the greatest end of a reported window, and None only if there is none. */
  lemma {:induction false} LastWindowEndIsGreatest(t: Table, entitlement: nat, metric: string)
    ensures forall i :: 0 <= i < |t| && Same(t[i], entitlement, metric) && t[i].status == Reported ==>
                          LastWindowEnd(t, entitlement, metric).Some?
                          && t[i].end <= LastWindowEnd(t, entitlement, metric).value
    ensures LastWindowEnd(t, entitlement, metric).Some? ==>
              exists i :: 0 <= i < |t| && Same(t[i], entitlement, metric) && t[i].status == Reported
                          && t[i].end == LastWindowEnd(t, entitlement, metric).value
  {
    if |t| > 0 {
      var n := |t| - 1;
      LastWindowEndIsGreatest(t[..n], entitlement, metric);
      if LastWindowEnd(t[..n], entitlement, metric).Some? {
        var i :| 0 <= i < n && Same(t[..n][i], entitlement, metric) && t[..n][i].status == Reported
                 && t[..n][i].end == LastWindowEnd(t[..n], entitlement, metric).value;
        assert t[i] == t[..n][i];
      }
      forall i | 0 <= i < |t| && Same(t[i], entitlement, metric) && t[i].status == Reported
        ensures LastWindowEnd(t, entitlement, metric).Some? && t[i].end <= LastWindowEnd(t, entitlement, metric).value
      {
        if i < n { assert t[..n][i] == t[i]; }
      }
    }
  }

  predicate Distinct(t: Table) {
    forall i, j :: 0 <= i < j < |t| ==> t[i].window != t[j].window
  }

  /** The position of a window's row, or None. */
  function Find(t: Table, w: Window): (at: Option<nat>)
    ensures at.Some? ==> at.value < |t| && t[at.value].window == w
    ensures at.None? ==> forall i :: 0 <= i < |t| ==> t[i].window != w
  {
    if |t| == 0 then None
    else if t[|t| - 1].window == w then Some(|t| - 1)
    else
      assert forall i :: 0 <= i < |t| - 1 ==> t[..|t| - 1][i] == t[i];
      Find(t[..|t| - 1], w)
  }

  /** Write a row, over the one its window already has if there is one. */
  function Put(t: Table, c: Checkpoint): (t': Table)
    ensures Distinct(t) ==> Distinct(t')
    ensures |t| <= |t'|
    ensures forall i :: 0 <= i < |t| && t[i].window != c.window ==> t'[i] == t[i]
  {
    match Find(t, c.window)
    case None => t + [c]
    case Some(i) => t[i := c]
  }

  /** Give one window's row another status; no row, no change. */
  function SetStatus(t: Table, w: Window, status: Status): (t': Table)
    ensures |t'| == |t|
    ensures Distinct(t) ==> Distinct(t')
  {
    match Find(t, w)
    case None => t
    case Some(i) => t[i := t[i].(status := status)]
  }

  function MarkAll(t: Table, ws: seq<Window>, status: Status): (t': Table)
    ensures |t'| == |t|
    ensures Distinct(t) ==> Distinct(t')
  {
    if |ws| == 0 then t else SetStatus(MarkAll(t, ws[..|ws| - 1], status), ws[|ws| - 1], status)
  }

  lemma {:induction false} FindAt(t: Table, i: nat)
    requires Distinct(t) && i < |t|
    ensures Find(t, t[i].window) == Some(i)
  {
    assert t[Find(t, t[i].window).value].window == t[i].window;
  }

  /** What marking does to each row: the status of the listed windows, nothing else. */
  lemma {:induction false} MarkAllAt(t: Table, ws: seq<Window>, status: Status)
    requires Distinct(t)
    ensures forall i :: 0 <= i < |t| ==>
                          MarkAll(t, ws, status)[i] == if t[i].window in ws then t[i].(status := status) else t[i]
  {
    if |ws| > 0 {
      var front, w := ws[..|ws| - 1], ws[|ws| - 1];
      MarkAllAt(t, front, status);
      var m := MarkAll(t, front, status);
      assert ws == front + [w];
      forall i | 0 <= i < |t|
        ensures MarkAll(t, ws, status)[i] == if t[i].window in ws then t[i].(status := status) else t[i]
      {
        if t[i].window == w { FindAt(m, i); }
      }
    }
  }

  lemma {:induction false} SumUpdate(t: Table, i: nat, c: Checkpoint, s: Selector)
    requires i < |t|
    ensures Sum(t[i := c], s) == Sum(t, s) - s.Weight(t[i]) + s.Weight(c)
  {
    var n := |t| - 1;
    if i < n {
      assert t[i := c][..n] == t[..n][i := c];
      SumUpdate(t[..n], i, c, s);
    } else {
      assert t[i := c][..n] == t[..n];
    }
  }

  lemma SumAppend(t: Table, c: Checkpoint, s: Selector)
    ensures Sum(t + [c], s) == Sum(t, s) + s.Weight(c)
  {
    assert (t + [c])[..|t|] == t;
  }

  lemma {:induction false} SumAgrees(t: Table, t': Table, s: Selector, s': Selector)
    requires |t| == |t'|
    requires forall i :: 0 <= i < |t| ==> s.Weight(t[i]) == s'.Weight(t'[i])
    ensures Sum(t, s) == Sum(t', s')
  {
    if |t| > 0 {
      SumAgrees(t[..|t| - 1], t'[..|t| - 1], s, s');
    }
  }

  lemma {:induction false} SumAtMost(t: Table, s: Selector, s': Selector)
    requires forall i :: 0 <= i < |t| ==> s.Weight(t[i]) <= s'.Weight(t[i])
    ensures Sum(t, s) <= Sum(t, s')
  {
    if |t| > 0 {
      SumAtMost(t[..|t| - 1], s, s');
    }
  }
}

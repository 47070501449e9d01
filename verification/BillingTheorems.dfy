/** What the billing machine promises over whole runs. */
module BillingTheorems {
  import opened Wrappers
  import opened Calendar
  import opened Checkpoints
  import opened Billing
  import opened BillingInvariant
  import opened BillingSteps

  // ---------------------------------------------------------------- never over-billed

  lemma {:induction false} SumOneMore(t: Table, i: nat, e: nat, metric: string, month: nat, billed: set<Window>)
    requires Distinct(t) && i < |t| && t[i].window !in billed
    ensures Sum(t, BilledIn(e, metric, month, billed + {t[i].window}))
            == Sum(t, BilledIn(e, metric, month, billed)) + InMonth(e, metric, month).Weight(t[i])
  {
    var w := t[i].window;
    FindAt(t, i);
    SumApart(t, w, BilledIn(e, metric, month, billed + {w}), BilledIn(e, metric, month, billed));
  }

  lemma BilledOneMore(log: seq<Charge>, c: Charge)
    ensures BilledWindows(log + [c]) == BilledWindows(log) + {c.window}
  {
    forall w ensures w in BilledWindows(log + [c]) <==> w in BilledWindows(log) || w == c.window {
      BilledWindowsHas(log, w);
      BilledWindowsHas(log + [c], w);
      if w == c.window { assert (log + [c])[|log|].window == w; }
      if k :| 0 <= k < |log| && log[k].window == w { assert (log + [c])[k].window == w; }
    }
  }

  /** Google's log, month by month, is what the rows it billed say. */
  lemma {:induction false} ChargedIsBilledRows(b: Books, n: nat, e: nat, metric: string, month: nat)
    requires Distinct(b.table) && Agreed(b) && n <= |b.charged|
    ensures ChargedIn(b.charged[..n], e, metric, month)
            == Sum(b.table, BilledIn(e, metric, month, BilledWindows(b.charged[..n])))
  {
    if n == 0 {
      SumNone(b.table, BilledIn(e, metric, month, {}));
      assert BilledWindows(b.charged[..0]) == {};
    } else {
      var c, before := b.charged[n - 1], BilledWindows(b.charged[..n - 1]);
      ChargedIsBilledRows(b, n - 1, e, metric, month);
      assert b.charged[..n][..n - 1] == b.charged[..n - 1];
      assert b.charged[..n] == b.charged[..n - 1] + [c];
      BilledOneMore(b.charged[..n - 1], c);
      BilledWindowsHas(b.charged[..n - 1], c.window);
      SumOneMore(b.table, Find(b.table, c.window).value, e, metric, month, before);
    }
  }

  lemma {:induction false} SumNone(t: Table, s: Selector)
    requires forall i :: 0 <= i < |t| ==> !s.Picks(t[i])
    ensures Sum(t, s) == 0
  {
    if |t| > 0 { SumNone(t[..|t| - 1], s); }
  }

  lemma ChargedAtMostRows(b: Books, e: nat, metric: string, month: nat)
    requires Distinct(b.table) && Agreed(b)
    ensures ChargedIn(b.charged, e, metric, month) <= Sum(b.table, InMonth(e, metric, month))
  {
    assert b.charged[..|b.charged|] == b.charged;
    ChargedIsBilledRows(b, |b.charged|, e, metric, month);
    SumAtMost(b.table, BilledIn(e, metric, month, BilledWindows(b.charged)), InMonth(e, metric, month));
  }

  /** Whatever is refused, lost, cut short, resent or settled by hand, the amount Google
      bills for a metric and month never passes the highest billable total the ledger has
      shown for them. */
  lemma NeverOverBilled(cfg: Settings, steps: seq<Step>, e: nat, metric: string, month: nat, cap: nat)
    requires HonestRun(cfg, steps)
    requires forall i :: 0 <= i < |steps| ==> StepCapped(steps[i], e, metric, month, cap)
    ensures ChargedIn(Run(cfg, steps).charged, e, metric, month) <= cap
  {
    RunKeeps(cfg, steps);
    RunCovers(cfg, steps, e, metric, month, cap);
    ChargedAtMostRows(Run(cfg, steps), e, metric, month);
  }

  lemma BilledRow(b: Books, k: nat)
    requires Agreed(b) && k < |b.charged|
    ensures HasBilledRow(b.table, b.charged[k])
  {
    var i := Find(b.table, b.charged[k].window).value;
    BilledWindowsHas(b.charged, b.table[i].window);
    assert IsBilledRow(b.table, b.charged[k], i);
  }

  /** No window is ever billed twice, and what is billed is what its row records. */
  lemma EachWindowBilledOnce(cfg: Settings, steps: seq<Step>)
    requires HonestRun(cfg, steps)
    ensures BilledOnce(Run(cfg, steps))
  {
    RunKeeps(cfg, steps);
    AgreedIsBilledOnce(Run(cfg, steps));
  }

  ghost predicate IsBilledRow(t: Table, c: Charge, i: int) {
    0 <= i < |t| && t[i].window == c.window && t[i].quantity == c.quantity && t[i].status != Failed
  }

  ghost predicate HasBilledRow(t: Table, c: Charge) {
    exists i :: IsBilledRow(t, c, i)
  }

  ghost predicate BilledOnce(b: Books) {
    && (forall k, l :: 0 <= k < l < |b.charged| ==> b.charged[k].window != b.charged[l].window)
    && (forall k :: 0 <= k < |b.charged| ==> HasBilledRow(b.table, b.charged[k]))
  }

  lemma AgreedIsBilledOnce(b: Books)
    requires Agreed(b)
    ensures BilledOnce(b)
  {
    forall k | 0 <= k < |b.charged| ensures HasBilledRow(b.table, b.charged[k]) {
      BilledRow(b, k);
    }
  }

  // ------------------------------------------------------------- the table, row by row

  function RowOf(t: Table, w: Window): Option<Checkpoint> {
    match Find(t, w) case None => None case Some(i) => Some(t[i])
  }

  predicate Blocked(t: Table, w: Window) {
    RowOf(t, w).Some? && RowOf(t, w).value.status != Failed
  }

  lemma RowOfPut(t: Table, c: Checkpoint, w: Window)
    requires Distinct(t)
    ensures RowOf(Put(t, c), w) == if w == c.window then Some(c) else RowOf(t, w)
  {
    FindPut(t, c, w);
  }

  lemma RowOfMarkAll(t: Table, ws: seq<Window>, status: Status, w: Window)
    requires Distinct(t)
    ensures RowOf(MarkAll(t, ws, status), w)
            == if w in ws && RowOf(t, w).Some? then Some(RowOf(t, w).value.(status := status)) else RowOf(t, w)
  {
    FindMarkAll(t, ws, status, w);
    MarkAllAt(t, ws, status);
  }

  function KeyOf(e: Entitlement, r: Request): Window {
    Window(e.id, r.metric, r.start)
  }

  /** What is already reported does not move while windows are being added. */
  lemma PutKeepsReportedSum(t: Table, c: Checkpoint, e: nat, metric: string, from: nat)
    requires c.status != Reported
    requires Find(t, c.window).Some? ==> t[Find(t, c.window).value].status != Reported
    ensures AlreadyReported(Put(t, c), e, metric, from) == AlreadyReported(t, e, metric, from)
  {
    PutSum(t, c, ReportedSince(e, metric, from));
  }

  predicate Writes(t: Table, e: Entitlement, ledger: Ledger, r: Request) {
    !Blocked(t, KeyOf(e, r)) && QuantityFor(t, e, r.metric, r.month, ledger).Some?
  }

  lemma AddWindowRow(cfg: Settings, c: Collected, e: Entitlement, ledger: Ledger, r: Request, w: Window)
    requires Distinct(c.table)
    ensures
      var c' := AddWindow(cfg, c, e, ledger, r);
      && Distinct(c'.table)
      && c'.operations == c.operations + (if Writes(c.table, e, ledger, r) then [KeyOf(e, r)] else [])
      && RowOf(c'.table, w) == (if Writes(c.table, e, ledger, r) && w == KeyOf(e, r)
                                then Some(RowFor(cfg, c.table, e, ledger, r)) else RowOf(c.table, w))
      && (forall m, from :: AlreadyReported(c'.table, e.id, m, from) == AlreadyReported(c.table, e.id, m, from))
  {
    if Writes(c.table, e, ledger, r) {
      var row := RowFor(cfg, c.table, e, ledger, r);
      RowOfPut(c.table, row, w);
      forall m, from {
        PutKeepsReportedSum(c.table, row, e.id, m, from);
      }
    }
  }

  predicate Asked(t: Table, e: Entitlement, ledger: Ledger, rs: seq<Request>, w: Window) {
    exists r :: r in rs && KeyOf(e, r) == w && Writes(t, e, ledger, r)
  }

  lemma SameQuantity(t: Table, t': Table, e: Entitlement, r: Request, ledger: Ledger)
    requires forall m, from :: AlreadyReported(t, e.id, m, from) == AlreadyReported(t', e.id, m, from)
    ensures QuantityFor(t, e, r.metric, r.month, ledger) == QuantityFor(t', e, r.metric, r.month, ledger)
  {}

  lemma AskedOneMore(t: Table, e: Entitlement, ledger: Ledger, front: seq<Request>, r: Request, w: Window)
    ensures Asked(t, e, ledger, front + [r], w)
            <==> Asked(t, e, ledger, front, w) || (KeyOf(e, r) == w && Writes(t, e, ledger, r))
  {
    assert forall s :: s in front + [r] <==> s in front || s == r;
  }

  /** A run's windows are those it would write one by one on the table it started from:
      collecting one neither moves another's start nor changes another's quantity. */
  lemma {:induction false} AddAllRows(cfg: Settings, t: Table, e: Entitlement, ledger: Ledger, rs: seq<Request>,
                                      w: Window)
    requires Distinct(t)
    requires forall r, s :: r in rs && s in rs && KeyOf(e, r) == KeyOf(e, s) ==> r == s
    ensures
      var c := AddAll(cfg, t, e, ledger, rs);
      && Distinct(c.table)
      && (w in c.operations <==> Asked(t, e, ledger, rs, w))
      && (w !in c.operations ==> RowOf(c.table, w) == RowOf(t, w))
      && (forall r :: r in rs && KeyOf(e, r) == w && w in c.operations ==>
                        QuantityFor(t, e, r.metric, r.month, ledger).Some?
                        && RowOf(c.table, w) == Some(RowFor(cfg, t, e, ledger, r)))
      && (forall m, from :: AlreadyReported(c.table, e.id, m, from) == AlreadyReported(t, e.id, m, from))
  {
    if |rs| > 0 {
      var front, r := rs[..|rs| - 1], rs[|rs| - 1];
      assert rs == front + [r];
      AddAllRows(cfg, t, e, ledger, front, w);
      var c := AddAll(cfg, t, e, ledger, front);
      AddWindowRow(cfg, c, e, ledger, r, w);
      SameQuantity(c.table, t, e, r, ledger);
      AskedOneMore(t, e, ledger, front, r, w);
    }
  }

  /** The two windows a dimension can ask for start at different points. */
  lemma RequestsKeyed(cfg: Settings, t: Table, e: Entitlement, now: nat)
    ensures forall r, s | r in Requests(t, e, cfg.dimensions, now) && s in Requests(t, e, cfg.dimensions, now)
              :: KeyOf(e, r) == KeyOf(e, s) ==> r == s
  {
    RequestsAre(t, e, cfg.dimensions, now);
  }

  lemma {:induction false} RequestsAre(t: Table, e: Entitlement, dims: seq<string>, now: nat)
    ensures forall r :: r in Requests(t, e, dims, now) <==> r.metric in dims && r in RequestsFor(t, e, r.metric, now)
  {
    if |dims| > 0 {
      var front, d := dims[..|dims| - 1], dims[|dims| - 1];
      assert dims == front + [d];
      RequestsAre(t, e, front, now);
      assert forall r :: r in RequestsFor(t, e, d, now) ==> r.metric == d;
    }
  }

  // ------------------------------------------------------------------ what never moves

  /** The windows a step may write: those its run asks for and that are free, or those it resends. */
  ghost predicate Reaches(cfg: Settings, b: Books, s: Step, w: Window) {
    match s
    case Hourly(e, clock, ledger, _, _, _) =>
      Asked(b.table, e, ledger, Requests(b.table, e, cfg.dimensions, FloorHour(clock)), w)
    case Final(e, clock, ledger, _, _) =>
      Asked(b.table, e, ledger, Requests(b.table, e, cfg.dimensions, FinalEnd(e, clock)), w)
    case Retry(e, _, _) => w in Resendable(b.table, e)
    case Settle(ws, _) => w in StillPending(b.table, ws)
  }

  lemma MarksRow(t: Table, ops: seq<Window>, reply: Reply, halfway: bool, w: Window)
    requires Distinct(t) && w !in ops
    ensures RowOf(Marks(t, ops, reply, halfway), w) == RowOf(t, w)
  {
    match reply
    case Answer(errors) =>
      var refused, rest := Naming(ops, errors, true), Naming(ops, errors, false);
      RowOfMarkAll(t, refused, Failed, w);
      RowOfMarkAll(MarkAll(t, refused, Failed), rest, if Unattributed(errors) then Pending else Reported, w);
    case _ => RowOfMarkAll(t, ops, if Definitive(reply) then Failed else Pending, w);
  }

  lemma DeliverRow(b: Books, ops: seq<Window>, d: Delivery, m: Mishap, w: Window)
    requires Distinct(b.table) && w !in ops
    ensures RowOf(Deliver(b, ops, d, m).table, w) == RowOf(b.table, w)
  {
    MarksRow(b.table, ops, d.reply, m.DiesBetweenMarks?, w);
  }

  lemma ReportRow(cfg: Settings, b: Books, e: Entitlement, now: nat, ledger: Ledger, check: CheckReply,
                  d: Delivery, m: Mishap, w: Window)
    requires Distinct(b.table) && !Asked(b.table, e, ledger, Requests(b.table, e, cfg.dimensions, now), w)
    ensures RowOf(Report(cfg, b, e, now, ledger, check, d, m).table, w) == RowOf(b.table, w)
  {
    var all := Requests(b.table, e, cfg.dimensions, now);
    var rs :=
      match m
      case CollectRaises(n) => all[..Upto(n, |all|)]
      case DiesCollecting(n) => all[..Upto(n, |all|)]
      case _ => all;
    RequestsKeyed(cfg, b.table, e, now);
    AddAllRows(cfg, b.table, e, ledger, rs, w);
    var c := AddAll(cfg, b.table, e, ledger, rs);
    RowOfMarkAll(c.table, c.operations, Failed, w);
    DeliverRow(b.(table := c.table), c.operations, d, m, w);
  }

  /** A step changes no row but those of the windows it reaches. */
  lemma UnreachedRowStays(cfg: Settings, b: Books, s: Step, w: Window)
    requires Distinct(b.table) && !Reaches(cfg, b, s, w)
    ensures RowOf(Take(cfg, b, s).table, w) == RowOf(b.table, w)
  {
    match s
    case Hourly(e, clock, ledger, check, d, m) => ReportRow(cfg, b, e, FloorHour(clock), ledger, check, d, m, w);
    case Final(e, clock, ledger, d, m) => ReportRow(cfg, b, e, FinalEnd(e, clock), ledger, Entitled, d, m, w);
    case Retry(e, d, m) =>
      var ws := Resendable(b.table, e);
      var n := match m case CollectRaises(n) => Upto(n, |ws|) case DiesCollecting(n) => Upto(n, |ws|) case _ => |ws|;
      assert ws[..|ws|] == ws;
      RowOfMarkAll(b.table, ws[..n], Pending, w);
      DeliverRow(b.(table := MarkAll(b.table, ws, Pending)), ws, d, m, w);
    case Settle(ws, billed) =>
      RowOfMarkAll(b.table, StillPending(b.table, ws), if billed then Reported else Failed, w);
  }

  lemma ResendableIsFailed(b: Books, e: Entitlement, w: Window)
    requires Distinct(b.table) && w in Resendable(b.table, e)
    ensures RowOf(b.table, w).Some? && RowOf(b.table, w).value.status == Failed
  {
    var i :| 0 <= i < |b.table| && b.table[i].window == w && b.table[i].status == Failed;
    FindAt(b.table, i);
  }

  /** A reported row never changes again, and a pending row changes only by being settled:
      no report and no resend touches it. */
  lemma SettledRowsStay(cfg: Settings, b: Books, s: Step, w: Window)
    requires Distinct(b.table) && Blocked(b.table, w)
    requires s.Settle? ==> RowOf(b.table, w).value.status == Reported
    ensures RowOf(Take(cfg, b, s).table, w) == RowOf(b.table, w)
  {
    if s.Retry? && w in Resendable(b.table, s.e) { ResendableIsFailed(b, s.e, w); }
    UnreachedRowStays(cfg, b, s, w);
  }

  lemma ReportedOneMore(cfg: Settings, b: Books, s: Step, w: Window, row: Checkpoint)
    requires Distinct(b.table) && RowOf(b.table, w) == Some(row) && row.status == Reported
    ensures RowOf(Take(cfg, b, s).table, w) == Some(row)
  {
    SettledRowsStay(cfg, b, s, w);
  }

  lemma PrefixDistinct(cfg: Settings, steps: seq<Step>, n: nat)
    requires HonestRun(cfg, steps) && n <= |steps|
    ensures Distinct(Run(cfg, steps[..n]).table)
  {
    HonestPrefix(cfg, steps, n);
    RunDistinct(cfg, steps[..n]);
  }

  lemma StepLeavesReported(cfg: Settings, steps: seq<Step>, m: nat, w: Window, row: Checkpoint)
    requires HonestRun(cfg, steps) && m < |steps|
    requires RowOf(Run(cfg, steps[..m]).table, w) == Some(row) && row.status == Reported
    ensures RowOf(Run(cfg, steps[..m + 1]).table, w) == Some(row)
  {
    PrefixDistinct(cfg, steps, m);
    ReportedOneMore(cfg, Run(cfg, steps[..m]), steps[m], w, row);
    assert steps[..m + 1][..m] == steps[..m];
  }

  lemma {:induction false} ReportedFrom(cfg: Settings, steps: seq<Step>, n: nat, m: nat, w: Window, row: Checkpoint)
    requires n <= m <= |steps| && HonestRun(cfg, steps)
    requires RowOf(Run(cfg, steps[..n]).table, w) == Some(row) && row.status == Reported
    ensures RowOf(Run(cfg, steps[..m]).table, w) == Some(row)
  {
    if n < m {
      ReportedFrom(cfg, steps, n, m - 1, w, row);
      StepLeavesReported(cfg, steps, m - 1, w, row);
      assert steps[..m - 1 + 1] == steps[..m];
    }
  }

  /** Over a whole run, once reported a row stays as it is. */
  lemma ReportedForEver(cfg: Settings, steps: seq<Step>, n: nat, w: Window, row: Checkpoint)
    requires HonestRun(cfg, steps) && n <= |steps|
    requires RowOf(Run(cfg, steps[..n]).table, w) == Some(row) && row.status == Reported
    ensures RowOf(Run(cfg, steps).table, w) == Some(row)
  {
    ReportedFrom(cfg, steps, n, |steps|, w, row);
    assert steps[..|steps|] == steps;
  }

  lemma OpenAlone(t: Table, i: nat, w: Window)
    requires Orderly(t) && i < |t| && t[i].status == Pending
    requires w.entitlement == t[i].window.entitlement && w.metric == t[i].window.metric
    requires MonthOf(w.start) == MonthOf(t[i].window.start)
    ensures RowOf(t, w).Some? ==> RowOf(t, w).value.status != Failed
  {
    if RowOf(t, w).Some? && w != t[i].window { assert SameMonth(t[i], t[Find(t, w).value]); }
  }

  /** While one window of a month waits for an outcome, no report and no resend writes any
      window of that month. */
  lemma PendingFreezesMonth(cfg: Settings, b: Books, s: Step, i: nat, w: Window)
    requires Orderly(b.table) && !s.Settle?
    requires i < |b.table| && b.table[i].status == Pending
    requires w.entitlement == b.table[i].window.entitlement && w.metric == b.table[i].window.metric
    requires MonthOf(w.start) == MonthOf(b.table[i].window.start)
    ensures RowOf(Take(cfg, b, s).table, w) == RowOf(b.table, w)
  {
    if Reaches(cfg, b, s, w) {
      if s.Retry? {
        ResendableIsFailed(b, s.e, w);
        OpenAlone(b.table, i, w);
      } else {
        var now := if s.Hourly? then FloorHour(s.clock) else FinalEnd(s.e, s.clock);
        RequestsPermitted(b.table, s.e, cfg.dimensions, now);
        var r :| r in Requests(b.table, s.e, cfg.dimensions, now) && KeyOf(s.e, r) == w
                 && Writes(b.table, s.e, s.ledger, r);
        PermittedAgainst(b.table, s.e.id, r, i);
        FindAt(b.table, i);
      }
    }
    UnreachedRowStays(cfg, b, s, w);
  }

  /** The shape of the table after any run: windows are not empty, those of one metric
      that start in one month do not overlap, and at most one of them is not reported. */
  lemma WindowTable(cfg: Settings, steps: seq<Step>)
    requires HonestRun(cfg, steps)
    ensures
      var t := Run(cfg, steps).table;
      && (forall i :: 0 <= i < |t| ==> t[i].window.start < t[i].end)
      && (forall i, j :: 0 <= i < j < |t| && SameMonth(t[i], t[j]) ==>
                           && (t[i].end <= t[j].window.start || t[j].end <= t[i].window.start)
                           && (t[i].status == Reported || t[j].status == Reported))
  {
    RunKeeps(cfg, steps);
    var t := Run(cfg, steps).table;
    assert forall i :: 0 <= i < |t| ==> Shaped(t[i]);
  }

  /** A run never asks for a window already reported, neither at its start nor once the
      windows before it have been collected: that branch cannot be reached. */
  lemma NeverAsksForReported(cfg: Settings, b: Books, e: Entitlement, ledger: Ledger, now: nat, k: nat)
    requires Sound(cfg, b) && k < |Requests(b.table, e, cfg.dimensions, now)|
    ensures
      var rs := Requests(b.table, e, cfg.dimensions, now);
      var row := RowOf(AddAll(cfg, b.table, e, ledger, rs[..k]).table, KeyOf(e, rs[k]));
      row.Some? ==> row.value.status != Reported
  {
    var rs := Requests(b.table, e, cfg.dimensions, now);
    RequestsPermitted(b.table, e, cfg.dimensions, now);
    AddAllKeeps(cfg, b, e, ledger, rs[..k]);
    var t := AddAll(cfg, b.table, e, ledger, rs[..k]).table;
    var at := Find(t, KeyOf(e, rs[k]));
    if at.Some? { PermittedAgainst(t, e.id, rs[k], at.value); }
  }
}

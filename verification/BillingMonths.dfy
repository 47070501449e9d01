/** What an accepted report leaves behind: the month's reported sum against the ledger. */
module BillingMonths {
  import opened Wrappers
  import opened Calendar
  import opened Checkpoints
  import opened Billing
  import opened BillingInvariant
  import opened BillingSteps
  import opened BillingTheorems

  /** The daily reconciliation of one metric: the ledger above the allowance, in the
      units that go out, against what was reported for the month. */
  predicate Discrepancy(cfg: Settings, t: Table, e: Entitlement, ledger: Ledger, metric: string, month: nat) {
    var billable := match Billable(ledger, e, metric, month) case None => 0 case Some(q) => q;
    Rounded(cfg, metric, billable) != ReportedIn(t, e.id, metric, month)
  }

  /** An hourly or final run that Google accepts in full and nothing interrupts. */
  function AcceptedReport(cfg: Settings, b: Books, e: Entitlement, now: nat, ledger: Ledger, took: set<Window>): Books {
    Report(cfg, b, e, now, ledger, Entitled, Delivery(Answer([]), took), NoMishap)
  }

  lemma NamingNone(ops: seq<Window>)
    ensures Naming(ops, [], true) == [] && Naming(ops, [], false) == ops
  {
    if |ops| > 0 {
      NamingNone(ops[..|ops| - 1]);
      assert ops == ops[..|ops| - 1] + [ops[|ops| - 1]];
    }
  }

  lemma AcceptedTable(cfg: Settings, b: Books, e: Entitlement, now: nat, ledger: Ledger, took: set<Window>)
    requires e.consumer != "" && e.planMapped
    ensures
      var c := AddAll(cfg, b.table, e, ledger, Requests(b.table, e, cfg.dimensions, now));
      AcceptedReport(cfg, b, e, now, ledger, took).table == MarkAll(c.table, c.operations, Reported)
  {
    var c := AddAll(cfg, b.table, e, ledger, Requests(b.table, e, cfg.dimensions, now));
    NamingNone(c.operations);
  }

  /** Before a permitted window is written, what its month's reconciliation reads is what
      the quantity is computed from. */
  lemma ReportedBefore(t: Table, e: nat, r: Request)
    requires Orderly(t) && Permitted(LastWindowEnd(t, e, r.metric), r)
    ensures ReportedIn(t, e, r.metric, r.month) == AlreadyReported(t, e, r.metric, MonthStart(r.month))
  {
    var s, s' := ReportedBetween(e, r.metric, MonthStart(r.month), MonthStart(r.month + 1)),
                 ReportedSince(e, r.metric, MonthStart(r.month));
    LastWindowEndIsGreatest(t, e, r.metric);
    forall i | 0 <= i < |t| ensures s.Weight(t[i]) == s'.Weight(t[i]) {
      assert Shaped(t[i]);
    }
    SumAgrees(t, t, s, s');
  }

  lemma ReportedAfterAt(t: Table, ops: seq<Window>, e: nat, r: Request, i: nat)
    requires Orderly(t) && Permitted(LastWindowEnd(t, e, r.metric), r)
    requires Window(e, r.metric, r.start) in ops && i < |t|
    ensures
      var c := if t[i].window in ops then t[i].(status := Reported) else t[i];
      ReportedBetween(e, r.metric, MonthStart(r.month), MonthStart(r.month + 1)).Weight(c)
      == InMonth(e, r.metric, r.month).Weight(t[i])
  {
    if Same(t[i], e, r.metric) {
      if MonthOf(t[i].window.start) == r.month {
        PermittedAgainst(t, e, r, i);
      } else if MonthStart(r.month) <= t[i].window.start < MonthStart(r.month + 1) {
        MonthUnique(r.month, t[i].window.start);
      }
    }
  }

  /** Once a month's only open window is marked reported, all of the month is. */
  lemma ReportedAfter(t: Table, ops: seq<Window>, e: nat, r: Request)
    requires Orderly(t) && Permitted(LastWindowEnd(t, e, r.metric), r)
    requires Window(e, r.metric, r.start) in ops
    ensures ReportedIn(MarkAll(t, ops, Reported), e, r.metric, r.month) == Sum(t, InMonth(e, r.metric, r.month))
  {
    var t' := MarkAll(t, ops, Reported);
    var s, s' := ReportedBetween(e, r.metric, MonthStart(r.month), MonthStart(r.month + 1)),
                 InMonth(e, r.metric, r.month);
    MarkAllAt(t, ops, Reported);
    forall i | 0 <= i < |t| ensures s.Weight(t'[i]) == s'.Weight(t[i]) {
      ReportedAfterAt(t, ops, e, r, i);
    }
    SumAgrees(t', t, s, s');
  }

  /** The units a window adds for a month at `reported` out of `total`. */
  function Rise(cfg: Settings, metric: string, total: nat, reported: nat): nat {
    Rounded(cfg, metric, if total > reported then total - reported else 0)
  }

  lemma CollectedWindow(cfg: Settings, b: Books, e: Entitlement, now: nat, ledger: Ledger, r: Request)
    requires Sound(cfg, b)
    requires r in Requests(b.table, e, cfg.dimensions, now) && !Blocked(b.table, KeyOf(e, r))
    requires Billable(ledger, e, r.metric, r.month).Some?
    ensures
      var c := AddAll(cfg, b.table, e, ledger, Requests(b.table, e, cfg.dimensions, now));
      && KeyOf(e, r) in c.operations
      && Orderly(c.table) && Permitted(LastWindowEnd(c.table, e.id, r.metric), r)
      && RowOf(c.table, KeyOf(e, r)) == Some(RowFor(cfg, b.table, e, ledger, r))
      && AlreadyReported(c.table, e.id, r.metric, MonthStart(r.month))
         == AlreadyReported(b.table, e.id, r.metric, MonthStart(r.month))
  {
    var rs := Requests(b.table, e, cfg.dimensions, now);
    RequestsPermitted(b.table, e, cfg.dimensions, now);
    RequestsKeyed(cfg, b.table, e, now);
    AddAllRows(cfg, b.table, e, ledger, rs, KeyOf(e, r));
    assert Asked(b.table, e, ledger, rs, KeyOf(e, r));
    AddAllKeeps(cfg, b, e, ledger, rs);
  }

  /** An accepted window adds exactly the rounded rise of its month. */
  lemma AcceptedWindow(cfg: Settings, b: Books, e: Entitlement, now: nat, ledger: Ledger, took: set<Window>, r: Request)
    requires Sound(cfg, b) && e.consumer != "" && e.planMapped
    requires r in Requests(b.table, e, cfg.dimensions, now) && !Blocked(b.table, KeyOf(e, r))
    requires Billable(ledger, e, r.metric, r.month).Some?
    ensures
      var before := ReportedIn(b.table, e.id, r.metric, r.month);
      ReportedIn(AcceptedReport(cfg, b, e, now, ledger, took).table, e.id, r.metric, r.month)
      == before + Rise(cfg, r.metric, Billable(ledger, e, r.metric, r.month).value, before)
  {
    AcceptedTable(cfg, b, e, now, ledger, took);
    RequestsPermitted(b.table, e, cfg.dimensions, now);
    ReportedBefore(b.table, e.id, r);
    CollectedWindow(cfg, b, e, now, ledger, r);
    var c := AddAll(cfg, b.table, e, ledger, Requests(b.table, e, cfg.dimensions, now));
    MonthIsReported(c.table, e.id, r);
    ReportedAfter(c.table, c.operations, e.id, r);
    AcceptedQuantity(cfg, b.table, e, r, ledger);
  }

  lemma AcceptedQuantity(cfg: Settings, t: Table, e: Entitlement, r: Request, ledger: Ledger)
    requires Billable(ledger, e, r.metric, r.month).Some?
    ensures
      var before := AlreadyReported(t, e.id, r.metric, MonthStart(r.month));
      && QuantityFor(t, e, r.metric, r.month, ledger).Some?
      && RowFor(cfg, t, e, ledger, r).quantity
         == Rise(cfg, r.metric, Billable(ledger, e, r.metric, r.month).value, before)
  {}

  // ------------------------------------------------------------ floors that telescope

  lemma {:induction false} SumWhole(cfg: Settings, t: Table, s: Selector)
    requires Whole(cfg, t) && s.metric !in cfg.floats
    ensures Sum(t, s) % UNIT == 0
  {
    if |t| > 0 {
      SumWhole(cfg, t[..|t| - 1], s);
      var a, c := Sum(t[..|t| - 1], s), s.Weight(t[|t| - 1]);
      assert a == UNIT * (a / UNIT) && c == UNIT * (c / UNIT);
      assert a + c == UNIT * (a / UNIT + c / UNIT);
    }
  }

  lemma WholeUnitsTelescope(total: nat, reported: nat)
    requires reported % UNIT == 0 && reported <= total
    ensures reported + WholeUnits(total - reported) == WholeUnits(total)
  {
    assert reported == UNIT * (reported / UNIT);
    assert total % UNIT == (total - reported) % UNIT;
  }

  /** Adding the rise reaches the ledger's own rounded total just when nothing beyond it
      had been reported. */
  lemma RiseReaches(cfg: Settings, t: Table, e: Entitlement, metric: string, month: nat, total: nat)
    requires Whole(cfg, t)
    ensures
      var before := ReportedIn(t, e.id, metric, month);
      before + Rise(cfg, metric, total, before) == Rounded(cfg, metric, total) <==> before <= total
  {
    var s := ReportedBetween(e.id, metric, MonthStart(month), MonthStart(month + 1));
    var before := Sum(t, s);
    RoundedIsWhole(cfg, metric, total);
    if metric !in cfg.floats {
      SumWhole(cfg, t, s);
      if before <= total { WholeUnitsTelescope(total, before); }
    }
  }

  /** An accepted window leaves its month without a discrepancy exactly when the month had
      not been reported beyond the ledger's present billable total. */
  lemma AcceptedReconciles(cfg: Settings, b: Books, e: Entitlement, now: nat, ledger: Ledger, took: set<Window>,
                           r: Request)
    requires Sound(cfg, b) && e.consumer != "" && e.planMapped
    requires r in Requests(b.table, e, cfg.dimensions, now) && !Blocked(b.table, KeyOf(e, r))
    requires Billable(ledger, e, r.metric, r.month).Some?
    ensures
      !Discrepancy(cfg, AcceptedReport(cfg, b, e, now, ledger, took).table, e, ledger, r.metric, r.month)
      <==> ReportedIn(b.table, e.id, r.metric, r.month) <= Billable(ledger, e, r.metric, r.month).value
  {
    AcceptedWindow(cfg, b, e, now, ledger, took, r);
    RiseReaches(cfg, b.table, e, r.metric, r.month, Billable(ledger, e, r.metric, r.month).value);
  }

  lemma ReportedWithinMonth(t: Table, e: nat, metric: string, month: nat)
    ensures ReportedIn(t, e, metric, month) <= Sum(t, InMonth(e, metric, month))
  {
    var s, s' := ReportedBetween(e, metric, MonthStart(month), MonthStart(month + 1)), InMonth(e, metric, month);
    forall i | 0 <= i < |t| ensures s.Weight(t[i]) <= s'.Weight(t[i]) {
      if s.Picks(t[i]) { MonthUnique(month, t[i].window.start); }
    }
    SumAtMost(t, s, s');
  }

  // --------------------------------------------------------------- path independence

  /** An accepted window of a month whose ledger has not fallen reaches its billable total. */
  lemma AcceptedReaches(cfg: Settings, steps: seq<Step>, e: Entitlement, now: nat, ledger: Ledger, took: set<Window>,
                        r: Request)
    requires HonestRun(cfg, steps) && e.consumer != "" && e.planMapped && r.metric in cfg.dimensions
    requires r in RequestsFor(Run(cfg, steps).table, e, r.metric, now) && !Blocked(Run(cfg, steps).table, KeyOf(e, r))
    requires Billable(ledger, e, r.metric, r.month).Some?
    requires forall i :: 0 <= i < |steps| ==>
                           StepCapped(steps[i], e.id, r.metric, r.month, Billable(ledger, e, r.metric, r.month).value)
    ensures
      var after := AcceptedReport(cfg, Run(cfg, steps), e, now, ledger, took).table;
      && ReportedIn(after, e.id, r.metric, r.month)
         == Rounded(cfg, r.metric, Billable(ledger, e, r.metric, r.month).value)
      && !Discrepancy(cfg, after, e, ledger, r.metric, r.month)
  {
    var b := Run(cfg, steps);
    RunKeeps(cfg, steps);
    RunCovers(cfg, steps, e.id, r.metric, r.month, Billable(ledger, e, r.metric, r.month).value);
    ReportedWithinMonth(b.table, e.id, r.metric, r.month);
    RequestsAre(b.table, e, cfg.dimensions, now);
    AcceptedReconciles(cfg, b, e, now, ledger, took, r);
  }

  /** However a month got here - refusals, failed checks, crashes, settlements - as long
      as its ledger has not fallen, one accepted report with nothing left unresolved brings
      the month's reported sum to the ledger's present billable total, in the units that go
      out: a figure in which the path does not appear. */
  lemma PathIndependence(cfg: Settings, steps: seq<Step>, e: Entitlement, metric: string, now: nat,
                         ledger: Ledger, took: set<Window>)
    requires HonestRun(cfg, steps) && e.consumer != "" && e.planMapped
    requires metric in cfg.dimensions && metric in e.metricIds
    requires Billable(ledger, e, metric, MonthOf(now)).Some?
    requires forall i :: 0 <= i < |steps| ==>
                           StepCapped(steps[i], e.id, metric, MonthOf(now),
                                      Billable(ledger, e, metric, MonthOf(now)).value)
    requires var last := LastWindowEnd(Run(cfg, steps).table, e.id, metric); last.None? || last.value < now
    requires MonthStart(MonthOf(now)) < now
    requires !Blocked(Run(cfg, steps).table, Window(e.id, metric, CurrentStart(Run(cfg, steps).table, e, metric, now)))
    ensures
      var after := AcceptedReport(cfg, Run(cfg, steps), e, now, ledger, took).table;
      && ReportedIn(after, e.id, metric, MonthOf(now))
         == Rounded(cfg, metric, Billable(ledger, e, metric, MonthOf(now)).value)
      && !Discrepancy(cfg, after, e, ledger, metric, MonthOf(now))
  {
    var t := Run(cfg, steps).table;
    var r := Request(metric, CurrentStart(t, e, metric, now), now, MonthOf(now));
    assert r in CurrentWindow(t, e, metric, now);
    AcceptedReaches(cfg, steps, e, now, ledger, took, r);
  }

  // -------------------------------------------------------------------- month closing

  /** When reporting stopped inside an earlier month, the first accepted run of a new one,
      at its first instant or later, brings the month it stopped in to its billable total.
      Whatever else that run sends has no bearing on it. */
  lemma MonthCloses(cfg: Settings, steps: seq<Step>, e: Entitlement, metric: string, now: nat,
                    ledger: Ledger, took: set<Window>, last: nat)
    requires HonestRun(cfg, steps) && e.consumer != "" && e.planMapped && ledger.installed
    requires metric in cfg.dimensions && metric in e.metricIds
    requires LastWindowEnd(Run(cfg, steps).table, e.id, metric) == Some(last) && MonthOf(last) < MonthOf(now)
    requires !Blocked(Run(cfg, steps).table, Window(e.id, metric, last))
    requires forall i :: 0 <= i < |steps| ==>
                           StepCapped(steps[i], e.id, metric, MonthOf(last),
                                      Billable(ledger, e, metric, MonthOf(last)).value)
    ensures
      var after := AcceptedReport(cfg, Run(cfg, steps), e, now, ledger, took).table;
      && ReportedIn(after, e.id, metric, MonthOf(last))
         == Rounded(cfg, metric, Billable(ledger, e, metric, MonthOf(last)).value)
      && !Discrepancy(cfg, after, e, ledger, metric, MonthOf(last))
  {
    var first := MonthStart(MonthOf(now));
    BeforeMonth(last, now);
    var r := Request(metric, last, first, MonthOf(last));
    assert r in MonthClosing(Run(cfg, steps).table, e, metric, now);
    AcceptedReaches(cfg, steps, e, now, ledger, took, r);
  }

  lemma BeforeMonth(last: nat, now: nat)
    ensures MonthOf(last) < MonthOf(now) <==> last < MonthStart(MonthOf(now))
  {
    MonthOfStart(MonthOf(now));
    if MonthStart(MonthOf(now)) <= last { MonthOfMonotone(MonthStart(MonthOf(now)), last); }
    if last < MonthStart(MonthOf(now)) && MonthOf(now) < MonthOf(last) {
      MonthStartIncreases(MonthOf(now), MonthOf(last));
    }
  }

  lemma {:induction false} SumBelow(t: Table, t': Table, s: Selector, s': Selector)
    requires |t| == |t'| && forall i :: 0 <= i < |t| ==> s.Weight(t[i]) <= s'.Weight(t'[i])
    ensures Sum(t, s) <= Sum(t', s')
  {
    if |t| > 0 { SumBelow(t[..|t| - 1], t'[..|t| - 1], s, s'); }
  }

  /** Nothing is reported for a month that begins after reporting stopped. */
  lemma NothingReportedYet(t: Table, e: nat, metric: string, month: nat)
    requires Orderly(t)
    requires LastWindowEnd(t, e, metric).Some? ==> LastWindowEnd(t, e, metric).value <= MonthStart(month)
    ensures AlreadyReported(t, e, metric, MonthStart(month)) == 0 && ReportedIn(t, e, metric, month) == 0
  {
    LastWindowEndIsGreatest(t, e, metric);
    var s, s' := ReportedSince(e, metric, MonthStart(month)),
                 ReportedBetween(e, metric, MonthStart(month), MonthStart(month + 1));
    forall i | 0 <= i < |t| ensures !s.Picks(t[i]) && !s'.Picks(t[i]) {
      assert Shaped(t[i]);
    }
    SumNone(t, s);
    SumNone(t, s');
  }

  /** Marking windows of other months leaves nothing reported where nothing was. */
  lemma StillNothingReported(t: Table, ops: seq<Window>, e: nat, metric: string, month: nat)
    requires Distinct(t) && AlreadyReported(t, e, metric, MonthStart(month)) == 0
    requires forall w :: w in ops && w.entitlement == e && w.metric == metric ==> MonthOf(w.start) != month
    ensures ReportedIn(MarkAll(t, ops, Reported), e, metric, month) == 0
  {
    var t' := MarkAll(t, ops, Reported);
    MarkAllAt(t, ops, Reported);
    var s, s' := ReportedBetween(e, metric, MonthStart(month), MonthStart(month + 1)),
                 ReportedSince(e, metric, MonthStart(month));
    forall i | 0 <= i < |t| ensures s.Weight(t'[i]) <= s'.Weight(t[i]) {
      if s.Picks(t'[i]) { MonthUnique(month, t[i].window.start); }
    }
    SumBelow(t', t, s, s');
  }

  /** The same run counts none of the old month in the new one: the new month's reported sum
      is its own billable total if its window goes out, and nothing if it does not, because
      the month has just begun or its window still waits for an outcome. */
  lemma NewMonthStartsApart(cfg: Settings, steps: seq<Step>, e: Entitlement, metric: string, now: nat,
                            ledger: Ledger, took: set<Window>)
    requires HonestRun(cfg, steps) && e.consumer != "" && e.planMapped && ledger.installed
    requires metric in cfg.dimensions && metric in e.metricIds
    requires LastWindowEnd(Run(cfg, steps).table, e.id, metric).Some?
    requires MonthOf(LastWindowEnd(Run(cfg, steps).table, e.id, metric).value) < MonthOf(now)
    ensures
      var first := MonthStart(MonthOf(now));
      ReportedIn(AcceptedReport(cfg, Run(cfg, steps), e, now, ledger, took).table, e.id, metric, MonthOf(now))
      == if first < now && !Blocked(Run(cfg, steps).table, Window(e.id, metric, first))
         then Rounded(cfg, metric, Billable(ledger, e, metric, MonthOf(now)).value) else 0
  {
    var b, first := Run(cfg, steps), MonthStart(MonthOf(now));
    RunKeeps(cfg, steps);
    BeforeMonth(LastWindowEnd(b.table, e.id, metric).value, now);
    NothingReportedYet(b.table, e.id, metric, MonthOf(now));
    RequestsAre(b.table, e, cfg.dimensions, now);
    if first < now && !Blocked(b.table, Window(e.id, metric, first)) {
      var r := Request(metric, first, now, MonthOf(now));
      assert r in CurrentWindow(b.table, e, metric, now);
      AcceptedWindow(cfg, b, e, now, ledger, took, r);
    } else {
      NewMonthWaits(cfg, b, e, metric, now, ledger, took);
    }
  }

  lemma NewMonthWaits(cfg: Settings, b: Books, e: Entitlement, metric: string, now: nat, ledger: Ledger,
                      took: set<Window>)
    requires Sound(cfg, b) && e.consumer != "" && e.planMapped
    requires LastWindowEnd(b.table, e.id, metric).Some?
             && LastWindowEnd(b.table, e.id, metric).value < MonthStart(MonthOf(now))
    requires now <= MonthStart(MonthOf(now)) || Blocked(b.table, Window(e.id, metric, MonthStart(MonthOf(now))))
    requires AlreadyReported(b.table, e.id, metric, MonthStart(MonthOf(now))) == 0
    ensures ReportedIn(AcceptedReport(cfg, b, e, now, ledger, took).table, e.id, metric, MonthOf(now)) == 0
  {
    var rs := Requests(b.table, e, cfg.dimensions, now);
    var c := AddAll(cfg, b.table, e, ledger, rs);
    RequestsKeyed(cfg, b.table, e, now);
    RequestsAre(b.table, e, cfg.dimensions, now);
    forall w | w in c.operations && w.entitlement == e.id && w.metric == metric
      ensures MonthOf(w.start) != MonthOf(now)
    {
      AddAllRows(cfg, b.table, e, ledger, rs, w);
      var r :| r in rs && KeyOf(e, r) == w && Writes(b.table, e, ledger, r);
      BeforeMonth(w.start, now);
      assert r in MonthClosing(b.table, e, metric, now) || r in CurrentWindow(b.table, e, metric, now);
    }
    AddAllRows(cfg, b.table, e, ledger, rs, Window(e.id, metric, 0));
    AcceptedTable(cfg, b, e, now, ledger, took);
    StillNothingReported(c.table, c.operations, e.id, metric, MonthOf(now));
  }
}

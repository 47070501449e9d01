/** What the promise to send a window again comes to: which windows settled as not billed an
    hourly run sends, and which are left behind for good. */
module BillingResends {
  import opened Wrappers
  import opened Calendar
  import opened Checkpoints
  import opened Billing
  import opened BillingInvariant
  import opened BillingSteps
  import opened BillingTheorems
  import opened BillingMonths

  lemma StartsAsked(t: Table, e: Entitlement, metric: string, now: nat, start: nat)
    requires metric in e.metricIds
    ensures
      (exists r :: r in RequestsFor(t, e, metric, now) && r.start == start)
      <==> (LastWindowEnd(t, e.id, metric) == Some(start) && start < MonthStart(MonthOf(now)))
           || (start == CurrentStart(t, e, metric, now) && start < now)
  {
    var closing, current := MonthClosing(t, e, metric, now), CurrentWindow(t, e, metric, now);
    assert RequestsFor(t, e, metric, now) == closing + current;
    if LastWindowEnd(t, e.id, metric) == Some(start) && start < MonthStart(MonthOf(now)) {
      assert closing[0] in RequestsFor(t, e, metric, now);
    }
    if start == CurrentStart(t, e, metric, now) && start < now {
      assert current[0] in RequestsFor(t, e, metric, now);
    }
  }

  lemma QueuedIsAsked(cfg: Settings, t: Table, e: Entitlement, now: nat, ledger: Ledger, w: Window)
    requires Distinct(t)
    ensures
      var rs := Requests(t, e, cfg.dimensions, now);
      w in AddAll(cfg, t, e, ledger, rs).operations <==> Asked(t, e, ledger, rs, w)
  {
    RequestsKeyed(cfg, t, e, now);
    AddAllRows(cfg, t, e, ledger, Requests(t, e, cfg.dimensions, now), w);
  }

  lemma FreeIsWritten(t: Table, e: Entitlement, ledger: Ledger, r: Request)
    requires !Blocked(t, KeyOf(e, r))
    ensures Writes(t, e, ledger, r) <==> ledger.installed
  {}

  /** A failed window is queued by a run that asks for its start. */
  lemma QueuedIfAsked(cfg: Settings, t: Table, e: Entitlement, metric: string, start: nat, now: nat, ledger: Ledger)
    requires Distinct(t) && !Blocked(t, Window(e.id, metric, start))
    ensures
      Window(e.id, metric, start) in AddAll(cfg, t, e, ledger, Requests(t, e, cfg.dimensions, now)).operations
      <==> ledger.installed && metric in cfg.dimensions
           && exists r :: r in RequestsFor(t, e, metric, now) && r.start == start
  {
    var w := Window(e.id, metric, start);
    var rs := Requests(t, e, cfg.dimensions, now);
    QueuedIsAsked(cfg, t, e, now, ledger, w);
    RequestsAre(t, e, cfg.dimensions, now);
    if Asked(t, e, ledger, rs, w) {
      var r :| r in rs && KeyOf(e, r) == w && Writes(t, e, ledger, r);
      FreeIsWritten(t, e, ledger, r);
    }
    if r :| metric in cfg.dimensions && r in RequestsFor(t, e, metric, now) && r.start == start {
      RequestsForPermitted(t, e, metric, now);
      FreeIsWritten(t, e, ledger, r);
      assert r in rs && KeyOf(e, r) == w;
    }
  }

  lemma WhereAsked(last: Option<nat>, start: nat, now: nat)
    requires Placed(last, start)
    ensures
      var first := MonthStart(MonthOf(now));
      var current := if last.None? || last.value < first then first else last.value;
      (last == Some(start) && start < first) || (start == current && start < now)
      <==> start < now && (last == Some(start)
                           || ((last.None? || last.value < start) && MonthOf(start) == MonthOf(now)))
  {
    var first := MonthStart(MonthOf(now));
    assert first <= now;
    MonthOfStart(MonthOf(now));
    if last.Some? && last.value < start { MonthOfMonotone(last.value, start); }
  }

  predicate CutBeforeSend(m: Mishap) {
    m.CollectRaises? || m.DiesCollecting? || m.DiesBeforeSend?
  }

  /** The operations a run gets as far as sending. */
  function SentBy(cfg: Settings, b: Books, e: Entitlement, now: nat, ledger: Ledger, check: CheckReply,
                  m: Mishap): seq<Window>
  {
    if e.consumer == "" || !e.planMapped || check != Entitled || CutBeforeSend(m) then []
    else AddAll(cfg, b.table, e, ledger, Requests(b.table, e, cfg.dimensions, now)).operations
  }

  /** Sending is what Google sees of a run: it bills nothing else. */
  lemma OnlySentIsBilled(cfg: Settings, b: Books, e: Entitlement, now: nat, ledger: Ledger,
                         check: CheckReply, d: Delivery, m: Mishap)
    ensures
      var ops := SentBy(cfg, b, e, now, ledger, check, m);
      var c := AddAll(cfg, b.table, e, ledger, Requests(b.table, e, cfg.dimensions, now));
      Report(cfg, b, e, now, ledger, check, d, m).charged == b.charged + Charges(c.table, ops, d.took)
  {
    assert b.charged + [] == b.charged;
  }

  /** A window settled as not billed is promised to go out again in the next hourly run.  A
      failed window goes out in a run that gets as far as sending exactly when reporting has
      not moved past its start, and it is where reporting stopped or starts the run's month. */
  lemma SentAgainExactly(cfg: Settings, b: Books, e: Entitlement, metric: string, start: nat, now: nat,
                         ledger: Ledger, check: CheckReply, m: Mishap)
    requires Sound(cfg, b)
    requires RowOf(b.table, Window(e.id, metric, start)).Some?
    requires RowOf(b.table, Window(e.id, metric, start)).value.status == Failed
    ensures
      var last := LastWindowEnd(b.table, e.id, metric);
      Window(e.id, metric, start) in SentBy(cfg, b, e, now, ledger, check, m)
      <==> && e.consumer != "" && e.planMapped && metric in cfg.dimensions && metric in e.metricIds && ledger.installed
           && check == Entitled && !CutBeforeSend(m)
           && start < now
           && (last == Some(start) || ((last.None? || last.value < start) && MonthOf(start) == MonthOf(now)))
  {
    QueuedIfAsked(cfg, b.table, e, metric, start, now, ledger);
    if metric in e.metricIds { StartsAsked(b.table, e, metric, now, start); }
    var i := Find(b.table, Window(e.id, metric, start)).value;
    assert Placed(LastWindowEnd(b.table, e.id, metric), b.table[i].window.start);
    WhereAsked(LastWindowEnd(b.table, e.id, metric), start, now);
  }

  lemma LastWindowEndGrows(cfg: Settings, b: Books, s: Step, e: nat, metric: string)
    requires Distinct(b.table) && Distinct(Take(cfg, b, s).table) && LastWindowEnd(b.table, e, metric).Some?
    ensures
      var after := LastWindowEnd(Take(cfg, b, s).table, e, metric);
      after.Some? && LastWindowEnd(b.table, e, metric).value <= after.value
  {
    var t' := Take(cfg, b, s).table;
    LastWindowEndIsGreatest(b.table, e, metric);
    var i :| 0 <= i < |b.table| && Same(b.table[i], e, metric) && b.table[i].status == Reported
             && b.table[i].end == LastWindowEnd(b.table, e, metric).value;
    FindAt(b.table, i);
    SettledRowsStay(cfg, b, s, b.table[i].window);
    var j := Find(t', b.table[i].window).value;
    LastWindowEndIsGreatest(t', e, metric);
    assert t'[j] == b.table[i];
  }

  predicate ReportedUpTo(t: Table, e: nat, metric: string, to: nat) {
    var last := LastWindowEnd(t, e, metric);
    last.Some? && to <= last.value
  }

  predicate UpToAfter(cfg: Settings, steps: seq<Step>, k: nat, e: nat, metric: string, to: nat)
    requires k <= |steps|
  {
    ReportedUpTo(Run(cfg, steps[..k]).table, e, metric, to)
  }

  /** One step of a run keeps what is reported up to a point. */
  lemma StillReportedUpTo(cfg: Settings, steps: seq<Step>, k: nat, e: nat, metric: string, to: nat)
    requires HonestRun(cfg, steps) && k < |steps|
    ensures UpToAfter(cfg, steps, k, e, metric, to) ==> UpToAfter(cfg, steps, k + 1, e, metric, to)
  {
    PrefixDistinct(cfg, steps, k);
    PrefixDistinct(cfg, steps, k + 1);
    assert steps[..k + 1][..k] == steps[..k];
    if UpToAfter(cfg, steps, k, e, metric, to) {
      LastWindowEndGrows(cfg, Run(cfg, steps[..k]), steps[k], e, metric);
    }
  }

  lemma {:induction false} UpToAlong(cfg: Settings, steps: seq<Step>, n: nat, m: nat, e: nat, metric: string, to: nat)
    requires n <= m <= |steps| && UpToAfter(cfg, steps, n, e, metric, to)
    requires forall k: nat :: n <= k < m && UpToAfter(cfg, steps, k, e, metric, to) ==>
                              UpToAfter(cfg, steps, k + 1, e, metric, to)
    ensures UpToAfter(cfg, steps, m, e, metric, to)
  {
    if n < m {
      UpToAlong(cfg, steps, n, m - 1, e, metric, to);
    }
  }

  /** Where reporting stopped never goes back. */
  lemma LastWindowEndGrowsOver(cfg: Settings, steps: seq<Step>, n: nat, e: nat, metric: string, to: nat)
    requires HonestRun(cfg, steps) && n <= |steps| && UpToAfter(cfg, steps, n, e, metric, to)
    ensures UpToAfter(cfg, steps, |steps|, e, metric, to)
  {
    forall k: nat | n <= k < |steps|
      ensures UpToAfter(cfg, steps, k, e, metric, to) ==> UpToAfter(cfg, steps, k + 1, e, metric, to)
    {
      StillReportedUpTo(cfg, steps, k, e, metric, to);
    }
    UpToAlong(cfg, steps, n, |steps|, e, metric, to);
  }

  /** So a window that reporting has moved past is out of reach of every later report,
      hourly or final: only the resend of a cancelled entitlement's windows can send it. */
  lemma LeftBehindForGood(cfg: Settings, steps: seq<Step>, n: nat, w: Window, s: Step)
    requires HonestRun(cfg, steps) && n <= |steps|
    requires
      var last := LastWindowEnd(Run(cfg, steps[..n]).table, w.entitlement, w.metric);
      last.Some? && w.start < last.value
    requires s.Hourly? || s.Final?
    ensures !Reaches(cfg, Run(cfg, steps), s, w)
  {
    var last := LastWindowEnd(Run(cfg, steps[..n]).table, w.entitlement, w.metric);
    LastWindowEndGrowsOver(cfg, steps, n, w.entitlement, w.metric, last.value);
    assert steps[..|steps|] == steps;
    var t := Run(cfg, steps).table;
    RequestsPermitted(t, s.e, cfg.dimensions, if s.Hourly? then FloorHour(s.clock) else FinalEnd(s.e, s.clock));
  }

  lemma CollectedRow(cfg: Settings, b: Books, e: Entitlement, now: nat, ledger: Ledger, r: Request)
    requires Sound(cfg, b) && ledger.installed && r.metric in cfg.dimensions
    requires r in RequestsFor(b.table, e, r.metric, now) && !Blocked(b.table, KeyOf(e, r))
    ensures
      var c := AddAll(cfg, b.table, e, ledger, Requests(b.table, e, cfg.dimensions, now));
      && KeyOf(e, r) in c.operations && Distinct(c.table)
      && RowOf(c.table, KeyOf(e, r)).Some? && RowOf(c.table, KeyOf(e, r)).value.end == r.end
  {
    RequestsAre(b.table, e, cfg.dimensions, now);
    CollectedWindow(cfg, b, e, now, ledger, r);
  }

  /** How a window comes to be left behind: Google refuses the one that closes a month and
      accepts the new month's first, sent in the same call. */
  lemma RefusedClosingIsLeftBehind(cfg: Settings, b: Books, e: Entitlement, now: nat, ledger: Ledger,
                                   took: set<Window>, metric: string, last: nat)
    requires Sound(cfg, b) && e.consumer != "" && e.planMapped && ledger.installed
    requires metric in cfg.dimensions && metric in e.metricIds
    requires LastWindowEnd(b.table, e.id, metric) == Some(last)
    requires last < MonthStart(MonthOf(now)) < now
    requires !Blocked(b.table, Window(e.id, metric, last))
    requires !Blocked(b.table, Window(e.id, metric, MonthStart(MonthOf(now))))
    ensures
      var closing := Window(e.id, metric, last);
      var after := Report(cfg, b, e, now, ledger, Entitled, Delivery(Answer([Some(closing)]), took), NoMishap).table;
      && Distinct(after) && RowOf(after, closing).Some? && RowOf(after, closing).value.status == Failed
      && LastWindowEnd(after, e.id, metric).Some? && last < LastWindowEnd(after, e.id, metric).value
  {
    var first := MonthStart(MonthOf(now));
    var r, r' := Request(metric, last, first, MonthOf(last)), Request(metric, first, now, MonthOf(now));
    assert r in MonthClosing(b.table, e, metric, now) && r' in CurrentWindow(b.table, e, metric, now);
    CollectedRow(cfg, b, e, now, ledger, r);
    CollectedRow(cfg, b, e, now, ledger, r');
    var c := AddAll(cfg, b.table, e, ledger, Requests(b.table, e, cfg.dimensions, now));
    ClosingRefusedMarks(c.table, c.operations, KeyOf(e, r), KeyOf(e, r'));
    AnsweredTable(cfg, b, e, now, ledger, [Some(KeyOf(e, r))], took);
    LastWindowEndAtLeast(Marks(c.table, c.operations, Answer([Some(KeyOf(e, r))]), false), KeyOf(e, r'));
  }

  lemma AnsweredTable(cfg: Settings, b: Books, e: Entitlement, now: nat, ledger: Ledger, errors: seq<Option<Window>>,
                      took: set<Window>)
    requires e.consumer != "" && e.planMapped
    ensures
      var c := AddAll(cfg, b.table, e, ledger, Requests(b.table, e, cfg.dimensions, now));
      |c.operations| > 0 ==>
        Report(cfg, b, e, now, ledger, Entitled, Delivery(Answer(errors), took), NoMishap).table
        == Marks(c.table, c.operations, Answer(errors), false)
  {}

  lemma LastWindowEndAtLeast(t: Table, w: Window)
    requires RowOf(t, w).Some? && RowOf(t, w).value.status == Reported
    ensures LastWindowEnd(t, w.entitlement, w.metric).Some?
    ensures RowOf(t, w).value.end <= LastWindowEnd(t, w.entitlement, w.metric).value
  {
    LastWindowEndIsGreatest(t, w.entitlement, w.metric);
    assert Same(t[Find(t, w).value], w.entitlement, w.metric);
  }

  lemma ClosingRefusedMarks(t: Table, ops: seq<Window>, closing: Window, current: Window)
    requires Distinct(t) && closing in ops && current in ops && closing != current
    requires RowOf(t, closing).Some? && RowOf(t, current).Some?
    ensures
      var after := Marks(t, ops, Answer([Some(closing)]), false);
      && RowOf(after, closing) == Some(RowOf(t, closing).value.(status := Failed))
      && RowOf(after, current) == Some(RowOf(t, current).value.(status := Reported))
  {
    var errors := [Some(closing)];
    var refused, rest := Naming(ops, errors, true), Naming(ops, errors, false);
    RowOfMarkAll(t, refused, Failed, closing);
    RowOfMarkAll(t, refused, Failed, current);
    RowOfMarkAll(MarkAll(t, refused, Failed), rest, Reported, closing);
    RowOfMarkAll(MarkAll(t, refused, Failed), rest, Reported, current);
  }

  lemma NotAskedBefore(cfg: Settings, t: Table, e: Entitlement, metric: string, start: nat, now: nat, ledger: Ledger)
    requires Distinct(t) && !Blocked(t, Window(e.id, metric, start))
    requires LastWindowEnd(t, e.id, metric).Some? && start < LastWindowEnd(t, e.id, metric).value
    ensures Window(e.id, metric, start) !in AddAll(cfg, t, e, ledger, Requests(t, e, cfg.dimensions, now)).operations
  {
    QueuedIfAsked(cfg, t, e, metric, start, now, ledger);
    RequestsForPermitted(t, e, metric, now);
  }
}

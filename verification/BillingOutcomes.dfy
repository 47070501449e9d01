/** What a step leaves behind, said of the ledger's totals, the free allowances, the statuses in
    the table and Google's log alone. */
module BillingOutcomes {
  import opened Wrappers
  import opened Calendar
  import opened Checkpoints
  import opened Billing
  import opened BillingInvariant
  import opened BillingSteps
  import opened BillingTheorems
  import opened BillingMonths

  // ----------------------------------------------------------- the free allowance

  /** What a month's ledger shows of a metric, and how much of it is free; nothing of either
      where the ledger has no row. */
  predicate Shows(ledger: Ledger, e: Entitlement, metric: string, month: nat, total: int, free: int) {
    && ledger.installed
    && if (metric, month) in ledger.totals
       then
         && total == ledger.totals[(metric, month)]
         && free == (if metric in e.allowance then e.allowance[metric] else 0)
       else total == 0 && free == 0
  }

  function Above(total: int, free: int): nat {
    if total > free then total - free else 0
  }

  /** Only usage above the allowance is billable, all of it, and a month with no ledger row has
      none; without metering nothing is known. */
  lemma AboveAllowance(ledger: Ledger, e: Entitlement, metric: string, month: nat)
    ensures !ledger.installed ==> Billable(ledger, e, metric, month) == None
    ensures forall total, free :: Shows(ledger, e, metric, month, total, free) ==>
                                    Billable(ledger, e, metric, month) == Some(Above(total, free))
  {}

  /** The units that go out: fractions for a float metric, otherwise the whole units that are
      there. */
  lemma UnitsThatGoOut(cfg: Settings, metric: string, quantity: nat)
    ensures
      var sent := Rounded(cfg, metric, quantity);
      if metric in cfg.floats then sent == quantity
      else sent % 1_000_000 == 0 && sent <= quantity < sent + 1_000_000
  {
    assert quantity == UNIT * (quantity / UNIT) + quantity % UNIT;
  }

  predicate TotalsWithin(s: Step, f: nat, metric: string, month: nat, cap: int, free: int) {
    s.Hourly? || s.Final? ==>
      s.e.id == f ==>
        && ((metric, month) in s.ledger.totals ==> s.ledger.totals[(metric, month)] <= cap)
        && free == (if metric in s.e.allowance then s.e.allowance[metric] else 0)
  }

  lemma TotalsAreCaps(steps: seq<Step>, e: nat, metric: string, month: nat, cap: int, free: int)
    requires forall i :: 0 <= i < |steps| ==> TotalsWithin(steps[i], e, metric, month, cap, free)
    ensures forall i :: 0 <= i < |steps| ==> StepCapped(steps[i], e, metric, month, Above(cap, free))
  {
    forall i | 0 <= i < |steps| ensures StepCapped(steps[i], e, metric, month, Above(cap, free)) {
      assert TotalsWithin(steps[i], e, metric, month, cap, free);
    }
  }

  lemma DueIs(ledger: Ledger, e: Entitlement, metric: string, month: nat, total: int, free: int)
    requires Shows(ledger, e, metric, month, total, free)
    ensures Billable(ledger, e, metric, month) == Some(Above(total, free))
  {}

  /** Nobody pays for what is free: over every honest run, what Google bills for a metric and
      month is nothing, or together with the allowance at most the highest total shown. */
  lemma AllowanceIsFree(cfg: Settings, steps: seq<Step>, e: nat, metric: string, month: nat, cap: int, free: int)
    requires HonestRun(cfg, steps)
    requires forall i :: 0 <= i < |steps| ==> TotalsWithin(steps[i], e, metric, month, cap, free)
    ensures
      var charged := ChargedIn(Run(cfg, steps).charged, e, metric, month);
      charged == 0 || charged + free <= cap
  {
    var above := Above(cap, free);
    TotalsAreCaps(steps, e, metric, month, cap, free);
    NeverOverBilled(cfg, steps, e, metric, month, above);
  }

  /** And all the rest is billed: an accepted report leaves the month at what its ledger shows
      above the allowance, in the units that go out, however the month got there. */
  lemma RestIsBilled(cfg: Settings, steps: seq<Step>, e: Entitlement, now: nat, ledger: Ledger, took: set<Window>,
                     r: Request, total: int, free: int)
    requires HonestRun(cfg, steps) && e.consumer != "" && e.planMapped && r.metric in cfg.dimensions
    requires r in RequestsFor(Run(cfg, steps).table, e, r.metric, now)
    requires !Blocked(Run(cfg, steps).table, Window(e.id, r.metric, r.start))
    requires Shows(ledger, e, r.metric, r.month, total, free)
    requires forall i :: 0 <= i < |steps| ==> TotalsWithin(steps[i], e.id, r.metric, r.month, total, free)
    ensures
      var after := AcceptedReport(cfg, Run(cfg, steps), e, now, ledger, took).table;
      ReportedIn(after, e.id, r.metric, r.month) == Rounded(cfg, r.metric, Above(total, free))
  {
    TotalsAreCaps(steps, e.id, r.metric, r.month, total, free);
    DueIs(ledger, e, r.metric, r.month, total, free);
    AcceptedReaches(cfg, steps, e, now, ledger, took, r);
  }

  // ----------------------------------------------------------------- which windows

  /** The windows a run asks of one metric, by where reporting stopped: what is left of an
      earlier month up to its end, and what has passed since, of this month. */
  lemma WindowsAskedFor(t: Table, e: Entitlement, metric: string, now: nat, r: Request)
    ensures
      var last, first := LastWindowEnd(t, e.id, metric), MonthStart(MonthOf(now));
      r in RequestsFor(t, e, metric, now)
      <==> && metric in e.metricIds && r.metric == metric
           && (|| (last.Some? && last.value < first && r == Request(metric, last.value, first, MonthOf(last.value)))
               || (&& r.start < now && r == Request(metric, r.start, now, MonthOf(now))
                   && (if last.Some? && last.value > first then r.start == last.value else r.start == first)))
  {}

  /** Google's rule for a final report: every window ends before the cancellation, and none
      ends later than now. */
  lemma FinalWindowsEndBefore(t: Table, e: Entitlement, dims: seq<string>, clock: nat, r: Request)
    requires r in Requests(t, e, dims, FinalEnd(e, clock))
    ensures r.end <= clock && (e.googleUpdate.Some? ==> r.end < e.googleUpdate.value)
  {
    RequestsAre(t, e, dims, FinalEnd(e, clock));
    WindowsAskedFor(t, e, r.metric, FinalEnd(e, clock), r);
  }

  /** It ends one second before, or now if that is earlier. */
  lemma FinalEndIsLatest(e: Entitlement, clock: nat)
    ensures e.googleUpdate == None ==> FinalEnd(e, clock) == clock
    ensures e.googleUpdate.Some? && e.googleUpdate.value > 0 ==>
              FinalEnd(e, clock) <= clock && FinalEnd(e, clock) < e.googleUpdate.value
              && (FinalEnd(e, clock) == clock || FinalEnd(e, clock) + 1 == e.googleUpdate.value)
  {}

  // ------------------------------------------------------- what a reply does to a row

  /** The status of an operation's row once its call has ended. */
  lemma StatusAfterReply(t: Table, ops: seq<Window>, reply: Reply, w: Window)
    requires Distinct(t) && w in ops && RowOf(t, w).Some?
    ensures
      var row := RowOf(Marks(t, ops, reply, false), w);
      && row.Some? && row.value == RowOf(t, w).value.(status := row.value.status)
      && match reply
         case Answer(errors) =>
           row.value.status == if Some(w) in errors then Failed else if None in errors then Pending else Reported
         case HttpError(code) =>
           row.value.status == if 400 <= code <= 499 && code != 408 && code != 429 then Failed else Pending
         case NeverSent => row.value.status == Failed
         case NoAnswer => row.value.status == Pending
  {
    match reply
    case Answer(errors) =>
      var refused, rest := Naming(ops, errors, true), Naming(ops, errors, false);
      RowOfMarkAll(t, refused, Failed, w);
      RowOfMarkAll(MarkAll(t, refused, Failed), rest, if Unattributed(errors) then Pending else Reported, w);
    case _ => RowOfMarkAll(t, ops, if Definitive(reply) then Failed else Pending, w);
  }

  /** A process that dies marking has marked the refused rows and no others. */
  lemma StatusHalfway(t: Table, ops: seq<Window>, errors: seq<Option<Window>>, w: Window)
    requires Distinct(t)
    ensures RowOf(Marks(t, ops, Answer(errors), true), w)
            == if w in ops && Some(w) in errors && RowOf(t, w).Some?
               then Some(RowOf(t, w).value.(status := Failed)) else RowOf(t, w)
  {
    RowOfMarkAll(t, Naming(ops, errors, true), Failed, w);
  }

  /** A send billed for nothing if the process dies before it, and marked not at all if it dies
      right after. */
  lemma DeathsInSending(b: Books, ops: seq<Window>, d: Delivery, m: Mishap)
    ensures m.DiesBeforeSend? ==> Deliver(b, ops, d, m) == b
    ensures m.DiesAfterSend? ==> Deliver(b, ops, d, m) == Books(b.table, b.charged + Charges(b.table, ops, d.took))
    ensures !m.DiesBeforeSend? && !m.DiesAfterSend? ==>
              Deliver(b, ops, d, m)
              == Books(Marks(b.table, ops, d.reply, m.DiesBetweenMarks?), b.charged + Charges(b.table, ops, d.took))
  {}

  /** What Google may have billed, by the reply: of an answer that names every error, all the other
      operations; of one that does not, any of the others; of a refused or unsent call, nothing;
      and of a lost one, any. */
  lemma TruthfulExactly(d: Delivery, ops: seq<Window>)
    ensures
      var sent := set w | w in ops;
      Truthful(d, ops)
      <==> match d.reply
           case Answer(errors) =>
             var unnamed := set w | w in ops && Some(w) !in errors;
             if None in errors then d.took <= unnamed else d.took == unnamed
           case HttpError(code) =>
             if 400 <= code <= 499 && code != 408 && code != 429 then d.took == {} else d.took <= sent
           case NeverSent => d.took == {}
           case NoAnswer => d.took <= sent
  {}

  lemma {:induction false} ChargeOfRow(t: Table, ops: seq<Window>, took: set<Window>, row: Checkpoint)
    requires row.window in ops && row.window in took && RowOf(t, row.window) == Some(row)
    ensures Charge(row.window, row.quantity) in Charges(t, ops, took)
  {
    var front, w := ops[..|ops| - 1], ops[|ops| - 1];
    assert ops == front + [w];
    if row.window in front { ChargeOfRow(t, front, took, row); }
  }

  lemma {:induction false} ChargesAtMostOnceEach(t: Table, ops: seq<Window>, took: set<Window>)
    ensures |Charges(t, ops, took)| <= |ops|
    ensures forall c :: c in Charges(t, ops, took) ==>
                          c.window in ops && c.window in took && RowOf(t, c.window).Some?
                          && RowOf(t, c.window).value.quantity == c.quantity
  {
    if |ops| > 0 { ChargesAtMostOnceEach(t, ops[..|ops| - 1], took); }
  }

  // ------------------------------------------------- runs that stop short of sending

  /** The windows a run writes: those it asks for that are not waiting or reported, where
      metering is installed. */
  lemma WrittenWindows(cfg: Settings, b: Books, e: Entitlement, now: nat, ledger: Ledger, w: Window)
    requires Distinct(b.table)
    ensures
      var rs := Requests(b.table, e, cfg.dimensions, now);
      w in AddAll(cfg, b.table, e, ledger, rs).operations
      <==> && ledger.installed && (exists r :: r in rs && w == Window(e.id, r.metric, r.start))
           && (RowOf(b.table, w).None? || RowOf(b.table, w).value.status == Failed)
  {
    var rs := Requests(b.table, e, cfg.dimensions, now);
    RequestsKeyed(cfg, b.table, e, now);
    AddAllRows(cfg, b.table, e, ledger, rs, w);
    if ledger.installed && !Blocked(b.table, w) && exists r :: r in rs && w == Window(e.id, r.metric, r.start) {
      var r :| r in rs && w == Window(e.id, r.metric, r.start);
      assert KeyOf(e, r) == w && Writes(b.table, e, ledger, r);
    }
  }

  /** A failed check, or an exception before it, leaves every window the run had written failed
      and Google with nothing; a check that raises is such an exception. */
  lemma FailsClosed(cfg: Settings, b: Books, e: Entitlement, now: nat, ledger: Ledger, check: CheckReply,
                    d: Delivery, m: Mishap, w: Window)
    requires Distinct(b.table) && e.consumer != "" && e.planMapped
    requires m.CollectRaises? || (check != Entitled && !m.DiesCollecting?)
    ensures
      var after := Report(cfg, b, e, now, ledger, check, d, m);
      var rs := Requests(b.table, e, cfg.dimensions, now);
      var reached := if m.CollectRaises? && m.after < |rs| then rs[..m.after] else rs;
      && after.charged == b.charged
      && (w in AddAll(cfg, b.table, e, ledger, reached).operations ==>
            RowOf(after.table, w).Some? && RowOf(after.table, w).value.status == Failed)
  {
    var all := Requests(b.table, e, cfg.dimensions, now);
    var rs := if m.CollectRaises? && m.after < |all| then all[..m.after] else all;
    assert all[..|all|] == all;
    RequestsKeyed(cfg, b.table, e, now);
    AddAllRows(cfg, b.table, e, ledger, rs, w);
    var c := AddAll(cfg, b.table, e, ledger, rs);
    RowOfMarkAll(c.table, c.operations, Failed, w);
    if w in c.operations {
      var r :| r in rs && KeyOf(e, r) == w && Writes(b.table, e, ledger, r);
      assert RowOf(c.table, w) == Some(RowFor(cfg, b.table, e, ledger, r));
    }
  }

  /** A process that dies while collecting leaves what it had written waiting, and unbilled. */
  lemma DiesWaiting(cfg: Settings, b: Books, e: Entitlement, now: nat, ledger: Ledger, check: CheckReply,
                    d: Delivery, after: nat, w: Window)
    requires Distinct(b.table) && e.consumer != "" && e.planMapped
    ensures
      var end := Report(cfg, b, e, now, ledger, check, d, DiesCollecting(after));
      var rs := Requests(b.table, e, cfg.dimensions, now);
      && end.charged == b.charged
      && (w in AddAll(cfg, b.table, e, ledger, if after < |rs| then rs[..after] else rs).operations ==>
            RowOf(end.table, w).Some? && RowOf(end.table, w).value.status == Pending)
  {
    var all := Requests(b.table, e, cfg.dimensions, now);
    var rs := if after < |all| then all[..after] else all;
    assert all[..|all|] == all;
    RequestsKeyed(cfg, b.table, e, now);
    AddAllRows(cfg, b.table, e, ledger, rs, w);
    if w in AddAll(cfg, b.table, e, ledger, rs).operations {
      var r :| r in rs && KeyOf(e, r) == w && Writes(b.table, e, ledger, r);
    }
  }

  /** Without a consumer id or a mapped plan a report is nothing at all. */
  lemma NothingToReport(cfg: Settings, b: Books, e: Entitlement, now: nat, ledger: Ledger, check: CheckReply,
                        d: Delivery, m: Mishap)
    requires e.consumer == "" || !e.planMapped
    ensures Report(cfg, b, e, now, ledger, check, d, m) == b
  {}

  /** The row of an accepted window: what the ledger shows above the allowance and beyond what
      was reported, in the units that go out, reported and billed. */
  lemma AcceptedRow(cfg: Settings, b: Books, e: Entitlement, now: nat, ledger: Ledger, took: set<Window>, r: Request,
                    total: int, free: int)
    requires Sound(cfg, b) && e.consumer != "" && e.planMapped && r in Requests(b.table, e, cfg.dimensions, now)
    requires !Blocked(b.table, Window(e.id, r.metric, r.start)) && Shows(ledger, e, r.metric, r.month, total, free)
    requires Window(e.id, r.metric, r.start) in took
    ensures
      var after := AcceptedReport(cfg, b, e, now, ledger, took);
      var w := Window(e.id, r.metric, r.start);
      var quantity := Rounded(cfg, r.metric,
                              Above(Above(total, free), AlreadyReported(b.table, e.id, r.metric, MonthStart(r.month))));
      RowOf(after.table, w) == Some(Checkpoint(w, r.end, quantity, Reported)) && Charge(w, quantity) in after.charged
  {
    WrittenRow(cfg, b.table, e, ledger, r, total, free);
    CollectedWindow(cfg, b, e, now, ledger, r);
    AcceptedRowIs(cfg, b, e, now, ledger, took, RowFor(cfg, b.table, e, ledger, r));
  }

  lemma WrittenRow(cfg: Settings, t: Table, e: Entitlement, ledger: Ledger, r: Request, total: int, free: int)
    requires Shows(ledger, e, r.metric, r.month, total, free)
    ensures Billable(ledger, e, r.metric, r.month).Some? && QuantityFor(t, e, r.metric, r.month, ledger).Some?
    ensures RowFor(cfg, t, e, ledger, r)
            == Checkpoint(Window(e.id, r.metric, r.start), r.end,
                          Rounded(cfg, r.metric,
                                  Above(Above(total, free), AlreadyReported(t, e.id, r.metric, MonthStart(r.month)))),
                          Pending)
  {
    DueIs(ledger, e, r.metric, r.month, total, free);
  }

  lemma AcceptedRowIs(cfg: Settings, b: Books, e: Entitlement, now: nat, ledger: Ledger, took: set<Window>,
                      row: Checkpoint)
    requires Distinct(b.table) && e.consumer != "" && e.planMapped && row.window in took
    requires
      var c := AddAll(cfg, b.table, e, ledger, Requests(b.table, e, cfg.dimensions, now));
      Distinct(c.table) && row.window in c.operations && RowOf(c.table, row.window) == Some(row)
    ensures
      var after := AcceptedReport(cfg, b, e, now, ledger, took);
      && RowOf(after.table, row.window) == Some(row.(status := Reported))
      && Charge(row.window, row.quantity) in after.charged
  {
    var c := AddAll(cfg, b.table, e, ledger, Requests(b.table, e, cfg.dimensions, now));
    AcceptedTable(cfg, b, e, now, ledger, took);
    RowOfMarkAll(c.table, c.operations, Reported, row.window);
    ChargeOfRow(c.table, c.operations, took, row);
  }

  // ------------------------------------------------------------------------- resending

  /** A cancelled entitlement's window the plan still has a metric for, refused. */
  predicate IsRefused(t: Table, e: Entitlement, i: nat) {
    && i < |t| && t[i].status == Failed && t[i].window.entitlement == e.id && t[i].window.metric in e.metricIds
  }

  /** What a retry sends: exactly the refused windows of the entitlement's mapped metrics. */
  lemma {:induction false} ResentExactly(t: Table, e: Entitlement, w: Window)
    ensures w in Resendable(t, e) <==> exists i: nat :: IsRefused(t, e, i) && t[i].window == w
  {
    if |t| > 0 {
      var front, n := t[..|t| - 1], |t| - 1;
      ResentExactly(front, e, w);
      if i: nat :| IsRefused(front, e, i) && front[i].window == w { assert IsRefused(t, e, i) && t[i].window == w; }
      if i: nat :| IsRefused(t, e, i) && t[i].window == w {
        if i < n { assert IsRefused(front, e, i) && front[i].window == w; }
      }
    }
  }

  /** A retry that Google accepts marks every refused window reported, as stored, and bills it
      once, and changes nothing else. */
  lemma AcceptedRetry(cfg: Settings, b: Books, e: Entitlement, took: set<Window>)
    requires Sound(cfg, b)
    requires forall w :: w in took <==> exists i: nat :: IsRefused(b.table, e, i) && b.table[i].window == w
    ensures
      var after := Resend(b, e, Delivery(Answer([]), took), NoMishap);
      && |after.table| == |b.table| && b.charged <= after.charged
      && (forall i: nat :: i < |b.table| ==>
            after.table[i] == if IsRefused(b.table, e, i) then b.table[i].(status := Reported) else b.table[i])
      && (forall i: nat :: IsRefused(b.table, e, i) ==>
            Charge(b.table[i].window, b.table[i].quantity) in after.charged[|b.charged|..])
      && (forall k, l :: 0 <= k < l < |after.charged| ==> after.charged[k].window != after.charged[l].window)
      && (forall c :: c in after.charged[|b.charged|..] ==> c.window in took)
  {
    var ws, d := Resendable(b.table, e), Delivery(Answer([]), took);
    forall w ensures w in ws <==> w in took { ResentExactly(b.table, e, w); }
    TakeKeeps(cfg, b, Retry(e, d, NoMishap));
    if ws == [] {
      forall i: nat | i < |b.table| ensures !IsRefused(b.table, e, i) { ResentExactly(b.table, e, b.table[i].window); }
    } else {
      SentAsStored(b, e, ws, took);
    }
  }

  lemma SentAsStored(b: Books, e: Entitlement, ws: seq<Window>, took: set<Window>)
    requires Distinct(b.table) && ws == Resendable(b.table, e) && ws != [] && forall w :: w in ws <==> w in took
    ensures
      var after := Resend(b, e, Delivery(Answer([]), took), NoMishap);
      && |after.table| == |b.table| && b.charged <= after.charged
      && (forall i: nat :: i < |b.table| ==>
            after.table[i] == if IsRefused(b.table, e, i) then b.table[i].(status := Reported) else b.table[i])
      && (forall i: nat :: IsRefused(b.table, e, i) ==>
            Charge(b.table[i].window, b.table[i].quantity) in after.charged[|b.charged|..])
      && (forall c :: c in after.charged[|b.charged|..] ==> c.window in took)
  {
    var waiting := MarkAll(b.table, ws, Pending);
    var charges := Charges(waiting, ws, took);
    RetryAccepted(b, e, ws, took);
    assert (b.charged + charges)[|b.charged|..] == charges;
    ChargesAtMostOnceEach(waiting, ws, took);
    MarkAllAt(b.table, ws, Pending);
    MarkAllAt(waiting, ws, Reported);
    forall i: nat | i < |b.table|
      ensures b.table[i].window in ws <==> IsRefused(b.table, e, i)
      ensures IsRefused(b.table, e, i) ==> Charge(b.table[i].window, b.table[i].quantity) in charges
    {
      RefusedRow(b.table, e, i);
      if b.table[i].window in ws { WaitingRow(b.table, ws, took, i); }
    }
  }

  lemma RetryAccepted(b: Books, e: Entitlement, ws: seq<Window>, took: set<Window>)
    requires ws == Resendable(b.table, e) && ws != []
    ensures
      var waiting := MarkAll(b.table, ws, Pending);
      Resend(b, e, Delivery(Answer([]), took), NoMishap)
      == Books(MarkAll(waiting, ws, Reported), b.charged + Charges(waiting, ws, took))
  {
    NamingNone(ws);
  }

  lemma WaitingRow(t: Table, ws: seq<Window>, took: set<Window>, i: nat)
    requires Distinct(t) && i < |t| && t[i].window in ws && t[i].window in took
    ensures Charge(t[i].window, t[i].quantity) in Charges(MarkAll(t, ws, Pending), ws, took)
  {
    var waiting := MarkAll(t, ws, Pending);
    MarkAllAt(t, ws, Pending);
    FindAt(waiting, i);
    ChargeOfRow(waiting, ws, took, waiting[i]);
  }

  lemma RefusedRow(t: Table, e: Entitlement, i: nat)
    requires Distinct(t) && i < |t|
    ensures t[i].window in Resendable(t, e) <==> IsRefused(t, e, i)
  {
    ResentExactly(t, e, t[i].window);
    if j: nat :| IsRefused(t, e, j) && t[j].window == t[i].window {
      FindAt(t, i);
      FindAt(t, j);
    }
  }

  /** A retry cut short before it sends leaves the windows it got to waiting, and unbilled. */
  lemma RetryCutShort(b: Books, e: Entitlement, d: Delivery, m: Mishap, i: nat)
    requires Distinct(b.table) && i < |b.table| && (m.CollectRaises? || m.DiesCollecting?)
    ensures
      var after := Resend(b, e, d, m);
      var ws := Resendable(b.table, e);
      && after.charged == b.charged && |after.table| == |b.table|
      && after.table[i] == if b.table[i].window in (if m.after < |ws| then ws[..m.after] else ws)
                           then b.table[i].(status := Pending) else b.table[i]
  {
    var ws := Resendable(b.table, e);
    assert ws[..|ws|] == ws;
    MarkAllAt(b.table, ws[..Upto(m.after, |ws|)], Pending);
  }

  // -------------------------------------------------------------------------- settling

  lemma {:induction false} StillPendingExactly(t: Table, ws: seq<Window>, w: Window)
    ensures w in StillPending(t, ws) <==> w in ws && RowOf(t, w).Some? && RowOf(t, w).value.status == Pending
  {
    if |ws| > 0 {
      assert ws == ws[..|ws| - 1] + [ws[|ws| - 1]];
      StillPendingExactly(t, ws[..|ws| - 1], w);
    }
  }

  /** Settling gives exactly the chosen rows that wait the status chosen, and bills nothing. */
  lemma SettlesExactly(cfg: Settings, b: Books, ws: seq<Window>, billed: bool, i: nat)
    requires Distinct(b.table) && i < |b.table|
    ensures
      var after := Take(cfg, b, Settle(ws, billed));
      && after.charged == b.charged && |after.table| == |b.table|
      && after.table[i] == if b.table[i].window in ws && b.table[i].status == Pending
                           then b.table[i].(status := if billed then Reported else Failed) else b.table[i]
  {
    StillPendingExactly(b.table, ws, b.table[i].window);
    FindAt(b.table, i);
    MarkAllAt(b.table, StillPending(b.table, ws), if billed then Reported else Failed);
  }

  /** The reconciliation flags a month whose reported sum is not what its ledger shows above
      the allowance, in the units that go out. */
  lemma FlaggedExactly(cfg: Settings, t: Table, e: Entitlement, ledger: Ledger, metric: string, month: nat,
                       total: int, free: int)
    requires Shows(ledger, e, metric, month, total, free)
    ensures Discrepancy(cfg, t, e, ledger, metric, month)
            <==> ReportedIn(t, e.id, metric, month) != Rounded(cfg, metric, Above(total, free))
  {}
}

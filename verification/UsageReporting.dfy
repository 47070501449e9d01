/** The usage reporter, step by step on its table, proved against the functions of Billing. */
module UsageReporting {
  import opened Wrappers
  import opened Calendar
  import opened Checkpoints
  import opened Billing
  import opened BillingInvariant
  import opened BillingSteps
  import opened BillingMonths

  /** The operations a cut-short collection gets to. */
  function Limit(m: Mishap): Option<nat> {
    match m
    case CollectRaises(after) => Some(after)
    case DiesCollecting(after) => Some(after)
    case _ => None
  }

  function Reached(limit: Option<nat>, n: nat): nat {
    if limit.None? then n else Upto(limit.value, n)
  }

  /** How a call ends: with a count of windows, in an exception, or with the process. */
  datatype Ending = Returns(count: nat) | Raises | Dies

  /** The count is of the operations whose rows are marked reported. */
  function SendEnds(ops: seq<Window>, d: Delivery, m: Mishap): Ending {
    if m.DiesBeforeSend? || m.DiesAfterSend? then Dies
    else
      match d.reply
      case Answer(errors) =>
        if m.DiesBetweenMarks? then Dies
        else Returns(if Unattributed(errors) then 0 else |Naming(ops, errors, false)|)
      case _ => Raises
  }

  function ReportEnds(cfg: Settings, b: Books, e: Entitlement, now: nat, ledger: Ledger,
                      check: CheckReply, d: Delivery, m: Mishap): Ending
  {
    if e.consumer == "" || !e.planMapped then Returns(0)
    else if m.CollectRaises? then Raises
    else if m.DiesCollecting? then Dies
    else
      var ops := AddAll(cfg, b.table, e, ledger, Requests(b.table, e, cfg.dimensions, now)).operations;
      if ops == [] || check == CheckErrors then Returns(0)
      else if check == CheckRaises then Raises
      else SendEnds(ops, d, m)
  }

  function ResendEnds(b: Books, e: Entitlement, d: Delivery, m: Mishap): Ending {
    if m.CollectRaises? then Raises
    else if m.DiesCollecting? then Dies
    else if Resendable(b.table, e) == [] then Returns(0)
    else SendEnds(Resendable(b.table, e), d, m)
  }

  /** One cancelled entitlement's turn in the hourly retry. */
  datatype Turn = Turn(e: Entitlement, delivery: Delivery, mishap: Mishap)

  /** Where the hourly retry has got to: an exception costs its own turn, a death the rest. */
  datatype Sweep = Sweep(books: Books, resent: nat, failures: nat, alive: bool)

  function SweepOne(s: Sweep, t: Turn): Sweep {
    if !s.alive then s
    else
      var after := s.(books := Resend(s.books, t.e, t.delivery, t.mishap));
      match ResendEnds(s.books, t.e, t.delivery, t.mishap)
      case Returns(count) => after.(resent := s.resent + count)
      case Raises => after.(failures := s.failures + 1)
      case Dies => after.(alive := false)
  }

  function SweepAll(b: Books, turns: seq<Turn>): Sweep {
    if |turns| == 0 then Sweep(b, 0, 0, true)
    else SweepOne(SweepAll(b, turns[..|turns| - 1]), turns[|turns| - 1])
  }

  lemma AddWindowLeavesEnds(cfg: Settings, c: Collected, e: Entitlement, ledger: Ledger, r: Request, metric: string)
    ensures LastWindowEnd(AddWindow(cfg, c, e, ledger, r).table, e.id, metric) == LastWindowEnd(c.table, e.id, metric)
  {
    if AddWindow(cfg, c, e, ledger, r) != c {
      LastWindowEndPut(c.table, RowFor(cfg, c.table, e, ledger, r), e.id, metric);
    }
  }

  class UsageReporter {
    const cfg: Settings
    var table: Table
    ghost var charged: seq<Charge>

    ghost function Books(): Books
      reads this
    {
      Billing.Books(table, charged)
    }

    ghost predicate Valid()
      reads this
    {
      Sound(cfg, Books())
    }

    constructor (cfg: Settings)
      ensures Valid() && this.cfg == cfg && table == [] && charged == []
    {
      this.cfg := cfg;
      table := [];
      charged := [];
    }

    /** Nothing is queued where metering is missing or the window's row is not failed. */
    method AddWindow(e: Entitlement, ledger: Ledger, r: Request, operations: seq<Window>) returns (queued: seq<Window>)
      modifies this`table
      ensures Collected(table, queued) == Billing.AddWindow(cfg, Collected(old(table), operations), e, ledger, r)
    {
      queued := operations;
      var quantity := QuantityFor(table, e, r.metric, r.month, ledger);
      if quantity.None? {
        return;
      }
      var amount := quantity.value;
      if r.metric !in cfg.floats {
        amount := WholeUnits(amount);
      }
      var w := Window(e.id, r.metric, r.start);
      var existing := Find(table, w);
      if existing.Some? && table[existing.value].status == Pending {
        return;
      }
      if existing.Some? && table[existing.value].status == Reported {
        return;
      }
      table := Put(table, Checkpoint(w, r.end, amount, Pending));
      queued := operations + [w];
    }

    /** Build one operation per window, dimension by dimension, each window's start read
        off the table as it stands by then.  Stops early after `limit` windows. */
    method CollectOperations(e: Entitlement, now: nat, ledger: Ledger, limit: Option<nat>)
      returns (operations: seq<Window>)
      modifies this`table
      ensures
        var rs := Requests(old(table), e, cfg.dimensions, now);
        Collected(table, operations) == AddAll(cfg, old(table), e, ledger, rs[..Reached(limit, |rs|)])
    {
      operations := [];
      var added := 0;
      ghost var start, rs := table, [];
      for d := 0 to |cfg.dimensions|
        invariant rs == Requests(start, e, cfg.dimensions[..d], now)
        invariant added == Reached(limit, |rs|)
        invariant Collected(table, operations) == AddAll(cfg, start, e, ledger, rs[..added])
        invariant forall m :: LastWindowEnd(table, e.id, m) == LastWindowEnd(start, e.id, m)
      {
        assert cfg.dimensions[..d + 1][..d] == cfg.dimensions[..d];
        if cfg.dimensions[d] in e.metricIds {
          operations, added := CollectDimension(e, cfg.dimensions[d], now, ledger, operations, limit, added, start, rs);
        } else {
          assert rs + RequestsFor(start, e, cfg.dimensions[d], now) == rs;
        }
        rs := rs + RequestsFor(start, e, cfg.dimensions[d], now);
      }
      assert cfg.dimensions[..|cfg.dimensions|] == cfg.dimensions;
    }

    /** The first run of a month first closes the one before; then the month's own window. */
    method CollectDimension(e: Entitlement, metric: string, now: nat, ledger: Ledger, operations: seq<Window>,
                            limit: Option<nat>, added: nat, ghost start: Table, ghost rs: seq<Request>)
      returns (queued: seq<Window>, count: nat)
      requires metric in e.metricIds && added == Reached(limit, |rs|)
      requires Collected(table, operations) == AddAll(cfg, start, e, ledger, rs[..added])
      requires LastWindowEnd(table, e.id, metric) == LastWindowEnd(start, e.id, metric)
      modifies this`table
      ensures
        var rs' := rs + RequestsFor(start, e, metric, now);
        && count == Reached(limit, |rs'|)
        && Collected(table, queued) == AddAll(cfg, start, e, ledger, rs'[..count])
      ensures forall m :: LastWindowEnd(table, e.id, m) == LastWindowEnd(old(table), e.id, m)
    {
      queued, count := operations, added;
      var periodStart := MonthStart(MonthOf(now));
      var lastEnd := LastWindowEnd(table, e.id, metric);
      ghost var rs1 := rs + MonthClosing(start, e, metric, now);
      if lastEnd.Some? && lastEnd.value < periodStart {
        queued, count := AddUnlessStopped(e, ledger,
                                          Request(metric, lastEnd.value, periodStart, MonthOf(lastEnd.value)),
                                          queued, limit, count, start, rs);
      } else {
        assert rs1 == rs;
      }
      var windowStart := if lastEnd.None? || lastEnd.value < periodStart then periodStart else lastEnd.value;
      if windowStart < now {
        queued, count := AddUnlessStopped(e, ledger, Request(metric, windowStart, now, MonthOf(now)),
                                          queued, limit, count, start, rs1);
      } else {
        assert rs1 + CurrentWindow(start, e, metric, now) == rs1;
      }
      assert rs + RequestsFor(start, e, metric, now) == rs1 + CurrentWindow(start, e, metric, now);
    }

    method AddUnlessStopped(e: Entitlement, ledger: Ledger, r: Request, operations: seq<Window>,
                            limit: Option<nat>, added: nat, ghost start: Table, ghost rs: seq<Request>)
      returns (queued: seq<Window>, count: nat)
      requires added == Reached(limit, |rs|)
      requires Collected(table, operations) == AddAll(cfg, start, e, ledger, rs[..added])
      modifies this`table
      ensures count == Reached(limit, |rs| + 1)
      ensures Collected(table, queued) == AddAll(cfg, start, e, ledger, (rs + [r])[..count])
      ensures forall m :: LastWindowEnd(table, e.id, m) == LastWindowEnd(old(table), e.id, m)
    {
      if limit.Some? && added == limit.value {
        queued, count := operations, added;
        assert (rs + [r])[..count] == rs[..added];
      } else {
        assert rs[..added] == rs && (rs + [r])[..added + 1][..added] == rs;
        forall m {
          AddWindowLeavesEnds(cfg, Collected(table, operations), e, ledger, r, m);
        }
        queued := AddWindow(e, ledger, r, operations);
        count := added + 1;
      }
    }

    method Mark(ws: seq<Window>, status: Status)
      modifies this`table
      ensures table == MarkAll(old(table), ws, status)
    {
      for i := 0 to |ws|
        invariant table == MarkAll(old(table), ws[..i], status)
      {
        assert ws[..i + 1][..i] == ws[..i];
        var at := Find(table, ws[i]);
        if at.Some? {
          table := table[at.value := table[at.value].(status := status)];
        }
      }
      assert ws[..|ws|] == ws;
    }

    /** What Google's reply to the queued operations leaves in their rows.  `m` says where,
        if anywhere, the process dies. */
    method Send(operations: seq<Window>, checkErrors: bool, d: Delivery, m: Mishap) returns (ending: Ending)
      modifies this
      ensures checkErrors ==> table == MarkAll(old(table), operations, Failed) && charged == old(charged)
      ensures !checkErrors ==> Books() == Deliver(old(Books()), operations, d, m)
      ensures ending == if checkErrors then Returns(0) else SendEnds(operations, d, m)
    {
      if checkErrors {
        Mark(operations, Failed);
        return Returns(0);
      }
      if m.DiesBeforeSend? {
        return Dies;
      }
      charged := charged + Charges(table, operations, d.took);
      if m.DiesAfterSend? {
        return Dies;
      }
      match d.reply {
        case Answer(errors) =>
          Mark(Naming(operations, errors, true), Failed);
          if m.DiesBetweenMarks? {
            return Dies;
          }
          var rest := Naming(operations, errors, false);
          if !Unattributed(errors) {
            Mark(rest, Reported);
            ending := Returns(|rest|);
          } else {
            Mark(rest, Pending);
            ending := Returns(0);
          }
        case _ =>
          Mark(operations, if Definitive(d.reply) then Failed else Pending);
          ending := Raises;
      }
    }

    /** The operations once collected: checked, unless the check is skipped, and sent. */
    method CheckAndSend(operations: seq<Window>, skipCheck: bool, check: CheckReply, d: Delivery, m: Mishap)
      returns (ending: Ending)
      modifies this
      ensures skipCheck || check == Entitled ==> Books() == Deliver(old(Books()), operations, d, m)
      ensures !skipCheck && check != Entitled ==>
                table == MarkAll(old(table), operations, Failed) && charged == old(charged)
      ensures ending == if skipCheck || check == Entitled then SendEnds(operations, d, m)
                        else if check == CheckErrors then Returns(0) else Raises
    {
      if !skipCheck && check.CheckRaises? {
        Mark(operations, Failed);
        return Raises;
      }
      ending := Send(operations, !skipCheck && check.CheckErrors?, d, m);
    }

    method CollectAndSend(e: Entitlement, now: nat, skipCheck: bool, ledger: Ledger, check: CheckReply, d: Delivery,
                          m: Mishap)
      returns (ending: Ending)
      modifies this
      ensures
        var reply := if skipCheck then Entitled else check;
        && Books() == Report(cfg, old(Books()), e, now, ledger, reply, d, m)
        && ending == ReportEnds(cfg, old(Books()), e, now, ledger, reply, d, m)
    {
      if e.consumer == "" || !e.planMapped {
        return Returns(0);
      }
      ghost var rs := Requests(table, e, cfg.dimensions, now);
      assert rs[..|rs|] == rs;
      var operations := CollectOperations(e, now, ledger, Limit(m));
      if m.CollectRaises? {
        Mark(operations, Failed);
        return Raises;
      }
      if m.DiesCollecting? {
        return Dies;
      }
      if |operations| == 0 {
        return Returns(0);
      }
      ending := CheckAndSend(operations, skipCheck, check, d, m);
    }

    /** Collect, check and send the windows of one entitlement, up to `windowEnd` or the hour. */
    method ReportEntitlementUsage(e: Entitlement, clock: nat, skipCheck: bool, windowEnd: Option<nat>, ledger: Ledger,
                                  check: CheckReply, d: Delivery, m: Mishap) returns (ending: Ending)
      modifies this
      ensures
        var now := if windowEnd.Some? then windowEnd.value else FloorHour(clock);
        var reply := if skipCheck then Entitled else check;
        && Books() == Report(cfg, old(Books()), e, now, ledger, reply, d, m)
        && ending == ReportEnds(cfg, old(Books()), e, now, ledger, reply, d, m)
        && (old(Valid())
            && Truthful(d, AddAll(cfg, old(table), e, ledger, Requests(old(table), e, cfg.dimensions, now)).operations)
            ==> Valid())
    {
      var now := if windowEnd.Some? then windowEnd.value else FloorHour(clock);
      ghost var operations := AddAll(cfg, table, e, ledger, Requests(table, e, cfg.dimensions, now)).operations;
      if old(Valid()) && Truthful(d, operations) {
        ReportKeeps(cfg, Books(), e, now, ledger, if skipCheck then Entitled else check, d, m);
      }
      ending := CollectAndSend(e, now, skipCheck, ledger, check, d, m);
    }

    /** Bill the part-hour up to just before Google's own cancellation time, check skipped. */
    method ReportFinalWindow(e: Entitlement, clock: nat, ledger: Ledger, d: Delivery, m: Mishap)
      returns (ending: Ending)
      modifies this
      ensures Books() == Take(cfg, old(Books()), Final(e, clock, ledger, d, m))
      ensures ending == ReportEnds(cfg, old(Books()), e, FinalEnd(e, clock), ledger, Entitled, d, m)
      ensures old(Valid()) && Honest(cfg, old(Books()), Final(e, clock, ledger, d, m)) ==> Valid()
    {
      ending := ReportEntitlementUsage(e, clock, true, Some(FinalEnd(e, clock)), ledger, Entitled, d, m);
    }

    /** Put the refused windows an attempt gets to back to pending. */
    method TakeUp(ws: seq<Window>, limit: Option<nat>)
      modifies this`table
      ensures table == MarkAll(old(table), ws[..Reached(limit, |ws|)], Pending)
    {
      for i := 0 to Reached(limit, |ws|)
        invariant table == MarkAll(old(table), ws[..i], Pending)
      {
        assert ws[..i + 1][..i] == ws[..i];
        Mark([ws[i]], Pending);
      }
    }

    method TakeUpAndSend(e: Entitlement, d: Delivery, m: Mishap) returns (ending: Ending)
      modifies this
      ensures Books() == Resend(old(Books()), e, d, m)
      ensures ending == ResendEnds(old(Books()), e, d, m)
    {
      var ws := Resendable(table, e);
      TakeUp(ws, Limit(m));
      assert ws[..|ws|] == ws;
      if m.CollectRaises? {
        return Raises;
      }
      if m.DiesCollecting? {
        return Dies;
      }
      if |ws| == 0 {
        return Returns(0);
      }
      ending := Send(ws, false, d, m);
    }

    /** Send an entitlement's refused windows again with the quantities they were refused at. */
    method ResendCheckpoints(e: Entitlement, d: Delivery, m: Mishap) returns (ending: Ending)
      modifies this
      ensures Books() == Take(cfg, old(Books()), Retry(e, d, m))
      ensures ending == ResendEnds(old(Books()), e, d, m)
      ensures old(Valid()) && Honest(cfg, old(Books()), Retry(e, d, m)) ==> Valid()
    {
      if old(Valid()) && Honest(cfg, Books(), Retry(e, d, m)) {
        TakeKeeps(cfg, Books(), Retry(e, d, m));
      }
      ending := TakeUpAndSend(e, d, m);
    }

    /** The hourly pass over the cancelled entitlements that have a consumer id: one that
        raises is counted, and the others still have their turn. */
    method RetryFailedFinalWindows(turns: seq<Turn>) returns (resent: nat, failures: nat, alive: bool)
      modifies this
      ensures Sweep(Books(), resent, failures, alive) == SweepAll(old(Books()), turns)
    {
      resent, failures, alive := 0, 0, true;
      for i := 0 to |turns|
        invariant Sweep(Books(), resent, failures, alive) == SweepAll(old(Books()), turns[..i])
      {
        assert turns[..i + 1][..i] == turns[..i];
        if alive {
          var ending := ResendCheckpoints(turns[i].e, turns[i].delivery, turns[i].mishap);
          match ending {
            case Returns(count) => resent := resent + count;
            case Raises => failures := failures + 1;
            case Dies => alive := false;
          }
        }
      }
      assert turns[..|turns|] == turns;
    }

    /** A person settles pending windows; any other status is skipped and counted. */
    method Settle(ws: seq<Window>, billed: bool) returns (settled: nat, skipped: nat)
      modifies this`table
      ensures Books() == Take(cfg, old(Books()), Step.Settle(ws, billed))
      ensures settled == |StillPending(old(table), ws)| && settled + skipped == |ws|
      ensures old(Valid()) && Honest(cfg, old(Books()), Step.Settle(ws, billed)) ==> Valid()
    {
      if old(Valid()) && Honest(cfg, Books(), Step.Settle(ws, billed)) {
        TakeKeeps(cfg, Books(), Step.Settle(ws, billed));
      }
      var pending := StillPending(table, ws);
      StillPendingFits(table, ws);
      skipped := |ws| - |pending|;
      Mark(pending, if billed then Reported else Failed);
      settled := |pending|;
    }

    /** The dimensions whose reported sum for a month is not what the ledger says. */
    method ReconcileEntitlement(e: Entitlement, month: nat, ledger: Ledger) returns (discrepancies: seq<string>)
      ensures !e.planMapped ==> discrepancies == []
      ensures e.planMapped ==> forall d :: d in discrepancies
                                           <==> d in cfg.dimensions && Discrepancy(cfg, table, e, ledger, d, month)
    {
      discrepancies := [];
      if !e.planMapped {
        return;
      }
      for i := 0 to |cfg.dimensions|
        invariant forall d :: d in discrepancies
                              <==> d in cfg.dimensions[..i] && Discrepancy(cfg, table, e, ledger, d, month)
      {
        var dimension := cfg.dimensions[i];
        var billable := Billable(ledger, e, dimension, month);
        var total := if billable.Some? then billable.value else 0;
        if dimension !in cfg.floats {
          total := WholeUnits(total);
        }
        if total != ReportedIn(table, e.id, dimension, month) {
          discrepancies := discrepancies + [dimension];
        }
        assert cfg.dimensions[..i + 1] == cfg.dimensions[..i] + [dimension];
      }
    }
  }

  lemma {:induction false} StillPendingFits(t: Table, ws: seq<Window>)
    ensures |StillPending(t, ws)| <= |ws|
  {
    if |ws| > 0 { StillPendingFits(t, ws[..|ws| - 1]); }
  }
}

/** Every step of the billing machine keeps the invariant, so every run does. */
module BillingSteps {
  import opened Wrappers
  import opened Calendar
  import opened Checkpoints
  import opened Billing
  import opened BillingInvariant

  lemma FindMarkAll(t: Table, ws: seq<Window>, status: Status, w: Window)
    requires Distinct(t)
    ensures Find(MarkAll(t, ws, status), w) == Find(t, w)
  {
    MarkAllAt(t, ws, status);
    match Find(t, w)
    case None => assert forall i :: 0 <= i < |t| ==> MarkAll(t, ws, status)[i].window == t[i].window;
    case Some(i) => FindAt(MarkAll(t, ws, status), i);
  }

  lemma {:induction false} MarkAllKeeps(cfg: Settings, b: Books, ws: seq<Window>, status: Status)
    requires Sound(cfg, b)
    requires forall w :: w in ws ==> MayMark(b, w, status)
    ensures Sound(cfg, b.(table := MarkAll(b.table, ws, status)))
  {
    if |ws| == 0 {
      assert b.(table := b.table) == b;
    } else {
      var front, w := ws[..|ws| - 1], ws[|ws| - 1];
      MarkAllKeeps(cfg, b, front, status);
      MarkAllAt(b.table, front, status);
      FindMarkAll(b.table, front, status, w);
      assert MayMark(b, w, status);
      SetStatusKeeps(cfg, b.(table := MarkAll(b.table, front, status)), w, status);
    }
  }

  lemma MarkAllSum(t: Table, ws: seq<Window>, status: Status, e: nat, metric: string, month: nat)
    requires Distinct(t)
    ensures Sum(MarkAll(t, ws, status), InMonth(e, metric, month)) == Sum(t, InMonth(e, metric, month))
  {
    MarkAllAt(t, ws, status);
    SumAgrees(MarkAll(t, ws, status), t, InMonth(e, metric, month), InMonth(e, metric, month));
  }

  // ------------------------------------------------------------------- Google's part

  lemma ChargeKeeps(b: Books, c: Charge)
    requires Distinct(b.table) && Agreed(b)
    requires Find(b.table, c.window).Some? && b.table[Find(b.table, c.window).value].quantity == c.quantity
    requires b.table[Find(b.table, c.window).value].status == Pending && c.window !in BilledWindows(b.charged)
    ensures Agreed(b.(charged := b.charged + [c]))
    ensures BilledWindows(b.charged + [c]) == BilledWindows(b.charged) + {c.window}
  {
    var log := b.charged + [c];
    forall w ensures w in BilledWindows(log) <==> w in BilledWindows(b.charged) || w == c.window {
      BilledWindowsHas(b.charged, w);
      BilledWindowsHas(log, w);
      if w == c.window { assert log[|log| - 1].window == w; }
      if w in BilledWindows(b.charged) {
        var k :| 0 <= k < |b.charged| && b.charged[k].window == w;
        assert log[k].window == w;
      }
    }
    forall k, l | 0 <= k < l < |log| ensures log[k].window != log[l].window {
      BilledWindowsHas(b.charged, c.window);
    }
    forall i | 0 <= i < |b.table| && b.table[i].window == c.window ensures b.table[i].status == Pending {
      FindAt(b.table, i);
    }
  }

  lemma {:induction false} ChargesKeep(b: Books, ops: seq<Window>, took: set<Window>)
    requires Distinct(b.table) && Agreed(b) && Ready(b, ops)
    ensures Agreed(b.(charged := b.charged + Charges(b.table, ops, took)))
    ensures forall w :: w in BilledWindows(b.charged + Charges(b.table, ops, took))
                        <==> w in BilledWindows(b.charged) || (w in took && w in ops)
  {
    if |ops| == 0 {
      assert b.charged + [] == b.charged;
      assert b.(charged := b.charged) == b;
    } else {
      var front, w := ops[..|ops| - 1], ops[|ops| - 1];
      assert ops == front + [w];
      ReadyFront(b, ops);
      ChargesKeep(b, front, took);
      var sent := b.(charged := b.charged + Charges(b.table, front, took));
      if w in took {
        var c := Charge(w, b.table[Find(b.table, w).value].quantity);
        ChargeKeeps(sent, c);
        assert b.charged + Charges(b.table, ops, took) == sent.charged + [c];
      } else {
        assert b.charged + Charges(b.table, ops, took) == sent.charged;
      }
    }
  }

  lemma ReadyFront(b: Books, ops: seq<Window>)
    requires Ready(b, ops) && |ops| > 0
    ensures
      var front, w := ops[..|ops| - 1], ops[|ops| - 1];
      && Ready(b, front) && w !in front && w !in BilledWindows(b.charged)
      && Find(b.table, w).Some? && b.table[Find(b.table, w).value].status == Pending
  {
    assert ops[|ops| - 1] in ops;
  }

  /** Operations sent and not yet marked: their rows wait, and Google billed those it took. */
  ghost predicate Awaiting(b: Books, ops: seq<Window>, took: set<Window>) {
    forall w :: w in ops ==>
                  && Find(b.table, w).Some? && b.table[Find(b.table, w).value].status == Pending
                  && (w in BilledWindows(b.charged) <==> w in took)
  }

  /** The marks a truthful reply leads to are marks the invariant allows, however much later
      they are made. */
  lemma MarksAllowed(cfg: Settings, b: Books, ops: seq<Window>, d: Delivery, halfway: bool)
    requires Sound(cfg, b) && Awaiting(b, ops, d.took) && Truthful(d, ops)
    ensures Sound(cfg, b.(table := Marks(b.table, ops, d.reply, halfway)))
  {
    match d.reply
    case Answer(errors) =>
      var refused, rest := Naming(ops, errors, true), Naming(ops, errors, false);
      MarkAllKeeps(cfg, b, refused, Failed);
      var after := b.(table := MarkAll(b.table, refused, Failed));
      if !halfway {
        MarkAllAt(b.table, refused, Failed);
        forall w | w in rest
          ensures MayMark(after, w, if Unattributed(errors) then Pending else Reported)
        {
          FindMarkAll(b.table, refused, Failed, w);
        }
        MarkAllKeeps(cfg, after, rest, if Unattributed(errors) then Pending else Reported);
      }
    case _ => MarkAllKeeps(cfg, b, ops, if Definitive(d.reply) then Failed else Pending);
  }

  lemma MarksKeep(cfg: Settings, b: Books, sent: Books, ops: seq<Window>, d: Delivery, halfway: bool)
    requires Sound(cfg, b) && Ready(b, ops) && Truthful(d, ops)
    requires sent == b.(charged := b.charged + Charges(b.table, ops, d.took))
    ensures Sound(cfg, sent.(table := Marks(sent.table, ops, d.reply, halfway)))
  {
    ChargesKeep(b, ops, d.took);
    MarksAllowed(cfg, sent, ops, d, halfway);
  }

  lemma MarksSum(t: Table, ops: seq<Window>, reply: Reply, halfway: bool, e: nat, metric: string, month: nat)
    requires Distinct(t)
    ensures Sum(Marks(t, ops, reply, halfway), InMonth(e, metric, month)) == Sum(t, InMonth(e, metric, month))
  {
    match reply
    case Answer(errors) =>
      var refused, rest := Naming(ops, errors, true), Naming(ops, errors, false);
      MarkAllSum(t, refused, Failed, e, metric, month);
      MarkAllSum(MarkAll(t, refused, Failed), rest, if Unattributed(errors) then Pending else Reported,
                 e, metric, month);
    case _ => MarkAllSum(t, ops, if Definitive(reply) then Failed else Pending, e, metric, month);
  }

  lemma DeliverKeeps(cfg: Settings, b: Books, ops: seq<Window>, d: Delivery, m: Mishap)
    requires Sound(cfg, b) && Ready(b, ops) && Truthful(d, ops)
    ensures Sound(cfg, Deliver(b, ops, d, m))
    ensures forall e, metric, month, cap :: Covered(b.table, e, metric, month, cap)
                                            ==> Covered(Deliver(b, ops, d, m).table, e, metric, month, cap)
  {
    if m.DiesBeforeSend? {
    } else {
      var sent := b.(charged := b.charged + Charges(b.table, ops, d.took));
      ChargesKeep(b, ops, d.took);
      if !m.DiesAfterSend? {
        MarksKeep(cfg, b, sent, ops, d, m.DiesBetweenMarks?);
        forall e, metric, month, cap | Covered(b.table, e, metric, month, cap)
          ensures Covered(Deliver(b, ops, d, m).table, e, metric, month, cap)
        {
          MarksSum(sent.table, ops, d.reply, m.DiesBetweenMarks?, e, metric, month);
        }
      }
    }
  }

  // --------------------------------------------------------------------------- steps

  lemma ReportKeeps(cfg: Settings, b: Books, e: Entitlement, now: nat, ledger: Ledger,
                    check: CheckReply, d: Delivery, m: Mishap)
    requires Sound(cfg, b)
    requires Truthful(d, AddAll(cfg, b.table, e, ledger, Requests(b.table, e, cfg.dimensions, now)).operations)
    ensures Sound(cfg, Report(cfg, b, e, now, ledger, check, d, m))
  {
    if e.consumer != "" && e.planMapped {
      var rs := Requests(b.table, e, cfg.dimensions, now);
      RequestsPermitted(b.table, e, cfg.dimensions, now);
      match m
      case CollectRaises(after) =>
        var rs' := rs[..Upto(after, |rs|)];
        AddAllKeeps(cfg, b, e, ledger, rs');
        var c := AddAll(cfg, b.table, e, ledger, rs');
        MarkAllKeeps(cfg, b.(table := c.table), c.operations, Failed);
      case DiesCollecting(after) =>
        AddAllKeeps(cfg, b, e, ledger, rs[..Upto(after, |rs|)]);
      case _ =>
        AddAllKeeps(cfg, b, e, ledger, rs);
        var c := AddAll(cfg, b.table, e, ledger, rs);
        if |c.operations| == 0 {
        } else if check != Entitled {
          MarkAllKeeps(cfg, b.(table := c.table), c.operations, Failed);
        } else {
          DeliverKeeps(cfg, b.(table := c.table), c.operations, d, m);
        }
    }
  }

  lemma ReportCovers(cfg: Settings, b: Books, e: Entitlement, now: nat, ledger: Ledger,
                     check: CheckReply, d: Delivery, m: Mishap,
                     f: nat, metric: string, month: nat, cap: nat)
    requires Sound(cfg, b) && Covered(b.table, f, metric, month, cap)
    requires Truthful(d, AddAll(cfg, b.table, e, ledger, Requests(b.table, e, cfg.dimensions, now)).operations)
    requires e.id == f ==> Capped(ledger, e, metric, month, cap)
    ensures Covered(Report(cfg, b, e, now, ledger, check, d, m).table, f, metric, month, cap)
  {
    if e.consumer != "" && e.planMapped {
      var rs := Requests(b.table, e, cfg.dimensions, now);
      RequestsPermitted(b.table, e, cfg.dimensions, now);
      match m
      case CollectRaises(n) => CollectedCovers(cfg, b, e, ledger, rs[..Upto(n, |rs|)], f, metric, month, cap);
      case DiesCollecting(n) => CollectedCovers(cfg, b, e, ledger, rs[..Upto(n, |rs|)], f, metric, month, cap);
      case _ =>
        CollectedCovers(cfg, b, e, ledger, rs, f, metric, month, cap);
        var c := AddAll(cfg, b.table, e, ledger, rs);
        DeliverCovers(cfg, b.(table := c.table), c.operations, d, m, f, metric, month, cap);
    }
  }

  lemma DeliverCovers(cfg: Settings, b: Books, ops: seq<Window>, d: Delivery, m: Mishap, f: nat, metric: string,
                      month: nat, cap: nat)
    requires Sound(cfg, b) && Ready(b, ops) && Truthful(d, ops) && Covered(b.table, f, metric, month, cap)
    ensures Covered(Deliver(b, ops, d, m).table, f, metric, month, cap)
  {
    DeliverKeeps(cfg, b, ops, d, m);
  }

  lemma CollectedCovers(cfg: Settings, b: Books, e: Entitlement, ledger: Ledger, rs: seq<Request>,
                        f: nat, metric: string, month: nat, cap: nat)
    requires Sound(cfg, b) && Covered(b.table, f, metric, month, cap)
    requires forall r :: r in rs ==> Permitted(LastWindowEnd(b.table, e.id, r.metric), r)
    requires e.id == f ==> Capped(ledger, e, metric, month, cap)
    ensures
      var c := AddAll(cfg, b.table, e, ledger, rs);
      && Sound(cfg, b.(table := c.table)) && Ready(b.(table := c.table), c.operations)
      && Covered(c.table, f, metric, month, cap)
      && Covered(MarkAll(c.table, c.operations, Failed), f, metric, month, cap)
  {
    AddAllKeeps(cfg, b, e, ledger, rs);
    AddAllCovers(cfg, b, e, ledger, rs, f, metric, month, cap);
    var c := AddAll(cfg, b.table, e, ledger, rs);
    MarkAllSum(c.table, c.operations, Failed, f, metric, month);
  }

  lemma {:induction false} ResendableOnce(t: Table, e: Entitlement)
    requires Distinct(t)
    ensures forall i, j :: 0 <= i < j < |Resendable(t, e)| ==> Resendable(t, e)[i] != Resendable(t, e)[j]
  {
    if |t| > 0 {
      ResendableOnce(t[..|t| - 1], e);
      var front := Resendable(t[..|t| - 1], e);
      assert forall i :: 0 <= i < |t| - 1 ==> t[..|t| - 1][i] == t[i];
      assert t[|t| - 1].window !in front;
    }
  }

  lemma ResendReady(cfg: Settings, b: Books, e: Entitlement, ws: seq<Window>)
    requires Sound(cfg, b) && ws <= Resendable(b.table, e)
    ensures Sound(cfg, b.(table := MarkAll(b.table, ws, Pending)))
            && Ready(b.(table := MarkAll(b.table, ws, Pending)), ws)
  {
    ResendableOnce(b.table, e);
    forall w | w in ws
      ensures MayMark(b, w, Pending) && w !in BilledWindows(b.charged)
      ensures Find(MarkAll(b.table, ws, Pending), w).Some?
      ensures MarkAll(b.table, ws, Pending)[Find(MarkAll(b.table, ws, Pending), w).value].status == Pending
    {
      assert w in Resendable(b.table, e);
      var i :| 0 <= i < |b.table| && b.table[i].window == w && b.table[i].status == Failed;
      FindAt(b.table, i);
      FindMarkAll(b.table, ws, Pending, w);
      MarkAllAt(b.table, ws, Pending);
    }
    MarkAllKeeps(cfg, b, ws, Pending);
  }

  /** Every step keeps the invariant. */
  lemma TakeKeeps(cfg: Settings, b: Books, s: Step)
    requires Sound(cfg, b) && Honest(cfg, b, s)
    ensures Sound(cfg, Take(cfg, b, s))
  {
    match s
    case Hourly(e, clock, ledger, check, d, m) => ReportKeeps(cfg, b, e, FloorHour(clock), ledger, check, d, m);
    case Final(e, clock, ledger, d, m) => ReportKeeps(cfg, b, e, FinalEnd(e, clock), ledger, Entitled, d, m);
    case Retry(e, d, m) =>
      var ws := Resendable(b.table, e);
      var n := match m case CollectRaises(n) => Upto(n, |ws|) case DiesCollecting(n) => Upto(n, |ws|) case _ => |ws|;
      assert ws[..|ws|] == ws;
      ResendReady(cfg, b, e, ws[..n]);
      if |ws| > 0 && !m.CollectRaises? && !m.DiesCollecting? {
        DeliverKeeps(cfg, b.(table := MarkAll(b.table, ws, Pending)), ws, d, m);
      }
    case Settle(ws, billed) =>
      MarkAllKeeps(cfg, b, StillPending(b.table, ws), if billed then Reported else Failed);
  }

  /** The ledgers a step reads for one entitlement. */
  predicate StepCapped(s: Step, f: nat, metric: string, month: nat, cap: nat) {
    match s
    case Hourly(e, _, ledger, _, _, _) => e.id == f ==> Capped(ledger, e, metric, month, cap)
    case Final(e, _, ledger, _, _) => e.id == f ==> Capped(ledger, e, metric, month, cap)
    case _ => true
  }

  lemma TakeCovers(cfg: Settings, b: Books, s: Step, f: nat, metric: string, month: nat, cap: nat)
    requires Sound(cfg, b) && Honest(cfg, b, s) && Covered(b.table, f, metric, month, cap)
    requires StepCapped(s, f, metric, month, cap)
    ensures Covered(Take(cfg, b, s).table, f, metric, month, cap)
  {
    match s
    case Hourly(e, clock, ledger, check, d, m) =>
      ReportCovers(cfg, b, e, FloorHour(clock), ledger, check, d, m, f, metric, month, cap);
    case Final(e, clock, ledger, d, m) =>
      ReportCovers(cfg, b, e, FinalEnd(e, clock), ledger, Entitled, d, m, f, metric, month, cap);
    case Retry(e, d, m) =>
      var ws := Resendable(b.table, e);
      var n := match m case CollectRaises(n) => Upto(n, |ws|) case DiesCollecting(n) => Upto(n, |ws|) case _ => |ws|;
      assert ws[..|ws|] == ws;
      MarkAllSum(b.table, ws[..n], Pending, f, metric, month);
      ResendReady(cfg, b, e, ws[..n]);
      if |ws| > 0 && !m.CollectRaises? && !m.DiesCollecting? {
        DeliverKeeps(cfg, b.(table := MarkAll(b.table, ws, Pending)), ws, d, m);
      }
    case Settle(ws, billed) =>
      MarkAllSum(b.table, StillPending(b.table, ws), if billed then Reported else Failed, f, metric, month);
  }

  lemma {:induction false} RunKeeps(cfg: Settings, steps: seq<Step>)
    requires HonestRun(cfg, steps)
    ensures Sound(cfg, Run(cfg, steps))
  {
    if |steps| > 0 {
      var n := |steps| - 1;
      HonestPrefix(cfg, steps, n);
      RunKeeps(cfg, steps[..n]);
      TakeKeeps(cfg, Run(cfg, steps[..n]), steps[n]);
    }
  }

  lemma RunDistinct(cfg: Settings, steps: seq<Step>)
    requires HonestRun(cfg, steps)
    ensures Distinct(Run(cfg, steps).table)
  {
    RunKeeps(cfg, steps);
  }

  lemma HonestPrefix(cfg: Settings, steps: seq<Step>, n: nat)
    requires HonestRun(cfg, steps) && n <= |steps|
    ensures HonestRun(cfg, steps[..n])
  {
    forall i | 0 <= i < n ensures Honest(cfg, Run(cfg, steps[..n][..i]), steps[..n][i]) {
      assert steps[..n][..i] == steps[..i];
    }
  }

  lemma {:induction false} RunCovers(cfg: Settings, steps: seq<Step>, e: nat, metric: string, month: nat, cap: nat)
    requires HonestRun(cfg, steps)
    requires forall i :: 0 <= i < |steps| ==> StepCapped(steps[i], e, metric, month, cap)
    ensures Covered(Run(cfg, steps).table, e, metric, month, cap)
  {
    if |steps| > 0 {
      var n := |steps| - 1;
      HonestPrefix(cfg, steps, n);
      RunCovers(cfg, steps[..n], e, metric, month, cap);
      RunKeeps(cfg, steps[..n]);
      TakeCovers(cfg, Run(cfg, steps[..n]), steps[n], e, metric, month, cap);
    }
  }
}

/** What the counts a report and a resend return mean: the windows that have become reported. */
module UsageCounts {
  import opened Wrappers
  import opened Checkpoints
  import opened Billing
  import opened BillingInvariant
  import opened BillingSteps
  import opened BillingTheorems
  import opened BillingMonths
  import opened UsageReporting

  function ReportedRows(t: Table): nat {
    if |t| == 0 then 0 else ReportedRows(t[..|t| - 1]) + if t[|t| - 1].status == Reported then 1 else 0
  }

  /** Rows that are there and not reported, each named once. */
  ghost predicate Unreported(t: Table, ws: seq<Window>) {
    && (forall i, j :: 0 <= i < j < |ws| ==> ws[i] != ws[j])
    && (forall w :: w in ws ==> Find(t, w).Some? && t[Find(t, w).value].status != Reported)
  }

  lemma {:induction false} CountUpdate(t: Table, i: nat, c: Checkpoint)
    requires i < |t| && t[i].status != Reported
    ensures ReportedRows(t[i := c]) == ReportedRows(t) + if c.status == Reported then 1 else 0
  {
    var n := |t| - 1;
    if i < n {
      assert t[i := c][..n] == t[..n][i := c];
      CountUpdate(t[..n], i, c);
    } else {
      assert t[i := c][..n] == t[..n];
    }
  }

  lemma {:induction false} CountMarked(t: Table, ws: seq<Window>, status: Status)
    requires Distinct(t) && Unreported(t, ws)
    ensures ReportedRows(MarkAll(t, ws, status)) == ReportedRows(t) + if status == Reported then |ws| else 0
  {
    if |ws| > 0 {
      var front, w := ws[..|ws| - 1], ws[|ws| - 1];
      assert ws == front + [w] && w !in front;
      CountMarked(t, front, status);
      FindMarkAll(t, front, status, w);
      MarkAllAt(t, front, status);
      var i := Find(t, w).value;
      CountUpdate(MarkAll(t, front, status), i, MarkAll(t, front, status)[i].(status := status));
    }
  }

  lemma CountPut(t: Table, c: Checkpoint)
    requires c.status == Pending && !Blocked(t, c.window)
    ensures ReportedRows(Put(t, c)) == ReportedRows(t)
  {
    match Find(t, c.window)
    case None => assert (t + [c])[..|t|] == t;
    case Some(i) => CountUpdate(t, i, c);
  }

  lemma {:induction false} CountCollected(cfg: Settings, t: Table, e: Entitlement, ledger: Ledger, rs: seq<Request>)
    ensures ReportedRows(AddAll(cfg, t, e, ledger, rs).table) == ReportedRows(t)
  {
    if |rs| > 0 {
      var c := AddAll(cfg, t, e, ledger, rs[..|rs| - 1]);
      CountCollected(cfg, t, e, ledger, rs[..|rs| - 1]);
      if AddWindow(cfg, c, e, ledger, rs[|rs| - 1]) != c {
        CountPut(c.table, RowFor(cfg, c.table, e, ledger, rs[|rs| - 1]));
      }
    }
  }

  lemma {:induction false} NamingOnce(ops: seq<Window>, errors: seq<Option<Window>>, named: bool)
    requires forall i, j :: 0 <= i < j < |ops| ==> ops[i] != ops[j]
    ensures
      var r := Naming(ops, errors, named);
      forall i, j :: 0 <= i < j < |r| ==> r[i] != r[j]
  {
    if |ops| > 0 {
      var front := ops[..|ops| - 1];
      NamingOnce(front, errors, named);
      assert ops[|ops| - 1] !in front;
      assert ops[|ops| - 1] !in Naming(front, errors, named);
    }
  }

  lemma NamedUnreported(t: Table, ops: seq<Window>, errors: seq<Option<Window>>, named: bool)
    requires Unreported(t, ops)
    ensures Unreported(t, Naming(ops, errors, named))
  {
    NamingOnce(ops, errors, named);
  }

  lemma StillUnreported(t: Table, refused: seq<Window>, rest: seq<Window>)
    requires Distinct(t) && Unreported(t, rest)
    ensures Unreported(MarkAll(t, refused, Failed), rest)
  {
    forall w | w in rest
      ensures Find(MarkAll(t, refused, Failed), w).Some?
      ensures MarkAll(t, refused, Failed)[Find(MarkAll(t, refused, Failed), w).value].status != Reported
    {
      FindMarkAll(t, refused, Failed, w);
      MarkAllAt(t, refused, Failed);
    }
  }

  lemma CountAnswered(t: Table, ops: seq<Window>, errors: seq<Option<Window>>, halfway: bool)
    requires Distinct(t) && Unreported(t, ops)
    ensures ReportedRows(Marks(t, ops, Answer(errors), halfway))
            == ReportedRows(t) + if halfway || None in errors then 0 else |Naming(ops, errors, false)|
  {
    var refused, rest := Naming(ops, errors, true), Naming(ops, errors, false);
    NamedUnreported(t, ops, errors, true);
    NamedUnreported(t, ops, errors, false);
    CountMarked(t, refused, Failed);
    StillUnreported(t, refused, rest);
    CountMarked(MarkAll(t, refused, Failed), rest, if Unattributed(errors) then Pending else Reported);
  }

  function Counted(ending: Ending): nat {
    match ending case Returns(count) => count case _ => 0
  }

  /** A send counts the rows it has made reported; one that raises or dies has made none. */
  lemma SendCounts(b: Books, ops: seq<Window>, d: Delivery, m: Mishap)
    requires Distinct(b.table) && Unreported(b.table, ops)
    ensures ReportedRows(Deliver(b, ops, d, m).table) == ReportedRows(b.table) + Counted(SendEnds(ops, d, m))
  {
    if !m.DiesBeforeSend? && !m.DiesAfterSend? {
      match d.reply
      case Answer(errors) => CountAnswered(b.table, ops, errors, m.DiesBetweenMarks?);
      case _ => CountMarked(b.table, ops, if Definitive(d.reply) then Failed else Pending);
    }
  }

  /** How a send ends: in an exception if the call fails, with the process if it dies. */
  lemma SendEndsHow(ops: seq<Window>, d: Delivery, m: Mishap)
    ensures SendEnds(ops, d, m) == Dies
            <==> m.DiesBeforeSend? || m.DiesAfterSend? || (m.DiesBetweenMarks? && d.reply.Answer?)
    ensures SendEnds(ops, d, m) == Raises <==> !m.DiesBeforeSend? && !m.DiesAfterSend? && !d.reply.Answer?
  {}

  lemma ReadyIsUnreported(b: Books, ops: seq<Window>)
    requires Ready(b, ops)
    ensures Unreported(b.table, ops)
  {}

  lemma CollectedCounts(cfg: Settings, b: Books, e: Entitlement, now: nat, ledger: Ledger, n: nat)
    requires Sound(cfg, b) && n <= |Requests(b.table, e, cfg.dimensions, now)|
    ensures
      var c := AddAll(cfg, b.table, e, ledger, Requests(b.table, e, cfg.dimensions, now)[..n]);
      && Distinct(c.table) && Unreported(c.table, c.operations)
      && ReportedRows(c.table) == ReportedRows(b.table)
      && ReportedRows(MarkAll(c.table, c.operations, Failed)) == ReportedRows(b.table)
  {
    var rs := Requests(b.table, e, cfg.dimensions, now)[..n];
    RequestsPermitted(b.table, e, cfg.dimensions, now);
    AddAllKeeps(cfg, b, e, ledger, rs);
    CountCollected(cfg, b.table, e, ledger, rs);
    var c := AddAll(cfg, b.table, e, ledger, rs);
    ReadyIsUnreported(b.(table := c.table), c.operations);
    CountMarked(c.table, c.operations, Failed);
  }

  lemma UncutCounts(b: Books, c: Collected, check: CheckReply, d: Delivery, m: Mishap, end: Books, ending: Ending)
    requires Distinct(c.table) && Unreported(c.table, c.operations) && ReportedRows(c.table) == ReportedRows(b.table)
    requires ReportedRows(MarkAll(c.table, c.operations, Failed)) == ReportedRows(b.table)
    requires end == if |c.operations| == 0 then b.(table := c.table)
                    else if check != Entitled then b.(table := MarkAll(c.table, c.operations, Failed))
                    else Deliver(b.(table := c.table), c.operations, d, m)
    requires ending == if c.operations == [] || check == CheckErrors then Returns(0)
                       else if check == CheckRaises then Raises else SendEnds(c.operations, d, m)
    ensures ReportedRows(end.table) == ReportedRows(b.table) + Counted(ending)
  {
    SendCounts(b.(table := c.table), c.operations, d, m);
  }

  /** A report counts the rows it has made reported, whatever becomes of it. */
  lemma ReportCounts(cfg: Settings, b: Books, e: Entitlement, now: nat, ledger: Ledger, check: CheckReply,
                     d: Delivery, m: Mishap)
    requires Sound(cfg, b)
    ensures ReportedRows(Report(cfg, b, e, now, ledger, check, d, m).table)
            == ReportedRows(b.table) + Counted(ReportEnds(cfg, b, e, now, ledger, check, d, m))
  {
    if e.consumer != "" && e.planMapped {
      var all := Requests(b.table, e, cfg.dimensions, now);
      match m
      case CollectRaises(n) => CollectedCounts(cfg, b, e, now, ledger, Upto(n, |all|));
      case DiesCollecting(n) => CollectedCounts(cfg, b, e, now, ledger, Upto(n, |all|));
      case _ =>
        CollectedCounts(cfg, b, e, now, ledger, |all|);
        assert all[..|all|] == all;
        UncutCounts(b, AddAll(cfg, b.table, e, ledger, all), check, d, m, Report(cfg, b, e, now, ledger, check, d, m),
                    ReportEnds(cfg, b, e, now, ledger, check, d, m));
    }
  }

  /** How a report ends, by what it came to. */
  lemma ReportEndsHow(cfg: Settings, b: Books, e: Entitlement, now: nat, ledger: Ledger, check: CheckReply,
                      d: Delivery, m: Mishap)
    ensures
      var ending := ReportEnds(cfg, b, e, now, ledger, check, d, m);
      var able := e.consumer != "" && e.planMapped;
      var queues := AddAll(cfg, b.table, e, ledger, Requests(b.table, e, cfg.dimensions, now)).operations != [];
      var sends := able && !m.CollectRaises? && !m.DiesCollecting? && queues && check == Entitled;
      && (ending == Raises
          <==> || (able && m.CollectRaises?)
               || (able && !m.CollectRaises? && !m.DiesCollecting? && queues && check == CheckRaises)
               || (sends && !m.DiesBeforeSend? && !m.DiesAfterSend? && !d.reply.Answer?))
      && (ending == Dies
          <==> || (able && m.DiesCollecting?)
               || (sends && (m.DiesBeforeSend? || m.DiesAfterSend? || (m.DiesBetweenMarks? && d.reply.Answer?))))
  {}

  lemma ResendReadies(cfg: Settings, b: Books, e: Entitlement, n: nat)
    requires Sound(cfg, b) && n <= |Resendable(b.table, e)|
    ensures
      var ws := Resendable(b.table, e)[..n];
      && Ready(b.(table := MarkAll(b.table, ws, Pending)), ws)
      && ReportedRows(MarkAll(b.table, ws, Pending)) == ReportedRows(b.table)
  {
    var ws := Resendable(b.table, e)[..n];
    ResendReady(cfg, b, e, ws);
    ResendableOnce(b.table, e);
    forall w | w in ws ensures Find(b.table, w).Some? && b.table[Find(b.table, w).value].status != Reported {
      assert w in Resendable(b.table, e);
      ResendableIsFailed(b, e, w);
    }
    CountMarked(b.table, ws, Pending);
  }

  /** A resend counts the windows it has made reported. */
  lemma ResendCounts(cfg: Settings, b: Books, e: Entitlement, d: Delivery, m: Mishap)
    requires Sound(cfg, b)
    ensures ReportedRows(Resend(b, e, d, m).table) == ReportedRows(b.table) + Counted(ResendEnds(b, e, d, m))
  {
    var ws := Resendable(b.table, e);
    var n := match m case CollectRaises(n) => Upto(n, |ws|) case DiesCollecting(n) => Upto(n, |ws|) case _ => |ws|;
    ResendReadies(cfg, b, e, n);
    assert ws[..|ws|] == ws;
    if !m.CollectRaises? && !m.DiesCollecting? {
      ReadyIsUnreported(b.(table := MarkAll(b.table, ws, Pending)), ws);
      SendCounts(b.(table := MarkAll(b.table, ws, Pending)), ws, d, m);
    }
  }

  /** How a resend ends. */
  lemma ResendEndsHow(b: Books, e: Entitlement, d: Delivery, m: Mishap)
    ensures
      var sends := !m.CollectRaises? && !m.DiesCollecting? && Resendable(b.table, e) != [];
      && (ResendEnds(b, e, d, m) == Raises
          <==> m.CollectRaises? || (sends && !m.DiesBeforeSend? && !m.DiesAfterSend? && !d.reply.Answer?))
      && (ResendEnds(b, e, d, m) == Dies
          <==> || m.DiesCollecting?
               || (sends && (m.DiesBeforeSend? || m.DiesAfterSend? || (m.DiesBetweenMarks? && d.reply.Answer?))))
  {}

  ghost predicate HonestSweep(cfg: Settings, b: Books, turns: seq<Turn>) {
    forall i :: 0 <= i < |turns| && SweepAll(b, turns[..i]).alive ==>
                  Truthful(turns[i].delivery, Resendable(SweepAll(b, turns[..i]).books.table, turns[i].e))
  }

  /** How many of the turns taken raised. */
  function Raised(b: Books, turns: seq<Turn>): nat {
    if |turns| == 0 then 0
    else
      var n := |turns| - 1;
      var s := SweepAll(b, turns[..n]);
      Raised(b, turns[..n])
      + if s.alive && ResendEnds(s.books, turns[n].e, turns[n].delivery, turns[n].mishap) == Raises then 1 else 0
  }

  lemma HonestFront(cfg: Settings, b: Books, turns: seq<Turn>)
    requires HonestSweep(cfg, b, turns) && |turns| > 0
    ensures HonestSweep(cfg, b, turns[..|turns| - 1])
  {
    var front := turns[..|turns| - 1];
    forall i | 0 <= i < |front| && SweepAll(b, front[..i]).alive
      ensures Truthful(front[i].delivery, Resendable(SweepAll(b, front[..i]).books.table, front[i].e))
    {
      assert front[..i] == turns[..i];
    }
  }

  lemma TurnCounts(cfg: Settings, s: Sweep, t: Turn)
    requires Sound(cfg, s.books) && (s.alive ==> Truthful(t.delivery, Resendable(s.books.table, t.e)))
    ensures
      var s' := SweepOne(s, t);
      && Sound(cfg, s'.books)
      && ReportedRows(s'.books.table) - s'.resent == ReportedRows(s.books.table) - s.resent
  {
    if s.alive {
      ResendCounts(cfg, s.books, t.e, t.delivery, t.mishap);
      TakeKeeps(cfg, s.books, Retry(t.e, t.delivery, t.mishap));
    }
  }

  /** The hourly retry counts, over all entitlements, the windows it has made reported and the
      turns that raised. */
  lemma {:induction false} SweepCounts(cfg: Settings, b: Books, turns: seq<Turn>)
    requires Sound(cfg, b) && HonestSweep(cfg, b, turns)
    ensures
      var s := SweepAll(b, turns);
      && Sound(cfg, s.books) && ReportedRows(s.books.table) == ReportedRows(b.table) + s.resent
      && s.failures == Raised(b, turns)
  {
    if |turns| > 0 {
      var n := |turns| - 1;
      HonestFront(cfg, b, turns);
      SweepCounts(cfg, b, turns[..n]);
      TurnCounts(cfg, SweepAll(b, turns[..n]), turns[n]);
    }
  }

  /** A turn that raises stops no other, and a death stops all that follow. */
  lemma TurnLives(s: Sweep, t: Turn)
    ensures !s.alive ==> SweepOne(s, t) == s
    ensures s.alive ==> (SweepOne(s, t).alive <==> ResendEnds(s.books, t.e, t.delivery, t.mishap) != Dies)
    ensures s.alive ==> SweepOne(s, t).books == Resend(s.books, t.e, t.delivery, t.mishap)
  {}
}

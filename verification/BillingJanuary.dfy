/** One customer's first weeks, step by step: windows that an hourly run does not send again. */
module BillingJanuary {
  import opened Wrappers
  import opened Calendar
  import opened Checkpoints
  import opened Billing
  import opened BillingInvariant
  import opened BillingTheorems
  import opened BillingMonths
  import opened BillingResends

  // One such case: the first hour of January 2000 is reported, nothing more until one
  // hour into February.

  const JanuarySettings := Settings(["storage"], {"storage"})
  const JanuaryCustomer := Entitlement(1, "project_number:1", true, map["storage" := "payg_storage"], map[], None)
  const JanuaryLedger := Ledger(true, map[("storage", 0) := 30, ("storage", 1) := 5])
  const JanuaryBooks :=
    Books([Checkpoint(Window(1, "storage", 0), 3600, 10, Reported)], [Charge(Window(1, "storage", 0), 10)])

  lemma JanuarySound()
    ensures Sound(JanuarySettings, JanuaryBooks) && LastWindowEnd(JanuaryBooks.table, 1, "storage") == Some(3600)
  {
    FirstMonths();
    var t := JanuaryBooks.table;
    assert LastWindowEnd(t[..0], 1, "storage") == None;
    BilledWindowsHas(JanuaryBooks.charged, Window(1, "storage", 0));
    FindAt(t, 0);
    assert Orderly(t);
    assert Agreed(JanuaryBooks);
  }

  /** The refused window is not sent by the run an hour later. */
  lemma JanuaryLeftBehind()
    ensures
      var closing := Window(1, "storage", 3600);
      var next := Report(JanuarySettings, JanuaryBooks, JanuaryCustomer, 2682000, JanuaryLedger, Entitled,
                         Delivery(Answer([Some(closing)]), {Window(1, "storage", 2678400)}), NoMishap).table;
      && RowOf(next, closing).Some? && RowOf(next, closing).value.status == Failed
      && closing !in AddAll(JanuarySettings, next, JanuaryCustomer, JanuaryLedger,
                            Requests(next, JanuaryCustomer, JanuarySettings.dimensions, 2685600)).operations
  {
    var closing := Window(1, "storage", 3600);
    JanuarySound();
    FirstMonths();
    RefusedClosingIsLeftBehind(JanuarySettings, JanuaryBooks, JanuaryCustomer, 2682000, JanuaryLedger,
                               {Window(1, "storage", 2678400)}, "storage", 3600);
    var next := Report(JanuarySettings, JanuaryBooks, JanuaryCustomer, 2682000, JanuaryLedger, Entitled,
                       Delivery(Answer([Some(closing)]), {Window(1, "storage", 2678400)}), NoMishap).table;
    NotAskedBefore(JanuarySettings, next, JanuaryCustomer, "storage", 3600, 2685600, JanuaryLedger);
  }

  lemma FirstMonths()
    ensures MonthStart(1) == 2678400 && MonthOf(0) == 0 && MonthOf(3600) == 0
    ensures MonthOf(2678400) == 1 && MonthOf(2682000) == 1 && MonthOf(2685600) == 1
  {
    assert DaysIn(0) == 31 && MonthStart(0) == 0;
    assert MonthStart(1) == MonthStart(0) + SECONDS_PER_DAY * DaysIn(0);
    assert MonthStart(2) == MonthStart(1) + SECONDS_PER_DAY * DaysIn(1);
    MonthUnique(0, 0);
    MonthUnique(0, 3600);
    MonthUnique(1, 2678400);
    MonthUnique(1, 2682000);
    MonthUnique(1, 2685600);
  }

  // ---------------------------------------- the same window, lost and settled by hand

  const FirstWindow := Window(1, "storage", 0)
  const ClosingWindow := Window(1, "storage", 3600)
  const FebruaryWindow := Window(1, "storage", 2678400)

  /** The first hour is accepted; the run at five past midnight on 1 February gets no answer
      for the window that closes January; the one an hour later is accepted; and a person,
      finding the January window was not billed, settles it so. */
  const FirstHour := Hourly(JanuaryCustomer, 3900, Ledger(true, map[("storage", 0) := 10]), Entitled,
                            Delivery(Answer([]), {FirstWindow}), NoMishap)
  const Midnight := Hourly(JanuaryCustomer, 2678700, JanuaryLedger, Entitled, Delivery(NoAnswer, {}), NoMishap)
  const HourLater := Hourly(JanuaryCustomer, 2682300, JanuaryLedger, Entitled,
                            Delivery(Answer([]), {FebruaryWindow}), NoMishap)
  const NextHour := Hourly(JanuaryCustomer, 2685900, JanuaryLedger, Entitled, Delivery(NoAnswer, {}), NoMishap)
  const ByHand := Settle([ClosingWindow], false)

  const ToMidnight := [FirstHour] + [Midnight]
  const ToHourLater := ToMidnight + [HourLater]
  const ToByHand := ToHourLater + [ByHand]

  const FirstRow := Checkpoint(FirstWindow, 3600, 10, Reported)
  const FebruaryRow := Checkpoint(FebruaryWindow, 2682000, 5, Reported)

  const AfterMidnight := Books([FirstRow, Checkpoint(ClosingWindow, 2678400, 20, Pending)], [Charge(FirstWindow, 10)])
  const AfterHourLater :=
    Books(AfterMidnight.table + [FebruaryRow], [Charge(FirstWindow, 10), Charge(FebruaryWindow, 5)])
  const AfterByHand :=
    Books([FirstRow, Checkpoint(ClosingWindow, 2678400, 20, Failed), FebruaryRow], AfterHourLater.charged)

  lemma OneDimension(t: Table, e: Entitlement, now: nat)
    ensures Requests(t, e, ["storage"], now) == RequestsFor(t, e, "storage", now)
  {
    assert ["storage"][..0] == [];
    assert Requests(t, e, [], now) == [];
  }

  lemma AddOne(t: Table, e: Entitlement, ledger: Ledger, r: Request)
    ensures AddAll(JanuarySettings, t, e, ledger, [r]) == AddWindow(JanuarySettings, Collected(t, []), e, ledger, r)
  {
    assert [r][..0] == [];
    assert AddAll(JanuarySettings, t, e, ledger, []) == Collected(t, []);
  }

  lemma AddTwo(t: Table, e: Entitlement, ledger: Ledger, r: Request, s: Request)
    ensures AddAll(JanuarySettings, t, e, ledger, [r, s])
            == AddWindow(JanuarySettings, AddWindow(JanuarySettings, Collected(t, []), e, ledger, r), e, ledger, s)
  {
    assert [r, s][..1] == [r];
    AddOne(t, e, ledger, r);
  }

  lemma MarkOne(t: Table, w: Window, status: Status)
    ensures MarkAll(t, [w], status) == SetStatus(t, w, status)
  {
    assert [w][..0] == [];
    assert MarkAll(t, [], status) == t;
  }

  /** An accepted run of one operation. */
  lemma AcceptedOne(t: Table, w: Window)
    requires Find(t, w).Some?
    ensures Truthful(Delivery(Answer([]), {w}), [w])
    ensures Marks(t, [w], Answer([]), false) == SetStatus(t, w, Reported)
    ensures Charges(t, [w], {w}) == [Charge(w, t[Find(t, w).value].quantity)]
  {
    assert [w][..0] == [];
    assert Naming([], [], true) == [] && Naming([], [], false) == [];
    assert Naming([w], [], true) == [] && Naming([w], [], false) == [w];
    MarkOne(t, w, Reported);
    assert MarkAll(t, [], Failed) == t;
    assert Charges(t, [], {w}) == [];
  }

  /** An hourly run that queues one operation, accepted or left without an answer. */
  lemma HourlyOfOne(b: Books, clock: nat, ledger: Ledger, t: Table, w: Window)
    requires
      var now := FloorHour(clock);
      AddAll(JanuarySettings, b.table, JanuaryCustomer, ledger, Requests(b.table, JanuaryCustomer, ["storage"], now))
      == Collected(t, [w])
    requires Find(t, w).Some?
    ensures
      var s := Hourly(JanuaryCustomer, clock, ledger, Entitled, Delivery(Answer([]), {w}), NoMishap);
      && Honest(JanuarySettings, b, s)
      && Take(JanuarySettings, b, s)
         == Books(SetStatus(t, w, Reported), b.charged + [Charge(w, t[Find(t, w).value].quantity)])
    ensures
      var s := Hourly(JanuaryCustomer, clock, ledger, Entitled, Delivery(NoAnswer, {}), NoMishap);
      && Honest(JanuarySettings, b, s)
      && Take(JanuarySettings, b, s) == Books(SetStatus(t, w, Pending), b.charged)
  {
    AcceptedOne(t, w);
    MarkOne(t, w, Pending);
    assert [w][..0] == [];
    assert Charges(t, [], {}) == [] && Charges(t, [w], {}) == [];
    assert b.charged + [] == b.charged;
  }

  lemma FirstHourCollects()
    ensures AddAll(JanuarySettings, [], JanuaryCustomer, FirstHour.ledger,
                   Requests([], JanuaryCustomer, ["storage"], 3600))
            == Collected([FirstRow.(status := Pending)], [FirstWindow])
  {
    FirstMonths();
    OneDimension([], JanuaryCustomer, 3600);
    var r := Request("storage", 0, 3600, 0);
    assert RequestsFor([], JanuaryCustomer, "storage", 3600) == [r];
    AddOne([], JanuaryCustomer, FirstHour.ledger, r);
  }

  lemma TakeFirstHour()
    ensures Honest(JanuarySettings, Books([], []), FirstHour)
    ensures Take(JanuarySettings, Books([], []), FirstHour) == JanuaryBooks
  {
    assert FloorHour(3900) == 3600;
    FirstHourCollects();
    HourlyOfOne(Books([], []), 3900, FirstHour.ledger, [FirstRow.(status := Pending)], FirstWindow);
    assert [] + [Charge(FirstWindow, 10)] == [Charge(FirstWindow, 10)];
  }

  lemma JanuarySums()
    ensures LastWindowEnd([FirstRow], 1, "storage") == Some(3600)
    ensures AlreadyReported([FirstRow], 1, "storage", 0) == 10
  {
    assert [FirstRow][..0] == [];
    assert LastWindowEnd([], 1, "storage") == None;
    assert Sum([], ReportedSince(1, "storage", 0)) == 0;
  }

  lemma MidnightCollects()
    ensures AddAll(JanuarySettings, [FirstRow], JanuaryCustomer, JanuaryLedger,
                   Requests([FirstRow], JanuaryCustomer, ["storage"], 2678400))
            == Collected(AfterMidnight.table, [ClosingWindow])
  {
    FirstMonths();
    JanuarySums();
    OneDimension([FirstRow], JanuaryCustomer, 2678400);
    var r := Request("storage", 3600, 2678400, 0);
    assert RequestsFor([FirstRow], JanuaryCustomer, "storage", 2678400) == [r];
    AddOne([FirstRow], JanuaryCustomer, JanuaryLedger, r);
    ClosingIsDue();
  }

  lemma ClosingIsDue()
    ensures QuantityFor([FirstRow], JanuaryCustomer, "storage", 0, JanuaryLedger) == Some(20)
    ensures Find([FirstRow], ClosingWindow) == None
  {
    JanuarySums();
    assert [FirstRow][..0] == [];
  }

  lemma TakeMidnight()
    ensures Honest(JanuarySettings, JanuaryBooks, Midnight)
    ensures Take(JanuarySettings, JanuaryBooks, Midnight) == AfterMidnight
  {
    var t := AfterMidnight.table;
    assert FloorHour(2678700) == 2678400;
    MidnightCollects();
    FebruarySums();
    HourlyOfOne(JanuaryBooks, 2678700, JanuaryLedger, t, ClosingWindow);
    assert SetStatus(t, ClosingWindow, Pending) == t;
  }

  lemma FebruarySums()
    ensures LastWindowEnd(AfterMidnight.table, 1, "storage") == Some(3600)
    ensures AlreadyReported(AfterMidnight.table, 1, "storage", 2678400) == 0
    ensures Find(AfterMidnight.table, ClosingWindow) == Some(1) && Find(AfterMidnight.table, FebruaryWindow) == None
  {
    var t := AfterMidnight.table;
    assert t[..1] == [FirstRow] && [FirstRow][..0] == [];
    JanuarySums();
    assert Sum([FirstRow], ReportedSince(1, "storage", 2678400)) == 0;
  }

  lemma HourLaterCollects()
    ensures AddAll(JanuarySettings, AfterMidnight.table, JanuaryCustomer, JanuaryLedger,
                   Requests(AfterMidnight.table, JanuaryCustomer, ["storage"], 2682000))
            == Collected(AfterMidnight.table + [FebruaryRow.(status := Pending)], [FebruaryWindow])
  {
    var t := AfterMidnight.table;
    FirstMonths();
    FebruarySums();
    OneDimension(t, JanuaryCustomer, 2682000);
    var r, r' := Request("storage", 3600, 2678400, 0), Request("storage", 2678400, 2682000, 1);
    assert RequestsFor(t, JanuaryCustomer, "storage", 2682000) == [r, r'];
    AddTwo(t, JanuaryCustomer, JanuaryLedger, r, r');
    assert AddWindow(JanuarySettings, Collected(t, []), JanuaryCustomer, JanuaryLedger, r) == Collected(t, []);
    assert QuantityFor(t, JanuaryCustomer, "storage", 1, JanuaryLedger) == Some(5);
  }

  lemma TakeHourLater()
    ensures Honest(JanuarySettings, AfterMidnight, HourLater)
    ensures Take(JanuarySettings, AfterMidnight, HourLater) == AfterHourLater
  {
    var t := AfterMidnight.table + [FebruaryRow.(status := Pending)];
    assert FloorHour(2682300) == 2682000;
    HourLaterCollects();
    FebruarySums();
    assert t[..2] == AfterMidnight.table;
    assert Find(t, FebruaryWindow) == Some(2);
    HourlyOfOne(AfterMidnight, 2682300, JanuaryLedger, t, FebruaryWindow);
    FebruaryMarked(t);
  }

  lemma FebruaryMarked(t: Table)
    requires t == AfterMidnight.table + [FebruaryRow.(status := Pending)] && Find(t, FebruaryWindow) == Some(2)
    ensures SetStatus(t, FebruaryWindow, Reported) == AfterHourLater.table
    ensures AfterMidnight.charged + [Charge(FebruaryWindow, t[2].quantity)] == AfterHourLater.charged
  {}

  lemma SettleOne(b: Books, w: Window)
    requires Find(b.table, w).Some? && b.table[Find(b.table, w).value].status == Pending
             && w !in BilledWindows(b.charged)
    ensures Honest(JanuarySettings, b, Settle([w], false))
    ensures Take(JanuarySettings, b, Settle([w], false)) == Books(SetStatus(b.table, w, Failed), b.charged)
  {
    assert [w][..0] == [];
    assert StillPending(b.table, []) == [] && StillPending(b.table, [w]) == [w];
    MarkOne(b.table, w, Failed);
  }

  lemma HourLaterRows()
    ensures
      var t := AfterHourLater.table;
      Find(t, ClosingWindow) == Some(1) && SetStatus(t, ClosingWindow, Failed) == AfterByHand.table
  {
    assert AfterHourLater.table[..2] == AfterMidnight.table;
    FebruarySums();
  }

  lemma TakeByHand()
    ensures Honest(JanuarySettings, AfterHourLater, ByHand)
    ensures Take(JanuarySettings, AfterHourLater, ByHand) == AfterByHand
  {
    HourLaterRows();
    BilledWindowsHas(AfterHourLater.charged, ClosingWindow);
    SettleOne(AfterHourLater, ClosingWindow);
  }

  /** An honest run from empty books that ends with these. */
  ghost predicate Leads(steps: seq<Step>, b: Books) {
    HonestRun(JanuarySettings, steps) && Run(JanuarySettings, steps) == b
  }

  lemma LeadsOn(steps: seq<Step>, b: Books, s: Step, b': Books)
    requires Leads(steps, b) && Honest(JanuarySettings, b, s) && Take(JanuarySettings, b, s) == b'
    ensures Leads(steps + [s], b')
  {
    var all := steps + [s];
    assert all[..|steps|] == steps;
    forall i | 0 <= i < |all| ensures Honest(JanuarySettings, Run(JanuarySettings, all[..i]), all[i]) {
      if i < |steps| { assert all[..i] == steps[..i]; }
    }
  }

  lemma LeadsToMidnight()
    ensures Leads(ToMidnight, AfterMidnight)
  {
    FirstHourLeads();
    TakeMidnight();
    LeadsOn([FirstHour], JanuaryBooks, Midnight, AfterMidnight);
  }

  lemma FirstHourLeads()
    ensures Leads([FirstHour], JanuaryBooks)
  {
    assert Leads([], Books([], []));
    TakeFirstHour();
    LeadsOn([], Books([], []), FirstHour, JanuaryBooks);
    assert [] + [FirstHour] == [FirstHour];
  }

  /** Had the run at five past midnight been accepted, it would have closed January in full,
      and begun nothing of February. */
  lemma MidnightWouldClose()
    ensures
      var after := AcceptedReport(JanuarySettings, JanuaryBooks, JanuaryCustomer, FloorHour(Midnight.clock),
                                  JanuaryLedger, {ClosingWindow}).table;
      ReportedIn(after, 1, "storage", 0) == 30 && ReportedIn(after, 1, "storage", 1) == 0
  {
    FirstMonths();
    FirstHourLeads();
    JanuarySound();
    assert FloorHour(2678700) == 2678400;
    assert [FirstHour][0] == FirstHour;
    assert Find(JanuaryBooks.table, ClosingWindow) == None;
    MonthCloses(JanuarySettings, [FirstHour], JanuaryCustomer, "storage", 2678400, JanuaryLedger,
                {ClosingWindow}, 3600);
    NewMonthStartsApart(JanuarySettings, [FirstHour], JanuaryCustomer, "storage", 2678400, JanuaryLedger,
                        {ClosingWindow});
  }

  lemma LeadsToHourLater()
    ensures Leads(ToHourLater, AfterHourLater)
  {
    LeadsToMidnight();
    TakeHourLater();
    LeadsOn(ToMidnight, AfterMidnight, HourLater, AfterHourLater);
  }

  lemma LeadsToByHand()
    ensures Leads(ToByHand, AfterByHand)
  {
    LeadsToHourLater();
    TakeByHand();
    LeadsOn(ToHourLater, AfterHourLater, ByHand, AfterByHand);
  }

  /** Settled as not billed, the January window is not sent by the next hourly run, nor by any
      hourly or final report after it. */
  lemma JanuarySettledByHand(more: seq<Step>, s: Step)
    requires HonestRun(JanuarySettings, ToByHand + more)
    requires s.Hourly? || s.Final?
    ensures HonestRun(JanuarySettings, ToByHand)
    ensures
      var b := Run(JanuarySettings, ToByHand);
      && RowOf(b.table, ClosingWindow) == Some(Checkpoint(ClosingWindow, 2678400, 20, Failed))
      && ClosingWindow !in Operations(JanuarySettings, b, NextHour)
    ensures !Reaches(JanuarySettings, Run(JanuarySettings, ToByHand + more), s, ClosingWindow)
  {
    LeadsToByHand();
    ByHandRows();
    NextHourLeavesIt();
    assert (ToByHand + more)[..|ToByHand|] == ToByHand;
    LeftBehindForGood(JanuarySettings, ToByHand + more, |ToByHand|, ClosingWindow, s);
  }

  lemma NextHourLeavesIt()
    ensures ClosingWindow !in Operations(JanuarySettings, AfterByHand, NextHour)
  {
    ByHandRows();
    assert FloorHour(2685900) == 2685600;
    NotAskedBefore(JanuarySettings, AfterByHand.table, JanuaryCustomer, "storage", 3600, 2685600, JanuaryLedger);
  }

  lemma ByHandRows()
    ensures Distinct(AfterByHand.table) && LastWindowEnd(AfterByHand.table, 1, "storage") == Some(2682000)
    ensures RowOf(AfterByHand.table, ClosingWindow) == Some(Checkpoint(ClosingWindow, 2678400, 20, Failed))
  {
    var t := AfterByHand.table;
    assert t[..2] == [FirstRow, t[1]] && t[..2][..1] == [FirstRow] && [FirstRow][..0] == [];
    JanuarySums();
  }
}

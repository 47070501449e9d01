/** The invariant of the checkpoint table and of Google's charge log, kept by every step. */
module BillingInvariant {
  import opened Wrappers
  import opened Calendar
  import opened Checkpoints
  import opened Billing

  predicate Shaped(c: Checkpoint) {
    && c.window.start < c.end
    && (MonthOf(c.end) == MonthOf(c.window.start) || c.end == MonthStart(MonthOf(c.end)))
  }

  predicate SameMonth(c: Checkpoint, d: Checkpoint) {
    Same(d, c.window.entitlement, c.window.metric) && MonthOf(c.window.start) == MonthOf(d.window.start)
  }

  predicate Apart(c: Checkpoint, d: Checkpoint) {
    c.end <= d.window.start || d.end <= c.window.start
  }

  /** Where a window that is not reported may start, given where reporting has got to:
      at that point, at a later month's first instant, or in a month already left behind. */
  predicate Placed(last: Option<nat>, start: nat) {
    match last
    case None => start == MonthStart(MonthOf(start))
    case Some(l) =>
      || start == l
      || (l < start && start == MonthStart(MonthOf(start)))
      || MonthOf(start) < MonthOf(l)
  }

  ghost predicate Orderly(t: Table) {
    && Distinct(t)
    && (forall i :: 0 <= i < |t| ==> Shaped(t[i]))
    && (forall i :: 0 <= i < |t| && t[i].status != Reported ==>
                      Placed(LastWindowEnd(t, t[i].window.entitlement, t[i].window.metric), t[i].window.start))
    && (forall i, j :: 0 <= i < |t| && 0 <= j < |t| && i != j && SameMonth(t[i], t[j]) ==>
                         Apart(t[i], t[j]) && (t[i].status == Reported || t[j].status == Reported))
  }

  /** The table and Google's log agree: each window is billed at most once, for what its
      row says; a reported row was billed and a failed one was not. */
  ghost predicate Agreed(b: Books) {
    && (forall k, l :: 0 <= k < l < |b.charged| ==> b.charged[k].window != b.charged[l].window)
    && (forall k :: 0 <= k < |b.charged| ==>
                      var at := Find(b.table, b.charged[k].window);
                      at.Some? && b.table[at.value].quantity == b.charged[k].quantity)
    && (forall i :: 0 <= i < |b.table| && b.table[i].status == Reported ==>
                      b.table[i].window in BilledWindows(b.charged))
    && (forall i :: 0 <= i < |b.table| && b.table[i].status == Failed ==>
                      b.table[i].window !in BilledWindows(b.charged))
  }

  ghost predicate Whole(cfg: Settings, t: Table) {
    forall i :: 0 <= i < |t| && t[i].window.metric !in cfg.floats ==> t[i].quantity % UNIT == 0
  }

  ghost predicate Sound(cfg: Settings, b: Books) {
    Orderly(b.table) && Agreed(b) && Whole(cfg, b.table)
  }

  // ------------------------------------------------------------- one window written

  /** A window a run may ask for, given where reporting has got to. */
  predicate Permitted(last: Option<nat>, r: Request) {
    && r.start < r.end
    && r.month == MonthOf(r.start)
    && (MonthOf(r.end) == r.month || r.end == MonthStart(MonthOf(r.end)))
    && match last
       case None => r.start == MonthStart(r.month)
       case Some(l) => r.start == l || (l < r.start && r.start == MonthStart(r.month))
  }

  lemma RequestsForPermitted(t: Table, e: Entitlement, metric: string, now: nat)
    ensures forall r :: r in RequestsFor(t, e, metric, now) ==>
                          r.metric == metric && metric in e.metricIds && Permitted(LastWindowEnd(t, e.id, metric), r)
  {
    var first := MonthStart(MonthOf(now));
    MonthOfStart(MonthOf(now));
    if CurrentStart(t, e, metric, now) < now {
      MonthUnique(MonthOf(now), CurrentStart(t, e, metric, now));
    }
    forall r | r in RequestsFor(t, e, metric, now)
      ensures r.metric == metric && metric in e.metricIds && Permitted(LastWindowEnd(t, e.id, metric), r)
    {
      assert r in MonthClosing(t, e, metric, now) || r in CurrentWindow(t, e, metric, now);
    }
  }

  lemma {:induction false} RequestsPermitted(t: Table, e: Entitlement, dims: seq<string>, now: nat)
    ensures forall r :: r in Requests(t, e, dims, now) ==>
                          r.metric in e.metricIds && Permitted(LastWindowEnd(t, e.id, r.metric), r)
  {
    if |dims| > 0 {
      RequestsPermitted(t, e, dims[..|dims| - 1], now);
      RequestsForPermitted(t, e, dims[|dims| - 1], now);
    }
  }

  /** Rows that are not reported do not move the last window end. */
  lemma {:induction false} LastWindowEndPut(t: Table, c: Checkpoint, e: nat, metric: string)
    requires c.status != Reported
    requires Find(t, c.window).Some? ==> t[Find(t, c.window).value].status != Reported
    ensures LastWindowEnd(Put(t, c), e, metric) == LastWindowEnd(t, e, metric)
  {
    match Find(t, c.window)
    case None => assert (t + [c])[..|t|] == t;
    case Some(i) => LastWindowEndUpdate(t, i, c, e, metric);
  }

  lemma {:induction false} LastWindowEndUpdate(t: Table, i: nat, c: Checkpoint, e: nat, metric: string)
    requires i < |t| && c.status != Reported && t[i].status != Reported
    ensures LastWindowEnd(t[i := c], e, metric) == LastWindowEnd(t, e, metric)
  {
    var n := |t| - 1;
    if i < n {
      assert t[i := c][..n] == t[..n][i := c];
      LastWindowEndUpdate(t[..n], i, c, e, metric);
    } else {
      assert t[i := c][..n] == t[..n];
    }
  }

  /** Every other row of the month a permitted window falls in is reported and ends
      before it starts; and the window's own row, if it has one, is not reported. */
  lemma PermittedAgainst(t: Table, e: nat, r: Request, i: nat)
    requires Orderly(t) && i < |t| && Permitted(LastWindowEnd(t, e, r.metric), r)
    requires Same(t[i], e, r.metric) && MonthOf(t[i].window.start) == r.month
    ensures t[i].status == Reported ==> t[i].end <= r.start
    ensures t[i].status != Reported ==> t[i].window == Window(e, r.metric, r.start)
  {
    assert Shaped(t[i]);
    LastWindowEndIsGreatest(t, e, r.metric);
    var last := LastWindowEnd(t, e, r.metric);
    if t[i].status != Reported {
      assert Placed(last, t[i].window.start);
      if last.Some? && last.value < r.start {
        MonthOfMonotone(last.value, r.start);
      }
    }
  }

  lemma PutKeepsOrder(t: Table, e: nat, r: Request, c: Checkpoint)
    requires Orderly(t) && Permitted(LastWindowEnd(t, e, r.metric), r)
    requires c.window == Window(e, r.metric, r.start) && c.end == r.end && c.status == Pending
    ensures Orderly(Put(t, c))
    ensures forall f, m :: LastWindowEnd(Put(t, c), f, m) == LastWindowEnd(t, f, m)
  {
    var t' := Put(t, c);
    var at := Find(t, c.window);
    if at.Some? { PermittedAgainst(t, e, r, at.value); }
    forall f, m ensures LastWindowEnd(t', f, m) == LastWindowEnd(t, f, m) {
      LastWindowEndPut(t, c, f, m);
    }
    forall i, j | 0 <= i < |t'| && 0 <= j < |t'| && i != j && SameMonth(t'[i], t'[j])
      ensures Apart(t'[i], t'[j]) && (t'[i].status == Reported || t'[j].status == Reported)
    {
      if t'[i].window == c.window {
        if t'[j].window != c.window { PermittedAgainst(t, e, r, j); }
      } else if t'[j].window == c.window {
        PermittedAgainst(t, e, r, i);
      }
    }
  }

  // -------------------------------------------------------------- sums of one month

  ghost predicate Covered(t: Table, e: nat, metric: string, month: nat, cap: nat) {
    Sum(t, InMonth(e, metric, month)) <= cap
  }

  lemma MonthIsReportedAt(t: Table, e: nat, r: Request, i: nat)
    requires Orderly(t) && Permitted(LastWindowEnd(t, e, r.metric), r) && i < |t|
    ensures
      var all, reported := InMonth(e, r.metric, r.month), ReportedSince(e, r.metric, MonthStart(r.month));
      if t[i].window == Window(e, r.metric, r.start)
      then all.Weight(t[i]) == t[i].quantity && reported.Weight(t[i]) == 0
      else all.Weight(t[i]) == reported.Weight(t[i])
  {
    assert Shaped(t[i]);
    if Same(t[i], e, r.metric) {
      if MonthOf(t[i].window.start) == r.month {
        PermittedAgainst(t, e, r, i);
      } else if t[i].status == Reported && MonthStart(r.month) <= t[i].window.start {
        LastWindowEndIsGreatest(t, e, r.metric);
        MonthUnique(r.month, t[i].window.start);
      }
    }
  }

  /** Apart from the window being written, a month holds exactly what is already reported. */
  lemma MonthIsReported(t: Table, e: nat, r: Request)
    requires Orderly(t) && Permitted(LastWindowEnd(t, e, r.metric), r)
    ensures
      var at := Find(t, Window(e, r.metric, r.start));
      var all := Sum(t, InMonth(e, r.metric, r.month));
      var reported := AlreadyReported(t, e, r.metric, MonthStart(r.month));
      all == reported + if at.Some? then t[at.value].quantity else 0
  {
    var all, reported := InMonth(e, r.metric, r.month), ReportedSince(e, r.metric, MonthStart(r.month));
    forall i | 0 <= i < |t|
      ensures t[i].window != Window(e, r.metric, r.start) ==> all.Weight(t[i]) == reported.Weight(t[i])
    {
      MonthIsReportedAt(t, e, r, i);
    }
    SumApart(t, Window(e, r.metric, r.start), all, reported);
    var at := Find(t, Window(e, r.metric, r.start));
    if at.Some? { MonthIsReportedAt(t, e, r, at.value); }
  }

  /** Two sums that agree on all rows but one differ by that row's weights. */
  lemma SumApart(t: Table, w: Window, s: Selector, s': Selector)
    requires Distinct(t)
    requires forall i :: 0 <= i < |t| && t[i].window != w ==> s.Weight(t[i]) == s'.Weight(t[i])
    ensures
      match Find(t, w)
      case None => Sum(t, s) == Sum(t, s')
      case Some(i) => Sum(t, s) - s.Weight(t[i]) == Sum(t, s') - s'.Weight(t[i])
  {
    match Find(t, w)
    case None => SumAgrees(t, t, s, s');
    case Some(i) =>
      var z := t[i].(quantity := 0);
      SumUpdate(t, i, z, s);
      SumUpdate(t, i, z, s');
      SumAgrees(t[i := z], t[i := z], s, s');
  }

  lemma PutSum(t: Table, c: Checkpoint, s: Selector)
    ensures Sum(Put(t, c), s) == Sum(t, s) + s.Weight(c)
                                 - if Find(t, c.window).Some? then s.Weight(t[Find(t, c.window).value]) else 0
  {
    match Find(t, c.window)
    case None => SumAppend(t, c, s);
    case Some(i) => SumUpdate(t, i, c, s);
  }

  // ------------------------------------------------------------------ adding windows

  /** Operations queued by a run: their rows wait for an outcome and were never billed. */
  ghost predicate Ready(b: Books, ops: seq<Window>) {
    && (forall i, j :: 0 <= i < j < |ops| ==> ops[i] != ops[j])
    && (forall w :: w in ops ==>
                      && Find(b.table, w).Some?
                      && b.table[Find(b.table, w).value].status == Pending
                      && w !in BilledWindows(b.charged))
  }

  lemma FindPut(t: Table, c: Checkpoint, w: Window)
    requires Distinct(t)
    ensures w != c.window && Find(t, w).Some? ==> Find(Put(t, c), w) == Find(t, w)
    ensures w != c.window ==> (Find(Put(t, c), w).Some? <==> Find(t, w).Some?)
    ensures Find(Put(t, c), c.window).Some? && Put(t, c)[Find(Put(t, c), c.window).value] == c
  {
    var t' := Put(t, c);
    match Find(t, c.window)
    case None => FindAt(t', |t|);
    case Some(i) => FindAt(t', i);
    if Find(t, w).Some? && w != c.window {
      FindAt(t', Find(t, w).value);
    }
  }

  /** The billable totals a step reads for one metric and month stay within a cap. */
  predicate Capped(ledger: Ledger, e: Entitlement, metric: string, month: nat, cap: nat) {
    Billable(ledger, e, metric, month).Some? ==> Billable(ledger, e, metric, month).value <= cap
  }

  lemma BilledWindowsHas(log: seq<Charge>, w: Window)
    ensures w in BilledWindows(log) <==> exists k :: 0 <= k < |log| && log[k].window == w
  {
    if exists k :: 0 <= k < |log| && log[k].window == w {
      var k :| 0 <= k < |log| && log[k].window == w;
      assert log[k] in log;
    }
  }

  lemma PutKeepsAgreed(b: Books, c: Checkpoint)
    requires Distinct(b.table) && Agreed(b) && c.status == Pending && c.window !in BilledWindows(b.charged)
    ensures Agreed(b.(table := Put(b.table, c)))
  {
    var t' := Put(b.table, c);
    forall k | 0 <= k < |b.charged|
      ensures Find(t', b.charged[k].window).Some?
      ensures t'[Find(t', b.charged[k].window).value].quantity == b.charged[k].quantity
    {
      BilledWindowsHas(b.charged, b.charged[k].window);
      FindPut(b.table, c, b.charged[k].window);
    }
    forall i | 0 <= i < |t'| && t'[i].window != c.window
      ensures i < |b.table| && t'[i] == b.table[i]
    {}
  }

  lemma Unbilled(b: Books, w: Window)
    requires Agreed(b)
    requires Find(b.table, w).Some? ==> b.table[Find(b.table, w).value].status == Failed
    ensures w !in BilledWindows(b.charged)
  {
    BilledWindowsHas(b.charged, w);
  }

  lemma PutKeepsReady(b: Books, c: Checkpoint, ops: seq<Window>)
    requires Distinct(b.table) && Ready(b, ops)
    requires c.status == Pending && c.window !in BilledWindows(b.charged)
    requires Find(b.table, c.window).Some? ==> b.table[Find(b.table, c.window).value].status == Failed
    ensures Ready(b.(table := Put(b.table, c)), ops + [c.window])
  {
    var t' := Put(b.table, c);
    var ops' := ops + [c.window];
    assert c.window !in ops;
    forall v | v in ops'
      ensures Find(t', v).Some? && t'[Find(t', v).value].status == Pending && v !in BilledWindows(b.charged)
    {
      FindPut(b.table, c, v);
    }
  }

  /** The row one request writes, if it writes one. */
  function RowFor(cfg: Settings, t: Table, e: Entitlement, ledger: Ledger, r: Request): Checkpoint
    requires QuantityFor(t, e, r.metric, r.month, ledger).Some?
  {
    Checkpoint(Window(e.id, r.metric, r.start), r.end,
               Rounded(cfg, r.metric, QuantityFor(t, e, r.metric, r.month, ledger).value), Pending)
  }

  lemma RoundedIsWhole(cfg: Settings, metric: string, q: nat)
    ensures Rounded(cfg, metric, q) <= q
    ensures metric !in cfg.floats ==> Rounded(cfg, metric, q) % UNIT == 0
  {
    assert WholeUnits(q) == UNIT * (q / UNIT);
  }

  lemma PutKeepsWhole(cfg: Settings, t: Table, c: Checkpoint)
    requires Whole(cfg, t) && (c.window.metric !in cfg.floats ==> c.quantity % UNIT == 0)
    ensures Whole(cfg, Put(t, c))
  {}

  /** A permitted window whose row is absent or failed can be written. */
  lemma PutRowKeeps(cfg: Settings, b: Books, ops: seq<Window>, e: nat, r: Request, row: Checkpoint)
    requires Sound(cfg, b) && Ready(b, ops) && Permitted(LastWindowEnd(b.table, e, r.metric), r)
    requires row.window == Window(e, r.metric, r.start) && row.end == r.end && row.status == Pending
    requires row.window.metric !in cfg.floats ==> row.quantity % UNIT == 0
    requires Find(b.table, row.window).Some? ==> b.table[Find(b.table, row.window).value].status == Failed
    ensures Sound(cfg, b.(table := Put(b.table, row))) && Ready(b.(table := Put(b.table, row)), ops + [row.window])
    ensures forall f, m :: LastWindowEnd(Put(b.table, row), f, m) == LastWindowEnd(b.table, f, m)
  {
    Unbilled(b, row.window);
    PutKeepsOrder(b.table, e, r, row);
    PutKeepsAgreed(b, row);
    PutKeepsReady(b, row, ops);
    PutKeepsWhole(cfg, b.table, row);
  }

  /** One window asked for keeps the invariant, and leaves the last window ends where they were. */
  lemma AddWindowKeeps(cfg: Settings, b: Books, ops: seq<Window>, e: Entitlement, ledger: Ledger, r: Request)
    requires Sound(cfg, b) && Ready(b, ops)
    requires Permitted(LastWindowEnd(b.table, e.id, r.metric), r)
    ensures
      var c := AddWindow(cfg, Collected(b.table, ops), e, ledger, r);
      && Sound(cfg, b.(table := c.table)) && Ready(b.(table := c.table), c.operations)
      && (forall f, m :: LastWindowEnd(c.table, f, m) == LastWindowEnd(b.table, f, m))
  {
    var c := AddWindow(cfg, Collected(b.table, ops), e, ledger, r);
    if c == Collected(b.table, ops) {
      assert b.(table := c.table) == b;
    } else {
      RoundedIsWhole(cfg, r.metric, QuantityFor(b.table, e, r.metric, r.month, ledger).value);
      PutRowKeeps(cfg, b, ops, e.id, r, RowFor(cfg, b.table, e, ledger, r));
    }
  }

  lemma AddWindowCovers(cfg: Settings, c: Collected, e: Entitlement, ledger: Ledger, r: Request,
                        f: nat, metric: string, month: nat, cap: nat)
    requires Orderly(c.table) && Permitted(LastWindowEnd(c.table, e.id, r.metric), r)
    requires Covered(c.table, f, metric, month, cap)
    requires e.id == f ==> Capped(ledger, e, metric, month, cap)
    ensures Covered(AddWindow(cfg, c, e, ledger, r).table, f, metric, month, cap)
  {
    if AddWindow(cfg, c, e, ledger, r) != c {
      var row := RowFor(cfg, c.table, e, ledger, r);
      PutSum(c.table, row, InMonth(f, metric, month));
      MonthIsReported(c.table, e.id, r);
    }
  }

  lemma {:induction false} AddAllKeeps(cfg: Settings, b: Books, e: Entitlement, ledger: Ledger, rs: seq<Request>)
    requires Sound(cfg, b)
    requires forall r :: r in rs ==> Permitted(LastWindowEnd(b.table, e.id, r.metric), r)
    ensures
      var c := AddAll(cfg, b.table, e, ledger, rs);
      && Sound(cfg, b.(table := c.table)) && Ready(b.(table := c.table), c.operations)
      && (forall f, m :: LastWindowEnd(c.table, f, m) == LastWindowEnd(b.table, f, m))
  {
    if |rs| == 0 {
      assert b.(table := b.table) == b;
    } else {
      var front := rs[..|rs| - 1];
      AddAllKeeps(cfg, b, e, ledger, front);
      var c := AddAll(cfg, b.table, e, ledger, front);
      AddWindowKeeps(cfg, b.(table := c.table), c.operations, e, ledger, rs[|rs| - 1]);
    }
  }

  lemma {:induction false} AddAllCovers(cfg: Settings, b: Books, e: Entitlement, ledger: Ledger, rs: seq<Request>,
                                        f: nat, metric: string, month: nat, cap: nat)
    requires Sound(cfg, b)
    requires forall r :: r in rs ==> Permitted(LastWindowEnd(b.table, e.id, r.metric), r)
    requires Covered(b.table, f, metric, month, cap)
    requires e.id == f ==> Capped(ledger, e, metric, month, cap)
    ensures Covered(AddAll(cfg, b.table, e, ledger, rs).table, f, metric, month, cap)
  {
    if |rs| > 0 {
      var front := rs[..|rs| - 1];
      AddAllCovers(cfg, b, e, ledger, front, f, metric, month, cap);
      AddAllKeeps(cfg, b, e, ledger, front);
      AddWindowCovers(cfg, AddAll(cfg, b.table, e, ledger, front), e, ledger, rs[|rs| - 1], f, metric, month, cap);
    }
  }

  // ------------------------------------------------------------------------ marking

  predicate MayMark(b: Books, w: Window, status: Status) {
    && Find(b.table, w).Some?
    && (b.table[Find(b.table, w).value].status != Reported || status == Reported)
    && (status == Reported ==> w in BilledWindows(b.charged))
    && (status == Failed ==> w !in BilledWindows(b.charged))
  }

  lemma {:induction false} LastWindowEndReport(t: Table, i: nat, e: nat, metric: string)
    requires i < |t|
    ensures
      var last := LastWindowEnd(t, e, metric);
      LastWindowEnd(t[i := t[i].(status := Reported)], e, metric)
      == if Same(t[i], e, metric) && (last.None? || last.value < t[i].end) then Some(t[i].end) else last
  {
    var n := |t| - 1;
    var t' := t[i := t[i].(status := Reported)];
    if i < n {
      assert t'[..n] == t[..n][i := t[..n][i].(status := Reported)];
      LastWindowEndReport(t[..n], i, e, metric);
    } else {
      assert t'[..n] == t[..n];
    }
  }

  /** Once a window is reported, the open windows of the other months stay well placed. */
  lemma PlacedAfter(last: Option<nat>, start: nat, end: nat, other: nat)
    requires start < end && (MonthOf(end) == MonthOf(start) || end == MonthStart(MonthOf(end)))
    requires Placed(last, other) && MonthOf(start) != MonthOf(other)
    ensures Placed(if last.None? || last.value < end then Some(end) else last, other)
  {
    if other <= end { MonthOfMonotone(other, end); }
    if last.Some? && last.value < end { MonthOfMonotone(last.value, end); }
  }

  lemma SetStatusPlaced(t: Table, i: nat, status: Status, j: nat)
    requires Orderly(t) && i < |t| && t[i].status != Reported && j < |t| && t[j].status != Reported
    requires i == j ==> status != Reported
    ensures
      var e, m := t[j].window.entitlement, t[j].window.metric;
      Placed(LastWindowEnd(t[i := t[i].(status := status)], e, m), t[j].window.start)
  {
    var e, m := t[j].window.entitlement, t[j].window.metric;
    assert Placed(LastWindowEnd(t, e, m), t[j].window.start);
    if status == Reported {
      LastWindowEndReport(t, i, e, m);
      if Same(t[i], e, m) {
        assert Shaped(t[i]) && !SameMonth(t[i], t[j]);
        PlacedAfter(LastWindowEnd(t, e, m), t[i].window.start, t[i].end, t[j].window.start);
      }
    } else {
      LastWindowEndUpdate(t, i, t[i].(status := status), e, m);
    }
  }

  /** Changing the status of an open row keeps the order of the table. */
  lemma SetStatusKeepsOrder(t: Table, i: nat, status: Status)
    requires Orderly(t) && i < |t| && t[i].status != Reported
    ensures Orderly(t[i := t[i].(status := status)])
  {
    var row := t[i].(status := status);
    var t' := t[i := row];
    forall j | 0 <= j < |t'| && t'[j].status != Reported
      ensures Placed(LastWindowEnd(t', t'[j].window.entitlement, t'[j].window.metric), t'[j].window.start)
    {
      SetStatusPlaced(t, i, status, j);
    }
    forall j, k | 0 <= j < |t'| && 0 <= k < |t'| && j != k && SameMonth(t'[j], t'[k])
      ensures Apart(t'[j], t'[k]) && (t'[j].status == Reported || t'[k].status == Reported)
    {
      assert SameMonth(t[j], t[k]);
    }
  }

  lemma SetStatusKeepsAgreed(b: Books, w: Window, status: Status)
    requires Distinct(b.table) && Agreed(b) && MayMark(b, w, status)
    ensures Agreed(b.(table := SetStatus(b.table, w, status)))
  {
    var t, t' := b.table, SetStatus(b.table, w, status);
    forall k | 0 <= k < |b.charged|
      ensures Find(t', b.charged[k].window) == Find(t, b.charged[k].window)
    {
      FindAt(t', Find(t, b.charged[k].window).value);
    }
  }

  lemma SetStatusKeeps(cfg: Settings, b: Books, w: Window, status: Status)
    requires Sound(cfg, b) && MayMark(b, w, status)
    ensures Sound(cfg, b.(table := SetStatus(b.table, w, status)))
  {
    var i := Find(b.table, w).value;
    SetStatusKeepsAgreed(b, w, status);
    if b.table[i].status == status {
      assert SetStatus(b.table, w, status) == b.table;
    } else {
      SetStatusKeepsOrder(b.table, i, status);
    }
  }
}

/** What may be written: in a table whose windows follow one another, a window looked up and
    found free can still be written later, and it is the only such window of its month. */
module BillingWritable {
  import opened Wrappers
  import opened Calendar
  import opened Checkpoints
  import opened Billing
  import opened BillingInvariant
  import opened BillingSteps
  import opened BillingTheorems
  import opened BillingOverlap

  // ------------------------------------------------------ windows that follow one another

  lemma MonthOfEnd(c: Checkpoint)
    requires Shaped(c) && MonthStart(MonthOf(c.end)) < c.end
    ensures MonthOf(c.window.start) == MonthOf(c.end)
  {}

  /** Up to where a reported window ends, its month is reported without a gap. */
  lemma {:induction false} ReportedThrough(t: Table, e: nat, metric: string, x: nat, end: nat) returns (i: nat)
    requires Orderly(t) && Preceded(t) && EndsAt(t, e, metric, end)
    requires MonthStart(MonthOf(end)) <= x < end
    ensures i < |t| && Same(t[i], e, metric) && t[i].status == Reported
    ensures MonthOf(t[i].window.start) == MonthOf(end) && t[i].window.start <= x < t[i].end
    decreases end
  {
    var k :| 0 <= k < |t| && Same(t[k], e, metric) && t[k].status == Reported && t[k].end == end;
    MonthOfEnd(t[k]);
    if t[k].window.start <= x {
      i := k;
    } else {
      i := ReportedThrough(t, e, metric, x, t[k].window.start);
    }
  }

  /** A window that follows on lies under no reported one of its month, unless it is that one. */
  lemma NotUnderReported(t: Table, e: nat, metric: string, start: nat, y: nat)
    requires Orderly(t) && FromBefore(t, e, metric, start)
    requires y < |t| && Same(t[y], e, metric) && MonthOf(t[y].window.start) == MonthOf(start)
    requires t[y].window.start <= start < t[y].end
    ensures t[y].window.start == start
  {
    if start != MonthStart(MonthOf(start)) {
      var k :| 0 <= k < |t| && Same(t[k], e, metric) && t[k].status == Reported && t[k].end == start;
      assert Shaped(t[k]);
      MonthOfEnd(t[k]);
      assert SameMonth(t[y], t[k]) && k != y;
      assert Apart(t[y], t[k]);
    }
  }

  /** So nothing is reported beyond a free window that follows on, in its month. */
  lemma NothingBeyondFree(t: Table, e: nat, metric: string, start: nat, end: nat)
    requires Orderly(t) && Preceded(t) && FromBefore(t, e, metric, start) && !Blocked(t, Window(e, metric, start))
    requires start < end && MonthOf(end) == MonthOf(start)
    ensures !EndsAt(t, e, metric, end)
  {
    if EndsAt(t, e, metric, end) {
      assert MonthStart(MonthOf(start)) <= start;
      var y := ReportedThrough(t, e, metric, start, end);
      NotUnderReported(t, e, metric, start, y);
      assert t[y].window == Window(e, metric, start);
      FindAt(t, y);
    }
  }

  // ------------------------------------------------------------------ a row read up

  /** Whenever it is written now, the table keeps its order. */
  ghost predicate Writable(t: Table, c: Checkpoint) {
    && c.status == Pending && Shaped(c) && !Blocked(t, c.window)
    && FromBefore(t, c.window.entitlement, c.window.metric, c.window.start)
    && Placed(LastWindowEnd(t, c.window.entitlement, c.window.metric), c.window.start)
    && RestReported(t, c)
  }

  /** The other rows of its month are reported, and lie apart from it. */
  ghost predicate RestReported(t: Table, c: Checkpoint) {
    forall i :: 0 <= i < |t| && SameMonth(t[i], c) && t[i].window != c.window ==>
                  t[i].status == Reported && Apart(t[i], c)
  }

  lemma FreeIsPlaced(t: Table, e: nat, metric: string, start: nat)
    requires Orderly(t) && Preceded(t) && FromBefore(t, e, metric, start) && !Blocked(t, Window(e, metric, start))
    ensures Placed(LastWindowEnd(t, e, metric), start)
  {
    LastWindowEndIsGreatest(t, e, metric);
    match LastWindowEnd(t, e, metric)
    case None =>
    case Some(last) =>
      if start < last {
        MonthOfMonotone(start, last);
        if MonthOf(start) == MonthOf(last) {
          NothingBeyondFree(t, e, metric, start, last);
          assert EndsAt(t, e, metric, last);
        }
      }
  }

  /** The other rows of a free window's month are reported, and end before it starts. */
  lemma FreeAgainst(t: Table, e: nat, metric: string, start: nat, i: nat)
    requires Orderly(t) && Preceded(t) && FromBefore(t, e, metric, start) && !Blocked(t, Window(e, metric, start))
    requires i < |t| && Same(t[i], e, metric) && MonthOf(t[i].window.start) == MonthOf(start)
    requires t[i].window.start != start
    ensures t[i].status == Reported && t[i].end <= start
  {
    var at := t[i].window.start;
    assert FromBefore(t, e, metric, at) && Shaped(t[i]);
    if start < at {
      NothingBeyondFree(t, e, metric, start, at);
    } else {
      var y := ReportedThrough(t, e, metric, at, start);
      assert SameMonth(t[i], t[y]);
      var k :| 0 <= k < |t| && Same(t[k], e, metric) && t[k].status == Reported && t[k].end == start;
      MonthOfEnd(t[k]);
      assert SameMonth(t[i], t[k]);
    }
  }

  /** A window looked up and found free can be written, however long ago the run read where
      reporting stopped. */
  lemma AskedIsWritable(t: Table, e: nat, r: Request, c: Checkpoint)
    requires Orderly(t) && Preceded(t) && Askable(t, e, r) && !Blocked(t, c.window)
    requires c.window == Window(e, r.metric, r.start) && c.end == r.end && c.status == Pending
    ensures Writable(t, c)
  {
    FreeIsPlaced(t, e, r.metric, r.start);
    forall i | 0 <= i < |t| && SameMonth(t[i], c) && t[i].window != c.window
      ensures t[i].status == Reported && Apart(t[i], c)
    {
      FreeAgainst(t, e, r.metric, r.start, i);
    }
  }

  lemma RefusedIsWritable(t: Table, i: nat)
    requires Orderly(t) && Preceded(t) && i < |t| && t[i].status == Failed
    ensures Writable(t, t[i].(status := Pending))
  {
    var c := t[i].(status := Pending);
    FindAt(t, i);
    assert Shaped(t[i]) && Placed(LastWindowEnd(t, t[i].window.entitlement, t[i].window.metric), t[i].window.start);
    assert FromBefore(t, t[i].window.entitlement, t[i].window.metric, t[i].window.start);
    forall j | 0 <= j < |t| && SameMonth(t[j], c) && t[j].window != c.window
      ensures t[j].status == Reported && Apart(t[j], c)
    {
      assert SameMonth(t[j], t[i]) && j != i;
    }
  }

  /** Two rows of one month that can be written are for the same window. */
  lemma OneFreeAMonth(t: Table, c: Checkpoint, d: Checkpoint)
    requires Orderly(t) && Preceded(t) && Writable(t, c) && Writable(t, d) && SameMonth(c, d)
    ensures c.window == d.window
  {
    var e, m := c.window.entitlement, c.window.metric;
    if c.window.start < d.window.start {
      NothingBeyondFree(t, e, m, c.window.start, d.window.start);
    } else if d.window.start < c.window.start {
      NothingBeyondFree(t, e, m, d.window.start, c.window.start);
    }
  }

  lemma WritableApart(t: Table, c: Checkpoint, i: nat, j: nat)
    requires Orderly(t) && Writable(t, c) && i < |Put(t, c)| && j < |Put(t, c)| && i != j
    requires SameMonth(Put(t, c)[i], Put(t, c)[j])
    ensures
      var x, y := Put(t, c)[i], Put(t, c)[j];
      Apart(x, y) && (x.status == Reported || y.status == Reported)
  {
    var t' := Put(t, c);
    if t'[i].window == c.window {
      assert t'[j] == t[j] && SameMonth(t[j], c);
    } else if t'[j].window == c.window {
      assert t'[i] == t[i] && SameMonth(t[i], c);
    } else {
      assert t'[i] == t[i] && t'[j] == t[j];
    }
  }

  lemma WritableRow(t: Table, c: Checkpoint, i: nat)
    requires Orderly(t) && Writable(t, c) && i < |Put(t, c)|
    ensures
      var x := Put(t, c)[i];
      && Shaped(x)
      && (x.status != Reported ==> Placed(LastWindowEnd(t, x.window.entitlement, x.window.metric), x.window.start))
  {
    assert Put(t, c)[i] == c || (i < |t| && Put(t, c)[i] == t[i]);
  }

  lemma WritableKeepsOrder(t: Table, c: Checkpoint)
    requires Orderly(t) && Writable(t, c)
    ensures Orderly(Put(t, c))
    ensures forall f, m :: LastWindowEnd(Put(t, c), f, m) == LastWindowEnd(t, f, m)
  {
    forall f, m ensures LastWindowEnd(Put(t, c), f, m) == LastWindowEnd(t, f, m) {
      LastWindowEndPut(t, c, f, m);
    }
    OrderlyRows(t, c);
  }

  lemma OrderlyRows(t: Table, c: Checkpoint)
    requires Orderly(t) && Writable(t, c)
    requires forall f, m :: LastWindowEnd(Put(t, c), f, m) == LastWindowEnd(t, f, m)
    ensures Orderly(Put(t, c))
  {
    var t' := Put(t, c);
    forall i, j | 0 <= i < |t'| && 0 <= j < |t'| && i != j && SameMonth(t'[i], t'[j])
      ensures Apart(t'[i], t'[j]) && (t'[i].status == Reported || t'[j].status == Reported)
    {
      WritableApart(t, c, i, j);
    }
    forall i | 0 <= i < |t'|
      ensures Shaped(t'[i])
      ensures t'[i].status != Reported ==>
                Placed(LastWindowEnd(t', t'[i].window.entitlement, t'[i].window.metric), t'[i].window.start)
    {
      WritableRow(t, c, i);
    }
  }

  // ------------------------------------------------- reported windows stay, so order does

  /** Reported rows are where they were. */
  ghost predicate ReportedStay(t: Table, t': Table) {
    |t| <= |t'| && forall i :: 0 <= i < |t| && t[i].status == Reported ==> t'[i] == t[i]
  }

  lemma PutLeavesReported(t: Table, c: Checkpoint)
    requires Distinct(t) && !Blocked(t, c.window)
    ensures ReportedStay(t, Put(t, c))
  {
    forall i | 0 <= i < |t| && t[i].status == Reported ensures t[i].window != c.window { FindAt(t, i); }
  }

  lemma StillFromBefore(t: Table, t': Table, e: nat, metric: string, start: nat)
    requires ReportedStay(t, t') && FromBefore(t, e, metric, start)
    ensures FromBefore(t', e, metric, start)
  {
    if start != MonthStart(MonthOf(start)) {
      var k :| 0 <= k < |t| && Same(t[k], e, metric) && t[k].status == Reported && t[k].end == start;
      assert t'[k] == t[k];
    }
  }

  lemma PutKeepsPreceded(t: Table, c: Checkpoint)
    requires Distinct(t) && Preceded(t) && Writable(t, c)
    ensures Preceded(Put(t, c))
  {
    var t' := Put(t, c);
    PutLeavesReported(t, c);
    forall i | 0 <= i < |t'|
      ensures FromBefore(t', t'[i].window.entitlement, t'[i].window.metric, t'[i].window.start)
    {
      var w := t'[i].window;
      assert t'[i] == c || (i < |t| && t'[i] == t[i]);
      StillFromBefore(t, t', w.entitlement, w.metric, w.start);
    }
  }

  lemma MarkingKeepsPreceded(t: Table, t': Table)
    requires Preceded(t) && ReportedStay(t, t') && |t'| == |t|
    requires forall i :: 0 <= i < |t| ==> t'[i].window == t[i].window
    ensures Preceded(t')
  {
    forall i | 0 <= i < |t'|
      ensures FromBefore(t', t'[i].window.entitlement, t'[i].window.metric, t'[i].window.start)
    {
      var w := t[i].window;
      StillFromBefore(t, t', w.entitlement, w.metric, w.start);
    }
  }

  lemma RestAfterPut(t: Table, d: Checkpoint, c: Checkpoint)
    requires RestReported(t, c) && (SameMonth(d, c) ==> d.window == c.window)
    ensures RestReported(Put(t, d), c)
  {
    var t' := Put(t, d);
    forall i | 0 <= i < |t'| && SameMonth(t'[i], c) && t'[i].window != c.window
      ensures t'[i].status == Reported && Apart(t'[i], c)
    {
      assert t'[i].window != d.window;
      assert t'[i] == t[i];
    }
  }

  /** Writing the row of another window leaves it writable. */
  lemma PutKeepsWritable(t: Table, d: Checkpoint, c: Checkpoint)
    requires Orderly(t) && Preceded(t) && Writable(t, d) && Writable(t, c) && d.window != c.window
    ensures Writable(Put(t, d), c)
  {
    LastWindowEndPut(t, d, c.window.entitlement, c.window.metric);
    PutLeavesReported(t, d);
    StillFromBefore(t, Put(t, d), c.window.entitlement, c.window.metric, c.window.start);
    if SameMonth(d, c) { OneFreeAMonth(t, d, c); }
    RowOfPut(t, d, c.window);
    RestAfterPut(t, d, c);
  }
}

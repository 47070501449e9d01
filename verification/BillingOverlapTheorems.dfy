/** What overlapping runs keep: as long as no window is read up that another run still has to
    write, no window is billed twice and no month is billed beyond its ledger. */
module BillingOverlapTheorems {
  import opened Wrappers
  import opened Calendar
  import opened Checkpoints
  import opened Billing
  import opened BillingInvariant
  import opened BillingSteps
  import opened BillingTheorems
  import opened BillingOverlap
  import opened BillingWritable

  /** Operations a run carries: their rows wait, at the quantities it will be charged. */
  ghost predicate InHand(t: Table, queued: seq<Checkpoint>) {
    && (forall i, j :: 0 <= i < j < |queued| ==> queued[i].window != queued[j].window)
    && (forall i :: 0 <= i < |queued| ==>
                      var row := RowOf(t, queued[i].window);
                      row.Some? && row.value.status == Pending && row.value.quantity == queued[i].quantity)
  }

  ghost predicate Drafted(cfg: Settings, t: Table, entitlement: nat, draft: seq<Checkpoint>) {
    && (forall i :: 0 <= i < |draft| ==>
                      && Writable(t, draft[i]) && draft[i].window.entitlement == entitlement
                      && (draft[i].window.metric !in cfg.floats ==> draft[i].quantity % UNIT == 0))
    && (forall i, j :: 0 <= i < j < |draft| ==> draft[i].window != draft[j].window)
  }

  ghost predicate RunOk(cfg: Settings, b: Books, r: Phase) {
    && InHand(b.table, r.queued)
    && match r
       case Collecting(e, draft, queued) =>
         && Drafted(cfg, b.table, e, draft)
         && forall w :: w in Windows(queued) ==> w !in BilledWindows(b.charged)
       case Sent(_, queued, d) =>
         && Truthful(d, Windows(queued))
         && forall w :: w in Windows(queued) ==> (w in BilledWindows(b.charged) <==> w in d.took)
  }

  predicate Unwritten(r: Phase) {
    r.Collecting? && r.draft != []
  }

  ghost predicate KeptApart(r: Phase, q: Phase) {
    && (forall w :: w in Windows(r.queued) ==> w !in Windows(q.queued))
    && (r.Collecting? && q.Collecting? ==> NoneShared(r.draft, q.draft))
  }

  ghost predicate InOrder(cfg: Settings, s: Shop) {
    && Sound(cfg, s.books) && Preceded(s.books.table)
    && (forall p :: p in s.runs ==> RunOk(cfg, s.books, s.runs[p]))
    && (forall p, q :: p in s.runs && q in s.runs && p != q ==> KeptApart(s.runs[p], s.runs[q]))
  }

  // -------------------------------------------------- what one run's step does to others

  lemma QueuedPending(t: Table, queued: seq<Checkpoint>, w: Window)
    requires InHand(t, queued) && w in Windows(queued)
    ensures Blocked(t, w) && RowOf(t, w).value.status == Pending
  {
    var i :| 0 <= i < |queued| && queued[i].window == w;
  }

  lemma OthersAfterPut(cfg: Settings, b: Books, d: Checkpoint, r: Phase)
    requires Sound(cfg, b) && Preceded(b.table) && Writable(b.table, d) && RunOk(cfg, b, r)
    requires r.Collecting? ==> NoneShared([d], r.draft)
    ensures RunOk(cfg, b.(table := Put(b.table, d)), r)
  {
    var t' := Put(b.table, d);
    forall i | 0 <= i < |r.queued| ensures RowOf(t', r.queued[i].window) == RowOf(b.table, r.queued[i].window) {
      RowOfPut(b.table, d, r.queued[i].window);
    }
    if r.Collecting? {
      forall i | 0 <= i < |r.draft| ensures Writable(t', r.draft[i]) {
        assert d in [d] && r.draft[i] in r.draft;
        PutKeepsWritable(b.table, d, r.draft[i]);
      }
    }
  }

  /** Rows that were marked, as they were or with the new status; reported ones still are. */
  ghost predicate Marked(t: Table, t': Table, status: Status, c: Checkpoint) {
    && |t'| == |t|
    && (forall i :: 0 <= i < |t| ==> t'[i] == t[i] || t'[i] == t[i].(status := status))
    && (forall i :: 0 <= i < |t| && t[i].status == Reported ==> t'[i] == t[i])
    && (forall i :: 0 <= i < |t| && t[i].window == c.window ==> t'[i] == t[i])
  }

  lemma LastEndGrows(t: Table, t': Table, status: Status, c: Checkpoint, e: nat, m: string)
    requires Marked(t, t', status, c) && LastWindowEnd(t, e, m).Some?
    ensures LastWindowEnd(t', e, m).Some? && LastWindowEnd(t, e, m).value <= LastWindowEnd(t', e, m).value
  {
    LastWindowEndIsGreatest(t, e, m);
    var k :| 0 <= k < |t| && Same(t[k], e, m) && t[k].status == Reported && t[k].end == LastWindowEnd(t, e, m).value;
    LastWindowEndIsGreatest(t', e, m);
    assert t'[k] == t[k];
  }

  /** The last window end moves only to the end of a row just marked. */
  lemma LastEndMoves(t: Table, t': Table, status: Status, c: Checkpoint, e: nat, m: string) returns (i: nat)
    requires Marked(t, t', status, c) && LastWindowEnd(t', e, m) != LastWindowEnd(t, e, m)
    ensures i < |t| && Same(t[i], e, m) && t[i].status != Reported && t[i].window != c.window
    ensures LastWindowEnd(t', e, m) == Some(t[i].end)
    ensures LastWindowEnd(t, e, m).None? || LastWindowEnd(t, e, m).value < t[i].end
  {
    if LastWindowEnd(t, e, m).Some? { LastEndGrows(t, t', status, c, e, m); }
    LastWindowEndIsGreatest(t', e, m);
    i :| 0 <= i < |t'| && Same(t'[i], e, m) && t'[i].status == Reported && t'[i].end == LastWindowEnd(t', e, m).value;
    LastWindowEndIsGreatest(t, e, m);
  }

  lemma PlacedAfterMarks(t: Table, t': Table, status: Status, c: Checkpoint)
    requires Orderly(t) && Writable(t, c) && Marked(t, t', status, c)
    ensures Placed(LastWindowEnd(t', c.window.entitlement, c.window.metric), c.window.start)
  {
    var e, m := c.window.entitlement, c.window.metric;
    if LastWindowEnd(t', e, m) != LastWindowEnd(t, e, m) {
      var i := LastEndMoves(t, t', status, c, e, m);
      assert Shaped(t[i]) && !SameMonth(t[i], c);
      PlacedAfter(LastWindowEnd(t, e, m), t[i].window.start, t[i].end, c.window.start);
    }
  }

  lemma MarkedIsMarked(b: Books, ws: seq<Window>, status: Status, c: Checkpoint)
    requires Distinct(b.table) && forall w :: w in ws ==> MayMark(b, w, status) && w != c.window
    ensures Marked(b.table, MarkAll(b.table, ws, status), status, c)
  {
    MarkAllAt(b.table, ws, status);
    forall i | 0 <= i < |b.table| && b.table[i].window in ws && b.table[i].status == Reported
      ensures status == Reported
    {
      FindAt(b.table, i);
    }
  }

  lemma RestAfterMarks(t: Table, t': Table, status: Status, c: Checkpoint)
    requires RestReported(t, c) && Marked(t, t', status, c)
    ensures RestReported(t', c)
  {
    forall i | 0 <= i < |t'| && SameMonth(t'[i], c) && t'[i].window != c.window
      ensures t'[i].status == Reported && Apart(t'[i], c)
    {
      assert SameMonth(t[i], c);
    }
  }

  lemma MarkAllKeepsWritable(cfg: Settings, b: Books, ws: seq<Window>, status: Status, c: Checkpoint)
    requires Sound(cfg, b) && Writable(b.table, c)
    requires forall w :: w in ws ==> MayMark(b, w, status) && w != c.window
    ensures Writable(MarkAll(b.table, ws, status), c)
  {
    var t, t' := b.table, MarkAll(b.table, ws, status);
    MarkedIsMarked(b, ws, status, c);
    PlacedAfterMarks(t, t', status, c);
    RowOfMarkAll(t, ws, status, c.window);
    StillFromBefore(t, t', c.window.entitlement, c.window.metric, c.window.start);
    RestAfterMarks(t, t', status, c);
  }

  lemma MarkAllKeepsPreceded(b: Books, ws: seq<Window>, status: Status)
    requires Distinct(b.table) && Preceded(b.table) && forall w :: w in ws ==> MayMark(b, w, status)
    ensures Preceded(MarkAll(b.table, ws, status))
  {
    var t, t' := b.table, MarkAll(b.table, ws, status);
    MarkAllAt(t, ws, status);
    forall i | 0 <= i < |t| && t[i].status == Reported ensures t'[i] == t[i] { FindAt(t, i); }
    MarkingKeepsPreceded(t, t');
  }

  lemma MarksKeepPreceded(cfg: Settings, b: Books, ops: seq<Window>, d: Delivery, halfway: bool)
    requires Sound(cfg, b) && Preceded(b.table) && Awaiting(b, ops, d.took) && Truthful(d, ops)
    ensures Preceded(Billing.Marks(b.table, ops, d.reply, halfway))
  {
    match d.reply
    case Answer(errors) =>
      var refused, rest := Naming(ops, errors, true), Naming(ops, errors, false);
      MarkAllKeepsPreceded(b, refused, Failed);
      if !halfway {
        var after := b.(table := MarkAll(b.table, refused, Failed));
        forall w | w in rest ensures MayMark(after, w, if Unattributed(errors) then Pending else Reported) {
          RowOfMarkAll(b.table, refused, Failed, w);
        }
        MarkAllKeepsPreceded(after, rest, if Unattributed(errors) then Pending else Reported);
      }
    case _ => MarkAllKeepsPreceded(b, ops, if Definitive(d.reply) then Failed else Pending);
  }

  lemma OthersAfterMarkAll(cfg: Settings, b: Books, ws: seq<Window>, status: Status, r: Phase)
    requires Sound(cfg, b) && RunOk(cfg, b, r)
    requires forall w :: w in ws ==> MayMark(b, w, status) && Blocked(b.table, w) && w !in Windows(r.queued)
    ensures RunOk(cfg, b.(table := MarkAll(b.table, ws, status)), r)
  {
    var t' := MarkAll(b.table, ws, status);
    forall i | 0 <= i < |r.queued| ensures RowOf(t', r.queued[i].window) == RowOf(b.table, r.queued[i].window) {
      assert Windows(r.queued)[i] in Windows(r.queued);
      RowOfMarkAll(b.table, ws, status, r.queued[i].window);
    }
    if r.Collecting? {
      forall i | 0 <= i < |r.draft| ensures Writable(t', r.draft[i]) {
        MarkAllKeepsWritable(cfg, b, ws, status, r.draft[i]);
      }
    }
  }

  lemma OthersAfterMarks(cfg: Settings, b: Books, ops: seq<Window>, d: Delivery, halfway: bool, r: Phase)
    requires Sound(cfg, b) && RunOk(cfg, b, r) && Awaiting(b, ops, d.took) && Truthful(d, ops)
    requires forall w :: w in ops ==> w !in Windows(r.queued)
    ensures RunOk(cfg, b.(table := Billing.Marks(b.table, ops, d.reply, halfway)), r)
  {
    match d.reply
    case Answer(errors) =>
      var refused, rest := Naming(ops, errors, true), Naming(ops, errors, false);
      OthersAfterMarkAll(cfg, b, refused, Failed, r);
      if !halfway {
        var after := b.(table := MarkAll(b.table, refused, Failed));
        MarkAllKeeps(cfg, b, refused, Failed);
        forall w | w in rest
          ensures MayMark(after, w, if Unattributed(errors) then Pending else Reported) && Blocked(after.table, w)
        {
          RowOfMarkAll(b.table, refused, Failed, w);
        }
        OthersAfterMarkAll(cfg, after, rest, if Unattributed(errors) then Pending else Reported, r);
      }
    case _ => OthersAfterMarkAll(cfg, b, ops, if Definitive(d.reply) then Failed else Pending, r);
  }

  // ------------------------------------------------------------------------- reading

  lemma ReadIsDrafted(cfg: Settings, b: Books, e: Entitlement, r: Request, ledger: Ledger)
    requires Sound(cfg, b) && Preceded(b.table) && Askable(b.table, e.id, r)
    requires BillingTheorems.Writes(b.table, e, ledger, r)
    ensures Drafted(cfg, b.table, e.id, [RowFor(cfg, b.table, e, ledger, r)])
  {
    RoundedIsWhole(cfg, r.metric, QuantityFor(b.table, e, r.metric, r.month, ledger).value);
    AskedIsWritable(b.table, e.id, r, RowFor(cfg, b.table, e, ledger, r));
  }

  lemma {:induction false} RefusedAre(t: Table, e: Entitlement)
    ensures forall c :: c in RefusedDrafts(t, e) ==> exists i :: IsRefused(t, e, c, i)
  {
    if |t| > 0 {
      var front, n := t[..|t| - 1], |t| - 1;
      RefusedAre(front, e);
      forall c | c in RefusedDrafts(t, e) ensures exists i :: IsRefused(t, e, c, i) {
        if c in RefusedDrafts(front, e) {
          var i :| IsRefused(front, e, c, i);
          assert IsRefused(t, e, c, i);
        } else {
          assert IsRefused(t, e, c, n);
        }
      }
    }
  }

  ghost predicate IsRefused(t: Table, e: Entitlement, c: Checkpoint, i: int) {
    0 <= i < |t| && t[i].status == Failed && t[i].window.entitlement == e.id && c == t[i].(status := Pending)
  }

  lemma {:induction false} RefusedOnce(t: Table, e: Entitlement)
    requires Distinct(t)
    ensures forall i, j :: 0 <= i < j < |RefusedDrafts(t, e)| ==>
                             RefusedDrafts(t, e)[i].window != RefusedDrafts(t, e)[j].window
  {
    if |t| > 0 {
      var front := t[..|t| - 1];
      RefusedOnce(front, e);
      RefusedAre(front, e);
      forall i | 0 <= i < |RefusedDrafts(front, e)| ensures RefusedDrafts(front, e)[i].window != t[|t| - 1].window {
        assert RefusedDrafts(front, e)[i] in RefusedDrafts(front, e);
        var k :| IsRefused(front, e, RefusedDrafts(front, e)[i], k);
        assert t[k].window != t[|t| - 1].window;
      }
    }
  }

  lemma RefusedIsDrafted(cfg: Settings, b: Books, e: Entitlement)
    requires Sound(cfg, b) && Preceded(b.table)
    ensures Drafted(cfg, b.table, e.id, RefusedDrafts(b.table, e))
  {
    var t := b.table;
    var draft := RefusedDrafts(t, e);
    RefusedAre(t, e);
    RefusedOnce(t, e);
    forall i | 0 <= i < |draft|
      ensures Writable(t, draft[i]) && draft[i].window.entitlement == e.id
      ensures draft[i].window.metric !in cfg.floats ==> draft[i].quantity % UNIT == 0
    {
      assert draft[i] in draft;
      var k :| IsRefused(t, e, draft[i], k);
      RefusedIsWritable(t, k);
    }
  }

  /** Whatever a step reads up can be written. */
  lemma BroughtIsDrafted(cfg: Settings, s: Shop, a: Act)
    requires InOrder(cfg, s) && (a.Reads? || a.ReadsRefused?)
    ensures Drafted(cfg, s.books.table, a.e.id, Brings(cfg, s, a))
  {
    match a
    case Reads(p, e, r, ledger) => if Brings(cfg, s, a) != [] { ReadIsDrafted(cfg, s.books, e, r, ledger); }
    case ReadsRefused(p, e) => if p !in s.runs { RefusedIsDrafted(cfg, s.books, e); }
    case _ =>
  }

  // --------------------------------------------------------------- each step keeps order

  /** One run replaced, the others as they were. */
  lemma OneReplaced(cfg: Settings, s: Shop, books: Books, p: nat, run: Phase)
    requires InOrder(cfg, s) && Sound(cfg, books) && Preceded(books.table) && RunOk(cfg, books, run)
    requires forall q :: q in s.runs && q != p ==> RunOk(cfg, books, s.runs[q]) && KeptApart(run, s.runs[q])
    ensures InOrder(cfg, Shop(books, s.runs[p := run]))
  {
    var runs := s.runs[p := run];
    forall q, r | q in runs && r in runs && q != r ensures KeptApart(runs[q], runs[r]) {
      if q != p && r != p {
        assert KeptApart(s.runs[q], s.runs[r]);
      } else if q != p {
        assert KeptApart(run, s.runs[q]);
      }
    }
  }

  lemma ReadsKeep(cfg: Settings, s: Shop, p: nat, e: nat, draft: seq<Checkpoint>, queued: seq<Checkpoint>)
    requires InOrder(cfg, s) && Drafted(cfg, s.books.table, e, draft)
    requires if p in s.runs then s.runs[p] == Collecting(e, [], queued) else queued == []
    requires forall q :: q in s.runs && q != p && s.runs[q].Collecting? ==> NoneShared(draft, s.runs[q].draft)
    ensures InOrder(cfg, s.(runs := s.runs[p := Collecting(e, draft, queued)]))
  {
    var run := Collecting(e, draft, queued);
    forall q | q in s.runs && q != p ensures KeptApart(run, s.runs[q]) {
      if p in s.runs { assert KeptApart(s.runs[p], s.runs[q]); }
    }
    OneReplaced(cfg, s, s.books, p, run);
  }

  lemma WindowsOneMore(queued: seq<Checkpoint>, c: Checkpoint)
    ensures Windows(queued + [c]) == Windows(queued) + [c.window]
  {}

  lemma WritableIsUnbilled(cfg: Settings, b: Books, c: Checkpoint)
    requires Sound(cfg, b) && Writable(b.table, c)
    ensures c.window !in BilledWindows(b.charged)
    ensures Sound(cfg, b.(table := Put(b.table, c))) || (c.window.metric !in cfg.floats && c.quantity % UNIT != 0)
  {
    Unbilled(b, c.window);
    WritableKeepsOrder(b.table, c);
    PutKeepsAgreed(b, c);
    if c.window.metric !in cfg.floats ==> c.quantity % UNIT == 0 { PutKeepsWhole(cfg, b.table, c); }
  }

  lemma WriterAfterPut(cfg: Settings, b: Books, run: Phase)
    requires Sound(cfg, b) && Preceded(b.table) && RunOk(cfg, b, run) && Unwritten(run)
    ensures
      var c := run.draft[0];
      RunOk(cfg, b.(table := Put(b.table, c)), Collecting(run.entitlement, run.draft[1..], run.queued + [c]))
  {
    var c, draft := run.draft[0], run.draft[1..];
    var queued, t' := run.queued + [c], Put(b.table, c);
    WritableIsUnbilled(cfg, b, c);
    WindowsOneMore(run.queued, c);
    RowOfPut(b.table, c, c.window);
    forall i | 0 <= i < |run.queued|
      ensures run.queued[i].window != c.window
              && RowOf(t', run.queued[i].window) == RowOf(b.table, run.queued[i].window)
    {
      RowOfPut(b.table, c, run.queued[i].window);
    }
    forall i | 0 <= i < |draft| ensures Writable(t', draft[i]) {
      assert draft[i] == run.draft[i + 1] && run.draft[0].window != run.draft[i + 1].window;
      PutKeepsWritable(b.table, c, draft[i]);
    }
  }

  lemma StillApart(t: Table, run: Phase, other: Phase)
    requires Unwritten(run) && KeptApart(run, other) && InHand(t, other.queued) && !Blocked(t, run.draft[0].window)
    ensures KeptApart(Collecting(run.entitlement, run.draft[1..], run.queued + [run.draft[0]]), other)
  {
    var c := run.draft[0];
    WindowsOneMore(run.queued, c);
    if c.window in Windows(other.queued) { QueuedPending(t, other.queued, c.window); }
  }

  lemma WritesKeep(cfg: Settings, s: Shop, p: nat)
    requires InOrder(cfg, s) && p in s.runs && Unwritten(s.runs[p])
    ensures
      var run := s.runs[p];
      InOrder(cfg, Shop(s.books.(table := Put(s.books.table, run.draft[0])),
                        s.runs[p := Collecting(run.entitlement, run.draft[1..], run.queued + [run.draft[0]])]))
  {
    var run := s.runs[p];
    var c := run.draft[0];
    var run' := Collecting(run.entitlement, run.draft[1..], run.queued + [c]);
    WritableIsUnbilled(cfg, s.books, c);
    PutKeepsPreceded(s.books.table, c);
    WriterAfterPut(cfg, s.books, run);
    forall q | q in s.runs && q != p
      ensures RunOk(cfg, s.books.(table := Put(s.books.table, c)), s.runs[q]) && KeptApart(run', s.runs[q])
    {
      assert KeptApart(run, s.runs[q]) && c in run.draft;
      OthersAfterPut(cfg, s.books, c, s.runs[q]);
      StillApart(s.books.table, run, s.runs[q]);
    }
    OneReplaced(cfg, s, s.books.(table := Put(s.books.table, c)), p, run');
  }

  /** Without a run, those left are as they were. */
  lemma LeavesKeep(cfg: Settings, s: Shop, s': Shop, p: nat)
    requires InOrder(cfg, s) && Sound(cfg, s'.books) && Preceded(s'.books.table) && s'.runs == s.runs - {p}
    requires forall q :: q in s'.runs ==> RunOk(cfg, s'.books, s.runs[q])
    ensures InOrder(cfg, s')
  {
    forall q, r | q in s'.runs && r in s'.runs && q != r ensures KeptApart(s'.runs[q], s'.runs[r]) {
      assert KeptApart(s.runs[q], s.runs[r]);
    }
  }

  lemma NotOthers(cfg: Settings, s: Shop, p: nat, q: nat)
    requires InOrder(cfg, s) && p in s.runs && q in s.runs && p != q
    ensures forall w :: w in Windows(s.runs[p].queued) ==> w !in Windows(s.runs[q].queued)
  {
    assert KeptApart(s.runs[p], s.runs[q]);
  }

  lemma GivesUpKeeps(cfg: Settings, s: Shop, p: nat)
    requires InOrder(cfg, s) && p in s.runs && s.runs[p].Collecting?
    ensures
      var marked := MarkAll(s.books.table, Windows(s.runs[p].queued), Failed);
      InOrder(cfg, Shop(s.books.(table := marked), s.runs - {p}))
  {
    var ops := Windows(s.runs[p].queued);
    forall w | w in ops ensures MayMark(s.books, w, Failed) && Blocked(s.books.table, w) {
      QueuedPending(s.books.table, s.runs[p].queued, w);
    }
    MarkAllKeeps(cfg, s.books, ops, Failed);
    MarkAllKeepsPreceded(s.books, ops, Failed);
    var s' := Shop(s.books.(table := MarkAll(s.books.table, ops, Failed)), s.runs - {p});
    forall q | q in s'.runs ensures RunOk(cfg, s'.books, s.runs[q]) {
      NotOthers(cfg, s, p, q);
      OthersAfterMarkAll(cfg, s.books, ops, Failed, s.runs[q]);
    }
    LeavesKeep(cfg, s, s', p);
  }

  lemma SentIsAwaiting(cfg: Settings, b: Books, run: Phase)
    requires RunOk(cfg, b, run) && run.Sent?
    ensures Awaiting(b, Windows(run.queued), run.delivery.took)
  {
    forall w | w in Windows(run.queued)
      ensures Find(b.table, w).Some? && b.table[Find(b.table, w).value].status == Pending
    {
      QueuedPending(b.table, run.queued, w);
    }
  }

  lemma MarksKeepOrder(cfg: Settings, s: Shop, p: nat, halfway: bool)
    requires InOrder(cfg, s) && p in s.runs && s.runs[p].Sent?
    ensures
      var run := s.runs[p];
      var marked := Billing.Marks(s.books.table, Windows(run.queued), run.delivery.reply, halfway);
      InOrder(cfg, Shop(s.books.(table := marked), s.runs - {p}))
  {
    var run := s.runs[p];
    var ops := Windows(run.queued);
    SentIsAwaiting(cfg, s.books, run);
    MarksAllowed(cfg, s.books, ops, run.delivery, halfway);
    MarksKeepPreceded(cfg, s.books, ops, run.delivery, halfway);
    var s' := Shop(s.books.(table := Billing.Marks(s.books.table, ops, run.delivery.reply, halfway)), s.runs - {p});
    forall q | q in s'.runs ensures RunOk(cfg, s'.books, s.runs[q]) {
      NotOthers(cfg, s, p, q);
      OthersAfterMarks(cfg, s.books, ops, run.delivery, halfway, s.runs[q]);
    }
    LeavesKeep(cfg, s, s', p);
  }

  /** In order, the operations carry what their rows say. */
  lemma {:induction false} ChargesAre(t: Table, queued: seq<Checkpoint>, took: set<Window>)
    requires forall i :: 0 <= i < |queued| ==>
                           RowOf(t, queued[i].window).Some?
                           && RowOf(t, queued[i].window).value.quantity == queued[i].quantity
    ensures ChargesOf(queued, took) == Charges(t, Windows(queued), took)
  {
    if |queued| > 0 {
      var front := queued[..|queued| - 1];
      ChargesAre(t, front, took);
      assert Windows(queued)[..|queued| - 1] == Windows(front);
    }
  }

  lemma CollectedIsReady(cfg: Settings, b: Books, run: Phase)
    requires RunOk(cfg, b, run) && run.Collecting?
    ensures Ready(b, Windows(run.queued))
  {
    forall w | w in Windows(run.queued)
      ensures Find(b.table, w).Some? && b.table[Find(b.table, w).value].status == Pending
    {
      QueuedPending(b.table, run.queued, w);
    }
  }

  /** Google's billing of some operations is nothing to a run that does not carry them. */
  lemma OthersAfterCharge(cfg: Settings, b: Books, b': Books, ops: seq<Window>, took: set<Window>, r: Phase)
    requires RunOk(cfg, b, r) && b'.table == b.table
    requires forall w :: w in BilledWindows(b'.charged) <==> w in BilledWindows(b.charged) || (w in took && w in ops)
    requires forall w :: w in ops ==> w !in Windows(r.queued)
    ensures RunOk(cfg, b', r)
  {}

  lemma SenderAfterCharge(cfg: Settings, b: Books, run: Phase, d: Delivery)
    requires Sound(cfg, b) && RunOk(cfg, b, run) && run.Collecting? && Truthful(d, Windows(run.queued))
    ensures
      var b' := b.(charged := b.charged + ChargesOf(run.queued, d.took));
      && Sound(cfg, b') && RunOk(cfg, b', Sent(run.entitlement, run.queued, d))
      && forall w :: w in BilledWindows(b'.charged)
                     <==> w in BilledWindows(b.charged) || (w in d.took && w in Windows(run.queued))
  {
    CollectedIsReady(cfg, b, run);
    ChargesAre(b.table, run.queued, d.took);
    ChargesKeep(b, Windows(run.queued), d.took);
  }

  lemma SendsKeep(cfg: Settings, s: Shop, p: nat, d: Delivery)
    requires InOrder(cfg, s) && MaySend(s, p) && Truthful(d, Windows(s.runs[p].queued))
    ensures
      var run := s.runs[p];
      InOrder(cfg, Shop(s.books.(charged := s.books.charged + ChargesOf(run.queued, d.took)),
                        s.runs[p := Sent(run.entitlement, run.queued, d)]))
  {
    var run := s.runs[p];
    var sent := s.books.(charged := s.books.charged + ChargesOf(run.queued, d.took));
    var run' := Sent(run.entitlement, run.queued, d);
    SenderAfterCharge(cfg, s.books, run, d);
    forall q | q in s.runs && q != p ensures RunOk(cfg, sent, s.runs[q]) && KeptApart(run', s.runs[q]) {
      NotOthers(cfg, s, p, q);
      OthersAfterCharge(cfg, s.books, sent, Windows(run.queued), d.took, s.runs[q]);
    }
    OneReplaced(cfg, s, sent, p, run');
  }

  lemma SettlesKeep(cfg: Settings, s: Shop, ws: seq<Window>, billed: bool)
    requires InOrder(cfg, s) && Fair(s, Settles(ws, billed))
    ensures InOrder(cfg, Advance(cfg, s, Settles(ws, billed)))
  {
    var s', open := Advance(cfg, s, Settles(ws, billed)), StillPending(s.books.table, ws);
    var status := if billed then Reported else Failed;
    MarkAllKeeps(cfg, s.books, open, status);
    MarkAllKeepsPreceded(s.books, open, status);
    forall q | q in s.runs ensures RunOk(cfg, s'.books, s.runs[q]) {
      OthersAfterMarkAll(cfg, s.books, open, status, s.runs[q]);
    }
  }

  lemma StepKeeps(cfg: Settings, s: Shop, a: Act)
    requires InOrder(cfg, s) && Fair(s, a) && InTurn(cfg, s, a)
    ensures InOrder(cfg, Advance(cfg, s, a))
  {
    match a
    case Reads(p, e, r, ledger) =>
      BroughtIsDrafted(cfg, s, a);
      var queued := if p in s.runs then s.runs[p].queued else [];
      if MayRead(s, p, e) { ReadsKeep(cfg, s, p, e.id, Brings(cfg, s, a), queued); }
    case ReadsRefused(p, e) =>
      BroughtIsDrafted(cfg, s, a);
      if p !in s.runs { ReadsKeep(cfg, s, p, e.id, Brings(cfg, s, a), []); }
    case WritesRow(p) => if p in s.runs && Unwritten(s.runs[p]) { WritesKeep(cfg, s, p); }
    case GivesUp(p) => if p in s.runs && s.runs[p].Collecting? { GivesUpKeeps(cfg, s, p); }
    case Sends(p, d) => if MaySend(s, p) { SendsKeep(cfg, s, p, d); }
    case MarksRows(p, halfway) => if p in s.runs && s.runs[p].Sent? { MarksKeepOrder(cfg, s, p, halfway); }
    case Dies(p) => LeavesKeep(cfg, s, Advance(cfg, s, a), p);
    case Settles(ws, billed) => SettlesKeep(cfg, s, ws, billed);
  }

  lemma {:induction false} InTurnKeeps(cfg: Settings, acts: seq<Act>)
    requires FairRun(cfg, acts) && InTurnRun(cfg, acts)
    ensures InOrder(cfg, Interleaved(cfg, acts))
  {
    if |acts| > 0 {
      var n := |acts| - 1;
      PrefixFair(cfg, acts, n);
      InTurnKeeps(cfg, acts[..n]);
      StepKeeps(cfg, Interleaved(cfg, acts[..n]), acts[n]);
    }
  }

  lemma PrefixFair(cfg: Settings, acts: seq<Act>, n: nat)
    requires FairRun(cfg, acts) && InTurnRun(cfg, acts) && n <= |acts|
    ensures FairRun(cfg, acts[..n]) && InTurnRun(cfg, acts[..n])
  {
    forall i | 0 <= i < n
      ensures Fair(Interleaved(cfg, acts[..n][..i]), acts[..n][i])
      ensures InTurn(cfg, Interleaved(cfg, acts[..n][..i]), acts[..n][i])
    {
      assert acts[..n][..i] == acts[..i];
    }
  }

  // ------------------------------------------------------------------- the month's sum

  /** Neither the rows of a month nor any row about to be written pass a cap. */
  ghost predicate Within(s: Shop, f: nat, metric: string, month: nat, cap: nat) {
    && Covered(s.books.table, f, metric, month, cap)
    && forall p, i :: p in s.runs && s.runs[p].Collecting? && 0 <= i < |s.runs[p].draft| ==>
                        Covered(Put(s.books.table, s.runs[p].draft[i]), f, metric, month, cap)
  }

  predicate ActCapped(a: Act, f: nat, metric: string, month: nat, cap: nat) {
    a.Reads? && a.e.id == f ==> Capped(a.ledger, a.e, metric, month, cap)
  }

  lemma PutSumOf(t: Table, c: Checkpoint, s: Selector)
    requires Distinct(t)
    ensures Sum(Put(t, c), s)
            == Sum(t, s) + s.Weight(c) - if RowOf(t, c.window).Some? then s.Weight(RowOf(t, c.window).value) else 0
  {
    PutSum(t, c, s);
  }

  lemma CoveredAfterPut(t: Table, d: Checkpoint, c: Checkpoint, f: nat, metric: string, month: nat, cap: nat)
    requires Distinct(t) && d.window != c.window && !SameMonth(d, c)
    requires Covered(Put(t, d), f, metric, month, cap) && Covered(Put(t, c), f, metric, month, cap)
    ensures Covered(Put(Put(t, d), c), f, metric, month, cap)
  {
    var s := InMonth(f, metric, month);
    PutSumOf(t, d, s);
    PutSumOf(t, c, s);
    PutSumOf(Put(t, d), c, s);
    RowOfPut(t, d, c.window);
  }

  /** Statuses count for nothing in a month's sum, before or after a row is written. */
  lemma CoveredAfterMarks(t: Table, t': Table, c: Checkpoint, f: nat, metric: string, month: nat, cap: nat)
    requires Distinct(t) && Distinct(t') && Sum(t', InMonth(f, metric, month)) == Sum(t, InMonth(f, metric, month))
    requires RowOf(t', c.window) == RowOf(t, c.window) && Covered(Put(t, c), f, metric, month, cap)
    ensures Covered(Put(t', c), f, metric, month, cap)
  {
    PutSumOf(t, c, InMonth(f, metric, month));
    PutSumOf(t', c, InMonth(f, metric, month));
  }

  /** Apart from its own row, the month of a free window holds at most what is already reported. */
  lemma RestIsReported(t: Table, c: Checkpoint, month: nat)
    requires Distinct(t) && Writable(t, c) && month == MonthOf(c.window.start)
    ensures Sum(Put(t, c), InMonth(c.window.entitlement, c.window.metric, month))
            <= AlreadyReported(t, c.window.entitlement, c.window.metric, MonthStart(month)) + c.quantity
  {
    var e, m := c.window.entitlement, c.window.metric;
    var none := c.(quantity := 0);
    var all, reported := InMonth(e, m, month), ReportedSince(e, m, MonthStart(month));
    PutSumOf(t, c, all);
    PutSumOf(t, none, all);
    PutKeepsReportedSum(t, none, e, m, MonthStart(month));
    forall i | 0 <= i < |Put(t, none)| ensures all.Weight(Put(t, none)[i]) <= reported.Weight(Put(t, none)[i]) {
      RestAt(t, c, none, i);
    }
    SumAtMost(Put(t, none), all, reported);
  }

  lemma RestAt(t: Table, c: Checkpoint, none: Checkpoint, i: nat)
    requires Distinct(t) && Writable(t, c) && none == c.(quantity := 0) && i < |Put(t, none)|
    ensures
      var month := MonthOf(c.window.start);
      InMonth(c.window.entitlement, c.window.metric, month).Weight(Put(t, none)[i])
      <= ReportedSince(c.window.entitlement, c.window.metric, MonthStart(month)).Weight(Put(t, none)[i])
  {
    var x := Put(t, none)[i];
    if i < |t| && t[i].window == c.window { FindAt(t, i); }
    assert x == none || (i < |t| && x == t[i] && x.window != c.window);
    if x != none && SameMonth(x, c) {
      assert x.status == Reported;
    }
  }

  lemma ReadIsWithin(cfg: Settings, b: Books, e: Entitlement, r: Request, ledger: Ledger,
                     f: nat, metric: string, month: nat, cap: nat)
    requires Sound(cfg, b) && Preceded(b.table) && Covered(b.table, f, metric, month, cap)
    requires e.id == f ==> Capped(ledger, e, metric, month, cap)
    requires Askable(b.table, e.id, r) && BillingTheorems.Writes(b.table, e, ledger, r)
    ensures Covered(Put(b.table, RowFor(cfg, b.table, e, ledger, r)), f, metric, month, cap)
  {
    var c := RowFor(cfg, b.table, e, ledger, r);
    AskedIsWritable(b.table, e.id, r, c);
    if e.id == f && r.metric == metric && r.month == month && c.quantity > 0 {
      RestIsReported(b.table, c, month);
      QuantityWithin(cfg, b.table, e, r, ledger, cap);
    } else {
      PutSumOf(b.table, c, InMonth(f, metric, month));
    }
  }

  lemma QuantityWithin(cfg: Settings, t: Table, e: Entitlement, r: Request, ledger: Ledger, cap: nat)
    requires BillingTheorems.Writes(t, e, ledger, r) && Capped(ledger, e, r.metric, r.month, cap)
    requires RowFor(cfg, t, e, ledger, r).quantity > 0
    ensures AlreadyReported(t, e.id, r.metric, MonthStart(r.month)) + RowFor(cfg, t, e, ledger, r).quantity <= cap
  {
    RoundedIsWhole(cfg, r.metric, QuantityFor(t, e, r.metric, r.month, ledger).value);
  }

  lemma RefusedIsWithin(b: Books, e: Entitlement, c: Checkpoint, f: nat, metric: string, month: nat, cap: nat)
    requires Distinct(b.table) && Covered(b.table, f, metric, month, cap) && c in RefusedDrafts(b.table, e)
    ensures Covered(Put(b.table, c), f, metric, month, cap)
  {
    RefusedAre(b.table, e);
    var i :| IsRefused(b.table, e, c, i);
    FindAt(b.table, i);
    PutSumOf(b.table, c, InMonth(f, metric, month));
  }

  /** A table in which only the status of some rows, none of them free, has changed. */
  ghost predicate OnlyMarked(t: Table, t': Table, ops: seq<Window>, f: nat, metric: string, month: nat) {
    && Distinct(t) && Distinct(t') && Sum(t', InMonth(f, metric, month)) == Sum(t, InMonth(f, metric, month))
    && (forall w :: w in ops ==> Blocked(t, w))
    && (forall w :: w !in ops ==> RowOf(t', w) == RowOf(t, w))
  }

  lemma OnlyMarkedAll(t: Table, ops: seq<Window>, status: Status, f: nat, metric: string, month: nat)
    requires Distinct(t) && forall w :: w in ops ==> Blocked(t, w)
    ensures OnlyMarked(t, MarkAll(t, ops, status), ops, f, metric, month)
  {
    forall w | w !in ops ensures RowOf(MarkAll(t, ops, status), w) == RowOf(t, w) { RowOfMarkAll(t, ops, status, w); }
    MarkAllSum(t, ops, status, f, metric, month);
  }

  lemma MarksDistinct(t: Table, ops: seq<Window>, reply: Reply, halfway: bool)
    requires Distinct(t)
    ensures Distinct(Billing.Marks(t, ops, reply, halfway))
  {}

  lemma OnlyMarkedByReply(t: Table, ops: seq<Window>, reply: Reply, halfway: bool, f: nat, metric: string, month: nat)
    requires Distinct(t) && forall w :: w in ops ==> Blocked(t, w)
    ensures OnlyMarked(t, Billing.Marks(t, ops, reply, halfway), ops, f, metric, month)
  {
    forall w | w !in ops ensures RowOf(Billing.Marks(t, ops, reply, halfway), w) == RowOf(t, w) {
      MarksRow(t, ops, reply, halfway, w);
    }
    MarksSum(t, ops, reply, halfway, f, metric, month);
    MarksDistinct(t, ops, reply, halfway);
  }

  lemma QueuedBlocked(cfg: Settings, b: Books, run: Phase)
    requires RunOk(cfg, b, run)
    ensures forall w :: w in Windows(run.queued) ==> Blocked(b.table, w)
  {
    forall w | w in Windows(run.queued) ensures Blocked(b.table, w) { QueuedPending(b.table, run.queued, w); }
  }

  /** Marking leaves the caps, for no row about to be written has been marked. */
  lemma WithinAfterMarks(cfg: Settings, s: Shop, s': Shop, ops: seq<Window>, f: nat, metric: string, month: nat,
                         cap: nat)
    requires InOrder(cfg, s) && Within(s, f, metric, month, cap)
    requires OnlyMarked(s.books.table, s'.books.table, ops, f, metric, month)
    requires forall p :: p in s'.runs ==> p in s.runs && s'.runs[p] == s.runs[p]
    ensures Within(s', f, metric, month, cap)
  {
    forall p, i | p in s'.runs && s'.runs[p].Collecting? && 0 <= i < |s'.runs[p].draft|
      ensures Covered(Put(s'.books.table, s'.runs[p].draft[i]), f, metric, month, cap)
    {
      var c := s.runs[p].draft[i];
      assert RunOk(cfg, s.books, s.runs[p]);
      assert c.window !in ops;
      CoveredAfterMarks(s.books.table, s'.books.table, c, f, metric, month, cap);
    }
  }

  /** What is left to write after a row has been, by its run or another. */
  lemma OtherDraft(cfg: Settings, s: Shop, p: nat, q: nat, c: Checkpoint)
    requires InOrder(cfg, s) && p in s.runs && Unwritten(s.runs[p]) && q in s.runs && s.runs[q].Collecting?
    requires c in if q == p then s.runs[p].draft[1..] else s.runs[q].draft
    ensures c in s.runs[q].draft && c.window != s.runs[p].draft[0].window && Writable(s.books.table, c)
    ensures Writable(s.books.table, s.runs[p].draft[0])
  {
    assert RunOk(cfg, s.books, s.runs[p]) && RunOk(cfg, s.books, s.runs[q]);
    if q == p {
      var i :| 0 <= i < |s.runs[p].draft| - 1 && s.runs[p].draft[1..][i] == c;
      assert c == s.runs[p].draft[i + 1];
    } else {
      assert KeptApart(s.runs[p], s.runs[q]) && s.runs[p].draft[0] in s.runs[p].draft;
    }
  }

  lemma WritesWithin(cfg: Settings, s: Shop, p: nat, f: nat, metric: string, month: nat, cap: nat)
    requires InOrder(cfg, s) && Within(s, f, metric, month, cap) && p in s.runs && Unwritten(s.runs[p])
    ensures Within(Advance(cfg, s, WritesRow(p)), f, metric, month, cap)
  {
    var s', d := Advance(cfg, s, WritesRow(p)), s.runs[p].draft[0];
    forall q, i | q in s'.runs && s'.runs[q].Collecting? && 0 <= i < |s'.runs[q].draft|
      ensures Covered(Put(s'.books.table, s'.runs[q].draft[i]), f, metric, month, cap)
    {
      var c := s'.runs[q].draft[i];
      assert RunOk(cfg, s.books, s.runs[p]) && RunOk(cfg, s.books, s.runs[q]);
      OtherDraft(cfg, s, p, q, c);
      if SameMonth(d, c) { OneFreeAMonth(s.books.table, d, c); }
      CoveredAfterPut(s.books.table, d, c, f, metric, month, cap);
    }
  }

  lemma GivesUpWithin(cfg: Settings, s: Shop, p: nat, f: nat, metric: string, month: nat, cap: nat)
    requires InOrder(cfg, s) && Within(s, f, metric, month, cap) && p in s.runs && s.runs[p].Collecting?
    ensures
      var marked := s.books.(table := MarkAll(s.books.table, Windows(s.runs[p].queued), Failed));
      Within(Shop(marked, s.runs - {p}), f, metric, month, cap)
  {
    var ops := Windows(s.runs[p].queued);
    QueuedBlocked(cfg, s.books, s.runs[p]);
    OnlyMarkedAll(s.books.table, ops, Failed, f, metric, month);
    WithinAfterMarks(cfg, s, Shop(s.books.(table := MarkAll(s.books.table, ops, Failed)), s.runs - {p}), ops,
                     f, metric, month, cap);
  }

  lemma MarksWithin(cfg: Settings, s: Shop, p: nat, halfway: bool, f: nat, metric: string, month: nat, cap: nat)
    requires InOrder(cfg, s) && Within(s, f, metric, month, cap) && p in s.runs && s.runs[p].Sent?
    ensures
      var run := s.runs[p];
      var marked := s.books.(table := Billing.Marks(s.books.table, Windows(run.queued), run.delivery.reply, halfway));
      Within(Shop(marked, s.runs - {p}), f, metric, month, cap)
  {
    var run := s.runs[p];
    var ops := Windows(run.queued);
    QueuedBlocked(cfg, s.books, run);
    OnlyMarkedByReply(s.books.table, ops, run.delivery.reply, halfway, f, metric, month);
    var marked := s.books.(table := Billing.Marks(s.books.table, ops, run.delivery.reply, halfway));
    WithinAfterMarks(cfg, s, Shop(marked, s.runs - {p}), ops, f, metric, month, cap);
  }

  lemma SettlesWithin(cfg: Settings, s: Shop, ws: seq<Window>, billed: bool, f: nat, metric: string, month: nat,
                      cap: nat)
    requires InOrder(cfg, s) && Within(s, f, metric, month, cap)
    ensures Within(Advance(cfg, s, Settles(ws, billed)), f, metric, month, cap)
  {
    var open := StillPending(s.books.table, ws);
    OnlyMarkedAll(s.books.table, open, if billed then Reported else Failed, f, metric, month);
    WithinAfterMarks(cfg, s, Advance(cfg, s, Settles(ws, billed)), open, f, metric, month, cap);
  }

  lemma WithinAfterRead(s: Shop, p: nat, run: Phase, f: nat, metric: string, month: nat, cap: nat)
    requires Within(s, f, metric, month, cap) && run.Collecting?
    requires forall c :: c in run.draft ==> Covered(Put(s.books.table, c), f, metric, month, cap)
    ensures Within(s.(runs := s.runs[p := run]), f, metric, month, cap)
  {}

  lemma ReadsWithin(cfg: Settings, s: Shop, a: Act, p: nat, queued: seq<Checkpoint>,
                    f: nat, metric: string, month: nat, cap: nat)
    requires InOrder(cfg, s) && Within(s, f, metric, month, cap) && ActCapped(a, f, metric, month, cap)
    requires a.Reads? || a.ReadsRefused?
    ensures Within(s.(runs := s.runs[p := Collecting(a.e.id, Brings(cfg, s, a), queued)]), f, metric, month, cap)
  {
    forall c | c in Brings(cfg, s, a) ensures Covered(Put(s.books.table, c), f, metric, month, cap) {
      match a
      case Reads(_, e, r, ledger) => ReadIsWithin(cfg, s.books, e, r, ledger, f, metric, month, cap);
      case ReadsRefused(_, e) => RefusedIsWithin(s.books, e, c, f, metric, month, cap);
      case _ =>
    }
    WithinAfterRead(s, p, Collecting(a.e.id, Brings(cfg, s, a), queued), f, metric, month, cap);
  }

  lemma WithinFewer(s: Shop, s': Shop, f: nat, metric: string, month: nat, cap: nat)
    requires Within(s, f, metric, month, cap) && s'.books.table == s.books.table
    requires forall p :: p in s'.runs && s'.runs[p].Collecting? ==> p in s.runs && s'.runs[p] == s.runs[p]
    ensures Within(s', f, metric, month, cap)
  {}

  lemma StepWithin(cfg: Settings, s: Shop, a: Act, f: nat, metric: string, month: nat, cap: nat)
    requires InOrder(cfg, s) && Within(s, f, metric, month, cap) && ActCapped(a, f, metric, month, cap)
    ensures Within(Advance(cfg, s, a), f, metric, month, cap)
  {
    match a
    case Reads(p, e, r, ledger) =>
      ReadsWithin(cfg, s, a, p, if p in s.runs then s.runs[p].queued else [], f, metric, month, cap);
    case ReadsRefused(p, e) => ReadsWithin(cfg, s, a, p, [], f, metric, month, cap);
    case WritesRow(p) => if p in s.runs && Unwritten(s.runs[p]) { WritesWithin(cfg, s, p, f, metric, month, cap); }
    case GivesUp(p) => if p in s.runs && s.runs[p].Collecting? { GivesUpWithin(cfg, s, p, f, metric, month, cap); }
    case Sends(p, d) => WithinFewer(s, Advance(cfg, s, a), f, metric, month, cap);
    case MarksRows(p, halfway) =>
      if p in s.runs && s.runs[p].Sent? { MarksWithin(cfg, s, p, halfway, f, metric, month, cap); }
    case Dies(p) => WithinFewer(s, Advance(cfg, s, a), f, metric, month, cap);
    case Settles(ws, billed) => SettlesWithin(cfg, s, ws, billed, f, metric, month, cap);
  }

  lemma {:induction false} InTurnWithin(cfg: Settings, acts: seq<Act>, f: nat, metric: string, month: nat, cap: nat)
    requires FairRun(cfg, acts) && InTurnRun(cfg, acts)
    requires forall i :: 0 <= i < |acts| ==> ActCapped(acts[i], f, metric, month, cap)
    ensures Within(Interleaved(cfg, acts), f, metric, month, cap)
  {
    if |acts| > 0 {
      var n := |acts| - 1;
      PrefixFair(cfg, acts, n);
      InTurnWithin(cfg, acts[..n], f, metric, month, cap);
      InTurnKeeps(cfg, acts[..n]);
      StepWithin(cfg, Interleaved(cfg, acts[..n]), acts[n], f, metric, month, cap);
    }
  }

  // ---------------------------------------------------------------------- the theorems

  /** However runs overlap, if no window is read up that another run still has to write, no
      window is billed twice, and each at what its row records. */
  lemma InTurnBillsOnce(cfg: Settings, acts: seq<Act>)
    requires FairRun(cfg, acts) && InTurnRun(cfg, acts)
    ensures BilledOnce(Interleaved(cfg, acts).books)
  {
    InTurnKeeps(cfg, acts);
    AgreedIsBilledOnce(Interleaved(cfg, acts).books);
  }

  /** And the amount billed for a metric and month never passes the highest billable total any
      run has read for them. */
  lemma InTurnNeverOverBilled(cfg: Settings, acts: seq<Act>, e: nat, metric: string, month: nat, cap: nat)
    requires FairRun(cfg, acts) && InTurnRun(cfg, acts)
    requires forall i :: 0 <= i < |acts| ==> ActCapped(acts[i], e, metric, month, cap)
    ensures ChargedIn(Interleaved(cfg, acts).books.charged, e, metric, month) <= cap
  {
    InTurnKeeps(cfg, acts);
    InTurnWithin(cfg, acts, e, metric, month, cap);
    ChargedAtMostRows(Interleaved(cfg, acts).books, e, metric, month);
  }
}

/** A report run that nothing comes between is the report run taken as one step elsewhere. */
module BillingAlone {
  import opened Wrappers
  import opened Calendar
  import opened Checkpoints
  import opened Billing
  import opened BillingInvariant
  import opened BillingTheorems
  import opened BillingOverlap
  import opened BillingWritable
  import opened BillingOverlapTheorems

  // ------------------------------------------------------------- looking up and writing

  /** Each window in turn looked up and, if it is to be, written. */
  function LookUps(p: nat, e: Entitlement, ledger: Ledger, rs: seq<Request>): seq<Act> {
    if |rs| == 0 then []
    else LookUps(p, e, ledger, rs[..|rs| - 1]) + [Reads(p, e, rs[|rs| - 1], ledger)] + [WritesRow(p)]
  }

  /** The rows written, whose operations are queued. */
  function Queue(cfg: Settings, t: Table, e: Entitlement, ledger: Ledger, rs: seq<Request>): seq<Checkpoint> {
    if |rs| == 0 then []
    else
      var front, r := rs[..|rs| - 1], rs[|rs| - 1];
      var before := AddAll(cfg, t, e, ledger, front).table;
      Queue(cfg, t, e, ledger, front)
      + if BillingTheorems.Writes(before, e, ledger, r) then [RowFor(cfg, before, e, ledger, r)] else []
  }

  lemma {:induction false} QueueIs(cfg: Settings, t: Table, e: Entitlement, ledger: Ledger, rs: seq<Request>)
    requires Distinct(t)
    ensures
      var c := AddAll(cfg, t, e, ledger, rs);
      && Distinct(c.table) && Windows(Queue(cfg, t, e, ledger, rs)) == c.operations
      && forall x :: x in Queue(cfg, t, e, ledger, rs) ==> x.status == Pending && RowOf(c.table, x.window) == Some(x)
  {
    if |rs| > 0 {
      var front, r := rs[..|rs| - 1], rs[|rs| - 1];
      QueueIs(cfg, t, e, ledger, front);
      var before := AddAll(cfg, t, e, ledger, front);
      AddWindowRow(cfg, before, e, ledger, r, KeyOf(e, r));
      forall x | x in Queue(cfg, t, e, ledger, front)
        ensures RowOf(AddWindow(cfg, before, e, ledger, r).table, x.window) == Some(x)
      {
        AddWindowRow(cfg, before, e, ledger, r, x.window);
      }
    }
  }

  lemma {:induction false} ReportedRowsStay(cfg: Settings, t: Table, e: Entitlement, ledger: Ledger, rs: seq<Request>)
    requires Distinct(t)
    ensures ReportedStay(t, AddAll(cfg, t, e, ledger, rs).table)
  {
    if |rs| > 0 {
      var front, r := rs[..|rs| - 1], rs[|rs| - 1];
      var before := AddAll(cfg, t, e, ledger, front);
      ReportedRowsStay(cfg, t, e, ledger, front);
      QueueIs(cfg, t, e, ledger, front);
      if BillingTheorems.Writes(before.table, e, ledger, r) {
        PutLeavesReported(before.table, RowFor(cfg, before.table, e, ledger, r));
      }
    }
  }

  lemma PermittedFollows(t: Table, e: nat, r: Request)
    requires Permitted(LastWindowEnd(t, e, r.metric), r)
    ensures Askable(t, e, r)
  {
    LastWindowEndIsGreatest(t, e, r.metric);
  }

  /** A request of a run may be looked up whenever its turn comes. */
  lemma AskableInTurn(cfg: Settings, t: Table, e: Entitlement, ledger: Ledger, front: seq<Request>, r: Request)
    requires Distinct(t) && Permitted(LastWindowEnd(t, e.id, r.metric), r)
    ensures Askable(AddAll(cfg, t, e, ledger, front).table, e.id, r)
  {
    PermittedFollows(t, e.id, r);
    ReportedRowsStay(cfg, t, e, ledger, front);
    StillFromBefore(t, AddAll(cfg, t, e, ledger, front).table, e.id, r.metric, r.start);
  }

  // ----------------------------------------------------------------- one step at a time

  /** The one run there is, after some of its windows. */
  function Collecting1(b: Books, p: nat, e: nat, started: bool, queued: seq<Checkpoint>): Shop {
    Shop(b, if started then map[p := Collecting(e, [], queued)] else map[])
  }

  lemma LookUpStep(cfg: Settings, b: Books, p: nat, e: Entitlement, ledger: Ledger, r: Request,
                   started: bool, queued: seq<Checkpoint>)
    requires e.consumer != "" && e.planMapped && r.metric in e.metricIds && Askable(b.table, e.id, r)
    requires started || queued == []
    ensures
      var row := if BillingTheorems.Writes(b.table, e, ledger, r) then [RowFor(cfg, b.table, e, ledger, r)] else [];
      Advance(cfg, Collecting1(b, p, e.id, started, queued), Reads(p, e, r, ledger))
      == Shop(b, map[p := Collecting(e.id, row, queued)])
  {}

  lemma WriteStep(cfg: Settings, b: Books, p: nat, e: nat, c: Checkpoint, queued: seq<Checkpoint>)
    ensures Advance(cfg, Shop(b, map[p := Collecting(e, [c], queued)]), WritesRow(p))
            == Collecting1(b.(table := Put(b.table, c)), p, e, true, queued + [c])
    ensures Advance(cfg, Shop(b, map[p := Collecting(e, [], queued)]), WritesRow(p))
            == Collecting1(b, p, e, true, queued)
  {
    assert [c][1..] == [];
  }

  lemma SendStep(cfg: Settings, b: Books, p: nat, e: nat, queued: seq<Checkpoint>, d: Delivery)
    requires queued != []
    ensures Advance(cfg, Collecting1(b, p, e, true, queued), Sends(p, d))
            == Shop(b.(charged := b.charged + ChargesOf(queued, d.took)), map[p := Sent(e, queued, d)])
  {}

  lemma NoneLeft(p: nat, run: Phase)
    ensures map[p := run] - {p} == map[]
  {}

  lemma MarkStep(cfg: Settings, b: Books, p: nat, e: nat, queued: seq<Checkpoint>, d: Delivery, halfway: bool)
    ensures Advance(cfg, Shop(b, map[p := Sent(e, queued, d)]), MarksRows(p, halfway))
            == Shop(b.(table := Billing.Marks(b.table, Windows(queued), d.reply, halfway)), map[])
    ensures Advance(cfg, Shop(b, map[p := Sent(e, queued, d)]), Dies(p)) == Shop(b, map[])
  {
    NoneLeft(p, Sent(e, queued, d));
  }

  lemma StopStep(cfg: Settings, b: Books, p: nat, e: nat, started: bool, queued: seq<Checkpoint>)
    requires started || queued == []
    ensures Advance(cfg, Collecting1(b, p, e, started, queued), Dies(p)) == Shop(b, map[])
    ensures Advance(cfg, Collecting1(b, p, e, started, queued), GivesUp(p))
            == Shop(b.(table := MarkAll(b.table, Windows(queued), Failed)), map[])
  {
    var none: map<nat, Phase> := map[];
    NoneLeft(p, Collecting(e, [], queued));
    assert none - {p} == none;
  }

  // ------------------------------------------------------------------------ whole runs

  lemma {:induction false} LooksUpAll(cfg: Settings, b: Books, p: nat, e: Entitlement, ledger: Ledger, rs: seq<Request>)
    requires Distinct(b.table) && e.consumer != "" && e.planMapped
    requires forall r :: r in rs ==> r.metric in e.metricIds && Permitted(LastWindowEnd(b.table, e.id, r.metric), r)
    ensures From(cfg, Shop(b, map[]), LookUps(p, e, ledger, rs))
            == Collecting1(b.(table := AddAll(cfg, b.table, e, ledger, rs).table), p, e.id, rs != [],
                           Queue(cfg, b.table, e, ledger, rs))
  {
    if |rs| == 0 {
      assert b.(table := b.table) == b;
    } else {
      var front, r := rs[..|rs| - 1], rs[|rs| - 1];
      LooksUpAll(cfg, b, p, e, ledger, front);
      AskableInTurn(cfg, b.table, e, ledger, front, r);
      OneLookUp(cfg, b, p, e, ledger, front, r, front != [], Queue(cfg, b.table, e, ledger, front));
      FromOneMore(cfg, Shop(b, map[]), LookUps(p, e, ledger, front), Reads(p, e, r, ledger));
      FromOneMore(cfg, Shop(b, map[]), LookUps(p, e, ledger, front) + [Reads(p, e, r, ledger)], WritesRow(p));
    }
  }

  lemma OneLookUp(cfg: Settings, b: Books, p: nat, e: Entitlement, ledger: Ledger, front: seq<Request>, r: Request,
                  started: bool, queued: seq<Checkpoint>)
    requires e.consumer != "" && e.planMapped && r.metric in e.metricIds && (started || queued == [])
    requires Askable(AddAll(cfg, b.table, e, ledger, front).table, e.id, r)
    ensures
      var c := AddAll(cfg, b.table, e, ledger, front);
      var row := if BillingTheorems.Writes(c.table, e, ledger, r) then [RowFor(cfg, c.table, e, ledger, r)] else [];
      var read := Advance(cfg, Collecting1(b.(table := c.table), p, e.id, started, queued), Reads(p, e, r, ledger));
      Advance(cfg, read, WritesRow(p))
      == Collecting1(b.(table := AddWindow(cfg, c, e, ledger, r).table), p, e.id, true, queued + row)
  {
    var c := AddAll(cfg, b.table, e, ledger, front);
    LookUpStep(cfg, b.(table := c.table), p, e, ledger, r, started, queued);
    if BillingTheorems.Writes(c.table, e, ledger, r) {
      WriteStep(cfg, b.(table := c.table), p, e.id, RowFor(cfg, c.table, e, ledger, r), queued);
    } else {
      WriteStep(cfg, b.(table := c.table), p, e.id, Checkpoint(KeyOf(e, r), 0, 0, Pending), queued);
      assert queued + [] == queued;
    }
  }

  /** How many windows a run gets to look up. */
  function Reached(m: Mishap, n: nat): nat {
    match m
    case CollectRaises(after) => Upto(after, n)
    case DiesCollecting(after) => Upto(after, n)
    case _ => n
  }

  /** How a run goes on once its windows are written. */
  function Ending(p: nat, queues: bool, check: CheckReply, d: Delivery, m: Mishap): seq<Act> {
    if m.CollectRaises? then [GivesUp(p)]
    else if m.DiesCollecting? || !queues then [Dies(p)]
    else if check != Entitled then [GivesUp(p)]
    else
      match m
      case DiesBeforeSend => [Dies(p)]
      case DiesAfterSend => [Sends(p, d), Dies(p)]
      case _ => [Sends(p, d), MarksRows(p, m.DiesBetweenMarks?)]
  }

  /** The steps of one run, whatever becomes of it. */
  function RunAlone(cfg: Settings, t: Table, p: nat, e: Entitlement, now: nat, ledger: Ledger,
                    check: CheckReply, d: Delivery, m: Mishap): seq<Act>
  {
    if e.consumer == "" || !e.planMapped then []
    else
      var rs := Requests(t, e, cfg.dimensions, now);
      var reached := rs[..Reached(m, |rs|)];
      LookUps(p, e, ledger, reached) + Ending(p, AddAll(cfg, t, e, ledger, reached).operations != [], check, d, m)
  }

  lemma OneStep(cfg: Settings, s: Shop, a: Act)
    ensures From(cfg, s, [a]) == Advance(cfg, s, a)
  {
    FromOneMore(cfg, s, [], a);
    assert [] + [a] == [a];
  }

  lemma TwoSteps(cfg: Settings, s: Shop, a: Act, z: Act)
    ensures From(cfg, s, [a, z]) == Advance(cfg, Advance(cfg, s, a), z)
  {
    OneStep(cfg, s, a);
    FromOneMore(cfg, s, [a], z);
    assert [a] + [z] == [a, z];
  }

  /** What is left of a run that has written its windows: nothing, or what its sending does. */
  lemma EndsAsReported(cfg: Settings, b: Books, p: nat, e: nat, started: bool, queued: seq<Checkpoint>,
                       check: CheckReply, d: Delivery, m: Mishap)
    requires started || queued == []
    requires Distinct(b.table) && forall x :: x in queued ==> RowOf(b.table, x.window) == Some(x)
    ensures
      var ops := Windows(queued);
      From(cfg, Collecting1(b, p, e, started, queued), Ending(p, ops != [], check, d, m))
      == Shop(if m.CollectRaises? then b.(table := MarkAll(b.table, ops, Failed))
              else if m.DiesCollecting? || ops == [] then b
              else if check != Entitled then b.(table := MarkAll(b.table, ops, Failed))
              else Deliver(b, ops, d, m), map[])
  {
    var s, acts := Collecting1(b, p, e, started, queued), Ending(p, Windows(queued) != [], check, d, m);
    StopStep(cfg, b, p, e, started, queued);
    if |acts| == 1 {
      OneStep(cfg, s, acts[0]);
    } else {
      TwoSteps(cfg, s, acts[0], acts[1]);
      SendsAsDelivered(cfg, b, p, e, queued, d, m);
    }
  }

  lemma SendsAsDelivered(cfg: Settings, b: Books, p: nat, e: nat, queued: seq<Checkpoint>, d: Delivery, m: Mishap)
    requires queued != [] && !m.DiesBeforeSend?
    requires forall x :: x in queued ==> RowOf(b.table, x.window) == Some(x)
    ensures
      var sent := Advance(cfg, Collecting1(b, p, e, true, queued), Sends(p, d));
      Advance(cfg, sent, if m.DiesAfterSend? then Dies(p) else MarksRows(p, m.DiesBetweenMarks?))
      == Shop(Deliver(b, Windows(queued), d, m), map[])
  {
    forall i | 0 <= i < |queued|
      ensures RowOf(b.table, queued[i].window).Some?
              && RowOf(b.table, queued[i].window).value.quantity == queued[i].quantity
    {
      assert queued[i] in queued;
    }
    ChargesAre(b.table, queued, d.took);
    SendStep(cfg, b, p, e, queued, d);
    MarkStep(cfg, b.(charged := b.charged + ChargesOf(queued, d.took)), p, e, queued, d, m.DiesBetweenMarks?);
  }

  /** One after the other, the steps are the report run they were taken for, with any check
      reply, delivery and mishap. */
  lemma AloneIsReport(cfg: Settings, b: Books, p: nat, e: Entitlement, now: nat, ledger: Ledger,
                      check: CheckReply, d: Delivery, m: Mishap)
    requires Distinct(b.table)
    ensures From(cfg, Shop(b, map[]), RunAlone(cfg, b.table, p, e, now, ledger, check, d, m))
            == Shop(Report(cfg, b, e, now, ledger, check, d, m), map[])
  {
    if e.consumer != "" && e.planMapped {
      var all := Requests(b.table, e, cfg.dimensions, now);
      var rs := all[..Reached(m, |all|)];
      var c, queued := AddAll(cfg, b.table, e, ledger, rs), Queue(cfg, b.table, e, ledger, rs);
      RequestsPermitted(b.table, e, cfg.dimensions, now);
      LooksUpAll(cfg, b, p, e, ledger, rs);
      QueueIs(cfg, b.table, e, ledger, rs);
      EndsAsReported(cfg, b.(table := c.table), p, e.id, rs != [], queued, check, d, m);
      FromTwo(cfg, Shop(b, map[]), LookUps(p, e, ledger, rs), Ending(p, c.operations != [], check, d, m));
      ReportIs(cfg, b, e, now, ledger, check, d, m);
    }
  }

  lemma ReportIs(cfg: Settings, b: Books, e: Entitlement, now: nat, ledger: Ledger, check: CheckReply, d: Delivery,
                 m: Mishap)
    requires e.consumer != "" && e.planMapped
    ensures
      var all := Requests(b.table, e, cfg.dimensions, now);
      var c := AddAll(cfg, b.table, e, ledger, all[..Reached(m, |all|)]);
      var written := b.(table := c.table);
      Report(cfg, b, e, now, ledger, check, d, m)
      == if m.CollectRaises? then written.(table := MarkAll(c.table, c.operations, Failed))
         else if m.DiesCollecting? || c.operations == [] then written
         else if check != Entitled then written.(table := MarkAll(c.table, c.operations, Failed))
         else Deliver(written, c.operations, d, m)
  {
    var all := Requests(b.table, e, cfg.dimensions, now);
    assert all[..|all|] == all;
  }

  // ------------------------------------------------------------------------------ resends

  /** A draft is the row it came from, waiting again. */
  ghost predicate IsDraftOf(t: Table, c: Checkpoint) {
    RowOf(t, c.window).Some? && c == RowOf(t, c.window).value.(status := Pending)
  }

  lemma {:induction false} DraftsAreResendable(t: Table, e: Entitlement)
    requires Distinct(t)
    ensures Windows(RefusedDrafts(t, e)) == Resendable(t, e)
    ensures forall c :: c in RefusedDrafts(t, e) ==> IsDraftOf(t, c)
  {
    if |t| > 0 {
      var front, n := t[..|t| - 1], |t| - 1;
      DraftsAreResendable(front, e);
      FindAt(t, n);
      forall c | c in RefusedDrafts(front, e) ensures IsDraftOf(t, c) {
        var i := Find(front, c.window).value;
        assert front[i] == t[i];
        FindAt(t, i);
      }
    }
  }

  function Writings(p: nat, n: nat): seq<Act> {
    if n == 0 then [] else Writings(p, n - 1) + [WritesRow(p)]
  }

  lemma PutsBack(t: Table, ws: seq<Window>, c: Checkpoint)
    requires Distinct(t) && IsDraftOf(t, c)
    ensures Put(MarkAll(t, ws, Pending), c) == MarkAll(t, ws + [c.window], Pending)
  {
    var i := Find(t, c.window).value;
    var marked := MarkAll(t, ws, Pending);
    MarkAllAt(t, ws, Pending);
    FindAt(marked, i);
    assert (ws + [c.window])[..|ws|] == ws;
    assert marked[i].(status := Pending) == c;
  }

  /** A retry that has written the first n of its drafts. */
  function Halfway(b: Books, p: nat, e: nat, draft: seq<Checkpoint>, n: nat): Shop
    requires n <= |draft|
  {
    Shop(b.(table := MarkAll(b.table, Windows(draft[..n]), Pending)),
         map[p := Collecting(e, draft[n..], draft[..n])])
  }

  lemma {:induction false} WritesBack(cfg: Settings, b: Books, p: nat, e: nat, draft: seq<Checkpoint>, n: nat)
    requires Distinct(b.table) && n <= |draft| && forall i :: 0 <= i < n ==> IsDraftOf(b.table, draft[i])
    ensures From(cfg, Halfway(b, p, e, draft, 0), Writings(p, n)) == Halfway(b, p, e, draft, n)
  {
    if n > 0 {
      var acts := Writings(p, n - 1);
      assert IsDraftOf(b.table, draft[n - 1]);
      WritesBack(cfg, b, p, e, draft, n - 1);
      FromOneMore(cfg, Halfway(b, p, e, draft, 0), acts, WritesRow(p));
      HalfwayOn(cfg, b, p, e, draft, n - 1);
      assert Writings(p, n) == acts + [WritesRow(p)];
    }
  }

  lemma HalfwayStarts(b: Books, p: nat, e: nat, draft: seq<Checkpoint>)
    ensures Halfway(b, p, e, draft, 0) == Shop(b, map[p := Collecting(e, draft, [])])
  {
    assert draft[0..] == draft && draft[..0] == [] && Windows(draft[..0]) == [];
    assert b.(table := b.table) == b;
  }

  lemma HalfwayOn(cfg: Settings, b: Books, p: nat, e: nat, draft: seq<Checkpoint>, n: nat)
    requires Distinct(b.table) && n < |draft| && IsDraftOf(b.table, draft[n])
    ensures Advance(cfg, Halfway(b, p, e, draft, n), WritesRow(p)) == Halfway(b, p, e, draft, n + 1)
  {
    var t, c := MarkAll(b.table, Windows(draft[..n]), Pending), draft[n];
    assert draft[n..] == [c] + draft[n + 1..];
    WritesNext(cfg, b.(table := t), p, e, c, draft[n + 1..], draft[..n]);
    PutsBack(b.table, Windows(draft[..n]), c);
    assert draft[..n] + [c] == draft[..n + 1];
    assert Windows(draft[..n + 1]) == Windows(draft[..n]) + [c.window];
  }

  lemma WritesNext(cfg: Settings, b: Books, p: nat, e: nat, c: Checkpoint, rest: seq<Checkpoint>,
                   queued: seq<Checkpoint>)
    ensures Advance(cfg, Shop(b, map[p := Collecting(e, [c] + rest, queued)]), WritesRow(p))
            == Shop(b.(table := Put(b.table, c)), map[p := Collecting(e, rest, queued + [c])])
  {
    assert ([c] + rest)[1..] == rest;
  }

  /** The steps of a retry of refused windows: cut short, it leaves what it has written. */
  function ResendAlone(t: Table, p: nat, e: Entitlement, d: Delivery, m: Mishap): seq<Act> {
    var n := |RefusedDrafts(t, e)|;
    [ReadsRefused(p, e)] + Writings(p, Reached(m, n))
    + if m.CollectRaises? then [Dies(p)] else Ending(p, n > 0, Entitled, d, m)
  }

  /** One after the other, these steps are the retry they were taken for; and settling is the
      same step whoever else is at work. */
  lemma AloneIsResend(cfg: Settings, b: Books, p: nat, e: Entitlement, d: Delivery, m: Mishap)
    requires Distinct(b.table)
    ensures From(cfg, Shop(b, map[]), ResendAlone(b.table, p, e, d, m)) == Shop(Resend(b, e, d, m), map[])
  {
    var draft := RefusedDrafts(b.table, e);
    var n := Reached(m, |draft|);
    var queued := draft[..n];
    DraftsAreResendable(b.table, e);
    assert Windows(queued) == Resendable(b.table, e)[..n];
    var last := if m.CollectRaises? then [Dies(p)] else Ending(p, draft != [], Entitled, d, m);
    OneStep(cfg, Shop(b, map[]), ReadsRefused(p, e));
    FromTwo(cfg, Shop(b, map[]), [ReadsRefused(p, e)], Writings(p, n));
    FromTwo(cfg, Shop(b, map[]), [ReadsRefused(p, e)] + Writings(p, n), last);
    HalfwayStarts(b, p, e.id, draft);
    WritesBack(cfg, b, p, e.id, draft, n);
    LeavesWritten(cfg, b, p, e, draft, d, m);
  }

  lemma LeavesWritten(cfg: Settings, b: Books, p: nat, e: Entitlement, draft: seq<Checkpoint>, d: Delivery, m: Mishap)
    requires Distinct(b.table) && draft == RefusedDrafts(b.table, e) && Windows(draft) == Resendable(b.table, e)
    requires forall c :: c in draft ==> IsDraftOf(b.table, c)
    ensures
      var n := Reached(m, |draft|);
      var last := if m.CollectRaises? then [Dies(p)] else Ending(p, |draft| > 0, Entitled, d, m);
      From(cfg, Halfway(b, p, e.id, draft, n), last)
      == Shop(Resend(b, e, d, m), map[])
  {
    var n := Reached(m, |draft|);
    var t := MarkAll(b.table, Windows(draft[..n]), Pending);
    var run := Collecting(e.id, draft[n..], draft[..n]);
    assert Windows(draft[..n]) == Resendable(b.table, e)[..n];
    ResendIs(b, e, d, m);
    if m.CollectRaises? || m.DiesCollecting? || draft == [] {
      OneStep(cfg, Shop(b.(table := t), map[p := run]), Dies(p));
      NoneLeft(p, run);
    } else {
      assert draft[..n] == draft && draft[n..] == [];
      WrittenRows(b.table, draft);
      EndsAsReported(cfg, b.(table := t), p, e.id, true, draft, Entitled, d, m);
    }
  }

  lemma ResendIs(b: Books, e: Entitlement, d: Delivery, m: Mishap)
    ensures
      var ws := Resendable(b.table, e);
      var waiting := b.(table := MarkAll(b.table, ws[..Reached(m, |ws|)], Pending));
      Resend(b, e, d, m)
      == if m.CollectRaises? || m.DiesCollecting? || ws == [] then waiting else Deliver(waiting, ws, d, m)
  {
    var ws := Resendable(b.table, e);
    assert ws[..|ws|] == ws;
  }

  lemma WrittenRows(t: Table, draft: seq<Checkpoint>)
    requires Distinct(t) && forall c :: c in draft ==> IsDraftOf(t, c)
    ensures forall c :: c in draft ==> RowOf(MarkAll(t, Windows(draft), Pending), c.window) == Some(c)
  {
    var marked := MarkAll(t, Windows(draft), Pending);
    MarkAllAt(t, Windows(draft), Pending);
    forall c | c in draft ensures RowOf(marked, c.window) == Some(c) {
      var k :| 0 <= k < |draft| && draft[k] == c;
      assert Windows(draft)[k] == c.window;
      FindAt(marked, Find(t, c.window).value);
    }
  }

  lemma SettlesAlike(cfg: Settings, s: Shop, ws: seq<Window>, billed: bool)
    ensures Advance(cfg, s, Settles(ws, billed)).books == Take(cfg, s.books, Settle(ws, billed))
    ensures Advance(cfg, s, Settles(ws, billed)).runs == s.runs
  {}
}

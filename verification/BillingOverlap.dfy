/** Report runs that overlap.  Nothing keeps the hourly report and a cancellation's final report
    of one entitlement apart, so a run is taken in pieces here: it looks its windows up, writes
    their rows, sends them and marks them, with any steps of other runs in between. */
module BillingOverlap {
  import opened Wrappers
  import opened Calendar
  import opened Checkpoints
  import opened Billing
  import opened BillingInvariant
  import opened BillingSteps
  import opened BillingTheorems

  /** A run in progress: the rows it has read up and still has to write, and those written,
      whose operations it carries; or the operations sent, and how the call will end. */
  datatype Phase =
    | Collecting(entitlement: nat, draft: seq<Checkpoint>, queued: seq<Checkpoint>)
    | Sent(entitlement: nat, queued: seq<Checkpoint>, delivery: Delivery)

  datatype Shop = Shop(books: Books, runs: map<nat, Phase>)

  /** The steps of the runs.  `Reads` looks one window up: what its month already holds, and
      whether its row is free; `ReadsRefused` reads the windows a resend takes up; `GivesUp`
      is an exception or a failed check, and `Dies` leaves everything as it is. */
  datatype Act =
    | Reads(run: nat, e: Entitlement, r: Request, ledger: Ledger)
    | ReadsRefused(run: nat, e: Entitlement)
    | WritesRow(run: nat)
    | GivesUp(run: nat)
    | Sends(run: nat, delivery: Delivery)
    | MarksRows(run: nat, halfway: bool)
    | Dies(run: nat)
    | Settles(windows: seq<Window>, billed: bool)

  /** A reported window of the metric ends here. */
  predicate EndsAt(t: Table, e: nat, metric: string, at: nat) {
    exists i :: 0 <= i < |t| && Same(t[i], e, metric) && t[i].status == Reported && t[i].end == at
  }

  /** Where a window starts: at the first instant of a month, or where a reported one ends. */
  predicate FromBefore(t: Table, e: nat, metric: string, start: nat) {
    start == MonthStart(MonthOf(start)) || EndsAt(t, e, metric, start)
  }

  /** A window a run may look up, though reporting may have got further since it read where
      reporting stopped. */
  predicate Askable(t: Table, e: nat, r: Request) {
    && r.start < r.end && r.month == MonthOf(r.start)
    && (MonthOf(r.end) == r.month || r.end == MonthStart(MonthOf(r.end)))
    && FromBefore(t, e, r.metric, r.start)
  }

  function Windows(rows: seq<Checkpoint>): (ws: seq<Window>)
    ensures |ws| == |rows| && forall i :: 0 <= i < |rows| ==> ws[i] == rows[i].window
  {
    seq(|rows|, i requires 0 <= i < |rows| => rows[i].window)
  }

  function RefusedDrafts(t: Table, e: Entitlement): seq<Checkpoint> {
    if |t| == 0 then []
    else
      var c := t[|t| - 1];
      RefusedDrafts(t[..|t| - 1], e)
      + if c.status == Failed && c.window.entitlement == e.id && c.window.metric in e.metricIds
        then [c.(status := Pending)] else []
  }

  /** An operation carries the quantity its own run computed. */
  function ChargesOf(rows: seq<Checkpoint>, took: set<Window>): seq<Charge> {
    if |rows| == 0 then []
    else
      var c := rows[|rows| - 1];
      ChargesOf(rows[..|rows| - 1], took) + if c.window in took then [Charge(c.window, c.quantity)] else []
  }

  /** A run reads for one entitlement, and writes what it has read before it reads on. */
  predicate MayRead(s: Shop, p: nat, e: Entitlement) {
    && e.consumer != "" && e.planMapped
    && (p in s.runs ==> s.runs[p].Collecting? && s.runs[p].draft == [] && s.runs[p].entitlement == e.id)
  }

  /** The rows a step leaves its run to write. */
  function Brings(cfg: Settings, s: Shop, a: Act): seq<Checkpoint> {
    match a
    case Reads(p, e, r, ledger) =>
      if MayRead(s, p, e) && r.metric in e.metricIds && Askable(s.books.table, e.id, r)
         && Writes(s.books.table, e, ledger, r)
      then [RowFor(cfg, s.books.table, e, ledger, r)] else []
    case ReadsRefused(p, e) => if p in s.runs then [] else RefusedDrafts(s.books.table, e)
    case _ => []
  }

  function Advance(cfg: Settings, s: Shop, a: Act): Shop {
    match a
    case Reads(p, e, r, ledger) =>
      if !MayRead(s, p, e) then s
      else
        var queued := if p in s.runs then s.runs[p].queued else [];
        s.(runs := s.runs[p := Collecting(e.id, Brings(cfg, s, a), queued)])
    case ReadsRefused(p, e) =>
      if p in s.runs then s else s.(runs := s.runs[p := Collecting(e.id, Brings(cfg, s, a), [])])
    case WritesRow(p) =>
      if p !in s.runs || !s.runs[p].Collecting? || s.runs[p].draft == [] then s
      else
        var run := s.runs[p];
        Shop(s.books.(table := Put(s.books.table, run.draft[0])),
             s.runs[p := Collecting(run.entitlement, run.draft[1..], run.queued + [run.draft[0]])])
    case GivesUp(p) =>
      if p !in s.runs || !s.runs[p].Collecting? then s
      else Shop(s.books.(table := MarkAll(s.books.table, Windows(s.runs[p].queued), Failed)), s.runs - {p})
    case Sends(p, d) =>
      if !MaySend(s, p) then s
      else
        var run := s.runs[p];
        Shop(s.books.(charged := s.books.charged + ChargesOf(run.queued, d.took)),
             s.runs[p := Sent(run.entitlement, run.queued, d)])
    case MarksRows(p, halfway) =>
      if p !in s.runs || !s.runs[p].Sent? then s
      else
        var run := s.runs[p];
        Shop(s.books.(table := Billing.Marks(s.books.table, Windows(run.queued), run.delivery.reply, halfway)),
             s.runs - {p})
    case Dies(p) => s.(runs := s.runs - {p})
    case Settles(ws, billed) =>
      var t := s.books.table;
      s.(books := s.books.(table := MarkAll(t, StillPending(t, ws), if billed then Reported else Failed)))
  }

  predicate MaySend(s: Shop, p: nat) {
    p in s.runs && s.runs[p].Collecting? && s.runs[p].draft == [] && s.runs[p].queued != []
  }

  const Closed := Shop(Books([], []), map[])

  /** Where a list of steps leads. */
  function From(cfg: Settings, s: Shop, acts: seq<Act>): Shop {
    if |acts| == 0 then s else Advance(cfg, From(cfg, s, acts[..|acts| - 1]), acts[|acts| - 1])
  }

  function Interleaved(cfg: Settings, acts: seq<Act>): Shop {
    From(cfg, Closed, acts)
  }

  /** Google answers truthfully; and a person settles a window as what it was, once no run has
      it in hand any more. */
  ghost predicate Fair(s: Shop, a: Act) {
    match a
    case Sends(p, d) => MaySend(s, p) ==> Truthful(d, Windows(s.runs[p].queued))
    case Settles(ws, billed) =>
      forall w :: w in StillPending(s.books.table, ws) ==>
                    && (w in BilledWindows(s.books.charged) <==> billed)
                    && forall p :: p in s.runs ==> w !in Windows(s.runs[p].queued)
    case _ => true
  }

  ghost predicate NoneShared(draft: seq<Checkpoint>, other: seq<Checkpoint>) {
    forall c, d :: c in draft && d in other ==> c.window != d.window
  }

  /** No window is read up that another run still has to write. */
  ghost predicate InTurn(cfg: Settings, s: Shop, a: Act) {
    forall q :: q in s.runs && s.runs[q].Collecting? ==> NoneShared(Brings(cfg, s, a), s.runs[q].draft)
  }

  ghost predicate FairFrom(cfg: Settings, s: Shop, acts: seq<Act>) {
    forall i :: 0 <= i < |acts| ==> Fair(From(cfg, s, acts[..i]), acts[i])
  }

  ghost predicate FairRun(cfg: Settings, acts: seq<Act>) {
    FairFrom(cfg, Closed, acts)
  }

  ghost predicate InTurnRun(cfg: Settings, acts: seq<Act>) {
    forall i :: 0 <= i < |acts| ==> InTurn(cfg, Interleaved(cfg, acts[..i]), acts[i])
  }

  /** Every row starts where a month does, or where a reported one ended. */
  ghost predicate Preceded(t: Table) {
    forall i :: 0 <= i < |t| ==> FromBefore(t, t[i].window.entitlement, t[i].window.metric, t[i].window.start)
  }

  lemma FromOneMore(cfg: Settings, s: Shop, acts: seq<Act>, a: Act)
    ensures From(cfg, s, acts + [a]) == Advance(cfg, From(cfg, s, acts), a)
  {
    assert (acts + [a])[..|acts|] == acts;
  }

  lemma LastApart<T>(front: seq<T>, more: seq<T>)
    requires |more| > 0
    ensures
      var n := |more| - 1;
      more == more[..n] + [more[n]] && front + more == (front + more[..n]) + [more[n]]
  {}

  lemma {:induction false} FromTwo(cfg: Settings, s: Shop, acts: seq<Act>, more: seq<Act>)
    ensures From(cfg, s, acts + more) == From(cfg, From(cfg, s, acts), more)
  {
    if |more| == 0 {
      assert acts + more == acts;
    } else {
      var front, a := more[..|more| - 1], more[|more| - 1];
      FromTwo(cfg, s, acts, front);
      LastApart(acts, more);
      FromOneMore(cfg, s, acts + front, a);
      FromOneMore(cfg, From(cfg, s, acts), front, a);
    }
  }
}

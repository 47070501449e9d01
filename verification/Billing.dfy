/** Usage reporting to Google as functions on the checkpoint table and on the charges
    Google records.  The imperative reporter is proved against these functions. */
module Billing {
  import opened Wrappers
  import opened Calendar
  import opened Checkpoints

  /** Quantities count millionths; metrics that are not float go out in whole units. */
  const UNIT: nat := 1_000_000

  function WholeUnits(q: nat): nat {
    q - q % UNIT
  }

  datatype Settings = Settings(dimensions: seq<string>, floats: set<string>)

  /** An organization's month-to-date totals per (dimension, month), if metering is installed. */
  datatype Ledger = Ledger(installed: bool, totals: map<(string, nat), int>)

  /** An entitlement with what its plan id resolves to: whether the plan is mapped, the
      metric id of each billed dimension, and the free monthly allowances. */
  datatype Entitlement = Entitlement(
    id: nat,
    consumer: string,
    planMapped: bool,
    metricIds: map<string, string>,
    allowance: map<string, int>,
    googleUpdate: Option<nat>)

  datatype Charge = Charge(window: Window, quantity: nat)

  /** The local table and, on the other side, everything Google has ever billed. */
  datatype Books = Books(table: Table, charged: seq<Charge>)

  // ---------------------------------------------------------------- quantities

  function Billable(ledger: Ledger, e: Entitlement, metric: string, month: nat): Option<nat> {
    if !ledger.installed then None
    else if (metric, month) !in ledger.totals then Some(0)
    else
      var free := if metric in e.allowance then e.allowance[metric] else 0;
      var above := ledger.totals[(metric, month)] - free;
      Some(if above > 0 then above else 0)
  }

  /** The rise in a month's billable total since what was reported for it. */
  function QuantityFor(t: Table, e: Entitlement, metric: string, month: nat, ledger: Ledger): Option<nat> {
    match Billable(ledger, e, metric, month)
    case None => None
    case Some(total) =>
      if total == 0 then Some(0)
      else
        var rise := total - AlreadyReported(t, e.id, metric, MonthStart(month));
        Some(if rise > 0 then rise else 0)
  }

  function Rounded(cfg: Settings, metric: string, quantity: nat): nat {
    if metric in cfg.floats then quantity else WholeUnits(quantity)
  }

  // ------------------------------------------------------------- building windows

  datatype Request = Request(metric: string, start: nat, end: nat, month: nat)

  function MonthClosing(t: Table, e: Entitlement, metric: string, now: nat): seq<Request> {
    match LastWindowEnd(t, e.id, metric)
    case None => []
    case Some(last) =>
      if last < MonthStart(MonthOf(now))
      then [Request(metric, last, MonthStart(MonthOf(now)), MonthOf(last))]
      else []
  }

  function CurrentStart(t: Table, e: Entitlement, metric: string, now: nat): nat {
    var first := MonthStart(MonthOf(now));
    match LastWindowEnd(t, e.id, metric)
    case None => first
    case Some(last) => if last < first then first else last
  }

  function CurrentWindow(t: Table, e: Entitlement, metric: string, now: nat): seq<Request> {
    var start := CurrentStart(t, e, metric, now);
    if start >= now then [] else [Request(metric, start, now, MonthOf(now))]
  }

  function RequestsFor(t: Table, e: Entitlement, metric: string, now: nat): seq<Request> {
    if metric !in e.metricIds then [] else MonthClosing(t, e, metric, now) + CurrentWindow(t, e, metric, now)
  }

  /** The windows one run asks for, dimension by dimension. */
  function Requests(t: Table, e: Entitlement, dimensions: seq<string>, now: nat): seq<Request> {
    if |dimensions| == 0 then []
    else Requests(t, e, dimensions[..|dimensions| - 1], now) + RequestsFor(t, e, dimensions[|dimensions| - 1], now)
  }

  /** A table with the operations queued so far. */
  datatype Collected = Collected(table: Table, operations: seq<Window>)

  function AddWindow(cfg: Settings, c: Collected, e: Entitlement, ledger: Ledger, r: Request): Collected {
    match QuantityFor(c.table, e, r.metric, r.month, ledger)
    case None => c
    case Some(quantity) =>
      var w := Window(e.id, r.metric, r.start);
      var existing := Find(c.table, w);
      if existing.Some? && c.table[existing.value].status != Failed then c
      else Collected(
             Put(c.table, Checkpoint(w, r.end, Rounded(cfg, r.metric, quantity), Pending)),
             c.operations + [w])
  }

  function AddAll(cfg: Settings, t: Table, e: Entitlement, ledger: Ledger, rs: seq<Request>): Collected {
    if |rs| == 0 then Collected(t, [])
    else AddWindow(cfg, AddAll(cfg, t, e, ledger, rs[..|rs| - 1]), e, ledger, rs[|rs| - 1])
  }

  // -------------------------------------------------------- Google's side of a send

  datatype CheckReply = Entitled | CheckErrors | CheckRaises

  /** How the report call ends: an HTTP 200 with per-operation errors (None names no
      operation), a refusal by status code, a failure before a byte left, or silence. */
  datatype Reply = Answer(errors: seq<Option<Window>>) | HttpError(code: int) | NeverSent | NoAnswer

  predicate Definitive(reply: Reply) {
    match reply
    case Answer(_) => false
    case HttpError(code) => 400 <= code < 500 && code != 408 && code != 429
    case NeverSent => true
    case NoAnswer => false
  }

  predicate Unattributed(errors: seq<Option<Window>>) {
    None in errors
  }

  /** The reply the caller sees, and the operations Google in fact billed. */
  datatype Delivery = Delivery(reply: Reply, took: set<Window>)

  /** Google keeps its word: what it refuses it does not bill, what it accepts it bills.
      Silence, and operations an unattributed error leaves open, may go either way. */
  predicate Truthful(d: Delivery, ops: seq<Window>) {
    && (forall w :: w in d.took ==> w in ops)
    && match d.reply
       case Answer(errors) =>
         forall w :: w in ops ==>
                       && (Some(w) in errors ==> w !in d.took)
                       && (Some(w) !in errors && !Unattributed(errors) ==> w in d.took)
       case _ => Definitive(d.reply) ==> d.took == {}
  }

  /** Where a run is cut short: an exception while the windows are collected, or the
      process dying. */
  datatype Mishap =
    | NoMishap
    | CollectRaises(after: nat)
    | DiesCollecting(after: nat)
    | DiesBeforeSend
    | DiesAfterSend
    | DiesBetweenMarks

  function Charges(t: Table, ops: seq<Window>, took: set<Window>): seq<Charge> {
    if |ops| == 0 then []
    else
      var w := ops[|ops| - 1];
      var at := Find(t, w);
      Charges(t, ops[..|ops| - 1], took)
      + if w in took && at.Some? then [Charge(w, t[at.value].quantity)] else []
  }

  function Naming(ops: seq<Window>, errors: seq<Option<Window>>, named: bool): (r: seq<Window>)
    ensures forall w :: w in r <==> w in ops && ((Some(w) in errors) == named)
  {
    if |ops| == 0 then []
    else
      var w := ops[|ops| - 1];
      var front := Naming(ops[..|ops| - 1], errors, named);
      assert ops == ops[..|ops| - 1] + [w];
      if (Some(w) in errors) == named then front + [w] else front
  }

  /** What each row is marked once the report call has ended. */
  function Marks(t: Table, ops: seq<Window>, reply: Reply, halfway: bool): Table {
    match reply
    case Answer(errors) =>
      var refused := MarkAll(t, Naming(ops, errors, true), Failed);
      if halfway then refused
      else MarkAll(refused, Naming(ops, errors, false), if Unattributed(errors) then Pending else Reported)
    case _ => MarkAll(t, ops, if Definitive(reply) then Failed else Pending)
  }

  function Deliver(b: Books, ops: seq<Window>, d: Delivery, m: Mishap): Books {
    if m.DiesBeforeSend? then b
    else
      var sent := b.(charged := b.charged + Charges(b.table, ops, d.took));
      if m.DiesAfterSend? then sent
      else sent.(table := Marks(sent.table, ops, d.reply, m.DiesBetweenMarks?))
  }

  // ------------------------------------------------------------------------ steps

  function Upto(n: nat, m: nat): nat {
    if n < m then n else m
  }

  /** One report run of one entitlement at `now`. */
  function Report(cfg: Settings, b: Books, e: Entitlement, now: nat, ledger: Ledger,
                  check: CheckReply, d: Delivery, m: Mishap): Books
  {
    if e.consumer == "" || !e.planMapped then b
    else
      var rs := Requests(b.table, e, cfg.dimensions, now);
      match m
      case CollectRaises(after) =>
        var c := AddAll(cfg, b.table, e, ledger, rs[..Upto(after, |rs|)]);
        b.(table := MarkAll(c.table, c.operations, Failed))
      case DiesCollecting(after) =>
        b.(table := AddAll(cfg, b.table, e, ledger, rs[..Upto(after, |rs|)]).table)
      case _ =>
        var c := AddAll(cfg, b.table, e, ledger, rs);
        var written := b.(table := c.table);
        if |c.operations| == 0 then written
        else if check != Entitled then b.(table := MarkAll(c.table, c.operations, Failed))
        else Deliver(written, c.operations, d, m)
  }

  /** The final window ends just before Google's own cancellation time. */
  function FinalEnd(e: Entitlement, clock: nat): nat {
    match e.googleUpdate
    case None => clock
    case Some(ended) => if ended == 0 then 0 else if ended <= clock then ended - 1 else clock
  }

  /** The refused windows of an entitlement that its plan still has a metric for. */
  function Resendable(t: Table, e: Entitlement): (ws: seq<Window>)
    ensures forall w :: w in ws ==> exists i :: 0 <= i < |t| && t[i].window == w && t[i].status == Failed
  {
    if |t| == 0 then []
    else
      var c := t[|t| - 1];
      var front := Resendable(t[..|t| - 1], e);
      assert forall i :: 0 <= i < |t| - 1 ==> t[..|t| - 1][i] == t[i];
      if c.status == Failed && c.window.entitlement == e.id && c.window.metric in e.metricIds
      then front + [c.window] else front
  }

  /** Send a cancelled entitlement's refused windows again, as stored. */
  function Resend(b: Books, e: Entitlement, d: Delivery, m: Mishap): Books {
    var ws := Resendable(b.table, e);
    match m
    case CollectRaises(after) => b.(table := MarkAll(b.table, ws[..Upto(after, |ws|)], Pending))
    case DiesCollecting(after) => b.(table := MarkAll(b.table, ws[..Upto(after, |ws|)], Pending))
    case _ =>
      if |ws| == 0 then b
      else Deliver(b.(table := MarkAll(b.table, ws, Pending)), ws, d, m)
  }

  function StillPending(t: Table, ws: seq<Window>): (r: seq<Window>)
    ensures forall w :: w in r ==> w in ws && Find(t, w).Some? && t[Find(t, w).value].status == Pending
  {
    if |ws| == 0 then []
    else
      var w := ws[|ws| - 1];
      var front := StillPending(t, ws[..|ws| - 1]);
      var at := Find(t, w);
      if at.Some? && t[at.value].status == Pending then front + [w] else front
  }

  datatype Step =
    | Hourly(e: Entitlement, clock: nat, ledger: Ledger, check: CheckReply, delivery: Delivery, mishap: Mishap)
    | Final(e: Entitlement, clock: nat, ledger: Ledger, delivery: Delivery, mishap: Mishap)
    | Retry(e: Entitlement, delivery: Delivery, mishap: Mishap)
    | Settle(windows: seq<Window>, billed: bool)

  function Take(cfg: Settings, b: Books, s: Step): Books {
    match s
    case Hourly(e, clock, ledger, check, d, m) => Report(cfg, b, e, FloorHour(clock), ledger, check, d, m)
    case Final(e, clock, ledger, d, m) => Report(cfg, b, e, FinalEnd(e, clock), ledger, Entitled, d, m)
    case Retry(e, d, m) => Resend(b, e, d, m)
    case Settle(ws, billed) =>
      b.(table := MarkAll(b.table, StillPending(b.table, ws), if billed then Reported else Failed))
  }

  function Run(cfg: Settings, steps: seq<Step>): Books {
    if |steps| == 0 then Books([], []) else Take(cfg, Run(cfg, steps[..|steps| - 1]), steps[|steps| - 1])
  }

  // ------------------------------------------------------- what the outside world owes

  function BilledWindows(log: seq<Charge>): set<Window> {
    set c | c in log :: c.window
  }

  /** The operations a step hands to Google. */
  function Operations(cfg: Settings, b: Books, s: Step): seq<Window> {
    match s
    case Hourly(e, clock, ledger, _, _, _) =>
      AddAll(cfg, b.table, e, ledger, Requests(b.table, e, cfg.dimensions, FloorHour(clock))).operations
    case Final(e, clock, ledger, _, _) =>
      AddAll(cfg, b.table, e, ledger, Requests(b.table, e, cfg.dimensions, FinalEnd(e, clock))).operations
    case Retry(e, _, _) => Resendable(b.table, e)
    case Settle(_, _) => []
  }

  /** Google answers truthfully, and a person settles a window as what it was. */
  predicate Honest(cfg: Settings, b: Books, s: Step) {
    match s
    case Settle(ws, billed) => forall w :: w in StillPending(b.table, ws) ==> (w in BilledWindows(b.charged)) == billed
    case _ => Truthful(s.delivery, Operations(cfg, b, s))
  }

  ghost predicate HonestRun(cfg: Settings, steps: seq<Step>) {
    forall i :: 0 <= i < |steps| ==> Honest(cfg, Run(cfg, steps[..i]), steps[i])
  }

  /** What Google has billed for a metric in one month. */
  function ChargedIn(log: seq<Charge>, entitlement: nat, metric: string, month: nat): nat {
    if |log| == 0 then 0
    else
      var c := log[|log| - 1];
      ChargedIn(log[..|log| - 1], entitlement, metric, month)
      + if c.window.entitlement == entitlement && c.window.metric == metric && MonthOf(c.window.start) == month
        then c.quantity else 0
  }
}

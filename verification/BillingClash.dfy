/** Where overlapping runs go wrong: a window read up while another run still has to write it
    can be billed twice, whatever else is going on; and nothing else can. */
module BillingClash {
  import opened Wrappers
  import opened Calendar
  import opened Checkpoints
  import opened Billing
  import opened BillingInvariant
  import opened BillingTheorems
  import opened BillingOverlap
  import opened BillingOverlapTheorems

  /** Fair steps that lead from one state to another. */
  ghost predicate GoesTo(cfg: Settings, s: Shop, acts: seq<Act>, s': Shop) {
    FairFrom(cfg, s, acts) && From(cfg, s, acts) == s'
  }

  lemma GoesOn(cfg: Settings, s: Shop, acts: seq<Act>, s': Shop, a: Act)
    requires GoesTo(cfg, s, acts, s') && Fair(s', a)
    ensures GoesTo(cfg, s, acts + [a], Advance(cfg, s', a))
  {
    var all := acts + [a];
    assert all[..|acts|] == acts;
    forall i | 0 <= i < |all| ensures Fair(From(cfg, s, all[..i]), all[i]) {
      if i < |acts| { assert all[..i] == acts[..i]; }
    }
    FromOneMore(cfg, s, acts, a);
  }

  lemma GoesBoth(cfg: Settings, s: Shop, acts: seq<Act>, s': Shop, more: seq<Act>, s'': Shop)
    requires GoesTo(cfg, s, acts, s') && GoesTo(cfg, s', more, s'')
    ensures GoesTo(cfg, s, acts + more, s'')
  {
    var all := acts + more;
    FromTwo(cfg, s, acts, more);
    forall i | 0 <= i < |all| ensures Fair(From(cfg, s, all[..i]), all[i]) {
      if i < |acts| {
        assert all[..i] == acts[..i];
      } else {
        assert all[..i] == acts + more[..i - |acts|];
        FromTwo(cfg, s, acts, more[..i - |acts|]);
      }
    }
  }

  // -------------------------------------------------------- two runs with the same window

  function WriteTimes(p: nat, n: nat): (acts: seq<Act>)
    ensures forall a :: a in acts ==> a == WritesRow(p)
  {
    if n == 0 then [] else WriteTimes(p, n - 1) + [WritesRow(p)]
  }

  /** Google bills all of a run's operations. */
  function TakesAll(queued: seq<Checkpoint>): Delivery {
    Delivery(Answer([]), set c | c in queued :: c.window)
  }

  /** Both runs write what they have read up, and send. */
  function BothGoOut(s: Shop, p: nat, q: nat): seq<Act>
    requires p in s.runs && q in s.runs && s.runs[p].Collecting? && s.runs[q].Collecting?
  {
    WriteTimes(p, |s.runs[p].draft|) + WriteTimes(q, |s.runs[q].draft|)
    + [Sends(p, TakesAll(s.runs[p].queued + s.runs[p].draft))]
    + [Sends(q, TakesAll(s.runs[q].queued + s.runs[q].draft))]
  }

  /** A state in which one run has written some of its rows and nothing else has happened. */
  ghost predicate HasWritten(s: Shop, s': Shop, p: nat, n: nat) {
    && p in s.runs && s.runs[p].Collecting? && n <= |s.runs[p].draft|
    && s'.books.charged == s.books.charged
    && s'.runs == s.runs[p := Collecting(s.runs[p].entitlement, s.runs[p].draft[n..],
                                         s.runs[p].queued + s.runs[p].draft[..n])]
  }

  lemma WritesOne(cfg: Settings, s: Shop, s': Shop, p: nat, n: nat)
    requires HasWritten(s, s', p, n) && n < |s.runs[p].draft|
    ensures HasWritten(s, Advance(cfg, s', WritesRow(p)), p, n + 1)
  {
    var draft, queued := s.runs[p].draft, s.runs[p].queued;
    assert draft[n..][0] == draft[n] && draft[n..][1..] == draft[n + 1..];
    assert (queued + draft[..n]) + [draft[n]] == queued + draft[..n + 1];
  }

  lemma NoneWritten(s: Shop, p: nat)
    requires p in s.runs && s.runs[p].Collecting?
    ensures HasWritten(s, s, p, 0)
  {
    var run := s.runs[p];
    assert run.draft[0..] == run.draft && run.queued + run.draft[..0] == run.queued;
    assert s.runs[p := run] == s.runs;
  }

  lemma {:induction false} WritesSome(cfg: Settings, s: Shop, p: nat, n: nat)
    requires p in s.runs && s.runs[p].Collecting? && n <= |s.runs[p].draft|
    ensures HasWritten(s, From(cfg, s, WriteTimes(p, n)), p, n)
  {
    if n == 0 {
      NoneWritten(s, p);
    } else {
      WritesSome(cfg, s, p, n - 1);
      FromOneMore(cfg, s, WriteTimes(p, n - 1), WritesRow(p));
      WritesOne(cfg, s, From(cfg, s, WriteTimes(p, n - 1)), p, n - 1);
    }
  }

  lemma WritesOut(cfg: Settings, s: Shop, p: nat) returns (s': Shop)
    requires p in s.runs && s.runs[p].Collecting?
    ensures GoesTo(cfg, s, WriteTimes(p, |s.runs[p].draft|), s') && HasWritten(s, s', p, |s.runs[p].draft|)
  {
    var n := |s.runs[p].draft|;
    s' := From(cfg, s, WriteTimes(p, n));
    WritesSome(cfg, s, p, n);
    WritesAreFair(cfg, s, p, n);
  }

  lemma WritesAreFair(cfg: Settings, s: Shop, p: nat, n: nat)
    ensures FairFrom(cfg, s, WriteTimes(p, n))
  {
    var acts := WriteTimes(p, n);
    forall i | 0 <= i < |acts| ensures Fair(From(cfg, s, acts[..i]), acts[i]) {
      assert acts[i] in acts;
    }
  }

  lemma SendsAll(cfg: Settings, s: Shop, acts: seq<Act>, s': Shop, p: nat)
    requires GoesTo(cfg, s, acts, s') && MaySend(s', p)
    ensures
      var run := s'.runs[p];
      GoesTo(cfg, s, acts + [Sends(p, TakesAll(run.queued))],
             Shop(s'.books.(charged := s'.books.charged + ChargesOf(run.queued, TakesAll(run.queued).took)),
                  s'.runs[p := Sent(run.entitlement, run.queued, TakesAll(run.queued))]))
  {
    var queued := s'.runs[p].queued;
    forall w | w in Windows(queued) ensures w in TakesAll(queued).took {
      var i :| 0 <= i < |queued| && queued[i].window == w;
      assert queued[i] in queued;
    }
    forall w | w in TakesAll(queued).took ensures w in Windows(queued) {
      var c :| c in queued && c.window == w;
      var i :| 0 <= i < |queued| && queued[i] == c;
      assert Windows(queued)[i] == w;
    }
    GoesOn(cfg, s, acts, s', Sends(p, TakesAll(queued)));
  }

  lemma {:induction false} ChargedAmong(queued: seq<Checkpoint>, took: set<Window>, c: Checkpoint)
    requires c in queued && c.window in took
    ensures Charge(c.window, c.quantity) in ChargesOf(queued, took)
  {
    var front, last := queued[..|queued| - 1], queued[|queued| - 1];
    assert queued == front + [last];
    if c != last { ChargedAmong(front, took, c); }
  }

  lemma TwiceInLog(log: seq<Charge>, more: seq<Charge>, again: seq<Charge>, x: Charge, y: Charge)
    requires x in more && y in again && x.window == y.window
    ensures exists k, l :: 0 <= k < l < |log + more + again| && (log + more + again)[k] == x
                           && (log + more + again)[l] == y
  {
    var i :| 0 <= i < |more| && more[i] == x;
    var j :| 0 <= j < |again| && again[j] == y;
    var all := log + more + again;
    assert all[|log| + i] == x && all[|log| + |more| + j] == y;
  }

  /** Two charges for one window, at the quantities the two runs read. */
  ghost predicate ChargedBoth(log: seq<Charge>, c: Checkpoint, d: Checkpoint) {
    exists k, l :: 0 <= k < l < |log| && log[k] == Charge(c.window, c.quantity)
                   && log[l] == Charge(d.window, d.quantity)
  }

  /** What Google has billed in the month of a row. */
  function MonthOfRow(log: seq<Charge>, c: Checkpoint): nat {
    ChargedIn(log, c.window.entitlement, c.window.metric, MonthOf(c.window.start))
  }

  lemma {:induction false} MonthGrows(log: seq<Charge>, more: seq<Charge>, c: Checkpoint)
    ensures MonthOfRow(log + more, c) >= MonthOfRow(log, c)
    ensures Charge(c.window, c.quantity) in more ==> MonthOfRow(log + more, c) >= MonthOfRow(log, c) + c.quantity
  {
    if |more| == 0 {
      assert log + more == log;
    } else {
      var front, last := more[..|more| - 1], more[|more| - 1];
      MonthGrows(log, front, c);
      assert more == front + [last] && (log + more)[..|log + more| - 1] == log + front;
    }
  }

  predicate NoneReads(acts: seq<Act>) {
    forall a :: a in acts ==> !a.Reads? && !a.ReadsRefused?
  }

  lemma GoingOutIsNoRead(s: Shop, p: nat, q: nat)
    requires p in s.runs && q in s.runs && s.runs[p].Collecting? && s.runs[q].Collecting?
    ensures NoneReads(BothGoOut(s, p, q))
  {}

  /** Fair steps after which Google has billed both rows, one on top of the other. */
  ghost predicate BillsBoth(cfg: Settings, s: Shop, acts: seq<Act>, c: Checkpoint, d: Checkpoint) {
    var books := From(cfg, s, acts).books;
    && FairFrom(cfg, s, acts) && ChargedBoth(books.charged, c, d) && !BilledOnce(books)
    && MonthOfRow(books.charged, c) >= MonthOfRow(s.books.charged, c) + c.quantity + d.quantity
  }

  /** From any state in which two runs have the same window to write, fair steps that read
      nothing more lead to both being billed. */
  lemma SharedIsBilledTwice(cfg: Settings, s: Shop, p: nat, q: nat, c: Checkpoint, d: Checkpoint)
    requires p in s.runs && q in s.runs && p != q && s.runs[p].Collecting? && s.runs[q].Collecting?
    requires c in s.runs[p].draft && d in s.runs[q].draft && c.window == d.window
    ensures NoneReads(BothGoOut(s, p, q)) && BillsBoth(cfg, s, BothGoOut(s, p, q), c, d)
  {
    GoingOutIsNoRead(s, p, q);
    var s2 := BothWriteOut(cfg, s, p, q);
    BothSent(cfg, s, WriteTimes(p, |s.runs[p].draft|) + WriteTimes(q, |s.runs[q].draft|), s2, p, q, c, d);
  }

  /** Both have written what they had read up. */
  lemma BothWriteOut(cfg: Settings, s: Shop, p: nat, q: nat) returns (s2: Shop)
    requires p != q && p in s.runs && q in s.runs && s.runs[p].Collecting? && s.runs[q].Collecting?
    ensures GoesTo(cfg, s, WriteTimes(p, |s.runs[p].draft|) + WriteTimes(q, |s.runs[q].draft|), s2)
    ensures s2.books.charged == s.books.charged
    ensures p in s2.runs && s2.runs[p] == Collecting(s.runs[p].entitlement, [], s.runs[p].queued + s.runs[p].draft)
    ensures q in s2.runs && s2.runs[q] == Collecting(s.runs[q].entitlement, [], s.runs[q].queued + s.runs[q].draft)
  {
    var n, m := |s.runs[p].draft|, |s.runs[q].draft|;
    var s1 := WritesOut(cfg, s, p);
    assert q in s1.runs && s1.runs[q] == s.runs[q];
    s2 := WritesOut(cfg, s1, q);
    GoesBoth(cfg, s, WriteTimes(p, n), s1, WriteTimes(q, m), s2);
    BothWritten(s, s1, s2, p, q);
  }

  lemma BothWritten(s: Shop, s1: Shop, s2: Shop, p: nat, q: nat)
    requires p != q && p in s.runs && q in s.runs && s.runs[p].Collecting? && s.runs[q].Collecting?
    requires HasWritten(s, s1, p, |s.runs[p].draft|) && HasWritten(s1, s2, q, |s.runs[q].draft|)
    ensures s2.books.charged == s.books.charged
    ensures p in s2.runs && s2.runs[p] == Collecting(s.runs[p].entitlement, [], s.runs[p].queued + s.runs[p].draft)
    ensures q in s2.runs && s2.runs[q] == Collecting(s.runs[q].entitlement, [], s.runs[q].queued + s.runs[q].draft)
  {
    assert s.runs[p].draft[..|s.runs[p].draft|] == s.runs[p].draft;
    assert s.runs[q].draft[..|s.runs[q].draft|] == s.runs[q].draft;
  }

  lemma BothSent(cfg: Settings, s: Shop, acts: seq<Act>, s2: Shop, p: nat, q: nat, c: Checkpoint, d: Checkpoint)
    requires GoesTo(cfg, s, acts, s2) && p != q && p in s2.runs && q in s2.runs && s2.books.charged == s.books.charged
    requires s2.runs[p].Collecting? && s2.runs[p].draft == [] && c in s2.runs[p].queued
    requires s2.runs[q].Collecting? && s2.runs[q].draft == [] && d in s2.runs[q].queued
    requires c.window == d.window
    ensures
      var sends := [Sends(p, TakesAll(s2.runs[p].queued))];
      BillsBoth(cfg, s, acts + sends + [Sends(q, TakesAll(s2.runs[q].queued))], c, d)
  {
    var qp, qq := s2.runs[p].queued, s2.runs[q].queued;
    SendsAll(cfg, s, acts, s2, p);
    var log, more := s2.books.charged, ChargesOf(qp, TakesAll(qp).took);
    var s3 := Shop(s2.books.(charged := log + more), s2.runs[p := Sent(s2.runs[p].entitlement, qp, TakesAll(qp))]);
    SendsAll(cfg, s, acts + [Sends(p, TakesAll(qp))], s3, q);
    ChargedAmong(qp, TakesAll(qp).took, c);
    ChargedAmong(qq, TakesAll(qq).took, d);
    MonthGrows(log, more, c);
    MonthGrows(log + more, ChargesOf(qq, TakesAll(qq).took), d);
    TwiceInLog(log, more, ChargesOf(qq, TakesAll(qq).took), Charge(c.window, c.quantity), Charge(d.window, d.quantity));
  }

  // ------------------------------------------------------------------ the exact condition

  lemma OutOfTurnShares(cfg: Settings, s: Shop, a: Act) returns (q: nat, c: Checkpoint, d: Checkpoint)
    requires !InTurn(cfg, s, a)
    ensures a.Reads? || a.ReadsRefused?
    ensures
      var s' := Advance(cfg, s, a);
      && a.run in s'.runs && s'.runs[a.run].Collecting? && c in s'.runs[a.run].draft
      && q in s'.runs && q != a.run && s'.runs[q].Collecting? && d in s'.runs[q].draft && c.window == d.window
  {
    q :| q in s.runs && s.runs[q].Collecting? && !NoneShared(Brings(cfg, s, a), s.runs[q].draft);
    c, d :| c in Brings(cfg, s, a) && d in s.runs[q].draft && c.window == d.window;
  }

  lemma NoReadIsInTurn(cfg: Settings, s: Shop, a: Act)
    requires !a.Reads? && !a.ReadsRefused?
    ensures InTurn(cfg, s, a)
  {}

  /** What may still happen after a step, apart from more reading. */
  ghost predicate MayFollow(cfg: Settings, acts: seq<Act>, a: Act, more: seq<Act>) {
    NoneReads(more) && FairRun(cfg, acts + [a] + more)
  }

  /** So the condition is exact: of a run that has been in turn so far, the next step is in turn
      if and only if, however the runs then end, each window is billed once. */
  lemma BilledOnceExactly(cfg: Settings, acts: seq<Act>, a: Act)
    requires FairRun(cfg, acts) && InTurnRun(cfg, acts) && Fair(Interleaved(cfg, acts), a)
    ensures InTurn(cfg, Interleaved(cfg, acts), a)
            <==> forall more :: MayFollow(cfg, acts, a, more) ==> BilledOnce(Interleaved(cfg, acts + [a] + more).books)
  {
    if InTurn(cfg, Interleaved(cfg, acts), a) {
      forall more | MayFollow(cfg, acts, a, more) ensures BilledOnce(Interleaved(cfg, acts + [a] + more).books) {
        StaysInTurn(cfg, acts, a, more);
        InTurnBillsOnce(cfg, acts + [a] + more);
      }
    } else {
      ClashFollows(cfg, acts, a);
    }
  }

  lemma StaysInTurn(cfg: Settings, acts: seq<Act>, a: Act, more: seq<Act>)
    requires InTurnRun(cfg, acts) && InTurn(cfg, Interleaved(cfg, acts), a) && NoneReads(more)
    ensures InTurnRun(cfg, acts + [a] + more)
  {
    var all := acts + [a] + more;
    forall i | 0 <= i < |all| ensures InTurn(cfg, Interleaved(cfg, all[..i]), all[i]) {
      if i < |acts| {
        assert all[..i] == acts[..i] && all[i] == acts[i];
      } else if i == |acts| {
        assert all[..i] == acts && all[i] == a;
      } else {
        assert all[i] == more[i - |acts| - 1] && all[i] in more;
        NoReadIsInTurn(cfg, Interleaved(cfg, all[..i]), all[i]);
      }
    }
  }

  /** After a step out of turn there are fair steps that bill a window twice. */
  lemma ClashFollows(cfg: Settings, acts: seq<Act>, a: Act)
    requires FairRun(cfg, acts) && Fair(Interleaved(cfg, acts), a) && !InTurn(cfg, Interleaved(cfg, acts), a)
    ensures exists more :: MayFollow(cfg, acts, a, more) && !BilledOnce(Interleaved(cfg, acts + [a] + more).books)
  {
    var s := Interleaved(cfg, acts);
    var s' := Advance(cfg, s, a);
    var q, c, d := OutOfTurnShares(cfg, s, a);
    var more := BothGoOut(s', a.run, q);
    SharedIsBilledTwice(cfg, s', a.run, q, c, d);
    GoesOn(cfg, Closed, acts, s, a);
    GoesBoth(cfg, Closed, acts + [a], s', more, From(cfg, s', more));
    assert MayFollow(cfg, acts, a, more);
  }
}

/** Two reports of one customer at the same time, each reading before the other writes. */
module BillingTwice {
  import opened Wrappers
  import opened Calendar
  import opened Checkpoints
  import opened Billing
  import opened BillingInvariant
  import opened BillingTheorems
  import opened BillingOverlap
  import opened BillingClash
  import opened BillingJanuary

  const HourlyRow := Checkpoint(FirstWindow, 3600, 10, Pending)
  const FinalRow := Checkpoint(FirstWindow, 3899, 10, Pending)
  const ItsTaking := Delivery(Answer([]), {FirstWindow})

  const HourlyAsks := Request("storage", 0, 3600, 0)
  const FinalAsks := Request("storage", 0, 3899, 0)

  /** The hourly report of the first hour, and the final report of the same customer, who
      cancelled at 01:05, both read before either writes; and both send. */
  const HourlyReads := Reads(1, JanuaryCustomer, HourlyAsks, FirstHour.ledger)
  const FinalReads := Reads(2, JanuaryCustomer, FinalAsks, FirstHour.ledger)
  const BothRead := [HourlyReads] + [FinalReads]
  const BothWrite := BothRead + [WritesRow(1)] + [WritesRow(2)]
  const BothSend := BothWrite + [Sends(1, ItsTaking)] + [Sends(2, ItsTaking)]

  // ------------------------------------------------------------------- one step of a run

  /** Fair steps from the start that end in this state. */
  ghost predicate Ends(acts: seq<Act>, s: Shop) {
    GoesTo(JanuarySettings, Closed, acts, s)
  }

  lemma EndsOn(acts: seq<Act>, s: Shop, a: Act, s': Shop)
    requires Ends(acts, s) && Fair(s, a) && Advance(JanuarySettings, s, a) == s'
    ensures Ends(acts + [a], s')
  {
    GoesOn(JanuarySettings, Closed, acts, s, a);
  }

  lemma ReadsOne(acts: seq<Act>, runs: map<nat, Phase>, p: nat, r: Request, c: Checkpoint)
    requires Ends(acts, Shop(Books([], []), runs)) && p !in runs && r.metric == "storage" && Askable([], 1, r)
    requires Writes([], JanuaryCustomer, FirstHour.ledger, r)
    requires RowFor(JanuarySettings, [], JanuaryCustomer, FirstHour.ledger, r) == c
    ensures Ends(acts + [Reads(p, JanuaryCustomer, r, FirstHour.ledger)],
                 Shop(Books([], []), runs[p := Collecting(1, [c], [])]))
  {
    EndsOn(acts, Shop(Books([], []), runs), Reads(p, JanuaryCustomer, r, FirstHour.ledger),
           Shop(Books([], []), runs[p := Collecting(1, [c], [])]));
  }

  lemma WritesOne(acts: seq<Act>, s: Shop, p: nat, c: Checkpoint)
    requires Ends(acts, s) && p in s.runs && s.runs[p] == Collecting(1, [c], [])
    ensures Ends(acts + [WritesRow(p)],
                 Shop(s.books.(table := Put(s.books.table, c)), s.runs[p := Collecting(1, [], [c])]))
  {
    assert [c][1..] == [] && [] + [c] == [c];
    EndsOn(acts, s, WritesRow(p), Shop(s.books.(table := Put(s.books.table, c)), s.runs[p := Collecting(1, [], [c])]));
  }

  /** A run of one operation is sent, and Google takes it. */
  lemma SendsOne(acts: seq<Act>, s: Shop, p: nat, c: Checkpoint)
    requires Ends(acts, s) && p in s.runs && s.runs[p] == Collecting(1, [], [c])
    ensures
      var d := Delivery(Answer([]), {c.window});
      Ends(acts + [Sends(p, d)],
           Shop(s.books.(charged := s.books.charged + [Charge(c.window, c.quantity)]), s.runs[p := Sent(1, [c], d)]))
  {
    var d := Delivery(Answer([]), {c.window});
    ChargesOfOne(c);
    assert MaySend(s, p);
    EndsOn(acts, s, Sends(p, d),
           Shop(s.books.(charged := s.books.charged + [Charge(c.window, c.quantity)]), s.runs[p := Sent(1, [c], d)]));
  }

  lemma ChargesOfOne(c: Checkpoint)
    ensures ChargesOf([c], {c.window}) == [Charge(c.window, c.quantity)] && Windows([c]) == [c.window]
  {
    assert [c][..0] == [];
    assert ChargesOf([], {c.window}) == [];
  }

  // -------------------------------------------------------------------------- the two runs

  /** The first window, looked up at either time. */
  lemma FirstWindowRead(now: nat)
    requires 0 < now < 2678400
    ensures
      var r := Request("storage", 0, now, 0);
      && Askable([], 1, r) && Writes([], JanuaryCustomer, FirstHour.ledger, r)
      && RowFor(JanuarySettings, [], JanuaryCustomer, FirstHour.ledger, r) == Checkpoint(FirstWindow, now, 10, Pending)
  {
    FirstMonths();
    MonthUnique(0, now);
    FirstHourQuantity();
  }

  lemma FirstHourQuantity()
    ensures QuantityFor([], JanuaryCustomer, "storage", 0, FirstHour.ledger) == Some(10)
  {
    assert AlreadyReported([], 1, "storage", MonthStart(0)) == 0;
  }

  lemma OneHasRead()
    ensures Ends([HourlyReads], Shop(Books([], []), map[1 := Collecting(1, [HourlyRow], [])]))
  {
    assert Ends([], Closed);
    FirstWindowRead(3600);
    ReadsOne([], map[], 1, HourlyAsks, HourlyRow);
    assert [] + [HourlyReads] == [HourlyReads];
  }

  lemma EndsBothRead()
    ensures Ends(BothRead,
                 Shop(Books([], []),
                      map[1 := Collecting(1, [HourlyRow], []), 2 := Collecting(1, [FinalRow], [])]))
  {
    OneHasRead();
    FirstWindowRead(3899);
    ReadsOne([HourlyReads], map[1 := Collecting(1, [HourlyRow], [])], 2, FinalAsks, FinalRow);
  }

  lemma FirstWrites(acts: seq<Act>, b: Books, c: Checkpoint, q: Phase)
    requires Ends(acts, Shop(b, map[1 := Collecting(1, [c], []), 2 := q]))
    ensures Ends(acts + [WritesRow(1)],
                 Shop(b.(table := Put(b.table, c)), map[1 := Collecting(1, [], [c]), 2 := q]))
  {
    var runs: map<nat, Phase> := map[1 := Collecting(1, [c], []), 2 := q];
    WritesOne(acts, Shop(b, runs), 1, c);
    assert runs[1 := Collecting(1, [], [c])] == map[1 := Collecting(1, [], [c]), 2 := q];
  }

  lemma SecondWrites(acts: seq<Act>, b: Books, c: Checkpoint, p: Phase)
    requires Ends(acts, Shop(b, map[1 := p, 2 := Collecting(1, [c], [])]))
    ensures Ends(acts + [WritesRow(2)],
                 Shop(b.(table := Put(b.table, c)), map[1 := p, 2 := Collecting(1, [], [c])]))
  {
    var runs: map<nat, Phase> := map[1 := p, 2 := Collecting(1, [c], [])];
    WritesOne(acts, Shop(b, runs), 2, c);
    assert runs[2 := Collecting(1, [], [c])] == map[1 := p, 2 := Collecting(1, [], [c])];
  }

  lemma TablesOfOne()
    ensures Put([], HourlyRow) == [HourlyRow] && Put([HourlyRow], FinalRow) == [FinalRow]
  {
    assert [HourlyRow][..0] == [];
  }

  lemma EndsBothWrite()
    ensures Ends(BothWrite,
                 Shop(Books([FinalRow], []),
                      map[1 := Collecting(1, [], [HourlyRow]), 2 := Collecting(1, [], [FinalRow])]))
  {
    EndsBothRead();
    TablesOfOne();
    FirstWrites(BothRead, Books([], []), HourlyRow, Collecting(1, [FinalRow], []));
    SecondWrites(BothRead + [WritesRow(1)], Books([HourlyRow], []), FinalRow, Collecting(1, [], [HourlyRow]));
  }

  lemma ChargedTwice()
    ensures
      var c := Charge(FirstWindow, 10);
      ([] + [c]) + [c] == [c, c] && ChargedIn([c, c], 1, "storage", 0) == 20
  {
    var c := Charge(FirstWindow, 10);
    FirstMonths();
    assert [c, c][..1] == [c] && [c][..0] == [];
    assert ChargedIn([], 1, "storage", 0) == 0;
  }

  /** Nothing stops this: Google is told of one window twice, bills it twice, and the month at
      twice its ledger, although each answer is truthful. */
  lemma OverlapBillsTwice()
    ensures FairRun(JanuarySettings, BothSend)
    ensures
      var log := Interleaved(JanuarySettings, BothSend).books.charged;
      log == [Charge(FirstWindow, 10), Charge(FirstWindow, 10)] && ChargedIn(log, 1, "storage", 0) == 20
    ensures Billable(FirstHour.ledger, JanuaryCustomer, "storage", 0) == Some(10)
    ensures !InTurnRun(JanuarySettings, BothSend)
  {
    EndsBothWrite();
    var runs: map<nat, Phase> := map[1 := Collecting(1, [], [HourlyRow]), 2 := Collecting(1, [], [FinalRow])];
    SendsOne(BothWrite, Shop(Books([FinalRow], []), runs), 1, HourlyRow);
    var c, sent := Charge(FirstWindow, 10), runs[1 := Sent(1, [HourlyRow], ItsTaking)];
    SendsOne(BothWrite + [Sends(1, ItsTaking)], Shop(Books([FinalRow], [] + [c]), sent), 2, FinalRow);
    ChargedTwice();
    NotInTurn();
  }

  lemma NotInTurn()
    ensures !InTurnRun(JanuarySettings, BothSend)
  {
    OneHasRead();
    FirstWindowRead(3899);
    var s := Shop(Books([], []), map[1 := Collecting(1, [HourlyRow], [])]);
    assert BothSend[..1] == [HourlyReads] && BothSend[1] == FinalReads;
    FinalBrings(s);
    assert FinalRow in Brings(JanuarySettings, s, FinalReads) && HourlyRow in s.runs[1].draft;
  }

  lemma FinalBrings(s: Shop)
    requires s == Shop(Books([], []), map[1 := Collecting(1, [HourlyRow], [])])
    ensures Brings(JanuarySettings, s, FinalReads) == [FinalRow]
  {
    FirstWindowRead(3899);
  }
}

/** Lifecycle events handled once: the dedupe ledger, whose row is inserted in the handler's
    own transaction, and the tail charge that waits for the commit. */
module ProcessedEvents {

  const ACCOUNTS: set<string> := {"ACCOUNT_ACTIVE", "ACCOUNT_DELETED"}

  const STARTS: set<string> := {
    "ENTITLEMENT_CREATION_REQUESTED", "ENTITLEMENT_ACTIVE", "ENTITLEMENT_OFFER_ACCEPTED", "ENTITLEMENT_RENEWED"
  }

  const PLAN_CHANGES: set<string> := {
    "ENTITLEMENT_PLAN_CHANGE_REQUESTED", "ENTITLEMENT_PLAN_CHANGED", "ENTITLEMENT_PLAN_CHANGE_CANCELLED"
  }

  const ENDINGS: set<string> := {
    "ENTITLEMENT_PENDING_CANCELLATION", "ENTITLEMENT_CANCELLATION_REVERTED", "ENTITLEMENT_CANCELLING",
    "ENTITLEMENT_CANCELLED", "ENTITLEMENT_OFFER_ENDED", "ENTITLEMENT_DELETED"
  }

  const HANDLED := ACCOUNTS + STARTS + PLAN_CHANGES + ENDINGS

  /** The fifteen kinds of event that are handled; a message of any other kind is dropped. */
  lemma FifteenKinds()
    ensures HANDLED
            == {"ACCOUNT_ACTIVE", "ACCOUNT_DELETED", "ENTITLEMENT_CREATION_REQUESTED", "ENTITLEMENT_ACTIVE",
                "ENTITLEMENT_OFFER_ACCEPTED", "ENTITLEMENT_RENEWED", "ENTITLEMENT_PLAN_CHANGE_REQUESTED",
                "ENTITLEMENT_PLAN_CHANGED", "ENTITLEMENT_PLAN_CHANGE_CANCELLED", "ENTITLEMENT_PENDING_CANCELLATION",
                "ENTITLEMENT_CANCELLATION_REVERTED", "ENTITLEMENT_CANCELLING", "ENTITLEMENT_CANCELLED",
                "ENTITLEMENT_OFFER_ENDED", "ENTITLEMENT_DELETED"}
  {}

  function LedgerKey(eventType: string, eventId: string): string {
    eventType + ":" + eventId
  }

  lemma LedgerKeySplits(t: string, i: string, u: string, j: string)
    requires ':' !in t && ':' !in u && LedgerKey(t, i) == LedgerKey(u, j)
    ensures t == u && i == j
  {
    var k := LedgerKey(t, i);
    assert k[|t|] == ':' && k[|u|] == ':';
    assert forall n :: 0 <= n < |t| ==> k[n] == t[n];
    assert forall n :: 0 <= n < |u| ==> k[n] == u[n];
    assert t == k[..|t|] && u == k[..|u|];
    assert i == k[|t| + 1..] && j == k[|u| + 1..];
  }

  /** Google reuses one event id for all the events of an operation; among the handled
      types the ledger key still tells every two of them apart. */
  lemma LedgerKeyInjective(t: string, i: string, u: string, j: string)
    requires t in HANDLED && u in HANDLED
    ensures LedgerKey(t, i) == LedgerKey(u, j) <==> t == u && i == j
  {
    if LedgerKey(t, i) == LedgerKey(u, j) {
      NoColon(t);
      NoColon(u);
      LedgerKeySplits(t, i, u, j);
    }
  }

  lemma NoColon(t: string)
    requires t in HANDLED
    ensures ':' !in t
  {
    if t in PLAN_CHANGES {
      NoColonInChange(t);
    } else if t in ENDINGS {
      NoColonInEnding(t);
    }
  }

  lemma NoColonInChange(t: string)
    requires t in PLAN_CHANGES
    ensures ':' !in t
  {}

  lemma NoColonInEnding(t: string)
    requires t in ENDINGS
    ensures ':' !in t
  {}

  datatype Event = Event(eventType: string, eventId: string) {
    function Key(): string { LedgerKey(eventType, eventId) }
  }

  /** An open transaction: its event, and whether its handler left a tail to charge. */
  datatype Transaction = Transaction(event: Event, tail: bool)

  /** Committed state, open transactions by worker, and tails waiting after a commit. */
  datatype Desk = Desk(
    ledger: set<string>,
    open: map<nat, Transaction>,
    due: map<nat, Event>,
    handled: seq<Event>,
    tails: seq<Event>)

  datatype Act =
    | Delivered(worker: nat, event: Event, tail: bool)
    | Commits(worker: nat)
    | RollsBack(worker: nat)
    | ChargesTail(worker: nat)
    | Dies(worker: nat)

  predicate Inserting(d: Desk, key: string) {
    exists w :: w in d.open && d.open[w].event.Key() == key
  }

  /** The outcome of a delivery: dropped unread, already seen, waiting on another worker's
      uncommitted row of the same key, or taken into a transaction. */
  datatype Intake = Dropped | Duplicate | Waiting | Taken

  function Receive(d: Desk, w: nat, e: Event): Intake {
    if e.eventId == "" || e.eventType !in HANDLED then Dropped
    else if e.Key() in d.ledger then Duplicate
    else if Inserting(d, e.Key()) || w in d.open || w in d.due then Waiting
    else Taken
  }

  function Step(d: Desk, a: Act): Desk {
    match a
    case Delivered(w, e, tail) =>
      if Receive(d, w, e).Taken? then d.(open := d.open[w := Transaction(e, tail)]) else d
    case Commits(w) =>
      if w !in d.open then d
      else
        var t := d.open[w];
        Desk(d.ledger + {t.event.Key()}, d.open - {w}, if t.tail then d.due[w := t.event] else d.due,
             d.handled + [t.event], d.tails)
    case RollsBack(w) => d.(open := d.open - {w})
    case ChargesTail(w) =>
      if w !in d.due then d else d.(due := d.due - {w}, tails := d.tails + [d.due[w]])
    case Dies(w) => d.(open := d.open - {w}, due := d.due - {w})
  }

  const Empty := Desk({}, map[], map[], [], [])

  function Run(acts: seq<Act>): Desk {
    if |acts| == 0 then Empty else Step(Run(acts[..|acts| - 1]), acts[|acts| - 1])
  }

  predicate NoRepeats(es: seq<Event>) {
    forall i, j :: 0 <= i < j < |es| ==> es[i] != es[j]
  }

  ghost predicate OpenApart(d: Desk) {
    && (forall w :: w in d.open ==>
                      d.open[w].event.eventType in HANDLED && d.open[w].event.Key() !in d.ledger && w !in d.due)
    && (forall v, w :: v in d.open && w in d.open && v != w ==> d.open[v].event.Key() != d.open[w].event.Key())
  }

  ghost predicate LedgerIsHandled(d: Desk) {
    && (forall e :: e in d.handled ==> e.eventType in HANDLED && e.Key() in d.ledger)
    && (forall k :: k in d.ledger ==> exists e :: e in d.handled && e.Key() == k)
    && NoRepeats(d.handled)
  }

  ghost predicate TailsAreHandled(d: Desk) {
    && (forall e :: e in d.tails ==> e in d.handled)
    && (forall w :: w in d.due ==> d.due[w] in d.handled && d.due[w] !in d.tails)
    && (forall v, w :: v in d.due && w in d.due && v != w ==> d.due[v] != d.due[w])
    && NoRepeats(d.tails)
  }

  ghost predicate Consistent(d: Desk) {
    OpenApart(d) && LedgerIsHandled(d) && TailsAreHandled(d)
  }

  lemma CommitKeeps(d: Desk, w: nat)
    requires Consistent(d) && w in d.open
    ensures Consistent(Step(d, Commits(w)))
  {
    CommitKeepsHandled(d, w);
    CommitKeepsTails(d, w);
  }

  lemma CommitKeepsHandled(d: Desk, w: nat)
    requires OpenApart(d) && LedgerIsHandled(d) && w in d.open
    ensures LedgerIsHandled(Step(d, Commits(w)))
  {
    var d', t := Step(d, Commits(w)), d.open[w];
    forall k | k in d'.ledger ensures exists e :: e in d'.handled && e.Key() == k {
      if k == t.event.Key() {
        assert t.event in d'.handled;
      } else {
        var e :| e in d.handled && e.Key() == k;
        assert e in d'.handled;
      }
    }
  }

  lemma CommitKeepsTails(d: Desk, w: nat)
    requires Consistent(d) && w in d.open
    ensures TailsAreHandled(Step(d, Commits(w)))
  {
    var d', t := Step(d, Commits(w)), d.open[w];
    assert t.event !in d.handled;
    assert forall v :: v in d'.due ==> d'.due[v] == (if v == w then t.event else d.due[v]);
  }

  lemma DeliveryKeeps(d: Desk, w: nat, e: Event, tail: bool)
    requires Consistent(d)
    ensures Consistent(Step(d, Delivered(w, e, tail)))
  {}

  lemma ChargeKeeps(d: Desk, w: nat)
    requires Consistent(d)
    ensures Consistent(Step(d, ChargesTail(w)))
  {
    if w in d.due {
      assert forall e :: e in d.tails + [d.due[w]] <==> e in d.tails || e == d.due[w];
    }
  }

  lemma StepConsistent(d: Desk, a: Act)
    requires Consistent(d)
    ensures Consistent(Step(d, a))
  {
    match a
    case Delivered(w, e, tail) => DeliveryKeeps(d, w, e, tail);
    case Commits(w) => if w in d.open { CommitKeeps(d, w); }
    case ChargesTail(w) => ChargeKeeps(d, w);
    case RollsBack(w) =>
    case Dies(w) =>
  }

  lemma {:induction false} RunConsistent(acts: seq<Act>)
    ensures Consistent(Run(acts))
  {
    if |acts| > 0 {
      RunConsistent(acts[..|acts| - 1]);
      StepConsistent(Run(acts[..|acts| - 1]), acts[|acts| - 1]);
    }
  }

  /** Under any redelivery, concurrency and crash schedule, an event's handler has committed
      at most once, and exactly once if the ledger holds its key; and its tail has been
      charged at most once, and only if its handler committed. */
  lemma ExactlyOnce(acts: seq<Act>, e: Event)
    requires e.eventType in HANDLED
    ensures
      var d := Run(acts);
      && multiset(d.handled)[e] == (if e.Key() in d.ledger then 1 else 0)
      && multiset(d.tails)[e] <= multiset(d.handled)[e]
  {
    RunConsistent(acts);
    var d := Run(acts);
    CountOnce(d.handled, e);
    CountOnce(d.tails, e);
    if e.Key() in d.ledger {
      var h :| h in d.handled && h.Key() == e.Key();
      LedgerKeyInjective(h.eventType, h.eventId, e.eventType, e.eventId);
    }
  }

  lemma {:induction false} CountOnce(es: seq<Event>, e: Event)
    requires NoRepeats(es)
    ensures multiset(es)[e] == if e in es then 1 else 0
  {
    if |es| > 0 {
      var front := es[..|es| - 1];
      assert es == front + [es[|es| - 1]];
      CountOnce(front, e);
    }
  }

  /** An event is not swallowed by another of the same operation: whatever other types of
      its id have been handled or are in hand, a first delivery to a free worker is taken. */
  lemma SiblingsNotSwallowed(acts: seq<Act>, w: nat, e: Event)
    requires e.eventType in HANDLED && e.eventId != ""
    requires w !in Run(acts).open && w !in Run(acts).due
    requires e !in Run(acts).handled && forall v :: v in Run(acts).open ==> Run(acts).open[v].event != e
    ensures Receive(Run(acts), w, e) == Taken
  {
    RunConsistent(acts);
    var d := Run(acts);
    if e.Key() in d.ledger {
      var h :| h in d.handled && h.Key() == e.Key();
      LedgerKeyInjective(h.eventType, h.eventId, e.eventType, e.eventId);
    }
    if v :| v in d.open && d.open[v].event.Key() == e.Key() {
      LedgerKeyInjective(d.open[v].event.eventType, d.open[v].event.eventId, e.eventType, e.eventId);
    }
  }

  /** A handler that is rolled back, or whose worker dies before the commit, leaves neither
      a ledger row nor a charge, and the same event can be taken again. */
  lemma RollbackLeavesNothing(acts: seq<Act>, w: nat, a: Act)
    requires w in Run(acts).open && (a == RollsBack(w) || a == Dies(w))
    ensures
      var d, d' := Run(acts), Step(Run(acts), a);
      && d'.ledger == d.ledger && d'.handled == d.handled && d'.tails == d.tails && w !in d'.due
      && (d.open[w].event.eventId != "" ==> Receive(d', w, d.open[w].event) == Taken)
  {
    RunConsistent(acts);
  }

  /** A commit records the handled event, and leaves its tail due exactly if its handler asked for
      one; charging it charges that event's tail once, and nothing is due any more. */
  lemma TailFollowsCommit(d: Desk, w: nat)
    requires w in d.open
    ensures
      var t, d' := d.open[w], Step(d, Commits(w));
      && d'.handled == d.handled + [t.event] && d'.ledger == d.ledger + {t.event.eventType + ":" + t.event.eventId}
      && d'.open == d.open - {w} && d'.tails == d.tails
      && d'.due == (if t.tail then d.due[w := t.event] else d.due)
      && (t.tail ==>
            var charged := Step(d', ChargesTail(w));
            charged == d'.(due := d'.due - {w}, tails := d.tails + [t.event]))
  {}

  /** A worker that dies, or rolls back, drops what it had in hand and no more. */
  lemma DroppedInHand(d: Desk, w: nat)
    ensures Step(d, RollsBack(w)) == d.(open := d.open - {w})
    ensures Step(d, Dies(w)) == d.(open := d.open - {w}, due := d.due - {w})
    ensures w !in d.due ==> Step(d, ChargesTail(w)) == d
    ensures w !in d.open ==> Step(d, Commits(w)) == d
  {}

  /** What becomes of a delivery to a free worker: dropped without an id or of a type nobody
      handles, a duplicate if its key is on record, waiting while another worker is inserting that
      key, and otherwise taken; and only taking it changes anything. */
  lemma DeliveredExactly(d: Desk, w: nat, e: Event, tail: bool)
    requires w !in d.open && w !in d.due
    ensures
      var key := e.eventType + ":" + e.eventId;
      var inserting := exists v :: v in d.open && d.open[v].event.eventType + ":" + d.open[v].event.eventId == key;
      var takes := e.eventId != "" && e.eventType in HANDLED && key !in d.ledger && !inserting;
      && (Receive(d, w, e) == Dropped <==> e.eventId == "" || e.eventType !in HANDLED)
      && (Receive(d, w, e) == Duplicate <==> e.eventId != "" && e.eventType in HANDLED && key in d.ledger)
      && (Receive(d, w, e) == Taken <==> takes)
      && Step(d, Delivered(w, e, tail)) == if takes then d.(open := d.open[w := Transaction(e, tail)]) else d
  {}

  /** The desk a worker pool acts on. */
  class EventDesk {
    var ledger: set<string>
    var open: map<nat, Transaction>
    var due: map<nat, Event>
    ghost var handled: seq<Event>
    ghost var tails: seq<Event>

    ghost function State(): Desk
      reads this
    {
      Desk(ledger, open, due, handled, tails)
    }

    constructor ()
      ensures State() == Empty
    {
      ledger, open, due, handled, tails := {}, map[], map[], [], [];
    }

    /** One message: check, insert the ledger row, run the handler, all in a transaction
        that the worker then commits or rolls back.  False if there is nothing to handle. */
    method ProcessEvent(w: nat, e: Event, tail: bool) returns (taken: bool)
      modifies this
      ensures State() == Step(old(State()), Delivered(w, e, tail))
      ensures taken == Receive(old(State()), w, e).Taken?
    {
      taken := false;
      if e.eventId == "" {
        return;
      }
      if e.eventType !in HANDLED {
        return;
      }
      if e.Key() in ledger {
        return;
      }
      if w in open || w in due || exists v :: v in open && open[v].event.Key() == e.Key() {
        return;
      }
      open := open[w := Transaction(e, tail)];
      taken := true;
    }

    method Commit(w: nat)
      modifies this
      ensures State() == Step(old(State()), Commits(w))
    {
      if w in open {
        var t := open[w];
        ledger := ledger + {t.event.Key()};
        if t.tail {
          due := due[w := t.event];
        }
        handled := handled + [t.event];
        open := open - {w};
      }
    }

    method Rollback(w: nat)
      modifies this`open
      ensures State() == Step(old(State()), RollsBack(w))
    {
      open := open - {w};
    }

    method ChargeTail(w: nat)
      modifies this
      ensures State() == Step(old(State()), ChargesTail(w))
    {
      if w in due {
        tails := tails + [due[w]];
        due := due - {w};
      }
    }
  }
}

/** Where the hourly repair leaves an organization whose newest purchase is purged at Google
    but live here: worked out from the rows it starts with. */
module RepairOutcome {
  import opened Wrappers
  import opened Entitlements
  import opened Repair
  import opened RepairTails

  // -------------------------------------------------------- rows ahead of a purged one

  predicate LaterThan(rows: seq<Row>, a: nat, b: nat)
    requires a < |rows| && b < |rows|
  {
    rows[a].effectiveAt > rows[b].effectiveAt || (rows[a].effectiveAt == rows[b].effectiveAt && a > b)
  }

  /** A live purchase that no purged one is later than: the newest purged one itself, and
      those that Google has ended since. */
  predicate Ahead(env: Env, rows: seq<Row>, org: string, j: nat) {
    && j < |rows| && Live(rows[j], org)
    && forall p: nat :: p < |rows| && Of(rows[p], org) && Purged(env, rows[p]) ==> !LaterThan(rows, p, j)
  }

  /** Next in line once the newest has left service. */
  predicate Heir(env: Env, rows: seq<Row>, org: string, j: nat) {
    Ahead(env, rows, org, j) && NewestLive(rows, org, None) != Some(j)
  }

  /** A purged purchase stands before everything Google serves. */
  ghost predicate Overshadowed(env: Env, rows: seq<Row>, org: string) {
    && (exists p: nat :: p < |rows| && Of(rows[p], org) && Purged(env, rows[p]))
    && forall j: nat :: j < |rows| && Of(rows[j], org) && Served(env, rows[j]) ==> PurgedIsNewer(env, rows, org, j)
  }

  lemma AheadIsUnserved(env: Env, rows: seq<Row>, org: string, j: nat)
    requires Known(env, rows, org) && Overshadowed(env, rows, org) && Ahead(env, rows, org, j)
    ensures !Served(env, rows[j])
    ensures rows[j].id in env.google ==> Leaves(env, rows[j])
  {}

  lemma NewestLiveIs(rows: seq<Row>, org: string, except: Option<nat>, h: nat)
    requires h < |rows| && Live(rows[h], org) && Some(h) != except
    requires forall j: nat :: j < |rows| && Live(rows[j], org) && Some(j) != except ==> !LaterThan(rows, j, h)
    ensures NewestLive(rows, org, except) == Some(h)
  {
    NewestLiveIsNewest(rows, org, except, h);
  }

  lemma NoneLater(rows: seq<Row>, org: string, except: Option<nat>, j: nat)
    requires NewestLive(rows, org, except).Some? && j < |rows| && Live(rows[j], org) && Some(j) != except
    ensures !LaterThan(rows, j, NewestLive(rows, org, except).value)
  {
    NewestLiveIsNewest(rows, org, except, j);
  }

  lemma NewestIsAhead(env: Env, rows: seq<Row>, org: string)
    requires Overshadowed(env, rows, org)
    ensures NewestLive(rows, org, None).Some? && Ahead(env, rows, org, NewestLive(rows, org, None).value)
  {
    var p: nat :| p < |rows| && Of(rows[p], org) && Purged(env, rows[p]);
    NewestLiveIsNewest(rows, org, None, p);
    forall q: nat | q < |rows| && Of(rows[q], org) && Purged(env, rows[q])
      ensures !LaterThan(rows, q, NewestLive(rows, org, None).value)
    {
      NoneLater(rows, org, None, q);
    }
  }

  /** If the newest can be fetched, it leaves service, and the next in line is ahead too. */
  lemma NextIsAhead(env: Env, rows: seq<Row>, org: string)
    requires Overshadowed(env, rows, org) && NewestLive(rows, org, None).Some?
    requires rows[NewestLive(rows, org, None).value].id in env.google
    ensures
      var next := NewestLive(rows, org, NewestLive(rows, org, None));
      next.Some? && Ahead(env, rows, org, next.value)
  {
    var l := NewestLive(rows, org, None);
    var p: nat :| p < |rows| && Of(rows[p], org) && Purged(env, rows[p]);
    NewestLiveIsNewest(rows, org, l, p);
    forall q: nat | q < |rows| && Of(rows[q], org) && Purged(env, rows[q])
      ensures !LaterThan(rows, q, NewestLive(rows, org, l).value)
    {
      NoneLater(rows, org, l, q);
    }
  }

  // ----------------------------------------------------------------- the rows, one round on

  /** The newest live row, if Google can be asked about it. */
  predicate IsAsked(env: Env, rows: seq<Row>, org: string, j: nat)
    requires j < |rows|
  {
    NewestLive(rows, org, None) == Some(j) && rows[j].id in env.google
  }

  lemma RowAfter(env: Env, w: World, order: seq<nat>, org: string, j: nat)
    requires Known(env, w.rows, org) && Overshadowed(env, w.rows, org) && ListsPending(Pass1(env, w).rows, order)
    requires j < |w.rows| && Of(w.rows[j], org)
    ensures
      var row, row' := w.rows[j], Round(env, w, order).rows[j];
      && (Live(row', org) <==> (Live(row, org) && !IsAsked(env, w.rows, org, j)) || Activates(env, row))
      && (Live(row, org) && !IsAsked(env, w.rows, org, j) ==> row' == row)
      && (Activates(env, row) ==> Served(env, row') && row'.effectiveAt == env.google[row.id].createTime)
      && !Activates(env, row')
  {
    RoundIs(env, w, order, j);
    ResyncedTwice(env, w.rows[j]);
    if IsAsked(env, w.rows, org, j) {
      NewestIsAhead(env, w.rows, org);
      AheadIsUnserved(env, w.rows, org, j);
    }
  }

  lemma StaysOvershadowed(env: Env, w: World, order: seq<nat>, org: string)
    requires Known(env, w.rows, org) && Overshadowed(env, w.rows, org) && ListsPending(Pass1(env, w).rows, order)
    ensures Overshadowed(env, Round(env, w, order).rows, org)
  {
    var rows, rows' := w.rows, Round(env, w, order).rows;
    forall j: nat | j < |rows| ensures rows'[j].id == rows[j].id && rows'[j].org == rows[j].org
      ensures Purged(env, rows'[j]) <==> Purged(env, rows[j])
      ensures Purged(env, rows[j]) ==> rows'[j] == rows[j]
    {
      RoundKeeps(env, w, order, j);
    }
    forall j: nat | j < |rows'| && Of(rows'[j], org) && Served(env, rows'[j])
      ensures PurgedIsNewer(env, rows', org, j)
    {
      assert PurgedIsNewer(env, rows, org, j);
    }
  }

  /** Which rows are ahead after a round: those that were, but for the newest if it left. */
  lemma AheadAfter(env: Env, w: World, order: seq<nat>, org: string, j: nat)
    requires Known(env, w.rows, org) && Overshadowed(env, w.rows, org) && ListsPending(Pass1(env, w).rows, order)
    requires j < |w.rows|
    ensures Ahead(env, Round(env, w, order).rows, org, j)
            <==> Ahead(env, w.rows, org, j) && !IsAsked(env, w.rows, org, j)
    ensures Ahead(env, Round(env, w, order).rows, org, j) ==> Round(env, w, order).rows[j] == w.rows[j]
  {
    var rows, rows' := w.rows, Round(env, w, order).rows;
    RoundKeepsKnown(env, w, order, org);
    StaysOvershadowed(env, w, order, org);
    forall p: nat | p < |rows|
      ensures Of(rows'[p], org) && Purged(env, rows'[p]) <==> Of(rows[p], org) && Purged(env, rows[p])
      ensures Purged(env, rows[p]) ==> rows'[p] == rows[p]
    {
      RoundKeeps(env, w, order, p);
    }
    RoundKeeps(env, w, order, j);
    if Of(rows[j], org) {
      RowAfter(env, w, order, org, j);
      if Ahead(env, rows', org, j) { AheadIsUnserved(env, rows', org, j); }
    }
  }

  /** And the newest: the next in line if it left, and otherwise as before. */
  lemma NewestAfter(env: Env, w: World, order: seq<nat>, org: string)
    requires Known(env, w.rows, org) && Overshadowed(env, w.rows, org) && ListsPending(Pass1(env, w).rows, order)
    requires NewestLive(w.rows, org, None).Some?
    ensures
      var l := NewestLive(w.rows, org, None);
      NewestLive(Round(env, w, order).rows, org, None)
      == if w.rows[l.value].id in env.google then NewestLive(w.rows, org, l) else l
  {
    var rows, rows' := w.rows, Round(env, w, order).rows;
    var l := NewestLive(rows, org, None);
    NewestIsAhead(env, rows, org);
    if rows[l.value].id in env.google { NextIsAhead(env, rows, org); }
    var except := if rows[l.value].id in env.google then l else None;
    var h := NewestLive(rows, org, except).value;
    AheadAfter(env, w, order, org, h);
    forall j: nat | j < |rows'| && Live(rows'[j], org) ensures !LaterThan(rows', j, h) {
      NotLaterAfter(env, w, order, org, except, h, j);
    }
    NewestLiveIs(rows', org, None, h);
  }

  lemma NotLaterAfter(env: Env, w: World, order: seq<nat>, org: string, except: Option<nat>, h: nat, j: nat)
    requires Known(env, w.rows, org) && Overshadowed(env, w.rows, org) && ListsPending(Pass1(env, w).rows, order)
    requires NewestLive(w.rows, org, None).Some?
    requires
      var l := NewestLive(w.rows, org, None);
      except == if w.rows[l.value].id in env.google then l else None
    requires NewestLive(w.rows, org, except) == Some(h) && Ahead(env, Round(env, w, order).rows, org, h)
    requires Round(env, w, order).rows[h] == w.rows[h]
    requires j < |w.rows| && Live(Round(env, w, order).rows[j], org)
    ensures !LaterThan(Round(env, w, order).rows, j, h)
  {
    var rows, rows' := w.rows, Round(env, w, order).rows;
    RoundKeeps(env, w, order, j);
    RowAfter(env, w, order, org, j);
    if Activates(env, rows[j]) {
      StaysOvershadowed(env, w, order, org);
      var p :| 0 <= p < |rows'| && Of(rows'[p], org) && Purged(env, rows'[p]) &&
               var a, b := rows'[p].effectiveAt, env.google[rows'[j].id].createTime; a > b || (a == b && p > j);
      assert LaterThan(rows', p, j) && !LaterThan(rows', p, h);
    } else {
      NoneLater(rows, org, except, j);
    }
  }

  // ------------------------------------------------------------ the subscription, one round on

  /** The last pending row of an order that Google has activated on a mapped plan. */
  function LastActivated(env: Env, rows: seq<Row>, order: seq<nat>, org: string): (a: Option<nat>)
    ensures a.Some? ==> a.value < |rows| && Activates(env, rows[a.value]) && Mapped(env, rows[a.value])
  {
    if |order| == 0 then None
    else
      var j := order[|order| - 1];
      if j < |rows| && Of(rows[j], org) && Activates(env, rows[j]) && Mapped(env, rows[j]) then Some(j)
      else LastActivated(env, rows, order[..|order| - 1], org)
  }

  lemma {:induction false} ActivationsApply(env: Env, rows: seq<Row>, rows1: seq<Row>, order: seq<nat>, org: string,
                                            s: Subscription)
    requires |rows1| == |rows|
    requires forall j: nat :: j < |rows| ==>
               && (Of(rows1[j], org) <==> Of(rows[j], org))
               && (Of(rows[j], org) ==> (Activates(env, rows1[j]) <==> Activates(env, rows[j])))
               && (Of(rows[j], org) && Activates(env, rows[j]) ==> rows1[j] == rows[j])
    ensures Pass2Sub(env, rows1, order, org, s)
            == match LastActivated(env, rows, order, org) case Some(a) => Wanted(env, rows[a]) case None => s
  {
    if |order| > 0 {
      ActivationsApply(env, rows, rows1, order[..|order| - 1], org, s);
    }
  }

  /** What the first pass leaves: the plan of the next in line, if the newest left service. */
  function HandedOn(env: Env, rows: seq<Row>, org: string, s: Subscription): Subscription {
    match NewestLive(rows, org, None)
    case None => s
    case Some(l) =>
      var next := NewestLive(rows, org, Some(l));
      if rows[l].id in env.google && next.Some? then Applied(env, s, rows[next.value]) else s
  }

  lemma Pass1Hands(env: Env, rows: seq<Row>, org: string, s: Subscription)
    requires Known(env, rows, org) && Overshadowed(env, rows, org)
    ensures Pass1Sub(env, rows, org, s) == HandedOn(env, rows, org, s)
  {
    NewestIsAhead(env, rows, org);
    var l := NewestLive(rows, org, None).value;
    AheadIsUnserved(env, rows, org, l);
    if rows[l].id in env.google { NextIsAhead(env, rows, org); }
  }

  lemma RoundSub(env: Env, w: World, order: seq<nat>, org: string)
    requires Known(env, w.rows, org) && Overshadowed(env, w.rows, org) && ListsPending(Pass1(env, w).rows, order)
    requires org in w.subs
    ensures Round(env, w, order).subs[org]
            == match LastActivated(env, w.rows, order, org)
               case Some(a) => Wanted(env, w.rows[a])
               case None => HandedOn(env, w.rows, org, w.subs[org])
  {
    var w1 := Pass1(env, w);
    Pass1Hands(env, w.rows, org, w.subs[org]);
    forall j: nat | j < |w.rows|
      ensures Of(w1.rows[j], org) <==> Of(w.rows[j], org)
      ensures Of(w.rows[j], org) ==> (Activates(env, w1.rows[j]) <==> Activates(env, w.rows[j]))
      ensures Of(w.rows[j], org) && Activates(env, w.rows[j]) ==> w1.rows[j] == w.rows[j]
    {
      FirstPassRow(env, w, org, j);
    }
    ActivationsApply(env, w.rows, w1.rows, order, org, w1.subs[org]);
    StillBacked(env, w, order, org);
    assert Pass2(env, w1, order).rows == Round(env, w, order).rows;
  }

  lemma FirstPassRow(env: Env, w: World, org: string, j: nat)
    requires Known(env, w.rows, org) && Overshadowed(env, w.rows, org) && j < |w.rows|
    ensures
      var row, row1 := w.rows[j], Pass1(env, w).rows[j];
      && row1.org == row.org
      && (Of(row, org) ==> (Activates(env, row1) <==> Activates(env, row)))
      && (Of(row, org) && Activates(env, row) ==> row1 == row)
  {
    assert Pass1(env, w).rows[j] == Pass1Row(env, w.rows, j);
    if Of(w.rows[j], org) && IsNewest(w.rows, j) {
      NewestIsAhead(env, w.rows, org);
      AheadIsUnserved(env, w.rows, org, j);
      ResyncedTwice(env, w.rows[j]);
    }
  }

  lemma StillBacked(env: Env, w: World, order: seq<nat>, org: string)
    requires Known(env, w.rows, org) && Overshadowed(env, w.rows, org) && ListsPending(Pass1(env, w).rows, order)
    ensures Backed(Round(env, w, order).rows, org)
  {
    StaysOvershadowed(env, w, order, org);
    var rows' := Round(env, w, order).rows;
    var p: nat :| p < |rows'| && Of(rows'[p], org) && Purged(env, rows'[p]);
    assert Watched(rows'[p]);
  }

  // ------------------------------------------------------------------- over several rounds

  function PlanOf(env: Env, row: Row): Subscription
    requires row.plan in env.plans
  {
    Subscription(env.plans[row.plan].name, env.plans[row.plan].interval, Marketplace)
  }

  predicate MappedHeir(env: Env, rows: seq<Row>, org: string, h: nat) {
    Heir(env, rows, org, h) && rows[h].plan in env.plans
  }

  /** The heir on a mapped plan that comes last: the earliest purchase. */
  ghost predicate LastHeir(env: Env, rows: seq<Row>, org: string, h: nat) {
    && MappedHeir(env, rows, org, h)
    && forall j: nat :: MappedHeir(env, rows, org, j) ==> !LaterThan(rows, h, j)
  }

  lemma {:induction false} SomeLastHeir(env: Env, rows: seq<Row>, org: string, j: nat) returns (h: nat)
    requires MappedHeir(env, rows, org, j)
    ensures LastHeir(env, rows, org, h) && !LaterThan(rows, h, j)
    decreases rows[j].effectiveAt, j
  {
    if k: nat :| MappedHeir(env, rows, org, k) && LaterThan(rows, j, k) {
      h := SomeLastHeir(env, rows, org, k);
    } else {
      h := j;
    }
  }

  /** A purged newest row is the only one ahead, and so has no heirs. */
  lemma PurgedHasNoHeirs(env: Env, rows: seq<Row>, org: string)
    requires NewestLive(rows, org, None).Some? && Purged(env, rows[NewestLive(rows, org, None).value])
    ensures forall j: nat :: !Heir(env, rows, org, j)
  {
    forall j: nat | Ahead(env, rows, org, j) ensures NewestLive(rows, org, None) == Some(j) {
      NoneLater(rows, org, None, j);
    }
  }

  ghost predicate NoneActivate(env: Env, rows: seq<Row>, org: string) {
    forall j: nat :: j < |rows| && Of(rows[j], org) ==> !Activates(env, rows[j])
  }

  lemma RoundLeavesNone(env: Env, w: World, order: seq<nat>, org: string)
    requires Known(env, w.rows, org) && Overshadowed(env, w.rows, org) && ListsPending(Pass1(env, w).rows, order)
    ensures NoneActivate(env, Round(env, w, order).rows, org)
  {
    forall j: nat | j < |w.rows| && Of(Round(env, w, order).rows[j], org)
      ensures !Activates(env, Round(env, w, order).rows[j])
    {
      RoundKeeps(env, w, order, j);
      RowAfter(env, w, order, org, j);
    }
  }

  lemma {:induction false} NoneIsLast(env: Env, rows: seq<Row>, order: seq<nat>, org: string)
    requires NoneActivate(env, rows, org)
    ensures LastActivated(env, rows, order, org) == None
  {
    if |order| > 0 { NoneIsLast(env, rows, order[..|order| - 1], org); }
  }

  /** Where the newest is purged no further round changes the subscription. */
  lemma {:induction false} PurgedDecides(env: Env, w: World, orders: seq<seq<nat>>, org: string)
    requires Known(env, w.rows, org) && Overshadowed(env, w.rows, org) && NoneActivate(env, w.rows, org)
    requires ListsPendingEachTime(env, w, orders) && org in w.subs
    requires NewestLive(w.rows, org, None).Some? && w.rows[NewestLive(w.rows, org, None).value].id !in env.google
    ensures Rounds(env, w, orders).subs[org] == w.subs[org]
    decreases |orders|
  {
    if |orders| > 0 {
      var order := orders[0];
      NoneIsLast(env, w.rows, order, org);
      RoundSub(env, w, order, org);
      NewestAfter(env, w, order, org);
      RoundKeeps(env, w, order, NewestLive(w.rows, org, None).value);
      RoundKeepsKnown(env, w, order, org);
      StaysOvershadowed(env, w, order, org);
      RoundLeavesNone(env, w, order, org);
      PurgedDecides(env, Round(env, w, order), orders[1..], org);
    }
  }

  /** After a round in which the newest left, its heirs but for the next are left in line. */
  lemma HeirsAfter(env: Env, w: World, order: seq<nat>, org: string, j: nat)
    requires Known(env, w.rows, org) && Overshadowed(env, w.rows, org) && ListsPending(Pass1(env, w).rows, order)
    requires NewestLive(w.rows, org, None).Some? && w.rows[NewestLive(w.rows, org, None).value].id in env.google
    ensures Heir(env, Round(env, w, order).rows, org, j)
            <==> Heir(env, w.rows, org, j) && NewestLive(w.rows, org, NewestLive(w.rows, org, None)) != Some(j)
    ensures Heir(env, Round(env, w, order).rows, org, j) ==> Round(env, w, order).rows[j] == w.rows[j]
  {
    NewestAfter(env, w, order, org);
    if j < |w.rows| { AheadAfter(env, w, order, org, j); }
  }

  lemma NextIsHeir(env: Env, rows: seq<Row>, org: string)
    requires Overshadowed(env, rows, org) && NewestLive(rows, org, None).Some?
    requires rows[NewestLive(rows, org, None).value].id in env.google
    ensures
      var next := NewestLive(rows, org, NewestLive(rows, org, None));
      && next.Some? && Heir(env, rows, org, next.value)
      && forall j: nat :: Heir(env, rows, org, j) ==> !LaterThan(rows, j, next.value)
  {
    NextIsAhead(env, rows, org);
    forall j: nat | Heir(env, rows, org, j)
      ensures !LaterThan(rows, j, NewestLive(rows, org, NewestLive(rows, org, None)).value)
    {
      NoneLater(rows, org, NewestLive(rows, org, None), j);
    }
  }

  /** The heirs of one table are those of another, but for the next in line. */
  ghost predicate HeirsLeft(env: Env, rows: seq<Row>, rows': seq<Row>, org: string, next: nat) {
    && |rows'| == |rows| && Heir(env, rows, org, next)
    && forall j: nat ::
         && (Heir(env, rows', org, j) <==> Heir(env, rows, org, j) && j != next)
         && (Heir(env, rows', org, j) ==> rows'[j] == rows[j])
         && (Heir(env, rows, org, j) ==> !LaterThan(rows, j, next))
  }

  lemma HeirsAreLeft(env: Env, w: World, order: seq<nat>, org: string) returns (next: nat)
    requires Known(env, w.rows, org) && Overshadowed(env, w.rows, org) && ListsPending(Pass1(env, w).rows, order)
    requires NewestLive(w.rows, org, None).Some? && w.rows[NewestLive(w.rows, org, None).value].id in env.google
    ensures NewestLive(w.rows, org, NewestLive(w.rows, org, None)) == Some(next)
    ensures HeirsLeft(env, w.rows, Round(env, w, order).rows, org, next)
  {
    NextIsHeir(env, w.rows, org);
    next := NewestLive(w.rows, org, NewestLive(w.rows, org, None)).value;
    forall j: nat
      ensures Heir(env, Round(env, w, order).rows, org, j) <==> Heir(env, w.rows, org, j) && j != next
      ensures Heir(env, Round(env, w, order).rows, org, j) ==> Round(env, w, order).rows[j] == w.rows[j]
    {
      HeirsAfter(env, w, order, org, j);
    }
  }

  /** The last heir stays the last, unless it is the next in line, and then it was the only
      one on a mapped plan. */
  lemma LastHeirLeft(env: Env, rows: seq<Row>, rows': seq<Row>, org: string, next: nat, h: nat)
    requires HeirsLeft(env, rows, rows', org, next) && LastHeir(env, rows, org, h)
    ensures h != next ==> LastHeir(env, rows', org, h) && rows'[h] == rows[h]
    ensures h == next ==> forall j: nat :: !MappedHeir(env, rows', org, j)
  {
    if h == next {
      forall j: nat ensures !MappedHeir(env, rows', org, j) {
        assert MappedHeir(env, rows', org, j) ==> MappedHeir(env, rows, org, j);
      }
    } else {
      assert Heir(env, rows', org, h);
      forall j: nat | MappedHeir(env, rows', org, j) ensures !LaterThan(rows', h, j) {
        assert MappedHeir(env, rows, org, j);
      }
    }
  }

  /** Once nothing is activated any more: the last heir's plan decides, or else nothing does. */
  lemma {:induction false} Handed(env: Env, w: World, orders: seq<seq<nat>>, org: string)
    requires Known(env, w.rows, org) && Overshadowed(env, w.rows, org) && NoneActivate(env, w.rows, org)
    requires ListsPendingEachTime(env, w, orders) && org in w.subs && |orders| >= Measure(env, w.rows, org)
    ensures forall h: nat :: LastHeir(env, w.rows, org, h) ==>
                              Rounds(env, w, orders).subs[org] == PlanOf(env, w.rows[h])
    ensures (forall h: nat :: !MappedHeir(env, w.rows, org, h)) ==> Rounds(env, w, orders).subs[org] == w.subs[org]
    decreases |orders|
  {
    NewestIsAhead(env, w.rows, org);
    var l := NewestLive(w.rows, org, None).value;
    if w.rows[l].id !in env.google {
      PurgedDecides(env, w, orders, org);
      PurgedHasNoHeirs(env, w.rows, org);
    } else {
      AheadIsUnserved(env, w.rows, org, l);
      MeasuredRow(env, w.rows, org, l);
      HandedOneMore(env, w, orders, org);
    }
  }

  lemma {:induction false} HandedOneMore(env: Env, w: World, orders: seq<seq<nat>>, org: string)
    requires Known(env, w.rows, org) && Overshadowed(env, w.rows, org) && NoneActivate(env, w.rows, org)
    requires ListsPendingEachTime(env, w, orders) && org in w.subs
    requires |orders| > 0 && |orders| >= Measure(env, w.rows, org)
    requires NewestLive(w.rows, org, None).Some? && Counts(env, w.rows[NewestLive(w.rows, org, None).value], org)
    ensures forall h: nat :: LastHeir(env, w.rows, org, h) ==>
                              Rounds(env, w, orders).subs[org] == PlanOf(env, w.rows[h])
    ensures (forall h: nat :: !MappedHeir(env, w.rows, org, h)) ==> Rounds(env, w, orders).subs[org] == w.subs[org]
    decreases |orders|, 0
  {
    var w', order := Round(env, w, orders[0]), orders[0];
    var next := HeirsAreLeft(env, w, order, org);
    assert !Still(env, w.rows, NewestLive(w.rows, org, None).value);
    RoundSettles(env, w, order, org);
    RoundKeepsKnown(env, w, order, org);
    StaysOvershadowed(env, w, order, org);
    RoundLeavesNone(env, w, order, org);
    NoneIsLast(env, w.rows, order, org);
    RoundSub(env, w, order, org);
    Handed(env, w', orders[1..], org);
    forall h: nat | LastHeir(env, w.rows, org, h)
      ensures Rounds(env, w, orders).subs[org] == PlanOf(env, w.rows[h])
    {
      LastHeirLeft(env, w.rows, w'.rows, org, next, h);
    }
    if forall h: nat :: !MappedHeir(env, w.rows, org, h) {
      assert !MappedHeir(env, w.rows, org, next);
      forall h: nat ensures !MappedHeir(env, w'.rows, org, h) {
        assert MappedHeir(env, w'.rows, org, h) ==> MappedHeir(env, w.rows, org, h);
      }
    }
  }

  // ------------------------------------------------------------------------- the theorem

  /** The heir whose plan is the last to be applied: one applied in the first round is
      overtaken by a row activated in that round. */
  ghost predicate Prevails(env: Env, rows: seq<Row>, order: seq<nat>, org: string, h: nat) {
    && LastHeir(env, rows, org, h)
    && (LastActivated(env, rows, order, org).None? || NewestLive(rows, org, NewestLive(rows, org, None)) != Some(h))
  }

  /** What the rows and the subscription at the start come to, given the order in which the
      first round meets the pending rows. */
  ghost function Outcome(env: Env, rows: seq<Row>, order: seq<nat>, org: string, s: Subscription): Subscription {
    if exists h: nat :: Prevails(env, rows, order, org, h) then
      var h: nat :| Prevails(env, rows, order, org, h);
      PlanOf(env, rows[h])
    else
      match LastActivated(env, rows, order, org)
      case Some(a) => Wanted(env, rows[a])
      case None => s
  }

  /** After the first round nothing is activated any more, and what it leaves is known. */
  lemma AfterFirstRound(env: Env, w: World, orders: seq<seq<nat>>, org: string)
    requires Known(env, w.rows, org) && Overshadowed(env, w.rows, org)
    requires ListsPendingEachTime(env, w, orders) && org in w.subs && |orders| > Measure(env, w.rows, org)
    ensures
      var w', end := Round(env, w, orders[0]), Rounds(env, w, orders).subs[org];
      && (forall h: nat :: LastHeir(env, w'.rows, org, h) ==> end == PlanOf(env, w'.rows[h]))
      && ((forall h: nat :: !MappedHeir(env, w'.rows, org, h)) ==> end == w'.subs[org])
  {
    var w', order := Round(env, w, orders[0]), orders[0];
    RoundSettles(env, w, order, org);
    RoundKeepsKnown(env, w, order, org);
    StaysOvershadowed(env, w, order, org);
    RoundLeavesNone(env, w, order, org);
    Handed(env, w', orders[1..], org);
  }

  lemma NoHeirsEither(env: Env, w: World, order: seq<nat>, org: string)
    requires Known(env, w.rows, org) && Overshadowed(env, w.rows, org) && ListsPending(Pass1(env, w).rows, order)
    requires NewestLive(w.rows, org, None).Some? && w.rows[NewestLive(w.rows, org, None).value].id !in env.google
    ensures forall j: nat :: !Heir(env, w.rows, org, j)
    ensures forall j: nat :: !Heir(env, Round(env, w, order).rows, org, j)
  {
    PurgedHasNoHeirs(env, w.rows, org);
    NewestAfter(env, w, order, org);
    RoundKeeps(env, w, order, NewestLive(w.rows, org, None).value);
    PurgedHasNoHeirs(env, Round(env, w, order).rows, org);
  }

  lemma NothingPrevails(env: Env, rows: seq<Row>, order: seq<nat>, org: string, s: Subscription)
    requires forall j: nat :: !Heir(env, rows, org, j)
    ensures Outcome(env, rows, order, org, s)
            == match LastActivated(env, rows, order, org) case Some(a) => Wanted(env, rows[a]) case None => s
  {}

  /** An organization behind a purged purchase ends where its starting rows say. */
  lemma EndsOnOutcome(env: Env, w: World, orders: seq<seq<nat>>, org: string)
    requires Known(env, w.rows, org) && Overshadowed(env, w.rows, org)
    requires ListsPendingEachTime(env, w, orders) && org in w.subs && |orders| > Measure(env, w.rows, org)
    ensures Rounds(env, w, orders).subs[org] == Outcome(env, w.rows, orders[0], org, w.subs[org])
  {
    var w', order := Round(env, w, orders[0]), orders[0];
    RoundSub(env, w, order, org);
    AfterFirstRound(env, w, orders, org);
    NewestIsAhead(env, w.rows, org);
    if w.rows[NewestLive(w.rows, org, None).value].id !in env.google {
      NoHeirsEither(env, w, order, org);
      NothingPrevails(env, w.rows, order, org, w.subs[org]);
    } else {
      var next := HeirsAreLeft(env, w, order, org);
      FirstRoundDecides(env, w.rows, w'.rows, order, org, next, w.subs[org], w'.subs[org],
                        Rounds(env, w, orders).subs[org]);
    }
  }

  lemma FirstRoundDecides(env: Env, rows: seq<Row>, rows': seq<Row>, order: seq<nat>, org: string, next: nat,
                          s: Subscription, s': Subscription, end: Subscription)
    requires HeirsLeft(env, rows, rows', org, next)
    requires NewestLive(rows, org, NewestLive(rows, org, None)) == Some(next)
    requires s' == match LastActivated(env, rows, order, org)
                   case Some(a) => Wanted(env, rows[a])
                   case None => Applied(env, s, rows[next])
    requires forall h: nat :: LastHeir(env, rows', org, h) ==> end == PlanOf(env, rows'[h])
    requires (forall h: nat :: !MappedHeir(env, rows', org, h)) ==> end == s'
    ensures end == Outcome(env, rows, order, org, s)
  {
    if exists h: nat :: Prevails(env, rows, order, org, h) {
      forall h: nat | Prevails(env, rows, order, org, h) ensures end == PlanOf(env, rows[h]) {
        LastHeirLeft(env, rows, rows', org, next, h);
      }
    } else {
      forall j: nat ensures !MappedHeir(env, rows', org, j) {
        if MappedHeir(env, rows', org, j) { LaterHeirPrevails(env, rows, rows', order, org, next, j); }
      }
      if LastActivated(env, rows, order, org).None? && rows[next].plan in env.plans {
        var h := SomeLastHeir(env, rows, org, next);
        assert Prevails(env, rows, order, org, h);
      }
    }
  }

  lemma LaterHeirPrevails(env: Env, rows: seq<Row>, rows': seq<Row>, order: seq<nat>, org: string, next: nat, j: nat)
    requires HeirsLeft(env, rows, rows', org, next) && MappedHeir(env, rows', org, j)
    requires NewestLive(rows, org, NewestLive(rows, org, None)) == Some(next)
    ensures exists h: nat :: Prevails(env, rows, order, org, h)
  {
    assert MappedHeir(env, rows, org, j) && j != next;
    var h := SomeLastHeir(env, rows, org, j);
    assert !LaterThan(rows, j, next);
    assert Prevails(env, rows, order, org, h);
  }

  lemma PurgedOvershadows(env: Env, rows: seq<Row>, org: string, i: nat)
    requires NewestAtGoogle(env, rows, org, i) && PurgedIsNewer(env, rows, org, i)
    ensures Overshadowed(env, rows, org)
  {
    var p :| 0 <= p < |rows| && Of(rows[p], org) && Purged(env, rows[p]) &&
             var a, b := rows[p].effectiveAt, env.google[rows[i].id].createTime; a > b || (a == b && p > i);
    forall j: nat | j < |rows| && Of(rows[j], org) && Served(env, rows[j]) ensures PurgedIsNewer(env, rows, org, j) {
      assert Of(rows[p], org) && Purged(env, rows[p]);
    }
  }

  /** Where the repair converges, said of the rows it starts with: an organization ends on its
      newest served plan if and only if no purged live row of it is newer, or its heirs, its
      activated rows and its subscription come to that plan all the same. */
  lemma ConvergesExactly(env: Env, w: World, orders: seq<seq<nat>>, org: string, i: nat)
    requires Known(env, w.rows, org) && ListsPendingEachTime(env, w, orders) && org in w.subs
    requires |orders| > Measure(env, w.rows, org)
    requires NewestAtGoogle(env, w.rows, org, i) && Mapped(env, w.rows[i])
    ensures Rounds(env, w, orders).subs[org] == Wanted(env, w.rows[i])
            <==> !PurgedIsNewer(env, w.rows, org, i)
                 || Outcome(env, w.rows, orders[0], org, w.subs[org]) == Wanted(env, w.rows[i])
  {
    if PurgedIsNewer(env, w.rows, org, i) {
      PurgedOvershadows(env, w.rows, org, i);
      EndsOnOutcome(env, w, orders, org);
    } else {
      SettledDecides(env, w, orders, org, |orders| - 1, i);
    }
  }
}

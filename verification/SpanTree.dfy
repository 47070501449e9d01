/** The identity and parent checks that a seeded trace passes before it is sent: span ids are
    unique, every extra span's parent belongs to the trace, and no parent chain is a cycle. */
module SpanTree {
  import opened Wrappers

  /** The number that a span id's sixteen hex digits write. */
  type SpanId = int

  datatype Span = Span(id: SpanId, parent: SpanId)

  datatype Outcome = Accepted | RootIsChild | RepeatedId | ForeignParent | ParentCycle

  type Links = map<SpanId, Option<SpanId>>

  // -------------------------------------------------- what a tree is, on the spans alone

  predicate UniqueIds(root: SpanId, child: SpanId, extras: seq<Span>) {
    && root != child
    && (forall i :: 0 <= i < |extras| ==> extras[i].id != root && extras[i].id != child)
    && (forall i, j :: 0 <= i < j < |extras| ==> extras[i].id != extras[j].id)
  }

  ghost predicate IsParent(root: SpanId, child: SpanId, extras: seq<Span>, id: SpanId, parent: SpanId) {
    (id == child && parent == root) || Span(id, parent) in extras
  }

  ghost predicate IsChain(root: SpanId, child: SpanId, extras: seq<Span>, chain: seq<SpanId>) {
    && chain != [] && chain[|chain| - 1] == root
    && forall i :: 0 <= i < |chain| - 1 ==> IsParent(root, child, extras, chain[i], chain[i + 1])
  }

  /** A parent chain that comes back to where it began, as a self-parent does at once. */
  ghost predicate IsCycle(root: SpanId, child: SpanId, extras: seq<Span>, chain: seq<SpanId>) {
    && |chain| >= 2 && chain[0] == chain[|chain| - 1]
    && forall i :: 0 <= i < |chain| - 1 ==> IsParent(root, child, extras, chain[i], chain[i + 1])
  }

  ghost predicate ReachesRoot(root: SpanId, child: SpanId, extras: seq<Span>, id: SpanId) {
    exists chain :: IsChain(root, child, extras, chain) && chain[0] == id
  }

  ghost predicate IsTree(root: SpanId, child: SpanId, extras: seq<Span>) {
    && UniqueIds(root, child, extras)
    && forall e :: e in extras ==> ReachesRoot(root, child, extras, e.id)
  }

  // ------------------------------------------------------------------ climbing the links

  function Up(links: Links, at: Option<SpanId>): Option<SpanId> {
    if at.Some? && at.value in links then links[at.value] else None
  }

  function Climb(links: Links, at: Option<SpanId>, n: nat): Option<SpanId> {
    if n == 0 then at else Up(links, Climb(links, at, n - 1))
  }

  ghost predicate Ends(links: Links, at: Option<SpanId>) {
    exists n: nat :: Climb(links, at, n) == None
  }

  lemma {:induction false} ClimbAdds(links: Links, at: Option<SpanId>, n: nat, m: nat)
    ensures Climb(links, at, n + m) == Climb(links, Climb(links, at, n), m)
  {
    if m > 0 {
      ClimbAdds(links, at, n, m - 1);
    }
  }

  /** A climb that meets itself goes on for ever. */
  lemma {:induction false} MetItself(links: Links, at: Option<SpanId>, i: nat, n: nat, m: nat)
    requires i < n && Climb(links, at, i) == Climb(links, at, n)
    requires forall k: nat :: k < n ==> Climb(links, at, k) != None
    ensures Climb(links, at, m) != None
  {
    if m > n {
      MetItself(links, at, i, n, m - (n - i));
      ClimbAdds(links, at, i, m - n);
      ClimbAdds(links, at, n, m - n);
    }
  }

  /** The spans a walk has passed, in order, are the ones it has seen. */
  ghost predicate Walked(links: Links, start: SpanId, trail: seq<SpanId>, seen: set<SpanId>, current: Option<SpanId>) {
    && current == Climb(links, Some(start), |trail|)
    && (forall k: nat :: k < |trail| ==> Climb(links, Some(start), k) == Some(trail[k]))
    && seen == set id | id in trail
  }

  lemma WalksOn(links: Links, start: SpanId, trail: seq<SpanId>, seen: set<SpanId>, at: SpanId)
    requires Walked(links, start, trail, seen, Some(at))
    ensures Walked(links, start, trail + [at], seen + {at}, Up(links, Some(at)))
  {
    var onward := trail + [at];
    assert Climb(links, Some(start), |onward|) == Up(links, Climb(links, Some(start), |trail|));
    forall id ensures id in onward <==> id in seen + {at} {
      assert id in onward <==> id in trail || id == at;
    }
  }

  lemma SeenGrows(links: Links, seen: set<SpanId>, at: SpanId)
    requires at !in seen
    ensures at in links ==> |links.Keys - (seen + {at})| < |links.Keys - seen|
    ensures at !in links ==> links.Keys - (seen + {at}) == links.Keys - seen && Up(links, Some(at)) == None
  {
    assert links.Keys - (seen + {at}) == (links.Keys - seen) - {at};
  }

  /** Spans each linked to the next, the last being the first again. */
  ghost predicate IsLoop(links: Links, loop: seq<SpanId>) {
    && |loop| >= 2 && loop[0] == loop[|loop| - 1]
    && forall i :: 0 <= i < |loop| - 1 ==> loop[i] in links && links[loop[i]] == Some(loop[i + 1])
  }

  lemma MeetingLoops(links: Links, start: SpanId, trail: seq<SpanId>, seen: set<SpanId>, at: SpanId)
    requires Walked(links, start, trail, seen, Some(at)) && at in seen
    ensures exists loop :: IsLoop(links, loop)
  {
    var i :| 0 <= i < |trail| && trail[i] == at;
    var loop := trail[i..] + [at];
    forall k | 0 <= k < |loop| - 1 ensures loop[k] in links && links[loop[k]] == Some(loop[k + 1]) {
      assert Climb(links, Some(start), i + k) == Some(loop[k]);
      assert Climb(links, Some(start), i + k + 1) == Some(loop[k + 1]);
    }
    assert IsLoop(links, loop);
  }

  lemma MeetingNeverEnds(links: Links, start: SpanId, trail: seq<SpanId>, seen: set<SpanId>, at: SpanId)
    requires Walked(links, start, trail, seen, Some(at)) && at in seen
    ensures !Ends(links, Some(start))
  {
    var i :| 0 <= i < |trail| && trail[i] == at;
    forall m: nat ensures Climb(links, Some(start), m) != None {
      MetItself(links, Some(start), i, |trail|, m);
    }
  }

  /** The walk with its `seen` set: it always ends, and finds a cycle exactly when climbing
      would not. */
  method FindsCycle(links: Links, start: SpanId) returns (cycle: bool)
    ensures cycle <==> !Ends(links, Some(start))
    ensures cycle ==> exists loop :: IsLoop(links, loop)
  {
    var seen: set<SpanId> := {};
    var current := Some(start);
    ghost var trail: seq<SpanId> := [];
    while current.Some?
      invariant Walked(links, start, trail, seen, current)
      decreases |links.Keys - seen| + if current.Some? then 1 else 0
    {
      var at := current.value;
      if at in seen {
        MeetingNeverEnds(links, start, trail, seen, at);
        MeetingLoops(links, start, trail, seen, at);
        return true;
      }
      WalksOn(links, start, trail, seen, at);
      SeenGrows(links, seen, at);
      trail := trail + [at];
      seen := seen + {at};
      current := Up(links, current);
    }
    return false;
  }

  // ------------------------------------------------------------- the links of the spans

  ghost predicate AreLinksOf(links: Links, root: SpanId, child: SpanId, extras: seq<Span>) {
    && root in links && links[root] == None
    && (forall id, parent :: (id in links && links[id] == Some(parent)) <==> IsParent(root, child, extras, id, parent))
    && (forall id :: id in links && links[id] == None ==> id == root)
  }

  lemma AddLink(links: Links, root: SpanId, child: SpanId, before: seq<Span>, e: Span)
    requires UniqueIds(root, child, before) && AreLinksOf(links, root, child, before)
    ensures e.id !in links ==> UniqueIds(root, child, before + [e])
    ensures e.id !in links ==> AreLinksOf(links[e.id := Some(e.parent)], root, child, before + [e])
    ensures e.id in links ==> !UniqueIds(root, child, before + [e])
  {
    assert IsParent(root, child, before, child, root);
    var all := before + [e];
    if e.id in links {
      if e.id != root && e.id != child {
        assert IsParent(root, child, before, e.id, links[e.id].value);
        var i :| 0 <= i < |before| && before[i] == Span(e.id, links[e.id].value);
        assert all[i].id == all[|before|].id;
      } else {
        assert all[|before|].id == e.id;
      }
    } else {
      forall i | 0 <= i < |before| ensures before[i].id != e.id {
        assert IsParent(root, child, before, before[i].id, before[i].parent);
      }
      forall id, parent
        ensures IsParent(root, child, all, id, parent)
                <==> IsParent(root, child, before, id, parent) || Span(id, parent) == e
        {
      }
    }
  }

  lemma PrefixUnique(root: SpanId, child: SpanId, extras: seq<Span>, n: nat)
    requires n <= |extras| && UniqueIds(root, child, extras)
    ensures UniqueIds(root, child, extras[..n])
  {}

  method CollectLinks(root: SpanId, child: SpanId, extras: seq<Span>) returns (links: Links, unique: bool)
    requires root != child
    ensures unique <==> UniqueIds(root, child, extras)
    ensures unique ==> AreLinksOf(links, root, child, extras)
  {
    links := map[root := None, child := Some(root)];
    for i := 0 to |extras|
      invariant UniqueIds(root, child, extras[..i]) && AreLinksOf(links, root, child, extras[..i])
    {
      AddLink(links, root, child, extras[..i], extras[i]);
      assert extras[..i + 1] == extras[..i] + [extras[i]];
      if extras[i].id in links {
        if UniqueIds(root, child, extras) {
          PrefixUnique(root, child, extras, i + 1);
        }
        return links, false;
      }
      links := links[extras[i].id := Some(extras[i].parent)];
    }
    assert extras[..|extras|] == extras;
    unique := true;
  }

  // ---------------------------------------------------------------------- the theorem

  lemma {:induction false} ClimbFollows(links: Links, root: SpanId, child: SpanId, extras: seq<Span>,
                                        chain: seq<SpanId>, n: nat)
    requires AreLinksOf(links, root, child, extras) && IsChain(root, child, extras, chain) && n < |chain|
    ensures Climb(links, Some(chain[0]), n) == Some(chain[n])
  {
    if n > 0 {
      ClimbFollows(links, root, child, extras, chain, n - 1);
      assert IsParent(root, child, extras, chain[n - 1], chain[n - 1 + 1]);
    }
  }

  lemma ReachingEnds(links: Links, root: SpanId, child: SpanId, extras: seq<Span>, e: Span)
    requires UniqueIds(root, child, extras) && AreLinksOf(links, root, child, extras)
    requires e in extras && ReachesRoot(root, child, extras, e.id)
    ensures e.parent in links && Ends(links, Some(e.id))
  {
    var chain :| IsChain(root, child, extras, chain) && chain[0] == e.id;
    var last := |chain| - 1;
    ClimbFollows(links, root, child, extras, chain, last);
    assert Climb(links, Some(e.id), last + 1) == None;
    assert IsParent(root, child, extras, chain[0], chain[0 + 1]);
    assert IsParent(root, child, extras, e.id, e.parent);
    assert chain[1] == e.parent;
    if last > 1 {
      assert IsParent(root, child, extras, chain[1], chain[1 + 1]);
    }
  }

  /** Where every parent is in the trace, a climb that ends has passed the root. */
  lemma {:induction false} EndingReaches(links: Links, root: SpanId, child: SpanId, extras: seq<Span>, id: SpanId,
                                         n: nat)
    requires UniqueIds(root, child, extras) && AreLinksOf(links, root, child, extras)
    requires forall e :: e in extras ==> e.parent in links
    requires id in links && Climb(links, Some(id), n) == None
    ensures ReachesRoot(root, child, extras, id)
    decreases n
  {
    if id == root {
      assert IsChain(root, child, extras, [root]);
    } else {
      var parent := links[id].value;
      assert IsParent(root, child, extras, id, parent);
      ClimbAdds(links, Some(id), 1, n - 1);
      assert Climb(links, Some(id), 1) == Some(parent) by {
        assert Climb(links, Some(id), 0) == Some(id);
      }
      EndingReaches(links, root, child, extras, parent, n - 1);
      var chain :| IsChain(root, child, extras, chain) && chain[0] == parent;
      assert IsChain(root, child, extras, [id] + chain);
    }
  }

  lemma ForeignIsForeign(links: Links, root: SpanId, child: SpanId, extras: seq<Span>, e: Span)
    requires AreLinksOf(links, root, child, extras) && e.parent !in links
    ensures e.parent != root && e.parent != child && forall f :: f in extras ==> f.id != e.parent
  {
    assert IsParent(root, child, extras, child, root);
    forall f | f in extras ensures f.id != e.parent {
      assert IsParent(root, child, extras, f.id, f.parent);
    }
  }

  /** A trace passes exactly when its ids are unique and every extra span reaches the root by
      parent links; otherwise the error names a fault the trace has. */
  method CheckTrace(root: SpanId, child: SpanId, extras: seq<Span>) returns (outcome: Outcome)
    ensures outcome == Accepted <==> IsTree(root, child, extras)
    ensures outcome == RootIsChild <==> root == child
    ensures outcome == RepeatedId <==> root != child && !UniqueIds(root, child, extras)
    ensures outcome == ForeignParent ==>
              exists e :: e in extras && e.parent != root && e.parent != child
                          && forall f :: f in extras ==> f.id != e.parent
    ensures outcome == ParentCycle ==> exists chain :: IsCycle(root, child, extras, chain)
  {
    if root == child {
      return RootIsChild;
    }
    var links, unique := CollectLinks(root, child, extras);
    if !unique {
      return RepeatedId;
    }
    for i := 0 to |extras|
      invariant forall k :: 0 <= k < i ==> extras[k].parent in links && Ends(links, Some(extras[k].id))
    {
      if extras[i].parent !in links {
        if ReachesRoot(root, child, extras, extras[i].id) {
          ReachingEnds(links, root, child, extras, extras[i]);
        }
        ForeignIsForeign(links, root, child, extras, extras[i]);
        return ForeignParent;
      }
      var cycle := FindsCycle(links, extras[i].id);
      if cycle {
        if ReachesRoot(root, child, extras, extras[i].id) {
          ReachingEnds(links, root, child, extras, extras[i]);
        }
        ghost var loop :| IsLoop(links, loop);
        assert IsCycle(root, child, extras, loop);
        return ParentCycle;
      }
    }
    forall e | e in extras ensures ReachesRoot(root, child, extras, e.id) {
      assert IsParent(root, child, extras, e.id, e.parent);
      var n: nat :| Climb(links, Some(e.id), n) == None;
      EndingReaches(links, root, child, extras, e.id, n);
    }
    return Accepted;
  }
}

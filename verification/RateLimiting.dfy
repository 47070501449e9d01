/** The sliding-window limiter on the authentication endpoints.  It keeps, under a cache
    expiry, only the admissions of the last window; it is proved to decide as if it had kept
    every admission ever made. */
module RateLimiting {
  import opened Wrappers

  /** Seconds, fractions included. */
  type Time = real

  const WINDOW: Time := 3600.0

  /** The two limits a deployment may set: admissions in a window, and seconds of a block. */
  datatype Limits = Limits(max: nat, block: Time)

  /** Everything a bucket has ever admitted, and when its last block ends. */
  datatype History = History(admitted: seq<Time>, blockedUntil: Option<Time>)

  predicate Blocked(h: History, now: Time) {
    h.blockedUntil.Some? && now < h.blockedUntil.value
  }

  /** The times still inside the window at `now`. */
  function Recent(times: seq<Time>, now: Time): seq<Time> {
    if |times| == 0 then []
    else
      var front := Recent(times[..|times| - 1], now);
      if now - times[|times| - 1] < WINDOW then front + [times[|times| - 1]] else front
  }

  datatype Verdict = Admitted | LimitReached | StillBlocked

  function Judge(limits: Limits, h: History, now: Time): Verdict {
    if Blocked(h, now) then StillBlocked
    else if |Recent(h.admitted, now)| >= limits.max then LimitReached
    else Admitted
  }

  function Step(limits: Limits, h: History, now: Time): History {
    match Judge(limits, h, now)
    case StillBlocked => h
    case LimitReached => h.(blockedUntil := Some(now + limits.block))
    case Admitted => h.(admitted := h.admitted + [now])
  }

  function Run(limits: Limits, calls: seq<Time>): History {
    if |calls| == 0 then History([], None) else Step(limits, Run(limits, calls[..|calls| - 1]), calls[|calls| - 1])
  }

  lemma RunOneMore(limits: Limits, calls: seq<Time>, now: Time)
    ensures Run(limits, calls + [now]) == Step(limits, Run(limits, calls), now)
  {
    assert (calls + [now])[..|calls|] == calls;
  }

  predicate Ascending(times: seq<Time>) {
    forall i, j :: 0 <= i < j < |times| ==> times[i] <= times[j]
  }

  // ------------------------------------------------------------------- the bound

  lemma {:induction false} RecentOfAscending(times: seq<Time>, now: Time, k: nat)
    requires Ascending(times) && k <= |times| && UpTo(times, now)
    requires forall i :: k <= i < |times| ==> now - times[i] < WINDOW
    ensures |Recent(times, now)| >= |times| - k
  {
    if k < |times| {
      var n := |times| - 1;
      RecentOfAscending(times[..n], now, k);
    }
  }

  /** Every run of admissions longer than the limit spans at least a window. */
  ghost predicate Spaced(limits: Limits, times: seq<Time>) {
    forall i, j :: 0 <= i && i + limits.max <= j < |times| ==> times[j] - times[i] >= WINDOW
  }

  /** One more admission, made while fewer than the limit are recent. */
  lemma AdmissionSpaced(limits: Limits, times: seq<Time>, now: Time)
    requires Ascending(times) && Spaced(limits, times) && UpTo(times, now)
    requires |Recent(times, now)| < limits.max
    ensures Ascending(times + [now]) && Spaced(limits, times + [now])
  {
    forall i | 0 <= i && i + limits.max <= |times| ensures now - times[i] >= WINDOW {
      if now - times[i] < WINDOW {
        RecentOfAscending(times, now, i);
      }
    }
  }

  ghost predicate UpTo(times: seq<Time>, now: Time) {
    forall i :: 0 <= i < |times| ==> times[i] <= now
  }

  lemma {:induction false} RunSpaced(limits: Limits, calls: seq<Time>)
    requires Ascending(calls)
    ensures Ascending(Run(limits, calls).admitted) && Spaced(limits, Run(limits, calls).admitted)
    ensures |calls| == 0 ==> Run(limits, calls).admitted == []
    ensures |calls| > 0 ==> UpTo(Run(limits, calls).admitted, calls[|calls| - 1])
  {
    if |calls| > 0 {
      var n := |calls| - 1;
      RunSpaced(limits, calls[..n]);
      var times, now := Run(limits, calls[..n]).admitted, calls[n];
      assert UpTo(times, now);
      if Judge(limits, Run(limits, calls[..n]), now) == Admitted {
        AdmissionSpaced(limits, times, now);
        assert Run(limits, calls).admitted == times + [now];
      }
    }
  }

  /** How many of the times fall in the window that starts at `from`. */
  function Within(times: seq<Time>, from: Time): nat {
    if |times| == 0 then 0
    else Within(times[..|times| - 1], from) + if from <= times[|times| - 1] < from + WINDOW then 1 else 0
  }

  /** The times of one window are consecutive: if the last is in it, so are the others that
      count, right before it. */
  lemma {:induction false} WithinIsRun(times: seq<Time>, from: Time)
    requires Ascending(times) && |times| > 0 && from <= times[|times| - 1] < from + WINDOW
    ensures 1 <= Within(times, from) <= |times| && times[|times| - Within(times, from)] >= from
  {
    var n := |times| - 1;
    if n > 0 {
      if from <= times[n - 1] {
        WithinIsRun(times[..n], from);
      } else {
        NoneWithin(times[..n], from);
      }
    }
  }

  lemma {:induction false} NoneWithin(times: seq<Time>, from: Time)
    requires forall i :: 0 <= i < |times| ==> times[i] < from
    ensures Within(times, from) == 0
  {
    if |times| > 0 { NoneWithin(times[..|times| - 1], from); }
  }

  lemma {:induction false} WithinBound(limits: Limits, times: seq<Time>, from: Time)
    requires Ascending(times) && Spaced(limits, times)
    ensures Within(times, from) <= limits.max
  {
    if |times| > 0 {
      var n := |times| - 1;
      if from <= times[n] < from + WINDOW {
        WithinIsRun(times, from);
        var first := |times| - Within(times, from);
        assert times[first] <= times[n] || first == n;
      } else {
        WithinBound(limits, times[..n], from);
      }
    }
  }

  /** Over every run of calls on a clock that does not go back, no window of an hour, wherever
      it starts, holds more admissions than the limit. */
  lemma AtMostMaxPerWindow(limits: Limits, calls: seq<Time>, from: Time)
    requires Ascending(calls)
    ensures Within(Run(limits, calls).admitted, from) <= limits.max
  {
    RunSpaced(limits, calls);
    WithinBound(limits, Run(limits, calls).admitted, from);
  }

  // --------------------------------------------------------- who is let in, and who not

  /** How many of the times lie less than an hour back. */
  function InTheLastHour(times: seq<Time>, now: Time): nat {
    if |times| == 0 then 0
    else InTheLastHour(times[..|times| - 1], now) + if times[|times| - 1] + 3600.0 > now then 1 else 0
  }

  lemma {:induction false} RecentCount(times: seq<Time>, now: Time)
    ensures |Recent(times, now)| == InTheLastHour(times, now)
  {
    if |times| > 0 { RecentCount(times[..|times| - 1], now); }
  }

  /** A request is let in if and only if no block is running and fewer than the limit were let
      in during the last hour; the first one over the limit starts a block. */
  lemma AdmittedExactly(limits: Limits, h: History, now: Time)
    ensures
      var blocked := h.blockedUntil.Some? && now < h.blockedUntil.value;
      && (Judge(limits, h, now) == Admitted <==> !blocked && InTheLastHour(h.admitted, now) < limits.max)
      && (Judge(limits, h, now) == StillBlocked <==> blocked)
  {
    RecentCount(h.admitted, now);
  }

  /** What each verdict leaves: the admission on record, a new block, or nothing. */
  lemma VerdictLeaves(limits: Limits, h: History, now: Time)
    ensures
      var h' := Step(limits, h, now);
      match Judge(limits, h, now)
      case Admitted => h'.admitted == h.admitted + [now] && h'.blockedUntil == h.blockedUntil
      case LimitReached => h'.admitted == h.admitted && h'.blockedUntil == Some(now + limits.block)
      case StillBlocked => h' == h
  {}

  /** Once the limit is reached every request before the block ends is refused, and changes
      nothing. */
  lemma {:induction false} BlockedUntilTheEnd(limits: Limits, calls: seq<Time>, start: nat, k: nat)
    requires start < k < |calls| && Ascending(calls)
    requires Judge(limits, Run(limits, calls[..start]), calls[start]) == LimitReached
    requires calls[k] < calls[start] + limits.block
    ensures Judge(limits, Run(limits, calls[..k]), calls[k]) == StillBlocked
    ensures Run(limits, calls[..k + 1]) == Run(limits, calls[..start + 1])
  {
    assert calls[..k + 1][..k] == calls[..k] && calls[..start + 1][..start] == calls[..start];
    if k > start + 1 {
      BlockedUntilTheEnd(limits, calls, start, k - 1);
    }
  }

  // ------------------------------------------------------- what the cache may forget

  /** A cached list of times with its expiry. */
  datatype Stored = Stored(times: seq<Time>, expires: Time)

  function Read(s: Option<Stored>, now: Time): seq<Time> {
    if s.Some? && now < s.value.expires then s.value.times else []
  }

  /** An entry is there until it expires, and then there is none. */
  lemma ExpiredIsForgotten(times: seq<Time>, expires: Time, now: Time)
    ensures now < expires ==> Read(Some(Stored(times, expires)), now) == times
    ensures now >= expires || times == [] ==> Read(Some(Stored(times, expires)), now) == []
  {}

  /** The cache's list, pruned, is the full history's at this moment and every later one. */
  ghost predicate Mirrors(s: Option<Stored>, admitted: seq<Time>, clock: Time) {
    forall now: Time :: clock <= now ==> Recent(Read(s, now), now) == Recent(admitted, now)
  }

  lemma {:induction false} RecentAppend(times: seq<Time>, t: Time, now: Time)
    ensures Recent(times + [t], now) == Recent(times, now) + if now - t < WINDOW then [t] else []
  {
    assert (times + [t])[..|times|] == times;
  }

  lemma {:induction false} RecentTwice(times: seq<Time>, earlier: Time, now: Time)
    requires earlier <= now
    ensures Recent(Recent(times, earlier), now) == Recent(times, now)
  {
    if |times| > 0 {
      var front, t := times[..|times| - 1], times[|times| - 1];
      RecentTwice(front, earlier, now);
      if earlier - t < WINDOW { RecentAppend(Recent(front, earlier), t, now); }
    }
  }

  lemma {:induction false} AllForgotten(times: seq<Time>, now: Time)
    requires forall i :: 0 <= i < |times| ==> times[i] + WINDOW <= now
    ensures Recent(times, now) == []
  {
    if |times| > 0 { AllForgotten(times[..|times| - 1], now); }
  }

  lemma StoreMirrors(s: Option<Stored>, admitted: seq<Time>, clock: Time)
    requires Mirrors(s, admitted, clock)
    requires forall t :: t in admitted ==> t <= clock
    ensures Mirrors(Some(Stored(Recent(Read(s, clock), clock) + [clock], clock + WINDOW)), admitted + [clock], clock)
  {
    var times := Recent(Read(s, clock), clock) + [clock];
    forall now: Time | clock <= now
      ensures Recent(Read(Some(Stored(times, clock + WINDOW)), now), now) == Recent(admitted + [clock], now)
    {
      assert times == Recent(admitted, clock) + [clock];
      RecentAppend(admitted, clock, now);
      RecentAppend(Recent(admitted, clock), clock, now);
      RecentTwice(admitted, clock, now);
      if clock + WINDOW <= now {
        forall i | 0 <= i < |admitted| ensures admitted[i] + WINDOW <= now { assert admitted[i] in admitted; }
        AllForgotten(admitted, now);
      }
    }
  }

  /** What one bucket's cache entries owe its history. */
  ghost predicate Faithful(s: Option<Stored>, block: Option<Time>, h: History, clock: Time) {
    && Mirrors(s, h.admitted, clock)
    && (forall t :: t in h.admitted ==> t <= clock)
    && h.blockedUntil == block
  }

  lemma FaithfulLater(s: Option<Stored>, block: Option<Time>, h: History, clock: Time, now: Time)
    requires Faithful(s, block, h, clock) && clock <= now
    ensures Faithful(s, block, h, now)
    ensures Recent(Read(s, now), now) == Recent(h.admitted, now)
  {}

  /** What a verdict leaves in the bucket. */
  function Entries(limits: Limits, s: Option<Stored>, block: Option<Time>, verdict: Verdict,
                   now: Time): (Option<Stored>, Option<Time>)
  {
    match verdict
    case StillBlocked => (s, block)
    case LimitReached => (s, Some(now + limits.block))
    case Admitted => (Some(Stored(Recent(Read(s, now), now) + [now], now + WINDOW)), block)
  }

  lemma FaithfulStep(limits: Limits, s: Option<Stored>, block: Option<Time>, h: History, now: Time)
    requires Faithful(s, block, h, now)
    ensures
      var e := Entries(limits, s, block, Judge(limits, h, now), now);
      Faithful(e.0, e.1, Step(limits, h, now), now)
  {
    StoreMirrors(s, h.admitted, now);
  }

  /** What they owe all the requests the bucket has had. */
  ghost predicate Kept(limits: Limits, s: Option<Stored>, block: Option<Time>, calls: seq<Time>, clock: Time) {
    Ascending(calls) && UpTo(calls, clock) && Faithful(s, block, Run(limits, calls), clock)
  }

  lemma KeptLater(limits: Limits, s: Option<Stored>, block: Option<Time>, calls: seq<Time>, clock: Time, now: Time)
    requires Kept(limits, s, block, calls, clock) && clock <= now
    ensures Kept(limits, s, block, calls, now)
  {
    FaithfulLater(s, block, Run(limits, calls), clock, now);
  }

  lemma KeptStep(limits: Limits, s: Option<Stored>, block: Option<Time>, calls: seq<Time>, now: Time)
    requires Kept(limits, s, block, calls, now)
    ensures
      var e := Entries(limits, s, block, Judge(limits, Run(limits, calls), now), now);
      Kept(limits, e.0, e.1, calls + [now], now)
  {
    FaithfulStep(limits, s, block, Run(limits, calls), now);
    RunOneMore(limits, calls, now);
  }

  function Lookup<T>(entries: map<string, T>, bucket: string): Option<T> {
    if bucket in entries then Some(entries[bucket]) else None
  }

  function CallsOf(calls: map<string, seq<Time>>, bucket: string): seq<Time> {
    if bucket in calls then calls[bucket] else []
  }

  ghost predicate AllKept(limits: Limits, requests: map<string, Stored>, blocks: map<string, Time>,
                          calls: map<string, seq<Time>>, clock: Time)
  {
    forall bucket: string ::
      Kept(limits, Lookup(requests, bucket), Lookup(blocks, bucket), CallsOf(calls, bucket), clock)
  }

  /** What one bucket's request leaves is kept for all of them. */
  lemma KeptForAll(limits: Limits, requests: map<string, Stored>, blocks: map<string, Time>,
                   calls: map<string, seq<Time>>, clock: Time, requests': map<string, Stored>,
                   blocks': map<string, Time>, bucket: string, now: Time)
    requires AllKept(limits, requests, blocks, calls, clock) && clock <= now
    requires forall other :: other != bucket ==> Lookup(requests', other) == Lookup(requests, other)
    requires forall other :: other != bucket ==> Lookup(blocks', other) == Lookup(blocks, other)
    requires
      var verdict := Judge(limits, Run(limits, CallsOf(calls, bucket)), now);
      (Lookup(requests', bucket), Lookup(blocks', bucket))
      == Entries(limits, Lookup(requests, bucket), Lookup(blocks, bucket), verdict, now)
    ensures AllKept(limits, requests', blocks', calls[bucket := CallsOf(calls, bucket) + [now]], now)
  {
    forall b: string
      ensures Kept(limits, Lookup(requests', b), Lookup(blocks', b),
                   CallsOf(calls[bucket := CallsOf(calls, bucket) + [now]], b), now)
    {
      KeptLater(limits, Lookup(requests, b), Lookup(blocks, b), CallsOf(calls, b), clock, now);
      if b == bucket {
        KeptStep(limits, Lookup(requests, b), Lookup(blocks, b), CallsOf(calls, b), now);
      }
    }
  }

  /** The middleware's two cache entries for each bucket of each address. */
  class Limiter {
    const limits: Limits
    var blocks: map<string, Time>
    var requests: map<string, Stored>
    ghost var calls: map<string, seq<Time>>
    ghost var clock: Time

    function Entry(bucket: string): Option<Stored>
      reads this
    {
      Lookup(requests, bucket)
    }

    function Block(bucket: string): Option<Time>
      reads this
    {
      Lookup(blocks, bucket)
    }

    /** Every request a bucket has ever had. */
    ghost function Calls(bucket: string): seq<Time>
      reads this
    {
      CallsOf(calls, bucket)
    }

    /** The bucket's full history: the run of all its requests. */
    ghost function Past(bucket: string): History
      reads this
    {
      Run(limits, Calls(bucket))
    }

    ghost predicate Valid()
      reads this
    {
      AllKept(limits, requests, blocks, calls, clock)
    }

    constructor (limits: Limits)
      ensures this.limits == limits && Valid() && blocks == map[] && requests == map[] && calls == map[] && clock == 0.0
    {
      this.limits := limits;
      blocks, requests, calls, clock := map[], map[], map[], 0.0;
    }

    /** One request: the verdict, from the pruned list under its cache expiry, is the one all
        earlier requests call for, and other buckets are left alone. */
    method Admit(bucket: string, now: Time) returns (verdict: Verdict)
      requires Valid() && clock <= now
      modifies this
      ensures Valid() && clock == now
      ensures verdict == Judge(limits, old(Past(bucket)), now)
      ensures calls == old(calls)[bucket := old(Calls(bucket)) + [now]]
    {
      verdict := Decide(bucket, now);
      KeptForAll(limits, old(requests), old(blocks), calls, clock, requests, blocks, bucket, now);
      calls, clock := calls[bucket := Calls(bucket) + [now]], now;
    }

    /** However the requests of buckets mix, no bucket ever has more admissions in an hour
        than the limit. */
    lemma NeverOverLimit(bucket: string, from: Time)
      requires Valid()
      ensures Within(Past(bucket).admitted, from) <= limits.max
    {
      AtMostMaxPerWindow(limits, Calls(bucket), from);
    }

    /** The decision and what it leaves in the cache. */
    method Decide(bucket: string, now: Time) returns (verdict: Verdict)
      requires Kept(limits, Entry(bucket), Block(bucket), Calls(bucket), clock) && clock <= now
      modifies this`blocks, this`requests
      ensures verdict == Judge(limits, Past(bucket), now)
      ensures (Entry(bucket), Block(bucket)) == Entries(limits, old(Entry(bucket)), old(Block(bucket)), verdict, now)
      ensures forall other :: other != bucket ==> Lookup(requests, other) == Lookup(old(requests), other)
      ensures forall other :: other != bucket ==> Lookup(blocks, other) == Lookup(old(blocks), other)
    {
      FaithfulLater(Entry(bucket), Block(bucket), Past(bucket), clock, now);
      if bucket in blocks && now < blocks[bucket] {
        return StillBlocked;
      }
      var times := if bucket in requests && now < requests[bucket].expires then requests[bucket].times else [];
      var recent := Prune(times, now);
      if |recent| >= limits.max {
        blocks := blocks[bucket := now + limits.block];
        return LimitReached;
      }
      requests := requests[bucket := Stored(recent + [now], now + WINDOW)];
      return Admitted;
    }

    /** Drop the requests older than the window. */
    method Prune(times: seq<Time>, now: Time) returns (kept: seq<Time>)
      ensures kept == Recent(times, now)
    {
      kept := [];
      for i := 0 to |times|
        invariant kept == Recent(times[..i], now)
      {
        assert times[..i + 1][..i] == times[..i];
        if now - times[i] < WINDOW {
          kept := kept + [times[i]];
        }
      }
      assert times[..|times|] == times;
    }
  }
}

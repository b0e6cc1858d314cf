/** What a visit of a market queue comes to, said of its history alone: who waits in order of arrival, what was
    sent when, and the clock. */
module MarketVisits {
  import opened Options
  import opened FlowMessages
  import opened StableOrder
  import opened MarketLimiter

  /** The commands sent in the window that ends now. */
  function Recent(t: Trail, now: int): nat {
    CountBetween(t.sends, now - WINDOW_MS, now)
  }

  function First(t: Trail): FlowItem
    requires t.waiting != []
  {
    t.waiting[FirstLargest(t.waiting)]
  }

  function Last(t: Trail): FlowItem
    requires t.waiting != []
  {
    t.waiting[LastSmallest(t.waiting)]
  }

  /** An item that would pass the limit of the day. */
  predicate PassesDay(limits: Limits, t: Trail, item: FlowItem) {
    limits.daily > 0 && t.start + t.released + item.cmdSize > limits.daily
  }

  predicate FitsRate(limits: Limits, t: Trail, item: FlowItem, now: int) {
    limits.tps > 0 ==> Recent(t, now) + item.cmdSize <= limits.tps
  }

  /** An item that is late by its own age, or would be after a second for every full limit of commands that
      wait besides it. */
  predicate TooLongQueued(limits: Limits, t: Trail, item: FlowItem, now: int) {
    && item.priority != PRIORITY_WITHDRAW && item.timeout > 0
    && var age := now - item.timestamp;
       || AtLeast(age, item.timeout)
       || (limits.tps > 0
           && AtLeast(age + (SumSizes(t.waiting) - item.cmdSize) / limits.tps * 1000, item.timeout))
  }

  /** Nothing can be done with the front: none waits, or the first is in time and within the day, and too big
      for what is left of the window. */
  predicate Stuck(limits: Limits, t: Trail, now: int) {
    t.waiting != [] ==>
      !Late(First(t), now) && !PassesDay(limits, t, First(t)) && !FitsRate(limits, t, First(t), now)
  }

  // ---- The pruned send times ----

  lemma {:induction false} CountOfOlder(sends: seq<int>, k: nat, from: int, to: int)
    requires k <= |sends| && (forall i | 0 <= i < k :: sends[i] < from)
    requires forall i | k <= i < |sends| :: from <= sends[i] <= to
    ensures CountBetween(sends, from, to) == |sends| - k
  {
    if sends != [] {
      CountOfOlder(sends[..|sends| - 1], if k == |sends| then k - 1 else k, from, to);
    }
  }

  /** What pruning leaves of the send times is what was sent in the window. */
  lemma PrunedIsRecent(x: Tracked, now: int)
    requires Windowed(x) && x.trail.clock <= now
    ensures |Prune(x.q.sent, now)| == Recent(x.trail, now)
  {
    var h := x.trail.sends;
    var d := |h| - |x.q.sent|;
    var k := PruneSplits(x.q.sent, now);
    PrunedHeadIsRecent(x.q.sent, now);
    forall i | 0 <= i < d + k ensures h[i] < now - WINDOW_MS {
      assert i >= d ==> h[i] == x.q.sent[i - d];
    }
    forall i | d + k <= i < |h| ensures now - WINDOW_MS <= h[i] <= now {
      assert x.q.sent[k..][0] == h[d + k];
    }
    CountOfOlder(h, d + k, now - WINDOW_MS, now);
  }

  lemma WaitingSizes(x: Tracked)
    requires Inv(x)
    ensures x.q.cmdSize == SumSizes(x.trail.waiting)
  {
    SortKeepsTotals(x.q.flow);
    SortKeepsTotals(x.trail.waiting);
  }

  lemma {:induction false} SizeIsWithin(items: seq<FlowItem>, i: nat)
    requires i < |items|
    ensures items[i].cmdSize <= SumSizes(items)
  {
    if i < |items| - 1 {
      SizeIsWithin(items[..|items| - 1], i);
    }
  }

  // ---- The two attempts ----

  /** The first attempt gives up a late head, refuses one beyond the day, and releases one that fits. */
  lemma FirstAttemptExactly(x: Tracked, now: int)
    requires Inv(x) && x.trail.clock <= now
    ensures var t := x.trail;
            PopFirst(x, now).1 ==
            if Stuck(x.q.limits, t, now) then Idle
            else if Late(First(t), now) then Expired(First(t))
            else if PassesDay(x.q.limits, t, First(t)) then Refused(First(t))
            else Released(First(t))
  {
    ReadyKeeps(x, now);
    PopFirstServesReady(x, now);
    var w := x.trail.waiting;
    assert |Sort(w)| == |w|;
    if w != [] {
      FrontOfSort(w);
      PrunedIsRecent(x, now);
    }
  }

  lemma SecondAttemptJudges(q: Limiter, now: int)
    ensures var a := Resort(q);
            TryPopSecondary(q, now).1 ==
            if q.normal != [] then Passed(q.normal[0])
            else if a.flow == [] then Idle
            else
              var last := a.flow[|a.flow| - 1];
              if IsTimeout(q.limits, now, last, q.cmdSize - last.cmdSize) then Evicted(last) else Idle
  {}

  lemma BackIsLast(x: Tracked)
    requires Inv(x)
    ensures var flow := Resort(x.q).flow;
            && (flow == [] <==> x.trail.waiting == [])
            && (flow != [] ==> flow[|flow| - 1] == Last(x.trail))
  {
    ResortOrders(x);
    assert |Sort(x.trail.waiting)| == |x.trail.waiting|;
    if x.trail.waiting != [] {
      BackOfSort(x.trail.waiting);
    }
  }

  /** The second attempt, after one that came to nothing: a message that waits at the side, else the item at
      the back if it was queued too long. */
  lemma SecondAttemptExactly(x: Tracked, now: int)
    requires Inv(x) && x.trail.clock <= now
    ensures var t := x.trail;
            PopSecond(x, now).1 ==
            if x.q.normal != [] then Passed(x.q.normal[0])
            else if t.waiting != [] && TooLongQueued(x.q.limits, t, Last(t), now) then Evicted(Last(t))
            else Idle
  {
    SecondAttemptJudges(x.q, now);
    BackIsLast(x);
    if x.trail.waiting != [] {
      TimesOutExactly(x, now);
    }
  }

  lemma TimesOutExactly(x: Tracked, now: int)
    requires Inv(x) && x.trail.waiting != []
    ensures var last := Last(x.trail);
            IsTimeout(x.q.limits, now, last, x.q.cmdSize - last.cmdSize) <==>
            TooLongQueued(x.q.limits, x.trail, last, now)
  {
    WaitingSizes(x);
    SizeIsWithin(x.trail.waiting, LastSmallest(x.trail.waiting));
  }

  lemma IdleFirstKeepsTrail(x: Tracked, now: int)
    requires PopFirst(x, now).1 == Idle
    ensures var y := PopFirst(x, now).0;
            y.trail == x.trail.(clock := now) && y.q.limits == x.q.limits && y.q.normal == x.q.normal
  {
    PopFirstServesReady(x, now);
  }

  /** What a visit comes to, exactly. */
  lemma VisitExactly(x: Tracked, now: int)
    requires Inv(x) && x.trail.clock <= now
    ensures var t, o := x.trail, Pop(x, now).1;
            o ==
            if !Stuck(x.q.limits, t, now) then
              if Late(First(t), now) then Expired(First(t))
              else if PassesDay(x.q.limits, t, First(t)) then Refused(First(t))
              else Released(First(t))
            else if x.q.normal != [] then Passed(x.q.normal[0])
            else if t.waiting != [] && TooLongQueued(x.q.limits, t, Last(t), now) then Evicted(Last(t))
            else Idle
  {
    FirstAttemptExactly(x, now);
    if PopFirst(x, now).1 == Idle {
      PopFirstKeeps(x, now);
      IdleFirstKeepsTrail(x, now);
      SecondAttemptExactly(PopFirst(x, now).0, now);
    }
  }

  /** When nothing can be done with the front and no side message waits, a visit answers the latest arrival
      with the smallest key with a timeout if and only if it was queued too long. */
  lemma BackTimesOutExactly(x: Tracked, now: int)
    requires Inv(x) && x.trail.clock <= now
    requires Stuck(x.q.limits, x.trail, now) && x.q.normal == [] && x.trail.waiting != []
    ensures var last := Last(x.trail);
            Returned(Pop(x, now).1) == Some(ErrorReply(last.msg, TimeoutError)) <==>
            TooLongQueued(x.q.limits, x.trail, last, now)
    ensures !TooLongQueued(x.q.limits, x.trail, Last(x.trail), now) ==> Pop(x, now).1 == Idle
  {
    VisitExactly(x, now);
  }

  /** A visit comes to nothing exactly when the front is stuck, nothing waits at the side and the item at the
      back was not queued too long. */
  lemma IdleExactly(x: Tracked, now: int)
    requires Inv(x) && x.trail.clock <= now
    ensures Pop(x, now).1 == Idle <==>
            && Stuck(x.q.limits, x.trail, now) && x.q.normal == []
            && (x.trail.waiting != [] ==> !TooLongQueued(x.q.limits, x.trail, Last(x.trail), now))
  {
    VisitExactly(x, now);
  }
}

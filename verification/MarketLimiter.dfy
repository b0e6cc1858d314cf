/** The limiter of one market: what its queue does, step by step, and what every run keeps. */
module MarketLimiter {
  import opened Options
  import opened FlowMessages
  import opened StableOrder

  datatype Limits = Limits(tps: int, daily: int)

  /** The fields of a market queue; `stored` is the total in its persisted record, if it has one. */
  datatype Limiter = Limiter(limits: Limits, sent: seq<int>, needSort: bool, flow: seq<FlowItem>,
                             normal: seq<BrokerMsg>, cmdSize: int, total: int, stored: Option<int>)

  /** What one attempt to pop came to: nothing, a release, a refusal for the day's quota, a timeout
      at the front or at the back of the queue, or a message that needs no flow control. */
  datatype Outcome =
    | Idle
    | Released(item: FlowItem)
    | Refused(item: FlowItem)
    | Expired(item: FlowItem)
    | Evicted(item: FlowItem)
    | Passed(msg: BrokerMsg)

  function Returned(o: Outcome): Option<BrokerMsg> {
    match o
    case Idle => None
    case Released(item) => Some(item.msg)
    case Refused(item) => Some(ErrorReply(item.msg, DailyLimitError))
    case Expired(item) => Some(ErrorReply(item.msg, TimeoutError))
    case Evicted(item) => Some(ErrorReply(item.msg, TimeoutError))
    case Passed(msg) => Some(msg)
  }

  function Resort(q: Limiter): Limiter {
    if q.needSort then q.(flow := Sort(q.flow), needSort := false) else q
  }

  /** Drops the send times more than a window old. */
  function Prune(sent: seq<int>, now: int): seq<int> {
    if sent == [] || now - sent[0] <= WINDOW_MS then sent else Prune(sent[1..], now)
  }

  function Repeat(t: int, n: nat): (r: seq<int>)
    ensures |r| == n
  {
    seq(n, _ => t)
  }

  function Abs(x: int): nat {
    if x < 0 then -x else x
  }

  predicate IsTimeout(limits: Limits, now: int, item: FlowItem, ahead: int) {
    && item.timeout > 0
    && item.priority != PRIORITY_WITHDRAW
    && var delay := now - item.timestamp;
       var queued := if limits.tps > 0 && ahead > 0 then delay + ahead / limits.tps * 1000 else 0;
       Abs(delay) >= item.timeout || Abs(queued) >= item.timeout
  }

  predicate OverQuota(q: Limiter, size: int) {
    q.limits.daily > 0 && q.total + size > q.limits.daily
  }

  predicate FitsWindow(q: Limiter, size: int) {
    q.limits.tps <= 0 || |q.sent| + size <= q.limits.tps
  }

  function DropFront(q: Limiter): Limiter
    requires q.flow != []
  {
    q.(flow := q.flow[1..], cmdSize := q.cmdSize - q.flow[0].cmdSize)
  }

  /** What becomes of the head of a sorted, pruned queue. */
  function Serve(q: Limiter, now: int): (Limiter, Outcome)
    requires q.flow != []
  {
    var item := q.flow[0];
    if IsTimeout(q.limits, now, item, 0) then (DropFront(q), Expired(item))
    else if OverQuota(q, item.cmdSize) then (DropFront(q), Refused(item))
    else if FitsWindow(q, item.cmdSize) then (Release(q, now), Released(item))
    else (q, Idle)
  }

  function Release(q: Limiter, now: int): Limiter
    requires q.flow != []
  {
    var size := q.flow[0].cmdSize;
    DropFront(q).(sent := q.sent + Repeat(now, size), total := q.total + size,
                  stored := if q.stored.Some? then Some(q.total + size) else None)
  }

  function TryPopPrimary(q: Limiter, now: int): (Limiter, Outcome) {
    var a := Resort(q);
    if a.flow == [] then (a, Idle) else Serve(a.(sent := Prune(a.sent, now)), now)
  }

  function TryPopSecondary(q: Limiter, now: int): (Limiter, Outcome) {
    var a := Resort(q);
    if a.normal != [] then (a.(normal := a.normal[1..]), Passed(a.normal[0]))
    else if a.flow == [] then (a, Idle)
    else
      var n := |a.flow| - 1;
      var item := a.flow[n];
      if IsTimeout(a.limits, now, item, a.cmdSize - item.cmdSize)
      then (a.(flow := a.flow[..n], cmdSize := a.cmdSize - item.cmdSize), Evicted(item))
      else (a, Idle)
  }

  predicate TooLarge(limits: Limits, item: FlowItem) {
    limits.tps > 0 && item.cmdSize > limits.tps
  }

  function Push(q: Limiter, item: FlowItem): Limiter {
    if TooLarge(q.limits, item) then q.(normal := q.normal + [ErrorReply(item.msg, BatchTooLarge)])
    else q.(cmdSize := q.cmdSize + item.cmdSize, flow := q.flow + [item], needSort := true)
  }

  // ---- The history of a queue, which the code does not keep ----

  /** `sends` has one entry for every command released, `waiting` the queued items in order of
      arrival; the numbers count commands. */
  datatype Trail = Trail(clock: int, start: int, sends: seq<int>, waiting: seq<FlowItem>,
                         accepted: int, released: int, refused: int, timedOut: int)

  datatype Tracked = Tracked(q: Limiter, trail: Trail)

  function Note(t: Trail, now: int, o: Outcome): Trail {
    var u := t.(clock := now);
    match o
    case Idle => u
    case Passed(_) => u
    case Released(item) =>
      LeaveFront(u).(released := u.released + item.cmdSize, sends := u.sends + Repeat(now, item.cmdSize))
    case Refused(item) => LeaveFront(u).(refused := u.refused + item.cmdSize)
    case Expired(item) => LeaveFront(u).(timedOut := u.timedOut + item.cmdSize)
    case Evicted(item) => LeaveBack(u).(timedOut := u.timedOut + item.cmdSize)
  }

  function LeaveFront(t: Trail): Trail {
    if t.waiting == [] then t else t.(waiting := Without(t.waiting, FirstLargest(t.waiting)))
  }

  function LeaveBack(t: Trail): Trail {
    if t.waiting == [] then t else t.(waiting := Without(t.waiting, LastSmallest(t.waiting)))
  }

  function PopFirst(x: Tracked, now: int): (Tracked, Outcome) {
    var (q, o) := TryPopPrimary(x.q, now);
    (Tracked(q, Note(x.trail, now, o)), o)
  }

  function PopSecond(x: Tracked, now: int): (Tracked, Outcome) {
    var (q, o) := TryPopSecondary(x.q, now);
    (Tracked(q, Note(x.trail, now, o)), o)
  }

  /** One visit of the queue: the second attempt only when the first came to nothing. */
  function Pop(x: Tracked, now: int): (Tracked, Outcome) {
    var (y, o) := PopFirst(x, now);
    if o == Idle then PopSecond(y, now) else (y, o)
  }

  function Accept(x: Tracked, item: FlowItem): Tracked {
    Tracked(Push(x.q, item),
            if TooLarge(x.q.limits, item) then x.trail
            else x.trail.(waiting := x.trail.waiting + [item], accepted := x.trail.accepted + item.cmdSize))
  }

  function Fresh(limits: Limits, clock: int, start: int, stored: Option<int>): Tracked {
    Tracked(Limiter(limits, [], false, [], [], 0, start, stored), Trail(clock, start, [], [], 0, 0, 0, 0))
  }

  /** A queue that takes over a recovered total; its history starts there. */
  function Recover(x: Tracked, total: int): Tracked {
    Tracked(x.q.(total := total, stored := Some(total)), x.trail.(start := total))
  }

  // ---- What every run keeps ----

  /** The queue is, or will be after one sort, the stable sort of what waits, in arrival order. */
  ghost predicate InOrder(x: Tracked) {
    && Sort(x.q.flow) == Sort(x.trail.waiting)
    && (!x.q.needSort ==> x.q.flow == Sort(x.trail.waiting))
  }

  /** Any `n + 1` consecutive commands span more than a window. */
  ghost predicate Spaced(sends: seq<int>, n: nat) {
    forall i, j | 0 <= i && j == i + n && j < |sends| :: sends[j] - sends[i] > WINDOW_MS
  }

  ghost predicate Ascending(s: seq<int>) {
    forall i, j | 0 <= i < j < |s| :: s[i] <= s[j]
  }

  /** `sent` is the end of the full history; all that was pruned is out of the window for good. */
  ghost predicate Windowed(x: Tracked) {
    var k, h := |x.trail.sends| - |x.q.sent|, x.trail.sends;
    && k >= 0 && x.q.sent == h[k..]
    && Ascending(h)
    && (forall i | 0 <= i < |h| :: h[i] <= x.trail.clock)
    && (forall i | 0 <= i < k :: x.trail.clock - h[i] > WINDOW_MS)
    && (x.q.limits.tps > 0 ==> Spaced(h, x.q.limits.tps))
  }

  ghost predicate Balanced(x: Tracked) {
    && x.q.cmdSize == SumSizes(x.q.flow)
    && x.trail.accepted == x.q.cmdSize + x.trail.released + x.trail.refused + x.trail.timedOut
    && x.q.total == x.trail.start + x.trail.released
    && |x.trail.sends| == x.trail.released
    && (x.q.stored.Some? ==> x.q.stored.value == x.q.total)
    && (x.q.limits.daily > 0 && x.trail.start <= x.q.limits.daily ==> x.q.total <= x.q.limits.daily)
  }

  ghost predicate Fitting(x: Tracked) {
    forall i | 0 <= i < |x.q.flow| :: !TooLarge(x.q.limits, x.q.flow[i])
  }

  ghost predicate Inv(x: Tracked) {
    InOrder(x) && Windowed(x) && Balanced(x) && Fitting(x)
  }

  /** The window looks only at the send times, the clock and the limit. */
  lemma SameWindow(x: Tracked, y: Tracked)
    requires Windowed(x) && y.trail.sends == x.trail.sends && y.trail.clock == x.trail.clock
    requires y.q.sent == x.q.sent && y.q.limits == x.q.limits
    ensures Windowed(y)
  {}

  lemma SortFits(limits: Limits, flow: seq<FlowItem>)
    requires forall i | 0 <= i < |flow| :: !TooLarge(limits, flow[i])
    ensures forall i | 0 <= i < |Sort(flow)| :: !TooLarge(limits, Sort(flow)[i])
  {
    SortPermutes(flow);
    var r := Sort(flow);
    forall i | 0 <= i < |r| ensures !TooLarge(limits, r[i]) {
      assert r[i] in multiset(r);
      assert r[i] in flow;
    }
  }

  lemma ResortOrders(x: Tracked)
    requires InOrder(x)
    ensures InOrder(x.(q := Resort(x.q)))
    ensures Resort(x.q).flow == Sort(x.trail.waiting)
    ensures |x.trail.waiting| == |x.q.flow|
  {
    SortIsSorted(x.q.flow);
    SortOfSorted(Sort(x.q.flow));
    assert |Sort(x.trail.waiting)| == |x.trail.waiting| && |Sort(x.q.flow)| == |x.q.flow|;
  }

  lemma ResortKeeps(x: Tracked)
    requires Inv(x)
    ensures Inv(x.(q := Resort(x.q)))
    ensures Resort(x.q).flow == Sort(x.trail.waiting)
    ensures |x.trail.waiting| == |x.q.flow|
  {
    ResortOrders(x);
    SameWindow(x, x.(q := Resort(x.q)));
    SortFits(x.q.limits, x.q.flow);
    SortKeepsTotals(x.q.flow);
  }

  /** Pruning only ever removes entries that are out of the window. */
  lemma {:induction false} PruneSplits(sent: seq<int>, now: int) returns (k: nat)
    ensures k <= |sent| && Prune(sent, now) == sent[k..]
    ensures forall i | 0 <= i < k :: now - sent[i] > WINDOW_MS
  {
    if sent == [] || now - sent[0] <= WINDOW_MS {
      k := 0;
    } else {
      k := PruneSplits(sent[1..], now);
      assert forall i | 1 <= i < k + 1 :: sent[i] == sent[1..][i - 1];
      k := k + 1;
    }
  }

  lemma PruneKeeps(x: Tracked, now: int)
    requires Inv(x) && x.trail.clock <= now
    ensures Inv(Tracked(x.q.(sent := Prune(x.q.sent, now)), x.trail.(clock := now)))
  {
    var k := PruneSplits(x.q.sent, now);
    var d := |x.trail.sends| - |x.q.sent|;
    assert x.q.sent[k..] == x.trail.sends[d + k..];
    forall i | d <= i < d + k ensures now - x.trail.sends[i] > WINDOW_MS {
      assert x.trail.sends[i] == x.q.sent[i - d];
    }
  }

  /** Releasing what fits the pruned window keeps every window of the whole history in bounds. */
  lemma ReleaseKeepsWindow(x: Tracked, size: nat, y: Tracked)
    requires Windowed(x) && FitsWindow(x.q, size)
    requires y.q.limits == x.q.limits && y.trail.clock == x.trail.clock
    requires y.q.sent == x.q.sent + Repeat(x.trail.clock, size)
    requires y.trail.sends == x.trail.sends + Repeat(x.trail.clock, size)
    ensures Windowed(y)
  {
    var h, g := x.trail.sends, y.trail.sends;
    var k := |h| - |x.q.sent|;
    assert g[k..] == h[k..] + Repeat(x.trail.clock, size);
    if x.q.limits.tps > 0 {
      var n := x.q.limits.tps;
      forall i, j | 0 <= i && j == i + n && j < |g| ensures g[j] - g[i] > WINDOW_MS {
        if j < |h| {
          assert h[j] - h[i] > WINDOW_MS;
        } else {
          assert i < k && g[i] == h[i] && g[j] == x.trail.clock;
        }
      }
    }
  }

  lemma TakeFrontKeeps(x: Tracked, y: Tracked)
    requires Fitting(x) && x.q.flow == Sort(x.trail.waiting) && x.q.flow != []
    requires y.q.flow == x.q.flow[1..] && y.q.limits == x.q.limits
    requires y.trail.waiting == LeaveFront(x.trail).waiting
    ensures InOrder(y) && Fitting(y)
    ensures SumSizes(y.q.flow) == SumSizes(x.q.flow) - x.q.flow[0].cmdSize
  {
    assert |Sort(x.trail.waiting)| == |x.trail.waiting|;
    FrontOfSort(x.trail.waiting);
    SortIsSorted(y.trail.waiting);
    SortOfSorted(Sort(y.trail.waiting));
    SumSizesFront(x.q.flow);
    assert forall i | 0 <= i < |y.q.flow| :: y.q.flow[i] == x.q.flow[i + 1];
  }

  lemma TakeBackKeeps(x: Tracked, y: Tracked)
    requires Fitting(x) && x.q.flow == Sort(x.trail.waiting) && x.q.flow != []
    requires y.q.flow == x.q.flow[..|x.q.flow| - 1] && y.q.limits == x.q.limits
    requires y.trail.waiting == LeaveBack(x.trail).waiting
    ensures InOrder(y) && Fitting(y)
    ensures SumSizes(y.q.flow) == SumSizes(x.q.flow) - x.q.flow[|x.q.flow| - 1].cmdSize
  {
    assert |Sort(x.trail.waiting)| == |x.trail.waiting|;
    BackOfSort(x.trail.waiting);
    SortIsSorted(y.trail.waiting);
    SortOfSorted(Sort(y.trail.waiting));
  }

  lemma ServeBalances(x: Tracked, now: int)
    requires Balanced(x) && x.q.flow != []
    ensures var (q, o) := Serve(x.q, now); Balanced(Tracked(q, Note(x.trail, now, o)))
  {
    SumSizesFront(x.q.flow);
  }

  lemma ServeWindows(x: Tracked, now: int)
    requires Windowed(x) && x.q.flow != [] && x.trail.clock == now
    ensures var (q, o) := Serve(x.q, now); Windowed(Tracked(q, Note(x.trail, now, o)))
  {
    var (q, o) := Serve(x.q, now);
    var y := Tracked(q, Note(x.trail, now, o));
    if o.Released? {
      ReleaseKeepsWindow(x, o.item.cmdSize, y);
    } else {
      SameWindow(x, y);
    }
  }

  lemma ServeOrders(x: Tracked, now: int)
    requires InOrder(x) && Fitting(x) && x.q.flow == Sort(x.trail.waiting) && x.q.flow != []
    ensures var (q, o) := Serve(x.q, now); var y := Tracked(q, Note(x.trail, now, o)); InOrder(y) && Fitting(y)
  {
    var (q, o) := Serve(x.q, now);
    if o != Idle {
      TakeFrontKeeps(x, Tracked(q, Note(x.trail, now, o)));
    }
  }

  lemma ServeKeeps(x: Tracked, now: int)
    requires Inv(x) && x.q.flow == Sort(x.trail.waiting) && x.q.flow != [] && x.trail.clock == now
    ensures var (q, o) := Serve(x.q, now); Inv(Tracked(q, Note(x.trail, now, o)))
  {
    ServeOrders(x, now);
    ServeWindows(x, now);
    ServeBalances(x, now);
  }

  lemma NoteSetsClock(t: Trail, now: int, o: Outcome)
    ensures Note(t.(clock := now), now, o) == Note(t, now, o)
  {}

  /** The queue as the first attempt finds its head: sorted and pruned. */
  function Ready(x: Tracked, now: int): Tracked {
    var q := Resort(x.q);
    if q.flow == [] then Tracked(q, x.trail.(clock := now))
    else Tracked(q.(sent := Prune(q.sent, now)), x.trail.(clock := now))
  }

  lemma PopFirstServesReady(x: Tracked, now: int)
    ensures var b := Ready(x, now);
            PopFirst(x, now) ==
            if b.q.flow == [] then (b, Idle)
            else (Tracked(Serve(b.q, now).0, Note(b.trail, now, Serve(b.q, now).1)), Serve(b.q, now).1)
  {
    var b := Ready(x, now);
    if b.q.flow != [] {
      NoteSetsClock(x.trail, now, Serve(b.q, now).1);
    }
  }

  lemma ReadyKeeps(x: Tracked, now: int)
    requires Inv(x) && x.trail.clock <= now
    ensures Inv(Ready(x, now))
    ensures Ready(x, now).q.flow == Sort(x.trail.waiting)
  {
    ResortKeeps(x);
    PruneKeeps(x.(q := Resort(x.q)), now);
  }

  lemma PopFirstKeeps(x: Tracked, now: int)
    requires Inv(x) && x.trail.clock <= now
    ensures Inv(PopFirst(x, now).0)
  {
    ReadyKeeps(x, now);
    PopFirstServesReady(x, now);
    if Ready(x, now).q.flow != [] {
      ServeKeeps(Ready(x, now), now);
    }
  }

  /** What becomes of a sorted queue on the second attempt. */
  lemma EvictKeeps(x: Tracked, y: Tracked)
    requires Inv(x) && x.q.flow == Sort(x.trail.waiting) && x.q.flow != []
    requires var n := |x.q.flow| - 1; var size := x.q.flow[n].cmdSize;
             && y.q == x.q.(flow := x.q.flow[..n], cmdSize := x.q.cmdSize - size)
             && y.trail == LeaveBack(x.trail).(timedOut := x.trail.timedOut + size)
    ensures Inv(y)
  {
    SameWindow(x, y);
    TakeBackKeeps(x, y);
  }

  lemma WindowPasses(x: Tracked, now: int, y: Tracked)
    requires Windowed(x) && x.trail.clock <= now
    requires y.q.sent == x.q.sent && y.q.limits == x.q.limits && y.trail == x.trail.(clock := now)
    ensures Windowed(y)
  {}

  lemma TimePasses(x: Tracked, now: int, msgs: seq<BrokerMsg>)
    requires Inv(x) && x.trail.clock <= now
    ensures Inv(Tracked(x.q.(normal := msgs), x.trail.(clock := now)))
  {
    var y := Tracked(x.q.(normal := msgs), x.trail.(clock := now));
    assert InOrder(y) && Balanced(y) && Fitting(y);
    WindowPasses(x, now, y);
  }

  /** The queue as the second attempt leaves it unless the item at the back timed out. */
  function Passing(x: Tracked, now: int): Tracked {
    Tracked(Resort(x.q).(normal := PopSecond(x, now).0.q.normal), x.trail.(clock := now))
  }

  lemma PassingKeeps(x: Tracked, now: int)
    requires Inv(x) && x.trail.clock <= now
    ensures Inv(Passing(x, now)) && Passing(x, now).q.flow == Sort(x.trail.waiting)
  {
    ResortKeeps(x);
    TimePasses(x.(q := Resort(x.q)), now, PopSecond(x, now).0.q.normal);
  }

  /** The second attempt passes the queue by or takes the item at its back. */
  lemma PopSecondEvicts(x: Tracked, now: int)
    ensures var (y, o), p := PopSecond(x, now), Passing(x, now);
            if o.Evicted? then
              && p.q.flow != []
              && var n := |p.q.flow| - 1; var size := p.q.flow[n].cmdSize;
                 && y.q == p.q.(flow := p.q.flow[..n], cmdSize := p.q.cmdSize - size)
                 && y.trail == LeaveBack(p.trail).(timedOut := p.trail.timedOut + size)
            else y == p
  {}

  lemma PopSecondKeeps(x: Tracked, now: int)
    requires Inv(x) && x.trail.clock <= now
    ensures Inv(PopSecond(x, now).0)
  {
    PassingKeeps(x, now);
    PopSecondEvicts(x, now);
    if PopSecond(x, now).1.Evicted? {
      EvictKeeps(Passing(x, now), PopSecond(x, now).0);
    }
  }

  lemma PopKeeps(x: Tracked, now: int)
    requires Inv(x) && x.trail.clock <= now
    ensures Inv(Pop(x, now).0)
  {
    PopFirstKeeps(x, now);
    var (y, o) := PopFirst(x, now);
    if o == Idle {
      PopSecondKeeps(y, now);
    }
  }

  /** Limits and starting point never change, and the clock is the time of the last visit. */
  lemma PopFrame(x: Tracked, now: int)
    ensures var y := Pop(x, now).0;
            y.trail.clock == now && y.q.limits == x.q.limits && y.trail.start == x.trail.start
  {}

  /** The total moves by what is released, the record follows it, and no release breaks the quota. */
  lemma PopTotals(x: Tracked, now: int)
    ensures var (y, o) := Pop(x, now);
            && y.q.total == x.q.total + (if o.Released? then o.item.cmdSize else 0)
            && (x.q.stored == Some(x.q.total) ==> y.q.stored == Some(y.q.total))
            && (o.Released? && x.q.limits.daily > 0 ==> y.q.total <= x.q.limits.daily)
            && y.q.limits == x.q.limits
  {}

  lemma AcceptKeeps(x: Tracked, item: FlowItem)
    requires Inv(x)
    ensures Inv(Accept(x, item))
  {
    SameWindow(x, Accept(x, item));
    if !TooLarge(x.q.limits, item) {
      SortAppend(x.q.flow, item);
      SortAppend(x.trail.waiting, item);
      assert (x.q.flow + [item])[..|x.q.flow|] == x.q.flow;
    }
  }

  // ---- Runs ----

  datatype Event = Arrival(item: FlowItem) | Visit(now: int)

  function Step(x: Tracked, e: Event): Tracked {
    match e
    case Arrival(item) => Accept(x, item)
    case Visit(now) => Pop(x, now).0
  }

  function Run(x: Tracked, events: seq<Event>): Tracked
    decreases |events|
  {
    if events == [] then x else Run(Step(x, events[0]), events[1..])
  }

  /** The clock never goes back. */
  predicate Clocked(clock: int, events: seq<Event>)
    decreases |events|
  {
    if events == [] then true
    else
      match events[0]
      case Arrival(_) => Clocked(clock, events[1..])
      case Visit(now) => clock <= now && Clocked(now, events[1..])
  }

  predicate InTime(x: Tracked, e: Event) {
    e.Visit? ==> x.trail.clock <= e.now
  }

  lemma StepKeeps(x: Tracked, e: Event)
    requires Inv(x) && InTime(x, e)
    ensures Inv(Step(x, e))
    ensures Step(x, e).trail.clock == if e.Visit? then e.now else x.trail.clock
    ensures Step(x, e).q.limits == x.q.limits && Step(x, e).trail.start == x.trail.start
  {
    match e
    case Arrival(item) => AcceptKeeps(x, item);
    case Visit(now) =>
      PopKeeps(x, now);
      PopFrame(x, now);
  }

  lemma {:induction false} RunKeeps(x: Tracked, events: seq<Event>)
    requires Inv(x) && Clocked(x.trail.clock, events)
    ensures Inv(Run(x, events))
    ensures Run(x, events).q.limits == x.q.limits && Run(x, events).trail.start == x.trail.start
    decreases |events|
  {
    if events != [] {
      StepKeeps(x, events[0]);
      RunKeeps(Step(x, events[0]), events[1..]);
    }
  }

  lemma FreshInv(limits: Limits, clock: int, start: int, stored: Option<int>)
    requires stored.Some? ==> stored.value == start
    ensures Inv(Fresh(limits, clock, start, stored))
  {}

  /** Taking over a total before anything was released keeps the invariant. */
  lemma RecoverKeeps(x: Tracked, total: int)
    requires Inv(x) && x.trail.released == 0
    ensures Inv(Recover(x, total))
  {
    SameWindow(x, Recover(x, total));
  }

  function CountBetween(sends: seq<int>, from: int, to: int): nat {
    if sends == [] then 0
    else CountBetween(sends[..|sends| - 1], from, to) + (if from <= sends[|sends| - 1] <= to then 1 else 0)
  }

  lemma {:induction false} CountTail(sends: seq<int>, k: nat, from: int, to: int)
    requires k <= |sends| && forall i | 0 <= i < k :: sends[i] < from
    ensures CountBetween(sends, from, to) <= |sends| - k
  {
    if |sends| > 0 {
      CountTail(sends[..|sends| - 1], if k == |sends| then k - 1 else k, from, to);
    }
  }

  lemma {:induction false} SpacedBoundsCount(sends: seq<int>, n: nat, from: int)
    requires Ascending(sends) && Spaced(sends, n)
    ensures CountBetween(sends, from, from + WINDOW_MS) <= n
  {
    if sends != [] {
      var last := |sends| - 1;
      if from <= sends[last] <= from + WINDOW_MS {
        if n <= last {
          assert sends[last] - sends[last - n] > WINDOW_MS;
          CountTail(sends, last - n + 1, from, from + WINDOW_MS);
        } else {
          CountTail(sends, 0, from, from + WINDOW_MS);
        }
      } else {
        SpacedBoundsCount(sends[..last], n, from);
      }
    }
  }

  /** The rate limit: over any run, every closed interval of 1500 ms holds at most `tps` commands. */
  lemma RateLimit(limits: Limits, clock: int, start: int, stored: Option<int>, events: seq<Event>, from: int)
    requires limits.tps > 0 && Clocked(clock, events)
    requires stored.Some? ==> stored.value == start
    ensures CountBetween(Run(Fresh(limits, clock, start, stored), events).trail.sends, from, from + WINDOW_MS)
            <= limits.tps
  {
    FreshInv(limits, clock, start, stored);
    RunKeeps(Fresh(limits, clock, start, stored), events);
    SpacedBoundsCount(Run(Fresh(limits, clock, start, stored), events).trail.sends, limits.tps, from);
  }

  /** At every point of every run the queue, once resorted, is the one stable sort by key of what
      waits, taken in order of arrival. */
  lemma QueueIsTheStableSort(limits: Limits, clock: int, start: int, stored: Option<int>, events: seq<Event>)
    requires Clocked(clock, events) && (stored.Some? ==> stored.value == start)
    ensures var x := Run(Fresh(limits, clock, start, stored), events);
            var flow := Resort(x.q).flow;
            && flow == Sort(x.trail.waiting) && Sorted(flow)
            && forall k :: WithKey(flow, k) == WithKey(x.trail.waiting, k)
  {
    FreshInv(limits, clock, start, stored);
    RunKeeps(Fresh(limits, clock, start, stored), events);
    var x := Run(Fresh(limits, clock, start, stored), events);
    ResortOrders(x);
    SortIsSorted(x.trail.waiting);
    forall k ensures WithKey(Sort(x.trail.waiting), k) == WithKey(x.trail.waiting, k) {
      SortIsStable(x.trail.waiting, k);
    }
  }

  /** Every accepted command is queued, released, refused for the day or timed out, and the total is
      what it started from and what was released. */
  lemma CommandsBalance(limits: Limits, clock: int, start: int, stored: Option<int>, events: seq<Event>)
    requires Clocked(clock, events) && (stored.Some? ==> stored.value == start)
    ensures var x := Run(Fresh(limits, clock, start, stored), events);
            && x.q.cmdSize == SumSizes(x.q.flow)
            && x.trail.accepted == SumSizes(x.q.flow) + x.trail.released + x.trail.refused + x.trail.timedOut
            && x.q.total == start + x.trail.released
            && (limits.daily > 0 && start <= limits.daily ==> x.q.total <= limits.daily)
  {
    FreshInv(limits, clock, start, stored);
    RunKeeps(Fresh(limits, clock, start, stored), events);
  }

  lemma FrontLeavesFirst(x: Tracked, now: int)
    requires InOrder(x)
    ensures var o, w := PopFirst(x, now).1, x.trail.waiting;
            && (o.Released? || o.Refused? || o.Expired? ==> w != [] && o.item == w[FirstLargest(w)])
            && !o.Evicted?
  {
    PopFirstServesReady(x, now);
    var w := x.trail.waiting;
    assert |Sort(w)| == |w|;
    if w != [] {
      FrontOfSort(w);
    }
  }

  /** A time that has passed, in either direction. */
  predicate AtLeast(age: int, time: int) {
    age >= time || -age >= time
  }

  /** Whether an item is due to be given up after waiting for its own time alone. */
  predicate Late(item: FlowItem, now: int) {
    item.timeout > 0 && item.priority != PRIORITY_WITHDRAW && AtLeast(now - item.timestamp, item.timeout)
  }

  /** Nothing late is released or refused; what times out at the front is late; a withdrawal never
      times out; and at the back an item that is not late goes only if the commands ahead of it
      would make it so. */
  lemma NothingLateIsReleased(x: Tracked, now: int)
    ensures var o := Pop(x, now).1;
            && (o.Released? || o.Refused? ==> !Late(o.item, now))
            && (o.Expired? ==> Late(o.item, now))
            && (o.Evicted? ==> o.item.timeout > 0 && o.item.priority != PRIORITY_WITHDRAW)
            && (o.Evicted? && !Late(o.item, now) ==>
                  && x.q.limits.tps > 0
                  && var ahead := x.q.cmdSize - o.item.cmdSize;
                     AtLeast(now - o.item.timestamp + ahead / x.q.limits.tps * 1000, o.item.timeout))
  {}

  lemma IdleIsReady(x: Tracked, now: int)
    requires InOrder(x) && PopFirst(x, now).1 == Idle
    ensures var y := PopFirst(x, now).0;
            && y.q.normal == x.q.normal && !y.q.needSort
            && y.q.flow == Sort(x.trail.waiting)
            && (y.q.flow == [] || !FitsWindow(y.q, y.q.flow[0].cmdSize))
  {
    PopFirstServesReady(x, now);
  }

  /** Who leaves: from the front the earliest arrival with the largest key, from the back the
      latest arrival with the smallest. */
  lemma LeavesInStableOrder(x: Tracked, now: int)
    requires InOrder(x)
    ensures var o, w := Pop(x, now).1, x.trail.waiting;
            && (o.Released? || o.Refused? || o.Expired? ==> w != [] && o.item == w[FirstLargest(w)])
            && (o.Evicted? ==> w != [] && o.item == w[LastSmallest(w)])
  {
    FrontLeavesFirst(x, now);
    var w := x.trail.waiting;
    assert |Sort(w)| == |w|;
    if PopFirst(x, now).1 == Idle && w != [] {
      IdleIsReady(x, now);
      BackOfSort(w);
    }
  }

  /** A visit comes to nothing only when the queue has nothing to give: no side message, and an
      empty queue or a head that is in time, within the day's quota and too big for the window. */
  lemma IdleOnlyWhenBlocked(x: Tracked, now: int)
    requires InOrder(x)
    ensures var y := Pop(x, now).0;
            Pop(x, now).1 == Idle ==>
              && x.q.normal == []
              && y.q.flow == Sort(x.trail.waiting)
              && (x.trail.waiting == [] || !FitsWindow(y.q, y.q.flow[0].cmdSize))
  {
    assert |Sort(x.trail.waiting)| == |x.trail.waiting|;
    if PopFirst(x, now).1 == Idle {
      IdleIsReady(x, now);
    }
  }

  /** After a window without a release every head fits, so a visit gives a message if there is any. */
  lemma QuietQueueGives(x: Tracked, now: int)
    requires Inv(x) && x.trail.clock <= now
    requires forall i | 0 <= i < |x.trail.sends| :: now - x.trail.sends[i] > WINDOW_MS
    ensures Pop(x, now).1 == Idle <==> x.q.normal == [] && x.q.flow == []
  {
    ResortKeeps(x);
    IdleOnlyWhenBlocked(x, now);
    var a := x.(q := Resort(x.q));
    PruneKeeps(a, now);
    var k := PruneSplits(a.q.sent, now);
    assert forall i | 0 <= i < |a.q.sent| :: a.q.sent[i] in x.trail.sends;
    PrunedHeadIsRecent(a.q.sent, now);
    assert k == |a.q.sent|;
    if x.q.flow != [] {
      assert !TooLarge(a.q.limits, a.q.flow[0]);
    }
  }

  lemma {:induction false} PrunedHeadIsRecent(sent: seq<int>, now: int)
    ensures Prune(sent, now) != [] ==> now - Prune(sent, now)[0] <= WINDOW_MS
  {
    if sent != [] && now - sent[0] > WINDOW_MS {
      PrunedHeadIsRecent(sent[1..], now);
    }
  }

  // ---- Restarts ----

  lemma {:induction false} CountOfRange(sends: seq<int>, i: nat, j: nat, from: int, to: int)
    requires i <= j < |sends| && forall k | i <= k <= j :: from <= sends[k] <= to
    ensures CountBetween(sends, from, to) >= j - i + 1
  {
    var n := |sends| - 1;
    if j < n {
      CountOfRange(sends[..n], i, j, from, to);
    } else if i < j {
      CountOfRange(sends[..n], i, j - 1, from, to);
    }
  }

  function CountFrom(sends: seq<int>, from: int): nat {
    CountBetween(sends, from, from + WINDOW_MS)
  }

  /** No closed window holds more than `n` commands. */
  ghost predicate Limited(sends: seq<int>, n: nat) {
    forall from :: CountFrom(sends, from) <= n
  }

  /** Send times keep a limit in every closed window exactly when any `n + 1` consecutive ones span more
      than a window. */
  lemma WindowsBoundedExactly(sends: seq<int>, n: nat)
    requires Ascending(sends)
    ensures Limited(sends, n) <==> Spaced(sends, n)
  {
    if Spaced(sends, n) {
      forall from ensures CountFrom(sends, from) <= n {
        SpacedBoundsCount(sends, n, from);
      }
    } else {
      var i, j :| 0 <= i && j == i + n && j < |sends| && sends[j] - sends[i] <= WINDOW_MS;
      forall k | i <= k <= j ensures sends[i] <= sends[k] <= sends[i] + WINDOW_MS {
        assert k == i || sends[i] <= sends[k];
        assert k == j || sends[k] <= sends[j];
      }
      CountOfRange(sends, i, j, sends[i], sends[i] + WINDOW_MS);
      assert CountFrom(sends, sends[i]) > n;
    }
  }

  /** Each command after a restart comes more than a window after the one `n` commands before it, if that
      one was sent before the restart. */
  ghost predicate SpacedAcross(before: seq<int>, after: seq<int>, n: nat) {
    forall j, i | 0 <= j < |after| && i == |before| + j - n && 0 <= i < |before| :: after[j] - before[i] > WINDOW_MS
  }

  lemma SpacedAcrossExactly(before: seq<int>, after: seq<int>, n: nat)
    requires Spaced(before, n) && Spaced(after, n)
    ensures Spaced(before + after, n) <==> SpacedAcross(before, after, n)
  {
    var all := before + after;
    if SpacedAcross(before, after, n) {
      forall i, j | 0 <= i && j == i + n && j < |all| ensures all[j] - all[i] > WINDOW_MS {
        if j < |before| {
          assert before[j] - before[i] > WINDOW_MS;
        } else if i >= |before| {
          assert after[j - |before|] - after[i - |before|] > WINDOW_MS;
        } else {
          assert after[j - |before|] - before[i] > WINDOW_MS;
        }
      }
    }
    if Spaced(all, n) {
      forall j, i | 0 <= j < |after| && i == |before| + j - n && 0 <= i < |before|
        ensures after[j] - before[i] > WINDOW_MS
      {
        assert all[|before| + j] - all[i] > WINDOW_MS;
      }
    }
  }

  /** How many commands can still go out at once: the rate, or what is left of the day's limit. */
  function Room(limits: Limits, total: int): nat
    requires limits.tps > 0
  {
    if limits.daily <= 0 then limits.tps
    else if limits.daily <= total then 0
    else if limits.daily - total <= limits.tps then limits.daily - total
    else limits.tps
  }

  /** What a queue sends that starts at `restart` with the day's total it took over. */
  function After(limits: Limits, restart: int, total: int, more: seq<Event>): seq<int> {
    Run(Recover(Fresh(limits, restart, 0, None), total), more).trail.sends
  }

  lemma {:induction false} TotalIsCapped(x: Tracked, events: seq<Event>, cap: int)
    requires x.q.limits.daily > 0 && x.q.limits.daily <= cap && x.q.total <= cap
    ensures Run(x, events).q.total <= cap
    decreases |events|
  {
    if events != [] {
      if events[0].Visit? {
        PopTotals(x, events[0].now);
      }
      TotalIsCapped(Step(x, events[0]), events[1..], cap);
    }
  }

  lemma {:induction false} CountIsWithin(sends: seq<int>, from: int, to: int)
    ensures CountBetween(sends, from, to) <= |sends|
  {
    CountTail(sends, 0, from, to);
  }

  lemma {:induction false} CountJoin(a: seq<int>, b: seq<int>, from: int, to: int)
    ensures CountBetween(a + b, from, to) == CountBetween(a, from, to) + CountBetween(b, from, to)
  {
    if b == [] {
      assert a + b == a;
    } else {
      assert (a + b)[..|a + b| - 1] == a + b[..|b| - 1];
      CountJoin(a, b[..|b| - 1], from, to);
    }
  }

  /** A window can only grow a count, as far as there is something in the part it grows by. */
  lemma {:induction false} CountInside(sends: seq<int>, from: int, to: int, lower: int, upper: int)
    requires forall i | 0 <= i < |sends| && from <= sends[i] <= to :: lower <= sends[i] <= upper
    ensures CountBetween(sends, from, to) <= CountBetween(sends, lower, upper)
  {
    if sends != [] {
      CountInside(sends[..|sends| - 1], from, to, lower, upper);
    }
  }

  /** No window holds more of what is sent after a restart than there is room for. */
  lemma AfterFitsRoom(limits: Limits, restart: int, total: int, more: seq<Event>, from: int)
    requires limits.tps > 0 && Clocked(restart, more)
    ensures CountFrom(After(limits, restart, total, more), from) <= Room(limits, total)
  {
    var first := Fresh(limits, restart, total, Some(total));
    assert Recover(Fresh(limits, restart, 0, None), total) == first;
    RateLimit(limits, restart, total, Some(total), more, from);
    if limits.daily > 0 {
      FreshInv(limits, restart, total, Some(total));
      RunKeeps(first, more);
      TotalIsCapped(first, more, if total <= limits.daily then limits.daily else total);
      CountIsWithin(After(limits, restart, total, more), from, from + WINDOW_MS);
    }
  }

  /** An order of `size` commands, to be sent at once. */
  function Burst(size: nat): FlowItem {
    FlowItem(0, PRIORITY_WITHDRAW, size, 0.0, Key(PRIORITY_WITHDRAW, 0.0), 0,
             BrokerMsg(WithdrawRequest(0, "", ""), None))
  }

  lemma BurstIsServed(x: Tracked, size: nat, now: int)
    requires Resort(x.q).flow == [Burst(size)] && x.q.sent == [] && x.q.limits.tps > 0
    requires size <= x.q.limits.tps && !OverQuota(x.q, size)
    ensures Pop(x, now).1 == Released(Burst(size))
  {
    assert Serve(Resort(x.q), now).1 == Released(Burst(size));
  }

  /** The room can be used up at the moment of the restart. */
  lemma RoomCanBeUsed(limits: Limits, restart: int, total: int)
    requires limits.tps > 0 && Room(limits, total) > 0
    ensures var more := [Arrival(Burst(Room(limits, total))), Visit(restart)];
            Clocked(restart, more) && After(limits, restart, total, more) == Repeat(restart, Room(limits, total))
  {
    var size := Room(limits, total);
    var x := Recover(Fresh(limits, restart, 0, None), total);
    var y := Accept(x, Burst(size));
    assert [] + [Burst(size)] == [Burst(size)];
    SortOfSorted([Burst(size)]);
    BurstIsServed(y, size, restart);
    assert [] + Repeat(restart, size) == Repeat(restart, size);
    RunOfTwo(x, Arrival(Burst(size)), Visit(restart));
    assert [Arrival(Burst(size)), Visit(restart)][1..] == [Visit(restart)] && [Visit(restart)][1..] == [];
    assert Clocked(restart, [Visit(restart)]);
  }

  lemma {:induction false} CountOfRepeat(time: int, n: nat, from: int, to: int)
    ensures CountBetween(Repeat(time, n), from, to) == if from <= time <= to then n else 0
  {
    if n > 0 {
      assert Repeat(time, n)[..n - 1] == Repeat(time, n - 1);
      CountOfRepeat(time, n - 1, from, to);
    }
  }

  /** Whatever is sent after the restart, the limit holds in every window, over a history that kept it. */
  ghost predicate SafeRestart(limits: Limits, before: seq<int>, restart: int, total: int)
    requires limits.tps > 0
  {
    forall more | Clocked(restart, more) :: Limited(before + After(limits, restart, total, more), limits.tps)
  }

  lemma RestartWithRoom(limits: Limits, before: seq<int>, restart: int, total: int, more: seq<Event>, from: int)
    requires limits.tps > 0 && Limited(before, limits.tps) && Clocked(restart, more)
    requires forall i | 0 <= i < |before| :: before[i] <= restart
    requires CountFrom(before, restart - WINDOW_MS) + Room(limits, total) <= limits.tps
    ensures CountFrom(before + After(limits, restart, total, more), from) <= limits.tps
  {
    var after := After(limits, restart, total, more);
    var first := Recover(Fresh(limits, restart, 0, None), total);
    CountJoin(before, after, from, from + WINDOW_MS);
    AfterFitsRoom(limits, restart, total, more, from);
    SendsComeAfter(first, more, restart);
    if from + WINDOW_MS < restart {
      CountInside(after, from, from + WINDOW_MS, 1, 0);
      CountOfNothing(after, 1, 0);
      assert CountFrom(before, from) <= limits.tps;
    } else {
      CountInside(before, from, from + WINDOW_MS, restart - WINDOW_MS, restart);
    }
  }

  lemma {:induction false} CountOfNothing(sends: seq<int>, from: int, to: int)
    requires to < from
    ensures CountBetween(sends, from, to) == 0
  {
    if sends != [] {
      CountOfNothing(sends[..|sends| - 1], from, to);
    }
  }

  /** A restart forgets the send times. What can be known when it happens decides whether the limit can be
      broken: it holds in every window, whatever comes, exactly when the commands of the last window and
      those that there is still room for are together no more than the limit. */
  lemma SafeRestartExactly(limits: Limits, before: seq<int>, restart: int, total: int)
    requires limits.tps > 0 && Limited(before, limits.tps)
    requires forall i | 0 <= i < |before| :: before[i] <= restart
    ensures SafeRestart(limits, before, restart, total) <==>
            CountFrom(before, restart - WINDOW_MS) + Room(limits, total) <= limits.tps
  {
    var size := Room(limits, total);
    if CountFrom(before, restart - WINDOW_MS) + size <= limits.tps {
      forall more | Clocked(restart, more)
        ensures Limited(before + After(limits, restart, total, more), limits.tps)
      {
        forall from ensures CountFrom(before + After(limits, restart, total, more), from) <= limits.tps {
          RestartWithRoom(limits, before, restart, total, more, from);
        }
      }
    } else {
      assert CountFrom(before, restart - WINDOW_MS) <= limits.tps;
      RoomCanBeUsed(limits, restart, total);
      var more := [Arrival(Burst(size)), Visit(restart)];
      CountJoin(before, Repeat(restart, size), restart - WINDOW_MS, restart);
      CountOfRepeat(restart, size, restart - WINDOW_MS, restart);
      assert CountFrom(before + After(limits, restart, total, more), restart - WINDOW_MS) > limits.tps;
    }
  }

  /** The same for a restart at any point of any run. */
  lemma RestartInRunExactly(limits: Limits, clock: int, start: int, stored: Option<int>, events: seq<Event>,
                            restart: int, total: int)
    requires limits.tps > 0 && Clocked(clock, events) && (stored.Some? ==> stored.value == start)
    requires Run(Fresh(limits, clock, start, stored), events).trail.clock <= restart
    ensures var before := Run(Fresh(limits, clock, start, stored), events).trail.sends;
            SafeRestart(limits, before, restart, total) <==>
            CountFrom(before, restart - WINDOW_MS) + Room(limits, total) <= limits.tps
  {
    RunIsWindowed(limits, clock, start, stored, events);
    var before := Run(Fresh(limits, clock, start, stored), events).trail.sends;
    WindowsBoundedExactly(before, limits.tps);
    SafeRestartExactly(limits, before, restart, total);
  }

  /** A restart empties the queue of send times. Over a run, a restart and another run the limit holds in
      every closed window exactly when the commands across the restart are spaced. */
  lemma RateAcrossRestartExactly(limits: Limits, clock: int, start: int, events: seq<Event>,
                                 restart: int, total: int, more: seq<Event>)
    requires limits.tps > 0 && Clocked(clock, events) && Clocked(restart, more)
    requires Run(Fresh(limits, clock, start, None), events).trail.clock <= restart
    ensures var before := Run(Fresh(limits, clock, start, None), events).trail.sends;
            var after := Run(Recover(Fresh(limits, restart, 0, None), total), more).trail.sends;
            Limited(before + after, limits.tps) <==> SpacedAcross(before, after, limits.tps)
  {
    var x := Run(Fresh(limits, clock, start, None), events);
    var first := Fresh(limits, restart, total, Some(total));
    assert Recover(Fresh(limits, restart, 0, None), total) == first;
    RunIsWindowed(limits, clock, start, None, events);
    RunIsWindowed(limits, restart, total, Some(total), more);
    SendsComeAfter(first, more, restart);
    AscendingJoin(x.trail.sends, Run(first, more).trail.sends, restart);
    WindowsBoundedExactly(x.trail.sends + Run(first, more).trail.sends, limits.tps);
    SpacedAcrossExactly(x.trail.sends, Run(first, more).trail.sends, limits.tps);
  }

  lemma RunIsWindowed(limits: Limits, clock: int, start: int, stored: Option<int>, events: seq<Event>)
    requires limits.tps > 0 && Clocked(clock, events) && (stored.Some? ==> stored.value == start)
    ensures var x := Run(Fresh(limits, clock, start, stored), events);
            && Ascending(x.trail.sends) && Spaced(x.trail.sends, limits.tps)
            && forall i | 0 <= i < |x.trail.sends| :: x.trail.sends[i] <= x.trail.clock
  {
    FreshInv(limits, clock, start, stored);
    RunKeeps(Fresh(limits, clock, start, stored), events);
  }

  lemma AscendingJoin(before: seq<int>, after: seq<int>, time: int)
    requires Ascending(before) && Ascending(after) && AllFrom(after, time)
    requires forall i | 0 <= i < |before| :: before[i] <= time
    ensures Ascending(before + after)
  {
    var all := before + after;
    forall i, j | 0 <= i < j < |all| ensures all[i] <= all[j] {
      if i < |before| <= j {
        assert before[i] <= time <= after[j - |before|];
      }
    }
  }

  ghost predicate AllFrom(sends: seq<int>, time: int) {
    forall i | 0 <= i < |sends| :: time <= sends[i]
  }

  lemma {:induction false} SendsComeAfter(x: Tracked, events: seq<Event>, time: int)
    requires AllFrom(x.trail.sends, time) && time <= x.trail.clock && Clocked(x.trail.clock, events)
    ensures AllFrom(Run(x, events).trail.sends, time)
    decreases |events|
  {
    if events != [] {
      if events[0].Visit? {
        PopFrame(x, events[0].now);
      }
      SendsComeAfter(Step(x, events[0]), events[1..], time);
    }
  }

  /** With a limit of one command, one right before a restart and one right after it are both sent. */
  lemma RestartForgetsWindow(now: int)
    ensures var limits, events := Limits(1, 0), [Arrival(Burst(1)), Visit(now)];
            var before, after := After(limits, now, 0, events), After(limits, now, 1, events);
            before == after == [now] && CountFrom(before + after, now) == 2 > limits.tps
  {
    RoomCanBeUsed(Limits(1, 0), now, 0);
    RoomCanBeUsed(Limits(1, 0), now, 1);
    CountJoin([now], [now], now, now + WINDOW_MS);
    CountOfRepeat(now, 1, now, now + WINDOW_MS);
    assert Repeat(now, 1) == [now];
  }

  lemma RunOfTwo(x: Tracked, a: Event, b: Event)
    ensures Run(x, [a, b]) == Step(Step(x, a), b)
  {
    var y := Step(x, a);
    assert [a, b][1..] == [b] && [b][1..] == [];
    assert Run(x, [a, b]) == Run(y, [b]);
    assert Run(y, [b]) == Run(Step(y, b), []);
  }
}

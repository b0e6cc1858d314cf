/** Who is served before whom: the queues of flow control hold what arrived and has not left, in order of
    arrival. */
module FlowOrder {
  import opened Options
  import opened FlowMessages
  import opened StableOrder
  import opened MarketLimiter
  import opened FlowRouting
  import opened FlowRuns
  import opened MarketVisits

  // ---- Selections of requests ----

  ghost function Filter(p: Request -> bool, s: seq<Request>): seq<Request> {
    if s == [] then [] else Filter(p, s[..|s| - 1]) + (if p(s[|s| - 1]) then [s[|s| - 1]] else [])
  }

  ghost predicate NoRepeats(s: seq<Request>) {
    forall i, j | 0 <= i < j < |s| :: s[i] != s[j]
  }

  lemma {:induction false} FilterJoin(p: Request -> bool, a: seq<Request>, b: seq<Request>)
    ensures Filter(p, a + b) == Filter(p, a) + Filter(p, b)
  {
    if b == [] {
      assert a + b == a;
    } else {
      assert (a + b)[..|a + b| - 1] == a + b[..|b| - 1];
      FilterJoin(p, a, b[..|b| - 1]);
    }
  }

  lemma FilterOne(p: Request -> bool, r: Request)
    ensures Filter(p, [r]) == if p(r) then [r] else []
  {
    assert [r][..0] == [];
  }

  lemma {:induction false} FilterMembers(p: Request -> bool, s: seq<Request>)
    ensures forall r :: r in Filter(p, s) <==> r in s && p(r)
  {
    if s != [] {
      var n := |s| - 1;
      FilterMembers(p, s[..n]);
      assert s == s[..n] + [s[n]];
    }
  }

  lemma {:induction false} FilterKeepsDistinct(p: Request -> bool, s: seq<Request>)
    requires NoRepeats(s)
    ensures NoRepeats(Filter(p, s))
  {
    if s != [] {
      var n := |s| - 1;
      FilterKeepsDistinct(p, s[..n]);
      FilterMembers(p, s[..n]);
      assert s[n] !in s[..n];
    }
  }

  lemma {:induction false} FilterTwice(p: Request -> bool, q: Request -> bool, both: Request -> bool, s: seq<Request>)
    requires forall r :: both(r) <==> p(r) && q(r)
    ensures Filter(p, Filter(q, s)) == Filter(both, s)
  {
    if s != [] {
      var n := |s| - 1;
      FilterTwice(p, q, both, s[..n]);
      if q(s[n]) {
        FilterJoin(p, Filter(q, s[..n]), [s[n]]);
        FilterOne(p, s[n]);
      } else {
        assert Filter(q, s[..n]) + [] == Filter(q, s[..n]);
      }
    }
  }

  /** Selections may be made in either order. */
  lemma FilterCommutes(p: Request -> bool, q: Request -> bool, s: seq<Request>)
    ensures Filter(p, Filter(q, s)) == Filter(q, Filter(p, s))
  {
    FilterTwice(p, q, r => p(r) && q(r), s);
    FilterTwice(q, p, r => p(r) && q(r), s);
  }

  lemma {:induction false} FilterAll(p: Request -> bool, s: seq<Request>)
    requires forall r | r in s :: p(r)
    ensures Filter(p, s) == s
  {
    if s != [] {
      var n := |s| - 1;
      assert s[n] in s && forall r | r in s[..n] :: r in s;
      FilterAll(p, s[..n]);
      assert s == s[..n] + [s[n]];
    }
  }

  ghost function Others(r: Request): Request -> bool {
    (x: Request) => x != r
  }

  lemma {:induction false} NothingTaken(s: seq<Request>, r: Request)
    requires r !in s
    ensures Filter(Others(r), s) == s
  {
    if s != [] {
      var n := |s| - 1;
      NothingTaken(s[..n], r);
      assert s[n] in s && s == s[..n] + [s[n]];
    }
  }

  /** Taking out one of several different requests. */
  lemma {:induction false} OthersThan(s: seq<Request>, k: nat)
    requires NoRepeats(s) && k < |s|
    ensures Filter(Others(s[k]), s) == s[..k] + s[k + 1..]
  {
    var n := |s| - 1;
    if k == n {
      NothingTaken(s[..n], s[n]);
    } else {
      OthersThan(s[..n], k);
      assert s[..n][..k] == s[..k] && s[..n][k + 1..] + [s[n]] == s[k + 1..];
    }
  }

  /** A selection keeps the order. */
  lemma FilterKeepsOrder(p: Request -> bool, s: seq<Request>, a: nat, b: nat) returns (i: nat, j: nat)
    requires a < b < |s| && p(s[a]) && p(s[b])
    ensures i < j < |Filter(p, s)| && Filter(p, s)[i] == s[a] && Filter(p, s)[j] == s[b]
  {
    var f, g := Filter(p, s[..b]), Filter(p, s[b..]);
    assert s == s[..b] + s[b..];
    FilterJoin(p, s[..b], s[b..]);
    FilterMembers(p, s[..b]);
    FilterMembers(p, s[b..]);
    assert s[..b][a] == s[a] && s[b..][0] == s[b];
    assert s[a] in f && s[b] in g;
    var y: nat;
    i :| 0 <= i < |f| && f[i] == s[a];
    y :| 0 <= y < |g| && g[y] == s[b];
    j := |f| + y;
  }

  // ---- The lines ----

  /** A line of requests: those that wait in a market's queue, those that stand refused beside it, and those
      that need no flow control. */
  datatype Line = Waiting(i: nat) | Beside(i: nat) | Free

  /** Where a request goes; nowhere if its number does not parse. */
  function LineOf(cfg: Config, limits: seq<Limits>, req: Request): Option<Line> {
    match RouteOf(cfg, req)
    case ToQueue(i, item) =>
      if i < |limits| && TooLarge(limits[i], item) then Some(Beside(i)) else Some(Waiting(i))
    case ToNormal(_) => Some(Free)
    case Throws => None
  }

  ghost function In(cfg: Config, limits: seq<Limits>, line: Line): Request -> bool {
    (req: Request) => LineOf(cfg, limits, req) == Some(line)
  }

  function Requests(items: seq<FlowItem>): (r: seq<Request>)
    ensures |r| == |items| && forall i | 0 <= i < |items| :: r[i] == items[i].msg.request
  {
    seq(|items|, i requires 0 <= i < |items| => items[i].msg.request)
  }

  function MsgRequests(msgs: seq<BrokerMsg>): (r: seq<Request>)
    ensures |r| == |msgs| && forall i | 0 <= i < |msgs| :: r[i] == msgs[i].request
  {
    seq(|msgs|, i requires 0 <= i < |msgs| => msgs[i].request)
  }

  function Standing(s: FlowState, line: Line): seq<Request> {
    match line
    case Waiting(i) => if i < |s.queues| then Requests(s.queues[i].trail.waiting) else []
    case Beside(i) => if i < |s.queues| then MsgRequests(s.queues[i].q.normal) else []
    case Free => MsgRequests(s.normal)
  }

  /** All of a line: those that stand in it and those still in the broker queue. */
  ghost function Whole(cfg: Config, limits: seq<Limits>, s: FlowState, line: Line): seq<Request> {
    Standing(s, line) + Filter(In(cfg, limits, line), s.broker)
  }

  ghost predicate HasLimits(queues: seq<Tracked>, limits: seq<Limits>) {
    |queues| == |limits| && forall i | 0 <= i < |queues| :: queues[i].q.limits == limits[i]
  }

  /** What waits is the item of its request. */
  ghost predicate ItemsRouted(cfg: Config, queues: seq<Tracked>) {
    forall i, item | 0 <= i < |queues| && item in queues[i].trail.waiting ::
      RouteOf(cfg, item.msg.request) == ToQueue(i, item)
  }

  /** A delivered request stands at the end of its line, and nothing else moves. */
  lemma DeliverStands(cfg: Config, limits: seq<Limits>, s: FlowState, req: Request, line: Line)
    requires Wired(cfg, s) && HasLimits(s.queues, limits) && ItemsRouted(cfg, s.queues)
    requires RouteOf(cfg, req) != Throws
    ensures var t := Deliver(s, RouteOf(cfg, req));
            && HasLimits(t.queues, limits) && ItemsRouted(cfg, t.queues) && t.broker == s.broker
            && Standing(t, line) == Standing(s, line) + Filter(In(cfg, limits, line), [req])
  {
    FilterOne(In(cfg, limits, line), req);
    RouteKeepsRequest(cfg, req);
    var route := RouteOf(cfg, req);
    var t := Deliver(s, route);
    if route.ToQueue? {
      forall i, item | 0 <= i < |t.queues| && item in t.queues[i].trail.waiting
        ensures RouteOf(cfg, item.msg.request) == ToQueue(i, item)
      {
        assert item in s.queues[i].trail.waiting || (i == route.index && item == route.item);
      }
    }
  }

  lemma WholeSplits(cfg: Config, limits: seq<Limits>, s: FlowState, line: Line)
    requires s.broker != []
    ensures var p := In(cfg, limits, line);
            Whole(cfg, limits, s, line) ==
            Standing(s, line) + Filter(p, [s.broker[0]]) + Filter(p, s.broker[1..])
  {
    assert s.broker == [s.broker[0]] + s.broker[1..];
    FilterJoin(In(cfg, limits, line), [s.broker[0]], s.broker[1..]);
  }

  /** Routing one request changes no line. */
  lemma RouteKeepsLines(cfg: Config, limits: seq<Limits>, s: FlowState, line: Line)
    requires Wired(cfg, s) && HasLimits(s.queues, limits) && ItemsRouted(cfg, s.queues) && s.broker != []
    ensures var req, t := s.broker[0], s.(broker := s.broker[1..]);
            if RouteOf(cfg, req) == Throws then Whole(cfg, limits, t, line) == Whole(cfg, limits, s, line)
            else
              var u := Deliver(t, RouteOf(cfg, req));
              && HasLimits(u.queues, limits) && ItemsRouted(cfg, u.queues) && u.broker == t.broker
              && Whole(cfg, limits, u, line) == Whole(cfg, limits, s, line)
  {
    var req, t := s.broker[0], s.(broker := s.broker[1..]);
    WholeSplits(cfg, limits, s, line);
    if RouteOf(cfg, req) == Throws {
      FilterOne(In(cfg, limits, line), req);
      assert Standing(s, line) + [] == Standing(s, line);
    } else {
      DeliverStands(cfg, limits, t, req, line);
    }
  }

  /** Draining moves requests from the broker queue into the lines and changes no line. */
  lemma {:induction false} DrainKeepsLines(cfg: Config, limits: seq<Limits>, s: FlowState, line: Line)
    requires Wired(cfg, s) && HasLimits(s.queues, limits) && ItemsRouted(cfg, s.queues)
    ensures var t := Drain(cfg, s).0;
            && HasLimits(t.queues, limits) && ItemsRouted(cfg, t.queues)
            && Whole(cfg, limits, t, line) == Whole(cfg, limits, s, line)
    decreases |s.broker|
  {
    if s.broker != [] {
      var req := s.broker[0];
      RouteKeepsLines(cfg, limits, s, line);
      if RouteOf(cfg, req) != Throws {
        DrainKeepsLines(cfg, limits, Deliver(s.(broker := s.broker[1..]), RouteOf(cfg, req)), line);
      }
    }
  }

  // ---- What a visit takes out ----

  /** Who leaves a queue, and that all others stay as they are. */
  ghost predicate TakesOne(x: Tracked, y: Tracked, o: Outcome) {
    match o
    case Idle => y.trail.waiting == x.trail.waiting && y.q.normal == x.q.normal
    case Passed(msg) => y.trail.waiting == x.trail.waiting && x.q.normal == [msg] + y.q.normal
    case Evicted(item) =>
      && x.trail.waiting != [] && item == x.trail.waiting[LastSmallest(x.trail.waiting)]
      && y.trail.waiting == Without(x.trail.waiting, LastSmallest(x.trail.waiting)) && y.q.normal == x.q.normal
    case _ =>
      && x.trail.waiting != [] && o.item == x.trail.waiting[FirstLargest(x.trail.waiting)]
      && y.trail.waiting == Without(x.trail.waiting, FirstLargest(x.trail.waiting)) && y.q.normal == x.q.normal
  }

  lemma PopTakesOne(x: Tracked, now: int)
    requires Inv(x)
    ensures var (y, o) := Pop(x, now); TakesOne(x, y, o) && y.q.limits == x.q.limits
  {
    LeavesInStableOrder(x, now);
    PopFirstServesReady(x, now);
  }

  /** The place in its line from which a request left. */
  ghost predicate LeftFrom(whole: seq<Request>, after: seq<Request>, req: Request, k: nat) {
    k < |whole| && whole[k] == req && after == whole[..k] + whole[k + 1..]
  }

  ghost function LineTaken(i: nat, o: Outcome): Option<Line> {
    match o
    case Idle => None
    case Passed(_) => Some(Beside(i))
    case _ => Some(Waiting(i))
  }

  /** The place of the one that leaves. */
  ghost function PlaceTaken(x: Tracked, o: Outcome): nat {
    if o.Idle? || o.Passed? || x.trail.waiting == [] then 0
    else if o.Evicted? then LastSmallest(x.trail.waiting) else FirstLargest(x.trail.waiting)
  }

  lemma RequestsWithout(w: seq<FlowItem>, k: nat)
    requires k < |w|
    ensures LeftFrom(Requests(w), Requests(Without(w, k)), w[k].msg.request, k)
  {
    assert Requests(Without(w, k)) == Requests(w)[..k] + Requests(w)[k + 1..];
  }

  /** Who leaves a queue leaves one of its lines. */
  ghost predicate LinesTaken(x: Tracked, y: Tracked, o: Outcome) {
    && (if !o.Idle? && !o.Passed?
        then LeftFrom(Requests(x.trail.waiting), Requests(y.trail.waiting), Returned(o).value.request, PlaceTaken(x, o))
        else y.trail.waiting == x.trail.waiting)
    && (if o.Passed?
        then LeftFrom(MsgRequests(x.q.normal), MsgRequests(y.q.normal), o.msg.request, 0)
        else y.q.normal == x.q.normal)
  }

  lemma TakingOneTakesLines(x: Tracked, y: Tracked, o: Outcome)
    requires TakesOne(x, y, o)
    ensures LinesTaken(x, y, o)
  {
    if o.Passed? {
      assert MsgRequests(x.q.normal) == [o.msg.request] + MsgRequests(y.q.normal);
    } else if o != Idle {
      RequestsWithout(x.trail.waiting, PlaceTaken(x, o));
    }
  }

  lemma PopLines(x: Tracked, now: int)
    requires Inv(x)
    ensures LinesTaken(x, Pop(x, now).0, Pop(x, now).1)
  {
    PopTakesOne(x, now);
    TakingOneTakesLines(x, Pop(x, now).0, Pop(x, now).1);
  }

  lemma VisitLines(queues: seq<Tracked>, i: nat, now: int, broker: seq<Request>, normal: seq<BrokerMsg>, line: Line)
    requires i < |queues| && Inv(queues[i])
    ensures var (y, o) := Pop(queues[i], now);
            var s, t := FlowState(broker, queues, normal), FlowState(broker, queues[i := y], normal);
            if LineTaken(i, o) == Some(line)
            then o != Idle && LeftFrom(Standing(s, line), Standing(t, line), Returned(o).value.request,
                                       PlaceTaken(queues[i], o))
            else Standing(t, line) == Standing(s, line)
  {
    PopLines(queues[i], now);
  }

  // ---- A call ----

  /** From a queue leaves the first with the largest key, or with a timeout the last with the smallest; from
      any other line the first. */
  ghost predicate Taken(s: FlowState, msg: BrokerMsg, took: Line, k: nat) {
    && k < |Standing(s, took)| && Standing(s, took)[k] == msg.request
    && match took
       case Waiting(i) =>
         && i < |s.queues|
         && var w := s.queues[i].trail.waiting;
            w != [] && (k == FirstLargest(w) || (k == LastSmallest(w) && msg.error == Some(TimeoutError)))
       case _ => k == 0
  }

  /** A queue whose front is stuck, beside which nothing stands, and whose back was not queued too long. */
  ghost predicate NothingToGive(x: Tracked, now: int) {
    && Stuck(x.q.limits, x.trail, now) && x.q.normal == []
    && (x.trail.waiting != [] ==> !TooLongQueued(x.q.limits, x.trail, Last(x.trail), now))
  }

  /** The markets before the one served, or all of them, had nothing to give. */
  ghost predicate ServedFirst(after: seq<Tracked>, ret: Option<BrokerMsg>, took: Line, now: int) {
    forall j | 0 <= j < |after| && (ret == None || took == Free || j < took.i) :: NothingToGive(after[j], now)
  }

  /** A queue whose waiting and refused messages are those of another. */
  predicate SameHeld(x: Tracked, y: Tracked) {
    x.trail.waiting == y.trail.waiting && x.q.normal == y.q.normal
  }

  lemma IdleHoldsTheSame(x: Tracked, now: int)
    requires Inv(x) && Pop(x, now).1 == Idle
    ensures SameHeld(x, Pop(x, now).0)
  {
    PopTakesOne(x, now);
  }

  lemma IdleHasNothing(x: Tracked, now: int)
    requires Inv(x) && x.trail.clock <= now && Pop(x, now).1 == Idle
    ensures NothingToGive(Pop(x, now).0, now)
  {
    IdleExactly(x, now);
    PopTakesOne(x, now);
    IdleFirstKeepsTrail(x, now);
  }

  /** The market a poll serves, or the number of markets if it serves none. */
  ghost function Served(queues: seq<Tracked>, i: nat, now: int): (g: nat)
    requires i <= |queues|
    ensures i <= g <= |queues|
    decreases |queues| - i
  {
    if i == |queues| || Pop(queues[i], now).1 != Idle then i
    else Served(queues[i := Pop(queues[i], now).0], i + 1, now)
  }

  lemma {:induction false} PollSkips(queues: seq<Tracked>, i: nat, now: int)
    requires i <= |queues| && AllInv(queues, now)
    ensures Poll(queues, i, now).1 == None <==> Served(queues, i, now) == |queues|
    ensures forall j | i <= j < Served(queues, i, now) :: NothingToGive(Poll(queues, i, now).0[j], now)
    decreases |queues| - i
  {
    if i < |queues| {
      var y, o := Pop(queues[i], now).0, Pop(queues[i], now).1;
      PollStep(queues, i, now);
      if o == Idle {
        var next := queues[i := y];
        IdleHasNothing(queues[i], now);
        PopInAll(queues, i, now);
        PollSkips(next, i + 1, now);
        PollFrame(next, i + 1, now, i);
        assert Poll(queues, i, now) == Poll(next, i + 1, now) && Served(queues, i, now) == Served(next, i + 1, now);
        assert Poll(next, i + 1, now).0[i] == y;
      } else {
        assert Served(queues, i, now) == i;
      }
    }
  }

  lemma {:induction false} PollHolds(queues: seq<Tracked>, i: nat, now: int, j: nat)
    requires i <= |queues| && AllInv(queues, now) && j < |queues| && j != Served(queues, i, now)
    ensures SameHeld(queues[j], Poll(queues, i, now).0[j])
    decreases |queues| - i
  {
    if i < |queues| {
      PollStep(queues, i, now);
      if Pop(queues[i], now).1 == Idle {
        IdleHoldsTheSame(queues[i], now);
        PopInAll(queues, i, now);
        PollHolds(queues[i := Pop(queues[i], now).0], i + 1, now, j);
      }
    }
  }

  lemma {:induction false} PollTakes(cfg: Config, s: FlowState, i: nat, now: int) returns (took: Line, k: nat)
    requires i <= |s.queues| && AllInv(s.queues, now)
    ensures var (queues, ret) := Poll(s.queues, i, now);
            && (ret.Some? ==> Taken(s, ret.value, took, k) && took != Free)
            && forall line ::
                 var t := s.(queues := queues);
                 if ret.Some? && line == took
                 then LeftFrom(Standing(s, line), Standing(t, line), ret.value.request, k)
                 else Standing(t, line) == Standing(s, line)
    decreases |s.queues| - i
  {
    took, k := Free, 0;
    if i < |s.queues| {
      var (y, o) := Pop(s.queues[i], now);
      PollStep(s.queues, i, now);
      PopTakesOne(s.queues[i], now);
      var next := s.(queues := s.queues[i := y]);
      forall line
        ensures if LineTaken(i, o) == Some(line)
                then o != Idle && LeftFrom(Standing(s, line), Standing(next, line), Returned(o).value.request,
                                           PlaceTaken(s.queues[i], o))
                else Standing(next, line) == Standing(s, line)
      {
        VisitLines(s.queues, i, now, s.broker, s.normal, line);
      }
      if o == Idle {
        PopInAll(s.queues, i, now);
        took, k := PollTakes(cfg, next, i + 1, now);
        PollKeepsStanding(s, i, now, took, k);
      } else {
        took, k := LineTaken(i, o).value, PlaceTaken(s.queues[i], o);
      }
    }
  }

  /** After a visit that came to nothing the same message may leave from the same place. */
  lemma PollKeepsStanding(s: FlowState, i: nat, now: int, took: Line, k: nat)
    requires i < |s.queues| && Inv(s.queues[i]) && Pop(s.queues[i], now).1 == Idle
    ensures var next := s.(queues := s.queues[i := Pop(s.queues[i], now).0]);
            forall msg :: Taken(next, msg, took, k) ==> Taken(s, msg, took, k)
  {
    PopTakesOne(s.queues[i], now);
  }

  lemma {:induction false} PollKeepsRouted(cfg: Config, queues: seq<Tracked>, i: nat, now: int)
    requires i <= |queues| && ItemsRouted(cfg, queues)
    ensures ItemsRouted(cfg, Poll(queues, i, now).0)
    decreases |queues| - i
  {
    if i < |queues| {
      PollStep(queues, i, now);
      PopOnlyTakes(queues[i], now);
      var next := queues[i := Pop(queues[i], now).0];
      assert ItemsRouted(cfg, next);
      if Pop(queues[i], now).1 == Idle {
        PollKeepsRouted(cfg, next, i + 1, now);
      }
    }
  }

  function KeyOf(cfg: Config, req: Request): real {
    var route := RouteOf(cfg, req);
    if route.ToQueue? then route.item.key else 0.0
  }

  /** A message leaves a market's queue before all with a smaller key and those of equal key behind it, unless
      it is given up; any other line it leaves from the front. */
  ghost predicate LeavesInTurn(cfg: Config, whole: seq<Request>, took: Line, k: nat, msg: BrokerMsg) {
    && k < |whole|
    && if took.Waiting? && msg.error != Some(TimeoutError)
       then forall j | 0 <= j < |whole| :: KeyOf(cfg, whole[j]) <= KeyOf(cfg, msg.request)
                                           && (j < k ==> KeyOf(cfg, whole[j]) < KeyOf(cfg, msg.request))
       else took.Waiting? || k == 0
  }

  lemma TakenInTurn(cfg: Config, s: FlowState, msg: BrokerMsg, took: Line, k: nat)
    requires ItemsRouted(cfg, s.queues) && Taken(s, msg, took, k)
    ensures LeavesInTurn(cfg, Standing(s, took), took, k, msg)
  {
    if took.Waiting? {
      var w := s.queues[took.i].trail.waiting;
      forall j | 0 <= j < |w| ensures KeyOf(cfg, Standing(s, took)[j]) == w[j].key {
        assert w[j] in w;
      }
    }
  }

  /** How a call changes the lines: the message it gives leaves one of them in its turn, no other line
      changes, and a call that gives none changes none. */
  ghost predicate CallLines(cfg: Config, limits: seq<Limits>, s: FlowState, t: FlowState, ret: Option<BrokerMsg>,
                            took: Line, k: nat)
  {
    && (ret.Some? ==> LeavesInTurn(cfg, Whole(cfg, limits, s, took), took, k, ret.value))
    && forall line ::
         if ret.Some? && line == took
         then LeftFrom(Whole(cfg, limits, s, line), Whole(cfg, limits, t, line), ret.value.request, k)
         else Whole(cfg, limits, t, line) == Whole(cfg, limits, s, line)
  }

  lemma DrainedIsWhole(cfg: Config, limits: seq<Limits>, s: FlowState, line: Line)
    requires s.broker == []
    ensures Whole(cfg, limits, s, line) == Standing(s, line)
  {}

  /** What is given is taken from one line, and no other line changes. */
  ghost predicate TakenFrom(s: FlowState, t: FlowState, ret: Option<BrokerMsg>, took: Line, k: nat) {
    && (ret.Some? ==> Taken(s, ret.value, took, k))
    && forall line ::
         if ret.Some? && line == took then LeftFrom(Standing(s, line), Standing(t, line), ret.value.request, k)
         else Standing(t, line) == Standing(s, line)
  }

  lemma StandingFrame(s: FlowState, t: FlowState, line: Line)
    requires t.queues == s.queues && (line == Free ==> t.normal == s.normal)
    ensures Standing(t, line) == Standing(s, line)
  {}

  lemma GiveTakes(cfg: Config, d: FlowState, now: int) returns (took: Line, k: nat)
    requires AllInv(d.queues, now)
    ensures TakenFrom(d, Give(d, now).0, Give(d, now).1, took, k)
    ensures ServedFirst(Give(d, now).0.queues, Give(d, now).1, took, now)
  {
    var (queues, ret) := Poll(d.queues, 0, now);
    took, k := PollTakes(cfg, d, 0, now);
    PollSkips(d.queues, 0, now);
    if ret.Some? {
      assert LeftFrom(Standing(d, took), Standing(d.(queues := queues), took), ret.value.request, k);
      if took.i != Served(d.queues, 0, now) && took.i < |queues| {
        PollHolds(d.queues, 0, now, took.i);
        assert Standing(d.(queues := queues), took) == Standing(d, took);
      }
    }
    if ret == None && d.normal != [] {
      took, k := Free, 0;
      NormalTaken(d, d.(queues := queues));
    }
  }

  lemma NormalTaken(d: FlowState, u: FlowState)
    requires u.normal == d.normal != [] && forall line :: Standing(u, line) == Standing(d, line)
    ensures TakenFrom(d, u.(normal := u.normal[1..]), Some(d.normal[0]), Free, 0)
  {
    var t := u.(normal := u.normal[1..]);
    assert LeftFrom(MsgRequests(d.normal), MsgRequests(t.normal), d.normal[0].request, 0);
    forall line | line != Free ensures Standing(t, line) == Standing(d, line) {
      StandingFrame(u, t, line);
    }
  }

  /** A drained state gives in turn. */
  lemma GiveLines(cfg: Config, limits: seq<Limits>, d: FlowState, now: int) returns (took: Line, k: nat)
    requires HasLimits(d.queues, limits) && ItemsRouted(cfg, d.queues) && AllInv(d.queues, now) && d.broker == []
    ensures var (t, ret) := Give(d, now);
            CallLines(cfg, limits, d, t, ret, took, k) && ServedFirst(t.queues, ret, took, now)
    ensures var t := Give(d, now).0; HasLimits(t.queues, limits) && ItemsRouted(cfg, t.queues)
  {
    PollKeepsRouted(cfg, d.queues, 0, now);
    PollFixesLimits(d.queues, 0, now);
    took, k := GiveTakes(cfg, d, now);
    var (t, ret) := Give(d, now);
    if ret.Some? {
      TakenInTurn(cfg, d, ret.value, took, k);
    }
    forall line
      ensures Whole(cfg, limits, d, line) == Standing(d, line) && Whole(cfg, limits, t, line) == Standing(t, line)
    {
      DrainedIsWhole(cfg, limits, d, line);
      DrainedIsWhole(cfg, limits, t, line);
    }
  }

  /** The order of one call, against the requests that stand in the lines and in the broker queue. */
  lemma CallInTurn(cfg: Config, limits: seq<Limits>, s: FlowState, now: int) returns (took: Line, k: nat)
    requires Wired(cfg, s) && HasLimits(s.queues, limits) && ItemsRouted(cfg, s.queues) && AllInv(s.queues, now)
    ensures var (t, p) := TryPop(cfg, s, now);
            && HasLimits(t.queues, limits) && ItemsRouted(cfg, t.queues)
            && CallLines(cfg, limits, s, t, ReturnOf(p), took, k)
            && (p.Gave? ==> t.broker == [] && ServedFirst(t.queues, p.ret, took, now))
  {
    took, k := Free, 0;
    var (d, lost) := Drain(cfg, s);
    DrainKeeps(cfg, s, now);
    DrainStops(cfg, s);
    DrainKeepsLines(cfg, limits, s, Free);
    forall line ensures Whole(cfg, limits, d, line) == Whole(cfg, limits, s, line) {
      DrainKeepsLines(cfg, limits, s, line);
    }
    if lost == None {
      took, k := GiveLines(cfg, limits, d, now);
    }
  }

  // ---- Runs ----

  /** The requests that were returned. */
  function Gone(msgs: seq<BrokerMsg>): set<Request> {
    set msg | msg in msgs :: msg.request
  }

  ghost function NotIn(gone: set<Request>): Request -> bool {
    (req: Request) => req !in gone
  }

  /** What arrived and was not returned, in order of arrival. */
  ghost function Remaining(l: Ledger): seq<Request> {
    Filter(NotIn(Gone(l.returned)), l.arrived)
  }

  /** Every line, with what is still in the broker queue, holds the requests that go there, arrived and were not
      returned, in order of arrival. */
  ghost predicate InTurn(cfg: Config, limits: seq<Limits>, l: Ledger) {
    forall line :: Whole(cfg, limits, l.s, line) == Filter(In(cfg, limits, line), Remaining(l))
  }

  ghost predicate Ordered(cfg: Config, limits: seq<Limits>, l: Ledger) {
    && Wired(cfg, l.s) && HasLimits(l.s.queues, limits) && ItemsRouted(cfg, l.s.queues)
    && AllInv(l.s.queues, l.clock)
    && NoRepeats(l.arrived) && (forall msg | msg in l.returned :: msg.request in l.arrived)
    && InTurn(cfg, limits, l)
  }

  lemma ArrivalRemains(l: Ledger, req: Request)
    requires req !in Gone(l.returned)
    ensures Remaining(l.(arrived := l.arrived + [req])) == Remaining(l) + [req]
  {
    FilterJoin(NotIn(Gone(l.returned)), l.arrived, [req]);
    FilterOne(NotIn(Gone(l.returned)), req);
  }

  lemma ArrivalLine(cfg: Config, limits: seq<Limits>, s: FlowState, remaining: seq<Request>, req: Request, line: Line)
    requires Whole(cfg, limits, s, line) == Filter(In(cfg, limits, line), remaining)
    ensures Whole(cfg, limits, s.(broker := s.broker + [req]), line) ==
            Filter(In(cfg, limits, line), remaining + [req])
  {
    FilterJoin(In(cfg, limits, line), remaining, [req]);
    WholePush(cfg, limits, s, req, line);
  }

  lemma WholePush(cfg: Config, limits: seq<Limits>, s: FlowState, req: Request, line: Line)
    ensures Whole(cfg, limits, s.(broker := s.broker + [req]), line) ==
            Whole(cfg, limits, s, line) + Filter(In(cfg, limits, line), [req])
  {
    FilterJoin(In(cfg, limits, line), s.broker, [req]);
    StandingFrame(s, s.(broker := s.broker + [req]), line);
  }

  lemma ArrivalInTurn(cfg: Config, limits: seq<Limits>, l: Ledger, req: Request)
    requires Ordered(cfg, limits, l) && req !in l.arrived
    ensures Ordered(cfg, limits, FlowRouting.Step(cfg, l, Arrive(req)))
  {
    var m := FlowRouting.Step(cfg, l, Arrive(req));
    ArrivalRemains(l, req);
    forall line ensures Whole(cfg, limits, m.s, line) == Filter(In(cfg, limits, line), Remaining(m)) {
      ArrivalLine(cfg, limits, l.s, Remaining(l), req, line);
    }
  }

  /** Returning one more request takes it out of what remains. */
  lemma RemainingWithout(l: Ledger, m: Ledger, msg: BrokerMsg)
    requires m.arrived == l.arrived && m.returned == l.returned + [msg]
    ensures Remaining(m) == Filter(Others(msg.request), Remaining(l))
  {
    forall r: Request ensures NotIn(Gone(m.returned))(r) <==> Others(msg.request)(r) && NotIn(Gone(l.returned))(r) {
      GoneNext(l.returned, msg, r);
    }
    FilterTwice(Others(msg.request), NotIn(Gone(l.returned)), NotIn(Gone(m.returned)), l.arrived);
  }

  lemma GoneNext(msgs: seq<BrokerMsg>, msg: BrokerMsg, r: Request)
    ensures r in Gone(msgs + [msg]) <==> r in Gone(msgs) || r == msg.request
  {
    if r == msg.request {
      assert msg in msgs + [msg];
    }
    if r in Gone(msgs) {
      var x :| x in msgs && x.request == r;
      assert x in msgs + [msg];
    }
  }

  lemma LineWithout(cfg: Config, limits: seq<Limits>, l: Ledger, req: Request, line: Line, k: nat)
    requires Ordered(cfg, limits, l)
    requires k < |Whole(cfg, limits, l.s, line)| && Whole(cfg, limits, l.s, line)[k] == req
    ensures var w, p := Whole(cfg, limits, l.s, line), In(cfg, limits, line);
            && Filter(p, Filter(Others(req), Remaining(l))) == w[..k] + w[k + 1..]
            && LineOf(cfg, limits, req) == Some(line) && req in l.arrived && req !in Gone(l.returned)
  {
    var w, p := Whole(cfg, limits, l.s, line), In(cfg, limits, line);
    assert w == Filter(p, Remaining(l));
    FilterKeepsDistinct(NotIn(Gone(l.returned)), l.arrived);
    FilterKeepsDistinct(p, Remaining(l));
    FilterCommutes(p, Others(req), Remaining(l));
    OthersThan(w, k);
    FilterMembers(p, Remaining(l));
    FilterMembers(NotIn(Gone(l.returned)), l.arrived);
    assert req in w;
  }

  lemma LineUntouched(cfg: Config, limits: seq<Limits>, l: Ledger, req: Request, line: Line)
    requires Ordered(cfg, limits, l) && LineOf(cfg, limits, req) != Some(line)
    ensures Filter(In(cfg, limits, line), Filter(Others(req), Remaining(l))) == Whole(cfg, limits, l.s, line)
  {
    var p := In(cfg, limits, line);
    FilterCommutes(p, Others(req), Remaining(l));
    FilterMembers(p, Remaining(l));
    NothingTaken(Filter(p, Remaining(l)), req);
  }

  lemma CallKeepsInTurn(cfg: Config, limits: seq<Limits>, l: Ledger, now: int) returns (took: Line, k: nat)
    requires Ordered(cfg, limits, l) && l.clock <= now
    ensures Ordered(cfg, limits, FlowRouting.Step(cfg, l, Call(now)))
    ensures var ret := ReturnOf(TryPop(cfg, l.s, now).1);
            ret.Some? ==>
              && LineOf(cfg, limits, ret.value.request) == Some(took)
              && var w := Whole(cfg, limits, l.s, took);
                 k < |w| && w[k] == ret.value.request && LeavesInTurn(cfg, w, took, k, ret.value)
    ensures TryPop(cfg, l.s, now).1.Gave? ==>
              ServedFirst(TryPop(cfg, l.s, now).0.queues, ReturnOf(TryPop(cfg, l.s, now).1), took, now)
  {
    var m := FlowRouting.Step(cfg, l, Call(now));
    var (t, p) := TryPop(cfg, l.s, now);
    var ret := ReturnOf(p);
    AllLater(l.s.queues, l.clock, now);
    TryPopKeeps(cfg, l.s, l.clock, now);
    took, k := CallInTurn(cfg, limits, l.s, now);
    if ret.Some? {
      var req := ret.value.request;
      LineWithout(cfg, limits, l, req, took, k);
      RemainingWithout(l, m, ret.value);
      forall line ensures Whole(cfg, limits, m.s, line) == Filter(In(cfg, limits, line), Remaining(m)) {
        if line != took {
          LineUntouched(cfg, limits, l, req, line);
        }
      }
    } else {
      assert m.returned == l.returned && m.arrived == l.arrived;
      forall line ensures Whole(cfg, limits, m.s, line) == Filter(In(cfg, limits, line), Remaining(m)) {
        assert Whole(cfg, limits, m.s, line) == Whole(cfg, limits, l.s, line);
      }
    }
  }

  lemma AllLater(queues: seq<Tracked>, clock: int, now: int)
    requires AllInv(queues, clock) && clock <= now
    ensures AllInv(queues, now)
  {}

  /** Whether the first of two requests of one line is to be served before the second, given what the second
      was answered with. */
  ghost predicate ComesBefore(cfg: Config, limits: seq<Limits>, a: Request, b: Request, answer: BrokerMsg) {
    && LineOf(cfg, limits, a).Some? && LineOf(cfg, limits, a) == LineOf(cfg, limits, b)
    && (LineOf(cfg, limits, a).value.Waiting? ==>
          answer.error != Some(TimeoutError) && KeyOf(cfg, b) <= KeyOf(cfg, a))
  }

  /** Whoever came first was returned first. */
  ghost predicate Fair(cfg: Config, limits: seq<Limits>, l: Ledger) {
    forall a, b, k | 0 <= a < b < |l.arrived| && 0 <= k < |l.returned| && l.returned[k].request == l.arrived[b]
                     && ComesBefore(cfg, limits, l.arrived[a], l.arrived[b], l.returned[k]) ::
      l.arrived[a] in Gone(l.returned[..k])
  }

  /** What is returned next is returned after all that come before it. */
  lemma NextIsFair(cfg: Config, limits: seq<Limits>, l: Ledger, a: nat, b: nat, took: Line, k: nat, msg: BrokerMsg)
    requires Ordered(cfg, limits, l) && a < b < |l.arrived| && msg.request == l.arrived[b]
    requires ComesBefore(cfg, limits, l.arrived[a], l.arrived[b], msg)
    requires LineOf(cfg, limits, msg.request) == Some(took)
    requires var w := Whole(cfg, limits, l.s, took);
             k < |w| && w[k] == msg.request && LeavesInTurn(cfg, w, took, k, msg)
    ensures l.arrived[a] in Gone(l.returned)
  {
    if l.arrived[a] !in Gone(l.returned) {
      var p, gone := In(cfg, limits, took), NotIn(Gone(l.returned));
      var w := Whole(cfg, limits, l.s, took);
      assert w == Filter(p, Remaining(l));
      LineWithout(cfg, limits, l, msg.request, took, k);
      var i, j := FilterKeepsOrder(gone, l.arrived, a, b);
      var x, y := FilterKeepsOrder(p, Remaining(l), i, j);
      FilterKeepsDistinct(gone, l.arrived);
      FilterKeepsDistinct(p, Remaining(l));
    }
  }

  lemma FairPush(cfg: Config, limits: seq<Limits>, l: Ledger, m: Ledger, msg: BrokerMsg)
    requires Fair(cfg, limits, l) && m.arrived == l.arrived && m.returned == l.returned + [msg]
    requires forall a, b | 0 <= a < b < |l.arrived| && msg.request == l.arrived[b]
                           && ComesBefore(cfg, limits, l.arrived[a], l.arrived[b], msg) ::
               l.arrived[a] in Gone(l.returned)
    ensures Fair(cfg, limits, m)
  {
    var n := |l.returned|;
    forall a, b, k | 0 <= a < b < |m.arrived| && 0 <= k < |m.returned| && m.returned[k].request == m.arrived[b]
                     && ComesBefore(cfg, limits, m.arrived[a], m.arrived[b], m.returned[k])
      ensures m.arrived[a] in Gone(m.returned[..k])
    {
      if k == n {
        assert m.returned[..n] == l.returned;
      } else {
        assert m.returned[k] == l.returned[k] && m.returned[..k] == l.returned[..k];
      }
    }
  }

  lemma CallKeepsFair(cfg: Config, limits: seq<Limits>, l: Ledger, now: int)
    requires Ordered(cfg, limits, l) && Fair(cfg, limits, l) && l.clock <= now
    ensures Fair(cfg, limits, FlowRouting.Step(cfg, l, Call(now)))
  {
    var m := FlowRouting.Step(cfg, l, Call(now));
    var ret := ReturnOf(TryPop(cfg, l.s, now).1);
    var took, place := CallKeepsInTurn(cfg, limits, l, now);
    if ret.Some? {
      forall a, b | 0 <= a < b < |l.arrived| && ret.value.request == l.arrived[b]
                    && ComesBefore(cfg, limits, l.arrived[a], l.arrived[b], ret.value)
        ensures l.arrived[a] in Gone(l.returned)
      {
        NextIsFair(cfg, limits, l, a, b, took, place, ret.value);
      }
      FairPush(cfg, limits, l, m, ret.value);
    } else {
      assert m.returned == l.returned && m.arrived == l.arrived;
    }
  }

  function Arrivals(events: seq<FlowRouting.Event>): seq<Request>
    decreases |events|
  {
    if events == [] then []
    else (if events[0].Arrive? then [events[0].req] else []) + Arrivals(events[1..])
  }

  lemma ArrivalKeepsFair(cfg: Config, limits: seq<Limits>, l: Ledger, req: Request)
    requires Ordered(cfg, limits, l) && Fair(cfg, limits, l) && req !in l.arrived
    ensures Fair(cfg, limits, FlowRouting.Step(cfg, l, Arrive(req)))
  {
    var m := FlowRouting.Step(cfg, l, Arrive(req));
    forall a, b, k | 0 <= a < b < |m.arrived| && 0 <= k < |m.returned| && m.returned[k].request == m.arrived[b]
                     && ComesBefore(cfg, limits, m.arrived[a], m.arrived[b], m.returned[k])
      ensures m.arrived[a] in Gone(m.returned[..k])
    {
      assert m.returned[k] in l.returned;
      assert b < |l.arrived| && m.arrived[a] == l.arrived[a] && m.arrived[b] == l.arrived[b];
    }
  }

  lemma {:induction false} RunIsFair(cfg: Config, limits: seq<Limits>, l: Ledger, events: seq<FlowRouting.Event>)
    requires Ordered(cfg, limits, l) && Fair(cfg, limits, l)
    requires FlowRouting.Clocked(l.clock, events) && NoRepeats(l.arrived + Arrivals(events))
    ensures var m := FlowRouting.Run(cfg, l, events);
            && Ordered(cfg, limits, m) && Fair(cfg, limits, m)
            && m.arrived == l.arrived + Arrivals(events)
    decreases |events|
  {
    if events == [] {
      assert l.arrived + [] == l.arrived;
    } else {
      var e, rest := events[0], events[1..];
      var m := FlowRouting.Step(cfg, l, e);
      if e.Arrive? {
        var all := l.arrived + Arrivals(events);
        assert all[|l.arrived|] == e.req && forall i | 0 <= i < |l.arrived| :: all[i] == l.arrived[i];
        assert m.arrived + Arrivals(rest) == all;
        ArrivalInTurn(cfg, limits, l, e.req);
        ArrivalKeepsFair(cfg, limits, l, e.req);
      } else {
        var took, k := CallKeepsInTurn(cfg, limits, l, e.now);
        CallKeepsFair(cfg, limits, l, e.now);
        assert [] + Arrivals(rest) == Arrivals(rest);
      }
      RunIsFair(cfg, limits, m, rest);
    }
  }

  // ---- The main results ----

  ghost function LimitsOf(queues: seq<Tracked>): (r: seq<Limits>)
    ensures HasLimits(queues, r)
  {
    seq(|queues|, i requires 0 <= i < |queues| => queues[i].q.limits)
  }

  lemma StartIsOrdered(cfg: Config, queues: seq<Tracked>, clock: int)
    requires Wired(cfg, FlowState([], queues, [])) && AllStarting(queues, clock)
    ensures var l := StartLedger(queues, clock);
            Ordered(cfg, LimitsOf(queues), l) && Fair(cfg, LimitsOf(queues), l)
  {
    StartHolds(queues, clock);
    forall i | 0 <= i < |queues| ensures queues[i].trail.waiting == [] && queues[i].q.normal == [] {
      assert Starting(queues[i], clock);
    }
  }

  /** From the start on, at every point of every run with different requests: what waits in a market's queue,
      beside it, or in the normal queue, followed by what of the broker queue goes there, is what arrived for
      that place and was not returned, in order of arrival. */
  lemma LinesAreInOrderOfArrival(cfg: Config, queues: seq<Tracked>, clock: int, events: seq<FlowRouting.Event>,
                                 line: Line)
    requires Wired(cfg, FlowState([], queues, [])) && AllStarting(queues, clock)
    requires FlowRouting.Clocked(clock, events) && NoRepeats(Arrivals(events))
    ensures var m, limits := FlowRouting.Run(cfg, StartLedger(queues, clock), events), LimitsOf(queues);
            && m.arrived == Arrivals(events)
            && Standing(m.s, line) + Filter(In(cfg, limits, line), m.s.broker) ==
               Filter(In(cfg, limits, line), Filter(NotIn(Gone(m.returned)), m.arrived))
  {
    StartIsOrdered(cfg, queues, clock);
    assert [] + Arrivals(events) == Arrivals(events);
    RunIsFair(cfg, LimitsOf(queues), StartLedger(queues, clock), events);
    var m := FlowRouting.Run(cfg, StartLedger(queues, clock), events);
    assert Whole(cfg, LimitsOf(queues), m.s, line) == Filter(In(cfg, LimitsOf(queues), line), Remaining(m));
  }

  lemma FairServes(cfg: Config, limits: seq<Limits>, m: Ledger, a: nat, b: nat, k: nat)
    requires Fair(cfg, limits, m) && a < b < |m.arrived| && k < |m.returned|
    requires m.returned[k].request == m.arrived[b]
    requires ComesBefore(cfg, limits, m.arrived[a], m.arrived[b], m.returned[k])
    ensures exists j | 0 <= j < k :: m.returned[j].request == m.arrived[a]
  {
    var msg :| msg in m.returned[..k] && msg.request == m.arrived[a];
    var j :| 0 <= j < |m.returned[..k]| && m.returned[..k][j] == msg;
    assert m.returned[j] == msg;
  }

  /** First come, first served: of two requests for one market whose keys are equal, or the first of which has
      the larger key, the one that came first is returned first, unless the second is given up after its
      timeout; and of two that need no flow control, or are both too large for the market, always. */
  lemma FirstComeFirstServed(cfg: Config, queues: seq<Tracked>, clock: int, events: seq<FlowRouting.Event>,
                             a: nat, b: nat, k: nat)
    requires Wired(cfg, FlowState([], queues, [])) && AllStarting(queues, clock)
    requires FlowRouting.Clocked(clock, events) && NoRepeats(Arrivals(events))
    ensures var m, limits := FlowRouting.Run(cfg, StartLedger(queues, clock), events), LimitsOf(queues);
            && m.arrived == Arrivals(events)
            && (a < b < |m.arrived| && k < |m.returned| && m.returned[k].request == m.arrived[b]
                && ComesBefore(cfg, limits, m.arrived[a], m.arrived[b], m.returned[k]) ==>
                  exists j | 0 <= j < k :: m.returned[j].request == m.arrived[a])
  {
    StartIsOrdered(cfg, queues, clock);
    assert [] + Arrivals(events) == Arrivals(events);
    RunIsFair(cfg, LimitsOf(queues), StartLedger(queues, clock), events);
    var m := FlowRouting.Run(cfg, StartLedger(queues, clock), events);
    if a < b < |m.arrived| && k < |m.returned| && m.returned[k].request == m.arrived[b]
       && ComesBefore(cfg, LimitsOf(queues), m.arrived[a], m.arrived[b], m.returned[k]) {
      FairServes(cfg, LimitsOf(queues), m, a, b, k);
    }
  }

  /** At every point of every run, a call serves a market only when those configured before it have nothing to
      give, and a message that needs no flow control, or none, only when no market has. */
  lemma MarketsServedInOrder(cfg: Config, queues: seq<Tracked>, clock: int, events: seq<FlowRouting.Event>, now: int)
    requires Wired(cfg, FlowState([], queues, [])) && AllStarting(queues, clock)
    requires FlowRouting.Clocked(clock, events) && NoRepeats(Arrivals(events))
    ensures var l := FlowRouting.Run(cfg, StartLedger(queues, clock), events);
            && Wired(cfg, l.s)
            && var (t, p) := TryPop(cfg, l.s, now);
               l.clock <= now && p.Gave? ==>
                 && (p.ret.Some? ==> LineOf(cfg, LimitsOf(queues), p.ret.value.request).Some?)
                 && forall j | 0 <= j < |t.queues| ::
                      || NothingToGive(t.queues[j], now)
                      || (p.ret.Some?
                          && var line := LineOf(cfg, LimitsOf(queues), p.ret.value.request).value;
                             line != Free && line.i <= j)
  {
    StartIsOrdered(cfg, queues, clock);
    assert [] + Arrivals(events) == Arrivals(events);
    RunIsFair(cfg, LimitsOf(queues), StartLedger(queues, clock), events);
    var l := FlowRouting.Run(cfg, StartLedger(queues, clock), events);
    if l.clock <= now {
      var took, k := CallKeepsInTurn(cfg, LimitsOf(queues), l, now);
    }
  }
}

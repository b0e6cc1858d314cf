/** Flow control over all markets: routing, polling, and what whole runs conserve. */
module FlowRouting {
  import opened Options
  import opened Trading
  import opened OrderNumbers
  import opened FlowMessages
  import opened MarketLimiter
  import StableOrder

  /** `route` finds the queue of a market, `required` are the markets that must not trade without
      one, and `codeToMarket` is the library's reading of a code suffix. */
  datatype Config = Config(route: map<int, nat>, required: set<int>, requestTimeout: int,
                           codeToMarket: string -> int)

  datatype Route = ToQueue(index: nat, item: FlowItem) | ToNormal(msg: BrokerMsg) | Throws

  function OrderMarket(cfg: Config, lines: seq<OrderLine>): int {
    if lines == [] then 0
    else if lines[0].market <= 0 then cfg.codeToMarket(lines[0].code)
    else lines[0].market
  }

  function Amount(lines: seq<OrderLine>): real {
    if lines == [] then 0.0
    else Amount(lines[..|lines| - 1]) + lines[|lines| - 1].price * lines[|lines| - 1].volume as real
  }

  function OrderPriority(bsFlag: BsFlag): int {
    if bsFlag.Create? || bsFlag.Redeem? then PRIORITY_CREATE_REDEEM else PRIORITY_OTHERS
  }

  function OrderItem(cfg: Config, req: Request): FlowItem
    requires req.OrderRequest?
  {
    var priority := OrderPriority(req.bsFlag);
    var amount := if priority == PRIORITY_OTHERS then Amount(req.lines) else 0.0;
    var timeout := if 0 < req.timeout < cfg.requestTimeout then req.timeout else cfg.requestTimeout;
    FlowItem(req.timestamp, priority, |req.lines|, amount, Key(priority, amount), timeout, BrokerMsg(req, None))
  }

  function WithdrawItem(req: Request, size: nat): FlowItem
    requires req.WithdrawRequest?
  {
    FlowItem(0, PRIORITY_WITHDRAW, size, 0.0, Key(PRIORITY_WITHDRAW, 0.0), 0, BrokerMsg(req, None))
  }

  /** A request for a market without a queue: an error where flow control is required. */
  function Unqueued(cfg: Config, market: int, req: Request): Route
    requires !req.OtherRequest?
  {
    var msg := BrokerMsg(req, None);
    ToNormal(if market in cfg.required then ErrorReply(msg, NoConfig) else msg)
  }

  /** Market and number of commands of a withdrawal; None where parsing throws. */
  function WithdrawTarget(req: Request): Option<(int, nat)>
    requires req.WithdrawRequest?
  {
    if req.orderNo != "" then
      match ParseStandardOrderNo(req.orderNo)
      case None => None
      case Some(no) => Some((no.market, 1))
    else if req.batchNo != "" then
      match ParseStandardBatchNo(req.batchNo)
      case None => None
      case Some(no) => Some((no.market, no.size))
    else Some((0, 0))
  }

  function RouteOf(cfg: Config, req: Request): Route {
    match req
    case OrderRequest(_, _, _, _, lines) =>
      var market := OrderMarket(cfg, lines);
      if market in cfg.route then ToQueue(cfg.route[market], OrderItem(cfg, req))
      else Unqueued(cfg, market, req)
    case WithdrawRequest(_, _, _) =>
      (match WithdrawTarget(req)
       case None => Throws
       case Some((market, size)) =>
         if market <= 0 then ToNormal(ErrorReply(BrokerMsg(req, None), NonStandardNumber))
         else if market in cfg.route then ToQueue(cfg.route[market], WithdrawItem(req, size))
         else Unqueued(cfg, market, req))
    case OtherRequest(_, _) => ToNormal(BrokerMsg(req, None))
  }

  datatype FlowState = FlowState(broker: seq<Request>, queues: seq<Tracked>, normal: seq<BrokerMsg>)

  ghost predicate Wired(cfg: Config, s: FlowState) {
    forall m | m in cfg.route :: cfg.route[m] < |s.queues|
  }

  function Deliver(s: FlowState, r: Route): FlowState
    requires r.ToQueue? ==> r.index < |s.queues|
  {
    match r
    case ToQueue(i, item) => s.(queues := s.queues[i := Accept(s.queues[i], item)])
    case ToNormal(msg) => s.(normal := s.normal + [msg])
    case Throws => s
  }

  /** Empties the broker queue into the other queues. A number that does not parse throws: its
      message is lost and the rest stays for the next call. */
  function Drain(cfg: Config, s: FlowState): (r: (FlowState, Option<Request>))
    requires Wired(cfg, s)
    ensures |r.0.queues| == |s.queues|
    decreases |s.broker|
  {
    if s.broker == [] then (s, None)
    else
      var req := s.broker[0];
      var t := s.(broker := s.broker[1..]);
      var route := RouteOf(cfg, req);
      if route == Throws then (t, Some(req)) else Drain(cfg, Deliver(t, route))
  }

  /** Visits the queues from `i` on until one gives a message. */
  function Poll(queues: seq<Tracked>, i: nat, now: int): (r: (seq<Tracked>, Option<BrokerMsg>))
    requires i <= |queues|
    ensures |r.0| == |queues|
    decreases |queues| - i
  {
    if i == |queues| then (queues, None)
    else
      var (y, o) := Pop(queues[i], now);
      if o != Idle then (queues[i := y], Returned(o)) else Poll(queues[i := y], i + 1, now)
  }

  /** What a drained state gives: a market's message, or else one that needs no flow control. */
  function Give(s: FlowState, now: int): (FlowState, Option<BrokerMsg>) {
    var (queues, ret) := Poll(s.queues, 0, now);
    var u := s.(queues := queues);
    if ret == None && u.normal != [] then (u.(normal := u.normal[1..]), Some(u.normal[0])) else (u, ret)
  }

  datatype Popped = Threw(lost: Request) | Gave(ret: Option<BrokerMsg>)

  function ReturnOf(p: Popped): Option<BrokerMsg> {
    if p.Gave? then p.ret else None
  }

  function TryPop(cfg: Config, s: FlowState, now: int): (FlowState, Popped)
    requires Wired(cfg, s)
  {
    var (t, lost) := Drain(cfg, s);
    if lost.Some? then (t, Threw(lost.value))
    else
      var (u, ret) := Give(t, now);
      (u, Gave(ret))
  }

  /** What is queued carries the key of its priority and amount, a withdrawal the highest priority
      and no timeout, and an order a timeout no longer than the configured one. */
  lemma RoutedItem(cfg: Config, req: Request)
    requires RouteOf(cfg, req).ToQueue?
    ensures var item := RouteOf(cfg, req).item;
            && StableOrder.Keyed([item])
            && (req.WithdrawRequest? ==>
                  item.priority == PRIORITY_WITHDRAW && item.timeout == 0 && item.amount == 0.0)
            && (req.OrderRequest? ==> item.priority < PRIORITY_WITHDRAW && item.timeout <= cfg.requestTimeout
                                      && item.timestamp == req.timestamp && item.cmdSize == |req.lines|)
            && (req.OrderRequest? && 0 < req.timeout ==> item.timeout <= req.timeout)
            && (req.OrderRequest? && 0 < cfg.requestTimeout ==> 0 < item.timeout)
            && (req.OrderRequest? ==>
                  item.timeout == if 0 < req.timeout <= cfg.requestTimeout then req.timeout else cfg.requestTimeout)
  {}

  /** As long as amounts stay below 100000000, what leaves at the front has the highest priority
      waiting, among those the largest amount, and among those was the first to come. */
  lemma HighestPriorityFirst(x: Tracked, now: int, i: nat)
    requires Inv(x) && i < |x.trail.waiting|
    requires StableOrder.Keyed(x.trail.waiting)
    requires forall j | 0 <= j < |x.trail.waiting| ::
               0.0 <= x.trail.waiting[j].amount < ITEM_MULTIPLE as real
    ensures var o, w := Pop(x, now).1, x.trail.waiting;
            o.Released? || o.Refused? || o.Expired? ==>
              var m := StableOrder.FirstLargest(w);
              && o.item == w[m] && !StableOrder.GoesBefore(w[i], w[m])
              && (i < m ==> StableOrder.GoesBefore(w[m], w[i]))
  {
    LeavesInStableOrder(x, now);
    StableOrder.KeyOrdersAsComparator(x.trail.waiting);
    var w := x.trail.waiting;
    var m := StableOrder.FirstLargest(w);
    assert w[i].key > w[m].key <==> StableOrder.GoesBefore(w[i], w[m]);
    assert w[m].key > w[i].key <==> StableOrder.GoesBefore(w[m], w[i]);
  }

  /** A poll is one visit, and if it came to nothing the poll of the markets behind it. */
  lemma PollStep(queues: seq<Tracked>, i: nat, now: int)
    requires i < |queues|
    ensures var (y, o) := Pop(queues[i], now);
            && (Returned(o) == None <==> o == Idle)
            && Poll(queues, i, now) ==
               if o == Idle then Poll(queues[i := y], i + 1, now) else (queues[i := y], Returned(o))
  {}

  // ---- Conservation ----

  function InQueue(p: Request -> bool, x: Tracked): nat {
    TimesQueued(p, x.q.flow) + TimesIn(p, x.q.normal)
  }

  function InQueues(p: Request -> bool, queues: seq<Tracked>): nat {
    if queues == [] then 0 else InQueues(p, queues[..|queues| - 1]) + InQueue(p, queues[|queues| - 1])
  }

  /** How often a request was pushed and has not yet been returned. */
  function InFlight(p: Request -> bool, s: FlowState): nat {
    Times(p, s.broker) + InQueues(p, s.queues) + TimesIn(p, s.normal)
  }

  function Is(p: Request -> bool, ret: Option<BrokerMsg>): nat {
    One(ret.Some? && p(ret.value.request))
  }

  lemma {:induction false} UpdateQueue(p: Request -> bool, queues: seq<Tracked>, i: nat, y: Tracked)
    requires i < |queues|
    ensures InQueues(p, queues[i := y]) + InQueue(p, queues[i]) == InQueues(p, queues) + InQueue(p, y)
  {
    var n := |queues| - 1;
    if i == n {
      assert queues[i := y][..n] == queues[..n];
    } else {
      UpdateQueue(p, queues[..n], i, y);
      assert queues[i := y][..n] == queues[..n][i := y];
    }
  }

  lemma ResortConserves(p: Request -> bool, q: Limiter)
    ensures TimesQueued(p, Resort(q).flow) == TimesQueued(p, q.flow) && Resort(q).normal == q.normal
  {
    StableOrder.SortKeepsTotals(q.flow);
  }

  lemma PopFirstConserves(p: Request -> bool, x: Tracked, now: int)
    ensures var (y, o) := PopFirst(x, now); InQueue(p, x) == InQueue(p, y) + Is(p, Returned(o))
  {
    ResortConserves(p, x.q);
    if Resort(x.q).flow != [] {
      TimesQueuedFront(p, Resort(x.q).flow);
    }
  }

  lemma PopSecondConserves(p: Request -> bool, x: Tracked, now: int)
    ensures var (y, o) := PopSecond(x, now); InQueue(p, x) == InQueue(p, y) + Is(p, Returned(o))
  {
    ResortConserves(p, x.q);
    if Resort(x.q).normal != [] {
      TimesInFront(p, Resort(x.q).normal);
    }
  }

  lemma PopConserves(p: Request -> bool, x: Tracked, now: int)
    ensures var (y, o) := Pop(x, now); InQueue(p, x) == InQueue(p, y) + Is(p, Returned(o))
  {
    PopFirstConserves(p, x, now);
    PopSecondConserves(p, PopFirst(x, now).0, now);
  }

  lemma AcceptConserves(p: Request -> bool, x: Tracked, item: FlowItem)
    ensures InQueue(p, Accept(x, item)) == InQueue(p, x) + One(p(item.msg.request))
  {
    TimesQueuedPush(p, x.q.flow, item);
    TimesInPush(p, x.q.normal, ErrorReply(item.msg, BatchTooLarge));
  }

  lemma RouteKeepsRequest(cfg: Config, req: Request)
    ensures var route := RouteOf(cfg, req);
            && (route.ToQueue? ==> route.item.msg.request == req)
            && (route.ToNormal? ==> route.msg.request == req)
            && (route.Throws? <==> Unroutable(req))
  {}

  lemma DeliverConserves(p: Request -> bool, s: FlowState, req: Request, route: Route)
    requires route != Throws
    requires route.ToQueue? ==> route.index < |s.queues| && route.item.msg.request == req
    requires route.ToNormal? ==> route.msg.request == req
    ensures InFlight(p, Deliver(s, route)) == InFlight(p, s) + One(p(req))
  {
    match route
    case ToQueue(i, item) =>
      AcceptConserves(p, s.queues[i], item);
      UpdateQueue(p, s.queues, i, Accept(s.queues[i], item));
    case ToNormal(msg) =>
      TimesInPush(p, s.normal, msg);
  }

  ghost predicate Unroutable(req: Request) {
    req.WithdrawRequest? && WithdrawTarget(req).None?
  }

  lemma {:induction false} DrainConserves(p: Request -> bool, cfg: Config, s: FlowState)
    requires Wired(cfg, s)
    ensures var (t, lost) := Drain(cfg, s); InFlight(p, s) == InFlight(p, t) + One(lost.Some? && p(lost.value))
    decreases |s.broker|
  {
    if s.broker != [] {
      var req := s.broker[0];
      TimesFront(p, s.broker);
      var t := s.(broker := s.broker[1..]);
      var route := RouteOf(cfg, req);
      RouteKeepsRequest(cfg, req);
      if route != Throws {
        DeliverConserves(p, t, req, route);
        DrainConserves(p, cfg, Deliver(t, route));
      }
    }
  }

  lemma {:induction false} DrainStops(cfg: Config, s: FlowState)
    requires Wired(cfg, s)
    ensures var (t, lost) := Drain(cfg, s);
            && (lost.Some? ==> lost.value in s.broker && Unroutable(lost.value))
            && (lost.None? ==> t.broker == [])
    decreases |s.broker|
  {
    if s.broker != [] {
      var route := RouteOf(cfg, s.broker[0]);
      RouteKeepsRequest(cfg, s.broker[0]);
      if route != Throws {
        DrainStops(cfg, Deliver(s.(broker := s.broker[1..]), route));
      }
    }
  }

  lemma {:induction false} PollConserves(p: Request -> bool, queues: seq<Tracked>, i: nat, now: int)
    requires i <= |queues|
    ensures var (after, ret) := Poll(queues, i, now); InQueues(p, queues) == InQueues(p, after) + Is(p, ret)
    decreases |queues| - i
  {
    if i < |queues| {
      var (y, o) := Pop(queues[i], now);
      PollStep(queues, i, now);
      PopConserves(p, queues[i], now);
      UpdateQueue(p, queues, i, y);
      if o == Idle {
        PollConserves(p, queues[i := y], i + 1, now);
      }
    }
  }

  /** One call returns or loses exactly one message of what is in flight, or none. */
  lemma TryPopConserves(p: Request -> bool, cfg: Config, s: FlowState, now: int)
    requires Wired(cfg, s)
    ensures var (t, came) := TryPop(cfg, s, now);
            InFlight(p, s) == InFlight(p, t) + (if came.Threw? then One(p(came.lost)) else Is(p, came.ret))
  {
    DrainConserves(p, cfg, s);
    var (t, lost) := Drain(cfg, s);
    PollConserves(p, t.queues, 0, now);
    if t.normal != [] {
      TimesInFront(p, t.normal);
    }
  }

  // ---- Invariants of the queues ----

  /** `clock` is the time of the last call. */
  ghost predicate AllInv(queues: seq<Tracked>, clock: int) {
    forall i | 0 <= i < |queues| :: Inv(queues[i]) && queues[i].trail.clock <= clock
  }

  lemma AcceptInAll(queues: seq<Tracked>, clock: int, i: nat, item: FlowItem)
    requires AllInv(queues, clock) && i < |queues|
    ensures AllInv(queues[i := Accept(queues[i], item)], clock)
  {
    AcceptKeeps(queues[i], item);
  }

  lemma {:induction false} DrainKeeps(cfg: Config, s: FlowState, clock: int)
    requires Wired(cfg, s) && AllInv(s.queues, clock)
    ensures AllInv(Drain(cfg, s).0.queues, clock)
    decreases |s.broker|
  {
    if s.broker != [] {
      var t := s.(broker := s.broker[1..]);
      var route := RouteOf(cfg, s.broker[0]);
      if route != Throws {
        if route.ToQueue? {
          AcceptInAll(s.queues, clock, route.index, route.item);
        }
        DrainKeeps(cfg, Deliver(t, route), clock);
      }
    }
  }

  lemma PopInAll(queues: seq<Tracked>, i: nat, now: int)
    requires AllInv(queues, now) && i < |queues|
    ensures AllInv(queues[i := Pop(queues[i], now).0], now)
  {
    PopKeeps(queues[i], now);
    PopFrame(queues[i], now);
  }

  lemma {:induction false} PollKeeps(queues: seq<Tracked>, i: nat, now: int)
    requires i <= |queues| && AllInv(queues, now)
    ensures AllInv(Poll(queues, i, now).0, now)
    decreases |queues| - i
  {
    if i < |queues| {
      PopInAll(queues, i, now);
      PollStep(queues, i, now);
      if Pop(queues[i], now).1 == Idle {
        PollKeeps(queues[i := Pop(queues[i], now).0], i + 1, now);
      }
    }
  }

  lemma TryPopKeeps(cfg: Config, s: FlowState, clock: int, now: int)
    requires Wired(cfg, s) && AllInv(s.queues, clock) && clock <= now
    ensures AllInv(TryPop(cfg, s, now).0.queues, now)
  {
    DrainKeeps(cfg, s, now);
    PollKeeps(Drain(cfg, s).0.queues, 0, now);
  }

  // ---- Whole runs ----

  datatype Event = Arrive(req: Request) | Call(now: int)

  /** The state with what has come in and gone out so far. */
  datatype Ledger = Ledger(s: FlowState, clock: int, arrived: seq<Request>,
                           returned: seq<BrokerMsg>, lost: seq<Request>)

  function Step(cfg: Config, l: Ledger, e: Event): (m: Ledger)
    requires Wired(cfg, l.s)
    ensures Wired(cfg, m.s)
  {
    match e
    case Arrive(req) =>
      l.(s := l.s.(broker := l.s.broker + [req]), arrived := l.arrived + [req])
    case Call(now) =>
      var (t, p) := TryPop(cfg, l.s, now);
      match p
      case Threw(req) => l.(s := t, clock := now, lost := l.lost + [req])
      case Gave(None) => l.(s := t, clock := now)
      case Gave(Some(msg)) => l.(s := t, clock := now, returned := l.returned + [msg])
  }

  function Run(cfg: Config, l: Ledger, events: seq<Event>): Ledger
    requires Wired(cfg, l.s)
    decreases |events|
  {
    if events == [] then l else Run(cfg, Step(cfg, l, events[0]), events[1..])
  }

  predicate Clocked(clock: int, events: seq<Event>)
    decreases |events|
  {
    if events == [] then true
    else
      match events[0]
      case Arrive(_) => Clocked(clock, events[1..])
      case Call(now) => clock <= now && Clocked(now, events[1..])
  }

  /** Every request that came in was returned once, lost to an exception, or is still queued. */
  ghost predicate Conserved(l: Ledger) {
    forall p :: Times(p, l.arrived) == TimesIn(p, l.returned) + Times(p, l.lost) + InFlight(p, l.s)
  }

  ghost predicate LostUnroutable(l: Ledger) {
    forall i | 0 <= i < |l.lost| :: Unroutable(l.lost[i])
  }

  lemma StepConserves(cfg: Config, l: Ledger, e: Event)
    requires Wired(cfg, l.s) && Conserved(l)
    ensures Conserved(Step(cfg, l, e))
  {
    var m := Step(cfg, l, e);
    forall p: Request -> bool
      ensures Times(p, m.arrived) == TimesIn(p, m.returned) + Times(p, m.lost) + InFlight(p, m.s)
    {
      match e
      case Arrive(req) =>
        TimesPush(p, l.arrived, req);
        TimesPush(p, l.s.broker, req);
      case Call(now) =>
        TryPopConserves(p, cfg, l.s, now);
        match TryPop(cfg, l.s, now).1
        case Threw(req) => TimesPush(p, l.lost, req);
        case Gave(None) =>
        case Gave(Some(msg)) => TimesInPush(p, l.returned, msg);
    }
  }

  lemma StepKeeps(cfg: Config, l: Ledger, e: Event)
    requires Wired(cfg, l.s) && AllInv(l.s.queues, l.clock) && LostUnroutable(l)
    requires e.Call? ==> l.clock <= e.now
    ensures var m := Step(cfg, l, e);
            && AllInv(m.s.queues, m.clock) && LostUnroutable(m)
            && m.clock == if e.Call? then e.now else l.clock
  {
    if e.Call? {
      TryPopKeeps(cfg, l.s, l.clock, e.now);
      DrainStops(cfg, l.s);
    }
  }

  /** Over any run every request that came in has been returned exactly once (as itself or as the
      error reply to it), was lost because its number does not parse, or is still queued; and every
      market's queue keeps its invariant, so each keeps its rate limit. */
  lemma {:induction false} RunConserves(cfg: Config, l: Ledger, events: seq<Event>)
    requires Wired(cfg, l.s) && Clocked(l.clock, events)
    requires Conserved(l) && LostUnroutable(l) && AllInv(l.s.queues, l.clock)
    ensures var m := Run(cfg, l, events);
            Conserved(m) && LostUnroutable(m) && AllInv(m.s.queues, m.clock)
    decreases |events|
  {
    if events != [] {
      StepConserves(cfg, l, events[0]);
      StepKeeps(cfg, l, events[0]);
      RunConserves(cfg, Step(cfg, l, events[0]), events[1..]);
    }
  }

  ghost predicate SameLimits(a: seq<Tracked>, b: seq<Tracked>) {
    |a| == |b| && forall i | 0 <= i < |a| :: a[i].q.limits == b[i].q.limits
  }

  lemma {:induction false} DrainFixesLimits(cfg: Config, s: FlowState)
    requires Wired(cfg, s)
    ensures SameLimits(s.queues, Drain(cfg, s).0.queues)
    decreases |s.broker|
  {
    if s.broker != [] {
      var route := RouteOf(cfg, s.broker[0]);
      if route != Throws {
        DrainFixesLimits(cfg, Deliver(s.(broker := s.broker[1..]), route));
      }
    }
  }

  lemma {:induction false} PollFixesLimits(queues: seq<Tracked>, i: nat, now: int)
    requires i <= |queues|
    ensures SameLimits(queues, Poll(queues, i, now).0)
    decreases |queues| - i
  {
    if i < |queues| {
      PopFrame(queues[i], now);
      PollFixesLimits(queues[i := Pop(queues[i], now).0], i + 1, now);
    }
  }

  lemma {:induction false} RunFixesLimits(cfg: Config, l: Ledger, events: seq<Event>)
    requires Wired(cfg, l.s)
    ensures SameLimits(l.s.queues, Run(cfg, l, events).s.queues)
    decreases |events|
  {
    if events != [] {
      var m := Step(cfg, l, events[0]);
      DrainFixesLimits(cfg, l.s);
      if events[0].Call? {
        PollFixesLimits(Drain(cfg, l.s).0.queues, 0, events[0].now);
      }
      assert SameLimits(l.s.queues, m.s.queues);
      RunFixesLimits(cfg, m, events[1..]);
    }
  }

  /** Over any run of flow control as a whole, every closed interval of 1500 ms holds at most as many
      commands of a market as its limit allows, and the queue of the market stays in stable order. */
  lemma EveryMarketKeepsItsRate(cfg: Config, l: Ledger, events: seq<Event>, i: nat, from: int)
    requires Wired(cfg, l.s) && Clocked(l.clock, events)
    requires Conserved(l) && LostUnroutable(l) && AllInv(l.s.queues, l.clock)
    requires i < |l.s.queues| && l.s.queues[i].q.limits.tps > 0
    ensures var m := Run(cfg, l, events);
            && i < |m.s.queues|
            && CountBetween(m.s.queues[i].trail.sends, from, from + WINDOW_MS) <= l.s.queues[i].q.limits.tps
            && Resort(m.s.queues[i].q).flow == StableOrder.Sort(m.s.queues[i].trail.waiting)
  {
    RunConserves(cfg, l, events);
    RunFixesLimits(cfg, l, events);
    var x := Run(cfg, l, events).s.queues[i];
    SpacedBoundsCount(x.trail.sends, l.s.queues[i].q.limits.tps, from);
    ResortOrders(x);
  }

  lemma {:induction false} TimesOfNone(p: Request -> bool, reqs: seq<Request>)
    ensures Times(p, reqs) == 0 <==> forall i | 0 <= i < |reqs| :: !p(reqs[i])
  {
    if reqs != [] {
      TimesOfNone(p, reqs[..|reqs| - 1]);
    }
  }

  /** With numbers that parse nothing is lost. */
  lemma NothingLost(l: Ledger)
    requires Conserved(l) && LostUnroutable(l)
    requires forall i | 0 <= i < |l.arrived| :: !Unroutable(l.arrived[i])
    ensures l.lost == []
    ensures forall p :: Times(p, l.arrived) == TimesIn(p, l.returned) + InFlight(p, l.s)
  {
    var p := req => Unroutable(req);
    TimesOfNone(p, l.arrived);
    TimesOfNone(p, l.lost);
  }

  // ---- Progress ----

  ghost predicate Blocked(x: Tracked) {
    && x.q.normal == []
    && (x.q.flow == [] || !FitsWindow(x.q, x.q.flow[0].cmdSize))
  }

  lemma {:induction false} PollFrame(queues: seq<Tracked>, i: nat, now: int, k: nat)
    requires k < i <= |queues|
    ensures Poll(queues, i, now).0[k] == queues[k]
    decreases |queues| - i
  {
    if i < |queues| && Pop(queues[i], now).1 == Idle {
      PollFrame(queues[i := Pop(queues[i], now).0], i + 1, now, k);
    }
  }

  lemma {:induction false} PollNothing(queues: seq<Tracked>, i: nat, now: int, k: nat)
    requires i <= k < |queues|
    requires Poll(queues, i, now).1 == None
    ensures Pop(queues[k], now).1 == Idle && Poll(queues, i, now).0[k] == Pop(queues[k], now).0
    decreases |queues| - i
  {
    var (y, o) := Pop(queues[i], now);
    assert o == Idle;
    if k == i {
      PollFrame(queues[i := y], i + 1, now, k);
    } else {
      PollNothing(queues[i := y], i + 1, now, k);
    }
  }

  /** A call returns nothing only when every queue that needs no flow control is empty and every
      market is empty or its head is too big for what is left of the window. */
  lemma NothingOnlyWhenBlocked(cfg: Config, s: FlowState, clock: int, now: int)
    requires Wired(cfg, s) && AllInv(s.queues, clock) && clock <= now
    ensures var (t, p) := TryPop(cfg, s, now);
            p == Gave(None) ==>
              && t.broker == [] && t.normal == []
              && forall i | 0 <= i < |t.queues| :: Blocked(t.queues[i])
  {
    DrainKeeps(cfg, s, now);
    DrainStops(cfg, s);
    var d := Drain(cfg, s).0;
    var (t, p) := TryPop(cfg, s, now);
    if p == Gave(None) {
      forall i | 0 <= i < |t.queues| ensures Blocked(t.queues[i]) {
        PollNothing(d.queues, 0, now, i);
        IdleOnlyWhenBlocked(d.queues[i], now);
      }
    }
  }

  /** No queue released anything after `last`. */
  ghost predicate AllSentBy(queues: seq<Tracked>, last: int) {
    forall i, k | 0 <= i < |queues| && 0 <= k < |queues[i].trail.sends| :: queues[i].trail.sends[k] <= last
  }

  const ALL: Request -> bool := _ => true

  lemma {:induction false} CountAll(reqs: seq<Request>, msgs: seq<BrokerMsg>, items: seq<FlowItem>)
    ensures Times(ALL, reqs) == |reqs| && TimesIn(ALL, msgs) == |msgs| && TimesQueued(ALL, items) == |items|
    decreases |reqs| + |msgs| + |items|
  {
    if reqs != [] {
      CountAll(reqs[..|reqs| - 1], msgs, items);
    } else if msgs != [] {
      CountAll(reqs, msgs[..|msgs| - 1], items);
    } else if items != [] {
      CountAll(reqs, msgs, items[..|items| - 1]);
    }
  }

  /** Acceptance and routing release nothing. */
  lemma {:induction false} DrainKeepsSends(cfg: Config, s: FlowState)
    requires Wired(cfg, s)
    ensures forall i | 0 <= i < |s.queues| ::
              Drain(cfg, s).0.queues[i].trail.sends == s.queues[i].trail.sends
    decreases |s.broker|
  {
    if s.broker != [] {
      var route := RouteOf(cfg, s.broker[0]);
      if route != Throws {
        DrainKeepsSends(cfg, Deliver(s.(broker := s.broker[1..]), route));
      }
    }
  }

  lemma {:induction false} EmptyQueuesHoldNothing(queues: seq<Tracked>)
    requires forall i | 0 <= i < |queues| :: queues[i].q.flow == [] && queues[i].q.normal == []
    ensures InQueues(ALL, queues) == 0
  {
    if queues != [] {
      EmptyQueuesHoldNothing(queues[..|queues| - 1]);
    }
  }

  lemma {:induction false} NothingInQueues(queues: seq<Tracked>, i: nat)
    requires i < |queues| && InQueues(ALL, queues) == 0
    ensures queues[i].q.flow == [] && queues[i].q.normal == []
  {
    if i < |queues| - 1 {
      NothingInQueues(queues[..|queues| - 1], i);
    } else {
      CountAll([], queues[i].q.normal, queues[i].q.flow);
    }
  }

  /** Nothing is in flight exactly when every queue is empty. */
  lemma EmptyMeansEmpty(s: FlowState)
    ensures InFlight(ALL, s) == 0 <==>
            && s.broker == [] && s.normal == []
            && forall i | 0 <= i < |s.queues| :: s.queues[i].q.flow == [] && s.queues[i].q.normal == []
  {
    CountAll(s.broker, s.normal, []);
    if InFlight(ALL, s) == 0 {
      forall i | 0 <= i < |s.queues| ensures s.queues[i].q.flow == [] && s.queues[i].q.normal == [] {
        NothingInQueues(s.queues, i);
      }
    }
    if forall i | 0 <= i < |s.queues| :: s.queues[i].q.flow == [] && s.queues[i].q.normal == [] {
      EmptyQueuesHoldNothing(s.queues);
    }
  }

  /** A window after the last release a call takes out a message if there is one: it is returned, or lost
      because its number does not parse. */
  lemma QuietCallGives(cfg: Config, s: FlowState, clock: int, last: int, now: int)
    requires Wired(cfg, s) && AllInv(s.queues, clock) && clock <= now
    requires AllSentBy(s.queues, last) && now - last > WINDOW_MS
    ensures TryPop(cfg, s, now).1 == Gave(None) <==> InFlight(ALL, s) == 0
    ensures InFlight(ALL, s) == InFlight(ALL, TryPop(cfg, s, now).0) + One(InFlight(ALL, s) > 0)
  {
    DrainKeepsSends(cfg, s);
    DrainKeeps(cfg, s, now);
    DrainStops(cfg, s);
    TryPopConserves(ALL, cfg, s, now);
    DrainConserves(ALL, cfg, s);
    var d := Drain(cfg, s).0;
    if TryPop(cfg, s, now).1 == Gave(None) {
      forall i | 0 <= i < |d.queues| ensures d.queues[i].q.flow == [] && d.queues[i].q.normal == [] {
        PollNothing(d.queues, 0, now, i);
        QuietQueueGives(d.queues[i], now);
      }
      EmptyQueuesHoldNothing(d.queues);
    }
  }

  /** A call that gives nothing releases nothing, and after any call the last release is no later. */
  lemma CallBoundsSends(cfg: Config, s: FlowState, clock: int, last: int, now: int)
    requires Wired(cfg, s) && AllInv(s.queues, clock) && clock <= now && AllSentBy(s.queues, last)
    ensures AllSentBy(TryPop(cfg, s, now).0.queues, if TryPop(cfg, s, now).1 == Gave(None) then last else now)
  {
    var (t, p) := TryPop(cfg, s, now);
    TryPopKeeps(cfg, s, clock, now);
    if p == Gave(None) {
      DrainKeepsSends(cfg, s);
      var d := Drain(cfg, s).0;
      forall i | 0 <= i < |t.queues| ensures t.queues[i].trail.sends == s.queues[i].trail.sends {
        PollNothing(d.queues, 0, now, i);
      }
    } else {
      forall i | 0 <= i < |t.queues| ensures Inv(t.queues[i]) && t.queues[i].trail.clock <= now {}
    }
  }

  /** How many calls come more than a window after `last` and after each other, taking the first that
      does each time. The calls between them count for nothing. */
  function Windows(last: int, events: seq<Event>): nat
    decreases |events|
  {
    if events == [] then 0
    else if events[0].Call? && events[0].now - last > WINDOW_MS then 1 + Windows(events[0].now, events[1..])
    else Windows(last, events[1..])
  }

  /** A release costs at most one window. */
  lemma {:induction false} WindowsFrom(last: int, time: int, events: seq<Event>)
    requires last <= time && Clocked(time, events)
    ensures Windows(time, events) <= Windows(last, events) <= Windows(time, events) + 1
    decreases |events|
  {
    if events != [] {
      var e, rest := events[0], events[1..];
      if e.Call? && e.now - last > WINDOW_MS && e.now - time <= WINDOW_MS {
        WindowsFrom(time, e.now, rest);
      } else if !e.Call? || e.now - last <= WINDOW_MS {
        ClockedFrom(time, events);
        WindowsFrom(last, time, rest);
      }
    }
  }

  lemma ClockedFrom(clock: int, events: seq<Event>)
    requires events != [] && Clocked(clock, events)
    ensures Clocked(clock, events[1..])
  {
    EarlierClock(clock, if events[0].Call? then events[0].now else clock, events[1..]);
  }

  lemma {:induction false} EarlierClock(earlier: int, clock: int, events: seq<Event>)
    requires earlier <= clock && Clocked(clock, events)
    ensures Clocked(earlier, events)
    decreases |events|
  {
    if events != [] && events[0].Arrive? {
      EarlierClock(earlier, clock, events[1..]);
    }
  }

  /** What has left for good. */
  function Served(l: Ledger): nat {
    |l.returned| + |l.lost|
  }

  function Least(a: nat, b: nat): nat {
    if a <= b then a else b
  }

  lemma CallServes(cfg: Config, l: Ledger, now: int)
    requires Wired(cfg, l.s)
    ensures var m, none := Step(cfg, l, Call(now)), TryPop(cfg, l.s, now).1 == Gave(None);
            && Served(m) == Served(l) + One(!none)
            && InFlight(ALL, l.s) == InFlight(ALL, m.s) + One(!none)
  {
    TryPopConserves(ALL, cfg, l.s, now);
  }

  lemma ArrivalWaits(cfg: Config, l: Ledger, req: Request)
    requires Wired(cfg, l.s)
    ensures InFlight(ALL, Step(cfg, l, Arrive(req)).s) == InFlight(ALL, l.s) + 1
  {
    TimesPush(ALL, l.s.broker, req);
  }

  /** A call either serves one message or, with something in flight, comes within a window of `last`. */
  lemma CallProgress(cfg: Config, l: Ledger, last: int, now: int)
    requires Wired(cfg, l.s) && AllInv(l.s.queues, l.clock) && l.clock <= now && AllSentBy(l.s.queues, last)
    ensures var m := Step(cfg, l, Call(now));
            && (Served(m) == Served(l) || Served(m) == Served(l) + 1)
            && Served(m) + InFlight(ALL, m.s) == Served(l) + InFlight(ALL, l.s)
            && AllSentBy(m.s.queues, if Served(m) == Served(l) then last else now)
            && (now - last > WINDOW_MS && InFlight(ALL, l.s) > 0 ==> Served(m) > Served(l))
  {
    CallServes(cfg, l, now);
    CallBoundsSends(cfg, l.s, l.clock, last, now);
    if now - last > WINDOW_MS {
      QuietCallGives(cfg, l.s, l.clock, last, now);
    }
  }

  /** Progress under polling: whatever calls and arrivals come in between, every window serves one
      message, as long as there were messages to serve at the start; and no call serves two. */
  lemma {:induction false} RunServes(cfg: Config, l: Ledger, last: int, events: seq<Event>)
    requires Wired(cfg, l.s) && AllInv(l.s.queues, l.clock) && LostUnroutable(l) && Clocked(l.clock, events)
    requires last <= l.clock && AllSentBy(l.s.queues, last)
    ensures Served(Run(cfg, l, events)) >= Served(l) + Least(InFlight(ALL, l.s), Windows(last, events))
    ensures Served(Run(cfg, l, events)) <= Served(l) + |events|
    decreases |events|
  {
    if events != [] {
      var e, rest := events[0], events[1..];
      var m := Step(cfg, l, e);
      StepKeeps(cfg, l, e);
      if e.Arrive? {
        ArrivalWaits(cfg, l, e.req);
        RunServes(cfg, m, last, rest);
      } else {
        CallProgress(cfg, l, last, e.now);
        WindowsFrom(last, e.now, rest);
        RunServes(cfg, m, if Served(m) == Served(l) then last else e.now, rest);
      }
    }
  }

  ghost predicate OnlyCalls(events: seq<Event>) {
    forall e | e in events :: e.Call?
  }

  lemma {:induction false} CallsBringNothing(cfg: Config, l: Ledger, events: seq<Event>)
    requires Wired(cfg, l.s) && OnlyCalls(events)
    ensures Run(cfg, l, events).arrived == l.arrived
    decreases |events|
  {
    if events != [] {
      assert events[0] in events && forall e | e in events[1..] :: e in events;
      CallsBringNothing(cfg, Step(cfg, l, events[0]), events[1..]);
    }
  }

  /** Calls alone, as often as one likes, take out at least one message a window until every queue is
      empty, and at most one message each. */
  lemma PollingDrains(cfg: Config, l: Ledger, last: int, events: seq<Event>)
    requires Wired(cfg, l.s) && AllInv(l.s.queues, l.clock) && LostUnroutable(l) && Clocked(l.clock, events)
    requires last <= l.clock && AllSentBy(l.s.queues, last) && Conserved(l) && OnlyCalls(events)
    ensures var before, after := InFlight(ALL, l.s), InFlight(ALL, Run(cfg, l, events).s);
            before - |events| <= after <= before - Least(before, Windows(last, events))
  {
    var m := Run(cfg, l, events);
    RunServes(cfg, l, last, events);
    RunConserves(cfg, l, events);
    CallsBringNothing(cfg, l, events);
    assert Times(ALL, l.arrived) == TimesIn(ALL, l.returned) + Times(ALL, l.lost) + InFlight(ALL, l.s);
    assert Times(ALL, m.arrived) == TimesIn(ALL, m.returned) + Times(ALL, m.lost) + InFlight(ALL, m.s);
    CountAll(l.arrived, l.returned, []);
    CountAll(l.lost, [], []);
    CountAll([], m.returned, []);
    CountAll(m.lost, [], []);
  }

  /** A last call a window after the last release before the calls is enough for one message. */
  lemma {:induction false} LateCallIsAWindow(last: int, clock: int, events: seq<Event>)
    requires events != [] && Clocked(clock, events)
    requires events[|events| - 1].Call? && events[|events| - 1].now - last > WINDOW_MS
    ensures Windows(last, events) >= 1
    decreases |events|
  {
    if |events| > 1 {
      assert events[1..][|events| - 2] == events[|events| - 1];
      LateCallIsAWindow(last, if events[0].Call? then events[0].now else clock, events[1..]);
    }
  }

  /** Whatever calls came before it, once a call comes more than a window after the last release before
      them, they have together taken out a message, if there was one. */
  lemma PollingGives(cfg: Config, l: Ledger, last: int, events: seq<Event>)
    requires Wired(cfg, l.s) && AllInv(l.s.queues, l.clock) && LostUnroutable(l) && Clocked(l.clock, events)
    requires last <= l.clock && AllSentBy(l.s.queues, last) && Conserved(l) && OnlyCalls(events)
    requires events != [] && events[|events| - 1].Call? && events[|events| - 1].now - last > WINDOW_MS
    ensures var before := InFlight(ALL, l.s); InFlight(ALL, Run(cfg, l, events).s) <= before - One(before > 0)
  {
    PollingDrains(cfg, l, last, events);
    LateCallIsAWindow(last, l.clock, events);
  }
}

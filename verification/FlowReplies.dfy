/** What flow control answers, said of the requests: which error means what, whose turn it is, and who is given
    up. */
module FlowReplies {
  import opened Options
  import opened Trading
  import opened FlowMessages
  import opened MarketLimiter
  import opened FlowRouting
  import opened FlowRuns
  import opened MarketVisits
  import opened MarketRates
  import opened Validation
  import opened FlowOrder
  import StableOrder

  // ---- Which error means what ----

  /** The market a request is for and how many commands it makes; none if its number does not parse, or if it is
      for no market. */
  function MarketAndSize(cfg: Config, req: Request): Option<(int, nat)> {
    match req
    case OrderRequest(_, _, _, _, lines) =>
      if lines == [] then Some((0, 0))
      else Some((if lines[0].market > 0 then lines[0].market else cfg.codeToMarket(lines[0].code), |lines|))
    case WithdrawRequest(_, _, _) => WithdrawTarget(req)
    case OtherRequest(_, _) => None
  }

  /** A request whose market has a queue. A withdrawal must name a positive market. */
  predicate Queued(cfg: Config, req: Request) {
    && MarketAndSize(cfg, req).Some?
    && MarketAndSize(cfg, req).value.0 in cfg.route
    && (req.WithdrawRequest? ==> MarketAndSize(cfg, req).value.0 > 0)
  }

  /** More commands than the limit of the market ever lets out at once. */
  ghost predicate NeverFits(cfg: Config, limits: seq<Limits>, req: Request)
    requires Queued(cfg, req)
  {
    var (market, size) := MarketAndSize(cfg, req).value;
    cfg.route[market] < |limits| && 0 < limits[cfg.route[market]].tps < size
  }

  /** A request for a market without a queue. */
  predicate Unserved(cfg: Config, req: Request) {
    && MarketAndSize(cfg, req).Some?
    && MarketAndSize(cfg, req).value.0 !in cfg.route
    && (req.WithdrawRequest? ==> MarketAndSize(cfg, req).value.0 > 0)
  }

  /** What an answer says of its request. */
  ghost predicate Answers(cfg: Config, limits: seq<Limits>, msg: BrokerMsg) {
    var req := msg.request;
    match msg.error
    case None =>
      || req.OtherRequest?
      || (Queued(cfg, req) && !NeverFits(cfg, limits, req))
      || (Unserved(cfg, req) && MarketAndSize(cfg, req).value.0 !in cfg.required)
    case Some(NoConfig) => Unserved(cfg, req) && MarketAndSize(cfg, req).value.0 in cfg.required
    case Some(NonStandardNumber) =>
      req.WithdrawRequest? && MarketAndSize(cfg, req).Some? && MarketAndSize(cfg, req).value.0 <= 0
    case Some(BatchTooLarge) => Queued(cfg, req) && NeverFits(cfg, limits, req)
    case Some(TimeoutError) => req.OrderRequest? && Queued(cfg, req) && !NeverFits(cfg, limits, req)
    case Some(DailyLimitError) => Queued(cfg, req) && !NeverFits(cfg, limits, req)
  }

  lemma RoutedIsQueued(cfg: Config, limits: seq<Limits>, req: Request)
    requires RouteOf(cfg, req).ToQueue? && RouteOf(cfg, req).index < |limits|
    ensures Queued(cfg, req)
    ensures NeverFits(cfg, limits, req) <==> TooLarge(limits[RouteOf(cfg, req).index], RouteOf(cfg, req).item)
  {}

  ghost predicate QueueAnswers(cfg: Config, limits: seq<Limits>, x: Tracked, i: nat) {
    QueuePlaced(cfg, x, i) && forall msg | msg in x.q.normal :: Answers(cfg, limits, msg)
  }

  ghost predicate AllAnswer(cfg: Config, limits: seq<Limits>, s: FlowState) {
    && HasLimits(s.queues, limits)
    && (forall i | 0 <= i < |s.queues| :: QueueAnswers(cfg, limits, s.queues[i], i))
    && (forall msg | msg in s.normal :: Answers(cfg, limits, msg) && msg.error != Some(TimeoutError))
  }

  lemma DeliverAnswers(cfg: Config, limits: seq<Limits>, s: FlowState, req: Request)
    requires Wired(cfg, s) && AllAnswer(cfg, limits, s) && RouteOf(cfg, req) != Throws
    ensures AllAnswer(cfg, limits, Deliver(s, RouteOf(cfg, req)))
  {
    var route := RouteOf(cfg, req);
    RouteKeepsRequest(cfg, req);
    if route.ToQueue? {
      RoutedIsQueued(cfg, limits, req);
      assert QueueAnswers(cfg, limits, s.queues[route.index], route.index);
      assert QueueAnswers(cfg, limits, Accept(s.queues[route.index], route.item), route.index);
    }
  }

  lemma {:induction false} DrainAnswers(cfg: Config, limits: seq<Limits>, s: FlowState)
    requires Wired(cfg, s) && AllAnswer(cfg, limits, s)
    ensures AllAnswer(cfg, limits, Drain(cfg, s).0)
    decreases |s.broker|
  {
    if s.broker != [] {
      var req, t := s.broker[0], s.(broker := s.broker[1..]);
      if RouteOf(cfg, req) != Throws {
        DeliverAnswers(cfg, limits, t, req);
        DrainAnswers(cfg, limits, Deliver(t, RouteOf(cfg, req)));
      }
    }
  }

  /** An order that was given up had reached its timeout, or would have a second for every full limit of commands
      that still wait. */
  ghost predicate GivenUpJustly(cfg: Config, x: Tracked, msg: BrokerMsg, now: int) {
    msg.error == Some(TimeoutError) ==>
      && msg.request.OrderRequest? && Allowance(cfg, msg.request) > 0
      && var age, ahead := now - msg.request.timestamp, SumSizes(x.trail.waiting);
         || AtLeast(age, Allowance(cfg, msg.request))
         || (x.q.limits.tps > 0 && AtLeast(age + ahead / x.q.limits.tps * 1000, Allowance(cfg, msg.request)))
  }

  /** The timeout configured, or the order's own if that is shorter. */
  function Allowance(cfg: Config, req: Request): int
    requires req.OrderRequest?
  {
    if req.timeout > 0 && req.timeout <= cfg.requestTimeout then req.timeout else cfg.requestTimeout
  }

  lemma {:induction false} SizesWithout(w: seq<FlowItem>, k: nat)
    requires k < |w|
    ensures SumSizes(StableOrder.Without(w, k)) == SumSizes(w) - w[k].cmdSize
  {
    var n := |w| - 1;
    if k < n {
      SizesWithout(w[..n], k);
      assert StableOrder.Without(w, k)[..n - 1] == StableOrder.Without(w[..n], k);
    } else {
      assert StableOrder.Without(w, k) == w[..n];
    }
  }

  lemma ItemAnswers(cfg: Config, limits: seq<Limits>, item: FlowItem, i: nat)
    requires i < |limits| && RouteOf(cfg, item.msg.request) == ToQueue(i, item) && !TooLarge(limits[i], item)
    ensures Answers(cfg, limits, item.msg) && Answers(cfg, limits, ErrorReply(item.msg, DailyLimitError))
    ensures item.priority != PRIORITY_WITHDRAW ==> Answers(cfg, limits, ErrorReply(item.msg, TimeoutError))
  {
    RoutedIsQueued(cfg, limits, item.msg.request);
    RoutedItem(cfg, item.msg.request);
  }

  lemma PopKeepsAnswers(cfg: Config, limits: seq<Limits>, x: Tracked, i: nat, now: int)
    requires Inv(x) && QueueAnswers(cfg, limits, x, i)
    ensures QueueAnswers(cfg, limits, Pop(x, now).0, i)
    ensures Pop(x, now).1.Passed? ==> Pop(x, now).1.msg in x.q.normal
  {
    PopTakesOne(x, now);
    PopPlaces(cfg, x, i, now);
  }

  /** What a visit returns answers its request. */
  lemma PopAnswers(cfg: Config, limits: seq<Limits>, x: Tracked, i: nat, now: int)
    requires i < |limits| && x.q.limits == limits[i] && Inv(x) && QueueAnswers(cfg, limits, x, i)
    ensures var ret := Returned(Pop(x, now).1); ret.Some? ==> Answers(cfg, limits, ret.value)
  {
    var o := Pop(x, now).1;
    PopTakes(cfg, x, i, now);
    PopKeepsAnswers(cfg, limits, x, i, now);
    if !o.Idle? && !o.Passed? {
      LeavingFits(x, now);
      NothingLateIsReleased(x, now);
      ItemAnswers(cfg, limits, o.item, i);
    }
  }

  /** Late by its own age, or by that and a second for every full limit of commands that still wait. */
  predicate WasLate(y: Tracked, item: FlowItem, now: int) {
    && item.priority != PRIORITY_WITHDRAW && item.timeout > 0
    && var age := now - item.timestamp;
       || AtLeast(age, item.timeout)
       || (y.q.limits.tps > 0 && AtLeast(age + SumSizes(y.trail.waiting) / y.q.limits.tps * 1000, item.timeout))
  }

  lemma LateWasLate(x: Tracked, y: Tracked, o: Outcome, now: int)
    requires TakesOne(x, y, o) && y.q.limits == x.q.limits
    requires o.Expired? ==> Late(o.item, now)
    requires o.Evicted? ==> TooLongQueued(x.q.limits, x.trail, o.item, now)
    ensures o.Expired? || o.Evicted? ==> WasLate(y, o.item, now)
  {
    if o.Evicted? {
      SizesWithout(x.trail.waiting, StableOrder.LastSmallest(x.trail.waiting));
    }
  }

  lemma GivenUpInHistory(x: Tracked, now: int)
    requires Inv(x) && x.trail.clock <= now
    ensures var (y, o) := Pop(x, now); o.Expired? || o.Evicted? ==> WasLate(y, o.item, now)
  {
    PopTakesOne(x, now);
    VisitExactly(x, now);
    var (y, o) := Pop(x, now);
    LateWasLate(x, y, o, now);
  }

  lemma LateIsJust(cfg: Config, item: FlowItem, i: nat, y: Tracked, now: int)
    requires RouteOf(cfg, item.msg.request) == ToQueue(i, item) && WasLate(y, item, now)
    ensures GivenUpJustly(cfg, y, ErrorReply(item.msg, TimeoutError), now)
  {
    RoutedItem(cfg, item.msg.request);
  }

  lemma NotGivenUp(cfg: Config, y: Tracked, msg: BrokerMsg, now: int)
    requires msg.error != Some(TimeoutError)
    ensures GivenUpJustly(cfg, y, msg, now)
  {}

  /** A visit gives up nobody too early. */
  lemma PopGivesUpJustly(cfg: Config, x: Tracked, i: nat, now: int)
    requires Inv(x) && x.trail.clock <= now && QueuePlaced(cfg, x, i)
    ensures var (y, o) := Pop(x, now); Returned(o).Some? ==> GivenUpJustly(cfg, y, Returned(o).value, now)
  {
    var (y, o) := Pop(x, now);
    PopTakes(cfg, x, i, now);
    GivenUpInHistory(x, now);
    if o.Expired? || o.Evicted? {
      LateIsJust(cfg, o.item, i, y, now);
    } else if o != Idle {
      NotGivenUp(cfg, y, Returned(o).value, now);
    }
  }

  /** What leaves a queue was no larger than its limit. */
  lemma LeavingFits(x: Tracked, now: int)
    requires Inv(x)
    ensures var o := Pop(x, now).1; !o.Idle? && !o.Passed? ==> !TooLarge(x.q.limits, o.item)
  {
    LeavesInStableOrder(x, now);
    StableOrder.SortPermutes(x.q.flow);
    StableOrder.SortPermutes(x.trail.waiting);
    var o, w := Pop(x, now).1, x.trail.waiting;
    if !o.Idle? && !o.Passed? {
      assert o.item in multiset(w);
      assert o.item in x.q.flow;
    }
  }

  ghost predicate QueuesAnswer(cfg: Config, limits: seq<Limits>, queues: seq<Tracked>) {
    HasLimits(queues, limits) && forall i | 0 <= i < |queues| :: QueueAnswers(cfg, limits, queues[i], i)
  }

  /** An answer that fits its request and, if it gives an order up, does so after the order's time; `queues` are
      those it leaves behind. */
  ghost predicate RightAnswer(cfg: Config, limits: seq<Limits>, queues: seq<Tracked>, msg: BrokerMsg, now: int) {
    && Answers(cfg, limits, msg)
    && (msg.error == Some(TimeoutError) ==>
          var market := MarketAndSize(cfg, msg.request).value.0;
          cfg.route[market] < |queues| && GivenUpJustly(cfg, queues[cfg.route[market]], msg, now))
  }

  lemma VisitAnswers(cfg: Config, limits: seq<Limits>, queues: seq<Tracked>, i: nat, now: int)
    requires i < |queues| && AllInv(queues, now) && QueuesAnswer(cfg, limits, queues)
    ensures var (y, o) := Pop(queues[i], now);
            && QueuesAnswer(cfg, limits, queues[i := y])
            && (o != Idle ==> RightAnswer(cfg, limits, queues[i := y], Returned(o).value, now))
  {
    var (y, o) := Pop(queues[i], now);
    PopFrame(queues[i], now);
    PopKeepsAnswers(cfg, limits, queues[i], i, now);
    PopAnswers(cfg, limits, queues[i], i, now);
    PopGivesUpJustly(cfg, queues[i], i, now);
    PopTakes(cfg, queues[i], i, now);
    if !o.Idle? && !o.Passed? {
      RoutedIndex(cfg, o.item.msg.request);
    }
  }

  lemma RoutedIndex(cfg: Config, req: Request)
    requires RouteOf(cfg, req).ToQueue?
    ensures Queued(cfg, req) && RouteOf(cfg, req).index == cfg.route[MarketAndSize(cfg, req).value.0]
  {}

  lemma {:induction false} PollAnswers(cfg: Config, limits: seq<Limits>, queues: seq<Tracked>, i: nat, now: int)
    requires i <= |queues| && AllInv(queues, now) && QueuesAnswer(cfg, limits, queues)
    ensures var (after, ret) := Poll(queues, i, now);
            && QueuesAnswer(cfg, limits, after)
            && (ret.Some? ==> RightAnswer(cfg, limits, after, ret.value, now))
    decreases |queues| - i
  {
    if i < |queues| {
      PollStep(queues, i, now);
      VisitAnswers(cfg, limits, queues, i, now);
      if Pop(queues[i], now).1 == Idle {
        PopInAll(queues, i, now);
        PollAnswers(cfg, limits, queues[i := Pop(queues[i], now).0], i + 1, now);
      }
    }
  }

  lemma GiveAnswers(cfg: Config, limits: seq<Limits>, d: FlowState, now: int)
    requires AllAnswer(cfg, limits, d) && AllInv(d.queues, now)
    ensures var (t, ret) := Give(d, now);
            && AllAnswer(cfg, limits, t)
            && (ret.Some? ==> RightAnswer(cfg, limits, t.queues, ret.value, now))
  {
    PollAnswers(cfg, limits, d.queues, 0, now);
    if d.normal != [] {
      assert d.normal[0] in d.normal && forall msg | msg in d.normal[1..] :: msg in d.normal;
    }
  }

  lemma CallAnswers(cfg: Config, limits: seq<Limits>, s: FlowState, now: int)
    requires Wired(cfg, s) && AllAnswer(cfg, limits, s) && AllInv(s.queues, now)
    ensures var (t, p) := TryPop(cfg, s, now);
            && AllAnswer(cfg, limits, t)
            && (p.Gave? && p.ret.Some? ==> RightAnswer(cfg, limits, t.queues, p.ret.value, now))
  {
    DrainKeeps(cfg, s, now);
    DrainAnswers(cfg, limits, s);
    GiveAnswers(cfg, limits, Drain(cfg, s).0, now);
  }

  // ---- Runs ----

  lemma StepAnswers(cfg: Config, limits: seq<Limits>, l: Ledger, e: FlowRouting.Event)
    requires Wired(cfg, l.s) && AllAnswer(cfg, limits, l.s) && AllInv(l.s.queues, l.clock)
    requires e.Call? ==> l.clock <= e.now
    ensures var m := FlowRouting.Step(cfg, l, e);
            && AllAnswer(cfg, limits, m.s) && AllInv(m.s.queues, m.clock)
            && m.clock == if e.Call? then e.now else l.clock
  {
    if e.Call? {
      AllLater(l.s.queues, l.clock, e.now);
      CallAnswers(cfg, limits, l.s, e.now);
      TryPopKeeps(cfg, l.s, l.clock, e.now);
    }
  }

  lemma {:induction false} RunAnswers(cfg: Config, limits: seq<Limits>, l: Ledger, events: seq<FlowRouting.Event>)
    requires Wired(cfg, l.s) && AllAnswer(cfg, limits, l.s) && AllInv(l.s.queues, l.clock)
    requires FlowRouting.Clocked(l.clock, events)
    ensures var m := FlowRouting.Run(cfg, l, events);
            Wired(cfg, m.s) && AllAnswer(cfg, limits, m.s) && AllInv(m.s.queues, m.clock)
    decreases |events|
  {
    if events != [] {
      StepAnswers(cfg, limits, l, events[0]);
      RunAnswers(cfg, limits, FlowRouting.Step(cfg, l, events[0]), events[1..]);
    }
  }

  lemma StartAnswers(cfg: Config, queues: seq<Tracked>, clock: int)
    requires AllStarting(queues, clock)
    ensures AllAnswer(cfg, LimitsOf(queues), StartLedger(queues, clock).s)
  {
    StartIsPlaced(cfg, queues, clock);
    forall i | 0 <= i < |queues| ensures queues[i].q.normal == [] {
      assert Starting(queues[i], clock);
    }
  }

  /** At every point of every run, a call answers a request with an error exactly as its market, its size and its
      number demand, and gives an order up only once its time has come. */
  lemma AnswersAreRight(cfg: Config, queues: seq<Tracked>, clock: int, events: seq<FlowRouting.Event>, now: int)
    requires Wired(cfg, FlowState([], queues, [])) && AllStarting(queues, clock)
    requires FlowRouting.Clocked(clock, events)
    ensures var l := FlowRouting.Run(cfg, StartLedger(queues, clock), events);
            && Wired(cfg, l.s)
            && var (t, p) := TryPop(cfg, l.s, now);
               l.clock <= now && p.Gave? && p.ret.Some? ==>
                 RightAnswer(cfg, LimitsOf(queues), t.queues, p.ret.value, now)
  {
    StartAnswers(cfg, queues, clock);
    StartHolds(queues, clock);
    RunAnswers(cfg, LimitsOf(queues), StartLedger(queues, clock), events);
    var l := FlowRouting.Run(cfg, StartLedger(queues, clock), events);
    if l.clock <= now {
      AllLater(l.s.queues, l.clock, now);
      CallAnswers(cfg, LimitsOf(queues), l.s, now);
    }
  }

  /** Orders that passed their check against the limits of their markets are never refused as too large. */
  lemma CheckedOrdersFit(ex: Exchange, cfg: Config, limits: seq<Limits>, req: Request)
    requires req.OrderRequest? && Checked(ex, req) && cfg.codeToMarket == ex.codeToMarket
    requires Queued(cfg, req)
    requires forall m | m in cfg.route && cfg.route[m] < |limits| && 0 < limits[cfg.route[m]].tps ::
               && (m == ex.sh ==> 0 < ex.shLimit <= limits[cfg.route[m]].tps)
               && (m == ex.sz && m != ex.sh ==> 0 < ex.szLimit <= limits[cfg.route[m]].tps)
    ensures MarketAndSize(cfg, req).value.0 == ex.sh || MarketAndSize(cfg, req).value.0 == ex.sz ==>
              !NeverFits(cfg, limits, req)
  {
    var given :| Acceptable(ex, req.bsFlag, given) && |req.lines| == |given|
                 && forall i | 0 <= i < |given| :: req.lines[i] == Filled(ex, given[i]);
    assert req.lines[0] == Filled(ex, given[0]);
  }

  /** A withdrawal that names nothing is refused for its number. */
  lemma UnnumberedIsRefused(cfg: Config, id: nat)
    ensures var req := WithdrawRequest(id, "", "");
            RouteOf(cfg, req) == ToNormal(BrokerMsg(req, Some(NonStandardNumber)))
  {}

  // ---- Whose turn it is ----

  /** Withdrawals come before creations and redemptions, and those before all other orders. */
  function Class(req: Request): int {
    if req.WithdrawRequest? then 3
    else if req.OrderRequest? && (req.bsFlag == Create || req.bsFlag == Redeem) then 2
    else 1
  }

  function Sum(lines: seq<OrderLine>): real {
    if lines == [] then 0.0 else lines[0].price * lines[0].volume as real + Sum(lines[1..])
  }

  /** Among other orders the amount counts, in all other classes nothing. */
  function Worth(req: Request): real {
    if req.OrderRequest? && Class(req) == 1 then Sum(req.lines) else 0.0
  }

  lemma {:induction false} SumFront(lines: seq<OrderLine>, line: OrderLine)
    ensures Sum(lines + [line]) == Sum(lines) + line.price * line.volume as real
  {
    if lines == [] {
      assert [line][1..] == [];
    } else {
      assert (lines + [line])[1..] == lines[1..] + [line];
      SumFront(lines[1..], line);
    }
  }

  lemma {:induction false} SumIsAmount(lines: seq<OrderLine>)
    ensures Sum(lines) == Amount(lines)
  {
    if lines != [] {
      var n := |lines| - 1;
      SumIsAmount(lines[..n]);
      SumFront(lines[..n], lines[n]);
      assert lines == lines[..n] + [lines[n]];
    }
  }

  predicate Bounded(req: Request) {
    0.0 <= Worth(req) < 100000000.0
  }

  lemma KeyIsClass(cfg: Config, req: Request)
    requires RouteOf(cfg, req).ToQueue?
    ensures KeyOf(cfg, req) == (Class(req) * 100000000) as real + Worth(req)
  {
    if req.OrderRequest? {
      SumIsAmount(req.lines);
    }
  }

  lemma KeysCompare(cfg: Config, a: Request, b: Request)
    requires RouteOf(cfg, a).ToQueue? && RouteOf(cfg, b).ToQueue? && Bounded(a) && Bounded(b)
    ensures KeyOf(cfg, a) <= KeyOf(cfg, b) <==> Class(a) < Class(b) || (Class(a) == Class(b) && Worth(a) <= Worth(b))
  {
    KeyIsClass(cfg, a);
    KeyIsClass(cfg, b);
    assert Class(a) < Class(b) ==> Class(a) + 1 <= Class(b);
  }

  /** At every point of every run, if a call returns a message of a market's queue and does not give it up: of
      those that arrived for that queue and were not returned, none is of a higher class, and none of its class is
      of larger worth. */
  lemma HighestClassIsServed(cfg: Config, queues: seq<Tracked>, clock: int, events: seq<FlowRouting.Event>, now: int,
                             other: nat)
    requires Wired(cfg, FlowState([], queues, [])) && AllStarting(queues, clock)
    requires FlowRouting.Clocked(clock, events) && NoRepeats(Arrivals(events))
    requires forall r | r in Arrivals(events) :: Bounded(r)
    ensures var l := FlowRouting.Run(cfg, StartLedger(queues, clock), events);
            && Wired(cfg, l.s) && l.arrived == Arrivals(events)
            && var ret := ReturnOf(TryPop(cfg, l.s, now).1);
               l.clock <= now && ret.Some? && ret.value.error != Some(TimeoutError) && other < |l.arrived| ==>
                 var limits, a, b := LimitsOf(queues), l.arrived[other], ret.value.request;
                 LineOf(cfg, limits, b).Some? && LineOf(cfg, limits, b).value.Waiting?
                 && LineOf(cfg, limits, a) == LineOf(cfg, limits, b) && a !in Gone(l.returned) ==>
                   Class(a) < Class(b) || (Class(a) == Class(b) && Worth(a) <= Worth(b))
  {
    var limits := LimitsOf(queues);
    StartIsOrdered(cfg, queues, clock);
    assert [] + Arrivals(events) == Arrivals(events);
    RunIsFair(cfg, limits, StartLedger(queues, clock), events);
    var l := FlowRouting.Run(cfg, StartLedger(queues, clock), events);
    var ret := ReturnOf(TryPop(cfg, l.s, now).1);
    if l.clock <= now && ret.Some? && ret.value.error != Some(TimeoutError) && other < |l.arrived| {
      var took, k := CallKeepsInTurn(cfg, limits, l, now);
      var a, b := l.arrived[other], ret.value.request;
      if took.Waiting? && LineOf(cfg, limits, a) == LineOf(cfg, limits, b) && a !in Gone(l.returned) {
        TurnByClass(cfg, limits, l, took, k, ret.value, a);
      }
    }
  }

  lemma TurnByClass(cfg: Config, limits: seq<Limits>, l: Ledger, took: Line, k: nat, msg: BrokerMsg, a: Request)
    requires Ordered(cfg, limits, l) && took.Waiting? && LineOf(cfg, limits, msg.request) == Some(took)
    requires var w := Whole(cfg, limits, l.s, took);
             k < |w| && w[k] == msg.request && LeavesInTurn(cfg, w, took, k, msg)
    requires msg.error != Some(TimeoutError) && a in l.arrived && a !in Gone(l.returned)
    requires LineOf(cfg, limits, a) == Some(took) && forall r | r in l.arrived :: Bounded(r)
    ensures var b := msg.request; Class(a) < Class(b) || (Class(a) == Class(b) && Worth(a) <= Worth(b))
  {
    var p, gone, w := In(cfg, limits, took), NotIn(Gone(l.returned)), Whole(cfg, limits, l.s, took);
    assert w == Filter(p, Remaining(l));
    FilterMembers(p, Remaining(l));
    FilterMembers(gone, l.arrived);
    assert a in w;
    var j :| 0 <= j < |w| && w[j] == a;
    assert KeyOf(cfg, w[j]) <= KeyOf(cfg, msg.request);
    assert msg.request in w;
    KeysCompare(cfg, a, msg.request);
  }
}

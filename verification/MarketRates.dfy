/** The rate of a market in what leaves flow control for it: order lines and withdrawn orders, counted on the
    messages that the calls return. */
module MarketRates {
  import opened Options
  import opened Trading
  import opened FlowMessages
  import opened MarketLimiter
  import opened FlowRouting
  import opened FlowRuns
  import opened Validation
  import StableOrder

  // ---- What a returned message is charged ----

  /** The commands that queue `i` was charged for a message that it released. */
  function Commands(cfg: Config, i: nat, ret: Option<BrokerMsg>): nat {
    if ret.None? || ret.value.error.Some? then 0
    else
      var route := RouteOf(cfg, ret.value.request);
      if route.ToQueue? && route.index == i then route.item.cmdSize else 0
  }

  /** Every item waits in the queue it is routed to; what waits beside a queue is an error, and what needs no
      flow control is one or belongs to no queue. */
  ghost predicate QueuePlaced(cfg: Config, x: Tracked, i: nat) {
    && (forall item | item in x.q.flow :: RouteOf(cfg, item.msg.request) == ToQueue(i, item))
    && (forall msg | msg in x.q.normal :: msg.error.Some? && msg.error != Some(TimeoutError))
  }

  ghost predicate QueuesPlaced(cfg: Config, queues: seq<Tracked>) {
    forall i | 0 <= i < |queues| :: QueuePlaced(cfg, queues[i], i)
  }

  ghost predicate Placed(cfg: Config, s: FlowState) {
    && QueuesPlaced(cfg, s.queues)
    && (forall msg | msg in s.normal ::
          (msg.error.Some? || !RouteOf(cfg, msg.request).ToQueue?) && msg.error != Some(TimeoutError))
  }

  lemma ResortPlaces(cfg: Config, x: Tracked, i: nat)
    requires QueuePlaced(cfg, x, i)
    ensures QueuePlaced(cfg, x.(q := Resort(x.q)), i)
  {
    StableOrder.SortPermutes(x.q.flow);
    forall item | item in Resort(x.q).flow ensures item in x.q.flow {
      assert item in multiset(Resort(x.q).flow);
    }
  }

  lemma PopFirstPlaces(cfg: Config, x: Tracked, i: nat, now: int)
    requires QueuePlaced(cfg, x, i)
    ensures var (y, o) := PopFirst(x, now);
            && QueuePlaced(cfg, y, i)
            && y.trail.sends == x.trail.sends + Repeat(now, Commands(cfg, i, Returned(o)))
  {
    ResortPlaces(cfg, x, i);
    var (y, o) := PopFirst(x, now);
    if Resort(x.q).flow != [] {
      var head := Resort(x.q).flow[0];
      assert head in Resort(x.q).flow;
      assert forall item | item in Resort(x.q).flow[1..] :: item in Resort(x.q).flow;
      assert o != Idle ==> o.item == head;
    }
    assert !o.Released? ==> x.trail.sends + [] == x.trail.sends;
  }

  lemma PopSecondPlaces(cfg: Config, x: Tracked, i: nat, now: int)
    requires QueuePlaced(cfg, x, i)
    ensures var (y, o) := PopSecond(x, now);
            && QueuePlaced(cfg, y, i) && y.trail.sends == x.trail.sends
            && Commands(cfg, i, Returned(o)) == 0
  {
    ResortPlaces(cfg, x, i);
    var a := Resort(x.q);
    if a.normal != [] {
      assert a.normal[0] in a.normal && forall msg | msg in a.normal[1..] :: msg in a.normal;
    } else if a.flow != [] {
      assert forall item | item in a.flow[..|a.flow| - 1] :: item in a.flow;
    }
  }

  /** A visit charges the queue for what it returns, at its time. */
  lemma PopPlaces(cfg: Config, x: Tracked, i: nat, now: int)
    requires QueuePlaced(cfg, x, i)
    ensures var (y, o) := Pop(x, now);
            && QueuePlaced(cfg, y, i)
            && y.trail.sends == x.trail.sends + Repeat(now, Commands(cfg, i, Returned(o)))
  {
    PopFirstPlaces(cfg, x, i, now);
    var (y, o) := PopFirst(x, now);
    if o == Idle {
      PopSecondPlaces(cfg, y, i, now);
      assert y.trail.sends + [] == y.trail.sends;
    }
  }

  /** No queue but its own is charged for what a queue returns. */
  lemma PopChargesOnly(cfg: Config, x: Tracked, k: nat, now: int, i: nat)
    requires QueuePlaced(cfg, x, k) && k != i
    ensures Commands(cfg, i, Returned(Pop(x, now).1)) == 0
  {
    PopFirstTakes(cfg, x, k, now);
    PopFirstPlaces(cfg, x, k, now);
    PopSecondPlaces(cfg, PopFirst(x, now).0, k, now);
    PopSecondTakes(cfg, PopFirst(x, now).0, k, now);
  }

  lemma PopFirstTakes(cfg: Config, x: Tracked, k: nat, now: int)
    requires QueuePlaced(cfg, x, k)
    ensures var o := PopFirst(x, now).1;
            !o.Idle? && !o.Passed? ==> RouteOf(cfg, o.item.msg.request) == ToQueue(k, o.item)
    ensures var o := PopFirst(x, now).1; !o.Passed? && !o.Evicted?
  {
    ResortPlaces(cfg, x, k);
    if Resort(x.q).flow != [] {
      assert Resort(x.q).flow[0] in Resort(x.q).flow;
    }
  }

  lemma PopSecondTakes(cfg: Config, x: Tracked, k: nat, now: int)
    requires QueuePlaced(cfg, x, k)
    ensures var o := PopSecond(x, now).1;
            && !o.Released?
            && (o.Passed? ==> o.msg.error.Some? && o.msg.error != Some(TimeoutError))
            && (!o.Idle? && !o.Passed? ==> RouteOf(cfg, o.item.msg.request) == ToQueue(k, o.item))
  {
    ResortPlaces(cfg, x, k);
    var a := Resort(x.q);
    if a.normal != [] {
      assert a.normal[0] in x.q.normal;
    } else if a.flow != [] {
      assert a.flow[|a.flow| - 1] in a.flow;
    }
  }

  /** One visit of a poll charges its own queue and leaves the others as they are. */
  lemma VisitCharges(cfg: Config, queues: seq<Tracked>, k: nat, now: int, i: nat)
    requires QueuesPlaced(cfg, queues) && k < |queues| && i < |queues|
    ensures var (y, o) := Pop(queues[k], now);
            && QueuesPlaced(cfg, queues[k := y])
            && queues[k := y][i].trail.sends ==
               queues[i].trail.sends + Repeat(now, Commands(cfg, i, Returned(o)))
  {
    PopPlaces(cfg, queues[k], k, now);
    if k != i {
      PopChargesOnly(cfg, queues[k], k, now, i);
      assert queues[i].trail.sends + [] == queues[i].trail.sends;
    }
  }

  lemma {:induction false} PollCharges(cfg: Config, queues: seq<Tracked>, k: nat, now: int, i: nat)
    requires k <= |queues| && QueuesPlaced(cfg, queues) && i < |queues|
    ensures var (after, ret) := Poll(queues, k, now);
            && QueuesPlaced(cfg, after)
            && after[i].trail.sends == queues[i].trail.sends + Repeat(now, Commands(cfg, i, ret))
    decreases |queues| - k
  {
    assert queues[i].trail.sends + [] == queues[i].trail.sends;
    if k < |queues| {
      PollStep(queues, k, now);
      VisitCharges(cfg, queues, k, now, i);
      if Pop(queues[k], now).1 == Idle {
        PollCharges(cfg, queues[k := Pop(queues[k], now).0], k + 1, now, i);
      }
    }
  }

  lemma {:induction false} DrainPlaces(cfg: Config, s: FlowState)
    requires Wired(cfg, s) && Placed(cfg, s)
    ensures Placed(cfg, Drain(cfg, s).0)
    decreases |s.broker|
  {
    if s.broker != [] {
      var req, t := s.broker[0], s.(broker := s.broker[1..]);
      var route := RouteOf(cfg, req);
      RouteKeepsRequest(cfg, req);
      if route != Throws {
        assert Placed(cfg, Deliver(t, route));
        DrainPlaces(cfg, Deliver(t, route));
      }
    }
  }

  lemma CallPlaces(cfg: Config, s: FlowState, now: int)
    requires Wired(cfg, s) && Placed(cfg, s)
    ensures Placed(cfg, TryPop(cfg, s, now).0)
  {
    DrainPlaces(cfg, s);
    var d := Drain(cfg, s).0;
    PollPlaces(cfg, d.queues, 0, now);
    if d.normal != [] {
      assert forall msg | msg in d.normal[1..] :: msg in d.normal;
    }
  }

  lemma PollPlaces(cfg: Config, queues: seq<Tracked>, k: nat, now: int)
    requires k <= |queues| && QueuesPlaced(cfg, queues)
    ensures QueuesPlaced(cfg, Poll(queues, k, now).0)
  {
    if k < |queues| {
      PollCharges(cfg, queues, k, now, k);
    }
  }

  /** A call charges each queue, at its time, for what it returns, and for nothing else. */
  lemma CallCharges(cfg: Config, s: FlowState, now: int, i: nat)
    requires Wired(cfg, s) && Placed(cfg, s) && i < |s.queues|
    ensures var (t, p) := TryPop(cfg, s, now);
            && Placed(cfg, t) && |t.queues| == |s.queues|
            && t.queues[i].trail.sends == s.queues[i].trail.sends + Repeat(now, Commands(cfg, i, ReturnOf(p)))
  {
    DrainPlaces(cfg, s);
    DrainKeepsSends(cfg, s);
    var (d, lost) := Drain(cfg, s);
    if lost.Some? {
      assert s.queues[i].trail.sends + [] == s.queues[i].trail.sends;
    } else {
      PollCharges(cfg, d.queues, 0, now, i);
      if Poll(d.queues, 0, now).1 == None && d.normal != [] {
        assert d.normal[0] in d.normal && forall msg | msg in d.normal[1..] :: msg in d.normal;
        assert s.queues[i].trail.sends + [] == s.queues[i].trail.sends;
      }
    }
  }

  // ---- Runs ----

  /** The commands charged to queue `i` for what calls between two times return. */
  function CommandsSent(cfg: Config, l: Ledger, events: seq<FlowRouting.Event>, i: nat, from: int, to: int): nat
    requires Wired(cfg, l.s)
    decreases |events|
  {
    if events == [] then 0
    else
      var e, rest := events[0], CommandsSent(cfg, FlowRouting.Step(cfg, l, events[0]), events[1..], i, from, to);
      if e.Call? && from <= e.now <= to then Commands(cfg, i, ReturnOf(TryPop(cfg, l.s, e.now).1)) + rest else rest
  }

  /** Over every run the history of a queue counts what the calls returned for it. */
  lemma {:induction false} RunCharges(cfg: Config, l: Ledger, events: seq<FlowRouting.Event>, i: nat, from: int,
                                      to: int)
    requires Wired(cfg, l.s) && Placed(cfg, l.s) && i < |l.s.queues|
    ensures var m := FlowRouting.Run(cfg, l, events);
            && i < |m.s.queues|
            && CountBetween(m.s.queues[i].trail.sends, from, to) ==
               CountBetween(l.s.queues[i].trail.sends, from, to) + CommandsSent(cfg, l, events, i, from, to)
    decreases |events|
  {
    if events != [] {
      var e, m := events[0], FlowRouting.Step(cfg, l, events[0]);
      if e.Call? {
        var n := Commands(cfg, i, ReturnOf(TryPop(cfg, l.s, e.now).1));
        CallCharges(cfg, l.s, e.now, i);
        CountJoin(l.s.queues[i].trail.sends, Repeat(e.now, n), from, to);
        CountOfRepeat(e.now, n, from, to);
      }
      RunCharges(cfg, m, events[1..], i, from, to);
    }
  }

  // ---- Timeouts ----

  /** An order that leaves a queue as itself is younger than the timeout configured and its own, and nothing
      but an order is ever answered with a timeout. */
  predicate Timely(cfg: Config, msg: BrokerMsg, now: int) {
    && (msg.error == None && msg.request.OrderRequest? && RouteOf(cfg, msg.request).ToQueue?
        && 0 < cfg.requestTimeout ==>
          && !AtLeast(now - msg.request.timestamp, cfg.requestTimeout)
          && (0 < msg.request.timeout ==> !AtLeast(now - msg.request.timestamp, msg.request.timeout)))
    && (msg.error == Some(TimeoutError) ==> msg.request.OrderRequest?)
  }

  lemma ItemIsTimely(cfg: Config, item: FlowItem, i: nat, now: int)
    requires RouteOf(cfg, item.msg.request) == ToQueue(i, item)
    ensures !Late(item, now) ==> Timely(cfg, item.msg, now)
    ensures item.priority != PRIORITY_WITHDRAW ==> Timely(cfg, ErrorReply(item.msg, TimeoutError), now)
  {
    RoutedItem(cfg, item.msg.request);
  }

  lemma PopIsTimely(cfg: Config, x: Tracked, i: nat, now: int)
    requires QueuePlaced(cfg, x, i)
    ensures var ret := Returned(Pop(x, now).1); ret.Some? ==> Timely(cfg, ret.value, now)
  {
    PopTakes(cfg, x, i, now);
    NothingLateIsReleased(x, now);
    var o := Pop(x, now).1;
    if !o.Idle? && !o.Passed? {
      ItemIsTimely(cfg, o.item, i, now);
    }
  }

  lemma PopTakes(cfg: Config, x: Tracked, i: nat, now: int)
    requires QueuePlaced(cfg, x, i)
    ensures var o := Pop(x, now).1;
            && (!o.Idle? && !o.Passed? ==> RouteOf(cfg, o.item.msg.request) == ToQueue(i, o.item))
            && (o.Passed? ==> o.msg.error.Some? && o.msg.error != Some(TimeoutError))
  {
    PopFirstTakes(cfg, x, i, now);
    PopFirstPlaces(cfg, x, i, now);
    PopSecondTakes(cfg, PopFirst(x, now).0, i, now);
  }

  lemma {:induction false} PollIsTimely(cfg: Config, queues: seq<Tracked>, k: nat, now: int)
    requires k <= |queues| && QueuesPlaced(cfg, queues)
    ensures var ret := Poll(queues, k, now).1; ret.Some? ==> Timely(cfg, ret.value, now)
    decreases |queues| - k
  {
    if k < |queues| {
      PollStep(queues, k, now);
      PopIsTimely(cfg, queues[k], k, now);
      if Pop(queues[k], now).1 == Idle {
        VisitCharges(cfg, queues, k, now, k);
        PollIsTimely(cfg, queues[k := Pop(queues[k], now).0], k + 1, now);
      }
    }
  }

  lemma {:induction false} RunPlaces(cfg: Config, l: Ledger, events: seq<FlowRouting.Event>)
    requires Wired(cfg, l.s) && Placed(cfg, l.s)
    ensures Wired(cfg, FlowRouting.Run(cfg, l, events).s) && Placed(cfg, FlowRouting.Run(cfg, l, events).s)
    decreases |events|
  {
    if events != [] {
      if events[0].Call? {
        CallPlaces(cfg, l.s, events[0].now);
      }
      RunPlaces(cfg, FlowRouting.Step(cfg, l, events[0]), events[1..]);
    }
  }

  lemma StartIsPlaced(cfg: Config, queues: seq<Tracked>, clock: int)
    requires AllStarting(queues, clock)
    ensures Placed(cfg, StartLedger(queues, clock).s)
    ensures forall k | 0 <= k < |queues| :: queues[k].trail.sends == []
  {
    forall k | 0 <= k < |queues| ensures QueuePlaced(cfg, queues[k], k) && queues[k].trail.sends == [] {
      assert Starting(queues[k], clock);
    }
  }

  /** At every point of every run from the start on: what a call returns is timely, however long it waited. */
  lemma NothingLateLeaves(cfg: Config, queues: seq<Tracked>, clock: int, events: seq<FlowRouting.Event>, now: int)
    requires Wired(cfg, FlowState([], queues, [])) && AllStarting(queues, clock)
    ensures var s := FlowRouting.Run(cfg, StartLedger(queues, clock), events).s;
            && Wired(cfg, s)
            && var ret := ReturnOf(TryPop(cfg, s, now).1);
               ret.Some? ==> Timely(cfg, ret.value, now)
  {
    StartIsPlaced(cfg, queues, clock);
    RunPlaces(cfg, StartLedger(queues, clock), events);
    var s := FlowRouting.Run(cfg, StartLedger(queues, clock), events).s;
    DrainPlaces(cfg, s);
    var d := Drain(cfg, s).0;
    PollIsTimely(cfg, d.queues, 0, now);
    if d.normal != [] {
      assert d.normal[0] in d.normal;
    }
  }

  // ---- The main result ----

  /** A request as the check lets it pass. */
  ghost predicate Checked(ex: Exchange, req: Request) {
    req.OrderRequest? ==>
      exists given: seq<OrderLine> ::
        && Acceptable(ex, req.bsFlag, given) && |req.lines| == |given|
        && forall i | 0 <= i < |given| :: req.lines[i] == Filled(ex, given[i])
  }

  /** What a returned message asks of a market: its order lines there, or the orders it withdraws there. */
  function Load(market: int, ret: Option<BrokerMsg>): nat {
    if ret.None? || ret.value.error.Some? then 0
    else
      match ret.value.request
      case OrderRequest(_, _, _, _, lines) => LinesIn(lines, market)
      case WithdrawRequest(_, _, _) =>
        (match WithdrawTarget(ret.value.request)
         case None => 0
         case Some((m, size)) => if m == market then size else 0)
      case OtherRequest(_, _) => 0
  }

  function LoadSent(cfg: Config, l: Ledger, events: seq<FlowRouting.Event>, market: int, from: int, to: int): nat
    requires Wired(cfg, l.s)
    decreases |events|
  {
    if events == [] then 0
    else
      var e, rest := events[0], LoadSent(cfg, FlowRouting.Step(cfg, l, events[0]), events[1..], market, from, to);
      if e.Call? && from <= e.now <= to then Load(market, ReturnOf(TryPop(cfg, l.s, e.now).1)) + rest else rest
  }

  /** A queue is charged for all that its market is asked for. */
  lemma LoadIsCharged(ex: Exchange, cfg: Config, market: int, ret: Option<BrokerMsg>)
    requires ret.Some? ==> Checked(ex, ret.value.request)
    requires cfg.codeToMarket == ex.codeToMarket && market > 0 && market in cfg.route
    ensures Load(market, ret) <= Commands(cfg, cfg.route[market], ret)
  {
    if ret.Some? && ret.value.request.OrderRequest? {
      var req := ret.value.request;
      var given :| Acceptable(ex, req.bsFlag, given) && |req.lines| == |given|
                   && forall i | 0 <= i < |given| :: req.lines[i] == Filled(ex, given[i]);
      ChargeIsExact(ex, cfg, req, given, market);
    }
  }

  ghost predicate AllChecked(ex: Exchange, events: seq<FlowRouting.Event>) {
    forall e | e in events && e.Arrive? :: Checked(ex, e.req)
  }

  /** What is in flight is checked. */
  ghost predicate CheckedInFlight(ex: Exchange, s: FlowState) {
    InFlight(req => !Checked(ex, req), s) == 0
  }

  lemma StepKeepsChecked(ex: Exchange, cfg: Config, l: Ledger, e: FlowRouting.Event)
    requires Wired(cfg, l.s) && CheckedInFlight(ex, l.s) && (e.Arrive? ==> Checked(ex, e.req))
    ensures CheckedInFlight(ex, FlowRouting.Step(cfg, l, e).s)
    ensures e.Call? ==>
              var ret := ReturnOf(TryPop(cfg, l.s, e.now).1); ret.Some? ==> Checked(ex, ret.value.request)
  {
    var p := req => !Checked(ex, req);
    match e
    case Arrive(req) => TimesPush(p, l.s.broker, req);
    case Call(now) => TryPopConserves(p, cfg, l.s, now);
  }

  lemma {:induction false} LoadIsWithinCharges(ex: Exchange, cfg: Config, l: Ledger, events: seq<FlowRouting.Event>,
                                               market: int, from: int, to: int)
    requires Wired(cfg, l.s) && CheckedInFlight(ex, l.s) && AllChecked(ex, events)
    requires cfg.codeToMarket == ex.codeToMarket && market > 0 && market in cfg.route
    ensures LoadSent(cfg, l, events, market, from, to) <=
            CommandsSent(cfg, l, events, cfg.route[market], from, to)
    decreases |events|
  {
    if events != [] {
      var e := events[0];
      assert e in events && forall f | f in events[1..] :: f in events;
      StepKeepsChecked(ex, cfg, l, e);
      if e.Call? {
        LoadIsCharged(ex, cfg, market, ReturnOf(TryPop(cfg, l.s, e.now).1));
      }
      LoadIsWithinCharges(ex, cfg, FlowRouting.Step(cfg, l, e), events[1..], market, from, to);
    }
  }

  /** From its start on, with requests that passed their check: the order lines and withdrawn orders of a market
      that calls return within any closed interval of 1500 ms are no more than the market's limit. */
  lemma MarketRateHolds(ex: Exchange, cfg: Config, queues: seq<Tracked>, clock: int,
                        events: seq<FlowRouting.Event>, market: int, from: int)
    requires Wired(cfg, FlowState([], queues, [])) && AllStarting(queues, clock)
    requires FlowRouting.Clocked(clock, events) && AllChecked(ex, events)
    requires cfg.codeToMarket == ex.codeToMarket && market > 0 && market in cfg.route
    requires queues[cfg.route[market]].q.limits.tps > 0
    ensures LoadSent(cfg, StartLedger(queues, clock), events, market, from, from + WINDOW_MS) <=
            queues[cfg.route[market]].q.limits.tps
  {
    var l, i := StartLedger(queues, clock), cfg.route[market];
    StartIsPlaced(cfg, queues, clock);
    StartHoldsNothing(req => !Checked(ex, req), queues, clock);
    LoadIsWithinCharges(ex, cfg, l, events, market, from, from + WINDOW_MS);
    RunCharges(cfg, l, events, i, from, from + WINDOW_MS);
    FlowControlHolds(cfg, queues, clock, events, i, from);
  }
}

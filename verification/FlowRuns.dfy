/** Flow control from its start on: what whole runs give. */
module FlowRuns {
  import opened Options
  import opened Trading
  import opened FlowMessages
  import opened StableOrder
  import opened MarketLimiter
  import opened FlowRouting

  /** A queue as it starts, with the day's total it took over. */
  predicate Starting(x: Tracked, clock: int) {
    && x == MarketLimiter.Fresh(x.q.limits, clock, x.q.total, x.q.stored)
    && (x.q.stored.Some? ==> x.q.stored.value == x.q.total)
  }

  ghost predicate AllStarting(queues: seq<Tracked>, clock: int) {
    forall i | 0 <= i < |queues| :: Starting(queues[i], clock)
  }

  function StartLedger(queues: seq<Tracked>, clock: int): Ledger {
    Ledger(FlowState([], queues, []), clock, [], [], [])
  }

  lemma {:induction false} StartHoldsNothing(p: Request -> bool, queues: seq<Tracked>, clock: int)
    requires AllStarting(queues, clock)
    ensures InQueues(p, queues) == 0
  {
    if queues != [] {
      StartHoldsNothing(p, queues[..|queues| - 1], clock);
      assert Starting(queues[|queues| - 1], clock);
    }
  }

  lemma StartHolds(queues: seq<Tracked>, clock: int)
    requires AllStarting(queues, clock)
    ensures var l := StartLedger(queues, clock);
            Conserved(l) && LostUnroutable(l) && AllInv(l.s.queues, l.clock)
  {
    var l := StartLedger(queues, clock);
    forall p: Request -> bool
      ensures Times(p, l.arrived) == TimesIn(p, l.returned) + Times(p, l.lost) + InFlight(p, l.s)
    {
      StartHoldsNothing(p, queues, clock);
    }
    forall i | 0 <= i < |queues| ensures Inv(queues[i]) && queues[i].trail.clock <= clock {
      assert Starting(queues[i], clock);
      FreshInv(queues[i].q.limits, clock, queues[i].q.total, queues[i].q.stored);
    }
  }

  // ---- Keys of what waits ----

  /** The key is that of priority and amount, and the amount is below the distance of priorities. */
  predicate GoodItem(item: FlowItem) {
    item.key == Key(item.priority, item.amount) && 0.0 <= item.amount < ITEM_MULTIPLE as real
  }

  /** The amounts of an order request stay below the distance of priorities. */
  predicate Modest(req: Request) {
    req.OrderRequest? && OrderPriority(req.bsFlag) == PRIORITY_OTHERS ==>
      0.0 <= Amount(req.lines) < ITEM_MULTIPLE as real
  }

  ghost predicate AllGood(queues: seq<Tracked>) {
    forall i, item | 0 <= i < |queues| && item in queues[i].trail.waiting :: GoodItem(item)
  }

  lemma RouteIsGood(cfg: Config, req: Request)
    requires Modest(req) && RouteOf(cfg, req).ToQueue?
    ensures GoodItem(RouteOf(cfg, req).item)
  {}

  lemma PopOnlyTakes(x: Tracked, now: int)
    ensures forall item | item in Pop(x, now).0.trail.waiting :: item in x.trail.waiting
  {
    NoteOnlyTakes(x.trail, now, PopFirst(x, now).1);
    NoteOnlyTakes(PopFirst(x, now).0.trail, now, PopSecond(PopFirst(x, now).0, now).1);
  }

  lemma NoteOnlyTakes(t: Trail, now: int, o: MarketLimiter.Outcome)
    ensures forall item | item in Note(t, now, o).waiting :: item in t.waiting
  {}

  lemma {:induction false} DrainKeepsGood(cfg: Config, s: FlowState)
    requires Wired(cfg, s) && AllGood(s.queues) && forall req | req in s.broker :: Modest(req)
    ensures AllGood(Drain(cfg, s).0.queues)
    ensures forall req | req in Drain(cfg, s).0.broker :: Modest(req)
    decreases |s.broker|
  {
    if s.broker != [] {
      var req, t := s.broker[0], s.(broker := s.broker[1..]);
      var route := RouteOf(cfg, req);
      assert req in s.broker;
      if route != Throws {
        if route.ToQueue? {
          RouteIsGood(cfg, req);
        }
        DrainKeepsGood(cfg, Deliver(t, route));
      }
    }
  }

  lemma {:induction false} PollKeepsGood(queues: seq<Tracked>, i: nat, now: int)
    requires i <= |queues| && AllGood(queues)
    ensures AllGood(Poll(queues, i, now).0)
    decreases |queues| - i
  {
    if i < |queues| {
      PollStep(queues, i, now);
      PopOnlyTakes(queues[i], now);
      var more := queues[i := Pop(queues[i], now).0];
      assert AllGood(more);
      if Pop(queues[i], now).1 == Idle {
        PollKeepsGood(more, i + 1, now);
      }
    }
  }

  ghost predicate AllModest(events: seq<FlowRouting.Event>) {
    forall e | e in events && e.Arrive? :: Modest(e.req)
  }

  lemma {:induction false} RunKeepsGood(cfg: Config, l: Ledger, events: seq<FlowRouting.Event>)
    requires Wired(cfg, l.s) && AllGood(l.s.queues) && AllModest(events)
    requires forall req | req in l.s.broker :: Modest(req)
    ensures AllGood(FlowRouting.Run(cfg, l, events).s.queues)
    decreases |events|
  {
    if events != [] {
      var e, m := events[0], FlowRouting.Step(cfg, l, events[0]);
      assert e in events && forall f | f in events[1..] :: f in events;
      if e.Call? {
        DrainKeepsGood(cfg, l.s);
        PollKeepsGood(Drain(cfg, l.s).0.queues, 0, e.now);
      }
      RunKeepsGood(cfg, m, events[1..]);
    }
  }

  // ---- The main results ----

  /** From its start on, flow control returns every request once or still holds it, unless its number
      does not parse; every market stays within its rate in every closed interval of 1500 ms and in stable
      order. */
  lemma FlowControlHolds(cfg: Config, queues: seq<Tracked>, clock: int, events: seq<FlowRouting.Event>,
                         i: nat, from: int)
    requires Wired(cfg, FlowState([], queues, [])) && AllStarting(queues, clock)
    requires FlowRouting.Clocked(clock, events) && i < |queues|
    ensures var m := FlowRouting.Run(cfg, StartLedger(queues, clock), events);
            && Conserved(m) && LostUnroutable(m) && i < |m.s.queues|
            && var x := m.s.queues[i];
               && (queues[i].q.limits.tps > 0 ==>
                     CountBetween(x.trail.sends, from, from + WINDOW_MS) <= queues[i].q.limits.tps)
               && Resort(x.q).flow == Sort(x.trail.waiting)
  {
    var l := StartLedger(queues, clock);
    StartHolds(queues, clock);
    RunConserves(cfg, l, events);
    RunFixesLimits(cfg, l, events);
    ResortOrders(FlowRouting.Run(cfg, l, events).s.queues[i]);
    if queues[i].q.limits.tps > 0 {
      EveryMarketKeepsItsRate(cfg, l, events, i, from);
    }
  }

  /** At every point of every run in which order amounts stay below 100000000, what leaves the front of a
      market's queue has the highest priority waiting there, among those the largest amount, and among
      those came first. */
  lemma HighestPriorityInRuns(cfg: Config, queues: seq<Tracked>, clock: int, events: seq<FlowRouting.Event>,
                              i: nat, now: int, j: nat)
    requires Wired(cfg, FlowState([], queues, [])) && AllStarting(queues, clock)
    requires FlowRouting.Clocked(clock, events) && AllModest(events) && i < |queues|
    ensures var m := FlowRouting.Run(cfg, StartLedger(queues, clock), events);
            && i < |m.s.queues|
            && var x := m.s.queues[i];
               var o, w := Pop(x, now).1, x.trail.waiting;
               j < |w| && (o.Released? || o.Refused? || o.Expired?) ==>
                 var first := FirstLargest(w);
                 o.item == w[first] && !GoesBefore(w[j], w[first]) && (j < first ==> GoesBefore(w[first], w[j]))
  {
    var l := StartLedger(queues, clock);
    StartHolds(queues, clock);
    RunConserves(cfg, l, events);
    RunFixesLimits(cfg, l, events);
    StartIsGood(queues, clock);
    RunKeepsGood(cfg, l, events);
    var m := FlowRouting.Run(cfg, l, events);
    assert i < |m.s.queues| && Inv(m.s.queues[i]);
    GoodAreInOrder(m.s.queues, i, now, j);
  }

  lemma InvariantBoundsSends(queues: seq<Tracked>, clock: int)
    requires AllInv(queues, clock)
    ensures AllSentBy(queues, clock)
  {
    forall i | 0 <= i < |queues| ensures Inv(queues[i]) && queues[i].trail.clock <= clock {}
  }

  lemma PointOfRun(cfg: Config, queues: seq<Tracked>, clock: int, events: seq<FlowRouting.Event>)
    requires Wired(cfg, FlowState([], queues, [])) && AllStarting(queues, clock)
    requires FlowRouting.Clocked(clock, events)
    ensures var l := FlowRouting.Run(cfg, StartLedger(queues, clock), events);
            && Wired(cfg, l.s) && AllInv(l.s.queues, l.clock) && LostUnroutable(l)
            && AllSentBy(l.s.queues, l.clock)
  {
    var l := FlowRouting.Run(cfg, StartLedger(queues, clock), events);
    StartHolds(queues, clock);
    RunConserves(cfg, StartLedger(queues, clock), events);
    RunFixesLimits(cfg, StartLedger(queues, clock), events);
    InvariantBoundsSends(l.s.queues, l.clock);
  }

  /** At every point of every run, what is then in flight is served at one message a window at least, however
      calls and arrivals follow, and a call serves at most one. */
  lemma ServiceInRuns(cfg: Config, queues: seq<Tracked>, clock: int, events: seq<FlowRouting.Event>,
                      more: seq<FlowRouting.Event>)
    requires Wired(cfg, FlowState([], queues, [])) && AllStarting(queues, clock)
    requires FlowRouting.Clocked(clock, events)
    ensures var l := FlowRouting.Run(cfg, StartLedger(queues, clock), events);
            && Wired(cfg, l.s)
            && (FlowRouting.Clocked(l.clock, more) ==>
                  var served := Served(FlowRouting.Run(cfg, l, more)) - Served(l);
                  Least(InFlight(ALL, l.s), Windows(l.clock, more)) <= served <= |more|)
  {
    PointOfRun(cfg, queues, clock, events);
    var l := FlowRouting.Run(cfg, StartLedger(queues, clock), events);
    if FlowRouting.Clocked(l.clock, more) {
      RunServes(cfg, l, l.clock, more);
    }
  }

  lemma StartIsGood(queues: seq<Tracked>, clock: int)
    requires AllStarting(queues, clock)
    ensures AllGood(queues)
  {
    forall k | 0 <= k < |queues| ensures queues[k].trail.waiting == [] {
      assert Starting(queues[k], clock);
    }
  }

  lemma GoodAreInOrder(queues: seq<Tracked>, i: nat, now: int, j: nat)
    requires AllGood(queues) && i < |queues| && Inv(queues[i])
    ensures var x := queues[i];
            var o, w := Pop(x, now).1, x.trail.waiting;
            j < |w| && (o.Released? || o.Refused? || o.Expired?) ==>
              var first := FirstLargest(w);
              o.item == w[first] && !GoesBefore(w[j], w[first]) && (j < first ==> GoesBefore(w[first], w[j]))
  {
    var w := queues[i].trail.waiting;
    if j < |w| {
      forall k | 0 <= k < |w| ensures GoodItem(w[k]) {
        assert w[k] in w;
      }
      HighestPriorityFirst(queues[i], now, j);
    }
  }
}

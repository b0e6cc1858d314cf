/** Flow control over all markets as it is updated in place. */
module FlowControl {
  import opened Options
  import opened Trading
  import opened OrderNumbers
  import opened FlowMessages
  import opened MarketLimiter
  import opened MarketQueue
  import opened FlowRouting
  import StateLog

  ghost function RecordValue(r: StateRecord): StateLog.Record
    reads r
  {
    StateLog.Record(r.date, r.fundId, r.market, r.total)
  }

  ghost function LogValues(records: seq<StateRecord>): (log: seq<StateLog.Record>)
    reads records
    ensures |log| == |records|
    ensures forall i | 0 <= i < |records| :: log[i] == RecordValue(records[i])
  {
    if records == [] then []
    else LogValues(records[..|records| - 1]) + [RecordValue(records[|records| - 1])]
  }

  /** The state file. Records are appended; only the last ones are still written to. */
  class StateFile {
    var records: seq<StateRecord>

    constructor ()
      ensures records == []
    {
      records := [];
    }

    /** One backward pass over the file collects, for every key at once, what `Scan` finds. */
    method LoadHistory(date: int) returns (history: map<(string, int), int>)
      ensures forall fund, market ::
        StateLog.Scan(LogValues(records), fund, market, date) ==
        if (fund, market) in history then history[(fund, market)] else 0
    {
      history := map[];
      var n := |records|;
      ghost var log := LogValues(records);
      assert log[..n] == log;
      while n > 0
        invariant 0 <= n <= |records|
        invariant forall fund, market ::
          StateLog.Scan(log, fund, market, date) ==
          if (fund, market) in history then history[(fund, market)]
          else StateLog.Scan(log[..n], fund, market, date)
        decreases n
      {
        var q := records[n - 1];
        assert log[..n][..n - 1] == log[..n - 1];
        if q.date == date && q.total > 0 {
          if (q.fundId, q.market) !in history {
            history := history[(q.fundId, q.market) := q.total];
          }
        } else if q.date < date {
          break;
        }
        n := n - 1;
      }
    }
  }

  /** A queue that was in state `before` and has taken over the total in its record. */
  ghost predicate Resumed(queue: FlowControlMarketQueue, record: StateRecord, before: Tracked)
    reads queue, queue.holder, record
  {
    queue.holder == record && queue.View() == Recover(before, record.total)
  }

  method Restart(queue: FlowControlMarketQueue, file: StateFile, fundId: string, date: int, total: int)
    returns (record: StateRecord)
    modifies queue, file
    ensures fresh(record) && RecordValue(record) == StateLog.Record(date, fundId, queue.market, total)
    ensures file.records == old(file.records) + [record]
    ensures Resumed(queue, record, old(queue.View()))
  {
    record := new StateRecord(date, fundId, queue.market, total);
    file.records := file.records + [record];
    queue.InitState(record);
  }

  method RestartAll(queues: seq<FlowControlMarketQueue>, file: StateFile, fundId: string, date: int,
                    history: map<(string, int), int>, ghost before: seq<Tracked>)
    returns (added: seq<StateRecord>)
    requires forall i, j | 0 <= i < j < |queues| :: queues[i] != queues[j]
    requires |before| == |queues| && forall i | 0 <= i < |queues| :: queues[i].View() == before[i]
    modifies queues, file
    ensures file.records == old(file.records) + added && |added| == |queues| && fresh(added)
    ensures forall i, j | 0 <= i < j < |added| :: added[i] != added[j]
    ensures forall i | 0 <= i < |queues| :: Resumed(queues[i], added[i], before[i])
    ensures forall i | 0 <= i < |queues| ::
      var key := (fundId, queues[i].market);
      RecordValue(added[i]) ==
        StateLog.Record(date, fundId, key.1, if key in history then history[key] else 0)
  {
    added := [];
    for k := 0 to |queues|
      invariant file.records == old(file.records) + added && |added| == k && fresh(added)
      invariant forall i, j | 0 <= i < j < k :: added[i] != added[j]
      invariant forall i | 0 <= i < k :: Resumed(queues[i], added[i], before[i])
      invariant forall i | k <= i < |queues| :: queues[i].View() == before[i]
      invariant forall i | 0 <= i < k ::
        var key := (fundId, queues[i].market);
        RecordValue(added[i]) ==
          StateLog.Record(date, fundId, key.1, if key in history then history[key] else 0)
    {
      var key := (fundId, queues[k].market);
      var record := Restart(queues[k], file, fundId, date, if key in history then history[key] else 0);
      added := added + [record];
    }
  }

  method RestartFrom(file: StateFile, queues: seq<FlowControlMarketQueue>, fundId: string, date: int,
                     ghost before: seq<Tracked>)
    returns (added: seq<StateRecord>)
    requires forall i, j | 0 <= i < j < |queues| :: queues[i] != queues[j]
    requires |before| == |queues| && forall i | 0 <= i < |queues| :: queues[i].View() == before[i]
    modifies queues, file
    ensures file.records == old(file.records) + added && |added| == |queues| && fresh(added)
    ensures forall i, j | 0 <= i < j < |added| :: added[i] != added[j]
    ensures forall i | 0 <= i < |queues| :: Resumed(queues[i], added[i], before[i])
    ensures LogValues(added) == StateLog.StartRecords(old(LogValues(file.records)), fundId, Markets(queues), date)
  {
    ghost var started := StateLog.StartRecords(LogValues(file.records), fundId, Markets(queues), date);
    var history := file.LoadHistory(date);
    added := RestartAll(queues, file, fundId, date, history, before);
    assert LogValues(added) == started;
  }

  /** A queue as it is created for a configured market. */
  ghost predicate IsNew(queue: FlowControlMarketQueue, config: (int, Limits), clock: int)
    reads queue, queue.holder
  {
    queue.market == config.0 && queue.holder == null && queue.View() == Fresh(config.1, clock, 0, None)
  }

  ghost predicate Within(queues: seq<FlowControlMarketQueue>, repr: set<object>)
    reads repr
  {
    forall i | 0 <= i < |queues| :: queues[i] in repr && (queues[i].holder != null ==> queues[i].holder in repr)
  }

  ghost function ViewsOf(queues: seq<FlowControlMarketQueue>, repr: set<object>): (v: seq<Tracked>)
    requires Within(queues, repr)
    reads repr
    ensures |v| == |queues|
    ensures forall i | 0 <= i < |queues| :: v[i] == queues[i].View()
  {
    seq(|queues|, i requires Within(queues, repr) && 0 <= i < |queues| reads repr => queues[i].View())
  }

  class FlowControlQueue {
    const requiredMarkets: set<int>
    const requestTimeout: int
    const codeToMarket: string -> int
    var broker: seq<Request>
    var queues: seq<FlowControlMarketQueue>
    var marketToQueue: map<int, nat>
    var normal: seq<BrokerMsg>
    ghost var repr: set<object>  // the market queues and their records

    constructor (requiredMarkets: set<int>, requestTimeout: int, codeToMarket: string -> int)
      ensures this.requiredMarkets == requiredMarkets && this.requestTimeout == requestTimeout
      ensures this.codeToMarket == codeToMarket
      ensures Valid() && queues == [] && repr == {} && View() == FlowState([], [], [])
    {
      this.requiredMarkets, this.requestTimeout := requiredMarkets, requestTimeout;
      this.codeToMarket := codeToMarket;
      broker, queues, marketToQueue, normal := [], [], map[], [];
      repr := {};
    }

    ghost predicate Valid()
      reads `queues, `marketToQueue, `repr, repr
    {
      && this !in repr
      && Within(queues, repr)
      && (forall i, j | 0 <= i < j < |queues| :: queues[i] != queues[j])
      && (forall i, j | 0 <= i < j < |queues| && queues[i].holder != null :: queues[i].holder != queues[j].holder)
      && (forall m | m in marketToQueue :: marketToQueue[m] < |queues|)
    }

    ghost function Setup(): Config
      reads this
    {
      Config(marketToQueue, requiredMarkets, requestTimeout, codeToMarket)
    }

    ghost function Views(): (v: seq<Tracked>)
      requires Valid()
      reads `queues, `marketToQueue, `repr, repr
      ensures |v| == |queues|
      ensures forall i | 0 <= i < |queues| :: v[i] == queues[i].View()
    {
      ViewsOf(queues, repr)
    }

    ghost function View(): FlowState
      requires Valid()
      reads this, repr
    {
      FlowState(broker, Views(), normal)
    }

    /** One queue per configured market; for a market configured twice the later queue is used. */
    method Init(configs: seq<(int, Limits)>, ghost clock: int)
      requires Valid() && queues == []
      modifies this
      ensures Valid() && fresh(repr - old(repr)) && |queues| == |configs|
      ensures broker == old(broker) && normal == old(normal)
      ensures forall i | 0 <= i < |configs| :: fresh(queues[i]) && IsNew(queues[i], configs[i], clock)
      ensures forall m :: Routed(marketToQueue, configs, m)
    {
      marketToQueue := map[];
      for k := 0 to |configs|
        invariant Valid() && fresh(repr - old(repr)) && |queues| == k
        invariant broker == old(broker) && normal == old(normal)
        invariant forall i | 0 <= i < k :: fresh(queues[i]) && IsNew(queues[i], configs[i], clock)
        invariant forall m :: Routed(marketToQueue, configs[..k], m)
      {
        RouteNext(marketToQueue, configs[..k], configs[k], marketToQueue[configs[k].0 := k], configs[..k + 1]);
        AddQueue(configs[k], clock);
      }
      assert configs[..|configs|] == configs;
    }

    method AddQueue(config: (int, Limits), ghost clock: int)
      requires Valid()
      modifies this
      ensures Valid() && fresh(repr - old(repr)) && broker == old(broker) && normal == old(normal)
      ensures |queues| == |old(queues)| + 1 && queues[..|old(queues)|] == old(queues)
      ensures fresh(queues[|old(queues)|]) && IsNew(queues[|old(queues)|], config, clock)
      ensures marketToQueue == old(marketToQueue)[config.0 := |old(queues)|]
    {
      var queue := new FlowControlMarketQueue(config.0, config.1, clock);
      marketToQueue := marketToQueue[config.0 := |queues|];
      queues := queues + [queue];
      repr := repr + {queue};
    }

    /** Recovers the day's total of every market from the file and appends a record for each;
        `before` are the queues as they were. */
    method InitState(file: StateFile, fundId: string, date: int, ghost before: seq<Tracked>)
      returns (ghost added: seq<StateRecord>)
      requires Valid() && file !in repr && before == Views()
      modifies `repr, repr, file
      ensures Valid() && fresh(repr - old(repr))
      ensures file.records == old(file.records) + added && |added| == |queues|
      ensures LogValues(added) == StateLog.StartRecords(old(LogValues(file.records)), fundId, Markets(queues), date)
      ensures forall i | 0 <= i < |queues| :: Resumed(queues[i], added[i], before[i])
    {
      var records := RestartFrom(file, queues, fundId, date, before);
      added := records;
      Adopt(records);
    }

    /** The records of the queues join the representation. */
    ghost method Adopt(records: seq<StateRecord>)
      requires |records| == |queues| && forall i | 0 <= i < |queues| :: queues[i].holder == records[i]
      requires forall i, j | 0 <= i < j < |records| :: records[i] != records[j]
      requires forall i, j | 0 <= i < j < |queues| :: queues[i] != queues[j]
      requires forall i | 0 <= i < |queues| :: queues[i] in repr
      requires this !in repr && forall m | m in marketToQueue :: marketToQueue[m] < |queues|
      modifies `repr
      ensures Valid() && repr == old(repr) + (set r | r in records)
    {
      repr := repr + (set r | r in records);
    }

    /** Sorts a message into the queue it waits in; true when its number does not parse. */
    method Push(req: Request) returns (threw: bool)
      requires Valid()
      modifies `broker, `normal, repr
      ensures Valid()
      ensures threw <==> RouteOf(Setup(), req) == Throws
      ensures View() == Deliver(old(View()), RouteOf(Setup(), req))
    {
      threw := false;
      var msg := BrokerMsg(req, None);
      var market: int;
      if req.OrderRequest? {
        market := 0;
        if |req.lines| > 0 {
          market := req.lines[0].market;
          if market <= 0 {
            market := codeToMarket(req.lines[0].code);
          }
        }
        if market in marketToQueue {
          var priority, amount := PRIORITY_OTHERS, 0.0;
          if req.bsFlag.Create? || req.bsFlag.Redeem? {
            priority := PRIORITY_CREATE_REDEEM;
          } else {
            for i := 0 to |req.lines|
              invariant amount == Amount(req.lines[..i])
            {
              assert req.lines[..i + 1][..i] == req.lines[..i];
              amount := amount + req.lines[i].price * req.lines[i].volume as real;
            }
            assert req.lines[..|req.lines|] == req.lines;
          }
          var timeout := if req.timeout > 0 && req.timeout < requestTimeout then req.timeout else requestTimeout;
          Enqueue(marketToQueue[market],
                  FlowItem(req.timestamp, priority, |req.lines|, amount, Key(priority, amount), timeout, msg));
          return;
        }
      } else if req.WithdrawRequest? {
        market := 0;
        var size := 0;
        if req.orderNo != "" {
          var no := ParseStandardOrderNo(req.orderNo);
          if no == None {
            return true;
          }
          market, size := no.value.market, 1;
        } else if req.batchNo != "" {
          var no := ParseStandardBatchNo(req.batchNo);
          if no == None {
            return true;
          }
          market, size := no.value.market, no.value.size;
        }
        if market <= 0 {
          normal := normal + [ErrorReply(msg, NonStandardNumber)];
          return;
        }
        if market in marketToQueue {
          Enqueue(marketToQueue[market],
                  FlowItem(0, PRIORITY_WITHDRAW, size, 0.0, Key(PRIORITY_WITHDRAW, 0.0), 0, msg));
          return;
        }
      } else {
        normal := normal + [msg];
        return;
      }
      if market in requiredMarkets {
        msg := ErrorReply(msg, NoConfig);
      }
      normal := normal + [msg];
    }

    method Enqueue(i: nat, item: FlowItem)
      requires Valid() && i < |queues|
      modifies repr
      ensures Valid()
      ensures View() == Deliver(old(View()), ToQueue(i, item))
    {
      queues[i].Push(item);
      assert forall j | 0 <= j < |queues| :: queues[j].holder == old(queues[j].holder);
    }

    /** Empties the broker queue, up to a message whose number does not parse. */
    method DrainBroker() returns (lost: Option<Request>)
      requires Valid()
      modifies `broker, `normal, repr
      ensures Valid()
      ensures (View(), lost) == Drain(Setup(), old(View()))
    {
      lost := None;
      while broker != []
        invariant Valid()
        invariant Drain(Setup(), View()) == Drain(Setup(), old(View()))
        decreases |broker|
      {
        var req := broker[0];
        ghost var s := View();
        broker := broker[1..];
        assert View() == s.(broker := s.broker[1..]);
        var threw := Push(req);
        if threw {
          return Some(req);
        }
      }
    }

    /** Visits the markets in order until one gives a message. */
    method PollQueues(now: int) returns (ret: Option<BrokerMsg>)
      requires Valid()
      modifies repr
      ensures Valid()
      ensures (Views(), ret) == Poll(old(Views()), 0, now)
    {
      ret := None;
      ghost var start := Views();
      var i := 0;
      while i < |queues|
        invariant 0 <= i <= |queues|
        invariant Valid()
        invariant ret == None && Poll(Views(), i, now) == Poll(start, 0, now)
      {
        ghost var v := Views();
        PollStep(v, i, now);
        ret := VisitQueue(i, now, v);
        if ret != None {
          break;
        }
        i := i + 1;
      }
    }

    method GiveOne(now: int) returns (ret: Option<BrokerMsg>)
      requires Valid()
      modifies `normal, repr
      ensures Valid()
      ensures (View(), ret) == Give(old(View()), now)
    {
      ret := PollQueues(now);
      if ret == None && normal != [] {
        ret := Some(normal[0]);
        normal := normal[1..];
      }
    }

    /** Drains the broker queue, then returns at most one message: the first one a market gives, or
        else one that needs no flow control. */
    method TryPop(now: int) returns (p: Popped)
      requires Valid()
      modifies `broker, `normal, repr
      ensures Valid()
      ensures (View(), p) == FlowRouting.TryPop(Setup(), old(View()), now)
    {
      var lost := DrainBroker();
      if lost != None {
        return Threw(lost.value);
      }
      var ret := GiveOne(now);
      p := Gave(ret);
    }

    method VisitQueue(i: nat, now: int, ghost v: seq<Tracked>) returns (ret: Option<BrokerMsg>)
      requires Valid() && i < |queues| && v == Views()
      modifies repr
      ensures Valid()
      ensures Views() == v[i := Pop(v[i], now).0]
      ensures ret == Returned(Pop(v[i], now).1)
    {
      ghost var o;
      ret, o := queues[i].TryPop(now);
      assert forall j | 0 <= j < |queues| :: queues[j].holder == old(queues[j].holder);
    }
  }

  /** A market leads to the last queue configured for it, and to none if there is no such queue. */
  ghost predicate Routed(route: map<int, nat>, configs: seq<(int, Limits)>, market: int) {
    if market in route then
      && route[market] < |configs| && configs[route[market]].0 == market
      && forall i | route[market] < i < |configs| :: configs[i].0 != market
    else forall i | 0 <= i < |configs| :: configs[i].0 != market
  }

  lemma RouteNext(route: map<int, nat>, configs: seq<(int, Limits)>, config: (int, Limits),
                  next: map<int, nat>, more: seq<(int, Limits)>)
    requires forall m :: Routed(route, configs, m)
    requires next == route[config.0 := |configs|] && more == configs + [config]
    ensures forall m :: Routed(next, more, m)
  {
    forall m ensures Routed(next, more, m) {
      assert Routed(route, configs, m);
    }
  }

  ghost function Markets(queues: seq<FlowControlMarketQueue>): (m: seq<int>)
    ensures |m| == |queues| && forall i | 0 <= i < |queues| :: m[i] == queues[i].market
  {
    seq(|queues|, i requires 0 <= i < |queues| => queues[i].market)
  }
}

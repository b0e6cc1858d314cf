/** The queue of one market as it is updated in place. */
module MarketQueue {
  import opened Options
  import opened FlowMessages
  import opened StableOrder
  import opened MarketLimiter

  /** One record of the persisted state file. The queue writes its total through to its record. */
  class StateRecord {
    const date: int
    const fundId: string
    const market: int
    var total: int

    constructor (date: int, fundId: string, market: int, total: int)
      ensures this.date == date && this.fundId == fundId && this.market == market && this.total == total
    {
      this.date, this.fundId, this.market, this.total := date, fundId, market, total;
    }
  }

  class FlowControlMarketQueue {
    const market: int
    const limits: Limits
    var holder: StateRecord?
    var sent: seq<int>
    var needSort: bool
    var flow: seq<FlowItem>
    var normal: seq<BrokerMsg>
    var cmdSize: int
    var total: int
    ghost var trail: Trail

    constructor (market: int, limits: Limits, ghost clock: int)
      ensures this.market == market && this.limits == limits && holder == null
      ensures View() == Fresh(limits, clock, 0, None)
    {
      this.market, this.limits, holder := market, limits, null;
      sent, needSort, flow, normal, cmdSize, total := [], false, [], [], 0, 0;
      trail := Fresh(limits, clock, 0, None).trail;
    }

    ghost function View(): Tracked
      reads this, holder
    {
      Tracked(Limiter(limits, sent, needSort, flow, normal, cmdSize, total,
                              if holder == null then None else Some(holder.total)),
                      trail)
    }

    /** Takes over the total recovered for this market; the queue's history starts here. */
    method InitState(record: StateRecord)
      modifies this
      ensures holder == record && View() == Recover(old(View()), record.total)
    {
      holder := record;
      total := record.total;
      trail := trail.(start := record.total);
    }

    method Sort()
      modifies this
      ensures View() == old(View()).(q := Resort(old(View().q)))
      ensures holder == old(holder) && !needSort
    {
      if needSort {
        needSort := false;
        flow := StableOrder.Sort(flow);
      }
    }

    method PruneSent(now: int)
      modifies this`sent
      ensures sent == Prune(old(sent), now)
    {
      while sent != [] && now - sent[0] > WINDOW_MS
        invariant Prune(sent, now) == Prune(old(sent), now)
        decreases |sent|
      {
        sent := sent[1..];
      }
    }

    method RecordSends(now: int, size: nat)
      modifies this`sent
      ensures sent == old(sent) + Repeat(now, size)
    {
      for i := 0 to size
        invariant sent == old(sent) + Repeat(now, i)
      {
        sent := sent + [now];
      }
    }

    /** What becomes of the head of a sorted and pruned queue. */
    method ServeHead(now: int) returns (ret: Option<BrokerMsg>, ghost o: Outcome)
      requires flow != []
      modifies this, holder
      ensures View() == Tracked(Serve(old(View().q), now).0, old(trail)) && o == Serve(old(View().q), now).1
      ensures ret == Returned(o) && holder == old(holder)
    {
      ret, o := None, Idle;
      var item := flow[0];
      var size := item.cmdSize;
      if IsTimeout(limits, now, item, 0) {
        ret, o := Some(ErrorReply(item.msg, TimeoutError)), Expired(item);
        flow, cmdSize := flow[1..], cmdSize - size;
      } else if limits.daily > 0 && total + size > limits.daily {
        ret, o := Some(ErrorReply(item.msg, DailyLimitError)), Refused(item);
        flow, cmdSize := flow[1..], cmdSize - size;
      } else if limits.tps <= 0 || |sent| + size <= limits.tps {
        ret, o := Some(item.msg), Released(item);
        RecordSends(now, size);
        total := total + size;
        if holder != null {
          holder.total := total;
        }
        flow, cmdSize := flow[1..], cmdSize - size;
      }
    }

    method TryPopPrimary(now: int) returns (ret: Option<BrokerMsg>, ghost o: Outcome)
      modifies this, holder
      ensures (View(), o) == PopFirst(old(View()), now)
      ensures ret == Returned(o) && holder == old(holder)
    {
      ret, o := None, Idle;
      Sort();
      if flow != [] {
        PruneSent(now);
        ret, o := ServeHead(now);
      }
      trail := Note(trail, now, o);
    }

    method TryPopSecondary(now: int) returns (ret: Option<BrokerMsg>, ghost o: Outcome)
      modifies this
      ensures (View(), o) == PopSecond(old(View()), now)
      ensures ret == Returned(o) && holder == old(holder)
    {
      ret, o := None, Idle;
      Sort();
      if normal != [] {
        ret, o := Some(normal[0]), Passed(normal[0]);
        normal := normal[1..];
      }
      if ret == None && flow != [] {
        var item := flow[|flow| - 1];
        var size := item.cmdSize;
        var ahead := cmdSize - size;
        if IsTimeout(limits, now, item, ahead) {
          ret, o := Some(ErrorReply(item.msg, TimeoutError)), Evicted(item);
          flow, cmdSize := flow[..|flow| - 1], cmdSize - size;
        }
      }
      trail := Note(trail, now, o);
    }

    method TryPop(now: int) returns (ret: Option<BrokerMsg>, ghost o: Outcome)
      modifies this, holder
      ensures (View(), o) == Pop(old(View()), now)
      ensures ret == Returned(o) && holder == old(holder)
    {
      ret, o := TryPopPrimary(now);
      if ret == None {
        ret, o := TryPopSecondary(now);
      }
    }

    method Push(item: FlowItem)
      modifies this
      ensures View() == Accept(old(View()), item) && holder == old(holder)
    {
      if limits.tps > 0 && item.cmdSize > limits.tps {
        normal := normal + [ErrorReply(item.msg, BatchTooLarge)];
        return;
      }
      cmdSize := cmdSize + item.cmdSize;
      flow := flow + [item];
      needSort := true;
      trail := trail.(waiting := trail.waiting + [item], accepted := trail.accepted + item.cmdSize);
    }
  }
}

/** Messages that pass through flow control, and the items queued for them. */
module FlowMessages {
  import opened Options
  import opened Trading

  const PRIORITY_WITHDRAW := 3
  const PRIORITY_CREATE_REDEEM := 2
  const PRIORITY_OTHERS := 1
  const ITEM_MULTIPLE := 100000000
  const WINDOW_MS := 1500

  datatype OrderLine = OrderLine(code: string, market: int, price: real, volume: int)

  /** What a client asked for. `id` stands for the identity of the queued message. */
  datatype Request =
    | OrderRequest(id: nat, timestamp: int, timeout: int, bsFlag: BsFlag, lines: seq<OrderLine>)
    | WithdrawRequest(id: nat, orderNo: string, batchNo: string)
    | OtherRequest(id: nat, functionId: int)

  datatype FlowError = TimeoutError | DailyLimitError | BatchTooLarge | NoConfig | NonStandardNumber

  /** A queued message: the request, until an error turns it into the reply to that request. */
  datatype BrokerMsg = BrokerMsg(request: Request, error: Option<FlowError>)

  /** Only an order or withdraw request can be turned into an error reply; any other message
      would make the original throw its "never happen" error. */
  predicate Refusable(msg: BrokerMsg) {
    msg.error.None? && !msg.request.OtherRequest?
  }

  /** What waits for its turn is always still a request. */
  type OpenMsg = msg: BrokerMsg | Refusable(msg) witness BrokerMsg(WithdrawRequest(0, "", ""), None)

  function ErrorReply(msg: OpenMsg, error: FlowError): BrokerMsg {
    msg.(error := Some(error))
  }

  /** `key` is total_amount: priority * 100000000 + order_amount. */
  datatype FlowItem = FlowItem(timestamp: int, priority: int, cmdSize: nat, amount: real,
                               key: real, timeout: int, msg: OpenMsg)

  function Key(priority: int, amount: real): real {
    (priority * ITEM_MULTIPLE) as real + amount
  }

  function SumSizes(items: seq<FlowItem>): nat {
    if items == [] then 0 else SumSizes(items[..|items| - 1]) + items[|items| - 1].cmdSize
  }

  lemma {:induction false} SumSizesFront(items: seq<FlowItem>)
    requires items != []
    ensures SumSizes(items) == items[0].cmdSize + SumSizes(items[1..])
  {
    if |items| > 1 {
      SumSizesFront(items[..|items| - 1]);
      assert items[..|items| - 1][1..] == items[1..][..|items| - 2];
    }
  }

  // ---- How often requests occur ----
  // Counted for any choice `p` of requests: for one request, for all, for those that do not parse.

  function One(b: bool): nat {
    if b then 1 else 0
  }

  function Times(p: Request -> bool, reqs: seq<Request>): nat {
    if reqs == [] then 0 else Times(p, reqs[..|reqs| - 1]) + One(p(reqs[|reqs| - 1]))
  }

  function TimesIn(p: Request -> bool, msgs: seq<BrokerMsg>): nat {
    if msgs == [] then 0 else TimesIn(p, msgs[..|msgs| - 1]) + One(p(msgs[|msgs| - 1].request))
  }

  function TimesQueued(p: Request -> bool, items: seq<FlowItem>): nat {
    if items == [] then 0 else TimesQueued(p, items[..|items| - 1]) + One(p(items[|items| - 1].msg.request))
  }

  lemma TimesPush(p: Request -> bool, reqs: seq<Request>, x: Request)
    ensures Times(p, reqs + [x]) == Times(p, reqs) + One(p(x))
  {
    assert (reqs + [x])[..|reqs|] == reqs;
  }

  lemma TimesInPush(p: Request -> bool, msgs: seq<BrokerMsg>, x: BrokerMsg)
    ensures TimesIn(p, msgs + [x]) == TimesIn(p, msgs) + One(p(x.request))
  {
    assert (msgs + [x])[..|msgs|] == msgs;
  }

  lemma TimesQueuedPush(p: Request -> bool, items: seq<FlowItem>, x: FlowItem)
    ensures TimesQueued(p, items + [x]) == TimesQueued(p, items) + One(p(x.msg.request))
  {
    assert (items + [x])[..|items|] == items;
  }

  lemma {:induction false} TimesFront(p: Request -> bool, reqs: seq<Request>)
    requires reqs != []
    ensures Times(p, reqs) == One(p(reqs[0])) + Times(p, reqs[1..])
  {
    if |reqs| > 1 {
      TimesFront(p, reqs[..|reqs| - 1]);
      assert reqs[..|reqs| - 1][1..] == reqs[1..][..|reqs| - 2];
    }
  }

  lemma {:induction false} TimesInFront(p: Request -> bool, msgs: seq<BrokerMsg>)
    requires msgs != []
    ensures TimesIn(p, msgs) == One(p(msgs[0].request)) + TimesIn(p, msgs[1..])
  {
    if |msgs| > 1 {
      TimesInFront(p, msgs[..|msgs| - 1]);
      assert msgs[..|msgs| - 1][1..] == msgs[1..][..|msgs| - 2];
    }
  }

  lemma {:induction false} TimesQueuedFront(p: Request -> bool, items: seq<FlowItem>)
    requires items != []
    ensures TimesQueued(p, items) == One(p(items[0].msg.request)) + TimesQueued(p, items[1..])
  {
    if |items| > 1 {
      TimesQueuedFront(p, items[..|items| - 1]);
      assert items[..|items| - 1][1..] == items[1..][..|items| - 2];
    }
  }
}

/** Resting orders, the books they stand in and the indexes that find them again. */
module RiskOrders {
  import opened Options
  import opened Trading

  const ORDER_TIMEOUT_MS := 3000
  const TICK_DELAY_MS := 10000

  /** Rounds to ten-thousandths, halves away from zero. */
  function EncodePrice(price: real): int {
    if price >= 0.0 then (price * 10000.0 + 0.5).Floor else -(-price * 10000.0 + 0.5).Floor
  }

  function DecodePrice(price: int): real {
    price as real / 10000.0
  }

  lemma EncodeIsMonotone(a: real, b: real)
    requires a <= b
    ensures EncodePrice(a) <= EncodePrice(b)
  {
    if a < 0.0 && b < 0.0 {
      assert -b * 10000.0 + 0.5 <= -a * 10000.0 + 0.5;
    }
  }

  /** Encoding is the nearest ten-thousandth; half of one goes away from zero. */
  lemma EncodeIsNearest(price: real)
    ensures price >= 0.0 ==> EncodePrice(price) as real - 0.5 <= price * 10000.0 < EncodePrice(price) as real + 0.5
    ensures EncodePrice(-price) == -EncodePrice(price)
  {}

  lemma EncodeDecodes(price: int)
    ensures EncodePrice(DecodePrice(price)) == price
  {
    assert DecodePrice(price) * 10000.0 == price as real;
  }

  datatype Order = Order(createTime: int, messageId: string, timestamp: int, fundId: string, code: string,
                         orderNo: string, batchNo: string, bsFlag: BsFlag, price: real, volume: int,
                         matchVolume: int, withdrawFailedTime: int, withdrawSucceed: bool, finished: bool)

  /** IsFinished remembers a positive answer in the order. */
  function Finish(o: Order, now: int): Order {
    if o.finished then o
    else if o.withdrawSucceed || o.matchVolume >= o.volume then o.(finished := true)
    else if o.orderNo == "" && now - o.createTime > ORDER_TIMEOUT_MS then o.(finished := true)
    else if o.orderNo != "" && o.withdrawFailedTime > 0 && now - o.withdrawFailedTime > ORDER_TIMEOUT_MS
    then o.(finished := true)
    else o
  }

  type OrderId = nat

  /** All orders ever created, by identity: what shares an order shares its identity. Identities
      are given out in order of creation. */
  type Orders = seq<Order>

  const NO_ORDER := Order(0, "", 0, "", "", "", "", OtherBs, 0.0, 0, 0, 0, false, true)

  function At(orders: Orders, id: OrderId): Order {
    if id < |orders| then orders[id] else NO_ORDER
  }

  function Put(orders: Orders, id: OrderId, o: Order): (r: Orders)
    ensures |r| == |orders|
  {
    if id < |orders| then orders[id := o] else orders
  }

  datatype MatchType = MatchOk | MatchWithdrawOk | MatchFailed | MatchOther

  datatype Knock = Knock(fundId: string, code: string, orderNo: string, matchType: MatchType, volume: int)

  /** single_orders_, batch_orders_ and knock_first_orders_ over the shared orders. */
  datatype Index = Index(orders: Orders, single: map<string, OrderId>, batch: map<string, seq<OrderId>>,
                         early: map<string, seq<Knock>>)

  function OrderNoKey(fundId: string, no: string): string {
    fundId + "#" + no
  }

  /** Asks the orders in turn whether they are finished, until one is not. */
  function AllFinished(orders: Orders, ids: seq<OrderId>, now: int): (r: (Orders, bool))
    ensures |r.0| == |orders|
    decreases |ids|
  {
    if ids == [] then (orders, true)
    else
      var o := Finish(At(orders, ids[0]), now);
      var next := Put(orders, ids[0], o);
      if o.finished then AllFinished(next, ids[1..], now) else (next, false)
  }

  /** A finished order leaves the index; its batch leaves with its last order. */
  function OnOrderFinish(ix: Index, id: OrderId, now: int): (r: Index)
    ensures |r.orders| == |ix.orders| && r.early == ix.early
  {
    var o := At(ix.orders, id);
    var batchKey := OrderNoKey(o.fundId, o.batchNo);
    var a :=
      if o.batchNo != "" && batchKey in ix.batch then
        var (orders, all) := AllFinished(ix.orders, ix.batch[batchKey], now);
        ix.(orders := orders, batch := if all then ix.batch - {batchKey} else ix.batch)
      else ix;
    if o.orderNo != "" then a.(single := a.single - {OrderNoKey(o.fundId, o.orderNo)}) else a
  }

  // ---- Order books ----

  /** A resting order in one side of a book. Both sides are kept best first, by ascending rank: the
      encoded price of an ask, its negation for a bid. */
  datatype Entry = Entry(rank: int, id: OrderId)

  /** The extremes of the ticks since the last clearing; 0 stands for none. */
  datatype Ticks = Ticks(seen: bool, maxBp1: real, minAp1: real, minNew: real, maxNew: real)

  const NO_TICKS := Ticks(false, 0.0, 0.0, 0.0, 0.0)

  datatype Book = Book(latest: int, ticks: Ticks, asks: seq<Entry>, bids: seq<Entry>)

  const EMPTY_BOOK := Book(0, NO_TICKS, [], [])

  function Rank(bsFlag: BsFlag, price: real): int {
    if bsFlag.Buy? then -EncodePrice(price) else EncodePrice(price)
  }

  /** multimap::insert: behind all entries of the same rank. */
  function InsertEntry(side: seq<Entry>, e: Entry): seq<Entry> {
    if side == [] || side[|side| - 1].rank <= e.rank then side + [e]
    else InsertEntry(side[..|side| - 1], e) + [side[|side| - 1]]
  }

  /** The first entry of a rank whose order carries the message id. */
  function FindEntry(orders: Orders, side: seq<Entry>, rank: int, messageId: string): (r: Option<nat>)
    ensures r.Some? ==> r.value < |side| && side[r.value].rank == rank
                        && At(orders, side[r.value].id).messageId == messageId
    ensures r.None? ==> forall i | 0 <= i < |side| ::
                          !(side[i].rank == rank && At(orders, side[i].id).messageId == messageId)
  {
    if side == [] then None
    else if side[0].rank == rank && At(orders, side[0].id).messageId == messageId then Some(0)
    else
      match FindEntry(orders, side[1..], rank, messageId)
      case None => None
      case Some(i) => Some(i + 1)
  }

  /** A new order that trades against `side` up to `limit`: finished orders in its way leave, the
      first active one blocks it. */
  function Sweep(ix: Index, side: seq<Entry>, limit: int, now: int): (Index, seq<Entry>, Option<OrderId>)
    decreases |side|
  {
    if side == [] || limit < side[0].rank then (ix, side, None)
    else
      var id := side[0].id;
      var o := Finish(At(ix.orders, id), now);
      var a := ix.(orders := Put(ix.orders, id, o));
      if o.finished then Sweep(OnOrderFinish(a, id, now), side[1..], limit, now)
      else (a, side, Some(id))
  }

  // ---- Ticks ----

  datatype Tick = Tick(timestamp: int, bp1: real, ap1: real, newPrice: real)

  function Larger(best: real, x: real): real {
    if x > 0.0 && (best <= 0.0 || x > best) then x else best
  }

  function Smaller(best: real, x: real): real {
    if x > 0.0 && (best <= 0.0 || x < best) then x else best
  }

  function Aggregate(t: Ticks, q: Tick): Ticks {
    var u := Ticks(t.seen, Larger(t.maxBp1, q.bp1), Smaller(t.minAp1, q.ap1),
                   Smaller(t.minNew, q.newPrice), Larger(t.maxNew, q.newPrice));
    u.(seen := t.seen || u != t)
  }

  predicate TickAccepted(b: Book, q: Tick) {
    !(b.latest > 0 && q.timestamp - b.latest < TICK_DELAY_MS)
  }

  function OnTick(b: Book, q: Tick): Book {
    if TickAccepted(b, q) then b.(ticks := Aggregate(b.ticks, q)) else b
  }

  function EncodePositive(price: real): int {
    if price > 0.0 then EncodePrice(price) else 0
  }

  function MaxBid(t: Ticks): int {
    var maxNew, maxBp1 := EncodePositive(t.maxNew), EncodePositive(t.maxBp1);
    var maxBid := if maxNew > 0 then maxNew else 0;
    if maxBp1 > 0 && maxBp1 > maxBid then maxBp1 else maxBid
  }

  function MinAsk(t: Ticks): int {
    var minNew, minAp1 := EncodePositive(t.minNew), EncodePositive(t.minAp1);
    var minAsk := if minNew > 0 then minNew else 0;
    if minAp1 > 0 && minAp1 < minAsk then minAp1 else minAsk
  }

  predicate TradesAsk(t: Ticks, price: int) {
    var maxNew, maxBp1 := EncodePositive(t.maxNew), EncodePositive(t.maxBp1);
    (maxBp1 > 0 && maxBp1 >= price) || (maxNew > 0 && maxNew > price)
  }

  predicate TradesBid(t: Ticks, price: int) {
    var minNew, minAp1 := EncodePositive(t.minNew), EncodePositive(t.minAp1);
    (minAp1 > 0 && minAp1 <= price) || (minNew > 0 && minNew < price)
  }

  /** The loops stop at the first entry beyond the bound. */
  function DropAsks(t: Ticks, asks: seq<Entry>): seq<Entry> {
    if asks == [] || MaxBid(t) < asks[0].rank then asks
    else (if TradesAsk(t, asks[0].rank) then [] else [asks[0]]) + DropAsks(t, asks[1..])
  }

  function DropBids(t: Ticks, bids: seq<Entry>): seq<Entry> {
    if bids == [] || MinAsk(t) > -bids[0].rank then bids
    else (if TradesBid(t, -bids[0].rank) then [] else [bids[0]]) + DropBids(t, bids[1..])
  }

  function TryHandleTick(b: Book): Book {
    if !b.ticks.seen then b
    else
      b.(asks := if MaxBid(b.ticks) > 0 then DropAsks(b.ticks, b.asks) else b.asks,
         bids := if MinAsk(b.ticks) > 0 then DropBids(b.ticks, b.bids) else b.bids,
         ticks := NO_TICKS)
  }

  // ---- One order against one book ----

  /** Wall clock in milliseconds, the same as raw date-time, and the time of day as hhmmssmmm. */
  datatype Clock = Clock(unix: int, raw: int, stamp: int)

  predicate InAuction(c: Clock) {
    c.stamp < 93000000 || 145700000 <= c.stamp < 150100000
  }

  /** Checks an order; what blocks it is the result. In auction time nothing is checked. */
  function CheckOrder(ix: Index, b: Book, bsFlag: BsFlag, price: real, c: Clock): (Index, Book, Option<OrderId>) {
    if InAuction(c) then (ix, b, None)
    else
      var d := TryHandleTick(b).(latest := c.raw);
      var limit := EncodePrice(price);
      match bsFlag
      case Buy =>
        var (jx, asks, block) := Sweep(ix, d.asks, limit, c.unix);
        (jx, d.(asks := asks), block)
      case Sell =>
        var (jx, bids, block) := Sweep(ix, d.bids, -limit, c.unix);
        (jx, d.(bids := bids), block)
      case _ => (ix, d, None)
  }

  /** Rests order `id` in the book. */
  function RestOrder(b: Book, o: Order, id: OrderId): Book {
    var e := Entry(Rank(o.bsFlag, o.price), id);
    match o.bsFlag
    case Buy => b.(bids := InsertEntry(b.bids, e))
    case Sell => b.(asks := InsertEntry(b.asks, e))
    case _ => b
  }

  function SideOf(b: Book, bsFlag: BsFlag): seq<Entry> {
    if bsFlag.Buy? then b.bids else b.asks
  }

  function WithSide(b: Book, bsFlag: BsFlag, side: seq<Entry>): Book {
    if bsFlag.Buy? then b.(bids := side) else b.(asks := side)
  }

  datatype Item = Item(code: string, orderNo: string, price: real, volume: int)

  /** A request, or the response to one; a response carries the numbers given to the orders. */
  datatype OrderMessage = OrderMessage(id: string, timestamp: int, fundId: string, bsFlag: BsFlag,
                                       batchNo: string, items: seq<Item>)

  function NewOrder(msg: OrderMessage, item: Item, now: int): Order {
    Order(now, msg.id, msg.timestamp, msg.fundId, item.code, "", "", msg.bsFlag, item.price, item.volume,
          0, 0, false, false)
  }

  /** The response to one order: without an order number the resting order is taken out; otherwise
      it gets its numbers, or, if no request was seen, a new order is put in unchecked. */
  function AnswerOrder(ix: Index, b: Book, rep: OrderMessage, item: Item, now: int): (Index, Book, Option<OrderId>) {
    if !rep.bsFlag.Buy? && !rep.bsFlag.Sell? then (ix, b, None)
    else
      var side := SideOf(b, rep.bsFlag);
      match FindEntry(ix.orders, side, Rank(rep.bsFlag, item.price), rep.id)
      case Some(i) =>
        if item.orderNo == "" then (ix, WithSide(b, rep.bsFlag, side[..i] + side[i + 1..]), None)
        else
          var id := side[i].id;
          var o := At(ix.orders, id).(batchNo := rep.batchNo, orderNo := item.orderNo);
          (ix.(orders := Put(ix.orders, id, o)), b, Some(id))
      case None =>
        if item.orderNo == "" then (ix, b, None)
        else
          var id := |ix.orders|;
          var o := NewOrder(rep, item, now).(batchNo := rep.batchNo, orderNo := item.orderNo);
          (ix.(orders := ix.orders + [o]), RestOrder(b, o, id), Some(id))
  }

  // ---- All books ----

  /** `options` says for every covered account whether only ETFs are covered. */
  datatype RiskState = RiskState(options: map<string, bool>, books: map<string, Book>, ix: Index)

  predicate StartsWith(s: string, prefix: string) {
    prefix <= s
  }

  predicate EndsWith(s: string, suffix: string) {
    |suffix| <= |s| && s[|s| - |suffix|..] == suffix
  }

  predicate IsETF(code: string) {
    |code| == 9 && ((EndsWith(code, ".SZ") && StartsWith(code, "159")) ||
                    (EndsWith(code, ".SH") && StartsWith(code, "5")))
  }

  predicate Covered(onlyEtf: bool, code: string) {
    !onlyEtf || IsETF(code)
  }

  function BookOf(s: RiskState, code: string): Book {
    if code in s.books then s.books[code] else EMPTY_BOOK
  }

  /** The check of the items from `i` on, each at its own clock; it stops at the first blocked one. */
  function CheckItems(s: RiskState, onlyEtf: bool, req: OrderMessage, i: nat, clocks: nat -> Clock)
    : (RiskState, Option<OrderId>)
    requires i <= |req.items|
    decreases |req.items| - i
  {
    if i == |req.items| then (s, None)
    else
      var item := req.items[i];
      if !Covered(onlyEtf, item.code) then CheckItems(s, onlyEtf, req, i + 1, clocks)
      else
        var (ix, b, block) := CheckOrder(s.ix, BookOf(s, item.code), req.bsFlag, item.price, clocks(i));
        var t := s.(books := s.books[item.code := b], ix := ix);
        if block.Some? then (t, block) else CheckItems(t, onlyEtf, req, i + 1, clocks)
  }

  function HandleTradeOrderReq(s: RiskState, req: OrderMessage, clocks: nat -> Clock): (RiskState, Option<OrderId>)
  {
    if req.fundId !in s.options then (s, None) else CheckItems(s, s.options[req.fundId], req, 0, clocks)
  }

  function RestItem(s: RiskState, req: OrderMessage, item: Item, now: int): RiskState {
    var o := NewOrder(req, item, now);
    s.(books := s.books[item.code := RestOrder(BookOf(s, item.code), o, |s.ix.orders|)],
       ix := s.ix.(orders := s.ix.orders + [o]))
  }

  function RestItems(s: RiskState, onlyEtf: bool, req: OrderMessage, i: nat, now: int): RiskState
    requires i <= |req.items|
    decreases |req.items| - i
  {
    if i == |req.items| then s
    else if !Covered(onlyEtf, req.items[i].code) then RestItems(s, onlyEtf, req, i + 1, now)
    else RestItems(RestItem(s, req, req.items[i], now), onlyEtf, req, i + 1, now)
  }

  function OnTradeOrderReqPass(s: RiskState, req: OrderMessage, now: int): RiskState {
    if req.fundId !in s.options then s else RestItems(s, s.options[req.fundId], req, 0, now)
  }

  /** A fill, withdrawal or failure of an order. */
  function KnockOrder(ix: Index, id: OrderId, k: Knock, now: int): Index {
    var o := At(ix.orders, id);
    var p :=
      match k.matchType
      case MatchOk => o.(matchVolume := o.matchVolume + k.volume)
      case MatchWithdrawOk => o.(withdrawSucceed := true)
      case MatchFailed => o.(withdrawSucceed := true)
      case MatchOther => o;
    var q := Finish(p, now);
    var jx := ix.(orders := Put(ix.orders, id, q));
    if q.finished then OnOrderFinish(jx, id, now) else jx
  }

  /** A report for an order number that is not known is kept for the response, except that a
      withdrawal is dropped. */
  function OnTradeKnock(s: RiskState, k: Knock, now: int): RiskState {
    var key := OrderNoKey(k.fundId, k.orderNo);
    if key in s.ix.single then s.(ix := KnockOrder(s.ix, s.ix.single[key], k, now))
    else if k.matchType.MatchWithdrawOk? || k.fundId !in s.options || !Covered(s.options[k.fundId], k.code) then s
    else
      var waiting := if key in s.ix.early then s.ix.early[key] else [];
      s.(ix := s.ix.(early := s.ix.early[key := waiting + [k]]))
  }

  function Knocks(s: RiskState, ks: seq<Knock>, now: int): RiskState
    decreases |ks|
  {
    if ks == [] then s else Knocks(OnTradeKnock(s, ks[0], now), ks[1..], now)
  }

  /** A response under way: `held` are the early fills found last, `batch` the orders found so far
      if the response has a batch number. */
  datatype Answering = Answering(s: RiskState, held: Option<seq<Knock>>, batch: seq<OrderId>)

  function AnswerItem(a: Answering, rep: OrderMessage, item: Item, now: int): Answering {
    var (ix, b, found) := AnswerOrder(a.s.ix, BookOf(a.s, item.code), rep, item, now);
    var books := a.s.books[item.code := b];
    if found == None || item.orderNo == "" then a.(s := a.s.(books := books, ix := ix))
    else
      var key := OrderNoKey(rep.fundId, item.orderNo);
      Answering(a.s.(books := books,
                     ix := ix.(early := ix.early - {key}, single := ix.single[key := found.value])),
                if key in ix.early then Some(ix.early[key]) else a.held,
                if rep.batchNo != "" then a.batch + [found.value] else a.batch)
  }

  function AnswerItems(a: Answering, onlyEtf: bool, rep: OrderMessage, i: nat, now: int): Answering
    requires i <= |rep.items|
    decreases |rep.items| - i
  {
    if i == |rep.items| then a
    else if !Covered(onlyEtf, rep.items[i].code) then AnswerItems(a, onlyEtf, rep, i + 1, now)
    else AnswerItems(AnswerItem(a, rep, rep.items[i], now), onlyEtf, rep, i + 1, now)
  }

  function FileBatch(ix: Index, rep: OrderMessage, batch: seq<OrderId>): Index {
    if batch == [] then ix else ix.(batch := ix.batch[OrderNoKey(rep.fundId, rep.batchNo) := batch])
  }

  function HandleTradeOrderRep(s: RiskState, rep: OrderMessage, now: int): RiskState {
    if rep.fundId !in s.options then s
    else
      var a := AnswerItems(Answering(s, None, []), s.options[rep.fundId], rep, 0, now);
      var t := a.s.(ix := FileBatch(a.s.ix, rep, a.batch));
      if a.held.Some? then Knocks(t, a.held.value, now) else t
  }

  // ---- Withdrawals ----

  datatype WithdrawMessage = WithdrawMessage(fundId: string, orderNo: string, batchNo: string, failed: bool)

  function MarkAll(orders: Orders, ids: seq<OrderId>, mark: Order -> Order): (r: Orders)
    ensures |r| == |orders|
    decreases |ids|
  {
    if ids == [] then orders else MarkAll(Put(orders, ids[0], mark(At(orders, ids[0]))), ids[1..], mark)
  }

  function Failing(now: int): Order -> Order {
    (o: Order) => o.(withdrawFailedTime := now)
  }

  const SUCCEEDING: Order -> Order := (o: Order) => o.(withdrawSucceed := true)

  /** The orders a withdrawal names, by batch number first. */
  function Targets(ix: Index, m: WithdrawMessage): seq<OrderId> {
    if m.batchNo != "" then
      var key := OrderNoKey(m.fundId, m.batchNo);
      if key in ix.batch then ix.batch[key] else []
    else if m.orderNo != "" then
      var key := OrderNoKey(m.fundId, m.orderNo);
      if key in ix.single then [ix.single[key]] else []
    else []
  }

  function HandleTradeWithdrawReq(s: RiskState, m: WithdrawMessage, now: int): RiskState {
    s.(ix := s.ix.(orders := MarkAll(s.ix.orders, Targets(s.ix, m), Failing(now))))
  }

  function HandleTradeWithdrawRep(s: RiskState, m: WithdrawMessage, now: int): RiskState {
    var orders := MarkAll(s.ix.orders, Targets(s.ix, m), if m.failed then Failing(now) else SUCCEEDING);
    s.(ix := s.ix.(orders := orders,
                   batch := if m.batchNo != "" && !m.failed then s.ix.batch - {OrderNoKey(m.fundId, m.batchNo)}
                            else s.ix.batch))
  }

  function OnTickOf(s: RiskState, code: string, q: Tick): RiskState {
    if code in s.books then s.(books := s.books[code := OnTick(s.books[code], q)]) else s
  }
}

/** The self-trade check as it is updated in place: books and indexes over one table of orders. */
module AntiSelfKnock {
  import opened Options
  import opened Trading
  import opened RiskOrders

  class OrderBook {
    const risker: AntiSelfKnockRisker
    var latestOrderTimestamp: int
    var hasTick: bool
    var maxBp1: real
    var minAp1: real
    var minNewPrice: real
    var maxNewPrice: real
    var asks: seq<Entry>
    var bids: seq<Entry>

    constructor (risker: AntiSelfKnockRisker)
      ensures this.risker == risker && View() == EMPTY_BOOK
    {
      this.risker := risker;
      latestOrderTimestamp, hasTick := 0, false;
      maxBp1, minAp1, minNewPrice, maxNewPrice := 0.0, 0.0, 0.0, 0.0;
      asks, bids := [], [];
    }

    ghost function View(): Book
      reads this
    {
      Book(latestOrderTimestamp, TicksView(), asks, bids)
    }

    function TicksView(): Ticks
      reads this
    {
      Ticks(hasTick, maxBp1, minAp1, minNewPrice, maxNewPrice)
    }

    method OnTick(q: Tick)
      modifies this
      ensures View() == RiskOrders.OnTick(old(View()), q)
    {
      if latestOrderTimestamp > 0 && q.timestamp - latestOrderTimestamp < TICK_DELAY_MS {
        return;
      }
      if q.bp1 > 0.0 && (maxBp1 <= 0.0 || q.bp1 > maxBp1) {
        hasTick, maxBp1 := true, q.bp1;
      }
      if q.ap1 > 0.0 && (minAp1 <= 0.0 || q.ap1 < minAp1) {
        hasTick, minAp1 := true, q.ap1;
      }
      if q.newPrice > 0.0 {
        if minNewPrice <= 0.0 || q.newPrice < minNewPrice {
          hasTick, minNewPrice := true, q.newPrice;
        }
        if maxNewPrice <= 0.0 || q.newPrice > maxNewPrice {
          hasTick, maxNewPrice := true, q.newPrice;
        }
      }
    }

    method TryHandleTick()
      modifies this
      ensures View() == RiskOrders.TryHandleTick(old(View()))
    {
      if !hasTick {
        return;
      }
      var t := TicksView();
      if MaxBid(t) > 0 {
        PruneAsks(t);
      }
      if MinAsk(t) > 0 {
        PruneBids(t);
      }
      hasTick, maxBp1, minAp1, minNewPrice, maxNewPrice := false, 0.0, 0.0, 0.0, 0.0;
    }

    method PruneAsks(t: Ticks)
      modifies this`asks
      ensures asks == DropAsks(t, old(asks))
    {
      var i := 0;
      while i < |asks|
        invariant 0 <= i <= |asks|
        invariant asks[..i] + DropAsks(t, asks[i..]) == DropAsks(t, old(asks))
        decreases |asks| - i
      {
        if MaxBid(t) < asks[i].rank {
          assert asks == asks[..i] + asks[i..];
          break;
        }
        ghost var rest := DropAsks(t, asks[i..][1..]);
        assert asks[i..][1..] == asks[i + 1..];
        if TradesAsk(t, asks[i].rank) {
          assert DropAsks(t, asks[i..]) == rest;
          ghost var kept := asks[..i];
          asks := asks[..i] + asks[i + 1..];
          assert asks[..i] == kept;
        } else {
          assert asks[..i] + ([asks[i]] + rest) == asks[..i + 1] + rest;
          i := i + 1;
        }
      }
      assert asks[..|asks|] + [] == asks;
    }

    method PruneBids(t: Ticks)
      modifies this`bids
      ensures bids == DropBids(t, old(bids))
    {
      var i := 0;
      while i < |bids|
        invariant 0 <= i <= |bids|
        invariant bids[..i] + DropBids(t, bids[i..]) == DropBids(t, old(bids))
        decreases |bids| - i
      {
        if MinAsk(t) > -bids[i].rank {
          assert bids == bids[..i] + bids[i..];
          break;
        }
        ghost var rest := DropBids(t, bids[i..][1..]);
        assert bids[i..][1..] == bids[i + 1..];
        if TradesBid(t, -bids[i].rank) {
          assert DropBids(t, bids[i..]) == rest;
          ghost var kept := bids[..i];
          bids := bids[..i] + bids[i + 1..];
          assert bids[..i] == kept;
        } else {
          assert bids[..i] + ([bids[i]] + rest) == bids[..i + 1] + rest;
          i := i + 1;
        }
      }
      assert bids[..|bids|] + [] == bids;
    }

    /** Returns the resting order that blocks the new one, if any. */
    method HandleTradeOrderReq(bsFlag: BsFlag, price: real, c: Clock) returns (block: Option<OrderId>)
      modifies this, risker`orders, risker`single, risker`batch
      ensures (risker.IndexView(), View(), block) == CheckOrder(old(risker.IndexView()), old(View()), bsFlag, price, c)
    {
      block := None;
      if c.stamp < 93000000 || (c.stamp >= 145700000 && c.stamp < 150100000) {
        return;
      }
      TryHandleTick();
      latestOrderTimestamp := c.raw;
      var orderPrice := EncodePrice(price);
      if bsFlag.Buy? {
        asks, block := risker.SweepSide(asks, orderPrice, c.unix);
      } else if bsFlag.Sell? {
        bids, block := risker.SweepSide(bids, -orderPrice, c.unix);
      }
    }

    method OnTradeOrderReqPass(o: Order, id: OrderId)
      modifies this`asks, this`bids
      ensures View() == RestOrder(old(View()), o, id)
    {
      var orderPrice := EncodePrice(o.price);
      if o.bsFlag.Buy? {
        bids := InsertEntry(bids, Entry(-orderPrice, id));
      } else if o.bsFlag.Sell? {
        asks := InsertEntry(asks, Entry(orderPrice, id));
      }
    }

    /** Walks the orders of one price up to the one of the message. */
    method FindOrder(side: seq<Entry>, rank: int, messageId: string) returns (at: Option<nat>)
      ensures at == FindEntry(risker.orders, side, rank, messageId)
    {
      for i := 0 to |side|
        invariant var rest := FindEntry(risker.orders, side[i..], rank, messageId);
                  FindEntry(risker.orders, side, rank, messageId) ==
                  if rest.Some? then Some(i + rest.value) else None
      {
        if side[i].rank == rank && At(risker.orders, side[i].id).messageId == messageId {
          return Some(i);
        }
        assert side[i..][1..] == side[i + 1..];
      }
      return None;
    }

    method HandleTradeOrderRep(rep: OrderMessage, item: Item, now: int) returns (found: Option<OrderId>)
      modifies this, risker`orders
      ensures (risker.IndexView(), View(), found) == AnswerOrder(old(risker.IndexView()), old(View()), rep, item, now)
    {
      found := None;
      if !rep.bsFlag.Buy? && !rep.bsFlag.Sell? {
        return;
      }
      var side := if rep.bsFlag.Buy? then bids else asks;
      var at := FindOrder(side, Rank(rep.bsFlag, item.price), rep.id);
      if at.Some? {
        if item.orderNo == "" {
          side := side[..at.value] + side[at.value + 1..];
          if rep.bsFlag.Buy? {
            bids := side;
          } else {
            asks := side;
          }
        } else {
          var id := side[at.value].id;
          risker.orders := Put(risker.orders, id,
            At(risker.orders, id).(batchNo := rep.batchNo, orderNo := item.orderNo));
          found := Some(id);
        }
      } else if item.orderNo != "" {
        var id := |risker.orders|;
        var o := NewOrder(rep, item, now).(batchNo := rep.batchNo, orderNo := item.orderNo);
        risker.orders := risker.orders + [o];
        OnTradeOrderReqPass(o, id);
        found := Some(id);
      }
    }
  }

  class AntiSelfKnockRisker {
    var options: map<string, bool>
    var books: map<string, OrderBook>
    var orders: Orders
    var single: map<string, OrderId>
    var batch: map<string, seq<OrderId>>
    var early: map<string, seq<Knock>>

    constructor (options: map<string, bool>)
      ensures Valid() && View() == RiskState(options, map[], Index([], map[], map[], map[]))
    {
      this.options, books, orders := options, map[], [];
      single, batch, early := map[], map[], map[];
    }

    ghost function IndexView(): Index
      reads `orders, `single, `batch, `early
    {
      Index(orders, single, batch, early)
    }

    /** Every code has a book of its own. */
    ghost predicate Valid()
      reads `books, books.Values
    {
      && (forall c | c in books :: books[c].risker == this)
      && (forall c, d | c in books && d in books && c != d :: books[c] != books[d])
    }

    ghost function BookViews(): map<string, Book>
      reads `books, books.Values
    {
      map c | c in books :: books[c].View()
    }

    ghost function View(): RiskState
      reads this, books.Values
    {
      RiskState(options, BookViews(), IndexView())
    }

    method IsFinished(id: OrderId, now: int) returns (done: bool)
      modifies `orders
      ensures var o := Finish(At(old(orders), id), now); orders == Put(old(orders), id, o) && done == o.finished
    {
      var o := Finish(At(orders, id), now);
      orders := Put(orders, id, o);
      done := o.finished;
    }

    /** Asks the orders of a batch until one is not finished. */
    method AllAreFinished(ids: seq<OrderId>, now: int) returns (all: bool)
      modifies `orders
      ensures (orders, all) == AllFinished(old(orders), ids, now)
    {
      for i := 0 to |ids|
        invariant AllFinished(orders, ids[i..], now) == AllFinished(old(orders), ids, now)
      {
        assert ids[i..][1..] == ids[i + 1..];
        var done := IsFinished(ids[i], now);
        if !done {
          return false;
        }
      }
      all := true;
    }

    method OnOrderFinish(id: OrderId, now: int)
      modifies `orders, `single, `batch
      ensures IndexView() == RiskOrders.OnOrderFinish(old(IndexView()), id, now)
    {
      var o := At(orders, id);
      if o.batchNo != "" {
        var key := OrderNoKey(o.fundId, o.batchNo);
        if key in batch {
          var all := AllAreFinished(batch[key], now);
          if all {
            batch := batch - {key};
          }
        }
      }
      if o.orderNo != "" {
        single := single - {OrderNoKey(o.fundId, o.orderNo)};
      }
    }

    /** Takes finished orders off one side of a book, up to the first active one in the way. */
    method SweepSide(side: seq<Entry>, limit: int, now: int) returns (rest: seq<Entry>, block: Option<OrderId>)
      modifies `orders, `single, `batch
      ensures (IndexView(), rest, block) == Sweep(old(IndexView()), side, limit, now)
    {
      rest, block := side, None;
      while rest != []
        invariant block == None
        invariant Sweep(IndexView(), rest, limit, now) == Sweep(old(IndexView()), side, limit, now)
        decreases |rest|
      {
        if limit < rest[0].rank {
          break;
        }
        var id := rest[0].id;
        var remove := IsFinished(id, now);
        if remove {
          rest := rest[1..];
          OnOrderFinish(id, now);
        } else {
          block := Some(id);
          break;
        }
      }
    }

    method MustGetOrderBook(code: string) returns (book: OrderBook)
      requires Valid()
      modifies `books
      ensures Valid() && code in books && books[code] == book
      ensures book.View() == BookOf(old(View()), code)
      ensures BookViews() == old(BookViews())[code := book.View()]
      ensures fresh(books.Values - old(books.Values))
    {
      if code in books {
        book := books[code];
      } else {
        book := new OrderBook(this);
        books := books[code := book];
      }
    }

    /** Changing one book changes the view of its code only. */
    twostate lemma OneBookChanged(code: string)
      requires old(Valid()) && books == old(books) && code in books
      requires forall c | c in books && c != code :: unchanged(books[c])
      ensures BookViews() == old(BookViews())[code := books[code].View()]
    {}

    method CheckItem(bsFlag: BsFlag, item: Item, c: Clock) returns (block: Option<OrderId>)
      requires Valid()
      modifies this, books.Values
      ensures Valid() && options == old(options)
      ensures fresh(books.Values - old(books.Values))
      ensures (IndexView(), BookOf(View(), item.code), block) ==
              CheckOrder(old(IndexView()), BookOf(old(View()), item.code), bsFlag, item.price, c)
      ensures BookViews() == old(BookViews())[item.code := BookOf(View(), item.code)]
    {
      var book := MustGetOrderBook(item.code);
      label got:
      block := book.HandleTradeOrderReq(bsFlag, item.price, c);
      OneBookChanged@got(item.code);
    }

    method HandleTradeOrderReq(req: OrderMessage, clocks: nat -> Clock) returns (block: Option<OrderId>)
      requires Valid()
      modifies this, books.Values
      ensures Valid()
      ensures (View(), block) == RiskOrders.HandleTradeOrderReq(old(View()), req, clocks)
    {
      block := None;
      if req.fundId !in options {
        return;
      }
      var onlyEtf := options[req.fundId];
      var i := 0;
      while i < |req.items|
        invariant 0 <= i <= |req.items| && block == None
        invariant Valid() && fresh(books.Values - old(books.Values))
        invariant CheckItems(View(), onlyEtf, req, i, clocks) == CheckItems(old(View()), onlyEtf, req, 0, clocks)
      {
        if !onlyEtf || IsETF(req.items[i].code) {
          block := CheckItem(req.bsFlag, req.items[i], clocks(i));
          if block != None {
            return;
          }
        }
        i := i + 1;
      }
    }

    method RestInBook(code: string, o: Order, id: OrderId, ghost b: Book)
      requires Valid() && b == BookOf(View(), code)
      modifies `books, books.Values
      ensures Valid() && fresh(books.Values - old(books.Values))
      ensures BookViews() == old(BookViews())[code := RestOrder(b, o, id)]
    {
      var book := MustGetOrderBook(code);
      label got:
      book.OnTradeOrderReqPass(o, id);
      OneBookChanged@got(code);
    }

    method RestOne(req: OrderMessage, item: Item, now: int)
      requires Valid()
      modifies this, books.Values
      ensures Valid() && View() == RestItem(old(View()), req, item, now)
      ensures fresh(books.Values - old(books.Values))
    {
      var id, o := |orders|, NewOrder(req, item, now);
      RestInBook(item.code, o, id, BookOf(View(), item.code));
      orders := orders + [o];
    }

    method OnTradeOrderReqPass(req: OrderMessage, now: int)
      requires Valid()
      modifies this, books.Values
      ensures Valid()
      ensures View() == RiskOrders.OnTradeOrderReqPass(old(View()), req, now)
    {
      if req.fundId !in options {
        return;
      }
      var onlyEtf := options[req.fundId];
      for i := 0 to |req.items|
        invariant Valid() && fresh(books.Values - old(books.Values))
        invariant RestItems(View(), onlyEtf, req, i, now) == RestItems(old(View()), onlyEtf, req, 0, now)
      {
        if !onlyEtf || IsETF(req.items[i].code) {
          RestOne(req, req.items[i], now);
        }
      }
    }

    /** A report about an order whose number is known. */
    method KnockKnown(id: OrderId, k: Knock, now: int)
      modifies `orders, `single, `batch
      ensures IndexView() == KnockOrder(old(IndexView()), id, k, now)
    {
      var o := At(orders, id);
      if k.matchType.MatchOk? {
        o := o.(matchVolume := o.matchVolume + k.volume);
      } else if k.matchType.MatchWithdrawOk? || k.matchType.MatchFailed? {
        o := o.(withdrawSucceed := true);
      }
      o := Finish(o, now);
      orders := Put(orders, id, o);
      if o.finished {
        OnOrderFinish(id, now);
      }
    }

    method OnTradeKnock(k: Knock, now: int)
      modifies `orders, `single, `batch, `early
      ensures View() == RiskOrders.OnTradeKnock(old(View()), k, now)
    {
      var key := OrderNoKey(k.fundId, k.orderNo);
      if key in single {
        KnockKnown(single[key], k, now);
      } else {
        if k.matchType.MatchWithdrawOk? || k.fundId !in options {
          return;
        }
        var onlyEtf := options[k.fundId];
        if !onlyEtf || IsETF(k.code) {
          early := early[key := (if key in early then early[key] else []) + [k]];
        }
      }
    }

    method AnswerInBook(rep: OrderMessage, item: Item, now: int) returns (found: Option<OrderId>)
      requires Valid()
      modifies `books, `orders, books.Values
      ensures Valid() && fresh(books.Values - old(books.Values))
      ensures (IndexView(), BookOf(View(), item.code), found) ==
              AnswerOrder(old(IndexView()), BookOf(old(View()), item.code), rep, item, now)
      ensures BookViews() == old(BookViews())[item.code := BookOf(View(), item.code)]
    {
      var book := MustGetOrderBook(item.code);
      label got:
      found := book.HandleTradeOrderRep(rep, item, now);
      OneBookChanged@got(item.code);
    }

    /** An answered order is filed under its number, and what came early for it is taken out. */
    method FileOrder(key: string, id: OrderId, held: Option<seq<Knock>>) returns (held': Option<seq<Knock>>)
      modifies `single, `early
      ensures IndexView() == old(IndexView()).(early := old(early) - {key}, single := old(single)[key := id])
      ensures held' == if key in old(early) then Some(old(early)[key]) else held
    {
      held' := held;
      if key in early {
        held' := Some(early[key]);
        early := early - {key};
      }
      single := single[key := id];
      assert early == old(early) - {key};
    }

    method AnswerOne(rep: OrderMessage, item: Item, now: int, held: Option<seq<Knock>>, filed: seq<OrderId>)
      returns (held': Option<seq<Knock>>, filed': seq<OrderId>)
      requires Valid()
      modifies `books, `orders, `single, `early, books.Values
      ensures Valid()
      ensures fresh(books.Values - old(books.Values))
      ensures Answering(View(), held', filed') == AnswerItem(Answering(old(View()), held, filed), rep, item, now)
    {
      held', filed' := held, filed;
      var found := AnswerInBook(rep, item, now);
      if found != None && item.orderNo != "" {
        held' := FileOrder(OrderNoKey(rep.fundId, item.orderNo), found.value, held);
        if rep.batchNo != "" {
          filed' := filed' + [found.value];
        }
      }
    }

    method AnswerAll(rep: OrderMessage, onlyEtf: bool, now: int)
      returns (held: Option<seq<Knock>>, filed: seq<OrderId>)
      requires Valid()
      modifies this, books.Values
      ensures Valid()
      ensures Answering(View(), held, filed) == AnswerItems(Answering(old(View()), None, []), onlyEtf, rep, 0, now)
    {
      held, filed := None, [];
      for i := 0 to |rep.items|
        invariant Valid() && fresh(books.Values - old(books.Values))
        invariant AnswerItems(Answering(View(), held, filed), onlyEtf, rep, i, now)
               == AnswerItems(Answering(old(View()), None, []), onlyEtf, rep, 0, now)
      {
        if !onlyEtf || IsETF(rep.items[i].code) {
          held, filed := AnswerOne(rep, rep.items[i], now, held, filed);
        }
      }
    }

    method ReplayKnocks(ks: seq<Knock>, now: int)
      modifies `orders, `single, `batch, `early
      ensures View() == Knocks(old(View()), ks, now)
    {
      for i := 0 to |ks|
        invariant Knocks(View(), ks[i..], now) == Knocks(old(View()), ks, now)
      {
        assert ks[i..][1..] == ks[i + 1..];
        OnTradeKnock(ks[i], now);
      }
    }

    method HandleTradeOrderRep(rep: OrderMessage, now: int)
      requires Valid()
      modifies this, books.Values
      ensures Valid()
      ensures View() == RiskOrders.HandleTradeOrderRep(old(View()), rep, now)
    {
      if rep.fundId !in options {
        return;
      }
      var held, filed := AnswerAll(rep, options[rep.fundId], now);
      if filed != [] {
        batch := batch[OrderNoKey(rep.fundId, rep.batchNo) := filed];
      }
      if held != None {
        ReplayKnocks(held.value, now);
      }
    }

    method Mark(ids: seq<OrderId>, mark: Order -> Order)
      modifies `orders
      ensures orders == MarkAll(old(orders), ids, mark)
    {
      for i := 0 to |ids|
        invariant MarkAll(orders, ids[i..], mark) == MarkAll(old(orders), ids, mark)
      {
        assert ids[i..][1..] == ids[i + 1..];
        orders := Put(orders, ids[i], mark(At(orders, ids[i])));
      }
    }

    method HandleTradeWithdrawReq(m: WithdrawMessage, now: int)
      modifies `orders
      ensures View() == RiskOrders.HandleTradeWithdrawReq(old(View()), m, now)
    {
      if m.batchNo != "" {
        var key := OrderNoKey(m.fundId, m.batchNo);
        if key in batch {
          Mark(batch[key], Failing(now));
        }
      } else if m.orderNo != "" {
        var key := OrderNoKey(m.fundId, m.orderNo);
        if key in single {
          Mark([single[key]], Failing(now));
        }
      }
    }

    method HandleTradeWithdrawRep(m: WithdrawMessage, now: int)
      modifies `orders, `batch
      ensures View() == RiskOrders.HandleTradeWithdrawRep(old(View()), m, now)
    {
      var mark := if m.failed then Failing(now) else SUCCEEDING;
      if m.batchNo != "" {
        var key := OrderNoKey(m.fundId, m.batchNo);
        if key in batch {
          Mark(batch[key], mark);
          if !m.failed {
            batch := batch - {key};
          }
        }
      } else if m.orderNo != "" {
        var key := OrderNoKey(m.fundId, m.orderNo);
        if key in single {
          Mark([single[key]], mark);
        }
      }
    }

    method OnTick(code: string, q: Tick)
      requires Valid()
      modifies books.Values
      ensures Valid() && View() == OnTickOf(old(View()), code, q)
    {
      if code in books {
        books[code].OnTick(q);
        OneBookChanged(code);
      }
    }
  }
}

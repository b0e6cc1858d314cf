/** The check is alive: an order that stands in a book blocks every order that would trade with it. */
module CheckLiveness {
  import opened Options
  import opened Trading
  import opened RiskOrders
  import opened SelfTradeSafety
  import opened OrderIdentity
  import opened OrderLifetime
  import opened TickPruning
  import opened RestingOrders

  /** An order that is neither filled nor ended, whose response is not overdue and whose last withdrawal, if any,
      was not refused too long ago. */
  predicate Alive(o: Order, now: int) {
    && !o.finished && !o.withdrawSucceed && o.matchVolume < o.volume
    && (o.orderNo == "" ==> now <= o.createTime + 3000)
    && (o.orderNo != "" && o.withdrawFailedTime > 0 ==> now <= o.withdrawFailedTime + 3000)
  }

  lemma AliveExactly(o: Order, now: int)
    ensures Alive(o, now) <==> !Finish(o, now).finished
    ensures Alive(o, now) ==> Finish(o, now) == o
  {}

  /** A tick at or through the price of a resting order. */
  predicate Reaches(q: Tick, sell: bool, rank: int) {
    if sell then ReachesAsk(q, rank) else QuoteReaches(q, -rank) || TradeReaches(q, -rank)
  }

  /** A response without a number to the order's message, at its code, side and price. */
  predicate Rejects(rep: OrderMessage, o: Order) {
    && rep.id == o.messageId && rep.bsFlag == o.bsFlag
    && exists item :: item in rep.items && item.orderNo == "" && item.code == o.code
                      && EncodePrice(item.price) == EncodePrice(o.price)
  }

  /** Events that neither reject an order nor bring a tick that reaches it. */
  predicate Spares(ev: Event, o: Order) {
    match ev
    case Response(rep, _) => !Rejects(rep, o)
    case Quote(code, q) =>
      code == o.code ==>
        !Reaches(q, o.bsFlag.Sell?, if o.bsFlag.Sell? then EncodePrice(o.price) else -EncodePrice(o.price))
    case _ => true
  }

  // ---- Pending ticks ----

  /** The ticks that are still to be handled leave an order alone. */
  predicate Calm(t: Ticks, sell: bool, rank: int) {
    if sell then !TradesAsk(t, rank) else !TradesBid(t, -rank)
  }

  lemma NoTicksAreCalm(sell: bool, rank: int)
    ensures Calm(NO_TICKS, sell, rank)
  {}

  lemma AggregateTradesBidOnly(t: Ticks, q: Tick, price: int)
    requires TradesBid(Aggregate(t, q), price)
    ensures TradesBid(t, price) || TradesBid(Single(q), price)
  {
    SmallerEncodes(t.minAp1, q.ap1);
    SmallerEncodes(t.minNew, q.newPrice);
    SmallerEncodes(0.0, q.ap1);
    SmallerEncodes(0.0, q.newPrice);
  }

  lemma TickStaysCalm(b: Book, q: Tick, sell: bool, rank: int)
    requires Calm(b.ticks, sell, rank) && !Reaches(q, sell, rank)
    ensures Calm(OnTick(b, q).ticks, sell, rank)
  {
    if TickAccepted(b, q) {
      if sell {
        AggregateTradesAsk(b.ticks, q, rank);
        SingleReachesAsk(q, rank);
      } else if TradesBid(Aggregate(b.ticks, q), -rank) {
        AggregateTradesBidOnly(b.ticks, q, -rank);
        SingleTrades(q, -rank);
      }
    }
  }

  function SideOn(b: Book, sell: bool): seq<Entry> {
    if sell then b.asks else b.bids
  }

  lemma {:induction false} DropAsksKeeps(t: Ticks, asks: seq<Entry>, e: Entry)
    requires e in asks && !TradesAsk(t, e.rank)
    ensures e in DropAsks(t, asks)
  {
    if asks[0] != e && MaxBid(t) >= asks[0].rank {
      assert asks == [asks[0]] + asks[1..];
      DropAsksKeeps(t, asks[1..], e);
    }
  }

  lemma {:induction false} DropBidsKeeps(t: Ticks, bids: seq<Entry>, e: Entry)
    requires e in bids && !TradesBid(t, -e.rank)
    ensures e in DropBids(t, bids)
  {
    if bids[0] != e && MinAsk(t) <= -bids[0].rank {
      assert bids == [bids[0]] + bids[1..];
      DropBidsKeeps(t, bids[1..], e);
    }
  }

  /** Handling calm ticks keeps the order and leaves no ticks behind that were not clear before. */
  lemma PruneKeeps(b: Book, sell: bool, e: Entry)
    requires e in SideOn(b, sell) && Calm(b.ticks, sell, e.rank)
    ensures e in SideOn(TryHandleTick(b), sell) && Calm(TryHandleTick(b).ticks, sell, e.rank)
  {
    NoTicksAreCalm(sell, e.rank);
    if sell {
      DropAsksKeeps(b.ticks, b.asks, e);
    } else {
      DropBidsKeeps(b.ticks, b.bids, e);
    }
  }

  // ---- Checks ----

  /** An order leaves a side in a sweep only as finished. */
  lemma {:induction false} SweepKeepsOrEnds(ix: Index, side: seq<Entry>, limit: int, now: int, e: Entry)
    requires e in side && e.id < |ix.orders|
    ensures var (jx, rest, _) := Sweep(ix, side, limit, now);
            |jx.orders| == |ix.orders| && (e in rest || jx.orders[e.id].finished)
    decreases |side|
  {
    SweepGrows(ix, side, limit, now);
    if side[0].rank <= limit {
      var id := side[0].id;
      var a := ix.(orders := Put(ix.orders, id, Finish(At(ix.orders, id), now)));
      var b := OnOrderFinish(a, id, now);
      OnOrderFinishGrows(a, id, now);
      SweepGrows(b, side[1..], limit, now);
      SweepSize(b, side[1..], limit, now);
      if side[0] != e {
        assert side == [side[0]] + side[1..];
        SweepKeepsOrEnds(b, side[1..], limit, now, e);
      }
    }
  }

  lemma {:induction false} SweepSize(ix: Index, side: seq<Entry>, limit: int, now: int)
    ensures |Sweep(ix, side, limit, now).0.orders| == |ix.orders|
    decreases |side|
  {
    if side != [] && side[0].rank <= limit {
      var id := side[0].id;
      var a := ix.(orders := Put(ix.orders, id, Finish(At(ix.orders, id), now)));
      SweepSize(OnOrderFinish(a, id, now), side[1..], limit, now);
    }
  }

  /** The order stands and no pending tick takes it out. */
  ghost predicate Stands(b: Book, sell: bool, e: Entry) {
    e in SideOn(b, sell) && Calm(b.ticks, sell, e.rank)
  }

  lemma CheckKeepsOrEnds(ix: Index, b: Book, bsFlag: BsFlag, price: real, c: Clock, sell: bool, e: Entry)
    requires Stands(b, sell, e) && e.id < |ix.orders|
    ensures var (jx, d, _) := CheckOrder(ix, b, bsFlag, price, c);
            |jx.orders| == |ix.orders| && (Stands(d, sell, e) || jx.orders[e.id].finished)
  {
    if !InAuction(c) {
      PruneKeeps(b, sell, e);
      var d := TryHandleTick(b);
      match bsFlag
      case Buy =>
        SweepSize(ix, d.asks, EncodePrice(price), c.unix);
        if sell {
          SweepKeepsOrEnds(ix, d.asks, EncodePrice(price), c.unix, e);
        }
      case Sell =>
        SweepSize(ix, d.bids, -EncodePrice(price), c.unix);
        if !sell {
          SweepKeepsOrEnds(ix, d.bids, -EncodePrice(price), c.unix, e);
        }
      case _ =>
    }
  }

  /** The order stands in the book of a code, or has ended. */
  ghost predicate StandsOrEnded(s: RiskState, code: string, sell: bool, e: Entry) {
    e.id < |s.ix.orders| && (Stands(BookOf(s, code), sell, e) || s.ix.orders[e.id].finished)
  }

  lemma AfterCheckKeeps(s: RiskState, bsFlag: BsFlag, item: Item, c: Clock, code: string, sell: bool, e: Entry)
    requires StandsOrEnded(s, code, sell, e)
    ensures StandsOrEnded(AfterCheck(s, bsFlag, item, c), code, sell, e)
  {
    var b := BookOf(s, item.code);
    CheckOrderGrows(s.ix, b, bsFlag, item.price, c);
    if Stands(BookOf(s, code), sell, e) && item.code == code {
      CheckKeepsOrEnds(s.ix, b, bsFlag, item.price, c, sell, e);
    }
  }

  lemma {:induction false} CheckItemsKeep(s: RiskState, onlyEtf: bool, req: OrderMessage, i: nat, clocks: nat -> Clock,
                                         code: string, sell: bool, e: Entry)
    requires i <= |req.items| && StandsOrEnded(s, code, sell, e)
    ensures StandsOrEnded(CheckItems(s, onlyEtf, req, i, clocks).0, code, sell, e)
    decreases |req.items| - i
  {
    if i < |req.items| {
      if Covered(onlyEtf, req.items[i].code) {
        AfterCheckKeeps(s, req.bsFlag, req.items[i], clocks(i), code, sell, e);
        CheckItemsKeep(AfterCheck(s, req.bsFlag, req.items[i], clocks(i)), onlyEtf, req, i + 1, clocks, code, sell, e);
      } else {
        CheckItemsKeep(s, onlyEtf, req, i + 1, clocks, code, sell, e);
      }
    }
  }

  lemma PassKeeps(s: RiskState, req: OrderMessage, now: int, code: string, sell: bool, e: Entry)
    requires req.fundId in s.options && StandsOrEnded(s, code, sell, e)
    ensures StandsOrEnded(OnTradeOrderReqPass(s, req, now), code, sell, e)
  {
    PassedOrdersStand(s, req, now, code, sell, 0);
    var t := OnTradeOrderReqPass(s, req, now);
    assert t.ix.orders[e.id] == s.ix.orders[e.id];
    if e in SideOn(BookOf(s, code), sell) {
      assert e in Held(BookOf(t, code), sell);
    }
  }

  // ---- Responses ----

  lemma AnswerKeeps(ix: Index, b: Book, rep: OrderMessage, item: Item, now: int, sell: bool, e: Entry)
    requires SortedSide(b.asks) && SortedSide(b.bids) && Stands(b, sell, e) && e.id < |ix.orders|
    requires !(rep.id == ix.orders[e.id].messageId && GoesTo(rep.bsFlag, sell) && item.orderNo == ""
               && RankOf(sell)(item.price) == e.rank)
    ensures Stands(AnswerOrder(ix, b, rep, item, now).1, sell, e)
  {
    if rep.bsFlag.Buy? || rep.bsFlag.Sell? {
      var side, rank := SideOf(b, rep.bsFlag), Rank(rep.bsFlag, item.price);
      var at := FindEntry(ix.orders, side, rank, rep.id);
      if at.Some? && item.orderNo == "" && GoesTo(rep.bsFlag, sell) {
        var i := at.value;
        assert rank == RankOf(sell)(item.price);
        assert side[i] != e;
        assert side == side[..i] + [side[i]] + side[i + 1..];
      } else if at.None? && item.orderNo != "" {
        var entry := Entry(rank, |ix.orders|);
        InsertEntryAdds(b.asks, entry);
        InsertEntryAdds(b.bids, entry);
      }
    }
  }

  /** An item that answers the order at its code, side and place without a number. */
  predicate RejectsAt(rep: OrderMessage, item: Item, messageId: string, code: string, sell: bool, rank: int) {
    && rep.id == messageId && GoesTo(rep.bsFlag, sell) && item.orderNo == "" && item.code == code
    && RankOf(sell)(item.price) == rank
  }

  lemma AnswerItemKeeps(a: Answering, rep: OrderMessage, item: Item, now: int, code: string, sell: bool, e: Entry)
    requires Filed(a.s) && BatchFiled(a) && StandsOrEnded(a.s, code, sell, e)
    requires !RejectsAt(rep, item, a.s.ix.orders[e.id].messageId, code, sell, e.rank)
    ensures StandsOrEnded(AnswerItem(a, rep, item, now).s, code, sell, e)
  {
    AnswerItemSteps(a, rep, item, now);
    var c := AnswerItem(a, rep, item, now).s;
    assert ChangedBy(e.id, a.s.ix.orders[e.id], c.ix.orders[e.id], Answer(rep.id));
    if Stands(BookOf(a.s, code), sell, e) && item.code == code && code in a.s.books {
      AnswerKeeps(a.s.ix, BookOf(a.s, code), rep, item, now, sell, e);
    }
  }

  lemma {:induction false} AnswerItemsKeep(a: Answering, onlyEtf: bool, rep: OrderMessage, i: nat, now: int,
                                          code: string, sell: bool, e: Entry)
    requires i <= |rep.items| && Filed(a.s) && BatchFiled(a) && StandsOrEnded(a.s, code, sell, e)
    requires forall item | item in rep.items ::
               !RejectsAt(rep, item, a.s.ix.orders[e.id].messageId, code, sell, e.rank)
    ensures StandsOrEnded(AnswerItems(a, onlyEtf, rep, i, now).s, code, sell, e)
    decreases |rep.items| - i
  {
    if i < |rep.items| {
      if Covered(onlyEtf, rep.items[i].code) {
        var c := AnswerItem(a, rep, rep.items[i], now);
        AnswerItemSteps(a, rep, rep.items[i], now);
        AnswerItemKeeps(a, rep, rep.items[i], now, code, sell, e);
        assert ChangedBy(e.id, a.s.ix.orders[e.id], c.s.ix.orders[e.id], Answer(rep.id));
        AnswerItemsKeep(c, onlyEtf, rep, i + 1, now, code, sell, e);
      } else {
        AnswerItemsKeep(a, onlyEtf, rep, i + 1, now, code, sell, e);
      }
    }
  }

  lemma KnocksKeep(s: RiskState, ks: seq<Knock>, now: int, code: string, sell: bool, e: Entry)
    requires Filed(s) && StandsOrEnded(s, code, sell, e)
    ensures StandsOrEnded(Knocks(s, ks, now), code, sell, e)
  {
    KnocksMoveNothing(s, ks, now);
    KnocksSteps(s, ks, now);
    assert ChangedBy(e.id, s.ix.orders[e.id], Knocks(s, ks, now).ix.orders[e.id], NOTHING);
  }

  lemma ResponseKeepsStanding(s: RiskState, rep: OrderMessage, now: int, code: string, sell: bool, e: Entry)
    requires Filed(s) && StandsOrEnded(s, code, sell, e)
    requires forall item | item in rep.items ::
               !RejectsAt(rep, item, s.ix.orders[e.id].messageId, code, sell, e.rank)
    ensures StandsOrEnded(Step(s, Response(rep, now)), code, sell, e)
  {
    if rep.fundId in s.options {
      var onlyEtf := s.options[rep.fundId];
      var a := AnswerItems(Answering(s, None, []), onlyEtf, rep, 0, now);
      var t := a.s.(ix := FileBatch(a.s.ix, rep, a.batch));
      AnswerItemsKeep(Answering(s, None, []), onlyEtf, rep, 0, now, code, sell, e);
      AnswerItemsSteps(Answering(s, None, []), onlyEtf, rep, 0, now);
      SameBooksFiled(a.s, t, NOTHING);
      if a.held.Some? {
        KnocksKeep(t, a.held.value, now, code, sell, e);
      }
    }
  }

  // ---- Runs ----

  /** The order of an entry is as the entry places it. */
  ghost predicate Places(s: RiskState, code: string, sell: bool, e: Entry) {
    && e.id < |s.ix.orders|
    && var o := s.ix.orders[e.id];
       o.code == code && GoesTo(o.bsFlag, sell) && e.rank == RankOf(sell)(o.price)
  }

  lemma SparedIsNotRejected(rep: OrderMessage, o: Order, sell: bool, rank: int)
    requires GoesTo(o.bsFlag, sell) && rank == RankOf(sell)(o.price) && !Rejects(rep, o)
    ensures forall item | item in rep.items :: !RejectsAt(rep, item, o.messageId, o.code, sell, rank)
  {}

  lemma StepKeepsStanding(s: RiskState, ev: Event, code: string, sell: bool, e: Entry)
    requires Filed(s) && StandsOrEnded(s, code, sell, e) && Places(s, code, sell, e)
    requires Spares(ev, s.ix.orders[e.id])
    ensures StandsOrEnded(Step(s, ev), code, sell, e)
  {
    match ev
    case Request(req, clocks, now) =>
      if req.fundId in s.options {
        var (t, block) := HandleTradeOrderReq(s, req, clocks);
        CheckItemsKeep(s, s.options[req.fundId], req, 0, clocks, code, sell, e);
        FiledBooksKeep(s);
        CheckItemsClears(s, s.options[req.fundId], req, 0, clocks, IdsFrom(0, |s.ix.orders|));
        if block == None {
          PassKeeps(t, req, now, code, sell, e);
        }
      }
    case Response(rep, now) =>
      SparedIsNotRejected(rep, s.ix.orders[e.id], sell, e.rank);
      ResponseKeepsStanding(s, rep, now, code, sell, e);
    case Fill(k, now) =>
      assert Knocks(s, [k], now) == OnTradeKnock(s, k, now);
      KnocksKeep(s, [k], now, code, sell, e);
    case Quote(c, q) =>
      if c == code {
        QuoteKeeps(s, q, code, sell, e);
      }
    case _ =>
      WithdrawSteps(s, ev);
      assert ChangedBy(e.id, s.ix.orders[e.id], Step(s, ev).ix.orders[e.id], Changes({}, Marks(s, ev)));
  }

  lemma QuoteKeeps(s: RiskState, q: Tick, code: string, sell: bool, e: Entry)
    requires StandsOrEnded(s, code, sell, e) && !Reaches(q, sell, e.rank)
    ensures StandsOrEnded(OnTickOf(s, code, q), code, sell, e)
  {
    if Stands(BookOf(s, code), sell, e) {
      TickStaysCalm(BookOf(s, code), q, sell, e.rank);
    }
  }

  lemma PlacesOn(s: RiskState, t: RiskState, changes: Changes, code: string, sell: bool, e: Entry)
    requires Places(s, code, sell, e) && Grown(s.ix.orders, t.ix.orders, changes)
    ensures Places(t, code, sell, e)
    ensures forall ev :: Spares(ev, s.ix.orders[e.id]) <==> Spares(ev, t.ix.orders[e.id])
  {
    assert ChangedBy(e.id, s.ix.orders[e.id], t.ix.orders[e.id], changes);
  }

  lemma {:induction false} RunKeepsStanding(s: RiskState, events: seq<Event>, code: string, sell: bool, e: Entry)
    requires Filed(s) && StandsOrEnded(s, code, sell, e) && Places(s, code, sell, e)
    requires forall ev | ev in events :: Spares(ev, s.ix.orders[e.id])
    ensures Filed(Run(s, events)) && StandsOrEnded(Run(s, events), code, sell, e)
    decreases |events|
  {
    if events != [] {
      var t := Step(s, events[0]);
      assert events[0] in events && forall ev | ev in events[1..] :: ev in events;
      StepKeepsStanding(s, events[0], code, sell, e);
      StepSteps(s, events[0]);
      PlacesOn(s, t, StepChanges(s, events[0]), code, sell, e);
      RunKeepsStanding(t, events[1..], code, sell, e);
    }
  }

  // ---- The check blocks ----

  /** Asking at a time leaves an order that is alive then as it is. */
  lemma {:induction false} AskingKeepsAlive(orders: Orders, ids: seq<OrderId>, now: int, id: OrderId)
    requires id < |orders| && Alive(orders[id], now)
    ensures AllFinished(orders, ids, now).0[id] == orders[id]
    decreases |ids|
  {
    if ids != [] {
      AliveExactly(orders[id], now);
      var next := Put(orders, ids[0], Finish(At(orders, ids[0]), now));
      assert next[id] == orders[id];
      AskingKeepsAlive(next, ids[1..], now, id);
    }
  }

  lemma {:induction false} SweepKeepsAlive(ix: Index, side: seq<Entry>, limit: int, now: int, id: OrderId)
    requires id < |ix.orders| && Alive(ix.orders[id], now)
    ensures var jx := Sweep(ix, side, limit, now).0; |jx.orders| == |ix.orders| && jx.orders[id] == ix.orders[id]
    decreases |side|
  {
    if side != [] && side[0].rank <= limit {
      AliveExactly(ix.orders[id], now);
      var head := side[0].id;
      var a := ix.(orders := Put(ix.orders, head, Finish(At(ix.orders, head), now)));
      assert a.orders[id] == ix.orders[id];
      var o := At(a.orders, head);
      var batchKey := OrderNoKey(o.fundId, o.batchNo);
      if o.batchNo != "" && batchKey in a.batch {
        AskingKeepsAlive(a.orders, a.batch[batchKey], now, id);
      }
      SweepKeepsAlive(OnOrderFinish(a, head, now), side[1..], limit, now, id);
    }
  }

  lemma CheckKeepsAlive(ix: Index, b: Book, bsFlag: BsFlag, price: real, c: Clock, id: OrderId)
    requires id < |ix.orders| && Alive(ix.orders[id], c.unix)
    ensures var jx := CheckOrder(ix, b, bsFlag, price, c).0;
            |jx.orders| == |ix.orders| && jx.orders[id] == ix.orders[id]
  {
    if !InAuction(c) {
      var d := TryHandleTick(b);
      SweepKeepsAlive(ix, d.asks, EncodePrice(price), c.unix, id);
      SweepKeepsAlive(ix, d.bids, -EncodePrice(price), c.unix, id);
    }
  }

  /** An item that would trade with an entry: of its code, on the other side, at its price or better. */
  predicate Meets(bsFlag: BsFlag, item: Item, code: string, sell: bool, e: Entry) {
    && item.code == code && GoesTo(bsFlag, !sell)
    && (if sell then e.rank <= EncodePrice(item.price) else EncodePrice(item.price) <= -e.rank)
  }

  /** The check of an item that would trade with an order that stands and is alive blocks. */
  lemma StandingOrderBlocks(ix: Index, b: Book, bsFlag: BsFlag, item: Item, c: Clock, sell: bool, e: Entry)
    requires SortedSide(b.asks) && SortedSide(b.bids) && Stands(b, sell, e)
    requires e.id < |ix.orders| && Alive(ix.orders[e.id], c.unix)
    requires InSession(c) && Meets(bsFlag, item, item.code, sell, e)
    ensures CheckOrder(ix, b, bsFlag, item.price, c).2.Some?
  {
    CheckBlocksExactly(ix, b, bsFlag, item.price, c);
    PruneKeeps(b, sell, e);
    AliveExactly(ix.orders[e.id], c.unix);
    var side := SideOn(TryHandleTick(b), sell);
    var i :| 0 <= i < |side| && side[i] == e;
    assert InTheWay(ix.orders, side[i], if sell then EncodePrice(item.price) else -EncodePrice(item.price), c.unix);
  }

  lemma {:induction false} CheckItemsBlock(s: RiskState, onlyEtf: bool, req: OrderMessage, i: nat, clocks: nat -> Clock,
                                          j: nat, sell: bool, e: Entry)
    requires i <= j < |req.items| && Filed(s) && e.id < |s.ix.orders|
    requires Stands(BookOf(s, req.items[j].code), sell, e)
    requires forall k | i <= k <= j :: Alive(s.ix.orders[e.id], clocks(k).unix)
    requires Covered(onlyEtf, req.items[j].code) && InSession(clocks(j))
    requires Meets(req.bsFlag, req.items[j], req.items[j].code, sell, e)
    ensures CheckItems(s, onlyEtf, req, i, clocks).1.Some?
    decreases |req.items| - i
  {
    var item, code, c := req.items[i], req.items[j].code, clocks(i);
    if !Covered(onlyEtf, item.code) {
      CheckItemsBlock(s, onlyEtf, req, i + 1, clocks, j, sell, e);
    } else if i == j {
      assert BookFiled(BookOf(s, code), s.ix.orders, code);
      StandingOrderBlocks(s.ix, BookOf(s, code), req.bsFlag, item, c, sell, e);
    } else {
      var t := AfterCheck(s, req.bsFlag, item, c);
      AfterCheckKeeps(s, req.bsFlag, item, c, code, sell, e);
      CheckKeepsAlive(s.ix, BookOf(s, item.code), req.bsFlag, item.price, c, e.id);
      CheckOneSteps(s, req.bsFlag, item, c);
      assert t.ix.orders[e.id] == s.ix.orders[e.id];
      CheckItemsBlock(t, onlyEtf, req, i + 1, clocks, j, sell, e);
    }
  }

  // ---- The main results ----

  lemma FiledPlaces(s: RiskState, code: string, sell: bool, e: Entry)
    requires Filed(s) && e in SideOn(BookOf(s, code), sell)
    ensures Places(s, code, sell, e)
  {
    assert EntryFiled(s.ix.orders, e, code, !sell);
  }

  /** An order that stands in a book blocks a request with an item that would trade with it, after any events that
      spare it, as long as it is alive. */
  lemma StandingOrdersBlock(s: RiskState, code: string, sell: bool, e: Entry, after: seq<Event>,
                            next: OrderMessage, clocks: nat -> Clock, j: nat)
    requires Filed(s) && Stands(BookOf(s, code), sell, e) && e.id < |s.ix.orders|
    requires forall ev | ev in after :: Spares(ev, s.ix.orders[e.id])
    requires j < |next.items| && Meets(next.bsFlag, next.items[j], code, sell, e) && InSession(clocks(j))
    requires var u := Run(s, after);
             && next.fundId in u.options && Seen(u.options[next.fundId], code)
             && e.id < |u.ix.orders| && forall k | 0 <= k <= j :: Alive(u.ix.orders[e.id], clocks(k).unix)
    ensures HandleTradeOrderReq(Run(s, after), next, clocks).1.Some?
  {
    var u := Run(s, after);
    FiledPlaces(s, code, sell, e);
    RunKeepsStanding(s, after, code, sell, e);
    SeenIsCovered(u.options[next.fundId], code);
    assert Alive(u.ix.orders[e.id], clocks(0).unix);
    CheckItemsBlock(u, u.options[next.fundId], next, 0, clocks, j, sell, e);
  }

  /** A book that was checked in session has no ticks left to handle. */
  lemma {:induction false} CheckedBookIsClean(s: RiskState, onlyEtf: bool, req: OrderMessage, i: nat,
                                             clocks: nat -> Clock, code: string, k: nat)
    requires i <= |req.items| && Filed(s) && CheckItems(s, onlyEtf, req, i, clocks).1 == None
    requires (code in s.books && s.books[code].ticks == NO_TICKS) ||
             (i <= k < |req.items| && Covered(onlyEtf, req.items[k].code) && req.items[k].code == code
              && InSession(clocks(k)))
    ensures BookOf(CheckItems(s, onlyEtf, req, i, clocks).0, code).ticks == NO_TICKS
    decreases |req.items| - i
  {
    if i < |req.items| {
      if Covered(onlyEtf, req.items[i].code) {
        CheckOneSteps(s, req.bsFlag, req.items[i], clocks(i));
        CheckedBookIsClean(AfterCheck(s, req.bsFlag, req.items[i], clocks(i)), onlyEtf, req, i + 1, clocks, code, k);
      } else {
        CheckedBookIsClean(s, onlyEtf, req, i + 1, clocks, code, k);
      }
    }
  }

  /** Which entry an item of a request gets, `n` orders having been created before. */
  function EntryFor(onlyEtf: bool, req: OrderMessage, n: nat, k: nat): Entry
    requires k < |req.items|
  {
    Entry(RankOf(req.bsFlag.Sell?)(req.items[k].price), n + CoveredBefore(SeenBy(onlyEtf), req.items, k))
  }

  lemma CheckingCreatesNothing(s: RiskState, onlyEtf: bool, req: OrderMessage, clocks: nat -> Clock)
    requires Filed(s)
    ensures var t := CheckItems(s, onlyEtf, req, 0, clocks).0;
            |t.ix.orders| == |s.ix.orders| && t.options == s.options && Filed(t)
  {
    FiledBooksKeep(s);
    CheckItemsClears(s, onlyEtf, req, 0, clocks, IdsFrom(0, |s.ix.orders|));
    CheckItemsSteps(s, onlyEtf, req, 0, clocks);
  }

  /** A covered buy or sell of a request that passes, checked in session, stands in its book from then on. */
  lemma PassedOrderStands(s: RiskState, req: OrderMessage, clocks: nat -> Clock, now: int, k: nat)
    requires Filed(s) && req.fundId in s.options && HandleTradeOrderReq(s, req, clocks).1 == None
    requires k < |req.items| && Seen(s.options[req.fundId], req.items[k].code) && InSession(clocks(k))
    requires req.bsFlag.Buy? || req.bsFlag.Sell?
    ensures var t, e := Step(s, Request(req, clocks, now)), EntryFor(s.options[req.fundId], req, |s.ix.orders|, k);
            && Filed(t) && e.id < |t.ix.orders| && StatedBy(t.ix.orders[e.id], req, req.items[k], now)
            && Stands(BookOf(t, req.items[k].code), req.bsFlag.Sell?, e)
  {
    var onlyEtf, code := s.options[req.fundId], req.items[k].code;
    SeenIsCovered(onlyEtf, code);
    CheckingCreatesNothing(s, onlyEtf, req, clocks);
    CheckedBookIsClean(s, onlyEtf, req, 0, clocks, code, k);
    RequestSteps(s, req, clocks, now);
    PassFilesEntry(CheckItems(s, onlyEtf, req, 0, clocks).0, req, now, k);
  }

  lemma PassFilesEntry(t: RiskState, req: OrderMessage, now: int, k: nat)
    requires req.fundId in t.options && k < |req.items| && Seen(t.options[req.fundId], req.items[k].code)
    requires BookOf(t, req.items[k].code).ticks == NO_TICKS && (req.bsFlag.Buy? || req.bsFlag.Sell?)
    ensures var u, e := OnTradeOrderReqPass(t, req, now), EntryFor(t.options[req.fundId], req, |t.ix.orders|, k);
            && e.id < |u.ix.orders| && StatedBy(u.ix.orders[e.id], req, req.items[k], now)
            && Stands(BookOf(u, req.items[k].code), req.bsFlag.Sell?, e)
  {
    var onlyEtf, code, sell := t.options[req.fundId], req.items[k].code, req.bsFlag.Sell?;
    var u, e := OnTradeOrderReqPass(t, req, now), EntryFor(onlyEtf, req, |t.ix.orders|, k);
    PassedOrdersStand(t, req, now, code, sell, k);
    NewEntriesHold(SeenBy(onlyEtf), req.items, 0, |t.ix.orders|, RankOf(sell), k);
    assert e in Held(BookOf(u, code), sell);
    NoTicksAreCalm(sell, e.rank);
  }

  /** In every run: once a request has passed in session, each of its covered buys and sells blocks every request
      in session with an item of its code on the other side at its price or better, until it is filled or ended,
      its response or a refused withdrawal is overdue, a response without a number rejects it, or a tick reaches
      it. */
  lemma PassedOrdersBlock(options: map<string, bool>, before: seq<Event>, req: OrderMessage, reqClocks: nat -> Clock,
                          now: int, k: nat, after: seq<Event>, next: OrderMessage, clocks: nat -> Clock, j: nat)
    requires var s := Run(Start(options), before);
             && req.fundId in s.options && HandleTradeOrderReq(s, req, reqClocks).1 == None
             && k < |req.items| && Seen(s.options[req.fundId], req.items[k].code)
    requires InSession(reqClocks(k)) && (req.bsFlag.Buy? || req.bsFlag.Sell?)
    requires var s := Run(Start(options), before);
             var t, e := Step(s, Request(req, reqClocks, now)), EntryFor(s.options[req.fundId], req, |s.ix.orders|, k);
             && e.id < |t.ix.orders| && (forall ev | ev in after :: Spares(ev, t.ix.orders[e.id]))
             && j < |next.items| && Meets(next.bsFlag, next.items[j], req.items[k].code, req.bsFlag.Sell?, e)
             && var u := Run(t, after);
                && next.fundId in u.options && Seen(u.options[next.fundId], req.items[k].code)
                && e.id < |u.ix.orders| && forall i | 0 <= i <= j :: Alive(u.ix.orders[e.id], clocks(i).unix)
    requires InSession(clocks(j))
    ensures var t := Step(Run(Start(options), before), Request(req, reqClocks, now));
            HandleTradeOrderReq(Run(t, after), next, clocks).1.Some?
  {
    var s := Run(Start(options), before);
    var t, e := Step(s, Request(req, reqClocks, now)), EntryFor(s.options[req.fundId], req, |s.ix.orders|, k);
    RunSteps(Start(options), before);
    PassedOrderStands(s, req, reqClocks, now, k);
    StandingOrdersBlock(t, req.items[k].code, req.bsFlag.Sell?, e, after, next, clocks, j);
  }

  /** An order that a response names stands in its book, unless a tick has been waiting for it. */
  lemma AnsweredOrderStands(ix: Index, b: Book, rep: OrderMessage, item: Item, now: int)
    requires BookFiled(b, ix.orders, item.code) && item.orderNo != "" && (rep.bsFlag.Buy? || rep.bsFlag.Sell?)
    ensures var (jx, d, found) := AnswerOrder(ix, b, rep, item, now);
            && found.Some?
            && Entry(RankOf(rep.bsFlag.Sell?)(item.price), found.value) in SideOn(d, rep.bsFlag.Sell?)
            && found.value < |jx.orders|
            && jx.orders[found.value].orderNo == item.orderNo && jx.orders[found.value].batchNo == rep.batchNo
            && (found.value < |ix.orders| ==> d == b)
            && (found.value == |ix.orders| ==>
                  forall x | x in SideOn(b, rep.bsFlag.Sell?) && x.rank == RankOf(rep.bsFlag.Sell?)(item.price) ::
                    At(ix.orders, x.id).messageId != rep.id)
  {
    var side, rank := SideOf(b, rep.bsFlag), Rank(rep.bsFlag, item.price);
    var at := FindEntry(ix.orders, side, rank, rep.id);
    if at.Some? {
      assert side[at.value] in side;
      assert EntryFiled(ix.orders, side[at.value], item.code, rep.bsFlag.Buy?);
    } else {
      InsertEntryAdds(b.asks, Entry(rank, |ix.orders|));
      InsertEntryAdds(b.bids, Entry(rank, |ix.orders|));
      forall x | x in side && x.rank == rank ensures At(ix.orders, x.id).messageId != rep.id {
        var i :| 0 <= i < |side| && side[i] == x;
      }
    }
  }

  /** Out of session nothing is checked: the books are as they were, but for books that are opened empty, and the
      request passes. */
  lemma {:induction false} AuctionsAreUnchecked(s: RiskState, onlyEtf: bool, req: OrderMessage, i: nat,
                                               clocks: nat -> Clock, code: string)
    requires i <= |req.items|
    requires forall k | i <= k < |req.items| && Seen(onlyEtf, req.items[k].code) :: !InSession(clocks(k))
    ensures var (t, block) := CheckItems(s, onlyEtf, req, i, clocks);
            block == None && t.ix == s.ix && t.options == s.options && BookOf(t, code) == BookOf(s, code)
    decreases |req.items| - i
  {
    if i < |req.items| {
      var item := req.items[i];
      SeenIsCovered(onlyEtf, item.code);
      if Covered(onlyEtf, item.code) {
        AuctionsAreUnchecked(AfterCheck(s, req.bsFlag, item, clocks(i)), onlyEtf, req, i + 1, clocks, code);
      } else {
        AuctionsAreUnchecked(s, onlyEtf, req, i + 1, clocks, code);
      }
    }
  }

  /** Entry `k` is the first at the price of an item that the response's message created. */
  ghost predicate FirstOfMessage(ix: Index, b: Book, rep: OrderMessage, item: Item, k: nat) {
    var side, rank := SideOn(b, rep.bsFlag.Sell?), RankOf(rep.bsFlag.Sell?)(item.price);
    && k < |side| && side[k].rank == rank && At(ix.orders, side[k].id).messageId == rep.id
    && forall j | 0 <= j < k :: !(side[j].rank == rank && At(ix.orders, side[j].id).messageId == rep.id)
  }

  /** Of several orders of one message at one price a response numbers the first, or without a number takes the
      first out and nothing else. */
  lemma AnswerTakesTheFirst(ix: Index, b: Book, rep: OrderMessage, item: Item, now: int, k: nat)
    requires (rep.bsFlag.Buy? || rep.bsFlag.Sell?) && FirstOfMessage(ix, b, rep, item, k)
    ensures var sell := rep.bsFlag.Sell?;
            var (jx, d, found) := AnswerOrder(ix, b, rep, item, now);
            && SideOn(d, !sell) == SideOn(b, !sell) && d.ticks == b.ticks && d.latest == b.latest
            && (item.orderNo == "" ==>
                  found == None && jx == ix && SideOn(d, sell) == SideOn(b, sell)[..k] + SideOn(b, sell)[k + 1..])
            && (item.orderNo != "" ==> found == Some(SideOn(b, sell)[k].id) && d == b)
  {
    FindsFirst(ix.orders, SideOn(b, rep.bsFlag.Sell?), Rank(rep.bsFlag, item.price), rep.id, k);
  }

  lemma {:induction false} FindsFirst(orders: Orders, side: seq<Entry>, rank: int, messageId: string, k: nat)
    requires k < |side| && side[k].rank == rank && At(orders, side[k].id).messageId == messageId
    requires forall j | 0 <= j < k :: !(side[j].rank == rank && At(orders, side[j].id).messageId == messageId)
    ensures FindEntry(orders, side, rank, messageId) == Some(k)
  {
    if k > 0 {
      FindsFirst(orders, side[1..], rank, messageId, k - 1);
    }
  }

  /** A tick reaches the book of its code and no other, and none that was not opened yet. */
  lemma TicksReachOpenBooks(s: RiskState, code: string, q: Tick, other: string)
    ensures var t := OnTickOf(s, code, q);
            && t.ix == s.ix && t.options == s.options && t.books.Keys == s.books.Keys
            && (other in s.books && other != code ==> t.books[other] == s.books[other])
            && (code in s.books ==> t.books[code] == OnTick(s.books[code], q))
  {}

  /** Ticks up to 10 s after a check in session change nothing. */
  lemma TicksAfterCheckAreIgnored(s: RiskState, bsFlag: BsFlag, item: Item, c: Clock, q: Tick)
    requires InSession(c) && 0 < c.raw && q.timestamp < c.raw + 10000
    ensures var t := AfterCheck(s, bsFlag, item, c); OnTickOf(t, item.code, q) == t
  {
    var t := AfterCheck(s, bsFlag, item, c);
    assert BookOf(t, item.code).latest == c.raw;
    assert t.books[item.code := t.books[item.code]] == t.books;
  }
}

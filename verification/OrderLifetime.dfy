/** How long an order stands in the way: when a check blocks, and what takes an order out again. */
module OrderLifetime {
  import opened Options
  import opened Trading
  import opened RiskOrders
  import opened SelfTradeSafety
  import opened OrderIdentity

  /** Whether an order counts as finished when asked at a time. */
  predicate DoneBy(orders: Orders, id: OrderId, now: int) {
    Finish(At(orders, id), now).finished
  }

  /** Two tables of orders that answer alike at a time. */
  ghost predicate Alike(a: Orders, b: Orders, now: int) {
    |a| == |b| && forall id :: DoneBy(a, id, now) <==> DoneBy(b, id, now)
  }

  /** Asking changes no later answer. */
  lemma AskingChangesNothing(orders: Orders, id: OrderId, now: int)
    ensures Alike(orders, Put(orders, id, Finish(At(orders, id), now)), now)
  {
    var after := Put(orders, id, Finish(At(orders, id), now));
    forall k ensures DoneBy(orders, k, now) <==> DoneBy(after, k, now) {
      assert k != id ==> At(after, k) == At(orders, k);
    }
  }

  lemma {:induction false} AskingAllChangesNothing(orders: Orders, ids: seq<OrderId>, now: int)
    ensures Alike(orders, AllFinished(orders, ids, now).0, now)
    decreases |ids|
  {
    if ids != [] {
      AskingChangesNothing(orders, ids[0], now);
      AskingAllChangesNothing(Put(orders, ids[0], Finish(At(orders, ids[0]), now)), ids[1..], now);
    }
  }

  lemma LeavingChangesNothing(ix: Index, id: OrderId, now: int)
    ensures Alike(ix.orders, OnOrderFinish(ix, id, now).orders, now)
  {
    var o := At(ix.orders, id);
    var batchKey := OrderNoKey(o.fundId, o.batchNo);
    if o.batchNo != "" && batchKey in ix.batch {
      AskingAllChangesNothing(ix.orders, ix.batch[batchKey], now);
    }
  }

  /** An order that is not finished and not beyond the limit. */
  predicate InTheWay(orders: Orders, e: Entry, limit: int, now: int) {
    e.rank <= limit && !DoneBy(orders, e.id, now)
  }

  lemma {:induction false} SweepBlocksExactly(ix: Index, side: seq<Entry>, limit: int, now: int)
    requires SortedSide(side)
    ensures Sweep(ix, side, limit, now).2.Some? <==>
            exists i | 0 <= i < |side| :: InTheWay(ix.orders, side[i], limit, now)
    decreases |side|
  {
    if side != [] && side[0].rank <= limit {
      var id := side[0].id;
      if DoneBy(ix.orders, id, now) {
        var a := ix.(orders := Put(ix.orders, id, Finish(At(ix.orders, id), now)));
        var b := OnOrderFinish(a, id, now);
        AskingChangesNothing(ix.orders, id, now);
        LeavingChangesNothing(a, id, now);
        SweepBlocksExactly(b, side[1..], limit, now);
        forall e: Entry ensures InTheWay(b.orders, e, limit, now) <==> InTheWay(ix.orders, e, limit, now) {
          assert DoneBy(a.orders, e.id, now) <==> DoneBy(ix.orders, e.id, now);
        }
        assert forall i | 1 <= i < |side| :: side[i] == side[1..][i - 1];
        assert forall i | 0 <= i < |side[1..]| :: side[1..][i] == side[i + 1];
      } else {
        assert InTheWay(ix.orders, side[0], limit, now);
      }
    }
  }

  /** Outside auction time a check blocks exactly when, ticks considered, an order that is not
      finished stands on the other side at the price or better. */
  lemma CheckBlocksExactly(ix: Index, b: Book, bsFlag: BsFlag, price: real, c: Clock)
    requires SortedSide(b.asks) && SortedSide(b.bids) && !InAuction(c)
    ensures var asks, bids := TryHandleTick(b).asks, TryHandleTick(b).bids;
            CheckOrder(ix, b, bsFlag, price, c).2.Some? <==>
              || (bsFlag.Buy? &&
                    exists i | 0 <= i < |asks| :: InTheWay(ix.orders, asks[i], EncodePrice(price), c.unix))
              || (bsFlag.Sell? &&
                    exists i | 0 <= i < |bids| :: InTheWay(ix.orders, bids[i], -EncodePrice(price), c.unix))
  {
    DropAsksShrinks(b.ticks, b.asks);
    DropBidsShrinks(b.ticks, b.bids);
    var d := TryHandleTick(b);
    SweepBlocksExactly(ix, d.asks, EncodePrice(price), c.unix);
    SweepBlocksExactly(ix, d.bids, -EncodePrice(price), c.unix);
  }

  // ---- Orders that never block again ----

  /** An order that was found finished or withdrawn, has waited 3 s for a response, or has a number and was
      last marked by a withdrawal more than 3 s ago. */
  predicate Past(orders: Orders, id: OrderId, now: int) {
    && id < |orders|
    && var o := orders[id];
       || o.finished || o.withdrawSucceed
       || (o.orderNo == "" && now - o.createTime > ORDER_TIMEOUT_MS)
       || (o.orderNo != "" && MarkedBefore(o.withdrawFailedTime, now))
  }

  predicate MarkedBefore(time: int, now: int) {
    time > 0 && now - time > ORDER_TIMEOUT_MS
  }

  /** What keeps an order past: that it ended, or got no answer, or only marks that are over. */
  ghost predicate KeepsPast(o: Order, id: OrderId, changes: Changes, later: int) {
    || o.finished || o.withdrawSucceed
    || (if o.orderNo == "" then o.messageId !in changes.answered
        else forall time | Mark(id, time) in changes.marks :: MarkedBefore(time, later))
  }

  lemma PastStaysPast(a: Orders, b: Orders, changes: Changes, id: OrderId, now: int, later: int)
    requires Past(a, id, now) && now <= later && Grown(a, b, changes) && KeepsPast(a[id], id, changes, later)
    ensures Past(b, id, later)
  {
    assert ChangedBy(id, a[id], b[id], changes);
  }

  lemma {:induction false} PastNeverBlocksSweep(ix: Index, side: seq<Entry>, limit: int, now: int, id: OrderId)
    requires Past(ix.orders, id, now)
    ensures Sweep(ix, side, limit, now).2 != Some(id)
    decreases |side|
  {
    if side != [] && side[0].rank <= limit {
      var head := side[0].id;
      var o := Finish(At(ix.orders, head), now);
      var a := ix.(orders := Put(ix.orders, head, o));
      var b := OnOrderFinish(a, head, now);
      PutGrows(ix.orders, head, o);
      PastStaysPast(ix.orders, a.orders, NOTHING, id, now, now);
      OnOrderFinishGrows(a, head, now);
      PastStaysPast(a.orders, b.orders, NOTHING, id, now, now);
      PastNeverBlocksSweep(b, side[1..], limit, now, id);
    }
  }

  lemma PastNeverBlocksOrder(ix: Index, b: Book, bsFlag: BsFlag, price: real, c: Clock, id: OrderId)
    requires Past(ix.orders, id, c.unix)
    ensures CheckOrder(ix, b, bsFlag, price, c).2 != Some(id)
  {
    if !InAuction(c) {
      var d := TryHandleTick(b);
      match bsFlag
      case Buy => PastNeverBlocksSweep(ix, d.asks, EncodePrice(price), c.unix, id);
      case Sell => PastNeverBlocksSweep(ix, d.bids, -EncodePrice(price), c.unix, id);
      case _ =>
    }
  }

  lemma {:induction false} PastNeverBlocksItems(s: RiskState, onlyEtf: bool, req: OrderMessage, i: nat,
                                                clocks: nat -> Clock, id: OrderId)
    requires i <= |req.items|
    requires forall k | i <= k < |req.items| :: Past(s.ix.orders, id, clocks(k).unix)
    ensures CheckItems(s, onlyEtf, req, i, clocks).1 != Some(id)
    decreases |req.items| - i
  {
    if i < |req.items| {
      var item, c := req.items[i], clocks(i);
      if Covered(onlyEtf, item.code) {
        var b := BookOf(s, item.code);
        var t := AfterCheck(s, req.bsFlag, item, c);
        PastNeverBlocksOrder(s.ix, b, req.bsFlag, item.price, c, id);
        CheckOrderGrows(s.ix, b, req.bsFlag, item.price, c);
        forall k | i + 1 <= k < |req.items| ensures Past(t.ix.orders, id, clocks(k).unix) {
          PastStaysPast(s.ix.orders, t.ix.orders, NOTHING, id, clocks(k).unix, clocks(k).unix);
        }
        PastNeverBlocksItems(t, onlyEtf, req, i + 1, clocks, id);
      } else {
        PastNeverBlocksItems(s, onlyEtf, req, i + 1, clocks, id);
      }
    }
  }

  lemma {:induction false} RestItemsCreate(s: RiskState, onlyEtf: bool, req: OrderMessage, i: nat, now: int,
                                            id: OrderId)
    requires i <= |req.items| && |s.ix.orders| <= id < |RestItems(s, onlyEtf, req, i, now).ix.orders|
    ensures var o := RestItems(s, onlyEtf, req, i, now).ix.orders[id];
            o.messageId == req.id && o.createTime == now && o.orderNo == ""
    decreases |req.items| - i
  {
    if i < |req.items| {
      if Covered(onlyEtf, req.items[i].code) {
        var t := RestItem(s, req, req.items[i], now);
        if id == |s.ix.orders| {
          RestItemsKeepOrders(t, onlyEtf, req, i + 1, now);
          assert t.ix.orders[id] == NewOrder(req, req.items[i], now);
        } else {
          RestItemsCreate(t, onlyEtf, req, i + 1, now, id);
        }
      } else {
        RestItemsCreate(s, onlyEtf, req, i + 1, now, id);
      }
    }
  }

  lemma {:induction false} RestItemsKeepOrders(s: RiskState, onlyEtf: bool, req: OrderMessage, i: nat, now: int)
    requires i <= |req.items|
    ensures s.ix.orders <= RestItems(s, onlyEtf, req, i, now).ix.orders
    decreases |req.items| - i
  {
    if i < |req.items| {
      if Covered(onlyEtf, req.items[i].code) {
        RestItemsKeepOrders(RestItem(s, req, req.items[i], now), onlyEtf, req, i + 1, now);
      } else {
        RestItemsKeepOrders(s, onlyEtf, req, i + 1, now);
      }
    }
  }

  /** With every order counted as unchecked, orders in their places keep the books' invariant. */
  lemma FiledBooksKeep(s: RiskState)
    requires Filed(s)
    ensures BooksInv(s.books, |s.ix.orders|, IdsFrom(0, |s.ix.orders|))
  {
    forall code | code in s.books ensures BookInv(s.books[code], |s.ix.orders|, IdsFrom(0, |s.ix.orders|)) {
      assert BookFiled(s.books[code], s.ix.orders, code);
    }
  }

  /** What a request creates: orders of its message, without a number, created at its time. */
  lemma RequestCreates(s: RiskState, req: OrderMessage, clocks: nat -> Clock, now: int, id: OrderId)
    requires Filed(s) && |s.ix.orders| <= id < |Step(s, Request(req, clocks, now)).ix.orders|
    ensures var o := Step(s, Request(req, clocks, now)).ix.orders[id];
            o.messageId == req.id && o.createTime == now && o.orderNo == ""
  {
    if req.fundId in s.options {
      var t := HandleTradeOrderReq(s, req, clocks).0;
      FiledBooksKeep(s);
      CheckItemsClears(s, s.options[req.fundId], req, 0, clocks, IdsFrom(0, |s.ix.orders|));
      RestItemsCreate(t, t.options[req.fundId], req, 0, now, id);
    }
  }

  /** Over any run in which the message of a request is not answered, no order the request created
      blocks any check from 3 s after the request on. */
  lemma UnansweredOrdersStopBlocking(options: map<string, bool>, before: seq<Event>, req: OrderMessage,
                                     clocks: nat -> Clock, now: int, after: seq<Event>, id: OrderId,
                                     next: OrderMessage, nextClocks: nat -> Clock)
    requires var s := Run(Start(options), before);
             |s.ix.orders| <= id < |Step(s, Request(req, clocks, now)).ix.orders|
    requires req.id !in AllAnswers(after)
    requires forall k | 0 <= k < |next.items| :: nextClocks(k).unix > now + ORDER_TIMEOUT_MS
    ensures var t := Step(Run(Start(options), before), Request(req, clocks, now));
            HandleTradeOrderReq(Run(t, after), next, nextClocks).1 != Some(id)
  {
    var s := Run(Start(options), before);
    var t := Step(s, Request(req, clocks, now));
    var u := Run(t, after);
    RunSteps(Start(options), before);
    RequestCreates(s, req, clocks, now, id);
    RequestSteps(s, req, clocks, now);
    RunSteps(t, after);
    ChangesAnswer(t, after);
    forall k | 0 <= k < |next.items| ensures Past(u.ix.orders, id, nextClocks(k).unix) {
      assert Past(t.ix.orders, id, nextClocks(k).unix);
      PastStaysPast(t.ix.orders, u.ix.orders, AllChanges(t, after), id, nextClocks(k).unix, nextClocks(k).unix);
    }
    if next.fundId in u.options {
      PastNeverBlocksItems(u, u.options[next.fundId], next, 0, nextClocks, id);
    }
  }

  /** An order that was found finished, or withdrawn, never blocks a check again, whatever comes after. */
  lemma EndedOrdersNeverBlock(options: map<string, bool>, before: seq<Event>, after: seq<Event>, id: OrderId,
                              next: OrderMessage, nextClocks: nat -> Clock)
    requires var s := Run(Start(options), before);
             id < |s.ix.orders| && (s.ix.orders[id].finished || s.ix.orders[id].withdrawSucceed)
    ensures HandleTradeOrderReq(Run(Run(Start(options), before), after), next, nextClocks).1 != Some(id)
  {
    var s := Run(Start(options), before);
    var u := Run(s, after);
    RunSteps(Start(options), before);
    RunSteps(s, after);
    forall k | 0 <= k < |next.items| ensures Past(u.ix.orders, id, nextClocks(k).unix) {
      PastStaysPast(s.ix.orders, u.ix.orders, AllChanges(s, after), id, nextClocks(k).unix, nextClocks(k).unix);
    }
    if next.fundId in u.options {
      PastNeverBlocksItems(u, u.options[next.fundId], next, 0, nextClocks, id);
    }
  }

  // ---- Withdrawals ----

  lemma {:induction false} MarkAllMarks(orders: Orders, ids: seq<OrderId>, mark: Order -> Order, id: OrderId)
    requires forall o :: mark(mark(o)) == mark(o)
    ensures At(MarkAll(orders, ids, mark), id) ==
            if id in ids && id < |orders| then mark(At(orders, id)) else At(orders, id)
    decreases |ids|
  {
    if ids != [] {
      MarkAllMarks(Put(orders, ids[0], mark(At(orders, ids[0]))), ids[1..], mark, id);
    }
  }

  /** A withdrawal that succeeds finishes every order it names at once, and no other. */
  lemma WithdrawnOrdersAreFinished(s: RiskState, m: WithdrawMessage, now: int, asked: int, id: OrderId)
    requires id < |s.ix.orders| && !m.failed
    ensures var t := HandleTradeWithdrawRep(s, m, now);
            if id in Targets(s.ix, m) then DoneBy(t.ix.orders, id, asked)
            else At(t.ix.orders, id) == At(s.ix.orders, id)
  {
    MarkAllMarks(s.ix.orders, Targets(s.ix, m), SUCCEEDING, id);
  }

  /** In every reachable state what a withdrawal names are orders with numbers. */
  lemma TargetsHaveNumbers(s: RiskState, m: WithdrawMessage, id: OrderId)
    requires Filed(s) && id in Targets(s.ix, m)
    ensures HasNumber(s.ix.orders, id)
  {}

  lemma AttemptMarks(s: RiskState, m: WithdrawMessage, now: int, id: OrderId)
    requires Filed(s) && id in Targets(s.ix, m)
    ensures var orders := HandleTradeWithdrawReq(s, m, now).ix.orders;
            HasNumber(orders, id) && orders[id].withdrawFailedTime == now
  {
    TargetsHaveNumbers(s, m, id);
    MarkAllMarks(s.ix.orders, Targets(s.ix, m), Failing(now), id);
  }

  /** Over any run, an order that a withdrawal named does not block a check from 3 s after the last attempt
      or failed reply that names it, whatever became of the withdrawal. */
  lemma AttemptedOrdersStopBlocking(options: map<string, bool>, before: seq<Event>, m: WithdrawMessage, now: int,
                                    after: seq<Event>, id: OrderId, last: int,
                                    next: OrderMessage, nextClocks: nat -> Clock)
    requires var s := Run(Start(options), before);
             && id in Targets(s.ix, m)
             && forall time | Mark(id, time) in AllChanges(Step(s, Withdrawing(m, now)), after).marks ::
                  0 < time <= last
    requires 0 < now <= last
    requires forall k | 0 <= k < |next.items| :: nextClocks(k).unix > last + ORDER_TIMEOUT_MS
    ensures var t := Step(Run(Start(options), before), Withdrawing(m, now));
            HandleTradeOrderReq(Run(t, after), next, nextClocks).1 != Some(id)
  {
    var s := Run(Start(options), before);
    var t := Step(s, Withdrawing(m, now));
    var u := Run(t, after);
    RunSteps(Start(options), before);
    AttemptMarks(s, m, now, id);
    WithdrawSteps(s, Withdrawing(m, now));
    RunSteps(t, after);
    forall k | 0 <= k < |next.items| ensures Past(u.ix.orders, id, nextClocks(k).unix) {
      PastStaysPast(t.ix.orders, u.ix.orders, AllChanges(t, after), id, nextClocks(k).unix, nextClocks(k).unix);
    }
    if next.fundId in u.options {
      PastNeverBlocksItems(u, u.options[next.fundId], next, 0, nextClocks, id);
    }
  }

  /** A failed reply starts the 3 s anew: an order attempted at `now` and refused at a later time is not
      finished 3 s after the attempt, unless it was filled, ended or withdrawn otherwise. */
  lemma FailedReplyStartsAnew(s: RiskState, m: WithdrawMessage, now: int, refused: int, asked: int, id: OrderId)
    requires Filed(s) && id in Targets(s.ix, m) && m.failed
    requires 0 < now <= refused && now + ORDER_TIMEOUT_MS < asked
    ensures var o := At(s.ix.orders, id);
            var t := HandleTradeWithdrawRep(HandleTradeWithdrawReq(s, m, now), m, refused);
            (DoneBy(t.ix.orders, id, asked) <==>
               o.finished || o.withdrawSucceed || o.matchVolume >= o.volume || refused + ORDER_TIMEOUT_MS < asked)
  {
    AttemptMarks(s, m, now, id);
    var t := HandleTradeWithdrawReq(s, m, now);
    MarkAllMarks(s.ix.orders, Targets(s.ix, m), Failing(now), id);
    MarkAllMarks(t.ix.orders, Targets(t.ix, m), Failing(refused), id);
  }

  // ---- A rejection undoes a request ----

  /** Inserting splits the side in two, and orders of equal price stay in order of insertion. */
  lemma {:induction false} InsertSplits(side: seq<Entry>, e: Entry) returns (k: nat)
    requires SortedSide(side)
    ensures k <= |side| && InsertEntry(side, e) == side[..k] + [e] + side[k..]
    ensures forall i | 0 <= i < k :: side[i].rank <= e.rank
    ensures forall i | k <= i < |side| :: e.rank < side[i].rank
  {
    if side == [] || side[|side| - 1].rank <= e.rank {
      k := |side|;
    } else {
      var n := |side| - 1;
      k := InsertSplits(side[..n], e);
      assert side == side[..n] + [side[n]];
      assert side[..n][..k] == side[..k] && side[..n][k..] + [side[n]] == side[k..];
    }
  }

  lemma {:induction false} FindsTheOnly(orders: Orders, side: seq<Entry>, rank: int, messageId: string, k: nat)
    requires k < |side| && side[k].rank == rank && At(orders, side[k].id).messageId == messageId
    requires forall i | 0 <= i < |side| && i != k ::
               !(side[i].rank == rank && At(orders, side[i].id).messageId == messageId)
    ensures FindEntry(orders, side, rank, messageId) == Some(k)
  {
    var found := FindEntry(orders, side, rank, messageId);
    assert found.Some?;
  }

  /** No order of a side carries the message id at the rank. */
  ghost predicate NewToSide(orders: Orders, side: seq<Entry>, rank: int, messageId: string) {
    forall i | 0 <= i < |side| ::
      side[i].id < |orders| && !(side[i].rank == rank && orders[side[i].id].messageId == messageId)
  }

  lemma InsertedIsFound(orders: Orders, o: Order, side: seq<Entry>, rank: int) returns (k: nat)
    requires SortedSide(side) && NewToSide(orders, side, rank, o.messageId)
    ensures var longer := InsertEntry(side, Entry(rank, |orders|));
            && k < |longer| && longer[..k] + longer[k + 1..] == side
            && FindEntry(orders + [o], longer, rank, o.messageId) == Some(k)
  {
    var longer := InsertEntry(side, Entry(rank, |orders|));
    k := InsertSplits(side, Entry(rank, |orders|));
    forall i | 0 <= i < |longer| && i != k
      ensures !(longer[i].rank == rank && At(orders + [o], longer[i].id).messageId == o.messageId)
    {
      assert longer[i] == side[if i < k then i else i - 1];
    }
    FindsTheOnly(orders + [o], longer, rank, o.messageId, k);
  }

  /** Inserting an order and then answering it without a number leaves the book as it was. */
  lemma RejectionUndoesRequest(s: RiskState, req: OrderMessage, item: Item, now: int, later: int)
    requires req.bsFlag.Buy? || req.bsFlag.Sell?
    requires var side := SideOf(BookOf(s, item.code), req.bsFlag);
             SortedSide(side) && NewToSide(s.ix.orders, side, Rank(req.bsFlag, item.price), req.id)
    ensures var t := RestItem(s, req, item, now);
            AnswerOrder(t.ix, BookOf(t, item.code), req, item.(orderNo := ""), later) ==
            (t.ix, BookOf(s, item.code), None)
  {
    var o := NewOrder(req, item, now);
    var _ := InsertedIsFound(s.ix.orders, o, SideOf(BookOf(s, item.code), req.bsFlag), Rank(req.bsFlag, item.price));
  }
}

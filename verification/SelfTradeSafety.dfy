/** In every reachable book, a bid and an ask that cross got there past the check. */
module SelfTradeSafety {
  import opened Options
  import opened Trading
  import opened RiskOrders

  ghost predicate SortedSide(side: seq<Entry>) {
    forall i, j | 0 <= i < j < |side| :: side[i].rank <= side[j].rank
  }

  function LaterOf(a: Entry, b: Entry): OrderId {
    if a.id > b.id then a.id else b.id
  }

  /** The ranks of an ask and a bid that cross add up to zero or less. Of two such orders the later
      one entered unchecked. */
  ghost predicate CrossedOnlyUnchecked(b: Book, unchecked: set<OrderId>) {
    forall x, y | x in b.asks && y in b.bids && x.rank + y.rank <= 0 :: LaterOf(x, y) in unchecked
  }

  ghost predicate IdsBelow(b: Book, n: nat) {
    (forall e | e in b.asks :: e.id < n) && (forall e | e in b.bids :: e.id < n)
  }

  ghost predicate BookInv(b: Book, n: nat, unchecked: set<OrderId>) {
    SortedSide(b.asks) && SortedSide(b.bids) && IdsBelow(b, n) && CrossedOnlyUnchecked(b, unchecked)
  }

  /** `n` orders have been created so far. */
  ghost predicate BooksInv(books: map<string, Book>, n: nat, unchecked: set<OrderId>) {
    forall code | code in books :: BookInv(books[code], n, unchecked)
  }

  ghost predicate Shrunk(b: Book, c: Book) {
    (forall e | e in c.asks :: e in b.asks) && (forall e | e in c.bids :: e in b.bids)
  }

  /** No resting order stands in the way of a new one. */
  ghost predicate Clear(b: Book, bsFlag: BsFlag, price: real) {
    && (bsFlag.Buy? ==> forall e | e in b.asks :: Rank(bsFlag, price) + e.rank > 0)
    && (bsFlag.Sell? ==> forall e | e in b.bids :: Rank(bsFlag, price) + e.rank > 0)
  }

  // ---- The steps on one book ----

  lemma KeepHead(head: Entry, rest: seq<Entry>, side: seq<Entry>)
    requires SortedSide(rest) && (forall e | e in rest :: e in side && head.rank <= e.rank) && head in side
    ensures SortedSide([head] + rest) && forall e | e in [head] + rest :: e in side
  {}

  lemma TailIsSorted(side: seq<Entry>)
    requires SortedSide(side) && side != []
    ensures SortedSide(side[1..]) && forall e | e in side[1..] :: e in side && side[0].rank <= e.rank
  {}

  lemma {:induction false} DropAsksShrinks(t: Ticks, asks: seq<Entry>)
    requires SortedSide(asks)
    ensures SortedSide(DropAsks(t, asks)) && forall e | e in DropAsks(t, asks) :: e in asks
  {
    if asks != [] && MaxBid(t) >= asks[0].rank {
      TailIsSorted(asks);
      DropAsksShrinks(t, asks[1..]);
      KeepHead(asks[0], DropAsks(t, asks[1..]), asks);
    }
  }

  lemma {:induction false} DropBidsShrinks(t: Ticks, bids: seq<Entry>)
    requires SortedSide(bids)
    ensures SortedSide(DropBids(t, bids)) && forall e | e in DropBids(t, bids) :: e in bids
  {
    if bids != [] && MinAsk(t) <= -bids[0].rank {
      TailIsSorted(bids);
      DropBidsShrinks(t, bids[1..]);
      KeepHead(bids[0], DropBids(t, bids[1..]), bids);
    }
  }

  lemma {:induction false} SweepClears(ix: Index, side: seq<Entry>, limit: int, now: int)
    requires SortedSide(side)
    ensures var (jx, rest, block) := Sweep(ix, side, limit, now);
            && |jx.orders| == |ix.orders|
            && SortedSide(rest) && (forall e | e in rest :: e in side)
            && (block == None ==> forall e | e in rest :: limit < e.rank)
            && (block.Some? ==> rest != [] && rest[0].rank <= limit && rest[0].id == block.value)
    decreases |side|
  {
    if side != [] && side[0].rank <= limit {
      var id := side[0].id;
      var a := ix.(orders := Put(ix.orders, id, Finish(At(ix.orders, id), now)));
      SweepClears(OnOrderFinish(a, id, now), side[1..], limit, now);
    }
  }

  lemma ShrinkKeeps(b: Book, c: Book, n: nat, unchecked: set<OrderId>)
    requires BookInv(b, n, unchecked) && Shrunk(b, c) && SortedSide(c.asks) && SortedSide(c.bids)
    ensures BookInv(c, n, unchecked)
  {}

  /** A check only removes orders, and a check that passes outside auction time leaves nothing in
      the way of the order. */
  lemma CheckClears(ix: Index, b: Book, bsFlag: BsFlag, price: real, c: Clock)
    requires SortedSide(b.asks) && SortedSide(b.bids)
    ensures var (jx, d, block) := CheckOrder(ix, b, bsFlag, price, c);
            && |jx.orders| == |ix.orders|
            && Shrunk(b, d) && SortedSide(d.asks) && SortedSide(d.bids)
            && (block == None && !InAuction(c) ==> Clear(d, bsFlag, price))
  {
    if !InAuction(c) {
      DropAsksShrinks(b.ticks, b.asks);
      DropBidsShrinks(b.ticks, b.bids);
      var d := TryHandleTick(b);
      SweepClears(ix, d.asks, EncodePrice(price), c.unix);
      SweepClears(ix, d.bids, -EncodePrice(price), c.unix);
    }
  }

  lemma {:induction false} InsertEntryAdds(side: seq<Entry>, e: Entry)
    requires SortedSide(side)
    ensures SortedSide(InsertEntry(side, e))
    ensures forall x :: x in InsertEntry(side, e) <==> x == e || x in side
  {
    if side != [] && side[|side| - 1].rank > e.rank {
      var t := side[..|side| - 1];
      InsertEntryAdds(t, e);
      assert side == t + [side[|side| - 1]];
      forall j | 0 <= j < |InsertEntry(t, e)| ensures InsertEntry(t, e)[j].rank <= side[|side| - 1].rank {
        assert InsertEntry(t, e)[j] in InsertEntry(t, e);
      }
    }
  }

  /** Resting the newest order keeps the invariant if nothing is in its way or it counts as unchecked. */
  lemma RestKeeps(b: Book, o: Order, id: OrderId, unchecked: set<OrderId>)
    requires BookInv(b, id, unchecked)
    requires id in unchecked || Clear(b, o.bsFlag, o.price)
    ensures BookInv(RestOrder(b, o, id), id + 1, unchecked)
    ensures o.bsFlag.Buy? ==> RestOrder(b, o, id).asks == b.asks
    ensures o.bsFlag.Sell? ==> RestOrder(b, o, id).bids == b.bids
  {
    var e := Entry(Rank(o.bsFlag, o.price), id);
    InsertEntryAdds(b.asks, e);
    InsertEntryAdds(b.bids, e);
  }

  // ---- The steps on all books ----

  /** Books only lost orders. */
  ghost predicate AllShrunk(s: RiskState, t: RiskState) {
    forall code :: Shrunk(BookOf(s, code), BookOf(t, code))
  }

  /** Nothing is in the way of the items from `i` on that come outside auction time. */
  ghost predicate ClearFrom(s: RiskState, onlyEtf: bool, req: OrderMessage, i: nat, clocks: nat -> Clock) {
    forall k | i <= k < |req.items| && Covered(onlyEtf, req.items[k].code) && !InAuction(clocks(k)) ::
      Clear(BookOf(s, req.items[k].code), req.bsFlag, req.items[k].price)
  }

  function AfterCheck(s: RiskState, bsFlag: BsFlag, item: Item, c: Clock): RiskState {
    var (ix, b, _) := CheckOrder(s.ix, BookOf(s, item.code), bsFlag, item.price, c);
    s.(books := s.books[item.code := b], ix := ix)
  }

  lemma CheckOneClears(s: RiskState, bsFlag: BsFlag, item: Item, c: Clock, unchecked: set<OrderId>)
    requires BooksInv(s.books, |s.ix.orders|, unchecked)
    ensures var t := AfterCheck(s, bsFlag, item, c);
            && |t.ix.orders| == |s.ix.orders| && BooksInv(t.books, |t.ix.orders|, unchecked) && AllShrunk(s, t)
            && (CheckOrder(s.ix, BookOf(s, item.code), bsFlag, item.price, c).2 == None && !InAuction(c) ==>
                  Clear(BookOf(t, item.code), bsFlag, item.price))
  {
    var b := BookOf(s, item.code);
    CheckClears(s.ix, b, bsFlag, item.price, c);
    ShrinkKeeps(b, CheckOrder(s.ix, b, bsFlag, item.price, c).1, |s.ix.orders|, unchecked);
  }

  lemma {:induction false} CheckItemsClears(s: RiskState, onlyEtf: bool, req: OrderMessage, i: nat,
                                           clocks: nat -> Clock, unchecked: set<OrderId>)
    requires i <= |req.items| && BooksInv(s.books, |s.ix.orders|, unchecked)
    ensures var (t, block) := CheckItems(s, onlyEtf, req, i, clocks);
            && t.options == s.options && |t.ix.orders| == |s.ix.orders|
            && BooksInv(t.books, |t.ix.orders|, unchecked)
            && AllShrunk(s, t)
            && (block == None ==> ClearFrom(t, onlyEtf, req, i, clocks))
    decreases |req.items| - i
  {
    if i < |req.items| {
      var item := req.items[i];
      if Covered(onlyEtf, item.code) {
        CheckOneClears(s, req.bsFlag, item, clocks(i), unchecked);
        var t := AfterCheck(s, req.bsFlag, item, clocks(i));
        if CheckOrder(s.ix, BookOf(s, item.code), req.bsFlag, item.price, clocks(i)).2 == None {
          CheckItemsClears(t, onlyEtf, req, i + 1, clocks, unchecked);
          var u := CheckItems(t, onlyEtf, req, i + 1, clocks).0;
          assert Shrunk(BookOf(t, item.code), BookOf(u, item.code));
        }
      } else {
        CheckItemsClears(s, onlyEtf, req, i + 1, clocks, unchecked);
      }
    }
  }

  /** The orders of a request that bypass the check because of the time of day; `n` is the identity
      the next order gets. */
  function Bypassing(n: nat, onlyEtf: bool, req: OrderMessage, i: nat, clocks: nat -> Clock): set<OrderId>
    requires i <= |req.items|
    decreases |req.items| - i
  {
    if i == |req.items| then {}
    else if !Covered(onlyEtf, req.items[i].code) then Bypassing(n, onlyEtf, req, i + 1, clocks)
    else (if InAuction(clocks(i)) then {n} else {}) + Bypassing(n + 1, onlyEtf, req, i + 1, clocks)
  }

  lemma RestOneKeeps(s: RiskState, req: OrderMessage, item: Item, now: int, unchecked: set<OrderId>)
    requires BooksInv(s.books, |s.ix.orders|, unchecked)
    requires |s.ix.orders| in unchecked || Clear(BookOf(s, item.code), req.bsFlag, item.price)
    ensures var t := RestItem(s, req, item, now); BooksInv(t.books, |t.ix.orders|, unchecked)
  {
    RestKeeps(BookOf(s, item.code), NewOrder(req, item, now), |s.ix.orders|, unchecked);
  }

  /** An order rests on its own side, so it gets in the way of no other order of its message. */
  lemma RestKeepsClear(s: RiskState, onlyEtf: bool, req: OrderMessage, i: nat, clocks: nat -> Clock, now: int)
    requires i < |req.items| && ClearFrom(s, onlyEtf, req, i, clocks)
    ensures ClearFrom(RestItem(s, req, req.items[i], now), onlyEtf, req, i + 1, clocks)
  {}

  lemma {:induction false} RestItemsKeeps(s: RiskState, onlyEtf: bool, req: OrderMessage, i: nat, now: int,
                                         clocks: nat -> Clock, unchecked: set<OrderId>)
    requires i <= |req.items| && BooksInv(s.books, |s.ix.orders|, unchecked)
    requires Bypassing(|s.ix.orders|, onlyEtf, req, i, clocks) <= unchecked
    requires ClearFrom(s, onlyEtf, req, i, clocks)
    ensures var t := RestItems(s, onlyEtf, req, i, now); BooksInv(t.books, |t.ix.orders|, unchecked)
    decreases |req.items| - i
  {
    if i < |req.items| {
      if Covered(onlyEtf, req.items[i].code) {
        RestOneKeeps(s, req, req.items[i], now, unchecked);
        RestKeepsClear(s, onlyEtf, req, i, clocks, now);
        RestItemsKeeps(RestItem(s, req, req.items[i], now), onlyEtf, req, i + 1, now, clocks, unchecked);
      } else {
        RestItemsKeeps(s, onlyEtf, req, i + 1, now, clocks, unchecked);
      }
    }
  }

  lemma TakeOutKeeps(b: Book, bsFlag: BsFlag, i: nat, n: nat, unchecked: set<OrderId>)
    requires BookInv(b, n, unchecked) && i < |SideOf(b, bsFlag)|
    ensures var side := SideOf(b, bsFlag);
            BookInv(WithSide(b, bsFlag, side[..i] + side[i + 1..]), n, unchecked)
  {
    var side := SideOf(b, bsFlag);
    var rest := side[..i] + side[i + 1..];
    assert SortedSide(rest);
    assert forall e | e in rest :: e in side;
    ShrinkKeeps(b, WithSide(b, bsFlag, rest), n, unchecked);
  }

  lemma AnswerOrderKeeps(ix: Index, b: Book, rep: OrderMessage, item: Item, now: int, unchecked: set<OrderId>)
    requires BookInv(b, |ix.orders|, unchecked)
    ensures var (jx, d, found) := AnswerOrder(ix, b, rep, item, now);
            && |ix.orders| <= |jx.orders| <= |ix.orders| + 1
            && (|jx.orders| == |ix.orders| || |ix.orders| in unchecked ==> BookInv(d, |jx.orders|, unchecked))
  {
    if rep.bsFlag.Buy? || rep.bsFlag.Sell? {
      var side := SideOf(b, rep.bsFlag);
      match FindEntry(ix.orders, side, Rank(rep.bsFlag, item.price), rep.id)
      case Some(i) =>
        if item.orderNo == "" {
          TakeOutKeeps(b, rep.bsFlag, i, |ix.orders|, unchecked);
        }
      case None =>
        if item.orderNo != "" && |ix.orders| in unchecked {
          RestKeeps(b, NewOrder(rep, item, now), |ix.orders|, unchecked);
        }
    }
  }

  lemma MoreKeeps(b: Book, n: nat, m: nat, unchecked: set<OrderId>, more: set<OrderId>)
    requires BookInv(b, n, unchecked) && n <= m && unchecked <= more
    ensures BookInv(b, m, more)
  {}

  lemma AnswerItemKeeps(a: Answering, rep: OrderMessage, item: Item, now: int, unchecked: set<OrderId>)
    requires BooksInv(a.s.books, |a.s.ix.orders|, unchecked)
    ensures var t := AnswerItem(a, rep, item, now).s;
            && t.options == a.s.options && |a.s.ix.orders| <= |t.ix.orders| <= |a.s.ix.orders| + 1
            && (|t.ix.orders| == |a.s.ix.orders| || |a.s.ix.orders| in unchecked ==>
                  BooksInv(t.books, |t.ix.orders|, unchecked))
  {
    var n := |a.s.ix.orders|;
    AnswerOrderKeeps(a.s.ix, BookOf(a.s, item.code), rep, item, now, unchecked);
    var t := AnswerItem(a, rep, item, now).s;
    if |t.ix.orders| == n || n in unchecked {
      forall code | code in t.books ensures BookInv(t.books[code], |t.ix.orders|, unchecked) {
        if code != item.code {
          MoreKeeps(a.s.books[code], n, |t.ix.orders|, unchecked, unchecked);
        }
      }
    }
  }

  /** A response breaks nothing if the orders it creates count as unchecked. */
  lemma {:induction false} AnswerItemsKeeps(a: Answering, onlyEtf: bool, rep: OrderMessage, i: nat, now: int,
                                           unchecked: set<OrderId>)
    requires i <= |rep.items| && BooksInv(a.s.books, |a.s.ix.orders|, unchecked)
    requires forall id | |a.s.ix.orders| <= id < |AnswerItems(a, onlyEtf, rep, i, now).s.ix.orders| :: id in unchecked
    ensures var t := AnswerItems(a, onlyEtf, rep, i, now).s;
            t.options == a.s.options && BooksInv(t.books, |t.ix.orders|, unchecked)
    decreases |rep.items| - i
  {
    if i < |rep.items| {
      if Covered(onlyEtf, rep.items[i].code) {
        var b := AnswerItem(a, rep, rep.items[i], now);
        AnswerItemKeeps(a, rep, rep.items[i], now, unchecked);
        AnswerItemsGrow(b, onlyEtf, rep, i + 1, now);
        AnswerItemsKeeps(b, onlyEtf, rep, i + 1, now, unchecked);
      } else {
        AnswerItemsKeeps(a, onlyEtf, rep, i + 1, now, unchecked);
      }
    }
  }

  lemma {:induction false} AnswerItemsGrow(a: Answering, onlyEtf: bool, rep: OrderMessage, i: nat, now: int)
    requires i <= |rep.items|
    ensures |a.s.ix.orders| <= |AnswerItems(a, onlyEtf, rep, i, now).s.ix.orders|
    decreases |rep.items| - i
  {
    if i < |rep.items| {
      AnswerItemsGrow(a, onlyEtf, rep, i + 1, now);
      AnswerItemsGrow(AnswerItem(a, rep, rep.items[i], now), onlyEtf, rep, i + 1, now);
    }
  }

  /** Fills move no order in any book. */
  lemma {:induction false} KnocksMoveNothing(s: RiskState, ks: seq<Knock>, now: int)
    ensures var t := Knocks(s, ks, now);
            t.books == s.books && t.options == s.options && |t.ix.orders| == |s.ix.orders|
    decreases |ks|
  {
    if ks != [] {
      KnocksMoveNothing(OnTradeKnock(s, ks[0], now), ks[1..], now);
    }
  }

  // ---- Runs ----

  datatype Event =
    | Request(req: OrderMessage, clocks: nat -> Clock, now: int)
    | Response(rep: OrderMessage, now: int)
    | Fill(k: Knock, now: int)
    | Withdrawing(m: WithdrawMessage, now: int)
    | Withdrawn(m: WithdrawMessage, now: int)
    | Quote(code: string, q: Tick)

  function Step(s: RiskState, e: Event): RiskState {
    match e
    case Request(req, clocks, now) =>
      var (t, block) := HandleTradeOrderReq(s, req, clocks);
      if block == None then OnTradeOrderReqPass(t, req, now) else t
    case Response(rep, now) => HandleTradeOrderRep(s, rep, now)
    case Fill(k, now) => OnTradeKnock(s, k, now)
    case Withdrawing(m, now) => HandleTradeWithdrawReq(s, m, now)
    case Withdrawn(m, now) => HandleTradeWithdrawRep(s, m, now)
    case Quote(code, q) => OnTickOf(s, code, q)
  }

  function IdsFrom(n: nat, m: nat): (r: set<OrderId>)
    ensures forall id :: id in r <==> n <= id < m
    decreases m - n
  {
    if n >= m then {} else {n} + IdsFrom(n + 1, m)
  }

  /** The orders a step lets into a book unchecked: those of a request that passed, if their item came
      in auction time, and orders that are first heard of in a response. */
  function EnteredUnchecked(s: RiskState, e: Event): set<OrderId> {
    match e
    case Request(req, clocks, now) =>
      if req.fundId in s.options && HandleTradeOrderReq(s, req, clocks).1 == None
      then Bypassing(|s.ix.orders|, s.options[req.fundId], req, 0, clocks) else {}
    case Response(_, _) => IdsFrom(|s.ix.orders|, |Step(s, e).ix.orders|)
    case _ => {}
  }

  function Run(s: RiskState, events: seq<Event>): RiskState
    decreases |events|
  {
    if events == [] then s else Run(Step(s, events[0]), events[1..])
  }

  function AllUnchecked(s: RiskState, events: seq<Event>): set<OrderId>
    decreases |events|
  {
    if events == [] then {} else EnteredUnchecked(s, events[0]) + AllUnchecked(Step(s, events[0]), events[1..])
  }

  lemma RequestKeeps(s: RiskState, e: Event, unchecked: set<OrderId>)
    requires e.Request? && BooksInv(s.books, |s.ix.orders|, unchecked) && EnteredUnchecked(s, e) <= unchecked
    ensures var t := Step(s, e); BooksInv(t.books, |t.ix.orders|, unchecked)
  {
    var Request(req, clocks, now) := e;
    if req.fundId in s.options {
      var onlyEtf := s.options[req.fundId];
      CheckItemsClears(s, onlyEtf, req, 0, clocks, unchecked);
      var (t, block) := HandleTradeOrderReq(s, req, clocks);
      if block == None {
        RestItemsKeeps(t, onlyEtf, req, 0, now, clocks, unchecked);
      }
    }
  }

  lemma ResponseKeeps(s: RiskState, e: Event, unchecked: set<OrderId>)
    requires e.Response? && BooksInv(s.books, |s.ix.orders|, unchecked) && EnteredUnchecked(s, e) <= unchecked
    ensures var t := Step(s, e); BooksInv(t.books, |t.ix.orders|, unchecked)
  {
    var Response(rep, now) := e;
    if rep.fundId in s.options {
      var a := AnswerItems(Answering(s, None, []), s.options[rep.fundId], rep, 0, now);
      var t := a.s.(ix := FileBatch(a.s.ix, rep, a.batch));
      if a.held.Some? {
        KnocksMoveNothing(t, a.held.value, now);
      }
      assert |Step(s, e).ix.orders| == |a.s.ix.orders| && Step(s, e).books == a.s.books;
      forall id | |s.ix.orders| <= id < |a.s.ix.orders| ensures id in unchecked {
        assert id in EnteredUnchecked(s, e);
      }
      AnswerItemsKeeps(Answering(s, None, []), s.options[rep.fundId], rep, 0, now, unchecked);
    }
  }

  lemma StepKeeps(s: RiskState, e: Event, unchecked: set<OrderId>)
    requires BooksInv(s.books, |s.ix.orders|, unchecked) && EnteredUnchecked(s, e) <= unchecked
    ensures var t := Step(s, e); BooksInv(t.books, |t.ix.orders|, unchecked)
  {
    match e
    case Request(_, _, _) => RequestKeeps(s, e, unchecked);
    case Response(_, _) => ResponseKeeps(s, e, unchecked);
    case Fill(k, now) =>
      assert Step(s, e).books == s.books && |Step(s, e).ix.orders| == |s.ix.orders|;
    case Withdrawing(_, _) =>
    case Withdrawn(_, _) =>
    case Quote(code, q) =>
  }

  lemma {:induction false} RunKeeps(s: RiskState, events: seq<Event>, unchecked: set<OrderId>)
    requires BooksInv(s.books, |s.ix.orders|, unchecked) && AllUnchecked(s, events) <= unchecked
    ensures var t := Run(s, events); BooksInv(t.books, |t.ix.orders|, unchecked)
    decreases |events|
  {
    if events != [] {
      StepKeeps(s, events[0], unchecked);
      RunKeeps(Step(s, events[0]), events[1..], unchecked);
    }
  }

  function Start(options: map<string, bool>): RiskState {
    RiskState(options, map[], Index([], map[], map[], map[]))
  }

  /** In every reachable book, of a bid and an ask that cross at encoded prices the later one
      entered without the check. */
  lemma CrossingIsUnchecked(options: map<string, bool>, events: seq<Event>, code: string, ask: Entry, bid: Entry)
    requires var b := BookOf(Run(Start(options), events), code); ask in b.asks && bid in b.bids
    requires ask.rank <= -bid.rank
    ensures LaterOf(ask, bid) in AllUnchecked(Start(options), events)
  {
    RunKeeps(Start(options), events, AllUnchecked(Start(options), events));
  }

  /** A run that lets nobody in unchecked keeps every bid below every ask. */
  lemma CheckedRunsNeverCross(options: map<string, bool>, events: seq<Event>, code: string, ask: Entry, bid: Entry)
    requires AllUnchecked(Start(options), events) == {}
    requires var b := BookOf(Run(Start(options), events), code); ask in b.asks && bid in b.bids
    ensures -bid.rank < ask.rank
  {
    if ask.rank <= -bid.rank {
      CrossingIsUnchecked(options, events, code, ask, bid);
    }
  }
}

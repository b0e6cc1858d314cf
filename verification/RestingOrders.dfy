/** An order that passed stands in its book, and blocks until it ends, is rejected or is reached by a tick. */
module RestingOrders {
  import opened Options
  import opened Trading
  import opened RiskOrders
  import opened SelfTradeSafety
  import opened OrderIdentity
  import opened OrderLifetime
  import opened TickPruning

  /** Outside the auctions: from 9:30 to 14:57, and from 15:01 on. */
  predicate InSession(c: Clock) {
    93000000 <= c.stamp < 145700000 || 150100000 <= c.stamp
  }

  /** A fund's code: 159xxx.SZ or 5xxxxx.SH. */
  predicate FundCode(code: string) {
    && |code| == 9
    && ((code[..3] == "159" && code[6..] == ".SZ") || (code[0] == '5' && code[6..] == ".SH"))
  }

  predicate Seen(onlyEtf: bool, code: string) {
    onlyEtf ==> FundCode(code)
  }

  function SeenBy(onlyEtf: bool): string -> bool {
    (code: string) => Seen(onlyEtf, code)
  }

  lemma SeenIsCovered(onlyEtf: bool, code: string)
    ensures Covered(onlyEtf, code) <==> Seen(onlyEtf, code)
  {
    if |code| == 9 {
      assert StartsWith(code, "5") <==> code[0] == '5';
      assert StartsWith(code, "159") <==> code[..3] == "159";
    }
  }

  // ---- What passing puts into the books ----

  /** How many of the first `i` items are covered. */
  function CoveredBefore(seen: string -> bool, items: seq<Item>, i: nat): nat
    requires i <= |items|
  {
    if i == 0 then 0 else CoveredBefore(seen, items, i - 1) + (if seen(items[i - 1].code) then 1 else 0)
  }

  /** Sells stand by their encoded price, buys by its negation. */
  function RankOf(sell: bool): real -> int {
    (price: real) => if sell then EncodePrice(price) else -EncodePrice(price)
  }

  /** The entries of the covered items for a code, from `i` on; the next order gets identity `n`. */
  function NewEntries(seen: string -> bool, items: seq<Item>, i: nat, n: nat, code: string,
                      rank: real -> int): multiset<Entry>
    requires i <= |items|
    decreases |items| - i
  {
    if i == |items| then multiset{}
    else if !seen(items[i].code) then NewEntries(seen, items, i + 1, n, code, rank)
    else
      (if items[i].code == code then multiset{Entry(rank(items[i].price), n)} else multiset{}) +
      NewEntries(seen, items, i + 1, n + 1, code, rank)
  }

  /** The orders of one side of a book. */
  function Held(b: Book, sell: bool): multiset<Entry> {
    multiset(if sell then b.asks else b.bids)
  }

  /** Sells go to one side, buys to the other, and anything else to none. */
  predicate GoesTo(bsFlag: BsFlag, sell: bool) {
    bsFlag == if sell then Sell else Buy
  }

  lemma {:induction false} InsertEntryCounts(side: seq<Entry>, e: Entry)
    ensures multiset(InsertEntry(side, e)) == multiset(side) + multiset{e}
  {
    if side != [] && side[|side| - 1].rank > e.rank {
      InsertEntryCounts(side[..|side| - 1], e);
      assert side == side[..|side| - 1] + [side[|side| - 1]];
    }
  }

  lemma RestOrderCounts(b: Book, o: Order, id: OrderId, sell: bool)
    ensures var c := RestOrder(b, o, id);
            && Held(c, sell) == Held(b, sell) +
                 (if GoesTo(o.bsFlag, sell) then multiset{Entry(RankOf(sell)(o.price), id)} else multiset{})
            && c.ticks == b.ticks && c.latest == b.latest
  {
    var e := Entry(Rank(o.bsFlag, o.price), id);
    InsertEntryCounts(b.asks, e);
    InsertEntryCounts(b.bids, e);
    assert GoesTo(o.bsFlag, sell) ==> e.rank == RankOf(sell)(o.price);
  }

  lemma RestItemCounts(s: RiskState, req: OrderMessage, item: Item, now: int, code: string, sell: bool)
    ensures var b, c := BookOf(s, code), BookOf(RestItem(s, req, item, now), code);
            && Held(c, sell) == Held(b, sell) +
                 (if GoesTo(req.bsFlag, sell) && item.code == code
                  then multiset{Entry(RankOf(sell)(item.price), |s.ix.orders|)} else multiset{})
            && c.ticks == b.ticks && c.latest == b.latest
  {
    RestOrderCounts(BookOf(s, item.code), NewOrder(req, item, now), |s.ix.orders|, sell);
  }

  lemma {:induction false} RestItemsCount(s: RiskState, onlyEtf: bool, req: OrderMessage, i: nat, now: int,
                                         code: string, sell: bool)
    requires i <= |req.items|
    ensures var t := RestItems(s, onlyEtf, req, i, now);
            Held(BookOf(t, code), sell) == Held(BookOf(s, code), sell) +
              (if GoesTo(req.bsFlag, sell)
               then NewEntries(SeenBy(onlyEtf), req.items, i, |s.ix.orders|, code, RankOf(sell)) else multiset{})
    decreases |req.items| - i
  {
    if i < |req.items| {
      SeenIsCovered(onlyEtf, req.items[i].code);
      if Seen(onlyEtf, req.items[i].code) {
        var t := RestItem(s, req, req.items[i], now);
        RestItemCounts(s, req, req.items[i], now, code, sell);
        RestItemsCount(t, onlyEtf, req, i + 1, now, code, sell);
        RestItemsNext(s, onlyEtf, req, i, now);
        assert |t.ix.orders| == |s.ix.orders| + 1;
      } else {
        RestItemsCount(s, onlyEtf, req, i + 1, now, code, sell);
        RestItemsNext(s, onlyEtf, req, i, now);
      }
    }
  }

  lemma RestItemsNext(s: RiskState, onlyEtf: bool, req: OrderMessage, i: nat, now: int)
    requires i < |req.items|
    ensures RestItems(s, onlyEtf, req, i, now) ==
            RestItems(if Covered(onlyEtf, req.items[i].code) then RestItem(s, req, req.items[i], now) else s,
                      onlyEtf, req, i + 1, now)
  {}

  lemma {:induction false} RestItemsKeepTicks(s: RiskState, onlyEtf: bool, req: OrderMessage, i: nat, now: int,
                                             code: string)
    requires i <= |req.items|
    ensures var b, c := BookOf(s, code), BookOf(RestItems(s, onlyEtf, req, i, now), code);
            c.ticks == b.ticks && c.latest == b.latest
    decreases |req.items| - i
  {
    if i < |req.items| {
      if Covered(onlyEtf, req.items[i].code) {
        RestItemCounts(s, req, req.items[i], now, code, true);
        RestItemsKeepTicks(RestItem(s, req, req.items[i], now), onlyEtf, req, i + 1, now, code);
      } else {
        RestItemsKeepTicks(s, onlyEtf, req, i + 1, now, code);
      }
    }
  }

  /** A new order as the request states it. */
  predicate StatedBy(o: Order, req: OrderMessage, item: Item, now: int) {
    && o.createTime == now && o.messageId == req.id && o.timestamp == req.timestamp && o.fundId == req.fundId
    && o.code == item.code && o.bsFlag == req.bsFlag && o.price == item.price && o.volume == item.volume
    && o.orderNo == "" && o.batchNo == "" && o.matchVolume == 0 && o.withdrawFailedTime == 0
    && !o.withdrawSucceed && !o.finished
  }

  lemma {:induction false} RestItemsStates(s: RiskState, onlyEtf: bool, req: OrderMessage, i: nat, now: int, k: nat)
    requires i <= |req.items|
    ensures var t := RestItems(s, onlyEtf, req, i, now);
            var n := |s.ix.orders| - CoveredBefore(SeenBy(onlyEtf), req.items, i);
            && s.ix.orders <= t.ix.orders
            && |t.ix.orders| == n + CoveredBefore(SeenBy(onlyEtf), req.items, |req.items|)
            && (i <= k < |req.items| && Seen(onlyEtf, req.items[k].code) ==>
                  var id := n + CoveredBefore(SeenBy(onlyEtf), req.items, k);
                  0 <= id < |t.ix.orders| && StatedBy(t.ix.orders[id], req, req.items[k], now))
    decreases |req.items| - i
  {
    if i < |req.items| {
      SeenIsCovered(onlyEtf, req.items[i].code);
      if Seen(onlyEtf, req.items[i].code) {
        var t := RestItem(s, req, req.items[i], now);
        RestItemsStates(t, onlyEtf, req, i + 1, now, k);
        assert t.ix.orders[|s.ix.orders|] == NewOrder(req, req.items[i], now);
      } else {
        RestItemsStates(s, onlyEtf, req, i + 1, now, k);
      }
    }
  }

  /** Once a request has passed, every book holds what it held and one entry for each covered item of its code:
      on the side of the request, at the encoded price, naming a new order that is as the item states it. */
  lemma PassedOrdersStand(s: RiskState, req: OrderMessage, now: int, code: string, sell: bool, k: nat)
    requires req.fundId in s.options
    ensures var onlyEtf, n, t := s.options[req.fundId], |s.ix.orders|, OnTradeOrderReqPass(s, req, now);
            && Held(BookOf(t, code), sell) == Held(BookOf(s, code), sell) +
                 (if GoesTo(req.bsFlag, sell)
                  then NewEntries(SeenBy(onlyEtf), req.items, 0, n, code, RankOf(sell)) else multiset{})
            && BookOf(t, code).ticks == BookOf(s, code).ticks && BookOf(t, code).latest == BookOf(s, code).latest
            && s.ix.orders <= t.ix.orders
            && |t.ix.orders| == n + CoveredBefore(SeenBy(onlyEtf), req.items, |req.items|)
            && (k < |req.items| && Seen(onlyEtf, req.items[k].code) ==>
                  var id := n + CoveredBefore(SeenBy(onlyEtf), req.items, k);
                  id < |t.ix.orders| && StatedBy(t.ix.orders[id], req, req.items[k], now))
  {
    RestItemsCount(s, s.options[req.fundId], req, 0, now, code, sell);
    RestItemsKeepTicks(s, s.options[req.fundId], req, 0, now, code);
    RestItemsStates(s, s.options[req.fundId], req, 0, now, k);
  }

  lemma NewEntriesNext(seen: string -> bool, items: seq<Item>, i: nat, n: nat, code: string, rank: real -> int,
                       e: Entry)
    requires i < |items|
    ensures e in NewEntries(seen, items, i, n, code, rank) <==>
            || (seen(items[i].code) && items[i].code == code && e == Entry(rank(items[i].price), n))
            || e in NewEntries(seen, items, i + 1, if seen(items[i].code) then n + 1 else n, code, rank)
  {}

  lemma {:induction false} NewEntriesHold(seen: string -> bool, items: seq<Item>, i: nat, n: nat,
                                          rank: real -> int, k: nat)
    requires i <= k < |items| && seen(items[k].code)
    requires n >= CoveredBefore(seen, items, i)
    ensures var id := n - CoveredBefore(seen, items, i) + CoveredBefore(seen, items, k);
            id >= 0 && Entry(rank(items[k].price), id) in NewEntries(seen, items, i, n, items[k].code, rank)
    decreases |items| - i
  {
    var id := n - CoveredBefore(seen, items, i) + CoveredBefore(seen, items, k);
    if i < k {
      NewEntriesHold(seen, items, i + 1, if seen(items[i].code) then n + 1 else n, rank, k);
    }
    NewEntriesNext(seen, items, i, n, items[k].code, rank, Entry(rank(items[k].price), id));
  }
}

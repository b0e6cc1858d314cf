/** Ticks are only aggregated when they come in; the books are pruned before the next check. */
module TickPruning {
  import opened Options
  import opened Trading
  import opened RiskOrders
  import opened SelfTradeSafety

  /** The ticks a book has accepted, aggregated. */
  function AggregateAll(qs: seq<Tick>): Ticks {
    if qs == [] then NO_TICKS else Aggregate(AggregateAll(qs[..|qs| - 1]), qs[|qs| - 1])
  }

  function Single(q: Tick): Ticks {
    Aggregate(NO_TICKS, q)
  }

  function UntradedAsks(t: Ticks, asks: seq<Entry>): seq<Entry> {
    if asks == [] then []
    else (if TradesAsk(t, asks[0].rank) then [] else [asks[0]]) + UntradedAsks(t, asks[1..])
  }

  lemma EncodeTo(a: real, b: real)
    ensures a <= b ==> EncodePositive(a) <= EncodePositive(b) || (a > 0.0 && b <= 0.0)
    ensures EncodePositive(a) >= 0
  {
    if a <= b {
      EncodeIsMonotone(a, b);
    }
    if a > 0.0 {
      EncodeIsMonotone(0.0, a);
    }
    if b > 0.0 {
      EncodeIsMonotone(0.0, b);
    }
  }

  /** The largest price encodes to the largest encoded price. */
  lemma LargerEncodes(best: real, x: real)
    ensures var m := EncodePositive(Larger(best, x));
            && m >= EncodePositive(best) && m >= EncodePositive(x)
            && (m == EncodePositive(best) || m == EncodePositive(x))
  {
    EncodeTo(best, x);
    EncodeTo(x, best);
  }

  lemma AggregateTradesAsk(t: Ticks, q: Tick, price: int)
    ensures TradesAsk(Aggregate(t, q), price) <==> TradesAsk(t, price) || TradesAsk(Single(q), price)
  {
    LargerEncodes(t.maxBp1, q.bp1);
    LargerEncodes(t.maxNew, q.newPrice);
    LargerEncodes(0.0, q.bp1);
    LargerEncodes(0.0, q.newPrice);
  }

  /** An aggregate of ticks trades an ask exactly when one of the ticks does so by itself. */
  lemma {:induction false} AskTradedByOne(qs: seq<Tick>, price: int)
    ensures TradesAsk(AggregateAll(qs), price) <==> exists i | 0 <= i < |qs| :: TradesAsk(Single(qs[i]), price)
  {
    if qs != [] {
      var n := |qs| - 1;
      AskTradedByOne(qs[..n], price);
      AggregateTradesAsk(AggregateAll(qs[..n]), qs[n], price);
      if exists i | 0 <= i < n :: TradesAsk(Single(qs[..n][i]), price) {
        var i :| 0 <= i < n && TradesAsk(Single(qs[..n][i]), price);
        assert qs[i] == qs[..n][i];
      }
      if i: int :| 0 <= i < |qs| && TradesAsk(Single(qs[i]), price) {
        if i < n {
          assert qs[..n][i] == qs[i];
        }
      }
    }
  }

  lemma {:induction false} NothingTradedBeyond(t: Ticks, asks: seq<Entry>)
    requires forall i | 0 <= i < |asks| :: MaxBid(t) < asks[i].rank
    ensures UntradedAsks(t, asks) == asks
  {
    if asks != [] {
      NothingTradedBeyond(t, asks[1..]);
    }
  }

  /** Stopping at the first ask beyond the best bid misses none. */
  lemma {:induction false} DropAsksIsFilter(t: Ticks, asks: seq<Entry>)
    requires SortedSide(asks)
    ensures DropAsks(t, asks) == UntradedAsks(t, asks)
  {
    if asks != [] {
      if MaxBid(t) < asks[0].rank {
        NothingTradedBeyond(t, asks);
      } else {
        DropAsksIsFilter(t, asks[1..]);
      }
    }
  }

  lemma {:induction false} NothingTradedAtAll(t: Ticks, asks: seq<Entry>)
    requires forall price :: !TradesAsk(t, price)
    ensures UntradedAsks(t, asks) == asks
  {
    if asks != [] {
      NothingTradedAtAll(t, asks[1..]);
    }
  }

  lemma HandledAsks(b: Book)
    requires SortedSide(b.asks) && (b.ticks.seen || b.ticks == NO_TICKS)
    ensures TryHandleTick(b).asks == UntradedAsks(b.ticks, b.asks)
  {
    DropAsksIsFilter(b.ticks, b.asks);
    if !b.ticks.seen || MaxBid(b.ticks) <= 0 {
      NothingTradedAtAll(b.ticks, b.asks);
    }
  }

  lemma {:induction false} AggregateSplitsAsks(t: Ticks, q: Tick, asks: seq<Entry>)
    ensures UntradedAsks(Aggregate(t, q), asks) == UntradedAsks(Single(q), UntradedAsks(t, asks))
  {
    if asks != [] {
      AggregateSplitsAsks(t, q, asks[1..]);
      AggregateTradesAsk(t, q, asks[0].rank);
      if !TradesAsk(t, asks[0].rank) {
        assert ([asks[0]] + UntradedAsks(t, asks[1..]))[1..] == UntradedAsks(t, asks[1..]);
      } else {
        assert [] + UntradedAsks(t, asks[1..]) == UntradedAsks(t, asks[1..]);
      }
    }
  }

  lemma {:induction false} UntradedStaysSorted(t: Ticks, asks: seq<Entry>)
    requires SortedSide(asks)
    ensures SortedSide(UntradedAsks(t, asks))
    ensures forall e | e in UntradedAsks(t, asks) :: e in asks
  {
    if asks != [] {
      UntradedStaysSorted(t, asks[1..]);
      var rest := UntradedAsks(t, asks[1..]);
      assert forall j | 0 <= j < |rest| :: rest[j] in asks[1..];
    }
  }

  function OnTicks(b: Book, qs: seq<Tick>): Book {
    if qs == [] then b else OnTick(OnTicks(b, qs[..|qs| - 1]), qs[|qs| - 1])
  }

  /** Pruning after every single tick. */
  function Eager(b: Book, qs: seq<Tick>): Book {
    if qs == [] then b else TryHandleTick(OnTick(Eager(b, qs[..|qs| - 1]), qs[|qs| - 1]))
  }

  function Accepted(b: Book, qs: seq<Tick>): seq<Tick> {
    if qs == [] then []
    else Accepted(b, qs[..|qs| - 1]) + (if TickAccepted(b, qs[|qs| - 1]) then [qs[|qs| - 1]] else [])
  }

  lemma {:induction false} OnTicksAggregates(b: Book, qs: seq<Tick>)
    requires b.ticks == NO_TICKS
    ensures OnTicks(b, qs) == b.(ticks := AggregateAll(Accepted(b, qs)))
    ensures var t := AggregateAll(Accepted(b, qs)); t.seen || t == NO_TICKS
  {
    if qs != [] {
      var n := |qs| - 1;
      OnTicksAggregates(b, qs[..n]);
      var a := Accepted(b, qs);
      if TickAccepted(b, qs[n]) {
        assert a[..|a| - 1] == Accepted(b, qs[..n]);
      } else {
        assert a == Accepted(b, qs[..n]);
      }
    }
  }

  /** Which asks a late pruning removes: those that one of the accepted ticks trades. */
  lemma {:induction false} LatePruningOfAsks(b: Book, qs: seq<Tick>)
    requires b.ticks == NO_TICKS && SortedSide(b.asks)
    ensures TryHandleTick(OnTicks(b, qs)).asks == UntradedAsks(AggregateAll(Accepted(b, qs)), b.asks)
  {
    OnTicksAggregates(b, qs);
    HandledAsks(OnTicks(b, qs));
  }

  /** Aggregating the ticks and pruning once leaves the same asks, in the same order, as pruning
      after each tick. */
  lemma {:induction false} LateAsksAreEagerAsks(b: Book, qs: seq<Tick>)
    requires b.ticks == NO_TICKS && SortedSide(b.asks)
    ensures TryHandleTick(OnTicks(b, qs)).asks == Eager(b, qs).asks
    ensures Eager(b, qs).latest == b.latest && Eager(b, qs).ticks == NO_TICKS
  {
    if qs != [] {
      var n := |qs| - 1;
      var q := qs[n];
      LateAsksAreEagerAsks(b, qs[..n]);
      LatePruningOfAsks(b, qs[..n]);
      LatePruningOfAsks(b, qs);
      var before := AggregateAll(Accepted(b, qs[..n]));
      var e := Eager(b, qs[..n]);
      assert e.asks == UntradedAsks(before, b.asks);
      UntradedStaysSorted(before, b.asks);
      HandledAsks(OnTick(e, q));
      if TickAccepted(b, q) {
        var a := Accepted(b, qs);
        assert a[..|a| - 1] == Accepted(b, qs[..n]);
        AggregateSplitsAsks(before, q, b.asks);
      } else {
        assert Accepted(b, qs) == Accepted(b, qs[..n]);
      }
    }
  }

  // ---- Asks, tick by tick ----

  /** A tick that is not late: no order was checked before, or the last check was at least 10 s earlier. */
  predicate NotTooEarly(b: Book, q: Tick) {
    b.latest <= 0 || q.timestamp >= b.latest + 10000
  }

  lemma {:induction false} AcceptedExactly(b: Book, qs: seq<Tick>)
    ensures forall q :: q in Accepted(b, qs) <==> q in qs && NotTooEarly(b, q)
  {
    if qs != [] {
      var n := |qs| - 1;
      AcceptedExactly(b, qs[..n]);
      assert qs == qs[..n] + [qs[n]];
    }
  }

  /** The best bid of a tick is at an ask's price or above, or its trade price above it. */
  predicate ReachesAsk(q: Tick, price: int) {
    var bid, trade := EncodePositive(q.bp1), EncodePositive(q.newPrice);
    (0 < bid && price <= bid) || (0 < trade && price < trade)
  }

  lemma SingleReachesAsk(q: Tick, price: int)
    ensures TradesAsk(Single(q), price) <==> ReachesAsk(q, price)
  {
    EncodeTo(q.bp1, q.newPrice);
    EncodeTo(q.newPrice, q.bp1);
  }

  lemma {:induction false} UntradedMembers(t: Ticks, asks: seq<Entry>)
    ensures forall e :: e in UntradedAsks(t, asks) <==> e in asks && !TradesAsk(t, e.rank)
  {
    if asks != [] {
      UntradedMembers(t, asks[1..]);
      assert asks == [asks[0]] + asks[1..];
    }
  }

  /** Pruning takes out an ask exactly when one of the ticks since the last pruning, and not too early for the
      book, reaches its price. */
  lemma AskFallsExactly(b: Book, qs: seq<Tick>, e: Entry)
    requires b.ticks == NO_TICKS && SortedSide(b.asks) && e in b.asks
    ensures e !in TryHandleTick(OnTicks(b, qs)).asks <==>
            exists q :: q in qs && NotTooEarly(b, q) && ReachesAsk(q, e.rank)
  {
    var a := Accepted(b, qs);
    LatePruningOfAsks(b, qs);
    UntradedMembers(AggregateAll(a), b.asks);
    AskTradedByOne(a, e.rank);
    AcceptedExactly(b, qs);
    forall i | 0 <= i < |a| ensures TradesAsk(Single(a[i]), e.rank) <==> ReachesAsk(a[i], e.rank) {
      SingleReachesAsk(a[i], e.rank);
    }
    if q :| q in qs && NotTooEarly(b, q) && ReachesAsk(q, e.rank) {
      assert q in a;
      var i :| 0 <= i < |a| && a[i] == q;
    }
  }

  /** What is left of the asks is left in its order. */
  lemma AsksKeepTheirOrder(b: Book, qs: seq<Tick>)
    requires b.ticks == NO_TICKS && SortedSide(b.asks)
    ensures multiset(TryHandleTick(OnTicks(b, qs)).asks) <= multiset(b.asks)
    ensures SortedSide(TryHandleTick(OnTicks(b, qs)).asks)
  {
    LatePruningOfAsks(b, qs);
    UntradedStaysSorted(AggregateAll(Accepted(b, qs)), b.asks);
    UntradedAreFewer(AggregateAll(Accepted(b, qs)), b.asks);
  }

  lemma {:induction false} UntradedAreFewer(t: Ticks, asks: seq<Entry>)
    ensures multiset(UntradedAsks(t, asks)) <= multiset(asks)
  {
    if asks != [] {
      UntradedAreFewer(t, asks[1..]);
      assert asks == [asks[0]] + asks[1..];
    }
  }

  // ---- Bids ----

  /** A price is none, or does not round to zero. */
  predicate Quoted(price: real) {
    price > 0.0 ==> EncodePrice(price) > 0
  }

  ghost predicate QuotesQuoted(qs: seq<Tick>) {
    forall i | 0 <= i < |qs| :: Quoted(qs[i].ap1)
  }

  ghost predicate TradesQuoted(qs: seq<Tick>) {
    forall i | 0 <= i < |qs| :: Quoted(qs[i].newPrice)
  }

  ghost predicate AnyQuote(qs: seq<Tick>) {
    exists i | 0 <= i < |qs| :: qs[i].ap1 > 0.0
  }

  ghost predicate AnyTrade(qs: seq<Tick>) {
    exists i | 0 <= i < |qs| :: qs[i].newPrice > 0.0
  }

  /** The ask of a tick is at a bid's price or below. */
  predicate QuoteReaches(q: Tick, price: int) {
    0 < EncodePositive(q.ap1) <= price
  }

  /** The trade price of a tick is below a bid's price. */
  predicate TradeReaches(q: Tick, price: int) {
    0 < EncodePositive(q.newPrice) < price
  }

  ghost predicate AnyQuoteReaches(qs: seq<Tick>, price: int) {
    exists i | 0 <= i < |qs| :: QuoteReaches(qs[i], price)
  }

  ghost predicate AnyTradeReaches(qs: seq<Tick>, price: int) {
    exists i | 0 <= i < |qs| :: TradeReaches(qs[i], price)
  }

  /** Pruning by this tick alone takes out a bid. */
  predicate TakenAlone(q: Tick, price: int) {
    EncodePositive(q.newPrice) > 0 && (QuoteReaches(q, price) || TradeReaches(q, price))
  }

  /** Pruning after every tick takes out a bid. */
  ghost predicate TakenEagerly(qs: seq<Tick>, price: int) {
    exists i | 0 <= i < |qs| :: TakenAlone(qs[i], price)
  }

  /** Pruning once, by the extremes of all ticks, takes out a bid. */
  ghost predicate TakenLate(qs: seq<Tick>, price: int) {
    && TradesQuoted(qs) && AnyTrade(qs)
    && ((QuotesQuoted(qs) && AnyQuoteReaches(qs, price)) || AnyTradeReaches(qs, price))
  }

  ghost function LateRule(qs: seq<Tick>): int -> bool {
    price => TakenLate(qs, price)
  }

  ghost function EagerRule(qs: seq<Tick>): int -> bool {
    price => TakenEagerly(qs, price)
  }

  ghost function AloneRule(q: Tick): int -> bool {
    price => TakenAlone(q, price)
  }

  ghost function TradesRule(t: Ticks): int -> bool {
    price => TradesBid(t, price)
  }

  lemma SmallerEncodes(best: real, x: real)
    ensures var m, e, f := EncodePositive(Smaller(best, x)), EncodePositive(best), EncodePositive(x);
            if best <= 0.0 then m == f else if x <= 0.0 then m == e else m == if e <= f then e else f
  {
    EncodeTo(best, x);
    EncodeTo(x, best);
  }

  lemma {:induction false} LowestQuote(qs: seq<Tick>, price: int)
    ensures var low := AggregateAll(qs).minAp1;
            && (low > 0.0 <==> AnyQuote(qs))
            && (EncodePositive(low) > 0 <==> QuotesQuoted(qs) && AnyQuote(qs))
            && (EncodePositive(low) > 0 ==> (EncodePositive(low) <= price <==> AnyQuoteReaches(qs, price)))
  {
    if qs != [] {
      var n := |qs| - 1;
      var before, q := qs[..n], qs[n];
      LowestQuote(before, price);
      SmallerEncodes(AggregateAll(before).minAp1, q.ap1);
      EncodeTo(q.ap1, q.ap1);
      assert forall i | 0 <= i < n :: before[i] == qs[i];
      assert AnyQuote(qs) <==> AnyQuote(before) || q.ap1 > 0.0;
      assert QuotesQuoted(qs) <==> QuotesQuoted(before) && Quoted(q.ap1);
      assert AnyQuoteReaches(qs, price) <==> AnyQuoteReaches(before, price) || QuoteReaches(q, price);
    }
  }

  lemma {:induction false} LowestTrade(qs: seq<Tick>, price: int)
    ensures var low := AggregateAll(qs).minNew;
            && (low > 0.0 <==> AnyTrade(qs))
            && (EncodePositive(low) > 0 <==> TradesQuoted(qs) && AnyTrade(qs))
            && (EncodePositive(low) > 0 ==> (EncodePositive(low) < price <==> AnyTradeReaches(qs, price)))
  {
    if qs != [] {
      var n := |qs| - 1;
      var before, q := qs[..n], qs[n];
      LowestTrade(before, price);
      SmallerEncodes(AggregateAll(before).minNew, q.newPrice);
      EncodeTo(q.newPrice, q.newPrice);
      assert forall i | 0 <= i < n :: before[i] == qs[i];
      assert AnyTrade(qs) <==> AnyTrade(before) || q.newPrice > 0.0;
      assert TradesQuoted(qs) <==> TradesQuoted(before) && Quoted(q.newPrice);
      assert AnyTradeReaches(qs, price) <==> AnyTradeReaches(before, price) || TradeReaches(q, price);
    }
  }

  lemma ReachedQuoteIsAny(qs: seq<Tick>, price: int)
    ensures AnyQuoteReaches(qs, price) ==> AnyQuote(qs)
    ensures AnyTradeReaches(qs, price) ==> AnyTrade(qs)
  {
    if i: int :| 0 <= i < |qs| && QuoteReaches(qs[i], price) {
      assert qs[i].ap1 > 0.0;
    }
    if i: int :| 0 <= i < |qs| && TradeReaches(qs[i], price) {
      assert qs[i].newPrice > 0.0;
    }
  }

  /** When an aggregate trades a bid, and when it is acted on at all: one extreme that rounds to zero
      hides all prices of its kind. */
  lemma BidTradedByOne(qs: seq<Tick>, price: int)
    ensures TradesBid(AggregateAll(qs), price) <==>
            (QuotesQuoted(qs) && AnyQuoteReaches(qs, price)) || (TradesQuoted(qs) && AnyTradeReaches(qs, price))
    ensures MinAsk(AggregateAll(qs)) > 0 <==> TradesQuoted(qs) && AnyTrade(qs)
  {
    LowestQuote(qs, price);
    LowestTrade(qs, price);
    ReachedQuoteIsAny(qs, price);
  }

  lemma SingleTrades(q: Tick, price: int)
    ensures TradesBid(Single(q), price) <==> QuoteReaches(q, price) || TradeReaches(q, price)
    ensures MinAsk(Single(q)) > 0 <==> EncodePositive(q.newPrice) > 0
  {
    SmallerEncodes(0.0, q.ap1);
    SmallerEncodes(0.0, q.newPrice);
    EncodeTo(q.newPrice, q.ap1);
  }

  // ---- Bids that are kept ----

  /** The bids whose prices are not taken out. */
  ghost function Kept(bids: seq<Entry>, taken: int -> bool): seq<Entry> {
    if bids == [] then [] else (if taken(-bids[0].rank) then [] else [bids[0]]) + Kept(bids[1..], taken)
  }

  lemma {:induction false} KeptMembers(bids: seq<Entry>, taken: int -> bool)
    ensures forall e :: e in Kept(bids, taken) <==> e in bids && !taken(-e.rank)
  {
    if bids != [] {
      KeptMembers(bids[1..], taken);
      assert forall e :: e in bids <==> e == bids[0] || e in bids[1..];
    }
  }

  lemma {:induction false} KeptStaysSorted(bids: seq<Entry>, taken: int -> bool)
    requires SortedSide(bids)
    ensures SortedSide(Kept(bids, taken))
  {
    if bids != [] {
      TailIsSorted(bids);
      KeptStaysSorted(bids[1..], taken);
      KeptMembers(bids[1..], taken);
      KeepHead(bids[0], Kept(bids[1..], taken), bids);
    }
  }

  /** Two rules keep the same bids exactly when they agree on every bid. */
  lemma {:induction false} KeptAgreeExactly(bids: seq<Entry>, a: int -> bool, b: int -> bool)
    ensures Kept(bids, a) == Kept(bids, b) <==> forall e | e in bids :: a(-e.rank) <==> b(-e.rank)
  {
    if forall e | e in bids :: a(-e.rank) <==> b(-e.rank) {
      if bids != [] {
        assert bids[0] in bids && forall e | e in bids[1..] :: e in bids;
        KeptAgreeExactly(bids[1..], a, b);
      }
    } else {
      KeptMembers(bids, a);
      KeptMembers(bids, b);
    }
  }

  lemma {:induction false} KeptTwice(bids: seq<Entry>, a: int -> bool, b: int -> bool, both: int -> bool)
    requires forall price :: both(price) <==> a(price) || b(price)
    ensures Kept(Kept(bids, a), b) == Kept(bids, both)
  {
    if bids != [] {
      KeptTwice(bids[1..], a, b, both);
      if !a(-bids[0].rank) {
        assert ([bids[0]] + Kept(bids[1..], a))[1..] == Kept(bids[1..], a);
      } else {
        assert [] + Kept(bids[1..], a) == Kept(bids[1..], a);
      }
    }
  }

  lemma {:induction false} NoBidTradedBelow(t: Ticks, bids: seq<Entry>)
    requires MinAsk(t) > 0 && forall i | 0 <= i < |bids| :: MinAsk(t) > -bids[i].rank
    ensures Kept(bids, TradesRule(t)) == bids
  {
    if bids != [] {
      NoBidTradedBelow(t, bids[1..]);
    }
  }

  /** Stopping at the first bid below the best ask misses none. */
  lemma {:induction false} DropBidsIsFilter(t: Ticks, bids: seq<Entry>)
    requires SortedSide(bids) && MinAsk(t) > 0
    ensures DropBids(t, bids) == Kept(bids, TradesRule(t))
  {
    if bids != [] {
      if MinAsk(t) > -bids[0].rank {
        NoBidTradedBelow(t, bids);
      } else {
        DropBidsIsFilter(t, bids[1..]);
      }
    }
  }

  /** Which bids a late pruning takes out, tick by tick. */
  lemma LatePruningOfBids(b: Book, qs: seq<Tick>)
    requires b.ticks == NO_TICKS && SortedSide(b.bids)
    ensures TryHandleTick(OnTicks(b, qs)).bids == Kept(b.bids, LateRule(Accepted(b, qs)))
  {
    var a := Accepted(b, qs);
    var t := AggregateAll(a);
    OnTicksAggregates(b, qs);
    BidTradedByOne(a, 0);
    if MinAsk(t) > 0 {
      DropBidsIsFilter(t, b.bids);
      forall price ensures TradesBid(t, price) <==> TakenLate(a, price) {
        BidTradedByOne(a, price);
      }
      KeptAgreeExactly(b.bids, TradesRule(t), LateRule(a));
    } else {
      NothingTaken(b.bids, LateRule(a));
    }
  }

  lemma {:induction false} NothingTaken(bids: seq<Entry>, taken: int -> bool)
    requires forall price :: !taken(price)
    ensures Kept(bids, taken) == bids
  {
    if bids != [] {
      NothingTaken(bids[1..], taken);
    }
  }

  lemma PruneByOne(e: Book, q: Tick)
    requires e.ticks == NO_TICKS && SortedSide(e.bids) && TickAccepted(e, q)
    ensures var f := TryHandleTick(OnTick(e, q));
            && f.latest == e.latest && f.ticks == NO_TICKS
            && f.bids == Kept(e.bids, AloneRule(q))
  {
    SingleTrades(q, 0);
    if EncodePositive(q.newPrice) > 0 {
      DropBidsIsFilter(Single(q), e.bids);
      forall price ensures TradesBid(Single(q), price) <==> TakenAlone(q, price) {
        SingleTrades(q, price);
      }
      KeptAgreeExactly(e.bids, TradesRule(Single(q)), AloneRule(q));
    } else {
      NothingTaken(e.bids, AloneRule(q));
    }
  }

  lemma TakenNext(a: seq<Tick>, q: Tick, price: int)
    ensures TakenEagerly(a + [q], price) <==> TakenEagerly(a, price) || TakenAlone(q, price)
  {
    var more := a + [q];
    assert more[|a|] == q && forall i | 0 <= i < |a| :: more[i] == a[i];
  }

  /** Which bids pruning after every tick takes out. */
  lemma {:induction false} EagerPruningOfBids(b: Book, qs: seq<Tick>)
    requires b.ticks == NO_TICKS && SortedSide(b.bids)
    ensures var e := Eager(b, qs);
            && e.latest == b.latest && e.ticks == NO_TICKS
            && e.bids == Kept(b.bids, EagerRule(Accepted(b, qs)))
  {
    if qs == [] {
      NothingTaken(b.bids, EagerRule([]));
    } else {
      var n := |qs| - 1;
      var e, q, a := Eager(b, qs[..n]), qs[n], Accepted(b, qs[..n]);
      EagerPruningOfBids(b, qs[..n]);
      if TickAccepted(b, q) {
        KeptStaysSorted(b.bids, EagerRule(a));
        PruneByOne(e, q);
        forall price ensures TakenEagerly(a + [q], price) <==> TakenEagerly(a, price) || TakenAlone(q, price) {
          TakenNext(a, q, price);
        }
        KeptTwice(b.bids, EagerRule(a), AloneRule(q), EagerRule(a + [q]));
        assert Accepted(b, qs) == a + [q];
      } else {
        assert Accepted(b, qs) == a;
      }
    }
  }

  // ---- Late and eager pruning of bids ----

  /** The extremes together take out a bid that no tick takes out alone. */
  ghost predicate TakenTooMuch(a: seq<Tick>, price: int) {
    TradesQuoted(a) && QuotesQuoted(a) && AnyTrade(a) && AnyQuoteReaches(a, price) && !TakenEagerly(a, price)
  }

  /** Some tick takes out a bid, and a price that rounds to zero hides it in the extremes. */
  ghost predicate TakenTooLittle(a: seq<Tick>, price: int) {
    TakenEagerly(a, price) && !(TradesQuoted(a) && (QuotesQuoted(a) || AnyTradeReaches(a, price)))
  }

  lemma TakenAlikeExactly(a: seq<Tick>, price: int)
    ensures (TakenLate(a, price) <==> TakenEagerly(a, price)) <==> !TakenTooMuch(a, price) && !TakenTooLittle(a, price)
  {
    ReachedQuoteIsAny(a, price);
    if i: int :| 0 <= i < |a| && TradeReaches(a[i], price) {
      assert TakenAlone(a[i], price);
    }
    if i: int :| 0 <= i < |a| && TakenAlone(a[i], price) {
      assert a[i].newPrice > 0.0;
      assert QuoteReaches(a[i], price) || TradeReaches(a[i], price);
    }
  }

  /** Pruning once and pruning after every tick leave the same bids exactly when no resting bid is
      reached by a quote beside some trade price, but by no tick with a trade price of its own, and no
      resting bid that a tick takes out is hidden by a price that rounds to zero. */
  lemma LateBidsAreEagerBidsExactly(b: Book, qs: seq<Tick>)
    requires b.ticks == NO_TICKS && SortedSide(b.bids)
    ensures var a := Accepted(b, qs);
            TryHandleTick(OnTicks(b, qs)).bids == Eager(b, qs).bids <==>
            forall e | e in b.bids :: !TakenTooMuch(a, -e.rank) && !TakenTooLittle(a, -e.rank)
  {
    var a := Accepted(b, qs);
    LatePruningOfBids(b, qs);
    EagerPruningOfBids(b, qs);
    KeptAgreeExactly(b.bids, LateRule(a), EagerRule(a));
    forall e | e in b.bids
      ensures (LateRule(a)(-e.rank) <==> EagerRule(a)(-e.rank)) <==>
              !TakenTooMuch(a, -e.rank) && !TakenTooLittle(a, -e.rank)
    {
      TakenAlikeExactly(a, -e.rank);
    }
  }

  ghost predicate AllQuoted(qs: seq<Tick>) {
    QuotesQuoted(qs) && TradesQuoted(qs)
  }

  ghost predicate AnyTrades(qs: seq<Tick>, price: int) {
    exists i | 0 <= i < |qs| :: TradesBid(Single(qs[i]), price)
  }

  ghost predicate AnyTradesAtPrice(qs: seq<Tick>, price: int) {
    exists i | 0 <= i < |qs| :: qs[i].newPrice > 0.0 && TradesBid(Single(qs[i]), price)
  }

  lemma QuotedTrades(a: seq<Tick>, price: int)
    requires AllQuoted(a)
    ensures AnyTrades(a, price) <==> AnyQuoteReaches(a, price) || AnyTradeReaches(a, price)
    ensures AnyTradesAtPrice(a, price) <==> TakenEagerly(a, price)
  {
    forall i | 0 <= i < |a|
      ensures TradesBid(Single(a[i]), price) <==> QuoteReaches(a[i], price) || TradeReaches(a[i], price)
      ensures TakenAlone(a[i], price) <==> a[i].newPrice > 0.0 && TradesBid(Single(a[i]), price)
    {
      SingleTrades(a[i], price);
      assert Quoted(a[i].newPrice);
    }
  }

  /** With prices as exchanges quote them: exactly when, once a trade price was seen, every resting bid
      that some tick trades by itself is traded by a tick that carries a trade price. */
  lemma QuotedLateBidsAreEagerBidsExactly(b: Book, qs: seq<Tick>)
    requires b.ticks == NO_TICKS && SortedSide(b.bids) && AllQuoted(Accepted(b, qs))
    ensures var a := Accepted(b, qs);
            TryHandleTick(OnTicks(b, qs)).bids == Eager(b, qs).bids <==>
            (AnyTrade(a) ==> forall e | e in b.bids :: AnyTrades(a, -e.rank) ==> AnyTradesAtPrice(a, -e.rank))
  {
    var a := Accepted(b, qs);
    LateBidsAreEagerBidsExactly(b, qs);
    forall e | e in b.bids
      ensures !TakenTooMuch(a, -e.rank) && !TakenTooLittle(a, -e.rank) <==>
              (AnyTrade(a) && AnyTrades(a, -e.rank) ==> AnyTradesAtPrice(a, -e.rank))
    {
      QuotedTrades(a, -e.rank);
      if i: int :| 0 <= i < |a| && TradeReaches(a[i], -e.rank) {
        assert TakenAlone(a[i], -e.rank);
      }
    }
  }

  /** In particular when every accepted tick carries a trade price. */
  lemma LateBidsAreEagerBids(b: Book, qs: seq<Tick>)
    requires b.ticks == NO_TICKS && SortedSide(b.bids) && AllQuoted(Accepted(b, qs))
    requires forall i | 0 <= i < |Accepted(b, qs)| :: Accepted(b, qs)[i].newPrice > 0.0
    ensures TryHandleTick(OnTicks(b, qs)).bids == Eager(b, qs).bids
  {
    QuotedLateBidsAreEagerBidsExactly(b, qs);
  }

  /** A quote alone never removes a bid, but it does so together with a later trade price: a bid at
      11 survives the ask at 10 and the trade at 12 one by one, and falls to both. */
  lemma QuoteActsOnlyWithTrade(latest: int)
    requires latest <= 0
    ensures var b := Book(latest, NO_TICKS, [], [Entry(-110000, 0)]);
            var quote, trade := Tick(0, 0.0, 10.0, 0.0), Tick(0, 0.0, 13.0, 12.0);
            && Eager(b, [quote, trade]).bids == b.bids
            && TryHandleTick(OnTicks(b, [quote, trade])).bids == []
  {
    var b := Book(latest, NO_TICKS, [], [Entry(-110000, 0)]);
    var quote, trade := Tick(0, 0.0, 10.0, 0.0), Tick(0, 0.0, 13.0, 12.0);
    assert [quote, trade][..1] == [quote] && [quote][..0] == [];
    assert EncodePrice(10.0) == 100000 && EncodePrice(12.0) == 120000 && EncodePrice(13.0) == 130000;
    assert Eager(b, [quote]) == TryHandleTick(OnTick(Eager(b, []), quote));
    assert OnTicks(b, [quote]) == OnTick(OnTicks(b, []), quote);
    assert Eager(b, [quote]).bids == b.bids;
    var t := OnTicks(b, [quote, trade]).ticks;
    assert t == Ticks(true, 0.0, 10.0, 12.0, 12.0);
    assert DropBids(t, b.bids[1..]) == [];
  }

  /** A quote that rounds to zero hides the asks quoted beside it, so `Quoted` is needed. */
  lemma TinyQuoteHidesAsk()
    ensures var tiny, quote := Tick(0, 0.0, 0.00001, 0.0), Tick(0, 0.0, 10.0, 12.0);
            && TradesBid(Single(quote), 110000)
            && !TradesBid(AggregateAll([tiny, quote]), 110000)
  {
    var tiny, quote := Tick(0, 0.0, 0.00001, 0.0), Tick(0, 0.0, 10.0, 12.0);
    assert [tiny, quote][..1] == [tiny] && [tiny][..0] == [];
    assert AggregateAll([tiny]) == Single(tiny);
    assert AggregateAll([tiny, quote]) == Aggregate(Single(tiny), quote);
    assert EncodePrice(0.00001) == 0 && EncodePrice(10.0) == 100000 && EncodePrice(12.0) == 120000;
  }
}

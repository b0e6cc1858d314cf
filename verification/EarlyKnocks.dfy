/** Reports that overtake the response to their order. */
module EarlyKnocks {
  import opened Options
  import opened Trading
  import opened RiskOrders
  import opened OrderIdentity

  /** A report for the order with a fund and number, on a covered code. */
  predicate ReportFor(s: RiskState, k: Knock, key: string) {
    && OrderNoKey(k.fundId, k.orderNo) == key
    && k.fundId in s.options && Covered(s.options[k.fundId], k.code)
  }

  /** A report that is kept until the response: any but a withdrawal. */
  predicate KeepsFor(s: RiskState, k: Knock, key: string) {
    ReportFor(s, k, key) && !k.matchType.MatchWithdrawOk?
  }

  function ItemKey(rep: OrderMessage, i: nat): string
    requires i < |rep.items|
  {
    OrderNoKey(rep.fundId, rep.items[i].orderNo)
  }

  function WithEarly(s: RiskState, key: string, ks: seq<Knock>): RiskState {
    s.(ix := s.ix.(early := s.ix.early[key := ks]))
  }

  lemma {:induction false} KnocksAppend(s: RiskState, a: seq<Knock>, b: seq<Knock>, now: int)
    ensures Knocks(s, a + b, now) == Knocks(Knocks(s, a, now), b, now)
    decreases |a|
  {
    if a == [] {
      assert a + b == b;
    } else {
      assert (a + b)[1..] == a[1..] + b;
      KnocksAppend(OnTradeKnock(s, a[0], now), a[1..], b, now);
    }
  }

  /** Before the response, reports pile up in order of arrival. */
  lemma {:induction false} EarlyKnocksPileUp(s: RiskState, key: string, ks: seq<Knock>, now: int)
    requires key !in s.ix.single && key !in s.ix.early
    requires forall i | 0 <= i < |ks| :: KeepsFor(s, ks[i], key)
    ensures Knocks(s, ks, now) == if ks == [] then s else WithEarly(s, key, ks)
    decreases |ks|
  {
    if ks != [] {
      var n := |ks| - 1;
      EarlyKnocksPileUp(s, key, ks[..n], now);
      assert ks == ks[..n] + [ks[n]];
      KnocksAppend(s, ks[..n], [ks[n]], now);
      var t := Knocks(s, ks[..n], now);
      assert Knocks(t, [ks[n]], now) == OnTradeKnock(t, ks[n], now);
      assert KeepsFor(s, ks[n], key);
      if n > 0 {
        assert s.ix.early[key := ks[..n]][key := ks] == s.ix.early[key := ks];
      }
    }
  }

  /** The part of a response that concerns the book does not look at early reports. */
  lemma AnswerIgnoresEarly(ix: Index, early: map<string, seq<Knock>>, b: Book, rep: OrderMessage, item: Item,
                           now: int)
    ensures var (jx, d, found) := AnswerOrder(ix, b, rep, item, now);
            AnswerOrder(ix.(early := early), b, rep, item, now) == (jx.(early := early), d, found)
    ensures AnswerOrder(ix, b, rep, item, now).0.early == ix.early
    ensures AnswerOrder(ix, b, rep, item, now).0.single == ix.single
    ensures item.orderNo != "" && (rep.bsFlag.Buy? || rep.bsFlag.Sell?) ==> AnswerOrder(ix, b, rep, item, now).2.Some?
  {}

  ghost predicate AnswersOne(s: RiskState, rep: OrderMessage) {
    && |rep.items| == 1 && rep.items[0].orderNo != ""
    && rep.fundId in s.options && Covered(s.options[rep.fundId], rep.items[0].code)
    && ItemKey(rep, 0) !in s.ix.single
    && ItemKey(rep, 0) !in s.ix.early
  }

  /** A response with one item, spelled out. */
  lemma OneItemResponse(s: RiskState, rep: OrderMessage, now: int)
    requires |rep.items| == 1 && rep.fundId in s.options && Covered(s.options[rep.fundId], rep.items[0].code)
    ensures var a := AnswerItem(Answering(s, None, []), rep, rep.items[0], now);
            var t := a.s.(ix := FileBatch(a.s.ix, rep, a.batch));
            HandleTradeOrderRep(s, rep, now) == if a.held.Some? then Knocks(t, a.held.value, now) else t
  {
    var a := AnswerItem(Answering(s, None, []), rep, rep.items[0], now);
    assert AnswerItems(a, s.options[rep.fundId], rep, 1, now) == a;
  }

  /** A response replays what was kept for it as if it came in just then. */
  lemma ResponseReplays(s: RiskState, rep: OrderMessage, held: seq<Knock>, now: int)
    requires AnswersOne(s, rep) && held != []
    requires forall i | 0 <= i < |held| :: KeepsFor(s, held[i], ItemKey(rep, 0))
    ensures HandleTradeOrderRep(WithEarly(s, ItemKey(rep, 0), held), rep, now)
         == Knocks(HandleTradeOrderRep(s, rep, now), held, now)
  {
    var item := rep.items[0];
    var key := OrderNoKey(rep.fundId, item.orderNo);
    var e := WithEarly(s, key, held);
    OneItemResponse(s, rep, now);
    OneItemResponse(e, rep, now);
    AnswerIgnoresEarly(s.ix, e.ix.early, BookOf(s, item.code), rep, item, now);
    assert e.ix == s.ix.(early := e.ix.early);
    var a := AnswerItem(Answering(s, None, []), rep, item, now);
    var c := AnswerItem(Answering(e, None, []), rep, item, now);
    assert e.ix.early - {key} == s.ix.early && s.ix.early - {key} == s.ix.early;
    if rep.bsFlag.Buy? || rep.bsFlag.Sell? {
      assert c.held == Some(held) && a.held == None && c.s == a.s && c.batch == a.batch;
    } else {
      assert a == Answering(a.s, None, []) && c == Answering(WithEarly(a.s, key, held), None, []);
      EarlyKnocksPileUp(a.s, key, held, now);
    }
  }

  /** Wherever the response to a one-item order comes among reports, the result is the same: order,
      indexes, books and kept reports; as long as the reports before it are the order's own and none of
      them is a withdrawal. */
  lemma PlacementDoesNotMatter(s: RiskState, rep: OrderMessage, ks: seq<Knock>, i: nat, now: int)
    requires AnswersOne(s, rep) && i <= |ks|
    requires forall j | 0 <= j < i :: KeepsFor(s, ks[j], ItemKey(rep, 0))
    ensures Knocks(HandleTradeOrderRep(Knocks(s, ks[..i], now), rep, now), ks[i..], now)
         == Knocks(HandleTradeOrderRep(s, rep, now), ks, now)
  {
    EarlyKnocksPileUp(s, ItemKey(rep, 0), ks[..i], now);
    if i > 0 {
      ResponseReplays(s, rep, ks[..i], now);
    }
    assert ks == ks[..i] + ks[i..];
    KnocksAppend(HandleTradeOrderRep(s, rep, now), ks[..i], ks[i..], now);
    assert ks[..0] == [];
  }

  // ---- Reports of one order ----

  function Waiting(s: RiskState, key: string): seq<Knock> {
    if key in s.ix.early then s.ix.early[key] else []
  }

  /** The reports that are not withdrawals. */
  function Staying(ks: seq<Knock>): seq<Knock> {
    if ks == [] then []
    else Staying(ks[..|ks| - 1]) + (if ks[|ks| - 1].matchType.MatchWithdrawOk? then [] else [ks[|ks| - 1]])
  }

  lemma {:induction false} StayingAppend(a: seq<Knock>, b: seq<Knock>)
    ensures Staying(a + b) == Staying(a) + Staying(b)
  {
    if b == [] {
      assert a + b == a;
    } else {
      StayingAppend(a, b[..|b| - 1]);
      assert (a + b)[..|a + b| - 1] == a + b[..|b| - 1];
    }
  }

  lemma {:induction false} StayingStays(ks: seq<Knock>)
    ensures forall k | k in Staying(ks) :: k in ks && !k.matchType.MatchWithdrawOk?
  {
    if ks != [] {
      StayingStays(ks[..|ks| - 1]);
    }
  }

  lemma {:induction false} NoneLeaves(ks: seq<Knock>)
    requires forall k | k in ks :: !k.matchType.MatchWithdrawOk?
    ensures Staying(ks) == ks
  {
    if ks != [] {
      NoneLeaves(ks[..|ks| - 1]);
    }
  }

  lemma {:induction false} NoneStaysExactly(ks: seq<Knock>)
    ensures Staying(ks) == [] <==> forall k | k in ks :: k.matchType.MatchWithdrawOk?
  {
    if ks != [] {
      var n := |ks| - 1;
      NoneStaysExactly(ks[..n]);
      assert forall k | k in ks :: k in ks[..n] || k == ks[n];
    }
  }

  ghost predicate AllFor(s: RiskState, ks: seq<Knock>, key: string) {
    forall i | 0 <= i < |ks| :: ReportFor(s, ks[i], key)
  }

  lemma AllForRest(s: RiskState, t: RiskState, ks: seq<Knock>, key: string)
    requires ks != [] && AllFor(s, ks, key) && t.options == s.options
    ensures AllFor(t, ks[1..], key)
  {}

  lemma AllForBoth(s: RiskState, t: RiskState, a: seq<Knock>, b: seq<Knock>, key: string)
    requires AllFor(s, a, key) && AllFor(s, b, key) && t.options == s.options
    ensures AllFor(t, a, key) && AllFor(t, b, key) && AllFor(t, a + b, key)
  {}

  lemma AllForStaying(s: RiskState, ks: seq<Knock>, key: string)
    requires AllFor(s, ks, key)
    ensures AllFor(s, Staying(ks), key)
  {
    StayingStays(ks);
    forall j | 0 <= j < |Staying(ks)| ensures ReportFor(s, Staying(ks)[j], key) {
      assert Staying(ks)[j] in ks;
    }
  }

  lemma {:induction false} KnocksKeepOptions(s: RiskState, ks: seq<Knock>, now: int)
    ensures Knocks(s, ks, now).options == s.options
    decreases |ks|
  {
    if ks != [] {
      KnocksKeepOptions(OnTradeKnock(s, ks[0], now), ks[1..], now);
    }
  }

  function Piled(s: RiskState, key: string, ks: seq<Knock>): RiskState {
    if ks == [] then s else WithEarly(s, key, Waiting(s, key) + ks)
  }

  lemma PileOne(s: RiskState, key: string, ks: seq<Knock>, k: Knock)
    ensures WithEarly(Piled(s, key, ks), key, Waiting(Piled(s, key, ks), key) + [k]) == Piled(s, key, ks + [k])
    ensures Waiting(Piled(s, key, ks), key) == Waiting(s, key) + ks
  {
    var all := Waiting(s, key) + (ks + [k]);
    assert Waiting(s, key) + ks + [k] == all;
    if ks == [] {
      assert Waiting(s, key) + ks == Waiting(s, key) && ks + [k] == [k];
    } else {
      assert s.ix.early[key := Waiting(s, key) + ks][key := all] == s.ix.early[key := all];
    }
  }

  /** Reports for a number that is not in the index only pile up, and withdrawals are dropped. */
  lemma {:induction false} OutOfIndex(s: RiskState, key: string, ks: seq<Knock>, now: int)
    requires key !in s.ix.single && AllFor(s, ks, key)
    ensures Knocks(s, ks, now) == Piled(s, key, Staying(ks))
  {
    if ks != [] {
      var n := |ks| - 1;
      assert ks == ks[..n] + [ks[n]];
      OutOfIndex(s, key, ks[..n], now);
      KnocksAppend(s, ks[..n], [ks[n]], now);
      var t := Knocks(s, ks[..n], now);
      assert Knocks(t, [ks[n]], now) == OnTradeKnock(t, ks[n], now);
      assert ReportFor(s, ks[n], key);
      PileOne(s, key, Staying(ks[..n]), ks[n]);
      assert Staying(ks[..n]) + [] == Staying(ks[..n]);
    }
  }

  /** At most the reports that are not withdrawals pile up. */
  lemma {:induction false} NoMoreWait(s: RiskState, key: string, ks: seq<Knock>, now: int)
    requires AllFor(s, ks, key)
    ensures |Waiting(Knocks(s, ks, now), key)| <= |Waiting(s, key)| + |Staying(ks)|
  {
    if ks != [] {
      var n := |ks| - 1;
      assert ks == ks[..n] + [ks[n]];
      NoMoreWait(s, key, ks[..n], now);
      KnocksAppend(s, ks[..n], [ks[n]], now);
      var t := Knocks(s, ks[..n], now);
      assert Knocks(t, [ks[n]], now) == OnTradeKnock(t, ks[n], now);
      assert ReportFor(s, ks[n], key);
    }
  }

  // ---- What reports make of an order ----

  function Report(o: Order, k: Knock): Order {
    match k.matchType
    case MatchOk => o.(matchVolume := o.matchVolume + k.volume)
    case MatchWithdrawOk => o.(withdrawSucceed := true)
    case MatchFailed => o.(withdrawSucceed := true)
    case MatchOther => o
  }

  function Reported(o: Order, ks: seq<Knock>): Order {
    if ks == [] then o else Report(Reported(o, ks[..|ks| - 1]), ks[|ks| - 1])
  }

  /** Some report finds the order finished. */
  predicate EndedBy(o: Order, ks: seq<Knock>, now: int) {
    ks != [] && (EndedBy(o, ks[..|ks| - 1], now) || Finish(Reported(o, ks), now).finished)
  }

  /** The order filed under a key carries the key's number. */
  ghost predicate Named(ix: Index, key: string) {
    && key in ix.single && ix.single[key] < |ix.orders|
    && var o := ix.orders[ix.single[key]]; o.orderNo != "" && OrderNoKey(o.fundId, o.orderNo) == key
  }

  lemma {:induction false} ReportedKeepsNumber(o: Order, ks: seq<Knock>)
    ensures var r := Reported(o, ks); r.orderNo == o.orderNo && r.fundId == o.fundId
  {
    if ks != [] {
      ReportedKeepsNumber(o, ks[..|ks| - 1]);
    }
  }

  lemma FinishLeaves(ix: Index, id: OrderId, now: int)
    requires id < |ix.orders| && ix.orders[id].orderNo != ""
    ensures OrderNoKey(ix.orders[id].fundId, ix.orders[id].orderNo) !in OnOrderFinish(ix, id, now).single
  {}

  /** One report of an order that is in the index. */
  lemma KnockInIndex(s: RiskState, key: string, k: Knock, now: int)
    requires Named(s.ix, key) && OrderNoKey(k.fundId, k.orderNo) == key
    ensures var id := s.ix.single[key];
            var o := Report(s.ix.orders[id], k);
            var t := OnTradeKnock(s, k, now);
            if Finish(o, now).finished then key !in t.ix.single
            else t == s.(ix := s.ix.(orders := s.ix.orders[id := o]))
  {
    var id := s.ix.single[key];
    var q := Finish(Report(s.ix.orders[id], k), now);
    var jx := s.ix.(orders := Put(s.ix.orders, id, q));
    if q.finished {
      FinishLeaves(jx, id, now);
    }
  }

  /** An order stays in the index exactly until a report finds it finished; until then the reports only
      change the order. */
  lemma {:induction false} InIndexExactly(s: RiskState, key: string, ks: seq<Knock>, now: int)
    requires Named(s.ix, key) && AllFor(s, ks, key)
    ensures var t := Knocks(s, ks, now);
            var id := s.ix.single[key];
            var o := s.ix.orders[id];
            if EndedBy(o, ks, now) then key !in t.ix.single
            else t == s.(ix := s.ix.(orders := s.ix.orders[id := Reported(o, ks)]))
  {
    var id := s.ix.single[key];
    var o := s.ix.orders[id];
    if ks == [] {
      assert s.ix.orders[id := o] == s.ix.orders;
    } else {
      var n := |ks| - 1;
      var init, k := ks[..n], ks[n];
      assert ks == init + [k];
      InIndexExactly(s, key, init, now);
      KnocksAppend(s, init, [k], now);
      var t := Knocks(s, init, now);
      KnocksKeepOptions(s, init, now);
      assert Knocks(t, [k], now) == OnTradeKnock(t, k, now);
      assert ReportFor(s, k, key);
      if EndedBy(o, init, now) {
        OutOfIndex(t, key, [k], now);
      } else {
        ReportedKeepsNumber(o, init);
        KnockInIndex(t, key, k, now);
        var r := Reported(o, init);
        assert s.ix.orders[id := r][id := Report(r, k)] == s.ix.orders[id := Report(r, k)];
      }
    }
  }

  // ---- When the place of the response matters ----

  /** A message belongs to one fund. */
  ghost predicate OwnMessage(s: RiskState, rep: OrderMessage) {
    forall id | 0 <= id < |s.ix.orders| && s.ix.orders[id].messageId == rep.id :: s.ix.orders[id].fundId == rep.fundId
  }

  /** A response with one item files its order under its number. */
  lemma ResponseFiles(s: RiskState, rep: OrderMessage, now: int)
    requires AnswersOne(s, rep) && (rep.bsFlag.Buy? || rep.bsFlag.Sell?) && Filed(s) && OwnMessage(s, rep)
    ensures Named(HandleTradeOrderRep(s, rep, now).ix, ItemKey(rep, 0))
    ensures HandleTradeOrderRep(s, rep, now).options == s.options
  {
    var item := rep.items[0];
    OneItemResponse(s, rep, now);
    AnswerIgnoresEarly(s.ix, s.ix.early, BookOf(s, item.code), rep, item, now);
    AnswerFiles(s.ix, BookOf(s, item.code), rep, item, now);
    AnswerKeepsFund(s.ix, BookOf(s, item.code), rep, item, now);
  }

  lemma AnswerKeepsFund(ix: Index, b: Book, rep: OrderMessage, item: Item, now: int)
    requires forall id | 0 <= id < |ix.orders| && ix.orders[id].messageId == rep.id ::
               ix.orders[id].fundId == rep.fundId
    ensures var jx := AnswerOrder(ix, b, rep, item, now).0;
            forall id | 0 <= id < |jx.orders| && jx.orders[id].messageId == rep.id :: jx.orders[id].fundId == rep.fundId
  {}

  lemma StayingTwice(ks: seq<Knock>)
    ensures Staying(Staying(ks)) == Staying(ks)
  {
    StayingStays(ks);
    NoneLeaves(Staying(ks));
  }

  lemma StayingBehindWithdrawal(k: Knock, ks: seq<Knock>)
    requires k.matchType.MatchWithdrawOk?
    ensures Staying([k] + ks) == Staying(ks)
  {
    StayingAppend([k], ks);
    NoneStaysExactly([k]);
  }

  lemma StayingOfDropped(a: seq<Knock>, b: seq<Knock>)
    ensures Staying(Staying(a) + b) == Staying(a + b)
  {
    StayingTwice(a);
    StayingAppend(Staying(a), b);
    StayingAppend(a, b);
  }

  /** A response behind reports of its order leaves what it leaves when the withdrawals before it never
      came. */
  lemma EarlyWithdrawalsAreDropped(s: RiskState, rep: OrderMessage, first: seq<Knock>, after: seq<Knock>, now: int)
    requires AnswersOne(s, rep) && AllFor(s, first, ItemKey(rep, 0))
    ensures Knocks(HandleTradeOrderRep(Knocks(s, first, now), rep, now), after, now)
         == Knocks(HandleTradeOrderRep(s, rep, now), Staying(first) + after, now)
  {
    var kept := Staying(first);
    var all := kept + after;
    StayingStays(first);
    StayingTwice(first);
    AllForStaying(s, first, ItemKey(rep, 0));
    assert all[..|kept|] == kept && all[|kept|..] == after;
    forall j | 0 <= j < |kept| ensures KeepsFor(s, all[j], ItemKey(rep, 0)) {
      assert all[j] == kept[j] && kept[j] in kept;
    }
    OutOfIndex(s, ItemKey(rep, 0), first, now);
    OutOfIndex(s, ItemKey(rep, 0), kept, now);
    PlacementDoesNotMatter(s, rep, all, |kept|, now);
  }

  /** A withdrawal takes an order out of the index, and its other particulars do not matter. */
  lemma WithdrawalEnds(u: RiskState, key: string, k: Knock, l: Knock, now: int)
    requires Named(u.ix, key) && OrderNoKey(k.fundId, k.orderNo) == key == OrderNoKey(l.fundId, l.orderNo)
    requires k.matchType.MatchWithdrawOk? && l.matchType.MatchWithdrawOk?
    ensures OnTradeKnock(u, k, now) == OnTradeKnock(u, l, now)
    ensures key !in OnTradeKnock(u, k, now).ix.single && OnTradeKnock(u, k, now).ix.early == u.ix.early
    ensures OnTradeKnock(u, k, now).options == u.options
  {
    KnockInIndex(u, key, k, now);
  }

  ghost predicate AllWithdraw(ks: seq<Knock>) {
    forall k | k in ks :: k.matchType.MatchWithdrawOk?
  }

  /** Nothing but withdrawals in between, and then another withdrawal. */
  ghost predicate WithdrawnAgain(between: seq<Knock>, after: seq<Knock>) {
    AllWithdraw(between) && after != [] && after[0].matchType.MatchWithdrawOk?
  }

  lemma WithdrawnAgainIsAlike(u: RiskState, key: string, k: Knock, between: seq<Knock>,
                              after: seq<Knock>, now: int)
    requires ReportFor(u, k, key) && AllFor(u, between, key) && AllFor(u, after, key)
    requires k.matchType.MatchWithdrawOk? && WithdrawnAgain(between, after) && Named(u.ix, key)
    ensures Knocks(u, after, now) == Knocks(OnTradeKnock(u, k, now), between + after, now)
  {
    var v := OnTradeKnock(u, k, now);
    assert ReportFor(u, after[0], key);
    WithdrawalEnds(u, key, k, after[0], now);
    AllForRest(u, v, after, key);
    AllForBoth(u, v, between, after, key);
    OutOfIndex(v, key, after[1..], now);
    OutOfIndex(v, key, between + after, now);
    NoneStaysExactly(between);
    StayingAppend(between, after);
    StayingBehindWithdrawal(after[0], after[1..]);
    assert [after[0]] + after[1..] == after && [] + Staying(after) == Staying(after);
  }

  /** A report of an order in the index is spent on it. */
  lemma FirstIsSpent(u: RiskState, key: string, ks: seq<Knock>, now: int)
    requires ks != [] && AllFor(u, ks, key) && Named(u.ix, key)
    requires !ks[0].matchType.MatchWithdrawOk?
    ensures |Waiting(Knocks(u, ks, now), key)| < |Waiting(u, key)| + |Staying(ks)|
  {
    assert ReportFor(u, ks[0], key);
    var w := OnTradeKnock(u, ks[0], now);
    assert Waiting(w, key) == Waiting(u, key) && w.options == u.options;
    AllForRest(u, w, ks, key);
    NoMoreWait(w, key, ks[1..], now);
    NoneLeaves([ks[0]]);
    StayingAppend([ks[0]], ks[1..]);
    assert [ks[0]] + ks[1..] == ks;
  }

  /** Once withdrawn an order is out of the index, and every later report waits. */
  lemma WithdrawnMakesWait(u: RiskState, key: string, ks: seq<Knock>, now: int)
    requires ks != [] && AllFor(u, ks, key) && Named(u.ix, key)
    requires ks[0].matchType.MatchWithdrawOk?
    ensures var t := Knocks(u, ks, now);
            key !in t.ix.single && |Waiting(t, key)| == |Waiting(u, key)| + |Staying(ks[1..])|
  {
    var v := OnTradeKnock(u, ks[0], now);
    assert ReportFor(u, ks[0], key);
    WithdrawalEnds(u, key, ks[0], ks[0], now);
    AllForRest(u, v, ks, key);
    OutOfIndex(v, key, ks[1..], now);
  }

  /** Without the withdrawal the order stays, or at least one report is spent on it; with it the order is
      out of the index and every later report waits. */
  lemma DroppingShows(u: RiskState, key: string, k: Knock, between: seq<Knock>, after: seq<Knock>,
                      now: int)
    requires ReportFor(u, k, key) && AllFor(u, between, key) && AllFor(u, after, key)
    requires k.matchType.MatchWithdrawOk? && !WithdrawnAgain(between, after) && Named(u.ix, key)
    ensures Knocks(u, Staying(between) + after, now) != Knocks(OnTradeKnock(u, k, now), between + after, now)
  {
    var dropped := Staying(between) + after;
    var all := [k] + (between + after);
    AllForBoth(u, u, between, after, key);
    AllForBoth(u, u, [k], between + after, key);
    assert all[0] == k && all[1..] == between + after;
    WithdrawnMakesWait(u, key, all, now);
    assert Knocks(u, all, now) == Knocks(OnTradeKnock(u, k, now), between + after, now);
    if dropped != [] {
      StayingOfDropped(between, after);
      AllForStaying(u, between, key);
      AllForBoth(u, u, Staying(between), after, key);
      FirstDroppedStays(between, after);
      FirstIsSpent(u, key, dropped, now);
    }
  }

  lemma FirstDroppedStays(between: seq<Knock>, after: seq<Knock>)
    requires !WithdrawnAgain(between, after) && Staying(between) + after != []
    ensures !(Staying(between) + after)[0].matchType.MatchWithdrawOk?
  {
    StayingStays(between);
    NoneStaysExactly(between);
    if Staying(between) != [] {
      assert (Staying(between) + after)[0] == Staying(between)[0] && Staying(between)[0] in Staying(between);
    } else {
      assert [] + after == after;
    }
  }

  /** What dropping the withdrawals before the response leaves is the same exactly when the order was out
      of the index already, or another withdrawal follows at once. */
  lemma DroppingMattersExactly(u: RiskState, key: string, k: Knock, between: seq<Knock>,
                               after: seq<Knock>, now: int)
    requires ReportFor(u, k, key) && AllFor(u, between, key) && AllFor(u, after, key)
    requires k.matchType.MatchWithdrawOk?
    requires key in u.ix.single ==> Named(u.ix, key)
    ensures Knocks(u, Staying(between) + after, now) == Knocks(OnTradeKnock(u, k, now), between + after, now) <==>
            key !in u.ix.single || WithdrawnAgain(between, after)
  {
    if key !in u.ix.single {
      AllForBoth(u, u, between, after, key);
      AllForStaying(u, between, key);
      AllForBoth(u, u, Staying(between), after, key);
      OutOfIndex(u, key, between + after, now);
      OutOfIndex(u, key, Staying(between) + after, now);
      StayingOfDropped(between, after);
    } else if WithdrawnAgain(between, after) {
      NoneStaysExactly(between);
      assert [] + after == after;
      WithdrawnAgainIsAlike(u, key, k, between, after, now);
    } else {
      DroppingShows(u, key, k, between, after, now);
    }
  }

  /** After reports the order is still filed under its number, or is out of the index for good. */
  lemma NamedOrOut(t: RiskState, key: string, ks: seq<Knock>, now: int)
    requires Named(t.ix, key) && AllFor(t, ks, key)
    ensures var u := Knocks(t, ks, now);
            && (key in u.ix.single ==> Named(u.ix, key))
            && (key !in u.ix.single <==> EndedBy(t.ix.orders[t.ix.single[key]], ks, now))
  {
    InIndexExactly(t, key, ks, now);
    ReportedKeepsNumber(t.ix.orders[t.ix.single[key]], ks);
  }

  lemma Regroup<T>(a: seq<T>, b: seq<T>, c: seq<T>)
    ensures a + b + c == a + (b + c)
  {}

  lemma SplitAtWithdrawal(before: seq<Knock>, k: Knock, between: seq<Knock>, after: seq<Knock>)
    requires k.matchType.MatchWithdrawOk? && forall j | j in before :: !j.matchType.MatchWithdrawOk?
    ensures Staying(before + [k] + between) + after == before + (Staying(between) + after)
    ensures before + [k] + between + after == before + ([k] + (between + after))
  {
    NoneLeaves(before);
    StayingAppend(before, [k] + between);
    StayingBehindWithdrawal(k, between);
    Regroup(before, [k], between);
    Regroup(before, Staying(between), after);
    Regroup(before, [k] + between, after);
    Regroup([k], between, after);
  }

  /** Exactly when the place of the response matters, for a one-item order, its reports, and `k` the first
      withdrawal among those before the response: it does not if an earlier report ended the order, or
      if nothing but withdrawals stands between and the first report after the response is another. If
      no withdrawal stands before the response it never matters (`PlacementDoesNotMatter`). */
  lemma PlacementMattersExactly(s: RiskState, rep: OrderMessage, before: seq<Knock>, k: Knock, between: seq<Knock>,
                                after: seq<Knock>, now: int)
    requires AnswersOne(s, rep) && (rep.bsFlag.Buy? || rep.bsFlag.Sell?) && Filed(s) && OwnMessage(s, rep)
    requires AllFor(s, before + [k] + between + after, ItemKey(rep, 0))
    requires k.matchType.MatchWithdrawOk? && forall j | j in before :: !j.matchType.MatchWithdrawOk?
    ensures var t, key := HandleTradeOrderRep(s, rep, now), ItemKey(rep, 0);
            && key in t.ix.single && t.ix.single[key] < |t.ix.orders|
            && (Knocks(HandleTradeOrderRep(Knocks(s, before + [k] + between, now), rep, now), after, now)
                  == Knocks(t, before + [k] + between + after, now) <==>
                EndedBy(t.ix.orders[t.ix.single[key]], before, now) || WithdrawnAgain(between, after))
  {
    var key := ItemKey(rep, 0);
    var t := HandleTradeOrderRep(s, rep, now);
    var u := Knocks(t, before, now);
    AllForSplit(s, before, k, between, after, key);
    ResponseFiles(s, rep, now);
    EarlyWithdrawalsAreDropped(s, rep, before + [k] + between, after, now);
    SplitAtWithdrawal(before, k, between, after);
    AllForBoth(s, t, before, before, key);
    NamedOrOut(t, key, before, now);
    KnocksAppend(t, before, Staying(between) + after, now);
    KnocksAppend(t, before, [k] + (between + after), now);
    assert ([k] + (between + after))[1..] == between + after;
    KnocksKeepOptions(t, before, now);
    AllForBoth(s, u, between, after, key);
    DroppingMattersExactly(u, key, k, between, after, now);
  }

  lemma AllForSplit(s: RiskState, before: seq<Knock>, k: Knock, between: seq<Knock>, after: seq<Knock>,
                    key: string)
    requires AllFor(s, before + [k] + between + after, key)
    ensures AllFor(s, before, key) && ReportFor(s, k, key)
    ensures AllFor(s, between, key) && AllFor(s, after, key)
    ensures AllFor(s, before + [k] + between, key)
  {
    var all := before + [k] + between + after;
    var n := |before|;
    assert all[n] == k;
    assert forall i | 0 <= i < n :: all[i] == before[i];
    assert forall i | 0 <= i < |between| :: all[n + 1 + i] == between[i];
    assert forall i | 0 <= i < |after| :: all[n + 1 + |between| + i] == after[i];
    assert forall i | 0 <= i < n + 1 + |between| :: all[i] == (before + [k] + between)[i];
  }

  /** In other directions a response names no order, and its place never matters. */
  lemma PlacementNeverMattersElsewhere(s: RiskState, rep: OrderMessage, first: seq<Knock>, after: seq<Knock>, now: int)
    requires AnswersOne(s, rep) && !rep.bsFlag.Buy? && !rep.bsFlag.Sell?
    requires AllFor(s, first, ItemKey(rep, 0)) && AllFor(s, after, ItemKey(rep, 0))
    ensures Knocks(HandleTradeOrderRep(Knocks(s, first, now), rep, now), after, now)
         == Knocks(HandleTradeOrderRep(s, rep, now), first + after, now)
  {
    var key, t := ItemKey(rep, 0), HandleTradeOrderRep(s, rep, now);
    EarlyWithdrawalsAreDropped(s, rep, first, after, now);
    OneItemResponse(s, rep, now);
    AllForStaying(s, first, key);
    AllForBoth(s, t, first, after, key);
    AllForBoth(s, t, Staying(first), after, key);
    OutOfIndex(t, key, first + after, now);
    OutOfIndex(t, key, Staying(first) + after, now);
    StayingOfDropped(first, after);
  }

  /** A withdrawal is not kept: coming before the response it is lost, coming after it is recorded, and
      the two never end alike. */
  lemma EarlyWithdrawIsLost(s: RiskState, rep: OrderMessage, k: Knock, now: int)
    requires AnswersOne(s, rep) && (rep.bsFlag.Buy? || rep.bsFlag.Sell?) && Filed(s) && OwnMessage(s, rep)
    requires ReportFor(s, k, ItemKey(rep, 0)) && k.matchType.MatchWithdrawOk?
    ensures HandleTradeOrderRep(OnTradeKnock(s, k, now), rep, now) == HandleTradeOrderRep(s, rep, now)
    ensures var t := HandleTradeOrderRep(s, rep, now); var key := OrderNoKey(k.fundId, k.orderNo);
            && key in t.ix.single && t.ix.single[key] < |t.ix.orders|
            && At(OnTradeKnock(t, k, now).ix.orders, t.ix.single[key]).withdrawSucceed
            && key !in OnTradeKnock(t, k, now).ix.single
            && OnTradeKnock(t, k, now) != t
  {
    var t := HandleTradeOrderRep(s, rep, now);
    ResponseFiles(s, rep, now);
    var id := t.ix.single[OrderNoKey(k.fundId, k.orderNo)];
    WithdrawalEnds(t, OrderNoKey(k.fundId, k.orderNo), k, k, now);
    var o := Finish(At(t.ix.orders, id).(withdrawSucceed := true), now);
    PutGrows(t.ix.orders, id, o);
    OnOrderFinishGrows(t.ix.(orders := Put(t.ix.orders, id, o)), id, now);
  }
}

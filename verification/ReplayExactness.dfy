/** Exactly when a response to many orders replays the reports that overtook it. */
module ReplayExactness {
  import opened Options
  import opened Trading
  import opened RiskOrders
  import opened SelfTradeSafety
  import opened OrderIdentity
  import opened EarlyKnocks
  import opened EarlyReplay

  // ---- Reports without effect ----

  /** The volume filled by reports. */
  function Volume(ks: seq<Knock>): int {
    if ks == [] then 0
    else Volume(ks[..|ks| - 1]) + (if ks[|ks| - 1].matchType.MatchOk? then ks[|ks| - 1].volume else 0)
  }

  /** Reports that fill nothing and do not end the order. */
  predicate NoEffect(o: Order, ks: seq<Knock>, now: int) {
    Volume(ks) == 0 && !EndedBy(o, ks, now)
  }

  lemma {:induction false} ReportedVolume(o: Order, ks: seq<Knock>, now: int)
    requires !EndedBy(o, ks, now)
    ensures Reported(o, ks) == o.(matchVolume := o.matchVolume + Volume(ks))
  {
    if ks != [] {
      ReportedVolume(o, ks[..|ks| - 1], now);
    }
  }

  /** Reports without effect change nothing; others show in the index or in the filled volume. */
  lemma NoEffectExactly(s: RiskState, key: string, ks: seq<Knock>, now: int)
    requires Named(s.ix, key) && AllFor(s, ks, key)
    ensures var id := s.ix.single[key];
            var o, t := s.ix.orders[id], Knocks(s, ks, now);
            if NoEffect(o, ks, now) then t == s
            else key !in t.ix.single ||
                 (Named(t.ix, key) && t.ix.single[key] == id && t.ix.orders[id].matchVolume != o.matchVolume)
  {
    var id := s.ix.single[key];
    var o := s.ix.orders[id];
    InIndexExactly(s, key, ks, now);
    if !EndedBy(o, ks, now) {
      ReportedVolume(o, ks, now);
      assert s.ix.orders[id := o] == s.ix.orders;
    }
  }

  // ---- Reports of other orders ----

  /** Keys of the index that name orders of their own. */
  ghost predicate Apart(ix: Index, keys: set<string>) {
    && (forall key | key in keys && key in ix.single :: Named(ix, key))
    && (forall a, b | a in keys && b in keys && a != b && a in ix.single && b in ix.single ::
         ix.single[a] != ix.single[b])
  }

  /** A key is in the index or out of it as before, with the same order and filled volume. */
  ghost predicate AsBefore(ix: Index, jx: Index, key: string) {
    && (key in jx.single <==> key in ix.single)
    && (key in ix.single ==>
          && Named(ix, key) && Named(jx, key) && jx.single[key] == ix.single[key]
          && jx.orders[jx.single[key]].matchVolume == ix.orders[ix.single[key]].matchVolume)
  }

  lemma {:induction false} AllFinishedKeepsVolume(orders: Orders, ids: seq<OrderId>, id: OrderId, now: int)
    ensures At(AllFinished(orders, ids, now).0, id).matchVolume == At(orders, id).matchVolume
    decreases |ids|
  {
    if ids != [] {
      var o := Finish(At(orders, ids[0]), now);
      AllFinishedKeepsVolume(Put(orders, ids[0], o), ids[1..], id, now);
    }
  }

  lemma FinishKeepsOthers(ix: Index, id: OrderId, other: string, now: int)
    requires id < |ix.orders| && Named(ix, other)
    requires OrderNoKey(ix.orders[id].fundId, ix.orders[id].orderNo) != other
    ensures AsBefore(ix, OnOrderFinish(ix, id, now), other)
  {
    var o := ix.orders[id];
    var batchKey := OrderNoKey(o.fundId, o.batchNo);
    OnOrderFinishGrows(ix, id, now);
    if o.batchNo != "" && batchKey in ix.batch {
      AllFinishedKeepsVolume(ix.orders, ix.batch[batchKey], ix.single[other], now);
    }
  }

  lemma PutKeepsOthers(ix: Index, id: OrderId, o: Order, other: string)
    requires Named(ix, other) && ix.single[other] != id
    ensures AsBefore(ix, ix.(orders := Put(ix.orders, id, o)), other)
  {}

  lemma KnockOrderKeepsOthers(ix: Index, key: string, k: Knock, other: string, now: int)
    requires Named(ix, key) && Named(ix, other) && key != other && ix.single[key] != ix.single[other]
    ensures AsBefore(ix, KnockOrder(ix, ix.single[key], k, now), other)
  {
    var id := ix.single[key];
    var q := Finish(Report(ix.orders[id], k), now);
    var jx := ix.(orders := Put(ix.orders, id, q));
    PutKeepsOthers(ix, id, q, other);
    if q.finished {
      FinishKeepsOthers(jx, id, other, now);
    }
  }

  lemma KnockKeepsOthers(s: RiskState, k: Knock, key: string, other: string, now: int)
    requires OrderNoKey(k.fundId, k.orderNo) == key != other
    requires key in s.ix.single ==> Named(s.ix, key)
    requires other in s.ix.single ==> Named(s.ix, other)
    requires key in s.ix.single && other in s.ix.single ==> s.ix.single[key] != s.ix.single[other]
    ensures AsBefore(s.ix, OnTradeKnock(s, k, now).ix, other)
  {
    if key in s.ix.single && other in s.ix.single {
      KnockOrderKeepsOthers(s.ix, key, k, other, now);
    }
  }

  lemma KnockKeepsOwn(s: RiskState, k: Knock, now: int)
    requires var key := OrderNoKey(k.fundId, k.orderNo); key in s.ix.single ==> Named(s.ix, key)
    ensures var key, jx := OrderNoKey(k.fundId, k.orderNo), OnTradeKnock(s, k, now).ix;
            key in jx.single ==> key in s.ix.single && Named(jx, key) && jx.single[key] == s.ix.single[key]
  {
    if OrderNoKey(k.fundId, k.orderNo) in s.ix.single {
      KnockInIndex(s, OrderNoKey(k.fundId, k.orderNo), k, now);
    }
  }

  ghost predicate AllOf(ks: seq<Knock>, key: string) {
    forall k | k in ks :: OrderNoKey(k.fundId, k.orderNo) == key
  }

  /** Reports of one order leave all others apart and as they were. */
  lemma {:induction false} KnocksKeepOthers(s: RiskState, ks: seq<Knock>, key: string, keys: set<string>, now: int)
    requires Apart(s.ix, keys) && key in keys && AllOf(ks, key)
    ensures Apart(Knocks(s, ks, now).ix, keys)
    ensures forall other | other in keys && other != key :: AsBefore(s.ix, Knocks(s, ks, now).ix, other)
    decreases |ks|
  {
    if ks != [] {
      var t := OnTradeKnock(s, ks[0], now);
      assert ks[0] in ks;
      KnockKeepsOwn(s, ks[0], now);
      forall other | other in keys && other != key ensures AsBefore(s.ix, t.ix, other) {
        KnockKeepsOthers(s, ks[0], key, other, now);
      }
      KnocksKeepOthers(t, ks[1..], key, keys, now);
    }
  }

  function Flatten(ws: seq<Kept>): seq<Knock> {
    if ws == [] then [] else ws[0].ks + Flatten(ws[1..])
  }

  lemma {:induction false} FlattenKeepsOther(s: RiskState, ws: seq<Kept>, keys: set<string>, other: string, now: int)
    requires Apart(s.ix, keys) && other in keys
    requires forall w | w in ws :: w.key in keys && w.key != other && AllOf(w.ks, w.key)
    ensures AsBefore(s.ix, Knocks(s, Flatten(ws), now).ix, other)
    decreases |ws|
  {
    if ws != [] {
      assert ws[0] in ws;
      KnocksAppend(s, ws[0].ks, Flatten(ws[1..]), now);
      KnocksKeepOthers(s, ws[0].ks, ws[0].key, keys, now);
      FlattenKeepsOther(Knocks(s, ws[0].ks, now), ws[1..], keys, other, now);
    }
  }

  // ---- Replaying the last instead of all ----

  ghost predicate Replayable(s: RiskState, ws: seq<Kept>, keys: set<string>) {
    && Apart(s.ix, keys) && DistinctKeys(ws)
    && forall w | w in ws :: w.key in keys && Named(s.ix, w.key) && AllFor(s, w.ks, w.key)
  }

  lemma FirstShows(s: RiskState, ws: seq<Kept>, keys: set<string>, now: int)
    requires Replayable(s, ws, keys) && |ws| > 1
    requires !NoEffect(s.ix.orders[s.ix.single[ws[0].key]], ws[0].ks, now)
    ensures Knocks(s, Flatten(ws), now) != Knocks(s, ws[|ws| - 1].ks, now)
  {
    var w, rest, last := ws[0], ws[1..], ws[|ws| - 1];
    var t := Knocks(s, w.ks, now);
    assert w in ws && last in ws;
    forall v | v in ws ensures AllOf(v.ks, v.key) {
      forall k | k in v.ks ensures OrderNoKey(k.fundId, k.orderNo) == v.key {
        var j :| 0 <= j < |v.ks| && v.ks[j] == k;
        assert ReportFor(s, v.ks[j], v.key);
      }
    }
    forall v | v in rest ensures v in ws && v.key != w.key {
      var j :| 0 <= j < |rest| && rest[j] == v;
      assert ws[j + 1] == v;
    }
    KnocksAppend(s, w.ks, Flatten(rest), now);
    NoEffectExactly(s, w.key, w.ks, now);
    KnocksKeepOthers(s, w.ks, w.key, keys, now);
    FlattenKeepsOther(t, rest, keys, w.key, now);
    KnocksKeepOthers(s, last.ks, last.key, keys, now);
    assert AsBefore(s.ix, Knocks(s, last.ks, now).ix, w.key);
  }

  /** What was kept under a key has no effect on its order. */
  ghost predicate Effectless(s: RiskState, w: Kept, now: int) {
    Named(s.ix, w.key) && NoEffect(s.ix.orders[s.ix.single[w.key]], w.ks, now)
  }

  ghost predicate OthersEffectless(s: RiskState, ws: seq<Kept>, now: int) {
    forall j | 0 <= j < |ws| - 1 :: Effectless(s, ws[j], now)
  }

  lemma OthersNext(s: RiskState, ws: seq<Kept>, now: int)
    requires |ws| > 1
    ensures OthersEffectless(s, ws, now) <==> Effectless(s, ws[0], now) && OthersEffectless(s, ws[1..], now)
  {
    assert forall j | 1 <= j < |ws| :: ws[j] == ws[1..][j - 1];
    assert forall j | 0 <= j < |ws| - 1 :: ws[1..][j] == ws[j + 1];
  }

  lemma ReplayableRest(s: RiskState, ws: seq<Kept>, keys: set<string>)
    requires Replayable(s, ws, keys) && ws != []
    ensures Replayable(s, ws[1..], keys) && Named(s.ix, ws[0].key) && AllFor(s, ws[0].ks, ws[0].key)
  {
    assert ws[0] in ws && forall v | v in ws[1..] :: v in ws;
  }

  /** Replaying the last instead of all is exact exactly when no other has an effect. */
  lemma {:induction false} LastForAllExactly(s: RiskState, ws: seq<Kept>, keys: set<string>, now: int)
    requires Replayable(s, ws, keys) && ws != []
    ensures Knocks(s, Flatten(ws), now) == Knocks(s, ws[|ws| - 1].ks, now) <==> OthersEffectless(s, ws, now)
    decreases |ws|
  {
    if |ws| == 1 {
      assert ws[0].ks + [] == ws[0].ks;
    } else {
      OthersNext(s, ws, now);
      ReplayableRest(s, ws, keys);
      if Effectless(s, ws[0], now) {
        KnocksAppend(s, ws[0].ks, Flatten(ws[1..]), now);
        NoEffectExactly(s, ws[0].key, ws[0].ks, now);
        LastForAllExactly(s, ws[1..], keys, now);
      } else {
        FirstShows(s, ws, keys, now);
      }
    }
  }

  // ---- The orders of a response stand apart ----

  /** Items with numbers have numbers, and codes or encoded prices, of their own. */
  ghost predicate DistinctItems(onlyEtf: bool, rep: OrderMessage) {
    forall i, j | 0 <= i < j < |rep.items| && Numbered(onlyEtf, rep.items[i]) && Numbered(onlyEtf, rep.items[j]) ::
      && rep.items[i].orderNo != rep.items[j].orderNo
      && (rep.items[i].code != rep.items[j].code || EncodePrice(rep.items[i].price) != EncodePrice(rep.items[j].price))
  }

  lemma KeysDiffer(fundId: string, a: string, b: string)
    requires a != b
    ensures OrderNoKey(fundId, a) != OrderNoKey(fundId, b)
  {
    var x, y := OrderNoKey(fundId, a), OrderNoKey(fundId, b);
    assert x[|fundId| + 1..] == a && y[|fundId| + 1..] == b;
  }

  /** Item `j` was answered: its number names an order of its code and encoded price. */
  ghost predicate Answered(ix: Index, rep: OrderMessage, j: nat)
    requires j < |rep.items|
  {
    && Named(ix, ItemKey(rep, j))
    && var o := ix.orders[ix.single[ItemKey(rep, j)]];
       o.code == rep.items[j].code && EncodePrice(o.price) == EncodePrice(rep.items[j].price)
  }

  ghost predicate AnsweredUpTo(s: RiskState, onlyEtf: bool, rep: OrderMessage, i: nat)
    requires i <= |rep.items|
  {
    forall j | 0 <= j < i && Numbered(onlyEtf, rep.items[j]) :: Answered(s.ix, rep, j)
  }

  /** Answering an item keeps the answers to items of other numbers and places. */
  lemma AnswerKeepsAnswered(a: Answering, rep: OrderMessage, item: Item, j: nat, now: int)
    requires Filed(a.s) && j < |rep.items| && Answered(a.s.ix, rep, j)
    requires item.orderNo != rep.items[j].orderNo
    requires item.orderNo != "" ==>
               item.code != rep.items[j].code || EncodePrice(item.price) != EncodePrice(rep.items[j].price)
    ensures Answered(AnswerItem(a, rep, item, now).s.ix, rep, j)
  {
    var (jx, d, found) := AnswerOrder(a.s.ix, BookOf(a.s, item.code), rep, item, now);
    var id := a.s.ix.single[ItemKey(rep, j)];
    AnswerFiles(a.s.ix, BookOf(a.s, item.code), rep, item, now);
    AnswerOrderGrows(a.s.ix, BookOf(a.s, item.code), rep, item, now);
    KeysDiffer(rep.fundId, item.orderNo, rep.items[j].orderNo);
    assert SameOrder(a.s.ix.orders[id], jx.orders[id]);
    assert found != Some(id);
    assert jx.orders[id] == a.s.ix.orders[id];
  }

  lemma AnswerAnswers(a: Answering, onlyEtf: bool, rep: OrderMessage, i: nat, now: int)
    requires Filed(a.s) && OwnMessage(a.s, rep) && i < |rep.items| && Numbered(onlyEtf, rep.items[i])
    requires rep.bsFlag.Buy? || rep.bsFlag.Sell?
    ensures Answered(AnswerItem(a, rep, rep.items[i], now).s.ix, rep, i)
  {
    var item := rep.items[i];
    AnswerFiles(a.s.ix, BookOf(a.s, item.code), rep, item, now);
    AnswerKeepsFund(a.s.ix, BookOf(a.s, item.code), rep, item, now);
  }

  lemma AnswerKeepsOwn(a: Answering, rep: OrderMessage, item: Item, now: int)
    requires OwnMessage(a.s, rep)
    ensures OwnMessage(AnswerItem(a, rep, item, now).s, rep)
  {
    AnswerKeepsFund(a.s.ix, BookOf(a.s, item.code), rep, item, now);
  }

  lemma ItemIsAnswered(a: Answering, onlyEtf: bool, rep: OrderMessage, i: nat, now: int)
    requires i < |rep.items| && Covered(onlyEtf, rep.items[i].code)
    requires Filed(a.s) && OwnMessage(a.s, rep) && DistinctItems(onlyEtf, rep)
    requires (rep.bsFlag.Buy? || rep.bsFlag.Sell?) && AnsweredUpTo(a.s, onlyEtf, rep, i)
    ensures AnsweredUpTo(AnswerItem(a, rep, rep.items[i], now).s, onlyEtf, rep, i + 1)
  {
    var b := AnswerItem(a, rep, rep.items[i], now);
    forall j | 0 <= j < i + 1 && Numbered(onlyEtf, rep.items[j]) ensures Answered(b.s.ix, rep, j) {
      if j < i {
        AnswerKeepsAnswered(a, rep, rep.items[i], j, now);
      } else {
        AnswerAnswers(a, onlyEtf, rep, i, now);
      }
    }
  }

  lemma {:induction false} ItemsAreAnswered(a: Answering, onlyEtf: bool, rep: OrderMessage, i: nat, now: int)
    requires i <= |rep.items| && Filed(a.s) && BatchFiled(a) && OwnMessage(a.s, rep) && DistinctItems(onlyEtf, rep)
    requires (rep.bsFlag.Buy? || rep.bsFlag.Sell?) && AnsweredUpTo(a.s, onlyEtf, rep, i)
    ensures AnsweredUpTo(AnswerItems(a, onlyEtf, rep, i, now).s, onlyEtf, rep, |rep.items|)
    decreases |rep.items| - i
  {
    if i < |rep.items| {
      var item := rep.items[i];
      if Covered(onlyEtf, item.code) {
        AnswerItemSteps(a, rep, item, now);
        AnswerKeepsOwn(a, rep, item, now);
        ItemIsAnswered(a, onlyEtf, rep, i, now);
        ItemsAreAnswered(AnswerItem(a, rep, item, now), onlyEtf, rep, i + 1, now);
      } else {
        ItemsAreAnswered(a, onlyEtf, rep, i + 1, now);
      }
    }
  }

  lemma {:induction false} KeyOfItem(onlyEtf: bool, rep: OrderMessage, i: nat, key: string) returns (j: nat)
    requires i <= |rep.items| && key in NumberKeys(onlyEtf, rep, i)
    ensures i <= j < |rep.items| && Numbered(onlyEtf, rep.items[j]) && ItemKey(rep, j) == key
    decreases |rep.items| - i
  {
    if Numbered(onlyEtf, rep.items[i]) && ItemKey(rep, i) == key {
      j := i;
    } else {
      j := KeyOfItem(onlyEtf, rep, i + 1, key);
    }
  }

  /** After a response the numbers of its items name orders of their own. */
  lemma AnsweredStandApart(s: RiskState, onlyEtf: bool, rep: OrderMessage)
    requires AnsweredUpTo(s, onlyEtf, rep, |rep.items|) && DistinctItems(onlyEtf, rep)
    ensures Apart(s.ix, NumberKeys(onlyEtf, rep, 0))
    ensures forall key | key in NumberKeys(onlyEtf, rep, 0) :: Named(s.ix, key)
  {
    var keys := NumberKeys(onlyEtf, rep, 0);
    forall key | key in keys ensures Named(s.ix, key) {
      var j := KeyOfItem(onlyEtf, rep, 0, key);
      assert Answered(s.ix, rep, j);
    }
    forall a, b | a in keys && b in keys && a != b ensures s.ix.single[a] != s.ix.single[b] {
      var j := KeyOfItem(onlyEtf, rep, 0, a);
      var k := KeyOfItem(onlyEtf, rep, 0, b);
      assert Answered(s.ix, rep, j) && Answered(s.ix, rep, k);
      assert j < k || k < j;
    }
  }

  // ---- What is kept over runs ----

  /** Reports are kept under their own fund and number, and are of covered codes. */
  ghost predicate EarlyFiled(s: RiskState) {
    forall key | key in s.ix.early :: AllFor(s, s.ix.early[key], key)
  }

  /** No new reports are kept. */
  ghost predicate EarlyOnlyLess(s: RiskState, t: RiskState) {
    && t.options == s.options
    && forall key | key in t.ix.early :: key in s.ix.early && t.ix.early[key] == s.ix.early[key]
  }

  lemma LessKeepsFiled(s: RiskState, t: RiskState)
    requires EarlyFiled(s) && EarlyOnlyLess(s, t)
    ensures EarlyFiled(t)
  {
    forall key | key in t.ix.early ensures AllFor(t, t.ix.early[key], key) {
      assert AllFor(s, s.ix.early[key], key);
    }
  }

  lemma {:induction false} SweepKeepsEarly(ix: Index, side: seq<Entry>, limit: int, now: int)
    ensures Sweep(ix, side, limit, now).0.early == ix.early
    decreases |side|
  {
    if side != [] && side[0].rank <= limit {
      var id := side[0].id;
      var a := ix.(orders := Put(ix.orders, id, Finish(At(ix.orders, id), now)));
      SweepKeepsEarly(OnOrderFinish(a, id, now), side[1..], limit, now);
    }
  }

  lemma CheckOrderKeepsEarly(ix: Index, b: Book, bsFlag: BsFlag, price: real, c: Clock)
    ensures CheckOrder(ix, b, bsFlag, price, c).0.early == ix.early
  {
    if !InAuction(c) {
      var d := TryHandleTick(b);
      match bsFlag
      case Buy => SweepKeepsEarly(ix, d.asks, EncodePrice(price), c.unix);
      case Sell => SweepKeepsEarly(ix, d.bids, -EncodePrice(price), c.unix);
      case _ =>
    }
  }

  lemma {:induction false} CheckItemsKeepEarly(s: RiskState, onlyEtf: bool, req: OrderMessage, i: nat,
                                               clocks: nat -> Clock)
    requires i <= |req.items|
    ensures EarlyOnlyLess(s, CheckItems(s, onlyEtf, req, i, clocks).0)
    decreases |req.items| - i
  {
    if i < |req.items| {
      var item, c := req.items[i], clocks(i);
      if Covered(onlyEtf, item.code) {
        CheckOrderKeepsEarly(s.ix, BookOf(s, item.code), req.bsFlag, item.price, c);
        CheckItemsKeepEarly(AfterCheck(s, req.bsFlag, item, c), onlyEtf, req, i + 1, clocks);
      } else {
        CheckItemsKeepEarly(s, onlyEtf, req, i + 1, clocks);
      }
    }
  }

  lemma {:induction false} RestItemsKeepEarly(s: RiskState, onlyEtf: bool, req: OrderMessage, i: nat, now: int)
    requires i <= |req.items|
    ensures EarlyOnlyLess(s, RestItems(s, onlyEtf, req, i, now))
    decreases |req.items| - i
  {
    if i < |req.items| {
      if Covered(onlyEtf, req.items[i].code) {
        RestItemsKeepEarly(RestItem(s, req, req.items[i], now), onlyEtf, req, i + 1, now);
      } else {
        RestItemsKeepEarly(s, onlyEtf, req, i + 1, now);
      }
    }
  }

  lemma {:induction false} AnswerItemsKeepEarly(a: Answering, onlyEtf: bool, rep: OrderMessage, i: nat, now: int)
    requires i <= |rep.items|
    ensures EarlyOnlyLess(a.s, AnswerItems(a, onlyEtf, rep, i, now).s)
    decreases |rep.items| - i
  {
    if i < |rep.items| {
      if Covered(onlyEtf, rep.items[i].code) {
        var item := rep.items[i];
        AnswerIgnoresEarly(a.s.ix, a.s.ix.early, BookOf(a.s, item.code), rep, item, now);
        AnswerItemsKeepEarly(AnswerItem(a, rep, item, now), onlyEtf, rep, i + 1, now);
      } else {
        AnswerItemsKeepEarly(a, onlyEtf, rep, i + 1, now);
      }
    }
  }

  lemma KnockKeepsFiled(s: RiskState, k: Knock, now: int)
    requires EarlyFiled(s)
    ensures EarlyFiled(OnTradeKnock(s, k, now))
  {
    var t, own := OnTradeKnock(s, k, now), OrderNoKey(k.fundId, k.orderNo);
    forall key | key in t.ix.early ensures AllFor(t, t.ix.early[key], key) {
      assert key in s.ix.early ==> AllFor(s, s.ix.early[key], key);
    }
  }

  lemma {:induction false} KnocksKeepFiled(s: RiskState, ks: seq<Knock>, now: int)
    requires EarlyFiled(s)
    ensures EarlyFiled(Knocks(s, ks, now))
    decreases |ks|
  {
    if ks != [] {
      KnockKeepsFiled(s, ks[0], now);
      KnocksKeepFiled(OnTradeKnock(s, ks[0], now), ks[1..], now);
    }
  }

  lemma StepKeepsFiled(s: RiskState, e: Event)
    requires EarlyFiled(s)
    ensures EarlyFiled(Step(s, e))
  {
    match e
    case Request(req, clocks, now) =>
      if req.fundId in s.options {
        CheckItemsKeepEarly(s, s.options[req.fundId], req, 0, clocks);
        var t := HandleTradeOrderReq(s, req, clocks).0;
        LessKeepsFiled(s, t);
        RestItemsKeepEarly(t, t.options[req.fundId], req, 0, now);
        LessKeepsFiled(t, OnTradeOrderReqPass(t, req, now));
      }
    case Response(rep, now) =>
      if rep.fundId in s.options {
        var a := AnswerItems(Answering(s, None, []), s.options[rep.fundId], rep, 0, now);
        var t := a.s.(ix := FileBatch(a.s.ix, rep, a.batch));
        AnswerItemsKeepEarly(Answering(s, None, []), s.options[rep.fundId], rep, 0, now);
        LessKeepsFiled(s, t);
        if a.held.Some? {
          KnocksKeepFiled(t, a.held.value, now);
        }
      }
    case Fill(k, now) => KnockKeepsFiled(s, k, now);
    case _ => LessKeepsFiled(s, Step(s, e));
  }

  lemma {:induction false} RunKeepsFiled(s: RiskState, events: seq<Event>)
    requires EarlyFiled(s)
    ensures EarlyFiled(Run(s, events))
    decreases |events|
  {
    if events != [] {
      StepKeepsFiled(s, events[0]);
      RunKeepsFiled(Step(s, events[0]), events[1..]);
    }
  }

  // ---- The main result ----

  lemma BareIsAnswered(s: RiskState, rep: OrderMessage, now: int)
    requires Filed(s) && OwnMessage(s, rep) && rep.fundId in s.options && (rep.bsFlag.Buy? || rep.bsFlag.Sell?)
    requires DistinctItems(s.options[rep.fundId], rep)
    ensures var t := HandleTradeOrderRep(Bare(s, rep), rep, now);
            t.options == s.options && AnsweredUpTo(t, s.options[rep.fundId], rep, |rep.items|)
  {
    var onlyEtf, b := s.options[rep.fundId], Bare(s, rep);
    var a := AnswerItems(Answering(b, None, []), onlyEtf, rep, 0, now);
    ItemsAreAnswered(Answering(b, None, []), onlyEtf, rep, 0, now);
    AnswerItemsKeepEarly(Answering(b, None, []), onlyEtf, rep, 0, now);
    var keys := NumberKeys(onlyEtf, rep, 0);
    NothingWaits(b.ix.early, onlyEtf, rep, 0);
    AnswerItemsSplitEarly(Answering(b, None, []), b.ix.early, None, onlyEtf, rep, 0, now);
    assert SetEarly(Answering(b, None, []), b.ix.early, None) == Answering(b, None, []);
    assert a.held == None;
    var t := HandleTradeOrderRep(b, rep, now);
    forall j | 0 <= j < |rep.items| && Numbered(onlyEtf, rep.items[j]) ensures Answered(t.ix, rep, j) {
      assert Answered(a.s.ix, rep, j);
    }
  }

  /** In every reachable state: a response to a message of many items leaves what replaying all reports
      that wait for its items would leave, item by item, exactly when the reports that wait for any item
      but the last fill nothing and do not end their orders. */
  lemma ReplayIsExactExactly(options: map<string, bool>, events: seq<Event>, rep: OrderMessage, now: int)
    requires rep.bsFlag.Buy? || rep.bsFlag.Sell?
    requires var s := Run(Start(options), events);
             OwnMessage(s, rep) && rep.fundId in s.options && DistinctItems(s.options[rep.fundId], rep)
    ensures var s := Run(Start(options), events);
            var ws, t := WaitingReports(s, rep), HandleTradeOrderRep(Bare(s, rep), rep, now);
            HandleTradeOrderRep(s, rep, now) == Knocks(t, Flatten(ws), now) <==> OthersEffectless(t, ws, now)
  {
    var s := Run(Start(options), events);
    var onlyEtf := s.options[rep.fundId];
    var ws, t, keys := WaitingReports(s, rep), HandleTradeOrderRep(Bare(s, rep), rep, now), NumberKeys(onlyEtf, rep, 0);
    RunSteps(Start(options), events);
    RunKeepsFiled(Start(options), events);
    BareIsAnswered(s, rep, now);
    AnsweredStandApart(t, onlyEtf, rep);
    KeysAreDistinct(s.ix.early, onlyEtf, rep, 0);
    OnlyTheLastIsReplayed(s, rep, now);
    if ws != [] {
      forall w | w in ws ensures AllFor(t, w.ks, w.key) {
        assert AllFor(s, s.ix.early[w.key], w.key);
      }
      LastForAllExactly(t, ws, keys, now);
    }
  }
}

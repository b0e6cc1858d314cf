/** Who is found by a number: what reports and withdrawals reach, and when an index forgets. */
module OrderIndexes {
  import opened Options
  import opened Trading
  import opened RiskOrders
  import opened SelfTradeSafety
  import opened OrderIdentity
  import opened OrderLifetime

  // ---- What a report does ----

  /** What a report of an order adds to its filled volume, and whether it ends it. */
  function FilledBy(k: Knock): int {
    if k.matchType == MatchOk then k.volume else 0
  }

  predicate EndedBy(k: Knock) {
    k.matchType == MatchWithdrawOk || k.matchType == MatchFailed
  }

  /** Asked orders keep what they were but for the mark that they are finished. */
  predicate OnlyAsked(a: Order, b: Order) {
    b == a || b == a.(finished := true)
  }

  lemma {:induction false} AllFinishedOnlyAsks(orders: Orders, ids: seq<OrderId>, now: int, id: OrderId)
    requires id < |orders|
    ensures OnlyAsked(orders[id], AllFinished(orders, ids, now).0[id])
    decreases |ids|
  {
    if ids != [] {
      AllFinishedOnlyAsks(Put(orders, ids[0], Finish(At(orders, ids[0]), now)), ids[1..], now, id);
    }
  }

  lemma FinishOnlyAsks(ix: Index, id: OrderId, now: int, other: OrderId)
    requires other < |ix.orders|
    ensures OnlyAsked(ix.orders[other], OnOrderFinish(ix, id, now).orders[other])
  {
    var o := At(ix.orders, id);
    var batchKey := OrderNoKey(o.fundId, o.batchNo);
    if o.batchNo != "" && batchKey in ix.batch {
      AllFinishedOnlyAsks(ix.orders, ix.batch[batchKey], now, other);
    }
  }

  /** An order after a report of its own. */
  function Reported(o: Order, k: Knock): Order {
    o.(matchVolume := o.matchVolume + FilledBy(k), withdrawSucceed := o.withdrawSucceed || EndedBy(k))
  }

  lemma KnockReports(ix: Index, at: OrderId, k: Knock, now: int)
    ensures var q := Finish(Reported(At(ix.orders, at), k), now);
            var jx := ix.(orders := Put(ix.orders, at, q));
            KnockOrder(ix, at, k, now) == if q.finished then OnOrderFinish(jx, at, now) else jx
  {}

  lemma KnockReachesExactly(ix: Index, at: OrderId, k: Knock, now: int, id: OrderId)
    requires id < |ix.orders|
    ensures |KnockOrder(ix, at, k, now).orders| == |ix.orders|
    ensures OnlyAsked(if id == at then Reported(ix.orders[id], k) else ix.orders[id],
                      KnockOrder(ix, at, k, now).orders[id])
  {
    KnockReports(ix, at, k, now);
    var q := Finish(Reported(At(ix.orders, at), k), now);
    FinishOnlyAsks(ix.(orders := Put(ix.orders, at, q)), at, now, id);
  }

  /** A report reaches exactly the order of its number: a fill adds its volume, a withdrawal or failure ends it, and
      no other order changes but for being found finished. */
  lemma ReportReachesExactly(s: RiskState, k: Knock, now: int, id: OrderId)
    requires id < |s.ix.orders|
    ensures var t, key := OnTradeKnock(s, k, now), OrderNoKey(k.fundId, k.orderNo);
            && |t.ix.orders| == |s.ix.orders|
            && OnlyAsked(if key in s.ix.single && s.ix.single[key] == id then Reported(s.ix.orders[id], k)
                         else s.ix.orders[id],
                         t.ix.orders[id])
  {
    var key := OrderNoKey(k.fundId, k.orderNo);
    if key in s.ix.single {
      KnockReachesExactly(s.ix, s.ix.single[key], k, now, id);
    }
  }

  /** Whether a withdrawal names an order: by its batch number if it has one, else by its order number. */
  ghost predicate Names(ix: Index, m: WithdrawMessage, id: OrderId) {
    if m.batchNo != "" then
      var key := OrderNoKey(m.fundId, m.batchNo); key in ix.batch && id in ix.batch[key]
    else
      var key := OrderNoKey(m.fundId, m.orderNo); m.orderNo != "" && key in ix.single && ix.single[key] == id
  }

  /** A withdrawal and its reply mark exactly the orders they name: the attempt and a failed reply with their time, a
      success as withdrawn. Only a success forgets anything, and only the batch it names. */
  lemma WithdrawalMarksExactly(s: RiskState, m: WithdrawMessage, now: int, id: OrderId)
    requires id < |s.ix.orders|
    ensures var o, t, u := s.ix.orders[id], HandleTradeWithdrawReq(s, m, now), HandleTradeWithdrawRep(s, m, now);
            && At(t.ix.orders, id) == (if Names(s.ix, m, id) then o.(withdrawFailedTime := now) else o)
            && At(u.ix.orders, id) == (if !Names(s.ix, m, id) then o
                                       else if m.failed then o.(withdrawFailedTime := now)
                                       else o.(withdrawSucceed := true))
            && t.ix.single == u.ix.single == s.ix.single && t.books == u.books == s.books
            && t.ix.batch == s.ix.batch
            && (forall key :: key in u.ix.batch <==>
                  key in s.ix.batch && !(m.batchNo != "" && !m.failed && key == OrderNoKey(m.fundId, m.batchNo)))
            && (forall key | key in u.ix.batch :: u.ix.batch[key] == s.ix.batch[key])
  {
    MarkAllMarks(s.ix.orders, Targets(s.ix, m), Failing(now), id);
    MarkAllMarks(s.ix.orders, Targets(s.ix, m), SUCCEEDING, id);
  }

  // ---- When a batch is forgotten ----

  lemma {:induction false} AllFinishedExactly(orders: Orders, ids: seq<OrderId>, now: int)
    ensures AllFinished(orders, ids, now).1 <==> forall id | id in ids :: DoneBy(orders, id, now)
    decreases |ids|
  {
    if ids != [] {
      var head, rest := ids[0], ids[1..];
      var next := Put(orders, head, Finish(At(orders, head), now));
      assert forall id :: id in ids <==> id == head || id in rest;
      AskingChangesNothing(orders, head, now);
      AllFinishedExactly(next, rest, now);
      assert AllFinished(orders, ids, now).1 <==> DoneBy(orders, head, now) && AllFinished(next, rest, now).1;
      assert forall id | id in rest :: DoneBy(orders, id, now) <==> DoneBy(next, id, now);
    }
  }

  lemma {:induction false} AllFinishedAreMarked(orders: Orders, ids: seq<OrderId>, now: int, id: OrderId)
    requires AllFinished(orders, ids, now).1 && id in ids && id < |orders|
    ensures AllFinished(orders, ids, now).0[id].finished
    decreases |ids|
  {
    var head, rest := ids[0], ids[1..];
    var next := Put(orders, head, Finish(At(orders, head), now));
    assert ids == [head] + rest;
    if id == head {
      AllFinishedOnlyAsks(next, rest, now, id);
    } else {
      AllFinishedAreMarked(next, rest, now, id);
    }
  }

  /** A finished order takes its own number out of the index, and its batch exactly when all of the batch are
      finished. */
  lemma FinishForgetsExactly(ix: Index, id: OrderId, now: int, key: string)
    requires id < |ix.orders|
    ensures var o, jx := ix.orders[id], OnOrderFinish(ix, id, now);
            && (key in jx.single <==>
                  key in ix.single && !(o.orderNo != "" && key == OrderNoKey(o.fundId, o.orderNo)))
            && (key in jx.single ==> jx.single[key] == ix.single[key])
            && (key in jx.batch <==>
                  && key in ix.batch
                  && !(o.batchNo != "" && key == OrderNoKey(o.fundId, o.batchNo)
                       && forall other | other in ix.batch[key] :: DoneBy(ix.orders, other, now)))
            && (key in jx.batch ==> jx.batch[key] == ix.batch[key])
  {
    var o := ix.orders[id];
    var batchKey := OrderNoKey(o.fundId, o.batchNo);
    if o.batchNo != "" && batchKey in ix.batch {
      AllFinishedExactly(ix.orders, ix.batch[batchKey], now);
    }
  }

  /** If an order of the batch is not finished, the batch is still there as it was. */
  ghost predicate KeepsBatch(a: Index, b: Index, key: string) {
    key in a.batch && (exists id :: id in a.batch[key] && id < |b.orders| && !b.orders[id].finished) ==>
      key in b.batch && b.batch[key] == a.batch[key]
  }

  lemma KeepsOn(a: Index, b: Index, c: Index, key: string, changes: Changes)
    requires IndexFiled(a) && |a.orders| <= |b.orders| && Grown(b.orders, c.orders, changes)
    requires KeepsBatch(a, b, key) && KeepsBatch(b, c, key)
    ensures KeepsBatch(a, c, key)
  {
    if key in a.batch {
      if id :| id in a.batch[key] && id < |c.orders| && !c.orders[id].finished {
        assert HasNumber(a.orders, id);
        assert ChangedBy(id, b.orders[id], c.orders[id], changes);
        assert id < |b.orders| && !b.orders[id].finished;
      }
    }
  }

  lemma FinishKeepsBatch(ix: Index, id: OrderId, now: int, key: string)
    ensures KeepsBatch(ix, OnOrderFinish(ix, id, now), key)
  {
    var o := At(ix.orders, id);
    var batchKey := OrderNoKey(o.fundId, o.batchNo);
    if o.batchNo != "" && batchKey in ix.batch && AllFinished(ix.orders, ix.batch[batchKey], now).1 {
      forall other | other in ix.batch[batchKey] && other < |ix.orders|
        ensures OnOrderFinish(ix, id, now).orders[other].finished
      {
        AllFinishedAreMarked(ix.orders, ix.batch[batchKey], now, other);
      }
    }
  }

  lemma {:induction false} SweepKeepsBatch(ix: Index, side: seq<Entry>, limit: int, now: int, key: string)
    requires IndexFiled(ix)
    ensures KeepsBatch(ix, Sweep(ix, side, limit, now).0, key)
    decreases |side|
  {
    if side != [] && side[0].rank <= limit {
      var id := side[0].id;
      var o := Finish(At(ix.orders, id), now);
      var a := ix.(orders := Put(ix.orders, id, o));
      PutGrows(ix.orders, id, o);
      ShrunkStaysFiled(ix, a, NOTHING);
      if o.finished {
        var b := OnOrderFinish(a, id, now);
        var c := Sweep(b, side[1..], limit, now).0;
        FinishKeepsBatch(a, id, now, key);
        OnOrderFinishGrows(a, id, now);
        FinishedStaysFiled(a, id, now);
        SweepKeepsBatch(b, side[1..], limit, now, key);
        SweepGrows(b, side[1..], limit, now);
        KeepsOn(a, b, c, key, NOTHING);
        assert KeepsBatch(ix, c, key) by {
          assert a.batch == ix.batch;
        }
      }
    }
  }

  lemma CheckKeepsBatch(s: RiskState, bsFlag: BsFlag, item: Item, c: Clock, key: string)
    requires IndexFiled(s.ix)
    ensures KeepsBatch(s.ix, AfterCheck(s, bsFlag, item, c).ix, key)
  {
    if !InAuction(c) {
      var d := TryHandleTick(BookOf(s, item.code));
      SweepKeepsBatch(s.ix, d.asks, EncodePrice(item.price), c.unix, key);
      SweepKeepsBatch(s.ix, d.bids, -EncodePrice(item.price), c.unix, key);
    }
  }

  lemma {:induction false} CheckItemsKeepBatch(s: RiskState, onlyEtf: bool, req: OrderMessage, i: nat,
                                              clocks: nat -> Clock, key: string)
    requires i <= |req.items| && Filed(s)
    ensures KeepsBatch(s.ix, CheckItems(s, onlyEtf, req, i, clocks).0.ix, key)
    decreases |req.items| - i
  {
    if i < |req.items| {
      var item := req.items[i];
      if Covered(onlyEtf, item.code) {
        var t := AfterCheck(s, req.bsFlag, item, clocks(i));
        CheckKeepsBatch(s, req.bsFlag, item, clocks(i), key);
        CheckOneSteps(s, req.bsFlag, item, clocks(i));
        CheckItemsKeepBatch(t, onlyEtf, req, i + 1, clocks, key);
        CheckItemsSteps(t, onlyEtf, req, i + 1, clocks);
        KeepsOn(s.ix, t.ix, CheckItems(t, onlyEtf, req, i + 1, clocks).0.ix, key, NOTHING);
      } else {
        CheckItemsKeepBatch(s, onlyEtf, req, i + 1, clocks, key);
      }
    }
  }

  lemma {:induction false} RestItemsKeepBatches(s: RiskState, onlyEtf: bool, req: OrderMessage, i: nat, now: int)
    requires i <= |req.items|
    ensures RestItems(s, onlyEtf, req, i, now).ix.batch == s.ix.batch
    decreases |req.items| - i
  {
    if i < |req.items| {
      if Covered(onlyEtf, req.items[i].code) {
        RestItemsKeepBatches(RestItem(s, req, req.items[i], now), onlyEtf, req, i + 1, now);
      } else {
        RestItemsKeepBatches(s, onlyEtf, req, i + 1, now);
      }
    }
  }

  lemma {:induction false} AnswerItemsKeepBatches(a: Answering, onlyEtf: bool, rep: OrderMessage, i: nat, now: int)
    requires i <= |rep.items|
    ensures AnswerItems(a, onlyEtf, rep, i, now).s.ix.batch == a.s.ix.batch
    decreases |rep.items| - i
  {
    if i < |rep.items| {
      if Covered(onlyEtf, rep.items[i].code) {
        AnswerItemsKeepBatches(AnswerItem(a, rep, rep.items[i], now), onlyEtf, rep, i + 1, now);
      } else {
        AnswerItemsKeepBatches(a, onlyEtf, rep, i + 1, now);
      }
    }
  }

  lemma KnockKeepsBatch(ix: Index, id: OrderId, k: Knock, now: int, key: string)
    ensures KeepsBatch(ix, KnockOrder(ix, id, k, now), key)
  {
    KnockReports(ix, id, k, now);
    var q := Finish(Reported(At(ix.orders, id), k), now);
    FinishKeepsBatch(ix.(orders := Put(ix.orders, id, q)), id, now, key);
  }

  lemma {:induction false} KnocksKeepBatch(s: RiskState, ks: seq<Knock>, now: int, key: string)
    requires Filed(s)
    ensures KeepsBatch(s.ix, Knocks(s, ks, now).ix, key)
    decreases |ks|
  {
    if ks != [] {
      var k := ks[0];
      var own, t := OrderNoKey(k.fundId, k.orderNo), OnTradeKnock(s, k, now);
      assert Knocks(s, [k], now) == t;
      KnocksSteps(s, [k], now);
      if own in s.ix.single {
        KnockKeepsBatch(s.ix, s.ix.single[own], k, now, key);
      }
      KnocksKeepBatch(t, ks[1..], now, key);
      KnocksSteps(t, ks[1..], now);
      KeepsOn(s.ix, t.ix, Knocks(t, ks[1..], now).ix, key, NOTHING);
    }
  }

  /** Events that end a batch or put another in its place: its withdrawal, and a response with its number. */
  predicate Replaces(ev: Event, key: string) {
    match ev
    case Withdrawn(m, _) => m.batchNo != "" && !m.failed && OrderNoKey(m.fundId, m.batchNo) == key
    case Response(rep, _) => rep.batchNo != "" && OrderNoKey(rep.fundId, rep.batchNo) == key
    case _ => false
  }

  lemma {:induction false} NoBatchWithoutNumber(a: Answering, onlyEtf: bool, rep: OrderMessage, i: nat, now: int)
    requires i <= |rep.items| && rep.batchNo == ""
    ensures AnswerItems(a, onlyEtf, rep, i, now).batch == a.batch
    decreases |rep.items| - i
  {
    if i < |rep.items| {
      if Covered(onlyEtf, rep.items[i].code) {
        NoBatchWithoutNumber(AnswerItem(a, rep, rep.items[i], now), onlyEtf, rep, i + 1, now);
      } else {
        NoBatchWithoutNumber(a, onlyEtf, rep, i + 1, now);
      }
    }
  }

  lemma ResponseKeepsBatch(s: RiskState, rep: OrderMessage, now: int, key: string)
    requires Filed(s) && !Replaces(Response(rep, now), key)
    ensures KeepsBatch(s.ix, Step(s, Response(rep, now)).ix, key)
  {
    if rep.fundId in s.options {
      var onlyEtf, first := s.options[rep.fundId], Answering(s, None, []);
      var a := AnswerItems(first, onlyEtf, rep, 0, now);
      var t := a.s.(ix := FileBatch(a.s.ix, rep, a.batch));
      AnswerItemsKeepBatches(first, onlyEtf, rep, 0, now);
      AnswerItemsSteps(first, onlyEtf, rep, 0, now);
      if rep.batchNo == "" {
        NoBatchWithoutNumber(first, onlyEtf, rep, 0, now);
      }
      SameBooksFiled(a.s, t, NOTHING);
      assert KeepsBatch(s.ix, t.ix, key);
      if a.held.Some? {
        KnocksKeepBatch(t, a.held.value, now, key);
        KnocksSteps(t, a.held.value, now);
        KeepsOn(s.ix, t.ix, Knocks(t, a.held.value, now).ix, key, NOTHING);
      }
    }
  }

  lemma RequestKeepsBatch(s: RiskState, req: OrderMessage, clocks: nat -> Clock, now: int, key: string)
    requires Filed(s)
    ensures KeepsBatch(s.ix, Step(s, Request(req, clocks, now)).ix, key)
  {
    if req.fundId in s.options {
      var (t, block) := HandleTradeOrderReq(s, req, clocks);
      CheckItemsKeepBatch(s, s.options[req.fundId], req, 0, clocks, key);
      CheckItemsSteps(s, s.options[req.fundId], req, 0, clocks);
      if block == None && req.fundId in t.options {
        var u := OnTradeOrderReqPass(t, req, now);
        RestItemsKeepBatches(t, t.options[req.fundId], req, 0, now);
        RestItemsSteps(t, t.options[req.fundId], req, 0, now);
        KeepsOn(s.ix, t.ix, u.ix, key, NOTHING);
      }
    }
  }

  lemma StepKeepsBatch(s: RiskState, ev: Event, key: string)
    requires Filed(s) && !Replaces(ev, key)
    ensures KeepsBatch(s.ix, Step(s, ev).ix, key)
  {
    match ev
    case Request(req, clocks, now) => RequestKeepsBatch(s, req, clocks, now, key);
    case Response(rep, now) => ResponseKeepsBatch(s, rep, now, key);
    case Fill(k, now) =>
      assert Knocks(s, [k], now) == OnTradeKnock(s, k, now);
      KnocksKeepBatch(s, [k], now, key);
    case _ =>
  }

  lemma {:induction false} RunKeepsBatch(s: RiskState, events: seq<Event>, key: string)
    requires Filed(s) && forall ev | ev in events :: !Replaces(ev, key)
    ensures KeepsBatch(s.ix, Run(s, events).ix, key)
    decreases |events|
  {
    if events != [] {
      var t := Step(s, events[0]);
      assert events[0] in events && forall ev | ev in events[1..] :: ev in events;
      StepKeepsBatch(s, events[0], key);
      StepSteps(s, events[0]);
      RunKeepsBatch(t, events[1..], key);
      RunSteps(t, events[1..]);
      KeepsOn(s.ix, t.ix, Run(t, events[1..]).ix, key, AllChanges(t, events[1..]));
    }
  }

  /** Over every run: as long as one order of a batch is not finished, a withdrawal of the batch names all its
      orders, unless the batch was withdrawn or a response gave its number to others. */
  lemma BatchesStayNamed(options: map<string, bool>, before: seq<Event>, after: seq<Event>, m: WithdrawMessage,
                         alive: OrderId, id: OrderId)
    requires m.batchNo != "" && forall ev | ev in after :: !Replaces(ev, OrderNoKey(m.fundId, m.batchNo))
    requires var s := Run(Start(options), before); Names(s.ix, m, alive) && Names(s.ix, m, id)
    ensures var u := Run(Run(Start(options), before), after);
            alive < |u.ix.orders| && (!u.ix.orders[alive].finished ==> Names(u.ix, m, id))
  {
    var s := Run(Start(options), before);
    var key := OrderNoKey(m.fundId, m.batchNo);
    RunSteps(Start(options), before);
    RunSteps(s, after);
    RunKeepsBatch(s, after, key);
    assert HasNumber(s.ix.orders, alive);
  }

  // ---- What a response files ----

  /** An order of a response's message, at the code, side and price of an item. */
  predicate Matches(o: Order, rep: OrderMessage, item: Item) {
    && o.messageId == rep.id && o.code == item.code && o.bsFlag == rep.bsFlag
    && EncodePrice(o.price) == EncodePrice(item.price)
  }

  ghost predicate BatchHas(a: Answering, rep: OrderMessage, item: Item) {
    exists id :: id in a.batch && id < |a.s.ix.orders| && Matches(a.s.ix.orders[id], rep, item)
  }

  lemma AnswerItemKeepsBatched(a: Answering, rep: OrderMessage, item: Item, now: int, other: Item)
    requires BatchHas(a, rep, other)
    ensures BatchHas(AnswerItem(a, rep, item, now), rep, other)
  {
    var c := AnswerItem(a, rep, item, now);
    AnswerOrderGrows(a.s.ix, BookOf(a.s, item.code), rep, item, now);
    var id :| id in a.batch && id < |a.s.ix.orders| && Matches(a.s.ix.orders[id], rep, other);
    assert ChangedBy(id, a.s.ix.orders[id], c.s.ix.orders[id], Answer(rep.id));
    assert id in c.batch;
  }

  lemma AnswerItemBatches(a: Answering, rep: OrderMessage, item: Item, now: int)
    requires Filed(a.s) && rep.batchNo != "" && item.orderNo != "" && (rep.bsFlag.Buy? || rep.bsFlag.Sell?)
    ensures BatchHas(AnswerItem(a, rep, item, now), rep, item)
  {
    AnswerFiles(a.s.ix, BookOf(a.s, item.code), rep, item, now);
    assert AnswerOrder(a.s.ix, BookOf(a.s, item.code), rep, item, now).2.value in AnswerItem(a, rep, item, now).batch;
  }

  lemma {:induction false} AnswerItemsBatch(a: Answering, onlyEtf: bool, rep: OrderMessage, i: nat, now: int, j: nat)
    requires i <= |rep.items| && Filed(a.s) && BatchFiled(a) && j < |rep.items|
    requires rep.batchNo != "" && (rep.bsFlag.Buy? || rep.bsFlag.Sell?)
    requires Covered(onlyEtf, rep.items[j].code) && rep.items[j].orderNo != ""
    requires j < i ==> BatchHas(a, rep, rep.items[j])
    ensures BatchHas(AnswerItems(a, onlyEtf, rep, i, now), rep, rep.items[j])
    decreases |rep.items| - i
  {
    if i < |rep.items| {
      if Covered(onlyEtf, rep.items[i].code) {
        AnswerItemSteps(a, rep, rep.items[i], now);
        if i == j {
          AnswerItemBatches(a, rep, rep.items[i], now);
        } else if j < i {
          AnswerItemKeepsBatched(a, rep, rep.items[i], now, rep.items[j]);
        }
        AnswerItemsBatch(AnswerItem(a, rep, rep.items[i], now), onlyEtf, rep, i + 1, now, j);
      } else {
        AnswerItemsBatch(a, onlyEtf, rep, i + 1, now, j);
      }
    }
  }

  /** Once a response has come with a batch number, a withdrawal of the batch names an order for each of its
      covered, numbered items, at the item's code, side and price, unless that order is finished. */
  lemma ResponseFilesBatch(s: RiskState, rep: OrderMessage, now: int, j: nat)
    requires Filed(s) && rep.fundId in s.options && rep.batchNo != "" && (rep.bsFlag.Buy? || rep.bsFlag.Sell?)
    requires j < |rep.items| && rep.items[j].orderNo != "" && Covered(s.options[rep.fundId], rep.items[j].code)
    ensures var u := Step(s, Response(rep, now));
            exists id: OrderId ::
              && id < |u.ix.orders| && Matches(u.ix.orders[id], rep, rep.items[j])
              && (u.ix.orders[id].finished ||
                  forall m: WithdrawMessage | m.fundId == rep.fundId && m.batchNo == rep.batchNo :: Names(u.ix, m, id))
  {
    var onlyEtf, first := s.options[rep.fundId], Answering(s, None, []);
    var a := AnswerItems(first, onlyEtf, rep, 0, now);
    var t := a.s.(ix := FileBatch(a.s.ix, rep, a.batch));
    var u := Step(s, Response(rep, now));
    AnswerItemsSteps(first, onlyEtf, rep, 0, now);
    AnswerItemsBatch(first, onlyEtf, rep, 0, now, j);
    SameBooksFiled(a.s, t, NOTHING);
    var id :| id in a.batch && id < |a.s.ix.orders| && Matches(a.s.ix.orders[id], rep, rep.items[j]);
    var key := OrderNoKey(rep.fundId, rep.batchNo);
    assert key in t.ix.batch && id in t.ix.batch[key];
    if a.held.Some? {
      KnocksKeepBatch(t, a.held.value, now, key);
      KnocksSteps(t, a.held.value, now);
      assert ChangedBy(id, t.ix.orders[id], u.ix.orders[id], NOTHING);
    }
    assert u.ix.orders[id].finished || (key in u.ix.batch && u.ix.batch[key] == t.ix.batch[key]);
    assert Matches(u.ix.orders[id], rep, rep.items[j]);
  }
}

/** What an order keeps for life, and where it can stand. */
module OrderIdentity {
  import opened Options
  import opened Trading
  import opened RiskOrders
  import opened SelfTradeSafety

  // ---- What an order keeps ----

  /** Only numbers, fills and marks of an order change, and marks that end it stay. */
  predicate SameOrder(a: Order, b: Order) {
    && a.messageId == b.messageId && a.fundId == b.fundId && a.code == b.code && a.bsFlag == b.bsFlag
    && a.price == b.price && a.volume == b.volume && a.createTime == b.createTime
    && (a.finished ==> b.finished) && (a.withdrawSucceed ==> b.withdrawSucceed)
    && (a.orderNo != "" ==> b.orderNo != "")
  }

  /** An attempt to withdraw an order, or the failed reply to one. */
  datatype Mark = Mark(id: OrderId, time: int)

  /** What may change besides: numbers of the orders of answered messages, and times of withdrawal. */
  datatype Changes = Changes(answered: set<string>, marks: set<Mark>)

  const NOTHING := Changes({}, {})

  function Answer(messageId: string): Changes {
    Changes({messageId}, {})
  }

  predicate Within(a: Changes, b: Changes) {
    a.answered <= b.answered && a.marks <= b.marks
  }

  function Both(a: Changes, b: Changes): Changes {
    Changes(a.answered + b.answered, a.marks + b.marks)
  }

  predicate ChangedBy(id: OrderId, a: Order, b: Order, changes: Changes) {
    && SameOrder(a, b)
    && (a.messageId !in changes.answered ==> b.orderNo == a.orderNo)
    && (b.withdrawFailedTime == a.withdrawFailedTime || Mark(id, b.withdrawFailedTime) in changes.marks)
  }

  /** Orders are only added, and only those of the answered messages get numbers. */
  ghost predicate Grown(a: Orders, b: Orders, changes: Changes) {
    |a| <= |b| && forall id | 0 <= id < |a| :: ChangedBy(id, a[id], b[id], changes)
  }

  lemma GrownOn(a: Orders, b: Orders, c: Orders, changes: Changes, more: Changes)
    requires Grown(a, b, changes) && Grown(b, c, more) && Within(changes, more)
    ensures Grown(a, c, more)
  {}

  lemma PutGrows(orders: Orders, id: OrderId, o: Order)
    requires ChangedBy(id, At(orders, id), o, NOTHING)
    ensures Grown(orders, Put(orders, id, o), NOTHING)
  {}

  lemma {:induction false} AllFinishedGrows(orders: Orders, ids: seq<OrderId>, now: int)
    ensures Grown(orders, AllFinished(orders, ids, now).0, NOTHING)
    decreases |ids|
  {
    if ids != [] {
      var next := Put(orders, ids[0], Finish(At(orders, ids[0]), now));
      PutGrows(orders, ids[0], Finish(At(orders, ids[0]), now));
      AllFinishedGrows(next, ids[1..], now);
      GrownOn(orders, next, AllFinished(next, ids[1..], now).0, NOTHING, NOTHING);
    }
  }

  lemma OnOrderFinishGrows(ix: Index, id: OrderId, now: int)
    ensures Grown(ix.orders, OnOrderFinish(ix, id, now).orders, NOTHING)
  {
    var o := At(ix.orders, id);
    var batchKey := OrderNoKey(o.fundId, o.batchNo);
    if o.batchNo != "" && batchKey in ix.batch {
      AllFinishedGrows(ix.orders, ix.batch[batchKey], now);
    }
  }

  lemma {:induction false} SweepGrows(ix: Index, side: seq<Entry>, limit: int, now: int)
    ensures Grown(ix.orders, Sweep(ix, side, limit, now).0.orders, NOTHING)
    decreases |side|
  {
    if side != [] && side[0].rank <= limit {
      var id := side[0].id;
      var o := Finish(At(ix.orders, id), now);
      var a := ix.(orders := Put(ix.orders, id, o));
      PutGrows(ix.orders, id, o);
      if o.finished {
        var b := OnOrderFinish(a, id, now);
        OnOrderFinishGrows(a, id, now);
        GrownOn(ix.orders, a.orders, b.orders, NOTHING, NOTHING);
        SweepGrows(b, side[1..], limit, now);
        GrownOn(ix.orders, b.orders, Sweep(b, side[1..], limit, now).0.orders, NOTHING, NOTHING);
      }
    }
  }

  lemma CheckOrderGrows(ix: Index, b: Book, bsFlag: BsFlag, price: real, c: Clock)
    ensures Grown(ix.orders, CheckOrder(ix, b, bsFlag, price, c).0.orders, NOTHING)
  {
    if !InAuction(c) {
      var d := TryHandleTick(b);
      match bsFlag
      case Buy => SweepGrows(ix, d.asks, EncodePrice(price), c.unix);
      case Sell => SweepGrows(ix, d.bids, -EncodePrice(price), c.unix);
      case _ =>
    }
  }

  lemma AnswerOrderGrows(ix: Index, b: Book, rep: OrderMessage, item: Item, now: int)
    ensures Grown(ix.orders, AnswerOrder(ix, b, rep, item, now).0.orders, Answer(rep.id))
  {}

  lemma KnockOrderGrows(ix: Index, id: OrderId, k: Knock, now: int)
    ensures Grown(ix.orders, KnockOrder(ix, id, k, now).orders, NOTHING)
  {
    var o := At(ix.orders, id);
    var p :=
      match k.matchType
      case MatchOk => o.(matchVolume := o.matchVolume + k.volume)
      case MatchWithdrawOk => o.(withdrawSucceed := true)
      case MatchFailed => o.(withdrawSucceed := true)
      case MatchOther => o;
    var q := Finish(p, now);
    var jx := ix.(orders := Put(ix.orders, id, q));
    PutGrows(ix.orders, id, q);
    if q.finished {
      OnOrderFinishGrows(jx, id, now);
      GrownOn(ix.orders, jx.orders, OnOrderFinish(jx, id, now).orders, NOTHING, NOTHING);
    }
  }

  lemma {:induction false} MarkAllGrows(orders: Orders, ids: seq<OrderId>, mark: Order -> Order, changes: Changes)
    requires forall id, o | id in ids :: ChangedBy(id, o, mark(o), changes)
    ensures Grown(orders, MarkAll(orders, ids, mark), changes)
    decreases |ids|
  {
    if ids != [] {
      var next := Put(orders, ids[0], mark(At(orders, ids[0])));
      assert ids[0] in ids && forall id | id in ids[1..] :: id in ids;
      assert Grown(orders, next, changes);
      MarkAllGrows(next, ids[1..], mark, changes);
      GrownOn(orders, next, MarkAll(next, ids[1..], mark), changes, changes);
    }
  }

  // ---- Where an order stands ----

  /** An entry names an order of the book's code, on its own side and at its encoded price. */
  ghost predicate EntryFiled(orders: Orders, e: Entry, code: string, buy: bool) {
    && e.id < |orders|
    && var o := orders[e.id];
       && o.code == code && (if buy then o.bsFlag.Buy? else o.bsFlag.Sell?)
       && e.rank == Rank(o.bsFlag, o.price)
  }

  ghost predicate BookFiled(b: Book, orders: Orders, code: string) {
    && SortedSide(b.asks) && SortedSide(b.bids)
    && (b.ticks.seen || b.ticks == NO_TICKS)
    && (forall e | e in b.asks :: EntryFiled(orders, e, code, false))
    && (forall e | e in b.bids :: EntryFiled(orders, e, code, true))
  }

  predicate HasNumber(orders: Orders, id: OrderId) {
    id < |orders| && orders[id].orderNo != ""
  }

  /** What a number leads to are orders that have one. */
  ghost predicate IndexFiled(ix: Index) {
    && (forall key | key in ix.single :: HasNumber(ix.orders, ix.single[key]))
    && (forall key, id | key in ix.batch && id in ix.batch[key] :: HasNumber(ix.orders, id))
  }

  ghost predicate Filed(s: RiskState) {
    IndexFiled(s.ix) && forall code | code in s.books :: BookFiled(s.books[code], s.ix.orders, code)
  }

  /** Entries of the index are only taken out. */
  ghost predicate IndexShrinks(a: Index, b: Index) {
    && (forall key | key in b.single :: key in a.single && a.single[key] == b.single[key])
    && (forall key | key in b.batch :: key in a.batch && a.batch[key] == b.batch[key])
  }

  lemma ShrunkStaysFiled(a: Index, b: Index, changes: Changes)
    requires IndexFiled(a) && IndexShrinks(a, b) && Grown(a.orders, b.orders, changes)
    ensures IndexFiled(b)
  {
    forall id: OrderId | HasNumber(a.orders, id) ensures HasNumber(b.orders, id) {
      assert ChangedBy(id, a.orders[id], b.orders[id], changes);
    }
  }

  lemma FinishedStaysFiled(ix: Index, id: OrderId, now: int)
    requires IndexFiled(ix)
    ensures IndexFiled(OnOrderFinish(ix, id, now))
  {
    OnOrderFinishGrows(ix, id, now);
    ShrunkStaysFiled(ix, OnOrderFinish(ix, id, now), NOTHING);
  }

  lemma GrowthKeepsFiled(b: Book, a: Orders, c: Orders, code: string, changes: Changes)
    requires BookFiled(b, a, code) && Grown(a, c, changes)
    ensures BookFiled(b, c, code)
  {
    forall e | e in b.asks ensures EntryFiled(c, e, code, false) {
      assert EntryFiled(a, e, code, false);
    }
    forall e | e in b.bids ensures EntryFiled(c, e, code, true) {
      assert EntryFiled(a, e, code, true);
    }
  }

  lemma OneBookFiled(s: RiskState, t: RiskState, code: string, changes: Changes)
    requires Filed(s) && Grown(s.ix.orders, t.ix.orders, changes) && IndexFiled(t.ix)
    requires t.books == s.books[code := BookOf(t, code)] && BookFiled(BookOf(t, code), t.ix.orders, code)
    ensures Filed(t)
  {
    forall c | c in t.books ensures BookFiled(t.books[c], t.ix.orders, c) {
      if c != code {
        GrowthKeepsFiled(s.books[c], s.ix.orders, t.ix.orders, c, changes);
      }
    }
  }

  lemma SameBooksFiled(s: RiskState, t: RiskState, changes: Changes)
    requires Filed(s) && Grown(s.ix.orders, t.ix.orders, changes) && IndexFiled(t.ix) && t.books == s.books
    ensures Filed(t)
  {
    forall c | c in t.books ensures BookFiled(t.books[c], t.ix.orders, c) {
      GrowthKeepsFiled(s.books[c], s.ix.orders, t.ix.orders, c, changes);
    }
  }

  // ---- The steps ----

  /** A step keeps orders in their places, and numbers only orders of the answered messages. */
  ghost predicate StepsOn(s: RiskState, t: RiskState, changes: Changes) {
    Filed(t) && Grown(s.ix.orders, t.ix.orders, changes)
  }

  lemma {:induction false} SweepKeepsIndex(ix: Index, side: seq<Entry>, limit: int, now: int)
    requires IndexFiled(ix)
    ensures IndexFiled(Sweep(ix, side, limit, now).0)
    decreases |side|
  {
    if side != [] && side[0].rank <= limit {
      var id := side[0].id;
      var o := Finish(At(ix.orders, id), now);
      var a := ix.(orders := Put(ix.orders, id, o));
      PutGrows(ix.orders, id, o);
      ShrunkStaysFiled(ix, a, NOTHING);
      FinishedStaysFiled(a, id, now);
      SweepKeepsIndex(OnOrderFinish(a, id, now), side[1..], limit, now);
    }
  }

  lemma CheckOneSteps(s: RiskState, bsFlag: BsFlag, item: Item, c: Clock)
    requires Filed(s)
    ensures StepsOn(s, AfterCheck(s, bsFlag, item, c), NOTHING)
  {
    var b := BookOf(s, item.code);
    var d := CheckOrder(s.ix, b, bsFlag, item.price, c).1;
    var t := AfterCheck(s, bsFlag, item, c);
    CheckClears(s.ix, b, bsFlag, item.price, c);
    CheckOrderGrows(s.ix, b, bsFlag, item.price, c);
    var swept := TryHandleTick(b);
    SweepKeepsIndex(s.ix, swept.asks, EncodePrice(item.price), c.unix);
    SweepKeepsIndex(s.ix, swept.bids, -EncodePrice(item.price), c.unix);
    GrowthKeepsFiled(b, s.ix.orders, t.ix.orders, item.code, NOTHING);
    OneBookFiled(s, t, item.code, NOTHING);
  }

  lemma {:induction false} CheckItemsSteps(s: RiskState, onlyEtf: bool, req: OrderMessage, i: nat,
                                           clocks: nat -> Clock)
    requires i <= |req.items| && Filed(s)
    ensures StepsOn(s, CheckItems(s, onlyEtf, req, i, clocks).0, NOTHING)
    decreases |req.items| - i
  {
    if i < |req.items| {
      var item := req.items[i];
      if Covered(onlyEtf, item.code) {
        var t := AfterCheck(s, req.bsFlag, item, clocks(i));
        CheckOneSteps(s, req.bsFlag, item, clocks(i));
        CheckItemsSteps(t, onlyEtf, req, i + 1, clocks);
        GrownOn(s.ix.orders, t.ix.orders, CheckItems(t, onlyEtf, req, i + 1, clocks).0.ix.orders, NOTHING, NOTHING);
      } else {
        CheckItemsSteps(s, onlyEtf, req, i + 1, clocks);
      }
    }
  }

  /** A new order rests in its place. */
  lemma RestFiles(b: Book, orders: Orders, o: Order)
    requires BookFiled(b, orders, o.code)
    ensures BookFiled(RestOrder(b, o, |orders|), orders + [o], o.code)
  {
    var e := Entry(Rank(o.bsFlag, o.price), |orders|);
    GrowthKeepsFiled(b, orders, orders + [o], o.code, NOTHING);
    InsertEntryAdds(b.asks, e);
    InsertEntryAdds(b.bids, e);
  }

  lemma RestItemSteps(s: RiskState, req: OrderMessage, item: Item, now: int)
    requires Filed(s)
    ensures StepsOn(s, RestItem(s, req, item, now), NOTHING)
  {
    RestFiles(BookOf(s, item.code), s.ix.orders, NewOrder(req, item, now));
    ShrunkStaysFiled(s.ix, RestItem(s, req, item, now).ix, NOTHING);
    OneBookFiled(s, RestItem(s, req, item, now), item.code, NOTHING);
  }

  lemma {:induction false} RestItemsSteps(s: RiskState, onlyEtf: bool, req: OrderMessage, i: nat, now: int)
    requires i <= |req.items| && Filed(s)
    ensures StepsOn(s, RestItems(s, onlyEtf, req, i, now), NOTHING)
    decreases |req.items| - i
  {
    if i < |req.items| {
      if Covered(onlyEtf, req.items[i].code) {
        var t := RestItem(s, req, req.items[i], now);
        RestItemSteps(s, req, req.items[i], now);
        RestItemsSteps(t, onlyEtf, req, i + 1, now);
        GrownOn(s.ix.orders, t.ix.orders, RestItems(t, onlyEtf, req, i + 1, now).ix.orders, NOTHING, NOTHING);
      } else {
        RestItemsSteps(s, onlyEtf, req, i + 1, now);
      }
    }
  }

  lemma TakingOutFiles(b: Book, orders: Orders, bsFlag: BsFlag, i: nat, code: string)
    requires BookFiled(b, orders, code) && i < |SideOf(b, bsFlag)|
    ensures var side := SideOf(b, bsFlag); BookFiled(WithSide(b, bsFlag, side[..i] + side[i + 1..]), orders, code)
  {
    var side := SideOf(b, bsFlag);
    var rest := side[..i] + side[i + 1..];
    assert SortedSide(rest) && forall e | e in rest :: e in side;
  }

  /** The order an item is answered with is the item's: its code, side and encoded price, and of the
      response's message. */
  lemma AnswerFiles(ix: Index, b: Book, rep: OrderMessage, item: Item, now: int)
    requires BookFiled(b, ix.orders, item.code)
    ensures var (jx, d, found) := AnswerOrder(ix, b, rep, item, now);
            && BookFiled(d, jx.orders, item.code)
            && (found.Some? ==>
                  && found.value < |jx.orders|
                  && var o := jx.orders[found.value];
                     && o.messageId == rep.id && o.orderNo == item.orderNo && o.batchNo == rep.batchNo
                     && o.code == item.code && o.bsFlag == rep.bsFlag
                     && EncodePrice(o.price) == EncodePrice(item.price))
  {
    if rep.bsFlag.Buy? || rep.bsFlag.Sell? {
      var side := SideOf(b, rep.bsFlag);
      AnswerOrderGrows(ix, b, rep, item, now);
      match FindEntry(ix.orders, side, Rank(rep.bsFlag, item.price), rep.id)
      case Some(i) =>
        assert side[i] in side;
        assert EntryFiled(ix.orders, side[i], item.code, rep.bsFlag.Buy?);
        if item.orderNo == "" {
          TakingOutFiles(b, ix.orders, rep.bsFlag, i, item.code);
        } else {
          GrowthKeepsFiled(b, ix.orders, AnswerOrder(ix, b, rep, item, now).0.orders, item.code, Answer(rep.id));
        }
      case None =>
        if item.orderNo != "" {
          RestFiles(b, ix.orders, NewOrder(rep, item, now).(batchNo := rep.batchNo, orderNo := item.orderNo));
        }
    }
  }

  /** The orders found so far have numbers. */
  ghost predicate BatchFiled(a: Answering) {
    forall id | id in a.batch :: HasNumber(a.s.ix.orders, id)
  }

  lemma AnswerItemFilesIndex(a: Answering, rep: OrderMessage, item: Item, now: int)
    requires Filed(a.s) && BatchFiled(a)
    ensures var c := AnswerItem(a, rep, item, now); IndexFiled(c.s.ix) && BatchFiled(c)
  {
    var (jx, d, found) := AnswerOrder(a.s.ix, BookOf(a.s, item.code), rep, item, now);
    AnswerFiles(a.s.ix, BookOf(a.s, item.code), rep, item, now);
    AnswerOrderGrows(a.s.ix, BookOf(a.s, item.code), rep, item, now);
    ShrunkStaysFiled(a.s.ix, jx, Answer(rep.id));
    forall id: OrderId | HasNumber(a.s.ix.orders, id) ensures HasNumber(jx.orders, id) {
      assert ChangedBy(id, a.s.ix.orders[id], jx.orders[id], Answer(rep.id));
    }
  }

  lemma AnswerItemSteps(a: Answering, rep: OrderMessage, item: Item, now: int)
    requires Filed(a.s) && BatchFiled(a)
    ensures StepsOn(a.s, AnswerItem(a, rep, item, now).s, Answer(rep.id)) && BatchFiled(AnswerItem(a, rep, item, now))
  {
    AnswerFiles(a.s.ix, BookOf(a.s, item.code), rep, item, now);
    AnswerOrderGrows(a.s.ix, BookOf(a.s, item.code), rep, item, now);
    AnswerItemFilesIndex(a, rep, item, now);
    OneBookFiled(a.s, AnswerItem(a, rep, item, now).s, item.code, Answer(rep.id));
  }

  lemma {:induction false} AnswerItemsSteps(a: Answering, onlyEtf: bool, rep: OrderMessage, i: nat, now: int)
    requires i <= |rep.items| && Filed(a.s) && BatchFiled(a)
    ensures var c := AnswerItems(a, onlyEtf, rep, i, now); StepsOn(a.s, c.s, Answer(rep.id)) && BatchFiled(c)
    decreases |rep.items| - i
  {
    if i < |rep.items| {
      if Covered(onlyEtf, rep.items[i].code) {
        var c := AnswerItem(a, rep, rep.items[i], now);
        var d := AnswerItems(c, onlyEtf, rep, i + 1, now);
        AnswerItemSteps(a, rep, rep.items[i], now);
        AnswerItemsSteps(c, onlyEtf, rep, i + 1, now);
        GrownOn(a.s.ix.orders, c.s.ix.orders, d.s.ix.orders, Answer(rep.id), Answer(rep.id));
      } else {
        AnswerItemsSteps(a, onlyEtf, rep, i + 1, now);
      }
    }
  }

  lemma KnockKeepsIndex(ix: Index, id: OrderId, k: Knock, now: int)
    requires IndexFiled(ix)
    ensures IndexFiled(KnockOrder(ix, id, k, now))
  {
    KnockOrderGrows(ix, id, k, now);
    ShrunkStaysFiled(ix, KnockOrder(ix, id, k, now), NOTHING);
  }

  lemma {:induction false} KnocksSteps(s: RiskState, ks: seq<Knock>, now: int)
    requires Filed(s)
    ensures StepsOn(s, Knocks(s, ks, now), NOTHING)
    decreases |ks|
  {
    if ks != [] {
      var k := ks[0];
      var key, t := OrderNoKey(k.fundId, k.orderNo), OnTradeKnock(s, k, now);
      if key in s.ix.single {
        KnockOrderGrows(s.ix, s.ix.single[key], k, now);
        KnockKeepsIndex(s.ix, s.ix.single[key], k, now);
      }
      SameBooksFiled(s, t, NOTHING);
      KnocksSteps(t, ks[1..], now);
      GrownOn(s.ix.orders, t.ix.orders, Knocks(t, ks[1..], now).ix.orders, NOTHING, NOTHING);
    }
  }

  lemma RequestSteps(s: RiskState, req: OrderMessage, clocks: nat -> Clock, now: int)
    requires Filed(s)
    ensures StepsOn(s, Step(s, Request(req, clocks, now)), NOTHING)
  {
    if req.fundId in s.options {
      var t := HandleTradeOrderReq(s, req, clocks).0;
      CheckItemsSteps(s, s.options[req.fundId], req, 0, clocks);
      if req.fundId in t.options {
        RestItemsSteps(t, t.options[req.fundId], req, 0, now);
        GrownOn(s.ix.orders, t.ix.orders, OnTradeOrderReqPass(t, req, now).ix.orders, NOTHING, NOTHING);
      }
    }
  }

  lemma ResponseSteps(s: RiskState, rep: OrderMessage, now: int)
    requires Filed(s)
    ensures StepsOn(s, Step(s, Response(rep, now)), Answer(rep.id))
  {
    if rep.fundId in s.options {
      var a := AnswerItems(Answering(s, None, []), s.options[rep.fundId], rep, 0, now);
      var t := a.s.(ix := FileBatch(a.s.ix, rep, a.batch));
      AnswerItemsSteps(Answering(s, None, []), s.options[rep.fundId], rep, 0, now);
      SameBooksFiled(a.s, t, NOTHING);
      if a.held.Some? {
        KnocksSteps(t, a.held.value, now);
        GrownOn(s.ix.orders, t.ix.orders, Knocks(t, a.held.value, now).ix.orders, Answer(rep.id), Answer(rep.id));
      }
    }
  }

  /** The marks a step puts on orders. */
  function Marks(s: RiskState, e: Event): set<Mark> {
    match e
    case Withdrawing(m, now) => set id | id in Targets(s.ix, m) :: Mark(id, now)
    case Withdrawn(m, now) => if m.failed then set id | id in Targets(s.ix, m) :: Mark(id, now) else {}
    case _ => {}
  }

  lemma WithdrawSteps(s: RiskState, e: Event)
    requires Filed(s) && (e.Withdrawing? || e.Withdrawn?)
    ensures StepsOn(s, Step(s, e), Changes({}, Marks(s, e)))
  {
    var changes := Changes({}, Marks(s, e));
    if e.Withdrawn? && !e.m.failed {
      MarkAllGrows(s.ix.orders, Targets(s.ix, e.m), SUCCEEDING, changes);
    } else {
      MarkAllGrows(s.ix.orders, Targets(s.ix, e.m), Failing(e.now), changes);
    }
    ShrunkStaysFiled(s.ix, Step(s, e).ix, changes);
    SameBooksFiled(s, Step(s, e), changes);
  }

  lemma QuoteSteps(s: RiskState, code: string, q: Tick)
    requires Filed(s)
    ensures StepsOn(s, Step(s, Quote(code, q)), NOTHING)
  {}

  /** The message a step answers. */
  function Answers(e: Event): set<string> {
    if e.Response? then {e.rep.id} else {}
  }

  function StepChanges(s: RiskState, e: Event): Changes {
    Changes(Answers(e), Marks(s, e))
  }

  lemma StepSteps(s: RiskState, e: Event)
    requires Filed(s)
    ensures StepsOn(s, Step(s, e), StepChanges(s, e))
  {
    match e
    case Request(req, clocks, now) => RequestSteps(s, req, clocks, now);
    case Response(rep, now) => ResponseSteps(s, rep, now);
    case Fill(k, now) =>
      assert Knocks(s, [k], now) == OnTradeKnock(s, k, now);
      KnocksSteps(s, [k], now);
    case Quote(code, q) => QuoteSteps(s, code, q);
    case _ => WithdrawSteps(s, e);
  }

  function AllAnswers(events: seq<Event>): set<string> {
    if events == [] then {} else Answers(events[0]) + AllAnswers(events[1..])
  }

  /** All changes of a run; the marks are those of each step's targets. */
  function AllChanges(s: RiskState, events: seq<Event>): Changes
    decreases |events|
  {
    if events == [] then NOTHING
    else Both(StepChanges(s, events[0]), AllChanges(Step(s, events[0]), events[1..]))
  }

  lemma {:induction false} ChangesAnswer(s: RiskState, events: seq<Event>)
    ensures AllChanges(s, events).answered == AllAnswers(events)
    decreases |events|
  {
    if events != [] {
      ChangesAnswer(Step(s, events[0]), events[1..]);
    }
  }

  lemma MoreChanges(a: Orders, b: Orders, changes: Changes, more: Changes)
    requires Grown(a, b, changes) && Within(changes, more)
    ensures Grown(a, b, more)
  {}

  lemma {:induction false} RunSteps(s: RiskState, events: seq<Event>)
    requires Filed(s)
    ensures StepsOn(s, Run(s, events), AllChanges(s, events))
    decreases |events|
  {
    if events != [] {
      var t, u := Step(s, events[0]), Run(Step(s, events[0]), events[1..]);
      var changes := AllChanges(s, events);
      StepSteps(s, events[0]);
      RunSteps(t, events[1..]);
      MoreChanges(t.ix.orders, u.ix.orders, AllChanges(t, events[1..]), changes);
      GrownOn(s.ix.orders, t.ix.orders, u.ix.orders, StepChanges(s, events[0]), changes);
    }
  }

  /** In every reachable state every resting order stands in the book of its code, on its side and at
      its encoded price. */
  lemma OrdersStandInTheirPlaces(options: map<string, bool>, events: seq<Event>, code: string, e: Entry)
    ensures var s := Run(Start(options), events);
            && (e in BookOf(s, code).asks ==> EntryFiled(s.ix.orders, e, code, false))
            && (e in BookOf(s, code).bids ==> EntryFiled(s.ix.orders, e, code, true))
  {
    RunSteps(Start(options), events);
  }
}

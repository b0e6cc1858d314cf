/** The self-trade check behind the risk thread: what holds of its books and verdicts however the threads
    interleave. */
module RiskControls {
  import opened Options
  import opened RiskOrders
  import opened RiskHandshake
  import Trades = SelfTradeSafety

  /** What a message carries, with the times at which its handling reads the clock. */
  datatype Body =
    | OrderBody(order: OrderMessage, clocks: nat -> Clock, now: int)
    | WithdrawBody(withdraw: WithdrawMessage, now: int)
    | KnockBody(knock: Knock, now: int)

  /** A message whose body is of its kind and for its fund. */
  predicate Proper(m: Msg<Body>) {
    match m.kind
    case OrderReq => m.body.OrderBody? && m.body.order.fundId == m.fundId
    case OrderRep => m.body.OrderBody? && m.body.order.fundId == m.fundId
    case WithdrawReq => m.body.WithdrawBody? && m.body.withdraw.fundId == m.fundId
    case WithdrawRep => m.body.WithdrawBody? && m.body.withdraw.fundId == m.fundId
    case TradeKnock => m.body.KnockBody? && m.body.knock.fundId == m.fundId
  }

  function EventOf(m: Msg<Body>): Trades.Event
    requires Proper(m)
  {
    match m.kind
    case OrderReq => Trades.Request(m.body.order, m.body.clocks, m.body.now)
    case OrderRep => Trades.Response(m.body.order, m.body.now)
    case WithdrawReq => Trades.Withdrawing(m.body.withdraw, m.body.now)
    case WithdrawRep => Trades.Withdrawn(m.body.withdraw, m.body.now)
    case TradeKnock => Trades.Fill(m.body.knock, m.body.now)
  }

  // ---- The riskers ----

  /** A control of one account, which overrides no handler, and the self-trade check all accounts share. */
  datatype Control = Account | AntiSelfKnock

  datatype Controls = Controls(lists: map<string, seq<Control>>, anti: RiskState)

  /** A fund without a list gets the self-trade check, for all codes. */
  function Enrolled(c: Controls, fundId: string): Controls {
    if fundId in c.lists then c
    else Controls(c.lists[fundId := [AntiSelfKnock]], c.anti.(options := c.anti.options[fundId := false]))
  }

  const BLOCKED := "[FAN-RISK-ERROR]"

  function Check(c: Controls, m: Msg<Body>): (Controls, string) {
    if !Proper(m) then (c, "")
    else if m.kind.OrderReq? then
      var (s, block) := HandleTradeOrderReq(c.anti, m.body.order, m.body.clocks);
      (c.(anti := s), if block.Some? then BLOCKED else "")
    else if m.kind.WithdrawReq? then (c.(anti := HandleTradeWithdrawReq(c.anti, m.body.withdraw, m.body.now)), "")
    else (c, "")
  }

  function Pass(c: Controls, m: Msg<Body>): Controls {
    if Proper(m) && m.kind.OrderReq? then c.(anti := OnTradeOrderReqPass(c.anti, m.body.order, m.body.now)) else c
  }

  function Report(c: Controls, m: Msg<Body>): Controls {
    if !Proper(m) then c
    else
      match m.kind
      case OrderRep => c.(anti := HandleTradeOrderRep(c.anti, m.body.order, m.body.now))
      case WithdrawRep => c.(anti := HandleTradeWithdrawRep(c.anti, m.body.withdraw, m.body.now))
      case TradeKnock => c.(anti := OnTradeKnock(c.anti, m.body.knock, m.body.now))
      case _ => c
  }

  function RiskerOf(control: Control): Risker<Controls, Body> {
    match control
    case Account => Risker((c, m) => (c, ""), (c, m) => c, (c, m) => c)
    case AntiSelfKnock => Risker(Check, Pass, Report)
  }

  function RiskersOf(list: seq<Control>): seq<Risker<Controls, Body>> {
    if list == [] then [] else [RiskerOf(list[0])] + RiskersOf(list[1..])
  }

  const ROUTES: Routes<Controls, Body> := (c: Controls, fundId: string) =>
    var d := Enrolled(c, fundId);
    (d, RiskersOf(d.lists[fundId]))

  /** The account's own control first, then the shared check where it is switched on. */
  predicate ProperList(list: seq<Control>) {
    list == [] || list == [Account] || list == [AntiSelfKnock] || list == [Account, AntiSelfKnock]
  }

  ghost predicate ProperLists(c: Controls) {
    forall fundId | fundId in c.lists :: ProperList(c.lists[fundId])
  }

  /** Whether the self-trade check sees a message. */
  predicate Checks(c: Controls, m: Msg<Body>) {
    Proper(m) && AntiSelfKnock in Enrolled(c, m.fundId).lists[m.fundId]
  }

  lemma ListsOfRiskers(list: seq<Control>)
    requires ProperList(list)
    ensures RiskersOf(list) ==
            (if list != [] && list[0].Account? then [RiskerOf(Account)] else []) +
            (if AntiSelfKnock in list then [RiskerOf(AntiSelfKnock)] else [])
  {
    assert forall control :: RiskersOf([control]) == [RiskerOf(control)];
    if |list| == 2 {
      assert list[1..] == [AntiSelfKnock];
    }
  }

  lemma AskedAboutRequest(d: Controls, riskers: seq<Risker<Controls, Body>>, m: Msg<Body>, account: bool, anti: bool)
    requires riskers == (if account then [RiskerOf(Account)] else []) + (if anti then [RiskerOf(AntiSelfKnock)] else [])
    ensures CheckAll(d, riskers, m) == if anti then Check(d, m) else (d, "")
    ensures PassAll(d, riskers, m) == if anti then Pass(d, m) else d
    ensures ReportAll(d, riskers, m) == if anti then Report(d, m) else d
  {
    var rest := if anti then [RiskerOf(AntiSelfKnock)] else [];
    assert anti ==> rest[0] == RiskerOf(AntiSelfKnock) && rest[1..] == [];
    assert CheckAll(d, rest, m) == if anti then Check(d, m) else (d, "");
    assert PassAll(d, rest, m) == if anti then Pass(d, m) else d;
    assert ReportAll(d, rest, m) == if anti then Report(d, m) else d;
    if account {
      var own := RiskerOf(Account);
      assert riskers[0] == own && riskers[1..] == rest;
      assert own.check(d, m) == (d, "") && own.pass(d, m) == d && own.report(d, m) == d;
    } else {
      assert riskers == rest;
    }
  }

  /** Handling a message is one step of the self-trade check, or none if it does not see the message; and a
      request is refused exactly when the check blocks it. */
  lemma HandlingIsStep(c: Controls, m: Msg<Body>)
    requires ProperLists(c)
    ensures var d, (e, verdict) := Enrolled(c, m.fundId), Handle(ROUTES, c, m);
            && ProperLists(e) && e.lists == d.lists
            && e.anti == (if Checks(c, m) then Trades.Step(d.anti, EventOf(m)) else d.anti)
            && (m.kind.OrderReq? ==>
                  (verdict == "" <==>
                   !(Checks(c, m) && HandleTradeOrderReq(d.anti, m.body.order, m.body.clocks).1.Some?)))
            && (m.kind.WithdrawReq? ==> verdict == "")
  {
    var d := Enrolled(c, m.fundId);
    var list := d.lists[m.fundId];
    assert ProperList(list);
    ListsOfRiskers(list);
    var account, anti := list != [] && list[0].Account?, AntiSelfKnock in list;
    AskedAboutRequest(d, RiskersOf(list), m, account, anti);
    AskedAboutRequest(Check(d, m).0, RiskersOf(list), m, account, anti);
    assert ROUTES(c, m.fundId) == (d, RiskersOf(list));
  }

  /** A request of a fund that was not configured is checked for all codes, and the fund stays checked so. */
  lemma UnknownFundIsChecked(c: Controls, m: Msg<Body>)
    requires ProperLists(c) && m.fundId !in c.lists && Proper(m) && m.kind.OrderReq?
    ensures var s, (e, verdict) := c.anti.(options := c.anti.options[m.fundId := false]), Handle(ROUTES, c, m);
            && e.lists == c.lists[m.fundId := [AntiSelfKnock]]
            && (verdict == "" <==> CheckItems(s, false, m.body.order, 0, m.body.clocks).1 == None)
            && (verdict != "" ==> e.anti == CheckItems(s, false, m.body.order, 0, m.body.clocks).0)
  {
    HandlingIsStep(c, m);
  }

  // ---- Whole runs ----

  /** The orders that message `i` lets into a book unchecked, all before it handled. */
  function LetIn(c: Controls, msgs: seq<Msg<Body>>, i: nat): set<OrderId>
    requires i < |msgs|
  {
    var before := Sequential(ROUTES, c, msgs[..i]);
    if Checks(before, msgs[i])
    then Trades.EnteredUnchecked(Enrolled(before, msgs[i].fundId).anti, EventOf(msgs[i]))
    else {}
  }

  function AllLetIn(c: Controls, msgs: seq<Msg<Body>>): set<OrderId> {
    if msgs == [] then {} else AllLetIn(c, msgs[..|msgs| - 1]) + LetIn(c, msgs, |msgs| - 1)
  }

  /** The controls a broker starts with: a list for each configured fund, empty books. */
  ghost predicate Starting(c: Controls) {
    ProperLists(c) && c.anti == Trades.Start(c.anti.options)
  }

  lemma {:induction false} SequentialKeeps(c: Controls, msgs: seq<Msg<Body>>, unchecked: set<OrderId>)
    requires Starting(c) && AllLetIn(c, msgs) <= unchecked
    ensures var d := Sequential(ROUTES, c, msgs);
            ProperLists(d) && Trades.BooksInv(d.anti.books, |d.anti.ix.orders|, unchecked)
  {
    if msgs != [] {
      var n := |msgs| - 1;
      var before, m := Sequential(ROUTES, c, msgs[..n]), msgs[n];
      SequentialKeeps(c, msgs[..n], unchecked);
      HandlingIsStep(before, m);
      var d := Enrolled(before, m.fundId);
      if Checks(before, m) {
        assert LetIn(c, msgs, n) <= unchecked;
        Trades.StepKeeps(d.anti, EventOf(m), unchecked);
      }
    }
  }

  /** However requester, reporters and risk thread interleave: of a bid and an ask that cross in a book of the
      self-trade check the later one was let in unchecked by one of the messages handled. */
  lemma CrossingIsUncheckedUnderThreads(c: Controls, actions: seq<Action<Body>>, code: string, ask: Entry, bid: Entry)
    requires Starting(c)
    requires var b := BookOf(Reached(ROUTES, c, actions).risk.anti, code); ask in b.asks && bid in b.bids
    requires ask.rank <= -bid.rank
    ensures var y := Reached(ROUTES, c, actions);
            y.handled <= |y.pushed| && Trades.LaterOf(ask, bid) in AllLetIn(c, y.pushed[..y.handled])
  {
    var y := Reached(ROUTES, c, actions);
    RiskersSeeTheQueueInOrder(ROUTES, c, actions);
    SequentialKeeps(c, y.pushed[..y.handled], AllLetIn(c, y.pushed[..y.handled]));
    assert code in y.risk.anti.books;
  }

  /** If no message lets an order in unchecked, no interleaving ever brings a bid up to an ask. */
  lemma NoCrossingUnderThreads(c: Controls, actions: seq<Action<Body>>, code: string, ask: Entry, bid: Entry)
    requires Starting(c)
    requires var y := Reached(ROUTES, c, actions); y.handled <= |y.pushed| ==> AllLetIn(c, y.pushed[..y.handled]) == {}
    requires var b := BookOf(Reached(ROUTES, c, actions).risk.anti, code); ask in b.asks && bid in b.bids
    ensures -bid.rank < ask.rank
  {
    if ask.rank <= -bid.rank {
      CrossingIsUncheckedUnderThreads(c, actions, code, ask, bid);
    }
  }

  /** However the threads interleave, an order request is answered without an error exactly when the self-trade
      check, having seen the messages pushed before it one after the other, does not block it. */
  lemma AnswersAreChecks(c: Controls, actions: seq<Action<Body>>, i: nat)
    requires Starting(c) && i < |Reached(ROUTES, c, actions).answers|
    ensures var y := Reached(ROUTES, c, actions);
            var a := y.answers[i];
            && a.at < |y.pushed| && y.pushed[a.at] == a.req
            && var before := Sequential(ROUTES, c, y.pushed[..a.at]);
               a.req.kind.OrderReq? && a.given == "" ==>
                 (a.text == "" <==>
                  !(Checks(before, a.req) &&
                    HandleTradeOrderReq(Enrolled(before, a.req.fundId).anti, a.req.body.order,
                                        a.req.body.clocks).1.Some?))
  {
    var y := Reached(ROUTES, c, actions);
    var a := y.answers[i];
    EveryCallGetsItsVerdict(ROUTES, c, actions, i);
    SequentialKeeps(c, y.pushed[..a.at], AllLetIn(c, y.pushed[..a.at]));
    HandlingIsStep(Sequential(ROUTES, c, y.pushed[..a.at]), a.req);
  }
}

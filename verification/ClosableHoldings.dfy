/** What a buy or a sell can close: the holding of the other direction, as reported, opened and closed. */
module ClosableHoldings {
  import opened Options
  import opened Trading
  import opened FuturePositions
  import opened FutureLedger

  function Opposite(bs: BsFlag): BsFlag
    requires Trades(bs)
  {
    if bs.Buy? then Sell else Buy
  }

  /** A complete fill of an opening order that was not seen yet. */
  predicate FillsOpening(m: Master, k: Knock, code: string, bs: BsFlag, v: int) {
    && m.initialised && k.fundId != "" && k.matchNo != "" && k.matchNo !in m.knocks
    && k.code == code != "" && k.bs == bs && k.oc == Open && k.matchType == MatchOK && k.volume == v
  }

  /** An opening that is filled can be closed by the other direction, and by no other. */
  lemma FilledOpeningIsClosable(m: Master, codes: MarketTable, bs: BsFlag, code: string, v: int, k: Knock, o: Order)
    requires Trades(bs) && v > 0 && FillsOpening(m, k, code, bs, v)
    requires o.code == code && o.oc == Open && o.volume == v
    ensures var n := HandleKnock(HandleOrderReq(m, codes, bs, o), codes, k);
            var before, after := ClosedBy(m, codes, Opposite(bs), code), ClosedBy(n, codes, Opposite(bs), code);
            && after == before.(tdOpen := before.tdOpen + v)
            && after.TodayAvailable() == before.TodayAvailable() + v
            && after.YesterdayAvailable() == before.YesterdayAvailable()
            && ClosedBy(n, codes, bs, code) == ClosedBy(m, codes, bs, code)
  {}

  /** The other closes that name no day. */
  predicate Forced(oc: OcFlag) {
    oc == ForceClose || oc == ForceOff || oc == LocalForceClose
  }

  lemma ForcedSteps(p: Position, oc: OcFlag, v: int)
    requires Forced(oc)
    ensures Frozen(p, oc, v) == Frozen(p, Close, v)
    ensures Filled(p, oc, v) == Filled(p, Close, v)
    ensures Released(p, oc, v) == Released(p, Close, v)
  {}

  /** The other closes that name no day are booked as a plain one, and flags without a name, or none, book
      nothing. */
  lemma ForcedClosesAreCloses(p: Position, oc: OcFlag, ordered: int, matched: int, withdrawn: int)
    ensures Forced(oc) ==>
              Update(p, oc, ordered, matched, withdrawn) == Update(p, Close, ordered, matched, withdrawn)
    ensures oc.Auto? || oc.OtherFlag? ==> Update(p, oc, ordered, matched, withdrawn) == p
  {
    if Forced(oc) {
      var q := Frozen(p, Close, ordered);
      ForcedSteps(p, oc, ordered);
      ForcedSteps(q, oc, matched);
      ForcedSteps(Filled(q, Close, matched), oc, withdrawn);
    }
  }

  /** Nothing is booked before the positions are known, for other directions, for an order whose flag is not a
      positive number, or for a reply that confirms. */
  lemma NothingToBook(m: Master, codes: MarketTable, bs: BsFlag, o: Order)
    ensures !m.initialised || !(bs.Buy? || bs.Sell?) || o.oc == Auto || o.oc == OtherFlag(false) ==>
              HandleOrderReq(m, codes, bs, o) == m
    ensures !m.initialised || !(bs.Buy? || bs.Sell?) || o.orderNo != "" ==> HandleOrderRep(m, codes, bs, o) == m
  {}

  /** What is frozen for an order of a flag, where one bucket holds it. */
  function FrozenFor(p: Position, oc: OcFlag): int
    requires oc == CloseToday || oc == CloseYesterday || (IsClose(oc) && SplitsClosing(p.market))
  {
    if oc == CloseToday then p.tdClosing else p.ydClosing
  }

  /** A fill of more than is frozen counts as closed and leaves what is frozen; a cancel of more does nothing. */
  lemma BeyondFrozen(p: Position, oc: OcFlag, v: int)
    requires oc == CloseToday || oc == CloseYesterday || (IsClose(oc) && SplitsClosing(p.market))
    requires 0 < v && FrozenFor(p, oc) < v
    ensures Released(p, oc, v) == p
    ensures Filled(p, oc, v) == if oc == CloseToday then p.(tdClose := p.tdClose + v) else p.(ydClose := p.ydClose + v)
  {}

  /** The type of a contract is its first two letters, if more follow. */
  lemma TypesAreTwoLetters(t: string, rest: string)
    requires |t| == 2
    ensures ContractType(t + rest) == if rest == "" then "" else t
    ensures ContractType(t[..1]) == "" && ContractType("") == ""
  {}

  // ---- Sums over the orders ----

  ghost function Total(ledger: seq<Booking>, volume: Booking -> int): int {
    if ledger == [] then 0 else Total(ledger[..|ledger| - 1], volume) + volume(ledger[|ledger| - 1])
  }

  /** What orders to open in a direction have filled. */
  ghost function Opens(code: string, bs: BsFlag): Booking -> int {
    (b: Booking) => if b.code == code && b.bs == bs && b.oc == Open then b.filled else 0
  }

  /** What orders to close in a direction have filled and outstanding. */
  ghost function ClosesAll(code: string, bs: BsFlag): Booking -> int {
    (b: Booking) => if b.code == code && b.bs == bs && Closes(b.oc) then b.filled + b.outstanding else 0
  }

  ghost function ClosesToday(code: string, bs: BsFlag): Booking -> int {
    (b: Booking) => if b.code == code && b.bs == bs && b.oc == CloseToday then b.filled + b.outstanding else 0
  }

  ghost function ClosesYesterday(code: string, bs: BsFlag): Booking -> int {
    (b: Booking) => if b.code == code && b.bs == bs && Closes(b.oc) && b.oc != CloseToday
                    then b.filled + b.outstanding else 0
  }

  /** Only buys and sells were ever booked with a volume. */
  ghost predicate OnlyTrades(ledger: seq<Booking>) {
    forall i | 0 <= i < |ledger| && !Trades(ledger[i].bs) :: ledger[i].outstanding == 0 == ledger[i].filled
  }

  /** Slots of the long side collect openings by buying and closes by selling, those of the short side the
      reverse. */
  lemma {:induction false} SlotsByDirection(ledger: seq<Booking>, s: Slot)
    requires OnlyTrades(ledger)
    ensures var opener, closer := if s.long then Buy else Sell, if s.long then Sell else Buy;
            && Done(ledger, s, Opening) == Total(ledger, Opens(s.code, opener))
            && Pending(ledger, s, Closing) + Done(ledger, s, Closing) == Total(ledger, ClosesAll(s.code, closer))
            && Pending(ledger, s, ClosingToday) + Done(ledger, s, ClosingToday) ==
               Total(ledger, ClosesToday(s.code, closer))
            && Pending(ledger, s, ClosingYesterday) + Done(ledger, s, ClosingYesterday) ==
               Total(ledger, ClosesYesterday(s.code, closer))
  {
    if ledger != [] {
      var n := |ledger| - 1;
      SlotsByDirection(ledger[..n], s);
      assert !Trades(ledger[n].bs) ==> ledger[n].outstanding == 0 == ledger[n].filled;
    }
  }

  lemma StepOnlyTrades(codes: MarketTable, d: Day, e: Event)
    requires Tally(codes, d.m, d.ledger) && Sound(d, codes, e) && OnlyTrades(d.ledger)
    ensures OnlyTrades(Step(d, codes, e).ledger)
  {
    if e.Reply? || e.Report? {
      assert BookingHeld(d.ledger[e.i], d.m, codes);
    }
  }

  lemma StepKeepsInitial(d: Day, codes: MarketTable, e: Event, code: string, long: bool)
    ensures var p, q := Side(PairOf(d.m, codes, code), long), Side(PairOf(Step(d, codes, e).m, codes, code), long);
            q.tdInit == p.tdInit && q.ydInit == p.ydInit
  {
    match e
    case Place(bs, o, chooser) =>
      var m, f := Touch(d.m, codes, o.code), Choose(d.m, codes, bs, o, chooser);
      TouchKeepsInitial(d.m, codes, o.code, code, long);
      if f.Some? {
        ApplyKeepsInitial(m, codes, o.code, bs, f.value, o.volume, 0, 0, code, long);
      }
    case Reply(i, no, v) =>
      if i < |d.ledger| {
        var b := d.ledger[i];
        ApplyKeepsInitial(d.m, codes, b.code, b.bs, b.oc, 0, 0, v, code, long);
      }
    case Report(i, k) =>
      var n := d.m.(knocks := d.m.knocks + {k.matchNo});
      ApplyKeepsInitial(n, codes, k.code, k.bs, k.oc, 0, k.volume, 0, code, long);
      ApplyKeepsInitial(n, codes, k.code, k.bs, k.oc, 0, 0, k.volume, code, long);
      TouchKeepsInitial(n, codes, k.code, code, long);
  }

  lemma TouchKeepsInitial(m: Master, codes: MarketTable, touched: string, code: string, long: bool)
    ensures Side(PairOf(Touch(m, codes, touched), codes, code), long) == Side(PairOf(m, codes, code), long)
  {}

  lemma UpdateKeepsInitial(p: Position, oc: OcFlag, ordered: int, matched: int, withdrawn: int)
    ensures var q := Update(p, oc, ordered, matched, withdrawn); q.tdInit == p.tdInit && q.ydInit == p.ydInit
  {}

  lemma ApplyKeepsInitial(m: Master, codes: MarketTable, moved: string, bs: BsFlag, oc: OcFlag,
                          ordered: int, matched: int, withdrawn: int, code: string, long: bool)
    ensures var n := Apply(m, codes, moved, bs, oc, ordered, matched, withdrawn);
            var p, q := Side(PairOf(m, codes, code), long), Side(PairOf(n, codes, code), long);
            q.tdInit == p.tdInit && q.ydInit == p.ydInit
  {
    UpdateKeepsInitial(Side(PairOf(m, codes, moved), OnLong(bs, oc)), oc, ordered, matched, withdrawn);
  }

  lemma {:induction false} RunKeepsInitial(codes: MarketTable, d: Day, events: seq<Event>, code: string, long: bool)
    requires Tally(codes, d.m, d.ledger) && AllSound(d, codes, events) && OnlyTrades(d.ledger)
    ensures OnlyTrades(Run(d, codes, events).ledger)
    ensures var p := Side(PairOf(d.m, codes, code), long);
            var q := Side(PairOf(Run(d, codes, events).m, codes, code), long);
            q.tdInit == p.tdInit && q.ydInit == p.ydInit
    decreases |events|
  {
    if events != [] {
      StepKeeps(codes, d, events[0]);
      StepOnlyTrades(codes, d, events[0]);
      StepKeepsInitial(d, codes, events[0], code, long);
      RunKeepsInitial(codes, Step(d, codes, events[0]), events[1..], code, long);
    }
  }

  // ---- The report ----

  /** The last line of a report for a contract. */
  function LineFor(items: seq<Holding>, code: string): Holding {
    if items == [] then Holding(code, 0, 0, 0, 0)
    else if items[|items| - 1].code == code then items[|items| - 1]
    else LineFor(items[..|items| - 1], code)
  }

  /** What the report has for a direction that closes: a sell closes what is held long. */
  function Reported(items: seq<Holding>, code: string, closer: BsFlag): (volume: int)
    requires Trades(closer)
  {
    if closer.Sell? then LineFor(items, code).longVolume else LineFor(items, code).shortVolume
  }

  function ReportedYesterday(items: seq<Holding>, code: string, closer: BsFlag): (volume: int)
    requires Trades(closer)
  {
    if closer.Sell? then LineFor(items, code).longPre else LineFor(items, code).shortPre
  }

  lemma {:induction false} InitSplits(m: Master, codes: MarketTable, items: seq<Holding>, last: Holding)
    ensures InitAll(m, codes, items + [last]) == InitOne(InitAll(m, codes, items), codes, last)
    decreases |items|
  {
    if items == [] {
      assert [last][1..] == [];
    } else {
      assert (items + [last])[1..] == items[1..] + [last];
      InitSplits(InitOne(m, codes, items[0]), codes, items[1..], last);
    }
  }

  lemma {:induction false} InitReports(m: Master, codes: MarketTable, items: seq<Holding>, code: string)
    requires code !in m.positions
    ensures var pair, line := PairOf(InitAll(m, codes, items), codes, code), LineFor(items, code);
            && pair.long.ydInit == line.longPre && pair.long.tdInit == line.longVolume - line.longPre
            && pair.short.ydInit == line.shortPre && pair.short.tdInit == line.shortVolume - line.shortPre
  {
    if items != [] {
      var n := |items| - 1;
      InitReports(m, codes, items[..n], code);
      InitSplits(m, codes, items[..n], items[n]);
      assert items == items[..n] + [items[n]];
    }
  }

  // ---- The main results ----

  lemma StartReports(codes: MarketTable, m: Master, limits: Limits, items: seq<Holding>, code: string)
    ensures var pair, line := PairOf(Start(m, codes, limits, items).m, codes, code), LineFor(items, code);
            && pair.long.ydInit == line.longPre && pair.long.tdInit == line.longVolume - line.longPre
            && pair.short.ydInit == line.shortPre && pair.short.tdInit == line.shortVolume - line.shortPre
  {
    InitReports(m.(positions := map[], limits := limits, openCache := WithTypes(m.openCache)), codes, items, code);
  }

  lemma {:induction false} SumsByDay(ledger: seq<Booking>, code: string, bs: BsFlag)
    ensures Total(ledger, ClosesAll(code, bs)) ==
            Total(ledger, ClosesToday(code, bs)) + Total(ledger, ClosesYesterday(code, bs))
  {
    if ledger != [] {
      SumsByDay(ledger[..|ledger| - 1], code, bs);
    }
  }

  /** Over every sound run of a day: what a buy or a sell can close of a contract, of both days together, is what
      the report held on the other side and what was opened there since, less what orders in its own direction
      have closed or are still to close; and day by day where closes name one. */
  lemma ClosableIsHeld(codes: MarketTable, m: Master, limits: Limits, items: seq<Holding>, events: seq<Event>,
                      code: string, closer: BsFlag)
    requires Trades(closer) && forall h | h in items :: HeldVolumes(h)
    requires AllSound(Start(m, codes, limits, items), codes, events)
    ensures var d := Run(Start(m, codes, limits, items), codes, events);
            var p := ClosedBy(d.m, codes, closer, code);
            && p.TodayAvailable() + p.YesterdayAvailable() ==
               Reported(items, code, closer) + Total(d.ledger, Opens(code, Opposite(closer)))
                 - Total(d.ledger, ClosesAll(code, closer))
            && (SplitsClosing(codes(code)) ==>
                  && p.YesterdayAvailable() ==
                     ReportedYesterday(items, code, closer) - Total(d.ledger, ClosesYesterday(code, closer))
                  && p.TodayAvailable() ==
                     Reported(items, code, closer) - ReportedYesterday(items, code, closer)
                       + Total(d.ledger, Opens(code, Opposite(closer))) - Total(d.ledger, ClosesToday(code, closer)))
  {
    var s := Start(m, codes, limits, items);
    var d := Run(s, codes, events);
    var long := closer.Sell?;
    DayTallies(codes, m, limits, items, events);
    DayTallies(codes, m, limits, items, []);
    RunKeepsInitial(codes, s, events, code, long);
    StartReports(codes, m, limits, items, code);
    PairTallies(codes, d.m, d.ledger, code);
    SlotsByDirection(d.ledger, Slot(code, codes(code), long));
    SumsByDay(d.ledger, code, closer);
  }

  /** The chooser that spares today's holding closes exactly what yesterday's covers, and for index futures only
      before an opening was counted; on SHFE and INE it says so in the flag. */
  lemma YesterdayClosesExactly(m: Master, codes: MarketTable, bs: BsFlag, o: Order)
    requires Trades(bs) && MarketOf(codes, o) == ClosedBy(m, codes, bs, o.code).market
    ensures var p, f := ClosedBy(m, codes, bs, o.code), GetCloseYesterdayFlag(m, codes, bs, o);
            && (f.Some? && Closes(f.value) <==>
                  o.volume <= p.YesterdayAvailable() && (p.market.CFFEX? ==> OpenedToday(m, o.code) == 0))
            && (f.Some? && Closes(f.value) ==>
                  f.value == if p.market.SHFE? || p.market.INE? then CloseYesterday else Close)
            && (f.Some? && !Closes(f.value) ==> f.value == Open)
  {}

  /** Which flag the automatic choice closes with: on SHFE and INE one that names the day, yesterday's first;
      elsewhere a plain close. What it does not close it opens. */
  lemma AutoFlagNamesTheDay(m: Master, codes: MarketTable, bs: BsFlag, o: Order)
    requires Trades(bs) && o.oc.Auto? && MarketOf(codes, o) == ClosedBy(m, codes, bs, o.code).market
    ensures var p, f := ClosedBy(m, codes, bs, o.code), GetAutoOcFlag(m, codes, bs, o);
            f.Some? ==>
              f.value == if !Closes(f.value) then Open
                         else if !p.market.SHFE? && !p.market.INE? then Close
                         else if o.volume <= p.YesterdayAvailable() then CloseYesterday
                         else CloseToday
  {}

  /** An order that names its market is judged by it, whatever the table says of its code. */
  lemma OrderNamesItsMarket(m: Master, codes: MarketTable, table: MarketTable, bs: BsFlag, o: Order)
    requires o.code in m.positions && o.market.Some? && table(o.code) == o.market.value
    ensures GetAutoOcFlag(m, codes, bs, o) == GetAutoOcFlag(m, table, bs, o.(market := None))
    ensures GetCloseYesterdayFlag(m, codes, bs, o) == GetCloseYesterdayFlag(m, table, bs, o.(market := None))
  {}
}

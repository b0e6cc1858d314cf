/** The cap on index futures opened in a day: what the count of openings bounds, and what it stops. */
module OpeningCap {
  import opened Options
  import opened Trading
  import opened FuturePositions
  import opened FutureLedger

  // ---- What was opened ----

  /** Contracts of a type that are counted: index futures, not the longer codes of index options. */
  predicate OfType(codes: MarketTable, code: string, t: string) {
    codes(code).CFFEX? && |code| <= CFFEX_OPTION_LENGTH && ContractType(code) == t
  }

  /** Volume opened today or waiting to be, of contracts in a set. */
  ghost function Opened(ledger: seq<Booking>, cs: iset<string>): int {
    if ledger == [] then 0
    else
      var b := ledger[|ledger| - 1];
      Opened(ledger[..|ledger| - 1], cs) + (if b.oc.Open? && b.code in cs then b.outstanding + b.filled else 0)
  }

  /** Volume of today that the report of positions already holds. */
  ghost function HeldToday(items: seq<Holding>, cs: iset<string>): int {
    if items == [] then 0
    else (if items[0].code in cs then LongToday(items[0]) + ShortToday(items[0]) else 0) + HeldToday(items[1..], cs)
  }

  ghost function TypeSet(codes: MarketTable, t: string): iset<string> {
    iset c: string | OfType(codes, c, t)
  }

  function TodayInit(m: Master, codes: MarketTable, code: string): int {
    PairOf(m, codes, code).long.tdInit + PairOf(m, codes, code).short.tdInit
  }

  /** Today's initial, opened and pending volume of both positions of a contract. */
  function Exposure(d: Day, codes: MarketTable, code: string): int {
    var pair := PairOf(d.m, codes, code);
    TodayInit(d.m, codes, code) + pair.long.tdOpen + pair.short.tdOpen
       + Pending(d.ledger, Slot(code, codes(code), true), Opening)
       + Pending(d.ledger, Slot(code, codes(code), false), Opening)
  }

  function ExposureOver(d: Day, codes: MarketTable, cs: seq<string>): int {
    if cs == [] then 0 else Exposure(d, codes, cs[0]) + ExposureOver(d, codes, cs[1..])
  }

  // ---- Sums ----

  lemma OpenedPush(ledger: seq<Booking>, b: Booking, cs: iset<string>)
    ensures Opened(ledger + [b], cs) ==
            Opened(ledger, cs) + (if b.oc.Open? && b.code in cs then b.outstanding + b.filled else 0)
  {
    assert (ledger + [b])[..|ledger|] == ledger;
  }

  lemma {:induction false} OpenedChange(ledger: seq<Booking>, i: nat, b: Booking, cs: iset<string>)
    requires i < |ledger| && b.code == ledger[i].code && b.oc == ledger[i].oc
    requires b.outstanding + b.filled <= ledger[i].outstanding + ledger[i].filled
    ensures Opened(ledger[i := b], cs) <= Opened(ledger, cs)
  {
    var n := |ledger| - 1;
    if i < n {
      OpenedChange(ledger[..n], i, b, cs);
      assert ledger[i := b][..n] == ledger[..n][i := b];
    } else {
      assert ledger[i := b][..n] == ledger[..n];
    }
  }

  lemma {:induction false} OpenedSplits(ledger: seq<Booking>, c: string, cs: iset<string>)
    requires c !in cs
    ensures Opened(ledger, iset{c} + cs) == Opened(ledger, iset{c}) + Opened(ledger, cs)
  {
    if ledger != [] {
      OpenedSplits(ledger[..|ledger| - 1], c, cs);
    }
  }

  lemma {:induction false} OpenedGrows(ledger: seq<Booking>, a: iset<string>, b: iset<string>)
    requires a <= b && forall i | 0 <= i < |ledger| :: ledger[i].outstanding >= 0 && ledger[i].filled >= 0
    ensures Opened(ledger, a) <= Opened(ledger, b)
  {
    if ledger != [] {
      OpenedGrows(ledger[..|ledger| - 1], a, b);
    }
  }

  lemma {:induction false} OpenedOfOne(ledger: seq<Booking>, code: string, market: Market)
    ensures var l, r := Slot(code, market, true), Slot(code, market, false);
            Opened(ledger, iset{code}) ==
            Pending(ledger, l, Opening) + Done(ledger, l, Opening) +
            Pending(ledger, r, Opening) + Done(ledger, r, Opening)
  {
    if ledger != [] {
      OpenedOfOne(ledger[..|ledger| - 1], code, market);
    }
  }

  lemma {:induction false} HeldSplits(items: seq<Holding>, c: string, cs: iset<string>)
    requires c !in cs
    ensures HeldToday(items, iset{c} + cs) == HeldToday(items, iset{c}) + HeldToday(items, cs)
  {
    if items != [] {
      HeldSplits(items[1..], c, cs);
    }
  }

  lemma {:induction false} HeldGrows(items: seq<Holding>, a: iset<string>, b: iset<string>)
    requires a <= b && forall h | h in items :: HeldVolumes(h)
    ensures HeldToday(items, a) <= HeldToday(items, b)
  {
    if items != [] {
      assert HeldVolumes(items[0]);
      HeldGrows(items[1..], a, b);
    }
  }

  lemma {:induction false} HeldOfNone(items: seq<Holding>, c: string)
    requires forall h | h in items :: h.code != c
    ensures HeldToday(items, iset{c}) == 0
  {
    if items != [] {
      HeldOfNone(items[1..], c);
    }
  }

  // ---- The start of a day ----

  ghost predicate WellKeyed(m: Master, codes: MarketTable) {
    forall c | c in m.positions ::
      && m.positions[c].long.code == m.positions[c].short.code == c
      && m.positions[c].long.market == m.positions[c].short.market == codes(c)
  }

  ghost function CountedAtStart(codes: MarketTable, t: string): iset<string> {
    iset c: string | codes(c).CFFEX? && ContractType(c) == t
  }

  lemma {:induction false} StartCounts(m: Master, codes: MarketTable, items: seq<Holding>, t: string)
    requires WellKeyed(m, codes) && t in m.openCache
    ensures var n := InitAll(m, codes, items);
            && WellKeyed(n, codes) && n.limits == m.limits && t in n.openCache
            && n.openCache[t] == m.openCache[t] + HeldToday(items, CountedAtStart(codes, t))
    decreases |items|
  {
    if items != [] {
      StartCounts(InitOne(m, codes, items[0]), codes, items[1..], t);
    }
  }

  predicate DistinctCodes(items: seq<Holding>) {
    forall i, j | 0 <= i < j < |items| :: items[i].code != items[j].code
  }

  lemma {:induction false} StartInits(m: Master, codes: MarketTable, items: seq<Holding>, c: string)
    requires DistinctCodes(items)
    requires forall h | h in items :: TodayInit(m, codes, h.code) == 0
    ensures TodayInit(InitAll(m, codes, items), codes, c) == TodayInit(m, codes, c) + HeldToday(items, iset{c})
    decreases |items|
  {
    if items != [] {
      var n := InitOne(m, codes, items[0]);
      forall h | h in items[1..] ensures TodayInit(n, codes, h.code) == 0 {
        assert h in items && h.code != items[0].code;
      }
      StartInits(n, codes, items[1..], c);
      if c == items[0].code {
        assert forall h | h in items[1..] :: h.code != c;
        HeldOfNone(items[1..], c);
      }
    }
  }

  // ---- The steps ----

  ghost predicate Counting(m: Master, codes: MarketTable, t: string) {
    m.initialised && WellKeyed(m, codes) && t in m.openCache
  }

  lemma CacheCounts(cache: map<string, int>, limits: Limits, p: Position, oc: OcFlag, ordered: int,
                    withdrawn: int, t: string)
    requires t in cache && (withdrawn > 0 ==> ordered == 0)
    ensures var after := CacheAfter(cache, limits, p, oc, ordered, withdrawn);
            && t in after
            && after[t] - cache[t] ==
               (if oc.Open? && limits.forbidClosingToday && p.market.CFFEX? && |p.code| <= CFFEX_OPTION_LENGTH
                   && ContractType(p.code) == t then Positive(ordered) else 0)
  {}

  lemma UpdateKeepsName(p: Position, oc: OcFlag, ordered: int, matched: int, withdrawn: int)
    ensures var q := Update(p, oc, ordered, matched, withdrawn);
            q.code == p.code && q.market == p.market && q.tdInit == p.tdInit
  {}

  lemma WithSideKeyed(m: Master, codes: MarketTable, code: string, long: bool, q: Position)
    requires WellKeyed(m, codes) && q.code == code && q.market == codes(code)
    ensures WellKeyed(m.(positions := m.positions[code := WithSide(PairOf(m, codes, code), long, q)]), codes)
  {}

  lemma ApplyCounts(m: Master, codes: MarketTable, code: string, bs: BsFlag, oc: OcFlag,
                    ordered: int, matched: int, withdrawn: int, t: string)
    requires Counting(m, codes, t) && (withdrawn > 0 ==> ordered == 0)
    ensures var n := Apply(m, codes, code, bs, oc, ordered, matched, withdrawn);
            && Counting(n, codes, t) && n.limits == m.limits
            && n.openCache[t] - m.openCache[t] ==
               (if oc.Open? && m.limits.forbidClosingToday && OfType(codes, code, t) then Positive(ordered) else 0)
  {
    var long := OnLong(bs, oc);
    var p := Side(PairOf(m, codes, code), long);
    UpdateKeepsName(p, oc, ordered, matched, withdrawn);
    WithSideKeyed(m, codes, code, long, Update(p, oc, ordered, matched, withdrawn));
    CacheCounts(m.openCache, m.limits, p, oc, ordered, withdrawn, t);
  }

  lemma ApplyKeepsInits(m: Master, codes: MarketTable, code: string, bs: BsFlag, oc: OcFlag,
                        ordered: int, matched: int, withdrawn: int, c: string)
    ensures TodayInit(Apply(m, codes, code, bs, oc, ordered, matched, withdrawn), codes, c) == TodayInit(m, codes, c)
  {
    UpdateKeepsName(Side(PairOf(m, codes, code), OnLong(bs, oc)), oc, ordered, matched, withdrawn);
  }

  lemma StepKeepsInits(d: Day, codes: MarketTable, e: Event, c: string)
    ensures TodayInit(Step(d, codes, e).m, codes, c) == TodayInit(d.m, codes, c)
  {
    match e
    case Place(bs, o, chooser) =>
      var m, f := Touch(d.m, codes, o.code), Choose(d.m, codes, bs, o, chooser);
      assert TodayInit(m, codes, c) == TodayInit(d.m, codes, c);
      if f.Some? {
        ApplyKeepsInits(m, codes, o.code, bs, f.value, o.volume, 0, 0, c);
      }
    case Reply(i, no, v) =>
      if i < |d.ledger| {
        var b := d.ledger[i];
        ApplyKeepsInits(d.m, codes, b.code, b.bs, b.oc, 0, 0, v, c);
      }
    case Report(i, k) =>
      var n := d.m.(knocks := d.m.knocks + {k.matchNo});
      ApplyKeepsInits(n, codes, k.code, k.bs, k.oc, 0, k.volume, 0, c);
      ApplyKeepsInits(n, codes, k.code, k.bs, k.oc, 0, 0, k.volume, c);
  }

  /** The count grows by at least what the step opens, and by no more than the cap allows. */
  ghost predicate CountMoves(d: Day, e: Day, codes: MarketTable, t: string) {
    && Counting(e.m, codes, t) && e.m.limits == d.m.limits
    && t in d.m.openCache && d.m.openCache[t] <= e.m.openCache[t]
    && (d.m.limits.maxTodayOpening >= 0 ==>
          e.m.openCache[t] <= d.m.openCache[t] || e.m.openCache[t] <= d.m.limits.maxTodayOpening)
    && (d.m.limits.forbidClosingToday ==>
          Opened(e.ledger, TypeSet(codes, t)) - Opened(d.ledger, TypeSet(codes, t)) <=
          e.m.openCache[t] - d.m.openCache[t])
    && (!d.m.limits.forbidClosingToday ==> e.m.openCache[t] == d.m.openCache[t])
  }

  /** An order that is booked to open an index future is within the cap. */
  lemma OpeningIsUnderCap(d: Day, codes: MarketTable, bs: BsFlag, o: Order, c: Chooser, t: string)
    requires Counting(d.m, codes, t) && MarketOf(codes, o) == codes(o.code) && OfType(codes, o.code, t)
    requires Choose(d.m, codes, bs, o, c) == Some(Open) && d.m.limits.maxTodayOpening >= 0
    ensures o.volume + d.m.openCache[t] <= d.m.limits.maxTodayOpening
  {}

  lemma BookCounts(m: Master, ledger: seq<Booking>, codes: MarketTable, bs: BsFlag, o: Order, t: string)
    requires Counting(m, codes, t)
    requires m.limits.maxTodayOpening >= 0 && o.oc.Open? && OfType(codes, o.code, t) ==>
               o.volume + m.openCache[t] <= m.limits.maxTodayOpening
    ensures CountMoves(Day(m, ledger),
                       Day(HandleOrderReq(m, codes, bs, o), ledger + [NewBooking(m, bs, o, o.oc)]), codes, t)
  {
    OpenedPush(ledger, NewBooking(m, bs, o, o.oc), TypeSet(codes, t));
    if Trades(bs) && AboveZero(o.oc) {
      ApplyCounts(m, codes, o.code, bs, o.oc, o.volume, 0, 0, t);
    }
  }

  lemma TouchCounts(m: Master, codes: MarketTable, code: string, t: string)
    requires Counting(m, codes, t)
    ensures var n := Touch(m, codes, code);
            Counting(n, codes, t) && n.openCache == m.openCache && n.limits == m.limits
  {}

  lemma PlaceCounts(d: Day, codes: MarketTable, bs: BsFlag, o: Order, c: Chooser, t: string)
    requires Counting(d.m, codes, t) && MarketOf(codes, o) == codes(o.code)
    ensures CountMoves(d, PlaceOrder(d, codes, bs, o, c), codes, t)
  {
    var m := Touch(d.m, codes, o.code);
    var f := Choose(d.m, codes, bs, o, c);
    TouchCounts(d.m, codes, o.code, t);
    if f.Some? {
      if f.value.Open? && m.limits.maxTodayOpening >= 0 && OfType(codes, o.code, t) {
        OpeningIsUnderCap(d, codes, bs, o, c, t);
      }
      BookCounts(m, d.ledger, codes, bs, o.(oc := f.value), t);
    }
  }

  lemma ReplyCounts(d: Day, codes: MarketTable, i: nat, no: string, v: int, t: string)
    requires Counting(d.m, codes, t)
    ensures CountMoves(d, Step(d, codes, Reply(i, no, v)), codes, t)
  {
    if i < |d.ledger| {
      var b := d.ledger[i];
      OpenedChange(d.ledger, i, AfterReply(b, no, v), TypeSet(codes, t));
      if no == "" && Trades(b.bs) {
        ApplyCounts(d.m, codes, b.code, b.bs, b.oc, 0, 0, v, t);
      }
    }
  }

  lemma KnockCounts(d: Day, codes: MarketTable, i: nat, k: Knock, t: string)
    requires Counting(d.m, codes, t)
    ensures CountMoves(d, Step(d, codes, Report(i, k)), codes, t)
  {
    if i < |d.ledger| && Counts(d.m, k) {
      var n := d.m.(knocks := d.m.knocks + {k.matchNo});
      OpenedChange(d.ledger, i, AfterKnock(d.ledger[i], k), TypeSet(codes, t));
      match k.matchType {
        case MatchOK => ApplyCounts(n, codes, k.code, k.bs, k.oc, 0, k.volume, 0, t);
        case OtherMatch =>
        case _ => ApplyCounts(n, codes, k.code, k.bs, k.oc, 0, 0, k.volume, t);
      }
    }
  }

  lemma StepCounts(d: Day, codes: MarketTable, e: Event, t: string)
    requires Counting(d.m, codes, t)
    requires e.Place? ==> MarketOf(codes, e.order) == codes(e.order.code)
    ensures CountMoves(d, Step(d, codes, e), codes, t)
  {
    match e
    case Place(bs, o, c) => PlaceCounts(d, codes, bs, o, c, t);
    case Reply(i, no, v) => ReplyCounts(d, codes, i, no, v, t);
    case Report(i, k) => KnockCounts(d, codes, i, k, t);
  }

  lemma {:induction false} RunCounts(d: Day, codes: MarketTable, events: seq<Event>, t: string)
    requires Counting(d.m, codes, t) && AllSound(d, codes, events)
    ensures CountMoves(d, Run(d, codes, events), codes, t)
    ensures forall c :: TodayInit(Run(d, codes, events).m, codes, c) == TodayInit(d.m, codes, c)
    decreases |events|
  {
    if events != [] {
      var e := Step(d, codes, events[0]);
      StepCounts(d, codes, events[0], t);
      RunCounts(e, codes, events[1..], t);
      forall c ensures TodayInit(e.m, codes, c) == TodayInit(d.m, codes, c) {
        StepKeepsInits(d, codes, events[0], c);
      }
    }
  }

  // ---- The main results ----

  ghost function CodeSet(cs: seq<string>): iset<string> {
    iset c | c in cs
  }

  predicate NoRepeats(cs: seq<string>) {
    forall i, j | 0 <= i < j < |cs| :: cs[i] != cs[j]
  }

  /** The exposure of contracts is what they held at the start and what the ledger says was opened. */
  lemma {:induction false} ExposureIsHeldAndOpened(d: Day, codes: MarketTable, items: seq<Holding>, cs: seq<string>)
    requires NoRepeats(cs) && Tally(codes, d.m, d.ledger)
    requires forall c :: TodayInit(d.m, codes, c) == HeldToday(items, iset{c})
    ensures ExposureOver(d, codes, cs) == HeldToday(items, CodeSet(cs)) + Opened(d.ledger, CodeSet(cs))
  {
    if cs == [] {
      HeldInNone(items);
      OpenedInNone(d.ledger);
      assert CodeSet(cs) == iset{};
    } else {
      var c, rest := cs[0], cs[1..];
      ExposureIsHeldAndOpened(d, codes, items, rest);
      PairTallies(codes, d.m, d.ledger, c);
      OpenedOfOne(d.ledger, c, codes(c));
      assert c !in CodeSet(rest);
      HeldSplits(items, c, CodeSet(rest));
      OpenedSplits(d.ledger, c, CodeSet(rest));
      assert CodeSet(cs) == iset{c} + CodeSet(rest);
    }
  }

  lemma {:induction false} HeldInNone(items: seq<Holding>)
    ensures HeldToday(items, iset{}) == 0
  {
    if items != [] {
      HeldInNone(items[1..]);
    }
  }

  lemma {:induction false} OpenedInNone(ledger: seq<Booking>)
    ensures Opened(ledger, iset{}) == 0
  {
    if ledger != [] {
      OpenedInNone(ledger[..|ledger| - 1]);
    }
  }

  predicate CappedType(t: string) {
    t == "IF" || t == "IH" || t == "IC" || t == "IM"
  }

  lemma DayStarts(codes: MarketTable, m: Master, limits: Limits, items: seq<Holding>, t: string)
    requires CappedType(t)
    ensures var n := InitPositions(m, codes, limits, items);
            && Counting(n, codes, t) && n.limits == limits
            && n.openCache[t] == (if t in m.openCache then m.openCache[t] else 0)
                                 + HeldToday(items, CountedAtStart(codes, t))
  {
    StartCounts(m.(positions := map[], limits := limits, openCache := WithTypes(m.openCache)), codes, items, t);
  }

  /** With closing today's holdings forbidden, the count of a type bounds today's initial, opened and
      pending volume over any of its contracts and both sides. */
  lemma CountBoundsExposure(codes: MarketTable, m: Master, limits: Limits, items: seq<Holding>, events: seq<Event>,
                            t: string, cs: seq<string>)
    requires limits.forbidClosingToday && CappedType(t)
    requires t in m.openCache ==> m.openCache[t] >= 0
    requires DistinctCodes(items) && forall h | h in items :: HeldVolumes(h)
    requires AllSound(Start(m, codes, limits, items), codes, events)
    requires NoRepeats(cs) && forall c | c in cs :: OfType(codes, c, t)
    ensures var d := Run(Start(m, codes, limits, items), codes, events);
            t in d.m.openCache && ExposureOver(d, codes, cs) <= d.m.openCache[t]
  {
    var s := Start(m, codes, limits, items);
    var d := Run(s, codes, events);
    DayStarts(codes, m, limits, items, t);
    RunCounts(s, codes, events, t);
    DayTallies(codes, m, limits, items, events);
    forall c ensures TodayInit(d.m, codes, c) == HeldToday(items, iset{c}) {
      StartInits(m.(positions := map[], limits := limits, openCache := WithTypes(m.openCache)), codes, items, c);
    }
    ExposureIsHeldAndOpened(d, codes, items, cs);
    HeldGrows(items, CodeSet(cs), CountedAtStart(codes, t));
    forall i | 0 <= i < |d.ledger| ensures d.ledger[i].outstanding >= 0 && d.ledger[i].filled >= 0 {
      assert BookingHeld(d.ledger[i], d.m, codes);
    }
    OpenedGrows(d.ledger, CodeSet(cs), TypeSet(codes, t));
  }

  /** The count never passes the cap, except by what it started from. */
  lemma CountStaysUnderCap(codes: MarketTable, m: Master, limits: Limits, items: seq<Holding>, events: seq<Event>,
                           t: string)
    requires limits.maxTodayOpening >= 0 && CappedType(t)
    requires AllSound(Start(m, codes, limits, items), codes, events)
    ensures var s := Start(m, codes, limits, items);
            var d := Run(s, codes, events);
            && t in s.m.openCache && t in d.m.openCache
            && (d.m.openCache[t] <= limits.maxTodayOpening || d.m.openCache[t] <= s.m.openCache[t])
  {
    DayStarts(codes, m, limits, items, t);
    RunCounts(Start(m, codes, limits, items), codes, events, t);
  }

  /** Without that prohibition nothing is counted: the cap is then one on each order alone. */
  lemma CapIsPerOrderUnlessForbidden(codes: MarketTable, m: Master, limits: Limits, items: seq<Holding>,
                                     events: seq<Event>, bs: BsFlag, o: Order, c: Chooser)
    requires !limits.forbidClosingToday && limits.maxTodayOpening >= 0
    requires CappedType(ContractType(o.code)) && MarketOf(codes, o).CFFEX?
    requires AllSound(Start(m, codes, limits, items), codes, events)
    ensures var s, d := Start(m, codes, limits, items), Run(Start(m, codes, limits, items), codes, events);
            Choose(d.m, codes, bs, o, c) == Some(Open) ==>
              o.volume + OpenedToday(s.m, o.code) <= limits.maxTodayOpening
    ensures var s, d := Start(m, codes, limits, items), Run(Start(m, codes, limits, items), codes, events);
            Choose(d.m, codes, bs, o, c) == None ==>
              o.volume + OpenedToday(s.m, o.code) > limits.maxTodayOpening
  {
    DayStarts(codes, m, limits, items, ContractType(o.code));
    RunCounts(Start(m, codes, limits, items), codes, events, ContractType(o.code));
  }

  predicate OpensOnly(b: Booking, codes: MarketTable, t: string) {
    codes(b.code).CFFEX? && ContractType(b.code) == t ==> b.oc.Open?
  }

  lemma StepOpensOnly(d: Day, codes: MarketTable, e: Event, t: string)
    requires Counting(d.m, codes, t) && d.m.openCache[t] > 0 && Sound(d, codes, e)
    ensures var f := Step(d, codes, e);
            && |d.ledger| <= |f.ledger|
            && (forall j | 0 <= j < |d.ledger| ::
                  f.ledger[j].code == d.ledger[j].code && f.ledger[j].oc == d.ledger[j].oc)
            && (forall j | |d.ledger| <= j < |f.ledger| :: OpensOnly(f.ledger[j], codes, t))
  {}

  /** Once a type has an opening counted, no later order on its contracts is flagged as a close. */
  lemma {:induction false} OnceOpenedNeverClosed(d: Day, codes: MarketTable, events: seq<Event>, t: string, j: nat)
    requires Counting(d.m, codes, t) && d.m.openCache[t] > 0 && AllSound(d, codes, events)
    ensures |d.ledger| <= |Run(d, codes, events).ledger|
    ensures j < |d.ledger| ==> Run(d, codes, events).ledger[j].code == d.ledger[j].code
                               && Run(d, codes, events).ledger[j].oc == d.ledger[j].oc
    ensures |d.ledger| <= j < |Run(d, codes, events).ledger| ==> OpensOnly(Run(d, codes, events).ledger[j], codes, t)
    decreases |events|
  {
    if events != [] {
      StepOpensOnly(d, codes, events[0], t);
      StepCounts(d, codes, events[0], t);
      OnceOpenedNeverClosed(Step(d, codes, events[0]), codes, events[1..], t, j);
    }
  }

  // ---- When the cap bounds a day ----

  /** Nothing was opened on some contracts. */
  ghost predicate NoneOpened(ledger: seq<Booking>, cs: iset<string>) {
    forall i | 0 <= i < |ledger| && ledger[i].code in cs && ledger[i].oc.Open? ::
      ledger[i].outstanding == 0 == ledger[i].filled
  }

  lemma StepOpensNone(d: Day, codes: MarketTable, e: Event, t: string)
    requires Counting(d.m, codes, t) && 0 <= d.m.limits.maxTodayOpening <= d.m.openCache[t]
    requires NoneOpened(d.ledger, TypeSet(codes, t)) && Sound(d, codes, e)
    ensures NoneOpened(Step(d, codes, e).ledger, TypeSet(codes, t))
  {}

  lemma {:induction false} RunOpensNone(d: Day, codes: MarketTable, events: seq<Event>, t: string)
    requires Counting(d.m, codes, t) && 0 <= d.m.limits.maxTodayOpening <= d.m.openCache[t]
    requires NoneOpened(d.ledger, TypeSet(codes, t)) && AllSound(d, codes, events)
    ensures NoneOpened(Run(d, codes, events).ledger, TypeSet(codes, t))
    decreases |events|
  {
    if events != [] {
      StepOpensNone(d, codes, events[0], t);
      StepCounts(d, codes, events[0], t);
      RunOpensNone(Step(d, codes, events[0]), codes, events[1..], t);
    }
  }

  lemma {:induction false} NoneOpenedIsNothing(ledger: seq<Booking>, cs: iset<string>)
    requires NoneOpened(ledger, cs)
    ensures Opened(ledger, cs) == 0
  {
    if ledger != [] {
      NoneOpenedIsNothing(ledger[..|ledger| - 1], cs);
    }
  }

  /** The report a day starts from: volumes that make sense, each contract once. */
  predicate ProperReport(items: seq<Holding>) {
    DistinctCodes(items) && forall h | h in items :: HeldVolumes(h)
  }

  predicate Contracts(codes: MarketTable, cs: seq<string>, t: string) {
    NoRepeats(cs) && forall c | c in cs :: OfType(codes, c, t)
  }

  /** What a run adds to the exposure is what it opens. */
  lemma AddedIsOpened(codes: MarketTable, m: Master, limits: Limits, items: seq<Holding>, events: seq<Event>,
                      t: string, cs: seq<string>)
    requires ProperReport(items) && CappedType(t) && Contracts(codes, cs, t)
    requires AllSound(Start(m, codes, limits, items), codes, events)
    ensures var s := Start(m, codes, limits, items);
            var d := Run(s, codes, events);
            ExposureOver(d, codes, cs) - ExposureOver(s, codes, cs) == Opened(d.ledger, CodeSet(cs))
  {
    var s := Start(m, codes, limits, items);
    var d := Run(s, codes, events);
    DayStarts(codes, m, limits, items, t);
    RunCounts(s, codes, events, t);
    DayTallies(codes, m, limits, items, events);
    DayTallies(codes, m, limits, items, []);
    forall c ensures TodayInit(s.m, codes, c) == HeldToday(items, iset{c}) {
      StartInits(m.(positions := map[], limits := limits, openCache := WithTypes(m.openCache)), codes, items, c);
    }
    ExposureIsHeldAndOpened(d, codes, items, cs);
    ExposureIsHeldAndOpened(s, codes, items, cs);
  }

  /** What the cap leaves at the start of a day. */
  function RoomAtStart(s: Day, t: string): int
    requires t in s.m.openCache
  {
    Positive(s.m.limits.maxTodayOpening - s.m.openCache[t])
  }

  lemma CapHolds(codes: MarketTable, m: Master, limits: Limits, items: seq<Holding>, events: seq<Event>,
                 t: string, cs: seq<string>)
    requires limits.maxTodayOpening >= 0 && ProperReport(items) && CappedType(t) && Contracts(codes, cs, t)
    requires AllSound(Start(m, codes, limits, items), codes, events)
    ensures var s := Start(m, codes, limits, items);
            && t in s.m.openCache
            && (limits.forbidClosingToday || s.m.openCache[t] >= limits.maxTodayOpening ==>
                  Opened(Run(s, codes, events).ledger, CodeSet(cs)) <= RoomAtStart(s, t))
  {
    var s := Start(m, codes, limits, items);
    var d := Run(s, codes, events);
    DayStarts(codes, m, limits, items, t);
    DayTallies(codes, m, limits, items, events);
    forall i | 0 <= i < |d.ledger| ensures d.ledger[i].outstanding >= 0 && d.ledger[i].filled >= 0 {
      assert BookingHeld(d.ledger[i], d.m, codes);
    }
    OpenedGrows(d.ledger, CodeSet(cs), TypeSet(codes, t));
    if limits.forbidClosingToday {
      RunCounts(s, codes, events, t);
      CountStaysUnderCap(codes, m, limits, items, events, t);
    } else if s.m.openCache[t] >= limits.maxTodayOpening {
      RunOpensNone(s, codes, events, t);
      NoneOpenedIsNothing(d.ledger, TypeSet(codes, t));
    }
  }

  /** An order to open as much as the cap allows. */
  function FullOrder(volume: int, code: string): Event {
    Place(Buy, Order(code, None, volume, "", Open), ByAutoFlag)
  }

  lemma OpensFully(d: Day, codes: MarketTable, code: string, t: string)
    requires Counting(d.m, codes, t) && OfType(codes, code, t)
    requires d.m.limits.maxTodayOpening > d.m.openCache[t] && !d.m.limits.forbidClosingToday
    ensures var room := d.m.limits.maxTodayOpening - d.m.openCache[t];
            var e := FullOrder(room, code);
            && Sound(d, codes, e)
            && Step(d, codes, e).ledger == d.ledger + [Booking(code, Buy, Open, room, 0)]
  {}

  /** Without the prohibition two orders, each as large as what the cap leaves, are both opened. */
  lemma TwoFullOrdersPass(codes: MarketTable, m: Master, limits: Limits, items: seq<Holding>, t: string, code: string)
    requires CappedType(t) && OfType(codes, code, t) && !limits.forbidClosingToday
    ensures var s := Start(m, codes, limits, items);
            && t in s.m.openCache
            && (limits.maxTodayOpening > s.m.openCache[t] ==>
                  var e := FullOrder(RoomAtStart(s, t), code);
                  && AllSound(s, codes, [e, e])
                  && forall cs: iset<string> | code in cs ::
                       Opened(Run(s, codes, [e, e]).ledger, cs) == 2 * RoomAtStart(s, t))
  {
    var s := Start(m, codes, limits, items);
    DayStarts(codes, m, limits, items, t);
    if limits.maxTodayOpening > s.m.openCache[t] {
      var room := RoomAtStart(s, t);
      var e, b := FullOrder(room, code), Booking(code, Buy, Open, room, 0);
      OpensFully(s, codes, code, t);
      var u := Step(s, codes, e);
      StepCounts(s, codes, e, t);
      OpensFully(u, codes, code, t);
      var v := Step(u, codes, e);
      assert [e, e][1..] == [e] && [e][1..] == [];
      assert AllSound(v, codes, []) && AllSound(u, codes, [e]) && AllSound(s, codes, [e, e]);
      assert Run(v, codes, []) == v && Run(u, codes, [e]) == v && Run(s, codes, [e, e]) == v;
      assert s.ledger == [] && v.ledger == [] + [b] + [b];
      forall cs: iset<string> | code in cs ensures Opened(v.ledger, cs) == 2 * room {
        OpenedPush([], b, cs);
        OpenedPush([] + [b], b, cs);
      }
    }
  }

  /** From any start of a day and over any of the contracts of a type, every run adds no more to the exposure
      than the cap leaves, exactly when closing today is forbidden or the cap leaves nothing. */
  lemma CapHoldsExactly(codes: MarketTable, m: Master, limits: Limits, items: seq<Holding>, t: string,
                        cs: seq<string>)
    requires limits.maxTodayOpening >= 0 && ProperReport(items) && CappedType(t)
    requires Contracts(codes, cs, t) && cs != []
    ensures var s := Start(m, codes, limits, items);
            && t in s.m.openCache
            && ((forall events | AllSound(s, codes, events) ::
                   ExposureOver(Run(s, codes, events), codes, cs) - ExposureOver(s, codes, cs)
                     <= RoomAtStart(s, t)) <==>
                limits.forbidClosingToday || s.m.openCache[t] >= limits.maxTodayOpening)
  {
    var s := Start(m, codes, limits, items);
    DayStarts(codes, m, limits, items, t);
    if limits.forbidClosingToday || s.m.openCache[t] >= limits.maxTodayOpening {
      forall events | AllSound(s, codes, events)
        ensures ExposureOver(Run(s, codes, events), codes, cs) - ExposureOver(s, codes, cs) <= RoomAtStart(s, t)
      {
        CapHolds(codes, m, limits, items, events, t, cs);
        AddedIsOpened(codes, m, limits, items, events, t, cs);
      }
    } else {
      var e := FullOrder(RoomAtStart(s, t), cs[0]);
      TwoFullOrdersPass(codes, m, limits, items, t, cs[0]);
      AddedIsOpened(codes, m, limits, items, [e, e], t, cs);
      assert cs[0] in CodeSet(cs);
    }
  }
}

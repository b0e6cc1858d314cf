/** Over a day of futures trading, what positions hold frozen and filled is what the orders have
    outstanding and filled. */
module FutureLedger {
  import opened Options
  import opened Trading
  import opened FuturePositions

  /** An order as the exchange sees it: what is still outstanding and what was filled. */
  datatype Booking = Booking(code: string, bs: BsFlag, oc: OcFlag, outstanding: int, filled: int)

  datatype Day = Day(m: Master, ledger: seq<Booking>)

  datatype Chooser = ByAutoFlag | ByYesterdayFlag

  datatype Event =
    | Place(bs: BsFlag, order: Order, chooser: Chooser)
    | Reply(i: nat, orderNo: string, volume: int)
    | Report(i: nat, knock: Knock)

  datatype Kind = Opening | ClosingToday | ClosingYesterday | Closing

  // ---- A day ----

  function Choose(m: Master, codes: MarketTable, bs: BsFlag, o: Order, c: Chooser): Option<OcFlag> {
    if c.ByAutoFlag? then GetAutoOcFlag(m, codes, bs, o) else GetCloseYesterdayFlag(m, codes, bs, o)
  }

  function NewBooking(m: Master, bs: BsFlag, o: Order, oc: OcFlag): Booking {
    Booking(o.code, bs, oc, if Trades(bs) && AboveZero(oc) && m.initialised then Positive(o.volume) else 0, 0)
  }

  /** An order gets its flag and is booked, unless the opening cap refuses it. */
  function PlaceOrder(d: Day, codes: MarketTable, bs: BsFlag, o: Order, c: Chooser): Day {
    var m := Touch(d.m, codes, o.code);
    match Choose(d.m, codes, bs, o, c)
    case None => Day(m, d.ledger)
    case Some(oc) =>
      Day(HandleOrderReq(m, codes, bs, o.(oc := oc)), d.ledger + [NewBooking(m, bs, o, oc)])
  }

  function AfterReply(b: Booking, orderNo: string, volume: int): Booking {
    if orderNo != "" then b else b.(outstanding := b.outstanding - Positive(volume))
  }

  function AfterKnock(b: Booking, k: Knock): Booking {
    match k.matchType
    case MatchOK => b.(outstanding := b.outstanding - k.volume, filled := b.filled + k.volume)
    case OtherMatch => b
    case _ => b.(outstanding := b.outstanding - k.volume)
  }

  function Step(d: Day, codes: MarketTable, e: Event): Day {
    match e
    case Place(bs, o, c) => PlaceOrder(d, codes, bs, o, c)
    case Reply(i, no, v) =>
      if i >= |d.ledger| then d
      else
        var b := d.ledger[i];
        Day(HandleOrderRep(d.m, codes, b.bs, Order(b.code, None, v, no, b.oc)),
            d.ledger[i := AfterReply(b, no, v)])
    case Report(i, k) =>
      if i >= |d.ledger| then d
      else
        Day(HandleKnock(d.m, codes, k),
            if Counts(d.m, k) then d.ledger[i := AfterKnock(d.ledger[i], k)] else d.ledger)
  }

  function Run(d: Day, codes: MarketTable, events: seq<Event>): Day
    decreases |events|
  {
    if events == [] then d else Run(Step(d, codes, events[0]), codes, events[1..])
  }

  // ---- What the exchange and the clients keep ----

  /** The holding an order of this flag closes: of the day it names, of yesterday where a close means that,
      and of both days elsewhere. */
  function Available(p: Position, oc: OcFlag): int {
    if oc.CloseToday? then p.TodayAvailable()
    else if oc.CloseYesterday? || SplitsClosing(p.market) then p.YesterdayAvailable()
    else p.TodayAvailable() + p.YesterdayAvailable()
  }

  predicate Closes(oc: OcFlag) {
    IsClose(oc) || oc.CloseToday? || oc.CloseYesterday?
  }

  /** An order that names a day where closing does not. Its frozen volume shares the two buckets with
      closes that take from today's first. */
  predicate NamesDay(m: Market, oc: OcFlag) {
    !SplitsClosing(m) && (oc.CloseToday? || oc.CloseYesterday?)
  }

  /** The guard before a volume is taken off the bucket of the day an order names. */
  predicate InBucket(p: Position, oc: OcFlag, v: int) {
    && (oc.CloseToday? ==> v <= p.tdClosing)
    && (oc.CloseYesterday? ==> v <= p.ydClosing)
  }

  /** The position an order works on. */
  function PositionOf(m: Master, codes: MarketTable, b: Booking): Position {
    Side(PairOf(m, codes, b.code), OnLong(b.bs, b.oc))
  }

  /** A client names a market only as the table has it, and a close given outright is covered by what is
      available. */
  predicate SoundOrder(m: Master, codes: MarketTable, bs: BsFlag, o: Order) {
    && MarketOf(codes, o) == codes(o.code)
    && (!o.oc.Auto? && !codes(o.code).CFFEX? && Closes(o.oc) ==>
          o.volume <= Available(ClosedBy(m, codes, bs, o.code), o.oc))
  }

  /** A volume stays within what is outstanding, and for an order that names a day where closing does
      not, within its bucket. */
  predicate SoundVolume(d: Day, codes: MarketTable, i: nat, v: int)
    requires i < |d.ledger|
  {
    var b := d.ledger[i];
    && v <= b.outstanding
    && (NamesDay(codes(b.code), b.oc) ==> InBucket(PositionOf(d.m, codes, b), b.oc, v))
  }

  /** Rejections and reports name their order and move no more than is outstanding. */
  predicate Sound(d: Day, codes: MarketTable, e: Event) {
    match e
    case Place(bs, o, c) => SoundOrder(d.m, codes, bs, o)
    case Reply(i, no, v) => i < |d.ledger| && (no == "" ==> SoundVolume(d, codes, i, v))
    case Report(i, k) =>
      && i < |d.ledger|
      && k.code == d.ledger[i].code && k.bs == d.ledger[i].bs && k.oc == d.ledger[i].oc
      && (Counts(d.m, k) && !k.matchType.OtherMatch? ==> SoundVolume(d, codes, i, k.volume))
  }

  predicate AllSound(d: Day, codes: MarketTable, events: seq<Event>)
    decreases |events|
  {
    events == [] || (Sound(d, codes, events[0]) && AllSound(Step(d, codes, events[0]), codes, events[1..]))
  }

  // ---- The invariant ----

  predicate IsKind(oc: OcFlag, kind: Kind) {
    match kind
    case Opening => oc.Open?
    case Closing => Closes(oc)
    case ClosingToday => oc.CloseToday?
    case ClosingYesterday => Closes(oc) && !oc.CloseToday?
  }

  /** One position of an account: the long or the short one of a contract. */
  datatype Slot = Slot(code: string, market: Market, long: bool)

  predicate At(b: Booking, s: Slot) {
    b.code == s.code && OnLong(b.bs, b.oc) == s.long
  }

  predicate Picked(b: Booking, s: Slot, kind: Kind) {
    At(b, s) && IsKind(b.oc, kind)
  }

  /** The outstanding volume of the orders of a kind on one position. */
  function Pending(ledger: seq<Booking>, s: Slot, kind: Kind): int {
    if ledger == [] then 0
    else
      var b := ledger[|ledger| - 1];
      Pending(ledger[..|ledger| - 1], s, kind) + (if Picked(b, s, kind) then b.outstanding else 0)
  }

  /** The filled volume of the orders of a kind on one position. */
  function Done(ledger: seq<Booking>, s: Slot, kind: Kind): int {
    if ledger == [] then 0
    else
      var b := ledger[|ledger| - 1];
      Done(ledger[..|ledger| - 1], s, kind) + (if Picked(b, s, kind) then b.filled else 0)
  }

  predicate NothingNegative(p: Position) {
    p.tdClosing >= 0 && p.ydClosing >= 0 && p.TodayAvailable() >= 0 && p.YesterdayAvailable() >= 0
  }

  /** Each bucket holds what was booked to it. */
  predicate SplitTally(p: Position, s: Slot, ledger: seq<Booking>) {
    && p.tdClosing == Pending(ledger, s, ClosingToday)
    && p.ydClosing == Pending(ledger, s, ClosingYesterday)
    && p.tdClose == Done(ledger, s, ClosingToday)
    && p.ydClose == Done(ledger, s, ClosingYesterday)
  }

  /** The two buckets together hold what was booked to close. */
  predicate JointTally(p: Position, s: Slot, ledger: seq<Booking>) {
    && p.tdClosing + p.ydClosing == Pending(ledger, s, Closing)
    && p.tdClose + p.ydClose == Done(ledger, s, Closing)
  }

  predicate SideTally(p: Position, s: Slot, ledger: seq<Booking>) {
    && p.code == s.code && p.market == s.market
    && NothingNegative(p)
    && p.tdOpen == Done(ledger, s, Opening)
    && (if SplitsClosing(s.market) then SplitTally(p, s, ledger) else JointTally(p, s, ledger))
  }

  predicate PairTally(pair: Pair, codes: MarketTable, code: string, ledger: seq<Booking>) {
    && SideTally(pair.long, Slot(code, codes(code), true), ledger)
    && SideTally(pair.short, Slot(code, codes(code), false), ledger)
  }

  predicate BookingHeld(b: Booking, m: Master, codes: MarketTable) {
    && b.outstanding >= 0 && b.filled >= 0
    && b.code in m.positions
    && (!Trades(b.bs) ==> b.outstanding == 0)
  }

  ghost predicate Tally(codes: MarketTable, m: Master, ledger: seq<Booking>) {
    && m.initialised
    && (forall c | c in m.positions :: PairTally(m.positions[c], codes, c, ledger))
    && (forall i | 0 <= i < |ledger| :: BookingHeld(ledger[i], m, codes))
  }

  // ---- Sums over the ledger ----

  predicate SameFor(a: seq<Booking>, b: seq<Booking>, s: Slot) {
    && Pending(a, s, Opening) == Pending(b, s, Opening) && Done(a, s, Opening) == Done(b, s, Opening)
    && Pending(a, s, Closing) == Pending(b, s, Closing) && Done(a, s, Closing) == Done(b, s, Closing)
    && Pending(a, s, ClosingToday) == Pending(b, s, ClosingToday)
    && Done(a, s, ClosingToday) == Done(b, s, ClosingToday)
    && Pending(a, s, ClosingYesterday) == Pending(b, s, ClosingYesterday)
    && Done(a, s, ClosingYesterday) == Done(b, s, ClosingYesterday)
  }

  lemma SumsOfPush(ledger: seq<Booking>, b: Booking, s: Slot, kind: Kind)
    ensures Pending(ledger + [b], s, kind) ==
            Pending(ledger, s, kind) + (if Picked(b, s, kind) then b.outstanding else 0)
    ensures Done(ledger + [b], s, kind) == Done(ledger, s, kind) + (if Picked(b, s, kind) then b.filled else 0)
  {
    assert (ledger + [b])[..|ledger|] == ledger;
  }

  lemma {:induction false} SumsOfChange(ledger: seq<Booking>, i: nat, b: Booking, s: Slot, kind: Kind)
    requires i < |ledger| && b.code == ledger[i].code && b.bs == ledger[i].bs && b.oc == ledger[i].oc
    ensures Pending(ledger[i := b], s, kind) ==
            Pending(ledger, s, kind) + (if Picked(b, s, kind) then b.outstanding - ledger[i].outstanding else 0)
    ensures Done(ledger[i := b], s, kind) ==
            Done(ledger, s, kind) + (if Picked(b, s, kind) then b.filled - ledger[i].filled else 0)
  {
    var n := |ledger| - 1;
    if i < n {
      SumsOfChange(ledger[..n], i, b, s, kind);
      assert ledger[i := b][..n] == ledger[..n][i := b];
    } else {
      assert ledger[i := b][..n] == ledger[..n];
    }
  }

  lemma {:induction false} PendingCovers(ledger: seq<Booking>, i: nat, s: Slot, kind: Kind)
    requires i < |ledger| && Picked(ledger[i], s, kind)
    requires forall j | 0 <= j < |ledger| :: ledger[j].outstanding >= 0
    ensures Pending(ledger, s, kind) >= ledger[i].outstanding
  {
    var n := |ledger| - 1;
    if i < n {
      PendingCovers(ledger[..n], i, s, kind);
    } else {
      PendingIsPositive(ledger[..n], s, kind);
    }
  }

  lemma {:induction false} PendingIsPositive(ledger: seq<Booking>, s: Slot, kind: Kind)
    requires forall j | 0 <= j < |ledger| :: ledger[j].outstanding >= 0
    ensures Pending(ledger, s, kind) >= 0
  {
    if ledger != [] {
      PendingIsPositive(ledger[..|ledger| - 1], s, kind);
    }
  }

  lemma PushSameFor(ledger: seq<Booking>, b: Booking, s: Slot)
    requires !At(b, s) || b.outstanding == b.filled == 0
    ensures SameFor(ledger, ledger + [b], s)
  {
    SumsOfPush(ledger, b, s, Opening);
    SumsOfPush(ledger, b, s, Closing);
    SumsOfPush(ledger, b, s, ClosingToday);
    SumsOfPush(ledger, b, s, ClosingYesterday);
  }

  lemma ChangeSameFor(ledger: seq<Booking>, i: nat, b: Booking, s: Slot)
    requires i < |ledger| && b.code == ledger[i].code && b.bs == ledger[i].bs && b.oc == ledger[i].oc
    requires !At(b, s)
    ensures SameFor(ledger, ledger[i := b], s)
  {
    SumsOfChange(ledger, i, b, s, Opening);
    SumsOfChange(ledger, i, b, s, Closing);
    SumsOfChange(ledger, i, b, s, ClosingToday);
    SumsOfChange(ledger, i, b, s, ClosingYesterday);
  }

  // ---- One position ----

  /** Whichever flag is chosen for an order that leaves the choice open, a close is covered. */
  lemma ChosenCloseIsCovered(m: Master, codes: MarketTable, bs: BsFlag, o: Order, c: Chooser)
    requires MarketOf(codes, o) == codes(o.code) && ClosedBy(m, codes, bs, o.code).market == codes(o.code)
    requires NothingNegative(ClosedBy(m, codes, bs, o.code))
    requires o.oc.Auto? || c.ByYesterdayFlag? || codes(o.code).CFFEX?
    ensures var f := Choose(m, codes, bs, o, c);
            f.Some? && Closes(f.value) ==> o.volume <= Available(ClosedBy(m, codes, bs, o.code), f.value)
  {}

  /** An order keeps all volumes of a position non-negative exactly when it opens or is covered. */
  lemma FreezeStaysCoveredExactly(p: Position, oc: OcFlag, v: int)
    requires NothingNegative(p)
    ensures NothingNegative(Frozen(p, oc, v)) <==> (Closes(oc) ==> v <= 0 || v <= Available(p, oc))
  {}

  predicate PairNothingNegative(pair: Pair) {
    NothingNegative(pair.long) && NothingNegative(pair.short)
  }

  /** Placing an order overdraws no position exactly when the order is refused, opens, or closes no more than
      what it closes has available. */
  lemma PlaceStaysCoveredExactly(d: Day, codes: MarketTable, bs: BsFlag, o: Order, c: Chooser)
    requires PairNothingNegative(PairOf(d.m, codes, o.code)) && d.m.initialised && Trades(bs)
    ensures var f := Choose(d.m, codes, bs, o, c);
            PairNothingNegative(PairOf(PlaceOrder(d, codes, bs, o, c).m, codes, o.code)) <==>
            (f.Some? && Closes(f.value) ==>
               o.volume <= 0 || o.volume <= Available(ClosedBy(d.m, codes, bs, o.code), f.value))
  {
    var f := Choose(d.m, codes, bs, o, c);
    if f.Some? {
      var p := Side(PairOf(d.m, codes, o.code), OnLong(bs, f.value));
      FreezeStaysCoveredExactly(p, f.value, o.volume);
    }
  }

  /** Cancelling an order whole leaves the position as it was exactly when, for an opening, others are pending
      on the position, and for a close that names no day, none is pending on today's holding or today's
      holding covers it alone. */
  lemma CancelUndoesOrderExactly(p: Position, oc: OcFlag, v: int)
    requires NothingNegative(p) && v > 0
    ensures Released(Frozen(p, oc, v), oc, v) == p <==>
            && (oc.Open? ==> p.tdOpening > 0)
            && (IsClose(oc) && !SplitsClosing(p.market) ==> p.tdClosing == 0 || v <= p.TodayAvailable())
  {}

  /** The only opening order of a position stays pending when it is cancelled, and a close over both days of
      which one was already pending comes back on the wrong day. */
  lemma CancelsLeaveTraces(codes: MarketTable, code: string)
    ensures Released(Frozen(EmptyPosition(codes, code), Open, 1), Open, 1).tdOpening == 1
    ensures var p := Frozen(EmptyPosition(codes, code).(tdInit := 2, ydInit := 2), Close, 1);
            var q := Released(Frozen(p, Close, 2), Close, 2);
            !SplitsClosing(codes(code)) ==> p.TodayAvailable() == 1 < q.TodayAvailable() == 2
  {}

  /** What is given outright is not looked at: closing today's holding of a contract without one. */
  lemma OutrightCloseOverdraws(codes: MarketTable, m: Master, code: string)
    requires codes(code).SHFE? && code !in m.positions && m.initialised
    ensures var o := Order(code, None, 1, "", CloseToday);
            var d := PlaceOrder(Day(m, []), codes, Sell, o, ByAutoFlag);
            PairOf(d.m, codes, code).long.TodayAvailable() == -1
  {}

  /** Some close would be covered by what is available. */
  ghost predicate Closable(p: Position, v: int) {
    exists oc: OcFlag :: Closes(oc) && v <= Available(p, oc)
  }

  lemma ClosableExactly(p: Position, v: int)
    ensures Closable(p, v) <==>
            || v <= p.YesterdayAvailable() || v <= p.TodayAvailable()
            || (!SplitsClosing(p.market) && v <= p.YesterdayAvailable() + p.TodayAvailable())
  {
    assert v <= Available(p, CloseYesterday) ==> Closable(p, v);
    assert v <= Available(p, CloseToday) ==> Closable(p, v);
    assert v <= Available(p, Close) ==> Closable(p, v);
  }

  /** Which orders the automatic choice closes. Where a close names no day it closes whatever both days
      together hold, which is whatever can be closed unless one of them is overdrawn; on SHFE and INE it
      leaves out an order for exactly the rest of today that yesterday's holding does not cover; for index
      futures it leaves out what only today's holding covers, and everything once an opening is counted. */
  lemma AutoClosesExactly(m: Master, codes: MarketTable, bs: BsFlag, o: Order)
    requires o.oc.Auto? && MarketOf(codes, o) == ClosedBy(m, codes, bs, o.code).market
    ensures var p, f := ClosedBy(m, codes, bs, o.code), GetAutoOcFlag(m, codes, bs, o);
            f.Some? && Closes(f.value) <==>
              && Closable(p, o.volume)
              && (!SplitsClosing(p.market) ==> o.volume <= Available(p, Close))
              && (p.market.SHFE? || p.market.INE? ==> !(p.YesterdayAvailable() < o.volume == p.TodayAvailable()))
              && (p.market.CFFEX? ==> OpenedToday(m, o.code) == 0 && o.volume <= p.YesterdayAvailable())
  {
    ClosableExactly(ClosedBy(m, codes, bs, o.code), o.volume);
  }

  /** Today's holding of one, to be closed whole: the automatic choice opens, on SHFE and for index futures. */
  lemma RestOfTodayIsOpened(codes: MarketTable, code: string)
    ensures var held := EmptyPosition(codes, code).(tdInit := 1);
            var m := EMPTY_MASTER.(positions := map[code := Pair(held, held)], initialised := true);
            var o := Order(code, None, 1, "", Auto);
            && Closable(ClosedBy(m, codes, Sell, code), 1)
            && (codes(code).SHFE? ==> GetAutoOcFlag(m, codes, Sell, o) == Some(Open))
            && (codes(code).CFFEX? ==> forall cap | cap < 0 || cap >= 1 ::
                  GetAutoOcFlag(m.(limits := Limits(false, cap)), codes, Sell, o) == Some(Open))
  {
    ClosableExactly(EmptyPosition(codes, code).(tdInit := 1), 1);
  }

  lemma FreezeKeeps(p: Position, s: Slot, ledger: seq<Booking>, b: Booking, v: int)
    requires SideTally(p, s, ledger) && At(b, s)
    requires b.outstanding == Positive(v) && b.filled == 0
    requires Closes(b.oc) ==> v <= Available(p, b.oc)
    ensures SideTally(Frozen(p, b.oc, v), s, ledger + [b])
  {
    SumsOfPush(ledger, b, s, Opening);
    SumsOfPush(ledger, b, s, Closing);
    SumsOfPush(ledger, b, s, ClosingToday);
    SumsOfPush(ledger, b, s, ClosingYesterday);
  }

  /** The guards before a frozen volume is taken off are always true. */
  lemma FrozenCoversEveryOrder(p: Position, s: Slot, ledger: seq<Booking>, i: nat)
    requires SideTally(p, s, ledger) && i < |ledger| && At(ledger[i], s)
    requires forall j | 0 <= j < |ledger| :: ledger[j].outstanding >= 0
    ensures SplitsClosing(s.market) && ledger[i].oc.CloseToday? ==> p.tdClosing >= ledger[i].outstanding
    ensures SplitsClosing(s.market) && Closes(ledger[i].oc) && !ledger[i].oc.CloseToday? ==>
              p.ydClosing >= ledger[i].outstanding
    ensures !SplitsClosing(s.market) && Closes(ledger[i].oc) ==>
              p.tdClosing + p.ydClosing >= ledger[i].outstanding
  {
    if ledger[i].oc.CloseToday? {
      PendingCovers(ledger, i, s, ClosingToday);
      PendingCovers(ledger, i, s, Closing);
    } else if Closes(ledger[i].oc) {
      PendingCovers(ledger, i, s, ClosingYesterday);
      PendingCovers(ledger, i, s, Closing);
    }
  }

  lemma FillKeeps(p: Position, s: Slot, ledger: seq<Booking>, i: nat, v: int)
    requires SideTally(p, s, ledger) && i < |ledger| && At(ledger[i], s)
    requires NamesDay(s.market, ledger[i].oc) ==> InBucket(p, ledger[i].oc, v)
    requires forall j | 0 <= j < |ledger| :: ledger[j].outstanding >= 0
    requires 0 < v <= ledger[i].outstanding
    ensures var b := ledger[i];
            SideTally(Filled(p, b.oc, v), s,
                      ledger[i := b.(outstanding := b.outstanding - v, filled := b.filled + v)])
  {
    var b := ledger[i].(outstanding := ledger[i].outstanding - v, filled := ledger[i].filled + v);
    FrozenCoversEveryOrder(p, s, ledger, i);
    SumsOfChange(ledger, i, b, s, Opening);
    SumsOfChange(ledger, i, b, s, Closing);
    SumsOfChange(ledger, i, b, s, ClosingToday);
    SumsOfChange(ledger, i, b, s, ClosingYesterday);
  }

  lemma ReleaseKeeps(p: Position, s: Slot, ledger: seq<Booking>, i: nat, v: int)
    requires SideTally(p, s, ledger) && i < |ledger| && At(ledger[i], s)
    requires NamesDay(s.market, ledger[i].oc) ==> InBucket(p, ledger[i].oc, v)
    requires forall j | 0 <= j < |ledger| :: ledger[j].outstanding >= 0
    requires v <= ledger[i].outstanding
    ensures var b := ledger[i];
            SideTally(Released(p, b.oc, v), s, ledger[i := b.(outstanding := b.outstanding - Positive(v))])
  {
    var b := ledger[i].(outstanding := ledger[i].outstanding - Positive(v));
    FrozenCoversEveryOrder(p, s, ledger, i);
    SumsOfChange(ledger, i, b, s, Opening);
    SumsOfChange(ledger, i, b, s, Closing);
    SumsOfChange(ledger, i, b, s, ClosingToday);
    SumsOfChange(ledger, i, b, s, ClosingYesterday);
  }

  /** Where closing names no day, a fill or a cancel of an order that does keeps frozen volumes in line with
      the orders exactly when the guard of its bucket is true. */
  lemma NamedDayAddsUpExactly(p: Position, s: Slot, ledger: seq<Booking>, i: nat, v: int)
    requires SideTally(p, s, ledger) && i < |ledger| && At(ledger[i], s) && NamesDay(s.market, ledger[i].oc)
    requires forall j | 0 <= j < |ledger| :: ledger[j].outstanding >= 0
    requires 0 < v <= ledger[i].outstanding
    ensures var b := ledger[i]; var rest := b.outstanding - v;
            && (SideTally(Filled(p, b.oc, v), s, ledger[i := b.(outstanding := rest, filled := b.filled + v)]) <==>
                  InBucket(p, b.oc, v))
            && (SideTally(Released(p, b.oc, v), s, ledger[i := b.(outstanding := rest)]) <==> InBucket(p, b.oc, v))
  {
    var b := ledger[i].(outstanding := ledger[i].outstanding - v);
    if InBucket(p, b.oc, v) {
      FillKeeps(p, s, ledger, i, v);
      ReleaseKeeps(p, s, ledger, i, v);
    } else {
      SumsOfChange(ledger, i, b, s, Closing);
      SumsOfChange(ledger, i, b.(filled := b.filled + v), s, Closing);
    }
  }

  /** The guard can be false: of three to close, one is closed by naming today and two without a day, whose
      fill takes today's frozen volume first. In the end nothing is outstanding, one stays frozen, and
      today's holding is overdrawn. */
  lemma MixedClosesLoseTrack(codes: MarketTable, code: string)
    requires !SplitsClosing(codes(code))
    ensures var p := EmptyPosition(codes, code).(ydInit := 1, tdInit := 2);
            var frozen := Frozen(Frozen(p, CloseToday, 1), Close, 2);
            var filled := Filled(Filled(frozen, Close, 2), CloseToday, 1);
            && Available(p, CloseToday) >= 1 && Available(Frozen(p, CloseToday, 1), Close) == 2
            && filled.ydClosing + filled.tdClosing == 1 && filled.TodayAvailable() == -1
  {}

  // ---- The positions of the account ----

  ghost predicate SameElsewhere(a: seq<Booking>, b: seq<Booking>, code: string, long: bool) {
    forall s: Slot | s.code != code || s.long != long :: SameFor(a, b, s)
  }

  /** A position of the account that is looked up for the first time is empty, as is its ledger. */
  lemma PairTallies(codes: MarketTable, m: Master, ledger: seq<Booking>, code: string)
    requires Tally(codes, m, ledger)
    ensures PairTally(PairOf(m, codes, code), codes, code, ledger)
  {
    if code !in m.positions {
      NothingBooked(codes, m, ledger, Slot(code, codes(code), true));
      NothingBooked(codes, m, ledger, Slot(code, codes(code), false));
    }
  }

  lemma {:induction false} NothingBooked(codes: MarketTable, m: Master, ledger: seq<Booking>, s: Slot)
    requires forall i | 0 <= i < |ledger| :: BookingHeld(ledger[i], m, codes)
    requires s.code !in m.positions
    ensures forall kind :: Pending(ledger, s, kind) == 0 && Done(ledger, s, kind) == 0
  {
    if ledger != [] {
      NothingBooked(codes, m, ledger[..|ledger| - 1], s);
      assert BookingHeld(ledger[|ledger| - 1], m, codes);
    }
  }

  /** Moving one position and its bookings keeps the account in line with the ledger. */
  lemma MoveKeeps(codes: MarketTable, m: Master, n: Master, a: seq<Booking>, b: seq<Booking>,
                  code: string, long: bool, p: Position)
    requires Tally(codes, m, a)
    requires n.initialised && n.positions == m.positions[code := WithSide(PairOf(m, codes, code), long, p)]
    requires SideTally(p, Slot(code, codes(code), long), b)
    requires SameElsewhere(a, b, code, long)
    requires forall i | 0 <= i < |b| :: BookingHeld(b[i], n, codes)
    ensures Tally(codes, n, b)
  {
    forall c | c in n.positions ensures PairTally(n.positions[c], codes, c, b) {
      PairTallies(codes, m, a, c);
      assert SameFor(a, b, Slot(c, codes(c), !long));
      assert c != code ==> SameFor(a, b, Slot(c, codes(c), long));
    }
  }

  lemma BookingsHeld(codes: MarketTable, m: Master, n: Master, ledger: seq<Booking>)
    requires forall i | 0 <= i < |ledger| :: BookingHeld(ledger[i], m, codes)
    requires m.positions.Keys <= n.positions.Keys
    ensures forall i | 0 <= i < |ledger| :: BookingHeld(ledger[i], n, codes)
  {}

  lemma TouchKeeps(codes: MarketTable, m: Master, n: Master, ledger: seq<Booking>, code: string)
    requires Tally(codes, m, ledger) && n.initialised && n.positions == Touch(m, codes, code).positions
    ensures Tally(codes, n, ledger)
  {
    PairTallies(codes, m, ledger, code);
    BookingsHeld(codes, m, n, ledger);
  }

  lemma IdlePushKeeps(codes: MarketTable, m: Master, ledger: seq<Booking>, b: Booking)
    requires Tally(codes, m, ledger) && BookingHeld(b, m, codes) && b.outstanding == b.filled == 0
    ensures Tally(codes, m, ledger + [b])
  {
    forall c | c in m.positions ensures PairTally(m.positions[c], codes, c, ledger + [b]) {
      PushSameFor(ledger, b, Slot(c, codes(c), true));
      PushSameFor(ledger, b, Slot(c, codes(c), false));
    }
  }

  // ---- The steps of a day ----

  lemma BookKeeps(codes: MarketTable, m: Master, ledger: seq<Booking>, bs: BsFlag, o: Order)
    requires Tally(codes, m, ledger) && o.code in m.positions
    requires Closes(o.oc) ==> o.volume <= Available(ClosedBy(m, codes, bs, o.code), o.oc)
    ensures Tally(codes, HandleOrderReq(m, codes, bs, o), ledger + [NewBooking(m, bs, o, o.oc)])
  {
    var b, n := NewBooking(m, bs, o, o.oc), HandleOrderReq(m, codes, bs, o);
    if !Trades(bs) || !AboveZero(o.oc) {
      IdlePushKeeps(codes, m, ledger, b);
    } else {
      var long := OnLong(bs, o.oc);
      var p, s := Side(PairOf(m, codes, o.code), long), Slot(o.code, codes(o.code), long);
      PairTallies(codes, m, ledger, o.code);
      FreezeKeeps(p, s, ledger, b, o.volume);
      forall t: Slot | t.code != o.code || t.long != long ensures SameFor(ledger, ledger + [b], t) {
        PushSameFor(ledger, b, t);
      }
      BookingsHeld(codes, m, n, ledger);
      MoveKeeps(codes, m, n, ledger, ledger + [b], o.code, long, Frozen(p, o.oc, o.volume));
    }
  }

  lemma PlaceKeeps(codes: MarketTable, d: Day, bs: BsFlag, o: Order, c: Chooser)
    requires Tally(codes, d.m, d.ledger) && SoundOrder(d.m, codes, bs, o)
    ensures var r := PlaceOrder(d, codes, bs, o, c); Tally(codes, r.m, r.ledger)
  {
    var m := Touch(d.m, codes, o.code);
    TouchKeeps(codes, d.m, m, d.ledger, o.code);
    var f := Choose(d.m, codes, bs, o, c);
    if f.Some? {
      PairTallies(codes, d.m, d.ledger, o.code);
      if o.oc.Auto? || c.ByYesterdayFlag? || codes(o.code).CFFEX? {
        ChosenCloseIsCovered(d.m, codes, bs, o, c);
      }
      BookKeeps(codes, m, d.ledger, bs, o.(oc := f.value));
    }
  }

  /** A report that moves the booking of an order moves the position of the order. */
  lemma ReportedKeeps(codes: MarketTable, m: Master, n: Master, ledger: seq<Booking>, i: nat, b: Booking, p: Position)
    requires Tally(codes, m, ledger) && i < |ledger|
    requires b.code == ledger[i].code && b.bs == ledger[i].bs && b.oc == ledger[i].oc
    requires b.outstanding >= 0 && b.filled >= 0 && (!Trades(b.bs) ==> b.outstanding == 0)
    requires n.initialised
    requires n.positions == m.positions[b.code := WithSide(PairOf(m, codes, b.code), OnLong(b.bs, b.oc), p)]
    requires SideTally(p, Slot(b.code, codes(b.code), OnLong(b.bs, b.oc)), ledger[i := b])
    ensures Tally(codes, n, ledger[i := b])
  {
    var long := OnLong(b.bs, b.oc);
    forall t: Slot | t.code != b.code || t.long != long ensures SameFor(ledger, ledger[i := b], t) {
      ChangeSameFor(ledger, i, b, t);
    }
    assert BookingHeld(ledger[i], m, codes);
    BookingsHeld(codes, m, n, ledger);
    MoveKeeps(codes, m, n, ledger, ledger[i := b], b.code, long, p);
  }

  lemma ReleaseReported(codes: MarketTable, m: Master, n: Master, ledger: seq<Booking>, i: nat, v: int, b: Booking)
    requires i < |ledger| && SoundVolume(Day(m, ledger), codes, i, v)
    requires Tally(codes, m, ledger)
    requires b == ledger[i].(outstanding := ledger[i].outstanding - Positive(v))
    requires n.initialised && n.positions == Apply(m, codes, b.code, b.bs, b.oc, 0, 0, v).positions
    ensures Tally(codes, n, ledger[i := b])
  {
    var long := OnLong(b.bs, b.oc);
    var p := Side(PairOf(m, codes, b.code), long);
    PairTallies(codes, m, ledger, b.code);
    assert BookingHeld(ledger[i], m, codes);
    ReleaseKeeps(p, Slot(b.code, codes(b.code), long), ledger, i, v);
    ReportedKeeps(codes, m, n, ledger, i, b, Released(p, b.oc, v));
  }

  lemma FillReported(codes: MarketTable, m: Master, n: Master, ledger: seq<Booking>, i: nat, v: int, b: Booking)
    requires i < |ledger| && SoundVolume(Day(m, ledger), codes, i, v)
    requires Tally(codes, m, ledger) && 0 < v
    requires b == ledger[i].(outstanding := ledger[i].outstanding - v, filled := ledger[i].filled + v)
    requires n.initialised && n.positions == Apply(m, codes, b.code, b.bs, b.oc, 0, v, 0).positions
    ensures Tally(codes, n, ledger[i := b])
  {
    var long := OnLong(b.bs, b.oc);
    var p := Side(PairOf(m, codes, b.code), long);
    PairTallies(codes, m, ledger, b.code);
    assert BookingHeld(ledger[i], m, codes);
    FillKeeps(p, Slot(b.code, codes(b.code), long), ledger, i, v);
    ReportedKeeps(codes, m, n, ledger, i, b, Filled(p, b.oc, v));
  }

  lemma ReplyKeeps(codes: MarketTable, d: Day, i: nat, no: string, v: int)
    requires Tally(codes, d.m, d.ledger) && Sound(d, codes, Reply(i, no, v))
    ensures var r := Step(d, codes, Reply(i, no, v)); Tally(codes, r.m, r.ledger)
  {
    var b := d.ledger[i];
    assert BookingHeld(b, d.m, codes);
    if no != "" || !Trades(b.bs) {
      assert d.ledger[i := b] == d.ledger;
    } else {
      ReleaseReported(codes, d.m, HandleOrderRep(d.m, codes, b.bs, Order(b.code, None, v, no, b.oc)), d.ledger, i, v,
                      AfterReply(b, no, v));
    }
  }

  lemma FillCounted(codes: MarketTable, m: Master, ledger: seq<Booking>, i: nat, k: Knock)
    requires Tally(codes, m, ledger) && i < |ledger| && Counts(m, k) && k.matchType.MatchOK?
    requires k.code == ledger[i].code && k.bs == ledger[i].bs && k.oc == ledger[i].oc
    requires SoundVolume(Day(m, ledger), codes, i, k.volume)
    ensures Tally(codes, HandleKnock(m, codes, k), ledger[i := AfterKnock(ledger[i], k)])
  {
    FillReported(codes, m, HandleKnock(m, codes, k), ledger, i, k.volume, AfterKnock(ledger[i], k));
  }

  lemma ReleaseCounted(codes: MarketTable, m: Master, ledger: seq<Booking>, i: nat, k: Knock)
    requires Tally(codes, m, ledger) && i < |ledger| && Counts(m, k)
    requires k.matchType.MatchFailed? || k.matchType.MatchWithdrawOK?
    requires k.code == ledger[i].code && k.bs == ledger[i].bs && k.oc == ledger[i].oc
    requires SoundVolume(Day(m, ledger), codes, i, k.volume)
    ensures Tally(codes, HandleKnock(m, codes, k), ledger[i := AfterKnock(ledger[i], k)])
  {
    ReleaseReported(codes, m, HandleKnock(m, codes, k), ledger, i, k.volume, AfterKnock(ledger[i], k));
  }

  lemma KnockKeeps(codes: MarketTable, d: Day, i: nat, k: Knock)
    requires Tally(codes, d.m, d.ledger) && Sound(d, codes, Report(i, k))
    ensures var r := Step(d, codes, Report(i, k)); Tally(codes, r.m, r.ledger)
  {
    if Counts(d.m, k) {
      match k.matchType {
        case MatchOK => FillCounted(codes, d.m, d.ledger, i, k);
        case OtherMatch =>
          assert d.ledger[i := d.ledger[i]] == d.ledger;
          TouchKeeps(codes, d.m, HandleKnock(d.m, codes, k), d.ledger, k.code);
        case _ => ReleaseCounted(codes, d.m, d.ledger, i, k);
      }
    }
  }

  lemma StepKeeps(codes: MarketTable, d: Day, e: Event)
    requires Tally(codes, d.m, d.ledger) && Sound(d, codes, e)
    ensures Tally(codes, Step(d, codes, e).m, Step(d, codes, e).ledger)
  {
    match e
    case Place(bs, o, c) => PlaceKeeps(codes, d, bs, o, c);
    case Reply(i, no, v) => ReplyKeeps(codes, d, i, no, v);
    case Report(i, k) => KnockKeeps(codes, d, i, k);
  }

  lemma {:induction false} RunKeeps(codes: MarketTable, d: Day, events: seq<Event>)
    requires Tally(codes, d.m, d.ledger) && AllSound(d, codes, events)
    ensures Tally(codes, Run(d, codes, events).m, Run(d, codes, events).ledger)
    decreases |events|
  {
    if events != [] {
      StepKeeps(codes, d, events[0]);
      RunKeeps(codes, Step(d, codes, events[0]), events[1..]);
    }
  }

  // ---- The start of a day, and the main results ----

  predicate HeldVolumes(h: Holding) {
    h.longPre >= 0 && LongToday(h) >= 0 && h.shortPre >= 0 && ShortToday(h) >= 0
  }

  predicate UnusedSide(p: Position, codes: MarketTable, code: string) {
    p == EmptyPosition(codes, code).(ydInit := p.ydInit, tdInit := p.tdInit) && p.ydInit >= 0 && p.tdInit >= 0
  }

  ghost predicate Unused(codes: MarketTable, m: Master) {
    forall c | c in m.positions ::
      UnusedSide(m.positions[c].long, codes, c) && UnusedSide(m.positions[c].short, codes, c)
  }

  lemma {:induction false} InitAllUnused(codes: MarketTable, m: Master, items: seq<Holding>)
    requires Unused(codes, m) && forall h | h in items :: HeldVolumes(h)
    ensures Unused(codes, InitAll(m, codes, items))
    decreases |items|
  {
    if items != [] {
      assert HeldVolumes(items[0]);
      InitAllUnused(codes, InitOne(m, codes, items[0]), items[1..]);
    }
  }

  /** The day a broker starts from a report of positions. */
  function Start(m: Master, codes: MarketTable, limits: Limits, items: seq<Holding>): Day {
    Day(InitPositions(m, codes, limits, items), [])
  }

  /** For every run of a day, the positions are in line with the orders. */
  lemma DayTallies(codes: MarketTable, m: Master, limits: Limits, items: seq<Holding>, events: seq<Event>)
    requires forall h | h in items :: HeldVolumes(h)
    requires AllSound(Start(m, codes, limits, items), codes, events)
    ensures var d := Run(Start(m, codes, limits, items), codes, events); Tally(codes, d.m, d.ledger)
  {
    var n := m.(positions := map[], limits := limits, openCache := WithTypes(m.openCache));
    InitAllUnused(codes, n, items);
    RunKeeps(codes, Start(m, codes, limits, items), events);
  }

  /** Where a close names no day, frozen and filled volumes add up to those of the orders, though
      both are taken from today's holding first, and nothing is ever overdrawn. */
  lemma JointClosesAddUp(codes: MarketTable, m: Master, limits: Limits, items: seq<Holding>, events: seq<Event>,
                         code: string, long: bool)
    requires forall h | h in items :: HeldVolumes(h)
    requires AllSound(Start(m, codes, limits, items), codes, events)
    requires !SplitsClosing(codes(code))
    ensures var d := Run(Start(m, codes, limits, items), codes, events);
            var p, s := Side(PairOf(d.m, codes, code), long), Slot(code, codes(code), long);
            && p.tdClosing + p.ydClosing == Pending(d.ledger, s, Closing)
            && p.tdClose + p.ydClose == Done(d.ledger, s, Closing)
            && p.tdOpen == Done(d.ledger, s, Opening)
            && NothingNegative(p)
  {
    var d := Run(Start(m, codes, limits, items), codes, events);
    DayTallies(codes, m, limits, items, events);
    PairTallies(codes, d.m, d.ledger, code);
  }

  /** Where a close names its day, each bucket holds what was booked to it, and its guards are true. */
  lemma SplitBucketsAddUp(codes: MarketTable, m: Master, limits: Limits, items: seq<Holding>, events: seq<Event>,
                          code: string, long: bool)
    requires forall h | h in items :: HeldVolumes(h)
    requires AllSound(Start(m, codes, limits, items), codes, events)
    requires SplitsClosing(codes(code))
    ensures var d := Run(Start(m, codes, limits, items), codes, events);
            var p, s := Side(PairOf(d.m, codes, code), long), Slot(code, codes(code), long);
            && SplitTally(p, s, d.ledger) && NothingNegative(p)
            && (forall i | 0 <= i < |d.ledger| && At(d.ledger[i], s) && Closes(d.ledger[i].oc) ::
                  d.ledger[i].outstanding <= (if d.ledger[i].oc.CloseToday? then p.tdClosing else p.ydClosing))
  {
    var d := Run(Start(m, codes, limits, items), codes, events);
    DayTallies(codes, m, limits, items, events);
    PairTallies(codes, d.m, d.ledger, code);
    var p, s := Side(PairOf(d.m, codes, code), long), Slot(code, codes(code), long);
    forall i | 0 <= i < |d.ledger| && At(d.ledger[i], s) && Closes(d.ledger[i].oc)
      ensures d.ledger[i].outstanding <= (if d.ledger[i].oc.CloseToday? then p.tdClosing else p.ydClosing)
    {
      FrozenCoversEveryOrder(p, s, d.ledger, i);
    }
  }
}

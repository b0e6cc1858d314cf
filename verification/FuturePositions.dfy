/** Futures positions as values: what each request and report does to holdings, frozen volumes and
    the count of index futures opened today. */
module FuturePositions {
  import opened Options
  import opened Trading

  datatype Market = SHFE | INE | CFFEX | OtherMarket

  /** Flags of an order: `OtherFlag` stands for the numbers without a name. */
  datatype OcFlag =
    | Auto | Open | Close | ForceClose | ForceOff | LocalForceClose | CloseToday | CloseYesterday
    | OtherFlag(aboveZero: bool)

  datatype MatchType = MatchOK | MatchWithdrawOK | MatchFailed | OtherMatch

  /** The market of a contract code, looked up in a table of the exchanges. */
  type MarketTable = string -> Market

  datatype Position = Position(
    code: string, market: Market,
    ydInit: int, ydClosing: int, ydClose: int,
    tdInit: int, tdClosing: int, tdClose: int, tdOpening: int, tdOpen: int)
  {
    function YesterdayAvailable(): int { ydInit - ydClosing - ydClose }

    function TodayAvailable(): int { tdInit + tdOpen - tdClosing - tdClose }
  }

  datatype Pair = Pair(long: Position, short: Position)

  datatype Limits = Limits(forbidClosingToday: bool, maxTodayOpening: int)

  datatype Master = Master(
    positions: map<string, Pair>, knocks: set<string>, openCache: map<string, int>,
    limits: Limits, initialised: bool)

  datatype Order = Order(code: string, market: Option<Market>, volume: int, orderNo: string, oc: OcFlag)

  datatype Knock = Knock(
    fundId: string, matchNo: string, code: string, bs: BsFlag, oc: OcFlag, matchType: MatchType, volume: int)

  /** One line of the report of positions a broker starts from. */
  datatype Holding = Holding(code: string, longVolume: int, longPre: int, shortVolume: int, shortPre: int)

  const CFFEX_OPTION_LENGTH := 14
  const NO_LIMITS := Limits(false, 0)
  const EMPTY_MASTER := Master(map[], {}, map[], NO_LIMITS, false)

  /** Exchanges on which a close means a close of yesterday's holding. */
  predicate SplitsClosing(m: Market) {
    m.SHFE? || m.INE? || m.CFFEX?
  }

  predicate IsClose(oc: OcFlag) {
    oc.Close? || oc.ForceClose? || oc.ForceOff? || oc.LocalForceClose?
  }

  predicate AboveZero(oc: OcFlag) {
    !oc.Auto? && (oc.OtherFlag? ==> oc.aboveZero)
  }

  predicate Trades(bs: BsFlag) {
    bs.Buy? || bs.Sell?
  }

  /** Buying to open and selling to close work on the long position, the others on the short one. */
  predicate OnLong(bs: BsFlag, oc: OcFlag) {
    if bs.Buy? then oc.Open? else !oc.Open?
  }

  function Positive(v: int): nat {
    if v > 0 then v else 0
  }

  function Least(a: int, b: int): int {
    if a <= b then a else b
  }

  function ContractType(code: string): string {
    if |code| > 2 then code[..2] else ""
  }

  // ---- One position ----

  function Frozen(p: Position, oc: OcFlag, v: int): Position {
    if v <= 0 then p
    else if oc.Open? then p.(tdOpening := p.tdOpening + v)
    else if oc.CloseToday? then p.(tdClosing := p.tdClosing + v)
    else if oc.CloseYesterday? || (IsClose(oc) && SplitsClosing(p.market)) then p.(ydClosing := p.ydClosing + v)
    else if IsClose(oc) then
      var today := Least(p.TodayAvailable(), v);
      p.(tdClosing := p.tdClosing + today, ydClosing := p.ydClosing + (v - today))
    else p
  }

  function Filled(p: Position, oc: OcFlag, v: int): Position {
    if v <= 0 then p
    else if oc.Open? then p.(tdOpening := p.tdOpening - v, tdOpen := p.tdOpen + v)
    else if oc.CloseToday? then
      p.(tdClosing := if p.tdClosing >= v then p.tdClosing - v else p.tdClosing, tdClose := p.tdClose + v)
    else if oc.CloseYesterday? || (IsClose(oc) && SplitsClosing(p.market)) then
      p.(ydClosing := if p.ydClosing >= v then p.ydClosing - v else p.ydClosing, ydClose := p.ydClose + v)
    else if IsClose(oc) then
      var today := Least(p.tdClosing, v);
      p.(tdClosing := p.tdClosing - today, tdClose := p.tdClose + today,
         ydClosing := p.ydClosing - (v - today), ydClose := p.ydClose + (v - today))
    else p
  }

  function Released(p: Position, oc: OcFlag, v: int): Position {
    if v <= 0 then p
    else if oc.Open? then p.(tdOpening := if p.tdOpening > v then p.tdOpening - v else p.tdOpening)
    else if oc.CloseToday? then p.(tdClosing := if p.tdClosing >= v then p.tdClosing - v else p.tdClosing)
    else if oc.CloseYesterday? || (IsClose(oc) && SplitsClosing(p.market)) then
      p.(ydClosing := if p.ydClosing >= v then p.ydClosing - v else p.ydClosing)
    else if IsClose(oc) then
      var today := Least(p.tdClosing, v);
      p.(tdClosing := p.tdClosing - today, ydClosing := p.ydClosing - (v - today))
    else p
  }

  function Update(p: Position, oc: OcFlag, ordered: int, matched: int, withdrawn: int): Position {
    Released(Filled(Frozen(p, oc, ordered), oc, matched), oc, withdrawn)
  }

  /** The count of today's openings of a contract type. A withdrawal takes the volume of the order
      off, and the reports pass none. */
  function CacheAfter(cache: map<string, int>, limits: Limits, p: Position, oc: OcFlag, ordered: int,
                      withdrawn: int): map<string, int>
  {
    var t := ContractType(p.code);
    if oc.Open? && limits.forbidClosingToday && p.market.CFFEX? && |p.code| <= CFFEX_OPTION_LENGTH
       && t in cache then
      cache[t := cache[t] + Positive(ordered) - (if withdrawn > 0 then ordered else 0)]
    else cache
  }

  // ---- The positions of an account ----

  function EmptyPosition(codes: MarketTable, code: string): Position {
    Position(code, codes(code), 0, 0, 0, 0, 0, 0, 0, 0)
  }

  function PairOf(m: Master, codes: MarketTable, code: string): Pair {
    if code in m.positions then m.positions[code]
    else Pair(EmptyPosition(codes, code), EmptyPosition(codes, code))
  }

  /** Looking a position up creates it. */
  function Touch(m: Master, codes: MarketTable, code: string): Master {
    m.(positions := m.positions[code := PairOf(m, codes, code)])
  }

  function Side(pair: Pair, long: bool): Position {
    if long then pair.long else pair.short
  }

  function WithSide(pair: Pair, long: bool, p: Position): Pair {
    if long then pair.(long := p) else pair.(short := p)
  }

  function Apply(m: Master, codes: MarketTable, code: string, bs: BsFlag, oc: OcFlag,
                 ordered: int, matched: int, withdrawn: int): Master
  {
    var pair := PairOf(m, codes, code);
    var p := Side(pair, OnLong(bs, oc));
    var q := Update(p, oc, ordered, matched, withdrawn);
    m.(positions := m.positions[code := WithSide(pair, OnLong(bs, oc), q)],
       openCache := CacheAfter(m.openCache, m.limits, p, oc, ordered, withdrawn))
  }

  function HandleOrderReq(m: Master, codes: MarketTable, bs: BsFlag, o: Order): Master {
    if !Trades(bs) || !AboveZero(o.oc) || !m.initialised then m
    else Apply(m, codes, o.code, bs, o.oc, o.volume, 0, 0)
  }

  /** A reply with an order number confirms the order; one without is a rejection. */
  function HandleOrderRep(m: Master, codes: MarketTable, bs: BsFlag, o: Order): Master {
    if o.orderNo != "" || !Trades(bs) || !m.initialised then m
    else Apply(m, codes, o.code, bs, o.oc, 0, 0, o.volume)
  }

  /** A report that is complete and not yet seen. */
  predicate Counts(m: Master, k: Knock) {
    && k.fundId != "" && k.matchNo != "" && k.code != "" && Trades(k.bs) && k.volume > 0
    && m.initialised && k.matchNo !in m.knocks
  }

  function HandleKnock(m: Master, codes: MarketTable, k: Knock): Master {
    if !Counts(m, k) then m
    else
      var n := m.(knocks := m.knocks + {k.matchNo});
      if k.matchType.MatchOK? then Apply(n, codes, k.code, k.bs, k.oc, 0, k.volume, 0)
      else if k.matchType.OtherMatch? then Touch(n, codes, k.code)
      else Apply(n, codes, k.code, k.bs, k.oc, 0, 0, k.volume)
  }

  // ---- Choosing between opening and closing ----

  function MarketOf(codes: MarketTable, o: Order): Market {
    if o.market.Some? then o.market.value else codes(o.code)
  }

  /** The opposite position, which a buy or a sell may close. */
  function ClosedBy(m: Master, codes: MarketTable, bs: BsFlag, code: string): Position {
    Side(PairOf(m, codes, code), !bs.Buy?)
  }

  function OpenedToday(m: Master, code: string): int {
    if ContractType(code) in m.openCache then m.openCache[ContractType(code)] else 0
  }

  predicate OverCap(m: Master, o: Order) {
    m.limits.maxTodayOpening >= 0 && o.volume + OpenedToday(m, o.code) > m.limits.maxTodayOpening
  }

  /** Opening an index future is refused, with no flag, when it would pass the cap. */
  function Allow(m: Master, market: Market, o: Order, oc: OcFlag): Option<OcFlag> {
    if market.CFFEX? && oc.Open? && OverCap(m, o) then None else Some(oc)
  }

  /** Index futures close only yesterday's holding, and only before any opening is counted; whatever
      the order says, the flag is then one of these two. */
  function AutoChoice(market: Market, openedToday: int, p: Position, o: Order): OcFlag {
    if market.CFFEX? then
      if o.oc.Auto? && openedToday == 0 && p.YesterdayAvailable() >= o.volume then Close else Open
    else if !o.oc.Auto? then o.oc
    else if market.SHFE? || market.INE? then
      if p.YesterdayAvailable() >= o.volume then CloseYesterday
      else if p.TodayAvailable() > o.volume then CloseToday else Open
    else if p.YesterdayAvailable() + p.TodayAvailable() >= o.volume then Close else Open
  }

  function YesterdayChoice(market: Market, openedToday: int, p: Position, o: Order): OcFlag {
    if market.CFFEX? then
      if openedToday == 0 && p.YesterdayAvailable() >= o.volume then Close else Open
    else if p.YesterdayAvailable() < o.volume then Open
    else if market.SHFE? || market.INE? then CloseYesterday else Close
  }

  function GetAutoOcFlag(m: Master, codes: MarketTable, bs: BsFlag, o: Order): Option<OcFlag> {
    var market := MarketOf(codes, o);
    Allow(m, market, o, AutoChoice(market, OpenedToday(m, o.code), ClosedBy(m, codes, bs, o.code), o))
  }

  function GetCloseYesterdayFlag(m: Master, codes: MarketTable, bs: BsFlag, o: Order): Option<OcFlag> {
    var market := MarketOf(codes, o);
    Allow(m, market, o, YesterdayChoice(market, OpenedToday(m, o.code), ClosedBy(m, codes, bs, o.code), o))
  }

  // ---- The start of a day ----

  function WithType(cache: map<string, int>, t: string): map<string, int> {
    if t in cache then cache else cache[t := 0]
  }

  function WithTypes(cache: map<string, int>): map<string, int> {
    WithType(WithType(WithType(WithType(cache, "IF"), "IH"), "IC"), "IM")
  }

  function LongToday(h: Holding): int { h.longVolume - h.longPre }

  function ShortToday(h: Holding): int { h.shortVolume - h.shortPre }

  function StartPair(pair: Pair, h: Holding): Pair {
    Pair(pair.long.(ydInit := h.longPre, tdInit := LongToday(h)),
         pair.short.(ydInit := h.shortPre, tdInit := ShortToday(h)))
  }

  function AddToday(cache: map<string, int>, p: Position): map<string, int> {
    var t := ContractType(p.code);
    if p.market.CFFEX? && t in cache then cache[t := cache[t] + p.tdInit] else cache
  }

  function InitOne(m: Master, codes: MarketTable, h: Holding): Master {
    var pair := StartPair(PairOf(m, codes, h.code), h);
    m.(positions := m.positions[h.code := pair],
       openCache := AddToday(AddToday(m.openCache, pair.long), pair.short))
  }

  function InitAll(m: Master, codes: MarketTable, items: seq<Holding>): Master
    decreases |items|
  {
    if items == [] then m else InitAll(InitOne(m, codes, items[0]), codes, items[1..])
  }

  /** Starts from a report, forgetting positions but neither seen reports nor counted openings. */
  function InitPositions(m: Master, codes: MarketTable, limits: Limits, items: seq<Holding>): Master {
    var n := m.(positions := map[], limits := limits, openCache := WithTypes(m.openCache));
    InitAll(n, codes, items).(initialised := true)
  }
}

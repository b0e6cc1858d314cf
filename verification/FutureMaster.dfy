/** The futures positions of an account as they are updated in place. */
module FutureMaster {
  import opened Options
  import opened Trading
  import opened FuturePositions

  class FuturePosition {
    const code: string
    const market: Market
    var ydInit: int
    var ydClosing: int
    var ydClose: int
    var tdInit: int
    var tdClosing: int
    var tdClose: int
    var tdOpening: int
    var tdOpen: int

    constructor (code: string, codes: MarketTable)
      ensures View() == EmptyPosition(codes, code)
    {
      this.code, market := code, codes(code);
      ydInit, ydClosing, ydClose := 0, 0, 0;
      tdInit, tdClosing, tdClose, tdOpening, tdOpen := 0, 0, 0, 0, 0;
    }

    ghost function View(): Position
      reads this
    {
      Position(code, market, ydInit, ydClosing, ydClose, tdInit, tdClosing, tdClose, tdOpening, tdOpen)
    }

    function YesterdayAvailable(): (v: int)
      reads this
      ensures v == View().YesterdayAvailable()
    {
      ydInit - ydClosing - ydClose
    }

    function TodayAvailable(): (v: int)
      reads this
      ensures v == View().TodayAvailable()
    {
      tdInit + tdOpen - tdClosing - tdClose
    }

    method UpdateOpen(ordered: int, matched: int, withdrawn: int)
      modifies this
      ensures View() == Update(old(View()), Open, ordered, matched, withdrawn)
    {
      if ordered > 0 {
        tdOpening := tdOpening + ordered;
      }
      if matched > 0 {
        tdOpening, tdOpen := tdOpening - matched, tdOpen + matched;
      }
      if withdrawn > 0 && tdOpening > withdrawn {
        tdOpening := tdOpening - withdrawn;
      }
    }

    method UpdateCloseToday(ordered: int, matched: int, withdrawn: int)
      modifies this
      ensures View() == Update(old(View()), CloseToday, ordered, matched, withdrawn)
    {
      if ordered > 0 {
        tdClosing := tdClosing + ordered;
      }
      if matched > 0 {
        if tdClosing >= matched {
          tdClosing := tdClosing - matched;
        }
        tdClose := tdClose + matched;
      }
      assert View() == Filled(Frozen(old(View()), CloseToday, ordered), CloseToday, matched);
      if withdrawn > 0 && tdClosing >= withdrawn {
        tdClosing := tdClosing - withdrawn;
      }
    }

    /** Closes yesterday's holding, by its own flag or where a close means that. */
    method UpdateCloseYesterday(oc: OcFlag, ordered: int, matched: int, withdrawn: int)
      requires oc.CloseYesterday? || (IsClose(oc) && SplitsClosing(market))
      modifies this
      ensures View() == Update(old(View()), oc, ordered, matched, withdrawn)
    {
      if ordered > 0 {
        ydClosing := ydClosing + ordered;
      }
      assert View() == Frozen(old(View()), oc, ordered);
      if matched > 0 {
        if ydClosing >= matched {
          ydClosing := ydClosing - matched;
        }
        ydClose := ydClose + matched;
      }
      assert View() == Filled(Frozen(old(View()), oc, ordered), oc, matched);
      if withdrawn > 0 && ydClosing >= withdrawn {
        ydClosing := ydClosing - withdrawn;
      }
    }

    method FreezeEither(oc: OcFlag, ordered: int)
      requires IsClose(oc) && !SplitsClosing(market)
      modifies this
      ensures View() == Frozen(old(View()), oc, ordered)
    {
      if ordered > 0 {
        var today := TodayAvailable();
        if today >= ordered {
          tdClosing := tdClosing + ordered;
        } else {
          tdClosing, ydClosing := tdClosing + today, ydClosing + (ordered - today);
        }
      }
    }

    method FillEither(oc: OcFlag, matched: int)
      requires IsClose(oc) && !SplitsClosing(market)
      modifies this
      ensures View() == Filled(old(View()), oc, matched)
    {
      if matched > 0 {
        var today, yesterday := matched, 0;
        if tdClosing < matched {
          today, yesterday := tdClosing, matched - tdClosing;
        }
        tdClosing, tdClose := tdClosing - today, tdClose + today;
        ydClosing, ydClose := ydClosing - yesterday, ydClose + yesterday;
      }
    }

    method ReleaseEither(oc: OcFlag, withdrawn: int)
      requires IsClose(oc) && !SplitsClosing(market)
      modifies this
      ensures View() == Released(old(View()), oc, withdrawn)
    {
      if withdrawn > 0 {
        var today, yesterday := withdrawn, 0;
        if tdClosing < withdrawn {
          today, yesterday := tdClosing, withdrawn - tdClosing;
        }
        tdClosing, ydClosing := tdClosing - today, ydClosing - yesterday;
      }
    }

    /** Closes today's holding first, then yesterday's. */
    method UpdateCloseEither(oc: OcFlag, ordered: int, matched: int, withdrawn: int)
      requires IsClose(oc) && !SplitsClosing(market)
      modifies this
      ensures View() == Update(old(View()), oc, ordered, matched, withdrawn)
    {
      FreezeEither(oc, ordered);
      FillEither(oc, matched);
      ReleaseEither(oc, withdrawn);
    }
  }

  lemma LastPairStays(pairs: map<string, Pair>, code: string, a: Pair, b: Pair)
    ensures pairs[code := a][code := b] == pairs[code := b]
  {}

  class InnerFutureMaster {
    const codes: MarketTable
    var initialised: bool
    var positions: map<string, (FuturePosition, FuturePosition)>
    var knocks: set<string>
    var forbidClosingToday: bool
    var maxTodayOpening: int
    var openCache: map<string, int>

    constructor (codes: MarketTable)
      ensures Valid() && this.codes == codes && View() == EMPTY_MASTER
    {
      this.codes := codes;
      initialised, forbidClosingToday, maxTodayOpening := false, false, 0;
      positions, knocks, openCache := map[], {}, map[];
    }

    ghost function Objects(): set<FuturePosition>
      reads `positions
    {
      (set c | c in positions :: positions[c].0) + (set c | c in positions :: positions[c].1)
    }

    /** No two positions are the same object. */
    ghost predicate Valid()
      reads `positions
    {
      && (forall c, d | c in positions && d in positions :: positions[c].0 != positions[d].1)
      && (forall c, d | c in positions && d in positions && c != d ::
            positions[c].0 != positions[d].0 && positions[c].1 != positions[d].1)
    }

    ghost function PairViews(): map<string, Pair>
      reads `positions, Objects()
    {
      map c | c in positions :: Pair(positions[c].0.View(), positions[c].1.View())
    }

    function LimitsView(): Limits
      reads this
    {
      Limits(forbidClosingToday, maxTodayOpening)
    }

    ghost function View(): Master
      reads this, Objects()
    {
      Master(PairViews(), knocks, openCache, LimitsView(), initialised)
    }

    function SideAt(code: string, long: bool): FuturePosition
      requires code in positions
      reads `positions
    {
      if long then positions[code].0 else positions[code].1
    }

    /** Creates both positions of a code when it is first seen. */
    method EnsurePair(code: string)
      requires Valid()
      modifies `positions
      ensures Valid() && code in positions && fresh(Objects() - old(Objects()))
      ensures PairViews() == old(PairViews())[code := PairOf(old(View()), codes, code)]
    {
      if code !in positions {
        var long := new FuturePosition(code, codes);
        var short := new FuturePosition(code, codes);
        positions := positions[code := (long, short)];
      }
    }

    /** Finds the position an order works on. */
    method GetPosition(code: string, bs: BsFlag, oc: OcFlag) returns (pos: FuturePosition)
      requires Valid()
      modifies `positions
      ensures Valid() && code in positions && fresh(Objects() - old(Objects()))
      ensures pos == SideAt(code, OnLong(bs, oc))
      ensures PairViews() == old(PairViews())[code := PairOf(old(View()), codes, code)]
      ensures View() == Touch(old(View()), codes, code)
    {
      EnsurePair(code);
      pos := SideAt(code, OnLong(bs, oc));
    }

    /** Changing one position changes the view of its side of its code only. */
    twostate lemma LongChanged(code: string)
      requires old(Valid()) && positions == old(positions) && code in positions
      requires forall c | c in positions && c != code :: unchanged(positions[c].0)
      requires forall c | c in positions :: unchanged(positions[c].1)
      ensures PairViews() == old(PairViews())[code := old(PairViews())[code].(long := positions[code].0.View())]
    {}

    twostate lemma ShortChanged(code: string)
      requires old(Valid()) && positions == old(positions) && code in positions
      requires forall c | c in positions :: unchanged(positions[c].0)
      requires forall c | c in positions && c != code :: unchanged(positions[c].1)
      ensures PairViews() == old(PairViews())[code := old(PairViews())[code].(short := positions[code].1.View())]
    {}

    method UpdateCache(pos: FuturePosition, ordered: int, withdrawn: int)
      modifies `openCache
      ensures openCache == CacheAfter(old(openCache), LimitsView(), pos.View(), Open, ordered, withdrawn)
    {
      if forbidClosingToday && pos.market.CFFEX? {
        if |pos.code| > CFFEX_OPTION_LENGTH {
          return;
        }
        var t := ContractType(pos.code);
        if t in openCache {
          if ordered > 0 {
            openCache := openCache[t := openCache[t] + ordered];
          }
          if withdrawn > 0 {
            openCache := openCache[t := openCache[t] - ordered];
          }
        }
      }
    }

    method Update(pos: FuturePosition, oc: OcFlag, ordered: int, matched: int, withdrawn: int)
      modifies pos, `openCache
      ensures pos.View() == FuturePositions.Update(old(pos.View()), oc, ordered, matched, withdrawn)
      ensures openCache == CacheAfter(old(openCache), LimitsView(), old(pos.View()), oc, ordered, withdrawn)
    {
      if oc.Open? {
        pos.UpdateOpen(ordered, matched, withdrawn);
        UpdateCache(pos, ordered, withdrawn);
      } else if oc.CloseToday? {
        pos.UpdateCloseToday(ordered, matched, withdrawn);
      } else if oc.CloseYesterday? || (IsClose(oc) && SplitsClosing(pos.market)) {
        pos.UpdateCloseYesterday(oc, ordered, matched, withdrawn);
      } else if IsClose(oc) {
        pos.UpdateCloseEither(oc, ordered, matched, withdrawn);
      }
    }

    /** Updates a position that was just found, and with it the view of its code. */
    method UpdateFound(pos: FuturePosition, code: string, oc: OcFlag, long: bool,
                       ordered: int, matched: int, withdrawn: int, ghost pair: Pair)
      requires Valid() && code in positions && pos == SideAt(code, long) && pair == PairViews()[code]
      modifies pos, `openCache
      ensures openCache == CacheAfter(old(openCache), LimitsView(), Side(pair, long), oc, ordered, withdrawn)
      ensures PairViews() ==
              old(PairViews())[code := WithSide(pair, long,
                FuturePositions.Update(Side(pair, long), oc, ordered, matched, withdrawn))]
    {
      Update(pos, oc, ordered, matched, withdrawn);
      if long {
        LongChanged(code);
      } else {
        ShortChanged(code);
      }
    }

    method ApplyTo(code: string, bs: BsFlag, oc: OcFlag, ordered: int, matched: int, withdrawn: int)
      requires Valid()
      modifies `positions, `openCache, Objects()
      ensures Valid() && fresh(Objects() - old(Objects()))
      ensures View() == Apply(old(View()), codes, code, bs, oc, ordered, matched, withdrawn)
    {
      ghost var pair := PairOf(View(), codes, code);
      var pos := GetPosition(code, bs, oc);
      var long := OnLong(bs, oc);
      UpdateFound(pos, code, oc, long, ordered, matched, withdrawn, pair);
      LastPairStays(old(PairViews()), code, pair,
                    WithSide(pair, long, FuturePositions.Update(Side(pair, long), oc, ordered, matched, withdrawn)));
    }

    method HandleOrderReq(bs: BsFlag, o: Order)
      requires Valid()
      modifies this, Objects()
      ensures Valid() && fresh(Objects() - old(Objects()))
      ensures View() == FuturePositions.HandleOrderReq(old(View()), codes, bs, o)
    {
      if !Trades(bs) || !AboveZero(o.oc) || !initialised {
        return;
      }
      ApplyTo(o.code, bs, o.oc, o.volume, 0, 0);
    }

    method HandleOrderRep(bs: BsFlag, o: Order)
      requires Valid()
      modifies this, Objects()
      ensures Valid() && fresh(Objects() - old(Objects()))
      ensures View() == FuturePositions.HandleOrderRep(old(View()), codes, bs, o)
    {
      if o.orderNo != "" || !Trades(bs) || !initialised {
        return;
      }
      ApplyTo(o.code, bs, o.oc, 0, 0, o.volume);
    }

    method HandleKnock(k: Knock)
      requires Valid()
      modifies this, Objects()
      ensures Valid() && fresh(Objects() - old(Objects()))
      ensures View() == FuturePositions.HandleKnock(old(View()), codes, k)
    {
      if k.fundId == "" || k.matchNo == "" || k.code == "" || !Trades(k.bs) || k.volume <= 0 || !initialised {
        return;
      }
      if k.matchNo in knocks {
        return;
      }
      knocks := knocks + {k.matchNo};
      var matched, withdrawn := 0, 0;
      if k.matchType.MatchOK? {
        matched := k.volume;
      } else if k.matchType.MatchWithdrawOK? || k.matchType.MatchFailed? {
        withdrawn := k.volume;
      }
      if matched > 0 || withdrawn > 0 {
        ApplyTo(k.code, k.bs, k.oc, 0, matched, withdrawn);
      } else {
        var _ := GetPosition(k.code, k.bs, k.oc);
      }
    }

    /** The opposite position, which a buy or a sell may close. */
    method OppositeOf(bs: BsFlag, code: string) returns (pos: FuturePosition)
      requires Valid()
      modifies `positions
      ensures Valid() && fresh(Objects() - old(Objects()))
      ensures View() == Touch(old(View()), codes, code)
      ensures pos.View() == ClosedBy(old(View()), codes, bs, code)
    {
      EnsurePair(code);
      pos := if bs.Buy? then positions[code].1 else positions[code].0;
      assert Side(PairViews()[code], !bs.Buy?) == pos.View();
    }

    function OpenedOf(code: string): (v: int)
      reads this
    {
      if ContractType(code) in openCache then openCache[ContractType(code)] else 0
    }

    method GetAutoOcFlag(bs: BsFlag, o: Order) returns (r: Option<OcFlag>)
      requires Valid()
      modifies `positions
      ensures Valid() && fresh(Objects() - old(Objects()))
      ensures View() == Touch(old(View()), codes, o.code)
      ensures r == FuturePositions.GetAutoOcFlag(old(View()), codes, bs, o)
    {
      var market := if o.market.Some? then o.market.value else codes(o.code);
      ghost var p := ClosedBy(View(), codes, bs, o.code);
      var pos := OppositeOf(bs, o.code);
      var yesterday := pos.YesterdayAvailable();
      var today := pos.TodayAvailable();
      var openedToday := OpenedOf(o.code);
      var oc := Open;
      if market.CFFEX? {
        if o.oc.Auto? && openedToday == 0 && yesterday >= o.volume {
          oc := Close;
        }
      } else if !o.oc.Auto? {
        oc := o.oc;
      } else if market.SHFE? || market.INE? {
        if yesterday >= o.volume {
          oc := CloseYesterday;
        } else if today > o.volume {
          oc := CloseToday;
        }
      } else if yesterday + today >= o.volume {
        oc := Close;
      }
      assert oc == AutoChoice(market, openedToday, p, o);
      if market.CFFEX? && maxTodayOpening >= 0 && oc.Open? && o.volume + openedToday > maxTodayOpening {
        return None;
      }
      r := Some(oc);
    }

    method GetCloseYesterdayFlag(bs: BsFlag, o: Order) returns (r: Option<OcFlag>)
      requires Valid()
      modifies `positions
      ensures Valid() && fresh(Objects() - old(Objects()))
      ensures View() == Touch(old(View()), codes, o.code)
      ensures r == FuturePositions.GetCloseYesterdayFlag(old(View()), codes, bs, o)
    {
      var market := if o.market.Some? then o.market.value else codes(o.code);
      ghost var p := ClosedBy(View(), codes, bs, o.code);
      var pos := OppositeOf(bs, o.code);
      var yesterday := pos.YesterdayAvailable();
      var openedToday := OpenedOf(o.code);
      var oc := Open;
      if market.CFFEX? {
        if openedToday == 0 && yesterday >= o.volume {
          oc := Close;
        }
      } else if yesterday >= o.volume {
        oc := if market.SHFE? || market.INE? then CloseYesterday else Close;
      }
      assert oc == YesterdayChoice(market, openedToday, p, o);
      if market.CFFEX? && maxTodayOpening >= 0 && oc.Open? && o.volume + openedToday > maxTodayOpening {
        return None;
      }
      r := Some(oc);
    }

    /** Adds today's holding of an index future to the count of openings. */
    method CountHeld(pos: FuturePosition)
      modifies `openCache
      ensures openCache == AddToday(old(openCache), pos.View())
    {
      if pos.market.CFFEX? && pos.tdInit != 0 {
        var t := ContractType(pos.code);
        if t in openCache {
          openCache := openCache[t := openCache[t] + pos.tdInit];
        }
      }
    }

    method SetHeld(h: Holding, ghost pair: Pair)
      requires Valid() && h.code in positions && pair == PairViews()[h.code]
      modifies Objects()
      ensures PairViews() == old(PairViews())[h.code := StartPair(pair, h)]
    {
      var long, short := positions[h.code].0, positions[h.code].1;
      long.ydInit, long.tdInit := h.longPre, h.longVolume - h.longPre;
      LongChanged(h.code);
      label between:
      short.ydInit, short.tdInit := h.shortPre, h.shortVolume - h.shortPre;
      ShortChanged@between(h.code);
      LastPairStays(old(PairViews()), h.code, StartPair(pair, h).(short := pair.short), StartPair(pair, h));
    }

    /** Counts what both positions of a code held at the start. */
    method CountPair(code: string, ghost pair: Pair)
      requires code in positions && pair == PairViews()[code]
      modifies `openCache
      ensures openCache == AddToday(AddToday(old(openCache), pair.long), pair.short)
      ensures PairViews() == old(PairViews())
    {
      CountHeld(positions[code].0);
      CountHeld(positions[code].1);
    }

    method InitPair(h: Holding, ghost pair: Pair)
      requires Valid() && pair == PairOf(View(), codes, h.code)
      modifies `positions, Objects()
      ensures Valid() && fresh(Objects() - old(Objects())) && h.code in positions
      ensures PairViews() == old(PairViews())[h.code := StartPair(pair, h)]
    {
      EnsurePair(h.code);
      SetHeld(h, pair);
      LastPairStays(old(PairViews()), h.code, pair, StartPair(pair, h));
    }

    method InitItem(h: Holding, ghost m: Master)
      requires Valid() && m == View()
      modifies `positions, `openCache, Objects()
      ensures Valid() && fresh(Objects() - old(Objects()))
      ensures View() == InitOne(m, codes, h)
    {
      ghost var pair := PairOf(m, codes, h.code);
      InitPair(h, pair);
      CountPair(h.code, StartPair(pair, h));
    }

    method InitItems(items: seq<Holding>, ghost m: Master)
      requires Valid() && m == View()
      modifies `positions, `openCache, Objects()
      ensures Valid()
      ensures View() == InitAll(m, codes, items)
    {
      for i := 0 to |items|
        invariant Valid() && fresh(Objects() - old(Objects()))
        invariant InitAll(View(), codes, items[i..]) == InitAll(m, codes, items)
      {
        assert items[i..][1..] == items[i + 1..];
        InitItem(items[i], View());
      }
    }

    method Clear(limits: Limits, ghost m: Master)
      requires m == View()
      modifies this
      ensures positions == map[]
      ensures View() == m.(positions := map[], limits := limits, openCache := WithTypes(m.openCache))
    {
      forbidClosingToday, maxTodayOpening := limits.forbidClosingToday, limits.maxTodayOpening;
      positions := map[];
      openCache := WithTypes(openCache);
    }

    method MarkInitialised(ghost m: Master)
      requires m == View()
      modifies `initialised
      ensures View() == m.(initialised := true)
    {
      initialised := true;
    }

    /** Starts the day from a report of positions, with the limits as configured. */
    method InitPositions(limits: Limits, items: seq<Holding>)
      requires Valid()
      modifies this
      ensures Valid()
      ensures View() == FuturePositions.InitPositions(old(View()), codes, limits, items)
    {
      Clear(limits, View());
      InitItems(items, View());
      MarkInitialised(View());
    }
  }
}

/** The day's quota across crashes and restarts. */
module DailyQuota {
  import opened Options
  import opened FlowMessages
  import opened MarketLimiter
  import opened StateLog

  /** The date, the markets with a queue of their own and the limits of each. */
  datatype Setup = Setup(date: int, markets: seq<int>, limits: map<int, Limits>)

  ghost predicate ProperSetup(c: Setup) {
    && (forall i, j | 0 <= i < j < |c.markets| :: c.markets[i] != c.markets[j])
    && (forall i | 0 <= i < |c.markets| :: c.markets[i] in c.limits)
  }

  datatype Key = Key(fund: string, market: int)

  /** A running broker: queue `i` serves market `i` and writes through to record `first + i`. */
  datatype Session = Session(fund: string, first: nat, queues: seq<Tracked>)

  /** What a crash leaves is the file; `handed` counts the commands that left the process, and
      `pending` is a release already written to the file but not yet handed out. */
  datatype World = World(log: seq<Record>, live: Option<Session>, pending: Option<(Key, nat)>, handed: map<Key, nat>)

  datatype Event =
    | Start(fund: string, clock: int)
    | Feed(index: nat, item: FlowItem)
    | Visit(index: nat, now: int)
    | HandOut
    | Crash

  function Handed(w: World, k: Key): nat {
    if k in w.handed then w.handed[k] else 0
  }

  function Pending(w: World, k: Key): nat {
    if w.pending.Some? && w.pending.value.0 == k then w.pending.value.1 else 0
  }

  function Boot(c: Setup, w: World, fund: string, clock: int): World
    requires ProperSetup(c)
  {
    var added := StartRecords(w.log, fund, c.markets, c.date);
    var queues := seq(|c.markets|, i requires 0 <= i < |c.markets| =>
      Recover(Fresh(c.limits[c.markets[i]], clock, 0, None), added[i].total));
    World(w.log + added, Some(Session(fund, |w.log|, queues)), None, w.handed)
  }

  /** Events that do not apply (a visit without a running broker, say) change nothing. */
  function Step(c: Setup, w: World, e: Event): World
    requires ProperSetup(c) && Shaped(c, w)
  {
    match e
    case Start(fund, clock) => if w.live.None? then Boot(c, w, fund, clock) else w
    case Feed(i, item) =>
      if w.live.None? || i >= |c.markets| then w
      else
        var s := w.live.value;
        w.(live := Some(s.(queues := s.queues[i := Accept(s.queues[i], item)])))
    case Visit(i, now) =>
      if w.live.None? || i >= |c.markets| || w.pending.Some? then w
      else
        var s := w.live.value;
        var (y, o) := Pop(s.queues[i], now);
        // the total reaches the record before the message leaves the queue
        var log := w.log[s.first + i := w.log[s.first + i].(total := y.q.total)];
        w.(log := log, live := Some(s.(queues := s.queues[i := y])),
           pending := if o.Released? then Some((Key(s.fund, c.markets[i]), o.item.cmdSize)) else None)
    case HandOut =>
      if w.pending.None? then w
      else
        var (k, size) := w.pending.value;
        w.(pending := None, handed := w.handed[k := Handed(w, k) + size])
    case Crash => w.(live := None, pending := None)
  }

  ghost predicate Shaped(c: Setup, w: World) {
    w.live.Some? ==> |w.live.value.queues| == |c.markets| && w.live.value.first + |c.markets| == |w.log|
  }

  /** The running broker's totals are the ones in its records, and the scan would find them. */
  ghost predicate Synchronised(c: Setup, w: World, s: Session, i: nat)
    requires i < |c.markets| == |s.queues| && s.first + |c.markets| == |w.log| && ProperSetup(c)
  {
    var q := s.queues[i].q;
    && q.limits == c.limits[c.markets[i]]
    && q.stored == Some(q.total)
    && w.log[s.first + i] == Record(c.date, s.fund, c.markets[i], q.total)
    && Scan(w.log, s.fund, c.markets[i], c.date) == q.total
  }

  function Most(a: int, b: int): int {
    if a <= b then b else a
  }

  /** `base` is the file the day's runs began with. */
  ghost predicate WithinQuota(c: Setup, base: seq<Record>, w: World, k: Key) {
    var start, total := Scan(base, k.fund, k.market, c.date), Scan(w.log, k.fund, k.market, c.date);
    && start + Handed(w, k) + Pending(w, k) <= total
    && (k.market in c.limits && c.limits[k.market].daily > 0 ==> total <= Most(c.limits[k.market].daily, start))
  }

  ghost predicate QuotaInv(c: Setup, base: seq<Record>, w: World)
    requires ProperSetup(c)
  {
    && Shaped(c, w)
    && (w.live.Some? ==> forall i | 0 <= i < |c.markets| :: Synchronised(c, w, w.live.value, i))
    && (forall k :: WithinQuota(c, base, w, k))
  }

  lemma StartKeeps(c: Setup, base: seq<Record>, w: World, fund: string, clock: int)
    requires ProperSetup(c) && QuotaInv(c, base, w) && w.live.None?
    ensures QuotaInv(c, base, Boot(c, w, fund, clock))
  {
    var b := Boot(c, w, fund, clock);
    var added := StartRecords(w.log, fund, c.markets, c.date);
    assert added[..|c.markets|] == added;
    forall k ensures WithinQuota(c, base, b, k) {
      assert WithinQuota(c, base, w, k);
      StartKeepsScan(w.log, fund, c.markets, c.date, |c.markets|, k.fund, k.market);
    }
    forall i | 0 <= i < |c.markets| ensures Synchronised(c, b, b.live.value, i) {
      StartKeepsScan(w.log, fund, c.markets, c.date, |c.markets|, fund, c.markets[i]);
    }
  }

  /** Writing a total through raises what the scan finds for that market's key and no other. */
  lemma WriteThrough(c: Setup, base: seq<Record>, w: World, i: nat, total: int, k: Key)
    requires ProperSetup(c) && QuotaInv(c, base, w) && w.live.Some? && i < |c.markets|
    requires w.live.value.queues[i].q.total <= total
    ensures var s := w.live.value;
            Scan(w.log[s.first + i := w.log[s.first + i].(total := total)], k.fund, k.market, c.date) ==
            if k == Key(s.fund, c.markets[i]) then total else Scan(w.log, k.fund, k.market, c.date)
  {
    var s := w.live.value;
    assert Synchronised(c, w, s, i);
    forall j | s.first + i < j < |w.log|
      ensures w.log[j] == Record(c.date, s.fund, c.markets[j - s.first], w.log[j].total)
    {
      assert Synchronised(c, w, s, j - s.first);
    }
    ScanRaise(w.log, s.first + i, total, k.fund, k.market);
  }

  lemma VisitKeeps(c: Setup, base: seq<Record>, w: World, i: nat, now: int)
    requires ProperSetup(c) && QuotaInv(c, base, w)
    ensures QuotaInv(c, base, Step(c, w, Event.Visit(i, now)))
  {
    if w.live.Some? && i < |c.markets| && w.pending.None? {
      var s := w.live.value;
      assert Synchronised(c, w, s, i);
      PopTotals(s.queues[i], now);
      var (y, o) := Pop(s.queues[i], now);
      var v := Step(c, w, Event.Visit(i, now));
      forall j | 0 <= j < |c.markets| ensures Synchronised(c, v, v.live.value, j) {
        assert Synchronised(c, w, s, j);
        WriteThrough(c, base, w, i, y.q.total, Key(s.fund, c.markets[j]));
      }
      forall k ensures WithinQuota(c, base, v, k) {
        assert WithinQuota(c, base, w, k);
        WriteThrough(c, base, w, i, y.q.total, k);
      }
    }
  }

  lemma StepKeeps(c: Setup, base: seq<Record>, w: World, e: Event)
    requires ProperSetup(c) && QuotaInv(c, base, w)
    ensures QuotaInv(c, base, Step(c, w, e))
  {
    var v := Step(c, w, e);
    match e
    case Start(fund, clock) =>
      if w.live.None? {
        StartKeeps(c, base, w, fund, clock);
      }
    case Visit(i, now) => VisitKeeps(c, base, w, i, now);
    case Feed(i, item) =>
      if w.live.Some? && i < |c.markets| {
        forall j | 0 <= j < |c.markets| ensures Synchronised(c, v, v.live.value, j) {
          assert Synchronised(c, w, w.live.value, j);
        }
        forall k ensures WithinQuota(c, base, v, k) {
          assert WithinQuota(c, base, w, k);
        }
      }
    case Crash =>
      forall k ensures WithinQuota(c, base, v, k) {
        assert WithinQuota(c, base, w, k);
      }
    case HandOut =>
      forall k ensures WithinQuota(c, base, v, k) {
        assert WithinQuota(c, base, w, k);
      }
      if v.live.Some? {
        forall j | 0 <= j < |c.markets| ensures Synchronised(c, v, v.live.value, j) {
          assert Synchronised(c, w, w.live.value, j);
        }
      }
  }

  ghost function Run(c: Setup, base: seq<Record>, w: World, events: seq<Event>): World
    requires ProperSetup(c) && QuotaInv(c, base, w)
    decreases |events|
  {
    if events == [] then w
    else
      StepKeeps(c, base, w, events[0]);
      Run(c, base, Step(c, w, events[0]), events[1..])
  }

  lemma {:induction false} RunKeeps(c: Setup, base: seq<Record>, w: World, events: seq<Event>)
    requires ProperSetup(c) && QuotaInv(c, base, w)
    ensures QuotaInv(c, base, Run(c, base, w, events))
    decreases |events|
  {
    if events != [] {
      StepKeeps(c, base, w, events[0]);
      RunKeeps(c, base, Step(c, w, events[0]), events[1..]);
    }
  }

  /** Through any starts, visits, crashes and restarts of one date, what left the process is covered by
      the growth of the total in the file, and that total never exceeds the day's limit, or what it was
      at the start if the limit was lowered below that. */
  lemma QuotaHolds(c: Setup, log: seq<Record>, events: seq<Event>, fund: string, market: int)
    requires ProperSetup(c) && market in c.limits && c.limits[market].daily > 0
    ensures var w := World(log, None, None, map[]);
            && QuotaInv(c, log, w)
            && var start, total :=
                 Scan(log, fund, market, c.date), Scan(Run(c, log, w, events).log, fund, market, c.date);
               start + Handed(Run(c, log, w, events), Key(fund, market)) <= total <= Most(c.limits[market].daily, start)
  {
    var w := World(log, None, None, map[]);
    RunKeeps(c, log, w, events);
    assert WithinQuota(c, log, Run(c, log, w, events), Key(fund, market));
  }

  /** A total that starts within the limit stays within it, also with what it started from. */
  lemma QuotaHoldsFromWithin(c: Setup, log: seq<Record>, events: seq<Event>, fund: string, market: int)
    requires ProperSetup(c) && market in c.limits && c.limits[market].daily > 0
    requires Scan(log, fund, market, c.date) <= c.limits[market].daily
    ensures var w := World(log, None, None, map[]);
            && QuotaInv(c, log, w)
            && Scan(log, fund, market, c.date) + Handed(Run(c, log, w, events), Key(fund, market))
               <= c.limits[market].daily
  {
    QuotaHolds(c, log, events, fund, market);
  }
}

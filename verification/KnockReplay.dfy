/** Trade reports may be delivered again: only the first of each number does anything. */
module KnockReplay {
  import opened Trading
  import opened FuturePositions

  function Process(m: Master, codes: MarketTable, knocks: seq<Knock>): Master
    decreases |knocks|
  {
    if knocks == [] then m else Process(HandleKnock(m, codes, knocks[0]), codes, knocks[1..])
  }

  predicate Complete(k: Knock) {
    k.fundId != "" && k.matchNo != "" && k.code != "" && Trades(k.bs) && k.volume > 0
  }

  /** The reports without later repeats of a number already accepted. */
  function FirstReports(seen: set<string>, knocks: seq<Knock>): seq<Knock>
    decreases |knocks|
  {
    if knocks == [] then []
    else if !Complete(knocks[0]) then [knocks[0]] + FirstReports(seen, knocks[1..])
    else if knocks[0].matchNo in seen then FirstReports(seen, knocks[1..])
    else [knocks[0]] + FirstReports(seen + {knocks[0].matchNo}, knocks[1..])
  }

  /** No accepted number stands twice, or stands again. */
  predicate Distinct(seen: set<string>, knocks: seq<Knock>)
    decreases |knocks|
  {
    knocks == [] ||
    if !Complete(knocks[0]) then Distinct(seen, knocks[1..])
    else knocks[0].matchNo !in seen && Distinct(seen + {knocks[0].matchNo}, knocks[1..])
  }

  lemma {:induction false} FirstReportsAreDistinct(seen: set<string>, knocks: seq<Knock>)
    ensures Distinct(seen, FirstReports(seen, knocks))
    decreases |knocks|
  {
    if knocks != [] {
      var now := if Complete(knocks[0]) && knocks[0].matchNo !in seen then seen + {knocks[0].matchNo} else seen;
      FirstReportsAreDistinct(now, knocks[1..]);
      var rest := FirstReports(now, knocks[1..]);
      assert ([knocks[0]] + rest)[1..] == rest;
    }
  }

  /** Dropping repeats leaves positions, seen numbers and counted openings as they would be. */
  lemma {:induction false} RepeatsChangeNothing(m: Master, codes: MarketTable, knocks: seq<Knock>)
    requires m.initialised
    ensures Process(m, codes, knocks) == Process(m, codes, FirstReports(m.knocks, knocks))
    decreases |knocks|
  {
    if knocks != [] {
      var k, rest := knocks[0], knocks[1..];
      var n := HandleKnock(m, codes, k);
      RepeatsChangeNothing(n, codes, rest);
      assert n.knocks == if Complete(k) then m.knocks + {k.matchNo} else m.knocks;
      if Complete(k) && k.matchNo in m.knocks {
        assert n == m;
      } else {
        var first := FirstReports(n.knocks, rest);
        assert ([k] + first)[1..] == first;
      }
    }
  }

  lemma {:induction false} ProcessSees(m: Master, codes: MarketTable, knocks: seq<Knock>)
    requires m.initialised
    ensures var n := Process(m, codes, knocks);
            && n.initialised && m.knocks <= n.knocks
            && forall k | k in knocks && Complete(k) :: k.matchNo in n.knocks
    decreases |knocks|
  {
    if knocks != [] {
      ProcessSees(HandleKnock(m, codes, knocks[0]), codes, knocks[1..]);
      assert forall k | k in knocks :: k == knocks[0] || k in knocks[1..];
    }
  }

  lemma {:induction false} SeenReportsDoNothing(m: Master, codes: MarketTable, knocks: seq<Knock>)
    requires forall k | k in knocks && Complete(k) :: k.matchNo in m.knocks
    ensures Process(m, codes, knocks) == m
    decreases |knocks|
  {
    if knocks != [] {
      assert knocks[0] in knocks;
      SeenReportsDoNothing(m, codes, knocks[1..]);
    }
  }

  /** Delivering any of the reports again, in any order and any number of times, changes nothing. */
  lemma RedeliveryChangesNothing(m: Master, codes: MarketTable, knocks: seq<Knock>, again: seq<Knock>)
    requires m.initialised && forall k | k in again :: k in knocks
    ensures Process(Process(m, codes, knocks), codes, again) == Process(m, codes, knocks)
  {
    ProcessSees(m, codes, knocks);
    SeenReportsDoNothing(Process(m, codes, knocks), codes, again);
  }
}

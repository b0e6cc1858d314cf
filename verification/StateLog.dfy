/** The append-only file of daily totals, read backwards at a start. */
module StateLog {
  datatype Record = Record(date: int, fund: string, market: int, total: int)

  predicate ForKey(r: Record, fund: string, market: int, date: int) {
    r.date == date && r.fund == fund && r.market == market
  }

  /** What the backward scan finds for a key: the last positive total of the day, as long as no
      record of an earlier day stands behind it. */
  function Scan(log: seq<Record>, fund: string, market: int, date: int): nat {
    if log == [] then 0
    else
      var r, rest := log[|log| - 1], log[..|log| - 1];
      if r.date == date && r.total > 0 then
        if ForKey(r, fund, market, date) then r.total else Scan(rest, fund, market, date)
      else if r.date < date then 0
      else Scan(rest, fund, market, date)
  }

  /** The last positive total of the day for a key, wherever it stands. */
  ghost function LastTotal(log: seq<Record>, fund: string, market: int, date: int): nat {
    if log == [] then 0
    else
      var r := log[|log| - 1];
      if ForKey(r, fund, market, date) && r.total > 0 then r.total
      else LastTotal(log[..|log| - 1], fund, market, date)
  }

  ghost predicate Chronological(log: seq<Record>) {
    forall i, j | 0 <= i < j < |log| :: log[i].date <= log[j].date
  }

  lemma {:induction false} NothingBefore(log: seq<Record>, fund: string, market: int, date: int)
    requires forall i | 0 <= i < |log| :: log[i].date < date
    ensures LastTotal(log, fund, market, date) == 0
  {
    if log != [] {
      NothingBefore(log[..|log| - 1], fund, market, date);
    }
  }

  /** On a file whose dates never go back, stopping at the first older record misses nothing. */
  lemma {:induction false} ScanFindsLastTotal(log: seq<Record>, fund: string, market: int, date: int)
    requires Chronological(log)
    ensures Scan(log, fund, market, date) == LastTotal(log, fund, market, date)
  {
    if log != [] {
      if log[|log| - 1].date < date {
        NothingBefore(log, fund, market, date);
      } else {
        ScanFindsLastTotal(log[..|log| - 1], fund, market, date);
      }
    }
  }

  /** Record `i` is the last one with a positive total of the day for a key. */
  ghost predicate IsLast(log: seq<Record>, i: nat, fund: string, market: int, date: int) {
    && i < |log| && ForKey(log[i], fund, market, date) && log[i].total > 0
    && forall j | i < j < |log| :: !(ForKey(log[j], fund, market, date) && log[j].total > 0)
  }

  /** No record of an earlier day stands behind record `i`. */
  ghost predicate NothingOlderBehind(log: seq<Record>, i: nat, date: int) {
    forall j | i < j < |log| :: log[j].date >= date
  }

  /** Scan and last total, for a key with a positive total. */
  lemma {:induction false} ScanOfLast(log: seq<Record>, i: nat, fund: string, market: int, date: int)
    requires IsLast(log, i, fund, market, date)
    ensures LastTotal(log, fund, market, date) == log[i].total
    ensures Scan(log, fund, market, date) == if NothingOlderBehind(log, i, date) then log[i].total else 0
  {
    var n := |log| - 1;
    if i < n {
      ScanOfLast(log[..n], i, fund, market, date);
      assert NothingOlderBehind(log, i, date) <==> NothingOlderBehind(log[..n], i, date) && log[n].date >= date;
    }
  }

  lemma {:induction false} NothingForKey(log: seq<Record>, fund: string, market: int, date: int)
    requires forall i | 0 <= i < |log| :: !(ForKey(log[i], fund, market, date) && log[i].total > 0)
    ensures LastTotal(log, fund, market, date) == 0 == Scan(log, fund, market, date)
  {
    if log != [] {
      NothingForKey(log[..|log| - 1], fund, market, date);
    }
  }

  lemma {:induction false} LastExists(log: seq<Record>, fund: string, market: int, date: int) returns (i: nat)
    requires exists k | 0 <= k < |log| :: ForKey(log[k], fund, market, date) && log[k].total > 0
    ensures IsLast(log, i, fund, market, date)
  {
    i := |log| - 1;
    while !(ForKey(log[i], fund, market, date) && log[i].total > 0)
      invariant i < |log|
      invariant forall j | i < j < |log| :: !(ForKey(log[j], fund, market, date) && log[j].total > 0)
      decreases i
    {
      i := i - 1;
    }
  }

  /** The scan finds the day's last total exactly when no record of an earlier day stands behind it. */
  lemma ScanFindsLastTotalExactly(log: seq<Record>, fund: string, market: int, date: int)
    ensures Scan(log, fund, market, date) == LastTotal(log, fund, market, date) <==>
            forall i: nat | IsLast(log, i, fund, market, date) :: NothingOlderBehind(log, i, date)
  {
    if k: nat :| k < |log| && ForKey(log[k], fund, market, date) && log[k].total > 0 {
      var i := LastExists(log, fund, market, date);
      ScanOfLast(log, i, fund, market, date);
      assert forall j: nat | IsLast(log, j, fund, market, date) :: j == i;
    } else {
      NothingForKey(log, fund, market, date);
    }
  }

  /** A record out of order hides the totals behind it. */
  lemma OlderRecordHidesTotals(fund: string, market: int, date: int, total: int)
    requires total > 0
    ensures var log := [Record(date, fund, market, total), Record(date - 1, fund, market, total)];
            Scan(log, fund, market, date) == 0 && LastTotal(log, fund, market, date) == total
  {
    var log := [Record(date, fund, market, total), Record(date - 1, fund, market, total)];
    assert log[..1] == [Record(date, fund, market, total)];
    assert LastTotal(log[..1], fund, market, date) == total;
  }

  lemma ScanAppend(log: seq<Record>, r: Record, fund: string, market: int)
    ensures Scan(log + [r], fund, market, r.date) ==
            if ForKey(r, fund, market, r.date) && r.total > 0 then r.total else Scan(log, fund, market, r.date)
  {
    assert (log + [r])[..|log|] == log;
  }

  /** Raising the last record of a key raises what the scan finds for that key, and for no other. */
  lemma {:induction false} ScanRaise(log: seq<Record>, j: nat, total: int, fund: string, market: int)
    requires j < |log| && log[j].total <= total
    requires forall i | j <= i < |log| :: log[i].date == log[j].date
    requires forall i | j < i < |log| :: !ForKey(log[i], log[j].fund, log[j].market, log[j].date)
    ensures Scan(log[j := log[j].(total := total)], fund, market, log[j].date) ==
            if ForKey(log[j], fund, market, log[j].date) && total > 0 then total
            else Scan(log, fund, market, log[j].date)
  {
    var n := |log| - 1;
    var raised := log[j := log[j].(total := total)];
    if j < n {
      ScanRaise(log[..n], j, total, fund, market);
      assert raised[..n] == log[..n][j := log[j].(total := total)];
    } else {
      assert raised[..n] == log[..n];
    }
  }

  /** The records a start appends: one per market, with the total recovered from the file so far. */
  function StartRecords(log: seq<Record>, fund: string, markets: seq<int>, date: int): (r: seq<Record>)
    ensures |r| == |markets|
    ensures forall i | 0 <= i < |markets| :: r[i] == Record(date, fund, markets[i], Scan(log, fund, markets[i], date))
  {
    seq(|markets|, i requires 0 <= i < |markets| => Record(date, fund, markets[i], Scan(log, fund, markets[i], date)))
  }

  /** A start changes no total. */
  lemma {:induction false} StartKeepsScan(log: seq<Record>, own: string, markets: seq<int>, date: int,
                                          n: nat, fund: string, market: int)
    requires n <= |markets|
    ensures Scan(log + StartRecords(log, own, markets, date)[..n], fund, market, date) ==
            Scan(log, fund, market, date)
  {
    var added := StartRecords(log, own, markets, date);
    if n == 0 {
      assert log + added[..0] == log;
    } else {
      StartKeepsScan(log, own, markets, date, n - 1, fund, market);
      ScanAppend(log + added[..n - 1], added[n - 1], fund, market);
      assert log + added[..n] == (log + added[..n - 1]) + [added[n - 1]];
    }
  }
}

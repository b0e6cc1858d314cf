/** The checks a request passes before it is queued for flow control. */
module Validation {
  import opened Options
  import opened Trading
  import opened OrderNumbers
  import opened FlowMessages
  import opened FlowRouting

  /** The two market codes with a batch limit, their limits, and the library's code suffixes. */
  datatype Exchange = Exchange(sh: int, sz: int, shLimit: int, szLimit: int, codeToMarket: string -> int)

  datatype Problem =
    | NoItems | NoCode | UnknownMarket | TooManyOrders | MixedMarkets | LongRepo
    | NoNumber | BadOrderNo | BadBatchNo

  function Filled(ex: Exchange, line: OrderLine): OrderLine {
    if line.market <= 0 then line.(market := ex.codeToMarket(line.code)) else line
  }

  function BatchLimit(ex: Exchange, market: int): int {
    if market == ex.sh then ex.shLimit else if market == ex.sz then ex.szLimit else 0
  }

  /** Only one-day repos may be sold. */
  predicate IsLongRepo(ex: Exchange, bsFlag: BsFlag, market: int, code: string) {
    && bsFlag.Sell?
    && (if market == ex.sh && "204" <= code then code != "204001.SH"
        else market == ex.sz && "1318" <= code && code != "131810.SZ")
  }

  /** What is wrong with one order, in a message of `n` orders whose first is in `firstMarket`. */
  function LineProblem(ex: Exchange, bsFlag: BsFlag, n: nat, firstMarket: int, line: OrderLine): Option<Problem> {
    var market := Filled(ex, line).market;
    if line.code == "" then Some(NoCode)
    else if market <= 0 then Some(UnknownMarket)
    else if 0 < BatchLimit(ex, market) < n then Some(TooManyOrders)
    else if market != firstMarket then Some(MixedMarkets)
    else if IsLongRepo(ex, bsFlag, market, line.code) then Some(LongRepo)
    else None
  }

  /** The message-level rule, without the order in which the orders are looked at. */
  ghost predicate Acceptable(ex: Exchange, bsFlag: BsFlag, lines: seq<OrderLine>) {
    && lines != []
    && forall i | 0 <= i < |lines| ::
         && var market := Filled(ex, lines[i]).market;
            && lines[i].code != ""
            && market > 0
            && market == Filled(ex, lines[0]).market
            && (market == ex.sh && 0 < ex.shLimit ==> |lines| <= ex.shLimit)
            && (market == ex.sz && market != ex.sh && 0 < ex.szLimit ==> |lines| <= ex.szLimit)
            && (bsFlag == Sell && market == ex.sh && "204" <= lines[i].code ==> lines[i].code == "204001.SH")
            && (bsFlag == Sell && market == ex.sz && "1318" <= lines[i].code ==> lines[i].code == "131810.SZ")
  }

  /** Whether an order would be accepted does not depend on how its faults are looked for. */
  lemma NoProblemExactly(ex: Exchange, bsFlag: BsFlag, lines: seq<OrderLine>)
    requires lines != []
    ensures Acceptable(ex, bsFlag, lines) <==>
            forall i | 0 <= i < |lines| ::
              LineProblem(ex, bsFlag, |lines|, Filled(ex, lines[0]).market, lines[i]) == None
  {
    forall i | 0 <= i < |lines|
      ensures "204" <= lines[i].code ==> !("1318" <= lines[i].code)
    {
      if "204" <= lines[i].code {
        assert lines[i].code[0] == '2';
      }
    }
  }

  /** Checks the orders one by one and fills in missing markets on the way. It passes exactly the
      acceptable messages, and reports the first order at fault. */
  method CheckTradeOrderMessage(ex: Exchange, bsFlag: BsFlag, lines: array<OrderLine>)
    returns (error: Option<Problem>, ghost fault: nat)
    modifies lines
    ensures error == None <==> Acceptable(ex, bsFlag, old(lines[..]))
    ensures error == None ==> forall i | 0 <= i < lines.Length :: lines[i] == Filled(ex, old(lines[i]))
    ensures error != None && lines.Length > 0 ==>
      && fault < lines.Length
      && error == LineProblem(ex, bsFlag, lines.Length, Filled(ex, old(lines[0])).market, old(lines[fault]))
      && (forall i | 0 <= i < fault ::
            LineProblem(ex, bsFlag, lines.Length, Filled(ex, old(lines[0])).market, old(lines[i])) == None)
      && (forall i | 0 <= i < fault :: lines[i] == Filled(ex, old(lines[i])))
      && (forall i | fault < i < lines.Length :: lines[i] == old(lines[i]))
    ensures lines.Length == 0 ==> error == Some(NoItems)
  {
    fault := 0;
    var n := lines.Length;
    if n > 0 {
      NoProblemExactly(ex, bsFlag, lines[..]);
    }
    if n <= 0 {
      return Some(NoItems), 0;
    }
    var firstMarket := 0;
    for i := 0 to n
      invariant i > 0 ==> firstMarket == Filled(ex, old(lines[0])).market
      invariant forall k | 0 <= k < i ::
        && lines[k] == Filled(ex, old(lines[k]))
        && LineProblem(ex, bsFlag, n, Filled(ex, old(lines[0])).market, old(lines[k])) == None
      invariant forall k | i <= k < n :: lines[k] == old(lines[k])
    {
      fault := i;
      var line := lines[i];
      if line.code == "" {
        return Some(NoCode), i;
      }
      var market := line.market;
      if market <= 0 {
        market := ex.codeToMarket(line.code);
        lines[i] := line.(market := market);
      }
      if market <= 0 {
        return Some(UnknownMarket), i;
      }
      var limit := BatchLimit(ex, market);
      if limit > 0 && n > limit {
        return Some(TooManyOrders), i;
      }
      if i == 0 {
        firstMarket := market;
      }
      if i > 0 && market != firstMarket {
        return Some(MixedMarkets), i;
      }
      if IsLongRepo(ex, bsFlag, market, line.code) {
        return Some(LongRepo), i;
      }
    }
    return None, 0;
  }

  function LinesIn(lines: seq<OrderLine>, market: int): nat {
    if lines == [] then 0 else LinesIn(lines[..|lines| - 1], market) + One(lines[|lines| - 1].market == market)
  }

  lemma {:induction false} OneMarketOnly(lines: seq<OrderLine>, home: int, market: int)
    requires forall i | 0 <= i < |lines| :: lines[i].market == home
    ensures LinesIn(lines, market) == if market == home then |lines| else 0
  {
    if lines != [] {
      OneMarketOnly(lines[..|lines| - 1], home, market);
    }
  }

  /** A message that passed is charged to its first order's market, and the charge is the number
      of its commands in that market; no other market has any. */
  lemma ChargeIsExact(ex: Exchange, cfg: Config, req: Request, given: seq<OrderLine>, market: int)
    requires req.OrderRequest? && cfg.codeToMarket == ex.codeToMarket
    requires Acceptable(ex, req.bsFlag, given) && |req.lines| == |given|
    requires forall i | 0 <= i < |given| :: req.lines[i] == Filled(ex, given[i])
    ensures OrderMarket(cfg, req.lines) > 0
    ensures LinesIn(req.lines, market) ==
            if market == OrderMarket(cfg, req.lines) then OrderItem(cfg, req).cmdSize else 0
    ensures OrderMarket(cfg, req.lines) in cfg.route ==>
            RouteOf(cfg, req) == ToQueue(cfg.route[OrderMarket(cfg, req.lines)], OrderItem(cfg, req))
  {
    OneMarketOnly(req.lines, req.lines[0].market, market);
  }

  // ---- Withdrawals ----

  /** One to three digits from index 2 on, a dash at `end`, and no line break behind it. */
  predicate SizeEndsAt(text: string, end: nat) {
    && 3 <= end <= 5 && end < |text|
    && AllDigits(text[2..end]) && text[end] == '-'
    && forall i | end < i < |text| :: text[i] != '\n' && text[i] != '\r'
  }

  /** The regular expression `^(1|2|3|9)-([0-9]{1,3})-(.*)`; the dot matches no line break. */
  predicate IsSpotBatchNo(text: string) {
    && |text| >= 2 && text[0] in "1239" && text[1] == '-'
    && exists end | 3 <= end <= 5 :: SizeEndsAt(text, end)
  }

  /** What stands between the first two dashes of a batch number. */
  function SizeText(text: string): string {
    if |text| >= 2 && FindDash(text, 2) >= 2 then text[2..FindDash(text, 2)] else ""
  }

  predicate IsSpotOrderNo(text: string) {
    |text| >= 2 && '1' <= text[0] <= '9' && text[1] == '-'
  }

  function GuessMarket(ex: Exchange, market: int, text: string): int {
    if market != 0 || text == "" then market
    else if text[0] == '1' then ex.sh
    else if text[0] == '2' then ex.sz
    else market
  }

  /** The verdict and the market written into the message. */
  function CheckTradeWithdrawMessage(ex: Exchange, spot: bool, market: int, orderNo: string, batchNo: string)
    : (Option<Problem>, int)
  {
    if orderNo == "" && batchNo == "" then (Some(NoNumber), market)
    else if !spot then (None, market)
    else if orderNo != "" then
      (if IsSpotOrderNo(orderNo) then None else Some(BadOrderNo), GuessMarket(ex, market, orderNo))
    else
      (if IsSpotBatchNo(batchNo) then None else Some(BadBatchNo), GuessMarket(ex, market, batchNo))
  }

  lemma DigitText(c: char)
    requires IsDigit(c)
    ensures ToInt64([c]) == Some(DigitValue(c))
  {
    assert [c][..0] == "";
    assert DecimalValue([c]) == 10 * DecimalValue([c][..0]) + DigitValue(c);
  }

  lemma SpotOrderNoParses(text: string)
    requires IsSpotOrderNo(text)
    ensures var no := ParseStandardOrderNo(text);
            no.Some? && no.value.market == DigitValue(text[0]) && no.value.realNo == text[2..]
  {
    if !HasOneDigitMarket(text) {
      assert text == text[..1] + "-" + text[2..];
      FindDashAfterDigits(text[..1], text[2..], 0);
      assert text[..1] == [text[0]];
      DigitText(text[0]);
    }
  }

  lemma {:induction false} DecimalBound(s: string)
    requires AllDigits(s) && |s| <= 3
    ensures DecimalValue(s) < 1000
    ensures |s| <= 2 ==> DecimalValue(s) < 100
    ensures |s| <= 1 ==> DecimalValue(s) < 10
  {
    if s != "" {
      DecimalBound(s[..|s| - 1]);
      assert DigitValue(s[|s| - 1]) <= 9;
    }
  }

  /** Where the dashes of a checked batch number stand. */
  lemma SpotBatchDashes(text: string, end: nat)
    requires IsSpotBatchNo(text) && 3 <= end <= 5 && SizeEndsAt(text, end)
    ensures FindDash(text, 0) == 1 && FindDash(text, 2) == end
  {
    assert text == text[..1] + "-" + text[2..];
    FindDashAfterDigits(text[..1], text[2..], 0);
    assert text == text[..end] + "-" + text[end + 1..];
    forall i | 2 <= i < end ensures IsDigit(text[..end][i]) {
      assert text[..end][i] == text[2..end][i - 2];
    }
    FindDashAfterDigits(text[..end], text[end + 1..], 2);
  }

  /** A checked batch number reads as its first digit, the number between the dashes and the rest. */
  lemma SpotBatchNoParses(text: string)
    requires IsSpotBatchNo(text)
    ensures AllDigits(SizeText(text)) && 1 <= |SizeText(text)| <= 3
    ensures var no := ParseStandardBatchNo(text);
            && no.Some? && no.value.market == DigitValue(text[0]) > 0
            && no.value.size == DecimalValue(SizeText(text)) <= 999
            && text == text[..1] + "-" + SizeText(text) + "-" + no.value.realNo
  {
    var end :| 3 <= end <= 5 && SizeEndsAt(text, end);
    SpotBatchDashes(text, end);
    assert text[..1] == [text[0]];
    DigitText(text[0]);
    DecimalBound(text[2..end]);
  }

  /** An order number: the digit of its market, a dash, and the rest. */
  predicate OrderNoOf(text: string, market: char, rest: string) {
    text == [market] + "-" + rest && '1' <= market <= '9'
  }

  /** A batch number: one of the digits 1, 2, 3 and 9, a dash, up to three digits, a dash, and the rest on the
      same line. */
  predicate BatchNoOf(text: string, market: char, size: string, rest: string) {
    && text == [market] + "-" + size + "-" + rest
    && (market == '1' || market == '2' || market == '3' || market == '9')
    && 1 <= |size| <= 3 && AllDigits(size)
    && forall i | 0 <= i < |rest| :: rest[i] != '\n' && rest[i] != '\r'
  }

  /** What a withdrawal must look like to pass its check. */
  lemma WithdrawPassesExactly(ex: Exchange, spot: bool, market: int, orderNo: string, batchNo: string)
    ensures CheckTradeWithdrawMessage(ex, spot, market, orderNo, batchNo).0 == None <==>
            && (orderNo != "" || batchNo != "")
            && (spot ==>
                  if orderNo != "" then exists c, rest :: OrderNoOf(orderNo, c, rest)
                  else exists c, size, rest :: BatchNoOf(batchNo, c, size, rest))
  {
    if IsSpotOrderNo(orderNo) {
      assert OrderNoOf(orderNo, orderNo[0], orderNo[2..]);
    }
    if IsSpotBatchNo(batchNo) {
      var end :| 3 <= end <= 5 && SizeEndsAt(batchNo, end);
      assert BatchNoOf(batchNo, batchNo[0], batchNo[2..end], batchNo[end + 1..]);
    }
    forall c, size, rest | BatchNoOf(batchNo, c, size, rest) ensures IsSpotBatchNo(batchNo) {
      var end := 2 + |size|;
      assert batchNo[2..end] == size;
      assert forall i | end < i < |batchNo| :: batchNo[i] == rest[i - end - 1];
      assert SizeEndsAt(batchNo, end);
    }
  }

  /** A spot withdrawal that passed the check is routed without an exception, to a market from 1 to
      9, and is never refused for its number. */
  lemma CheckedWithdrawIsRouted(ex: Exchange, cfg: Config, market: int, id: nat, orderNo: string, batchNo: string)
    requires CheckTradeWithdrawMessage(ex, true, market, orderNo, batchNo).0 == None
    ensures var req := WithdrawRequest(id, orderNo, batchNo);
            && WithdrawTarget(req).Some?
            && 1 <= WithdrawTarget(req).value.0 <= 9
            && WithdrawTarget(req).value.1 <= 999
            && (orderNo != "" ==> WithdrawTarget(req).value.1 == 1)
            && RouteOf(cfg, req) != Throws
            && RouteOf(cfg, req) != ToNormal(ErrorReply(BrokerMsg(req, None), NonStandardNumber))
  {
    if orderNo != "" {
      SpotOrderNoParses(orderNo);
    } else {
      SpotBatchNoParses(batchNo);
    }
  }

  /** The market written into a checked spot withdrawal that came without one is that of its number, for the first
      two markets. */
  lemma WrittenMarketIsCharged(ex: Exchange, id: nat, market: int, orderNo: string, batchNo: string)
    requires CheckTradeWithdrawMessage(ex, true, market, orderNo, batchNo).0 == None
    ensures var charged := WithdrawTarget(WithdrawRequest(id, orderNo, batchNo));
            && charged.Some?
            && CheckTradeWithdrawMessage(ex, true, market, orderNo, batchNo).1 ==
               if market != 0 then market
               else if charged.value.0 == 1 then ex.sh
               else if charged.value.0 == 2 then ex.sz
               else 0
  {
    if orderNo != "" {
      SpotOrderNoParses(orderNo);
    } else {
      SpotBatchNoParses(batchNo);
    }
  }

  lemma {:induction false} PositiveExactly(s: string)
    requires AllDigits(s)
    ensures DecimalValue(s) > 0 <==> exists i | 0 <= i < |s| :: s[i] != '0'
  {
    if s != "" {
      var n := |s| - 1;
      PositiveExactly(s[..n]);
      assert forall i | 0 <= i < n :: s[i] == s[..n][i];
    }
  }

  /** A withdrawal that passed the check is charged at least one command exactly when it names an
      order, or the size in its batch number has a digit other than zero. */
  lemma WithdrawIsChargedExactly(ex: Exchange, market: int, id: nat, orderNo: string, batchNo: string)
    requires CheckTradeWithdrawMessage(ex, true, market, orderNo, batchNo).0 == None
    ensures var target := WithdrawTarget(WithdrawRequest(id, orderNo, batchNo));
            && target.Some?
            && (target.value.1 > 0 <==>
                  orderNo != "" || exists i | 0 <= i < |SizeText(batchNo)| :: SizeText(batchNo)[i] != '0')
            && (orderNo == "" ==> AllDigits(SizeText(batchNo)) && target.value.1 == DecimalValue(SizeText(batchNo)))
  {
    if orderNo != "" {
      SpotOrderNoParses(orderNo);
    } else {
      SpotBatchNoParses(batchNo);
      PositiveExactly(SizeText(batchNo));
    }
  }

  /** The check lets a batch of size zero through, and flow control then charges it nothing. */
  lemma EmptyBatchIsFree(ex: Exchange, market: int, id: nat)
    ensures CheckTradeWithdrawMessage(ex, true, market, "", "1-0-A").0 == None
    ensures WithdrawTarget(WithdrawRequest(id, "", "1-0-A")) == Some((1, 0))
  {
    var text := "1-0-A";
    assert SizeEndsAt(text, 3);
    assert FindDash(text, 0) == 1 && FindDash(text, 2) == 3;
    assert text[..1] == [text[0]] && text[2..3] == [text[2]];
    DigitText(text[0]);
    DigitText(text[2]);
  }
}

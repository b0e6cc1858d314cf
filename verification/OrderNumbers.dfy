/** The numbers flow control reads a market from:
    `<market>-<order_no>` and `<market>-<batch_size>-<batch_no>`. */
module OrderNumbers {
  import opened Options

  predicate IsDigit(c: char) {
    '0' <= c <= '9'
  }

  function DigitValue(c: char): nat
    requires IsDigit(c)
  {
    c as int - '0' as int
  }

  function DigitChar(d: nat): (c: char)
    requires d < 10
    ensures IsDigit(c) && DigitValue(c) == d
  {
    ('0' as int + d) as char
  }

  /** std::to_string on a natural number. */
  function ToDecimal(n: nat): (s: string)
    ensures s != ""
    ensures forall i | 0 <= i < |s| :: IsDigit(s[i])
  {
    if n < 10 then [DigitChar(n)] else ToDecimal(n / 10) + [DigitChar(n % 10)]
  }

  predicate AllDigits(s: string) {
    forall i | 0 <= i < |s| :: IsDigit(s[i])
  }

  function DecimalValue(s: string): nat
    requires AllDigits(s)
  {
    if s == "" then 0 else 10 * DecimalValue(s[..|s| - 1]) + DigitValue(s[|s| - 1])
  }

  /** x::ToInt64: the value of a non-empty run of digits; any other text throws. */
  function ToInt64(s: string): Option<nat> {
    if s != "" && AllDigits(s) then Some(DecimalValue(s)) else None
  }

  lemma {:induction false} DecimalRoundTrip(n: nat)
    ensures ToInt64(ToDecimal(n)) == Some(n)
  {
    var s := ToDecimal(n);
    if n < 10 {
      assert s[..0] == "" && DecimalValue(s[..0]) == 0;
    } else {
      DecimalRoundTrip(n / 10);
      assert s[..|s| - 1] == ToDecimal(n / 10);
    }
  }

  /** string_view::find('-', from): the first dash at or after `from`, or -1. */
  function FindDash(s: string, from: nat): (pos: int)
    ensures pos == -1 || from <= pos < |s|
    ensures pos >= 0 ==> s[pos] == '-'
    ensures forall i | from <= i < (if pos < 0 then |s| else pos) :: s[i] != '-'
    decreases |s| - from
  {
    if from >= |s| then -1
    else if s[from] == '-' then from
    else FindDash(s, from + 1)
  }

  lemma FindDashAfterDigits(head: string, tail: string, from: nat)
    requires from <= |head|
    requires forall i | from <= i < |head| :: IsDigit(head[i])
    ensures FindDash(head + "-" + tail, from) == |head|
  {
    var s := head + "-" + tail;
    assert s[|head|] == '-';
    assert forall i | from <= i < |head| :: s[i] == head[i];
  }

  datatype OrderNo = OrderNo(market: int, realNo: string)
  datatype BatchNo = BatchNo(market: int, size: int, realNo: string)

  /** None where the original throws. */
  function CreateStandardOrderNo(market: int, realNo: string): Option<string> {
    if market <= 0 then None else Some(ToDecimal(market) + "-" + realNo)
  }

  function CreateStandardBatchNo(market: int, size: int, realNo: string): Option<string> {
    if market <= 0 || size <= 0 then None
    else Some(ToDecimal(market) + "-" + (ToDecimal(size) + "-" + realNo))
  }

  predicate HasOneDigitMarket(text: string) {
    |text| >= 3 && IsDigit(text[0]) && text[1] == '-'
  }

  function ParseAnyOrderNo(text: string): Option<OrderNo> {
    var pos := FindDash(text, 0);
    if pos <= 0 then None
    else
      match ToInt64(text[..pos])
      case None => None
      case Some(market) => Some(OrderNo(market, text[pos + 1..]))
  }

  function ParseStandardOrderNo(text: string): Option<OrderNo> {
    if HasOneDigitMarket(text) then Some(OrderNo(DigitValue(text[0]), text[2..]))
    else ParseAnyOrderNo(text)
  }

  function ParseStandardBatchNo(text: string): Option<BatchNo> {
    var pos1 := FindDash(text, 0);
    if pos1 <= 0 then None
    else
      var pos2 := FindDash(text, pos1 + 1);
      if pos2 <= 0 then None
      else
        match (ToInt64(text[..pos1]), ToInt64(text[pos1 + 1..pos2]))
        case (Some(market), Some(size)) => Some(BatchNo(market, size, text[pos2 + 1..]))
        case _ => None
  }

  /** The one-digit shortcut is an optimisation only. */
  lemma FastPathAgrees(text: string)
    requires HasOneDigitMarket(text)
    ensures ParseAnyOrderNo(text) == ParseStandardOrderNo(text)
  {
    assert text == text[..1] + "-" + text[2..];
    FindDashAfterDigits(text[..1], text[2..], 0);
    assert text[..1][..0] == "";
    assert DecimalValue(text[..1]) == 10 * DecimalValue(text[..1][..0]) + DigitValue(text[0]);
  }

  lemma OrderNoRoundTrip(market: int, realNo: string)
    requires market > 0
    ensures var text := CreateStandardOrderNo(market, realNo);
            text.Some? && ParseStandardOrderNo(text.value) == Some(OrderNo(market, realNo))
  {
    var digits := ToDecimal(market);
    var text := digits + "-" + realNo;
    FindDashAfterDigits(digits, realNo, 0);
    assert text[..|digits|] == digits && text[|digits| + 1..] == realNo;
    DecimalRoundTrip(market);
    if HasOneDigitMarket(text) {
      FastPathAgrees(text);
    }
  }

  lemma BatchNoRoundTrip(market: int, size: int, realNo: string)
    requires market > 0 && size > 0
    ensures var text := CreateStandardBatchNo(market, size, realNo);
            text.Some? && ParseStandardBatchNo(text.value) == Some(BatchNo(market, size, realNo))
  {
    var m, n := ToDecimal(market), ToDecimal(size);
    var text := m + "-" + (n + "-" + realNo);
    FindDashAfterDigits(m, n + "-" + realNo, 0);
    assert text == (m + "-" + n) + "-" + realNo;
    assert forall i | |m| + 1 <= i < |m + "-" + n| :: (m + "-" + n)[i] == n[i - |m| - 1];
    FindDashAfterDigits(m + "-" + n, realNo, |m| + 1);
    assert text[..|m|] == m;
    assert text[|m| + 1..|m| + 1 + |n|] == n;
    assert text[|m| + 1 + |n| + 1..] == realNo;
    DecimalRoundTrip(market);
    DecimalRoundTrip(size);
  }

  /** A text parses exactly when its first dash follows at least one digit and only digits. */
  lemma ParsesExactly(text: string)
    ensures ParseStandardOrderNo(text).Some? <==>
            exists n: nat :: 0 < n < |text| && text[n] == '-' && AllDigits(text[..n])
  {
    if HasOneDigitMarket(text) {
      FastPathAgrees(text);
    }
    var pos := FindDash(text, 0);
    assert ParseAnyOrderNo(text).Some? <==> pos > 0 && AllDigits(text[..pos]);
    forall n: nat | 0 < n < |text| && text[n] == '-' && AllDigits(text[..n]) ensures pos == n {
      assert forall i | 0 <= i < n :: text[i] == text[..n][i];
    }
  }
}

/** What a response to many orders does with the reports that overtook it. */
module EarlyReplay {
  import opened Options
  import opened Trading
  import opened RiskOrders
  import opened SelfTradeSafety
  import opened OrderIdentity
  import opened EarlyKnocks

  /** What was kept under the number of an answered item. */
  datatype Kept = Kept(key: string, ks: seq<Knock>)

  predicate Numbered(onlyEtf: bool, item: Item) {
    Covered(onlyEtf, item.code) && item.orderNo != ""
  }

  /** The reports that wait for the items from `i` on, in the order of the items. */
  function WaitingFor(early: map<string, seq<Knock>>, onlyEtf: bool, rep: OrderMessage, i: nat): seq<Kept>
    requires i <= |rep.items|
    decreases |rep.items| - i
  {
    if i == |rep.items| then []
    else if !Numbered(onlyEtf, rep.items[i]) then WaitingFor(early, onlyEtf, rep, i + 1)
    else
      var key := ItemKey(rep, i);
      (if key in early then [Kept(key, early[key])] else []) + WaitingFor(early - {key}, onlyEtf, rep, i + 1)
  }

  function NumberKeys(onlyEtf: bool, rep: OrderMessage, i: nat): set<string>
    requires i <= |rep.items|
    decreases |rep.items| - i
  {
    if i == |rep.items| then {}
    else (if Numbered(onlyEtf, rep.items[i]) then {ItemKey(rep, i)} else {}) + NumberKeys(onlyEtf, rep, i + 1)
  }

  function LastOf(ws: seq<Kept>, held: Option<seq<Knock>>): Option<seq<Knock>> {
    if ws == [] then held else Some(ws[|ws| - 1].ks)
  }

  function SetEarly(a: Answering, early: map<string, seq<Knock>>, held: Option<seq<Knock>>): Answering {
    a.(s := a.s.(ix := a.s.ix.(early := early)), held := held)
  }

  // ---- Only the last is replayed ----

  function HeldAfter(early: map<string, seq<Knock>>, key: string, held: Option<seq<Knock>>): Option<seq<Knock>> {
    if key in early then Some(early[key]) else held
  }

  lemma AnswerItemSplitsEarly(a: Answering, early: map<string, seq<Knock>>, held: Option<seq<Knock>>,
                              onlyEtf: bool, rep: OrderMessage, item: Item, now: int)
    requires (rep.bsFlag.Buy? || rep.bsFlag.Sell?) && Covered(onlyEtf, item.code)
    ensures var key := OrderNoKey(rep.fundId, item.orderNo);
            AnswerItem(SetEarly(a, early, held), rep, item, now) ==
            if item.orderNo == "" then SetEarly(AnswerItem(a, rep, item, now), early, held)
            else SetEarly(AnswerItem(a, rep, item, now), early - {key}, HeldAfter(early, key, held))
  {
    AnswerIgnoresEarly(a.s.ix, early, BookOf(a.s, item.code), rep, item, now);
  }

  lemma NextItem(early: map<string, seq<Knock>>, held: Option<seq<Knock>>, onlyEtf: bool, rep: OrderMessage, i: nat)
    requires i < |rep.items|
    ensures !Numbered(onlyEtf, rep.items[i]) ==> NumberKeys(onlyEtf, rep, i) == NumberKeys(onlyEtf, rep, i + 1)
    ensures var key := ItemKey(rep, i);
            Numbered(onlyEtf, rep.items[i]) ==>
              && early - NumberKeys(onlyEtf, rep, i) == early - {key} - NumberKeys(onlyEtf, rep, i + 1)
              && LastOf(WaitingFor(early, onlyEtf, rep, i), held) ==
                 LastOf(WaitingFor(early - {key}, onlyEtf, rep, i + 1), HeldAfter(early, key, held))
  {
    var keys := NumberKeys(onlyEtf, rep, i + 1);
    assert {} + keys == keys;
    if Numbered(onlyEtf, rep.items[i]) {
      assert early - {ItemKey(rep, i)} - keys == early - ({ItemKey(rep, i)} + keys);
    }
  }

  /** Which early reports a response takes out and which of them it holds, apart from all else it does. */
  lemma {:induction false} AnswerItemsSplitEarly(a: Answering, early: map<string, seq<Knock>>,
                                                 held: Option<seq<Knock>>, onlyEtf: bool, rep: OrderMessage, i: nat,
                                                 now: int)
    requires i <= |rep.items| && (rep.bsFlag.Buy? || rep.bsFlag.Sell?)
    ensures AnswerItems(SetEarly(a, early, held), onlyEtf, rep, i, now) ==
            SetEarly(AnswerItems(a, onlyEtf, rep, i, now), early - NumberKeys(onlyEtf, rep, i),
                     LastOf(WaitingFor(early, onlyEtf, rep, i), held))
    decreases |rep.items| - i
  {
    if i == |rep.items| {
      assert early - {} == early;
    } else {
      var item := rep.items[i];
      NextItem(early, held, onlyEtf, rep, i);
      if !Covered(onlyEtf, item.code) {
        AnswerItemsSplitEarly(a, early, held, onlyEtf, rep, i + 1, now);
      } else {
        var b := AnswerItem(a, rep, item, now);
        AnswerItemSplitsEarly(a, early, held, onlyEtf, rep, item, now);
        if item.orderNo == "" {
          AnswerItemsSplitEarly(b, early, held, onlyEtf, rep, i + 1, now);
        } else {
          var key := ItemKey(rep, i);
          AnswerItemsSplitEarly(b, early - {key}, HeldAfter(early, key, held), onlyEtf, rep, i + 1, now);
        }
      }
    }
  }

  lemma {:induction false} NothingWaits(early: map<string, seq<Knock>>, onlyEtf: bool, rep: OrderMessage, i: nat)
    requires i <= |rep.items| && early.Keys !! NumberKeys(onlyEtf, rep, i)
    ensures WaitingFor(early, onlyEtf, rep, i) == []
    decreases |rep.items| - i
  {
    if i < |rep.items| {
      if Numbered(onlyEtf, rep.items[i]) {
        assert ItemKey(rep, i) in NumberKeys(onlyEtf, rep, i);
        NothingWaits(early - {ItemKey(rep, i)}, onlyEtf, rep, i + 1);
      } else {
        NothingWaits(early, onlyEtf, rep, i + 1);
      }
    }
  }

  /** The state before a response without the reports that wait for its items. */
  function Bare(s: RiskState, rep: OrderMessage): RiskState
    requires rep.fundId in s.options
  {
    s.(ix := s.ix.(early := s.ix.early - NumberKeys(s.options[rep.fundId], rep, 0)))
  }

  /** The reports that wait for a response. */
  function WaitingReports(s: RiskState, rep: OrderMessage): seq<Kept>
    requires rep.fundId in s.options
  {
    WaitingFor(s.ix.early, s.options[rep.fundId], rep, 0)
  }

  /** A response of any number of items replays the reports of the last item some wait for, as if they
      came just then, and drops those of all others. */
  lemma OnlyTheLastIsReplayed(s: RiskState, rep: OrderMessage, now: int)
    requires rep.fundId in s.options && (rep.bsFlag.Buy? || rep.bsFlag.Sell?)
    ensures var ws, t := WaitingReports(s, rep), HandleTradeOrderRep(Bare(s, rep), rep, now);
            HandleTradeOrderRep(s, rep, now) == if ws == [] then t else Knocks(t, ws[|ws| - 1].ks, now)
  {
    var onlyEtf := s.options[rep.fundId];
    var keys := NumberKeys(onlyEtf, rep, 0);
    var a := Answering(s, None, []);
    var bare := s.ix.early - keys;
    AnswerItemsSplitEarly(a, s.ix.early, None, onlyEtf, rep, 0, now);
    AnswerItemsSplitEarly(a, bare, None, onlyEtf, rep, 0, now);
    assert SetEarly(a, s.ix.early, None) == a;
    assert SetEarly(a, bare, None) == Answering(Bare(s, rep), None, []);
    NothingWaits(bare, onlyEtf, rep, 0);
    assert bare - keys == bare;
  }

  // ---- What is dropped ----

  ghost predicate DistinctKeys(ws: seq<Kept>) {
    forall j, k | 0 <= j < k < |ws| :: ws[j].key != ws[k].key
  }

  /** What waits for the items was kept under their numbers, each once. */
  lemma {:induction false} KeysAreDistinct(early: map<string, seq<Knock>>, onlyEtf: bool, rep: OrderMessage, i: nat)
    requires i <= |rep.items|
    ensures DistinctKeys(WaitingFor(early, onlyEtf, rep, i))
    ensures forall w | w in WaitingFor(early, onlyEtf, rep, i) ::
              w.key in early && w.key in NumberKeys(onlyEtf, rep, i) && w.ks == early[w.key]
    decreases |rep.items| - i
  {
    if i < |rep.items| {
      var ws := WaitingFor(early, onlyEtf, rep, i);
      if Numbered(onlyEtf, rep.items[i]) {
        var key := ItemKey(rep, i);
        var rest := WaitingFor(early - {key}, onlyEtf, rep, i + 1);
        KeysAreDistinct(early - {key}, onlyEtf, rep, i + 1);
        assert ws == (if key in early then [Kept(key, early[key])] else []) + rest;
        if key in early {
          forall j, k | 0 <= j < k < |ws| ensures ws[j].key != ws[k].key {
            assert ws[k] == rest[k - 1] && ws[k] in rest;
            assert j > 0 ==> ws[j] == rest[j - 1];
          }
        } else {
          assert ws == rest;
        }
      } else {
        KeysAreDistinct(early, onlyEtf, rep, i + 1);
        assert ws == WaitingFor(early, onlyEtf, rep, i + 1);
      }
    }
  }

  lemma {:induction false} LastStaysLast(early: map<string, seq<Knock>>, gone: string, onlyEtf: bool,
                                         rep: OrderMessage, i: nat)
    requires i <= |rep.items|
    requires var ws := WaitingFor(early, onlyEtf, rep, i); ws != [] && ws[|ws| - 1].key != gone
    ensures var ws, us := WaitingFor(early, onlyEtf, rep, i), WaitingFor(early - {gone}, onlyEtf, rep, i);
            us != [] && us[|us| - 1] == ws[|ws| - 1]
    decreases |rep.items| - i
  {
    if i < |rep.items| {
      if !Numbered(onlyEtf, rep.items[i]) {
        LastStaysLast(early, gone, onlyEtf, rep, i + 1);
      } else {
        var key := ItemKey(rep, i);
        assert early - {gone} - {key} == early - {key} - {gone};
        if WaitingFor(early - {key}, onlyEtf, rep, i + 1) != [] {
          LastStaysLast(early - {key}, gone, onlyEtf, rep, i + 1);
        } else {
          NothingLeft(early - {key}, gone, onlyEtf, rep, i + 1);
        }
      }
    }
  }

  lemma {:induction false} NothingLeft(early: map<string, seq<Knock>>, gone: string, onlyEtf: bool,
                                       rep: OrderMessage, i: nat)
    requires i <= |rep.items| && WaitingFor(early, onlyEtf, rep, i) == []
    ensures WaitingFor(early - {gone}, onlyEtf, rep, i) == []
    decreases |rep.items| - i
  {
    if i < |rep.items| {
      if Numbered(onlyEtf, rep.items[i]) {
        var key := ItemKey(rep, i);
        assert early - {gone} - {key} == early - {key} - {gone};
        NothingLeft(early - {key}, gone, onlyEtf, rep, i + 1);
      } else {
        NothingLeft(early, gone, onlyEtf, rep, i + 1);
      }
    }
  }

  /** The reports that wait for any item but the last have no effect at all: the response ends as if they
      had never come. */
  lemma OtherReportsHaveNoEffect(s: RiskState, rep: OrderMessage, j: nat, now: int)
    requires rep.fundId in s.options && (rep.bsFlag.Buy? || rep.bsFlag.Sell?)
    requires j + 1 < |WaitingReports(s, rep)|
    ensures var key := WaitingReports(s, rep)[j].key;
            key in s.ix.early
            && HandleTradeOrderRep(s, rep, now) ==
               HandleTradeOrderRep(s.(ix := s.ix.(early := s.ix.early - {key})), rep, now)
  {
    var onlyEtf := s.options[rep.fundId];
    var ws := WaitingReports(s, rep);
    var key := ws[j].key;
    assert ws[j] in ws;
    var t := s.(ix := s.ix.(early := s.ix.early - {key}));
    KeysAreDistinct(s.ix.early, onlyEtf, rep, 0);
    LastStaysLast(s.ix.early, key, onlyEtf, rep, 0);
    OnlyTheLastIsReplayed(s, rep, now);
    OnlyTheLastIsReplayed(t, rep, now);
    var keys := NumberKeys(onlyEtf, rep, 0);
    assert s.ix.early - {key} - keys == s.ix.early - keys;
  }

  /** For a message of two items with reports waiting for both, those of the first have no effect. */
  lemma FirstOfTwoLosesItsFills(s: RiskState, rep: OrderMessage, now: int)
    requires |rep.items| == 2 && rep.fundId in s.options && (rep.bsFlag.Buy? || rep.bsFlag.Sell?)
    requires forall i | 0 <= i < 2 :: Numbered(s.options[rep.fundId], rep.items[i])
    requires ItemKey(rep, 0) != ItemKey(rep, 1) && ItemKey(rep, 0) in s.ix.early && ItemKey(rep, 1) in s.ix.early
    ensures HandleTradeOrderRep(s, rep, now) ==
            HandleTradeOrderRep(s.(ix := s.ix.(early := s.ix.early - {ItemKey(rep, 0)})), rep, now)
    ensures HandleTradeOrderRep(s, rep, now) ==
            Knocks(HandleTradeOrderRep(Bare(s, rep), rep, now), s.ix.early[ItemKey(rep, 1)], now)
  {
    var early, onlyEtf := s.ix.early, s.options[rep.fundId];
    var first, second := ItemKey(rep, 0), ItemKey(rep, 1);
    assert WaitingFor(early - {first} - {second}, onlyEtf, rep, 2) == [];
    assert WaitingFor(early - {first}, onlyEtf, rep, 1) == [Kept(second, early[second])];
    assert WaitingReports(s, rep) == [Kept(first, early[first]), Kept(second, early[second])];
    OtherReportsHaveNoEffect(s, rep, 0, now);
    OnlyTheLastIsReplayed(s, rep, now);
  }
}

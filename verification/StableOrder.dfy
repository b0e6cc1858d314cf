/** The order a market queue sends in: stable, by descending key. */
module StableOrder {
  import opened Options
  import opened FlowMessages

  ghost predicate Sorted(s: seq<FlowItem>) {
    forall i, j | 0 <= i < j < |s| :: s[i].key >= s[j].key
  }

  /** Puts `x` behind every item whose key is not smaller. */
  function Insert(s: seq<FlowItem>, x: FlowItem): (r: seq<FlowItem>)
    ensures |r| == |s| + 1
  {
    if s == [] then [x]
    else if s[|s| - 1].key < x.key then Insert(s[..|s| - 1], x) + [s[|s| - 1]]
    else s + [x]
  }

  /** std::stable_sort with the comparator `lhs.key > rhs.key`; SortIsTheStableSort says why. */
  function Sort(s: seq<FlowItem>): (r: seq<FlowItem>)
    ensures |r| == |s|
  {
    if s == [] then [] else Insert(Sort(s[..|s| - 1]), s[|s| - 1])
  }

  /** The items with key `k`, in the order of `s`. */
  ghost function WithKey(s: seq<FlowItem>, k: real): seq<FlowItem> {
    if s == [] then []
    else WithKey(s[..|s| - 1], k) + (if s[|s| - 1].key == k then [s[|s| - 1]] else [])
  }

  lemma {:induction false} InsertKeepsSorted(s: seq<FlowItem>, x: FlowItem)
    requires Sorted(s)
    ensures Sorted(Insert(s, x))
    ensures forall i | 0 <= i <= |s| :: Insert(s, x)[i] == x || Insert(s, x)[i] in s
  {
    if s != [] && s[|s| - 1].key < x.key {
      InsertKeepsSorted(s[..|s| - 1], x);
    }
  }

  lemma {:induction false} InsertKeepsWithKey(s: seq<FlowItem>, x: FlowItem, k: real)
    requires Sorted(s)
    ensures WithKey(Insert(s, x), k) == WithKey(s + [x], k)
  {
    assert (s + [x])[..|s|] == s;
    if s != [] && s[|s| - 1].key < x.key {
      var t, z := s[..|s| - 1], s[|s| - 1];
      InsertKeepsWithKey(t, x, k);
      var r := Insert(s, x);
      assert r[..|r| - 1] == Insert(t, x);
      assert (t + [x])[..|t|] == t;
    }
  }

  lemma {:induction false} SortIsSorted(s: seq<FlowItem>)
    ensures Sorted(Sort(s))
  {
    if s != [] {
      SortIsSorted(s[..|s| - 1]);
      InsertKeepsSorted(Sort(s[..|s| - 1]), s[|s| - 1]);
    }
  }

  /** Items with equal keys keep their order of arrival. */
  lemma {:induction false} SortIsStable(s: seq<FlowItem>, k: real)
    ensures WithKey(Sort(s), k) == WithKey(s, k)
  {
    if s != [] {
      var t := s[..|s| - 1];
      SortIsStable(t, k);
      SortIsSorted(t);
      InsertKeepsWithKey(Sort(t), s[|s| - 1], k);
      assert (Sort(t) + [s[|s| - 1]])[..|t|] == Sort(t);
    }
  }

  lemma {:induction false} NoneWithKey(s: seq<FlowItem>, k: real)
    requires forall i | 0 <= i < |s| :: s[i].key != k
    ensures WithKey(s, k) == []
  {
    if s != [] {
      NoneWithKey(s[..|s| - 1], k);
    }
  }

  /** `Sort` is the one stable sort: whatever is sorted and keeps every class of equal keys in
      its order of arrival is the same sequence. */
  lemma {:induction false} SortIsTheStableSort(s: seq<FlowItem>, t: seq<FlowItem>)
    requires Sorted(t) && forall k :: WithKey(t, k) == WithKey(s, k)
    ensures t == Sort(s)
  {
    SortIsSorted(s);
    forall k ensures WithKey(t, k) == WithKey(Sort(s), k) {
      SortIsStable(s, k);
    }
    SortedUnique(t, Sort(s));
  }

  lemma {:induction false} LastWithSmallestKey(a: seq<FlowItem>, b: seq<FlowItem>)
    requires a != [] && Sorted(b) && forall k :: WithKey(a, k) == WithKey(b, k)
    ensures b != [] && b[|b| - 1].key <= a[|a| - 1].key
  {
    var k := a[|a| - 1].key;
    assert WithKey(a, k) != [];
    if forall i | 0 <= i < |b| :: b[i].key != k {
      NoneWithKey(b, k);
    }
  }

  lemma {:induction false} SortedUnique(a: seq<FlowItem>, b: seq<FlowItem>)
    requires Sorted(a) && Sorted(b) && forall k :: WithKey(a, k) == WithKey(b, k)
    ensures a == b
  {
    if a == [] {
      if b != [] {
        LastWithSmallestKey(b, a);
      }
    } else {
      LastWithSmallestKey(a, b);
      LastWithSmallestKey(b, a);
      var x, y, k := a[|a| - 1], b[|b| - 1], a[|a| - 1].key;
      assert WithKey(a, k)[|WithKey(a, k)| - 1] == x;
      assert WithKey(b, k)[|WithKey(b, k)| - 1] == y;
      var a', b' := a[..|a| - 1], b[..|b| - 1];
      forall j ensures WithKey(a', j) == WithKey(b', j) {
        if j == k {
          assert WithKey(a, k)[..|WithKey(a, k)| - 1] == WithKey(a', k);
          assert WithKey(b, k)[..|WithKey(b, k)| - 1] == WithKey(b', k);
        } else {
          assert WithKey(a, j) == WithKey(a', j) && WithKey(b, j) == WithKey(b', j);
        }
      }
      SortedUnique(a', b');
      assert a == a' + [x] && b == b' + [y];
    }
  }

  lemma {:induction false} SortOfSorted(s: seq<FlowItem>)
    requires Sorted(s)
    ensures Sort(s) == s
  {
    if s != [] {
      SortOfSorted(s[..|s| - 1]);
    }
  }

  /** Where the first item to leave stands in order of arrival: the earliest with the largest key. */
  function FirstLargest(s: seq<FlowItem>): (m: nat)
    requires s != []
    ensures m < |s|
    ensures forall i | 0 <= i < |s| :: s[i].key <= s[m].key
    ensures forall i | 0 <= i < m :: s[i].key < s[m].key
  {
    var n := |s| - 1;
    if n == 0 then 0
    else
      var m := FirstLargest(s[..n]);
      if s[m].key < s[n].key then n else m
  }

  /** Where the last in line stands in order of arrival: the latest with the smallest key. */
  function LastSmallest(s: seq<FlowItem>): (m: nat)
    requires s != []
    ensures m < |s|
    ensures forall i | 0 <= i < |s| :: s[m].key <= s[i].key
    ensures forall i | m < i < |s| :: s[m].key < s[i].key
  {
    var n := |s| - 1;
    if n == 0 then 0
    else
      var m := LastSmallest(s[..n]);
      if s[n].key <= s[m].key then n else m
  }

  function Without<T>(s: seq<T>, i: nat): seq<T>
    requires i < |s|
  {
    s[..i] + s[i + 1..]
  }

  lemma {:induction false} InsertBehindHead(s: seq<FlowItem>, x: FlowItem)
    requires s != [] && s[0].key >= x.key
    ensures Insert(s, x) == [s[0]] + Insert(s[1..], x)
  {
    if |s| > 1 && s[|s| - 1].key < x.key {
      InsertBehindHead(s[..|s| - 1], x);
      assert s[..|s| - 1][1..] == s[1..][..|s[1..]| - 1];
    } else {
      assert s[1..] + [x] == (s + [x])[1..];
    }
  }

  lemma {:induction false} InsertInFront(s: seq<FlowItem>, x: FlowItem)
    requires forall i | 0 <= i < |s| :: s[i].key < x.key
    ensures Insert(s, x) == [x] + s
  {
    if s != [] {
      InsertInFront(s[..|s| - 1], x);
    }
  }

  lemma SortAppend(s: seq<FlowItem>, x: FlowItem)
    ensures Sort(s + [x]) == Insert(Sort(s), x)
  {
    assert (s + [x])[..|s|] == s;
  }

  lemma SortWithoutAppend(t: seq<FlowItem>, x: FlowItem, m: nat)
    requires m < |t|
    ensures Sort(Without(t + [x], m)) == Insert(Sort(Without(t, m)), x)
  {
    assert (t + [x])[..m] == t[..m];
    assert (t + [x])[m + 1..] == t[m + 1..] + [x];
    assert t[..m] + (t[m + 1..] + [x]) == (t[..m] + t[m + 1..]) + [x];
    SortAppend(Without(t, m), x);
  }

  lemma WithoutLast(t: seq<FlowItem>, x: FlowItem)
    ensures Without(t + [x], |t|) == t
  {}

  /** Taking the front of the sorted queue is taking the earliest arrival with the largest key. */
  lemma {:induction false} FrontOfSort(s: seq<FlowItem>)
    requires s != []
    ensures Sort(s)[0] == s[FirstLargest(s)]
    ensures Sort(s)[1..] == Sort(Without(s, FirstLargest(s)))
  {
    var n := |s| - 1;
    var t, x := s[..n], s[n];
    assert s == t + [x];
    WithoutLast(t, x);
    if n > 0 {
      FrontOfSort(t);
      var m := FirstLargest(t);
      SortIsSorted(t);
      if t[m].key < x.key {
        InsertInFront(Sort(t), x);
      } else {
        InsertBehindHead(Sort(t), x);
        SortWithoutAppend(t, x, m);
      }
    }
  }

  lemma InsertAtBack(s: seq<FlowItem>, x: FlowItem)
    requires s != []
    ensures |Insert(s, x)| == |s| + 1
    ensures s[|s| - 1].key < x.key ==>
              Insert(s, x)[..|s|] == Insert(s[..|s| - 1], x) && Insert(s, x)[|s|] == s[|s| - 1]
    ensures s[|s| - 1].key >= x.key ==> Insert(s, x)[..|s|] == s && Insert(s, x)[|s|] == x
  {}

  /** Taking the back of the sorted queue is taking the latest arrival with the smallest key. */
  lemma {:induction false} BackOfSort(s: seq<FlowItem>)
    requires s != []
    ensures Sort(s)[|s| - 1] == s[LastSmallest(s)]
    ensures Sort(s)[..|s| - 1] == Sort(Without(s, LastSmallest(s)))
  {
    var n := |s| - 1;
    var t, x := s[..n], s[n];
    assert s == t + [x];
    WithoutLast(t, x);
    if n > 0 {
      BackOfSort(t);
      var m := LastSmallest(t);
      SortAppend(t, x);
      InsertAtBack(Sort(t), x);
      if t[m].key < x.key {
        SortWithoutAppend(t, x, m);
      }
    }
  }

  lemma {:induction false} InsertKeepsTotals(s: seq<FlowItem>, x: FlowItem)
    ensures SumSizes(Insert(s, x)) == SumSizes(s) + x.cmdSize
    ensures forall p :: TimesQueued(p, Insert(s, x)) == TimesQueued(p, s) + One(p(x.msg.request))
  {
    var r := Insert(s, x);
    if s != [] && s[|s| - 1].key < x.key {
      InsertKeepsTotals(s[..|s| - 1], x);
      assert r[..|r| - 1] == Insert(s[..|s| - 1], x);
    } else {
      assert r[..|r| - 1] == s;
    }
  }

  lemma {:induction false} SortKeepsTotals(s: seq<FlowItem>)
    ensures SumSizes(Sort(s)) == SumSizes(s)
    ensures forall p :: TimesQueued(p, Sort(s)) == TimesQueued(p, s)
  {
    if s != [] {
      SortKeepsTotals(s[..|s| - 1]);
      InsertKeepsTotals(Sort(s[..|s| - 1]), s[|s| - 1]);
    }
  }

  lemma {:induction false} InsertPermutes(s: seq<FlowItem>, x: FlowItem)
    ensures multiset(Insert(s, x)) == multiset(s) + multiset{x}
  {
    if s != [] && s[|s| - 1].key < x.key {
      InsertPermutes(s[..|s| - 1], x);
      assert s == s[..|s| - 1] + [s[|s| - 1]];
    }
  }

  lemma {:induction false} SortPermutes(s: seq<FlowItem>)
    ensures multiset(Sort(s)) == multiset(s)
  {
    if s != [] {
      SortPermutes(s[..|s| - 1]);
      InsertPermutes(Sort(s[..|s| - 1]), s[|s| - 1]);
      assert s == s[..|s| - 1] + [s[|s| - 1]];
    }
  }

  /** Sorting what is left of a sorted queue after new arrivals is sorting all of it. */
  lemma {:induction false} SortIsLazy(s: seq<FlowItem>, t: seq<FlowItem>)
    ensures Sort(Sort(s) + t) == Sort(s + t)
  {
    if t == [] {
      SortIsSorted(s);
      SortOfSorted(Sort(s));
      assert Sort(s) + t == Sort(s) && s + t == s;
    } else {
      var t', x := t[..|t| - 1], t[|t| - 1];
      SortIsLazy(s, t');
      assert Sort(s) + t == (Sort(s) + t') + [x] && s + t == (s + t') + [x];
      SortAppend(Sort(s) + t', x);
      SortAppend(s + t', x);
    }
  }

  // ---- One number for (priority, amount) ----

  /** The comparator the single key stands in for: higher priority first, then higher amount. */
  predicate GoesBefore(a: FlowItem, b: FlowItem) {
    if a.priority != b.priority then a.priority > b.priority else a.amount > b.amount
  }

  ghost predicate Keyed(s: seq<FlowItem>) {
    forall i | 0 <= i < |s| :: s[i].key == Key(s[i].priority, s[i].amount)
  }

  /** The key agrees with the comparator on a pair exactly when the amounts do not bridge the
      distance between the two priorities. */
  lemma KeyAgreesExactly(a: FlowItem, b: FlowItem)
    requires Keyed([a, b])
    ensures a.priority == b.priority ==> (a.key > b.key <==> GoesBefore(a, b))
    ensures a.priority > b.priority ==>
      (a.key > b.key <==> b.amount - a.amount < ((a.priority - b.priority) * ITEM_MULTIPLE) as real)
  {
    assert [a, b][0] == a && [a, b][1] == b;
  }

  /** The key orders a queue as the comparator does exactly when no amount bridges the distance to
      an item of higher priority. */
  lemma KeyFaithfulExactly(s: seq<FlowItem>)
    requires Keyed(s)
    ensures (forall i, j | 0 <= i < |s| && 0 <= j < |s| :: s[i].key > s[j].key <==> GoesBefore(s[i], s[j]))
       <==> (forall i, j | 0 <= i < |s| && 0 <= j < |s| && s[i].priority > s[j].priority ::
               s[j].amount - s[i].amount < ((s[i].priority - s[j].priority) * ITEM_MULTIPLE) as real)
  {
    forall i, j | 0 <= i < |s| && 0 <= j < |s|
      ensures s[i].priority == s[j].priority ==> (s[i].key > s[j].key <==> GoesBefore(s[i], s[j]))
      ensures s[i].priority > s[j].priority ==>
        (s[i].key > s[j].key <==>
         s[j].amount - s[i].amount < ((s[i].priority - s[j].priority) * ITEM_MULTIPLE) as real)
    {
      KeyAgreesExactly(s[i], s[j]);
    }
  }

  lemma KeyOrdersAsComparator(s: seq<FlowItem>)
    requires Keyed(s)
    requires forall i | 0 <= i < |s| :: 0.0 <= s[i].amount < ITEM_MULTIPLE as real
    ensures forall i, j | 0 <= i < |s| && 0 <= j < |s| :: s[i].key > s[j].key <==> GoesBefore(s[i], s[j])
  {
    forall i, j | 0 <= i < |s| && 0 <= j < |s| && s[i].priority > s[j].priority
      ensures s[j].amount - s[i].amount < ((s[i].priority - s[j].priority) * ITEM_MULTIPLE) as real
    {
      assert (s[i].priority - s[j].priority) * ITEM_MULTIPLE >= ITEM_MULTIPLE;
    }
    KeyFaithfulExactly(s);
  }

  /** Without the bound on amounts the key is wrong: an order worth 200000001 overtakes a withdrawal. */
  lemma LargeOrderOvertakesWithdraw(order: FlowItem, withdraw: FlowItem)
    requires Keyed([order, withdraw])
    requires order.priority == PRIORITY_OTHERS && order.amount == 200000001.0
    requires withdraw.priority == PRIORITY_WITHDRAW && withdraw.amount == 0.0
    ensures order.key > withdraw.key && GoesBefore(withdraw, order)
  {
    KeyAgreesExactly(withdraw, order);
    assert [order, withdraw][0] == order && [order, withdraw][1] == withdraw;
  }
}

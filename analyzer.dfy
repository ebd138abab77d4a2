/** `process_retention_data`: the per-customer recency / frequency / value
    table with its risk score and status column. */
module Analyzer {
  import opened Seqs
  import opened Keys
  import opened Rounding
  import opened Records

  /** The latest order day of a non-empty batch (`data["Date"].max()`). */
  function LatestDay(orders: seq<Order>): (d: int)
    requires |orders| > 0
    ensures forall i :: 0 <= i < |orders| ==> orders[i].day <= d
    ensures exists i :: 0 <= i < |orders| && orders[i].day == d
  {
    if |orders| == 1 then orders[0].day
    else
      var rest := LatestDay(orders[1..]);
      if orders[0].day >= rest then orders[0].day else rest
  }

  /** Sum of `Total_Revenue` over a run of orders. */
  function TotalRevenue(orders: seq<Order>): real
  {
    if |orders| == 0 then 0.0 else orders[0].revenue + TotalRevenue(orders[1..])
  }

  /** The row mask `Customer_ID == c`. */
  function CustomerIs(c: CustomerId): Order -> bool
  {
    (o: Order) => o.customer == c
  }

  /** The group of customer `c`: that customer's orders in input order. */
  function OrdersOf(orders: seq<Order>, c: CustomerId): (mine: seq<Order>)
    ensures |mine| <= |orders|
    ensures forall o :: o in mine <==> o in orders && o.customer == c
  {
    Filter(orders, CustomerIs(c))
  }

  /** `Recency / threshold * 100`, clipped above at 100, rounded to cents. */
  function RiskScore(recency: int, threshold: int): (r: real)
    requires threshold > 0
    ensures recency >= 0 ==> 0.0 <= r <= 100.0
    ensures var raw := recency as real / threshold as real * 100.0;
            var clipped := if raw < 100.0 then raw else 100.0;
            clipped - 0.005 <= r <= clipped + 0.005
    ensures IsCents(r)
  {
    var raw := recency as real / threshold as real * 100.0;
    var clipped := if raw < 100.0 then raw else 100.0;
    assert recency >= 0 ==> 0.0 <= Round2(clipped) <= 100.0 by {
      if recency >= 0 {
        assert 0.0 <= raw;
        Round2Monotone(0.0, clipped);
        Round2Monotone(clipped, 100.0);
        Round2Integer(0);
        Round2Integer(100);
      }
    }
    Round2(clipped)
  }

  /** The nested `np.where`: churn first, then the score cut at 70. */
  function Classify(recency: int, riskScore: real, threshold: int): (st: Status)
    ensures st == Churned <==> recency > threshold
    ensures st == AtRisk <==> recency <= threshold && riskScore > 70.0
  {
    if recency > threshold then Churned
    else if riskScore > 70.0 then AtRisk
    else Active
  }

  /** The table row of customer `c`: every column of the aggregation. */
  function Summarize(orders: seq<Order>, c: CustomerId, threshold: int): (s: Summary)
    requires c in CustomerColumn(orders)
    requires threshold > 0
    ensures s.customer == c
    ensures s.frequency >= 1
    ensures s.recency >= 0
    ensures s.riskScore == RiskScore(s.recency, threshold)
    ensures s.status == Classify(s.recency, s.riskScore, threshold)
  {
    OrdersOfFacts(orders, c);
    var mine := OrdersOf(orders, c);
    var recency := LatestDay(orders) - LatestDay(mine);
    var risk := RiskScore(recency, threshold);
    Summary(c, recency, |mine|, TotalRevenue(mine), mine[0].region, risk, Classify(recency, risk, threshold))
  }

  /** Frequency counts how often `c` occurs in the `Customer_ID` column. */
  lemma SummaryFrequency(orders: seq<Order>, c: CustomerId, threshold: int)
    requires c in CustomerColumn(orders)
    requires threshold > 0
    ensures Summarize(orders, c, threshold).frequency == multiset(CustomerColumn(orders))[c]
  {
    CountIsMultiplicity(orders, c);
  }

  /** Recency is the gap from the reference day to the latest order of `c`:
      some order of `c` lies exactly that far back and none lies closer. */
  lemma SummaryRecency(orders: seq<Order>, c: CustomerId, threshold: int)
    requires c in CustomerColumn(orders)
    requires threshold > 0
    ensures var s := Summarize(orders, c, threshold);
      && (exists i :: 0 <= i < |orders| && orders[i].customer == c &&
                      orders[i].day + s.recency == LatestDay(orders))
      && (forall i :: 0 <= i < |orders| && orders[i].customer == c ==>
                      orders[i].day + s.recency <= LatestDay(orders))
  {
    OrdersOfFacts(orders, c);
  }

  /** Region is the region of the first order of `c` in input order. */
  lemma SummaryRegion(orders: seq<Order>, c: CustomerId, threshold: int)
    requires c in CustomerColumn(orders)
    requires threshold > 0
    ensures exists i :: 0 <= i < |orders| && orders[i].customer == c &&
                        orders[i].region == Summarize(orders, c, threshold).region &&
                        (forall j :: 0 <= j < i ==> orders[j].customer != c)
  {
    OrdersOfFacts(orders, c);
    FirstOrderOf(orders, c);
  }

  /** Lifetime value is the revenue summed over the orders of `c`. */
  lemma SummaryLtv(orders: seq<Order>, c: CustomerId, threshold: int)
    requires c in CustomerColumn(orders)
    requires threshold > 0
    ensures Summarize(orders, c, threshold).ltv == TotalRevenue(OrdersOf(orders, c))
  {
  }

  /** What the group of `c` shares with the whole batch: its size is the
      multiplicity of `c` in the id column, and its latest day is reached by
      some order of `c` and bounds all of them. */
  lemma OrdersOfFacts(orders: seq<Order>, c: CustomerId)
    requires c in CustomerColumn(orders)
    ensures |OrdersOf(orders, c)| == multiset(CustomerColumn(orders))[c]
    ensures |OrdersOf(orders, c)| > 0
    ensures exists i :: 0 <= i < |orders| && orders[i].customer == c &&
                        orders[i].day == LatestDay(OrdersOf(orders, c))
    ensures forall i :: 0 <= i < |orders| && orders[i].customer == c ==>
                        orders[i].day <= LatestDay(OrdersOf(orders, c))
    ensures LatestDay(OrdersOf(orders, c)) <= LatestDay(orders)
  {
    var mine := OrdersOf(orders, c);
    var j :| 0 <= j < |orders| && CustomerColumn(orders)[j] == c;
    assert orders[j] in mine;
    CountIsMultiplicity(orders, c);
    var d := LatestDay(mine);
    var k :| 0 <= k < |mine| && mine[k].day == d;
    assert mine[k] in orders;
    var i :| 0 <= i < |orders| && orders[i] == mine[k];
    assert orders[i].customer == c && orders[i].day == d;
    forall i | 0 <= i < |orders| && orders[i].customer == c
      ensures orders[i].day <= d
    {
      assert orders[i] in mine;
    }
  }

  /** The group of `c` starts with the first order of `c` in the batch. */
  lemma FirstOrderOf(orders: seq<Order>, c: CustomerId)
    requires |OrdersOf(orders, c)| > 0
    ensures exists i :: 0 <= i < |orders| && orders[i].customer == c &&
                        orders[i].region == OrdersOf(orders, c)[0].region &&
                        (forall j :: 0 <= j < i ==> orders[j].customer != c)
  {
    FilterFirst(orders, CustomerIs(c));
  }

  /** The size of `c`'s group is how often `c` occurs in the id column. */
  lemma {:induction false} CountIsMultiplicity(orders: seq<Order>, c: CustomerId)
    ensures |OrdersOf(orders, c)| == multiset(CustomerColumn(orders))[c]
  {
    if |orders| > 0 {
      CountIsMultiplicity(orders[1..], c);
      assert CustomerColumn(orders) == [orders[0].customer] + CustomerColumn(orders[1..]);
    }
  }

  /** One row per key of `ids`, in the order of `ids`. */
  function SummariesFor(orders: seq<Order>, ids: seq<CustomerId>, threshold: int): (rows: seq<Summary>)
    requires forall c :: c in ids ==> c in CustomerColumn(orders)
    requires threshold > 0
    ensures |rows| == |ids|
    ensures forall k :: 0 <= k < |ids| ==> rows[k].customer == ids[k]
    ensures forall k :: 0 <= k < |ids| ==> rows[k] == Summarize(orders, ids[k], threshold)
  {
    if |ids| == 0 then []
    else [Summarize(orders, ids[0], threshold)] + SummariesFor(orders, ids[1..], threshold)
  }

  /** The ascending distinct customer ids of the batch (the group keys). */
  function GroupKeys(orders: seq<Order>): (ids: seq<CustomerId>)
    ensures StrictlySorted(ids)
    ensures forall c :: c in ids <==> c in CustomerColumn(orders)
  {
    SortedDistinct(CustomerColumn(orders))
  }

  /** `process_retention_data(data, threshold)`: exactly one row per distinct
      customer id, ascending by id, each row the summary of that customer. */
  function Analyze(orders: seq<Order>, threshold: int): (rows: seq<Summary>)
    requires threshold > 0
    ensures forall c :: c in CustomerColumn(orders) <==> exists i :: 0 <= i < |rows| && rows[i].customer == c
    ensures forall i, j :: 0 <= i < j < |rows| ==> Less(rows[i].customer, rows[j].customer)
    ensures forall i :: 0 <= i < |rows| ==>
              rows[i].customer in CustomerColumn(orders) &&
              rows[i] == Summarize(orders, rows[i].customer, threshold)
  {
    var ids := GroupKeys(orders);
    RowsFollowKeys(orders, ids, threshold);
    SummariesFor(orders, ids, threshold)
  }

  /** Rows built from the keys of the batch carry exactly those keys, in
      the same order. */
  lemma RowsFollowKeys(orders: seq<Order>, ids: seq<CustomerId>, threshold: int)
    requires forall c :: c in ids <==> c in CustomerColumn(orders)
    requires threshold > 0
    ensures var rows := SummariesFor(orders, ids, threshold);
      && |rows| == |ids|
      && (forall i :: 0 <= i < |rows| ==> rows[i].customer == ids[i])
      && (forall c :: c in CustomerColumn(orders) <==> exists i :: 0 <= i < |rows| && rows[i].customer == c)
  {
    var rows := SummariesFor(orders, ids, threshold);
    forall c | c in CustomerColumn(orders) ensures exists i :: 0 <= i < |rows| && rows[i].customer == c {
      var i :| 0 <= i < |ids| && ids[i] == c;
      assert rows[i].customer == c;
    }
  }

  // Risk score and status

  /** The status rule in closed form on recency alone. Rounding moves the
      `risk_score > 70` cut to `recency / threshold > 0.70005`, i.e.
      `20000 * recency > 14001 * threshold`; churn needs
      `recency > threshold`. */
  lemma StatusRule(recency: int, threshold: int)
    requires threshold > 0 && recency >= 0
    ensures Classify(recency, RiskScore(recency, threshold), threshold) ==
              if recency > threshold then Churned
              else if 20000 * recency > 14001 * threshold then AtRisk
              else Active
  {
    if recency <= threshold {
      AtRiskCut(recency, threshold);
    }
  }

  /** Within the threshold, the rounded score passes 70 exactly when
      `20000 * recency > 14001 * threshold`. */
  lemma AtRiskCut(recency: int, threshold: int)
    requires 0 <= recency <= threshold && threshold > 0
    ensures RiskScore(recency, threshold) > 70.0 <==> 20000 * recency > 14001 * threshold
  {
    var t := threshold as real;
    var raw := recency as real / t * 100.0;
    RatioScaled(recency as real, t);
    assert raw <= 100.0 by {
      ScaleCompare(raw, 100.0, t);
    }
    assert RiskScore(recency, threshold) == Round2(raw);
    Round2Above(raw, 7000);
    assert 7000 as real / 100.0 == 70.0;
    assert RiskScore(recency, threshold) > 70.0 <==> raw * 100.0 > 7000.5;
    CutScaled(recency as real, t);
    assert (20000 * recency) as real == recency as real * 20000.0;
    assert (14001 * threshold) as real == 14001.0 * t;
  }

  /** The cut `score * 100 > 7000.5` on the ratio, cleared of the division. */
  lemma CutScaled(x: real, t: real)
    requires t > 0.0
    ensures x / t * 100.0 * 100.0 > 7000.5 <==> x * 20000.0 > 14001.0 * t
  {
    RatioScaled(x, t);
    ScaleCompare(x / t * 100.0 * 100.0, 7000.5, t);
  }

  /** `x / t * 100` times `t` gives back `x * 100`. */
  lemma RatioScaled(x: real, t: real)
    requires t > 0.0
    ensures x / t * 100.0 * t == x * 100.0
  {
  }

  /** Multiplying by a positive factor keeps a strict comparison. */
  lemma ScaleCompare(x: real, y: real, t: real)
    requires t > 0.0
    ensures x > y <==> x * t > y * t
  {
  }

  /** A customer past the threshold is churned and scores exactly 100. */
  lemma ChurnDominance(recency: int, threshold: int)
    requires threshold > 0 && recency > threshold
    ensures RiskScore(recency, threshold) == 100.0
    ensures Classify(recency, RiskScore(recency, threshold), threshold) == Churned
  {
    var t := threshold as real;
    var raw := recency as real / t * 100.0;
    assert raw * t == recency as real * 100.0;
    assert raw >= 100.0;
    Round2Integer(100);
  }

  /** A larger threshold never raises a score. */
  lemma RiskScoreAntitone(recency: int, t1: int, t2: int)
    requires 0 < t1 <= t2 && recency >= 0
    ensures RiskScore(recency, t2) <= RiskScore(recency, t1)
  {
    var r := recency as real;
    var raw1 := r / t1 as real * 100.0;
    var raw2 := r / t2 as real * 100.0;
    assert raw1 * t1 as real == r * 100.0;
    assert raw2 * t2 as real == r * 100.0;
    assert raw2 <= raw1 by {
      assert raw2 * t1 as real <= raw2 * t2 as real;
    }
    var c1 := if raw1 < 100.0 then raw1 else 100.0;
    var c2 := if raw2 < 100.0 then raw2 else 100.0;
    Round2Monotone(c2, c1);
  }

  /** A larger threshold never moves a customer towards `Churned`: an `Active`
      customer stays `Active`, an `At Risk` one is `At Risk` or `Active`. */
  lemma StatusAntitone(recency: int, t1: int, t2: int)
    requires 0 < t1 <= t2 && recency >= 0
    ensures Severity(Classify(recency, RiskScore(recency, t2), t2)) <=
            Severity(Classify(recency, RiskScore(recency, t1), t1))
  {
    RiskScoreAntitone(recency, t1, t2);
  }

  /** Raising the threshold over the same orders keeps every aggregate column
      and the row order, lowers or keeps every score, and never raises a
      status. */
  lemma AnalyzeThresholdMonotone(orders: seq<Order>, t1: int, t2: int)
    requires 0 < t1 <= t2
    ensures var a, b := Analyze(orders, t1), Analyze(orders, t2);
      && |a| == |b|
      && (forall i :: 0 <= i < |a| ==>
            && b[i].customer == a[i].customer
            && b[i].recency == a[i].recency
            && b[i].frequency == a[i].frequency
            && b[i].ltv == a[i].ltv
            && b[i].region == a[i].region
            && b[i].riskScore <= a[i].riskScore
            && Severity(b[i].status) <= Severity(a[i].status))
  {
    var ids := GroupKeys(orders);
    var a, b := Analyze(orders, t1), Analyze(orders, t2);
    assert a == SummariesFor(orders, ids, t1) && b == SummariesFor(orders, ids, t2);
    forall i | 0 <= i < |a|
      ensures && b[i].customer == a[i].customer
              && b[i].recency == a[i].recency
              && b[i].frequency == a[i].frequency
              && b[i].ltv == a[i].ltv
              && b[i].region == a[i].region
              && b[i].riskScore <= a[i].riskScore
              && Severity(b[i].status) <= Severity(a[i].status)
    {
      SummarizeThresholdMonotone(orders, ids[i], t1, t2);
    }
  }

  lemma SummarizeThresholdMonotone(orders: seq<Order>, c: CustomerId, t1: int, t2: int)
    requires c in CustomerColumn(orders)
    requires 0 < t1 <= t2
    ensures var a, b := Summarize(orders, c, t1), Summarize(orders, c, t2);
      && b.customer == a.customer
      && b.recency == a.recency
      && b.frequency == a.frequency
      && b.ltv == a.ltv
      && b.region == a.region
      && b.riskScore <= a.riskScore
      && Severity(b.status) <= Severity(a.status)
  {
    var a := Summarize(orders, c, t1);
    RiskScoreAntitone(a.recency, t1, t2);
    StatusAntitone(a.recency, t1, t2);
  }

  // Totals over the table

  function SumFrequency(rows: seq<Summary>): int
  {
    if |rows| == 0 then 0 else rows[0].frequency + SumFrequency(rows[1..])
  }

  function SumLtv(rows: seq<Summary>): real
  {
    if |rows| == 0 then 0.0 else rows[0].ltv + SumLtv(rows[1..])
  }

  lemma TotalRevenueCons(o: Order, rest: seq<Order>)
    ensures TotalRevenue([o] + rest) == o.revenue + TotalRevenue(rest)
  {
    assert ([o] + rest)[1..] == rest;
  }

  /** Total size of the groups of `ids`. */
  function GroupSizes(orders: seq<Order>, ids: seq<CustomerId>): int
  {
    if |ids| == 0 then 0 else |OrdersOf(orders, ids[0])| + GroupSizes(orders, ids[1..])
  }

  /** Total revenue of the groups of `ids`. */
  function GroupRevenue(orders: seq<Order>, ids: seq<CustomerId>): real
  {
    if |ids| == 0 then 0.0 else TotalRevenue(OrdersOf(orders, ids[0])) + GroupRevenue(orders, ids[1..])
  }

  /** The rows of `ids` add up to the groups of `ids`. */
  lemma {:induction false} RowTotals(orders: seq<Order>, ids: seq<CustomerId>, threshold: int)
    requires forall c :: c in ids ==> c in CustomerColumn(orders)
    requires threshold > 0
    ensures SumFrequency(SummariesFor(orders, ids, threshold)) == GroupSizes(orders, ids)
    ensures SumLtv(SummariesFor(orders, ids, threshold)) == GroupRevenue(orders, ids)
  {
    if |ids| > 0 {
      RowTotals(orders, ids[1..], threshold);
    }
  }

  /** Putting one more order in front puts it in front of its own group. */
  lemma OrdersOfCons(o: Order, rest: seq<Order>, c: CustomerId)
    ensures OrdersOf([o] + rest, c) == (if o.customer == c then [o] else []) + OrdersOf(rest, c)
  {
    assert ([o] + rest)[0] == o && ([o] + rest)[1..] == rest;
  }

  /** Putting one more order in front adds it to the group of its customer,
      if that customer is among the (duplicate-free) keys. */
  lemma {:induction false} GroupsOfCons(o: Order, rest: seq<Order>, ids: seq<CustomerId>)
    requires StrictlySorted(ids)
    ensures GroupSizes([o] + rest, ids) == GroupSizes(rest, ids) + (if o.customer in ids then 1 else 0)
    ensures GroupRevenue([o] + rest, ids) ==
            GroupRevenue(rest, ids) + (if o.customer in ids then o.revenue else 0.0)
  {
    if |ids| > 0 {
      SortedTail(ids);
      OrdersOfCons(o, rest, ids[0]);
      TotalRevenueCons(o, OrdersOf(rest, ids[0]));
      assert [] + OrdersOf(rest, ids[0]) == OrdersOf(rest, ids[0]);
      GroupsOfCons(o, rest, ids[1..]);
      assert o.customer in ids <==> o.customer == ids[0] || o.customer in ids[1..];
    }
  }

  /** Groups over duplicate-free keys that cover every customer of the batch
      partition the batch: their sizes add up to the order count and their
      revenues to the batch revenue. */
  lemma {:induction false} GroupsPartition(orders: seq<Order>, ids: seq<CustomerId>)
    requires StrictlySorted(ids)
    requires forall i :: 0 <= i < |orders| ==> orders[i].customer in ids
    ensures GroupSizes(orders, ids) == |orders|
    ensures GroupRevenue(orders, ids) == TotalRevenue(orders)
  {
    if |orders| == 0 {
      GroupsEmpty(ids);
    } else {
      assert orders == [orders[0]] + orders[1..];
      GroupsPartition(orders[1..], ids);
      GroupsOfCons(orders[0], orders[1..], ids);
    }
  }

  lemma {:induction false} GroupsEmpty(ids: seq<CustomerId>)
    ensures GroupSizes([], ids) == 0 && GroupRevenue([], ids) == 0.0
  {
    if |ids| > 0 {
      GroupsEmpty(ids[1..]);
    }
  }

  /** The table accounts for every order exactly once: frequencies add up to
      the number of orders and lifetime values to the revenue of the batch. */
  lemma TableTotals(orders: seq<Order>, threshold: int)
    requires threshold > 0
    ensures SumFrequency(Analyze(orders, threshold)) == |orders|
    ensures SumLtv(Analyze(orders, threshold)) == TotalRevenue(orders)
  {
    var ids := GroupKeys(orders);
    assert forall i :: 0 <= i < |orders| ==> orders[i].customer in ids by {
      forall i | 0 <= i < |orders| ensures orders[i].customer in ids {
        assert CustomerColumn(orders)[i] == orders[i].customer;
      }
    }
    RowTotals(orders, ids, threshold);
    GroupsPartition(orders, ids);
  }

  lemma {:induction false} TotalRevenueNonNegative(s: seq<Order>)
    requires forall o :: o in s ==> o.revenue >= 0.0
    ensures TotalRevenue(s) >= 0.0
  {
    if |s| > 0 {
      assert s[0] in s;
      TotalRevenueNonNegative(s[1..]);
    }
  }

  /** With non-negative revenues every lifetime value is non-negative. */
  lemma LtvNonNegative(orders: seq<Order>, c: CustomerId, threshold: int)
    requires c in CustomerColumn(orders)
    requires threshold > 0
    requires forall i :: 0 <= i < |orders| ==> orders[i].revenue >= 0.0
    ensures Summarize(orders, c, threshold).ltv >= 0.0
  {
    var mine := OrdersOf(orders, c);
    forall o | o in mine ensures o.revenue >= 0.0 {
      var i :| 0 <= i < |orders| && orders[i] == o;
    }
    TotalRevenueNonNegative(mine);
  }

  /** The reference day is anchored in the batch: the customer whose order
      sets it has recency 0. */
  lemma SomeRecencyIsZero(orders: seq<Order>, threshold: int)
    requires threshold > 0
    requires |orders| > 0
    ensures var rows := Analyze(orders, threshold);
      exists i :: 0 <= i < |rows| && rows[i].recency == 0
  {
    var rows := Analyze(orders, threshold);
    var k :| 0 <= k < |orders| && orders[k].day == LatestDay(orders);
    var c := orders[k].customer;
    assert CustomerColumn(orders)[k] == c;
    assert c in CustomerColumn(orders);
    var i :| 0 <= i < |rows| && rows[i].customer == c;
    LatestCustomerIsCurrent(orders, k, threshold);
  }

  lemma LatestCustomerIsCurrent(orders: seq<Order>, k: nat, threshold: int)
    requires threshold > 0
    requires k < |orders| && orders[k].day == LatestDay(orders)
    ensures orders[k].customer in CustomerColumn(orders)
    ensures Summarize(orders, orders[k].customer, threshold).recency == 0
  {
    assert CustomerColumn(orders)[k] == orders[k].customer;
    SummaryRecency(orders, orders[k].customer, threshold);
  }
}

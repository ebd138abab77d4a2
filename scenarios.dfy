/** Worked batches for the analyzer, checked against the model. Days are
    counted from 2023-06-01, so 2024-01-01 is day 214 and 2024-01-10 is
    day 223. */
module Scenarios {
  import opened Seqs
  import opened Keys
  import opened Rounding
  import opened Records
  import opened Analyzer
  import opened Dashboard

  function ThreeOrders(): seq<Order>
  {
    [ Order("C1", "O1", 214, 100.0, "North"),
      Order("C1", "O2", 223, 50.0, "North"),
      Order("C2", "O3", 0, 200.0, "South") ]
  }

  lemma ThreeOrdersKeys()
    ensures GroupKeys(ThreeOrders()) == ["C1", "C2"]
  {
    var orders := ThreeOrders();
    assert CustomerColumn(orders) == ["C1", "C1", "C2"];
    assert Less("C1", "C2");
    assert SortedDistinct(["C2"]) == ["C2"];
    assert SortedDistinct(["C1", "C2"]) == ["C1", "C2"];
    assert SortedDistinct(["C1", "C1", "C2"]) == Insert("C1", ["C1", "C2"]);
  }

  lemma ThreeOrdersLatest()
    ensures LatestDay(ThreeOrders()) == 223
  {
    var orders := ThreeOrders();
    assert LatestDay(orders[2..]) == 0;
    assert LatestDay(orders[1..]) == 223;
  }

  /** Grouping steps past one order of another customer. */
  lemma SkipOrder(o: Order, rest: seq<Order>, c: CustomerId)
    requires o.customer != c
    ensures OrdersOf([o] + rest, c) == OrdersOf(rest, c)
  {
    OrdersOfCons(o, rest, c);
  }

  /** Grouping keeps an order of the customer in front of the rest. */
  lemma KeepOrder(o: Order, rest: seq<Order>, c: CustomerId)
    requires o.customer == c
    ensures OrdersOf([o] + rest, c) == [o] + OrdersOf(rest, c)
  {
    OrdersOfCons(o, rest, c);
  }

  lemma DistinctIds()
    ensures "C1" != "C2"
  {
    assert "C1"[1] != "C2"[1];
  }

  lemma ThreeOrdersGroupC1()
    ensures OrdersOf(ThreeOrders(), "C1") == ThreeOrders()[..2]
  {
    var orders := ThreeOrders();
    var o1, o2, o3 := orders[0], orders[1], orders[2];
    DistinctIds();
    SkipOrder(o3, [], "C1");
    KeepOrder(o2, [o3], "C1");
    assert [o2] + [o3] == [o2, o3];
    KeepOrder(o1, [o2, o3], "C1");
    assert [o1] + [o2, o3] == orders;
  }

  lemma ThreeOrdersGroupC2()
    ensures OrdersOf(ThreeOrders(), "C2") == ThreeOrders()[2..]
  {
    var orders := ThreeOrders();
    var o1, o2, o3 := orders[0], orders[1], orders[2];
    DistinctIds();
    KeepOrder(o3, [], "C2");
    assert [o3] + [] == [o3];
    SkipOrder(o2, [o3], "C2");
    assert [o2] + [o3] == [o2, o3];
    SkipOrder(o1, [o2, o3], "C2");
    assert [o1] + [o2, o3] == orders;
  }

  /** Reads the aggregate columns of `Summarize` off a known group. */
  lemma SummarizeFrom(orders: seq<Order>, c: CustomerId, threshold: int, mine: seq<Order>)
    requires c in CustomerColumn(orders) && threshold > 0
    requires OrdersOf(orders, c) == mine
    ensures |mine| > 0
    ensures var s := Summarize(orders, c, threshold);
      s.recency == LatestDay(orders) - LatestDay(mine) && s.frequency == |mine| &&
      s.ltv == TotalRevenue(mine) && s.region == mine[0].region
  {
    OrdersOfFacts(orders, c);
  }

  /** A customer who ordered on the reference day scores 0 and is active. */
  lemma OnReferenceDay(threshold: int)
    requires threshold > 0
    ensures RiskScore(0, threshold) == 0.0
    ensures Classify(0, RiskScore(0, threshold), threshold) == Active
  {
    Round2Integer(0);
  }

  lemma ThreeOrdersC1()
    ensures "C1" in CustomerColumn(ThreeOrders()) &&
            Summarize(ThreeOrders(), "C1", 90) == Summary("C1", 0, 2, 150.0, "North", 0.0, Active)
  {
    var orders := ThreeOrders();
    assert CustomerColumn(orders)[0] == "C1";
    ThreeOrdersLatest();
    ThreeOrdersGroupC1();
    var mine := orders[..2];
    SummarizeFrom(orders, "C1", 90, mine);
    assert LatestDay(mine[1..]) == 223;
    assert LatestDay(mine) == 223;
    assert TotalRevenue(mine) == 150.0 by {
      assert TotalRevenue(mine[1..]) == 50.0;
    }
    OnReferenceDay(90);
  }

  lemma ThreeOrdersC2()
    ensures "C2" in CustomerColumn(ThreeOrders()) &&
            Summarize(ThreeOrders(), "C2", 90) == Summary("C2", 223, 1, 200.0, "South", 100.0, Churned)
  {
    var orders := ThreeOrders();
    assert CustomerColumn(orders)[2] == "C2";
    ThreeOrdersLatest();
    ThreeOrdersGroupC2();
    var mine := orders[2..];
    SummarizeFrom(orders, "C2", 90, mine);
    assert LatestDay(mine) == 0;
    assert TotalRevenue(mine) == 200.0;
    ChurnDominance(223, 90);
  }

  /** 25 days out against a 30-day threshold: the score rounds 83.333… to
      83.33, which is past the cut at 70, so the customer is at risk. */
  lemma AtRiskExample()
    ensures RiskScore(25, 30) == 83.33
    ensures Classify(25, RiskScore(25, 30), 30) == AtRisk
  {
    var raw := 25.0 / 30.0 * 100.0;
    assert raw * 100.0 == 25000.0 / 3.0;
    RoundHalfEvenUnique(raw * 100.0, 8333);
    StatusRule(25, 30);
  }

  /** The rows for two keys are the two summaries, in key order. */
  lemma TwoKeyRows(orders: seq<Order>, threshold: int, c1: CustomerId, c2: CustomerId)
    requires threshold > 0
    requires c1 in CustomerColumn(orders) && c2 in CustomerColumn(orders)
    ensures SummariesFor(orders, [c1, c2], threshold) ==
            [Summarize(orders, c1, threshold), Summarize(orders, c2, threshold)]
  {
    assert [c1, c2][1..] == [c2];
  }

  function C1Row(): Summary { Summary("C1", 0, 2, 150.0, "North", 0.0, Active) }
  function C2Row(): Summary { Summary("C2", 223, 1, 200.0, "South", 100.0, Churned) }

  /** With a 90-day threshold, C1 ordered on the reference day and is
      active; C2 is 223 days out, churned, and scores 100. */
  lemma ThreeOrdersTable()
    ensures Analyze(ThreeOrders(), 90) == [C1Row(), C2Row()]
  {
    ThreeOrdersKeys();
    ThreeOrdersC1();
    ThreeOrdersC2();
    var orders := ThreeOrders();
    assert CustomerColumn(orders)[0] == "C1" && CustomerColumn(orders)[2] == "C2";
    TwoKeyRows(orders, 90, "C1", "C2");
  }

  /** One of the two customers has churned: a 50% churn rate puts the
      confidence at its floor of 60. */
  lemma ThreeOrdersKpis()
    ensures ComputeKpis([C1Row(), C2Row()]) == Ok(Kpis(2, 0, 0.0, 0.5, 60.0))
  {
    var rows := [C1Row(), C2Row()];
    assert rows[1..] == [C2Row()] && rows[1..][1..] == [];
    assert CountStatus(rows, AtRisk) == 0;
    assert Filter(rows, HasStatus(Churned)) == [C2Row()];
  }

  /** Only C2 needs winning back. */
  lemma ThreeOrdersWinBack()
    ensures WinBackList([C1Row(), C2Row()]) == [C2Row()]
  {
    var rows := [C1Row(), C2Row()];
    assert rows[1..] == [C2Row()] && rows[1..][1..] == [];
    assert Filter(rows, NotActive) == [C2Row()];
  }
}

/** The logic the dashboard page runs around `process_retention_data`: the
    region selection, the KPI figures and the win-back action list. */
module Dashboard {
  import opened Seqs
  import opened Records
  import opened Analyzer

  /** The sidebar choice that disables the region filter. */
  const AllRegions: Region := "All"

  /** The row mask `Region == r`. */
  function InRegion(r: Region): Order -> bool
  {
    (o: Order) => o.region == r
  }

  /** `df if selected_region == "All" else df[df["Region"] == selected_region]`. */
  function SelectRegion(orders: seq<Order>, selected: Region): (r: seq<Order>)
    ensures selected == AllRegions ==> r == orders
    ensures selected != AllRegions ==> forall o :: o in r <==> o in orders && o.region == selected
  {
    if selected == AllRegions then orders else Filter(orders, InRegion(selected))
  }

  /** The selection keeps rows in input order: it distributes over
      concatenation. */
  lemma SelectRegionKeepsOrder(a: seq<Order>, b: seq<Order>, selected: Region)
    ensures SelectRegion(a + b, selected) == SelectRegion(a, selected) + SelectRegion(b, selected)
  {
    if selected != AllRegions {
      FilterAppend(a, b, InRegion(selected));
    }
  }

  /** Selecting twice is selecting once. */
  lemma SelectRegionIdempotent(orders: seq<Order>, selected: Region)
    ensures SelectRegion(SelectRegion(orders, selected), selected) == SelectRegion(orders, selected)
  {
    var once := SelectRegion(orders, selected);
    if selected != AllRegions {
      assert forall i :: 0 <= i < |once| ==> InRegion(selected)(once[i]) by {
        forall i | 0 <= i < |once| ensures InRegion(selected)(once[i]) {
          assert once[i] in once;
        }
      }
      FilterKeepsAll(once, InRegion(selected));
    }
  }

  /** Under a region filter, every customer row reports the selected region. */
  lemma SelectedRowsShareRegion(orders: seq<Order>, selected: Region, threshold: int)
    requires threshold > 0
    requires selected != AllRegions
    ensures var rows := Analyze(SelectRegion(orders, selected), threshold);
      forall i :: 0 <= i < |rows| ==> rows[i].region == selected
  {
    var data := SelectRegion(orders, selected);
    var rows := Analyze(data, threshold);
    forall i | 0 <= i < |rows| ensures rows[i].region == selected {
      SummaryRegion(data, rows[i].customer, threshold);
      var k :| 0 <= k < |data| && data[k].customer == rows[i].customer &&
               data[k].region == rows[i].region;
      assert data[k] in data;
    }
  }

  // KPIs

  /** The row mask `Status == s`. */
  function HasStatus(s: Status): Summary -> bool
  {
    (r: Summary) => r.status == s
  }

  /** `len(processed_df[processed_df["Status"] == s])`. */
  function CountStatus(rows: seq<Summary>, s: Status): (n: nat)
    ensures n <= |rows|
    ensures n == 0 <==> forall i :: 0 <= i < |rows| ==> rows[i].status != s
  {
    var picked := Filter(rows, HasStatus(s));
    assert |picked| > 0 ==> exists i :: 0 <= i < |rows| && rows[i].status == s by {
      if |picked| > 0 {
        assert picked[0] in picked;
      }
    }
    assert (exists i :: 0 <= i < |rows| && rows[i].status == s) ==> |picked| > 0 by {
      if i :| 0 <= i < |rows| && rows[i].status == s {
        assert rows[i] in picked;
      }
    }
    |picked|
  }

  /** The three statuses partition the table. */
  lemma {:induction false} StatusPartition(rows: seq<Summary>)
    ensures CountStatus(rows, Active) + CountStatus(rows, AtRisk) + CountStatus(rows, Churned) == |rows|
  {
    if |rows| > 0 {
      StatusPartition(rows[1..]);
      CountStatusStep(rows, Active);
      CountStatusStep(rows, AtRisk);
      CountStatusStep(rows, Churned);
    }
  }

  lemma CountStatusStep(rows: seq<Summary>, s: Status)
    requires |rows| > 0
    ensures CountStatus(rows, s) == (if rows[0].status == s then 1 else 0) + CountStatus(rows[1..], s)
  {
  }

  /** The row mask `Recency > threshold`. */
  function PastThreshold(threshold: int): Summary -> bool
  {
    (r: Summary) => r.recency > threshold
  }

  /** The churned rows are exactly the rows whose recency passes the
      threshold, so the churn count depends on recency alone. */
  lemma ChurnedArePastThreshold(orders: seq<Order>, threshold: int)
    requires threshold > 0
    ensures var rows := Analyze(orders, threshold);
      Filter(rows, HasStatus(Churned)) == Filter(rows, PastThreshold(threshold))
  {
    var rows := Analyze(orders, threshold);
    forall i | 0 <= i < |rows|
      ensures HasStatus(Churned)(rows[i]) == PastThreshold(threshold)(rows[i])
    {
      var s := Summarize(orders, rows[i].customer, threshold);
      assert rows[i] == s;
      assert s.status == Churned <==> s.recency > threshold;
    }
    FilterCongruent(rows, HasStatus(Churned), PastThreshold(threshold));
  }

  /** The headline figures of the page. */
  datatype Kpis = Kpis(
    totalCustomers: nat,
    atRiskCount: nat,
    atRiskShare: real,
    churnRate: real,
    confidence: real)

  /** A figure that cannot be computed: the source divides by the customer
      count, which raises `ZeroDivisionError` on an empty table. */
  datatype KpiError = NoCustomers

  datatype Result<T> = Ok(value: T) | Err(error: KpiError)

  /** `max(60, 100 - churn_rate * 100)`. */
  function Confidence(churnRate: real): (c: real)
    requires 0.0 <= churnRate <= 1.0
    ensures 60.0 <= c <= 100.0
    ensures c >= 100.0 - churnRate * 100.0
    ensures c == 60.0 || c == 100.0 - churnRate * 100.0
  {
    var linear := 100.0 - churnRate * 100.0;
    if linear > 60.0 then linear else 60.0
  }

  /** `count / total` as an exact ratio. */
  function Share(count: nat, total: nat): (q: real)
    requires total > 0
    ensures q * total as real == count as real
    ensures count <= total ==> 0.0 <= q <= 1.0
  {
    count as real / total as real
  }

  lemma ShareAdds(a: nat, b: nat, total: nat)
    requires total > 0
    ensures Share(a, total) + Share(b, total) == Share(a + b, total)
  {
  }

  /** Total, at-risk count and share, churn rate and confidence; the shares
      are counts over the total, which must not be zero. */
  function ComputeKpis(rows: seq<Summary>): (k: Result<Kpis>)
    ensures k.Err? <==> |rows| == 0
    ensures k.Ok? ==>
      && k.value.totalCustomers == |rows|
      && k.value.atRiskCount == CountStatus(rows, AtRisk)
      && k.value.atRiskShare == Share(CountStatus(rows, AtRisk), |rows|)
      && k.value.churnRate == Share(CountStatus(rows, Churned), |rows|)
      && k.value.confidence == Confidence(k.value.churnRate)
      && 0.0 <= k.value.churnRate <= 1.0
      && 0.0 <= k.value.atRiskShare + k.value.churnRate <= 1.0
      && 60.0 <= k.value.confidence <= 100.0
  {
    if |rows| == 0 then Err(NoCustomers)
    else
      var total := |rows|;
      var atRisk := CountStatus(rows, AtRisk);
      var churned := CountStatus(rows, Churned);
      StatusPartition(rows);
      var share := Share(atRisk, total);
      var rate := Share(churned, total);
      ShareAdds(atRisk, churned, total);
      Ok(Kpis(total, atRisk, share, rate, Confidence(rate)))
  }

  // Win-back action list

  /** The row mask `Status != "Active"`. */
  const NotActive: Summary -> bool := (r: Summary) => r.status != Active

  /** Non-increasing in risk score. */
  predicate ByRiskDescending(rows: seq<Summary>)
  {
    forall i, j :: 0 <= i < j < |rows| ==> rows[i].riskScore >= rows[j].riskScore
  }

  /** A row scoring at least as high as every row of a descending list can
      go in front of it. */
  lemma ConsDescending(h: Summary, t: seq<Summary>)
    requires ByRiskDescending(t)
    requires forall y :: y in t ==> y.riskScore <= h.riskScore
    ensures ByRiskDescending([h] + t)
  {
    forall i, j | 0 <= i < j < |[h] + t|
      ensures ([h] + t)[i].riskScore >= ([h] + t)[j].riskScore
    {
      if i == 0 {
        assert ([h] + t)[j] in t;
      }
    }
  }

  /** Places `x` in a list ordered by descending risk score. */
  function InsertByRisk(x: Summary, rows: seq<Summary>): (r: seq<Summary>)
    requires ByRiskDescending(rows)
    ensures ByRiskDescending(r)
    ensures multiset(r) == multiset(rows) + multiset{x}
  {
    if |rows| == 0 || x.riskScore >= rows[0].riskScore then
      assert forall y :: y in rows ==> y.riskScore <= x.riskScore by {
        forall y | y in rows ensures y.riskScore <= x.riskScore {
          var k :| 0 <= k < |rows| && rows[k] == y;
        }
      }
      ConsDescending(x, rows);
      [x] + rows
    else
      assert rows == [rows[0]] + rows[1..];
      var t := InsertByRisk(x, rows[1..]);
      assert forall y :: y in t ==> y.riskScore <= rows[0].riskScore by {
        forall y | y in t ensures y.riskScore <= rows[0].riskScore {
          assert y in multiset(t);
          if y != x {
            assert y in rows[1..];
            var k :| 0 <= k < |rows[1..]| && rows[1..][k] == y;
            assert rows[k + 1] == y;
          }
        }
      }
      ConsDescending(rows[0], t);
      [rows[0]] + t
  }

  /** `sort_values("Risk_Score", ascending=False)`. */
  function SortByRisk(rows: seq<Summary>): (r: seq<Summary>)
    ensures ByRiskDescending(r)
    ensures multiset(r) == multiset(rows)
  {
    if |rows| == 0 then []
    else
      assert rows == [rows[0]] + rows[1..];
      InsertByRisk(rows[0], SortByRisk(rows[1..]))
  }

  /** The win-back list: the customers who are not `Active`, riskiest
      first. */
  function WinBackList(rows: seq<Summary>): (r: seq<Summary>)
    ensures ByRiskDescending(r)
    ensures multiset(r) == multiset(Filter(rows, NotActive))
    ensures forall x :: x in r <==> x in rows && x.status != Active
  {
    var pending := Filter(rows, NotActive);
    var sorted := SortByRisk(pending);
    assert forall x :: x in sorted <==> x in pending by {
      forall x ensures x in sorted <==> x in pending {
        assert x in sorted <==> x in multiset(sorted);
        assert x in pending <==> x in multiset(pending);
      }
    }
    sorted
  }

  /** On the analyzer's table, the win-back list is exactly the customers
      scoring above 70: churned customers score 100, at-risk ones above 70,
      and active ones at most 70. */
  lemma WinBackIsHighRisk(orders: seq<Order>, threshold: int)
    requires threshold > 0
    ensures var rows := Analyze(orders, threshold);
      forall x :: x in WinBackList(rows) <==> x in rows && x.riskScore > 70.0
  {
    var rows := Analyze(orders, threshold);
    forall x | x in rows ensures x.status != Active <==> x.riskScore > 70.0 {
      var i :| 0 <= i < |rows| && rows[i] == x;
      assert x == Summarize(orders, x.customer, threshold);
      if x.recency > threshold {
        ChurnDominance(x.recency, threshold);
      }
    }
  }

  /** `.head(20)`: the rows shown on the page. */
  function ShownRows(list: seq<Summary>): (r: seq<Summary>)
    ensures |r| <= 20
    ensures |r| == |list| || |r| == 20
    ensures r <= list
  {
    if |list| <= 20 then list else list[..20]
  }

  /** The style token of the status badge. */
  function Badge(s: Status): (token: string)
  {
    match s
    case Active => "badge-active"
    case AtRisk => "badge-risk"
    case Churned => "badge-churned"
  }

  /** No two statuses share a badge. */
  lemma BadgeInjective(a: Status, b: Status)
    requires Badge(a) == Badge(b)
    ensures a == b
  {
  }

  /** What the page shows for one selection. */
  datatype Report = Report(rows: seq<Summary>, kpis: Kpis, winBack: seq<Summary>)

  /** The whole page computation for a region choice and a threshold. It
      fails exactly when the selection leaves no orders. */
  function BuildReport(orders: seq<Order>, threshold: int, selected: Region): (r: Result<Report>)
    requires threshold > 0
    ensures r.Err? <==> |SelectRegion(orders, selected)| == 0
    ensures r.Ok? ==> r.value.rows == Analyze(SelectRegion(orders, selected), threshold)
    ensures r.Ok? ==> ComputeKpis(r.value.rows) == Ok(r.value.kpis)
    ensures r.Ok? ==> r.value.winBack == WinBackList(r.value.rows)
  {
    var data := SelectRegion(orders, selected);
    var rows := Analyze(data, threshold);
    assert |data| > 0 ==> |rows| > 0 by {
      if |data| > 0 {
        assert CustomerColumn(data)[0] in CustomerColumn(data);
      }
    }
    match ComputeKpis(rows)
    case Err(e) => Err(e)
    case Ok(k) => Ok(Report(rows, k, WinBackList(rows)))
  }
}

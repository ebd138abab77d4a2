# Customer retention analyzer — a Dafny model

The Customer Retention & Churn Predictor is a Streamlit page over a table of
orders. Each order has a customer id, an order id, a date, a revenue and a
region. The core of the page is `process_retention_data` in `app.py`. It
takes the latest order date as the reference day and groups the orders by
customer. Each customer gets a row that holds:

- recency: days since their latest order;
- frequency: the number of orders;
- lifetime value: the summed revenue;
- the region of their first order;
- a risk score: recency over the churn threshold, times 100, capped at 100
  and rounded to cents;
- a status: `Churned` past the threshold, otherwise `At Risk` when the score
  exceeds 70, otherwise `Active`.

Around this function the page:

- filters the orders by region;
- derives three headline figures: the customer count, the at-risk count and
  share, and the churn rate;
- derives a confidence figure, `max(60, 100 - churn_rate * 100)`;
- builds the win-back list: every customer who is not `Active`, riskiest
  first, with the first 20 shown and a status badge on each.

The model is pure, as the source is: datatypes, functions over sequences, and
lemmas.

| module | file | models |
|---|---|---|
| `Seqs` | seqs.dfy | boolean-mask row selection (`df[mask]`) as an order-preserving filter |
| `Keys` | keys.dfy | Python's string order on customer ids; the sorted distinct group keys |
| `Rounding` | rounding.dfy | `Series.round(2)`: round half to even on `x * 100`, exactly |
| `Records` | records.dfy | orders, statuses and the per-customer summary row |
| `Analyzer` | analyzer.dfy | `process_retention_data` and its properties |
| `Dashboard` | dashboard.dfy | the region filter, the KPIs, confidence, the win-back list, the badge |
| `Scenarios` | scenarios.dfy | worked batches computed end to end |

Modelling choices:

- Dates are day numbers (`int`). Revenues, risk scores and ratios are exact
  `real`s.
- The grouped table comes out in ascending customer-id order, because
  pandas' `groupby` sorts its keys. `Analyze` returns its rows in that order.
- `Analyze([])` is the empty table. The KPIs of an empty table are the error
  `NoCustomers`, where the source divides by zero.
- The churn threshold must be positive; the page's slider only offers 30 to
  180.

## Model

| member | source | states |
|---|---|---|
| Analyzer.LatestDay | app.py:202 | the reference day is at least every order's day and is the day of some order |
| Analyzer.Summarize | app.py:201-221 | a customer's row carries that customer's id, frequency ≥ 1, recency ≥ 0, and the score and status the threshold rule gives for its recency |
| Analyzer.SummaryFrequency | app.py:206 | frequency is the number of times the customer occurs in the id column |
| Analyzer.SummaryRecency | app.py:202-205 | some order of the customer lies exactly `recency` days before the reference day, and none lies closer |
| Analyzer.SummaryRegion | app.py:208 | the region is that of the customer's first order in input order |
| Analyzer.SummaryLtv | app.py:207 | the lifetime value is the revenue summed over the customer's orders |
| Analyzer.OrdersOf | app.py:204 | a customer's group holds exactly the orders with that id, and no more rows than the batch |
| Analyzer.TotalRevenue | app.py:207 | the `"sum"` aggregation; characterised by TotalRevenueNonNegative, SummaryLtv and TableTotals |
| Analyzer.LtvNonNegative | app.py:207 | with non-negative revenues, every lifetime value is non-negative |
| Analyzer.TotalRevenueNonNegative | app.py:207 | a sum of non-negative revenues is non-negative |
| Analyzer.SummariesFor | app.py:204-213 | one row per requested key, in key order, each the summary of that key |
| Analyzer.GroupKeys | app.py:204 | the group keys are strictly ascending and are exactly the ids in the column |
| Analyzer.Analyze | app.py:201-223 | one row per distinct customer id and no other rows; rows ascend by id; each row is that customer's summary |
| Analyzer.RowsFollowKeys | app.py:204 | rows built from the group keys carry exactly those keys, in order |
| Analyzer.TableTotals | app.py:204-207 | the frequencies add up to the number of orders, and the lifetime values to the batch revenue |
| Analyzer.SomeRecencyIsZero | app.py:202-205 | a non-empty batch has a customer with recency 0 |
| Analyzer.LatestCustomerIsCurrent | app.py:202-205 | the customer whose order sets the reference day has recency 0 |
| Analyzer.RiskScore | app.py:215-216 | the score is in [0, 100], lies within 0.005 of `min(100, recency / threshold * 100)`, and is a whole number of cents |
| Analyzer.Classify | app.py:218-221 | `Churned` exactly past the threshold, `At Risk` exactly within it with a score above 70, `Active` otherwise; characterised further by StatusRule, ChurnDominance and StatusAntitone |
| Analyzer.StatusRule | app.py:218-221 | exactly one status holds: `Churned` iff recency > threshold, otherwise `At Risk` iff `20000 * recency > 14001 * threshold`, otherwise `Active` |
| Analyzer.AtRiskCut | app.py:216-220 | after rounding, a score within the threshold passes 70 iff the recency ratio exceeds 0.70005 |
| Analyzer.ChurnDominance | app.py:215-219 | past the threshold, the score is exactly 100 and the status is `Churned` |
| Analyzer.RiskScoreAntitone | app.py:215-216 | a larger threshold never raises a score |
| Analyzer.StatusAntitone | app.py:218-221 | a larger threshold never makes a status more severe |
| Analyzer.SummarizeThresholdMonotone | app.py:201-221 | over the same orders, a larger threshold keeps a customer's aggregate columns and lowers or keeps the score and the severity |
| Analyzer.AnalyzeThresholdMonotone | app.py:201-223 | the same holds row by row for the whole table, whose rows and ids stay the same |
| Analyzer.RowTotals | app.py:205-207 | the frequency and lifetime-value sums of the rows are the group sizes and group revenues |
| Analyzer.GroupsPartition | app.py:204 | groups over keys that cover every order partition the batch by count and by revenue |
| Dashboard.SelectRegion | app.py:225 | "All" keeps every order; any other choice keeps exactly the orders of that region |
| Dashboard.SelectRegionKeepsOrder | app.py:225 | selection distributes over concatenation, so it keeps input order |
| Dashboard.SelectRegionIdempotent | app.py:225 | selecting twice is selecting once |
| Dashboard.SelectedRowsShareRegion | app.py:208 | under a region filter, every row reports the selected region |
| Dashboard.CountStatus | app.py:234-235 | a status count is at most the number of rows, and is 0 exactly when no row has that status |
| Dashboard.StatusPartition | app.py:233-235 | the Active, At Risk and Churned counts add up to the customer count |
| Dashboard.ChurnedArePastThreshold | app.py:235 | the churned rows are exactly the rows whose recency exceeds the threshold |
| Dashboard.Share | app.py:235 | a count over a total is the exact ratio and lies in [0, 1] when the count does not exceed the total |
| Dashboard.ShareAdds | app.py:234-235 | shares of two counts over one total add up |
| Dashboard.ComputeKpis | app.py:233-247 | fails exactly on an empty table; otherwise gives the customer count, the at-risk count and share, a churn rate in [0, 1] with the at-risk share, and a confidence in [60, 100] |
| Dashboard.Confidence | app.py:256 | confidence is in [60, 100], is at least `100 - 100 * rate`, and is either 60 or that linear value |
| Dashboard.InsertByRisk | app.py:314 | inserting into a list ordered by descending score keeps it ordered and adds exactly one row |
| Dashboard.SortByRisk | app.py:314 | the result is ordered by descending score and is a permutation of the input |
| Dashboard.NotActive | app.py:313 | the mask `Status != "Active"`; characterised by WinBackList and WinBackIsHighRisk |
| Dashboard.WinBackList | app.py:313-314 | the win-back list is ordered by descending score, and is a permutation of the non-Active rows |
| Dashboard.WinBackIsHighRisk | app.py:313-314 | on the analyzer's table, a row is on the win-back list iff its score exceeds 70 |
| Dashboard.ShownRows | app.py:327 | at most 20 rows are shown: the whole list when it is shorter, otherwise its first 20 |
| Dashboard.Badge | app.py:316-321 | the style token of each status; characterised by BadgeInjective |
| Dashboard.BadgeInjective | app.py:316-321 | the three statuses get three different badge styles |
| Dashboard.BuildReport | app.py:225-235 | the page fails exactly when the region choice leaves no orders; otherwise it shows the analysis of the selected orders, their KPIs, and their win-back list |
| Rounding.RoundHalfEven | app.py:216 | the result is within 1/2 of the input, and an exact half goes to the even neighbour |
| Rounding.RoundHalfEvenUnique | app.py:216 | those two properties determine the rounded integer |
| Rounding.RoundHalfEvenMonotone | app.py:216 | rounding is monotone |
| Rounding.RoundHalfEvenAbove | app.py:216 | above an even k, the rounded value exceeds k iff the input exceeds k + 1/2 |
| Rounding.Round2 | app.py:216 | `round(2)` lies within half a cent of its input and is a whole number of cents |
| Rounding.Round2Monotone | app.py:216 | `round(2)` is monotone |
| Rounding.Round2Integer | app.py:216 | `round(2)` keeps whole numbers |
| Rounding.Round2Above | app.py:216 | `round(2)` exceeds k/100, for an even k, iff the input exceeds (k + 1/2)/100 |
| Keys.LessTransitive | app.py:204 | the key order is transitive |
| Keys.LessTotal | app.py:204 | any two distinct keys are ordered one way or the other |
| Keys.LessIrreflexive | app.py:204 | no key precedes itself |
| Keys.Insert | app.py:204 | inserting into strictly sorted keys keeps them strictly sorted and adds exactly the new key |
| Keys.SortedDistinct | app.py:204 | the distinct keys of a column, strictly ascending, with exactly the column's members |
| Seqs.Filter | app.py:225 | a selection is no longer than its input and keeps exactly the rows satisfying the mask |
| Seqs.FilterSubMultiset | app.py:313 | a selection keeps each row at most as often as its input holds it |
| Seqs.FilterAppend | app.py:225 | a selection distributes over concatenation |
| Seqs.FilterFirst | app.py:208 | the first selected row is the first row satisfying the mask |
| Scenarios.ThreeOrdersTable | app.py:201-223 | for C1 (two orders, 150 in North) and C2 (one order, 223 days back, 200 in South) at threshold 90, the table is C1 Active with score 0 and C2 Churned with score 100 |
| Scenarios.ThreeOrdersKpis | app.py:233-256 | that table has 0 at-risk customers, a churn rate of 0.5 and a confidence of 60 |
| Scenarios.ThreeOrdersWinBack | app.py:313-314 | only C2 is on that table's win-back list |
| Scenarios.AtRiskExample | app.py:215-220 | 25 days against a 30-day threshold scores 83.33 and is At Risk |

## Left out

- The Streamlit page itself is not modelled: layout, styling, metrics, the
  Plotly charts and the HTML rendering (`to_html`).
- File I/O is not modelled. This covers reading and caching the fixed file
  `Nexus_Tech_dataset.csv` and parsing its dates; dates enter the model as
  day numbers. It also covers the CSV export of the win-back list (`to_csv`
  and the download button). The export holds the whole list, not its first
  20 rows, with the badge markup in its `Status` column.
- The `min_orders` number input is not modelled: it is defined in the sidebar but
  never used in the analysis.
- Floating point is not modelled. Revenues, ratios and scores are exact
  reals, so the model and the source can differ in three places:
  - where float error moves `(recency / threshold) * 100` onto or across a
    half-cent point (x.xx5), so that `round(2)` takes the other neighbour;
  - where the float sum behind the lifetime value accumulates rounding
    error.
  - in the KPI values: the churn rate, the at-risk share and the confidence
    are float quotients and differences in the source. Dashboard.Share and
    Dashboard.Confidence return them exactly, so 1 churned customer out of
    3 gives a rate of 1/3 and a confidence of 200/3, where the source has
    the doubles 0.3333333333333333 and 66.66666666666667.
- Text formatting of the figures (`:,`, `:.1%`) is not modelled.
- Analyzer.Summarize: missing values are not modelled in any column. An
  order always has an id, an order id, a date, a revenue and a region, so
  the model covers only batches without nulls. pandas treats nulls as
  follows:
  - `groupby("Customer_ID")` drops rows whose id is null, while
    `data["Date"].max()` still sees them. A batch whose latest order has a
    null id then has no customer with recency 0, and its frequencies no
    longer add up to the order count. Analyzer.SomeRecencyIsZero and
    Analyzer.TableTotals hold only for batches without null ids.
  - `"count"` on `Order_ID` skips null order ids, whereas the model counts
    every order of the customer.
  - `"sum"` skips missing revenues, and `max` skips missing dates.
  - `"first"` skips null regions, whereas the model takes the region of the
    customer's first order.
- Analyzer.GroupKeys: customer ids are taken to be read as strings and
  ordered as Python orders strings. If the CSV's `Customer_ID` column were
  numeric, pandas would sort the keys numerically: the model puts "10"
  before "9". Row order reaches no modelled output other than the table's
  own order.
- Analyzer.RiskScore: thresholds ≤ 0 are not modelled, because the page's
  slider only offers 30 to 180.
- Dashboard.SortByRisk: the order of rows with equal scores is not
  modelled. `sort_values` uses an unstable quicksort, so the contract states
  only the descending order and the permutation.
- Dashboard.ComputeKpis: the `ZeroDivisionError` on an empty table is
  modelled as the error `NoCustomers`.
- Dashboard.Badge: only the style token is modelled, not the surrounding
  HTML markup.

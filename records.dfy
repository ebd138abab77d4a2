/** The rows the retention analyzer reads and writes. */
module Records {

  type CustomerId = string
  type Region = string

  /** One row of the order dataset. `day` is the order date as a day number;
      `revenue` is `Total_Revenue`. */
  datatype Order = Order(customer: CustomerId, orderId: string, day: int, revenue: real, region: Region)

  /** The three customer health states of the `Status` column. */
  datatype Status = Active | AtRisk | Churned

  /** One row of the per-customer table (index `Customer_ID`). */
  datatype Summary = Summary(
    customer: CustomerId,
    recency: int,
    frequency: nat,
    ltv: real,
    region: Region,
    riskScore: real,
    status: Status)

  /** The `Customer_ID` column; a customer occurs in a batch when its id is
      in this column. */
  function CustomerColumn(orders: seq<Order>): (col: seq<CustomerId>)
    ensures |col| == |orders|
    ensures forall i :: 0 <= i < |orders| ==> col[i] == orders[i].customer
  {
    seq(|orders|, i requires 0 <= i < |orders| => orders[i].customer)
  }

  /** How far a status is from `Active`, used to compare classifications. */
  function Severity(s: Status): nat
  {
    match s
    case Active => 0
    case AtRisk => 1
    case Churned => 2
  }
}

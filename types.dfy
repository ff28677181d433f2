/** The records the pipeline passes around: validated input rows, monthly
    series, per-customer and per-supplier summaries and the aggregated
    data sets. Money and counts are exact reals; a month identifier is a
    `YYYY-MM` string. */
module Types {
  import opened Base

  /** One validated row of a customer sales sheet (`RawMonthlyRow`). */
  datatype RawRow = RawRow(customer: string, revenue: real, profit: real, marginPct: real, period: string)

  /** One month of a customer's series (`CustomerMonthly`); the margin is
      `null` in a month filled in with zeros. */
  datatype Monthly = Monthly(period: string, revenue: real, profit: real, marginPct: Option<real>)

  /** The `"UP" | "DOWN" | "FLAT"` rating. */
  datatype Trend = Up | Down | Flat

  /** `CustomerSummary`. */
  datatype CustomerSummary = CustomerSummary(
    slug: string,
    name: string,
    firstMonth: Option<string>,
    lastMonth: Option<string>,
    months: seq<Monthly>,
    totalRevenue: real,
    totalProfit: real,
    avgMarginPct: Option<real>,
    revenueDeltaAbs: real,
    revenueDeltaPct: Option<real>,
    profitDeltaAbs: real,
    profitDeltaPct: Option<real>,
    revenueTrend: Trend,
    profitTrend: Trend)

  /** `AggregatedData`; `generatedAt` is the ISO time stamp, supplied by
      the caller. */
  datatype AggregatedData = AggregatedData(monthsAvailable: seq<string>, customers: seq<CustomerSummary>, generatedAt: string)

  /** One validated row of a supplier sheet. */
  datatype RawSupplierRow = RawSupplierRow(supplier: string, turnover: real, items: real, period: string)

  /** One record of a supplier's series. */
  datatype SupplierMonthly = SupplierMonthly(period: string, turnover: real, items: real)

  datatype SupplierSummary = SupplierSummary(
    slug: string,
    name: string,
    abbreviation: string,
    firstMonth: Option<string>,
    lastMonth: Option<string>,
    months: seq<SupplierMonthly>,
    totalTurnover: real,
    totalItems: real,
    avgItemsPerMonth: real,
    turnoverDeltaAbs: real,
    turnoverDeltaPct: Option<real>,
    itemsDeltaAbs: real,
    itemsDeltaPct: Option<real>,
    turnoverTrend: Trend,
    itemsTrend: Trend)

  datatype SupplierData = SupplierData(monthsAvailable: seq<string>, suppliers: seq<SupplierSummary>, generatedAt: string)
}

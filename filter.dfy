/** The query-time layer over aggregated customers: restricting a monthly
    series to a range of months, the range totals and margin, the trend
    used by the trend filter, the totals over a group of customers and the
    seven filter and sort modes of the customer list. */
module Filtering {
  import opened Base
  import opened Sorting
  import opened Types
  import opened Compute
  import opened Config

  /** The thresholds of the filtering trend, in percent: at least +0.1 is
      UP, at most -0.1 is DOWN. */
  const FilterUp: real := 0.1
  const FilterDown: real := -0.1

  // ---------------------------------------------------------------------
  // Ranges of months
  // ---------------------------------------------------------------------

  /** The two tests of `filterMonthsByRange`: a bound that is `null` or the
      empty string is ignored; periods compare as strings. */
  predicate InWindow(m: Monthly, start: Option<string>, end: Option<string>) {
    && !(Truthy(start) && LexLt(m.period, start.value))
    && !(Truthy(end) && LexLt(end.value, m.period))
  }

  function InWindowOf(start: Option<string>, end: Option<string>): Monthly -> bool {
    m => InWindow(m, start, end)
  }

  /** `filterMonthsByRange`: the input itself without bounds, otherwise the
      months within the bounds in their order. */
  function FilterMonthsByRange(months: seq<Monthly>, start: Option<string>, end: Option<string>): (r: seq<Monthly>)
    ensures !Truthy(start) && !Truthy(end) ==> r == months
    ensures r == Filter(months, InWindowOf(start, end))
  {
    if !Truthy(start) && !Truthy(end) then
      FilterAll(months, InWindowOf(start, end));
      months
    else
      Filter(months, InWindowOf(start, end))
  }

  /** A month is in range exactly when it is one of the months and lies
      within the bounds. */
  lemma InRangeMember(months: seq<Monthly>, start: Option<string>, end: Option<string>, m: Monthly)
    ensures m in FilterMonthsByRange(months, start, end) <==> m in months && InWindow(m, start, end)
  {
    FilterMember(months, InWindowOf(start, end), m);
  }

  // ---------------------------------------------------------------------
  // Metrics of one customer in a range
  // ---------------------------------------------------------------------

  /** What `calculateCustomerMetricsForPeriod` returns. */
  datatype RangeMetrics = RangeMetrics(totalRevenue: real, totalProfit: real, avgMarginPct: Option<real>, hasActivity: bool)

  /** `calculateCustomerMetricsForPeriod`: sums over the months in range,
      the revenue-weighted margin of those with a margin and revenue, and
      whether the range has any revenue. The margin is the computation of
      `calculateWeightedMargin` written out once more with `reduce`. */
  function MetricsForPeriod(c: CustomerSummary, start: Option<string>, end: Option<string>): (r: RangeMetrics)
    ensures var inRange := FilterMonthsByRange(c.months, start, end);
      && r.totalRevenue == Sum(inRange, Revenue)
      && r.totalProfit == Sum(inRange, Profit)
      && r.avgMarginPct == WeightedMargin(inRange)
      && (r.hasActivity <==> r.totalRevenue > 0.0)
    ensures r.avgMarginPct.None? <==> forall m :: m in c.months && InWindow(m, start, end) ==> !HasMargin(m)
    ensures r.avgMarginPct.Some? ==>
      && (exists m :: m in c.months && InWindow(m, start, end) && HasMargin(m) && Margin(m) <= r.avgMarginPct.value)
      && (exists m :: m in c.months && InWindow(m, start, end) && HasMargin(m) && r.avgMarginPct.value <= Margin(m))
  {
    var inRange := FilterMonthsByRange(c.months, start, end);
    var totalRevenue := Sum(inRange, Revenue);
    var avg := WeightedMargin(inRange);
    assert forall k :: 0 <= k < |inRange| ==> inRange[k] in c.months && InWindow(inRange[k], start, end) by {
      forall k | 0 <= k < |inRange| ensures inRange[k] in c.months && InWindow(inRange[k], start, end) {
        InRangeMember(c.months, start, end, inRange[k]);
      }
    }
    assert avg.None? <==> forall m :: m in c.months && InWindow(m, start, end) ==> !HasMargin(m) by {
      forall m | m in c.months && InWindow(m, start, end) && HasMargin(m) ensures avg.Some? {
        InRangeMember(c.months, start, end, m);
        var k :| 0 <= k < |inRange| && inRange[k] == m;
      }
    }
    RangeMetrics(totalRevenue, Sum(inRange, Profit), avg, totalRevenue > 0.0)
  }

  /** Without bounds the range metrics are those of the whole series. */
  lemma MetricsWholeSeries(c: CustomerSummary)
    ensures MetricsForPeriod(c, None, None)
      == RangeMetrics(Sum(c.months, Revenue), Sum(c.months, Profit), WeightedMargin(c.months), Sum(c.months, Revenue) > 0.0)
  {
  }

  /** For an aggregated customer, the metrics of the unbounded range are
      the totals and the margin of its summary. */
  lemma AggregateWholeRange(rows: seq<RawRow>, generatedAt: string, c: CustomerSummary)
    requires c in AggregateSpec(rows, generatedAt).customers
    ensures var m := MetricsForPeriod(c, None, None);
      && m.totalRevenue == c.totalRevenue
      && m.totalProfit == c.totalProfit
      && m.avgMarginPct == c.avgMarginPct
  {
    AggregateMember(rows, generatedAt, c);
  }

  // ---------------------------------------------------------------------
  // The trend used for filtering
  // ---------------------------------------------------------------------

  /** What `calculateTrendForFiltering` returns. */
  datatype TrendResult = TrendResult(trend: Trend, percentage: Option<real>)

  /** The rating of a percentage against the filtering thresholds. */
  function FilterTrend(pct: real): (t: Trend)
    ensures t == Up <==> pct >= FilterUp
    ensures t == Down <==> pct <= FilterDown
  {
    if pct >= FilterUp then Up
    else if pct <= FilterDown then Down
    else Flat
  }

  /** The months with revenue within the bounds. */
  function ActiveInRange(months: seq<Monthly>, start: Option<string>, end: Option<string>): seq<Monthly> {
    Filter(FilterMonthsByRange(months, start, end), Active)
  }

  /** The window the trend is computed over: the caller's bounds when both
      are given, otherwise the customer's first to last month with
      revenue. */
  function ResolvedWindow(c: CustomerSummary, start: Option<string>, end: Option<string>): (w: (string, string))
    requires |Filter(c.months, Active)| >= 2
    ensures Truthy(start) && Truthy(end) ==> w == (start.value, end.value)
    ensures !(Truthy(start) && Truthy(end)) ==> var active := Filter(c.months, Active);
      w == (active[0].period, active[|active| - 1].period)
  {
    var active := Filter(c.months, Active);
    if Truthy(start) && Truthy(end) then (start.value, end.value)
    else (active[0].period, active[|active| - 1].period)
  }

  /** `calculateTrendForFiltering`. */
  function TrendForFiltering(c: CustomerSummary, start: Option<string>, end: Option<string>): (r: TrendResult)
    ensures |Filter(c.months, Active)| < 2 ==> r == TrendResult(Flat, None)
    ensures r.trend == Up <==> r.percentage.Some? && r.percentage.value >= FilterUp
    ensures r.trend == Down <==> r.percentage.Some? && r.percentage.value <= FilterDown
  {
    var customerActive := Filter(c.months, Active);
    if |customerActive| < 2 then TrendResult(Flat, None)
    else
      var w := ResolvedWindow(c, start, end);
      var active := ActiveInRange(c.months, Some(w.0), Some(w.1));
      if |active| < 2 then TrendResult(Flat, None)
      else
        var first, last := active[0], active[|active| - 1];
        FilterAt(FilterMonthsByRange(c.months, Some(w.0), Some(w.1)), Active, 0);
        if first.revenue <= 0.0 then TrendResult(Flat, None)
        else
          var pct := PctChange(first.revenue, last.revenue);
          TrendResult(FilterTrend(pct), Some(pct))
  }

  /** A percentage exactly when the customer has two or more months with
      revenue and so has the window. */
  lemma TrendHasPercentage(c: CustomerSummary, start: Option<string>, end: Option<string>)
    ensures TrendForFiltering(c, start, end).percentage.Some? <==>
      |Filter(c.months, Active)| >= 2
      && var w := ResolvedWindow(c, start, end);
        |ActiveInRange(c.months, Some(w.0), Some(w.1))| >= 2
  {
    if |Filter(c.months, Active)| >= 2 {
      var w := ResolvedWindow(c, start, end);
      var active := ActiveInRange(c.months, Some(w.0), Some(w.1));
      if |active| >= 2 {
        FilterAt(FilterMonthsByRange(c.months, Some(w.0), Some(w.1)), Active, 0);
      }
    }
  }

  /** A single bound is ignored: the trend is the one over the customer's
      own window. */
  lemma TrendOneBound(c: CustomerSummary, start: Option<string>, end: Option<string>)
    requires !(Truthy(start) && Truthy(end))
    ensures TrendForFiltering(c, start, end) == TrendForFiltering(c, None, None)
  {
    if |Filter(c.months, Active)| >= 2 {
      assert ResolvedWindow(c, start, end) == ResolvedWindow(c, None, None);
    }
  }

  /** With a percentage, it is the change from the first to the last
      month with revenue in the window. */
  lemma TrendPercentageValue(c: CustomerSummary, start: Option<string>, end: Option<string>) returns (active: seq<Monthly>)
    requires TrendForFiltering(c, start, end).percentage.Some?
    ensures |Filter(c.months, Active)| >= 2
    ensures active == ActiveInRange(c.months, Some(ResolvedWindow(c, start, end).0), Some(ResolvedWindow(c, start, end).1))
    ensures |active| >= 2 && active[0].revenue > 0.0
    ensures TrendForFiltering(c, start, end).percentage.value == PctChange(active[0].revenue, active[|active| - 1].revenue)
  {
    var w := ResolvedWindow(c, start, end);
    active := ActiveInRange(c.months, Some(w.0), Some(w.1));
    FilterAt(FilterMonthsByRange(c.months, Some(w.0), Some(w.1)), Active, 0);
  }

  /** A month with revenue within the window `w`. */
  predicate ActiveInWindow(m: Monthly, w: (string, string)) {
    Active(m) && InWindow(m, Some(w.0), Some(w.1))
  }

  /** A percentage compares the first and the last month with revenue
      within the window: two months at positions `i < j` of the series,
      with no month with revenue in the window before `i` or after `j`. */
  lemma {:induction false} TrendPercentage(c: CustomerSummary, start: Option<string>, end: Option<string>) returns (i: nat, j: nat)
    requires TrendForFiltering(c, start, end).percentage.Some?
    ensures |Filter(c.months, Active)| >= 2
    ensures var w := ResolvedWindow(c, start, end);
      && i < j < |c.months|
      && ActiveInWindow(c.months[i], w) && ActiveInWindow(c.months[j], w)
      && TrendForFiltering(c, start, end).percentage.value == PctChange(c.months[i].revenue, c.months[j].revenue)
      && (forall k :: 0 <= k < i ==> !ActiveInWindow(c.months[k], w))
      && (forall k :: j < k < |c.months| ==> !ActiveInWindow(c.months[k], w))
  {
    var active := TrendPercentageValue(c, start, end);
    var w := ResolvedWindow(c, start, end);
    i, j := WindowEnds(c.months, w, active);
  }

  /** The first and the last month with revenue within a window sit at
      positions `i < j` of the series, with no such month before `i` or
      after `j`. */
  lemma WindowEnds(ms: seq<Monthly>, w: (string, string), active: seq<Monthly>) returns (i: nat, j: nat)
    requires active == ActiveInRange(ms, Some(w.0), Some(w.1)) && |active| >= 2
    ensures i < j < |ms| && ActiveInWindow(ms[i], w) && ActiveInWindow(ms[j], w)
    ensures ms[i] == active[0] && ms[j] == active[|active| - 1]
    ensures forall k :: 0 <= k < i ==> !ActiveInWindow(ms[k], w)
    ensures forall k :: j < k < |ms| ==> !ActiveInWindow(ms[k], w)
  {
    var inW := (m: Monthly) => ActiveInWindow(m, w);
    FilterConj(ms, InWindowOf(Some(w.0), Some(w.1)), Active, inW);
    i, j := FilterEndsAt(ms, inW);
  }

  /** Periods never decrease along the series. */
  predicate PeriodsSorted(ms: seq<Monthly>) {
    forall i, j {:trigger LexLe(ms[i].period, ms[j].period)} :: 0 <= i < j < |ms| ==> LexLe(ms[i].period, ms[j].period)
  }

  /** In a series sorted by period, the window from the first to the last
      month with revenue holds every month with revenue. */
  lemma {:induction false} OwnWindowKeepsActive(ms: seq<Monthly>)
    requires PeriodsSorted(ms) && |Filter(ms, Active)| >= 2
    ensures var a := Filter(ms, Active);
      ActiveInRange(ms, Some(a[0].period), Some(a[|a| - 1].period)) == a
  {
    var a := Filter(ms, Active);
    var w := (a[0].period, a[|a| - 1].period);
    var i, j := FilterEndsAt(ms, Active);
    var inW := (m: Monthly) => ActiveInWindow(m, w);
    forall k | 0 <= k < |ms| ensures inW(ms[k]) == Active(ms[k]) {
      if Active(ms[k]) {
        assert i <= k <= j;
        if i < k {
          assert LexLe(ms[i].period, ms[k].period);
          LexLtAsymmetric(ms[k].period, ms[i].period);
        } else {
          LexLtIrreflexive(ms[k].period);
        }
        if k < j {
          assert LexLe(ms[k].period, ms[j].period);
          LexLtAsymmetric(ms[j].period, ms[k].period);
        } else {
          LexLtIrreflexive(ms[k].period);
        }
      }
    }
    FilterConj(ms, InWindowOf(Some(w.0), Some(w.1)), Active, inW);
    FilterSame(ms, inW, Active);
  }

  /** Without bounds, and in a series sorted by period, the percentage is
      the change from the first to the last month with revenue of the
      whole series. */
  lemma {:induction false} TrendOwnWindow(c: CustomerSummary, ms: seq<Monthly>)
    requires c.months == ms && PeriodsSorted(ms) && |Filter(ms, Active)| >= 2
    ensures var a := Filter(ms, Active);
      && a[0].revenue > 0.0
      && var pct := PctChange(a[0].revenue, a[|a| - 1].revenue);
      TrendForFiltering(c, None, None) == TrendResult(FilterTrend(pct), Some(pct))
  {
    var a := Filter(ms, Active);
    OwnWindowResolved(c);
    FilterAt(ms, Active, 0);
    TrendOnWindow(c, None, None, a);
  }

  /** Without bounds, the resolved window of a sorted series keeps every
      month with revenue. */
  lemma OwnWindowResolved(c: CustomerSummary)
    requires PeriodsSorted(c.months) && |Filter(c.months, Active)| >= 2
    ensures var w := ResolvedWindow(c, None, None);
      ActiveInRange(c.months, Some(w.0), Some(w.1)) == Filter(c.months, Active)
  {
    OwnWindowKeepsActive(c.months);
  }

  /** Where the window holds two or more months with revenue, `active`,
      and the first of them has positive revenue, the percentage is the
      change from the first to the last. */
  lemma TrendOnWindow(c: CustomerSummary, start: Option<string>, end: Option<string>, active: seq<Monthly>)
    requires |Filter(c.months, Active)| >= 2
    requires var w := ResolvedWindow(c, start, end);
      active == ActiveInRange(c.months, Some(w.0), Some(w.1))
    requires |active| >= 2 && active[0].revenue > 0.0
    ensures var pct := PctChange(active[0].revenue, active[|active| - 1].revenue);
      TrendForFiltering(c, start, end) == TrendResult(FilterTrend(pct), Some(pct))
  {
  }

  /** Without bounds, the filtering percentage of a series with one record
      per month, sorted by period and with revenue in two or more months,
      is the revenue change `calculateCustomerMetrics` reports. */
  lemma TrendMatchesSummary(name: string, filled: seq<Monthly>)
    requires OnePerPeriod(filled) && PeriodsSorted(filled) && |Filter(filled, Active)| >= 2
    ensures var c := SeriesSummary(name, filled);
      TrendForFiltering(c, None, None).percentage == c.revenueDeltaPct
  {
    var c := SeriesSummary(name, filled);
    CustomerDeltaPcts(name, filled);
    TrendOwnWindow(c, filled);
  }

  /** The two thresholds rate one and the same percentage apart: a
      revenue change of at least +0.1 % but under +5 % is FLAT in the
      summary and UP for filtering, and one above -5 % but at most -0.1 %
      is FLAT in the summary and DOWN for filtering. */
  lemma DualThresholds(name: string, filled: seq<Monthly>)
    requires OnePerPeriod(filled) && PeriodsSorted(filled) && |Filter(filled, Active)| >= 2
    ensures var c := SeriesSummary(name, filled);
      var r := TrendForFiltering(c, None, None);
      && c.revenueDeltaPct.Some? && r.percentage == c.revenueDeltaPct
      && (FilterUp <= c.revenueDeltaPct.value < TrendUp ==> c.revenueTrend == Flat && r.trend == Up)
      && (TrendDown < c.revenueDeltaPct.value <= FilterDown ==> c.revenueTrend == Flat && r.trend == Down)
  {
    CustomerDeltaPcts(name, filled);
    CustomerTrends(name, filled);
    TrendMatchesSummary(name, filled);
  }

  /** The series of an aggregated customer has one record per month, in
      increasing order of period, when no row has an empty period. */
  lemma {:induction false} AggregateSeriesSorted(rows: seq<RawRow>, generatedAt: string, c: CustomerSummary)
    requires c in AggregateSpec(rows, generatedAt).customers
    requires forall i :: 0 <= i < |rows| ==> rows[i].period != ""
    ensures OnePerPeriod(c.months) && PeriodsSorted(c.months)
  {
    AggregateSeries(rows, generatedAt, c);
    var ma := MonthsAvailable(rows);
    forall i, j | 0 <= i < j < |c.months| ensures DifferentPeriods(c.months[i], c.months[j]) {
      LexLtIrreflexive(ma[i]);
    }
    forall i | 0 <= i < |c.months| ensures c.months[i].period != "" {
      assert ma[i] in ma;
    }
  }

  /** The revenue change of an aggregated customer is the one of the
      summary of its series. */
  lemma AggregateDeltaPct(rows: seq<RawRow>, generatedAt: string, c: CustomerSummary)
    requires c in AggregateSpec(rows, generatedAt).customers
    ensures c.revenueDeltaPct == SeriesSummary(c.name, c.months).revenueDeltaPct
  {
    AggregateMember(rows, generatedAt, c);
  }

  /** Without bounds, the filtering percentage of an aggregated customer
      with revenue in two or more months is its `revenueDeltaPct`. */
  lemma {:induction false} AggregateTrendMatches(rows: seq<RawRow>, generatedAt: string, c: CustomerSummary)
    requires c in AggregateSpec(rows, generatedAt).customers
    requires forall i :: 0 <= i < |rows| ==> rows[i].period != ""
    requires |Filter(c.months, Active)| >= 2
    ensures TrendForFiltering(c, None, None).percentage == c.revenueDeltaPct
  {
    AggregateSeriesSorted(rows, generatedAt, c);
    AggregateDeltaPct(rows, generatedAt, c);
    TrendOwnWindow(c, c.months);
    CustomerDeltaPcts(c.name, c.months);
  }

  // ---------------------------------------------------------------------
  // Metrics of a group of customers
  // ---------------------------------------------------------------------

  /** What `calculateAggregatedMetrics` returns. */
  datatype AggregatedMetrics = AggregatedMetrics(
    totalRevenue: real,
    totalProfit: real,
    avgMarginPct: Option<real>,
    activeCustomers: nat,
    growingCustomers: nat,
    decliningCustomers: nat,
    stableCustomers: nat)

  /** What one customer adds to the group totals: its range metrics and its
      filtering trend. */
  datatype Contribution = Contribution(metrics: RangeMetrics, trend: Trend)

  function ContributionOf(c: CustomerSummary, start: Option<string>, end: Option<string>): Contribution {
    Contribution(MetricsForPeriod(c, start, end), TrendForFiltering(c, start, end).trend)
  }

  /** The contributions of the customers, in order. */
  function Contributions(cs: seq<CustomerSummary>, start: Option<string>, end: Option<string>): (xs: seq<Contribution>)
    ensures |xs| == |cs| && forall i :: 0 <= i < |cs| ==> xs[i] == ContributionOf(cs[i], start, end)
  {
    seq(|cs|, i requires 0 <= i < |cs| => ContributionOf(cs[i], start, end))
  }

  function RevenueOf(x: Contribution): real { x.metrics.totalRevenue }
  function ProfitOf(x: Contribution): real { x.metrics.totalProfit }
  predicate IsActive(x: Contribution) { x.metrics.hasActivity }

  /** An active customer with a margin in the range: the customers the
      group margin is weighted over. */
  predicate CountsForMargin(x: Contribution) { x.metrics.hasActivity && x.metrics.avgMarginPct.Some? }

  /** `metrics.avgMarginPct * metrics.totalRevenue`. */
  function MarginTimesRevenue(m: RangeMetrics): real
    requires m.avgMarginPct.Some?
  {
    m.avgMarginPct.value * m.totalRevenue
  }

  /** The revenue of a customer the group margin counts, 0 for the others. */
  function MarginRevenueOf(x: Contribution): real {
    if CountsForMargin(x) then x.metrics.totalRevenue else 0.0
  }

  /** The margin times the revenue of a customer the group margin counts,
      0 for the others. */
  function MarginWeightOf(x: Contribution): real {
    if CountsForMargin(x) then MarginTimesRevenue(x.metrics) else 0.0
  }

  /** An active customer of the given filtering trend. */
  predicate TrendIs(x: Contribution, t: Trend) { IsActive(x) && x.trend == t }

  /** `TrendIs` as a filter. */
  function HasTrend(t: Trend): Contribution -> bool {
    (x: Contribution) => TrendIs(x, t)
  }

  /** The eight running totals of `calculateAggregatedMetrics`. */
  datatype Tally = Tally(
    revenue: real, profit: real, revenueForMargin: real, weightedMargin: real,
    active: nat, growing: nat, declining: nat, stable: nat)

  /** The running totals after the contributions `xs`. */
  function TallyOf(xs: seq<Contribution>): Tally {
    Tally(
      Sum(xs, RevenueOf), Sum(xs, ProfitOf), Sum(xs, MarginRevenueOf), Sum(xs, MarginWeightOf),
      |Filter(xs, IsActive)|, |Filter(xs, HasTrend(Up))|, |Filter(xs, HasTrend(Down))|, |Filter(xs, HasTrend(Flat))|)
  }

  /** The totals `t` with the contribution `x` added: what the body of the
      `forEach` does. */
  function AddContribution(t: Tally, x: Contribution): Tally {
    Tally(
      t.revenue + RevenueOf(x), t.profit + ProfitOf(x),
      t.revenueForMargin + MarginRevenueOf(x), t.weightedMargin + MarginWeightOf(x),
      t.active + (if IsActive(x) then 1 else 0),
      t.growing + (if TrendIs(x, Up) then 1 else 0),
      t.declining + (if TrendIs(x, Down) then 1 else 0),
      t.stable + (if TrendIs(x, Flat) then 1 else 0))
  }

  /** The totals of one customer more. */
  lemma TallyStep(xs: seq<Contribution>, x: Contribution)
    ensures TallyOf(xs + [x]) == AddContribution(TallyOf(xs), x)
  {
    SumSnoc(xs, x, RevenueOf);
    SumSnoc(xs, x, ProfitOf);
    SumSnoc(xs, x, MarginRevenueOf);
    SumSnoc(xs, x, MarginWeightOf);
    FilterSnoc(xs, x, IsActive);
    FilterSnoc(xs, x, HasTrend(Up));
    FilterSnoc(xs, x, HasTrend(Down));
    FilterSnoc(xs, x, HasTrend(Flat));
  }

  /** Every active customer is growing, declining or stable. */
  lemma {:induction false} TallyPartition(xs: seq<Contribution>)
    ensures var t := TallyOf(xs);
      t.active == t.growing + t.declining + t.stable
    decreases |xs|
  {
    if xs != [] {
      var last := |xs| - 1;
      assert xs == xs[..last] + [xs[last]];
      TallyPartition(xs[..last]);
      TallyStep(xs[..last], xs[last]);
    }
  }

  /** A customer counted for the margin has positive range revenue. */
  lemma CountsForMarginRevenue(c: CustomerSummary, start: Option<string>, end: Option<string>)
    requires CountsForMargin(ContributionOf(c, start, end))
    ensures RevenueOf(ContributionOf(c, start, end)) > 0.0
  {
  }

  /** The revenue the group margin is weighted by is positive exactly when
      some contribution counts for the margin, provided every such one has
      positive revenue. */
  lemma {:induction false} MarginRevenuePositive(xs: seq<Contribution>)
    requires forall k :: 0 <= k < |xs| && CountsForMargin(xs[k]) ==> RevenueOf(xs[k]) > 0.0
    ensures Sum(xs, MarginRevenueOf) >= 0.0
    ensures Sum(xs, MarginRevenueOf) > 0.0 <==> exists k :: 0 <= k < |xs| && CountsForMargin(xs[k])
    decreases |xs|
  {
    if xs != [] {
      assert forall k :: 1 <= k < |xs| ==> xs[k] == xs[1..][k - 1];
      MarginRevenuePositive(xs[1..]);
    }
  }

  /** The state of the loop of `calculateAggregatedMetrics` after the
      first `i` customers. */
  ghost predicate TallyAt(cs: seq<CustomerSummary>, start: Option<string>, end: Option<string>, i: nat, t: Tally) {
    i <= |cs| && t == TallyOf(Contributions(cs, start, end)[..i])
  }

  lemma TallyAtStart(cs: seq<CustomerSummary>, start: Option<string>, end: Option<string>)
    ensures TallyAt(cs, start, end, 0, Tally(0.0, 0.0, 0.0, 0.0, 0, 0, 0, 0))
  {
    assert Contributions(cs, start, end)[..0] == [];
  }

  lemma TallyAtStep(cs: seq<CustomerSummary>, start: Option<string>, end: Option<string>, i: nat, t: Tally)
    requires TallyAt(cs, start, end, i, t) && i < |cs|
    ensures TallyAt(cs, start, end, i + 1, AddContribution(t, ContributionOf(cs[i], start, end)))
  {
    TallyPrefixStep(Contributions(cs, start, end), i);
  }

  lemma TallyPrefixStep(xs: seq<Contribution>, i: nat)
    requires i < |xs|
    ensures TallyOf(xs[..i + 1]) == AddContribution(TallyOf(xs[..i]), xs[i])
  {
    TallyStep(xs[..i], xs[i]);
    assert xs[..i + 1] == xs[..i] + [xs[i]];
  }

  lemma TallyAtEnd(cs: seq<CustomerSummary>, start: Option<string>, end: Option<string>, t: Tally)
    requires TallyAt(cs, start, end, |cs|, t)
    ensures t == TallyOf(Contributions(cs, start, end))
    ensures t.active == t.growing + t.declining + t.stable
    ensures t.revenueForMargin > 0.0 <==>
      exists k :: 0 <= k < |Contributions(cs, start, end)| && CountsForMargin(Contributions(cs, start, end)[k])
  {
    var xs := Contributions(cs, start, end);
    assert xs[..|cs|] == xs;
    TallyPartition(xs);
    forall k | 0 <= k < |xs| && CountsForMargin(xs[k]) ensures RevenueOf(xs[k]) > 0.0 {
      CountsForMarginRevenue(cs[k], start, end);
    }
    MarginRevenuePositive(xs);
  }

  /** What `calculateAggregatedMetrics` returns for the contributions `xs`:
      the sums and counts over them, and a margin weighted by revenue that
      is absent exactly when no contribution counts for it. */
  ghost predicate AggregatesOf(xs: seq<Contribution>, r: AggregatedMetrics) {
    && r.totalRevenue == Sum(xs, RevenueOf)
    && r.totalProfit == Sum(xs, ProfitOf)
    && r.activeCustomers == |Filter(xs, IsActive)|
    && r.growingCustomers == |Filter(xs, HasTrend(Up))|
    && r.decliningCustomers == |Filter(xs, HasTrend(Down))|
    && r.stableCustomers == |Filter(xs, HasTrend(Flat))|
    && (r.avgMarginPct.None? <==> forall k :: 0 <= k < |xs| ==> !CountsForMargin(xs[k]))
    && (r.avgMarginPct.Some? ==>
          Sum(xs, MarginRevenueOf) > 0.0 && r.avgMarginPct.value == Ratio(Sum(xs, MarginWeightOf), Sum(xs, MarginRevenueOf)))
  }

  /** The result built from the final totals of the loop. */
  lemma AggregatesAtEnd(cs: seq<CustomerSummary>, start: Option<string>, end: Option<string>, t: Tally, r: AggregatedMetrics)
    requires TallyAt(cs, start, end, |cs|, t)
    requires r == AggregatedMetrics(t.revenue, t.profit,
      if t.revenueForMargin > 0.0 then Some(Ratio(t.weightedMargin, t.revenueForMargin)) else None,
      t.active, t.growing, t.declining, t.stable)
    ensures AggregatesOf(Contributions(cs, start, end), r)
    ensures r.activeCustomers == r.growingCustomers + r.decliningCustomers + r.stableCustomers
  {
    TallyAtEnd(cs, start, end, t);
  }

  /** The body of the `forEach` of `calculateAggregatedMetrics`: the totals
      `t` with one customer of range metrics `metrics` and filtering trend
      `trend` added. */
  method Accumulate(t: Tally, metrics: RangeMetrics, trend: Trend) returns (r: Tally)
    ensures r == AddContribution(t, Contribution(metrics, trend))
  {
    var Tally(totalRevenue, totalProfit, totalRevenueForMargin, weightedMarginSum,
      activeCustomers, growingCustomers, decliningCustomers, stableCustomers) := t;
    totalRevenue := totalRevenue + metrics.totalRevenue;
    totalProfit := totalProfit + metrics.totalProfit;
    if metrics.hasActivity {
      activeCustomers := activeCustomers + 1;
      if metrics.avgMarginPct.Some? {
        weightedMarginSum := weightedMarginSum + MarginTimesRevenue(metrics);
        totalRevenueForMargin := totalRevenueForMargin + metrics.totalRevenue;
      }
      if trend == Up {
        growingCustomers := growingCustomers + 1;
      } else if trend == Down {
        decliningCustomers := decliningCustomers + 1;
      } else {
        stableCustomers := stableCustomers + 1;
      }
    }
    r := Tally(totalRevenue, totalProfit, totalRevenueForMargin, weightedMarginSum,
      activeCustomers, growingCustomers, decliningCustomers, stableCustomers);
  }

  /** `calculateAggregatedMetrics`: one pass over the customers with eight
      running totals; the margin is weighted over the active customers with
      a margin. */
  method CalculateAggregatedMetrics(customers: seq<CustomerSummary>, startMonth: Option<string>, endMonth: Option<string>)
    returns (r: AggregatedMetrics)
    ensures AggregatesOf(Contributions(customers, startMonth, endMonth), r)
    ensures r.activeCustomers == r.growingCustomers + r.decliningCustomers + r.stableCustomers
  {
    var tally := Tally(0.0, 0.0, 0.0, 0.0, 0, 0, 0, 0);
    TallyAtStart(customers, startMonth, endMonth);
    var i: nat := 0;
    while i < |customers|
      invariant TallyAt(customers, startMonth, endMonth, i, tally)
    {
      TallyAtStep(customers, startMonth, endMonth, i, tally);
      var metrics := MetricsForPeriod(customers[i], startMonth, endMonth);
      var trendData := TrendForFiltering(customers[i], startMonth, endMonth);
      tally := Accumulate(tally, metrics, trendData.trend);
      i := i + 1;
    }
    var Tally(totalRevenue, totalProfit, totalRevenueForMargin, weightedMarginSum,
      activeCustomers, growingCustomers, decliningCustomers, stableCustomers) := tally;
    var avgMarginPct := if totalRevenueForMargin > 0.0 then Some(Ratio(weightedMarginSum, totalRevenueForMargin)) else None;
    r := AggregatedMetrics(totalRevenue, totalProfit, avgMarginPct,
      activeCustomers, growingCustomers, decliningCustomers, stableCustomers);
    AggregatesAtEnd(customers, startMonth, endMonth, tally, r);
  }

  // ---------------------------------------------------------------------
  // Filtering and sorting the customer list
  // ---------------------------------------------------------------------

  /** The values of the customer-list filter; any other string behaves as
      `All`. */
  const ModeAll: string := "all"
  const GrowingDesc: string := "growing-desc"
  const GrowingAsc: string := "growing-asc"
  const DecliningDesc: string := "declining-desc"
  const DecliningAsc: string := "declining-asc"
  const NameAsc: string := "name-asc"
  const NameDesc: string := "name-desc"

  predicate IsGrowingMode(mode: string) { mode == GrowingDesc || mode == GrowingAsc }
  predicate IsDecliningMode(mode: string) { mode == DecliningDesc || mode == DecliningAsc }

  /** A customer with revenue in the range. */
  function IsActiveIn(start: Option<string>, end: Option<string>): CustomerSummary -> bool {
    c => MetricsForPeriod(c, start, end).hasActivity
  }

  /** A customer whose filtering trend in the range is `t`. */
  function HasTrendIn(t: Trend, start: Option<string>, end: Option<string>): CustomerSummary -> bool {
    c => TrendForFiltering(c, start, end).trend == t
  }

  /** The customers a mode keeps: those active in the range and, in the
      growing and declining modes, only those rated UP or DOWN. */
  predicate Selected(mode: string, c: CustomerSummary, start: Option<string>, end: Option<string>) {
    && MetricsForPeriod(c, start, end).hasActivity
    && (IsGrowingMode(mode) ==> TrendForFiltering(c, start, end).trend == Up)
    && (IsDecliningMode(mode) ==> TrendForFiltering(c, start, end).trend == Down)
  }

  function SelectedBy(mode: string, start: Option<string>, end: Option<string>): CustomerSummary -> bool {
    c => Selected(mode, c, start, end)
  }

  /** The filtering percentage, a missing one counting as 0 (`percentage || 0`). */
  function PctOr0(c: CustomerSummary, start: Option<string>, end: Option<string>): real {
    var p := TrendForFiltering(c, start, end).percentage;
    if p.Some? then p.value else 0.0
  }

  function RangeRevenue(c: CustomerSummary, start: Option<string>, end: Option<string>): real {
    MetricsForPeriod(c, start, end).totalRevenue
  }

  /** The key each mode's comparator orders by, smallest first. A
      comparator `(a, b) => g(b) - g(a)` orders by `-g`; the collation of
      names is the caller's `rank`. */
  function SortKey(mode: string, start: Option<string>, end: Option<string>, rank: string -> real): CustomerSummary -> real {
    if mode == GrowingDesc || mode == DecliningAsc then c => -PctOr0(c, start, end)
    else if mode == GrowingAsc || mode == DecliningDesc then c => PctOr0(c, start, end)
    else if mode == NameAsc then (c: CustomerSummary) => rank(c.name)
    else if mode == NameDesc then (c: CustomerSummary) => -rank(c.name)
    else c => -RangeRevenue(c, start, end)
  }

  /** The list before sorting is the customers the mode selects, in input
      order. */
  lemma SelectionIsFilter(customers: seq<CustomerSummary>, mode: string, start: Option<string>, end: Option<string>)
    ensures var active := Filter(customers, IsActiveIn(start, end));
      && (IsGrowingMode(mode) ==> Filter(active, HasTrendIn(Up, start, end)) == Filter(customers, SelectedBy(mode, start, end)))
      && (IsDecliningMode(mode) ==> Filter(active, HasTrendIn(Down, start, end)) == Filter(customers, SelectedBy(mode, start, end)))
      && (!IsGrowingMode(mode) && !IsDecliningMode(mode) ==> active == Filter(customers, SelectedBy(mode, start, end)))
  {
    if IsGrowingMode(mode) {
      FilterConj(customers, IsActiveIn(start, end), HasTrendIn(Up, start, end), SelectedBy(mode, start, end));
    } else if IsDecliningMode(mode) {
      FilterConj(customers, IsActiveIn(start, end), HasTrendIn(Down, start, end), SelectedBy(mode, start, end));
    } else {
      FilterSame(customers, IsActiveIn(start, end), SelectedBy(mode, start, end));
    }
  }

  /** `filterAndSortCustomersByTrend`: the customers active in the range,
      narrowed to UP or DOWN customers in the growing and declining modes,
      stably sorted by the mode's key. The source pairs every customer with
      its range metrics and filtering trend first; both are functions of the
      customer, so the model recomputes them where they are needed. */
  function FilterAndSortCustomersByTrend(customers: seq<CustomerSummary>, trendFilter: string,
                                         startMonth: Option<string>, endMonth: Option<string>, rank: string -> real)
    : (r: seq<CustomerSummary>)
    ensures multiset(r) == multiset(Filter(customers, SelectedBy(trendFilter, startMonth, endMonth)))
    ensures SortedBy(r, SortKey(trendFilter, startMonth, endMonth, rank), RealLe)
    ensures forall v ::
      WithKey(r, SortKey(trendFilter, startMonth, endMonth, rank), v) == WithKey(Filter(customers, SelectedBy(trendFilter, startMonth, endMonth)), SortKey(trendFilter, startMonth, endMonth, rank), v)
  {
    var customersWithMetrics := Filter(customers, IsActiveIn(startMonth, endMonth));
    var filteredCustomers :=
      if IsGrowingMode(trendFilter) then Filter(customersWithMetrics, HasTrendIn(Up, startMonth, endMonth))
      else if IsDecliningMode(trendFilter) then Filter(customersWithMetrics, HasTrendIn(Down, startMonth, endMonth))
      else customersWithMetrics;
    SelectionIsFilter(customers, trendFilter, startMonth, endMonth);
    RealLeIsTotalOrder();
    SortBy(filteredCustomers, SortKey(trendFilter, startMonth, endMonth, rank), RealLe)
  }

  /** The list holds exactly the customers the mode selects. */
  lemma FilterAndSortMembers(customers: seq<CustomerSummary>, trendFilter: string,
                             startMonth: Option<string>, endMonth: Option<string>, rank: string -> real, c: CustomerSummary)
    ensures c in FilterAndSortCustomersByTrend(customers, trendFilter, startMonth, endMonth, rank)
      <==> c in customers && Selected(trendFilter, c, startMonth, endMonth)
  {
    var r := FilterAndSortCustomersByTrend(customers, trendFilter, startMonth, endMonth, rank);
    var selected := Filter(customers, SelectedBy(trendFilter, startMonth, endMonth));
    assert c in r <==> c in multiset(selected);
    FilterMember(customers, SelectedBy(trendFilter, startMonth, endMonth), c);
  }

  /** The order of each mode in plain terms. */
  lemma FilterAndSortOrder(customers: seq<CustomerSummary>, trendFilter: string,
                           startMonth: Option<string>, endMonth: Option<string>, rank: string -> real)
    ensures var r := FilterAndSortCustomersByTrend(customers, trendFilter, startMonth, endMonth, rank);
      && (trendFilter == GrowingDesc || trendFilter == DecliningAsc ==>
            forall i, j :: 0 <= i < j < |r| ==> PctOr0(r[j], startMonth, endMonth) <= PctOr0(r[i], startMonth, endMonth))
      && (trendFilter == GrowingAsc || trendFilter == DecliningDesc ==>
            forall i, j :: 0 <= i < j < |r| ==> PctOr0(r[i], startMonth, endMonth) <= PctOr0(r[j], startMonth, endMonth))
      && (trendFilter == NameAsc ==> forall i, j :: 0 <= i < j < |r| ==> rank(r[i].name) <= rank(r[j].name))
      && (trendFilter == NameDesc ==> forall i, j :: 0 <= i < j < |r| ==> rank(r[j].name) <= rank(r[i].name))
      && (trendFilter !in {GrowingDesc, GrowingAsc, DecliningDesc, DecliningAsc, NameAsc, NameDesc} ==>
            forall i, j :: 0 <= i < j < |r| ==> RangeRevenue(r[j], startMonth, endMonth) <= RangeRevenue(r[i], startMonth, endMonth))
  {
    var r := FilterAndSortCustomersByTrend(customers, trendFilter, startMonth, endMonth, rank);
    var key := SortKey(trendFilter, startMonth, endMonth, rank);
    forall i, j | 0 <= i < j < |r| ensures key(r[i]) <= key(r[j]) {
      assert RealLe(key(r[i]), key(r[j]));
    }
  }
}

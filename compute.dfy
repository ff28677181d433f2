/** Customer aggregation: from validated rows to one summary per customer
    over the global, sorted month list, with totals, a revenue-weighted
    margin, first-to-last-month deltas, trend ratings, unique slugs, and
    the customers ordered by total revenue. */
module Compute {
  import opened Base
  import opened Sorting
  import opened Types
  import opened Config
  import opened Format
  import opened Slugs

  /** `calculateTrend`: with a percentage change, UP from +5 % and DOWN
      from -5 % on (both inclusive); without one, a customer starting at 0
      who grew is UP and one who started above 0 and shrank is DOWN. */
  function CalculateTrend(deltaPct: Option<real>, deltaAbs: real, firstValue: real): (t: Trend)
    ensures deltaPct.Some? ==> (t == Up <==> deltaPct.value >= TrendUp)
    ensures deltaPct.Some? ==> (t == Down <==> deltaPct.value <= TrendDown)
    ensures deltaPct.None? ==> (t == Up <==> firstValue == 0.0 && deltaAbs > 0.0)
    ensures deltaPct.None? ==> (t == Down <==> firstValue > 0.0 && deltaAbs < 0.0)
  {
    match deltaPct
    case None =>
      if firstValue == 0.0 && deltaAbs > 0.0 then Up
      else if firstValue > 0.0 && deltaAbs < 0.0 then Down
      else Flat
    case Some(pct) =>
      if pct >= TrendUp then Up
      else if pct <= TrendDown then Down
      else Flat
  }

  function Revenue(m: Monthly): real { m.revenue }
  function Profit(m: Monthly): real { m.profit }

  /** A month that takes part in the weighted margin. */
  predicate HasMargin(m: Monthly) { m.marginPct.Some? && m.revenue > 0.0 }

  /** The margin of a month weighted by its revenue. */
  function Weighted(m: Monthly): real {
    match m.marginPct
    case Some(p) => p * m.revenue
    case None => 0.0
  }

  /** The margin of a month, 0 when it has none. */
  function Margin(m: Monthly): real {
    match m.marginPct
    case Some(p) => p
    case None => 0.0
  }

  /** `calculateWeightedMargin`: `null` exactly when no month has both a
      margin and positive revenue; otherwise a value between the smallest
      and the largest margin of those months. */
  function WeightedMargin(months: seq<Monthly>): (r: Option<real>)
    ensures r.None? <==> forall i :: 0 <= i < |months| ==> !HasMargin(months[i])
    ensures r.Some? ==> exists i :: 0 <= i < |months| && HasMargin(months[i]) && Margin(months[i]) <= r.value
    ensures r.Some? ==> exists j :: 0 <= j < |months| && HasMargin(months[j]) && r.value <= Margin(months[j])
  {
    var valid := Filter(months, HasMargin);
    FilterEmpty(months, HasMargin);
    if |valid| == 0 then None
    else
      var total := Sum(valid, Revenue);
      MarginBounds(months);
      if total == 0.0 then None
      else Some(Ratio(Sum(valid, Weighted), total))
  }

  /** The weighted margin of the months with a margin and positive revenue
      lies between their smallest and largest margin. */
  lemma {:induction false} MarginBounds(months: seq<Monthly>)
    requires Filter(months, HasMargin) != []
    ensures var valid := Filter(months, HasMargin);
      && Sum(valid, Revenue) > 0.0
      && (exists i :: 0 <= i < |months| && HasMargin(months[i])
           && Margin(months[i]) <= Ratio(Sum(valid, Weighted), Sum(valid, Revenue)))
      && (exists j :: 0 <= j < |months| && HasMargin(months[j])
           && Ratio(Sum(valid, Weighted), Sum(valid, Revenue)) <= Margin(months[j]))
  {
    var valid := Filter(months, HasMargin);
    var total, w := Sum(valid, Revenue), Sum(valid, Weighted);
    RevenuePositive(months, valid);
    var i := LowestMargin(months, valid);
    var j := HighestMargin(months, valid);
    var lo, hi := Margin(months[i]), Margin(months[j]);
    DivAtLeast(lo, w, total);
    DivAtMost(hi, w, total);
  }

  /** The months with a margin and positive revenue have positive total
      revenue. */
  lemma RevenuePositive(months: seq<Monthly>, valid: seq<Monthly>)
    requires valid == Filter(months, HasMargin) != []
    ensures Sum(valid, Revenue) > 0.0
  {
    assert forall k :: 0 <= k < |valid| ==> Revenue(valid[k]) > 0.0 by {
      FilterKept(months, HasMargin);
    }
    SumPositive(valid, Revenue);
  }

  /** A month whose margin times the total revenue is at most the weighted
      sum. */
  lemma LowestMargin(months: seq<Monthly>, valid: seq<Monthly>) returns (i: nat)
    requires valid == Filter(months, HasMargin) != []
    ensures i < |months| && HasMargin(months[i])
    ensures Margin(months[i]) * Sum(valid, Revenue) <= Sum(valid, Weighted)
  {
    FilterKept(months, HasMargin);
    var a := LowestBound(valid);
    i := FilterSource(months, HasMargin, a);
  }

  /** The position of a smallest margin bounds the weighted sum from below. */
  lemma LowestBound(valid: seq<Monthly>) returns (a: nat)
    requires valid != [] && forall k :: 0 <= k < |valid| ==> HasMargin(valid[k])
    ensures a < |valid| && Margin(valid[a]) * Sum(valid, Revenue) <= Sum(valid, Weighted)
  {
    a := ArgMinMargin(valid);
    WeightedAtLeast(valid, Margin(valid[a]));
  }

  /** A month whose margin times the total revenue is at least the weighted
      sum. */
  lemma HighestMargin(months: seq<Monthly>, valid: seq<Monthly>) returns (j: nat)
    requires valid == Filter(months, HasMargin) != []
    ensures j < |months| && HasMargin(months[j])
    ensures Sum(valid, Weighted) <= Margin(months[j]) * Sum(valid, Revenue)
  {
    FilterKept(months, HasMargin);
    var b := HighestBound(valid);
    j := FilterSource(months, HasMargin, b);
  }

  /** The position of a largest margin bounds the weighted sum from above. */
  lemma HighestBound(valid: seq<Monthly>) returns (b: nat)
    requires valid != [] && forall k :: 0 <= k < |valid| ==> HasMargin(valid[k])
    ensures b < |valid| && Sum(valid, Weighted) <= Margin(valid[b]) * Sum(valid, Revenue)
  {
    b := ArgMaxMargin(valid);
    WeightedAtMost(valid, Margin(valid[b]));
  }

  /** The position of a smallest margin. */
  function ArgMinMargin(vs: seq<Monthly>): (k: nat)
    requires vs != []
    ensures k < |vs| && forall j :: 0 <= j < |vs| ==> Margin(vs[k]) <= Margin(vs[j])
  {
    if |vs| == 1 then 0
    else
      var k := ArgMinMargin(vs[1..]);
      assert forall j :: 1 <= j < |vs| ==> vs[j] == vs[1..][j - 1];
      if Margin(vs[0]) <= Margin(vs[k + 1]) then 0 else k + 1
  }

  /** The position of a largest margin. */
  function ArgMaxMargin(vs: seq<Monthly>): (k: nat)
    requires vs != []
    ensures k < |vs| && forall j :: 0 <= j < |vs| ==> Margin(vs[j]) <= Margin(vs[k])
  {
    if |vs| == 1 then 0
    else
      var k := ArgMaxMargin(vs[1..]);
      assert forall j :: 1 <= j < |vs| ==> vs[j] == vs[1..][j - 1];
      if Margin(vs[k + 1]) <= Margin(vs[0]) then 0 else k + 1
  }

  /** `w` divided by a positive `t`. */
  function Ratio(w: real, t: real): real
    requires t > 0.0
  {
    w / t
  }

  lemma DivAtLeast(m: real, w: real, t: real)
    requires t > 0.0 && m * t <= w
    ensures m <= Ratio(w, t)
  {
  }

  lemma DivAtMost(m: real, w: real, t: real)
    requires t > 0.0 && w <= m * t
    ensures Ratio(w, t) <= m
  {
  }

  lemma MulLe(x: real, y: real, c: real)
    requires x <= y && c >= 0.0
    ensures x * c <= y * c
  {
  }

  /** Months whose margins are all at least `lo` have a weighted sum of at
      least `lo` times their revenue. */
  lemma {:induction false} WeightedAtLeast(vs: seq<Monthly>, lo: real)
    requires forall i :: 0 <= i < |vs| ==> HasMargin(vs[i]) && lo <= Margin(vs[i])
    ensures lo * Sum(vs, Revenue) <= Sum(vs, Weighted)
    decreases |vs|
  {
    if vs != [] {
      var v := vs[0];
      assert HasMargin(v) && lo <= Margin(v);
      assert Weighted(v) == Margin(v) * v.revenue;
      MulLe(lo, Margin(v), v.revenue);
      assert forall i :: 0 <= i < |vs[1..]| ==> vs[1..][i] == vs[i + 1];
      WeightedAtLeast(vs[1..], lo);
      var tr := Sum(vs[1..], Revenue);
      assert lo * (v.revenue + tr) == lo * v.revenue + lo * tr;
    }
  }

  /** Months whose margins are all at most `hi` have a weighted sum of at
      most `hi` times their revenue. */
  lemma {:induction false} WeightedAtMost(vs: seq<Monthly>, hi: real)
    requires forall i :: 0 <= i < |vs| ==> HasMargin(vs[i]) && Margin(vs[i]) <= hi
    ensures Sum(vs, Weighted) <= hi * Sum(vs, Revenue)
    decreases |vs|
  {
    if vs != [] {
      var v := vs[0];
      assert HasMargin(v) && Margin(v) <= hi;
      assert Weighted(v) == Margin(v) * v.revenue;
      MulLe(Margin(v), hi, v.revenue);
      assert forall i :: 0 <= i < |vs[1..]| ==> vs[1..][i] == vs[i + 1];
      WeightedAtMost(vs[1..], hi);
      var tr := Sum(vs[1..], Revenue);
      assert hi * (v.revenue + tr) == hi * v.revenue + hi * tr;
    }
  }

  /** A month with no record: zero revenue and profit, no margin. */
  function ZeroMonth(period: string): Monthly {
    Monthly(period, 0.0, 0.0, None)
  }

  /** `m` is the last record of `ms` for `period`. */
  ghost predicate IsLastFor(ms: seq<Monthly>, period: string, m: Monthly) {
    exists i :: 0 <= i < |ms| && ms[i] == m && m.period == period
      && forall j :: i < j < |ms| ==> ms[j].period != period
  }

  /** Some record of `ms` is for `period`. */
  ghost predicate HasPeriod(ms: seq<Monthly>, period: string) {
    exists i :: 0 <= i < |ms| && ms[i].period == period
  }

  /** `new Map(ms.map(m => [m.period, m]))`: a later record for a period
      replaces an earlier one. */
  function MonthMap(ms: seq<Monthly>): (mm: map<string, Monthly>)
    ensures forall p :: p in mm <==> HasPeriod(ms, p)
    ensures forall p :: p in mm ==> IsLastFor(ms, p, mm[p])
  {
    if ms == [] then map[]
    else
      var init := ms[..|ms| - 1];
      var last := ms[|ms| - 1];
      var mm := MonthMap(init);
      assert ms == init + [last];
      MonthMapStep(init, last, mm);
      mm[last.period := last]
  }

  /** Recording one more month keeps the map holding the last record of
      every period present. */
  lemma MonthMapStep(init: seq<Monthly>, last: Monthly, mm: map<string, Monthly>)
    requires forall p :: p in mm <==> HasPeriod(init, p)
    requires forall p :: p in mm ==> IsLastFor(init, p, mm[p])
    ensures var ms := init + [last]; var r := mm[last.period := last];
      (forall p :: p in r <==> HasPeriod(ms, p)) && (forall p :: p in r ==> IsLastFor(ms, p, r[p]))
  {
    var ms := init + [last];
    assert forall i :: 0 <= i < |init| ==> init[i] == ms[i];
    assert ms[|init|] == last;
    assert IsLastFor(ms, last.period, last);
    forall p | p in mm && p != last.period ensures IsLastFor(ms, p, mm[p]) {
      var i :| 0 <= i < |init| && init[i] == mm[p] && mm[p].period == p
        && forall j :: i < j < |init| ==> init[j].period != p;
      assert ms[i] == mm[p];
    }
    forall p | HasPeriod(ms, p) && p != last.period ensures HasPeriod(init, p) {
      var i :| 0 <= i < |ms| && ms[i].period == p;
      assert init[i].period == p;
    }
  }

  /** `fillMissingMonths`: one record per month of `allMonths`, in that
      order; a month with records takes the last of them unchanged, any
      other month is a zero month. */
  function FillMissingMonths(customerMonths: seq<Monthly>, allMonths: seq<string>): (r: seq<Monthly>)
    ensures |r| == |allMonths|
    ensures forall i :: 0 <= i < |r| ==> r[i].period == allMonths[i]
    ensures forall i :: 0 <= i < |r| && HasPeriod(customerMonths, allMonths[i]) ==> IsLastFor(customerMonths, allMonths[i], r[i])
    ensures forall i :: 0 <= i < |r| && !HasPeriod(customerMonths, allMonths[i]) ==> r[i] == ZeroMonth(allMonths[i])
  {
    var mm := MonthMap(customerMonths);
    assert forall p :: p in mm ==> mm[p].period == p by {
      forall p | p in mm ensures mm[p].period == p {
        assert IsLastFor(customerMonths, p, mm[p]);
      }
    }
    seq(|allMonths|, i requires 0 <= i < |allMonths| =>
      if allMonths[i] in mm then mm[allMonths[i]] else ZeroMonth(allMonths[i]))
  }

  /** A month with revenue. */
  predicate Active(m: Monthly) { m.revenue > 0.0 }

  /** JavaScript truthiness of a month identifier that may be `null`. */
  predicate Truthy(p: Option<string>) { p.Some? && p.value != "" }

  /** `ms.find(m => m.period === period)`. */
  function FindPeriod(ms: seq<Monthly>, period: string): (r: Option<Monthly>)
    ensures r.None? <==> !HasPeriod(ms, period)
    ensures r.Some? ==> exists i :: (0 <= i < |ms| && ms[i] == r.value && r.value.period == period
                                     && forall j :: 0 <= j < i ==> ms[j].period != period)
  {
    if ms == [] then None
    else if ms[0].period == period then Some(ms[0])
    else
      var r := FindPeriod(ms[1..], period);
      assert forall i :: 1 <= i < |ms| ==> ms[i] == ms[1..][i - 1];
      assert HasPeriod(ms[1..], period) ==> HasPeriod(ms, period) by {
        if HasPeriod(ms[1..], period) {
          var i :| 0 <= i < |ms[1..]| && ms[1..][i].period == period;
          assert ms[i + 1].period == period;
        }
      }
      r
  }

  /** `ms.find(m => m.period === period)!`; the fallback stands for the
      record a search always finds here, since the periods searched for
      are taken from `ms` itself. */
  function PeriodRecord(ms: seq<Monthly>, period: string, fallback: Monthly): Monthly {
    match FindPeriod(ms, period)
    case Some(m) => m
    case None => fallback
  }

  /** `(last / first - 1) * 100`. */
  function PctChange(first: real, last: real): real
    requires first != 0.0
  {
    (last / first - 1.0) * 100.0
  }

  /** The period of the first month with revenue, `null` without one. */
  function FirstMonthOf(filled: seq<Monthly>): (r: Option<string>)
    ensures r.None? <==> forall i :: 0 <= i < |filled| ==> !Active(filled[i])
    ensures r.Some? ==> exists i :: (0 <= i < |filled| && Active(filled[i]) && filled[i].period == r.value
                                     && forall k :: 0 <= k < i ==> !Active(filled[k]))
  {
    var active := Filter(filled, Active);
    FilterEmpty(filled, Active);
    if |active| > 0 then
      FilterFirst(filled, Active);
      Some(active[0].period)
    else None
  }

  /** The period of the last month with revenue, `null` without one. */
  function LastMonthOf(filled: seq<Monthly>): (r: Option<string>)
    ensures r.None? <==> forall i :: 0 <= i < |filled| ==> !Active(filled[i])
    ensures r.Some? ==> exists j :: (0 <= j < |filled| && Active(filled[j]) && filled[j].period == r.value
                                     && forall k :: j < k < |filled| ==> !Active(filled[k]))
  {
    var active := Filter(filled, Active);
    FilterEmpty(filled, Active);
    if |active| > 0 then
      FilterLast(filled, Active);
      Some(active[|active| - 1].period)
    else None
  }

  /** The first- and last-month records the deltas compare: present when
      both months are truthy and differ. */
  function DeltaEnds(filled: seq<Monthly>, first: Option<string>, last: Option<string>): Option<(Monthly, Monthly)> {
    if Truthy(first) && Truthy(last) && first != last then
      Some((PeriodRecord(filled, first.value, ZeroMonth("")), PeriodRecord(filled, last.value, ZeroMonth(""))))
    else None
  }

  /** The absolute change of `f` between the compared records, 0 without them. */
  function DeltaAbs(ends: Option<(Monthly, Monthly)>, f: Monthly -> real): real {
    match ends
    case Some((a, b)) => f(b) - f(a)
    case None => 0.0
  }

  /** The revenue change in percent, when the first revenue is positive. */
  function RevenueDeltaPct(ends: Option<(Monthly, Monthly)>): Option<real> {
    match ends
    case Some((a, b)) => if a.revenue > 0.0 then Some(PctChange(a.revenue, b.revenue)) else None
    case None => None
  }

  /** The profit change in percent, when the first profit is non-zero. */
  function ProfitDeltaPct(ends: Option<(Monthly, Monthly)>): Option<real> {
    match ends
    case Some((a, b)) => if a.profit != 0.0 then Some(PctChange(a.profit, b.profit)) else None
    case None => None
  }

  /** `activeMonths[0]?.x || 0`. */
  function FirstActiveValue(filled: seq<Monthly>, f: Monthly -> real): real {
    var active := Filter(filled, Active);
    if |active| > 0 then f(active[0]) else 0.0
  }

  /** The summary `calculateCustomerMetrics` computes from the customer's
      filled series: totals and weighted margin, the span of months with
      revenue, and the deltas and trends between the ends of that span. */
  function SeriesSummary(name: string, filled: seq<Monthly>): (c: CustomerSummary)
    ensures c.name == name && c.slug == Slugify(name) && c.months == filled
    ensures c.totalRevenue == Sum(filled, Revenue) && c.totalProfit == Sum(filled, Profit)
    ensures c.avgMarginPct == WeightedMargin(filled)
    ensures c.firstMonth == FirstMonthOf(filled) && c.lastMonth == LastMonthOf(filled)
  {
    var firstMonth := FirstMonthOf(filled);
    var lastMonth := LastMonthOf(filled);
    var ends := DeltaEnds(filled, firstMonth, lastMonth);
    var revenueDeltaAbs := DeltaAbs(ends, Revenue);
    var profitDeltaAbs := DeltaAbs(ends, Profit);
    var revenueDeltaPct := RevenueDeltaPct(ends);
    var profitDeltaPct := ProfitDeltaPct(ends);
    CustomerSummary(Slugify(name), name, firstMonth, lastMonth, filled,
                    Sum(filled, Revenue), Sum(filled, Profit), WeightedMargin(filled),
                    revenueDeltaAbs, revenueDeltaPct, profitDeltaAbs, profitDeltaPct,
                    CalculateTrend(revenueDeltaPct, revenueDeltaAbs, FirstActiveValue(filled, Revenue)),
                    CalculateTrend(profitDeltaPct, profitDeltaAbs, FirstActiveValue(filled, Profit)))
  }

  /** `calculateCustomerMetrics`: the summary of the customer's series
      filled out to all months. */
  function CustomerMetrics(name: string, months: seq<Monthly>, allMonths: seq<string>): (c: CustomerSummary)
    ensures c.name == name && c.slug == Slugify(name)
    ensures c.months == FillMissingMonths(months, allMonths) && |c.months| == |allMonths|
    ensures c.totalRevenue == Sum(c.months, Revenue) && c.totalProfit == Sum(c.months, Profit)
    ensures c.avgMarginPct == WeightedMargin(c.months)
  {
    SeriesSummary(name, FillMissingMonths(months, allMonths))
  }

  /** Pairwise distinct, non-empty month identifiers. */
  predicate DistinctMonths(ms: seq<string>) {
    && (forall i :: 0 <= i < |ms| ==> ms[i] != "")
    && (forall i, j :: 0 <= i < j < |ms| ==> ms[i] != ms[j])
  }

  /** Two records of different periods. */
  predicate DifferentPeriods(x: Monthly, y: Monthly) { x.period != y.period }

  /** A series with one record per non-empty period. */
  predicate OnePerPeriod(filled: seq<Monthly>) {
    && (forall i :: 0 <= i < |filled| ==> filled[i].period != "")
    && (forall a, b {:trigger DifferentPeriods(filled[a], filled[b])} ::
          0 <= a < b < |filled| ==> DifferentPeriods(filled[a], filled[b]))
  }

  /** Filling out to distinct months gives one record per month. */
  lemma FilledOnePerPeriod(months: seq<Monthly>, allMonths: seq<string>)
    requires DistinctMonths(allMonths)
    ensures OnePerPeriod(FillMissingMonths(months, allMonths))
  {
    var filled := FillMissingMonths(months, allMonths);
    assert forall i :: 0 <= i < |filled| ==> filled[i].period == allMonths[i];
    forall a, b | 0 <= a < b < |filled| ensures DifferentPeriods(filled[a], filled[b]) {
      assert allMonths[a] != allMonths[b];
    }
  }

  /** A period search in a series with one record per period finds that
      record. */
  lemma FindUnique(ms: seq<Monthly>, i: nat)
    requires i < |ms|
    requires OnePerPeriod(ms)
    ensures FindPeriod(ms, ms[i].period) == Some(ms[i])
  {
    assert HasPeriod(ms, ms[i].period);
    var r := FindPeriod(ms, ms[i].period);
    var k :| 0 <= k < |ms| && ms[k] == r.value && r.value.period == ms[i].period
      && forall j :: 0 <= j < k ==> ms[j].period != ms[i].period;
    assert k < i ==> DifferentPeriods(ms[k], ms[i]);
  }

  /** Two records of a series with one record per period are the ends the
      deltas compare, for their two periods. */
  lemma DeltaEndsAt(filled: seq<Monthly>, i: nat, j: nat)
    requires OnePerPeriod(filled)
    requires i < j < |filled|
    ensures DeltaEnds(filled, Some(filled[i].period), Some(filled[j].period)) == Some((filled[i], filled[j]))
  {
    assert DifferentPeriods(filled[i], filled[j]);
    FindUnique(filled, i);
    FindUnique(filled, j);
  }

  /** In a series with one record per period and two or more months with
      revenue, the deltas compare the first and the last of those months. */
  lemma {:induction false} DeltaEndsActive(filled: seq<Monthly>)
    requires OnePerPeriod(filled)
    requires |Filter(filled, Active)| >= 2
    ensures DeltaEnds(filled, FirstMonthOf(filled), LastMonthOf(filled))
      == Some((Filter(filled, Active)[0], Filter(filled, Active)[|Filter(filled, Active)| - 1]))
  {
    var active := Filter(filled, Active);
    FilterEnds(filled, Active);
    var i, j :| 0 <= i < j < |filled| && filled[i] == active[0] && filled[j] == active[|active| - 1];
    assert FirstMonthOf(filled) == Some(filled[i].period);
    assert LastMonthOf(filled) == Some(filled[j].period);
    DeltaEndsAt(filled, i, j);
  }

  /** With fewer than two months with revenue there is nothing to compare. */
  lemma DeltaEndsFew(filled: seq<Monthly>)
    requires |Filter(filled, Active)| < 2
    ensures DeltaEnds(filled, FirstMonthOf(filled), LastMonthOf(filled)).None?
  {
  }

  /** In a series with one record per month, a customer with revenue in two
      or more months has absolute deltas from its first to its last month
      with revenue. */
  lemma {:induction false} CustomerDeltas(name: string, filled: seq<Monthly>)
    requires OnePerPeriod(filled)
    requires |Filter(filled, Active)| >= 2
    ensures var c, active := SeriesSummary(name, filled), Filter(filled, Active);
      && c.revenueDeltaAbs == active[|active| - 1].revenue - active[0].revenue
      && c.profitDeltaAbs == active[|active| - 1].profit - active[0].profit
  {
    DeltaEndsActive(filled);
  }

  /** In a series with one record per month, a customer with revenue in two
      or more months always has a revenue percentage, from its first to its
      last month with revenue, and a profit percentage exactly when its
      first profit is non-zero. */
  lemma {:induction false} CustomerDeltaPcts(name: string, filled: seq<Monthly>)
    requires OnePerPeriod(filled)
    requires |Filter(filled, Active)| >= 2
    ensures var c, active := SeriesSummary(name, filled), Filter(filled, Active);
      && active[0].revenue > 0.0
      && c.revenueDeltaPct == Some(PctChange(active[0].revenue, active[|active| - 1].revenue))
      && (c.profitDeltaPct.Some? <==> active[0].profit != 0.0)
  {
    DeltaEndsActive(filled);
    FilterAt(filled, Active, 0);
  }

  /** In a series with one record per month, the trends of a customer with
      revenue in two or more months: revenue by its percentage against the
      thresholds; profit by its percentage when the first profit is
      non-zero, and otherwise UP exactly when the last profit is positive,
      never DOWN. */
  lemma {:induction false} CustomerTrends(name: string, filled: seq<Monthly>)
    requires OnePerPeriod(filled)
    requires |Filter(filled, Active)| >= 2
    ensures var c, active := SeriesSummary(name, filled), Filter(filled, Active);
      var a, b := active[0], active[|active| - 1];
      && a.revenue > 0.0
      && (c.revenueTrend == Up <==> PctChange(a.revenue, b.revenue) >= TrendUp)
      && (c.revenueTrend == Down <==> PctChange(a.revenue, b.revenue) <= TrendDown)
      && (a.profit != 0.0 ==> (c.profitTrend == Up <==> PctChange(a.profit, b.profit) >= TrendUp))
      && (a.profit != 0.0 ==> (c.profitTrend == Down <==> PctChange(a.profit, b.profit) <= TrendDown))
      && (a.profit == 0.0 ==> (c.profitTrend == Up <==> b.profit > 0.0) && c.profitTrend != Down)
  {
    DeltaEndsActive(filled);
    FilterAt(filled, Active, 0);
  }

  /** A customer with revenue in fewer than two months has no deltas and is
      FLAT on both measures. */
  lemma {:induction false} CustomerSteady(name: string, filled: seq<Monthly>)
    requires |Filter(filled, Active)| < 2
    ensures var c := SeriesSummary(name, filled);
      && c.revenueDeltaAbs == 0.0 && c.profitDeltaAbs == 0.0
      && c.revenueDeltaPct.None? && c.profitDeltaPct.None?
      && c.revenueTrend == Flat && c.profitTrend == Flat
  {
    DeltaEndsFew(filled);
  }

  /** `rawRows.map(r => r.period)`. */
  function Periods(rows: seq<RawRow>): (ps: seq<string>)
    ensures |ps| == |rows| && forall i :: 0 <= i < |rows| ==> ps[i] == rows[i].period
  {
    seq(|rows|, i requires 0 <= i < |rows| => rows[i].period)
  }

  /** `sortBy(Array.from(new Set(periods)), month => month)`: every period
      of the rows once, in increasing order. */
  function MonthsAvailable(rows: seq<RawRow>): (ms: seq<string>)
    ensures forall p :: p in ms <==> exists i :: 0 <= i < |rows| && rows[i].period == p
    ensures forall i, j :: 0 <= i < j < |ms| ==> LexLt(ms[i], ms[j])
  {
    LexLeIsTotalOrder();
    var ps := Periods(rows);
    var d := Distinct(ps);
    var ms := SortBy(d, Id, LexLe);
    assert DistinctKeys(d, Id);
    DistinctKeysPermutation(d, ms, Id);
    forall p ensures p in ms <==> exists i :: 0 <= i < |rows| && rows[i].period == p {
      assert p in ms <==> p in multiset(d);
      if p in ps {
        var i :| 0 <= i < |ps| && ps[i] == p;
        assert rows[i].period == p;
      }
    }
    forall i, j | 0 <= i < j < |ms| ensures LexLt(ms[i], ms[j]) {
      assert LexLe(Id(ms[i]), Id(ms[j])) && Id(ms[i]) != Id(ms[j]);
    }
    ms
  }

  /** The keys of `groupBy(rawRows, 'customer')`: every customer of the
      rows once, in the order of first appearance. */
  function CustomerNames(rows: seq<RawRow>): (ns: seq<string>)
    ensures forall n :: n in ns <==> exists i :: 0 <= i < |rows| && rows[i].customer == n
    ensures forall i, j :: 0 <= i < j < |ns| ==> ns[i] != ns[j]
  {
    var cs := seq(|rows|, i requires 0 <= i < |rows| => rows[i].customer);
    var ns := Distinct(cs);
    forall n ensures n in cs <==> exists i :: 0 <= i < |rows| && rows[i].customer == n {
      if n in cs {
        var i :| 0 <= i < |cs| && cs[i] == n;
        assert rows[i].customer == n;
      }
      if exists i :: 0 <= i < |rows| && rows[i].customer == n {
        var i :| 0 <= i < |rows| && rows[i].customer == n;
        assert cs[i] == n;
      }
    }
    ns
  }

  /** A row as a month of the customer's series. */
  function ToMonthly(r: RawRow): Monthly {
    Monthly(r.period, r.revenue, r.profit, Some(r.marginPct))
  }

  /** The rows of customer `name`, in their order, as monthly records. */
  function MonthsOf(rows: seq<RawRow>, name: string): (ms: seq<Monthly>)
    ensures forall i :: 0 <= i < |ms| ==> ms[i].marginPct.Some?
    ensures forall i :: 0 <= i < |ms| ==> exists k :: 0 <= k < |rows| && rows[k].customer == name && ms[i] == ToMonthly(rows[k])
  {
    if rows == [] then []
    else
      var head := if rows[0].customer == name then [ToMonthly(rows[0])] else [];
      var rest := MonthsOf(rows[1..], name);
      var ms := head + rest;
      forall i | 0 <= i < |ms| ensures exists k :: 0 <= k < |rows| && rows[k].customer == name && ms[i] == ToMonthly(rows[k]) {
        if i >= |head| {
          assert ms[i] == rest[i - |head|];
          var k :| 0 <= k < |rows[1..]| && rows[1..][k].customer == name && rest[i - |head|] == ToMonthly(rows[1..][k]);
          assert rows[k + 1] == rows[1..][k];
        }
      }
      ms
  }

  /** Some row of customer `name` is for `period`. */
  ghost predicate RowFor(rows: seq<RawRow>, name: string, period: string) {
    exists k :: 0 <= k < |rows| && rows[k].customer == name && rows[k].period == period
  }

  lemma RowForSplit(rows: seq<RawRow>, name: string, period: string)
    requires rows != []
    ensures RowFor(rows, name, period) <==>
      (rows[0].customer == name && rows[0].period == period) || RowFor(rows[1..], name, period)
  {
    if RowFor(rows[1..], name, period) {
      var k :| 0 <= k < |rows[1..]| && rows[1..][k].customer == name && rows[1..][k].period == period;
      assert rows[k + 1] == rows[1..][k];
    }
    if RowFor(rows, name, period) && !(rows[0].customer == name && rows[0].period == period) {
      var k :| 0 <= k < |rows| && rows[k].customer == name && rows[k].period == period;
      assert rows[1..][k - 1] == rows[k];
    }
  }

  lemma HasPeriodAppend(a: seq<Monthly>, b: seq<Monthly>, period: string)
    ensures HasPeriod(a + b, period) <==> HasPeriod(a, period) || HasPeriod(b, period)
  {
    if HasPeriod(a + b, period) {
      var i :| 0 <= i < |a + b| && (a + b)[i].period == period;
      if i >= |a| {
        assert b[i - |a|].period == period;
      }
    }
    if HasPeriod(b, period) {
      var i :| 0 <= i < |b| && b[i].period == period;
      assert (a + b)[i + |a|] == b[i];
    }
    if HasPeriod(a, period) {
      var i :| 0 <= i < |a| && a[i].period == period;
      assert (a + b)[i] == a[i];
    }
  }

  /** A customer's series has a record for `period` exactly when one of
      the customer's rows is for it. */
  lemma {:induction false} MonthsOfPeriod(rows: seq<RawRow>, name: string, period: string)
    ensures HasPeriod(MonthsOf(rows, name), period) <==> RowFor(rows, name, period)
  {
    if rows != [] {
      var head := if rows[0].customer == name then [ToMonthly(rows[0])] else [];
      assert MonthsOf(rows, name) == head + MonthsOf(rows[1..], name);
      HasPeriodAppend(head, MonthsOf(rows[1..], name), period);
      MonthsOfPeriod(rows[1..], name, period);
      RowForSplit(rows, name, period);
      assert HasPeriod(head, period) <==> rows[0].customer == name && rows[0].period == period by {
        if HasPeriod(head, period) {
          var i :| 0 <= i < |head| && head[i].period == period;
        }
        if rows[0].customer == name && rows[0].period == period {
          assert head[0].period == period;
        }
      }
    }
  }

  /** One summary per customer, in the order of first appearance, over the
      months of all rows. */
  function Summaries(rows: seq<RawRow>): (cs: seq<CustomerSummary>)
    ensures var names, allMonths := CustomerNames(rows), MonthsAvailable(rows);
      && |cs| == |names|
      && (forall i :: 0 <= i < |cs| ==> cs[i].name == names[i])
  {
    var names, allMonths := CustomerNames(rows), MonthsAvailable(rows);
    seq(|names|, i requires 0 <= i < |names| => CustomerMetrics(names[i], MonthsOf(rows, names[i]), allMonths))
  }

  function SlugOf(c: CustomerSummary): string { c.slug }
  function NameOf(c: CustomerSummary): string { c.name }

  /** The summaries with the slugs `slugs` in place of their own. */
  function WithSlugs(cs: seq<CustomerSummary>, slugs: seq<string>): (r: seq<CustomerSummary>)
    requires |slugs| == |cs|
    ensures |r| == |cs| && forall i :: 0 <= i < |cs| ==> r[i] == cs[i].(slug := slugs[i])
  {
    seq(|cs|, i requires 0 <= i < |cs| => cs[i].(slug := slugs[i]))
  }

  /** The base slugs of the summaries. */
  function BaseSlugs(cs: seq<CustomerSummary>): (bs: seq<string>)
    ensures |bs| == |cs| && forall i :: 0 <= i < |cs| ==> bs[i] == cs[i].slug
  {
    seq(|cs|, i requires 0 <= i < |cs| => cs[i].slug)
  }

  /** The `usedSlugs` pass: each summary in turn takes the first free
      candidate of its base slug. */
  function Uniquified(cs: seq<CustomerSummary>): (r: seq<CustomerSummary>)
    ensures |r| == |cs|
    ensures forall i :: 0 <= i < |cs| ==> r[i] == cs[i].(slug := r[i].slug) && IsCandidate(r[i].slug, cs[i].slug)
    ensures forall i, j :: 0 <= i < j < |r| ==> r[i].slug != r[j].slug
  {
    AssignSlugsFacts(BaseSlugs(cs), {});
    WithSlugs(cs, AssignSlugs(BaseSlugs(cs), {}))
  }

  /** The first customer in grouping order keeps its bare slug. */
  lemma UniquifiedFirst(cs: seq<CustomerSummary>)
    requires cs != []
    ensures Uniquified(cs)[0].slug == cs[0].slug
  {
    AssignSlugsFirst(BaseSlugs(cs));
  }

  /** The sort key of `sortBy(customers, c => -c.totalRevenue)`. */
  function NegRevenue(c: CustomerSummary): real { -c.totalRevenue }

  /** Sorted by the negated revenue is revenue from the largest. */
  lemma ByRevenue(cs: seq<CustomerSummary>)
    requires SortedBy(cs, NegRevenue, RealLe)
    ensures forall i, j :: 0 <= i < j < |cs| ==> cs[i].totalRevenue >= cs[j].totalRevenue
  {
    forall i, j | 0 <= i < j < |cs| ensures cs[i].totalRevenue >= cs[j].totalRevenue {
      assert RealLe(NegRevenue(cs[i]), NegRevenue(cs[j]));
    }
  }

  /** `aggregateData`: the months of all rows in increasing order and one
      summary per customer, with unique slugs, by total revenue from the
      largest; customers with equal revenue keep their order of first
      appearance. */
  function AggregateSpec(rows: seq<RawRow>, generatedAt: string): (d: AggregatedData)
    ensures d.generatedAt == generatedAt
    ensures rows == [] ==> d.monthsAvailable == [] && d.customers == []
    ensures d.monthsAvailable == MonthsAvailable(rows)
    ensures multiset(d.customers) == multiset(Uniquified(Summaries(rows)))
    ensures forall i, j :: 0 <= i < j < |d.customers| ==> d.customers[i].totalRevenue >= d.customers[j].totalRevenue
  {
    if rows == [] then AggregatedData([], [], generatedAt)
    else
      RealLeIsTotalOrder();
      var sorted := SortBy(Uniquified(Summaries(rows)), NegRevenue, RealLe);
      ByRevenue(sorted);
      AggregatedData(MonthsAvailable(rows), sorted, generatedAt)
  }

  /** Customers of equal total revenue keep their order of first
      appearance: the sort is stable. */
  lemma AggregateStable(rows: seq<RawRow>, generatedAt: string, v: real)
    requires rows != []
    ensures WithKey(AggregateSpec(rows, generatedAt).customers, NegRevenue, v) == WithKey(Uniquified(Summaries(rows)), NegRevenue, v)
  {
    RealLeIsTotalOrder();
    var u := Uniquified(Summaries(rows));
    assert AggregateSpec(rows, generatedAt).customers == SortBy(u, NegRevenue, RealLe);
  }

  /** A customer of that name is in `cs`. */
  ghost predicate Named(cs: seq<CustomerSummary>, n: string) {
    exists i :: 0 <= i < |cs| && cs[i].name == n
  }

  /** Some row is for customer `n`. */
  ghost predicate HasCustomer(rows: seq<RawRow>, n: string) {
    exists k :: 0 <= k < |rows| && rows[k].customer == n
  }

  /** The slugs and the names of a permutation of summaries with unique
      slugs and names are unique, and it names the same customers. */
  lemma PermutedUnique(u: seq<CustomerSummary>, cs: seq<CustomerSummary>)
    requires multiset(cs) == multiset(u)
    requires forall i, j :: 0 <= i < j < |u| ==> u[i].slug != u[j].slug && u[i].name != u[j].name
    ensures forall i, j :: 0 <= i < j < |cs| ==> cs[i].slug != cs[j].slug && cs[i].name != cs[j].name
    ensures forall n :: Named(cs, n) <==> Named(u, n)
  {
    assert DistinctKeys(u, SlugOf) && DistinctKeys(u, NameOf);
    DistinctKeysPermutation(u, cs, SlugOf);
    DistinctKeysPermutation(u, cs, NameOf);
    forall i, j | 0 <= i < j < |cs| ensures cs[i].slug != cs[j].slug && cs[i].name != cs[j].name {
      assert SlugOf(cs[i]) != SlugOf(cs[j]) && NameOf(cs[i]) != NameOf(cs[j]);
    }
    forall n ensures Named(cs, n) <==> Named(u, n) {
      if Named(cs, n) {
        var i :| 0 <= i < |cs| && cs[i].name == n;
        assert cs[i] in multiset(u);
        var j :| 0 <= j < |u| && u[j] == cs[i];
      }
      if Named(u, n) {
        var j :| 0 <= j < |u| && u[j].name == n;
        assert u[j] in multiset(cs);
        var i :| 0 <= i < |cs| && cs[i] == u[j];
      }
    }
  }

  /** The uniquified summaries have unique slugs and names, and they name
      exactly the customers of the rows. */
  lemma UniquifiedUnique(rows: seq<RawRow>)
    ensures var u := Uniquified(Summaries(rows));
      && (forall i, j :: 0 <= i < j < |u| ==> u[i].slug != u[j].slug && u[i].name != u[j].name)
      && (forall n :: Named(u, n) <==> HasCustomer(rows, n))
  {
    var u := Uniquified(Summaries(rows));
    UniquifiedNames(rows, u);
    UniquifiedNamed(rows, u);
  }

  lemma UniquifiedNames(rows: seq<RawRow>, u: seq<CustomerSummary>)
    requires u == Uniquified(Summaries(rows))
    ensures forall i, j :: 0 <= i < j < |u| ==> u[i].slug != u[j].slug && u[i].name != u[j].name
  {
    var names := CustomerNames(rows);
    UniquifiedAligned(rows, u, names);
    DistinctNames(u, names);
  }

  /** The uniquified summaries carry the customer names, in order. */
  lemma UniquifiedAligned(rows: seq<RawRow>, u: seq<CustomerSummary>, names: seq<string>)
    requires u == Uniquified(Summaries(rows)) && names == CustomerNames(rows)
    ensures |u| == |names| && forall i :: 0 <= i < |u| ==> u[i].name == names[i]
  {
    var cs := Summaries(rows);
    assert forall i :: 0 <= i < |u| ==> u[i].name == cs[i].name;
  }

  /** Summaries carrying distinct names, in order, and distinct slugs
      share neither. */
  lemma DistinctNames(u: seq<CustomerSummary>, names: seq<string>)
    requires |u| == |names| && forall i :: 0 <= i < |u| ==> u[i].name == names[i]
    requires forall i, j :: 0 <= i < j < |names| ==> names[i] != names[j]
    requires forall i, j :: 0 <= i < j < |u| ==> u[i].slug != u[j].slug
    ensures forall i, j :: 0 <= i < j < |u| ==> u[i].slug != u[j].slug && u[i].name != u[j].name
  {
  }

  lemma UniquifiedNamed(rows: seq<RawRow>, u: seq<CustomerSummary>)
    requires u == Uniquified(Summaries(rows))
    ensures forall n :: Named(u, n) <==> HasCustomer(rows, n)
  {
    var names := CustomerNames(rows);
    UniquifiedAligned(rows, u, names);
    assert forall n :: n in names <==> HasCustomer(rows, n);
    NamedByNames(rows, u, names);
  }

  /** Summaries carrying the names `names`, in order, name exactly the
      customers those names are. */
  lemma NamedByNames(rows: seq<RawRow>, u: seq<CustomerSummary>, names: seq<string>)
    requires |u| == |names| && forall i :: 0 <= i < |u| ==> u[i].name == names[i]
    requires forall n :: n in names <==> HasCustomer(rows, n)
    ensures forall n :: Named(u, n) <==> HasCustomer(rows, n)
  {
    forall n ensures Named(u, n) <==> HasCustomer(rows, n) {
      if Named(u, n) {
        var i :| 0 <= i < |u| && u[i].name == n;
        assert names[i] in names;
      }
      if HasCustomer(rows, n) {
        var i :| 0 <= i < |names| && names[i] == n;
        assert u[i].name == n;
      }
    }
  }

  /** No two customers of the aggregate share a slug or a name, and the
      names are exactly the customers of the rows. */
  lemma AggregateUnique(rows: seq<RawRow>, generatedAt: string)
    ensures var cs := AggregateSpec(rows, generatedAt).customers;
      && (forall i, j :: 0 <= i < j < |cs| ==> cs[i].slug != cs[j].slug && cs[i].name != cs[j].name)
      && (forall n :: Named(cs, n) <==> HasCustomer(rows, n))
  {
    UniquifiedUnique(rows);
    PermutedUnique(Uniquified(Summaries(rows)), AggregateSpec(rows, generatedAt).customers);
  }

  /** Every customer of the aggregate is, up to its slug, the metrics of
      its own rows over all months, and its slug is a candidate of the
      customer's base slug. */
  lemma AggregateMember(rows: seq<RawRow>, generatedAt: string, c: CustomerSummary)
    requires c in AggregateSpec(rows, generatedAt).customers
    ensures HasCustomer(rows, c.name)
    ensures c.(slug := Slugify(c.name)) == CustomerMetrics(c.name, MonthsOf(rows, c.name), MonthsAvailable(rows))
    ensures IsCandidate(c.slug, Slugify(c.name))
  {
    var summaries := Summaries(rows);
    var i := UniquifiedMember(summaries, c);
    SummaryAt(rows, i);
  }

  /** A member of the uniquified summaries is one of them with a
      candidate of its own slug. */
  lemma UniquifiedMember(cs: seq<CustomerSummary>, c: CustomerSummary) returns (i: nat)
    requires c in multiset(Uniquified(cs))
    ensures i < |cs| && c == cs[i].(slug := c.slug) && IsCandidate(c.slug, cs[i].slug)
  {
    var u := Uniquified(cs);
    i :| 0 <= i < |u| && u[i] == c;
  }

  /** The `i`-th summary is the metrics of the `i`-th customer's rows. */
  lemma SummaryAt(rows: seq<RawRow>, i: nat)
    requires i < |Summaries(rows)|
    ensures var c := Summaries(rows)[i];
      && HasCustomer(rows, c.name)
      && c == CustomerMetrics(c.name, MonthsOf(rows, c.name), MonthsAvailable(rows))
      && c.slug == Slugify(c.name)
  {
    var names := CustomerNames(rows);
    assert names[i] in names;
  }

  /** Filling out a series whose records all carry a margin: the filled
      months without a margin are exactly the months without a record,
      and they are zero months. */
  lemma FilledGaps(own: seq<Monthly>, ms: seq<string>)
    requires forall i :: 0 <= i < |own| ==> own[i].marginPct.Some?
    ensures var filled := FillMissingMonths(own, ms);
      forall k :: 0 <= k < |ms| ==> (filled[k].marginPct.None? <==> !HasPeriod(own, ms[k]))
  {
    var filled := FillMissingMonths(own, ms);
    forall k | 0 <= k < |ms| && HasPeriod(own, ms[k]) ensures filled[k].marginPct.Some? {
      assert IsLastFor(own, ms[k], filled[k]);
    }
  }

  /** Every customer of the aggregate has one record per available month,
      in order. */
  lemma AggregateSeries(rows: seq<RawRow>, generatedAt: string, c: CustomerSummary)
    requires c in AggregateSpec(rows, generatedAt).customers
    ensures c.months == FillMissingMonths(MonthsOf(rows, c.name), MonthsAvailable(rows))
    ensures |c.months| == |MonthsAvailable(rows)|
    ensures forall k :: 0 <= k < |c.months| ==> c.months[k].period == MonthsAvailable(rows)[k]
    ensures c.totalRevenue == Sum(c.months, Revenue) && c.totalProfit == Sum(c.months, Profit)
  {
    AggregateMember(rows, generatedAt, c);
  }

  /** In the series of customer `name` filled out to `ms`, a month without
      a row of the customer is a zero month, and it is exactly the months
      without such a row that have no margin. */
  lemma SeriesGaps(rows: seq<RawRow>, name: string, ms: seq<string>)
    ensures var filled := FillMissingMonths(MonthsOf(rows, name), ms);
      && (forall k :: 0 <= k < |ms| && !RowFor(rows, name, ms[k]) ==> filled[k] == ZeroMonth(ms[k]))
      && (forall k :: 0 <= k < |ms| ==> (filled[k].marginPct.None? <==> !RowFor(rows, name, ms[k])))
  {
    var own := MonthsOf(rows, name);
    FilledGaps(own, ms);
    forall k | 0 <= k < |ms| ensures HasPeriod(own, ms[k]) <==> RowFor(rows, name, ms[k]) {
      MonthsOfPeriod(rows, name, ms[k]);
    }
  }

  /** The same for every customer of the aggregate over the available
      months. */
  lemma AggregateGaps(rows: seq<RawRow>, generatedAt: string, c: CustomerSummary)
    requires c in AggregateSpec(rows, generatedAt).customers
    ensures var ms := MonthsAvailable(rows);
      && |c.months| == |ms|
      && (forall k :: 0 <= k < |ms| && !RowFor(rows, c.name, ms[k]) ==> c.months[k] == ZeroMonth(ms[k]))
      && (forall k :: 0 <= k < |ms| ==> (c.months[k].marginPct.None? <==> !RowFor(rows, c.name, ms[k])))
  {
    AggregateSeries(rows, generatedAt, c);
    SeriesGaps(rows, c.name, MonthsAvailable(rows));
  }

  /** The state of the slug pass after the first `i` summaries: those carry
      their assigned slugs, the rest their base slugs, and `used` holds what
      has been handed out. */
  ghost predicate SlugPassAt(cs: seq<CustomerSummary>, r: seq<CustomerSummary>, i: nat, used: set<string>) {
    var bases := BaseSlugs(cs);
    var slugs := AssignSlugs(bases, {});
    && i <= |cs|
    && r == WithSlugs(cs, slugs[..i] + bases[i..])
    && AssignSlugs(bases[i..], used) == slugs[i..]
  }

  lemma SlugPassStart(cs: seq<CustomerSummary>)
    ensures SlugPassAt(cs, cs, 0, {})
  {
    var bases := BaseSlugs(cs);
    assert AssignSlugs(bases, {})[..0] + bases[0..] == bases;
  }

  lemma SlugPassStep(cs: seq<CustomerSummary>, r: seq<CustomerSummary>, i: nat, used: set<string>)
    requires SlugPassAt(cs, r, i, used) && i < |cs|
    ensures |r| == |cs| && r[i].slug == cs[i].slug
    ensures var s := FreshSlug(cs[i].slug, used);
      SlugPassAt(cs, r[i := r[i].(slug := s)], i + 1, used + {s})
  {
    var bases := BaseSlugs(cs);
    var slugs := AssignSlugs(bases, {});
    AssignSlugsStep(bases, slugs, i, used);
    WithSlugsStep(cs, slugs, bases, i);
  }

  lemma SlugPassEnd(cs: seq<CustomerSummary>, r: seq<CustomerSummary>, used: set<string>)
    requires SlugPassAt(cs, r, |cs|, used)
    ensures r == Uniquified(cs)
  {
    var bases := BaseSlugs(cs);
    var slugs := AssignSlugs(bases, {});
    assert slugs[..|cs|] + bases[|cs|..] == slugs;
  }

  /** One step of the slug pass: the `i`-th summary trades its base slug for
      the assigned one. */
  lemma WithSlugsStep(cs: seq<CustomerSummary>, slugs: seq<string>, bases: seq<string>, i: nat)
    requires i < |cs| == |slugs| == |bases|
    ensures var w := WithSlugs(cs, slugs[..i] + bases[i..]);
      && w[i].slug == bases[i]
      && w[i := w[i].(slug := slugs[i])] == WithSlugs(cs, slugs[..i + 1] + bases[i + 1..])
  {
    var ss := slugs[..i] + bases[i..];
    var ts := slugs[..i + 1] + bases[i + 1..];
    assert ss[i] == bases[i];
    assert forall k :: 0 <= k < |cs| ==> ts[k] == if k == i then slugs[i] else ss[k];
  }

  /** The slug pass of `aggregateData`. */
  method UniquifySlugs(cs: seq<CustomerSummary>) returns (r: seq<CustomerSummary>)
    ensures r == Uniquified(cs)
  {
    var usedSlugs: set<string> := {};
    r := cs;
    SlugPassStart(cs);
    var i := 0;
    while i < |cs|
      invariant SlugPassAt(cs, r, i, usedSlugs)
    {
      SlugPassStep(cs, r, i, usedSlugs);
      var finalSlug := ResolveSlug(r[i].slug, usedSlugs);
      r := r[i := r[i].(slug := finalSlug)];
      usedSlugs := usedSlugs + {finalSlug};
      i := i + 1;
    }
    SlugPassEnd(cs, r, usedSlugs);
  }

  /** `aggregateData`. */
  method AggregateData(rows: seq<RawRow>, generatedAt: string) returns (d: AggregatedData)
    ensures d == AggregateSpec(rows, generatedAt)
  {
    if |rows| == 0 {
      return AggregatedData([], [], generatedAt);
    }
    var allMonths := MonthsAvailable(rows);
    var customers := Summaries(rows);
    customers := UniquifySlugs(customers);
    RealLeIsTotalOrder();
    d := AggregatedData(allMonths, SortBy(customers, NegRevenue, RealLe), generatedAt);
  }
}

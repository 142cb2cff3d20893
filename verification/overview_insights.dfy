/**
 The financial overview card (src/components/overview/OverviewInsights.tsx): the
 revenue and expense series paired by position, their totals, the net income
 and the growth rate.
 */
module OverviewInsights {
  import opened Common

  /** A fetched `revenue_records` or `write_offs` row: its amount (possibly null) and date. */
  datatype AmountRow = AmountRow(amount: Option<Money>, date: string)

  /** One point of the chart: the revenue row's date and amount, and the expense at the same position. */
  datatype Point = Point(date: string, revenue: Option<Money>, expenses: Money)

  /** `x || 0` on a number that may be null: the number, or 0 (a 0 stays 0). */
  function OrZero(x: Option<Money>): Money
  {
    x.GetOr(0.0)
  }

  /** `expenses?.[index]?.amount || 0`. */
  function ExpenseAt(expenses: Option<seq<AmountRow>>, index: nat): (e: Money)
    ensures expenses.Some? && index < |expenses.value| ==> e == OrZero(expenses.value[index].amount)
    ensures expenses.None? || index >= |expenses.value| ==> e == 0.0
  {
    if expenses.Some? && index < |expenses.value| then OrZero(expenses.value[index].amount) else 0.0
  }

  /** `combinedData`: one point per revenue row, in order; no revenue gives no points. */
  function Combine(revenue: Option<seq<AmountRow>>, expenses: Option<seq<AmountRow>>): (points: seq<Point>)
    ensures revenue.None? ==> points == []
    ensures revenue.Some? ==> |points| == |revenue.value|
    ensures revenue.Some? ==> forall i | 0 <= i < |points| ::
              points[i].date == revenue.value[i].date && points[i].revenue == revenue.value[i].amount
              && points[i].expenses == ExpenseAt(expenses, i)
  {
    match revenue
    case None => []
    case Some(rs) =>
      seq(|rs|, i requires 0 <= i < |rs| => Point(rs[i].date, rs[i].amount, ExpenseAt(expenses, i)))
  }

  /** Expense rows past the last revenue row never reach the chart. */
  lemma ExtraExpensesDropped(revenue: seq<AmountRow>, expenses: seq<AmountRow>, extra: seq<AmountRow>)
    requires |expenses| >= |revenue|
    ensures Combine(Some(revenue), Some(expenses + extra)) == Combine(Some(revenue), Some(expenses))
  {
    var a := Combine(Some(revenue), Some(expenses + extra));
    var b := Combine(Some(revenue), Some(expenses));
    forall i | 0 <= i < |revenue| ensures a[i] == b[i] {
      assert (expenses + extra)[i] == expenses[i];
    }
  }

  /** A missing expense row, a null amount and a zero amount all chart as 0. */
  lemma MissingExpenseIsZero(revenue: seq<AmountRow>, expenses: seq<AmountRow>, date: string)
    requires |expenses| < |revenue|
    ensures Combine(Some(revenue), Some(expenses)) == Combine(Some(revenue), Some(expenses + [AmountRow(None, date)]))
    ensures Combine(Some(revenue), Some(expenses)) == Combine(Some(revenue), Some(expenses + [AmountRow(Some(0.0), date)]))
  {
    var a := Combine(Some(revenue), Some(expenses));
    forall i | 0 <= i < |revenue| ensures a[i].expenses == ExpenseAt(Some(expenses + [AmountRow(None, date)]), i)
                                    && a[i].expenses == ExpenseAt(Some(expenses + [AmountRow(Some(0.0), date)]), i) {
      if i < |expenses| {
        assert (expenses + [AmountRow(None, date)])[i] == expenses[i];
        assert (expenses + [AmountRow(Some(0.0), date)])[i] == expenses[i];
      }
    }
  }

  function RevenueValues(points: seq<Point>): (xs: seq<Money>)
    ensures |xs| == |points| && forall i | 0 <= i < |points| :: xs[i] == OrZero(points[i].revenue)
  {
    seq(|points|, i requires 0 <= i < |points| => OrZero(points[i].revenue))
  }

  function ExpenseValues(points: seq<Point>): (xs: seq<Money>)
    ensures |xs| == |points| && forall i | 0 <= i < |points| :: xs[i] == points[i].expenses
  {
    seq(|points|, i requires 0 <= i < |points| => points[i].expenses)
  }

  /** The figures beside the chart; `growthRate` before its one-decimal formatting. */
  datatype Overview = Overview(totalRevenue: Money, totalExpenses: Money, netIncome: Money, growthRate: real)

  /** `growthRate`: the net income as a percentage of revenue, 0 unless revenue is positive. */
  function GrowthRate(totalRevenue: Money, netIncome: Money): (rate: real)
    ensures totalRevenue <= 0.0 ==> rate == 0.0
    ensures totalRevenue > 0.0 ==> rate * totalRevenue == netIncome * 100.0
  {
    if totalRevenue > 0.0 then (netIncome / totalRevenue) * 100.0 else 0.0
  }

  /** The card's totals over the chart data; data not (yet) loaded counts as none. */
  function Summarize(points: Option<seq<Point>>): (o: Overview)
    ensures points.None? ==> o == Overview(0.0, 0.0, 0.0, 0.0)
    ensures points.Some? ==> o.totalRevenue == Sum(RevenueValues(points.value))
                             && o.totalExpenses == Sum(ExpenseValues(points.value))
    ensures o.netIncome == o.totalRevenue - o.totalExpenses
    ensures o.totalRevenue <= 0.0 ==> o.growthRate == 0.0
    ensures o.totalRevenue > 0.0 ==> o.growthRate * o.totalRevenue == o.netIncome * 100.0
    ensures o.growthRate == GrowthRate(o.totalRevenue, o.netIncome)
  {
    var ps := points.GetOr([]);
    var revenue := Sum(RevenueValues(ps));
    var expenses := Sum(ExpenseValues(ps));
    Overview(revenue, expenses, revenue - expenses, GrowthRate(revenue, revenue - expenses))
  }

  /** With positive revenue and no negative expense, the growth rate is at most 100, and exactly 100 with no expenses. */
  lemma GrowthRateAtMostHundred(points: seq<Point>)
    requires forall i | 0 <= i < |points| :: points[i].expenses >= 0.0
    requires Summarize(Some(points)).totalRevenue > 0.0
    ensures Summarize(Some(points)).growthRate <= 100.0
    ensures Summarize(Some(points)).totalExpenses == 0.0 ==> Summarize(Some(points)).growthRate == 100.0
  {
    SumNonNegative(ExpenseValues(points));
  }

  /** Without revenue rows the chart is empty and every figure is 0. */
  lemma NoRevenueNoFigures(expenses: Option<seq<AmountRow>>)
    ensures Summarize(Some(Combine(None, expenses))) == Overview(0.0, 0.0, 0.0, 0.0)
  {
  }

  /** The expense total counts only the expense rows paired with a revenue row. */
  lemma ExpenseTotalCountsPairedRows(revenue: seq<AmountRow>, expenses: seq<AmountRow>)
    requires |expenses| <= |revenue|
    ensures Summarize(Some(Combine(Some(revenue), Some(expenses)))).totalExpenses
            == Sum(ExpenseAmounts(expenses))
  {
    PairedExpenseSum(revenue, expenses);
  }

  lemma {:induction false} PairedExpenseSum(revenue: seq<AmountRow>, expenses: seq<AmountRow>)
    requires |expenses| <= |revenue|
    ensures Sum(ExpenseValues(Combine(Some(revenue), Some(expenses)))) == Sum(ExpenseAmounts(expenses))
    decreases |revenue|
  {
    var ps := Combine(Some(revenue), Some(expenses));
    var xs := ExpenseValues(ps);
    if |revenue| > |expenses| {
      var shorter := revenue[..|revenue| - 1];
      PairedExpenseSum(shorter, expenses);
      var ys := ExpenseValues(Combine(Some(shorter), Some(expenses)));
      SumOneMore(xs, ys);
      assert xs[|ys|] == 0.0;
    } else if |revenue| > 0 {
      var shorter := revenue[..|revenue| - 1];
      var fewer := expenses[..|expenses| - 1];
      PairedExpenseSum(shorter, fewer);
      var ys := ExpenseValues(Combine(Some(shorter), Some(fewer)));
      assert forall i | 0 <= i < |ys| :: ExpenseAt(Some(expenses), i) == ExpenseAt(Some(fewer), i);
      SumOneMore(xs, ys);
      var amounts := ExpenseAmounts(expenses);
      SumOneMore(amounts, ExpenseAmounts(fewer));
      assert xs[|ys|] == amounts[|fewer|];
    }
  }

  function ExpenseAmounts(expenses: seq<AmountRow>): (xs: seq<Money>)
    ensures |xs| == |expenses| && forall i | 0 <= i < |expenses| :: xs[i] == OrZero(expenses[i].amount)
  {
    seq(|expenses|, i requires 0 <= i < |expenses| => OrZero(expenses[i].amount))
  }
}

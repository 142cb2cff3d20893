/**
 `updateFinancialRecords` of the document processor
 (supabase/functions/analyze-document/documentProcessor.ts): the rows an analysis
 writes to `write_offs`, `revenue_records` and `balance_sheet_items`. An insert
 that is not made is `None`; the storage itself is not modelled.
 */
module FinancialRecords {
  import opened Common
  import opened DocumentProcessor

  /** A `write_offs` row. It has no category column: the analysis' category label is not stored. */
  datatype WriteOffRow = WriteOffRow(userId: string, amount: Money, description: string,
                                     taxCode: TaxCodeRef, date: string, status: string)

  datatype RevenueRow = RevenueRow(userId: string, amount: Money, description: string, category: string, date: string)

  datatype BalanceItem = BalanceItem(userId: string, category: string, name: string, amount: Money, description: string)

  /** The three inserts; `None` where the insert is skipped. */
  datatype Inserts = Inserts(writeOffs: Option<seq<WriteOffRow>>, revenue: Option<seq<RevenueRow>>,
                             balance: Option<BalanceItem>)

  function WriteOffRowOf(userId: string, today: string, w: WriteOff): WriteOffRow
  {
    WriteOffRow(userId, w.amount, w.description, w.taxCode, today, "pending")
  }

  function RevenueRowOf(userId: string, today: string, t: Transaction): RevenueRow
  {
    RevenueRow(userId, t.amount, t.description, "Document Import", today)
  }

  predicate IsRevenue(t: Transaction)
  {
    t.amount > 0.0
  }

  /** The signed total of all transaction amounts (`transactions.reduce((sum, t) => sum + t.amount, 0)`). */
  function NetAmount(ts: seq<Transaction>): Money
  {
    Sum(Amounts(ts))
  }

  function Abs(x: Money): (r: Money)
    ensures r >= 0.0 && (r == x || r == -x)
  {
    if x < 0.0 then -x else x
  }

  /** The `write_offs` rows: one pending row per write-off, in order, dated today. */
  function WriteOffRows(userId: string, today: string, ws: seq<WriteOff>): (rows: seq<WriteOffRow>)
    ensures |rows| == |ws|
    ensures forall i | 0 <= i < |ws| ::
              rows[i].userId == userId && rows[i].amount == ws[i].amount && rows[i].description == ws[i].description
              && rows[i].taxCode == ws[i].taxCode && rows[i].date == today && rows[i].status == "pending"
  {
    seq(|ws|, i requires 0 <= i < |ws| => WriteOffRowOf(userId, today, ws[i]))
  }

  /** The `revenue_records` rows: one per positive transaction, in order. */
  function RevenueRows(userId: string, today: string, ts: seq<Transaction>): (rows: seq<RevenueRow>)
    ensures |rows| == Count(ts, IsRevenue)
    ensures |rows| > 0 <==> exists i | 0 <= i < |ts| :: ts[i].amount > 0.0
    ensures forall i | 0 <= i < |rows| ::
              rows[i].amount > 0.0 && rows[i].category == "Document Import" && rows[i].userId == userId
              && rows[i].date == today && rows[i].amount == Filter(ts, IsRevenue)[i].amount
              && rows[i].description == Filter(ts, IsRevenue)[i].description
  {
    var revenue := Filter(ts, IsRevenue);
    assert |revenue| > 0 <==> exists i | 0 <= i < |ts| :: ts[i].amount > 0.0 by {
      if |revenue| > 0 {
        assert revenue[0] in ts;
      }
    }
    seq(|revenue|, i requires 0 <= i < |revenue| => RevenueRowOf(userId, today, revenue[i]))
  }

  /** The balance-sheet item for a net amount: none for zero, else an asset or liability of its magnitude. */
  function BalanceFor(userId: string, net: Money): (r: Option<BalanceItem>)
    ensures r.Some? <==> net != 0.0
    ensures r.Some? ==> r.value.amount > 0.0 && r.value.amount == Abs(net) && r.value.userId == userId
                        && (r.value.category == "asset" <==> net > 0.0)
                        && (r.value.category == "liability" <==> net < 0.0)
  {
    if net != 0.0 then
      Some(BalanceItem(userId, if net > 0.0 then "asset" else "liability", "Document Import", Abs(net),
                       "Automatically generated from document analysis"))
    else None
  }

  /**
   `updateFinancialRecords`: one pending `write_offs` row per write-off, one
   `revenue_records` row per positive transaction, and one balance-sheet item for a
   non-zero net amount, an asset when positive and a liability when negative.
   */
  function UpdateFinancialRecords(userId: string, today: string, analysis: DocumentAnalysis): (r: Inserts)
    ensures r.writeOffs.Some? <==> |analysis.writeOffs| > 0
    ensures r.writeOffs.Some? ==> r.writeOffs.value == WriteOffRows(userId, today, analysis.writeOffs)
    ensures r.revenue.Some? <==> exists i | 0 <= i < |analysis.transactions| :: analysis.transactions[i].amount > 0.0
    ensures r.revenue.Some? ==> r.revenue.value == RevenueRows(userId, today, analysis.transactions)
    ensures r.balance == BalanceFor(userId, NetAmount(analysis.transactions))
  {
    var ws := WriteOffRows(userId, today, analysis.writeOffs);
    var revenue := RevenueRows(userId, today, analysis.transactions);
    Inserts(
      if |ws| > 0 then Some(ws) else None,
      if |revenue| > 0 then Some(revenue) else None,
      BalanceFor(userId, NetAmount(analysis.transactions)))
  }

  function WriteOffAmounts(ws: seq<WriteOff>): (xs: seq<Money>)
    ensures |xs| == |ws| && forall i | 0 <= i < |ws| :: xs[i] == ws[i].amount
  {
    seq(|ws|, i requires 0 <= i < |ws| => ws[i].amount)
  }

  predicate IsNonNegative(t: Transaction)
  {
    !IsNegative(t)
  }

  predicate IsNotRevenue(t: Transaction)
  {
    !IsRevenue(t)
  }

  lemma SumSnocAmount(ts: seq<Transaction>, t: Transaction)
    ensures Sum(Amounts(ts + [t])) == Sum(Amounts(ts)) + t.amount
  {
    AmountsSnoc(ts, t);
    assert (Amounts(ts) + [t.amount])[..|ts|] == Amounts(ts);
  }

  /** The sum over the transactions with `p` plus the sum over those with `q`, its negation, is the whole sum. */
  lemma {:induction false} SumSplits(ts: seq<Transaction>, p: Transaction -> bool, q: Transaction -> bool)
    requires forall t :: q(t) <==> !p(t)
    ensures Sum(Amounts(Filter(ts, p))) + Sum(Amounts(Filter(ts, q))) == Sum(Amounts(ts))
    decreases |ts|
  {
    if |ts| == 0 {
      assert Filter(ts, p) == [] && Filter(ts, q) == [];
    } else {
      var init := ts[..|ts| - 1];
      var t := ts[|ts| - 1];
      assert ts == init + [t];
      SumSplits(init, p, q);
      FilterAppend(init, [t], p);
      FilterAppend(init, [t], q);
      SumSnocAmount(init, t);
      if p(t) {
        assert Filter([t], p) == [t] && Filter([t], q) == [];
        SumSnocAmount(Filter(init, p), t);
        assert Filter(init, q) + [] == Filter(init, q);
      } else {
        assert Filter([t], p) == [] && Filter([t], q) == [t];
        SumSnocAmount(Filter(init, q), t);
        assert Filter(init, p) + [] == Filter(init, p);
      }
    }
  }

  /** The write-offs of CSV transactions total the magnitude of the negative amounts. */
  lemma CsvWriteOffTotal(ts: seq<Transaction>)
    ensures Sum(WriteOffAmounts(CsvWriteOffs(ts))) == -Sum(Amounts(Filter(ts, IsNegative)))
  {
    var neg := Filter(ts, IsNegative);
    var xs := WriteOffAmounts(CsvWriteOffs(ts));
    NegatedSum(Amounts(neg), xs);
  }

  lemma {:induction false} NegatedSum(a: seq<Money>, b: seq<Money>)
    requires |a| == |b| && forall i | 0 <= i < |a| :: b[i] == -a[i]
    ensures Sum(b) == -Sum(a)
    decreases |a|
  {
    if |a| > 0 {
      NegatedSum(a[..|a| - 1], b[..|b| - 1]);
    }
  }

  /**
   For a CSV document the balance-sheet amount reconciles the other two inserts:
   the net amount is the revenue total less the write-off total, zero-amount rows
   contributing to neither.
   */
  lemma CsvNetIsRevenueLessWriteOffs(ts: seq<Transaction>)
    ensures NetAmount(ts) == Sum(Amounts(Filter(ts, IsRevenue))) - Sum(WriteOffAmounts(CsvWriteOffs(ts)))
  {
    CsvWriteOffTotal(ts);
    SumSplits(ts, IsNegative, IsNonNegative);
    var rest := Filter(ts, IsNonNegative);
    SumSplits(rest, IsRevenue, IsNotRevenue);
    var zeros := Filter(rest, IsNotRevenue);
    forall i | 0 <= i < |zeros| ensures !IsRevenue(zeros[i]) && !IsNegative(zeros[i]) {
      assert zeros[i] in rest;
    }
    ZeroSum(zeros);
    FilterNonNegativeRevenue(ts);
  }

  /** Transactions that are neither negative nor positive add nothing. */
  lemma {:induction false} ZeroSum(ts: seq<Transaction>)
    requires forall i | 0 <= i < |ts| :: !IsRevenue(ts[i]) && !IsNegative(ts[i])
    ensures Sum(Amounts(ts)) == 0.0
    decreases |ts|
  {
    if |ts| > 0 {
      ZeroSum(ts[..|ts| - 1]);
      assert Amounts(ts)[..|ts| - 1] == Amounts(ts[..|ts| - 1]);
    }
  }

  /** Keeping the positive ones among the non-negative transactions keeps the positive ones. */
  lemma {:induction false} FilterNonNegativeRevenue(ts: seq<Transaction>)
    ensures Filter(Filter(ts, IsNonNegative), IsRevenue) == Filter(ts, IsRevenue)
    decreases |ts|
  {
    if |ts| > 0 {
      var init := ts[..|ts| - 1];
      var t := ts[|ts| - 1];
      assert ts == init + [t];
      FilterNonNegativeRevenue(init);
      FilterAppend(init, [t], IsNonNegative);
      FilterAppend(init, [t], IsRevenue);
      FilterAppend(Filter(init, IsNonNegative), Filter([t], IsNonNegative), IsRevenue);
    }
  }

  /**
   No CSV transaction is both written off and stored as revenue: the transactions
   the write-offs come from and those the revenue rows come from share no member,
   so together they are at most all of the transactions.
   */
  lemma CsvWriteOffsAndRevenueDisjoint(ts: seq<Transaction>)
    ensures forall t | t in Filter(ts, IsNegative) :: t !in Filter(ts, IsRevenue)
    ensures |CsvWriteOffs(ts)| + Count(ts, IsRevenue) <= |ts|
  {
    CountDisjoint(ts, IsNegative, IsRevenue);
  }
}

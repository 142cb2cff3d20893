/**
 The audit-item rules of the audit pages (src/components/audit/AuditItemsSection.tsx):
 the fraud insights shown for one item and the count of flagged items.
 */
module AuditItems {
  import opened Common

  /** An `audit_items` row, as far as the pages read it. */
  datatype AuditItem = AuditItem(id: string, category: string, description: string, amount: Money, status: string)

  datatype Severity = High | Medium

  datatype Insight = Insight(description: string, severity: Severity, amount: Money)

  /** Amounts strictly above this are large. */
  const LargeAmount: Money := 10000.0

  predicate IsFlagged(item: AuditItem)
  {
    item.status == "flagged"
  }

  /**
   `getFraudInsights`: a high-severity insight for a flagged item, then a
   medium-severity one for an amount strictly above 10000; each carries the
   item's amount.
   */
  function FraudInsights(item: AuditItem): (r: seq<Insight>)
    ensures |r| <= 2
    ensures (exists i | 0 <= i < |r| :: r[i].severity == High) <==> item.status == "flagged"
    ensures (exists i | 0 <= i < |r| :: r[i].severity == Medium) <==> item.amount > LargeAmount
    ensures forall i | 0 <= i < |r| :: r[i].amount == item.amount
    ensures forall i, j | 0 <= i < j < |r| :: r[i].severity == High && r[j].severity == Medium
  {
    var high := if item.status == "flagged" then [Insight("Transaction has been flagged for suspicious activity", High, item.amount)] else [];
    var medium := if item.amount > LargeAmount then [Insight("Large transaction amount detected", Medium, item.amount)] else [];
    var r := high + medium;
    assert item.status == "flagged" ==> r[0].severity == High;
    assert item.amount > LargeAmount ==> r[|r| - 1].severity == Medium;
    r
  }

  /** An item of exactly 10000 that is not flagged has no insight at all. */
  lemma BoundaryAmountHasNoInsight(item: AuditItem)
    requires item.amount == 10000.0 && item.status != "flagged"
    ensures FraudInsights(item) == []
  {
  }

  /** The badge count: the number of items whose status is exactly `flagged`. */
  function FlaggedCount(items: seq<AuditItem>): (n: nat)
    ensures n <= |items|
    ensures n == 0 <==> forall i | 0 <= i < |items| :: items[i].status != "flagged"
  {
    var flagged := Filter(items, IsFlagged);
    assert |flagged| > 0 ==> flagged[0] in items;
    |flagged|
  }

  /** Each flagged item contributes one high-severity insight, so the badge counts the high insights. */
  lemma {:induction false} FlaggedCountIsHighInsightCount(items: seq<AuditItem>)
    ensures FlaggedCount(items) == HighInsightCount(items)
    decreases |items|
  {
    if |items| > 0 {
      FlaggedCountIsHighInsightCount(items[1..]);
      assert Filter(items, IsFlagged) == (if IsFlagged(items[0]) then [items[0]] else []) + Filter(items[1..], IsFlagged);
    }
  }

  /** The number of high-severity insights over all items. */
  function HighInsightCount(items: seq<AuditItem>): nat
  {
    if |items| == 0 then 0
    else (if |FraudInsights(items[0])| > 0 && FraudInsights(items[0])[0].severity == High then 1 else 0)
         + HighInsightCount(items[1..])
  }
}

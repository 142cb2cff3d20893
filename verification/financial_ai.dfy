/**
 The financial-advice edge function (supabase/functions/financial-ai/index.ts):
 the category given to the advisor's answer, and the row stored with it. The
 answer text and the fetched context are inputs; the call that produces the
 answer is not modelled.
 */
module FinancialAi {
  import opened Common
  import opened Strings

  /** The category of an answer: case-sensitive markers checked in the order TAX, INVESTMENT, OPERATIONS. */
  function AdviceCategory(advice: string): (category: string)
    ensures category in {"Tax", "Investment", "Operations", "Planning"}
    ensures category == "Tax" <==> Contains(advice, "TAX")
    ensures category == "Investment" <==> !Contains(advice, "TAX") && Contains(advice, "INVESTMENT")
    ensures category == "Operations" <==>
              !Contains(advice, "TAX") && !Contains(advice, "INVESTMENT") && Contains(advice, "OPERATIONS")
    ensures category == "Planning" <==>
              !Contains(advice, "TAX") && !Contains(advice, "INVESTMENT") && !Contains(advice, "OPERATIONS")
  {
    if Contains(advice, "TAX") then "Tax"
    else if Contains(advice, "INVESTMENT") then "Investment"
    else if Contains(advice, "OPERATIONS") then "Operations"
    else "Planning"
  }

  predicate IsUpper(c: char)
  {
    'A' <= c <= 'Z'
  }

  /** A marker written in upper case cannot occur in a text with no upper-case letter. */
  lemma NoUpperNoMarker(s: string, marker: string)
    requires |marker| > 0 && IsUpper(marker[0])
    requires forall k | 0 <= k < |s| :: !IsUpper(s[k])
    ensures !Contains(s, marker)
  {
    forall i | 0 <= i <= |s| - |marker| ensures !OccursAt(s, marker, i) {
      assert s[i] != marker[0];
      assert s[i..i + |marker|][0] == s[i];
    }
  }

  /** Matching is case-sensitive: an answer in lower case is always Planning, even when it talks about tax. */
  lemma LowerCaseAdviceIsPlanning(advice: string)
    requires forall k | 0 <= k < |advice| :: !IsUpper(advice[k])
    ensures AdviceCategory(advice) == "Planning"
  {
    NoUpperNoMarker(advice, "TAX");
    NoUpperNoMarker(advice, "INVESTMENT");
    NoUpperNoMarker(advice, "OPERATIONS");
  }

  /** An answer that starts with a marker word has that category when no earlier-ranked marker occurs. */
  lemma LeadingMarkerDecides(rest: string)
    ensures AdviceCategory("TAX" + rest) == "Tax"
    ensures !Contains("INVESTMENT" + rest, "TAX") ==> AdviceCategory("INVESTMENT" + rest) == "Investment"
  {
    assert OccursAt("TAX" + rest, "TAX", 0) by { assert ("TAX" + rest)[0..3] == "TAX"; }
    assert OccursAt("INVESTMENT" + rest, "INVESTMENT", 0) by { assert ("INVESTMENT" + rest)[0..10] == "INVESTMENT"; }
  }

  /** The `ai_financial_advice` row inserted for an answer. */
  datatype AdviceRow = AdviceRow(userId: string, category: string, advice: string, confidenceScore: real,
                                 dataPoints: Option<string>)

  datatype Outcome =
    | Answered(row: AdviceRow, advice: string, category: string)
    | Failed(status: int, error: string)

  /**
   One request after the body is read: a missing or empty API key fails with 500
   before anything is stored; otherwise the answer is categorised, stored with
   confidence 0.9 and the fetched context, and returned with its category.
   */
  function FinancialAdvice(userId: string, apiKey: Option<string>, context: Option<string>, advice: string): (o: Outcome)
    ensures o.Failed? <==> apiKey.None? || apiKey.value == ""
    ensures o.Failed? ==> o == Failed(500, "OpenAI API key not configured")
    ensures o.Answered? ==> o.row.category == o.category && o.category == AdviceCategory(advice)
    ensures o.Answered? ==> o.row.advice == advice && o.advice == advice && o.row.userId == userId
    ensures o.Answered? ==> o.row.confidenceScore == 0.9 && o.row.dataPoints == context
  {
    if apiKey.None? || apiKey.value == "" then Failed(500, "OpenAI API key not configured")
    else
      var category := AdviceCategory(advice);
      Answered(AdviceRow(userId, category, advice, 0.9, context), advice, category)
  }
}

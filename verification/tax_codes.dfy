/**
 `findMatchingTaxCode` of the document processor
 (supabase/functions/analyze-document/documentProcessor.ts): first-match keyword
 categorisation over a fixed ordered category list, then a single-row lookup of
 the category in the `tax_codes` table, given here as its list of rows.
 */
module TaxCodes {
  import opened Common
  import opened Strings

  /** The expense categories, in the order their keyword lists are tried. */
  datatype ExpenseCategory = Transportation | Office | Marketing | Travel | Equipment | Services

  const CategoryOrder: seq<ExpenseCategory> := [Transportation, Office, Marketing, Travel, Equipment, Services]

  /** The category's position in the search order. */
  function Rank(c: ExpenseCategory): (k: nat)
    ensures k < |CategoryOrder| && CategoryOrder[k] == c
  {
    match c
    case Transportation => 0
    case Office => 1
    case Marketing => 2
    case Travel => 3
    case Equipment => 4
    case Services => 5
  }

  /** The `expense_category` value the lookup filters on. */
  function CategoryName(c: ExpenseCategory): string
  {
    match c
    case Transportation => "Transportation"
    case Office => "Office"
    case Marketing => "Marketing"
    case Travel => "Travel"
    case Equipment => "Equipment"
    case Services => "Services"
  }

  function Keywords(c: ExpenseCategory): seq<string>
  {
    match c
    case Transportation => ["fuel", "car", "vehicle", "mileage", "parking", "toll"]
    case Office => ["supplies", "paper", "printer", "desk", "chair", "computer"]
    case Marketing => ["advertising", "promotion", "campaign", "marketing"]
    case Travel => ["hotel", "flight", "accommodation", "travel"]
    case Equipment => ["machine", "equipment", "tool", "hardware"]
    case Services => ["consulting", "service", "subscription", "software"]
  }

  /** `words.some(word => descLower.includes(word))`. */
  predicate Mentions(descLower: string, c: ExpenseCategory)
  {
    exists k | 0 <= k < |Keywords(c)| :: Contains(descLower, Keywords(c)[k])
  }

  /** The first category from index `from` on whose keywords occur in `descLower`. */
  function FirstMentioned(descLower: string, from: nat): (r: Option<ExpenseCategory>)
    requires from <= |CategoryOrder|
    ensures r.Some? ==> from <= Rank(r.value) && Mentions(descLower, r.value)
    ensures r.Some? ==> forall k | from <= k < Rank(r.value) :: !Mentions(descLower, CategoryOrder[k])
    ensures r.None? ==> forall k | from <= k < |CategoryOrder| :: !Mentions(descLower, CategoryOrder[k])
    decreases |CategoryOrder| - from
  {
    if from == |CategoryOrder| then None
    else if Mentions(descLower, CategoryOrder[from]) then Some(CategoryOrder[from])
    else FirstMentioned(descLower, from + 1)
  }

  /**
   The loop over `Object.entries(keywords)` with `break`: the first category, in
   declaration order, one of whose keywords occurs in the lower-cased description.
   */
  function MatchCategory(description: string): (r: Option<ExpenseCategory>)
    ensures r.Some? ==> Mentions(Lower(description), r.value)
    ensures r.Some? ==> forall c | Rank(c) < Rank(r.value) :: !Mentions(Lower(description), c)
    ensures r.None? <==> forall c :: !Mentions(Lower(description), c)
  {
    var r := FirstMentioned(Lower(description), 0);
    assert r.None? ==> forall c :: !Mentions(Lower(description), c) by {
      if r.None? {
        forall c ensures !Mentions(Lower(description), c) {
          assert CategoryOrder[Rank(c)] == c;
        }
      }
    }
    assert r.Some? ==> forall c | Rank(c) < Rank(r.value) :: !Mentions(Lower(description), c) by {
      if r.Some? {
        forall c | Rank(c) < Rank(r.value) ensures !Mentions(Lower(description), c) {
          assert CategoryOrder[Rank(c)] == c;
        }
      }
    }
    r
  }

  /** One row of the `tax_codes` table, as far as the lookup reads it. */
  datatype TaxCodeRow = TaxCodeRow(id: string, expenseCategory: string)

  /** The rows `.eq('expense_category', name)` selects. */
  function RowsFor(table: seq<TaxCodeRow>, name: string): (rows: seq<TaxCodeRow>)
    ensures forall i | 0 <= i < |rows| :: rows[i] in table && rows[i].expenseCategory == name
    ensures forall i | 0 <= i < |table| && table[i].expenseCategory == name :: table[i] in rows
  {
    Filter(table, (row: TaxCodeRow) => row.expenseCategory == name)
  }

  /** `.single()`: the row when exactly one matches; otherwise an error and no data. */
  function Single(rows: seq<TaxCodeRow>): (r: Option<TaxCodeRow>)
    ensures r.Some? <==> |rows| == 1
    ensures r.Some? ==> r.value == rows[0]
  {
    if |rows| == 1 then Some(rows[0]) else None
  }

  /** The category name queried in `tax_codes`, if any: no query is made without a matched category. */
  function LookupQuery(description: string): (q: Option<string>)
    ensures q.Some? <==> MatchCategory(description).Some?
    ensures q.Some? ==> q.value == CategoryName(MatchCategory(description).value)
  {
    match MatchCategory(description)
    case None => None
    case Some(c) => Some(CategoryName(c))
  }

  /**
   `findMatchingTaxCode`: `undefined` when no category matches; otherwise the id of
   the single `tax_codes` row of the matched category, or `undefined` when there is
   no such row or more than one.
   */
  function FindMatchingTaxCode(description: string, table: seq<TaxCodeRow>): (r: Option<string>)
    ensures MatchCategory(description).None? ==> r.None?
    ensures r.Some? <==> LookupQuery(description).Some? && |RowsFor(table, LookupQuery(description).value)| == 1
    ensures r.Some? ==> exists i | 0 <= i < |table| ::
              table[i].id == r.value && table[i].expenseCategory == LookupQuery(description).value
  {
    match LookupQuery(description)
    case None => None
    case Some(name) =>
      match Single(RowsFor(table, name))
      case None => None
      case Some(row) => Some(row.id)
  }

  /** Without a matched category the table is never consulted: any two tables give the same answer. */
  lemma NoCategoryNoLookup(description: string, t1: seq<TaxCodeRow>, t2: seq<TaxCodeRow>)
    requires MatchCategory(description).None?
    ensures FindMatchingTaxCode(description, t1) == FindMatchingTaxCode(description, t2) == None
  {
  }

  /** Only rows of the queried category matter to the result. */
  lemma OnlyQueriedRowsMatter(description: string, t1: seq<TaxCodeRow>, t2: seq<TaxCodeRow>)
    requires LookupQuery(description).Some?
    requires RowsFor(t1, LookupQuery(description).value) == RowsFor(t2, LookupQuery(description).value)
    ensures FindMatchingTaxCode(description, t1) == FindMatchingTaxCode(description, t2)
  {
  }

  /** First match, not best match: a description naming fuel and paper is Transportation, not Office. */
  lemma TransportationBeatsOffice(description: string)
    requires Contains(Lower(description), "fuel") && Contains(Lower(description), "paper")
    ensures MatchCategory(description) == Some(Transportation)
  {
    assert Keywords(Transportation)[0] == "fuel";
    assert Mentions(Lower(description), Transportation);
  }
}

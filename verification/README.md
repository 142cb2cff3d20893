# ai-accountant core, modelled in Dafny

This project models the rules at the heart of a small-business accounting
application built on Supabase. It covers three parts.

- **Document ingestion.** This is the analyze-document processor:
  - a `.csv` document is split into rows keyed by its header line;
  - every row whose amount parses becomes a transaction, and every negative
    one also a write-off and a finding;
  - any other document is scanned line by line for a currency token and an
    expense keyword, and a line with both becomes a write-off categorised
    through a first-match keyword table and a single-row `tax_codes` lookup;
  - the analysis is then persisted as write-off, revenue and balance-sheet rows;
  - equity totals sort transactions into three priority-ordered buckets.
- **The automated-audit function.** It labels three scores with strict
  thresholds and builds an ordered, conditional recommendation list. It runs the
  fetch → update → respond sequence over the `audit_reports` table.
- **The pure rules of the user interface.** These are:
  - the UUID-v4 validator and the guards it protects;
  - fraud-alert line grouping;
  - the write-off CSV export and the deductions total;
  - audit-item insights;
  - balance-sheet colours, grouping and totals;
  - the transaction list's totals and fallbacks;
  - the assurance counters;
  - the revenue/expense series;
  - the advice categoriser;
  - the document-upload panel.

Each source file has its own module.
`documentProcessor.ts` is split into `Csv`, `AmountToken`, `TaxCodes`,
`DocumentProcessor` and `FinancialRecords`. `Common` (options, sums, filters)
and `Strings` (trim, case, split/join, substring search) hold the shared
vocabulary. Every operation is a pure function over immutable datatypes. The
environment is passed in as values:

- database reads arrive as row lists or maps;
- database writes come out as row lists or an updated map;
- the outcomes of storage, HTTP and the analysis functions are inputs;
- the clock and `Math.random()` are string parameters;
- `parseFloat`/`Number` on text is an uninterpreted `NumberParser`
  (`string -> Option<Money>`), where `None` stands for NaN.

Amounts are exact reals (`Money`).

Notes on the code as written, which the model follows:

- Free-text write-offs can carry amount 0 (a line such as `fee 0`), so their
  amounts are proved non-negative, not positive.
- `updateFinancialRecords` never inspects the result of its inserts, so a failed
  insert is not reported to its caller. The model returns the rows it inserts
  and has no error path there.
- The comment at `supabase/functions/analyze-document/documentProcessor.ts:217` speaks of revenue for
  "non-expense transactions", but the filter is `amount > 0`, so a zero amount is
  stored nowhere. For CSV documents no transaction is both written off and
  stored as revenue; `FinancialRecords.CsvWriteOffsAndRevenueDisjoint` proves
  that transaction by transaction.

## Model

| member | source | states |
|---|---|---|
| Csv.ParseCsv | supabase/functions/analyze-document/documentProcessor.ts:22-34 | one object per line after the first; every object has exactly the trimmed header cells as keys; a key's value comes from the last header cell with that key (a duplicated header keeps the later cell) and is the trimmed cell or `''` |
| Csv.AssignKeys | supabase/functions/analyze-document/documentProcessor.ts:28-31 | the in-order assignments into `{}` leave exactly the assigned keys |
| Csv.AssignLastWins | supabase/functions/analyze-document/documentProcessor.ts:28-31 | a key keeps the value of its last assignment |
| Csv.AssignConstant | supabase/functions/analyze-document/documentProcessor.ts:28-31 | when every assigned value is the same, every key of the object holds it |
| Csv.RowObjectKeys | supabase/functions/analyze-document/documentProcessor.ts:27-33 | the object of one row has exactly the trimmed headers as keys |
| Csv.RowObjectValues | supabase/functions/analyze-document/documentProcessor.ts:29-30 | a header with no later header trimming alike maps to its trimmed cell, or `''` past the end of the row; the cell is read by `Cell`: trimmed, or `''` past the end of the row |
| Csv.ExtraCellsIgnored | supabase/functions/analyze-document/documentProcessor.ts:29-30 | cells beyond the header count never change the row object |
| Csv.MissingCellsEmpty | supabase/functions/analyze-document/documentProcessor.ts:30 | a row shorter than the header line gets `''` under every missing header |
| AmountToken.FirstTokenStart | supabase/functions/analyze-document/documentProcessor.ts:124-128 | the match begins at the leftmost position where a digit, or `$` followed by a digit, stands; no match exists when there is no such position |
| AmountToken.MatchAmount | supabase/functions/analyze-document/documentProcessor.ts:124-131 | a line yields an amount exactly when it contains a digit, and that amount is never negative |
| AmountToken.TokenAlwaysParses | supabase/functions/analyze-document/documentProcessor.ts:130-131 | once `$` and `,` are removed, every match is a numeral of value at least 0, so the NaN guard never drops a matched line |
| AmountToken.CleanedTokenShape | supabase/functions/analyze-document/documentProcessor.ts:124-130 | a cleaned match is a non-empty digit run, optionally followed by a point and two digits |
| AmountToken.UnseparatedRunTruncated | supabase/functions/analyze-document/documentProcessor.ts:124 | an unseparated run `12345` reads as 123, since the pattern takes at most three leading digits |
| AmountToken.DollarAmountWithCents | supabase/functions/analyze-document/documentProcessor.ts:124-130 | after text without digits, a `$d,ddd.cc` amount (one to three leading digits) reads as its value, leading digits times 1000 plus the group plus the cents over 100, whatever text follows: `fee $1,250.00 today` reads as 1250 |
| AmountToken.DollarTokenSpan | supabase/functions/analyze-document/documentProcessor.ts:124 | such an amount is matched whole: the match begins at its dollar sign and ends after its cents, whatever follows |
| AmountToken.Fraction | supabase/functions/analyze-document/documentProcessor.ts:130 | the digits after the decimal point add a non-negative amount below one unit |
| AmountToken.CleanDollarAmount | supabase/functions/analyze-document/documentProcessor.ts:130 | removing `$` and `,` from such an amount drops exactly the sign and the comma |
| AmountToken.NumeralOfThousands | supabase/functions/analyze-document/documentProcessor.ts:130 | `parseFloat` of the cleaned amount is the whole digits' value plus the cents over 100 |
| AmountToken.DigitsValueAppend | supabase/functions/analyze-document/documentProcessor.ts:130 | appending digits multiplies the value of the earlier ones by ten per appended digit |
| TaxCodes.MatchCategory | supabase/functions/analyze-document/documentProcessor.ts:168-185 | the chosen category has a keyword in the lower-cased description, and no earlier category in the order Transportation, Office, Marketing, Travel, Equipment, Services does; no category exactly when none has a keyword there |
| TaxCodes.LookupQuery | supabase/functions/analyze-document/documentProcessor.ts:187-192 | a `tax_codes` query is made exactly when a category matched, and it filters on that category's name |
| TaxCodes.RowsFor | supabase/functions/analyze-document/documentProcessor.ts:191 | the selected rows are exactly the table rows of the given category |
| TaxCodes.Single | supabase/functions/analyze-document/documentProcessor.ts:192 | `.single()` yields a row exactly when one row matches, and then it is that row |
| TaxCodes.FindMatchingTaxCode | supabase/functions/analyze-document/documentProcessor.ts:167-196 | no matched category gives no id; an id is returned exactly when the queried category has exactly one row, and it is that row's id |
| TaxCodes.NoCategoryNoLookup | supabase/functions/analyze-document/documentProcessor.ts:187-196 | without a matched category the table is never consulted: any two tables give the same undefined answer |
| TaxCodes.OnlyQueriedRowsMatter | supabase/functions/analyze-document/documentProcessor.ts:188-194 | two tables that agree on the queried category's rows give the same answer |
| TaxCodes.TransportationBeatsOffice | supabase/functions/analyze-document/documentProcessor.ts:169-185 | the first match wins, not the best: a description naming both fuel and paper is Transportation |
| DocumentProcessor.Field | supabase/functions/analyze-document/documentProcessor.ts:81-88 | the first of the two fields that is present and non-empty, otherwise the default |
| DocumentProcessor.CsvTransaction | supabase/functions/analyze-document/documentProcessor.ts:81-90 | a row gives a transaction exactly when its amount (`amount`, else `Amount`, else `'0'`) parses; the amount, description and date (`date`, else `Date`, else now) are the fields read; the type is expense exactly when the amount is negative |
| DocumentProcessor.CsvTransactions | supabase/functions/analyze-document/documentProcessor.ts:80-91 | exactly one transaction per row whose amount parses, in row order, each the transaction of that row; only rows whose amount is NaN are skipped |
| DocumentProcessor.CsvWriteOffs | supabase/functions/analyze-document/documentProcessor.ts:92-99 | one write-off per negative transaction, in order; each has the magnitude of that amount and its description, category `Uncategorized`, and the unawaited tax-code lookup |
| DocumentProcessor.CsvFindings | supabase/functions/analyze-document/documentProcessor.ts:100 | exactly one finding per CSV write-off, naming its amount and description |
| DocumentProcessor.CsvLoop | supabase/functions/analyze-document/documentProcessor.ts:80-103 | the accumulating `forEach` builds exactly the reference lists: the transactions of the parsable rows, a write-off for each negative one, and one finding for each write-off; each row is one `CsvStep` |
| DocumentProcessor.CsvWriteOffsAreTheNegativeRows | supabase/functions/analyze-document/documentProcessor.ts:84-101 | the number of CSV write-offs is the number of negative transactions, with as many findings; every write-off is positive and `Uncategorized` |
| DocumentProcessor.MissingAmountIsZeroIncome | supabase/functions/analyze-document/documentProcessor.ts:81-89 | a row with neither `amount` nor `Amount` becomes a 0-amount income transaction |
| DocumentProcessor.BlankLineRowIsEmpty | supabase/functions/analyze-document/documentProcessor.ts:23-30 | the object built from an empty line has `''` under every header |
| DocumentProcessor.TrailingNewlineRowIsEmpty | supabase/functions/analyze-document/documentProcessor.ts:23-33 | a CSV text ending in a newline has a last row with every field empty |
| DocumentProcessor.LineWriteOff | supabase/functions/analyze-document/documentProcessor.ts:127-145 | a line yields a write-off exactly when it has an amount token and an expense keyword; the write-off carries that non-negative amount and the trimmed line; its category is `Categorized` exactly when the lookup returned a truthy id |
| DocumentProcessor.TextLoopPairsFindings | supabase/functions/analyze-document/documentProcessor.ts:127-151 | the free-text loop adds no transaction; it produces exactly one finding per write-off, naming that write-off's category, and at most one write-off per line |
| DocumentProcessor.TextWriteOffs | supabase/functions/analyze-document/documentProcessor.ts:127-145 | the reference list: as many write-offs as lines holding an amount and an expense keyword, the i-th being that line's write-off, with its amount token's value and the trimmed line |
| DocumentProcessor.TextFindings | supabase/functions/analyze-document/documentProcessor.ts:147 | one finding per free-text write-off, naming its amount and category label |
| DocumentProcessor.TextLoop | supabase/functions/analyze-document/documentProcessor.ts:127-151 | the free-text loop adds no transaction; its write-offs are exactly those of the qualifying lines, in line order, with one finding each; each line is one `TextStep` |
| DocumentProcessor.TextWriteOffIff | supabase/functions/analyze-document/documentProcessor.ts:124-134 | a line yields a write-off exactly when it contains a digit and, lower-cased, one of the six expense keywords |
| DocumentProcessor.ProcessDocument | supabase/functions/analyze-document/documentProcessor.ts:61-165 | the risk level is high exactly when a CSV document's processing threw, and exactly then an error finding is present; the recommendations are always the three fixed lines; a CSV document's transactions, write-offs and findings are those of the rows handled before the fault, followed by the error finding when there was one; a non-CSV document keeps the extracted transactions and findings, and its write-offs and their findings are exactly those of its qualifying lines; a document is CSV exactly when `IsCsvName` holds: its lower-cased name ends in `.csv` |
| DocumentProcessor.CsvAnalysis | supabase/functions/analyze-document/documentProcessor.ts:75-108 | a CSV document is high risk exactly when its processing threw, and exactly then an error finding is added; its transactions are those of the rows handled before the fault (all rows when none), its write-offs those of their negative members, and its findings one per write-off followed by the error finding when there was a fault; every write-off is positive, `Uncategorized` and its lookup unawaited |
| DocumentProcessor.RowsBeforeFault | supabase/functions/analyze-document/documentProcessor.ts:80-106 | the rows the `forEach` handled: a prefix of the rows, all of them without a fault, and exactly those before the failing row otherwise |
| DocumentProcessor.TextAnalysis | supabase/functions/analyze-document/documentProcessor.ts:109-152 | a non-CSV document is low risk, has no CSV error finding, keeps the extracted transactions; its write-offs are exactly those of the lines with an amount and an expense keyword, in line order, and its findings are the extracted ones followed by one per write-off |
| DocumentProcessor.BucketOf | supabase/functions/analyze-document/documentProcessor.ts:41-52 | net income exactly when the lower-cased description mentions revenue or income; withdrawals exactly when it mentions withdrawal or distribution and no earlier pair; other changes exactly when it mentions investment or contribution and neither earlier pair; no bucket exactly when none of the six words occurs |
| DocumentProcessor.AddToBucketTotals | supabase/functions/analyze-document/documentProcessor.ts:41-52 | one pass of the loop on the bucket totals of a list gives the bucket totals of that list with one more transaction |
| DocumentProcessor.CalculateEquity | supabase/functions/analyze-document/documentProcessor.ts:36-59 | each equity total is the sum of the amounts of exactly the transactions in its bucket |
| DocumentProcessor.BucketsPartitionTotal | supabase/functions/analyze-document/documentProcessor.ts:41-52 | the three bucket totals plus the unmatched transactions' total is the total of all amounts |
| FinancialRecords.WriteOffRows | supabase/functions/analyze-document/documentProcessor.ts:204-215 | one `pending` row per write-off, in order, with its amount, description and tax-code id, dated today |
| FinancialRecords.RevenueRows | supabase/functions/analyze-document/documentProcessor.ts:218-229 | one `Document Import` row per transaction with amount above 0, in order; there are rows exactly when some amount is positive |
| FinancialRecords.BalanceFor | supabase/functions/analyze-document/documentProcessor.ts:232-241 | a balance row exactly when the net is non-zero: an asset for a positive net, otherwise a liability, of amount the net's magnitude |
| FinancialRecords.UpdateFinancialRecords | supabase/functions/analyze-document/documentProcessor.ts:198-241 | write-offs are inserted exactly when there are any, revenue rows exactly when some transaction is positive, and the balance row follows the net of all transactions |
| FinancialRecords.SumSplits | supabase/functions/analyze-document/documentProcessor.ts:218-232 | splitting the transactions by a condition and its negation splits their total |
| FinancialRecords.CsvWriteOffTotal | supabase/functions/analyze-document/documentProcessor.ts:92-98 | the CSV write-offs total the magnitude of the negative amounts |
| FinancialRecords.CsvNetIsRevenueLessWriteOffs | supabase/functions/analyze-document/documentProcessor.ts:218-232 | for a CSV document, the net that decides the balance row is the revenue inserted less the write-offs inserted |
| FinancialRecords.CsvWriteOffsAndRevenueDisjoint | supabase/functions/analyze-document/documentProcessor.ts:218 | no CSV transaction written off is among those stored as revenue, so the two together are at most all transactions |
| AutomatedAudit.MakeSummary | supabase/functions/automated-audit/index.ts:62-67 | risk is `High` exactly when the score is strictly above 0.5; control is `Effective` exactly when effectiveness is strictly above 0.7; the anomaly count is copied |
| AutomatedAudit.Recommendations | supabase/functions/automated-audit/index.ts:69-73 | at most three entries, in the fixed order risk, control, anomaly; each is present exactly when its own condition holds |
| AutomatedAudit.RecommendationsDistinct | supabase/functions/automated-audit/index.ts:69-73 | the recommendations are pairwise distinct |
| AutomatedAudit.SevenTenthsGap | supabase/functions/automated-audit/index.ts:64-71 | at effectiveness exactly 0.7 the status is `Needs Improvement`, yet the control recommendation is missing |
| AutomatedAudit.ControlRecommendationMatchesStatus | supabase/functions/automated-audit/index.ts:64-71 | away from 0.7, the control recommendation appears exactly with the `Needs Improvement` status |
| AutomatedAudit.RiskRecommendationMatchesSummary | supabase/functions/automated-audit/index.ts:63-70 | the risk recommendation appears exactly with the `High` overall risk |
| AutomatedAudit.Completed | supabase/functions/automated-audit/index.ts:76-89 | the updated row has status `completed` and the three scores in their columns, and an analysis whose `completed_at` is the second clock read, whose summary is the one built from the three scores, the anomaly count and the first clock read, and whose recommendations are those for the scores |
| AutomatedAudit.AutomatedAuditRun | supabase/functions/automated-audit/index.ts:20-125 | a malformed body, a fetch error, a missing audit, a throwing scorer or a failed update gives a 400 response with that error's message and leaves the table unchanged; success happens exactly when the body parsed, the audit was found, the scorers returned and the update succeeded; a success echoes the three scores with the summary built from them and the recommendations for them, and replaces only the requested row by its completed form |
| AutomatedAudit.RerunIsIdempotent | supabase/functions/automated-audit/index.ts:76-89 | running the audit again with the same scores and clock leaves the table as the first run left it |
| AuditDetail.IsValidUuid | src/pages/AuditDetail.tsx:18-21 | false for a missing or empty id; otherwise true exactly when the text is 8-4-4-4-12 hexadecimal with version `4` and a variant in `[89ab]`, in either case |
| AuditDetail.ValidIffVersion4Text | src/pages/AuditDetail.tsx:19-20 | an id is accepted exactly when its lower-cased text is the rendering of some 128-bit value with version 4 and variant `10` (RFC 9562, sections 4.1, 4.2 and 5.4) |
| AuditDetail.RenderParsed | src/pages/AuditDetail.tsx:19 | the octets an accepted id spells render back to the id in lower case |
| AuditDetail.VersionFourTextMatches | src/pages/AuditDetail.tsx:19 | any text whose lower case renders a version-4 value is accepted by the pattern |
| AuditDetail.ValidityIgnoresCase | src/pages/AuditDetail.tsx:19 | upper- and lower-case spellings of an id are accepted alike |
| AuditDetail.NilUuidRejected | src/pages/AuditDetail.tsx:19 | the nil UUID is rejected |
| AuditDetail.OtherVersionsRejected | src/pages/AuditDetail.tsx:19 | any 36-character id whose version character is not `4` is rejected |
| AuditDetail.AuditQuery | src/pages/AuditDetail.tsx:23-43 | no id means no query; an invalid id fails with `Invalid audit ID format`; a valid id yields the fetched row or the fetch error |
| AuditDetail.InvalidIdNeverFetches | src/pages/AuditDetail.tsx:26-28 | for an invalid id the database answer is never consulted |
| AuditDetail.UpdateAuditStatus | src/pages/AuditDetail.tsx:55-83 | an invalid id or a failed update leaves every status as it was and shows an error; success sets only the requested row's status |
| AuditDetail.StatusExplanation | src/pages/AuditDetail.tsx:85-96 | the text is `Status unknown` exactly when the status is not one of the three known ones |
| AuditDetail.RiskLevelExplanation | src/pages/AuditDetail.tsx:98-109 | the text is `Risk level not assessed` exactly when the level is not one of the three known ones |
| AuditDetail.ExplanationsDistinguishKeys | src/pages/AuditDetail.tsx:85-109 | different known statuses, and different known risk levels, get different explanations |
| AuditDetail.FlaggedItems | src/pages/AuditDetail.tsx:113 | only items with status exactly `flagged`, every such item of the audit, as many as the badge counts; none when the audit or its items are missing |
| FraudDetection.MapAlert | src/components/FraudDetection.tsx:34-42 | a missing risk score becomes 0 and a missing analysis `''`; a present analysis is formatted; id and date are copied |
| FraudDetection.MapAlerts | src/components/FraudDetection.tsx:34 | no data gives no alerts; otherwise one alert per row, in order |
| FraudDetection.Groups | src/components/FraudDetection.tsx:50-55 | the groups are the distinct non-blank lines (compared untrimmed), each with its number of occurrences, in order of first occurrence |
| FraudDetection.AddLineKeepsOrder | src/components/FraudDetection.tsx:51-55 | one `forEach` step keeps the groups exact and in first-occurrence order for the lines seen so far |
| FraudDetection.AddLineKeepsGroupsOf | src/components/FraudDetection.tsx:51-55 | one `forEach` step keeps the groups exact for the lines seen so far; the step is `AddLine`: a non-blank line bumps its group or opens one at the end, a blank line changes nothing |
| FraudDetection.FormatAnalysis | src/components/FraudDetection.tsx:46-62 | an empty analysis formats to `''` |
| FraudDetection.FormatAnalysisLines | src/components/FraudDetection.tsx:57-61 | splitting the output on newlines gives back the formatted groups; input with no non-blank line gives `''` |
| FraudDetection.EachDistinctLineOnce | src/components/FraudDetection.tsx:51-61 | each non-blank input line has a group whose output line is the line itself, with ` (n occurrences)` added exactly when it occurred n > 1 times |
| FraudDetection.FormattedLineShape | src/components/FraudDetection.tsx:60 | a formatted line is non-blank and contains no newline; `FormatGroup` writes the line bare for one occurrence and with ` (n occurrences)` otherwise |
| FraudDetection.GroupsOfDistinct | src/components/FraudDetection.tsx:50-55 | distinct non-blank lines form one group each, counted once, in order |
| FraudDetection.FormatSingletons | src/components/FraudDetection.tsx:60 | a group of one is written back as its bare line |
| FraudDetection.PairSuffix | src/components/FraudDetection.tsx:60 | a line seen twice is written back with the suffix ` (2 occurrences)` |
| FraudDetection.GroupsOfTwoThenOne | src/components/FraudDetection.tsx:51-56 | a non-blank line seen twice and then a different non-blank line form two groups, in first-occurrence order, counted 2 and 1 |
| FraudDetection.FormatIdempotent | src/components/FraudDetection.tsx:46-62 | formatting an already formatted analysis returns it unchanged when its lines are pairwise distinct |
| FraudDetection.FormatNotIdempotentInGeneral | src/components/FraudDetection.tsx:46-62 | without that condition formatting is not idempotent: `a`, `a`, `a (2 occurrences)` formats to two equal lines, which format again differently |
| WriteOffs.CodeText | src/pages/WriteOffs.tsx:53 | a missing tax code is written as `undefined` |
| WriteOffs.ExportLineIsJoin | src/pages/WriteOffs.tsx:53 | each export line is the four fields joined with commas, unquoted |
| WriteOffs.ExportLines | src/pages/WriteOffs.tsx:52-54 | one line per write-off, in list order |
| WriteOffs.ExportCsv | src/pages/WriteOffs.tsx:50-56 | the text starts with the header and a newline; an empty list exports just that; an unloaded list adds the literal `undefined` |
| WriteOffs.ExportLineRoundTrip | src/pages/WriteOffs.tsx:53 | a comma split of a line whose fields have no comma or newline gives back its four fields |
| WriteOffs.CommaInDescriptionAddsColumns | src/pages/WriteOffs.tsx:53 | a comma in a description yields more than four columns |
| WriteOffs.ExportRoundTrip | src/pages/WriteOffs.tsx:52-56 | for plain records, the exported text splits into the header line followed by one line per write-off, in order, each splitting back into that write-off's fields |
| WriteOffs.TotalDeductions | src/pages/WriteOffs.tsx:122 | nothing while the list is unloaded; a number exactly when every amount parses, and then it is the sum of the parsed amounts (0 for an empty list); NaN otherwise |
| WriteOffs.TotalOfNonNegativeAmounts | src/pages/WriteOffs.tsx:122 | non-negative amounts give a non-negative total |
| AuditItems.FraudInsights | src/components/audit/AuditItemsSection.tsx:26-46 | at most two insights; a high one exactly when the item is flagged; a medium one exactly when the amount is strictly above 10000; the high one comes first; each carries the item's amount |
| AuditItems.BoundaryAmountHasNoInsight | src/components/audit/AuditItemsSection.tsx:37 | an unflagged item of exactly 10000 has no insight |
| AuditItems.FlaggedCount | src/components/audit/AuditItemsSection.tsx:63 | the badge count is 0 exactly when no item's status is `flagged` |
| AuditItems.FlaggedCountIsHighInsightCount | src/components/audit/AuditItemsSection.tsx:29-63 | the badge count equals the number of high-severity insights over all items |
| BalanceSheet.SubcategoryColor | src/components/BalanceSheetSection.tsx:29-43 | the slate default exactly when the lower-cased category is not one of the ten known keys; otherwise one of the table's colours |
| BalanceSheet.ColorIgnoresCase | src/components/BalanceSheetSection.tsx:42 | the colour does not depend on letter case |
| BalanceSheet.ColorsDistinguishCategories | src/components/BalanceSheetSection.tsx:30-42 | two categories share a colour exactly when they lower-case to the same known key, or both are unknown |
| BalanceSheet.SubKey | src/components/BalanceSheetSection.tsx:48 | a missing or empty subcategory groups under `Other`; otherwise under itself |
| BalanceSheet.GroupItems | src/components/BalanceSheetSection.tsx:47-54 | no more groups than items, and none exactly when there are no items |
| BalanceSheet.GroupItemsGroupsOf | src/components/BalanceSheetSection.tsx:47-54 | the groups have distinct keys; each holds exactly the items of its key in input order; none is empty; every item's key has a group, so each item lands in exactly one group |
| BalanceSheet.AddItemContents | src/components/BalanceSheetSection.tsx:48-52 | adding an item appends it to exactly the group of its key (`AddItem`, one step of the `reduce`) |
| BalanceSheet.Total | src/components/BalanceSheetSection.tsx:56 | the section total of an empty section is 0, and it is non-negative when every amount is |
| BalanceSheet.TotalSnoc | src/components/BalanceSheetSection.tsx:56 | the `reduce` adds each item's amount once more to the running total, left to right |
| BalanceSheet.GroupTotalsAddUpToTotal | src/components/BalanceSheetSection.tsx:56-74 | the group badge sums add up to the section total |
| BalanceSheet.EmptySection | src/components/BalanceSheetSection.tsx:47-56 | an empty section has no groups and total 0 |
| TransactionList.DisplayWriteOffs | src/components/TransactionList.tsx:52 | collapsed shows the first min(n, 3) rows; expanded shows all |
| TransactionList.CollapsedIsPrefixOfExpanded | src/components/TransactionList.tsx:52 | the collapsed list is the expanded one cut to its first three rows |
| TransactionList.DisplayName | src/components/TransactionList.tsx:104 | the name is the longest comma-free prefix of the description: the whole description exactly when it has no comma, otherwise the text before the first comma |
| TransactionList.StatusLabel | src/components/TransactionList.tsx:122 | a missing or empty status shows as `Pending`, any other as itself |
| TransactionList.Related | src/components/TransactionList.tsx:73 | the related rows are exactly the rows whose description equals the given one, each as often as it occurs in the list |
| TransactionList.CalculateTotalAmount | src/components/TransactionList.tsx:63-76 | NaN only when some related row's amount does not parse |
| TransactionList.FewCommasSumsRelatedRows | src/components/TransactionList.tsx:65-75 | with fewer than four comma parts the total is always the related rows' sum |
| TransactionList.NonNumericPartSumsRelatedRows | src/components/TransactionList.tsx:66-75 | with a part from the third on that is not a number, the total is the related rows' sum, NaN exactly when one of their amounts is |
| TransactionList.FourColumnDescriptionSumsItsNumbers | src/components/TransactionList.tsx:65-70 | a four-part description whose last two parts are numbers totals to their sum |
| TransactionList.NumericDescriptionIgnoresRows | src/components/TransactionList.tsx:65-70 | when the parts from the third on all parse, the rows do not affect the total |
| TransactionList.UniqueRowShowsItsAmount | src/components/TransactionList.tsx:73-75 | a row whose description is unique and has at most two commas shows its own amount |
| AssuranceLearning.ComplianceRate | src/components/assurance/AssuranceLearning.tsx:51 | with engagements, the rate times the total is the compliant count times 100; it lies in [0, 100], is 0 exactly when nothing is compliant, and 100 when every engagement is |
| AssuranceLearning.ComputeAnalytics | src/components/assurance/AssuranceLearning.tsx:42-51 | the total is the number of engagements; completed, in-progress, high-risk and compliant are the counts of engagements meeting each condition; the compliance rate is `ComplianceRate` of the compliant count and the total; an unloaded list gives all zeros |
| AssuranceLearning.MissingFindingsAreNotCompliant | src/components/assurance/AssuranceLearning.tsx:48-50 | an engagement with no findings recorded raises the total but not the compliant count |
| AssuranceLearning.FindingsDecideCompliance | src/components/assurance/AssuranceLearning.tsx:48-50 | an engagement with an empty findings list is compliant; one with any finding is not |
| AssuranceLearning.CountersUseExactValues | src/components/assurance/AssuranceLearning.tsx:43-47 | each counter rises by one exactly for status `completed`, status `in_progress`, or a present assessment with level `high` |
| AssuranceLearning.CompletionRate | src/components/assurance/AssuranceLearning.tsx:76-78 | the rate is NaN exactly when there are no engagements, which the expression does not guard; otherwise it is completed times 100 over total, so it lies in [0, 100] |
| AssuranceLearning.EmptyListRates | src/components/assurance/AssuranceLearning.tsx:51-78 | an empty or unloaded list shows a NaN completion rate beside a 0 compliance rate |
| AssuranceLearning.RecentActivity | src/components/assurance/AssuranceLearning.tsx:139 | at most five engagements, the first ones in fetched order; none when unloaded |
| OverviewInsights.ExpenseAt | src/components/overview/OverviewInsights.tsx:33 | the expense at a position is its amount, or 0 when the row or amount is missing |
| OverviewInsights.Combine | src/components/overview/OverviewInsights.tsx:30-34 | no revenue gives no points; otherwise one point per revenue row, in order, with its date and amount and the expense at the same position |
| OverviewInsights.ExtraExpensesDropped | src/components/overview/OverviewInsights.tsx:30-34 | expense rows past the last revenue row never reach the chart |
| OverviewInsights.MissingExpenseIsZero | src/components/overview/OverviewInsights.tsx:33 | a missing expense row, a null amount and a zero amount all chart as 0 |
| OverviewInsights.GrowthRate | src/components/overview/OverviewInsights.tsx:43 | 0 whenever revenue is not positive; otherwise the net income as a percentage of revenue |
| OverviewInsights.Summarize | src/components/overview/OverviewInsights.tsx:40-43 | the totals are the sums over the chart points; net income is revenue less expenses; the growth rate is 0 without positive revenue and otherwise net income times 100 over revenue; unloaded data gives all zeros |
| OverviewInsights.GrowthRateAtMostHundred | src/components/overview/OverviewInsights.tsx:42-43 | with positive revenue and non-negative expenses the growth rate is at most 100, and exactly 100 with no expenses |
| OverviewInsights.NoRevenueNoFigures | src/components/overview/OverviewInsights.tsx:34-43 | without revenue rows every figure is 0 |
| OverviewInsights.ExpenseTotalCountsPairedRows | src/components/overview/OverviewInsights.tsx:30-41 | the expense total counts exactly the expense rows paired with a revenue row |
| FinancialAi.AdviceCategory | supabase/functions/financial-ai/index.ts:68-71 | always one of four categories; `Tax` exactly when the advice contains `TAX`; then `Investment`, then `Operations`, each only when no earlier marker occurs; otherwise `Planning` |
| FinancialAi.LowerCaseAdviceIsPlanning | supabase/functions/financial-ai/index.ts:68-70 | matching is case-sensitive: advice without upper-case letters is always `Planning` |
| FinancialAi.LeadingMarkerDecides | supabase/functions/financial-ai/index.ts:68-69 | advice starting with `TAX` is `Tax`; advice starting with `INVESTMENT` and free of `TAX` is `Investment` |
| FinancialAi.FinancialAdvice | supabase/functions/financial-ai/index.ts:30-94 | a missing or empty API key fails with 500 before anything is stored; otherwise the stored row and the response carry the same category, with confidence 0.9 and the fetched context |
| DocumentUpload.FileExtension | src/components/DocumentUpload.tsx:66 | the extension is the dot-free suffix after the last dot, or the whole name when there is no dot |
| DocumentUpload.DocumentType | src/components/DocumentUpload.tsx:96 | an empty extension gives `unknown`; any other is kept |
| DocumentUpload.TrailingDotIsUnknown | src/components/DocumentUpload.tsx:66-96 | a name ending in a dot has type `unknown` |
| DocumentUpload.ExtensionAfterLastDot | src/components/DocumentUpload.tsx:66 | `stem.ext` has extension `ext` whenever `ext` has no dot, whatever dots the stem holds |
| DocumentUpload.DocumentRowFor | src/components/DocumentUpload.tsx:66-83 | the inserted row is `uploaded`, keeps the file name, and is stored under the random name plus the extension |
| DocumentUpload.NewDocument | src/components/DocumentUpload.tsx:90-97 | a new document is `Uploaded` with confidence 0 and typed by its extension |
| DocumentUpload.ShownConfidence | src/components/DocumentUpload.tsx:38 | a missing or zero score shows as 95; any other as itself |
| DocumentUpload.MarkAnalyzed | src/components/DocumentUpload.tsx:33-41 | exactly the documents with the id become `Analyzed` with the shown confidence; all others are unchanged |
| DocumentUpload.MarkOnlyFirst | src/components/DocumentUpload.tsx:33-41 | when only the head of a list has the id, marking it changes the head alone: the head becomes `Analyzed` with the shown confidence and the rest stays as it was |
| DocumentUpload.AnalyzeDocument | src/components/DocumentUpload.tsx:18-52 | processing always ends; on error the list is unchanged |
| DocumentUpload.AnalyzeTwiceIsAnalyzeOnce | src/components/DocumentUpload.tsx:33-41 | analysing the same document twice with the same answer changes nothing the second time |
| DocumentUpload.ZeroScoreShowsAsNinetyFive | src/components/DocumentUpload.tsx:38 | a zero score from the analysis shows as 95 |
| DocumentUpload.HandleFileUpload | src/components/DocumentUpload.tsx:54-121 | uploading always ends; no file or a storage error changes nothing; a failed insert leaves the list as it was; a successful one prepends the new document and runs the analysis |
| DocumentUpload.UploadOnlyTouchesNewDocument | src/components/DocumentUpload.tsx:90-107 | a successful upload leaves the rest of the list untouched; the new document ends `Analyzed` when the analysis succeeds and `Uploaded` when it fails |

## Left out

- Supabase I/O, storage, HTTP, CORS and the OPTIONS preflight are left out. Environment reads and `req.json()` are too. Their outcomes are inputs: rows, maps, error options and request-body variants.
- `supabase/functions/analyze-document/index.ts` is not part of this model. It is I/O plus an external language-model call and never calls `processDocument`.
- The language-model wrappers are left out: `tax-chat`, `generate-insights`, `test-openai`, and the completion call in `financial-ai`. The advice text and the fetched context are inputs.
- FinancialAi.FinancialAdvice: a completion response without `choices` makes `supabase/functions/financial-ai/index.ts:64-65` throw, and the `catch` at lines 88-93 answers 500 with the error's message. The response is not modelled, so this 500 is not either; the model only covers the missing-key 500 and the answered case.
- These collaborators are not shown in the source, so their results are inputs:
  - `processTransactions` (its transactions and findings);
  - `processEquity` and `processIncomeStatement`, which are only awaited;
  - the risk, control and anomaly scorers of the automated audit (their scores, or the message of the one that threw);
  - `categorizeTransaction`, `calculateTaxes`.
- DocumentProcessor.TextAnalysis: `processTransactions`, `processEquity` and `processIncomeStatement` are awaited outside any `try` (`supabase/functions/analyze-document/documentProcessor.ts:114-122`), so a rejection from one of them propagates out of `processDocument`. Only their results are modelled, not that rejection.
- DocumentProcessor.ProcessDocument: the CSV `catch` block is modelled by a `CsvFault` parameter. It holds the row where an exception is raised, plus its message. Nothing in the modelled body throws on a string, so no particular cause is modelled.
- DocumentProcessor.CsvWriteOffs: the CSV tax-code lookup is not awaited, so its result is only recorded as never inspected. Its database traffic is not modelled.
- Floating point is not modelled. Amounts are exact reals. `toLocaleString`, `toFixed`, `Intl.NumberFormat` and date formatting are left out; finding texts take the amount renderer as a parameter.
- `parseFloat` and `Number` are an uninterpreted parser. Only the free-text amount token is interpreted concretely, as a decimal numeral.
- BalanceSheet.Total: item amounts are taken as numbers. `Number(item.amount)` on a non-numeric value is not modelled.
- Timestamps (`new Date()`, `toISOString`) and `Math.random()` are string parameters. Each clock read is its own parameter: the automated audit's summary `timestamp` (index.ts:66) and `completed_at` (index.ts:80) are separate reads and need not be equal. The CSV path's fallback date is one parameter for all rows, though the source reads the clock once per row.
- Lower-casing covers ASCII letters only; other Unicode case mappings are left out.
- JavaScript object keys are modelled as first-occurrence order. The engine lists integer-like keys first, and that ordering is left out. It can reorder fraud-analysis lines and balance-sheet groups, and a header cell named like an integer in a CSV.
- Prototype keys (such as `constructor`) in the colour table and in the grouping objects are left out.
- Csv.ParseCsv: a header cell that trims to `__proto__` is kept as an ordinary key. In JavaScript, `obj['__proto__'] = …` with a string value sets nothing, so the source's row object lacks that key.
- Concurrency is left out: last-writer races between audit runs, and interleavings of React state updates. Toasts, loading states, routing and rendering are left out too.
- FraudDetection.FormatIdempotent is weaker than "formatting is idempotent". It requires the formatted lines to be pairwise distinct, because without that the property is false. `FraudDetection.FormatNotIdempotentInGeneral` gives the counterexample.
- AmountToken.MatchAmount states when a line yields an amount and its sign. The exact value is pinned down by `AmountToken.CleanedTokenShape` for every match and by `AmountToken.UnseparatedRunTruncated` and `AmountToken.DollarAmountWithCents` for those two shapes, not for every line.
- TransactionList.CalculateTotalAmount states its NaN case in the contract. Its branches are stated by the lemmas that follow it: the numeric branch by `FourColumnDescriptionSumsItsNumbers` and `NumericDescriptionIgnoresRows`, the fallback by `FewCommasSumsRelatedRows` (fewer than four parts), `NonNumericPartSumsRelatedRows` (a part from the third on is not a number) and `UniqueRowShowsItsAmount`.
- The remaining screens have no logic to model:
  - pure rendering and routing: `App.tsx`, `Auth.tsx`, `IncomeStatement.tsx`, `QueryInterface.tsx`, the audit tab components, `DashboardMetrics.tsx`, `FinancialMetrics.tsx`, `AssuranceMetricsCards.tsx`, `DocumentList.tsx`;
  - the generated schema types, which have no behaviour.

/**
 `processDocument` and `calculateEquityFromTransactions` of the document processor
 (supabase/functions/analyze-document/documentProcessor.ts).

 A `.csv` document is parsed into rows; every row whose amount parses becomes a
 transaction, and every negative one also a write-off and a finding. Any other
 document is scanned line by line for an amount and an expense keyword; those
 lines become write-offs categorised through the tax-code lookup.
 */
module DocumentProcessor {
  import opened Common
  import opened Strings
  import opened Csv
  import opened AmountToken
  import opened TaxCodes

  datatype TxKind = Expense | Income

  /** A transaction object `{amount, description, date, type}`. */
  datatype Transaction = Transaction(amount: Money, description: string, date: string, kind: TxKind)

  /** What a write-off's `taxCodeId` holds. */
  datatype TaxCodeRef =
    | Unawaited             // the promise of a lookup that is started but never awaited or inspected
    | Resolved(id: Option<string>)

  datatype WriteOff = WriteOff(amount: Money, description: string, taxCode: TaxCodeRef, category: string)

  /** A finding line; `Render` gives its text. */
  datatype Finding =
    | WriteOffDetected(amount: Money, detail: string)
    | CsvError(message: string)
    | Extracted(text: string)

  datatype RiskLevel = Low | High

  datatype DocumentAnalysis = DocumentAnalysis(
    transactions: seq<Transaction>,
    findings: seq<Finding>,
    riskLevel: RiskLevel,
    recommendations: seq<string>,
    writeOffs: seq<WriteOff>)

  /** The transactions, findings and write-offs a processing loop accumulates. */
  datatype Ledger = Ledger(transactions: seq<Transaction>, findings: seq<Finding>, writeOffs: seq<WriteOff>)

  const EmptyLedger := Ledger([], [], [])

  const FixedRecommendations: seq<string> := [
    "Review generated income statement for accuracy",
    "Verify revenue and expense classifications",
    "Consider any missing transactions"
  ]

  const ExpenseKeywords: seq<string> := ["expense", "payment", "purchase", "cost", "fee", "charge"]

  /** A thrown exception inside the CSV `try` block, raised while row `atRow` is about to be processed. */
  datatype CsvFault = CsvFault(atRow: nat, message: string)

  /** The output of the `processTransactions` collaborator for a non-CSV document. */
  datatype Extraction = Extraction(transactions: seq<Transaction>, findings: seq<string>)

  /** The finding text, given the locale rendering of an amount. */
  function Render(f: Finding, formatAmount: Money -> string): string
  {
    match f
    case WriteOffDetected(amount, detail) => "Potential write-off detected: $" + formatAmount(amount) + " - " + detail
    case CsvError(message) => "Error processing CSV file: " + message
    case Extracted(text) => text
  }

  /** `document.original_filename.toLowerCase().endsWith('.csv')`. */
  predicate IsCsvName(filename: string)
  {
    EndsWith(Lower(filename), ".csv")
  }

  /** `row[key] || row[alt] || default`: the first non-empty of two fields, else the default. */
  function Field(row: Record, key: string, alt: string, default: string): (v: string)
    ensures key in row && row[key] != "" ==> v == row[key]
    ensures (key !in row || row[key] == "") && alt in row && row[alt] != "" ==> v == row[alt]
    ensures (key !in row || row[key] == "") && (alt !in row || row[alt] == "") ==> v == default
  {
    if key in row && row[key] != "" then row[key]
    else if alt in row && row[alt] != "" then row[alt]
    else default
  }

  /**
   The transaction of one CSV row, or none when its amount is NaN. The amount is
   read from `amount`, then `Amount`, then `'0'`; the row is an expense exactly when
   the amount is negative.
   */
  function CsvTransaction(row: Record, parse: NumberParser, now: string): (r: Option<Transaction>)
    ensures r.Some? <==> parse(Field(row, "amount", "Amount", "0")).Some?
    ensures r.Some? ==> r.value.amount == parse(Field(row, "amount", "Amount", "0")).value
    ensures r.Some? ==> (r.value.kind == Expense <==> r.value.amount < 0.0)
    ensures r.Some? ==> r.value.description == Field(row, "description", "Description", "")
    ensures r.Some? ==> r.value.date == Field(row, "date", "Date", now)
  {
    match parse(Field(row, "amount", "Amount", "0"))
    case None => None
    case Some(amount) =>
      Some(Transaction(amount, Field(row, "description", "Description", ""), Field(row, "date", "Date", now),
                       if amount < 0.0 then Expense else Income))
  }

  /** The write-off a negative CSV transaction produces. */
  function CsvWriteOff(t: Transaction): WriteOff
  {
    WriteOff(-t.amount, t.description, Unawaited, "Uncategorized")
  }

  /** The finding of a CSV write-off names its description. */
  function CsvFinding(w: WriteOff): Finding
  {
    WriteOffDetected(w.amount, w.description)
  }

  /** The body of `parsedData.forEach`: one row's effect on the accumulated ledger. */
  function CsvStep(acc: Ledger, row: Record, parse: NumberParser, now: string): Ledger
  {
    match CsvTransaction(row, parse, now)
    case None => acc
    case Some(t) =>
      if t.amount < 0.0 then
        Ledger(acc.transactions + [t], acc.findings + [CsvFinding(CsvWriteOff(t))], acc.writeOffs + [CsvWriteOff(t)])
      else
        acc.(transactions := acc.transactions + [t])
  }

  /**
   `parsedData.forEach(...)` over the given rows, in order. Pushing to three lists
   row by row, it computes exactly the transactions of the parsable rows, a
   write-off for each negative one, and a finding for each write-off.
   */
  function CsvLoop(rows: seq<Record>, parse: NumberParser, now: string): (l: Ledger)
    ensures l.transactions == CsvTransactions(rows, parse, now)
    ensures l.writeOffs == CsvWriteOffs(l.transactions)
    ensures l.findings == CsvFindings(l.writeOffs)
    decreases |rows|
  {
    if |rows| == 0 then
      assert Filter([], IsNegative) == [];
      EmptyLedger
    else
      var init := rows[..|rows| - 1];
      var acc := CsvLoop(init, parse, now);
      CsvStepSeparates(acc, acc.transactions, rows[|rows| - 1], parse, now);
      CsvStep(acc, rows[|rows| - 1], parse, now)
  }

  /** The rows whose amount parses, in row order. */
  function ParsableRows(rows: seq<Record>, parse: NumberParser, now: string): seq<Record>
  {
    Filter(rows, (row: Record) => CsvTransaction(row, parse, now).Some?)
  }

  /** One more row is kept exactly when its amount parses. */
  lemma ParsableRowsSnoc(rows: seq<Record>, row: Record, parse: NumberParser, now: string)
    ensures ParsableRows(rows + [row], parse, now)
            == ParsableRows(rows, parse, now) + (if CsvTransaction(row, parse, now).Some? then [row] else [])
  {
    FilterAppend(rows, [row], (r: Record) => CsvTransaction(r, parse, now).Some?);
  }

  /**
   The transactions of the rows: the transaction of each row whose amount parses,
   in row order; only the rows whose amount is NaN are skipped.
   */
  function CsvTransactions(rows: seq<Record>, parse: NumberParser, now: string): (ts: seq<Transaction>)
    ensures |ts| == |ParsableRows(rows, parse, now)| <= |rows|
    ensures forall i | 0 <= i < |ts| :: ts[i] == CsvTransaction(ParsableRows(rows, parse, now)[i], parse, now).value
    ensures forall i | 0 <= i < |ts| :: ts[i].kind == Expense <==> ts[i].amount < 0.0
  {
    if |rows| == 0 then []
    else
      var init := rows[..|rows| - 1];
      var last := rows[|rows| - 1];
      var prior := CsvTransactions(init, parse, now);
      assert rows == init + [last];
      ParsableRowsSnoc(init, last, parse, now);
      match CsvTransaction(last, parse, now)
      case None => prior
      case Some(t) => prior + [t]
  }

  predicate IsNegative(t: Transaction)
  {
    t.amount < 0.0
  }

  /** The write-offs of a list of CSV transactions: one per negative transaction, of its magnitude. */
  function CsvWriteOffs(ts: seq<Transaction>): (ws: seq<WriteOff>)
    ensures |ws| == Count(ts, IsNegative)
    ensures forall i | 0 <= i < |ws| :: ws[i].amount > 0.0 && ws[i].category == "Uncategorized" && ws[i].taxCode == Unawaited
    ensures forall i | 0 <= i < |ws| :: ws[i].amount == -Filter(ts, IsNegative)[i].amount
    ensures forall i | 0 <= i < |ws| :: ws[i].description == Filter(ts, IsNegative)[i].description
  {
    var neg := Filter(ts, IsNegative);
    seq(|neg|, i requires 0 <= i < |neg| => CsvWriteOff(neg[i]))
  }

  /** The CSV loop keeps exactly one finding per write-off, naming its description. */
  function CsvFindings(ws: seq<WriteOff>): (fs: seq<Finding>)
    ensures |fs| == |ws|
    ensures forall i | 0 <= i < |fs| :: fs[i] == WriteOffDetected(ws[i].amount, ws[i].description)
  {
    seq(|ws|, i requires 0 <= i < |ws| => CsvFinding(ws[i]))
  }

  lemma FilterSingleton(t: Transaction)
    ensures Filter([t], IsNegative) == if t.amount < 0.0 then [t] else []
  {
  }

  /** Appending a transaction adds its write-off exactly when it is negative. */
  lemma CsvWriteOffsSnoc(ts: seq<Transaction>, t: Transaction)
    ensures CsvWriteOffs(ts + [t]) == CsvWriteOffs(ts) + (if t.amount < 0.0 then [CsvWriteOff(t)] else [])
  {
    FilterAppend(ts, [t], IsNegative);
    FilterSingleton(t);
    var a := CsvWriteOffs(ts + [t]);
    var b := CsvWriteOffs(ts) + (if t.amount < 0.0 then [CsvWriteOff(t)] else []);
    assert |a| == |b|;
    forall i | 0 <= i < |a| ensures a[i] == b[i] {
      if i < |CsvWriteOffs(ts)| {
        assert Filter(ts + [t], IsNegative)[i] == Filter(ts, IsNegative)[i];
      }
    }
  }

  lemma CsvFindingsSnoc(ws: seq<WriteOff>, extra: seq<WriteOff>)
    ensures CsvFindings(ws + extra) == CsvFindings(ws) + CsvFindings(extra)
  {
    var a := CsvFindings(ws + extra);
    var b := CsvFindings(ws) + CsvFindings(extra);
    assert |a| == |b|;
    forall i | 0 <= i < |a| ensures a[i] == b[i] {
      if i >= |ws| {
        assert (ws + extra)[i] == extra[i - |ws|];
      }
    }
  }

  /** One more row: the loop's step agrees with the reference lists. */
  lemma CsvStepSeparates(acc: Ledger, prior: seq<Transaction>, row: Record, parse: NumberParser, now: string)
    requires acc.transactions == prior
    requires acc.writeOffs == CsvWriteOffs(prior)
    requires acc.findings == CsvFindings(CsvWriteOffs(prior))
    ensures var next := CsvStep(acc, row, parse, now);
            var ts := match CsvTransaction(row, parse, now) case None => prior case Some(t) => prior + [t];
            next.transactions == ts && next.writeOffs == CsvWriteOffs(ts) && next.findings == CsvFindings(CsvWriteOffs(ts))
  {
    match CsvTransaction(row, parse, now)
    case None =>
    case Some(t) =>
      CsvWriteOffsSnoc(prior, t);
      var extra := if t.amount < 0.0 then [CsvWriteOff(t)] else [];
      CsvFindingsSnoc(CsvWriteOffs(prior), extra);
      assert CsvFindings(extra) == if t.amount < 0.0 then [CsvFinding(CsvWriteOff(t))] else [];
  }

  /** Every write-off of a CSV document comes from a negative row; none from a zero or positive one. */
  lemma CsvWriteOffsAreTheNegativeRows(rows: seq<Record>, parse: NumberParser, now: string)
    ensures |CsvLoop(rows, parse, now).writeOffs| == Count(CsvTransactions(rows, parse, now), IsNegative)
    ensures |CsvLoop(rows, parse, now).findings| == |CsvLoop(rows, parse, now).writeOffs|
    ensures forall w | w in CsvLoop(rows, parse, now).writeOffs :: w.amount > 0.0 && w.category == "Uncategorized"
  {
  }

  /**
   A row that has neither an `amount` nor an `Amount` value, such as the one the
   empty line after a trailing newline yields, is a 0-amount income transaction.
   */
  lemma MissingAmountIsZeroIncome(row: Record, parse: NumberParser, now: string)
    requires parse("0") == Some(0.0)
    requires "amount" !in row || row["amount"] == ""
    requires "Amount" !in row || row["Amount"] == ""
    ensures CsvTransaction(row, parse, now).Some?
    ensures CsvTransaction(row, parse, now).value.amount == 0.0
    ensures CsvTransaction(row, parse, now).value.kind == Income
  {
  }

  /** Every field of the row is the empty string. */
  predicate AllEmpty(r: Record)
  {
    forall key | key in r :: r[key] == ""
  }

  /** The object built from an empty line has an empty value under every header. */
  lemma BlankLineRowIsEmpty(headers: seq<string>)
    ensures AllEmpty(RowObject(headers, [""]))
  {
    assert Trim("") == "";
    AssignConstant(Keys(headers), Values(headers, [""]), "");
  }

  /** A CSV text ending in a newline has a last row whose every field is empty. */
  lemma TrailingNewlineRowIsEmpty(body: string)
    ensures |ParseCsv(body + "\n")| >= 1
    ensures AllEmpty(ParseCsv(body + "\n")[|ParseCsv(body + "\n")| - 1])
  {
    var text := body + "\n";
    SplitTrailingSeparator(body, '\n');
    var lines := Lines(text);
    assert lines[|lines| - 1] == "";
    assert Cells("") == [""];
    var rows := ParseCsv(text);
    assert rows == RowObjects(Headers(text), lines[1..]);
    assert lines[1..][|rows| - 1] == "";
    assert rows[|rows| - 1] == RowObject(Headers(text), [""]);
    BlankLineRowIsEmpty(Headers(text));
  }

  /** `expenseKeywords.some(keyword => line.toLowerCase().includes(keyword))`. */
  predicate IsExpenseLine(line: string)
  {
    exists k | 0 <= k < |ExpenseKeywords| :: Contains(Lower(line), ExpenseKeywords[k])
  }

  /** `taxCodeId ? 'Categorized' : 'Uncategorized'`: an empty id counts as none. */
  predicate Truthy(id: Option<string>)
  {
    id.Some? && id.value != ""
  }

  /**
   The write-off of one free-text line: present exactly when the line holds an
   amount and an expense keyword; its description is the trimmed line and its
   category records whether the tax-code lookup found an id.
   */
  function LineWriteOff(line: string, table: seq<TaxCodeRow>): (r: Option<WriteOff>)
    ensures r.Some? <==> MatchAmount(line).Some? && IsExpenseLine(line)
    ensures r.Some? ==> r.value.amount == MatchAmount(line).value && r.value.amount >= 0.0
    ensures r.Some? ==> r.value.description == Trim(line)
    ensures r.Some? ==> r.value.taxCode == Resolved(FindMatchingTaxCode(line, table))
    ensures r.Some? ==> (r.value.category == "Categorized" <==> Truthy(FindMatchingTaxCode(line, table)))
    ensures r.Some? ==> (r.value.category == "Uncategorized" <==> !Truthy(FindMatchingTaxCode(line, table)))
  {
    match MatchAmount(line)
    case None => None
    case Some(amount) =>
      if IsExpenseLine(line) then
        var id := FindMatchingTaxCode(line, table);
        Some(WriteOff(amount, Trim(line), Resolved(id), if Truthy(id) then "Categorized" else "Uncategorized"))
      else None
  }

  /** The finding of a free-text write-off names its category label, not its description. */
  function TextFinding(w: WriteOff): Finding
  {
    WriteOffDetected(w.amount, w.category)
  }

  /**
   The `for (const line of lines)` loop of the free-text path. Pushing a write-off
   and its finding line by line, it computes exactly the write-offs of the
   qualifying lines in line order, a finding for each, and no transactions.
   */
  function TextLoop(lines: seq<string>, table: seq<TaxCodeRow>): (l: Ledger)
    ensures l.transactions == []
    ensures l.writeOffs == TextWriteOffs(lines, table)
    ensures l.findings == TextFindings(l.writeOffs)
    decreases |lines|
  {
    if |lines| == 0 then
      assert Filter(lines, IsWriteOffLine) == [];
      EmptyLedger
    else
      var init := lines[..|lines| - 1];
      var line := lines[|lines| - 1];
      assert lines == init + [line];
      var acc := TextLoop(init, table);
      TextWriteOffsSnoc(init, line, table);
      var extra := match LineWriteOff(line, table) case None => [] case Some(w) => [w];
      TextFindingsSnoc(acc.writeOffs, extra);
      assert TextFindings(extra) == match LineWriteOff(line, table) case None => [] case Some(w) => [TextFinding(w)];
      TextStep(acc, LineWriteOff(line, table))
  }

  /** One pass of the loop: a write-off, when the line gave one, is recorded with its finding. */
  function TextStep(acc: Ledger, r: Option<WriteOff>): Ledger
  {
    match r
    case None => acc
    case Some(w) => acc.(writeOffs := acc.writeOffs + [w], findings := acc.findings + [TextFinding(w)])
  }

  /** No transactions, and each write-off non-negative, resolved and paired with its finding. */
  predicate TextPaired(l: Ledger)
  {
    l.transactions == [] && |l.findings| == |l.writeOffs|
    && (forall i | 0 <= i < |l.writeOffs| :: l.findings[i] == TextFinding(l.writeOffs[i]))
    && (forall i | 0 <= i < |l.writeOffs| :: l.writeOffs[i].amount >= 0.0 && l.writeOffs[i].taxCode.Resolved?)
  }

  /** A loop pass keeps the pairing and adds at most one write-off. */
  lemma TextStepKeepsPairs(acc: Ledger, r: Option<WriteOff>)
    requires TextPaired(acc)
    requires r.Some? ==> r.value.amount >= 0.0 && r.value.taxCode.Resolved?
    ensures TextPaired(TextStep(acc, r))
    ensures |TextStep(acc, r).writeOffs| <= |acc.writeOffs| + 1
  {
    if r.Some? {
      var next := TextStep(acc, r);
      forall i | 0 <= i < |next.writeOffs| ensures next.findings[i] == TextFinding(next.writeOffs[i]) {
        if i < |acc.writeOffs| {
          assert next.findings[i] == acc.findings[i];
        }
      }
    }
  }

  /**
   The free-text loop adds no transactions, and pairs each of its write-offs with
   one finding carrying that write-off's amount and category label.
   */
  lemma {:induction false} TextLoopPairsFindings(lines: seq<string>, table: seq<TaxCodeRow>)
    ensures TextLoop(lines, table).transactions == []
    ensures |TextLoop(lines, table).findings| == |TextLoop(lines, table).writeOffs| <= |lines|
    ensures forall i | 0 <= i < |TextLoop(lines, table).writeOffs| ::
              TextLoop(lines, table).findings[i] == TextFinding(TextLoop(lines, table).writeOffs[i])
    ensures forall i | 0 <= i < |TextLoop(lines, table).writeOffs| ::
              TextLoop(lines, table).writeOffs[i].amount >= 0.0 && TextLoop(lines, table).writeOffs[i].taxCode.Resolved?
    decreases |lines|
  {
    if |lines| > 0 {
      var init := lines[..|lines| - 1];
      TextLoopPairsFindings(init, table);
      var acc := TextLoop(init, table);
      var r := LineWriteOff(lines[|lines| - 1], table);
      TextStepKeepsPairs(acc, r);
      assert TextLoop(lines, table) == TextStep(acc, r);
      assert TextPaired(TextLoop(lines, table));
    }
  }

  /** The condition of the loop body: the line holds an amount token and an expense keyword. */
  predicate IsWriteOffLine(line: string)
  {
    MatchAmount(line).Some? && IsExpenseLine(line)
  }

  /**
   The reference list of free-text write-offs: the write-off of each line that
   holds an amount and an expense keyword, in line order, and none for any other line.
   */
  function TextWriteOffs(lines: seq<string>, table: seq<TaxCodeRow>): (ws: seq<WriteOff>)
    ensures |ws| == Count(lines, IsWriteOffLine)
    ensures forall i | 0 <= i < |ws| :: Some(ws[i]) == LineWriteOff(Filter(lines, IsWriteOffLine)[i], table)
    ensures forall i | 0 <= i < |ws| :: ws[i].amount == MatchAmount(Filter(lines, IsWriteOffLine)[i]).value
    ensures forall i | 0 <= i < |ws| :: ws[i].description == Trim(Filter(lines, IsWriteOffLine)[i])
  {
    var q := Filter(lines, IsWriteOffLine);
    seq(|q|, i requires 0 <= i < |q| => LineWriteOff(q[i], table).value)
  }

  /** The findings of free-text write-offs: one per write-off, naming its category label. */
  function TextFindings(ws: seq<WriteOff>): (fs: seq<Finding>)
    ensures |fs| == |ws|
    ensures forall i | 0 <= i < |fs| :: fs[i] == WriteOffDetected(ws[i].amount, ws[i].category)
  {
    seq(|ws|, i requires 0 <= i < |ws| => TextFinding(ws[i]))
  }

  /** One more line adds its write-off exactly when it yields one. */
  lemma TextWriteOffsSnoc(lines: seq<string>, line: string, table: seq<TaxCodeRow>)
    ensures TextWriteOffs(lines + [line], table)
            == TextWriteOffs(lines, table) + (match LineWriteOff(line, table) case None => [] case Some(w) => [w])
  {
    FilterAppend(lines, [line], IsWriteOffLine);
    assert Filter([line], IsWriteOffLine) == if IsWriteOffLine(line) then [line] else [];
    var a := TextWriteOffs(lines + [line], table);
    var b := TextWriteOffs(lines, table) + (match LineWriteOff(line, table) case None => [] case Some(w) => [w]);
    assert |a| == |b|;
    forall i | 0 <= i < |a| ensures a[i] == b[i] {
      if i < |TextWriteOffs(lines, table)| {
        assert Filter(lines + [line], IsWriteOffLine)[i] == Filter(lines, IsWriteOffLine)[i];
      }
    }
  }

  lemma TextFindingsSnoc(ws: seq<WriteOff>, extra: seq<WriteOff>)
    ensures TextFindings(ws + extra) == TextFindings(ws) + TextFindings(extra)
  {
    var a := TextFindings(ws + extra);
    var b := TextFindings(ws) + TextFindings(extra);
    assert |a| == |b|;
    forall i | 0 <= i < |a| ensures a[i] == b[i] {
      if i >= |ws| {
        assert (ws + extra)[i] == extra[i - |ws|];
      }
    }
  }

  /** A line yields a write-off exactly when it holds a digit and an expense keyword. */
  lemma TextWriteOffIff(line: string, table: seq<TaxCodeRow>)
    ensures LineWriteOff(line, table).Some? <==>
              (exists i | 0 <= i < |line| :: IsDigit(line[i])) && IsExpenseLine(line)
  {
  }

  /** The rows the `forEach` handled before the exception: those before `atRow`, or all of them. */
  function RowsBeforeFault(rows: seq<Record>, fault: Option<CsvFault>): (done: seq<Record>)
    ensures |done| <= |rows| && done == rows[..|done|]
    ensures fault.None? ==> done == rows
    ensures fault.Some? && fault.value.atRow < |rows| ==> |done| == fault.value.atRow
  {
    if fault.Some? && fault.value.atRow < |rows| then rows[..fault.value.atRow] else rows
  }

  /**
   The CSV branch: the rows processed before a thrown exception (all of them when
   nothing throws) with their transactions, write-offs and findings kept, and on
   an exception one error finding after them and a high risk level.
   */
  function CsvAnalysis(text: string, parse: NumberParser, now: string, fault: Option<CsvFault>): (r: DocumentAnalysis)
    ensures r.riskLevel == High <==> fault.Some?
    ensures r.recommendations == FixedRecommendations
    ensures HasCsvError(r.findings) <==> fault.Some?
    ensures fault.None? ==>
              r.transactions == CsvTransactions(ParseCsv(text), parse, now) && r.writeOffs == CsvWriteOffs(r.transactions)
    ensures r.transactions == CsvTransactions(RowsBeforeFault(ParseCsv(text), fault), parse, now)
    ensures r.writeOffs == CsvWriteOffs(r.transactions)
    ensures fault.None? ==> r.findings == CsvFindings(r.writeOffs)
    ensures fault.Some? ==> r.findings == CsvFindings(r.writeOffs) + [CsvError(fault.value.message)]
    ensures forall i | 0 <= i < |r.writeOffs| ::
              r.writeOffs[i].amount > 0.0 && r.writeOffs[i].category == "Uncategorized" && r.writeOffs[i].taxCode == Unawaited
  {
    var rows := ParseCsv(text);
    var done := RowsBeforeFault(rows, fault);
    var l := CsvLoop(done, parse, now);
    CsvFindingsHaveNoError(CsvWriteOffs(CsvTransactions(done, parse, now)));
    match fault
    case None => DocumentAnalysis(l.transactions, l.findings, Low, FixedRecommendations, l.writeOffs)
    case Some(f) =>
      ErrorAppended(l.findings, f.message);
      DocumentAnalysis(l.transactions, l.findings + [CsvError(f.message)], High, FixedRecommendations, l.writeOffs)
  }

  /** Some finding reports a CSV processing error. */
  predicate HasCsvError(findings: seq<Finding>)
  {
    exists i | 0 <= i < |findings| :: findings[i].CsvError?
  }

  /** The findings of CSV write-offs are all write-off findings. */
  lemma CsvFindingsHaveNoError(ws: seq<WriteOff>)
    ensures !HasCsvError(CsvFindings(ws))
  {
  }

  /** Appending an error finding to findings without one yields findings with one. */
  lemma ErrorAppended(findings: seq<Finding>, message: string)
    ensures HasCsvError(findings + [CsvError(message)])
  {
    assert (findings + [CsvError(message)])[|findings|].CsvError?;
  }

  /** Findings without a CSV error, concatenated, have none. */
  lemma NoErrorInConcat(a: seq<Finding>, b: seq<Finding>)
    requires !HasCsvError(a) && !HasCsvError(b)
    ensures !HasCsvError(a + b)
  {
    forall i | 0 <= i < |a + b| ensures !(a + b)[i].CsvError? {
      if i < |a| { assert (a + b)[i] == a[i]; } else { assert (a + b)[i] == b[i - |a|]; }
    }
  }

  /** The collaborator's findings, each wrapped as an extracted finding. */
  function ExtractedFindings(texts: seq<string>): (fs: seq<Finding>)
    ensures |fs| == |texts| && forall i | 0 <= i < |texts| :: fs[i] == Extracted(texts[i])
    ensures !HasCsvError(fs)
  {
    seq(|texts|, i requires 0 <= i < |texts| => Extracted(texts[i]))
  }

  /**
   The free-text branch: the collaborator's transactions and findings, then the
   write-offs and findings of the line scan; the risk level stays low.
   */
  function TextAnalysis(text: string, table: seq<TaxCodeRow>, extraction: Extraction): (r: DocumentAnalysis)
    ensures r.riskLevel == Low && r.recommendations == FixedRecommendations
    ensures !HasCsvError(r.findings)
    ensures r.transactions == extraction.transactions
    ensures r.writeOffs == TextWriteOffs(Lines(text), table)
    ensures r.findings == ExtractedFindings(extraction.findings) + TextFindings(r.writeOffs)
    ensures forall i | 0 <= i < |r.writeOffs| :: r.writeOffs[i].amount >= 0.0 && r.writeOffs[i].taxCode.Resolved?
  {
    var l := TextLoop(Lines(text), table);
    TextLoopPairsFindings(Lines(text), table);
    var prefix := ExtractedFindings(extraction.findings);
    assert !HasCsvError(l.findings) by { assert forall i | 0 <= i < |l.findings| :: l.findings[i].WriteOffDetected?; }
    NoErrorInConcat(prefix, l.findings);
    DocumentAnalysis(extraction.transactions, prefix + l.findings, Low, FixedRecommendations, l.writeOffs)
  }

  /** `processDocument` on an already decoded document text. */
  function ProcessDocument(filename: string, text: string, table: seq<TaxCodeRow>, parse: NumberParser,
                           now: string, fault: Option<CsvFault>, extraction: Extraction): (r: DocumentAnalysis)
    ensures r.riskLevel == High <==> IsCsvName(filename) && fault.Some?
    ensures r.recommendations == FixedRecommendations
    ensures HasCsvError(r.findings) <==> r.riskLevel == High
    ensures !IsCsvName(filename) ==> r.transactions == extraction.transactions
    ensures !IsCsvName(filename) ==> r.writeOffs == TextWriteOffs(Lines(text), table)
    ensures !IsCsvName(filename) ==> r.findings == ExtractedFindings(extraction.findings) + TextFindings(r.writeOffs)
    ensures IsCsvName(filename) && fault.None? ==>
              r.transactions == CsvTransactions(ParseCsv(text), parse, now) && r.writeOffs == CsvWriteOffs(r.transactions)
    ensures IsCsvName(filename) ==>
              r.transactions == CsvTransactions(RowsBeforeFault(ParseCsv(text), fault), parse, now)
              && r.writeOffs == CsvWriteOffs(r.transactions)
    ensures IsCsvName(filename) && fault.None? ==> r.findings == CsvFindings(r.writeOffs)
    ensures IsCsvName(filename) && fault.Some? ==> r.findings == CsvFindings(r.writeOffs) + [CsvError(fault.value.message)]
    ensures IsCsvName(filename) ==> forall i | 0 <= i < |r.writeOffs| ::
              r.writeOffs[i].amount > 0.0 && r.writeOffs[i].category == "Uncategorized" && r.writeOffs[i].taxCode == Unawaited
    ensures !IsCsvName(filename) ==> forall i | 0 <= i < |r.writeOffs| ::
              r.writeOffs[i].amount >= 0.0 && r.writeOffs[i].taxCode.Resolved?
  {
    if IsCsvName(filename) then CsvAnalysis(text, parse, now, fault) else TextAnalysis(text, table, extraction)
  }

  /** Which of the three equity totals a transaction feeds, if any. */
  datatype EquityBucket = NetIncome | Withdrawals | OtherChanges

  /** The `if`/`else if` chain of `calculateEquityFromTransactions`: earlier keyword pairs take priority. */
  function BucketOf(t: Transaction): (b: Option<EquityBucket>)
    ensures var d := Lower(t.description);
            b == Some(NetIncome) <==> Contains(d, "revenue") || Contains(d, "income")
    ensures var d := Lower(t.description);
            b == Some(Withdrawals) <==> (!Contains(d, "revenue") && !Contains(d, "income")
                                        && (Contains(d, "withdrawal") || Contains(d, "distribution")))
    ensures var d := Lower(t.description);
            b == Some(OtherChanges) <==> (!Contains(d, "revenue") && !Contains(d, "income")
                                         && !Contains(d, "withdrawal") && !Contains(d, "distribution")
                                         && (Contains(d, "investment") || Contains(d, "contribution")))
    ensures var d := Lower(t.description);
            b.None? <==> (!Contains(d, "revenue") && !Contains(d, "income")
                          && !Contains(d, "withdrawal") && !Contains(d, "distribution")
                          && !Contains(d, "investment") && !Contains(d, "contribution"))
  {
    var d := Lower(t.description);
    if Contains(d, "revenue") || Contains(d, "income") then Some(NetIncome)
    else if Contains(d, "withdrawal") || Contains(d, "distribution") then Some(Withdrawals)
    else if Contains(d, "investment") || Contains(d, "contribution") then Some(OtherChanges)
    else None
  }

  datatype Equity = Equity(netIncome: Money, withdrawals: Money, otherChanges: Money)

  /**
   The loop of `calculateEquityFromTransactions`, one transaction at a time: each
   equity total is the sum of the amounts of exactly the transactions in its bucket.
   */
  function CalculateEquity(ts: seq<Transaction>): (e: Equity)
    ensures e == BucketTotals(ts)
    decreases |ts|
  {
    if |ts| == 0 then
      assert Filter(ts, (t: Transaction) => BucketOf(t) == Some(NetIncome)) == [];
      assert Filter(ts, (t: Transaction) => BucketOf(t) == Some(Withdrawals)) == [];
      assert Filter(ts, (t: Transaction) => BucketOf(t) == Some(OtherChanges)) == [];
      Equity(0.0, 0.0, 0.0)
    else
      var init := ts[..|ts| - 1];
      var t := ts[|ts| - 1];
      assert ts == init + [t];
      AddToBucketTotals(init, t);
      AddToBucket(CalculateEquity(init), t)
  }

  /** One pass of the loop: the transaction's amount is added to its bucket's total. */
  function AddToBucket(e: Equity, t: Transaction): Equity
  {
    match BucketOf(t)
    case Some(NetIncome) => e.(netIncome := e.netIncome + t.amount)
    case Some(Withdrawals) => e.(withdrawals := e.withdrawals + t.amount)
    case Some(OtherChanges) => e.(otherChanges := e.otherChanges + t.amount)
    case None => e
  }

  function Amounts(ts: seq<Transaction>): (xs: seq<Money>)
    ensures |xs| == |ts| && forall i | 0 <= i < |ts| :: xs[i] == ts[i].amount
  {
    seq(|ts|, i requires 0 <= i < |ts| => ts[i].amount)
  }

  /** The sum of the amounts of the transactions that fall into bucket `b`. */
  function BucketTotal(ts: seq<Transaction>, b: Option<EquityBucket>): Money
  {
    Sum(Amounts(Filter(ts, (t: Transaction) => BucketOf(t) == b)))
  }

  lemma AmountsSnoc(ts: seq<Transaction>, t: Transaction)
    ensures Amounts(ts + [t]) == Amounts(ts) + [t.amount]
  {
  }

  lemma BucketTotalSnoc(ts: seq<Transaction>, t: Transaction, b: Option<EquityBucket>)
    ensures BucketTotal(ts + [t], b) == BucketTotal(ts, b) + (if BucketOf(t) == b then t.amount else 0.0)
  {
    var p := (u: Transaction) => BucketOf(u) == b;
    FilterAppend(ts, [t], p);
    AmountsSnoc(Filter(ts, p), t);
    if BucketOf(t) == b {
      assert Filter([t], p) == [t];
      assert Sum(Amounts(Filter(ts, p)) + [t.amount]) == Sum(Amounts(Filter(ts, p))) + t.amount by {
        assert (Amounts(Filter(ts, p)) + [t.amount])[..|Amounts(Filter(ts, p))|] == Amounts(Filter(ts, p));
      }
    } else {
      assert Filter([t], p) == [];
      assert Filter(ts, p) + [] == Filter(ts, p);
    }
  }

  /** The bucket totals of a list, as an `Equity`. */
  function BucketTotals(ts: seq<Transaction>): Equity
  {
    Equity(BucketTotal(ts, Some(NetIncome)), BucketTotal(ts, Some(Withdrawals)), BucketTotal(ts, Some(OtherChanges)))
  }

  /** One loop pass on the bucket totals of a list gives the bucket totals of the list with one more transaction. */
  lemma AddToBucketTotals(ts: seq<Transaction>, t: Transaction)
    ensures AddToBucket(BucketTotals(ts), t) == BucketTotals(ts + [t])
  {
    BucketTotalSnoc(ts, t, Some(NetIncome));
    BucketTotalSnoc(ts, t, Some(Withdrawals));
    BucketTotalSnoc(ts, t, Some(OtherChanges));
  }

  /** The three buckets and the unmatched transactions partition the total amount. */
  lemma {:induction false} BucketsPartitionTotal(ts: seq<Transaction>)
    ensures BucketTotal(ts, Some(NetIncome)) + BucketTotal(ts, Some(Withdrawals)) + BucketTotal(ts, Some(OtherChanges))
            + BucketTotal(ts, None) == Sum(Amounts(ts))
    decreases |ts|
  {
    if |ts| == 0 {
      assert Filter(ts, (t: Transaction) => BucketOf(t) == Some(NetIncome)) == [];
      assert Filter(ts, (t: Transaction) => BucketOf(t) == Some(Withdrawals)) == [];
      assert Filter(ts, (t: Transaction) => BucketOf(t) == Some(OtherChanges)) == [];
      assert Filter(ts, (t: Transaction) => BucketOf(t) == None) == [];
    } else {
      var init := ts[..|ts| - 1];
      var t := ts[|ts| - 1];
      assert ts == init + [t];
      BucketsPartitionTotal(init);
      BucketTotalSnoc(init, t, Some(NetIncome));
      BucketTotalSnoc(init, t, Some(Withdrawals));
      BucketTotalSnoc(init, t, Some(OtherChanges));
      BucketTotalSnoc(init, t, None);
      AmountsSnoc(init, t);
      assert Amounts(ts)[..|ts| - 1] == Amounts(init);
    }
  }
}

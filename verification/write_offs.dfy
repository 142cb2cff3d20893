/**
 The write-offs page (src/pages/WriteOffs.tsx): the CSV export built by
 `handleExport` and the total-deductions figure.
 */
module WriteOffs {
  import opened Common
  import opened Strings

  /**
   A fetched `write_offs` row with its joined tax code. The amount is kept as the
   text the page renders and feeds to `Number`; a missing join or code is `None`.
   */
  datatype StoredWriteOff = StoredWriteOff(date: string, description: string, amountText: string,
                                           taxCode: Option<string>, status: Option<string>)

  const ExportHeader := "Date,Description,Amount,Tax Code"

  /** `${wo.tax_codes?.code}`: a missing code renders as `undefined`. */
  function CodeText(code: Option<string>): (t: string)
    ensures code.Some? ==> t == code.value
    ensures code.None? ==> t == "undefined"
  {
    match code
    case Some(c) => c
    case None => "undefined"
  }

  /** The four fields of one export line, before joining with commas. */
  function ExportFields(wo: StoredWriteOff): seq<string>
  {
    [wo.date, wo.description, wo.amountText, CodeText(wo.taxCode)]
  }

  /** One export line: the four fields joined with commas, nothing quoted or escaped. */
  function ExportLine(wo: StoredWriteOff): string
  {
    wo.date + "," + wo.description + "," + wo.amountText + "," + CodeText(wo.taxCode)
  }

  /** The line is the four fields joined with commas. */
  lemma ExportLineIsJoin(wo: StoredWriteOff)
    ensures ExportLine(wo) == Join(ExportFields(wo), ',')
  {
    var f := ExportFields(wo);
    assert f[1..][1..][1..] == [f[3]];
    assert Join(f[1..][1..], ',') == f[2] + [','] + f[3];
    assert Join(f[1..], ',') == f[1] + [','] + f[2] + [','] + f[3];
  }

  function ExportLines(ws: seq<StoredWriteOff>): (lines: seq<string>)
    ensures |lines| == |ws| && forall i | 0 <= i < |ws| :: lines[i] == ExportLine(ws[i])
  {
    seq(|ws|, i requires 0 <= i < |ws| => ExportLine(ws[i]))
  }

  /**
   `handleExport`'s file text: the header line, a newline, then the lines joined
   with newlines; with the list not loaded the body is the text `undefined`.
   */
  function ExportCsv(writeOffs: Option<seq<StoredWriteOff>>): (text: string)
    ensures |text| >= |ExportHeader| + 1 && text[..|ExportHeader| + 1] == ExportHeader + "\n"
    ensures writeOffs == Some([]) ==> text == ExportHeader + "\n"
    ensures writeOffs.None? ==> text == ExportHeader + "\nundefined"
  {
    var body := match writeOffs
      case None => "undefined"
      case Some(ws) => Join(ExportLines(ws), '\n');
    ExportHeader + "\n" + body
  }

  /** A field that cannot disturb the layout: no comma and no newline. */
  predicate IsPlainField(f: string)
  {
    ',' !in f && '\n' !in f
  }

  predicate IsPlainRecord(wo: StoredWriteOff)
  {
    IsPlainField(wo.date) && IsPlainField(wo.description) && IsPlainField(wo.amountText)
    && IsPlainField(CodeText(wo.taxCode))
  }

  lemma ExportLineHasNoNewline(wo: StoredWriteOff)
    requires IsPlainRecord(wo)
    ensures '\n' !in ExportLine(wo)
  {
    ExportLineIsJoin(wo);
    JoinFree(ExportFields(wo), ',', '\n');
  }

  /** Reading a plain export line back with a comma split gives its four fields. */
  lemma ExportLineRoundTrip(wo: StoredWriteOff)
    requires IsPlainRecord(wo)
    ensures Split(ExportLine(wo), ',') == [wo.date, wo.description, wo.amountText, CodeText(wo.taxCode)]
  {
    ExportLineIsJoin(wo);
    SplitJoin(ExportFields(wo), ',');
  }

  /** A comma in a description adds a column: the line splits into more than four cells. */
  lemma CommaInDescriptionAddsColumns(wo: StoredWriteOff)
    requires ',' in wo.description
    ensures |Split(ExportLine(wo), ',')| > 4
  {
    var line := ExportLine(wo);
    SplitLength(line, ',');
    var code := CodeText(wo.taxCode);
    assert line == wo.date + [','] + wo.description + [','] + wo.amountText + [','] + code;
    CharCountAppend(wo.date + [','] + wo.description + [','] + wo.amountText + [','], code, ',');
    CharCountAppend(wo.date + [','] + wo.description + [','] + wo.amountText, [','], ',');
    CharCountAppend(wo.date + [','] + wo.description + [','], wo.amountText, ',');
    CharCountAppend(wo.date + [','] + wo.description, [','], ',');
    CharCountAppend(wo.date + [','], wo.description, ',');
    CharCountAppend(wo.date, [','], ',');
    assert [','][..0] == [];
  }

  lemma SplitAfterHeader(rest: string)
    ensures Split(ExportHeader + "\n" + rest, '\n') == [ExportHeader] + Split(rest, '\n')
  {
    var s := ExportHeader + "\n" + rest;
    assert s[..|ExportHeader|] == ExportHeader;
    assert '\n' !in ExportHeader;
    IndexOfFirst(s, '\n', |ExportHeader|);
    assert s[|ExportHeader| + 1..] == rest;
  }

  /**
   Reading a non-empty export of plain records back line by line gives the header
   and then, in list order, one line per write-off splitting into its four fields.
   */
  lemma ExportRoundTrip(ws: seq<StoredWriteOff>)
    requires |ws| > 0
    requires forall i | 0 <= i < |ws| :: IsPlainRecord(ws[i])
    ensures var lines := Split(ExportCsv(Some(ws)), '\n');
            |lines| == |ws| + 1 && lines[0] == ExportHeader
            && forall i | 0 <= i < |ws| ::
                 Split(lines[i + 1], ',') == [ws[i].date, ws[i].description, ws[i].amountText, CodeText(ws[i].taxCode)]
  {
    var body := ExportLines(ws);
    forall k | 0 <= k < |body| ensures '\n' !in body[k] {
      ExportLineHasNoNewline(ws[k]);
    }
    SplitJoin(body, '\n');
    SplitAfterHeader(Join(body, '\n'));
    forall i | 0 <= i < |ws| ensures Split(body[i], ',') == ExportFields(ws[i]) {
      ExportLineRoundTrip(ws[i]);
    }
  }

  /** The total-deductions figure: nothing while the list is not loaded, NaN when an amount does not parse. */
  datatype Deductions = NotLoaded | NotANumber | Total(value: Money)

  function AmountTexts(ws: seq<StoredWriteOff>): (ts: seq<string>)
    ensures |ts| == |ws| && forall i | 0 <= i < |ws| :: ts[i] == ws[i].amountText
  {
    seq(|ws|, i requires 0 <= i < |ws| => ws[i].amountText)
  }

  /** `writeOffs?.reduce((sum, record) => sum + Number(record.amount), 0)`. */
  function TotalDeductions(writeOffs: Option<seq<StoredWriteOff>>, parse: NumberParser): (r: Deductions)
    ensures r.NotLoaded? <==> writeOffs.None?
    ensures r.Total? <==> writeOffs.Some? && forall i | 0 <= i < |writeOffs.value| :: parse(writeOffs.value[i].amountText).Some?
    ensures r.Total? ==> r.value == Sum(ParsedValues(AmountTexts(writeOffs.value), parse))
    ensures writeOffs == Some([]) ==> r == Total(0.0)
  {
    match writeOffs
    case None => NotLoaded
    case Some(ws) =>
      match SumParsed(AmountTexts(ws), parse)
      case None => NotANumber
      case Some(v) => Total(v)
  }

  /** With every amount a non-negative number, the total is non-negative. */
  lemma TotalOfNonNegativeAmounts(ws: seq<StoredWriteOff>, parse: NumberParser)
    requires forall i | 0 <= i < |ws| :: parse(ws[i].amountText).Some? && parse(ws[i].amountText).value >= 0.0
    ensures TotalDeductions(Some(ws), parse).Total? && TotalDeductions(Some(ws), parse).value >= 0.0
  {
    SumNonNegative(ParsedValues(AmountTexts(ws), parse));
  }
}

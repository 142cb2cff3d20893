/**
 The recent write-offs card (src/components/TransactionList.tsx): which rows are
 shown, the name and status shown for a row, and the total shown beside it.
 */
module TransactionList {
  import opened Common
  import opened Strings
  import opened WriteOffs

  /** `showAll ? writeOffs : writeOffs.slice(0, 3)`. */
  function DisplayWriteOffs(writeOffs: seq<StoredWriteOff>, showAll: bool): (r: seq<StoredWriteOff>)
    ensures showAll ==> r == writeOffs
    ensures !showAll ==> |r| == (if |writeOffs| < 3 then |writeOffs| else 3)
    ensures |r| <= |writeOffs| && r == writeOffs[..|r|]
  {
    if showAll then writeOffs else Take(writeOffs, 3)
  }

  /** The collapsed card is the expanded one cut to its first three rows. */
  lemma CollapsedIsPrefixOfExpanded(writeOffs: seq<StoredWriteOff>)
    ensures var shown := DisplayWriteOffs(writeOffs, false);
            DisplayWriteOffs(writeOffs, true)[..|shown|] == shown
            && (|writeOffs| <= 3 ==> shown == writeOffs)
  {
  }

  /** `description.split(',')[0]`: the text before the first comma, or all of it. */
  function DisplayName(description: string): (name: string)
    ensures ',' !in name
    ensures |name| <= |description| && description[..|name|] == name
    ensures name == description <==> ',' !in description
    ensures ',' in description ==> description[|name|] == ','
  {
    SplitFirst(description, ',');
    Split(description, ',')[0]
  }

  /** `writeOff.status || "Pending"`: a missing or empty status shows as Pending. */
  function StatusLabel(status: Option<string>): (shown: string)
    ensures shown != ""
    ensures status.Some? && status.value != "" ==> shown == status.value
    ensures status.None? || status.value == "" ==> shown == "Pending"
  {
    if status.Some? && status.value != "" then status.value else "Pending"
  }

  /** The rows sharing the description exactly (`wo.description === description`). */
  function Related(writeOffs: seq<StoredWriteOff>, description: string): (r: seq<StoredWriteOff>)
    ensures forall i | 0 <= i < |r| :: r[i].description == description
    ensures forall i | 0 <= i < |writeOffs| && writeOffs[i].description == description :: writeOffs[i] in r
    ensures forall w :: multiset(r)[w] == if w.description == description then multiset(writeOffs)[w] else 0
  {
    var p := (wo: StoredWriteOff) => wo.description == description;
    assert forall w :: multiset(Filter(writeOffs, p))[w] == if w.description == description then multiset(writeOffs)[w] else 0 by {
      forall w ensures multiset(Filter(writeOffs, p))[w] == if w.description == description then multiset(writeOffs)[w] else 0 {
        FilterMultiplicity(writeOffs, p, w);
      }
    }
    Filter(writeOffs, p)
  }

  /**
   `calculateTotalAmount`: with four or more comma-separated parts whose third and
   later parts are all numbers, their sum; otherwise the sum of the amounts of the
   rows with the same description. `None` is NaN.
   */
  function CalculateTotalAmount(description: string, writeOffs: seq<StoredWriteOff>, parse: NumberParser): (r: Option<Money>)
    ensures r.None? ==> exists i | 0 <= i < |Related(writeOffs, description)| ::
                          parse(Related(writeOffs, description)[i].amountText).None?
  {
    var parts := Split(description, ',');
    if |parts| >= 4 && SumParsed(parts[2..], parse).Some? then SumParsed(parts[2..], parse)
    else SumParsed(AmountTexts(Related(writeOffs, description)), parse)
  }

  /** A description with at most two commas is always totalled from the related rows. */
  lemma FewCommasSumsRelatedRows(description: string, writeOffs: seq<StoredWriteOff>, parse: NumberParser)
    requires CharCount(description, ',') < 3
    ensures var r := CalculateTotalAmount(description, writeOffs, parse);
            var related := Related(writeOffs, description);
            (r.Some? <==> forall i | 0 <= i < |related| :: parse(related[i].amountText).Some?)
            && (r.Some? ==> r.value == Sum(ParsedValues(AmountTexts(related), parse)))
  {
    SplitLength(description, ',');
  }

  /**
   A description with four or more parts, one of which from the third on is not a
   number, falls back to the related rows, exactly as a short description does.
   */
  lemma NonNumericPartSumsRelatedRows(description: string, writeOffs: seq<StoredWriteOff>, parse: NumberParser, k: nat)
    requires var parts := Split(description, ',');
             2 <= k < |parts| && parse(parts[k]).None?
    ensures var r := CalculateTotalAmount(description, writeOffs, parse);
            var related := Related(writeOffs, description);
            (r.Some? <==> forall i | 0 <= i < |related| :: parse(related[i].amountText).Some?)
            && (r.Some? ==> r.value == Sum(ParsedValues(AmountTexts(related), parse)))
  {
    var parts := Split(description, ',');
    assert parts[2..][k - 2] == parts[k];
  }

  /**
   A description `name,detail,n1,n2` whose last two parts are numbers totals to
   their sum, whatever the rows hold.
   */
  lemma FourColumnDescriptionSumsItsNumbers(name: string, detail: string, n1: string, n2: string,
                                            writeOffs: seq<StoredWriteOff>, parse: NumberParser)
    requires ',' !in name && ',' !in detail && ',' !in n1 && ',' !in n2
    requires parse(n1).Some? && parse(n2).Some?
    ensures CalculateTotalAmount(name + "," + detail + "," + n1 + "," + n2, writeOffs, parse)
            == Some(parse(n1).value + parse(n2).value)
  {
    var description := name + "," + detail + "," + n1 + "," + n2;
    FourColumnSplit(name, detail, n1, n2);
    PairSum(n1, n2, parse);
    assert Split(description, ',')[2..] == [n1, n2];
  }

  lemma FourColumnSplit(name: string, detail: string, n1: string, n2: string)
    requires ',' !in name && ',' !in detail && ',' !in n1 && ',' !in n2
    ensures Split(name + "," + detail + "," + n1 + "," + n2, ',') == [name, detail, n1, n2]
  {
    var parts := [name, detail, n1, n2];
    var last := n1 + "," + n2;
    var tail := detail + "," + last;
    assert Join([n1, n2], ',') == last by { assert [n1, n2][1..] == [n2]; }
    assert Join([detail, n1, n2], ',') == tail by { assert [detail, n1, n2][1..] == [n1, n2]; }
    assert Join(parts, ',') == name + "," + tail by { assert parts[1..] == [detail, n1, n2]; }
    assert name + "," + detail + "," + n1 + "," + n2 == name + "," + tail;
    SplitJoin(parts, ',');
  }

  lemma PairSum(n1: string, n2: string, parse: NumberParser)
    requires parse(n1).Some? && parse(n2).Some?
    ensures SumParsed([n1, n2], parse) == Some(parse(n1).value + parse(n2).value)
  {
    var xs := ParsedValues([n1, n2], parse);
    assert xs == [parse(n1).value, parse(n2).value];
    assert xs[..1] == [parse(n1).value];
    assert xs[..1][..0] == [];
    assert Sum(xs[..1]) == parse(n1).value;
  }

  /**
   Once the numeric parts of the description are numbers, the rows do not matter:
   two lists give the same total.
   */
  lemma NumericDescriptionIgnoresRows(description: string, a: seq<StoredWriteOff>, b: seq<StoredWriteOff>, parse: NumberParser)
    requires var parts := Split(description, ',');
             |parts| >= 4 && forall i | 2 <= i < |parts| :: parse(parts[i]).Some?
    ensures CalculateTotalAmount(description, a, parse) == CalculateTotalAmount(description, b, parse)
    ensures CalculateTotalAmount(description, a, parse).Some?
  {
    var parts := Split(description, ',');
    assert forall i | 0 <= i < |parts[2..]| :: parse(parts[2..][i]).Some? by {
      forall i | 0 <= i < |parts[2..]| ensures parse(parts[2..][i]).Some? {
        assert parts[2..][i] == parts[i + 2];
      }
    }
  }

  /** A row whose description is unique and has at most two commas shows its own amount. */
  lemma UniqueRowShowsItsAmount(writeOffs: seq<StoredWriteOff>, k: nat, parse: NumberParser)
    requires k < |writeOffs|
    requires forall i | 0 <= i < |writeOffs| && i != k :: writeOffs[i].description != writeOffs[k].description
    requires CharCount(writeOffs[k].description, ',') < 3
    requires parse(writeOffs[k].amountText).Some?
    ensures CalculateTotalAmount(writeOffs[k].description, writeOffs, parse) == Some(parse(writeOffs[k].amountText).value)
  {
    var d := writeOffs[k].description;
    FewCommasSumsRelatedRows(d, writeOffs, parse);
    RelatedOfUnique(writeOffs, k, d);
    var xs := ParsedValues(AmountTexts([writeOffs[k]]), parse);
    assert xs == [parse(writeOffs[k].amountText).value];
    assert Sum(xs) == Sum([]) + xs[0];
  }

  /** When only the row at `k` has the description, the related rows are that row alone. */
  lemma {:induction false} RelatedOfUnique(writeOffs: seq<StoredWriteOff>, k: nat, description: string)
    requires k < |writeOffs| && writeOffs[k].description == description
    requires forall i | 0 <= i < |writeOffs| && i != k :: writeOffs[i].description != description
    ensures Related(writeOffs, description) == [writeOffs[k]]
    decreases |writeOffs|
  {
    if k == 0 {
      NoneRelated(writeOffs[1..], description);
    } else {
      RelatedOfUnique(writeOffs[1..], k - 1, description);
    }
  }

  lemma {:induction false} NoneRelated(writeOffs: seq<StoredWriteOff>, description: string)
    requires forall i | 0 <= i < |writeOffs| :: writeOffs[i].description != description
    ensures Related(writeOffs, description) == []
    decreases |writeOffs|
  {
    if |writeOffs| > 0 {
      NoneRelated(writeOffs[1..], description);
    }
  }
}

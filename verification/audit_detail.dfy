/**
 The rules of the audit detail page (src/pages/AuditDetail.tsx): the UUID
 validator, the guards that keep an invalid id away from the database, the
 status and risk-level explanations, and the flagged-item filter.
 */
module AuditDetail {
  import opened Common
  import opened Strings
  import opened AuditItems

  /** A hexadecimal digit in either case (`[0-9a-f]` under the `i` flag). */
  predicate IsHex(c: char)
  {
    IsDigit(c) || ('a' <= c <= 'f') || ('A' <= c <= 'F')
  }

  /** The positions of the four hyphens of the 8-4-4-4-12 layout. */
  predicate IsHyphenPos(i: int)
  {
    i == 8 || i == 13 || i == 18 || i == 23
  }

  /** `[89ab]` under the `i` flag. */
  predicate IsVariantChar(c: char)
  {
    c == '8' || c == '9' || c == 'a' || c == 'b' || c == 'A' || c == 'B'
  }

  /** The pattern `^[0-9a-f]{8}-[0-9a-f]{4}-4[0-9a-f]{3}-[89ab][0-9a-f]{3}-[0-9a-f]{12}$`, case-insensitive. */
  predicate MatchesUuidPattern(s: string)
  {
    && |s| == 36
    && (forall i | 0 <= i < 36 :: IsHyphenPos(i) ==> s[i] == '-')
    && (forall i | 0 <= i < 36 :: !IsHyphenPos(i) ==> IsHex(s[i]))
    && s[14] == '4'
    && IsVariantChar(s[19])
  }

  /** `isValidUUID`: false for a missing or empty id, otherwise the pattern test. */
  function IsValidUuid(uuid: Option<string>): (b: bool)
    ensures uuid.None? ==> !b
    ensures uuid == Some("") ==> !b
    ensures b <==> uuid.Some? && MatchesUuidPattern(uuid.value)
  {
    match uuid
    case None => false
    case Some(s) => if s == "" then false else MatchesUuidPattern(s)
  }

  /** The lower-case hexadecimal digit of a nibble. */
  function HexDigit(n: nat): (c: char)
    requires n < 16
    ensures IsHex(c) && LowerChar(c) == c
  {
    if n < 10 then DigitChar(n) else ('a' as int + (n - 10)) as char
  }

  /** The value of a hexadecimal digit of either case. */
  function HexValue(c: char): (n: nat)
    requires IsHex(c)
    ensures n < 16 && HexDigit(n) == LowerChar(c)
  {
    if IsDigit(c) then DigitValue(c)
    else if 'a' <= c <= 'f' then c as int - 'a' as int + 10
    else c as int - 'A' as int + 10
  }

  /** Sixteen octets: the 128 bits of a UUID, most significant first (RFC 9562, section 4). */
  predicate IsOctets(o: seq<nat>)
  {
    |o| == 16 && forall j | 0 <= j < 16 :: o[j] < 256
  }

  /** Nibble `k` of the octets, high nibble of each octet first. */
  function Nibble(o: seq<nat>, k: nat): (n: nat)
    requires IsOctets(o) && k < 32
    ensures n < 16
  {
    if k % 2 == 0 then o[k / 2] / 16 else o[k / 2] % 16
  }

  /** Which nibble a non-hyphen position of the text shows. */
  function NibbleIndex(i: nat): (k: nat)
    requires i < 36 && !IsHyphenPos(i)
    ensures k < 32 && NibblePos(k) == i
  {
    if i < 8 then i else if i < 13 then i - 1 else if i < 18 then i - 2 else if i < 23 then i - 3 else i - 4
  }

  /** The text position of nibble `k`. */
  function NibblePos(k: nat): (i: nat)
    requires k < 32
    ensures i < 36 && !IsHyphenPos(i)
  {
    if k < 8 then k else if k < 12 then k + 1 else if k < 16 then k + 2 else if k < 20 then k + 3 else k + 4
  }

  /**
   The textual form of RFC 9562, section 4: the 32 nibbles as lower-case
   hexadecimal digits, grouped 8-4-4-4-12 with hyphens.
   */
  function Render(o: seq<nat>): (s: string)
    requires IsOctets(o)
    ensures |s| == 36
  {
    seq(36, i requires 0 <= i < 36 => if IsHyphenPos(i) then '-' else HexDigit(Nibble(o, NibbleIndex(i))))
  }

  /**
   A version-4 UUID of the RFC 9562 variant: the version field, the high nibble of
   octet 6, is 4 (sections 4.2 and 5.4) and the variant field, the two high bits
   of octet 8, is `10` (section 4.1).
   */
  predicate IsVersion4(o: seq<nat>)
    requires IsOctets(o)
  {
    o[6] / 16 == 4 && o[8] / 64 == 2
  }

  /** The octets a string of the right shape spells, read case-insensitively. */
  function ParseOctets(s: string): (o: seq<nat>)
    requires MatchesUuidPattern(s)
    ensures IsOctets(o)
    ensures forall k | 0 <= k < 32 :: Nibble(o, k) == HexValue(s[NibblePos(k)])
  {
    var o := seq(16, j requires 0 <= j < 16 => HexValue(s[NibblePos(2 * j)]) * 16 + HexValue(s[NibblePos(2 * j + 1)]));
    assert IsOctets(o);
    forall k | 0 <= k < 32 ensures Nibble(o, k) == HexValue(s[NibblePos(k)]) {
      var j := k / 2;
      var hi := HexValue(s[NibblePos(2 * j)]);
      var lo := HexValue(s[NibblePos(2 * j + 1)]);
      assert o[j] == hi * 16 + lo;
      assert o[j] / 16 == hi && o[j] % 16 == lo;
    }
    o
  }

  /** The rendered text of the octets a valid id spells is the id in lower case. */
  lemma RenderParsed(s: string)
    requires MatchesUuidPattern(s)
    ensures Render(ParseOctets(s)) == Lower(s)
  {
    var o := ParseOctets(s);
    forall i | 0 <= i < 36 ensures Render(o)[i] == Lower(s)[i] {
      if !IsHyphenPos(i) {
        var k := NibbleIndex(i);
        assert Nibble(o, k) == HexValue(s[i]);
      }
    }
  }

  /** An octet's high nibble is 8 to 11 exactly when its two high bits are `10`. */
  lemma VariantNibble(x: nat)
    requires x < 256
    ensures 8 <= x / 16 <= 11 <==> x / 64 == 2
  {
  }

  /**
   The validator accepts exactly the lower- or upper-case spellings of the
   textual form of a version-4, variant-10 UUID.
   */
  lemma ValidIffVersion4Text(s: string)
    ensures IsValidUuid(Some(s)) <==> exists o | IsOctets(o) :: IsVersion4(o) && Lower(s) == Render(o)
  {
    if IsValidUuid(Some(s)) {
      var o := ParseOctets(s);
      RenderParsed(s);
      assert Nibble(o, 12) == HexValue(s[14]) == 4;
      assert Nibble(o, 16) == HexValue(s[19]);
      VariantNibble(o[8]);
    }
    if o :| IsOctets(o) && IsVersion4(o) && Lower(s) == Render(o) {
      VersionFourTextMatches(s, o);
    }
  }

  lemma VersionFourTextMatches(s: string, o: seq<nat>)
    requires IsOctets(o) && IsVersion4(o) && Lower(s) == Render(o)
    ensures MatchesUuidPattern(s)
  {
    assert |s| == 36;
    forall i | 0 <= i < 36 && !IsHyphenPos(i) ensures IsHex(s[i]) {
      assert LowerChar(s[i]) == HexDigit(Nibble(o, NibbleIndex(i)));
    }
    forall i | 0 <= i < 36 && IsHyphenPos(i) ensures s[i] == '-' {
      assert LowerChar(s[i]) == '-';
    }
    assert LowerChar(s[14]) == HexDigit(Nibble(o, 12)) == '4';
    VariantNibble(o[8]);
    assert LowerChar(s[19]) == HexDigit(Nibble(o, 16));
  }

  /** Upper- and lower-case spellings of an id are accepted alike. */
  lemma ValidityIgnoresCase(s: string)
    ensures IsValidUuid(Some(s)) <==> IsValidUuid(Some(Lower(s)))
  {
    if IsValidUuid(Some(Lower(s))) {
      forall i | 0 <= i < 36 && !IsHyphenPos(i) ensures IsHex(s[i]) {
        assert IsHex(LowerChar(s[i]));
      }
      assert LowerChar(s[14]) == '4';
      assert IsVariantChar(LowerChar(s[19]));
    }
  }

  /** The nil UUID is not a version-4 id and is rejected. */
  lemma NilUuidRejected()
    ensures !IsValidUuid(Some("00000000-0000-0000-0000-000000000000"))
  {
    var nil := "00000000-0000-0000-0000-000000000000";
    assert nil[14] == '0';
  }

  /** Any id whose version character is not 4 is rejected. */
  lemma OtherVersionsRejected(s: string)
    requires |s| == 36 && s[14] != '4'
    ensures !IsValidUuid(Some(s))
  {
  }

  /** What the detail query yields for the route's id. */
  datatype QueryResult =
    | Idle                     // `enabled: !!id` is false: the query never runs
    | QueryError(message: string)
    | Loaded(audit: AuditRecord)

  /** The audit report with its items, as the page reads it. */
  datatype AuditRecord = AuditRecord(status: string, riskLevel: string, items: Option<seq<AuditItem>>)

  /** The database answer to the query: an error, or the single row. */
  datatype FetchAnswer = FetchError(message: string) | Row(audit: AuditRecord)

  /**
   The audit query: not run without an id; `Invalid audit ID format` for an
   invalid id, before any fetch; otherwise the fetch's error or row.
   */
  function AuditQuery(id: Option<string>, fetch: FetchAnswer): (r: QueryResult)
    ensures r.Idle? <==> id.None? || id == Some("")
    ensures id.Some? && id != Some("") && !IsValidUuid(id) ==> r == QueryError("Invalid audit ID format")
    ensures IsValidUuid(id) && fetch.FetchError? ==> r == QueryError(fetch.message)
    ensures r.Loaded? <==> IsValidUuid(id) && fetch.Row?
    ensures r.Loaded? ==> fetch == Row(r.audit)
  {
    if id.None? || id == Some("") then Idle
    else if !IsValidUuid(id) then QueryError("Invalid audit ID format")
    else
      match fetch
      case FetchError(message) => QueryError(message)
      case Row(audit) => Loaded(audit)
  }

  /** For an invalid id the database answer is never consulted. */
  lemma InvalidIdNeverFetches(id: Option<string>, f1: FetchAnswer, f2: FetchAnswer)
    requires !IsValidUuid(id)
    ensures AuditQuery(id, f1) == AuditQuery(id, f2)
  {
  }

  datatype Toast = Toast(title: string, description: string)

  /** The `audit_reports` statuses, keyed by id. */
  type StatusTable = map<string, string>

  datatype StatusUpdate = StatusUpdate(table: StatusTable, toast: Toast)

  /**
   `updateAuditStatus`: an invalid id shows an error and changes nothing; a failed
   update shows an error; a successful one sets the status of the row with that id.
   */
  function UpdateAuditStatus(id: Option<string>, status: string, table: StatusTable, updateError: bool): (r: StatusUpdate)
    ensures !IsValidUuid(id) ==> r.table == table && r.toast == Toast("Error", "Invalid audit ID format")
    ensures IsValidUuid(id) && updateError ==> r.table == table && r.toast == Toast("Error", "Failed to update audit status")
    ensures r.toast.title == "Success" <==> IsValidUuid(id) && !updateError
    ensures r.table.Keys == table.Keys
    ensures forall key | key in table && Some(key) != id :: r.table[key] == table[key]
    ensures r.toast.title == "Success" && id.value in table ==> r.table[id.value] == status
  {
    if !IsValidUuid(id) then StatusUpdate(table, Toast("Error", "Invalid audit ID format"))
    else if updateError then StatusUpdate(table, Toast("Error", "Failed to update audit status"))
    else
      var key := id.value;
      StatusUpdate(if key in table then table[key := status] else table, Toast("Success", "Audit status updated"))
  }

  const PendingText := "Audit has been created but review hasn't started yet"
  const InProgressText := "Currently under review by the auditor"
  const CompletedText := "All items have been reviewed and findings documented"
  const StatusUnknown := "Status unknown"

  const LowRiskText := "Minor issues that need attention but don't pose immediate risks"
  const MediumRiskText := "Significant issues that should be addressed in the near term"
  const HighRiskText := "Critical issues requiring immediate attention"
  const RiskNotAssessed := "Risk level not assessed"

  /** The last character of a text; the explanations are told apart by it. */
  function Last(text: string): char
    requires |text| > 0
  {
    text[|text| - 1]
  }

  predicate IsKnownStatus(status: string)
  {
    status == "pending" || status == "in_progress" || status == "completed"
  }

  predicate IsKnownRiskLevel(level: string)
  {
    level == "low" || level == "medium" || level == "high"
  }

  /** `getStatusExplanation`: fixed text for the three statuses, `Status unknown` otherwise. */
  function StatusExplanation(status: string): (text: string)
    ensures text == StatusUnknown <==> !IsKnownStatus(status)
  {
    assert Last(PendingText) != Last(StatusUnknown) && Last(InProgressText) != Last(StatusUnknown) && Last(CompletedText) != Last(StatusUnknown);
    if status == "pending" then PendingText
    else if status == "in_progress" then InProgressText
    else if status == "completed" then CompletedText
    else StatusUnknown
  }

  /** `getRiskLevelExplanation`: fixed text for the three levels, `Risk level not assessed` otherwise. */
  function RiskLevelExplanation(level: string): (text: string)
    ensures text == RiskNotAssessed <==> !IsKnownRiskLevel(level)
  {
    assert Last(LowRiskText) != Last(RiskNotAssessed) && Last(MediumRiskText) != Last(RiskNotAssessed) && Last(HighRiskText) != Last(RiskNotAssessed);
    if level == "low" then LowRiskText
    else if level == "medium" then MediumRiskText
    else if level == "high" then HighRiskText
    else RiskNotAssessed
  }

  /** Different known statuses are explained differently, and so are different known risk levels. */
  lemma ExplanationsDistinguishKeys(a: string, b: string)
    ensures IsKnownStatus(a) && IsKnownStatus(b) && a != b ==> StatusExplanation(a) != StatusExplanation(b)
    ensures IsKnownRiskLevel(a) && IsKnownRiskLevel(b) && a != b ==> RiskLevelExplanation(a) != RiskLevelExplanation(b)
  {
    assert Last(PendingText) != Last(InProgressText) && Last(PendingText) != Last(CompletedText) && Last(InProgressText) != Last(CompletedText);
    assert Last(LowRiskText) != Last(MediumRiskText) && Last(LowRiskText) != Last(HighRiskText) && Last(MediumRiskText) != Last(HighRiskText);
  }

  /** `flaggedItems`: the items whose status is exactly `flagged`, in order; none when the items are missing. */
  function FlaggedItems(audit: Option<AuditRecord>): (r: seq<AuditItem>)
    ensures audit.None? || audit.value.items.None? ==> r == []
    ensures forall i | 0 <= i < |r| :: r[i].status == "flagged"
    ensures audit.Some? && audit.value.items.Some? ==>
              (forall i | 0 <= i < |r| :: r[i] in audit.value.items.value)
              && (forall i | 0 <= i < |audit.value.items.value| && audit.value.items.value[i].status == "flagged" ::
                    audit.value.items.value[i] in r)
              && |r| == FlaggedCount(audit.value.items.value)
  {
    match audit
    case None => []
    case Some(a) =>
      match a.items
      case None => []
      case Some(items) => Filter(items, IsFlagged)
  }
}

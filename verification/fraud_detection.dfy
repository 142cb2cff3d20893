/**
 The fraud-alert panel (src/components/FraudDetection.tsx): `formatAnalysis`,
 which condenses repeated lines of an alert's analysis text into one line with an
 occurrence count, and the mapping of fetched alerts with its defaults.
 */
module FraudDetection {
  import opened Common
  import opened Strings

  /** One entry of the `groups` object: a distinct non-blank line and how often it occurred. */
  datatype Group = Group(line: string, count: nat)

  /** The index of the group keyed by `line`, if there is one. */
  function FindGroup(groups: seq<Group>, line: string): (r: Option<nat>)
    ensures r.Some? ==> r.value < |groups| && groups[r.value].line == line
    ensures r.None? ==> forall k | 0 <= k < |groups| :: groups[k].line != line
  {
    if |groups| == 0 then None
    else if groups[|groups| - 1].line == line then Some(|groups| - 1)
    else FindGroup(groups[..|groups| - 1], line)
  }

  /** The body of `lines.forEach`: a non-blank line bumps its group's count or opens a new group at the end. */
  function AddLine(groups: seq<Group>, line: string): seq<Group>
  {
    if IsBlank(line) then groups
    else
      match FindGroup(groups, line)
      case Some(k) => groups[k := Group(line, groups[k].count + 1)]
      case None => groups + [Group(line, 1)]
  }

  /**
   The `groups` object after all lines: one entry per distinct non-blank line,
   keyed by the untrimmed line and counting its occurrences, in the order the
   lines first occur; blank lines open no entry.
   */
  function Groups(lines: seq<string>): (groups: seq<Group>)
    ensures GroupsOf(groups, lines)
    ensures InFirstOccurrenceOrder(groups, lines)
    decreases |lines|
  {
    if |lines| == 0 then []
    else
      var init := lines[..|lines| - 1];
      var last := lines[|lines| - 1];
      assert init + [last] == lines;
      AddLineKeepsOrder(Groups(init), init, last);
      AddLine(Groups(init), last)
  }

  /** How many of the lines are exactly `line`. */
  function Occurrences(lines: seq<string>, line: string): nat
  {
    if |lines| == 0 then 0
    else Occurrences(lines[..|lines| - 1], line) + (if lines[|lines| - 1] == line then 1 else 0)
  }

  predicate InLines(lines: seq<string>, line: string)
  {
    exists i | 0 <= i < |lines| :: lines[i] == line
  }

  /** What `Groups` promises about its entries. */
  predicate GroupsOf(groups: seq<Group>, lines: seq<string>)
  {
    && (forall i, j | 0 <= i < j < |groups| :: groups[i].line != groups[j].line)
    && (forall i | 0 <= i < |groups| :: !IsBlank(groups[i].line) && InLines(lines, groups[i].line))
    && (forall i | 0 <= i < |groups| :: groups[i].count == Occurrences(lines, groups[i].line))
    && (forall i | 0 <= i < |lines| && !IsBlank(lines[i]) :: FindGroup(groups, lines[i]).Some?)
  }

  lemma AddLineKeepsGroupsOf(groups: seq<Group>, lines: seq<string>, line: string)
    requires GroupsOf(groups, lines)
    ensures GroupsOf(AddLine(groups, line), lines + [line])
  {
    AddLineKeepsDistinct(groups, lines, line);
    AddLineKeepsCounts(groups, lines, line);
    AddLineKeepsInLines(groups, lines, line);
    AddLineKeepsFound(groups, lines, line);
  }

  lemma AddLineKeepsDistinct(groups: seq<Group>, lines: seq<string>, line: string)
    requires forall i, j | 0 <= i < j < |groups| :: groups[i].line != groups[j].line
    ensures var next := AddLine(groups, line);
            forall i, j | 0 <= i < j < |next| :: next[i].line != next[j].line
  {
    var next := AddLine(groups, line);
    if !IsBlank(line) {
      match FindGroup(groups, line)
      case Some(k) =>
        assert forall i | 0 <= i < |next| :: next[i].line == groups[i].line;
      case None =>
        assert forall i | 0 <= i < |groups| :: next[i] == groups[i];
    }
  }

  lemma AddLineKeepsCounts(groups: seq<Group>, lines: seq<string>, line: string)
    requires GroupsOf(groups, lines)
    ensures var next := AddLine(groups, line);
            forall i | 0 <= i < |next| :: next[i].count == Occurrences(lines + [line], next[i].line)
  {
    var all := lines + [line];
    assert all[..|lines|] == lines;
    var next := AddLine(groups, line);
    if !IsBlank(line) && FindGroup(groups, line).None? {
      forall j | 0 <= j < |lines| ensures lines[j] != line {
        assert !IsBlank(lines[j]) ==> FindGroup(groups, lines[j]).Some?;
      }
      OccurrencesAbsent(lines, line);
    }
    forall i | 0 <= i < |next| ensures next[i].count == Occurrences(all, next[i].line) {
      assert Occurrences(all, next[i].line) == Occurrences(lines, next[i].line) + (if line == next[i].line then 1 else 0);
    }
  }

  lemma AddLineKeepsInLines(groups: seq<Group>, lines: seq<string>, line: string)
    requires GroupsOf(groups, lines)
    ensures var next := AddLine(groups, line);
            forall i | 0 <= i < |next| :: !IsBlank(next[i].line) && InLines(lines + [line], next[i].line)
  {
    var all := lines + [line];
    var next := AddLine(groups, line);
    forall i | 0 <= i < |next| ensures InLines(all, next[i].line) {
      if i < |groups| && next[i].line == groups[i].line {
        var w :| 0 <= w < |lines| && lines[w] == groups[i].line;
        assert all[w] == lines[w];
      } else {
        assert all[|lines|] == line;
      }
    }
  }

  lemma AddLineKeepsFound(groups: seq<Group>, lines: seq<string>, line: string)
    requires GroupsOf(groups, lines)
    ensures var next := AddLine(groups, line);
            forall i | 0 <= i < |lines + [line]| && !IsBlank((lines + [line])[i]) :: FindGroup(next, (lines + [line])[i]).Some?
  {
    var all := lines + [line];
    var next := AddLine(groups, line);
    forall i | 0 <= i < |all| && !IsBlank(all[i]) ensures FindGroup(next, all[i]).Some? {
      if i < |lines| {
        var k := FindGroup(groups, lines[i]).value;
        assert all[i] == lines[i] && k < |next| && next[k].line == lines[i];
      } else {
        assert all[i] == line;
        if FindGroup(groups, line).None? {
          assert next[|next| - 1].line == line;
        } else {
          var k := FindGroup(groups, line).value;
          assert next[k].line == line;
        }
      }
    }
  }

  /** The index of the first occurrence of `line`. */
  function FirstIndex(lines: seq<string>, line: string): (k: nat)
    requires InLines(lines, line)
    ensures k < |lines| && lines[k] == line
    ensures forall j | 0 <= j < k :: lines[j] != line
  {
    if lines[0] == line then 0
    else
      assert InLines(lines[1..], line) by {
        var w :| 0 <= w < |lines| && lines[w] == line;
        assert lines[1..][w - 1] == line;
      }
      1 + FirstIndex(lines[1..], line)
  }

  /** The groups come in the order in which their lines first occur. */
  predicate InFirstOccurrenceOrder(groups: seq<Group>, lines: seq<string>)
    requires forall i | 0 <= i < |groups| :: InLines(lines, groups[i].line)
  {
    forall i, j | 0 <= i < j < |groups| :: FirstIndex(lines, groups[i].line) < FirstIndex(lines, groups[j].line)
  }

  /** A line's first occurrence does not move when a line is appended. */
  lemma FirstIndexAppend(lines: seq<string>, x: string, y: string)
    requires InLines(lines, x)
    ensures InLines(lines + [y], x)
    ensures FirstIndex(lines + [y], x) == FirstIndex(lines, x)
  {
    var k := FirstIndex(lines, x);
    assert (lines + [y])[k] == x;
  }

  /** One `forEach` step keeps the groups in first-occurrence order. */
  lemma AddLineKeepsOrder(groups: seq<Group>, lines: seq<string>, line: string)
    requires GroupsOf(groups, lines)
    requires InFirstOccurrenceOrder(groups, lines)
    ensures GroupsOf(AddLine(groups, line), lines + [line])
    ensures InFirstOccurrenceOrder(AddLine(groups, line), lines + [line])
  {
    AddLineKeepsGroupsOf(groups, lines, line);
    var all := lines + [line];
    forall i | 0 <= i < |groups|
      ensures InLines(all, groups[i].line) && FirstIndex(all, groups[i].line) == FirstIndex(lines, groups[i].line)
    {
      FirstIndexAppend(lines, groups[i].line, line);
    }
    if !IsBlank(line) && FindGroup(groups, line).None? {
      NewLineIsLast(groups, lines, line);
      OrderAppended(groups, lines, line);
    } else {
      OrderSameLines(groups, AddLine(groups, line), lines, all);
    }
  }

  /** A non-blank line without a group first occurs at the position it is appended at. */
  lemma NewLineIsLast(groups: seq<Group>, lines: seq<string>, line: string)
    requires GroupsOf(groups, lines)
    requires !IsBlank(line) && FindGroup(groups, line).None?
    ensures InLines(lines + [line], line) && FirstIndex(lines + [line], line) == |lines|
  {
    var all := lines + [line];
    assert all[|lines|] == line;
  }

  /** A new group for a line first occurring last stays in order. */
  lemma OrderAppended(groups: seq<Group>, lines: seq<string>, line: string)
    requires forall i | 0 <= i < |groups| :: InLines(lines, groups[i].line)
    requires InFirstOccurrenceOrder(groups, lines)
    requires forall i | 0 <= i < |groups| ::
               InLines(lines + [line], groups[i].line)
               && FirstIndex(lines + [line], groups[i].line) == FirstIndex(lines, groups[i].line)
    requires InLines(lines + [line], line) && FirstIndex(lines + [line], line) == |lines|
    ensures var next := groups + [Group(line, 1)];
            (forall i | 0 <= i < |next| :: InLines(lines + [line], next[i].line))
            && InFirstOccurrenceOrder(next, lines + [line])
  {
    var next := groups + [Group(line, 1)];
    assert forall i | 0 <= i < |groups| :: next[i] == groups[i];
  }

  /** Groups with the same lines, whose first occurrences did not move, stay in order. */
  lemma OrderSameLines(groups: seq<Group>, next: seq<Group>, lines: seq<string>, all: seq<string>)
    requires |next| == |groups| && forall i | 0 <= i < |next| :: next[i].line == groups[i].line
    requires forall i | 0 <= i < |groups| :: InLines(lines, groups[i].line)
    requires InFirstOccurrenceOrder(groups, lines)
    requires forall i | 0 <= i < |groups| ::
               InLines(all, groups[i].line) && FirstIndex(all, groups[i].line) == FirstIndex(lines, groups[i].line)
    ensures forall i | 0 <= i < |next| :: InLines(all, next[i].line)
    ensures InFirstOccurrenceOrder(next, all)
  {
  }

  /** A line that does not occur has no occurrences. */
  lemma {:induction false} OccurrencesAbsent(lines: seq<string>, line: string)
    requires forall j | 0 <= j < |lines| :: lines[j] != line
    ensures Occurrences(lines, line) == 0
    decreases |lines|
  {
    if |lines| > 0 {
      OccurrencesAbsent(lines[..|lines| - 1], line);
    }
  }

  /** The output line of one group: a ` (n occurrences)` suffix exactly when it occurred more than once. */
  function FormatGroup(g: Group): string
  {
    if g.count > 1 then g.line + " (" + NatToString(g.count) + " occurrences)" else g.line
  }

  function FormatGroups(groups: seq<Group>): (r: seq<string>)
    ensures |r| == |groups| && forall i | 0 <= i < |groups| :: r[i] == FormatGroup(groups[i])
  {
    seq(|groups|, i requires 0 <= i < |groups| => FormatGroup(groups[i]))
  }

  /** `formatAnalysis`: the formatted groups joined with newlines. */
  function FormatAnalysis(analysis: string): (r: string)
    ensures analysis == "" ==> r == ""
  {
    var groups := Groups(Split(analysis, '\n'));
    assert analysis == "" ==> groups == [] by {
      if analysis == "" {
        assert Split(analysis, '\n') == [""];
        assert Groups([""]) == AddLine([], "");
      }
    }
    Join(FormatGroups(groups), '\n')
  }

  /** The output lines are the formatted groups of the input lines. */
  lemma FormatAnalysisLines(analysis: string)
    ensures var groups := Groups(Split(analysis, '\n'));
            |groups| > 0 ==> Split(FormatAnalysis(analysis), '\n') == FormatGroups(groups)
    ensures Groups(Split(analysis, '\n')) == [] ==> FormatAnalysis(analysis) == ""
  {
    var lines := Split(analysis, '\n');
    var groups := Groups(lines);
    var out := FormatGroups(groups);
    forall k | 0 <= k < |out| ensures '\n' !in out[k] && !IsBlank(out[k]) {
      FormattedLineShape(groups[k], lines);
    }
    if |groups| > 0 {
      SplitJoin(out, '\n');
    }
  }

  /** A formatted group line is non-blank and has no newline. */
  lemma FormattedLineShape(g: Group, lines: seq<string>)
    requires !IsBlank(g.line) && InLines(lines, g.line)
    requires forall i | 0 <= i < |lines| :: '\n' !in lines[i]
    ensures '\n' !in FormatGroup(g) && !IsBlank(FormatGroup(g))
  {
    var w :| 0 <= w < |lines| && lines[w] == g.line;
    if g.count > 1 {
      var digits := NatToString(g.count);
      var suffix := " (" + digits + " occurrences)";
      assert FormatGroup(g) == g.line + suffix;
      BlankConcat(g.line, suffix);
      assert forall i | 0 <= i < |digits| :: digits[i] != '\n';
      assert '\n' !in suffix;
    }
  }

  /**
   Each distinct non-blank input line has exactly one group, whose output line
   carries the suffix exactly when the line occurred more than once.
   */
  lemma EachDistinctLineOnce(analysis: string, i: nat)
    requires i < |Split(analysis, '\n')| && !IsBlank(Split(analysis, '\n')[i])
    ensures var lines := Split(analysis, '\n');
            var groups := Groups(lines);
            var k := FindGroup(groups, lines[i]);
            k.Some?
            && FormatGroups(groups)[k.value]
               == (if Occurrences(lines, lines[i]) > 1
                   then lines[i] + " (" + NatToString(Occurrences(lines, lines[i])) + " occurrences)"
                   else lines[i])
            && forall j | 0 <= j < |groups| && j != k.value :: groups[j].line != lines[i]
  {
  }

  /** Distinct non-blank lines form one group each, counted once, in order. */
  lemma {:induction false} GroupsOfDistinct(lines: seq<string>)
    requires forall i | 0 <= i < |lines| :: !IsBlank(lines[i])
    requires forall i, j | 0 <= i < j < |lines| :: lines[i] != lines[j]
    ensures Groups(lines) == Singletons(lines)
    decreases |lines|
  {
    if |lines| > 0 {
      var init := lines[..|lines| - 1];
      var last := lines[|lines| - 1];
      assert init + [last] == lines;
      GroupsOfDistinct(init);
      SingletonsStep(init, last);
    }
  }

  /** A new non-blank line opens a group of one after the singletons of the earlier lines. */
  lemma SingletonsStep(init: seq<string>, last: string)
    requires !IsBlank(last)
    requires forall i | 0 <= i < |init| :: init[i] != last
    ensures AddLine(Singletons(init), last) == Singletons(init + [last])
  {
    assert FindGroup(Singletons(init), last).None?;
  }

  /** One group of count 1 per line, in order. */
  function Singletons(lines: seq<string>): (groups: seq<Group>)
    ensures |groups| == |lines| && forall i | 0 <= i < |lines| :: groups[i] == Group(lines[i], 1)
  {
    seq(|lines|, i requires 0 <= i < |lines| => Group(lines[i], 1))
  }

  /** A group of one is written back as its bare line. */
  lemma FormatSingletons(out: seq<string>)
    ensures FormatGroups(Singletons(out)) == out
  {
  }

  /**
   Formatting is idempotent when the formatted lines are pairwise distinct: each
   then forms a group of one and is written back unchanged.
   */
  lemma FormatIdempotent(analysis: string)
    requires var out := FormatGroups(Groups(Split(analysis, '\n')));
             forall i, j | 0 <= i < j < |out| :: out[i] != out[j]
    ensures FormatAnalysis(FormatAnalysis(analysis)) == FormatAnalysis(analysis)
  {
    var lines := Split(analysis, '\n');
    var groups := Groups(lines);
    var out := FormatGroups(groups);
    var once := FormatAnalysis(analysis);
    FormatAnalysisLines(analysis);
    if |groups| > 0 {
      assert once == Join(out, '\n');
      assert Split(once, '\n') == out;
      forall k | 0 <= k < |out| ensures !IsBlank(out[k]) {
        FormattedLineShape(groups[k], lines);
      }
      GroupsOfDistinct(out);
      FormatSingletons(out);
      assert FormatGroups(Groups(Split(once, '\n'))) == out;
    }
  }

  const Repeated := "a (2 occurrences)"

  lemma RepeatedLines()
    ensures Split("a\na\n" + Repeated, '\n') == ["a", "a", Repeated]
    ensures Split(Repeated + "\n" + Repeated, '\n') == [Repeated, Repeated]
  {
    assert '\n' !in Repeated;
    assert "a\na\n" + Repeated == "a" + "\n" + "a" + "\n" + Repeated;
    SplitThreeLines("a", "a", Repeated);
    SplitTwoLines(Repeated, Repeated);
  }

  /** Two newline-free lines joined by a newline split back into the two. */
  lemma SplitTwoLines(a: string, b: string)
    requires '\n' !in a && '\n' !in b
    ensures Split(a + "\n" + b, '\n') == [a, b]
  {
    assert Join([b], '\n') == b;
    assert Join([a, b], '\n') == a + "\n" + b by { assert [a, b][1..] == [b]; }
    SplitJoin([a, b], '\n');
  }

  /** Three newline-free lines joined by newlines split back into the three. */
  lemma SplitThreeLines(a: string, b: string, c: string)
    requires '\n' !in a && '\n' !in b && '\n' !in c
    ensures Split(a + "\n" + b + "\n" + c, '\n') == [a, b, c]
  {
    assert Join([b, c], '\n') == b + "\n" + c by { assert [b, c][1..] == [c]; }
    assert Join([a, b, c], '\n') == a + "\n" + (b + "\n" + c) by { assert [a, b, c][1..] == [b, c]; }
    assert a + "\n" + b + "\n" + c == a + "\n" + (b + "\n" + c);
    SplitJoin([a, b, c], '\n');
  }

  lemma RepeatedGroups()
    ensures Groups(["a", "a", Repeated]) == [Group("a", 2), Group(Repeated, 1)]
    ensures Groups([Repeated, Repeated]) == [Group(Repeated, 2)]
  {
    assert "a"[0] == 'a' && Repeated[0] == 'a';
    assert !IsBlank("a") && !IsBlank(Repeated);
    assert |Repeated| != 1;
    GroupsOfTwoThenOne("a", Repeated);
    GroupsOfTwo(Repeated);
  }

  /** A non-blank line seen twice forms one group of two. */
  lemma GroupsOfTwo(a: string)
    requires !IsBlank(a)
    ensures Groups([a]) == [Group(a, 1)]
    ensures Groups([a, a]) == [Group(a, 2)]
  {
    assert [a][..0] == [];
    assert Groups([a]) == AddLine([], a);
    assert [a, a][..1] == [a];
    assert FindGroup([Group(a, 1)], a) == Some(0);
    assert Groups([a, a]) == AddLine([Group(a, 1)], a);
  }

  /** A line seen twice and then a different line form two groups, in that order. */
  lemma GroupsOfTwoThenOne(a: string, b: string)
    requires !IsBlank(a) && !IsBlank(b) && a != b
    ensures Groups([a, a, b]) == [Group(a, 2), Group(b, 1)]
  {
    GroupsOfTwo(a);
    assert [a, a, b][..2] == [a, a];
    assert FindGroup([Group(a, 2)], b) == None;
    assert Groups([a, a, b]) == AddLine([Group(a, 2)], b);
  }

  lemma TwoOccurrences()
    ensures FormatGroup(Group("a", 2)) == Repeated
    ensures FormatGroup(Group(Repeated, 2)) == Repeated + " (2 occurrences)"
  {
    PairSuffix("a");
    PairSuffix(Repeated);
  }

  /** A line seen twice is formatted with the suffix ` (2 occurrences)`. */
  lemma PairSuffix(line: string)
    ensures FormatGroup(Group(line, 2)) == line + " (2 occurrences)"
  {
    assert NatToString(2) == "2";
    assert line + " (" + "2" + " occurrences)" == line + " (2 occurrences)";
  }

  /**
   Without distinct formatted lines formatting is not idempotent: a line that
   repeats and also appears with a matching suffix yields two equal output lines,
   which a second pass condenses again.
   */
  lemma FormatNotIdempotentInGeneral()
    ensures FormatAnalysis("a\na\n" + Repeated) == Repeated + "\n" + Repeated
    ensures FormatAnalysis(Repeated + "\n" + Repeated) == Repeated + " (2 occurrences)"
    ensures FormatAnalysis(FormatAnalysis("a\na\n" + Repeated)) != FormatAnalysis("a\na\n" + Repeated)
  {
    FirstPass();
    SecondPass();
    assert |Repeated + " (2 occurrences)"| != |Repeated + "\n" + Repeated|;
  }

  lemma FirstPass()
    ensures FormatAnalysis("a\na\n" + Repeated) == Repeated + "\n" + Repeated
  {
    RepeatedLines();
    RepeatedGroups();
    TwoOccurrences();
    var out := FormatGroups([Group("a", 2), Group(Repeated, 1)]);
    assert out == [Repeated, Repeated];
    assert Join(out, '\n') == Repeated + "\n" + Repeated;
  }

  lemma SecondPass()
    ensures FormatAnalysis(Repeated + "\n" + Repeated) == Repeated + " (2 occurrences)"
  {
    RepeatedLines();
    RepeatedGroups();
    TwoOccurrences();
    var out := FormatGroups([Group(Repeated, 2)]);
    assert out == [Repeated + " (2 occurrences)"];
  }

  /** A fetched `fraud_alerts` row; absent columns are `None`. */
  datatype RawAlert = RawAlert(id: string, riskScore: Option<real>, details: Option<RawDetails>, createdAt: string)

  datatype RawDetails = RawDetails(analysis: Option<string>, transactions: Option<seq<string>>)

  datatype FraudAlert = FraudAlert(id: string, riskScore: real, analysis: string,
                                   transactions: Option<seq<string>>, createdAt: string)

  /**
   The alert mapping: `risk_score || 0` and `formatAnalysis(details?.analysis || '')`.
   A zero or missing score is 0; a missing or empty analysis is empty.
   */
  function MapAlert(a: RawAlert): (r: FraudAlert)
    ensures a.riskScore.None? ==> r.riskScore == 0.0
    ensures a.riskScore.Some? ==> r.riskScore == a.riskScore.value
    ensures a.details.None? || a.details.value.analysis.None? ==> r.analysis == ""
    ensures a.details.Some? && a.details.value.analysis.Some? ==> r.analysis == FormatAnalysis(a.details.value.analysis.value)
    ensures r.id == a.id && r.createdAt == a.createdAt
  {
    var analysis := if a.details.Some? && a.details.value.analysis.Some? then a.details.value.analysis.value else "";
    FraudAlert(a.id, if a.riskScore.Some? then a.riskScore.value else 0.0, FormatAnalysis(analysis),
               if a.details.Some? then a.details.value.transactions else None, a.createdAt)
  }

  /** `(data || []).map(...)`: no data gives no alerts; otherwise one alert per row, in order. */
  function MapAlerts(data: Option<seq<RawAlert>>): (r: seq<FraudAlert>)
    ensures data.None? ==> r == []
    ensures data.Some? ==> |r| == |data.value| && forall i | 0 <= i < |r| :: r[i] == MapAlert(data.value[i])
  {
    match data
    case None => []
    case Some(rows) => seq(|rows|, i requires 0 <= i < |rows| => MapAlert(rows[i]))
  }
}

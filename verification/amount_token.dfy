/**
 The free-text amount extraction of the document processor
 (supabase/functions/analyze-document/documentProcessor.ts): the leftmost match of
 the pattern `\$?\d{1,3}(,\d{3})*(\.\d{2})?` in a line, with `$` and `,` removed,
 read as a decimal number.

 JavaScript's backtracking matcher returns, for the leftmost position where a match
 exists, the first alternative its greedy order succeeds with. Every part after
 `\d{1,3}` may match empty, so that first success is the fully greedy one: no
 backtracking into earlier parts ever happens, and the match is described here
 directly as a greedy scan.
 */
module AmountToken {
  import opened Common
  import opened Strings

  predicate AllDigits(t: string)
  {
    forall i | 0 <= i < |t| :: IsDigit(t[i])
  }

  /** A match can begin at `p`: a digit, or a dollar sign followed by a digit. */
  predicate StartsToken(s: string, p: nat)
  {
    p < |s| && (IsDigit(s[p]) || (s[p] == '$' && p + 1 < |s| && IsDigit(s[p + 1])))
  }

  /** Past the optional `\$?`. */
  function DigitsStart(s: string, p: nat): (q: nat)
    requires StartsToken(s, p)
    ensures q < |s| && IsDigit(s[q])
    ensures q == p || (q == p + 1 && s[p] == '$')
  {
    if IsDigit(s[p]) then p else p + 1
  }

  /** `\d{1,3}`, greedy: up to three digits. */
  function LeadEnd(s: string, q: nat): (e: nat)
    requires q < |s| && IsDigit(s[q])
    ensures q < e <= q + 3 && e <= |s|
    ensures forall i | q <= i < e :: IsDigit(s[i])
    ensures e < q + 3 && e < |s| ==> !IsDigit(s[e])
  {
    if q + 1 < |s| && IsDigit(s[q + 1]) then
      (if q + 2 < |s| && IsDigit(s[q + 2]) then q + 3 else q + 2)
    else q + 1
  }

  /** One repetition of `(,\d{3})` can be taken at `i`. */
  predicate GroupAt(s: string, i: nat)
  {
    i + 4 <= |s| && s[i] == ',' && IsDigit(s[i + 1]) && IsDigit(s[i + 2]) && IsDigit(s[i + 3])
  }

  /** `(,\d{3})*`, greedy: as many thousands groups as follow. */
  function GroupsEnd(s: string, i: nat): (e: nat)
    requires i <= |s|
    ensures i <= e <= |s| && !GroupAt(s, e)
    decreases |s| - i
  {
    if GroupAt(s, i) then GroupsEnd(s, i + 4) else i
  }

  /** `(\.\d{2})` can be taken at `i`. */
  predicate FractionAt(s: string, i: nat)
  {
    i + 3 <= |s| && s[i] == '.' && IsDigit(s[i + 1]) && IsDigit(s[i + 2])
  }

  /** The end of the greedy match that begins at `p`. */
  function TokenEnd(s: string, p: nat): (e: nat)
    requires StartsToken(s, p)
    ensures p < e <= |s|
  {
    var g := GroupsEnd(s, LeadEnd(s, DigitsStart(s, p)));
    if FractionAt(s, g) then g + 3 else g
  }

  /** The first position at or after `from` where a match begins. */
  function FirstTokenStart(s: string, from: nat): (r: Option<nat>)
    ensures r.Some? ==> from <= r.value && StartsToken(s, r.value)
    ensures r.Some? ==> forall q | from <= q < r.value :: !StartsToken(s, q)
    ensures r.None? ==> forall q | from <= q < |s| :: !StartsToken(s, q)
    decreases |s| - from
  {
    if from >= |s| then None
    else if StartsToken(s, from) then Some(from)
    else FirstTokenStart(s, from + 1)
  }

  /** `.replace(/[$,]/g, '')`. */
  function RemoveSeparators(t: string): string
  {
    if t == [] then []
    else (if t[0] == '$' || t[0] == ',' then [] else [t[0]]) + RemoveSeparators(t[1..])
  }

  function Pow10(n: nat): (r: nat)
    ensures r >= 1
  {
    if n == 0 then 1 else 10 * Pow10(n - 1)
  }

  /** The value of the digits after a decimal point: never a whole unit. */
  function Fraction(digits: string): (f: real)
    requires AllDigits(digits)
    ensures 0.0 <= f < 1.0
  {
    DigitsBelowPow10(digits);
    QuotientBelowOne(DigitsValue(digits) as real, Pow10(|digits|) as real);
    DigitsValue(digits) as real / Pow10(|digits|) as real
  }

  lemma QuotientBelowOne(x: real, y: real)
    requires 0.0 <= x < y
    ensures 0.0 <= x / y < 1.0
  {
  }

  /** `n` decimal digits stay below `10^n`. */
  lemma {:induction false} DigitsBelowPow10(digits: string)
    requires AllDigits(digits)
    ensures DigitsValue(digits) < Pow10(|digits|)
    decreases |digits|
  {
    if |digits| > 0 {
      var init := digits[..|digits| - 1];
      DigitsBelowPow10(init);
      assert DigitsValue(digits) == 10 * DigitsValue(init) + DigitValue(digits[|digits| - 1]);
      assert Pow10(|digits|) == 10 * Pow10(|init|);
    }
  }

  /**
   `parseFloat` on an unsigned decimal numeral: digits, optionally followed by a
   point and more digits. Other shapes are reported as not a number here; the
   token pattern never produces them.
   */
  function NumeralValue(t: string): Option<Money>
  {
    if '.' in t then
      var i := IndexOf(t, '.');
      if i > 0 && AllDigits(t[..i]) && AllDigits(t[i + 1..]) then
        Some(DigitsValue(t[..i]) as real + Fraction(t[i + 1..]))
      else None
    else if |t| > 0 && AllDigits(t) then Some(DigitsValue(t) as real)
    else None
  }

  /**
   The amount of one line: `line.match(numberPattern)` and, when it matched,
   `parseFloat(matches[0].replace(/[$,]/g, ''))` unless that is NaN. A line yields
   an amount exactly when it contains a digit, and the amount is never negative.
   */
  function MatchAmount(line: string): (r: Option<Money>)
    ensures r.Some? <==> exists i | 0 <= i < |line| :: IsDigit(line[i])
    ensures r.Some? ==> r.value >= 0.0
  {
    match FirstTokenStart(line, 0)
    case None =>
      assert forall i | 0 <= i < |line| :: !IsDigit(line[i]) by {
        forall i | 0 <= i < |line| ensures !IsDigit(line[i]) {
          assert !StartsToken(line, i);
        }
      }
      None
    case Some(p) =>
      TokenAlwaysParses(line, p);
      assert IsDigit(line[DigitsStart(line, p)]);
      NumeralValue(RemoveSeparators(line[p..TokenEnd(line, p)]))
  }

  lemma {:induction false} RemoveSeparatorsAppend(a: string, b: string)
    ensures RemoveSeparators(a + b) == RemoveSeparators(a) + RemoveSeparators(b)
    decreases |a|
  {
    if a == [] {
      assert a + b == b;
    } else {
      assert (a + b)[0] == a[0];
      assert (a + b)[1..] == a[1..] + b;
      RemoveSeparatorsAppend(a[1..], b);
    }
  }

  lemma {:induction false} RemoveSeparatorsKeepsDigits(t: string)
    requires AllDigits(t)
    ensures RemoveSeparators(t) == t
    decreases |t|
  {
    if t != [] {
      RemoveSeparatorsKeepsDigits(t[1..]);
    }
  }

  /** The thousands groups lose their commas and leave only digits. */
  lemma {:induction false} GroupsLeaveDigits(s: string, i: nat)
    requires i <= |s|
    ensures AllDigits(RemoveSeparators(s[i..GroupsEnd(s, i)]))
    decreases |s| - i
  {
    if GroupAt(s, i) {
      var e := GroupsEnd(s, i + 4);
      SliceAppend(s, i, i + 4, e);
      RemoveSeparatorsAppend(s[i..i + 4], s[i + 4..e]);
      assert s[i..i + 4] == [','] + s[i + 1..i + 4];
      RemoveSeparatorsAppend([','], s[i + 1..i + 4]);
      RemoveSeparatorsKeepsDigits(s[i + 1..i + 4]);
      GroupsLeaveDigits(s, i + 4);
    } else {
      assert s[i..i] == [];
    }
  }

  /** A numeral of digits followed by nothing or by a point and two digits. */
  lemma NumeralOfDigitsAndCents(d: string, f: string)
    requires |d| > 0 && AllDigits(d)
    requires f == [] || (|f| == 3 && f[0] == '.' && IsDigit(f[1]) && IsDigit(f[2]))
    ensures NumeralValue(d + f).Some? && NumeralValue(d + f).value >= 0.0
  {
    var t := d + f;
    if f == [] {
      assert t == d;
      assert '.' !in t;
    } else {
      assert t[..|d|] == d;
      assert '.' !in d;
      IndexOfFirst(t, '.', |d|);
      assert t[|d| + 1..] == f[1..];
    }
  }

  /** The cleaned token of any match is a numeral: `parseFloat` never yields NaN for it. */
  lemma TokenAlwaysParses(s: string, p: nat)
    requires StartsToken(s, p)
    ensures NumeralValue(RemoveSeparators(s[p..TokenEnd(s, p)])).Some?
    ensures NumeralValue(RemoveSeparators(s[p..TokenEnd(s, p)])).value >= 0.0
  {
    var d, f := CleanedTokenShape(s, p);
    NumeralOfDigitsAndCents(d, f);
  }

  /** With separators removed, a match is a digit run followed by nothing or by cents. */
  lemma CleanedTokenShape(s: string, p: nat) returns (d: string, f: string)
    requires StartsToken(s, p)
    ensures RemoveSeparators(s[p..TokenEnd(s, p)]) == d + f
    ensures |d| > 0 && AllDigits(d)
    ensures f == [] || (|f| == 3 && f[0] == '.' && IsDigit(f[1]) && IsDigit(f[2]))
  {
    var q := DigitsStart(s, p);
    var l := LeadEnd(s, q);
    var g := GroupsEnd(s, l);
    var e := TokenEnd(s, p);
    d := DigitsPart(s, p);
    f := s[g..e];
    SliceAppend(s, p, g, e);
    RemoveSeparatorsAppend(s[p..g], s[g..e]);
    if FractionAt(s, g) {
      CentsKept(f);
    } else {
      assert f == [];
    }
  }

  /** A point and two digits pass separator removal unchanged. */
  lemma CentsKept(f: string)
    requires |f| == 3 && f[0] == '.' && IsDigit(f[1]) && IsDigit(f[2])
    ensures RemoveSeparators(f) == f
  {
    assert f == ['.'] + f[1..];
    RemoveSeparatorsAppend(['.'], f[1..]);
    RemoveSeparatorsKeepsDigits(f[1..]);
  }

  /** The part of a match before its cents loses its dollar sign and commas and keeps its digits. */
  lemma DigitsPart(s: string, p: nat) returns (d: string)
    requires StartsToken(s, p)
    ensures d == RemoveSeparators(s[p..GroupsEnd(s, LeadEnd(s, DigitsStart(s, p)))])
    ensures |d| > 0 && AllDigits(d)
  {
    var q := DigitsStart(s, p);
    var l := LeadEnd(s, q);
    var g := GroupsEnd(s, l);
    LeadKeptGroupsCleaned(s, q);
    SignDropped(s, p, q, g);
    GroupsLeaveDigits(s, l);
    d := s[q..l] + RemoveSeparators(s[l..g]);
  }

  /** Removing separators keeps the leading digits and cleans only the groups after them. */
  lemma LeadKeptGroupsCleaned(s: string, q: nat)
    requires q < |s| && IsDigit(s[q])
    ensures RemoveSeparators(s[q..GroupsEnd(s, LeadEnd(s, q))])
            == s[q..LeadEnd(s, q)] + RemoveSeparators(s[LeadEnd(s, q)..GroupsEnd(s, LeadEnd(s, q))])
  {
    var l := LeadEnd(s, q);
    var g := GroupsEnd(s, l);
    var lead := s[q..l];
    var rest := s[l..g];
    SliceAppend(s, q, l, g);
    RemoveSeparatorsAppend(lead, rest);
    assert AllDigits(lead) by {
      forall i | 0 <= i < |lead| ensures IsDigit(lead[i]) {
        assert lead[i] == s[q + i];
      }
    }
    RemoveSeparatorsKeepsDigits(lead);
  }

  /** A leading dollar sign is removed with the separators. */
  lemma SignDropped(s: string, p: nat, q: nat, g: nat)
    requires q <= g <= |s|
    requires q == p || (q == p + 1 && s[p] == '$')
    ensures RemoveSeparators(s[p..g]) == RemoveSeparators(s[q..g])
  {
    SliceAppend(s, p, q, g);
    RemoveSeparatorsAppend(s[p..q], s[q..g]);
    if q == p + 1 {
      assert s[p..q] == ['$'];
    } else {
      assert s[p..q] == [];
    }
  }

  /** The search finds `p` when `p` is the first place a match can begin. */
  lemma {:induction false} FirstTokenStartAt(s: string, from: nat, p: nat)
    requires from <= p && StartsToken(s, p)
    requires forall q | from <= q < p :: !StartsToken(s, q)
    ensures FirstTokenStart(s, from) == Some(p)
    decreases p - from
  {
    if from < p {
      FirstTokenStartAt(s, from + 1, p);
    }
  }

  /** An unseparated run of digits yields only its first three: `12345` reads as 123. */
  lemma UnseparatedRunTruncated()
    ensures MatchAmount("12345") == Some(123.0)
  {
    var s := "12345";
    FirstTokenStartAt(s, 0, 0);
    assert LeadEnd(s, 0) == 3;
    assert !GroupAt(s, 3);
    assert TokenEnd(s, 0) == 3;
    assert s[0..3] == "123";
    assert RemoveSeparators("123") == "123" by {
      RemoveSeparatorsKeepsDigits("123");
    }
    assert DigitsValue("123") == 123 by {
      assert "123"[..2] == "12";
      assert "12"[..1] == "1";
      assert "1"[..0] == "";
    }
  }

  lemma RemoveSeparatorsDrops(c: char, t: string)
    requires c == '$' || c == ','
    ensures RemoveSeparators([c] + t) == RemoveSeparators(t)
  {
    assert ([c] + t)[1..] == t;
  }

  lemma RemoveSeparatorsKeeps(c: char, t: string)
    requires c != '$' && c != ','
    ensures RemoveSeparators([c] + t) == [c] + RemoveSeparators(t)
  {
    assert ([c] + t)[1..] == t;
  }

  /** The text `$lead,group.cents`. */
  function DollarText(lead: string, group: string, cents: string): string
  {
    ['$'] + lead + [','] + group + ['.'] + cents
  }

  /** A dollar amount with one thousands separator and cents loses the sign and the comma, nothing else. */
  lemma CleanDollarAmount(lead: string, group: string, cents: string)
    requires AllDigits(lead) && AllDigits(group) && AllDigits(cents)
    ensures RemoveSeparators(DollarText(lead, group, cents)) == lead + group + ['.'] + cents
  {
    var a := ['$'] + lead;
    assert RemoveSeparators(a) == lead by {
      RemoveSeparatorsAppend(['$'], lead);
      RemoveSeparatorsKeepsDigits(lead);
      RemoveSeparatorsDrops('$', []);
      assert ['$'] + [] == ['$'];
    }
    var b := a + [','];
    assert RemoveSeparators(b) == lead by {
      RemoveSeparatorsAppend(a, [',']);
      RemoveSeparatorsDrops(',', []);
      assert [','] + [] == [','];
    }
    var c := b + group;
    assert RemoveSeparators(c) == lead + group by {
      RemoveSeparatorsAppend(b, group);
      RemoveSeparatorsKeepsDigits(group);
    }
    var e := c + ['.'];
    assert RemoveSeparators(e) == lead + group + ['.'] by {
      RemoveSeparatorsAppend(c, ['.']);
      RemoveSeparatorsKeeps('.', []);
      assert ['.'] + [] == ['.'];
    }
    assert RemoveSeparators(e + cents) == lead + group + ['.'] + cents by {
      RemoveSeparatorsAppend(e, cents);
      RemoveSeparatorsKeepsDigits(cents);
    }
  }

  /** Appending digits shifts the value of the digits before them. */
  lemma {:induction false} DigitsValueAppend(a: string, b: string)
    requires AllDigits(a) && AllDigits(b)
    ensures AllDigits(a + b)
    ensures DigitsValue(a + b) == DigitsValue(a) * Pow10(|b|) + DigitsValue(b)
    decreases |b|
  {
    if b == [] {
      assert a + b == a;
    } else {
      var init, d := b[..|b| - 1], DigitValue(b[|b| - 1]);
      assert (a + b)[..|a + b| - 1] == a + init;
      assert (a + b)[|a + b| - 1] == b[|b| - 1];
      DigitsValueAppend(a, init);
      var x, y := DigitsValue(a), Pow10(|init|);
      assert DigitsValue(a + b) == 10 * (x * y + DigitsValue(init)) + d;
      assert DigitsValue(b) == 10 * DigitsValue(init) + d;
      assert Pow10(|b|) == 10 * y;
      ShiftTen(x, y);
    }
  }

  lemma ShiftTen(x: nat, y: nat)
    ensures 10 * (x * y) == x * (10 * y)
  {
  }

  lemma DivideByHundred(x: real, d: nat)
    requires d == 100
    ensures x / d as real == x / 100.0
  {
  }

  /** `parseFloat` of digits, a point at `i` and more digits. */
  lemma NumeralWithPoint(t: string, i: nat)
    requires 0 < i < |t| && t[i] == '.' && '.' !in t[..i]
    requires AllDigits(t[..i]) && AllDigits(t[i + 1..])
    ensures NumeralValue(t) == Some(DigitsValue(t[..i]) as real + Fraction(t[i + 1..]))
  {
    IndexOfFirst(t, '.', i);
  }

  /** A thousands group appended to the leading digits multiplies them by 1000. */
  lemma ThousandsWhole(lead: string, group: string)
    requires AllDigits(lead) && AllDigits(group) && |group| == 3
    ensures AllDigits(lead + group)
    ensures DigitsValue(lead + group) == DigitsValue(lead) * 1000 + DigitsValue(group)
  {
    DigitsValueAppend(lead, group);
    assert Pow10(|group|) == 1000;
  }

  lemma CentsFraction(cents: string)
    requires AllDigits(cents) && |cents| == 2
    ensures Fraction(cents) == DigitsValue(cents) as real / 100.0
  {
    assert Pow10(|cents|) == 100;
    DivideByHundred(DigitsValue(cents) as real, Pow10(|cents|));
  }

  /** The cleaned amount splits at its point into the whole digits and the cents. */
  lemma ThousandsPoint(lead: string, group: string, cents: string)
    requires AllDigits(lead) && |lead| >= 1 && AllDigits(group) && |group| == 3 && AllDigits(cents) && |cents| == 2
    ensures var t := lead + group + ['.'] + cents;
            var i := |lead| + 3;
            i < |t| && t[..i] == lead + group && t[i + 1..] == cents && t[i] == '.' && '.' !in t[..i]
  {
    var t := lead + group + ['.'] + cents;
    var i := |lead| + 3;
    assert t[..i] == lead + group;
    assert t[i + 1..] == cents;
    forall k | 0 <= k < i ensures t[..i][k] != '.' {
      assert IsDigit((lead + group)[k]);
    }
  }

  /** `parseFloat` of a cleaned amount with a thousands group and cents. */
  lemma NumeralOfThousands(lead: string, group: string, cents: string)
    requires AllDigits(lead) && |lead| >= 1 && AllDigits(group) && |group| == 3 && AllDigits(cents) && |cents| == 2
    ensures NumeralValue(lead + group + ['.'] + cents)
            == Some((DigitsValue(lead) * 1000 + DigitsValue(group)) as real + DigitsValue(cents) as real / 100.0)
  {
    var t := lead + group + ['.'] + cents;
    var i := |lead| + 3;
    ThousandsPoint(lead, group, cents);
    ThousandsWhole(lead, group);
    CentsFraction(cents);
    NumeralWithPoint(t, i);
  }

  /**
   Where a `$lead,group.cents` token placed after text without digits begins and
   ends; whatever follows the cents is not part of the match.
   */
  lemma DollarTokenSpan(prefix: string, lead: string, group: string, cents: string, suffix: string)
    requires forall k | 0 <= k < |prefix| :: !IsDigit(prefix[k])
    requires AllDigits(lead) && 1 <= |lead| <= 3 && AllDigits(group) && |group| == 3 && AllDigits(cents) && |cents| == 2
    ensures var s := prefix + DollarText(lead, group, cents) + suffix;
            FirstTokenStart(s, 0) == Some(|prefix|) && TokenEnd(s, |prefix|) == |prefix| + |DollarText(lead, group, cents)|
  {
    var t := DollarText(lead, group, cents);
    assert t[0] == '$' && t[1] == lead[0];
    AppendAssociative(prefix, t, suffix);
    FirstStartAfterPrefix(prefix, t + suffix);
    DollarTokenEnd(prefix, lead, group, cents, suffix);
  }

  /** After text without digits, a match begins at a dollar sign followed by a digit. */
  lemma FirstStartAfterPrefix(prefix: string, t: string)
    requires forall k | 0 <= k < |prefix| :: !IsDigit(prefix[k])
    requires |t| >= 2 && t[0] == '$' && IsDigit(t[1])
    ensures FirstTokenStart(prefix + t, 0) == Some(|prefix|)
  {
    var s := prefix + t;
    var p := |prefix|;
    assert s[p] == '$' && s[p + 1] == t[1];
    assert forall k | 0 <= k < p :: s[k] == prefix[k];
    forall q | 0 <= q < p ensures !StartsToken(s, q) {
      if q + 1 < p {
        assert !IsDigit(s[q + 1]);
      }
    }
    FirstTokenStartAt(s, 0, p);
  }

  /** The greedy match at the dollar sign runs to the end of the cents and no further. */
  lemma DollarTokenEnd(prefix: string, lead: string, group: string, cents: string, suffix: string)
    requires AllDigits(lead) && 1 <= |lead| <= 3 && AllDigits(group) && |group| == 3 && AllDigits(cents) && |cents| == 2
    ensures var s := prefix + DollarText(lead, group, cents) + suffix;
            StartsToken(s, |prefix|) && TokenEnd(s, |prefix|) == |prefix| + |DollarText(lead, group, cents)|
  {
    var s := prefix + ['$'] + lead + [','] + group + ['.'] + cents + suffix;
    assert s == prefix + DollarText(lead, group, cents) + suffix;
    var p := |prefix|;
    var l := p + 1 + |lead|;
    assert s[p] == '$';
    assert forall k | 0 <= k < |lead| :: s[p + 1 + k] == lead[k];
    assert forall k | 0 <= k < 3 :: s[l + 1 + k] == group[k];
    assert s[l] == ',' && s[l + 4] == '.' && s[l + 5] == cents[0] && s[l + 6] == cents[1];
    assert StartsToken(s, p) by { assert IsDigit(lead[0]); }
    assert DigitsStart(s, p) == p + 1;
    var e := LeadEnd(s, p + 1);
    assert e == l;
    assert GroupAt(s, l);
    assert GroupsEnd(s, l) == l + 4 by {
      assert !GroupAt(s, l + 4);
    }
    assert FractionAt(s, l + 4);
  }

  /**
   An amount written with a dollar sign, one thousands separator and cents, after
   text without digits and before any text at all, reads as its value:
   `fee $1,250.00 today` reads as 1250.
   */
  lemma DollarAmountWithCents(prefix: string, lead: string, group: string, cents: string, suffix: string)
    requires forall k | 0 <= k < |prefix| :: !IsDigit(prefix[k])
    requires AllDigits(lead) && 1 <= |lead| <= 3 && AllDigits(group) && |group| == 3 && AllDigits(cents) && |cents| == 2
    ensures MatchAmount(prefix + DollarText(lead, group, cents) + suffix)
            == Some((DigitsValue(lead) * 1000 + DigitsValue(group)) as real + DigitsValue(cents) as real / 100.0)
  {
    var text := DollarText(lead, group, cents);
    var s := prefix + text + suffix;
    var p := |prefix|;
    DollarTokenSpan(prefix, lead, group, cents, suffix);
    var token := s[p..TokenEnd(s, p)];
    MiddleSlice(prefix, text, suffix);
    assert token == text;
    CleanDollarAmount(lead, group, cents);
    var cleaned := lead + group + ['.'] + cents;
    assert RemoveSeparators(token) == cleaned;
    NumeralOfThousands(lead, group, cents);
    assert MatchAmount(s) == NumeralValue(RemoveSeparators(token));
  }
}

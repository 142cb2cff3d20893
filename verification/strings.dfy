/**
 The JavaScript string operations the application relies on, over `seq<char>`:
 `trim`, `toLowerCase` (ASCII letters), `includes`, `endsWith`, `split` with a
 one-character separator and `join`, and decimal rendering of counts.
 */
module Strings {

  /** The characters `String.prototype.trim` removes: ECMAScript WhiteSpace and LineTerminator. */
  predicate IsWhitespace(c: char)
  {
    || c == ' ' || c == '\t' || c == '\n' || c == '\r'
    || c == '\U{000B}' || c == '\U{000C}' || c == '\U{00A0}' || c == '\U{FEFF}'
    || c == '\U{1680}' || ('\U{2000}' <= c <= '\U{200A}')
    || c == '\U{2028}' || c == '\U{2029}' || c == '\U{202F}' || c == '\U{205F}' || c == '\U{3000}'
  }

  /** A string with nothing but whitespace in it: `s.trim()` is falsy. */
  predicate IsBlank(s: string)
  {
    forall i | 0 <= i < |s| :: IsWhitespace(s[i])
  }

  function TrimStart(s: string): (r: string)
    ensures |r| <= |s| && r == s[|s| - |r|..]
    ensures r == [] || !IsWhitespace(r[0])
    ensures IsBlank(s[..|s| - |r|])
  {
    if |s| > 0 && IsWhitespace(s[0]) then
      var t := s[1..];
      var r := TrimStart(t);
      assert forall i | 0 < i < |s| - |r| :: s[i] == t[..|t| - |r|][i - 1];
      r
    else s
  }

  function TrimEnd(s: string): (r: string)
    ensures |r| <= |s| && r == s[..|r|]
    ensures r == [] || !IsWhitespace(r[|r| - 1])
    ensures IsBlank(s[|r|..])
  {
    if |s| > 0 && IsWhitespace(s[|s| - 1]) then
      var t := s[..|s| - 1];
      var r := TrimEnd(t);
      assert forall i | |r| <= i < |s| - 1 :: s[i] == t[|r|..][i - |r|];
      r
    else s
  }

  /** `s.trim()`: a contiguous piece of `s` with no whitespace at either end; empty exactly for blank input. */
  function Trim(s: string): (r: string)
    ensures |r| <= |s|
    ensures r == [] || (!IsWhitespace(r[0]) && !IsWhitespace(r[|r| - 1]))
    ensures r == [] <==> IsBlank(s)
  {
    TrimEmptyIffBlank(s);
    TrimEnd(TrimStart(s))
  }

  lemma TrimEmptyIffBlank(s: string)
    ensures TrimEnd(TrimStart(s)) == [] <==> IsBlank(s)
  {
    TrimStartKeepsBlank(s);
    TrimEndEmptyIffBlank(TrimStart(s));
  }

  lemma TrimStartKeepsBlank(s: string)
    ensures IsBlank(TrimStart(s)) <==> IsBlank(s)
  {
    var t := TrimStart(s);
    var p := s[..|s| - |t|];
    assert s == p + t;
    BlankConcat(p, t);
  }

  lemma TrimEndEmptyIffBlank(t: string)
    ensures TrimEnd(t) == [] <==> IsBlank(t)
  {
    var r := TrimEnd(t);
    if r == [] {
      assert t[|r|..] == t;
    } else {
      assert t[|r| - 1] == r[|r| - 1];
    }
  }

  /** A concatenation is blank exactly when both parts are. */
  lemma BlankConcat(p: string, t: string)
    ensures IsBlank(p + t) <==> IsBlank(p) && IsBlank(t)
  {
    if IsBlank(p + t) {
      assert forall i | 0 <= i < |p| :: p[i] == (p + t)[i];
      assert forall i | 0 <= i < |t| :: t[i] == (p + t)[|p| + i];
    }
  }

  /** `c.toLowerCase()` on ASCII letters; other characters are kept. */
  function LowerChar(c: char): char
  {
    if 'A' <= c <= 'Z' then (c as int + 32) as char else c
  }

  /** `s.toLowerCase()`, restricted to ASCII letters. */
  function Lower(s: string): (r: string)
    ensures |r| == |s|
    ensures forall i | 0 <= i < |s| :: r[i] == LowerChar(s[i])
  {
    seq(|s|, i requires 0 <= i < |s| => LowerChar(s[i]))
  }

  /** `w` occurs in `s` starting at index `i`. */
  predicate OccursAt(s: string, w: string, i: int)
  {
    0 <= i && i + |w| <= |s| && s[i..i + |w|] == w
  }

  /** `s.includes(w)`. */
  predicate Contains(s: string, w: string)
  {
    exists i | 0 <= i <= |s| - |w| :: OccursAt(s, w, i)
  }

  /** `s.endsWith(suffix)`. */
  predicate EndsWith(s: string, suffix: string)
  {
    |suffix| <= |s| && s[|s| - |suffix|..] == suffix
  }

  /** The index of the first `d` in `s`. */
  function IndexOf(s: string, d: char): (i: nat)
    requires d in s
    ensures i < |s| && s[i] == d && d !in s[..i]
  {
    if s[0] == d then 0 else 1 + IndexOf(s[1..], d)
  }

  /** Any index of `d` with no earlier `d` is the one `IndexOf` finds. */
  lemma {:induction false} IndexOfFirst(s: string, d: char, j: nat)
    requires j < |s| && s[j] == d && d !in s[..j]
    ensures IndexOf(s, d) == j
  {
    if j > 0 {
      assert s[0] == s[..j][0];
      assert s[1..][..j - 1] == s[..j][1..];
      IndexOfFirst(s[1..], d, j - 1);
    }
  }

  /** `s.split(d)` for a one-character separator: the pieces between separators, at least one. */
  function Split(s: string, d: char): (r: seq<string>)
    ensures |r| >= 1
    ensures forall k | 0 <= k < |r| :: d !in r[k]
    decreases |s|
  {
    if d !in s then [s]
    else
      var i := IndexOf(s, d);
      [s[..i]] + Split(s[i + 1..], d)
  }

  /** `parts.join(d)`; joining no parts gives the empty string. */
  function Join(parts: seq<string>, d: char): string
  {
    if |parts| == 0 then []
    else if |parts| == 1 then parts[0]
    else parts[0] + [d] + Join(parts[1..], d)
  }

  /** Joining the pieces of a split restores the string. */
  lemma {:induction false} JoinSplit(s: string, d: char)
    ensures Join(Split(s, d), d) == s
    decreases |s|
  {
    if d in s {
      var i := IndexOf(s, d);
      var rest := Split(s[i + 1..], d);
      JoinSplit(s[i + 1..], d);
      assert Split(s, d) == [s[..i]] + rest;
      assert (([s[..i]] + rest)[1..]) == rest;
      assert s == s[..i] + [d] + s[i + 1..];
    }
  }

  /** Splitting a join of separator-free pieces gives the pieces back. */
  lemma {:induction false} SplitJoin(parts: seq<string>, d: char)
    requires |parts| >= 1
    requires forall k | 0 <= k < |parts| :: d !in parts[k]
    ensures Split(Join(parts, d), d) == parts
    decreases |parts|
  {
    if |parts| > 1 {
      var s := Join(parts, d);
      var tail := Join(parts[1..], d);
      assert s == parts[0] + [d] + tail;
      assert s[|parts[0]|] == d;
      assert s[..|parts[0]|] == parts[0];
      IndexOfFirst(s, d, |parts[0]|);
      assert s[|parts[0]| + 1..] == tail;
      SplitJoin(parts[1..], d);
    } else {
      assert Join(parts, d) == parts[0];
    }
  }

  /** A trailing separator adds one empty piece at the end. */
  lemma {:induction false} SplitTrailingSeparator(s: string, d: char)
    ensures Split(s + [d], d) == Split(s, d) + [[]]
    decreases |s|
  {
    var t := s + [d];
    if d in s {
      var i := IndexOf(s, d);
      assert t[..i] == s[..i] && t[i] == d;
      IndexOfFirst(t, d, i);
      assert t[i + 1..] == s[i + 1..] + [d];
      SplitTrailingSeparator(s[i + 1..], d);
      var rest := Split(s[i + 1..], d);
      assert Split(t, d) == [s[..i]] + (rest + [[]]);
      assert Split(s, d) == [s[..i]] + rest;
      AppendAssociative([s[..i]], rest, [[]]);
    } else {
      assert t[..|s|] == s;
      IndexOfFirst(t, d, |s|);
      assert t[|s| + 1..] == [];
      assert Split(t, d) == [s] + Split([], d);
    }
  }

  lemma AppendAssociative<T>(a: seq<T>, b: seq<T>, c: seq<T>)
    ensures a + (b + c) == (a + b) + c
  {
  }

  lemma SliceAppend<T>(s: seq<T>, i: nat, j: nat, k: nat)
    requires i <= j <= k <= |s|
    ensures s[i..k] == s[i..j] + s[j..k]
  {
  }

  /** The middle part of a three-part concatenation, sliced back out. */
  lemma MiddleSlice<T>(a: seq<T>, b: seq<T>, c: seq<T>)
    ensures (a + b + c)[|a|..|a| + |b|] == b
  {
  }

  /** Joined pieces carry a separator only where the join put one. */
  lemma {:induction false} JoinFree(parts: seq<string>, d: char, e: char)
    requires e != d
    requires forall k | 0 <= k < |parts| :: e !in parts[k]
    ensures e !in Join(parts, d)
    decreases |parts|
  {
    if |parts| > 1 {
      JoinFree(parts[1..], d, e);
    }
  }

  /** How often `c` occurs in `s`. */
  function CharCount(s: string, c: char): (n: nat)
    ensures n == 0 <==> c !in s
  {
    if |s| == 0 then 0 else CharCount(s[..|s| - 1], c) + (if s[|s| - 1] == c then 1 else 0)
  }

  lemma {:induction false} CharCountAppend(a: string, b: string, c: char)
    ensures CharCount(a + b, c) == CharCount(a, c) + CharCount(b, c)
    decreases |b|
  {
    if |b| == 0 {
      assert a + b == a;
    } else {
      assert (a + b)[..|a + b| - 1] == a + b[..|b| - 1];
      CharCountAppend(a, b[..|b| - 1], c);
    }
  }

  /** A split has one more piece than the string has separators. */
  lemma {:induction false} SplitLength(s: string, d: char)
    ensures |Split(s, d)| == CharCount(s, d) + 1
    decreases |s|
  {
    if d in s {
      var i := IndexOf(s, d);
      assert s == s[..i] + [d] + s[i + 1..];
      CharCountAppend(s[..i] + [d], s[i + 1..], d);
      CharCountAppend(s[..i], [d], d);
      assert [d][..0] == [];
      SplitLength(s[i + 1..], d);
    }
  }

  /** The first piece of a split is the text before the first separator, or all of it. */
  lemma SplitFirst(s: string, d: char)
    ensures d !in s ==> Split(s, d)[0] == s
    ensures d in s ==> Split(s, d)[0] == s[..IndexOf(s, d)]
  {
  }

  /** The last element of a non-empty sequence. */
  function LastOf<T>(xs: seq<T>): T
    requires |xs| > 0
  {
    xs[|xs| - 1]
  }

  /** The last piece of `s.split(d)` (`.pop()`). */
  function LastPiece(s: string, d: char): string
  {
    LastOf(Split(s, d))
  }

  /** The last piece of a split is a separator-free suffix of the string, all of it when there is no separator. */
  lemma {:induction false} SplitLast(s: string, d: char)
    ensures d !in LastPiece(s, d)
    ensures |LastPiece(s, d)| <= |s| && s[|s| - |LastPiece(s, d)|..] == LastPiece(s, d)
    ensures d !in s ==> LastPiece(s, d) == s
    decreases |s|
  {
    if d in s {
      var i := IndexOf(s, d);
      var rest := s[i + 1..];
      LastPieceOfRest(s, d);
      SplitLast(rest, d);
      var last := LastPiece(rest, d);
      SuffixOfSlice(s, i + 1, |last|);
    }
  }

  /** With a separator present, the last piece is preceded by one. */
  lemma {:induction false} SplitLastAfterSeparator(s: string, d: char)
    requires d in s
    ensures |LastPiece(s, d)| < |s| && s[|s| - |LastPiece(s, d)| - 1] == d
    decreases |s|
  {
    var i := IndexOf(s, d);
    var rest := s[i + 1..];
    LastPieceOfRest(s, d);
    SplitLast(rest, d);
    var last := LastPiece(rest, d);
    if d !in rest {
      assert |last| == |rest|;
      assert s[|s| - |last| - 1] == s[i];
    } else {
      SplitLastAfterSeparator(rest, d);
      assert s[|s| - |last| - 1] == rest[|rest| - |last| - 1];
    }
  }

  /** The last piece of a split is the last piece of what follows the first separator. */
  lemma LastPieceOfRest(s: string, d: char)
    requires d in s
    ensures LastPiece(s, d) == LastPiece(s[IndexOf(s, d) + 1..], d)
  {
    var i := IndexOf(s, d);
    LastOfCons(s[..i], Split(s[i + 1..], d));
  }

  lemma LastOfCons<T>(x: T, r: seq<T>)
    requires |r| > 0
    ensures LastOf([x] + r) == LastOf(r)
  {
  }

  /** A suffix of a suffix slice is a suffix of the whole. */
  lemma SuffixOfSlice<T>(s: seq<T>, j: nat, n: nat)
    requires j <= |s| && n <= |s| - j
    ensures s[j..][|s| - j - n..] == s[|s| - n..]
  {
  }

  /** Lower-casing twice is lower-casing once. */
  lemma LowerIdempotent(s: string)
    ensures Lower(Lower(s)) == Lower(s)
  {
  }

  predicate IsDigit(c: char)
  {
    '0' <= c <= '9'
  }

  function DigitChar(n: nat): (c: char)
    requires n < 10
    ensures IsDigit(c)
  {
    ('0' as int + n) as char
  }

  function DigitValue(c: char): (n: nat)
    requires IsDigit(c)
    ensures n < 10 && DigitChar(n) == c
  {
    c as int - '0' as int
  }

  /** The value of a string of decimal digits, most significant first. */
  function DigitsValue(ds: string): nat
    requires forall i | 0 <= i < |ds| :: IsDigit(ds[i])
  {
    if |ds| == 0 then 0 else 10 * DigitsValue(ds[..|ds| - 1]) + DigitValue(ds[|ds| - 1])
  }

  /** `String(n)` for a natural number: its decimal digits without leading zeros. */
  function NatToString(n: nat): (s: string)
    ensures |s| >= 1
    ensures forall i | 0 <= i < |s| :: IsDigit(s[i])
  {
    if n < 10 then [DigitChar(n)] else NatToString(n / 10) + [DigitChar(n % 10)]
  }

  /** Reading back the rendered digits gives the number. */
  lemma {:induction false} NatToStringRoundTrip(n: nat)
    ensures DigitsValue(NatToString(n)) == n
  {
    if n >= 10 {
      var s := NatToString(n);
      assert s[..|s| - 1] == NatToString(n / 10);
      NatToStringRoundTrip(n / 10);
    }
  }
}

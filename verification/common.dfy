/**
 Shared value types of the ledger model: an optional value, money amounts
 and the sums and counts the dashboard computes with `Array.prototype.reduce`
 and `Array.prototype.filter`.
 */
module Common {

  /** A value that may be absent (`undefined` or `null` in the application). */
  datatype Option<+T> = None | Some(value: T) {

    /** The wrapped value, or `default` when absent (`x ?? default`). */
    function GetOr(default: T): (r: T)
      ensures Some? ==> r == value
      ensures None? ==> r == default
    {
      match this
      case Some(v) => v
      case None => default
    }
  }

  /** Amounts are exact decimals; the binary floating point of the application is not modelled. */
  type Money = real

  /** `xs.reduce((sum, x) => sum + x, 0)`: the left-to-right sum. */
  function Sum(xs: seq<Money>): Money
  {
    if |xs| == 0 then 0.0 else Sum(xs[..|xs| - 1]) + xs[|xs| - 1]
  }

  /** Summing a concatenation is summing its two halves. */
  lemma {:induction false} SumAppend(a: seq<Money>, b: seq<Money>)
    ensures Sum(a + b) == Sum(a) + Sum(b)
    decreases |b|
  {
    if |b| == 0 {
      assert a + b == a;
    } else {
      var b' := b[..|b| - 1];
      assert (a + b)[..|a + b| - 1] == a + b';
      SumAppend(a, b');
    }
  }

  /** A sequence that agrees with `ys` and has one more element sums to `ys`'s sum plus that element. */
  lemma SumOneMore(xs: seq<Money>, ys: seq<Money>)
    requires |xs| == |ys| + 1
    requires forall i | 0 <= i < |ys| :: xs[i] == ys[i]
    ensures Sum(xs) == Sum(ys) + xs[|ys|]
  {
    assert xs[..|ys|] == ys;
  }

  /** The sum of the first element prepended to the rest. */
  lemma SumCons(x: Money, xs: seq<Money>)
    ensures Sum([x] + xs) == x + Sum(xs)
  {
    SumAppend([x], xs);
    assert [x][..0] == [];
  }

  /** A sum of non-negative amounts is non-negative. */
  lemma {:induction false} SumNonNegative(xs: seq<Money>)
    requires forall i | 0 <= i < |xs| :: xs[i] >= 0.0
    ensures Sum(xs) >= 0.0
    decreases |xs|
  {
    if |xs| > 0 {
      SumNonNegative(xs[..|xs| - 1]);
    }
  }

  /** `xs.filter(p)`: the elements satisfying `p`, in their original order. */
  function Filter<T>(xs: seq<T>, p: T -> bool): (r: seq<T>)
    ensures |r| <= |xs|
    ensures forall i | 0 <= i < |r| :: p(r[i])
    ensures forall i | 0 <= i < |r| :: r[i] in xs
    ensures forall i | 0 <= i < |xs| && p(xs[i]) :: xs[i] in r
  {
    if |xs| == 0 then []
    else (if p(xs[0]) then [xs[0]] else []) + Filter(xs[1..], p)
  }

  /** Nothing survives a filter that rejects every element. */
  lemma {:induction false} FilterNone<T>(xs: seq<T>, p: T -> bool)
    requires forall x | x in xs :: !p(x)
    ensures Filter(xs, p) == []
    decreases |xs|
  {
    if |xs| > 0 {
      assert forall x | x in xs[1..] :: x in xs;
      FilterNone(xs[1..], p);
    }
  }

  /** Filtering distributes over concatenation. */
  lemma {:induction false} FilterAppend<T>(a: seq<T>, b: seq<T>, p: T -> bool)
    ensures Filter(a + b, p) == Filter(a, p) + Filter(b, p)
    decreases |a|
  {
    if |a| == 0 {
      assert a + b == b;
    } else {
      assert (a + b)[0] == a[0];
      assert (a + b)[1..] == a[1..] + b;
      FilterAppend(a[1..], b, p);
    }
  }

  /** A filter keeps every copy of a kept element and none of a dropped one. */
  lemma {:induction false} FilterMultiplicity<T>(xs: seq<T>, p: T -> bool, x: T)
    ensures multiset(Filter(xs, p))[x] == if p(x) then multiset(xs)[x] else 0
    decreases |xs|
  {
    if |xs| > 0 {
      FilterMultiplicity(xs[1..], p, x);
      assert xs == [xs[0]] + xs[1..];
    }
  }

  /** `xs.filter(p).length`. */
  function Count<T>(xs: seq<T>, p: T -> bool): nat
  {
    |Filter(xs, p)|
  }

  /** Two conditions that never hold together select at most all of the elements. */
  lemma {:induction false} CountDisjoint<T>(xs: seq<T>, p: T -> bool, q: T -> bool)
    requires forall x | x in xs :: !(p(x) && q(x))
    ensures Count(xs, p) + Count(xs, q) <= |xs|
    decreases |xs|
  {
    if |xs| > 0 {
      CountDisjoint(xs[1..], p, q);
    }
  }

  /** The first `n` elements, or all of them when there are fewer (`xs.slice(0, n)`). */
  function Take<T>(xs: seq<T>, n: nat): (r: seq<T>)
    ensures |r| == if |xs| < n then |xs| else n
    ensures forall i | 0 <= i < |r| :: r[i] == xs[i]
  {
    if |xs| <= n then xs else xs[..n]
  }

  /** `parseFloat` or `Number` on a string: a number, or `None` for NaN. Its behaviour is a parameter of the model. */
  type NumberParser = string -> Option<Money>

  /** The parsed values of texts that all parse. */
  function ParsedValues(texts: seq<string>, parse: NumberParser): (xs: seq<Money>)
    requires forall i | 0 <= i < |texts| :: parse(texts[i]).Some?
    ensures |xs| == |texts| && forall i | 0 <= i < |texts| :: xs[i] == parse(texts[i]).value
  {
    seq(|texts|, i requires 0 <= i < |texts| => parse(texts[i]).value)
  }

  /**
   `texts.reduce((sum, t) => sum + Number(t), 0)`: NaN (`None`) as soon as one text
   does not parse, otherwise the sum of the parsed values.
   */
  function SumParsed(texts: seq<string>, parse: NumberParser): (r: Option<Money>)
    ensures r.Some? <==> forall i | 0 <= i < |texts| :: parse(texts[i]).Some?
    ensures r.Some? ==> r.value == Sum(ParsedValues(texts, parse))
  {
    if |texts| == 0 then Some(0.0)
    else
      var init := texts[..|texts| - 1];
      assert (forall i | 0 <= i < |texts| :: parse(texts[i]).Some?) ==>
               ParsedValues(texts, parse)[..|texts| - 1] == ParsedValues(init, parse);
      match (SumParsed(init, parse), parse(texts[|texts| - 1]))
      case (Some(a), Some(b)) => Some(a + b)
      case _ => None
  }
}

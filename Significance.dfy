/** The accept/refuse character rule and the filter it induces.

    A formatted input is configured either with an `accept` pattern (the characters
    that are significant input, digits by default) or with a `refuse` pattern (the
    characters that are thrown away).  Every other character of the edited text is
    decoration that the formatter may insert, move or drop at will.
 */
module Significance {

  /** The single-character classification a formatted input is configured with. */
  datatype CharRule = Accept(matches: char -> bool) | Refuse(matches: char -> bool)
  {
    /** True when `c` is significant input under this rule. */
    predicate Significant(c: char) {
      match this
      case Accept(p) => p(c)
      case Refuse(p) => !p(c)
    }
  }

  predicate IsDigit(c: char) {
    '0' <= c <= '9'
  }

  /** The default rule: only decimal digits are significant. */
  const DigitsOnly: CharRule := Accept(IsDigit)

  /** The rule of the currency inputs, written as `refuse: /[^\d.]/gi`. */
  predicate NotDigitOrPoint(c: char) {
    !(IsDigit(c) || c == '.')
  }

  const DigitsAndPoint: CharRule := Refuse(NotDigitOrPoint)

  ghost predicate AllSignificant(rule: CharRule, s: string) {
    forall i :: 0 <= i < |s| ==> rule.Significant(s[i])
  }

  /** The significant characters of `s`, in their original order. */
  function Filter(rule: CharRule, s: string): (r: string)
    ensures |r| <= |s|
    ensures AllSignificant(rule, r)
  {
    if s == [] then []
    else (if rule.Significant(s[0]) then [s[0]] else []) + Filter(rule, s[1..])
  }

  /** A character survives the filter exactly when it occurs in the input and is significant. */
  lemma {:induction false} FilterMembership(rule: CharRule, s: string, c: char)
    ensures c in Filter(rule, s) <==> c in s && rule.Significant(c)
  {
    if s != [] {
      FilterMembership(rule, s[1..], c);
      assert s == [s[0]] + s[1..];
    }
  }

  /** Filtering distributes over concatenation: it never moves a character across a cut. */
  lemma {:induction false} FilterAppend(rule: CharRule, a: string, b: string)
    ensures Filter(rule, a + b) == Filter(rule, a) + Filter(rule, b)
  {
    if a == [] {
      assert a + b == b;
    } else {
      var head := if rule.Significant(a[0]) then [a[0]] else [];
      assert (a + b)[0] == a[0];
      assert (a + b)[1..] == a[1..] + b;
      FilterAppend(rule, a[1..], b);
      calc {
        Filter(rule, a + b);
        head + Filter(rule, a[1..] + b);
        head + (Filter(rule, a[1..]) + Filter(rule, b));
        (head + Filter(rule, a[1..])) + Filter(rule, b);
        Filter(rule, a) + Filter(rule, b);
      }
    }
  }

  /** The filter leaves a string alone exactly when every character of it is significant. */
  lemma {:induction false} FilterFixedPoint(rule: CharRule, s: string)
    ensures Filter(rule, s) == s <==> AllSignificant(rule, s)
  {
    if s != [] {
      FilterFixedPoint(rule, s[1..]);
      if !rule.Significant(s[0]) {
        assert |Filter(rule, s)| < |s|;
      }
    }
  }

  /** Filtering twice is filtering once. */
  lemma {:induction false} FilterIdempotent(rule: CharRule, s: string)
    ensures Filter(rule, Filter(rule, s)) == Filter(rule, s)
  {
    FilterFixedPoint(rule, Filter(rule, s));
  }

  /** The significant characters before a cut are a prefix of those of the whole string. */
  lemma {:induction false} FilterPrefix(rule: CharRule, s: string, i: nat)
    requires i <= |s|
    ensures Filter(rule, s[..i]) <= Filter(rule, s)
    ensures Filter(rule, s) == Filter(rule, s[..i]) + Filter(rule, s[i..])
  {
    assert s == s[..i] + s[i..];
    FilterAppend(rule, s[..i], s[i..]);
  }

  /** Filtering one character: itself when significant, nothing otherwise. */
  lemma {:induction false} FilterSingle(rule: CharRule, c: char)
    ensures Filter(rule, [c]) == if rule.Significant(c) then [c] else []
  {
    assert [c][1..] == [];
  }
}

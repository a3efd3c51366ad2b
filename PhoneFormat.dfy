/** The helpers of the phone-number page: the digit extraction that feeds the phone
    formatter, the ten-digit cap in front of it, and the mask decision the page hands to
    the formatted input.  The phone formatter itself is a parameter.
 */
module PhoneFormat {
  import opened Significance

  datatype Option<T> = None | Some(value: T)

  /** The number of digits `s` starts with. */
  function LeadingDigits(s: string): (n: nat)
    ensures n <= |s|
    ensures forall i :: 0 <= i < n ==> IsDigit(s[i])
    ensures n < |s| ==> !IsDigit(s[n])
  {
    if s == [] || !IsDigit(s[0]) then 0 else 1 + LeadingDigits(s[1..])
  }

  /** The maximal runs of digits of `s`, in order: what the global pattern `\d+` matches. */
  function DigitRuns(s: string): (runs: seq<string>)
    ensures forall i :: 0 <= i < |runs| ==> runs[i] != [] && AllSignificant(DigitsOnly, runs[i])
    decreases |s|
  {
    if s == [] then []
    else if !IsDigit(s[0]) then DigitRuns(s[1..])
    else
      var n := LeadingDigits(s);
      [s[..n]] + DigitRuns(s[n..])
  }

  /** `s.match(/\d+/g)`: the runs of digits, or no result at all when there are none. */
  function MatchDigits(s: string): Option<seq<string>> {
    var runs := DigitRuns(s);
    if runs == [] then None else Some(runs)
  }

  /** The strings of `parts` joined with nothing between them. */
  function Join(parts: seq<string>): string {
    if parts == [] then [] else parts[0] + Join(parts[1..])
  }

  /** `parseDigits`: the matched runs joined, the empty list standing in for no result. */
  function ParseDigits(s: string): (r: string)
    ensures |r| <= |s|
    ensures AllSignificant(DigitsOnly, r)
  {
    var m := MatchDigits(s);
    JoinedRuns(s);
    Join(if m.None? then [] else m.value)
  }

  /** The runs of digits, joined, are the digits of the text. */
  lemma {:induction false} JoinedRuns(s: string)
    ensures Join(DigitRuns(s)) == Filter(DigitsOnly, s)
    decreases |s|
  {
    if s != [] {
      if !IsDigit(s[0]) {
        JoinedRuns(s[1..]);
        assert s == [s[0]] + s[1..];
        FilterAppend(DigitsOnly, [s[0]], s[1..]);
        FilterSingle(DigitsOnly, s[0]);
      } else {
        var n := LeadingDigits(s);
        JoinedRuns(s[n..]);
        FilterPrefix(DigitsOnly, s, n);
        FilterFixedPoint(DigitsOnly, s[..n]);
        assert ([s[..n]] + DigitRuns(s[n..]))[1..] == DigitRuns(s[n..]);
      }
    }
  }

  /** The pattern finds nothing exactly when the text holds no digit. */
  lemma {:induction false} NoMatch(s: string)
    ensures MatchDigits(s).None? <==> forall i :: 0 <= i < |s| ==> !IsDigit(s[i])
    decreases |s|
  {
    if s != [] {
      NoMatch(s[1..]);
      if !IsDigit(s[0]) {
        forall i | 0 < i < |s| ensures s[i] == s[1..][i - 1] { }
        if exists i :: 0 <= i < |s[1..]| && IsDigit(s[1..][i]) {
          var i :| 0 <= i < |s[1..]| && IsDigit(s[1..][i]);
          assert IsDigit(s[i + 1]);
        }
      }
    }
  }

  /** `parseDigits` returns exactly the digits of its input, in their order. */
  lemma ParseDigitsFilters(s: string)
    ensures ParseDigits(s) == Filter(DigitsOnly, s)
  {
    JoinedRuns(s);
  }

  /** `parseDigits` returns the empty string exactly when its input holds no digit. */
  lemma ParseDigitsEmpty(s: string)
    ensures ParseDigits(s) == [] <==> forall i :: 0 <= i < |s| ==> !IsDigit(s[i])
  {
    ParseDigitsFilters(s);
    NoMatch(s);
    if ParseDigits(s) == [] && exists i :: 0 <= i < |s| && IsDigit(s[i]) {
      var i :| 0 <= i < |s| && IsDigit(s[i]);
      FilterMembership(DigitsOnly, s, s[i]);
    }
  }

  /** `parseDigits` is idempotent and never lengthens its input; its result is all digits. */
  lemma ParseDigitsIdempotent(s: string)
    ensures ParseDigits(ParseDigits(s)) == ParseDigits(s)
    ensures |ParseDigits(s)| <= |s|
    ensures AllSignificant(DigitsOnly, ParseDigits(s))
  {
    ParseDigitsFilters(s);
    ParseDigitsFilters(ParseDigits(s));
    FilterIdempotent(DigitsOnly, s);
  }

  /** The phone input accepts single digits (`accept={/\d+/g}`), so what it hands the
      formatter is what `parseDigits` keeps. */
  const PhoneRule: CharRule := DigitsOnly

  lemma PhoneRuleParses(s: string)
    ensures Filter(PhoneRule, s) == ParseDigits(s)
    ensures ParseDigits(Filter(PhoneRule, s)) == Filter(PhoneRule, s)
  {
    ParseDigitsIdempotent(s);
    ParseDigitsFilters(s);
  }

  /** What `formatPhone` hands the phone formatter: at most the first ten digits. */
  function FormatterInput(s: string): (r: string)
    ensures |r| <= 10
    ensures r <= ParseDigits(s)
    ensures |ParseDigits(s)| <= 10 ==> r == ParseDigits(s)
  {
    var digits := ParseDigits(s);
    if |digits| <= 10 then digits else digits[..10]
  }

  /** `formatPhone`, the phone formatter (`AsYouType('US').input`) being a parameter: with
      no more than ten digits in the text, the phone formatter sees exactly those digits. */
  function FormatPhone(asYouType: string -> string, s: string): (r: string)
    ensures |Filter(DigitsOnly, s)| <= 10 ==> r == asYouType(Filter(DigitsOnly, s))
  {
    ParseDigitsFilters(s);
    asYouType(FormatterInput(s))
  }

  /** The formatter sees the first ten digits of the text, all of them when there are no
      more than ten, and nothing else. */
  lemma FormatterInputCapped(s: string)
    ensures var digits := Filter(DigitsOnly, s);
            && |FormatterInput(s)| == (if |digits| <= 10 then |digits| else 10)
            && FormatterInput(s) <= digits
            && AllSignificant(DigitsOnly, FormatterInput(s))
  {
    ParseDigitsFilters(s);
  }

  /** The input hands the formatter only the digits of the text it holds; since
      `formatPhone` extracts the digits itself, that makes no difference to it. */
  lemma FilteredTextFormatsAlike(asYouType: string -> string, s: string)
    ensures FormatPhone(asYouType, Filter(PhoneRule, s)) == FormatPhone(asYouType, s)
  {
    PhoneRuleParses(s);
  }

  /** Once ten digits are in, what follows them does not reach the phone formatter. */
  lemma {:induction false} ExtraDigitsIgnored(asYouType: string -> string, s: string, t: string)
    requires |Filter(DigitsOnly, s)| >= 10
    ensures FormatPhone(asYouType, s + t) == FormatPhone(asYouType, s)
  {
    ParseDigitsFilters(s);
    ParseDigitsFilters(s + t);
    FilterAppend(DigitsOnly, s, t);
    var ds, dt := Filter(DigitsOnly, s), Filter(DigitsOnly, t);
    assert (ds + dt)[..10] == ds[..10];
    if |ds| == 10 {
      assert ds[..10] == ds;
      assert dt == [] ==> ds + dt == ds;
    }
  }

  /** The mask the page hands the formatted input: left unset, or a flag. */
  datatype Mask = Unset | Flag(on: bool)

  /** `phone[3]`: the character at index 3, or `undefined` past the end. */
  function At3(phone: string): Option<char> {
    if |phone| > 3 then Some(phone[3]) else None
  }

  /** The text a regular-expression test sees for `phone[3]`: the character itself, or
      the word "undefined" that `undefined` converts to. */
  function TestedText(x: Option<char>): string {
    match x
    case None => "undefined"
    case Some(c) => [c]
  }

  /** `/[^\d]+/.test(text)`: the text holds a character that is not a digit. */
  predicate HasNonDigit(text: string) {
    exists i :: 0 <= i < |text| && !IsDigit(text[i])
  }

  /** The `mask` expression of the phone page. */
  function PhoneMask(phone: string): (m: Mask)
    ensures m == Unset ==> |phone| < 6
    ensures |phone| >= 6 ==> m.Flag?
    ensures m.Flag? ==> (m.on <==> |phone| >= 14)
  {
    if |phone| < 6 && HasNonDigit(TestedText(At3(phone))) then Unset
    else Flag(|phone| >= 14)
  }

  /** The mask is left unset exactly for values shorter than six characters whose
      character at index 3 is missing or is not a digit. */
  lemma MaskUnset(phone: string)
    ensures PhoneMask(phone) == Unset <==> |phone| < 6 && (|phone| <= 3 || !IsDigit(phone[3]))
  {
    if |phone| <= 3 {
      assert !IsDigit(TestedText(At3(phone))[0]);
    } else if !IsDigit(phone[3]) {
      assert TestedText(At3(phone))[0] == phone[3];
    }
  }

  /** Otherwise the mask is on exactly from fourteen characters on. */
  lemma MaskFlag(phone: string)
    ensures PhoneMask(phone) == Flag(true) <==> |phone| >= 14
    ensures PhoneMask(phone) == Flag(false) <==>
            (6 <= |phone| < 14) || (3 < |phone| < 6 && IsDigit(phone[3]))
  {
    MaskUnset(phone);
  }
}

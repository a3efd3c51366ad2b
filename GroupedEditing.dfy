/** The editing model with the comma-grouping formatter: the input shows grouped digits
    and the caret sits next to a digit or a comma, and each command takes such an input
    to another one, described by its digits and the number of digits before the caret.
 */
module GroupedEditing {
  import opened Significance
  import opened CaretPlacement
  import opened Editing
  import opened Grouping

  /** A comma follows the k-th digit of the grouped digits `d`. */
  predicate CommaFollows(d: string, k: nat)
    requires k <= |d|
  {
    CaretAfter(|d|, k) < |GroupThousands(d)| && GroupThousands(d)[CaretAfter(|d|, k)] == ','
  }

  /** The input showing the grouped digits `d` with the caret right after the k-th
      digit, or one further, past the comma that follows it, when `pastComma` holds. */
  function Grouped(d: string, k: nat, pastComma: bool): (st: InputState)
    requires k <= |d| && (pastComma ==> CommaFollows(d, k))
    ensures WellFormed(st)
  {
    GroupingLength(d);
    InputState(GroupThousands(d), CaretAfter(|d|, k) + if pastComma then 1 else 0)
  }

  /** Such an input re-renders to itself, the k digits before the caret are those of `d`,
      and those after it are the rest. */
  lemma {:induction false} GroupedCount(d: string, k: nat, pastComma: bool)
    requires AllSignificant(DigitsOnly, d) && k <= |d| && (pastComma ==> CommaFollows(d, k))
    ensures var st := Grouped(d, k, pastComma);
            && WellFormed(st)
            && Stable(DigitsOnly, NumberFormat, st.value)
            && Filter(DigitsOnly, st.value) == d
            && Filter(DigitsOnly, st.value[..st.caret]) == d[..k]
            && Filter(DigitsOnly, st.value[st.caret..]) == d[k..]
            && AfterNth(DigitsOnly, st.value, k) == CaretAfter(|d|, k)
  {
    var v, p := GroupThousands(d), CaretAfter(|d|, k);
    GroupingKeepsDigits(d);
    GroupedPrefix(d, k);
    GroupedAfterNth(d, k);
    SplitAtCaret(v, p, Grouped(d, k, pastComma).caret, d, k);
  }

  /** The digits on either side of a caret at `p`, or one past a comma at `p`, when the
      text before `p` holds the first k digits. */
  lemma {:induction false} SplitAtCaret(v: string, p: nat, c: nat, d: string, k: nat)
    requires p <= c <= |v| && c <= p + 1 && (c == p + 1 ==> v[p] == ',')
    requires Filter(DigitsOnly, v) == d && k <= |d| && Filter(DigitsOnly, v[..p]) == d[..k]
    ensures Filter(DigitsOnly, v[..c]) == d[..k]
    ensures Filter(DigitsOnly, v[c..]) == d[k..]
  {
    if c == p + 1 {
      assert v[..c] == v[..p] + [','];
      FilterAppend(DigitsOnly, v[..p], [',']);
      FilterSingle(DigitsOnly, ',');
    }
    FilterPrefix(DigitsOnly, v, c);
    assert d == d[..k] + d[k..];
  }

  /** An edit event on the grouping formatter, when the raw text holds the digits `e`
      and the raw caret has the first j of them in front of it: the new text is the
      grouping of `e`, with the caret right after its j-th digit (for a deletion, when
      the new text differs from the one shown). */
  lemma {:induction false} GroupedReconcile(shown: string, raw: string, rawCaret: nat, isDelete: bool,
                                            e: string, j: nat)
    requires rawCaret <= |raw| && Filter(DigitsOnly, raw) == e && j <= |e|
    requires Filter(DigitsOnly, raw[..rawCaret]) == e[..j]
    requires !(isDelete && NumberFormat(e) == shown)
    ensures Reconcile(DigitsOnly, NumberFormat, shown, raw, rawCaret, isDelete) == Grouped(e, j, false)
  {
    GroupedPrefix(e, j);
    var v, p := GroupThousands(e), CaretAfter(|e|, j);
    ReconcileCaret(DigitsOnly, NumberFormat, shown, raw, rawCaret, isDelete, v, p);
  }

  /** Typing digits `s` at a caret with the first k digits of `d` in front of it. */
  lemma {:induction false} TypedDigits(v: string, c: nat, s: string, d: string, k: nat)
    requires c <= |v| && k <= |d| && AllSignificant(DigitsOnly, s)
    requires Filter(DigitsOnly, v[..c]) == d[..k] && Filter(DigitsOnly, v[c..]) == d[k..]
    ensures Filter(DigitsOnly, Inserted(v, c, s)) == d[..k] + s + d[k..]
    ensures Filter(DigitsOnly, Inserted(v, c, s)[..c + |s|]) == d[..k] + s
  {
    FilterFixedPoint(DigitsOnly, s);
    FilterInserted(DigitsOnly, v, c, s);
  }

  /** PUT_SYMBOL of digits: they join the digits at the caret, everything regroups, and
      the caret lands right after the last digit typed. */
  lemma {:induction false} GroupedPut(d: string, k: nat, pastComma: bool, s: string)
    requires AllSignificant(DigitsOnly, d) && k <= |d| && (pastComma ==> CommaFollows(d, k))
    requires AllSignificant(DigitsOnly, s)
    ensures Step(DigitsOnly, NumberFormat, Grouped(d, k, pastComma), PutSymbol(s))
            == Grouped(d[..k] + s + d[k..], k + |s|, false)
  {
    var st := Grouped(d, k, pastComma);
    TypedAtCaret(d, k, pastComma, s);
    var e := d[..k] + s + d[k..];
    GroupedReconcile(st.value, Inserted(st.value, st.caret, s), st.caret + |s|, false, e, k + |s|);
    calc {
      Step(DigitsOnly, NumberFormat, st, PutSymbol(s));
      { StepPut(DigitsOnly, NumberFormat, st, s); }
      Reconcile(DigitsOnly, NumberFormat, st.value, Inserted(st.value, st.caret, s), st.caret + |s|, false);
      Grouped(e, k + |s|, false);
    }
  }

  /** The raw text and caret of PUT_SYMBOL of digits on a grouped input. */
  lemma {:induction false} TypedAtCaret(d: string, k: nat, pastComma: bool, s: string)
    requires AllSignificant(DigitsOnly, d) && k <= |d| && (pastComma ==> CommaFollows(d, k))
    requires AllSignificant(DigitsOnly, s)
    ensures var st := Grouped(d, k, pastComma); var raw := Inserted(st.value, st.caret, s);
            var e := d[..k] + s + d[k..];
            && Filter(DigitsOnly, raw) == e
            && Filter(DigitsOnly, raw[..st.caret + |s|]) == e[..k + |s|]
  {
    var st := Grouped(d, k, pastComma);
    GroupedCount(d, k, pastComma);
    TypedDigits(st.value, st.caret, s, d, k);
    assert (d[..k] + s + d[k..])[..k + |s|] == d[..k] + s;
  }

  /** PUT_SYMBOL of characters that are no digits: the text stays, and the caret goes
      back to right after the digit before it. */
  lemma {:induction false} GroupedPutRejected(d: string, k: nat, pastComma: bool, s: string)
    requires AllSignificant(DigitsOnly, d) && k <= |d| && (pastComma ==> CommaFollows(d, k))
    requires forall i :: 0 <= i < |s| ==> !IsDigit(s[i])
    ensures Step(DigitsOnly, NumberFormat, Grouped(d, k, pastComma), PutSymbol(s))
            == Grouped(d, k, false)
  {
    GroupedCount(d, k, pastComma);
    RejectedSymbolsKeepText(DigitsOnly, NumberFormat, Grouped(d, k, pastComma), s);
  }

  /** BACKSPACE right after a digit: the digit is gone, the rest regroup, and the caret
      stays right after the digit that preceded it. */
  lemma {:induction false} GroupedBackspaceDigit(d: string, k: nat)
    requires AllSignificant(DigitsOnly, d) && 0 < k <= |d|
    ensures Step(DigitsOnly, NumberFormat, Grouped(d, k, false), Backspace)
            == Grouped(d[..k - 1] + d[k..], k - 1, false)
  {
    var st := Grouped(d, k, false);
    var v, c, e := st.value, st.caret, d[..k - 1] + d[k..];
    ErasedBeforeCaret(d, k);
    GroupedReconcile(v, RemovedAt(v, c - 1), c - 1, false, e, k - 1);
    calc {
      Step(DigitsOnly, NumberFormat, st, Backspace);
      { StepBackspace(DigitsOnly, NumberFormat, st); }
      Reconcile(DigitsOnly, NumberFormat, v, RemovedAt(v, c - 1), c - 1, false);
      Grouped(e, k - 1, false);
    }
  }

  /** The raw text and caret of BACKSPACE right after a digit of a grouped input. */
  lemma {:induction false} ErasedBeforeCaret(d: string, k: nat)
    requires AllSignificant(DigitsOnly, d) && 0 < k <= |d|
    ensures var st := Grouped(d, k, false); var e := d[..k - 1] + d[k..];
            && 0 < st.caret
            && Filter(DigitsOnly, RemovedAt(st.value, st.caret - 1)) == e
            && Filter(DigitsOnly, RemovedAt(st.value, st.caret - 1)[..st.caret - 1]) == e[..k - 1]
  {
    var st := Grouped(d, k, false);
    GroupedCount(d, k, false);
    GroupedPrefix(d, k);
    RemovedDigit(st.value, st.caret - 1, d, k);
  }

  /** DELETE in front of a digit: the digit is gone, the rest regroup, and the caret
      stays right after the digit before it. */
  lemma {:induction false} GroupedDeleteDigit(d: string, k: nat, pastComma: bool)
    requires AllSignificant(DigitsOnly, d) && k < |d| && (pastComma ==> CommaFollows(d, k))
    requires var st := Grouped(d, k, pastComma); st.caret < |st.value| && IsDigit(st.value[st.caret])
    ensures Step(DigitsOnly, NumberFormat, Grouped(d, k, pastComma), Delete)
            == Grouped(d[..k] + d[k + 1..], k, false)
  {
    var st := Grouped(d, k, pastComma);
    var v, c, e := st.value, st.caret, d[..k] + d[k + 1..];
    ErasedAtCaret(d, k, pastComma);
    GroupedReconcile(v, RemovedAt(v, c), c, true, e, k);
    calc {
      Step(DigitsOnly, NumberFormat, st, Delete);
      { StepDelete(DigitsOnly, NumberFormat, st); }
      Reconcile(DigitsOnly, NumberFormat, v, RemovedAt(v, c), c, true);
      Grouped(e, k, false);
    }
  }

  /** The raw text and caret of DELETE in front of a digit of a grouped input, whose
      regrouping differs from the text shown. */
  lemma {:induction false} ErasedAtCaret(d: string, k: nat, pastComma: bool)
    requires AllSignificant(DigitsOnly, d) && k < |d| && (pastComma ==> CommaFollows(d, k))
    requires var st := Grouped(d, k, pastComma); st.caret < |st.value| && IsDigit(st.value[st.caret])
    ensures var st := Grouped(d, k, pastComma); var e := d[..k] + d[k + 1..];
            && Filter(DigitsOnly, RemovedAt(st.value, st.caret)) == e
            && Filter(DigitsOnly, RemovedAt(st.value, st.caret)[..st.caret]) == e[..k]
            && NumberFormat(e) != st.value
  {
    var st := Grouped(d, k, pastComma);
    var v, c := st.value, st.caret;
    GroupedCount(d, k, pastComma);
    DigitAtCaret(v, c, d, k);
    RemovedDigit(v, c, d, k + 1);
    RegroupedDiffers(v, d, Filter(DigitsOnly, RemovedAt(v, c)));
  }

  /** The digit right after the caret is the next digit of `d`. */
  lemma {:induction false} DigitAtCaret(v: string, c: nat, d: string, k: nat)
    requires c < |v| && k < |d| && IsDigit(v[c])
    requires Filter(DigitsOnly, v[..c]) == d[..k] && Filter(DigitsOnly, v[c..]) == d[k..]
    ensures Filter(DigitsOnly, v[..c + 1]) == d[..k + 1]
    ensures Filter(DigitsOnly, v[c + 1..]) == d[k + 1..]
  {
    FilterRemovedAt(DigitsOnly, v, c);
    FilterSliceCons(DigitsOnly, v, c, |v|);
    assert v[c..|v|] == v[c..] && v[c + 1..|v|] == v[c + 1..];
    assert d[k..] == [d[k]] + d[k + 1..];
    assert d[..k + 1] == d[..k] + [d[k]];
  }

  /** Digits of another count than those of `v` never group to `v`. */
  lemma {:induction false} RegroupedDiffers(v: string, d: string, e: string)
    requires Filter(DigitsOnly, v) == d && AllSignificant(DigitsOnly, e) && |e| != |d|
    ensures NumberFormat(e) != v
  {
    GroupingKeepsDigits(e);
  }

  /** Removing the digit at index i, which is the k-th digit of `d`. */
  lemma {:induction false} RemovedDigit(v: string, i: nat, d: string, k: nat)
    requires i < |v| && 0 < k <= |d| && IsDigit(v[i])
    requires Filter(DigitsOnly, v[..i + 1]) == d[..k] && Filter(DigitsOnly, v[i + 1..]) == d[k..]
    ensures Filter(DigitsOnly, RemovedAt(v, i)) == d[..k - 1] + d[k..]
    ensures Filter(DigitsOnly, RemovedAt(v, i)[..i]) == (d[..k - 1] + d[k..])[..k - 1]
  {
    FilterRemovedAt(DigitsOnly, v, i);
    assert d[..k] == d[..k - 1] + [d[k - 1]];
    assert (d[..k - 1] + d[k..])[..k - 1] == d[..k - 1];
  }

  /** BACKSPACE right after a comma removes nothing: the caret steps back over it. */
  lemma {:induction false} GroupedBackspaceComma(d: string, k: nat)
    requires AllSignificant(DigitsOnly, d) && k <= |d| && CommaFollows(d, k)
    ensures Step(DigitsOnly, NumberFormat, Grouped(d, k, true), Backspace)
            == Grouped(d, k, false)
  {
    GroupedCount(d, k, true);
    BackspaceOverDecoration(DigitsOnly, NumberFormat, Grouped(d, k, true));
  }

  /** DELETE in front of a comma removes nothing: the caret steps forward over it. */
  lemma {:induction false} GroupedDeleteComma(d: string, k: nat)
    requires AllSignificant(DigitsOnly, d) && k <= |d| && CommaFollows(d, k)
    ensures Step(DigitsOnly, NumberFormat, Grouped(d, k, false), Delete)
            == Grouped(d, k, true)
  {
    var st := Grouped(d, k, false);
    var v, c := st.value, st.caret;
    GroupedCount(d, k, false);
    DecorationRemoved(DigitsOnly, v, c);
    UndoneDeleteStepsRight(DigitsOnly, NumberFormat, st);
    assert |Filter(DigitsOnly, v[..c])| == k;
  }

}

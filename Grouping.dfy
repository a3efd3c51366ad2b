/** A stand-in for the number formatter of the integer traces: digits grouped by
    threes from the right with a comma between groups, as the snapshots show it.
 */
module Grouping {
  import opened Significance
  import opened CaretPlacement
  import opened Editing

  /** The digits `d` grouped by threes from the right, a comma between groups: never
      shorter than the digits, and at most one comma for every three of them. */
  function GroupThousands(d: string): (r: string)
    ensures |d| <= |r| && 3 * |r| <= 4 * |d|
    decreases |d|
  {
    if |d| <= 3 then d else GroupThousands(d[..|d| - 3]) + "," + d[|d| - 3..]
  }

  /** The formatter of the integer traces, as the editing model is handed it. */
  function NumberFormat(d: string): string {
    GroupThousands(d)
  }

  /** Grouping only inserts commas: the digits come out as they went in. */
  lemma {:induction false} GroupingKeepsDigits(d: string)
    requires AllSignificant(DigitsOnly, d)
    ensures Keeps(DigitsOnly, NumberFormat, d)
    decreases |d|
  {
    FilterFixedPoint(DigitsOnly, d);
    if |d| > 3 {
      var head, tail := d[..|d| - 3], d[|d| - 3..];
      assert head + tail == d;
      assert AllSignificant(DigitsOnly, head) && AllSignificant(DigitsOnly, tail);
      GroupingKeepsDigits(head);
      FilterFixedPoint(DigitsOnly, tail);
      FilterAppend(DigitsOnly, GroupThousands(head) + ",", tail);
      FilterAppend(DigitsOnly, GroupThousands(head), ",");
      FilterSingle(DigitsOnly, ',');
      assert GroupThousands(d) == GroupThousands(head) + "," + tail;
      assert DigitsOnly.Significant(',') == false;
      assert Filter(DigitsOnly, ",") == [];
      assert Filter(DigitsOnly, GroupThousands(head) + ",") == head;
      assert Filter(DigitsOnly, GroupThousands(d)) == head + tail;
    }
  }

  /** The length of n grouped digits: the grouping of the first n - 3, a comma, and the
      last three. */
  function GroupedLength(n: nat): (r: nat)
    ensures n <= r
    ensures n > 3 ==> n < r
  {
    if n <= 3 then n else GroupedLength(n - 3) + 4
  }

  lemma {:induction false} GroupingLength(d: string)
    ensures |GroupThousands(d)| == GroupedLength(|d|)
    decreases |d|
  {
    if |d| > 3 {
      GroupingLength(d[..|d| - 3]);
    }
  }

  /** One comma per full group of three digits after the first group. */
  lemma {:induction false} GroupedLengthCommas(n: nat)
    ensures GroupedLength(n) == if n == 0 then 0 else n + (n - 1) / 3
  {
    if n > 3 {
      GroupedLengthCommas(n - 3);
      assert (n - 1) / 3 == (n - 4) / 3 + 1;
    }
  }

  /** Grouped output re-renders to itself. */
  lemma {:induction false} GroupingIdempotent()
    ensures Idempotent(DigitsOnly, NumberFormat)
  {
    forall sig | AllSignificant(DigitsOnly, sig)
      ensures Stable(DigitsOnly, NumberFormat, GroupThousands(sig))
    {
      GroupingKeepsDigits(sig);
    }
  }

  /** The caret offset right after the k-th digit of n grouped digits (0 when k is 0):
      where it is in the grouping of the first n - 3 digits, or past that grouping and
      its comma when the k-th digit is one of the last three. */
  function CaretAfter(n: nat, k: nat): (r: nat)
    requires k <= n
    ensures k == 0 ==> r == 0
    ensures 0 < k ==> k <= r <= GroupedLength(n)
    decreases n
  {
    if k == 0 then 0
    else if n <= 3 then k
    else if k <= n - 3 then CaretAfter(n - 3, k)
    else GroupedLength(n - 3) + 1 + (k - (n - 3))
  }

  /** The number of commas in front of the k-th digit (counting from 1) when n digits
      are grouped: none in the first group of (n - 1) % 3 + 1 digits, one more for
      every full group after it. */
  function CommasBefore(n: nat, k: nat): nat
    requires 1 <= k <= n
  {
    var first := (n - 1) % 3 + 1;
    if k <= first then 0 else (k - first - 1) / 3 + 1
  }

  /** The caret right after the k-th digit is k digits and the commas in front of it
      from the start. */
  lemma {:induction false} CaretAfterCommas(n: nat, k: nat)
    requires 0 < k <= n
    ensures CaretAfter(n, k) == k + CommasBefore(n, k)
    decreases n
  {
    if n > 3 {
      var m := n - 3;
      assert (n - 1) % 3 == (m - 1) % 3;
      var first := (m - 1) % 3 + 1;
      var groups := (m - 1) / 3;
      assert m == 3 * groups + first;
      if k <= m {
        CaretAfterCommas(m, k);
      } else {
        GroupedLengthCommas(m);
        assert (k - first - 1) / 3 == groups;
      }
    }
  }

  /** The text before a caret in the last group: the grouped head, its comma, and the
      first j digits of the last group. */
  lemma {:induction false} GroupedPrefixTail(g: string, head: string, tail: string, j: nat)
    requires AllSignificant(DigitsOnly, head) && AllSignificant(DigitsOnly, tail)
    requires g == GroupThousands(head) && 0 < j <= |tail|
    ensures Filter(DigitsOnly, (g + ",") + tail[..j]) == head + tail[..j]
  {
    GroupingKeepsDigits(head);
    assert Filter(DigitsOnly, g) == head;
    FilterSingle(DigitsOnly, ',');
    assert Filter(DigitsOnly, ",") == [];
    FilterAppend(DigitsOnly, g, ",");
    assert Filter(DigitsOnly, g + ",") == head;
    assert AllSignificant(DigitsOnly, tail[..j]);
    FilterFixedPoint(DigitsOnly, tail[..j]);
    FilterAppend(DigitsOnly, g + ",", tail[..j]);
  }

  /** In grouped digits, the text before `CaretAfter(|d|, k)` holds exactly the first k
      digits and, unless k is 0, ends in a digit. */
  lemma {:induction false} GroupedPrefix(d: string, k: nat)
    requires AllSignificant(DigitsOnly, d) && k <= |d|
    ensures CanonicalCaret(DigitsOnly, GroupThousands(d), CaretAfter(|d|, k))
    ensures Filter(DigitsOnly, GroupThousands(d)[..CaretAfter(|d|, k)]) == d[..k]
    decreases |d|, 1
  {
    if k == 0 {
      assert GroupThousands(d)[..0] == [];
    } else if |d| <= 3 {
      assert AllSignificant(DigitsOnly, d[..k]);
      FilterFixedPoint(DigitsOnly, d[..k]);
    } else if k <= |d| - 3 {
      GroupedPrefixHead(d, k);
    } else {
      GroupedPrefixLast(d, k);
    }
  }

  /** `GroupedPrefix` for a caret in front of the last group: the text before it is the
      text before the same caret in the grouping of the other digits. */
  lemma {:induction false} GroupedPrefixHead(d: string, k: nat)
    requires AllSignificant(DigitsOnly, d) && 3 < |d| && 0 < k <= |d| - 3
    ensures CanonicalCaret(DigitsOnly, GroupThousands(d), CaretAfter(|d|, k))
    ensures Filter(DigitsOnly, GroupThousands(d)[..CaretAfter(|d|, k)]) == d[..k]
    decreases |d|, 0
  {
    var n := |d|;
    var head, tail := d[..n - 3], d[n - 3..];
    var g := GroupThousands(head);
    assert GroupThousands(d) == g + "," + tail;
    var p := CaretAfter(n - 3, k);
    assert CaretAfter(n, k) == p;
    assert AllSignificant(DigitsOnly, head);
    GroupedPrefix(head, k);
    assert GroupThousands(d)[..p] == g[..p];
    assert GroupThousands(d)[p - 1] == g[p - 1];
    assert head[..k] == d[..k];
  }

  /** `GroupedPrefix` for a caret inside the last group. */
  lemma {:induction false} GroupedPrefixLast(d: string, k: nat)
    requires AllSignificant(DigitsOnly, d) && 3 < |d| && |d| - 3 < k <= |d|
    ensures CanonicalCaret(DigitsOnly, GroupThousands(d), CaretAfter(|d|, k))
    ensures Filter(DigitsOnly, GroupThousands(d)[..CaretAfter(|d|, k)]) == d[..k]
  {
    var n := |d|;
    var head, tail := d[..n - 3], d[n - 3..];
    var g := GroupThousands(head);
    assert GroupThousands(d) == g + "," + tail;
    GroupingLength(head);
    var j := k - (n - 3);
    var p := |g| + 1 + j;
    assert CaretAfter(n, k) == p;
    assert GroupThousands(d)[..p] == (g + ",") + tail[..j];
    assert AllSignificant(DigitsOnly, head) && AllSignificant(DigitsOnly, tail);
    GroupedPrefixTail(g, head, tail, j);
    assert head + tail[..j] == d[..k];
    assert GroupThousands(d)[p - 1] == tail[j - 1];
  }

  /** The caret the editing model puts after the k-th significant character of grouped
      digits is `CaretAfter(|d|, k)`. */
  lemma {:induction false} GroupedAfterNth(d: string, k: nat)
    requires AllSignificant(DigitsOnly, d) && k <= |d|
    ensures AfterNth(DigitsOnly, GroupThousands(d), k) == CaretAfter(|d|, k)
  {
    var v, p := GroupThousands(d), CaretAfter(|d|, k);
    GroupedPrefix(d, k);
    assert |Filter(DigitsOnly, v[..p])| == k;
    AfterNthOfCanonical(DigitsOnly, v, p);
  }
}

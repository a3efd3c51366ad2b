/** Where the caret goes in freshly formatted text.

    The caret is placed by walking the significant characters that stood before the
    raw caret, in order, and finding each one in the formatted text at or after the
    position reached so far; the caret ends just after the last character found.  A
    character the formatter dropped is simply not found and skipped.  When the
    formatter keeps the significant characters in order this is the same as putting
    the caret right after the k-th significant character of the formatted text, k being
    the number of significant characters before the raw caret (`PlaceFollowsCount`).
 */
module CaretPlacement {
  import opened Significance

  /** A caret in `val` at 0 or right after a significant character. */
  predicate CanonicalCaret(rule: CharRule, val: string, c: nat) {
    c <= |val| && (c == 0 || rule.Significant(val[c - 1]))
  }

  /** `val.indexOf(c, from)`: the first index at or after `from` that holds `c`, or -1
      (`IndexOfFirst`). */
  function IndexOf(val: string, c: char, from: nat): (r: int)
    ensures r == -1 || (from <= r < |val| && val[r] == c)
    decreases |val| - from
  {
    if from >= |val| then -1
    else if val[from] == c then from
    else IndexOf(val, c, from + 1)
  }

  /** No index between `from` and the one found holds `c`; when none is found, no index
      from `from` on holds it. */
  lemma {:induction false} IndexOfFirst(val: string, c: char, from: nat)
    ensures var r := IndexOf(val, c, from);
            && (r == -1 ==> forall j :: from <= j < |val| ==> val[j] != c)
            && (r != -1 ==> forall j :: from <= j < r ==> val[j] != c)
    decreases |val| - from
  {
    if from < |val| && val[from] != c {
      IndexOfFirst(val, c, from + 1);
    }
  }

  /** The caret position reached in `val` from `pos` after matching every character of `before`. */
  function Place(val: string, before: string, pos: nat): (r: nat)
    requires pos <= |val|
    ensures pos <= r <= |val|
    decreases |before|
  {
    if before == [] then pos
    else
      var i := IndexOf(val, before[0], pos);
      Place(val, before[1..], if i == -1 then pos else i + 1)
  }

  /** The walk only moves the caret to just after a character it was looking for. */
  lemma {:induction false} PlaceEndsOnSought(val: string, before: string, pos: nat)
    requires pos <= |val|
    ensures var r := Place(val, before, pos);
            r == pos || val[r - 1] in before
    decreases |before|
  {
    if before != [] {
      var i := IndexOf(val, before[0], pos);
      var next := if i == -1 then pos else i + 1;
      PlaceEndsOnSought(val, before[1..], next);
      var r := Place(val, before, pos);
      assert r == Place(val, before[1..], next);
      assert r != pos ==> val[r - 1] == before[0] || val[r - 1] in before[1..];
      assert before == [before[0]] + before[1..];
    }
  }

  /** The position just after the k-th significant character of `val` (0 when k is 0),
      or the end of `val` when it holds fewer than k significant characters
      (`AfterNthCounts`). */
  function AfterNth(rule: CharRule, val: string, k: nat): (r: nat)
    ensures r <= |val|
  {
    if k == 0 || val == [] then 0
    else 1 + AfterNth(rule, val[1..], if rule.Significant(val[0]) then k - 1 else k)
  }

  /** `AfterNth` stops right after the k-th significant character, with exactly k of them
      before it, or runs to the end when there are fewer than k. */
  lemma {:induction false} AfterNthCounts(rule: CharRule, val: string, k: nat)
    ensures var r := AfterNth(rule, val, k);
            && (k <= |Filter(rule, val)| ==> |Filter(rule, val[..r])| == k)
            && (k == 0 ==> r == 0)
            && (0 < k <= |Filter(rule, val)| ==> 0 < r && rule.Significant(val[r - 1]))
            && (k > |Filter(rule, val)| ==> r == |val|)
  {
    if k != 0 && val != [] {
      var k' := if rule.Significant(val[0]) then k - 1 else k;
      var rest := AfterNth(rule, val[1..], k');
      AfterNthCounts(rule, val[1..], k');
      assert val[..1 + rest] == [val[0]] + val[1..][..rest];
      FilterAppend(rule, [val[0]], val[1..][..rest]);
      assert val == [val[0]] + val[1..];
      FilterAppend(rule, [val[0]], val[1..]);
      FilterSingle(rule, val[0]);
    }
  }

  /** A string that ends in a significant character has at least one. */
  lemma {:induction false} EndsSignificant(rule: CharRule, s: string)
    requires s != [] && rule.Significant(s[|s| - 1])
    ensures |Filter(rule, s)| > 0
  {
    assert s == s[..|s| - 1] + [s[|s| - 1]];
    FilterAppend(rule, s[..|s| - 1], [s[|s| - 1]]);
    FilterSingle(rule, s[|s| - 1]);
  }

  /** The significant characters of a non-empty prefix: those of its first character,
      then those of the rest. */
  lemma {:induction false} FilterPrefixCons(rule: CharRule, val: string, c: nat)
    requires 0 < c <= |val|
    ensures Filter(rule, val[..c]) == Filter(rule, [val[0]]) + Filter(rule, val[1..][..c - 1])
    ensures Filter(rule, [val[0]]) == if rule.Significant(val[0]) then [val[0]] else []
  {
    assert val[..c] == [val[0]] + val[1..][..c - 1];
    FilterAppend(rule, [val[0]], val[1..][..c - 1]);
    FilterSingle(rule, val[0]);
  }

  /** A caret at 0 or right after a significant character is where `AfterNth` puts it:
      the count of significant characters before a caret determines such a caret. */
  lemma {:induction false} AfterNthOfCanonical(rule: CharRule, val: string, c: nat)
    requires CanonicalCaret(rule, val, c)
    ensures AfterNth(rule, val, |Filter(rule, val[..c])|) == c
  {
    if c > 0 {
      var k := |Filter(rule, val[..c])|;
      var tail := val[1..][..c - 1];
      FilterPrefixCons(rule, val, c);
      if rule.Significant(val[0]) {
        assert k == 1 + |Filter(rule, tail)|;
        if c > 1 {
          AfterNthOfCanonical(rule, val[1..], c - 1);
        }
      } else {
        assert c > 1;
        assert k == |Filter(rule, tail)|;
        EndsSignificant(rule, tail);
        AfterNthOfCanonical(rule, val[1..], c - 1);
      }
    }
  }

  /** The significant characters of `val[pos..r]`: those of `val[pos]`, then the rest. */
  lemma {:induction false} FilterSliceCons(rule: CharRule, val: string, pos: nat, r: nat)
    requires pos < r <= |val|
    ensures Filter(rule, val[pos..r]) == (if rule.Significant(val[pos]) then [val[pos]] else []) + Filter(rule, val[pos + 1..r])
  {
    assert val[pos..r][0] == val[pos];
    assert val[pos..r][1..] == val[pos + 1..r];
  }

  /** One step of the walk, unfolded. */
  lemma {:induction false} PlaceStep(val: string, before: string, pos: nat, i: int)
    requires pos <= |val| && before != []
    requires i == IndexOf(val, before[0], pos)
    ensures Place(val, before, pos) == Place(val, before[1..], if i == -1 then pos else i + 1)
  {
  }

  /** One step of the walk over a significant character: it is the next one sought. */
  lemma {:induction false} PlaceTakesSignificant(rule: CharRule, val: string, before: string, pos: nat)
    requires pos < |val| && rule.Significant(val[pos])
    requires before != [] && before <= Filter(rule, val[pos..])
    ensures before[0] == val[pos]
    ensures before[1..] <= Filter(rule, val[pos + 1..])
    ensures Place(val, before, pos) == Place(val, before[1..], pos + 1)
  {
    var rest := Filter(rule, val[pos + 1..]);
    assert val[pos..] == val[pos..|val|] && val[pos + 1..] == val[pos + 1..|val|];
    FilterSliceCons(rule, val, pos, |val|);
    assert Filter(rule, val[pos..]) == [val[pos]] + rest;
    assert before[0] == val[pos];
    assert IndexOf(val, before[0], pos) == pos;
    PlaceStep(val, before, pos, pos);
  }

  /** One step of the walk over a decorative character: it is skipped. */
  lemma {:induction false} PlaceSkipsDecoration(rule: CharRule, val: string, before: string, pos: nat)
    requires pos < |val| && !rule.Significant(val[pos])
    requires before != [] && before <= Filter(rule, val[pos..])
    ensures before <= Filter(rule, val[pos + 1..])
    ensures Place(val, before, pos) == Place(val, before, pos + 1)
  {
    var rest := Filter(rule, val[pos + 1..]);
    assert val[pos..] == val[pos..|val|] && val[pos + 1..] == val[pos + 1..|val|];
    FilterSliceCons(rule, val, pos, |val|);
    assert Filter(rule, val[pos..]) == rest;
    assert before[0] == rest[0];
    assert rule.Significant(rest[0]);
    assert val[pos] != before[0];
    assert IndexOf(val, before[0], pos) == IndexOf(val, before[0], pos + 1);
    assert before[0] in rest;
    FilterMembership(rule, val[pos + 1..], before[0]);
    assert before[0] in val[pos + 1..];
    var j :| 0 <= j < |val[pos + 1..]| && val[pos + 1..][j] == before[0];
    assert val[pos + 1 + j] == before[0];
    var i := IndexOf(val, before[0], pos + 1);
    IndexOfFirst(val, before[0], pos + 1);
    assert i != -1;
    PlaceStep(val, before, pos, i);
    PlaceStep(val, before, pos + 1, i);
  }

  /** When the significant characters of `val` from `pos` on begin with `before`, the walk
      passes exactly those characters and stops right after the last of them. */
  lemma {:induction false} PlaceMatchesPrefix(rule: CharRule, val: string, before: string, pos: nat)
    requires pos <= |val|
    requires before <= Filter(rule, val[pos..])
    ensures Filter(rule, val[pos..Place(val, before, pos)]) == before
    decreases |val| - pos
  {
    if before == [] {
      assert val[pos..pos] == [];
    } else if rule.Significant(val[pos]) {
      PlaceTakesSignificant(rule, val, before, pos);
      PlaceMatchesPrefix(rule, val, before[1..], pos + 1);
      PlaceMatchesPrefixTaken(rule, val, before, pos, Place(val, before[1..], pos + 1));
    } else {
      PlaceSkipsDecoration(rule, val, before, pos);
      PlaceMatchesPrefix(rule, val, before, pos + 1);
      PlaceMatchesPrefixSkipped(rule, val, before, pos, Place(val, before, pos + 1));
    }
  }

  /** The step of `PlaceMatchesPrefix` over a decorative character. */
  lemma {:induction false} PlaceMatchesPrefixSkipped(rule: CharRule, val: string, before: string, pos: nat, r: nat)
    requires pos < r <= |val| && !rule.Significant(val[pos])
    requires Filter(rule, val[pos + 1..r]) == before
    ensures Filter(rule, val[pos..r]) == before
  {
    FilterSliceCons(rule, val, pos, r);
  }

  /** The step of `PlaceMatchesPrefix` over a significant character. */
  lemma {:induction false} PlaceMatchesPrefixTaken(rule: CharRule, val: string, before: string, pos: nat, r: nat)
    requires pos < r <= |val| && before != [] && before[0] == val[pos]
    requires rule.Significant(val[pos])
    requires Filter(rule, val[pos + 1..r]) == before[1..]
    ensures Filter(rule, val[pos..r]) == before
  {
    FilterSliceCons(rule, val, pos, r);
    assert before == [before[0]] + before[1..];
  }

  /** The count rule: when the significant characters of the formatted text begin with the
      k significant characters that stood before the raw caret, the caret lands right
      after the k-th significant character, with exactly those characters before it. */
  lemma {:induction false} PlaceFollowsCount(rule: CharRule, val: string, before: string)
    requires before <= Filter(rule, val)
    ensures Place(val, before, 0) == AfterNth(rule, val, |before|)
    ensures Filter(rule, val[..Place(val, before, 0)]) == before
  {
    assert val[0..] == val;
    PlaceMatchesPrefix(rule, val, before, 0);
    var r := Place(val, before, 0);
    assert val[0..r] == val[..r];
    PlaceEndsOnSought(val, before, 0);
    if r != 0 {
      var j :| 0 <= j < |before| && before[j] == val[r - 1];
      assert before[j] == Filter(rule, val)[j];
    }
    AfterNthOfCanonical(rule, val, r);
  }
}

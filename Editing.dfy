/** The formatted-input editing model: an input holding a `(value, caret)` pair, four
    commands acting on it, and the re-formatting that follows every edit.

    An edit hands the input's raw text (decoration and all) and the raw caret to
    `Reconcile`: the significant characters of the raw text go through the formatter,
    and the caret is placed again in the formatted text by `CaretPlacement.Place`.
    A forward delete whose result formats back to the text already shown moves the
    caret one position to the right instead, so that the caret passes the character
    the formatter keeps putting back.
 */
module Editing {
  import opened Significance
  import opened CaretPlacement

  /** What the input shows: its text and the caret offset in it. */
  datatype InputState = InputState(value: string, caret: nat)

  /** The commands the input emulator of the tests understands. */
  datatype Command = PutSymbol(symbols: string) | MoveCaret(delta: int) | Backspace | Delete

  predicate WellFormed(st: InputState) {
    st.caret <= |st.value|
  }

  function Min(a: nat, b: nat): nat {
    if a <= b then a else b
  }

  /** `x` brought into `[0, hi]`. */
  function Clamp(x: int, hi: nat): nat {
    if x < 0 then 0 else if x > hi then hi else x
  }

  /** The raw text after typing `s` at caret `c`. */
  function Inserted(v: string, c: nat, s: string): string
    requires c <= |v|
  {
    v[..c] + s + v[c..]
  }

  /** The raw text after removing the character at index `i`. */
  function RemovedAt(v: string, i: nat): string
    requires i < |v|
  {
    v[..i] + v[i + 1..]
  }

  /** Re-rendering a text: what the formatter makes of its significant characters. */
  predicate Stable(rule: CharRule, format: string -> string, v: string) {
    format(Filter(rule, v)) == v
  }

  /** The formatter's output re-renders to itself. */
  ghost predicate Idempotent(rule: CharRule, format: string -> string) {
    forall sig {:trigger Stable(rule, format, format(sig))} :: AllSignificant(rule, sig) ==> Stable(rule, format, format(sig))
  }

  /** The formatter only adds or removes decoration: the significant characters of its
      output are exactly those it was given. */
  predicate Keeps(rule: CharRule, format: string -> string, sig: string) {
    Filter(rule, format(sig)) == sig
  }

  /** One edit event: the input now holds `raw`, with the caret at `rawCaret`, and showed
      `shown` before the edit.  The result is the new text and caret. */
  function Reconcile(rule: CharRule, format: string -> string, shown: string,
                     raw: string, rawCaret: nat, isDelete: bool): (st: InputState)
    requires rawCaret <= |raw|
    ensures st.value == format(Filter(rule, raw))
    ensures WellFormed(st)
    ensures !(isDelete && st.value == shown) ==> CanonicalCaret(rule, st.value, st.caret)
  {
    var formatted := format(Filter(rule, raw));
    var before := Filter(rule, raw[..rawCaret]);
    var placed := Place(formatted, before, 0);
    assert CanonicalCaret(rule, formatted, placed) by {
      if placed > 0 {
        PlaceEndsOnSought(formatted, before, 0);
        FilterMembership(rule, raw[..rawCaret], formatted[placed - 1]);
      }
    }
    if isDelete && formatted == shown then
      // the browser clamps a selection offset to the length of the value
      InputState(formatted, Min(placed + 1, |formatted|))
    else
      InputState(formatted, placed)
  }

  /** The effect of one command on the input. */
  function Step(rule: CharRule, format: string -> string, st: InputState, cmd: Command): (r: InputState)
    requires WellFormed(st)
    ensures WellFormed(r)
    ensures cmd.MoveCaret? ==> r.value == st.value
    ensures cmd.PutSymbol? ==> r.value == format(Filter(rule, Inserted(st.value, st.caret, cmd.symbols)))
    ensures cmd.Backspace? && 0 < st.caret ==> r.value == format(Filter(rule, RemovedAt(st.value, st.caret - 1)))
    ensures cmd.Delete? && st.caret < |st.value| ==> r.value == format(Filter(rule, RemovedAt(st.value, st.caret)))
  {
    var v, c := st.value, st.caret;
    match cmd
    case PutSymbol(s) => Reconcile(rule, format, v, Inserted(v, c, s), c + |s|, false)
    case MoveCaret(d) => InputState(v, Clamp(c + d, |v|))
    case Backspace => if c == 0 then st else Reconcile(rule, format, v, RemovedAt(v, c - 1), c - 1, false)
    case Delete => if c == |v| then st else Reconcile(rule, format, v, RemovedAt(v, c), c, true)
  }

  /** The states the input passes through under a list of commands. */
  function Replay(rule: CharRule, format: string -> string, st: InputState, cmds: seq<Command>): (r: seq<InputState>)
    requires WellFormed(st)
    ensures |r| == |cmds|
    ensures forall i :: 0 <= i < |r| ==> WellFormed(r[i])
    decreases |cmds|
  {
    if cmds == [] then []
    else
      var next := Step(rule, format, st, cmds[0]);
      [next] + Replay(rule, format, next, cmds[1..])
  }

  /** How the snapshots show an input: its text with `|` at the caret (a caret past the
      end standing at the end). */
  function Render(st: InputState): (r: string)
    ensures WellFormed(st) ==> |r| == |st.value| + 1 && r[st.caret] == '|'
    ensures WellFormed(st) ==> r[..st.caret] + r[st.caret + 1..] == st.value
  {
    var c := Min(st.caret, |st.value|);
    st.value[..c] + "|" + st.value[c..]
  }

  /** The snapshot of each input in turn. */
  function RenderAll(states: seq<InputState>): (r: seq<string>)
    ensures |r| == |states|
    ensures forall i :: 0 <= i < |states| ==> r[i] == Render(states[i])
  {
    if states == [] then [] else [Render(states[0])] + RenderAll(states[1..])
  }

  /** The snapshots of two lists of inputs one after the other. */
  lemma RenderAllAppend(a: seq<InputState>, b: seq<InputState>)
    ensures RenderAll(a + b) == RenderAll(a) + RenderAll(b)
  {
    forall i | 0 <= i < |a + b| ensures RenderAll(a + b)[i] == (RenderAll(a) + RenderAll(b))[i] {
      if i >= |a| { assert (a + b)[i] == b[i - |a|]; }
    }
  }

  lemma {:induction false} ReplayStep(rule: CharRule, format: string -> string, st: InputState,
                                      cmds: seq<Command>, i: nat)
    requires WellFormed(st) && i < |cmds|
    ensures var r := Replay(rule, format, st, cmds);
            r[i] == Step(rule, format, ([st] + r)[i], cmds[i])
    decreases i
  {
    var next := Step(rule, format, st, cmds[0]);
    var rest := Replay(rule, format, next, cmds[1..]);
    assert Replay(rule, format, st, cmds) == [next] + rest;
    if i == 0 {
      assert ([st] + ([next] + rest))[0] == st;
    } else {
      ReplayStep(rule, format, next, cmds[1..], i - 1);
      assert ([st] + ([next] + rest))[i] == ([next] + rest)[i - 1];
      assert ([next] + rest)[i] == rest[i - 1] && cmds[1..][i - 1] == cmds[i];
    }
  }

  /** Replaying two lists of commands one after the other is replaying them joined. */
  lemma {:induction false} ReplayAppend(rule: CharRule, format: string -> string, st: InputState,
                                        a: seq<Command>, b: seq<Command>, mid: InputState)
    requires WellFormed(st) && WellFormed(mid)
    requires mid == if a == [] then st else Replay(rule, format, st, a)[|a| - 1]
    ensures Replay(rule, format, st, a + b) == Replay(rule, format, st, a) + Replay(rule, format, mid, b)
    decreases |a|
  {
    if a != [] {
      var next := Step(rule, format, st, a[0]);
      var rest := Replay(rule, format, next, a[1..]);
      assert Replay(rule, format, st, a) == [next] + rest;
      assert (a + b)[1..] == a[1..] + b;
      if a[1..] != [] {
        assert rest[|a[1..]| - 1] == ([next] + rest)[|a| - 1];
      }
      ReplayAppend(rule, format, next, a[1..], b, mid);
      assert Replay(rule, format, st, a + b) == [next] + Replay(rule, format, next, a[1..] + b);
    } else {
      assert a + b == b;
    }
  }

  /** A replay is made of steps. */
  lemma ReplayFollows(rule: CharRule, format: string -> string, st: InputState, cmds: seq<Command>)
    requires WellFormed(st)
    ensures Follows(rule, format, st, cmds, Replay(rule, format, st, cmds))
  {
    var r := Replay(rule, format, st, cmds);
    forall i | 0 <= i < |cmds|
      ensures WellFormed(([st] + r)[i]) && r[i] == Step(rule, format, ([st] + r)[i], cmds[i])
    {
      ReplayStep(rule, format, st, cmds, i);
      if i > 0 {
        assert ([st] + r)[i] == r[i - 1];
      }
    }
  }

  /** Each of `states` is the step, under its command, of the state before it (the
      first from `st`). */
  predicate Follows(rule: CharRule, format: string -> string, st: InputState,
                    cmds: seq<Command>, states: seq<InputState>)
  {
    && |states| == |cmds|
    && forall i :: 0 <= i < |cmds| ==>
         WellFormed(([st] + states)[i]) && states[i] == Step(rule, format, ([st] + states)[i], cmds[i])
  }

  lemma {:induction false} FollowsTail(rule: CharRule, format: string -> string, st: InputState,
                                       cmds: seq<Command>, states: seq<InputState>)
    requires Follows(rule, format, st, cmds, states) && cmds != []
    ensures WellFormed(st) && states[0] == Step(rule, format, st, cmds[0])
    ensures Follows(rule, format, states[0], cmds[1..], states[1..])
  {
    assert ([st] + states)[0] == st;
    forall j | 0 <= j < |cmds| - 1
      ensures ([states[0]] + states[1..])[j] == ([st] + states)[j + 1]
    {
    }
  }

  /** Conversely, states each of which is the step of the one before it are the replay. */
  lemma {:induction false} StepsReplay(rule: CharRule, format: string -> string, st: InputState,
                                       cmds: seq<Command>, states: seq<InputState>)
    requires WellFormed(st) && Follows(rule, format, st, cmds, states)
    ensures Replay(rule, format, st, cmds) == states
    decreases |cmds|
  {
    if cmds != [] {
      FollowsTail(rule, format, st, cmds, states);
      StepsReplay(rule, format, states[0], cmds[1..], states[1..]);
      assert [states[0]] + states[1..] == states;
    }
  }

  /** The edit events the three editing commands raise: the raw text and caret the
      browser hands to the formatter. */
  lemma StepPut(rule: CharRule, format: string -> string, st: InputState, s: string)
    requires WellFormed(st)
    ensures Step(rule, format, st, PutSymbol(s))
            == Reconcile(rule, format, st.value, Inserted(st.value, st.caret, s), st.caret + |s|, false)
  {
  }

  lemma StepBackspace(rule: CharRule, format: string -> string, st: InputState)
    requires WellFormed(st) && 0 < st.caret
    ensures Step(rule, format, st, Backspace)
            == Reconcile(rule, format, st.value, RemovedAt(st.value, st.caret - 1), st.caret - 1, false)
  {
  }

  lemma StepDelete(rule: CharRule, format: string -> string, st: InputState)
    requires WellFormed(st) && st.caret < |st.value|
    ensures Step(rule, format, st, Delete)
            == Reconcile(rule, format, st.value, RemovedAt(st.value, st.caret), st.caret, true)
  {
  }

  // ---------------------------------------------------------------------------
  // Caret placement after an edit

  /** When the formatter keeps the significant characters that stood before the raw caret,
      the caret lands right after the same significant characters, i.e. right after
      the k-th significant character of the new text. */
  lemma {:induction false} PlacementFollowsCount(rule: CharRule, format: string -> string, shown: string,
                              raw: string, rawCaret: nat, isDelete: bool)
    requires rawCaret <= |raw|
    requires Filter(rule, raw[..rawCaret]) <= Filter(rule, format(Filter(rule, raw)))
    requires !(isDelete && format(Filter(rule, raw)) == shown)
    ensures var st := Reconcile(rule, format, shown, raw, rawCaret, isDelete);
            && Filter(rule, st.value[..st.caret]) == Filter(rule, raw[..rawCaret])
            && st.caret == AfterNth(rule, st.value, |Filter(rule, raw[..rawCaret])|)
  {
    PlaceFollowsCount(rule, format(Filter(rule, raw)), Filter(rule, raw[..rawCaret]));
  }

  /** A caret position `p` at 0 or right after a significant character of the new text
      `val`, with exactly the significant characters before the raw caret in front of it,
      is where the caret lands (one further right after a forward delete the formatter
      undid). */
  lemma {:induction false} ReconcileCaret(rule: CharRule, format: string -> string, shown: string,
                       raw: string, rawCaret: nat, isDelete: bool, val: string, p: nat)
    requires rawCaret <= |raw| && val == format(Filter(rule, raw))
    requires CanonicalCaret(rule, val, p)
    requires Filter(rule, val[..p]) == Filter(rule, raw[..rawCaret])
    ensures Reconcile(rule, format, shown, raw, rawCaret, isDelete)
              == InputState(val, if isDelete && val == shown then Min(p + 1, |val|) else p)
  {
    var before := Filter(rule, raw[..rawCaret]);
    FilterPrefix(rule, val, p);
    PlaceFollowsCount(rule, val, before);
    AfterNthOfCanonical(rule, val, p);
    assert Place(val, before, 0) == p;
  }

  /** A formatter that keeps the significant characters keeps those before the caret. */
  lemma {:induction false} KeptPrefix(rule: CharRule, format: string -> string, raw: string, rawCaret: nat)
    requires rawCaret <= |raw|
    requires Keeps(rule, format, Filter(rule, raw))
    ensures Filter(rule, raw[..rawCaret]) <= Filter(rule, format(Filter(rule, raw)))
  {
    FilterPrefix(rule, raw, rawCaret);
  }

  /** The count of significant characters before a caret never places a caret past it. */
  lemma {:induction false} AfterNthWithin(rule: CharRule, val: string, c: nat)
    requires c <= |val|
    ensures AfterNth(rule, val, |Filter(rule, val[..c])|) <= c
  {
    if c > 0 {
      var k := |Filter(rule, val[..c])|;
      var k' := |Filter(rule, val[1..][..c - 1])|;
      FilterPrefixCons(rule, val, c);
      AfterNthWithin(rule, val[1..], c - 1);
      if rule.Significant(val[0]) {
        assert k == k' + 1;
        assert AfterNth(rule, val, k) == 1 + AfterNth(rule, val[1..], k');
      } else if k > 0 {
        assert k == k';
        assert AfterNth(rule, val, k) == 1 + AfterNth(rule, val[1..], k');
      }
    }
  }

  /** The caret `AfterNth` gives for the count before `c` is at 0 or right after a
      significant character. */
  lemma {:induction false} AfterNthCanonical(rule: CharRule, val: string, c: nat)
    requires c <= |val|
    ensures CanonicalCaret(rule, val, AfterNth(rule, val, |Filter(rule, val[..c])|))
  {
    FilterPrefix(rule, val, c);
    AfterNthCounts(rule, val, |Filter(rule, val[..c])|);
  }

  /** The caret `AfterNth` gives for the count of significant characters before `c`: never
      past `c`, and `c` itself when `c` is at 0 or right after a significant character. */
  lemma {:induction false} CaretOfCount(rule: CharRule, val: string, c: nat, k: nat)
    requires c <= |val| && k == |Filter(rule, val[..c])|
    ensures AfterNth(rule, val, k) <= c
    ensures CanonicalCaret(rule, val, c) ==> AfterNth(rule, val, k) == c
  {
    AfterNthWithin(rule, val, c);
    if CanonicalCaret(rule, val, c) {
      AfterNthOfCanonical(rule, val, c);
    }
  }

  /** Removing a decoration character changes no significant characters. */
  lemma {:induction false} DecorationRemoved(rule: CharRule, v: string, i: nat)
    requires i < |v| && !rule.Significant(v[i])
    ensures RemovedAt(v, i)[..i] == v[..i]
    ensures Filter(rule, RemovedAt(v, i)) == Filter(rule, v)
    ensures Filter(rule, v[..i + 1]) == Filter(rule, v[..i])
  {
    FilterRemovedAt(rule, v, i);
  }

  /** The significant characters of a text with `s` typed at `c`. */
  lemma {:induction false} FilterInserted(rule: CharRule, v: string, c: nat, s: string)
    requires c <= |v|
    ensures Inserted(v, c, s)[..c + |s|] == v[..c] + s
    ensures Filter(rule, v[..c] + s) == Filter(rule, v[..c]) + Filter(rule, s)
    ensures Filter(rule, Inserted(v, c, s)) == Filter(rule, v[..c]) + Filter(rule, s) + Filter(rule, v[c..])
  {
    FilterAppend(rule, v[..c] + s, v[c..]);
    FilterAppend(rule, v[..c], s);
  }

  /** The significant characters of a text with the character at `i` removed. */
  lemma {:induction false} FilterRemovedAt(rule: CharRule, v: string, i: nat)
    requires i < |v|
    ensures RemovedAt(v, i)[..i] == v[..i]
    ensures Filter(rule, RemovedAt(v, i)) == Filter(rule, v[..i]) + Filter(rule, v[i + 1..])
    ensures Filter(rule, v) == Filter(rule, v[..i]) + (if rule.Significant(v[i]) then [v[i]] else []) + Filter(rule, v[i + 1..])
    ensures Filter(rule, v[..i + 1]) == Filter(rule, v[..i]) + (if rule.Significant(v[i]) then [v[i]] else [])
  {
    FilterAppend(rule, v[..i], v[i + 1..]);
    assert v == v[..i] + [v[i]] + v[i + 1..];
    FilterAppend(rule, v[..i] + [v[i]], v[i + 1..]);
    FilterAppend(rule, v[..i], [v[i]]);
    FilterSingle(rule, v[i]);
    assert v[..i + 1] == v[..i] + [v[i]];
  }

  // ---------------------------------------------------------------------------
  // The four commands

  /** MOVE_CARET moves the caret by `d` and clamps it to `[0, length(value)]`;
      the text does not change. */
  lemma {:induction false} MoveCaretClamps(rule: CharRule, format: string -> string, st: InputState, d: int)
    requires WellFormed(st)
    ensures var r := Step(rule, format, st, MoveCaret(d));
            && r.value == st.value
            && r.caret <= |r.value|
            && (st.caret + d < 0 ==> r.caret == 0)
            && (st.caret + d > |st.value| ==> r.caret == |st.value|)
            && (0 <= st.caret + d <= |st.value| ==> r.caret == st.caret + d)
  {
  }

  /** An edit that leaves the significant characters of a stable text, and those before
      the caret, as they were gives back that text, with the caret right after those
      significant characters. */
  lemma {:induction false} SameSignificantReformats(rule: CharRule, format: string -> string, shown: string,
                                raw: string, rawCaret: nat, v: string, c: nat)
    requires rawCaret <= |raw| && c <= |v| && Stable(rule, format, v)
    requires Filter(rule, raw) == Filter(rule, v)
    requires Filter(rule, raw[..rawCaret]) == Filter(rule, v[..c])
    ensures Reconcile(rule, format, shown, raw, rawCaret, false)
              == InputState(v, AfterNth(rule, v, |Filter(rule, v[..c])|))
  {
    FilterPrefix(rule, v, c);
    PlacementFollowsCount(rule, format, shown, raw, rawCaret, false);
  }

  /** Typing only rejected characters changes no significant characters. */
  lemma {:induction false} RejectedInserted(rule: CharRule, v: string, c: nat, s: string)
    requires c <= |v|
    requires forall i :: 0 <= i < |s| ==> !rule.Significant(s[i])
    ensures Filter(rule, Inserted(v, c, s)) == Filter(rule, v)
    ensures Filter(rule, Inserted(v, c, s)[..c + |s|]) == Filter(rule, v[..c])
  {
    assert Filter(rule, s) == [] by {
      if Filter(rule, s) != [] {
        FilterMembership(rule, s, Filter(rule, s)[0]);
      }
    }
    FilterInserted(rule, v, c, s);
    FilterPrefix(rule, v, c);
  }

  /** Typing characters the rule rejects leaves a stable text unchanged; the caret goes to
      just after the significant characters before it, so it stays put when it already
      was there, and never moves right. */
  lemma {:induction false} RejectedSymbolsKeepText(rule: CharRule, format: string -> string, st: InputState, s: string)
    requires WellFormed(st) && Stable(rule, format, st.value)
    requires forall i :: 0 <= i < |s| ==> !rule.Significant(s[i])
    ensures var r := Step(rule, format, st, PutSymbol(s));
            && r.value == st.value
            && r.caret == AfterNth(rule, st.value, |Filter(rule, st.value[..st.caret])|)
            && r.caret <= st.caret
            && (CanonicalCaret(rule, st.value, st.caret) ==> r == st)
  {
    var v, c := st.value, st.caret;
    var raw := Inserted(v, c, s);
    RejectedInserted(rule, v, c, s);
    SameSignificantReformats(rule, format, v, raw, c + |s|, v, c);
    assert Step(rule, format, st, PutSymbol(s)) == Reconcile(rule, format, v, raw, c + |s|, false);
    CaretOfCount(rule, v, c, |Filter(rule, v[..c])|);
  }

  /** Typing rejected characters twice is typing them once. */
  lemma {:induction false} RejectedSymbolsTwice(rule: CharRule, format: string -> string, st: InputState, s: string)
    requires WellFormed(st) && Stable(rule, format, st.value)
    requires forall i :: 0 <= i < |s| ==> !rule.Significant(s[i])
    ensures var once := Step(rule, format, st, PutSymbol(s));
            Step(rule, format, once, PutSymbol(s)) == once
  {
    RejectedSymbolsKeepText(rule, format, st, s);
    var once := Step(rule, format, st, PutSymbol(s));
    AfterNthCanonical(rule, st.value, st.caret);
    RejectedSymbolsKeepText(rule, format, once, s);
  }

  /** BACKSPACE right after a decoration character of a stable text removes nothing: the
      text stays as it is and the caret moves left, to just after the significant
      character before it, i.e. just before the decoration when only one separates them. */
  lemma {:induction false} BackspaceOverDecoration(rule: CharRule, format: string -> string, st: InputState)
    requires WellFormed(st) && Stable(rule, format, st.value)
    requires 0 < st.caret && !rule.Significant(st.value[st.caret - 1])
    ensures var r := Step(rule, format, st, Backspace);
            && r.value == st.value
            && r.caret == AfterNth(rule, st.value, |Filter(rule, st.value[..st.caret])|)
            && r.caret < st.caret
            && ((st.caret == 1 || rule.Significant(st.value[st.caret - 2])) ==> r.caret == st.caret - 1)
  {
    var v, c := st.value, st.caret;
    var raw := RemovedAt(v, c - 1);
    DecorationRemoved(rule, v, c - 1);
    SameSignificantReformats(rule, format, v, raw, c - 1, v, c - 1);
    assert Step(rule, format, st, Backspace) == Reconcile(rule, format, v, raw, c - 1, false);
    CaretOfCount(rule, v, c - 1, |Filter(rule, v[..c])|);
  }

  /** DELETE in front of a character whose removal the formatter undoes leaves the text
      as it is and moves the caret one position to the right of where the significant
      characters before it put it: from a caret at 0 or right after a significant
      character, exactly one position right. */
  lemma {:induction false} UndoneDeleteStepsRight(rule: CharRule, format: string -> string, st: InputState)
    requires WellFormed(st) && st.caret < |st.value|
    requires format(Filter(rule, RemovedAt(st.value, st.caret))) == st.value
    ensures var r := Step(rule, format, st, Delete);
            && r.value == st.value
            && r.caret == AfterNth(rule, st.value, |Filter(rule, st.value[..st.caret])|) + 1
            && r.caret <= st.caret + 1
            && (CanonicalCaret(rule, st.value, st.caret) ==> r.caret == st.caret + 1)
  {
    var v, c := st.value, st.caret;
    var raw := RemovedAt(v, c);
    FilterRemovedAt(rule, v, c);
    FilterPrefix(rule, v, c);
    PlaceFollowsCount(rule, v, Filter(rule, v[..c]));
    var placed := AfterNth(rule, v, |Filter(rule, v[..c])|);
    AfterNthWithin(rule, v, c);
    var r := Reconcile(rule, format, v, raw, c, true);
    assert Step(rule, format, st, Delete) == r;
    assert r.value == v;
    assert r.caret == Min(placed + 1, |v|);
    if CanonicalCaret(rule, v, c) {
      AfterNthOfCanonical(rule, v, c);
    }
  }

  /** PUT_SYMBOL with a formatter that keeps the significant characters: the new text holds
      the old significant characters with the typed ones inserted at the caret, and the
      caret lands right after the significant characters before it plus those typed. */
  lemma {:induction false} PutSymbolKeepsCount(rule: CharRule, format: string -> string, st: InputState, s: string)
    requires WellFormed(st)
    requires Keeps(rule, format, Filter(rule, Inserted(st.value, st.caret, s)))
    ensures var r := Step(rule, format, st, PutSymbol(s));
            && Filter(rule, r.value) == Filter(rule, st.value[..st.caret]) + Filter(rule, s) + Filter(rule, st.value[st.caret..])
            && Filter(rule, r.value[..r.caret]) == Filter(rule, st.value[..st.caret]) + Filter(rule, s)
            && CanonicalCaret(rule, r.value, r.caret)
  {
    var v, c := st.value, st.caret;
    var raw := Inserted(v, c, s);
    StepPut(rule, format, st, s);
    FilterAppend(rule, v[..c] + s, v[c..]);
    FilterAppend(rule, v[..c], s);
    assert raw[..c + |s|] == v[..c] + s;
    KeptPrefix(rule, format, raw, c + |s|);
    PlacementFollowsCount(rule, format, v, raw, c + |s|, false);
  }

  /** BACKSPACE after a significant character, with a formatter that keeps the significant
      characters: that character is gone, the rest regroup, and the caret stays right
      after the significant characters that preceded the removed one. */
  lemma {:induction false} BackspaceRemovesSignificant(rule: CharRule, format: string -> string, st: InputState)
    requires WellFormed(st) && 0 < st.caret
    requires Keeps(rule, format, Filter(rule, RemovedAt(st.value, st.caret - 1)))
    ensures var r := Step(rule, format, st, Backspace);
            && Filter(rule, r.value) == Filter(rule, st.value[..st.caret - 1]) + Filter(rule, st.value[st.caret..])
            && Filter(rule, r.value[..r.caret]) == Filter(rule, st.value[..st.caret - 1])
            && (rule.Significant(st.value[st.caret - 1]) ==> |Filter(rule, r.value)| + 1 == |Filter(rule, st.value)|)
  {
    var v, c := st.value, st.caret;
    var raw := RemovedAt(v, c - 1);
    StepBackspace(rule, format, st);
    FilterAppend(rule, v[..c - 1], v[c..]);
    assert raw[..c - 1] == v[..c - 1];
    KeptPrefix(rule, format, raw, c - 1);
    PlacementFollowsCount(rule, format, v, raw, c - 1, false);
    assert v == v[..c - 1] + [v[c - 1]] + v[c..];
    FilterAppend(rule, v[..c - 1] + [v[c - 1]], v[c..]);
    FilterAppend(rule, v[..c - 1], [v[c - 1]]);
    FilterSingle(rule, v[c - 1]);
  }

  /** DELETE before a significant character, with a formatter that keeps the significant
      characters: that character is gone, the rest regroup, and the caret stays right
      after the significant characters before it. */
  lemma {:induction false} DeleteRemovesSignificant(rule: CharRule, format: string -> string, st: InputState)
    requires WellFormed(st) && st.caret < |st.value| && rule.Significant(st.value[st.caret])
    requires Keeps(rule, format, Filter(rule, RemovedAt(st.value, st.caret)))
    ensures var r := Step(rule, format, st, Delete);
            && Filter(rule, r.value) == Filter(rule, st.value[..st.caret]) + Filter(rule, st.value[st.caret + 1..])
            && |Filter(rule, r.value)| + 1 == |Filter(rule, st.value)|
            && Filter(rule, r.value[..r.caret]) == Filter(rule, st.value[..st.caret])
  {
    var v, c := st.value, st.caret;
    var raw := RemovedAt(v, c);
    StepDelete(rule, format, st);
    FilterAppend(rule, v[..c], v[c + 1..]);
    assert v == v[..c] + [v[c]] + v[c + 1..];
    FilterAppend(rule, v[..c] + [v[c]], v[c + 1..]);
    FilterAppend(rule, v[..c], [v[c]]);
    FilterSingle(rule, v[c]);
    assert format(Filter(rule, raw)) != v;
    assert raw[..c] == v[..c];
    KeptPrefix(rule, format, raw, c);
    PlacementFollowsCount(rule, format, v, raw, c, true);
  }

  /** With an idempotent formatter, every command leaves a text that re-renders to itself,
      so the value the controlling component holds is the value the input displays. */
  lemma {:induction false} StepKeepsStable(rule: CharRule, format: string -> string, st: InputState, cmd: Command)
    requires WellFormed(st) && Stable(rule, format, st.value)
    requires Idempotent(rule, format)
    ensures Stable(rule, format, Step(rule, format, st, cmd).value)
  {
    var v, c := st.value, st.caret;
    match cmd
    case PutSymbol(s) =>
      assert Stable(rule, format, format(Filter(rule, Inserted(v, c, s))));
    case MoveCaret(_) =>
    case Backspace =>
      if c > 0 {
        assert Stable(rule, format, format(Filter(rule, RemovedAt(v, c - 1))));
      }
    case Delete =>
      if c < |v| {
        assert Stable(rule, format, format(Filter(rule, RemovedAt(v, c))));
      }
  }
}

/** Currency snapshot traces, for any formatter that writes the significant characters
    the way the snapshots show.

    The currency inputs refuse everything but digits and the decimal point.  Their
    formatters are not part of this model: each trace below assumes only what the
    snapshots themselves show the formatter doing to the text it is given, and derives
    the caret.  Two of these snapshots are where the caret walk of `Place` and the
    simpler "after the k-th significant character" rule part ways (`CountRuleDiffers`).

    The "format with custom refuse works" test is replayed whole, in segments
    (`CustomRefuseReplay`); the thousands separator `’` is its formatter's decoration.
    Each of its steps leans on small lemmas about the literal texts involved (`EditLine`,
    `RawLine`, `BeforeLine`, `PlacedLine` of that line), one fact each, so that every
    proof stays small.
 */
module CurrencyTraces {
  import opened Significance
  import opened CaretPlacement
  import opened Editing

  /** The thousands separator `’` is not significant: the significant characters of two
      texts joined by it are theirs, one after the other. */
  lemma {:induction false} SeparatorDropped(a: string, b: string)
    ensures Filter(DigitsAndPoint, a + "’" + b) == Filter(DigitsAndPoint, a) + Filter(DigitsAndPoint, b)
  {
    FilterAppend(DigitsAndPoint, a + "’", b);
    FilterAppend(DigitsAndPoint, a, "’");
    FilterSingle(DigitsAndPoint, '’');
  }

  /** Two groups of significant characters around a separator. */
  lemma {:induction false} TwoGroups(a: string, b: string)
    requires AllSignificant(DigitsAndPoint, a) && AllSignificant(DigitsAndPoint, b)
    ensures Filter(DigitsAndPoint, a + "’" + b) == a + b
  {
    SeparatorDropped(a, b);
    FilterFixedPoint(DigitsAndPoint, a);
    FilterFixedPoint(DigitsAndPoint, b);
  }

  /** Three groups of significant characters between two separators. */
  lemma {:induction false} ThreeGroups(a: string, b: string, c: string)
    requires AllSignificant(DigitsAndPoint, a) && AllSignificant(DigitsAndPoint, b) && AllSignificant(DigitsAndPoint, c)
    ensures Filter(DigitsAndPoint, a + "’" + b + "’" + c) == a + b + c
  {
    SeparatorDropped(a + "’" + b, c);
    TwoGroups(a, b);
    FilterFixedPoint(DigitsAndPoint, c);
  }

  /** An edit event whose texts are known: `format` turns the significant characters of
      the edited text into `val`, and `p` is the place in `val` just after the
      significant characters that stood before the caret. */
  lemma {:induction false} ReconcileTo(format: string -> string, shown: string, raw: string, rawCaret: nat,
                                       isDelete: bool, sig: string, before: string, val: string, p: nat)
    requires rawCaret <= |raw| && Filter(DigitsAndPoint, raw) == sig && format(sig) == val
    requires Filter(DigitsAndPoint, raw[..rawCaret]) == before
    requires CanonicalCaret(DigitsAndPoint, val, p) && Filter(DigitsAndPoint, val[..p]) == before
    ensures Reconcile(DigitsAndPoint, format, shown, raw, rawCaret, isDelete)
              == InputState(val, if isDelete && val == shown then Min(p + 1, |val|) else p)
  {
    ReconcileCaret(DigitsAndPoint, format, shown, raw, rawCaret, isDelete, val, p);
  }

  /** The significant characters of the edited text of line 95. */
  lemma {:induction false} RawLine95()
    ensures Filter(DigitsAndPoint, "1") == "1"
  {
    assert AllSignificant(DigitsAndPoint, "1");
    FilterFixedPoint(DigitsAndPoint, "1");
  }

  /** Those before its caret. */
  lemma {:induction false} BeforeLine95()
    ensures Filter(DigitsAndPoint, "1") == "1"
  {
    assert AllSignificant(DigitsAndPoint, "1");
    FilterFixedPoint(DigitsAndPoint, "1");
  }

  /** The text line 95 edits to, and where its caret lands. */
  lemma {:induction false} EditLine95()
    ensures Inserted("", 0, "1") == "1" && "1"[..1] == "1"
    ensures "1"[..1] == "1" && CanonicalCaret(DigitsAndPoint, "1", 1)
  {
  }

  /** `|` PUT_SYMBOL `1` shows `1|`. */
  lemma {:induction false} CustomRefuseLine95(format: string -> string)
    requires format("1") == "1"
    ensures Step(DigitsAndPoint, format, InputState("", 0), PutSymbol("1")) == InputState("1", 1)
  {
    EditLine95();
    RawLine95();
    BeforeLine95();
    StepPut(DigitsAndPoint, format, InputState("", 0), "1");
    ReconcileTo(format, "", "1", 1, false, "1", "1", "1", 1);
  }

  /** The significant characters of the edited text of line 96. */
  lemma {:induction false} RawLine96()
    ensures Filter(DigitsAndPoint, "146") == "146"
  {
    assert AllSignificant(DigitsAndPoint, "146");
    FilterFixedPoint(DigitsAndPoint, "146");
  }

  /** Those before its caret. */
  lemma {:induction false} BeforeLine96()
    ensures Filter(DigitsAndPoint, "146") == "146"
  {
    assert AllSignificant(DigitsAndPoint, "146");
    FilterFixedPoint(DigitsAndPoint, "146");
  }

  /** The text line 96 edits to, and where its caret lands. */
  lemma {:induction false} EditLine96()
    ensures Inserted("1", 1, "46") == "146" && "146"[..3] == "146"
    ensures "146"[..3] == "146" && CanonicalCaret(DigitsAndPoint, "146", 3)
  {
  }

  /** `1|` PUT_SYMBOL `46` shows `146|`. */
  lemma {:induction false} CustomRefuseLine96(format: string -> string)
    requires format("146") == "146"
    ensures Step(DigitsAndPoint, format, InputState("1", 1), PutSymbol("46")) == InputState("146", 3)
  {
    EditLine96();
    RawLine96();
    BeforeLine96();
    StepPut(DigitsAndPoint, format, InputState("1", 1), "46");
    ReconcileTo(format, "1", "146", 3, false, "146", "146", "146", 3);
  }

  /** The significant characters of the edited text of line 98. */
  lemma {:induction false} RawLine98()
    ensures Filter(DigitsAndPoint, "12346") == "12346"
  {
    assert AllSignificant(DigitsAndPoint, "12346");
    FilterFixedPoint(DigitsAndPoint, "12346");
  }

  /** Those before its caret. */
  lemma {:induction false} BeforeLine98()
    ensures Filter(DigitsAndPoint, "123") == "123"
  {
    assert AllSignificant(DigitsAndPoint, "123");
    FilterFixedPoint(DigitsAndPoint, "123");
  }

  /** Those before the new caret. */
  lemma {:induction false} PlacedLine98()
    ensures Filter(DigitsAndPoint, "12’3") == "123"
  {
    assert AllSignificant(DigitsAndPoint, "12") && AllSignificant(DigitsAndPoint, "3");
    TwoGroups("12", "3");
    assert "12’3" == "12" + "’" + "3";
  }

  /** The text line 98 edits to, and where its caret lands. */
  lemma {:induction false} EditLine98()
    ensures Inserted("146", 1, "23") == "12346" && "12346"[..3] == "123"
    ensures "12’346"[..4] == "12’3" && CanonicalCaret(DigitsAndPoint, "12’346", 4)
  {
  }

  /** `1|46` PUT_SYMBOL `23` shows `12’3|46`. */
  lemma {:induction false} CustomRefuseLine98(format: string -> string)
    requires format("12346") == "12’346"
    ensures Step(DigitsAndPoint, format, InputState("146", 1), PutSymbol("23")) == InputState("12’346", 4)
  {
    EditLine98();
    RawLine98();
    BeforeLine98();
    PlacedLine98();
    StepPut(DigitsAndPoint, format, InputState("146", 1), "23");
    ReconcileTo(format, "146", "12346", 3, false, "12346", "123", "12’346", 4);
  }

  /** The significant characters of the edited text of line 100. */
  lemma {:induction false} RawLine100()
    ensures Filter(DigitsAndPoint, "12’3456") == "123456"
  {
    assert AllSignificant(DigitsAndPoint, "12") && AllSignificant(DigitsAndPoint, "3456");
    TwoGroups("12", "3456");
    assert "12’3456" == "12" + "’" + "3456";
  }

  /** Those before its caret. */
  lemma {:induction false} BeforeLine100()
    ensures Filter(DigitsAndPoint, "12’345") == "12345"
  {
    assert AllSignificant(DigitsAndPoint, "12") && AllSignificant(DigitsAndPoint, "345");
    TwoGroups("12", "345");
    assert "12’345" == "12" + "’" + "345";
  }

  /** Those before the new caret. */
  lemma {:induction false} PlacedLine100()
    ensures Filter(DigitsAndPoint, "123’45") == "12345"
  {
    assert AllSignificant(DigitsAndPoint, "123") && AllSignificant(DigitsAndPoint, "45");
    TwoGroups("123", "45");
    assert "123’45" == "123" + "’" + "45";
  }

  /** The text line 100 edits to, and where its caret lands. */
  lemma {:induction false} EditLine100()
    ensures Inserted("12’346", 5, "5") == "12’3456" && "12’3456"[..6] == "12’345"
    ensures "123’456"[..6] == "123’45" && CanonicalCaret(DigitsAndPoint, "123’456", 6)
  {
  }

  /** `12’34|6` PUT_SYMBOL `5` shows `123’45|6`. */
  lemma {:induction false} CustomRefuseLine100(format: string -> string)
    requires format("123456") == "123’456"
    ensures Step(DigitsAndPoint, format, InputState("12’346", 5), PutSymbol("5")) == InputState("123’456", 6)
  {
    EditLine100();
    RawLine100();
    BeforeLine100();
    PlacedLine100();
    StepPut(DigitsAndPoint, format, InputState("12’346", 5), "5");
    ReconcileTo(format, "12’346", "12’3456", 6, false, "123456", "12345", "123’456", 6);
  }

  /** The significant characters of the edited text of line 103. */
  lemma {:induction false} RawLine103()
    ensures Filter(DigitsAndPoint, "123’9456") == "1239456"
  {
    assert AllSignificant(DigitsAndPoint, "123") && AllSignificant(DigitsAndPoint, "9456");
    TwoGroups("123", "9456");
    assert "123’9456" == "123" + "’" + "9456";
  }

  /** Those before its caret. */
  lemma {:induction false} BeforeLine103()
    ensures Filter(DigitsAndPoint, "123’9") == "1239"
  {
    assert AllSignificant(DigitsAndPoint, "123") && AllSignificant(DigitsAndPoint, "9");
    TwoGroups("123", "9");
    assert "123’9" == "123" + "’" + "9";
  }

  /** Those before the new caret. */
  lemma {:induction false} PlacedLine103()
    ensures Filter(DigitsAndPoint, "1’239") == "1239"
  {
    assert AllSignificant(DigitsAndPoint, "1") && AllSignificant(DigitsAndPoint, "239");
    TwoGroups("1", "239");
    assert "1’239" == "1" + "’" + "239";
  }

  /** The text line 103 edits to, and where its caret lands. */
  lemma {:induction false} EditLine103()
    ensures Inserted("123’456", 4, "9") == "123’9456" && "123’9456"[..5] == "123’9"
    ensures "1’239’456"[..5] == "1’239" && CanonicalCaret(DigitsAndPoint, "1’239’456", 5)
  {
  }

  /** `123’|456` PUT_SYMBOL `9` shows `1’239|’456`. */
  lemma {:induction false} CustomRefuseLine103(format: string -> string)
    requires format("1239456") == "1’239’456"
    ensures Step(DigitsAndPoint, format, InputState("123’456", 4), PutSymbol("9")) == InputState("1’239’456", 5)
  {
    EditLine103();
    RawLine103();
    BeforeLine103();
    PlacedLine103();
    StepPut(DigitsAndPoint, format, InputState("123’456", 4), "9");
    ReconcileTo(format, "123’456", "123’9456", 5, false, "1239456", "1239", "1’239’456", 5);
  }

  /** The significant characters of the edited text of line 104. */
  lemma {:induction false} RawLine104()
    ensures Filter(DigitsAndPoint, "1’2398’456") == "12398456"
  {
    assert AllSignificant(DigitsAndPoint, "1") && AllSignificant(DigitsAndPoint, "2398") && AllSignificant(DigitsAndPoint, "456");
    ThreeGroups("1", "2398", "456");
    assert "1’2398’456" == "1" + "’" + "2398" + "’" + "456";
  }

  /** Those before its caret. */
  lemma {:induction false} BeforeLine104()
    ensures Filter(DigitsAndPoint, "1’2398") == "12398"
  {
    assert AllSignificant(DigitsAndPoint, "1") && AllSignificant(DigitsAndPoint, "2398");
    TwoGroups("1", "2398");
    assert "1’2398" == "1" + "’" + "2398";
  }

  /** Those before the new caret. */
  lemma {:induction false} PlacedLine104()
    ensures Filter(DigitsAndPoint, "12’398") == "12398"
  {
    assert AllSignificant(DigitsAndPoint, "12") && AllSignificant(DigitsAndPoint, "398");
    TwoGroups("12", "398");
    assert "12’398" == "12" + "’" + "398";
  }

  /** The text line 104 edits to, and where its caret lands. */
  lemma {:induction false} EditLine104()
    ensures Inserted("1’239’456", 5, "8") == "1’2398’456" && "1’2398’456"[..6] == "1’2398"
    ensures "12’398’456"[..6] == "12’398" && CanonicalCaret(DigitsAndPoint, "12’398’456", 6)
  {
  }

  /** `1’239|’456` PUT_SYMBOL `8` shows `12’398|’456`. */
  lemma {:induction false} CustomRefuseLine104(format: string -> string)
    requires format("12398456") == "12’398’456"
    ensures Step(DigitsAndPoint, format, InputState("1’239’456", 5), PutSymbol("8")) == InputState("12’398’456", 6)
  {
    EditLine104();
    RawLine104();
    BeforeLine104();
    PlacedLine104();
    StepPut(DigitsAndPoint, format, InputState("1’239’456", 5), "8");
    ReconcileTo(format, "1’239’456", "1’2398’456", 6, false, "12398456", "12398", "12’398’456", 6);
  }

  /** The significant characters of the edited text of line 106. */
  lemma {:induction false} RawLine106()
    ensures Filter(DigitsAndPoint, "12’39’456") == "1239456"
  {
    assert AllSignificant(DigitsAndPoint, "12") && AllSignificant(DigitsAndPoint, "39") && AllSignificant(DigitsAndPoint, "456");
    ThreeGroups("12", "39", "456");
    assert "12’39’456" == "12" + "’" + "39" + "’" + "456";
  }

  /** Those before its caret. */
  lemma {:induction false} BeforeLine106()
    ensures Filter(DigitsAndPoint, "12’39") == "1239"
  {
    assert AllSignificant(DigitsAndPoint, "12") && AllSignificant(DigitsAndPoint, "39");
    TwoGroups("12", "39");
    assert "12’39" == "12" + "’" + "39";
  }

  /** Those before the new caret. */
  lemma {:induction false} PlacedLine106()
    ensures Filter(DigitsAndPoint, "1’239") == "1239"
  {
    assert AllSignificant(DigitsAndPoint, "1") && AllSignificant(DigitsAndPoint, "239");
    TwoGroups("1", "239");
    assert "1’239" == "1" + "’" + "239";
  }

  /** The text line 106 edits to, and where its caret lands. */
  lemma {:induction false} EditLine106()
    ensures RemovedAt("12’398’456", 5) == "12’39’456" && "12’39’456"[..5] == "12’39"
    ensures "1’239’456"[..5] == "1’239" && CanonicalCaret(DigitsAndPoint, "1’239’456", 5)
  {
    assert "12’398’456"[..5] == "12’39" && "12’398’456"[6..] == "’456";
  }

  /** `12’398|’456` BACKSPACE shows `1’239|’456`. */
  lemma {:induction false} CustomRefuseLine106(format: string -> string)
    requires format("1239456") == "1’239’456"
    ensures Step(DigitsAndPoint, format, InputState("12’398’456", 6), Backspace) == InputState("1’239’456", 5)
  {
    EditLine106();
    RawLine106();
    BeforeLine106();
    PlacedLine106();
    StepBackspace(DigitsAndPoint, format, InputState("12’398’456", 6));
    ReconcileTo(format, "12’398’456", "12’39’456", 5, false, "1239456", "1239", "1’239’456", 5);
  }

  /** The significant characters of the edited text of line 107. */
  lemma {:induction false} RawLine107()
    ensures Filter(DigitsAndPoint, "1’23’456") == "123456"
  {
    assert AllSignificant(DigitsAndPoint, "1") && AllSignificant(DigitsAndPoint, "23") && AllSignificant(DigitsAndPoint, "456");
    ThreeGroups("1", "23", "456");
    assert "1’23’456" == "1" + "’" + "23" + "’" + "456";
  }

  /** Those before its caret. */
  lemma {:induction false} BeforeLine107()
    ensures Filter(DigitsAndPoint, "1’23") == "123"
  {
    assert AllSignificant(DigitsAndPoint, "1") && AllSignificant(DigitsAndPoint, "23");
    TwoGroups("1", "23");
    assert "1’23" == "1" + "’" + "23";
  }

  /** Those before the new caret. */
  lemma {:induction false} PlacedLine107()
    ensures Filter(DigitsAndPoint, "123") == "123"
  {
    assert AllSignificant(DigitsAndPoint, "123");
    FilterFixedPoint(DigitsAndPoint, "123");
  }

  /** The text line 107 edits to, and where its caret lands. */
  lemma {:induction false} EditLine107()
    ensures RemovedAt("1’239’456", 4) == "1’23’456" && "1’23’456"[..4] == "1’23"
    ensures "123’456"[..3] == "123" && CanonicalCaret(DigitsAndPoint, "123’456", 3)
  {
    assert "1’239’456"[..4] == "1’23" && "1’239’456"[5..] == "’456";
  }

  /** `1’239|’456` BACKSPACE shows `123|’456`. */
  lemma {:induction false} CustomRefuseLine107(format: string -> string)
    requires format("123456") == "123’456"
    ensures Step(DigitsAndPoint, format, InputState("1’239’456", 5), Backspace) == InputState("123’456", 3)
  {
    EditLine107();
    RawLine107();
    BeforeLine107();
    PlacedLine107();
    StepBackspace(DigitsAndPoint, format, InputState("1’239’456", 5));
    ReconcileTo(format, "1’239’456", "1’23’456", 4, false, "123456", "123", "123’456", 3);
  }

  /** The significant characters of the edited text of line 109. */
  lemma {:induction false} RawLine109()
    ensures Filter(DigitsAndPoint, "123456") == "123456"
  {
    assert AllSignificant(DigitsAndPoint, "123456");
    FilterFixedPoint(DigitsAndPoint, "123456");
  }

  /** Those before its caret. */
  lemma {:induction false} BeforeLine109()
    ensures Filter(DigitsAndPoint, "123") == "123"
  {
    assert AllSignificant(DigitsAndPoint, "123");
    FilterFixedPoint(DigitsAndPoint, "123");
  }

  /** The text line 109 edits to, and where its caret lands. */
  lemma {:induction false} EditLine109()
    ensures RemovedAt("123’456", 3) == "123456" && "123456"[..3] == "123"
    ensures "123’456"[..3] == "123" && CanonicalCaret(DigitsAndPoint, "123’456", 3)
  {
    assert "123’456"[..3] == "123" && "123’456"[4..] == "456";
  }

  /** `123’|456` BACKSPACE shows `123|’456`. */
  lemma {:induction false} CustomRefuseLine109(format: string -> string)
    requires format("123456") == "123’456"
    ensures Step(DigitsAndPoint, format, InputState("123’456", 4), Backspace) == InputState("123’456", 3)
  {
    EditLine109();
    RawLine109();
    BeforeLine109();
    StepBackspace(DigitsAndPoint, format, InputState("123’456", 4));
    ReconcileTo(format, "123’456", "123456", 3, false, "123456", "123", "123’456", 3);
  }

  /** The significant characters of the edited text of line 111. */
  lemma {:induction false} RawLine111()
    ensures Filter(DigitsAndPoint, "123’45") == "12345"
  {
    assert AllSignificant(DigitsAndPoint, "123") && AllSignificant(DigitsAndPoint, "45");
    TwoGroups("123", "45");
    assert "123’45" == "123" + "’" + "45";
  }

  /** Those before its caret. */
  lemma {:induction false} BeforeLine111()
    ensures Filter(DigitsAndPoint, "123’45") == "12345"
  {
    assert AllSignificant(DigitsAndPoint, "123") && AllSignificant(DigitsAndPoint, "45");
    TwoGroups("123", "45");
    assert "123’45" == "123" + "’" + "45";
  }

  /** Those before the new caret. */
  lemma {:induction false} PlacedLine111()
    ensures Filter(DigitsAndPoint, "12’345") == "12345"
  {
    assert AllSignificant(DigitsAndPoint, "12") && AllSignificant(DigitsAndPoint, "345");
    TwoGroups("12", "345");
    assert "12’345" == "12" + "’" + "345";
  }

  /** The text line 111 edits to, and where its caret lands. */
  lemma {:induction false} EditLine111()
    ensures RemovedAt("123’456", 6) == "123’45" && "123’45"[..6] == "123’45"
    ensures "12’345"[..6] == "12’345" && CanonicalCaret(DigitsAndPoint, "12’345", 6)
  {
    assert "123’456"[..6] == "123’45" && "123’456"[7..] == "";
  }

  /** `123’456|` BACKSPACE shows `12’345|`. */
  lemma {:induction false} CustomRefuseLine111(format: string -> string)
    requires format("12345") == "12’345"
    ensures Step(DigitsAndPoint, format, InputState("123’456", 7), Backspace) == InputState("12’345", 6)
  {
    EditLine111();
    RawLine111();
    BeforeLine111();
    PlacedLine111();
    StepBackspace(DigitsAndPoint, format, InputState("123’456", 7));
    ReconcileTo(format, "123’456", "123’45", 6, false, "12345", "12345", "12’345", 6);
  }

  /** The significant characters of the edited text of line 114. */
  lemma {:induction false} RawLine114()
    ensures Filter(DigitsAndPoint, "2’345") == "2345"
  {
    assert AllSignificant(DigitsAndPoint, "2") && AllSignificant(DigitsAndPoint, "345");
    TwoGroups("2", "345");
    assert "2’345" == "2" + "’" + "345";
  }

  /** Those before its caret. */
  lemma {:induction false} BeforeLine114()
    ensures Filter(DigitsAndPoint, "") == ""
  {
    assert AllSignificant(DigitsAndPoint, "");
    FilterFixedPoint(DigitsAndPoint, "");
  }

  /** The text line 114 edits to, and where its caret lands. */
  lemma {:induction false} EditLine114()
    ensures RemovedAt("12’345", 0) == "2’345" && "2’345"[..0] == ""
    ensures "2’345"[..0] == "" && CanonicalCaret(DigitsAndPoint, "2’345", 0)
  {
    assert "12’345"[..0] == "" && "12’345"[1..] == "2’345";
  }

  /** `1|2’345` BACKSPACE shows `|2’345`. */
  lemma {:induction false} CustomRefuseLine114(format: string -> string)
    requires format("2345") == "2’345"
    ensures Step(DigitsAndPoint, format, InputState("12’345", 1), Backspace) == InputState("2’345", 0)
  {
    EditLine114();
    RawLine114();
    BeforeLine114();
    StepBackspace(DigitsAndPoint, format, InputState("12’345", 1));
    ReconcileTo(format, "12’345", "2’345", 0, false, "2345", "", "2’345", 0);
  }

  /** The significant characters of the edited text of line 115. */
  lemma {:induction false} RawLine115()
    ensures Filter(DigitsAndPoint, "12’345") == "12345"
  {
    assert AllSignificant(DigitsAndPoint, "12") && AllSignificant(DigitsAndPoint, "345");
    TwoGroups("12", "345");
    assert "12’345" == "12" + "’" + "345";
  }

  /** Those before its caret. */
  lemma {:induction false} BeforeLine115()
    ensures Filter(DigitsAndPoint, "1") == "1"
  {
    assert AllSignificant(DigitsAndPoint, "1");
    FilterFixedPoint(DigitsAndPoint, "1");
  }

  /** The text line 115 edits to, and where its caret lands. */
  lemma {:induction false} EditLine115()
    ensures Inserted("2’345", 0, "1") == "12’345" && "12’345"[..1] == "1"
    ensures "12’345"[..1] == "1" && CanonicalCaret(DigitsAndPoint, "12’345", 1)
  {
  }

  /** `|2’345` PUT_SYMBOL `1` shows `1|2’345`. */
  lemma {:induction false} CustomRefuseLine115(format: string -> string)
    requires format("12345") == "12’345"
    ensures Step(DigitsAndPoint, format, InputState("2’345", 0), PutSymbol("1")) == InputState("12’345", 1)
  {
    EditLine115();
    RawLine115();
    BeforeLine115();
    StepPut(DigitsAndPoint, format, InputState("2’345", 0), "1");
    ReconcileTo(format, "2’345", "12’345", 1, false, "12345", "1", "12’345", 1);
  }

  /** `1|2’345` PUT_SYMBOL `x` shows `1|2’345`: the refused character changes nothing. */
  lemma {:induction false} CustomRefuseLine116(format: string -> string)
    requires format("12345") == "12’345"
    ensures Step(DigitsAndPoint, format, InputState("12’345", 1), PutSymbol("x")) == InputState("12’345", 1)
  {
    RawLine115();
    assert !DigitsAndPoint.Significant("x"[0]);
    RejectedSymbolsKeepText(DigitsAndPoint, format, InputState("12’345", 1), "x");
  }

  /** The significant characters of the edited text of line 118. */
  lemma {:induction false} RawLine118()
    ensures Filter(DigitsAndPoint, "12’345.") == "12345."
  {
    assert AllSignificant(DigitsAndPoint, "12") && AllSignificant(DigitsAndPoint, "345.");
    TwoGroups("12", "345.");
    assert "12’345." == "12" + "’" + "345.";
  }

  /** Those before its caret. */
  lemma {:induction false} BeforeLine118()
    ensures Filter(DigitsAndPoint, "12’345.") == "12345."
  {
    assert AllSignificant(DigitsAndPoint, "12") && AllSignificant(DigitsAndPoint, "345.");
    TwoGroups("12", "345.");
    assert "12’345." == "12" + "’" + "345.";
  }

  /** The text line 118 edits to, and where its caret lands. */
  lemma {:induction false} EditLine118()
    ensures Inserted("12’345", 6, ".") == "12’345." && "12’345."[..7] == "12’345."
    ensures "12’345."[..7] == "12’345." && CanonicalCaret(DigitsAndPoint, "12’345.", 7)
  {
  }

  /** `12’345|` PUT_SYMBOL `.` shows `12’345.|`. */
  lemma {:induction false} CustomRefuseLine118(format: string -> string)
    requires format("12345.") == "12’345."
    ensures Step(DigitsAndPoint, format, InputState("12’345", 6), PutSymbol(".")) == InputState("12’345.", 7)
  {
    EditLine118();
    RawLine118();
    BeforeLine118();
    StepPut(DigitsAndPoint, format, InputState("12’345", 6), ".");
    ReconcileTo(format, "12’345", "12’345.", 7, false, "12345.", "12345.", "12’345.", 7);
  }

  /** The significant characters of the edited text of line 119. */
  lemma {:induction false} RawLine119()
    ensures Filter(DigitsAndPoint, "12’345.0") == "12345.0"
  {
    assert AllSignificant(DigitsAndPoint, "12") && AllSignificant(DigitsAndPoint, "345.0");
    TwoGroups("12", "345.0");
    assert "12’345.0" == "12" + "’" + "345.0";
  }

  /** Those before its caret. */
  lemma {:induction false} BeforeLine119()
    ensures Filter(DigitsAndPoint, "12’345.0") == "12345.0"
  {
    assert AllSignificant(DigitsAndPoint, "12") && AllSignificant(DigitsAndPoint, "345.0");
    TwoGroups("12", "345.0");
    assert "12’345.0" == "12" + "’" + "345.0";
  }

  /** The text line 119 edits to, and where its caret lands. */
  lemma {:induction false} EditLine119()
    ensures Inserted("12’345.", 7, "0") == "12’345.0" && "12’345.0"[..8] == "12’345.0"
    ensures "12’345.0"[..8] == "12’345.0" && CanonicalCaret(DigitsAndPoint, "12’345.0", 8)
  {
  }

  /** `12’345.|` PUT_SYMBOL `0` shows `12’345.0|`. */
  lemma {:induction false} CustomRefuseLine119(format: string -> string)
    requires format("12345.0") == "12’345.0"
    ensures Step(DigitsAndPoint, format, InputState("12’345.", 7), PutSymbol("0")) == InputState("12’345.0", 8)
  {
    EditLine119();
    RawLine119();
    BeforeLine119();
    StepPut(DigitsAndPoint, format, InputState("12’345.", 7), "0");
    ReconcileTo(format, "12’345.", "12’345.0", 8, false, "12345.0", "12345.0", "12’345.0", 8);
  }

  /** The significant characters of the edited text of line 120. */
  lemma {:induction false} RawLine120()
    ensures Filter(DigitsAndPoint, "12’345.00") == "12345.00"
  {
    assert AllSignificant(DigitsAndPoint, "12") && AllSignificant(DigitsAndPoint, "345.00");
    TwoGroups("12", "345.00");
    assert "12’345.00" == "12" + "’" + "345.00";
  }

  /** Those before its caret. */
  lemma {:induction false} BeforeLine120()
    ensures Filter(DigitsAndPoint, "12’345.00") == "12345.00"
  {
    assert AllSignificant(DigitsAndPoint, "12") && AllSignificant(DigitsAndPoint, "345.00");
    TwoGroups("12", "345.00");
    assert "12’345.00" == "12" + "’" + "345.00";
  }

  /** The text line 120 edits to, and where its caret lands. */
  lemma {:induction false} EditLine120()
    ensures Inserted("12’345.0", 8, "0") == "12’345.00" && "12’345.00"[..9] == "12’345.00"
    ensures "12’345.00"[..9] == "12’345.00" && CanonicalCaret(DigitsAndPoint, "12’345.00", 9)
  {
  }

  /** `12’345.0|` PUT_SYMBOL `0` shows `12’345.00|`. */
  lemma {:induction false} CustomRefuseLine120(format: string -> string)
    requires format("12345.00") == "12’345.00"
    ensures Step(DigitsAndPoint, format, InputState("12’345.0", 8), PutSymbol("0")) == InputState("12’345.00", 9)
  {
    EditLine120();
    RawLine120();
    BeforeLine120();
    StepPut(DigitsAndPoint, format, InputState("12’345.0", 8), "0");
    ReconcileTo(format, "12’345.0", "12’345.00", 9, false, "12345.00", "12345.00", "12’345.00", 9);
  }

  /** The significant characters of the edited text of line 122. */
  lemma {:induction false} RawLine122()
    ensures Filter(DigitsAndPoint, "12’34500") == "1234500"
  {
    assert AllSignificant(DigitsAndPoint, "12") && AllSignificant(DigitsAndPoint, "34500");
    TwoGroups("12", "34500");
    assert "12’34500" == "12" + "’" + "34500";
  }

  /** Those before its caret. */
  lemma {:induction false} BeforeLine122()
    ensures Filter(DigitsAndPoint, "12’345") == "12345"
  {
    assert AllSignificant(DigitsAndPoint, "12") && AllSignificant(DigitsAndPoint, "345");
    TwoGroups("12", "345");
    assert "12’345" == "12" + "’" + "345";
  }

  /** Those before the new caret. */
  lemma {:induction false} PlacedLine122()
    ensures Filter(DigitsAndPoint, "1’234’5") == "12345"
  {
    assert AllSignificant(DigitsAndPoint, "1") && AllSignificant(DigitsAndPoint, "234") && AllSignificant(DigitsAndPoint, "5");
    ThreeGroups("1", "234", "5");
    assert "1’234’5" == "1" + "’" + "234" + "’" + "5";
  }

  /** The text line 122 edits to, and where its caret lands. */
  lemma {:induction false} EditLine122()
    ensures RemovedAt("12’345.00", 6) == "12’34500" && "12’34500"[..6] == "12’345"
    ensures "1’234’500"[..7] == "1’234’5" && CanonicalCaret(DigitsAndPoint, "1’234’500", 7)
  {
    assert "12’345.00"[..6] == "12’345" && "12’345.00"[7..] == "00";
  }

  /** `12’345.|00` BACKSPACE shows `1’234’5|00`. */
  lemma {:induction false} CustomRefuseLine122(format: string -> string)
    requires format("1234500") == "1’234’500"
    ensures Step(DigitsAndPoint, format, InputState("12’345.00", 7), Backspace) == InputState("1’234’500", 7)
  {
    EditLine122();
    RawLine122();
    BeforeLine122();
    PlacedLine122();
    StepBackspace(DigitsAndPoint, format, InputState("12’345.00", 7));
    ReconcileTo(format, "12’345.00", "12’34500", 6, false, "1234500", "12345", "1’234’500", 7);
  }

  /** The significant characters of the edited text of line 124. */
  lemma {:induction false} RawLine124()
    ensures Filter(DigitsAndPoint, "1’234’.500") == "1234.500"
  {
    assert AllSignificant(DigitsAndPoint, "1") && AllSignificant(DigitsAndPoint, "234") && AllSignificant(DigitsAndPoint, ".500");
    ThreeGroups("1", "234", ".500");
    assert "1’234’.500" == "1" + "’" + "234" + "’" + ".500";
  }

  /** Those before its caret. */
  lemma {:induction false} BeforeLine124()
    ensures Filter(DigitsAndPoint, "1’234’.") == "1234."
  {
    assert AllSignificant(DigitsAndPoint, "1") && AllSignificant(DigitsAndPoint, "234") && AllSignificant(DigitsAndPoint, ".");
    ThreeGroups("1", "234", ".");
    assert "1’234’." == "1" + "’" + "234" + "’" + ".";
  }

  /** Those before the new caret. */
  lemma {:induction false} PlacedLine124()
    ensures Filter(DigitsAndPoint, "1’234.") == "1234."
  {
    assert AllSignificant(DigitsAndPoint, "1") && AllSignificant(DigitsAndPoint, "234.");
    TwoGroups("1", "234.");
    assert "1’234." == "1" + "’" + "234.";
  }

  /** The text line 124 edits to, and where its caret lands. */
  lemma {:induction false} EditLine124()
    ensures Inserted("1’234’500", 6, ".") == "1’234’.500" && "1’234’.500"[..7] == "1’234’."
    ensures "1’234.50"[..6] == "1’234." && CanonicalCaret(DigitsAndPoint, "1’234.50", 6)
  {
  }

  /** `1’234’|500` PUT_SYMBOL `.` shows `1’234.|50`. */
  lemma {:induction false} CustomRefuseLine124(format: string -> string)
    requires format("1234.500") == "1’234.50"
    ensures Step(DigitsAndPoint, format, InputState("1’234’500", 6), PutSymbol(".")) == InputState("1’234.50", 6)
  {
    EditLine124();
    RawLine124();
    BeforeLine124();
    PlacedLine124();
    StepPut(DigitsAndPoint, format, InputState("1’234’500", 6), ".");
    ReconcileTo(format, "1’234’500", "1’234’.500", 7, false, "1234.500", "1234.", "1’234.50", 6);
  }

  /** The significant characters of the edited text of line 126. */
  lemma {:induction false} RawLine126()
    ensures Filter(DigitsAndPoint, "1’2.34.50") == "12.34.50"
  {
    assert AllSignificant(DigitsAndPoint, "1") && AllSignificant(DigitsAndPoint, "2.34.50");
    TwoGroups("1", "2.34.50");
    assert "1’2.34.50" == "1" + "’" + "2.34.50";
  }

  /** Those before its caret. */
  lemma {:induction false} BeforeLine126()
    ensures Filter(DigitsAndPoint, "1’2.") == "12."
  {
    assert AllSignificant(DigitsAndPoint, "1") && AllSignificant(DigitsAndPoint, "2.");
    TwoGroups("1", "2.");
    assert "1’2." == "1" + "’" + "2.";
  }

  /** Those before the new caret. */
  lemma {:induction false} PlacedLine126()
    ensures Filter(DigitsAndPoint, "12.") == "12."
  {
    assert AllSignificant(DigitsAndPoint, "12.");
    FilterFixedPoint(DigitsAndPoint, "12.");
  }

  /** The text line 126 edits to, and where its caret lands. */
  lemma {:induction false} EditLine126()
    ensures Inserted("1’234.50", 3, ".") == "1’2.34.50" && "1’2.34.50"[..4] == "1’2."
    ensures "12.34"[..3] == "12." && CanonicalCaret(DigitsAndPoint, "12.34", 3)
  {
  }

  /** `1’2|34.50` PUT_SYMBOL `.` shows `12.|34`. */
  lemma {:induction false} CustomRefuseLine126(format: string -> string)
    requires format("12.34.50") == "12.34"
    ensures Step(DigitsAndPoint, format, InputState("1’234.50", 3), PutSymbol(".")) == InputState("12.34", 3)
  {
    EditLine126();
    RawLine126();
    BeforeLine126();
    PlacedLine126();
    StepPut(DigitsAndPoint, format, InputState("1’234.50", 3), ".");
    ReconcileTo(format, "1’234.50", "1’2.34.50", 4, false, "12.34.50", "12.", "12.34", 3);
  }

  /** `12|.34` BACKSPACE shows `1|.34`. */
  lemma {:induction false} CustomRefuseLine128(format: string -> string)
    requires format("1.34") == "1.34"
    ensures Step(DigitsAndPoint, format, InputState("12.34", 2), Backspace) == InputState("1.34", 1)
  {
    assert RemovedAt("12.34", 1) == "1.34" && "1.34"[..1] == "1";
    assert AllSignificant(DigitsAndPoint, "1.34");
    FilterFixedPoint(DigitsAndPoint, "1.34");
    assert AllSignificant(DigitsAndPoint, "1");
    FilterFixedPoint(DigitsAndPoint, "1");
  }

  /** `1|.34` BACKSPACE shows `|0.34`: the formatter puts a zero in front of the point. */
  lemma {:induction false} CustomRefuseLine129(format: string -> string)
    requires format(".34") == "0.34"
    ensures Step(DigitsAndPoint, format, InputState("1.34", 1), Backspace) == InputState("0.34", 0)
  {
    assert RemovedAt("1.34", 0) == ".34" && ".34"[..0] == "";
    assert AllSignificant(DigitsAndPoint, ".34");
    FilterFixedPoint(DigitsAndPoint, ".34");
  }

  /** `|0.34` DELETE shows `0|.34`: the zero comes back, and the caret steps over it. */
  lemma {:induction false} CustomRefuseLine131(format: string -> string)
    requires format(".34") == "0.34"
    ensures Step(DigitsAndPoint, format, InputState("0.34", 0), Delete) == InputState("0.34", 1)
  {
    assert RemovedAt("0.34", 0) == ".34" && ".34"[..0] == "";
    assert AllSignificant(DigitsAndPoint, ".34");
    FilterFixedPoint(DigitsAndPoint, ".34");
  }

  /** `0|.34` DELETE shows `|34`: the formatter drops the leading zero, which is then not
      found again, so the caret goes to the start. */
  lemma {:induction false} CustomRefuseLine132(format: string -> string)
    requires format("034") == "34"
    ensures Step(DigitsAndPoint, format, InputState("0.34", 1), Delete) == InputState("34", 0)
  {
    assert RemovedAt("0.34", 1) == "034" && "034"[..1] == "0";
    assert AllSignificant(DigitsAndPoint, "034");
    FilterFixedPoint(DigitsAndPoint, "034");
    assert AllSignificant(DigitsAndPoint, "0");
    FilterFixedPoint(DigitsAndPoint, "0");
    assert IndexOf("34", '0', 0) == -1;
  }

  /** `|34` DELETE shows `|4`. */
  lemma {:induction false} CustomRefuseLine133(format: string -> string)
    requires format("4") == "4"
    ensures Step(DigitsAndPoint, format, InputState("34", 0), Delete) == InputState("4", 0)
  {
    assert RemovedAt("34", 0) == "4" && "4"[..0] == "";
    assert AllSignificant(DigitsAndPoint, "4");
    FilterFixedPoint(DigitsAndPoint, "4");
  }

  /** `|4` DELETE shows `|`. */
  lemma {:induction false} CustomRefuseLine134(format: string -> string)
    requires format("") == ""
    ensures Step(DigitsAndPoint, format, InputState("4", 0), Delete) == InputState("", 0)
  {
    assert RemovedAt("4", 0) == "";
  }

  /** The two BACKSPACEs of the "custom refuse" test from `12|.34`. */
  lemma CustomRefuseBackspaces(format: string -> string)
    requires format("1.34") == "1.34" && format(".34") == "0.34"
    ensures Replay(DigitsAndPoint, format, InputState("12.34", 2), [Backspace, Backspace])
            == [InputState("1.34", 1), InputState("0.34", 0)]
  {
    var start, cmds := InputState("12.34", 2), [Backspace, Backspace];
    var states := [InputState("1.34", 1), InputState("0.34", 0)];
    forall i | 0 <= i < |cmds|
      ensures WellFormed(([start] + states)[i])
      ensures states[i] == Step(DigitsAndPoint, format, ([start] + states)[i], cmds[i])
    {
      if i == 0 { CustomRefuseLine128(format); }
      else { CustomRefuseLine129(format); }
    }
    StepsReplay(DigitsAndPoint, format, start, cmds, states);
  }

  /** The four DELETEs that end the "custom refuse" test, from `|0.34`. */
  lemma CustomRefuseDeletes(format: string -> string)
    requires format(".34") == "0.34" && format("034") == "34" && format("4") == "4" && format("") == ""
    ensures Replay(DigitsAndPoint, format, InputState("0.34", 0), [Delete, Delete, Delete, Delete])
            == [InputState("0.34", 1), InputState("34", 0), InputState("4", 0), InputState("", 0)]
  {
    var start, cmds := InputState("0.34", 0), [Delete, Delete, Delete, Delete];
    var states := [InputState("0.34", 1), InputState("34", 0), InputState("4", 0), InputState("", 0)];
    forall i | 0 <= i < |cmds|
      ensures WellFormed(([start] + states)[i])
      ensures states[i] == Step(DigitsAndPoint, format, ([start] + states)[i], cmds[i])
    {
      if i == 0 { CustomRefuseLine131(format); }
      else if i == 1 { CustomRefuseLine132(format); }
      else if i == 2 { CustomRefuseLine133(format); }
      else { CustomRefuseLine134(format); }
    }
    StepsReplay(DigitsAndPoint, format, start, cmds, states);
  }

  /** The significant characters of the edited text of line 136. */
  lemma {:induction false} RawLine136()
    ensures Filter(DigitsAndPoint, "123456789.12") == "123456789.12"
  {
    assert AllSignificant(DigitsAndPoint, "123456789.12");
    FilterFixedPoint(DigitsAndPoint, "123456789.12");
  }

  /** Those before its caret. */
  lemma {:induction false} BeforeLine136()
    ensures Filter(DigitsAndPoint, "123456789.12") == "123456789.12"
  {
    assert AllSignificant(DigitsAndPoint, "123456789.12");
    FilterFixedPoint(DigitsAndPoint, "123456789.12");
  }

  /** Those before the new caret. */
  lemma {:induction false} PlacedLine136()
    ensures Filter(DigitsAndPoint, "123’456’789.12") == "123456789.12"
  {
    assert AllSignificant(DigitsAndPoint, "123") && AllSignificant(DigitsAndPoint, "456") && AllSignificant(DigitsAndPoint, "789.12");
    ThreeGroups("123", "456", "789.12");
    assert "123’456’789.12" == "123" + "’" + "456" + "’" + "789.12";
  }

  /** The text line 136 edits to, and where its caret lands. */
  lemma {:induction false} EditLine136()
    ensures Inserted("", 0, "123456789.12") == "123456789.12" && "123456789.12"[..12] == "123456789.12"
    ensures "123’456’789.12"[..14] == "123’456’789.12" && CanonicalCaret(DigitsAndPoint, "123’456’789.12", 14)
  {
  }

  /** `|` PUT_SYMBOL `123456789.12` shows `123’456’789.12|`. */
  lemma {:induction false} CustomRefuseLine136(format: string -> string)
    requires format("123456789.12") == "123’456’789.12"
    ensures Step(DigitsAndPoint, format, InputState("", 0), PutSymbol("123456789.12")) == InputState("123’456’789.12", 14)
  {
    EditLine136();
    RawLine136();
    BeforeLine136();
    PlacedLine136();
    StepPut(DigitsAndPoint, format, InputState("", 0), "123456789.12");
    ReconcileTo(format, "", "123456789.12", 12, false, "123456789.12", "123456789.12", "123’456’789.12", 14);
  }

  /** The significant characters of the edited text of line 138. */
  lemma {:induction false} RawLine138()
    ensures Filter(DigitsAndPoint, "123456’789.12") == "123456789.12"
  {
    assert AllSignificant(DigitsAndPoint, "123456") && AllSignificant(DigitsAndPoint, "789.12");
    TwoGroups("123456", "789.12");
    assert "123456’789.12" == "123456" + "’" + "789.12";
  }

  /** Those before its caret. */
  lemma {:induction false} BeforeLine138()
    ensures Filter(DigitsAndPoint, "123") == "123"
  {
    assert AllSignificant(DigitsAndPoint, "123");
    FilterFixedPoint(DigitsAndPoint, "123");
  }

  /** The text line 138 edits to, and where its caret lands. */
  lemma {:induction false} EditLine138()
    ensures RemovedAt("123’456’789.12", 3) == "123456’789.12" && "123456’789.12"[..3] == "123"
    ensures "123’456’789.12"[..3] == "123" && CanonicalCaret(DigitsAndPoint, "123’456’789.12", 3)
  {
    assert "123’456’789.12"[..3] == "123" && "123’456’789.12"[4..] == "456’789.12";
  }

  /** `123|’456’789.12` DELETE shows `123’|456’789.12`. */
  lemma {:induction false} CustomRefuseLine138(format: string -> string)
    requires format("123456789.12") == "123’456’789.12"
    ensures Step(DigitsAndPoint, format, InputState("123’456’789.12", 3), Delete) == InputState("123’456’789.12", 4)
  {
    EditLine138();
    RawLine138();
    BeforeLine138();
    StepDelete(DigitsAndPoint, format, InputState("123’456’789.12", 3));
    ReconcileTo(format, "123’456’789.12", "123456’789.12", 3, true, "123456789.12", "123", "123’456’789.12", 3);
  }

  /** The significant characters of the edited text of line 139. */
  lemma {:induction false} RawLine139()
    ensures Filter(DigitsAndPoint, "123’56’789.12") == "12356789.12"
  {
    assert AllSignificant(DigitsAndPoint, "123") && AllSignificant(DigitsAndPoint, "56") && AllSignificant(DigitsAndPoint, "789.12");
    ThreeGroups("123", "56", "789.12");
    assert "123’56’789.12" == "123" + "’" + "56" + "’" + "789.12";
  }

  /** Those before its caret. */
  lemma {:induction false} BeforeLine139()
    ensures Filter(DigitsAndPoint, "123’") == "123"
  {
    assert AllSignificant(DigitsAndPoint, "123") && AllSignificant(DigitsAndPoint, "");
    TwoGroups("123", "");
    assert "123’" == "123" + "’" + "";
  }

  /** Those before the new caret. */
  lemma {:induction false} PlacedLine139()
    ensures Filter(DigitsAndPoint, "12’3") == "123"
  {
    assert AllSignificant(DigitsAndPoint, "12") && AllSignificant(DigitsAndPoint, "3");
    TwoGroups("12", "3");
    assert "12’3" == "12" + "’" + "3";
  }

  /** The text line 139 edits to, and where its caret lands. */
  lemma {:induction false} EditLine139()
    ensures RemovedAt("123’456’789.12", 4) == "123’56’789.12" && "123’56’789.12"[..4] == "123’"
    ensures "12’356’789.12"[..4] == "12’3" && CanonicalCaret(DigitsAndPoint, "12’356’789.12", 4)
  {
    assert "123’456’789.12"[..4] == "123’" && "123’456’789.12"[5..] == "56’789.12";
  }

  /** `123’|456’789.12` DELETE shows `12’3|56’789.12`. */
  lemma {:induction false} CustomRefuseLine139(format: string -> string)
    requires format("12356789.12") == "12’356’789.12"
    ensures Step(DigitsAndPoint, format, InputState("123’456’789.12", 4), Delete) == InputState("12’356’789.12", 4)
  {
    EditLine139();
    RawLine139();
    BeforeLine139();
    PlacedLine139();
    StepDelete(DigitsAndPoint, format, InputState("123’456’789.12", 4));
    ReconcileTo(format, "123’456’789.12", "123’56’789.12", 4, true, "12356789.12", "123", "12’356’789.12", 4);
  }

  /** The significant characters of the edited text of line 140. */
  lemma {:induction false} RawLine140()
    ensures Filter(DigitsAndPoint, "12’36’789.12") == "1236789.12"
  {
    assert AllSignificant(DigitsAndPoint, "12") && AllSignificant(DigitsAndPoint, "36") && AllSignificant(DigitsAndPoint, "789.12");
    ThreeGroups("12", "36", "789.12");
    assert "12’36’789.12" == "12" + "’" + "36" + "’" + "789.12";
  }

  /** Those before its caret. */
  lemma {:induction false} BeforeLine140()
    ensures Filter(DigitsAndPoint, "12’3") == "123"
  {
    assert AllSignificant(DigitsAndPoint, "12") && AllSignificant(DigitsAndPoint, "3");
    TwoGroups("12", "3");
    assert "12’3" == "12" + "’" + "3";
  }

  /** Those before the new caret. */
  lemma {:induction false} PlacedLine140()
    ensures Filter(DigitsAndPoint, "1’23") == "123"
  {
    assert AllSignificant(DigitsAndPoint, "1") && AllSignificant(DigitsAndPoint, "23");
    TwoGroups("1", "23");
    assert "1’23" == "1" + "’" + "23";
  }

  /** The text line 140 edits to, and where its caret lands. */
  lemma {:induction false} EditLine140()
    ensures RemovedAt("12’356’789.12", 4) == "12’36’789.12" && "12’36’789.12"[..4] == "12’3"
    ensures "1’236’789.12"[..4] == "1’23" && CanonicalCaret(DigitsAndPoint, "1’236’789.12", 4)
  {
    assert "12’356’789.12"[..4] == "12’3" && "12’356’789.12"[5..] == "6’789.12";
  }

  /** `12’3|56’789.12` DELETE shows `1’23|6’789.12`. */
  lemma {:induction false} CustomRefuseLine140(format: string -> string)
    requires format("1236789.12") == "1’236’789.12"
    ensures Step(DigitsAndPoint, format, InputState("12’356’789.12", 4), Delete) == InputState("1’236’789.12", 4)
  {
    EditLine140();
    RawLine140();
    BeforeLine140();
    PlacedLine140();
    StepDelete(DigitsAndPoint, format, InputState("12’356’789.12", 4));
    ReconcileTo(format, "12’356’789.12", "12’36’789.12", 4, true, "1236789.12", "123", "1’236’789.12", 4);
  }

  /** The significant characters of the edited text of line 141. */
  lemma {:induction false} RawLine141()
    ensures Filter(DigitsAndPoint, "1’23’789.12") == "123789.12"
  {
    assert AllSignificant(DigitsAndPoint, "1") && AllSignificant(DigitsAndPoint, "23") && AllSignificant(DigitsAndPoint, "789.12");
    ThreeGroups("1", "23", "789.12");
    assert "1’23’789.12" == "1" + "’" + "23" + "’" + "789.12";
  }

  /** Those before its caret. */
  lemma {:induction false} BeforeLine141()
    ensures Filter(DigitsAndPoint, "1’23") == "123"
  {
    assert AllSignificant(DigitsAndPoint, "1") && AllSignificant(DigitsAndPoint, "23");
    TwoGroups("1", "23");
    assert "1’23" == "1" + "’" + "23";
  }

  /** Those before the new caret. */
  lemma {:induction false} PlacedLine141()
    ensures Filter(DigitsAndPoint, "123") == "123"
  {
    assert AllSignificant(DigitsAndPoint, "123");
    FilterFixedPoint(DigitsAndPoint, "123");
  }

  /** The text line 141 edits to, and where its caret lands. */
  lemma {:induction false} EditLine141()
    ensures RemovedAt("1’236’789.12", 4) == "1’23’789.12" && "1’23’789.12"[..4] == "1’23"
    ensures "123’789.12"[..3] == "123" && CanonicalCaret(DigitsAndPoint, "123’789.12", 3)
  {
    assert "1’236’789.12"[..4] == "1’23" && "1’236’789.12"[5..] == "’789.12";
  }

  /** `1’23|6’789.12` DELETE shows `123|’789.12`. */
  lemma {:induction false} CustomRefuseLine141(format: string -> string)
    requires format("123789.12") == "123’789.12"
    ensures Step(DigitsAndPoint, format, InputState("1’236’789.12", 4), Delete) == InputState("123’789.12", 3)
  {
    EditLine141();
    RawLine141();
    BeforeLine141();
    PlacedLine141();
    StepDelete(DigitsAndPoint, format, InputState("1’236’789.12", 4));
    ReconcileTo(format, "1’236’789.12", "1’23’789.12", 4, true, "123789.12", "123", "123’789.12", 3);
  }

  /** The significant characters of the edited text of line 143. */
  lemma {:induction false} RawLine143()
    ensures Filter(DigitsAndPoint, "123789.12") == "123789.12"
  {
    assert AllSignificant(DigitsAndPoint, "123789.12");
    FilterFixedPoint(DigitsAndPoint, "123789.12");
  }

  /** Those before its caret. */
  lemma {:induction false} BeforeLine143()
    ensures Filter(DigitsAndPoint, "123") == "123"
  {
    assert AllSignificant(DigitsAndPoint, "123");
    FilterFixedPoint(DigitsAndPoint, "123");
  }

  /** The text line 143 edits to, and where its caret lands. */
  lemma {:induction false} EditLine143()
    ensures RemovedAt("123’789.12", 3) == "123789.12" && "123789.12"[..3] == "123"
    ensures "123’789.12"[..3] == "123" && CanonicalCaret(DigitsAndPoint, "123’789.12", 3)
  {
    assert "123’789.12"[..3] == "123" && "123’789.12"[4..] == "789.12";
  }

  /** `123’|789.12` BACKSPACE shows `123|’789.12`. */
  lemma {:induction false} CustomRefuseLine143(format: string -> string)
    requires format("123789.12") == "123’789.12"
    ensures Step(DigitsAndPoint, format, InputState("123’789.12", 4), Backspace) == InputState("123’789.12", 3)
  {
    EditLine143();
    RawLine143();
    BeforeLine143();
    StepBackspace(DigitsAndPoint, format, InputState("123’789.12", 4));
    ReconcileTo(format, "123’789.12", "123789.12", 3, false, "123789.12", "123", "123’789.12", 3);
  }

  /** The significant characters of the edited text of line 145. */
  lemma {:induction false} RawLine145()
    ensures Filter(DigitsAndPoint, "123’78912") == "12378912"
  {
    assert AllSignificant(DigitsAndPoint, "123") && AllSignificant(DigitsAndPoint, "78912");
    TwoGroups("123", "78912");
    assert "123’78912" == "123" + "’" + "78912";
  }

  /** Those before its caret. */
  lemma {:induction false} BeforeLine145()
    ensures Filter(DigitsAndPoint, "123’789") == "123789"
  {
    assert AllSignificant(DigitsAndPoint, "123") && AllSignificant(DigitsAndPoint, "789");
    TwoGroups("123", "789");
    assert "123’789" == "123" + "’" + "789";
  }

  /** Those before the new caret. */
  lemma {:induction false} PlacedLine145()
    ensures Filter(DigitsAndPoint, "12’378’9") == "123789"
  {
    assert AllSignificant(DigitsAndPoint, "12") && AllSignificant(DigitsAndPoint, "378") && AllSignificant(DigitsAndPoint, "9");
    ThreeGroups("12", "378", "9");
    assert "12’378’9" == "12" + "’" + "378" + "’" + "9";
  }

  /** The text line 145 edits to, and where its caret lands. */
  lemma {:induction false} EditLine145()
    ensures RemovedAt("123’789.12", 7) == "123’78912" && "123’78912"[..7] == "123’789"
    ensures "12’378’912"[..8] == "12’378’9" && CanonicalCaret(DigitsAndPoint, "12’378’912", 8)
  {
    assert "123’789.12"[..7] == "123’789" && "123’789.12"[8..] == "12";
  }

  /** `123’789|.12` DELETE shows `12’378’9|12`. */
  lemma {:induction false} CustomRefuseLine145(format: string -> string)
    requires format("12378912") == "12’378’912"
    ensures Step(DigitsAndPoint, format, InputState("123’789.12", 7), Delete) == InputState("12’378’912", 8)
  {
    EditLine145();
    RawLine145();
    BeforeLine145();
    PlacedLine145();
    StepDelete(DigitsAndPoint, format, InputState("123’789.12", 7));
    ReconcileTo(format, "123’789.12", "123’78912", 7, true, "12378912", "123789", "12’378’912", 8);
  }

  /** What the snapshots of the "format with custom refuse works" test show the
      formatter doing: the text it returns for each string of significant characters it
      is given there. */
  predicate ShowsCustomRefuse(format: string -> string) {
    && format("1") == "1"
    && format("146") == "146"
    && format("12346") == "12’346"
    && format("123456") == "123’456"
    && format("1239456") == "1’239’456"
    && format("12398456") == "12’398’456"
    && format("12345") == "12’345"
    && format("2345") == "2’345"
    && format("12345.") == "12’345."
    && format("12345.0") == "12’345.0"
    && format("12345.00") == "12’345.00"
    && format("1234500") == "1’234’500"
    && format("1234.500") == "1’234.50"
    && format("12.34.50") == "12.34"
    && format("123456789.12") == "123’456’789.12"
    && format("12356789.12") == "12’356’789.12"
    && format("1236789.12") == "1’236’789.12"
    && format("123789.12") == "123’789.12"
    && format("12378912") == "12’378’912"
    && format("1.34") == "1.34"
    && format(".34") == "0.34"
    && format("034") == "34"
    && format("4") == "4"
    && format("") == ""
  }

  /** The commands at lines 95-100, and the input shown after each. */
  const CustomRefusePart1: seq<Command> := [PutSymbol("1"), PutSymbol("46"), MoveCaret(-2), PutSymbol("23"), MoveCaret(1), PutSymbol("5")]
  const CustomRefuseShown1: seq<InputState> := [
    InputState("1", 1),
    InputState("146", 3),
    InputState("146", 1),
    InputState("12’346", 4),
    InputState("12’346", 5),
    InputState("123’456", 6)
  ]

  /** The commands at lines 102-104, and the input shown after each. */
  const CustomRefusePart2: seq<Command> := [MoveCaret(-2), PutSymbol("9"), PutSymbol("8")]
  const CustomRefuseShown2: seq<InputState> := [
    InputState("123’456", 4),
    InputState("1’239’456", 5),
    InputState("12’398’456", 6)
  ]

  /** The commands at lines 106-110, and the input shown after each. */
  const CustomRefusePart3: seq<Command> := [Backspace, Backspace, MoveCaret(1), Backspace, MoveCaret(100)]
  const CustomRefuseShown3: seq<InputState> := [
    InputState("1’239’456", 5),
    InputState("123’456", 3),
    InputState("123’456", 4),
    InputState("123’456", 3),
    InputState("123’456", 7)
  ]

  /** The commands at lines 111-115, and the input shown after each. */
  const CustomRefusePart4: seq<Command> := [Backspace, MoveCaret(-100), MoveCaret(1), Backspace, PutSymbol("1")]
  const CustomRefuseShown4: seq<InputState> := [
    InputState("12’345", 6),
    InputState("12’345", 0),
    InputState("12’345", 1),
    InputState("2’345", 0),
    InputState("12’345", 1)
  ]

  /** The commands at lines 116-121, and the input shown after each. */
  const CustomRefusePart5: seq<Command> := [PutSymbol("x"), MoveCaret(100), PutSymbol("."), PutSymbol("0"), PutSymbol("0"), MoveCaret(-2)]
  const CustomRefuseShown5: seq<InputState> := [
    InputState("12’345", 1),
    InputState("12’345", 6),
    InputState("12’345.", 7),
    InputState("12’345.0", 8),
    InputState("12’345.00", 9),
    InputState("12’345.00", 7)
  ]

  /** The commands at lines 122-129, and the input shown after each. */
  const CustomRefusePart6: seq<Command> := [Backspace, MoveCaret(-1), PutSymbol("."), MoveCaret(-3), PutSymbol("."), MoveCaret(-1), Backspace, Backspace]
  const CustomRefuseShown6: seq<InputState> := [
    InputState("1’234’500", 7),
    InputState("1’234’500", 6),
    InputState("1’234.50", 6),
    InputState("1’234.50", 3),
    InputState("12.34", 3),
    InputState("12.34", 2),
    InputState("1.34", 1),
    InputState("0.34", 0)
  ]

  /** The commands at lines 131-134, and the input shown after each. */
  const CustomRefusePart7: seq<Command> := [Delete, Delete, Delete, Delete]
  const CustomRefuseShown7: seq<InputState> := [
    InputState("0.34", 1),
    InputState("34", 0),
    InputState("4", 0),
    InputState("", 0)
  ]

  /** The commands at lines 136-140, and the input shown after each. */
  const CustomRefusePart8: seq<Command> := [PutSymbol("123456789.12"), MoveCaret(-11), Delete, Delete, Delete]
  const CustomRefuseShown8: seq<InputState> := [
    InputState("123’456’789.12", 14),
    InputState("123’456’789.12", 3),
    InputState("123’456’789.12", 4),
    InputState("12’356’789.12", 4),
    InputState("1’236’789.12", 4)
  ]

  /** The commands at lines 141-145, and the input shown after each. */
  const CustomRefusePart9: seq<Command> := [Delete, MoveCaret(1), Backspace, MoveCaret(4), Delete]
  const CustomRefuseShown9: seq<InputState> := [
    InputState("123’789.12", 3),
    InputState("123’789.12", 4),
    InputState("123’789.12", 3),
    InputState("123’789.12", 7),
    InputState("12’378’912", 8)
  ]

  const CustomRefuseCommands: seq<Command> := CustomRefusePart1 + CustomRefusePart2 + CustomRefusePart3 + CustomRefusePart4 + CustomRefusePart5 + CustomRefusePart6 + CustomRefusePart7 + CustomRefusePart8 + CustomRefusePart9
  const CustomRefuseShown: seq<InputState> := CustomRefuseShown1 + CustomRefuseShown2 + CustomRefuseShown3 + CustomRefuseShown4 + CustomRefuseShown5 + CustomRefuseShown6 + CustomRefuseShown7 + CustomRefuseShown8 + CustomRefuseShown9

  /** What the input shows after each command at lines 95-100, from `|`. */
  lemma CustomRefuseReplay1(format: string -> string)
    requires format("1") == "1"
    requires format("146") == "146"
    requires format("12346") == "12’346"
    requires format("123456") == "123’456"
    ensures Replay(DigitsAndPoint, format, InputState("", 0), CustomRefusePart1) == CustomRefuseShown1
  {
    var start, states := InputState("", 0), CustomRefuseShown1;
    forall i | 0 <= i < |CustomRefusePart1|
      ensures WellFormed(([start] + states)[i])
      ensures states[i] == Step(DigitsAndPoint, format, ([start] + states)[i], CustomRefusePart1[i])
    {
      if i == 0 { CustomRefuseLine95(format); }
      else if i == 1 { CustomRefuseLine96(format); }
      else if i == 2 { }
      else if i == 3 { CustomRefuseLine98(format); }
      else if i == 4 { }
      else { CustomRefuseLine100(format); }
    }
    StepsReplay(DigitsAndPoint, format, start, CustomRefusePart1, states);
  }

  /** What the input shows after each command at lines 102-104, from `123’45|6`. */
  lemma CustomRefuseReplay2(format: string -> string)
    requires format("1239456") == "1’239’456"
    requires format("12398456") == "12’398’456"
    ensures Replay(DigitsAndPoint, format, InputState("123’456", 6), CustomRefusePart2) == CustomRefuseShown2
  {
    var start, states := InputState("123’456", 6), CustomRefuseShown2;
    forall i | 0 <= i < |CustomRefusePart2|
      ensures WellFormed(([start] + states)[i])
      ensures states[i] == Step(DigitsAndPoint, format, ([start] + states)[i], CustomRefusePart2[i])
    {
      if i == 0 { }
      else if i == 1 { CustomRefuseLine103(format); }
      else { CustomRefuseLine104(format); }
    }
    StepsReplay(DigitsAndPoint, format, start, CustomRefusePart2, states);
  }

  /** What the input shows after each command at lines 106-110, from `12’398|’456`. */
  lemma CustomRefuseReplay3(format: string -> string)
    requires format("1239456") == "1’239’456"
    requires format("123456") == "123’456"
    ensures Replay(DigitsAndPoint, format, InputState("12’398’456", 6), CustomRefusePart3) == CustomRefuseShown3
  {
    var start, states := InputState("12’398’456", 6), CustomRefuseShown3;
    forall i | 0 <= i < |CustomRefusePart3|
      ensures WellFormed(([start] + states)[i])
      ensures states[i] == Step(DigitsAndPoint, format, ([start] + states)[i], CustomRefusePart3[i])
    {
      if i == 0 { CustomRefuseLine106(format); }
      else if i == 1 { CustomRefuseLine107(format); }
      else if i == 2 { }
      else if i == 3 { CustomRefuseLine109(format); }
      else { }
    }
    StepsReplay(DigitsAndPoint, format, start, CustomRefusePart3, states);
  }

  /** What the input shows after each command at lines 111-115, from `123’456|`. */
  lemma CustomRefuseReplay4(format: string -> string)
    requires format("12345") == "12’345"
    requires format("2345") == "2’345"
    ensures Replay(DigitsAndPoint, format, InputState("123’456", 7), CustomRefusePart4) == CustomRefuseShown4
  {
    var start, states := InputState("123’456", 7), CustomRefuseShown4;
    forall i | 0 <= i < |CustomRefusePart4|
      ensures WellFormed(([start] + states)[i])
      ensures states[i] == Step(DigitsAndPoint, format, ([start] + states)[i], CustomRefusePart4[i])
    {
      if i == 0 { CustomRefuseLine111(format); }
      else if i == 1 { }
      else if i == 2 { }
      else if i == 3 { CustomRefuseLine114(format); }
      else { CustomRefuseLine115(format); }
    }
    StepsReplay(DigitsAndPoint, format, start, CustomRefusePart4, states);
  }

  /** What the input shows after each command at lines 116-121, from `1|2’345`. */
  lemma CustomRefuseReplay5(format: string -> string)
    requires format("12345") == "12’345"
    requires format("12345.") == "12’345."
    requires format("12345.0") == "12’345.0"
    requires format("12345.00") == "12’345.00"
    ensures Replay(DigitsAndPoint, format, InputState("12’345", 1), CustomRefusePart5) == CustomRefuseShown5
  {
    var start, states := InputState("12’345", 1), CustomRefuseShown5;
    forall i | 0 <= i < |CustomRefusePart5|
      ensures WellFormed(([start] + states)[i])
      ensures states[i] == Step(DigitsAndPoint, format, ([start] + states)[i], CustomRefusePart5[i])
    {
      if i == 0 { CustomRefuseLine116(format); }
      else if i == 1 { }
      else if i == 2 { CustomRefuseLine118(format); }
      else if i == 3 { CustomRefuseLine119(format); }
      else if i == 4 { CustomRefuseLine120(format); }
      else { }
    }
    StepsReplay(DigitsAndPoint, format, start, CustomRefusePart5, states);
  }

  /** What the input shows after each command at lines 122-129, from `12’345.|00`. */
  lemma CustomRefuseReplay6(format: string -> string)
    requires format("1234500") == "1’234’500"
    requires format("1234.500") == "1’234.50"
    requires format("12.34.50") == "12.34"
    requires format("1.34") == "1.34"
    requires format(".34") == "0.34"
    ensures Replay(DigitsAndPoint, format, InputState("12’345.00", 7), CustomRefusePart6) == CustomRefuseShown6
  {
    var start, states := InputState("12’345.00", 7), CustomRefuseShown6;
    forall i | 0 <= i < |CustomRefusePart6|
      ensures WellFormed(([start] + states)[i])
      ensures states[i] == Step(DigitsAndPoint, format, ([start] + states)[i], CustomRefusePart6[i])
    {
      if i == 0 { CustomRefuseLine122(format); }
      else if i == 1 { }
      else if i == 2 { CustomRefuseLine124(format); }
      else if i == 3 { }
      else if i == 4 { CustomRefuseLine126(format); }
      else if i == 5 { }
      else if i == 6 { CustomRefuseLine128(format); }
      else { CustomRefuseLine129(format); }
    }
    StepsReplay(DigitsAndPoint, format, start, CustomRefusePart6, states);
  }

  /** What the input shows after each command at lines 131-134, from `|0.34`. */
  /** What the input shows after each command at lines 136-140, from `|`. */
  lemma CustomRefuseReplay8(format: string -> string)
    requires format("123456789.12") == "123’456’789.12"
    requires format("12356789.12") == "12’356’789.12"
    requires format("1236789.12") == "1’236’789.12"
    ensures Replay(DigitsAndPoint, format, InputState("", 0), CustomRefusePart8) == CustomRefuseShown8
  {
    var start, states := InputState("", 0), CustomRefuseShown8;
    forall i | 0 <= i < |CustomRefusePart8|
      ensures WellFormed(([start] + states)[i])
      ensures states[i] == Step(DigitsAndPoint, format, ([start] + states)[i], CustomRefusePart8[i])
    {
      if i == 0 { CustomRefuseLine136(format); }
      else if i == 1 { }
      else if i == 2 { CustomRefuseLine138(format); }
      else if i == 3 { CustomRefuseLine139(format); }
      else { CustomRefuseLine140(format); }
    }
    StepsReplay(DigitsAndPoint, format, start, CustomRefusePart8, states);
  }

  /** What the input shows after each command at lines 141-145, from `1’23|6’789.12`. */
  lemma CustomRefuseReplay9(format: string -> string)
    requires format("123789.12") == "123’789.12"
    requires format("12378912") == "12’378’912"
    ensures Replay(DigitsAndPoint, format, InputState("1’236’789.12", 4), CustomRefusePart9) == CustomRefuseShown9
  {
    var start, states := InputState("1’236’789.12", 4), CustomRefuseShown9;
    forall i | 0 <= i < |CustomRefusePart9|
      ensures WellFormed(([start] + states)[i])
      ensures states[i] == Step(DigitsAndPoint, format, ([start] + states)[i], CustomRefusePart9[i])
    {
      if i == 0 { CustomRefuseLine141(format); }
      else if i == 1 { }
      else if i == 2 { CustomRefuseLine143(format); }
      else if i == 3 { }
      else { CustomRefuseLine145(format); }
    }
    StepsReplay(DigitsAndPoint, format, start, CustomRefusePart9, states);
  }

  /** The whole "format with custom refuse works" test on a fresh input: what the input
      shows after each of its commands. */
  lemma CustomRefuseReplay(format: string -> string)
    requires ShowsCustomRefuse(format)
    ensures Replay(DigitsAndPoint, format, InputState("", 0), CustomRefuseCommands) == CustomRefuseShown
  {
    CustomRefuseReplay1(format);
    CustomRefuseReplay2(format);
    CustomRefuseReplay3(format);
    CustomRefuseReplay4(format);
    CustomRefuseReplay5(format);
    CustomRefuseReplay6(format);
    CustomRefuseDeletes(format);
    CustomRefuseReplay8(format);
    CustomRefuseReplay9(format);
    ReplayAppend(DigitsAndPoint, format, InputState("", 0), CustomRefusePart1, CustomRefusePart2, InputState("123’456", 6));
    ReplayAppend(DigitsAndPoint, format, InputState("", 0), CustomRefusePart1 + CustomRefusePart2, CustomRefusePart3, InputState("12’398’456", 6));
    ReplayAppend(DigitsAndPoint, format, InputState("", 0), CustomRefusePart1 + CustomRefusePart2 + CustomRefusePart3, CustomRefusePart4, InputState("123’456", 7));
    ReplayAppend(DigitsAndPoint, format, InputState("", 0), CustomRefusePart1 + CustomRefusePart2 + CustomRefusePart3 + CustomRefusePart4, CustomRefusePart5, InputState("12’345", 1));
    ReplayAppend(DigitsAndPoint, format, InputState("", 0), CustomRefusePart1 + CustomRefusePart2 + CustomRefusePart3 + CustomRefusePart4 + CustomRefusePart5, CustomRefusePart6, InputState("12’345.00", 7));
    ReplayAppend(DigitsAndPoint, format, InputState("", 0), CustomRefusePart1 + CustomRefusePart2 + CustomRefusePart3 + CustomRefusePart4 + CustomRefusePart5 + CustomRefusePart6, CustomRefusePart7, InputState("0.34", 0));
    ReplayAppend(DigitsAndPoint, format, InputState("", 0), CustomRefusePart1 + CustomRefusePart2 + CustomRefusePart3 + CustomRefusePart4 + CustomRefusePart5 + CustomRefusePart6 + CustomRefusePart7, CustomRefusePart8, InputState("", 0));
    ReplayAppend(DigitsAndPoint, format, InputState("", 0), CustomRefusePart1 + CustomRefusePart2 + CustomRefusePart3 + CustomRefusePart4 + CustomRefusePart5 + CustomRefusePart6 + CustomRefusePart7 + CustomRefusePart8, CustomRefusePart9, InputState("1’236’789.12", 4));
  }

  /** `|` PUT_SYMBOL `123` shows `1.23|`: the caret follows the last digit typed, past
      the point the formatter inserted. */
  lemma {:induction false} FixedPointLine154(format: string -> string)
    requires format("123") == "1.23"
    ensures Step(DigitsAndPoint, format, InputState("", 0), PutSymbol("123")) == InputState("1.23", 4)
  {
    assert Inserted("", 0, "123") == "123" && "123"[..3] == "123";
    assert AllSignificant(DigitsAndPoint, "123");
    FilterFixedPoint(DigitsAndPoint, "123");
    assert IndexOf("1.23", '2', 1) == 2;
  }

  /** `1.|23` BACKSPACE shows `1|.23`: the point comes back and no digit is lost. */
  lemma {:induction false} FixedPointLine156(format: string -> string)
    requires format("123") == "1.23"
    ensures Step(DigitsAndPoint, format, InputState("1.23", 2), Backspace) == InputState("1.23", 1)
  {
    assert RemovedAt("1.23", 1) == "123" && "123"[..1] == "1";
    assert AllSignificant(DigitsAndPoint, "123");
    FilterFixedPoint(DigitsAndPoint, "123");
    assert AllSignificant(DigitsAndPoint, "1");
    FilterFixedPoint(DigitsAndPoint, "1");
  }

  /** `1|.23` DELETE shows `1.|23`: the point comes back and the caret steps over it. */
  lemma {:induction false} FixedPointLine157(format: string -> string)
    requires format("123") == "1.23"
    ensures Step(DigitsAndPoint, format, InputState("1.23", 1), Delete) == InputState("1.23", 2)
  {
    assert RemovedAt("1.23", 1) == "123" && "123"[..1] == "1";
    assert AllSignificant(DigitsAndPoint, "123");
    FilterFixedPoint(DigitsAndPoint, "123");
    assert AllSignificant(DigitsAndPoint, "1");
    FilterFixedPoint(DigitsAndPoint, "1");
  }

  /** The "fixed point delete backspace" test on a fresh input: what the input shows
      after each command. */
  lemma FixedPointReplay(format: string -> string)
    requires format("123") == "1.23"
    ensures Replay(DigitsAndPoint, format, InputState("", 0),
                   [PutSymbol("123"), MoveCaret(-2), Backspace, Delete])
            == [InputState("1.23", 4), InputState("1.23", 2), InputState("1.23", 1), InputState("1.23", 2)]
  {
    var start, cmds := InputState("", 0), [PutSymbol("123"), MoveCaret(-2), Backspace, Delete];
    var states := [InputState("1.23", 4), InputState("1.23", 2), InputState("1.23", 1), InputState("1.23", 2)];
    forall i | 0 <= i < |cmds|
      ensures WellFormed(([start] + states)[i])
      ensures states[i] == Step(DigitsAndPoint, format, ([start] + states)[i], cmds[i])
    {
      if i == 0 { FixedPointLine154(format); }
      else if i == 1 { }
      else if i == 2 { FixedPointLine156(format); }
      else { FixedPointLine157(format); }
    }
    StepsReplay(DigitsAndPoint, format, start, cmds, states);
  }

  /** Putting the caret right after the k-th significant character would show `3|4`
      at line 132 and `1.2|3` at line 154. */
  lemma {:induction false} CountRuleDiffers()
    ensures AfterNth(DigitsAndPoint, "34", |Filter(DigitsAndPoint, "0")|) == 1
    ensures AfterNth(DigitsAndPoint, "1.23", |Filter(DigitsAndPoint, "123")|) == 3
  {
    assert AllSignificant(DigitsAndPoint, "0") && AllSignificant(DigitsAndPoint, "123");
    FilterFixedPoint(DigitsAndPoint, "0");
    FilterFixedPoint(DigitsAndPoint, "123");
    assert "34"[1..] == "4";
    assert AfterNth(DigitsAndPoint, "4", 0) == 0;
    assert "1.23"[1..] == ".23" && ".23"[1..] == "23" && "23"[1..] == "3";
    assert AfterNth(DigitsAndPoint, "3", 0) == 0;
    assert AfterNth(DigitsAndPoint, "23", 1) == 1;
    assert AfterNth(DigitsAndPoint, ".23", 2) == 2;
  }
}

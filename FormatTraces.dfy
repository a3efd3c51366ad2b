/** The integer snapshot traces, with the comma-grouping stand-in as formatter and
    digits as the significant characters.

    Each edit of a trace is stated on its own, as the step of the editing model from
    the input shown before it to the input shown after it; each input shown is tied to
    its snapshot, the text with a `|` at the caret.  The steps make up the replay of
    the whole command list, and a fresh `Editor` run through that list shows exactly
    those inputs, its held value staying the displayed one throughout.
 */
module FormatTraces {
  import opened Significance
  import opened Editing
  import opened Grouping
  import opened GroupedEditing
  import opened ControlledInput

  /** `|` PUT_SYMBOL `1` shows `1|`. */
  lemma {:induction false} WorksLine62()
    ensures Step(DigitsOnly, NumberFormat, InputState("", 0), PutSymbol("1")) == InputState("1", 1)
  {
    assert AllSignificant(DigitsOnly, "") && AllSignificant(DigitsOnly, "1");
    calc {
      Step(DigitsOnly, NumberFormat, InputState("", 0), PutSymbol("1"));
      { ShowsNothingAt0(); }
      Step(DigitsOnly, NumberFormat, Grouped("", 0, false), PutSymbol("1"));
      { GroupedPut("", 0, false, "1"); }
      Grouped(""[..0] + "1" + ""[0..], 1, false);
      { assert ""[..0] + "1" + ""[0..] == "1"; }
      Grouped("1", 1, false);
      { Shows1At1(); }
      InputState("1", 1);
    }
  }

  /** `1|` PUT_SYMBOL `46` shows `146|`. */
  lemma {:induction false} WorksLine63()
    ensures Step(DigitsOnly, NumberFormat, InputState("1", 1), PutSymbol("46")) == InputState("146", 3)
  {
    assert AllSignificant(DigitsOnly, "1") && AllSignificant(DigitsOnly, "46");
    calc {
      Step(DigitsOnly, NumberFormat, InputState("1", 1), PutSymbol("46"));
      { Shows1At1(); }
      Step(DigitsOnly, NumberFormat, Grouped("1", 1, false), PutSymbol("46"));
      { GroupedPut("1", 1, false, "46"); }
      Grouped("1"[..1] + "46" + "1"[1..], 3, false);
      { assert "1"[..1] + "46" + "1"[1..] == "146"; }
      Grouped("146", 3, false);
      { Shows146At3(); }
      InputState("146", 3);
    }
  }

  /** `1|46` PUT_SYMBOL `23` shows `12,3|46`. */
  lemma {:induction false} WorksLine66()
    ensures Step(DigitsOnly, NumberFormat, InputState("146", 1), PutSymbol("23")) == InputState("12,346", 4)
  {
    assert AllSignificant(DigitsOnly, "146") && AllSignificant(DigitsOnly, "23");
    calc {
      Step(DigitsOnly, NumberFormat, InputState("146", 1), PutSymbol("23"));
      { Shows146At1(); }
      Step(DigitsOnly, NumberFormat, Grouped("146", 1, false), PutSymbol("23"));
      { GroupedPut("146", 1, false, "23"); }
      Grouped("146"[..1] + "23" + "146"[1..], 3, false);
      { assert "146"[..1] + "23" + "146"[1..] == "12346"; }
      Grouped("12346", 3, false);
      { Shows12346At3(); }
      InputState("12,346", 4);
    }
  }

  /** `12,34|6` PUT_SYMBOL `5` shows `123,45|6`. */
  lemma {:induction false} WorksLine69()
    ensures Step(DigitsOnly, NumberFormat, InputState("12,346", 5), PutSymbol("5")) == InputState("123,456", 6)
  {
    assert AllSignificant(DigitsOnly, "12346") && AllSignificant(DigitsOnly, "5");
    calc {
      Step(DigitsOnly, NumberFormat, InputState("12,346", 5), PutSymbol("5"));
      { Shows12346At4(); }
      Step(DigitsOnly, NumberFormat, Grouped("12346", 4, false), PutSymbol("5"));
      { GroupedPut("12346", 4, false, "5"); }
      Grouped("12346"[..4] + "5" + "12346"[4..], 5, false);
      { assert "12346"[..4] + "5" + "12346"[4..] == "123456"; }
      Grouped("123456", 5, false);
      { Shows123456At5(); }
      InputState("123,456", 6);
    }
  }

  /** `123,|456` PUT_SYMBOL `9` shows `1,239|,456`. */
  lemma {:induction false} WorksLine72()
    ensures Step(DigitsOnly, NumberFormat, InputState("123,456", 4), PutSymbol("9")) == InputState("1,239,456", 5)
  {
    assert AllSignificant(DigitsOnly, "123456") && AllSignificant(DigitsOnly, "9");
    calc {
      Step(DigitsOnly, NumberFormat, InputState("123,456", 4), PutSymbol("9"));
      { Shows123456At3Past(); }
      Step(DigitsOnly, NumberFormat, Grouped("123456", 3, true), PutSymbol("9"));
      { GroupedPut("123456", 3, true, "9"); }
      Grouped("123456"[..3] + "9" + "123456"[3..], 4, false);
      { assert "123456"[..3] + "9" + "123456"[3..] == "1239456"; }
      Grouped("1239456", 4, false);
      { Shows1239456At4(); }
      InputState("1,239,456", 5);
    }
  }

  /** `1,239|,456` PUT_SYMBOL `8` shows `12,398|,456`. */
  lemma {:induction false} WorksLine73()
    ensures Step(DigitsOnly, NumberFormat, InputState("1,239,456", 5), PutSymbol("8")) == InputState("12,398,456", 6)
  {
    assert AllSignificant(DigitsOnly, "1239456") && AllSignificant(DigitsOnly, "8");
    calc {
      Step(DigitsOnly, NumberFormat, InputState("1,239,456", 5), PutSymbol("8"));
      { Shows1239456At4(); }
      Step(DigitsOnly, NumberFormat, Grouped("1239456", 4, false), PutSymbol("8"));
      { GroupedPut("1239456", 4, false, "8"); }
      Grouped("1239456"[..4] + "8" + "1239456"[4..], 5, false);
      { assert "1239456"[..4] + "8" + "1239456"[4..] == "12398456"; }
      Grouped("12398456", 5, false);
      { Shows12398456At5(); }
      InputState("12,398,456", 6);
    }
  }

  /** `12,398|,456` BACKSPACE shows `1,239|,456`. */
  lemma {:induction false} WorksLine75()
    ensures Step(DigitsOnly, NumberFormat, InputState("12,398,456", 6), Backspace) == InputState("1,239,456", 5)
  {
    assert AllSignificant(DigitsOnly, "12398456");
    calc {
      Step(DigitsOnly, NumberFormat, InputState("12,398,456", 6), Backspace);
      { Shows12398456At5(); }
      Step(DigitsOnly, NumberFormat, Grouped("12398456", 5, false), Backspace);
      { GroupedBackspaceDigit("12398456", 5); }
      Grouped("12398456"[..4] + "12398456"[5..], 4, false);
      { assert "12398456"[..4] + "12398456"[5..] == "1239456"; }
      Grouped("1239456", 4, false);
      { Shows1239456At4(); }
      InputState("1,239,456", 5);
    }
  }

  /** `1,239|,456` BACKSPACE shows `123|,456`. */
  lemma {:induction false} WorksLine76()
    ensures Step(DigitsOnly, NumberFormat, InputState("1,239,456", 5), Backspace) == InputState("123,456", 3)
  {
    assert AllSignificant(DigitsOnly, "1239456");
    calc {
      Step(DigitsOnly, NumberFormat, InputState("1,239,456", 5), Backspace);
      { Shows1239456At4(); }
      Step(DigitsOnly, NumberFormat, Grouped("1239456", 4, false), Backspace);
      { GroupedBackspaceDigit("1239456", 4); }
      Grouped("1239456"[..3] + "1239456"[4..], 3, false);
      { assert "1239456"[..3] + "1239456"[4..] == "123456"; }
      Grouped("123456", 3, false);
      { Shows123456At3(); }
      InputState("123,456", 3);
    }
  }

  /** `123,|456` BACKSPACE shows `123|,456` (the same edit is also the third command of the
      equal-values test). */
  lemma {:induction false} WorksLine79()
    ensures Step(DigitsOnly, NumberFormat, InputState("123,456", 4), Backspace) == InputState("123,456", 3)
  {
    assert AllSignificant(DigitsOnly, "123456");
    calc {
      Step(DigitsOnly, NumberFormat, InputState("123,456", 4), Backspace);
      { Shows123456At3Past(); }
      Step(DigitsOnly, NumberFormat, Grouped("123456", 3, true), Backspace);
      { GroupedBackspaceComma("123456", 3); }
      Grouped("123456", 3, false);
      { Shows123456At3(); }
      InputState("123,456", 3);
    }
  }

  /** `123,456|` BACKSPACE shows `12,345|`. */
  lemma {:induction false} WorksLine81()
    ensures Step(DigitsOnly, NumberFormat, InputState("123,456", 7), Backspace) == InputState("12,345", 6)
  {
    assert AllSignificant(DigitsOnly, "123456");
    calc {
      Step(DigitsOnly, NumberFormat, InputState("123,456", 7), Backspace);
      { Shows123456At6(); }
      Step(DigitsOnly, NumberFormat, Grouped("123456", 6, false), Backspace);
      { GroupedBackspaceDigit("123456", 6); }
      Grouped("123456"[..5] + "123456"[6..], 5, false);
      { assert "123456"[..5] + "123456"[6..] == "12345"; }
      Grouped("12345", 5, false);
      { Shows12345At5(); }
      InputState("12,345", 6);
    }
  }

  /** `1|2,345` BACKSPACE shows `|2,345`. */
  lemma {:induction false} WorksLine84()
    ensures Step(DigitsOnly, NumberFormat, InputState("12,345", 1), Backspace) == InputState("2,345", 0)
  {
    assert AllSignificant(DigitsOnly, "12345");
    calc {
      Step(DigitsOnly, NumberFormat, InputState("12,345", 1), Backspace);
      { Shows12345At1(); }
      Step(DigitsOnly, NumberFormat, Grouped("12345", 1, false), Backspace);
      { GroupedBackspaceDigit("12345", 1); }
      Grouped("12345"[..0] + "12345"[1..], 0, false);
      { assert "12345"[..0] + "12345"[1..] == "2345"; }
      Grouped("2345", 0, false);
      { Shows2345At0(); }
      InputState("2,345", 0);
    }
  }

  /** `|2,345` PUT_SYMBOL `1` shows `1|2,345`. */
  lemma {:induction false} WorksLine85()
    ensures Step(DigitsOnly, NumberFormat, InputState("2,345", 0), PutSymbol("1")) == InputState("12,345", 1)
  {
    assert AllSignificant(DigitsOnly, "2345") && AllSignificant(DigitsOnly, "1");
    calc {
      Step(DigitsOnly, NumberFormat, InputState("2,345", 0), PutSymbol("1"));
      { Shows2345At0(); }
      Step(DigitsOnly, NumberFormat, Grouped("2345", 0, false), PutSymbol("1"));
      { GroupedPut("2345", 0, false, "1"); }
      Grouped("2345"[..0] + "1" + "2345"[0..], 1, false);
      { assert "2345"[..0] + "1" + "2345"[0..] == "12345"; }
      Grouped("12345", 1, false);
      { Shows12345At1(); }
      InputState("12,345", 1);
    }
  }

  /** `1|2,345` PUT_SYMBOL `x` shows `1|2,345`. */
  lemma {:induction false} WorksLine86()
    ensures Step(DigitsOnly, NumberFormat, InputState("12,345", 1), PutSymbol("x")) == InputState("12,345", 1)
  {
    assert AllSignificant(DigitsOnly, "12345");
    calc {
      Step(DigitsOnly, NumberFormat, InputState("12,345", 1), PutSymbol("x"));
      { Shows12345At1(); }
      Step(DigitsOnly, NumberFormat, Grouped("12345", 1, false), PutSymbol("x"));
      { GroupedPutRejected("12345", 1, false, "x"); }
      Grouped("12345", 1, false);
      { Shows12345At1(); }
      InputState("12,345", 1);
    }
  }

  /** The commands of the test "format works", in parts of 5. */
  const WorksPart1: seq<Command> := [PutSymbol("1"), PutSymbol("46"), MoveCaret(-2), PutSymbol("23"), MoveCaret(1)]
  const WorksPart2: seq<Command> := [PutSymbol("5"), MoveCaret(-2), PutSymbol("9"), PutSymbol("8"), Backspace]
  const WorksPart3: seq<Command> := [Backspace, MoveCaret(1), Backspace, MoveCaret(100), Backspace]
  const WorksPart4: seq<Command> := [MoveCaret(-100), MoveCaret(1), Backspace, PutSymbol("1"), PutSymbol("x")]
  const WorksCommands: seq<Command> := WorksPart1 + WorksPart2 + WorksPart3 + WorksPart4

  /** What the input shows after each command of each part. */
  const WorksShown1: seq<InputState> := [
    InputState("1", 1),
    InputState("146", 3),
    InputState("146", 1),
    InputState("12,346", 4),
    InputState("12,346", 5)]
  const WorksShown2: seq<InputState> := [
    InputState("123,456", 6),
    InputState("123,456", 4),
    InputState("1,239,456", 5),
    InputState("12,398,456", 6),
    InputState("1,239,456", 5)]
  const WorksShown3: seq<InputState> := [
    InputState("123,456", 3),
    InputState("123,456", 4),
    InputState("123,456", 3),
    InputState("123,456", 7),
    InputState("12,345", 6)]
  const WorksShown4: seq<InputState> := [
    InputState("12,345", 0),
    InputState("12,345", 1),
    InputState("2,345", 0),
    InputState("12,345", 1),
    InputState("12,345", 1)]

  /** The snapshots of "format works", five commands at a time (lines 62-68, 69-75,
      76-81 and 82-86 of the test). */
  const WorksSnapshots1: seq<string> := ["1|", "146|", "1|46", "12,3|46", "12,34|6"]
  const WorksSnapshots2: seq<string> := ["123,45|6", "123,|456", "1,239|,456", "12,398|,456", "1,239|,456"]
  const WorksSnapshots3: seq<string> := ["123|,456", "123,|456", "123|,456", "123,456|", "12,345|"]
  const WorksSnapshots4: seq<string> := ["|12,345", "1|2,345", "|2,345", "1|2,345", "1|2,345"]

  /** The inputs of part 1 render as its snapshots. */
  lemma WorksRendered1()
    ensures RenderAll(WorksShown1) == WorksSnapshots1
  {
    Shows1At1();
    Shows146At3();
    Shows146At1();
    Shows12346At3();
    Shows12346At4();
    forall i | 0 <= i < 5 ensures RenderAll(WorksShown1)[i] == WorksSnapshots1[i] { }
  }

  /** The inputs of part 2 render as its snapshots. */
  lemma WorksRendered2()
    ensures RenderAll(WorksShown2) == WorksSnapshots2
  {
    Shows123456At5();
    Shows123456At3Past();
    Shows1239456At4();
    Shows12398456At5();
    forall i | 0 <= i < 5 ensures RenderAll(WorksShown2)[i] == WorksSnapshots2[i] { }
  }

  /** The inputs of part 3 render as its snapshots. */
  lemma WorksRendered3()
    ensures RenderAll(WorksShown3) == WorksSnapshots3
  {
    Shows123456At3();
    Shows123456At3Past();
    Shows123456At6();
    Shows12345At5();
    forall i | 0 <= i < 5 ensures RenderAll(WorksShown3)[i] == WorksSnapshots3[i] { }
  }

  /** The inputs of part 4 render as its snapshots. */
  lemma WorksRendered4()
    ensures RenderAll(WorksShown4) == WorksSnapshots4
  {
    Shows12345At0();
    Shows12345At1();
    Shows2345At0();
    forall i | 0 <= i < 5 ensures RenderAll(WorksShown4)[i] == WorksSnapshots4[i] { }
  }

  /** What the input shows after each command of `WorksPart1`, from `|`. */
  lemma WorksReplay1()
    ensures Replay(DigitsOnly, NumberFormat, InputState("", 0), WorksPart1) == WorksShown1
  {
    var start, states := InputState("", 0), WorksShown1;
    forall i | 0 <= i < |WorksPart1|
      ensures WellFormed(([start] + states)[i])
      ensures states[i] == Step(DigitsOnly, NumberFormat, ([start] + states)[i], WorksPart1[i])
    {
      if i == 0 { WorksLine62(); }
      else if i == 1 { WorksLine63(); }
      else if i == 2 { }
      else if i == 3 { WorksLine66(); }
      else { }
    }
    StepsReplay(DigitsOnly, NumberFormat, start, WorksPart1, states);
  }

  /** What the input shows after each command of `WorksPart2`, from `12,34|6`. */
  lemma WorksReplay2()
    ensures Replay(DigitsOnly, NumberFormat, InputState("12,346", 5), WorksPart2) == WorksShown2
  {
    var start, states := InputState("12,346", 5), WorksShown2;
    forall i | 0 <= i < |WorksPart2|
      ensures WellFormed(([start] + states)[i])
      ensures states[i] == Step(DigitsOnly, NumberFormat, ([start] + states)[i], WorksPart2[i])
    {
      if i == 0 { WorksLine69(); }
      else if i == 1 { }
      else if i == 2 { WorksLine72(); }
      else if i == 3 { WorksLine73(); }
      else { WorksLine75(); }
    }
    StepsReplay(DigitsOnly, NumberFormat, start, WorksPart2, states);
  }

  /** What the input shows after each command of `WorksPart3`, from `1,239|,456`. */
  lemma WorksReplay3()
    ensures Replay(DigitsOnly, NumberFormat, InputState("1,239,456", 5), WorksPart3) == WorksShown3
  {
    var start, states := InputState("1,239,456", 5), WorksShown3;
    forall i | 0 <= i < |WorksPart3|
      ensures WellFormed(([start] + states)[i])
      ensures states[i] == Step(DigitsOnly, NumberFormat, ([start] + states)[i], WorksPart3[i])
    {
      if i == 0 { WorksLine76(); }
      else if i == 1 { }
      else if i == 2 { WorksLine79(); }
      else if i == 3 { }
      else { WorksLine81(); }
    }
    StepsReplay(DigitsOnly, NumberFormat, start, WorksPart3, states);
  }

  /** What the input shows after each command of `WorksPart4`, from `12,345|`. */
  lemma WorksReplay4()
    ensures Replay(DigitsOnly, NumberFormat, InputState("12,345", 6), WorksPart4) == WorksShown4
  {
    var start, states := InputState("12,345", 6), WorksShown4;
    forall i | 0 <= i < |WorksPart4|
      ensures WellFormed(([start] + states)[i])
      ensures states[i] == Step(DigitsOnly, NumberFormat, ([start] + states)[i], WorksPart4[i])
    {
      if i == 0 { }
      else if i == 1 { }
      else if i == 2 { WorksLine84(); }
      else if i == 3 { WorksLine85(); }
      else { WorksLine86(); }
    }
    StepsReplay(DigitsOnly, NumberFormat, start, WorksPart4, states);
  }

  /** What the input shows after each command of `WorksCommands`, from an empty input. */
  lemma WorksReplay()
    ensures Replay(DigitsOnly, NumberFormat, InputState("", 0), WorksCommands) == WorksShown1 + WorksShown2 + WorksShown3 + WorksShown4
  {
    WorksReplay1();
    WorksReplay2();
    WorksReplay3();
    WorksReplay4();
    ReplayAppend(DigitsOnly, NumberFormat, InputState("", 0), WorksPart1, WorksPart2, InputState("12,346", 5));
    ReplayAppend(DigitsOnly, NumberFormat, InputState("", 0), WorksPart1 + WorksPart2, WorksPart3, InputState("1,239,456", 5));
    ReplayAppend(DigitsOnly, NumberFormat, InputState("", 0), WorksPart1 + WorksPart2 + WorksPart3, WorksPart4, InputState("12,345", 6));
  }

  /** The "format works" test run on a fresh input: the input shown after each command. */
  method FormatWorks() returns (shown: seq<InputState>)
    ensures shown == WorksShown1 + WorksShown2 + WorksShown3 + WorksShown4
    ensures RenderAll(shown) == WorksSnapshots1 + WorksSnapshots2 + WorksSnapshots3 + WorksSnapshots4
  {
    var input := new Editor(DigitsOnly, NumberFormat);
    GroupingIdempotent();
    shown := input.Run(WorksCommands);
    WorksReplay();
    WorksRendered1();
    WorksRendered2();
    WorksRendered3();
    WorksRendered4();
    RenderAllAppend(WorksShown1, WorksShown2);
    RenderAllAppend(WorksShown1 + WorksShown2, WorksShown3);
    RenderAllAppend(WorksShown1 + WorksShown2 + WorksShown3, WorksShown4);
  }

  /** `|` PUT_SYMBOL `123456` shows `123,456|`. */
  lemma {:induction false} EqualLine164()
    ensures Step(DigitsOnly, NumberFormat, InputState("", 0), PutSymbol("123456")) == InputState("123,456", 7)
  {
    assert AllSignificant(DigitsOnly, "") && AllSignificant(DigitsOnly, "123456");
    calc {
      Step(DigitsOnly, NumberFormat, InputState("", 0), PutSymbol("123456"));
      { ShowsNothingAt0(); }
      Step(DigitsOnly, NumberFormat, Grouped("", 0, false), PutSymbol("123456"));
      { GroupedPut("", 0, false, "123456"); }
      Grouped(""[..0] + "123456" + ""[0..], 6, false);
      { assert ""[..0] + "123456" + ""[0..] == "123456"; }
      Grouped("123456", 6, false);
      { Shows123456At6(); }
      InputState("123,456", 7);
    }
  }

  /** `123|,456` DELETE shows `123,|456`. */
  lemma {:induction false} EqualLine167()
    ensures Step(DigitsOnly, NumberFormat, InputState("123,456", 3), Delete) == InputState("123,456", 4)
  {
    assert AllSignificant(DigitsOnly, "123456");
    calc {
      Step(DigitsOnly, NumberFormat, InputState("123,456", 3), Delete);
      { Shows123456At3(); }
      Step(DigitsOnly, NumberFormat, Grouped("123456", 3, false), Delete);
      { GroupedDeleteComma("123456", 3); }
      Grouped("123456", 3, true);
      { Shows123456At3Past(); }
      InputState("123,456", 4);
    }
  }

  /** `123,|456` PUT_SYMBOL `x` shows `123|,456`. */
  lemma {:induction false} EqualLine168()
    ensures Step(DigitsOnly, NumberFormat, InputState("123,456", 4), PutSymbol("x")) == InputState("123,456", 3)
  {
    assert AllSignificant(DigitsOnly, "123456");
    calc {
      Step(DigitsOnly, NumberFormat, InputState("123,456", 4), PutSymbol("x"));
      { Shows123456At3Past(); }
      Step(DigitsOnly, NumberFormat, Grouped("123456", 3, true), PutSymbol("x"));
      { GroupedPutRejected("123456", 3, true, "x"); }
      Grouped("123456", 3, false);
      { Shows123456At3(); }
      InputState("123,456", 3);
    }
  }

  /** `123|,456` PUT_SYMBOL `x` shows `123|,456`. */
  lemma {:induction false} EqualLine169()
    ensures Step(DigitsOnly, NumberFormat, InputState("123,456", 3), PutSymbol("x")) == InputState("123,456", 3)
  {
    assert AllSignificant(DigitsOnly, "123456");
    calc {
      Step(DigitsOnly, NumberFormat, InputState("123,456", 3), PutSymbol("x"));
      { Shows123456At3(); }
      Step(DigitsOnly, NumberFormat, Grouped("123456", 3, false), PutSymbol("x"));
      { GroupedPutRejected("123456", 3, false, "x"); }
      Grouped("123456", 3, false);
      { Shows123456At3(); }
      InputState("123,456", 3);
    }
  }

  /** The commands of the test in which edits leave the displayed text as it was. */
  const EqualCommands: seq<Command> := [PutSymbol("123456"), MoveCaret(-3), Backspace, Delete, PutSymbol("x"), PutSymbol("x")]

  /** What the input shows after each command of `EqualCommands`, and the snapshots of
      lines 164-169. */
  const EqualShown: seq<InputState> := [
    InputState("123,456", 7),
    InputState("123,456", 4),
    InputState("123,456", 3),
    InputState("123,456", 4),
    InputState("123,456", 3),
    InputState("123,456", 3)]
  const EqualSnapshots: seq<string> := ["123,456|", "123,|456", "123|,456", "123,|456", "123|,456", "123|,456"]

  /** What the input shows after each command of `EqualCommands`, from `|`. */
  lemma EqualReplay()
    ensures Replay(DigitsOnly, NumberFormat, InputState("", 0), EqualCommands) == EqualShown
  {
    var start, states := InputState("", 0), EqualShown;
    forall i | 0 <= i < |EqualCommands|
      ensures WellFormed(([start] + states)[i])
      ensures states[i] == Step(DigitsOnly, NumberFormat, ([start] + states)[i], EqualCommands[i])
    {
      if i == 0 { EqualLine164(); }
      else if i == 1 { }
      else if i == 2 { WorksLine79(); }
      else if i == 3 { EqualLine167(); }
      else if i == 4 { EqualLine168(); }
      else { EqualLine169(); }
    }
    StepsReplay(DigitsOnly, NumberFormat, start, EqualCommands, states);
  }

  /** Those inputs render as the snapshots. */
  lemma EqualRendered()
    ensures RenderAll(EqualShown) == EqualSnapshots
  {
    Shows123456At6();
    Shows123456At3Past();
    Shows123456At3();
    forall i | 0 <= i < 6 ensures RenderAll(EqualShown)[i] == EqualSnapshots[i] { }
  }

  /** The test in which edits leave the displayed text as it was, run on a fresh input:
      the input shown after each command, and its snapshot. */
  method EqualValues() returns (shown: seq<InputState>)
    ensures shown == EqualShown
    ensures RenderAll(shown) == EqualSnapshots
  {
    var input := new Editor(DigitsOnly, NumberFormat);
    GroupingIdempotent();
    shown := input.Run(EqualCommands);
    EqualReplay();
    EqualRendered();
  }

  /** The digits "123456" with the caret after 3 of them show as `123|,456`. */
  lemma {:induction false} Shows123456At3()
    ensures Grouped("123456", 3, false) == InputState("123,456", 3)
    ensures Render(InputState("123,456", 3)) == "123|,456"
  {
    Groups123456();
    assert CaretAfter(6, 3) == 3;
    assert "123" + "|" + ",456" == "123|,456";
  }

  /** The digits "123456" with the caret after 3 of them, past the comma, show as `123,|456`. */
  lemma {:induction false} Shows123456At3Past()
    ensures Grouped("123456", 3, true) == InputState("123,456", 4)
    ensures Render(InputState("123,456", 4)) == "123,|456"
  {
    Groups123456();
    assert CaretAfter(6, 3) == 3;
    assert "123," + "|" + "456" == "123,|456";
  }

  /** The digits "123456" with the caret after 5 of them show as `123,45|6`. */
  lemma {:induction false} Shows123456At5()
    ensures Grouped("123456", 5, false) == InputState("123,456", 6)
    ensures Render(InputState("123,456", 6)) == "123,45|6"
  {
    Groups123456();
    assert "123,45" + "|" + "6" == "123,45|6";
  }

  /** The digits "123456" with the caret after 6 of them show as `123,456|`. */
  lemma {:induction false} Shows123456At6()
    ensures Grouped("123456", 6, false) == InputState("123,456", 7)
    ensures Render(InputState("123,456", 7)) == "123,456|"
  {
    Groups123456();
    assert "123,456" + "|" + "" == "123,456|";
  }

  /** The digits "12345" with the caret after 0 of them show as `|12,345`. */
  lemma {:induction false} Shows12345At0()
    ensures Grouped("12345", 0, false) == InputState("12,345", 0)
    ensures Render(InputState("12,345", 0)) == "|12,345"
  {
    Groups12345();
    assert "" + "|" + "12,345" == "|12,345";
  }

  /** The digits "12345" with the caret after 1 of them show as `1|2,345`. */
  lemma {:induction false} Shows12345At1()
    ensures Grouped("12345", 1, false) == InputState("12,345", 1)
    ensures Render(InputState("12,345", 1)) == "1|2,345"
  {
    Groups12345();
    assert CaretAfter(5, 1) == 1;
    assert "1" + "|" + "2,345" == "1|2,345";
  }

  /** The digits "12345" with the caret after 5 of them show as `12,345|`. */
  lemma {:induction false} Shows12345At5()
    ensures Grouped("12345", 5, false) == InputState("12,345", 6)
    ensures Render(InputState("12,345", 6)) == "12,345|"
  {
    Groups12345();
    assert "12,345" + "|" + "" == "12,345|";
  }

  /** The digits "12346" with the caret after 3 of them show as `12,3|46`. */
  lemma {:induction false} Shows12346At3()
    ensures Grouped("12346", 3, false) == InputState("12,346", 4)
    ensures Render(InputState("12,346", 4)) == "12,3|46"
  {
    Groups12346();
    assert "12,3" + "|" + "46" == "12,3|46";
  }

  /** The digits "12346" with the caret after 4 of them show as `12,34|6`. */
  lemma {:induction false} Shows12346At4()
    ensures Grouped("12346", 4, false) == InputState("12,346", 5)
    ensures Render(InputState("12,346", 5)) == "12,34|6"
  {
    Groups12346();
    assert "12,34" + "|" + "6" == "12,34|6";
  }

  /** The digits "1239456" with the caret after 4 of them show as `1,239|,456`. */
  lemma {:induction false} Shows1239456At4()
    ensures Grouped("1239456", 4, false) == InputState("1,239,456", 5)
    ensures Render(InputState("1,239,456", 5)) == "1,239|,456"
  {
    Groups1239456();
    assert CaretAfter(7, 4) == 5;
    assert "1,239" + "|" + ",456" == "1,239|,456";
  }

  /** The digits "12398456" with the caret after 5 of them show as `12,398|,456`. */
  lemma {:induction false} Shows12398456At5()
    ensures Grouped("12398456", 5, false) == InputState("12,398,456", 6)
    ensures Render(InputState("12,398,456", 6)) == "12,398|,456"
  {
    Groups12398456();
    assert CaretAfter(8, 5) == 6;
    assert "12,398" + "|" + ",456" == "12,398|,456";
  }

  /** The digits "146" with the caret after 1 of them show as `1|46`. */
  lemma {:induction false} Shows146At1()
    ensures Grouped("146", 1, false) == InputState("146", 1)
    ensures Render(InputState("146", 1)) == "1|46"
  {
    assert "1" + "|" + "46" == "1|46";
  }

  /** The digits "146" with the caret after 3 of them show as `146|`. */
  lemma {:induction false} Shows146At3()
    ensures Grouped("146", 3, false) == InputState("146", 3)
    ensures Render(InputState("146", 3)) == "146|"
  {
    assert "146" + "|" + "" == "146|";
  }

  /** The digits "1" with the caret after 1 of them show as `1|`. */
  lemma {:induction false} Shows1At1()
    ensures Grouped("1", 1, false) == InputState("1", 1)
    ensures Render(InputState("1", 1)) == "1|"
  {
    assert "1" + "|" + "" == "1|";
  }

  /** The digits "2345" with the caret after 0 of them show as `|2,345`. */
  lemma {:induction false} Shows2345At0()
    ensures Grouped("2345", 0, false) == InputState("2,345", 0)
    ensures Render(InputState("2,345", 0)) == "|2,345"
  {
    Groups2345();
    assert "" + "|" + "2,345" == "|2,345";
  }

  /** The digits "" with the caret after 0 of them show as `|`. */
  lemma {:induction false} ShowsNothingAt0()
    ensures Grouped("", 0, false) == InputState("", 0)
    ensures Render(InputState("", 0)) == "|"
  {
    assert "" + "|" + "" == "|";
  }

  /** The grouping of the digits 1239, worked out group by group. */
  lemma {:induction false} Groups1239()
    ensures GroupThousands("1239") == "1,239"
  {
    assert "1239"[..1] == "1" && "1239"[1..] == "239";
    assert "1" + "," + "239" == "1,239";
  }

  /** The grouping of the digits 2345, worked out group by group. */
  lemma {:induction false} Groups2345()
    ensures GroupThousands("2345") == "2,345"
  {
    assert "2345"[..1] == "2" && "2345"[1..] == "345";
    assert "2" + "," + "345" == "2,345";
  }

  /** The grouping of the digits 12345, worked out group by group. */
  lemma {:induction false} Groups12345()
    ensures GroupThousands("12345") == "12,345"
  {
    assert "12345"[..2] == "12" && "12345"[2..] == "345";
    assert "12" + "," + "345" == "12,345";
  }

  /** The grouping of the digits 12346, worked out group by group. */
  lemma {:induction false} Groups12346()
    ensures GroupThousands("12346") == "12,346"
  {
    assert "12346"[..2] == "12" && "12346"[2..] == "346";
    assert "12" + "," + "346" == "12,346";
  }

  /** The grouping of the digits 12398, worked out group by group. */
  lemma {:induction false} Groups12398()
    ensures GroupThousands("12398") == "12,398"
  {
    assert "12398"[..2] == "12" && "12398"[2..] == "398";
    assert "12" + "," + "398" == "12,398";
  }

  /** The grouping of the digits 123456, worked out group by group. */
  lemma {:induction false} Groups123456()
    ensures GroupThousands("123456") == "123,456"
  {
    assert "123456"[..3] == "123" && "123456"[3..] == "456";
    assert "123" + "," + "456" == "123,456";
  }

  /** The grouping of the digits 1239456, worked out group by group. */
  lemma {:induction false} Groups1239456()
    ensures GroupThousands("1239456") == "1,239,456"
  {
    assert "1239456"[..4] == "1239" && "1239456"[4..] == "456";
    Groups1239();
    assert "1,239" + "," + "456" == "1,239,456";
  }

  /** The grouping of the digits 12398456, worked out group by group. */
  lemma {:induction false} Groups12398456()
    ensures GroupThousands("12398456") == "12,398,456"
  {
    assert "12398456"[..5] == "12398" && "12398456"[5..] == "456";
    Groups12398();
    assert "12,398" + "," + "456" == "12,398,456";
  }
}

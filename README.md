# rifm: the formatted-input editing model and the phone-page helpers

rifm ("React Input Format & Mask") is a component that sits between a text input and the
value held by the application. The input's text holds *significant* characters, chosen by
an `accept` or `refuse` pattern, and *decoration* such as commas, apostrophes and points
that a `format` function adds. After every edit the component does three things:

1. It keeps the significant characters of the edited text.
2. It hands them to `format`.
3. It puts the caret back into the formatted text.

The snapshot tests of the format feature fix this behaviour command by command. This
project models it, together with three helpers of the phone-number demo page.

- `Significance` defines the accept/refuse character rule and the filter it induces.
  The rules are digits only, and "anything but digits and the point" (a refuse rule).
- `CaretPlacement` defines how the caret is placed in freshly formatted text.
  - For each significant character that stood before the raw caret, in order, the model
    finds that character in the formatted text at or after the position reached so far
    (`indexOf`). It then moves just past it.
  - A character the formatter dropped is not found, and the walk skips it.
  - Where the formatter keeps the significant characters, this is the same as placing the
    caret right after the k-th significant character (`PlaceFollowsCount`).
- `Editing` defines the `(value, caret)` state and the four commands PUT_SYMBOL,
  MOVE_CARET, BACKSPACE and DELETE.
  - `Reconcile` is one edit event.
  - `Step` is one command; `Replay` is a list of commands.
  - The module also proves the general properties of the editing model, for any rule and
    any formatter.
- `ControlledInput` models the controlled input the tests drive: the `Editor` class.
  - It holds the controlling component's state, the displayed text and the caret.
  - It applies one command (`Exec`) or a list of commands (`Run`).
  - Its held value stays the displayed one.
- `Grouping` is a stand-in for the number formatter of the integer traces. It groups
  digits in threes, separated by commas, which is what those snapshots show. The module
  proves where the caret lands in grouped digits.
- `GroupedEditing` describes every command on an input that shows grouped digits.
- `FormatTraces` covers the "format works" test and the "equal values" test.
  - Every snapshot edit is a step lemma.
  - Each whole test is a replay lemma.
  - A fresh `Editor` is run through each test's commands.
- `CurrencyTraces` covers the currency traces. The formatter is a parameter, and each
  lemma assumes only what the snapshot shows the formatter doing.
  - Every snapshot edit of the "format with custom refuse works" test is a step lemma.
  - Segment replays join them into one replay of the whole test (`CustomRefuseReplay`).
- `PhoneFormat` covers the phone page:
  - `parseDigits`;
  - the ten-digit cap in front of the phone formatter;
  - the `mask` decision.

The snapshots fix the caret rule, and the model follows them. Three points are settled
by the snapshots themselves:

- **The caret is placed by the `indexOf` walk, not by counting.** Putting the caret right
  after the k-th significant character would give a different result at two snapshots:
  - `0|.34` DELETE would show `3|4`, where the snapshot shows `|34` (tests/RifmFormat.test.js:132);
  - PUT_SYMBOL `123` would show `1.2|3`, where the snapshot shows `1.23|` (tests/RifmFormat.test.js:154).

  `CountRuleDiffers` states both. The count rule is proved as a theorem for formatters
  that keep the significant characters, which covers every integer trace.
- **Typing a rejected character can move the caret.** In a text that re-renders to
  itself, it never changes the text. The caret goes to just after the significant
  characters before it: `123,|456` PUT_SYMBOL `x` shows `123|,456`
  (tests/RifmFormat.test.js:167-168). From a caret already in that position, nothing moves.
- **DELETE whose removal the formatter undoes** moves the caret one position right of
  where placement puts it (tests/RifmFormat.test.js:131, 138, 167). The caret is clamped
  to the text, as a browser clamps a selection offset.

Two more points are modelling assumptions. No snapshot exercises them, and the code that
decides them is not part of this model:

- **BACKSPACE at offset 0 and DELETE at the end of the text** raise no edit event. The
  input stays as it was.
- **Only significant characters reach `format`.** `format` is applied to the filtered
  text, not to the raw text. On the phone page this makes no difference, because the
  phone formatter parses the digits itself (`FilteredTextFormatsAlike`).

## Model

In the third column a snapshot's caret mark `|` is written `^`.

| member | source | states |
|---|---|---|
| Significance.Filter | tests/RifmFormat.test.js:91 | the kept text is no longer than the input and holds only significant characters |
| Significance.FilterMembership | tests/RifmFormat.test.js:91 | a character is in the filtered text exactly when it is in the input and the rule finds it significant |
| Significance.FilterAppend | tests/RifmFormat.test.js:91 | filtering distributes over concatenation, so order is kept |
| Significance.FilterFixedPoint | tests/RifmFormat.test.js:150 | filtering leaves a text unchanged exactly when all its characters are significant |
| Significance.FilterIdempotent | tests/RifmFormat.test.js:150 | filtering twice is filtering once |
| CaretPlacement.IndexOf | tests/RifmFormat.test.js:132 | the index found is -1 or an index at or after the start that holds the character |
| CaretPlacement.IndexOfFirst | tests/RifmFormat.test.js:132 | the index found is the first occurrence; -1 means no occurrence from the start on |
| CaretPlacement.Place | tests/RifmFormat.test.js:154 | the walk never moves the caret back and stays inside the text |
| CaretPlacement.PlaceEndsOnSought | tests/RifmFormat.test.js:154 | the walk only stops right after a character it was looking for |
| CaretPlacement.AfterNth | tests/RifmFormat.test.js:66-73 | the position right after the k-th significant character of the text never lies past its end; `AfterNthCounts` says it has exactly k of them before it |
| CaretPlacement.AfterNthCounts | tests/RifmFormat.test.js:66 | the position after the k-th significant character has exactly k of them before it and a significant character just before it; it is 0 for k = 0 and the end when there are fewer than k |
| CaretPlacement.PlaceFollowsCount | tests/RifmFormat.test.js:66-73 | when the formatted text starts with the significant characters before the raw caret, the walk lands right after the k-th significant character, with exactly those characters in front of it |
| CaretPlacement.AfterNthOfCanonical | tests/RifmFormat.test.js:72 | a caret at 0 or right after a significant character is the one the count of characters before it gives back |
| Editing.Reconcile | tests/RifmFormat.test.js:62-86 | the new text is the format of the significant raw characters; the caret is inside it and, unless a delete was undone, at 0 or right after a significant character |
| Editing.Step | tests/RifmFormat.test.js:38-45 | one command: MOVE_CARET keeps the text; PUT_SYMBOL, BACKSPACE after offset 0 and DELETE before the end show the format of the significant characters of the edited text; the caret stays inside the text |
| Editing.Replay | tests/RifmFormat.test.js:38-54 | one state per command, each with its caret inside its text |
| Editing.ReplayAppend | tests/RifmFormat.test.js:38-54 | replaying two command lists in turn equals replaying them joined |
| Editing.ReplayFollows | tests/RifmFormat.test.js:38-54 | every replayed state is the step of the state before it |
| Editing.StepsReplay | tests/RifmFormat.test.js:38-54 | conversely, states that each follow the one before by a step are the replay |
| Editing.PlacementFollowsCount | tests/RifmFormat.test.js:122-126 | with the significant characters before the caret kept, the caret lands right after them, even when separators move |
| Editing.ReconcileCaret | tests/RifmFormat.test.js:129 | a caret at 0 or after a significant character with exactly the raw caret's significant characters before it is where the caret lands, even when the formatter prepends a character |
| Editing.SameSignificantReformats | tests/RifmFormat.test.js:166-168 | an edit that changes no significant characters of a stable text gives that text back, with the caret right after the same significant characters |
| Editing.MoveCaretClamps | tests/RifmFormat.test.js:80-82 | MOVE_CARET keeps the text and moves the caret by the amount, clamped to 0 and to the text's length |
| Editing.RejectedSymbolsKeepText | tests/RifmFormat.test.js:86 | typing rejected characters keeps the text; the caret goes right after the significant characters before it, never right, and stays put when already there |
| Editing.RejectedSymbolsTwice | tests/RifmFormat.test.js:168-169 | typing the rejected characters again changes nothing |
| Editing.BackspaceOverDecoration | tests/RifmFormat.test.js:79 | BACKSPACE after a separator removes nothing and puts the caret right after the significant character before it |
| Editing.UndoneDeleteStepsRight | tests/RifmFormat.test.js:131 | DELETE the formatter undoes keeps the text and moves the caret one past the placed position; from a caret at 0 or after a significant character, exactly one right |
| Editing.PutSymbolKeepsCount | tests/RifmFormat.test.js:66-73 | PUT_SYMBOL inserts the typed significant characters among the old ones at the caret, and the caret lands right after those before it and those typed |
| Editing.BackspaceRemovesSignificant | tests/RifmFormat.test.js:75-81 | BACKSPACE after a significant character removes exactly it; the rest regroup and the caret stays right after those that preceded it |
| Editing.DeleteRemovesSignificant | tests/RifmFormat.test.js:139-145 | DELETE before a significant character removes exactly it; the caret stays right after the ones before it |
| Editing.StepKeepsStable | tests/RifmFormat.test.js:51 | with an idempotent formatter, every command leaves a text that re-renders to itself |
| ControlledInput.Editor.constructor | tests/RifmFormat.test.js:17 | a fresh input holds the empty string and shows its formatting with the caret at 0 |
| ControlledInput.Editor.Exec | tests/RifmFormat.test.js:38-51 | one command: the new held value, displayed text and caret; held and displayed values stay equal |
| ControlledInput.Editor.Run | tests/RifmFormat.test.js:38-54 | a command list: the inputs shown are exactly the replay, and the held value stays the displayed one |
| Grouping.GroupThousands | tests/RifmFormat.test.js:66-73 | grouping in threes is never shorter than the digits and adds at most one character for every three digits; `NumberFormat` hands it to the editing model |
| Grouping.GroupingKeepsDigits | tests/RifmFormat.test.js:66 | grouping only inserts commas; the digits come back out unchanged |
| Grouping.GroupingIdempotent | tests/RifmFormat.test.js:51 | grouped output re-renders to itself |
| Grouping.GroupingLength | tests/RifmFormat.test.js:72 | the grouped text is `GroupedLength` of its digit count long, never shorter than the digits and longer once there are more than three |
| Grouping.GroupedLengthCommas | tests/RifmFormat.test.js:72 | n grouped digits take n + (n - 1) / 3 characters |
| Grouping.CaretAfter | tests/RifmFormat.test.js:73 | the caret after the k-th digit is 0 for k = 0 and otherwise between k and the grouped length |
| Grouping.CaretAfterCommas | tests/RifmFormat.test.js:73 | the caret after the k-th digit is k plus the commas in front of that digit |
| Grouping.GroupedPrefix | tests/RifmFormat.test.js:66 | that caret is right after a digit, with exactly the first k digits before it |
| Grouping.GroupedAfterNth | tests/RifmFormat.test.js:66-73 | the editing model's caret after the k-th digit of grouped digits is that caret |
| GroupedEditing.GroupedCount | tests/RifmFormat.test.js:51 | an input showing grouped digits re-renders to itself, with the first k digits before the caret |
| GroupedEditing.GroupedReconcile | tests/RifmFormat.test.js:62-86 | an edit leaving digits e, with the first j before the raw caret, shows e grouped with the caret right after its j-th digit |
| GroupedEditing.GroupedPut | tests/RifmFormat.test.js:62-73 | typing digits inserts them at the caret, regroups, and the caret lands after the last digit typed |
| GroupedEditing.GroupedPutRejected | tests/RifmFormat.test.js:168-169 | typing non-digits keeps the digits and puts the caret right after the digit before it |
| GroupedEditing.GroupedBackspaceDigit | tests/RifmFormat.test.js:75-76 | BACKSPACE after a digit removes it, regroups, and keeps the caret after the digit before it |
| GroupedEditing.GroupedBackspaceComma | tests/RifmFormat.test.js:79 | BACKSPACE after a comma keeps the digits and moves the caret before the comma |
| GroupedEditing.GroupedDeleteComma | tests/RifmFormat.test.js:167 | DELETE before a comma keeps the digits and moves the caret past the comma |
| GroupedEditing.GroupedDeleteDigit | tests/RifmFormat.test.js:139-141 | DELETE before a digit removes it, regroups, and keeps the caret after the digits before it |
| Editing.Render | tests/RifmFormat.test.js:53 | the snapshot text is the value with the caret mark inserted at the caret offset, and removing the mark gives the value back |
| FormatTraces.WorksLine62 | tests/RifmFormat.test.js:62 | `^` PUT_SYMBOL `1` shows `1^` |
| FormatTraces.WorksLine63 | tests/RifmFormat.test.js:63 | `1^` PUT_SYMBOL `46` shows `146^` |
| FormatTraces.WorksLine66 | tests/RifmFormat.test.js:66 | `1^46` PUT_SYMBOL `23` shows `12,3^46` |
| FormatTraces.WorksLine69 | tests/RifmFormat.test.js:69 | `12,34^6` PUT_SYMBOL `5` shows `123,45^6` |
| FormatTraces.WorksLine72 | tests/RifmFormat.test.js:72 | `123,^456` PUT_SYMBOL `9` shows `1,239^,456` |
| FormatTraces.WorksLine73 | tests/RifmFormat.test.js:73 | `1,239^,456` PUT_SYMBOL `8` shows `12,398^,456` |
| FormatTraces.WorksLine75 | tests/RifmFormat.test.js:75 | `12,398^,456` BACKSPACE shows `1,239^,456` |
| FormatTraces.WorksLine76 | tests/RifmFormat.test.js:76 | `1,239^,456` BACKSPACE shows `123^,456` |
| FormatTraces.WorksLine79 | tests/RifmFormat.test.js:79 | `123,^456` BACKSPACE shows `123^,456`, as again at line 166 |
| FormatTraces.WorksLine81 | tests/RifmFormat.test.js:81 | `123,456^` BACKSPACE shows `12,345^` |
| FormatTraces.WorksLine84 | tests/RifmFormat.test.js:84 | `1^2,345` BACKSPACE shows `^2,345` |
| FormatTraces.WorksLine85 | tests/RifmFormat.test.js:85 | `^2,345` PUT_SYMBOL `1` shows `1^2,345` |
| FormatTraces.WorksLine86 | tests/RifmFormat.test.js:86 | `1^2,345` PUT_SYMBOL `x` shows `1^2,345` |
| FormatTraces.WorksReplay1 | tests/RifmFormat.test.js:62-68 | the first five commands of "format works" show the first five snapshots |
| FormatTraces.WorksReplay2 | tests/RifmFormat.test.js:69-75 | the next five show the next five snapshots |
| FormatTraces.WorksReplay3 | tests/RifmFormat.test.js:76-81 | the next five show the next five snapshots |
| FormatTraces.WorksReplay4 | tests/RifmFormat.test.js:82-86 | the last five show the last five snapshots |
| FormatTraces.WorksReplay | tests/RifmFormat.test.js:59-87 | the whole "format works" command list shows every snapshot of the test in turn |
| FormatTraces.WorksRendered1 | tests/RifmFormat.test.js:62-68 | those five inputs render as the five snapshot strings written at those lines |
| FormatTraces.WorksRendered2 | tests/RifmFormat.test.js:69-75 | those five inputs render as the five snapshot strings written at those lines |
| FormatTraces.WorksRendered3 | tests/RifmFormat.test.js:76-81 | those five inputs render as the five snapshot strings written at those lines |
| FormatTraces.WorksRendered4 | tests/RifmFormat.test.js:82-86 | those five inputs render as the five snapshot strings written at those lines |
| FormatTraces.FormatWorks | tests/RifmFormat.test.js:59-87 | a fresh `Editor` run through the "format works" commands shows every snapshot in turn, rendered as the snapshot strings |
| FormatTraces.EqualLine164 | tests/RifmFormat.test.js:164 | `^` PUT_SYMBOL `123456` shows `123,456^` |
| FormatTraces.EqualLine167 | tests/RifmFormat.test.js:167 | `123^,456` DELETE shows `123,^456` |
| FormatTraces.EqualLine168 | tests/RifmFormat.test.js:168 | `123,^456` PUT_SYMBOL `x` shows `123^,456` |
| FormatTraces.EqualLine169 | tests/RifmFormat.test.js:169 | `123^,456` PUT_SYMBOL `x` shows `123^,456` |
| FormatTraces.EqualReplay | tests/RifmFormat.test.js:160-170 | the whole "equal values" command list shows every snapshot in turn |
| FormatTraces.EqualRendered | tests/RifmFormat.test.js:164-169 | the inputs of the "equal values" test render as its six snapshot strings |
| FormatTraces.EqualValues | tests/RifmFormat.test.js:160-170 | a fresh `Editor` run through it shows every snapshot, rendered as the snapshot strings, its held value staying the displayed one |
| CurrencyTraces.CustomRefuseLine95 | tests/RifmFormat.test.js:95 | `^` PUT_SYMBOL `1` shows `1^` |
| CurrencyTraces.CustomRefuseLine96 | tests/RifmFormat.test.js:96 | `1^` PUT_SYMBOL `46` shows `146^` |
| CurrencyTraces.CustomRefuseLine98 | tests/RifmFormat.test.js:98 | `1^46` PUT_SYMBOL `23` shows `12’3^46` when the formatter writes `12346` as `12’346` |
| CurrencyTraces.CustomRefuseLine100 | tests/RifmFormat.test.js:100 | `12’34^6` PUT_SYMBOL `5` shows `123’45^6` when the formatter writes `123456` as `123’456` |
| CurrencyTraces.CustomRefuseLine103 | tests/RifmFormat.test.js:103 | `123’^456` PUT_SYMBOL `9` shows `1’239^’456` when the formatter writes `1239456` as `1’239’456` |
| CurrencyTraces.CustomRefuseLine104 | tests/RifmFormat.test.js:104 | `1’239^’456` PUT_SYMBOL `8` shows `12’398^’456` when the formatter writes `12398456` as `12’398’456` |
| CurrencyTraces.CustomRefuseLine106 | tests/RifmFormat.test.js:106 | `12’398^’456` BACKSPACE shows `1’239^’456` when the formatter writes `1239456` as `1’239’456` |
| CurrencyTraces.CustomRefuseLine107 | tests/RifmFormat.test.js:107 | `1’239^’456` BACKSPACE shows `123^’456` when the formatter writes `123456` as `123’456` |
| CurrencyTraces.CustomRefuseLine109 | tests/RifmFormat.test.js:109 | `123’^456` BACKSPACE shows `123^’456` when the formatter writes `123456` as `123’456` |
| CurrencyTraces.CustomRefuseLine111 | tests/RifmFormat.test.js:111 | `123’456^` BACKSPACE shows `12’345^` when the formatter writes `12345` as `12’345` |
| CurrencyTraces.CustomRefuseLine114 | tests/RifmFormat.test.js:114 | `1^2’345` BACKSPACE shows `^2’345` when the formatter writes `2345` as `2’345` |
| CurrencyTraces.CustomRefuseLine115 | tests/RifmFormat.test.js:115 | `^2’345` PUT_SYMBOL `1` shows `1^2’345` when the formatter writes `12345` as `12’345` |
| CurrencyTraces.CustomRefuseLine116 | tests/RifmFormat.test.js:116 | `1^2’345` PUT_SYMBOL `x` shows `1^2’345`: the refused character changes nothing |
| CurrencyTraces.CustomRefuseLine118 | tests/RifmFormat.test.js:118 | `12’345^` PUT_SYMBOL `.` shows `12’345.^` when the formatter writes `12345.` as `12’345.` |
| CurrencyTraces.CustomRefuseLine119 | tests/RifmFormat.test.js:119 | `12’345.^` PUT_SYMBOL `0` shows `12’345.0^` when the formatter writes `12345.0` as `12’345.0` |
| CurrencyTraces.CustomRefuseLine120 | tests/RifmFormat.test.js:120 | `12’345.0^` PUT_SYMBOL `0` shows `12’345.00^` when the formatter writes `12345.00` as `12’345.00` |
| CurrencyTraces.CustomRefuseLine122 | tests/RifmFormat.test.js:122 | `12’345.^00` BACKSPACE shows `1’234’5^00` when the formatter writes `1234500` as `1’234’500` |
| CurrencyTraces.CustomRefuseLine124 | tests/RifmFormat.test.js:124 | `1’234’^500` PUT_SYMBOL `.` shows `1’234.^50` when the formatter writes `1234.500` as `1’234.50` |
| CurrencyTraces.CustomRefuseLine126 | tests/RifmFormat.test.js:126 | `1’2^34.50` PUT_SYMBOL `.` shows `12.^34` when the formatter writes `12.34.50` as `12.34` |
| CurrencyTraces.CustomRefuseLine128 | tests/RifmFormat.test.js:128 | `12^.34` BACKSPACE shows `1^.34` |
| CurrencyTraces.CustomRefuseLine129 | tests/RifmFormat.test.js:129 | `1^.34` BACKSPACE shows `^0.34` when the formatter writes `.34` as `0.34` |
| CurrencyTraces.CustomRefuseLine131 | tests/RifmFormat.test.js:131 | `^0.34` DELETE shows `0^.34` |
| CurrencyTraces.CustomRefuseLine132 | tests/RifmFormat.test.js:132 | `0^.34` DELETE shows `^34` when the formatter drops the leading zero |
| CurrencyTraces.CustomRefuseLine133 | tests/RifmFormat.test.js:133 | `^34` DELETE shows `^4` |
| CurrencyTraces.CustomRefuseLine134 | tests/RifmFormat.test.js:134 | `^4` DELETE shows `^` |
| CurrencyTraces.CustomRefuseBackspaces | tests/RifmFormat.test.js:128-129 | the two BACKSPACEs from `12^.34` show both snapshots in turn |
| CurrencyTraces.CustomRefuseDeletes | tests/RifmFormat.test.js:131-134 | the four DELETEs from `^0.34` show the four snapshots in turn |
| CurrencyTraces.CustomRefuseLine136 | tests/RifmFormat.test.js:136 | `^` PUT_SYMBOL `123456789.12` shows `123’456’789.12^` when the formatter writes `123456789.12` as `123’456’789.12` |
| CurrencyTraces.CustomRefuseLine138 | tests/RifmFormat.test.js:138 | `123^’456’789.12` DELETE shows `123’^456’789.12` when the formatter writes `123456789.12` as `123’456’789.12` |
| CurrencyTraces.CustomRefuseLine139 | tests/RifmFormat.test.js:139 | `123’^456’789.12` DELETE shows `12’3^56’789.12` when the formatter writes `12356789.12` as `12’356’789.12` |
| CurrencyTraces.CustomRefuseLine140 | tests/RifmFormat.test.js:140 | `12’3^56’789.12` DELETE shows `1’23^6’789.12` when the formatter writes `1236789.12` as `1’236’789.12` |
| CurrencyTraces.CustomRefuseLine141 | tests/RifmFormat.test.js:141 | `1’23^6’789.12` DELETE shows `123^’789.12` when the formatter writes `123789.12` as `123’789.12` |
| CurrencyTraces.CustomRefuseLine143 | tests/RifmFormat.test.js:143 | `123’^789.12` BACKSPACE shows `123^’789.12` when the formatter writes `123789.12` as `123’789.12` |
| CurrencyTraces.CustomRefuseLine145 | tests/RifmFormat.test.js:145 | `123’789^.12` DELETE shows `12’378’9^12` when the formatter writes `12378912` as `12’378’912` |
| CurrencyTraces.CustomRefuseReplay1 | tests/RifmFormat.test.js:95-100 | the commands of those lines, from `^`, show each snapshot in turn, given the formatter outputs they show |
| CurrencyTraces.CustomRefuseReplay2 | tests/RifmFormat.test.js:102-104 | the commands of those lines, from `123’45^6`, show each snapshot in turn, given the formatter outputs they show |
| CurrencyTraces.CustomRefuseReplay3 | tests/RifmFormat.test.js:106-110 | the commands of those lines, from `12’398^’456`, show each snapshot in turn, given the formatter outputs they show |
| CurrencyTraces.CustomRefuseReplay4 | tests/RifmFormat.test.js:111-115 | the commands of those lines, from `123’456^`, show each snapshot in turn, given the formatter outputs they show |
| CurrencyTraces.CustomRefuseReplay5 | tests/RifmFormat.test.js:116-121 | the commands of those lines, from `1^2’345`, show each snapshot in turn, given the formatter outputs they show |
| CurrencyTraces.CustomRefuseReplay6 | tests/RifmFormat.test.js:122-129 | the commands of those lines, from `12’345.^00`, show each snapshot in turn, given the formatter outputs they show |
| CurrencyTraces.CustomRefuseReplay8 | tests/RifmFormat.test.js:136-140 | the commands of those lines, from `^`, show each snapshot in turn, given the formatter outputs they show |
| CurrencyTraces.CustomRefuseReplay9 | tests/RifmFormat.test.js:141-145 | the commands of those lines, from `1’23^6’789.12`, show each snapshot in turn, given the formatter outputs they show |
| CurrencyTraces.CustomRefuseReplay | tests/RifmFormat.test.js:89-146 | the whole "format with custom refuse works" command list, from an empty input, shows every snapshot of the test in turn, for any formatter with the outputs `ShowsCustomRefuse` lists |
| CurrencyTraces.FixedPointLine154 | tests/RifmFormat.test.js:154 | `^` PUT_SYMBOL `123` shows `1.23^` when the formatter writes `123` as `1.23` |
| CurrencyTraces.FixedPointLine156 | tests/RifmFormat.test.js:156 | `1.^23` BACKSPACE shows `1^.23` |
| CurrencyTraces.FixedPointLine157 | tests/RifmFormat.test.js:157 | `1^.23` DELETE shows `1.^23` |
| CurrencyTraces.FixedPointReplay | tests/RifmFormat.test.js:148-158 | the whole "fixed point" command list shows every snapshot in turn |
| CurrencyTraces.CountRuleDiffers | tests/RifmFormat.test.js:132 | the count rule would put the caret at 1 in `34` and at 3 in `1.23`, against the snapshots of lines 132 and 154 |
| PhoneFormat.ParseDigits | pages/phone-format/index.js:8 | `parseDigits` never lengthens its input and returns only digits; `ParseDigitsFilters` says they are exactly the input's digits |
| PhoneFormat.LeadingDigits | pages/phone-format/index.js:8 | the length of the longest run of digits the text starts with |
| PhoneFormat.DigitRuns | pages/phone-format/index.js:8 | every run matched is non-empty and all digits |
| PhoneFormat.JoinedRuns | pages/phone-format/index.js:8 | the matched runs joined are the digits of the text |
| PhoneFormat.NoMatch | pages/phone-format/index.js:8 | the match finds nothing exactly when the text holds no digit |
| PhoneFormat.ParseDigitsFilters | pages/phone-format/index.js:8 | `parseDigits` returns exactly the digits of its input, in order |
| PhoneFormat.ParseDigitsEmpty | pages/phone-format/index.js:8 | `parseDigits` returns the empty string exactly when the input holds no digit |
| PhoneFormat.ParseDigitsIdempotent | pages/phone-format/index.js:8 | `parseDigits` is idempotent, never lengthens its input, and returns only digits |
| PhoneFormat.PhoneRuleParses | pages/phone-format/index.js:23 | the input's accept rule keeps exactly what `parseDigits` keeps |
| PhoneFormat.FormatterInput | pages/phone-format/index.js:11 | the phone formatter is handed at most ten characters, a prefix of the parsed digits, and all of them when there are at most ten |
| PhoneFormat.FormatPhone | pages/phone-format/index.js:10-13 | with at most ten digits in the text, `formatPhone` is the phone formatter applied to exactly those digits |
| PhoneFormat.FormatterInputCapped | pages/phone-format/index.js:11 | the phone formatter sees the first ten digits, or all of them when there are at most ten |
| PhoneFormat.ExtraDigitsIgnored | pages/phone-format/index.js:10-13 | once ten digits are in, nothing typed after them changes the formatted phone |
| PhoneFormat.FilteredTextFormatsAlike | pages/phone-format/index.js:10-13 | `formatPhone` gives the same result on the text and on its accepted characters alone |
| PhoneFormat.PhoneMask | pages/phone-format/index.js:25-29 | the mask is unset only under six characters; from six on it is a flag, true exactly from fourteen characters on |
| PhoneFormat.MaskUnset | pages/phone-format/index.js:26-27 | the mask is unset exactly for values under six characters whose index 3 is missing or not a digit |
| PhoneFormat.MaskFlag | pages/phone-format/index.js:26-29 | otherwise the mask is true exactly from fourteen characters on, false below |

## Left out

- The React and test plumbing is left out: the test renderer, `act`, the `Value` state
  holder and inline snapshots. The model keeps only the state changes they cause, as
  the `Editor` class.
- The input emulator is left out. Each command is modelled only by its visible effect on
  `(value, caret)`.
- The number formatter is replaced by `Grouping.NumberFormat`. It groups digits in
  threes with commas, which is what the integer snapshots show.
- The two currency formatters are not modelled: their grouping, decimal capping and
  leading-zero handling are not part of this model. They are parameters, and each
  `CurrencyTraces` lemma requires only the formatter outputs its snapshots show.
- BACKSPACE at offset 0 and DELETE at the end of the text raising no edit event is a
  modelling assumption. No snapshot exercises either, and the input emulator that decides
  it is not part of this model.
- That `format` receives only the significant characters is a modelling assumption. The
  component's source, which decides it, is not part of this model.
- The phone formatter (`AsYouType('US').input`) is a foreign library. It is the parameter
  `asYouType` of `FormatPhone`.
- How the component applies the `mask` value is not part of this model. It is only
  available as the decision value `PhoneMask`.
- Regular expressions are modelled only as single-character accept/refuse predicates. That
  covers `\d+`, `[^\d.]` and `[^\d]+` as they are used here.
- The demo page's UI is left out: rendering, layout, and the `useState` wiring.
- Strings are sequences of characters, with no UTF-16 surrogate handling.

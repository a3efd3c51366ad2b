/** The controlled input the format tests drive: a component holding the value
    (`state`), the formatted input rendered from it (`value`, `caret`), and the
    command stream that edits it one command at a time.
 */
module ControlledInput {
  import opened Significance
  import opened Editing

  class Editor {
    const rule: CharRule
    const format: string -> string
    /** The value held by the controlling component. */
    var state: string
    /** The text the input displays. */
    var value: string
    /** The caret offset in the displayed text. */
    var caret: nat

    /** The input displays what the formatter makes of the held value, and the caret
        is inside the displayed text. */
    ghost predicate Valid()
      reads this
    {
      caret <= |value| && value == format(Filter(rule, state))
    }

    /** The held value is the displayed value. */
    ghost predicate InSync()
      reads this
    {
      state == value
    }

    /** A fresh input: the controlling component starts from the empty string. */
    constructor (rule: CharRule, format: string -> string)
      ensures Valid()
      ensures this.rule == rule && this.format == format
      ensures state == [] && value == format([]) && caret == 0
    {
      this.rule := rule;
      this.format := format;
      state := [];
      value := format([]);
      caret := 0;
    }

    /** Executes one command.  When the edit changes the displayed text, the new text is
        handed to the controlling component, which re-renders the input from it; the
        caret is then set where `Step` places it, clamped by the input to its text. */
    method Exec(cmd: Command)
      requires Valid()
      modifies this
      ensures Valid()
      ensures var next := Step(rule, format, InputState(old(value), old(caret)), cmd);
              && state == (if next.value == old(value) then old(state) else next.value)
              && value == (if next.value == old(value) then old(value) else format(Filter(rule, next.value)))
              && caret == Min(next.caret, |value|)
      ensures Idempotent(rule, format) && old(InSync()) ==>
              var next := Step(rule, format, InputState(old(value), old(caret)), cmd);
              InSync() && value == next.value && caret == next.caret
    {
      var next := Step(rule, format, InputState(value, caret), cmd);
      if Idempotent(rule, format) && InSync() {
        StepKeepsStable(rule, format, InputState(value, caret), cmd);
      }
      if next.value != value {
        state := next.value;
        value := format(Filter(rule, state));
      }
      caret := Min(next.caret, |value|);
    }

    /** Executes a list of commands in turn and returns the input shown after each.  When
        the formatter re-renders its own output unchanged and the held value is the one
        displayed, the input passes through exactly the states of the editing model. */
    method Run(cmds: seq<Command>) returns (shown: seq<InputState>)
      requires Valid() && InSync() && Idempotent(rule, format)
      modifies this
      ensures Valid() && InSync()
      ensures shown == Replay(rule, format, InputState(old(value), old(caret)), cmds)
    {
      ghost var start := InputState(value, caret);
      shown := [];
      for i := 0 to |cmds|
        invariant Valid() && InSync()
        invariant shown + Replay(rule, format, InputState(value, caret), cmds[i..]) == Replay(rule, format, start, cmds)
      {
        ghost var next := Step(rule, format, InputState(value, caret), cmds[i]);
        assert cmds[i..][1..] == cmds[i + 1..];
        assert Replay(rule, format, InputState(value, caret), cmds[i..])
               == [next] + Replay(rule, format, next, cmds[i + 1..]);
        Exec(cmds[i]);
        shown := shown + [InputState(value, caret)];
      }
    }
  }
}

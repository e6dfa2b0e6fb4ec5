/**
 * The prompt widget: a two-state machine (inactive, active) over the input
 * buffer `userInput` and the marker `userentered`, the length of the buffer
 * when the user last typed a character. Tab completes from the buffer cut
 * at that marker, so repeated Tabs cycle through completions of what was
 * typed rather than completing a completion. The history keys navigate the
 * history from the same cut buffer. Every other key first resets the
 * completer and then edits the buffer, cancels (Escape) or confirms
 * (Return); confirming records the line in the history and hands it to the
 * callback.
 */
module PromptWidget {
  import opened Wrappers
  import opened Text
  import opened Completion
  import opened HistoryLog
  import opened Keysyms

  /**
   * `_update`'s text: while active, the prompt, the input and a cursor
   * cell that is '_' when the blink flag is set and ' ' otherwise; nothing
   * while inactive.
   */
  function DisplayText(active: bool, prompt: string, input: string, blink: bool): (r: string)
    ensures !active ==> r == ""
    ensures active ==> |r| == |prompt| + |input| + 1
    ensures active ==> r[..|prompt|] == prompt && r[|prompt|..|r| - 1] == input
    ensures active ==> r[|r| - 1] == if blink then '_' else ' '
  {
    if active then prompt + input + (if blink then "_" else " ") else ""
  }

  /** For a given prompt, the shown text determines both the input and the blink state. */
  lemma DisplayTextInjective(prompt: string, input1: string, blink1: bool, input2: string, blink2: bool)
    requires DisplayText(true, prompt, input1, blink1) == DisplayText(true, prompt, input2, blink2)
    ensures input1 == input2 && blink1 == blink2
  {
    var t1, t2 := DisplayText(true, prompt, input1, blink1), DisplayText(true, prompt, input2, blink2);
    assert input1 == t1[|prompt|..|t1| - 1] == t2[|prompt|..|t2| - 1] == input2;
    assert t1[|t1| - 1] == t2[|t2| - 1];
  }

  class Prompt {
    var active: bool
    var blink: bool
    var prompt: string
    var userInput: string
    var userentered: nat
    /** The text the bar draws, as `_update` last set it. */
    var text: string
    var completer: Completer?
    var history: History?
    /** The arguments the current session's callback has been called with, in order. */
    var delivered: seq<string>

    /** Input has been started at least once, so there is a completer and a history. */
    ghost predicate Valid()
      reads this, completer, history
    {
      completer != null && history != null && completer.Valid() && history.Valid()
    }

    /** `Prompt.__init__`: inactive, with no completer and no history yet. */
    constructor ()
      ensures !active && !blink && userentered == 0 && userInput == "" && text == ""
      ensures completer == null && history == null && delivered == []
    {
      active, blink := false, false;
      prompt, userInput, userentered, text := "", "", 0, "";
      completer, history := null, null;
      delivered := [];
    }

    /** `_update`: recompute the text from the label, the buffer and the two flags. */
    method Update()
      modifies this`text
      ensures text == DisplayText(active, prompt, userInput, blink)
    {
      if active {
        text := prompt + userInput;
        if blink {
          text := text + "_";
        } else {
          text := text + " ";
        }
      } else {
        text := "";
      }
    }

    /**
     * `startInput(prompt, callback, complete)`: activate with an empty
     * buffer, a fresh completer for the mode and a fresh history, persistent
     * (holding `loaded`, what the history file decodes to) for "cmd" and
     * transient otherwise. The marker `userentered` is left as it was.
     */
    method StartInput(prompt: string, mode: Mode, loaded: seq<string>)
      modifies this
      ensures Valid() && fresh(completer) && fresh(history)
      ensures active && this.prompt == prompt && userInput == "" && delivered == []
      ensures userentered == old(userentered) && blink == old(blink)
      ensures completer.mode == mode && completer.lookup == [] && completer.thisfinal == None
      ensures history.persistent == (mode == CmdMode)
      ensures history.entries == (if mode == CmdMode then loaded else [])
      ensures history.stored == history.entries
      ensures history.NavState() == Nav(0, None)
      ensures text == DisplayText(true, prompt, "", blink)
    {
      active := true;
      this.prompt := prompt;
      userInput := "";
      delivered := [];
      completer := new Completer(mode);
      if mode == CmdMode {
        history := new History.Persistent(loaded);
      } else {
        history := new History.Transient();
      }
      Update();
    }

    /** `_blink`: the timer flips the blink flag; nothing but the shown text follows. */
    method Blink()
      modifies this`blink, this`text
      ensures blink == !old(blink)
      ensures text == DisplayText(active, prompt, userInput, blink)
    {
      blink := !blink;
      Update();
    }

    /** `handle_KeyPress` for a key press that the host translated to `keysym`. */
    method HandleKeyPress(keysym: nat, host: Host)
      requires Valid()
      modifies this, completer, history
      ensures Valid()
      ensures completer == old(completer) && history == old(history)
      ensures prompt == old(prompt) && blink == old(blink)
      // The buffer.
      ensures var typed := Take(old(userInput), old(userentered));
              userInput ==
                if keysym == TAB then
                  CompleteResult(completer.mode, old(completer.State()), typed, host).1
                else if IsHistoryKey(keysym) then
                  var line := NavStep(old(history.entries), old(history.NavState()), keysym, typed).1;
                  if line.Some? then line.value else old(userInput)
                else if IsPrintable(keysym) then old(userInput) + [keysym as char]
                else if keysym == BACKSPACE && old(userInput) != [] then old(userInput)[..|old(userInput)| - 1]
                else old(userInput)
      ensures userentered == if IsPrintable(keysym) then |userInput| else old(userentered)
      // The completer: advanced by Tab, untouched by history keys, reset by anything else.
      ensures completer.State() ==
                if keysym == TAB then
                  CompleteResult(completer.mode, old(completer.State()), Take(old(userInput), old(userentered)), host).0
                else if IsHistoryKey(keysym) then old(completer.State())
                else Cursor([], -1, old(completer.thisfinal))
      // The history: navigated by history keys, extended by Return, written out on Escape and Return.
      ensures history.NavState() ==
                if IsHistoryKey(keysym) then
                  NavStep(old(history.entries), old(history.NavState()), keysym, Take(old(userInput), old(userentered))).0
                else old(history.NavState())
      ensures history.entries == if keysym == RETURN then [old(userInput)] + old(history.entries) else old(history.entries)
      ensures history.stored ==
                if (keysym == ESCAPE || keysym == RETURN) && history.persistent then history.entries
                else old(history.stored)
      // The session: Escape and Return end it; only Return calls back, once, with the buffer.
      ensures active == if keysym == ESCAPE || keysym == RETURN then false else old(active)
      ensures delivered == if keysym == RETURN then old(delivered) + [old(userInput)] else old(delivered)
      ensures text == DisplayText(active, prompt, userInput, blink)
    {
      if keysym == TAB {
        TabKey(host);
      } else if IsHistoryKey(keysym) {
        NavKey(keysym);
      } else {
        EditKey(keysym);
      }
      Update();
    }

    /** Tab: the buffer becomes the next completion of `userInput[:userentered]`. */
    method TabKey(host: Host)
      requires Valid()
      modifies this`userInput, completer
      ensures Valid()
      ensures userInput == CompleteResult(completer.mode, old(completer.State()), Take(old(userInput), userentered), host).1
      ensures completer.State() == CompleteResult(completer.mode, old(completer.State()), Take(old(userInput), userentered), host).0
    {
      var typed := Take(userInput, userentered);
      userInput := completer.Complete(typed, host);
    }

    /**
     * A history key: navigate from `userInput[:userentered]`; the buffer
     * takes the line shown, or stays when the key changes nothing.
     */
    method NavKey(keysym: nat)
      requires Valid()
      modifies this`userInput, history
      ensures Valid()
      ensures var r := NavStep(old(history.entries), old(history.NavState()), keysym, Take(old(userInput), userentered));
              history.NavState() == r.0 &&
              userInput == if r.1.Some? then r.1.value else old(userInput)
      ensures history.entries == old(history.entries) && history.stored == old(history.stored)
    {
      var typed := Take(userInput, userentered);
      var line := history.HandleKeySym(keysym, typed);
      if line.Some? {
        userInput := line.value;
      }
    }

    /**
     * The keys other than Tab and the history keys: the completer is reset,
     * then a printable key is appended (moving the marker), BackSpace drops
     * the last character, Escape ends the session and Return ends it after
     * recording the line and calling back with it. Any other key only resets.
     */
    method EditKey(keysym: nat)
      requires Valid() && keysym != TAB && !IsHistoryKey(keysym)
      modifies this, completer, history
      ensures Valid()
      ensures completer == old(completer) && history == old(history)
      ensures prompt == old(prompt) && blink == old(blink) && text == old(text)
      ensures userInput ==
                if IsPrintable(keysym) then old(userInput) + [keysym as char]
                else if keysym == BACKSPACE && old(userInput) != [] then old(userInput)[..|old(userInput)| - 1]
                else old(userInput)
      ensures userentered == if IsPrintable(keysym) then |userInput| else old(userentered)
      ensures completer.State() == Cursor([], -1, old(completer.thisfinal))
      ensures history.NavState() == old(history.NavState())
      ensures history.entries == if keysym == RETURN then [old(userInput)] + old(history.entries) else old(history.entries)
      ensures history.stored ==
                if (keysym == ESCAPE || keysym == RETURN) && history.persistent then history.entries
                else old(history.stored)
      ensures active == if keysym == ESCAPE || keysym == RETURN then false else old(active)
      ensures delivered == if keysym == RETURN then old(delivered) + [old(userInput)] else old(delivered)
    {
      completer.Reset();
      if IsPrintable(keysym) {
        userInput := userInput + [keysym as char];
        userentered := |userInput|;
      } else if keysym == BACKSPACE && |userInput| > 0 {
        userInput := userInput[..|userInput| - 1];
      } else if keysym == ESCAPE {
        active := false;
        history.Cleanup();
      } else if keysym == RETURN {
        active := false;
        history.InsertNewest(userInput);
        history.Cleanup();
        delivered := delivered + [userInput];
      }
    }
  }
}

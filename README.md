# qtile prompt widget: a verified Dafny model

This project models the line-input core of qtile's prompt widget
(`libqtile/widget/prompt.py`). The widget reads one line of keyboard input
into a status bar. It has three parts:

- **Completers.** Tab steps through completions. `GroupCompleter` completes
  group names. `CommandCompleter` completes executables and paths.
  `NullCompleter` echoes what was typed. A cyclic completer builds its lookup
  list of `(display, actual)` tuples once: the sorted matches, then one
  sentinel tuple made of the typed text (lower-cased by the group
  completer). Each `complete` moves `offset` one
  step along that list and wraps to 0 past the end. It records the actual
  half in `thisfinal` and returns the display half. `reset()` drops the list.
- **History.** A list of committed lines, newest first. It has a cursor
  `current_pos` and the saved `original_line`. Up and Down step the cursor.
  Page_Up and Page_Down jump it to the ends. `handleKeySym` returns the line
  to show, or `None` when the key changes nothing.
- **Prompt.** A two-state machine (`active` false or true) over the buffer
  `userInput` and the marker `userentered`. Keys are handled in priority
  order. Tab goes to the completer. The history keys go to the history.
  Every other key resets the completer and then edits the buffer, cancels
  (Escape) or confirms (Return).

Modules, one per component:

- `Text`: Python string behaviour for 7-bit text. This covers `lower()`,
  `startswith`, clamped slicing and the code-point order of strings.
- `Candidates`: the tuple order, and `list.sort()` as a function proved
  sorted, a permutation of its input and unique.
- `Completion`: the completer state as a `Cursor` value with the pure step
  `Step`, and the `Completer` class whose methods are proved against it.
- `Paths`: how a path candidate is displayed. It stands alone: `Host.scan` is an unconstrained function, so no contract ties a command candidate's display half to `PathDisplay`.
- `Keysyms`: the X11 keysym numbers the prompt compares against.
- `HistoryLog`: the navigation step `NavStep`, runs of keys, and the
  `History` class.
- `PromptWidget`: the shown-text rule and the `Prompt` class.

The outside world is passed in as values:

- Key presses arrive as keysym numbers.
- The group registry and the filesystem scan arrive as a `Host` value: the
  group names, and a function from typed text to the candidates found.
- The history file arrives as the list it decodes to, and `cleanup()` is
  modelled as recording what it writes.
- The callback is modelled as the list of arguments it received
  (`delivered`).

## Model

| member | source | states |
|---|---|---|
| Text.LowerChar | libqtile/widget/prompt.py:36 | the result is never an upper-case ASCII letter; only 'A'..'Z' change, each to the matching lower-case letter |
| Text.Lower | libqtile/widget/prompt.py:36 | `txt.lower()` keeps the length and lower-cases each character |
| Text.LowerIdempotent | libqtile/widget/prompt.py:36-40 | lower-casing twice is lower-casing once |
| Text.Take | libqtile/widget/prompt.py:276 | `s[:n]` has length min(n, len(s)) and is a prefix of `s`; a marker past the end is clamped |
| Text.StartsWith | libqtile/widget/prompt.py:40 | `s.startswith(p)` holds exactly when `p` is no longer than `s` and agrees with it at every position |
| Text.StrLe | libqtile/widget/prompt.py:43 | Python's string `<=`: a prefix of `b` is below `b`, and a non-empty string is below `b` only if `b` is non-empty with a first character at least as large |
| Text.StrLeLexicographic | libqtile/widget/prompt.py:43 | `a <= b` exactly when `a` is a prefix of `b` or, at the first position where they differ, `a` has the smaller character |
| Text.StrLeTotal | libqtile/widget/prompt.py:43 | any two strings are comparable in Python's string order |
| Text.StrLeTransitive | libqtile/widget/prompt.py:43 | Python's string order is transitive |
| Text.StrLeAntisymmetric | libqtile/widget/prompt.py:43 | strings that are `<=` each other are equal |
| Candidates.CandLe | libqtile/widget/prompt.py:116 | tuple `<=` never puts a tuple above one with a greater display half, and a strictly smaller display half decides it whatever the actual halves are |
| Candidates.CandLeTotal | libqtile/widget/prompt.py:116 | any two `(display, actual)` tuples are comparable |
| Candidates.CandLeTransitive | libqtile/widget/prompt.py:116 | tuple order is transitive |
| Candidates.CandLeAntisymmetric | libqtile/widget/prompt.py:116 | tuples that are `<=` each other are equal |
| Candidates.Insert | libqtile/widget/prompt.py:43 | inserting into a sorted list gives a sorted list with exactly one more copy of the element |
| Candidates.Sort | libqtile/widget/prompt.py:116 | `lookup.sort()` gives a sorted permutation of the list |
| Candidates.SortedUnique | libqtile/widget/prompt.py:116 | two sorted lists with the same elements are equal |
| Candidates.SortIgnoresOrder | libqtile/widget/prompt.py:116 | the sorted result does not depend on the order the matches were found in |
| Completion.NullComplete | libqtile/widget/prompt.py:13-14 | `NullCompleter.complete` returns its text unchanged |
| Completion.Build | libqtile/widget/prompt.py:43-45 | a new lookup is the matches in sorted order followed by exactly one sentinel `(txt, txt)`, so it is never empty |
| Completion.Advance | libqtile/widget/prompt.py:47-49 | the new offset is `(offset + 1) mod len(lookup)` and lies in `[0, len(lookup))` |
| Completion.Step | libqtile/widget/prompt.py:37-52 | one `complete`: builds the lookup only when none is cached; the offset stays in bounds; `thisfinal` is the actual half of the returned tuple; the display half is returned |
| Completion.CachedStepIgnoresText | libqtile/widget/prompt.py:37 | while a lookup is cached, the text passed to `complete` makes no difference |
| Completion.Steps | libqtile/widget/prompt.py:119-124 | k calls return k displays and leave a valid cursor, whose list is non-empty after at least one call |
| Completion.StepsOffset | libqtile/widget/prompt.py:37-51 | from no cached lookup, after k > 0 calls the lookup is the built list, `offset` is `(k - 1) mod len(lookup)` and `thisfinal` is the actual half at that offset |
| Completion.CachedStepOffset | libqtile/widget/prompt.py:47-51 | on a cached lookup, an offset of `j mod len` becomes `(j + 1) mod len` and the list is kept |
| Completion.StepsPrefix | libqtile/widget/prompt.py:119-124 | later calls never change what earlier calls returned: the i-th display of a longer run is that of the run of i + 1 calls |
| Completion.StepsCycle | libqtile/widget/prompt.py:116-124 | from no cached lookup, the i-th call returns `lookup[i mod len(lookup)]`, and afterwards `offset` and `thisfinal` point at the last one returned |
| Completion.CycleCloses | libqtile/widget/prompt.py:116-124 | with N matches, call N+2 shows the same display as call 1: the first sorted match, or, when nothing matched, the typed text (lower-cased by the group completer) |
| Completion.GroupMatches | libqtile/widget/prompt.py:38-41 | a tuple is a match exactly when it is `(name, name)` for a registry name whose lower-case form starts with the lower-cased text |
| Completion.GroupMatchesCount | libqtile/widget/prompt.py:39-41 | each matching name contributes its tuple as often as it occurs in the registry; other tuples never appear |
| Completion.GroupLookup | libqtile/widget/prompt.py:36-45 | the group lookup has one entry per match plus the sentinel, and the sentinel is the lower-cased text |
| Completion.GroupLookupIgnoresOrder | libqtile/widget/prompt.py:39-43 | the lookup does not depend on the order `groupMap.keys()` yields the names in |
| Completion.GroupLookupIgnoresCase | libqtile/widget/prompt.py:36 | "GR" and "gr" build the same lookup |
| Completion.CompleteResult | libqtile/widget/prompt.py:32-124 | the no-op completer returns the text and keeps no state; a cyclic completer returns the display half of the tuple at the new offset and records its actual half; with a cached list it keeps the list and advances the offset by one modulo its length; without one it starts at offset 0 of the group list for the lower-cased text, or of the sorted scan result followed by `(txt, txt)` |
| Completion.Completer.constructor | libqtile/widget/prompt.py:17-20 | a new completer has no lookup and `thisfinal` is `None` |
| Completion.Completer.Actual | libqtile/widget/prompt.py:22-26 | `actual()` is `None` for the no-op completer and `thisfinal` for the others |
| Completion.Completer.Cycle | libqtile/widget/prompt.py:119-124 | one step along the lookup: keeps the list, wraps the offset, records and returns the chosen tuple's halves |
| Completion.Completer.Reset | libqtile/widget/prompt.py:74-76 | `reset()` empties the lookup and sets `offset` to -1; `thisfinal` is kept |
| Completion.Completer.CompleteGroup | libqtile/widget/prompt.py:32-52 | `GroupCompleter.complete`: the appending loop gathers exactly the matches; the new state and the result are one `Step` |
| Completion.Completer.CompleteCommand | libqtile/widget/prompt.py:78-124 | `CommandCompleter.complete` over the scan result: the new state and the result are one `Step` with the raw text as sentinel |
| Completion.Completer.Complete | libqtile/widget/prompt.py:277 | dispatches by kind; the new state and the result are `CompleteResult` of the old state |
| Paths.StripSlashes | libqtile/widget/prompt.py:94 | `rstrip("/")` removes exactly the trailing run of '/' |
| Paths.DisplayPrefix | libqtile/widget/prompt.py:94 | the prefix is never empty; it ends in '/' only when it is "/"; otherwise it is a prefix of the typed text |
| Paths.Basename | libqtile/widget/prompt.py:97 | the base name has no '/' and is what follows the last '/' of the path |
| Paths.Join | libqtile/widget/prompt.py:97 | `os.path.join(a, b)` ends with `b`; an absolute `b` replaces `a`; otherwise the result starts with `a`, adds at most one character, and a non-empty `a` is followed by a '/' |
| Paths.PathDisplay | libqtile/widget/prompt.py:97-99 | one '/' separates the shown prefix from the base name; a '/' is appended exactly for directories |
| HistoryLog.Capture | libqtile/widget/prompt.py:134-135 | `original_line` is set by the first call and never overwritten |
| Keysyms.IsHistoryKey | libqtile/widget/prompt.py:130-131 | the history keys (Up, Down, Page_Up, Page_Down) are none of the 7-bit characters and none of Tab, BackSpace, Escape and Return |
| Keysyms.IsPrintable | libqtile/widget/prompt.py:285 | `keysym < 127 and chr(keysym) in string.printable`: exactly the space, digits, letters, punctuation and the five other whitespace characters below 127; none of them is Tab, BackSpace, Escape, Return or a history key |
| HistoryLog.LineAt | libqtile/widget/prompt.py:155-158 | a cursor k > 0 shows `self[k-1]` |
| HistoryLog.NavStep | libqtile/widget/prompt.py:133-158 | keeps `0 <= current_pos <= len`; returns `None` exactly on an empty history, Up at `len` or Down at 0, without moving the cursor; Up and Down step by one; Page_Up goes to `len` and Page_Down to 0; otherwise returns `original_line` at 0 and `self[pos-1]` elsewhere |
| HistoryLog.NavRun | libqtile/widget/prompt.py:133-158 | a run of keys keeps the cursor in bounds, gives one result per key, and captures the saved line on its first key |
| HistoryLog.NavRunAppend | libqtile/widget/prompt.py:133-158 | running two key sequences one after the other is running their concatenation |
| HistoryLog.UpRun | libqtile/widget/prompt.py:140-144 | k Ups from cursor p (with p+k <= len) end at p+k and show the entries p..p+k-1 in turn |
| HistoryLog.DownRun | libqtile/widget/prompt.py:145-149 | k Downs from cursor p >= k end at p-k, showing the entries back towards the saved line |
| HistoryLog.UpsThenDownsRestore | libqtile/widget/prompt.py:133-158 | from cursor 0, k Ups (1 <= k <= len) show the k newest entries in order; k Downs from where they end return to cursor 0, the last of them showing the line that was being edited when navigation started |
| HistoryLog.PageUpThenDownRestores | libqtile/widget/prompt.py:150-153 | Page_Up shows the oldest entry, then Page_Down brings back the saved line at cursor 0 |
| HistoryLog.History.Transient | libqtile/widget/prompt.py:164-166 | a transient history starts empty at cursor 0 with no saved line |
| HistoryLog.History.Persistent | libqtile/widget/prompt.py:169-189 | a persistent history starts with the loaded list at cursor 0 with no saved line |
| HistoryLog.History.HandleKeySym | libqtile/widget/prompt.py:133-158 | `handleKeySym` changes only the cursor and saved line, exactly as `NavStep` says |
| HistoryLog.History.InsertNewest | libqtile/widget/prompt.py:297 | `insert(0, line)` puts the line first and leaves the cursor and saved line alone |
| HistoryLog.History.Cleanup | libqtile/widget/prompt.py:191-196 | a persistent history writes out its whole list; a transient one writes nothing |
| PromptWidget.DisplayText | libqtile/widget/prompt.py:258-266 | active: prompt, then input, then '_' when blinking and ' ' otherwise; inactive: empty |
| PromptWidget.DisplayTextInjective | libqtile/widget/prompt.py:258-266 | for one prompt, the shown text determines the input and the blink flag |
| PromptWidget.Prompt.constructor | libqtile/widget/prompt.py:222-229 | a new prompt is inactive with `userentered` 0 and no completer or history |
| PromptWidget.Prompt.Update | libqtile/widget/prompt.py:258-267 | `_update` sets the text to `DisplayText` of the current state |
| PromptWidget.Prompt.StartInput | libqtile/widget/prompt.py:236-251 | activates with an empty buffer and a fresh completer for the mode; the history is persistent for "cmd" and transient otherwise; `userentered` is kept |
| PromptWidget.Prompt.Blink | libqtile/widget/prompt.py:253-256 | the timer flips only the blink flag and the shown text |
| PromptWidget.Prompt.HandleKeyPress | libqtile/widget/prompt.py:269-301 | Tab completes `userInput[:userentered]`; history keys navigate from it and keep the buffer on `None`; neither changes `userentered`. Any other key resets the completer. A printable key below 127 appends one character and sets `userentered` to the new length. Backspace drops the last character of a non-empty buffer. Escape deactivates and writes the history. Return deactivates, puts the buffer first in the history, writes it, and calls back once with the buffer. Nothing else calls back. |
| PromptWidget.Prompt.TabKey | libqtile/widget/prompt.py:275-277 | Tab replaces the buffer by the completer's answer for `userInput[:userentered]`, and the completer's new state is that of the same `CompleteResult` |
| PromptWidget.Prompt.NavKey | libqtile/widget/prompt.py:278-282 | a history key navigates from `userInput[:userentered]` exactly as `NavStep` says; the buffer takes the line shown, or is kept on `None`; the list and the file are unchanged |
| PromptWidget.Prompt.EditKey | libqtile/widget/prompt.py:283-301 | a key other than Tab and the history keys resets the completer; a printable key appends and moves the marker; Backspace drops the last character of a non-empty buffer; Escape deactivates and writes the history; Return deactivates, records the buffer as the newest entry, writes the history and calls back once with it; the cursor and saved line of the history are kept |

## Left out

- The filesystem scan of `CommandCompleter.complete` (lines 71-72, 83-115) is not modelled: `expanduser`, `glob`, `os.access`, `isdir`, the `PATH` split with its default, and the skipped `OSError`. The scan result for the typed text arrives as `Host.scan`. Only the display rule of the path branch (lines 94-99) is modelled, in `Paths`. The choice of `prefix` at lines 88-93 is not modelled: the typed text when it names a directory, otherwise its `os.path.dirname`. `Paths.PathDisplay` takes that prefix as an argument. The found file's path arrives as a string, and the directory test arrives as a flag.
- The `_testing` switch of `CommandCompleter` (lines 57-63, 83) is left out. It is a test hook that skips the scan.
- Completion.Completer.Reset: the source's `NullCompleter` has no `reset` method, so `handle_KeyPress` would raise `AttributeError` at line 284 for any non-Tab, non-history key. The model gives the no-op completer a `reset` that leaves it unchanged. This is a deviation from the source.
- PromptWidget.Prompt.StartInput: for mode `None`, the source calls `NullCompleter(self.qtile)` at line 248, but that class takes no constructor argument. The call raises `TypeError` after `active`, `prompt`, `userInput` and `callback` are set, and before the completer, the history, `_update` and the keyboard grab. The model builds a no-op completer and a transient history instead. This is a deviation from the source.
- Completion.Completer.Actual: `NullCompleter.actual` takes an extra `qtile` argument (line 10). Nothing in the core calls it. The model takes no argument and returns `None`.
- Completion.Completer.constructor: the source sets `offset` to `None`; the model uses -1. The value is never read before a build sets it to -1.
- HistoryLog.History.Persistent: the XDG data directory lookup, the directory creation and `pickle.load` (lines 173-189) are I/O. They are replaced by the `loaded` argument. Three source behaviours follow from this and are not modelled. A corrupt file makes `pickle.load` raise. A plain file at `<data dir>/qtile`, where the history directory should be, leaves `filename` unset, so `cleanup` would raise `AttributeError`. A pickled list may hold non-strings.
- HistoryLog.History.Cleanup: the write can fail with `IOError`, which the source swallows (lines 195-196). The model always records the write.
- The history's saved line is captured once per `History` object and never cleared (lines 134-135). It lasts until `startInput` makes a new `History`.
- Strings are modelled as sequences of characters, but Python 2's `str` is a byte string. Non-ASCII text can reach the buffer through a group name, a file name or a history entry. For such text the source's `len`, `userInput[:userentered]` (lines 276, 279) and Backspace's `[:-1]` (line 290) count bytes, while the model counts characters. For example, after Tab completes to "café" in UTF-8, Backspace leaves the lone byte `\xc3` at the end in the source but "caf" in the model. For 7-bit text the two agree.
- Text.Lower: models `lower()` on ASCII only. For bytes above 127, Python 2's `str.lower` depends on the C locale.
- The host and X glue are left out: `bar.draw`, `widget_grab_keyboard` and `widget_ungrab_keyboard`, `timeout_add` scheduling, `_configure`, `keycode_to_keysym` and the keysym tables, `cmd_fake_keypress`, `cmd_info`, the widget defaults, and the debug `print`s. Keysyms arrive as numbers with the X11 values. The keyboard grab is what stops keys from arriving after Escape or Return. The model does not capture that: another Return would call back again, as the source would.
- The callback's own effects are not modelled. The prompt records each argument it is given in `delivered`.

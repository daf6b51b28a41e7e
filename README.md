# vscode-manim: a verified model of the scene runner and checkpoint paste

This project models the two commands of the vscode-manim extension that hold
real logic. Both live in `src/extension.ts`.

- **Run scene** (`vscode-manim.runScene`). It does the following:
  - Checks that the active file is a `.py` file.
  - Splits the file's text into lines.
  - Keeps the lines that match `^class (.+?)\((.+?)\):`, together with their zero-based indices.
  - Picks the last such header at or above the cursor row and cuts the scene name out of it.
  - Builds `manimgl <path> <Name>`, adding `-se <row+1>` when the cursor is not on the header line itself.
  - Sends that command to the terminal and copies it, followed by ` --prerun --finder -w`, to the clipboard.
- **Checkpoint paste** (`vscode-manim.checkpointPaste`). It does the following:
  - Refuses to run while a previous invocation is still busy.
  - Resolves the selection to whole lines.
  - Saves the clipboard, puts the selected lines on it, sends a form feed immediately followed by `checkpoint_paste()` to the terminal, and puts the saved clipboard back.
  - Releases its busy flag in a `finally` block.

The project is laid out in four files:

- `options.dfy` holds the `Option` type.
- `js_builtins.dfy` holds the JavaScript string and array operations the handlers use. They are:
  - `split("\n")`, `join`, `indexOf` and `slice` (with its index clamping).
  - `endsWith` and number-to-decimal conversion.
  - `reverse`, both as a function and as an in-place array method.
- `scene_runner.dfy` models run scene. `SceneLaunch` states the whole handler as one function of the editor it finds. The method `RunScene` follows the handler statement by statement, and its `ensures` proves it computes exactly `SceneLaunch`. In that method the class list is an array reversed in place, `find` is a loop, and `cmds` grows by a push. The class-header regular expression is an explicit predicate, `IsClassHeader`. It treats the JavaScript line terminators `\n`, `\r`, U+2028 and U+2029 as the characters `.` does not match.
- `checkpoint_paste.dfy` models checkpoint paste. It has two forms:
  - `Paste` is a pure transition over the state `(isExecuting, clipboard, terminal)`.
  - The class `Host` holds those three fields. Its method `CheckpointPaste` updates them step by step, with a labelled block standing for the `try` and the reset of `isExecuting` after it standing for the `finally`. It is proved to make exactly the transition `Paste` states.
  - Exceptions are an input: `fault` names the host call that throws, and a call that throws has no effect.

Two modelling assumptions are fixed:

- A document is a sequence of lines, and the text of a line range is those lines joined with `"\n"`.
- The editor's selection lies inside the document, with its start line not after its end line (`SelectionInDocument`).

Two behaviours of the code are worth stating outright:

- **The line flag.** The code adds the line flag whenever the cursor row differs from the header's index (`src/extension.ts:89-92`). Take the two-scene document with the lines `class A(Scene):`, `  x=1`, `class B(Scene):` and `  y=2`:
  - With the cursor on line 3, below header `B`, the command is `manimgl <path> B -se 4` and `enter` is set (`SceneRunner.ExampleBelowHeader`).
  - With the cursor on line 2, the header itself, the command is `manimgl <path> B` with no line flag (`SceneRunner.ExampleOnHeader`).
- **Clipboard restore after an exception.** The clipboard is restored inside the `try` block (`src/extension.ts:181`), not in the `finally` block (`src/extension.ts:185-187`). A failure after the write at line 168 therefore leaves the selection on the clipboard (`CheckpointPaste.LateFailureKeepsSelection`).

## Model

| member | source | states |
|---|---|---|
| JsBuiltins.Split | src/extension.ts:66 | splitting on `"\n"` gives at least one piece, no piece holds `"\n"`, and joining the pieces with `"\n"` gives the text back |
| JsBuiltins.SplitJoin | src/extension.ts:66 | splitting lines joined with `"\n"` gives back exactly those lines, when none of them holds `"\n"` |
| JsBuiltins.IndexOf | src/extension.ts:84 | `indexOf` is -1 exactly when the character is absent; otherwise it is a position holding the character with none before it |
| JsBuiltins.Slice | src/extension.ts:84 | for in-range bounds `slice` is the substring between them, and it is never longer than the string |
| JsBuiltins.NatToDecimal | src/extension.ts:90 | the decimal spelling of `row + 1` is a non-empty run of digits with no leading zero whose value is the number |
| JsBuiltins.Reversed | src/extension.ts:78 | the reversal has the same length and holds at position k the element at position n-1-k |
| JsBuiltins.Reverse | src/extension.ts:78 | `reverse()` leaves the array holding the reversal of its old contents |
| SceneRunner.ClassLines | src/extension.ts:69-71 | every entry kept by the map and filter is a class header of the document at its own zero-based index |
| SceneRunner.ClassLinesIncreasing | src/extension.ts:69-71 | the kept entries are in document order: their indices strictly increase |
| SceneRunner.ClassLinesComplete | src/extension.ts:69-71 | every header line of the document is kept, with its index |
| SceneRunner.FindAtOrAboveIsFirst | src/extension.ts:79 | `find` gives nothing exactly when every entry lies below the cursor, and otherwise the first entry at or above it |
| SceneRunner.FindInReversed | src/extension.ts:77-79 | finding the first match in the reversed list is the same as taking the last match of the list |
| SceneRunner.LastHeaderIsNearest | src/extension.ts:69-79 | the last kept header at or above the cursor is the nearest header at or above it, and there is none exactly when no header lies at or above the cursor |
| SceneRunner.NearestHeaderAtOrAbove | src/extension.ts:77-83 | the matching class is the header with the greatest index not after the cursor row, and it is missing exactly when no line at or above the cursor is a header |
| SceneRunner.NearestHeaderIsUnique | src/extension.ts:77-79 | at most one line is the nearest header at or above a row |
| SceneRunner.FirstParenOfHeader | src/extension.ts:84 | on a header the first `(` lies at position 6 or later, with no line terminator before it |
| SceneRunner.SceneNameOfHeader | src/extension.ts:84 | on a header the scene name is exactly the text from position 6 up to the first `(`; it holds no `(` and no line terminator |
| SceneRunner.DeclaredSceneName | src/extension.ts:71-84 | `class Name(Base):...` with a non-empty name and a non-empty base is a header whose scene name is `Name`, whatever the base and the rest of the line |
| SceneRunner.ParenthesisedNameIsEmpty | src/extension.ts:84 | `class ((X)):` is a header and its scene name is empty |
| SceneRunner.TrailingCarriageReturn | src/extension.ts:66-71 | for any header line, the same line with a `\r` left at its end by the split is still a header, with the same scene name |
| SceneRunner.EmptyBaseIsNotHeader | src/extension.ts:71 | `class Foo():` is not a header, because the base group needs a character |
| SceneRunner.IndentedIsNotHeader | src/extension.ts:71 | a line starting with a space is never a header, because the pattern is anchored |
| SceneRunner.SceneLaunchRejections | src/extension.ts:50-83 | the handler stops without an editor; on a file not ending in `.py`, exactly then and before any search; and on a `.py` file exactly when no header lies at or above the cursor |
| SceneRunner.SceneLaunchCommand | src/extension.ts:84-101 | given the nearest header, the terminal gets `manimgl <path> <Name>` plus ` -se <row+1>` exactly when the cursor is off the header, `enter` is set exactly then, and the clipboard gets the command plus ` --prerun --finder -w` |
| SceneRunner.LaunchAtNearestHeader | src/extension.ts:77-97 | on a `.py` file the launch is built from the nearest header at or above the cursor |
| SceneRunner.SpelledCommand | src/extension.ts:87-93 | the joined tokens are `manimgl <path> <Name>` on the header line and that text followed by ` -se <row+1>` elsewhere |
| SceneRunner.ClipboardExtendsCommand | src/extension.ts:97-101 | every launch puts on the clipboard the terminal command followed by ` --prerun --finder -w` |
| SceneRunner.ExampleNearestHeader | src/extension.ts:66-84 | in the two-scene document, line 2 is the nearest header to rows 2 and 3 and its scene name is `B` |
| SceneRunner.ExampleOnHeader | src/extension.ts:87-97 | with the cursor on header `B` the command is `manimgl <path> B`, without a line flag, and `enter` is false |
| SceneRunner.ExampleBelowHeader | src/extension.ts:87-97 | with the cursor on line 3 below header `B` the command is `manimgl <path> B -se 4` and `enter` is true |
| SceneRunner.Find | src/extension.ts:79 | the search loop returns exactly the first entry at or above the cursor |
| SceneRunner.FindMatchingClass | src/extension.ts:69-79 | building, reversing in place and searching the class list gives exactly the matching class |
| SceneRunner.RunScene | src/extension.ts:48-101 | the handler, step by step, produces exactly the outcome `SceneLaunch` states |
| CheckpointPaste.SelectedLines | src/extension.ts:146-157 | the selected lines are the lines from the start line to the end line, both included |
| CheckpointPaste.SelectedTextIsWholeLines | src/extension.ts:146-157 | for a cursor and for a selection alike, the text is the selected lines in full, joined by line breaks |
| CheckpointPaste.SelectedTextSplitsIntoLines | src/extension.ts:146-157 | splitting the selected text at line breaks gives back exactly the selected lines |
| CheckpointPaste.SelectionWidensToWholeLines | src/extension.ts:151-156 | a selection from line 2 to line 4, at any columns, yields lines 2, 3 and 4 in full |
| CheckpointPaste.SelectedTextEmpty | src/extension.ts:146-162 | the selected text is empty exactly when one line is selected and that line is empty |
| CheckpointPaste.NoTextSelectedExactly | src/extension.ts:159-162 | an invocation stops with "No text selected" exactly when one line is selected and it is empty |
| CheckpointPaste.PasteWhileRunning | src/extension.ts:132-135 | while the flag is set, the command shows a notice and changes nothing |
| CheckpointPaste.PasteReleasesGuard | src/extension.ts:137-187 | every exit past the guard leaves the flag released and is not the busy notice |
| CheckpointPaste.EarlyExitTouchesNothing | src/extension.ts:140-168 | an exit before the selection reaches the clipboard leaves clipboard and terminal untouched |
| CheckpointPaste.PastedExactly | src/extension.ts:132-181 | an invocation succeeds exactly when it is not blocked, an editor is open, the text is not empty and no host call throws; then the clipboard is as before and the terminal has received the command once more |
| CheckpointPaste.LateFailureKeepsSelection | src/extension.ts:168-187 | a failure after the selection was written only resets the flag: the clipboard keeps the selection, and the command was sent exactly when the restore is what failed |
| CheckpointPaste.ClipboardEndsOldOrSelected | src/extension.ts:165-181 | the clipboard always ends either as it was or holding the selected text |
| CheckpointPaste.SequentialNeverBusy | src/extension.ts:130-187 | invocations one after another never find the command busy, and the flag is released after the last |
| CheckpointPaste.FaultFreeKeepsClipboard | src/extension.ts:130-187 | with no host call throwing, invocations one after another leave the clipboard as it was, and the terminal receives one command per success |
| CheckpointPaste.Host.constructor | src/extension.ts:130 | the flag starts released and nothing has been sent to the terminal |
| CheckpointPaste.Host.CheckpointPaste | src/extension.ts:131-188 | the handler, updating the flag, the clipboard and the terminal in place, makes exactly the transition `Paste` states |

## Left out

- The greeter command, `activate`/`deactivate`, command registration and subscriptions: host glue with no logic.
- The unawaited file save before run scene (line 57): a host call with no effect on the result.
- Creating and showing the terminal, and the `osascript` focus call with its 2.5 s delay (lines 100, 104-112): host and OS side effects. The model keeps only the `enter` flag that selects between them.
- The 500 ms wait before restoring the clipboard (line 180): timing only.
- Failures of the clipboard write in run scene (line 97): that handler has no `catch`, so the model treats its host calls as succeeding.
- Interleavings of concurrent invocations: the model covers sequential invocations only. A state with `isExecuting` set stands for another invocation in flight.
- VS Code's clamping of ranges to the document and the `Number.MAX_SAFE_INTEGER` column: the selection is assumed to lie in the document, and a line range's text is its lines joined with `"\n"`.
- Error and information messages are modelled as outcome values, not as UI calls. Console logging and commented-out debug code are omitted.
- JavaScript numbers: the row is an unbounded natural number, so rows beyond 2^53 are not modelled.
- Strings are sequences of Dafny characters. UTF-16 surrogate pairs are not modelled; they do not affect the characters the handlers look for.

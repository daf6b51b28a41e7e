// The `vscode-manim.checkpointPaste` command: resolve the editor's selection
// to whole lines, put them on the clipboard, send `checkpoint_paste()` to the
// terminal and put the saved clipboard back, all behind a busy flag.
module CheckpointPaste {
  import opened Options
  import opened JsBuiltins

  /** A cursor position: zero-based line and column. */
  datatype Position = Position(line: nat, character: nat)

  /** An editor selection; `start` never lies after `end`. */
  datatype Selection = Selection(start: Position, end: Position)
  {
    /** A selection is empty when it is a bare cursor. */
    predicate IsEmpty()
    {
      start == end
    }
  }

  /** The active editor: its document as a sequence of lines, and its selection. */
  datatype PasteEditor = PasteEditor(lines: seq<string>, selection: Selection)

  /**
   * The host's editor only hands out selections inside its document, with the
   * start line not after the end line.
   */
  predicate SelectionInDocument(e: PasteEditor)
  {
    e.selection.start.line <= e.selection.end.line < |e.lines|
  }

  /** Lines of a document never contain the line separator. */
  predicate LinesAreSplit(lines: seq<string>)
  {
    forall i | 0 <= i < |lines| :: '\n' !in lines[i]
  }

  /** The host calls of the handler that may throw. */
  datatype HostCall = ReadClipboard | WriteSelection | SendCommand | RestoreClipboard

  /** How one invocation ends, with the message it shows. */
  datatype PasteOutcome =
    | AlreadyRunning         // "Please wait until the current command finishes executing."
    | NoActiveEditor         // "Editor not found"
    | NoTextSelected         // "No text selected in the editor"
    | Pasted
    | Failed(at: HostCall)   // the catch block: "Error: ..."

  /** The state one invocation reads and writes: the busy flag, the clipboard and what the terminal received. */
  datatype HostState = HostState(isExecuting: bool, clipboard: string, terminal: seq<string>)

  /** What the terminal receives: a form feed (to clear the view) immediately followed by the call. */
  const CheckpointCommand: string := "\U{C}checkpoint_paste()"

  /** The selected lines: a cursor takes its own line, a selection is widened to whole lines. */
  function SelectedText(e: PasteEditor): string
    requires SelectionInDocument(e)
  {
    if e.selection.IsEmpty() then e.lines[e.selection.start.line]
    else Join(e.lines[e.selection.start.line..e.selection.end.line + 1], "\n")
  }

  /** The lines from the start line to the end line of the selection, both included. */
  function SelectedLines(e: PasteEditor): (r: seq<string>)
    requires SelectionInDocument(e)
    ensures |r| == e.selection.end.line - e.selection.start.line + 1
    ensures forall k | 0 <= k < |r| :: r[k] == e.lines[e.selection.start.line + k]
  {
    e.lines[e.selection.start.line..e.selection.end.line + 1]
  }

  /**
   * The part of one invocation between `isExecuting = true` and the `finally`
   * block, starting from state `s`. `fault` names the host call that throws, if
   * any; a call that throws has no effect.
   */
  function Attempt(s: HostState, editor: Option<PasteEditor>, fault: Option<HostCall>): (HostState, PasteOutcome)
    requires editor.Some? ==> SelectionInDocument(editor.value)
  {
    match editor
    case None => (s, NoActiveEditor)
    case Some(e) =>
      var text := SelectedText(e);
      if text == "" then (s, NoTextSelected)
      else if fault == Some(ReadClipboard) then (s, Failed(ReadClipboard))
      else
        var saved := s.clipboard;
        if fault == Some(WriteSelection) then (s, Failed(WriteSelection))
        else
          var copied := s.(clipboard := text);
          if fault == Some(SendCommand) then (copied, Failed(SendCommand))
          else
            var sent := copied.(terminal := copied.terminal + [CheckpointCommand]);
            if fault == Some(RestoreClipboard) then (sent, Failed(RestoreClipboard))
            else (sent.(clipboard := saved), Pasted)
  }

  /** One invocation of the command from state `s`: the guard, the attempt, and the `finally` block. */
  function Paste(s: HostState, editor: Option<PasteEditor>, fault: Option<HostCall>): (HostState, PasteOutcome)
    requires editor.Some? ==> SelectionInDocument(editor.value)
  {
    if s.isExecuting then (s, AlreadyRunning)
    else
      var (after, outcome) := Attempt(s.(isExecuting := true), editor, fault);
      (after.(isExecuting := false), outcome)
  }

  // ---------------------------------------------------------------------------
  // Selection resolution

  /** Whatever the selection, the text is its lines, whole, joined by line breaks. */
  lemma SelectedTextIsWholeLines(e: PasteEditor)
    requires SelectionInDocument(e)
    ensures SelectedText(e) == Join(SelectedLines(e), "\n")
  {
    if e.selection.IsEmpty() {
      assert SelectedLines(e) == [e.lines[e.selection.start.line]];
    }
  }

  /** Splitting the selected text at line breaks gives back exactly the selected lines. */
  lemma SelectedTextSplitsIntoLines(e: PasteEditor)
    requires SelectionInDocument(e)
    requires LinesAreSplit(e.lines)
    ensures Split(SelectedText(e)) == SelectedLines(e)
  {
    SelectedTextIsWholeLines(e);
    SplitJoin(SelectedLines(e));
  }

  /** A joined text of several parts holds the separator, so it is never empty. */
  lemma {:induction false} JoinOfSeveralIsNotEmpty(parts: seq<string>, sep: string)
    requires |parts| >= 2
    requires sep != ""
    ensures Join(parts, sep) != ""
  {
    assert Join(parts, sep) == parts[0] + sep + Join(parts[1..], sep);
    assert |Join(parts, sep)| >= |sep|;
  }

  /** The selected text is empty exactly when one line is selected and that line is empty. */
  lemma SelectedTextEmpty(e: PasteEditor)
    requires SelectionInDocument(e)
    ensures SelectedText(e) == "" <==>
      e.selection.start.line == e.selection.end.line && e.lines[e.selection.start.line] == ""
  {
    SelectedTextIsWholeLines(e);
    var lines := SelectedLines(e);
    if |lines| >= 2 {
      JoinOfSeveralIsNotEmpty(lines, "\n");
    } else {
      assert lines == [e.lines[e.selection.start.line]];
    }
  }

  /** A selection from line 2 to line 4, at any columns, yields lines 2, 3 and 4 in full. */
  lemma SelectionWidensToWholeLines(lines: seq<string>, startColumn: nat, endColumn: nat)
    requires |lines| >= 5
    ensures SelectedText(PasteEditor(lines, Selection(Position(2, startColumn), Position(4, endColumn))))
      == lines[2] + "\n" + lines[3] + "\n" + lines[4]
  {
    var e := PasteEditor(lines, Selection(Position(2, startColumn), Position(4, endColumn)));
    assert SelectedLines(e) == [lines[2], lines[3], lines[4]];
    JoinThree(lines[2], lines[3], lines[4], "\n");
  }

  // ---------------------------------------------------------------------------
  // Exit paths of one invocation

  /** While another invocation runs, the command shows a notice and changes nothing. */
  lemma PasteWhileRunning(s: HostState, editor: Option<PasteEditor>, fault: Option<HostCall>)
    requires editor.Some? ==> SelectionInDocument(editor.value)
    requires s.isExecuting
    ensures Paste(s, editor, fault) == (s, AlreadyRunning)
  {
  }

  /** Every exit of an invocation that got past the guard leaves the busy flag released. */
  lemma PasteReleasesGuard(s: HostState, editor: Option<PasteEditor>, fault: Option<HostCall>)
    requires editor.Some? ==> SelectionInDocument(editor.value)
    requires !s.isExecuting
    ensures !Paste(s, editor, fault).0.isExecuting
    ensures Paste(s, editor, fault).1 != AlreadyRunning
  {
  }

  /**
   * An invocation that stops before the clipboard is overwritten (no editor,
   * nothing selected, or a failure reading the clipboard or writing the
   * selection) leaves clipboard and terminal untouched.
   */
  lemma EarlyExitTouchesNothing(s: HostState, editor: Option<PasteEditor>, fault: Option<HostCall>)
    requires editor.Some? ==> SelectionInDocument(editor.value)
    ensures var (t, outcome) := Paste(s, editor, fault);
      outcome in {AlreadyRunning, NoActiveEditor, NoTextSelected, Failed(ReadClipboard), Failed(WriteSelection)} ==>
        t.clipboard == s.clipboard && t.terminal == s.terminal
  {
  }

  /** Nothing selected: the invocation ends with "No text selected" exactly when the selected text is empty. */
  lemma NoTextSelectedExactly(s: HostState, e: PasteEditor, fault: Option<HostCall>)
    requires SelectionInDocument(e)
    requires !s.isExecuting
    ensures Paste(s, Some(e), fault).1 == NoTextSelected <==>
      e.selection.start.line == e.selection.end.line && e.lines[e.selection.start.line] == ""
  {
    SelectedTextEmpty(e);
  }

  /**
   * An invocation succeeds exactly when it is not blocked, an editor is open,
   * the selected text is not empty and no host call throws; then the clipboard
   * is back to what it was and the terminal has received the command once.
   */
  lemma PastedExactly(s: HostState, editor: Option<PasteEditor>, fault: Option<HostCall>)
    requires editor.Some? ==> SelectionInDocument(editor.value)
    ensures var (t, outcome) := Paste(s, editor, fault);
      (outcome == Pasted <==> !s.isExecuting && editor.Some? && SelectedText(editor.value) != "" && fault == None) &&
      (outcome == Pasted ==> t == HostState(false, s.clipboard, s.terminal + [CheckpointCommand]))
  {
    match fault {
      case None =>
      case Some(ReadClipboard) =>
      case Some(WriteSelection) =>
      case Some(SendCommand) =>
      case Some(RestoreClipboard) =>
    }
  }

  /**
   * A failure after the selection was written to the clipboard only resets the
   * busy flag: the clipboard keeps the selected text, and the command was sent
   * exactly when the failure is in restoring the clipboard.
   */
  lemma LateFailureKeepsSelection(s: HostState, e: PasteEditor, call: HostCall)
    requires SelectionInDocument(e)
    requires !s.isExecuting
    requires SelectedText(e) != ""
    requires call == SendCommand || call == RestoreClipboard
    ensures Paste(s, Some(e), Some(call)) == (
      HostState(false, SelectedText(e), if call == SendCommand then s.terminal else s.terminal + [CheckpointCommand]),
      Failed(call))
  {
  }

  /** Whatever happens, the clipboard ends either as it was or holding the selected text. */
  lemma ClipboardEndsOldOrSelected(s: HostState, editor: Option<PasteEditor>, fault: Option<HostCall>)
    requires editor.Some? ==> SelectionInDocument(editor.value)
    ensures var t := Paste(s, editor, fault).0;
      t.clipboard == s.clipboard || (editor.Some? && t.clipboard == SelectedText(editor.value))
  {
  }

  // ---------------------------------------------------------------------------
  // Invocations one after another

  /** One invocation's inputs: the active editor (if any) and the host call that throws (if any). */
  datatype Invocation = Invocation(editor: Option<PasteEditor>, fault: Option<HostCall>)

  predicate ValidInvocation(inv: Invocation)
  {
    inv.editor.Some? ==> SelectionInDocument(inv.editor.value)
  }

  /** Several invocations, each starting when the previous one has finished. */
  function PasteAll(s: HostState, runs: seq<Invocation>): (HostState, seq<PasteOutcome>)
    requires forall k | 0 <= k < |runs| :: ValidInvocation(runs[k])
    decreases |runs|
  {
    if |runs| == 0 then (s, [])
    else
      assert ValidInvocation(runs[0]);
      var (t, outcome) := Paste(s, runs[0].editor, runs[0].fault);
      var (u, outcomes) := PasteAll(t, runs[1..]);
      (u, [outcome] + outcomes)
  }

  /** How many of the outcomes are successes. */
  function CountPasted(outcomes: seq<PasteOutcome>): nat
  {
    if |outcomes| == 0 then 0
    else (if outcomes[0] == Pasted then 1 else 0) + CountPasted(outcomes[1..])
  }

  /** The terminal text for `n` successful invocations. */
  function Commands(n: nat): (r: seq<string>)
    ensures |r| == n
    ensures forall k | 0 <= k < n :: r[k] == CheckpointCommand
  {
    if n == 0 then [] else Commands(n - 1) + [CheckpointCommand]
  }

  /**
   * Invocations that run one after another never find the command busy, and
   * the busy flag is released after the last one.
   */
  lemma {:induction false} SequentialNeverBusy(s: HostState, runs: seq<Invocation>)
    requires forall k | 0 <= k < |runs| :: ValidInvocation(runs[k])
    requires !s.isExecuting
    decreases |runs|
    ensures var (t, outcomes) := PasteAll(s, runs);
      !t.isExecuting && |outcomes| == |runs| && AlreadyRunning !in outcomes
  {
    if |runs| > 0 {
      PasteReleasesGuard(s, runs[0].editor, runs[0].fault);
      var t := Paste(s, runs[0].editor, runs[0].fault).0;
      SequentialNeverBusy(t, runs[1..]);
    }
  }

  /**
   * When no host call throws, invocations one after another leave the
   * clipboard as it was, and the terminal receives one command per success.
   */
  lemma {:induction false} FaultFreeKeepsClipboard(s: HostState, runs: seq<Invocation>)
    requires forall k | 0 <= k < |runs| :: ValidInvocation(runs[k]) && runs[k].fault == None
    requires !s.isExecuting
    decreases |runs|
    ensures var (t, outcomes) := PasteAll(s, runs);
      t.clipboard == s.clipboard && t.terminal == s.terminal + Commands(CountPasted(outcomes))
  {
    if |runs| > 0 {
      var (t, outcome) := Paste(s, runs[0].editor, runs[0].fault);
      PastedExactly(s, runs[0].editor, runs[0].fault);
      PasteReleasesGuard(s, runs[0].editor, runs[0].fault);
      EarlyExitTouchesNothing(s, runs[0].editor, runs[0].fault);
      FaultFreeKeepsClipboard(t, runs[1..]);
      var (u, outcomes) := PasteAll(t, runs[1..]);
      assert PasteAll(s, runs).1 == [outcome] + outcomes;
      assert ([outcome] + outcomes)[1..] == outcomes;
      CommandsAppend(CountPasted([outcome]), CountPasted(outcomes));
    }
  }

  /** `n + m` commands are `n` commands followed by `m` commands. */
  lemma {:induction false} CommandsAppend(n: nat, m: nat)
    ensures Commands(n + m) == Commands(n) + Commands(m)
  {
    assert |Commands(n + m)| == |Commands(n) + Commands(m)|;
  }

  // ---------------------------------------------------------------------------
  // The handler over the host's mutable state

  /** The extension's host: the handler's closure flag, the system clipboard and the terminal. */
  class Host {
    var isExecuting: bool
    var clipboard: string
    var terminal: seq<string>

    function State(): HostState
      reads this
    {
      HostState(isExecuting, clipboard, terminal)
    }

    /** On activation the flag starts released, and nothing has been sent to the terminal. */
    constructor (initialClipboard: string)
      ensures State() == HostState(false, initialClipboard, [])
    {
      isExecuting := false;
      clipboard := initialClipboard;
      terminal := [];
    }

    /** The command handler: the guard, the `try` block and the `finally` block. */
    method CheckpointPaste(editor: Option<PasteEditor>, fault: Option<HostCall>) returns (outcome: PasteOutcome)
      requires editor.Some? ==> SelectionInDocument(editor.value)
      modifies this
      ensures (State(), outcome) == Paste(old(State()), editor, fault)
    {
      if isExecuting {
        outcome := AlreadyRunning;
        return;
      }
      isExecuting := true;
      outcome := Pasted;
      label attempt: {
        if editor.None? {
          outcome := NoActiveEditor;
          break attempt;
        }
        var e := editor.value;
        var selectedText: string;
        if e.selection.IsEmpty() {
          selectedText := e.lines[e.selection.start.line];
        } else {
          selectedText := Join(e.lines[e.selection.start.line..e.selection.end.line + 1], "\n");
        }
        if selectedText == "" {
          outcome := NoTextSelected;
          break attempt;
        }
        if fault == Some(ReadClipboard) {
          outcome := Failed(ReadClipboard);
          break attempt;
        }
        var clipboardBuffer := clipboard;
        if fault == Some(WriteSelection) {
          outcome := Failed(WriteSelection);
          break attempt;
        }
        clipboard := selectedText;
        if fault == Some(SendCommand) {
          outcome := Failed(SendCommand);
          break attempt;
        }
        terminal := terminal + [CheckpointCommand];
        if fault == Some(RestoreClipboard) {
          outcome := Failed(RestoreClipboard);
          break attempt;
        }
        clipboard := clipboardBuffer;
      }
      isExecuting := false;
    }
  }
}

/**
 * The `vscode-manim.runScene` command: from the active file's path, its text
 * and the cursor row, find the nearest class header at or above the cursor,
 * take the scene name out of it, and build the `manimgl` invocation that is
 * sent to the terminal and, with extra flags, copied to the clipboard.
 *
 * `SceneLaunch` states the handler as one function of its inputs; the method
 * `RunScene` follows the handler statement by statement (the class list is
 * reversed in place, `find` scans it, the token list grows by a push) and is
 * proved to compute exactly `SceneLaunch`.
 */
module SceneRunner {
  import opened Options
  import opened JsBuiltins

  /** One entry of the handler's `class_lines`: a header line and its zero-based index. */
  datatype ClassLine = ClassLine(line: string, index: nat)

  /** The active editor as the handler reads it. */
  datatype Editor = Editor(fileName: string, text: string, row: nat)

  datatype SceneError =
    | NoActiveEditor    // "Editor not found"
    | NotPythonFile     // "Check failed: file must end with .py"
    | NoMatchingClass   // "No matching classes"

  /**
   * What one invocation does: either it stops with an error message, writing
   * neither clipboard nor terminal, or it sends `terminalText` to the terminal,
   * writes `clipboardText` to the clipboard, and with `enter` set refocuses the
   * editor after a delay (otherwise it shows the terminal).
   */
  datatype SceneOutcome =
    | Rejected(error: SceneError)
    | Launched(terminalText: string, clipboardText: string, enter: bool)

  const Tool: string := "manimgl"
  const ScriptSuffix: string := ".py"
  const ClipboardFlags: string := " --prerun --finder -w"

  // ---------------------------------------------------------------------------
  // The class-header pattern  ^class (.+?)\((.+?)\):
  // ---------------------------------------------------------------------------

  /** The characters JavaScript's `.` does not match. */
  predicate IsLineTerminator(c: char)
  {
    c == '\n' || c == '\r' || c == '\U{2028}' || c == '\U{2029}'
  }

  predicate NoLineTerminator(s: string)
  {
    forall i | 0 <= i < |s| :: !IsLineTerminator(s[i])
  }

  /** No line terminator at positions `from` up to (not including) `to` of `line`. */
  predicate TerminatorFree(line: string, from: int, to: int)
    requires 0 <= from && to <= |line|
  {
    forall i | from <= i < to :: !IsLineTerminator(line[i])
  }

  /** The line starts with the literal `class `. */
  predicate HasClassPrefix(line: string)
  {
    |line| >= 6 && line[0] == 'c' && line[1] == 'l' && line[2] == 'a'
    && line[3] == 's' && line[4] == 's' && line[5] == ' '
  }

  /**
   * The pattern matches `line` with its literal `(` at `p` and its literal `):`
   * at `q`: both lazy groups, positions 6 to `p` and `p + 1` to `q`, are
   * non-empty runs of characters that `.` matches. (The `(` between them is
   * not a line terminator, so one range covers both groups.)
   */
  predicate HeaderMatchAt(line: string, p: int, q: int)
  {
    6 < p && p + 1 < q && q + 2 <= |line|
    && line[p] == '(' && line[q] == ')' && line[q + 1] == ':'
    && TerminatorFree(line, 6, q)
  }

  /** `/^class (.+?)\((.+?)\):/.test(line)`: the line starts with a class header. */
  predicate IsClassHeader(line: string)
  {
    HasClassPrefix(line)
    && exists p, q | 0 <= p < |line| && 0 <= q < |line| :: HeaderMatchAt(line, p, q)
  }

  // ---------------------------------------------------------------------------
  // class_lines = all_lines.map((line, index) => ({ line, index })).filter(...)
  // ---------------------------------------------------------------------------

  predicate Increasing(xs: seq<ClassLine>)
  {
    forall i, j | 0 <= i < j < |xs| :: xs[i].index < xs[j].index
  }

  /** Entry `c` is a header line of `lines` at its own index. */
  predicate IsHeaderEntry(lines: seq<string>, c: ClassLine)
  {
    c.index < |lines| && c.line == lines[c.index] && IsClassHeader(c.line)
  }

  /**
   * The header lines of a document with their zero-based indices, in document
   * order: the `map` pairs each line with its index and the `filter` keeps the
   * headers. Every entry is a header at its own index; `ClassLinesIncreasing`
   * and `ClassLinesComplete` add that the indices strictly increase and that
   * no header is missed.
   */
  function ClassLines(lines: seq<string>): (r: seq<ClassLine>)
    ensures forall k | 0 <= k < |r| :: IsHeaderEntry(lines, r[k])
  {
    if |lines| == 0 then []
    else
      var n := |lines| - 1;
      var before := ClassLines(lines[..n]);
      assert forall k | 0 <= k < |before| :: IsHeaderEntry(lines[..n], before[k]);
      before + (if IsClassHeader(lines[n]) then [ClassLine(lines[n], n)] else [])
  }

  /** The entries of `ClassLines` keep the document order: their indices strictly increase. */
  lemma {:induction false} ClassLinesIncreasing(lines: seq<string>)
    ensures Increasing(ClassLines(lines))
  {
    if |lines| > 0 {
      var n := |lines| - 1;
      ClassLinesIncreasing(lines[..n]);
      var before := ClassLines(lines[..n]);
      assert forall k | 0 <= k < |before| :: before[k].index < n;
    }
  }

  /** Every header line of the document is among `ClassLines`, with its index. */
  lemma {:induction false} ClassLinesComplete(lines: seq<string>, i: nat)
    requires i < |lines| && IsClassHeader(lines[i])
    ensures exists k | 0 <= k < |ClassLines(lines)| :: ClassLines(lines)[k] == ClassLine(lines[i], i)
  {
    var n := |lines| - 1;
    var r := ClassLines(lines);
    if i == n {
      assert r[|r| - 1] == ClassLine(lines[i], i);
    } else {
      ClassLinesComplete(lines[..n], i);
      var before := ClassLines(lines[..n]);
      var k :| 0 <= k < |before| && before[k] == ClassLine(lines[..n][i], i);
      assert r[k] == before[k];
    }
  }

  // ---------------------------------------------------------------------------
  // matching_class = class_lines.reverse().find(({ index }) => index <= row)
  // ---------------------------------------------------------------------------

  /** Position `k` holds the first entry of `xs` at or above `row`. */
  predicate IsFirstAtOrAbove(xs: seq<ClassLine>, row: nat, k: int)
  {
    0 <= k < |xs| && xs[k].index <= row && forall j | 0 <= j < k :: xs[j].index > row
  }

  /** The `.find` step: the first entry whose index is at most `row`, if any. */
  function FindAtOrAbove(xs: seq<ClassLine>, row: nat): Option<ClassLine>
  {
    if |xs| == 0 then None
    else if xs[0].index <= row then Some(xs[0])
    else FindAtOrAbove(xs[1..], row)
  }

  /** `find` gives nothing when no entry qualifies, and otherwise the first that does. */
  lemma {:induction false} FindAtOrAboveIsFirst(xs: seq<ClassLine>, row: nat)
    ensures FindAtOrAbove(xs, row).None? <==> forall k | 0 <= k < |xs| :: xs[k].index > row
    ensures FindAtOrAbove(xs, row).Some? ==>
      exists k | 0 <= k < |xs| :: IsFirstAtOrAbove(xs, row, k) && xs[k] == FindAtOrAbove(xs, row).value
  {
    if |xs| > 0 {
      if xs[0].index <= row {
        assert IsFirstAtOrAbove(xs, row, 0);
      } else {
        FindAtOrAboveIsFirst(xs[1..], row);
        var r := FindAtOrAbove(xs[1..], row);
        if r.Some? {
          var k :| 0 <= k < |xs[1..]| && IsFirstAtOrAbove(xs[1..], row, k) && xs[1..][k] == r.value;
          assert IsFirstAtOrAbove(xs, row, k + 1);
        }
      }
    }
  }

  /** Scanning `xs` from its end: the last entry whose index is at most `row`. */
  function LastAtOrAbove(xs: seq<ClassLine>, row: nat): Option<ClassLine>
  {
    if |xs| == 0 then None
    else if xs[|xs| - 1].index <= row then Some(xs[|xs| - 1])
    else LastAtOrAbove(xs[..|xs| - 1], row)
  }

  /** Reversing and then finding the first match is scanning from the end. */
  lemma {:induction false} FindInReversed(xs: seq<ClassLine>, row: nat)
    ensures FindAtOrAbove(Reversed(xs), row) == LastAtOrAbove(xs, row)
  {
    if |xs| > 0 {
      var front := xs[..|xs| - 1];
      assert Reversed(xs)[1..] == Reversed(front);
      FindInReversed(front, row);
    }
  }

  /** The header the handler picks for a document and cursor row. */
  function MatchingClass(lines: seq<string>, row: nat): Option<ClassLine>
  {
    FindAtOrAbove(Reversed(ClassLines(lines)), row)
  }

  /** No line at or above `row` is a class header. */
  ghost predicate NoHeaderAtOrAbove(lines: seq<string>, row: nat)
  {
    forall i | 0 <= i < |lines| && i <= row :: !IsClassHeader(lines[i])
  }

  /** Line `h` is the last class header at or above `row`. */
  ghost predicate IsNearestHeader(lines: seq<string>, row: nat, h: nat)
  {
    h <= row && h < |lines| && IsClassHeader(lines[h])
    && forall i | h < i <= row && i < |lines| :: !IsClassHeader(lines[i])
  }

  /** Scanning the document's headers from the end finds the nearest one at or above `row`. */
  lemma {:induction false} LastHeaderIsNearest(lines: seq<string>, row: nat)
    ensures LastAtOrAbove(ClassLines(lines), row).None? <==> NoHeaderAtOrAbove(lines, row)
    ensures LastAtOrAbove(ClassLines(lines), row).Some? ==>
      var m := LastAtOrAbove(ClassLines(lines), row).value;
      m.index < |lines| && m.line == lines[m.index] && IsNearestHeader(lines, row, m.index)
  {
    if |lines| > 0 {
      var n := |lines| - 1;
      var front := lines[..n];
      var before := ClassLines(front);
      var cls := ClassLines(lines);
      if IsClassHeader(lines[n]) && n <= row {
        assert LastAtOrAbove(cls, row) == Some(ClassLine(lines[n], n));
        assert IsNearestHeader(lines, row, n);
      } else {
        LastHeaderIsNearest(front, row);
        assert LastAtOrAbove(cls, row) == LastAtOrAbove(before, row) by {
          if IsClassHeader(lines[n]) {
            assert cls[..|cls| - 1] == before;
          } else {
            assert cls == before;
          }
        }
        assert forall i | 0 <= i < n :: front[i] == lines[i];
        assert NoHeaderAtOrAbove(lines, row) <==> NoHeaderAtOrAbove(front, row);
        var m := LastAtOrAbove(before, row);
        if m.Some? {
          assert IsNearestHeader(front, row, m.value.index);
        }
      }
    }
  }

  /**
   * Reversing the headers and taking the first at or above the cursor picks
   * the header with the greatest index not below the cursor, and finds none
   * exactly when no header lies at or above the cursor.
   */
  lemma NearestHeaderAtOrAbove(lines: seq<string>, row: nat)
    ensures MatchingClass(lines, row).None? <==> NoHeaderAtOrAbove(lines, row)
    ensures MatchingClass(lines, row).Some? ==>
      var m := MatchingClass(lines, row).value;
      m.index < |lines| && m.line == lines[m.index] && IsNearestHeader(lines, row, m.index)
  {
    FindInReversed(ClassLines(lines), row);
    LastHeaderIsNearest(lines, row);
  }

  // ---------------------------------------------------------------------------
  // scene_name = line.slice("class ".length, line.indexOf("("))
  // ---------------------------------------------------------------------------

  function SceneName(line: string): string
  {
    Slice(line, |"class "|, IndexOf(line, '('))
  }

  /**
   * On a header line the first `(` comes at position 6 or later, so the scene
   * name is exactly the text from position 6 up to it: no `(` and no line
   * terminator.
   */
  lemma SceneNameOfHeader(line: string)
    requires IsClassHeader(line)
    ensures 6 <= IndexOf(line, '(') < |line|
    ensures SceneName(line) == line[6..IndexOf(line, '(')]
    ensures '(' !in SceneName(line) && NoLineTerminator(SceneName(line))
  {
    var f := FirstParenOfHeader(line);
    var name := line[6..f];
    assert SceneName(line) == name;
    assert '(' !in name by {
      assert name == line[..f][6..];
    }
    assert NoLineTerminator(name) by {
      assert forall i | 0 <= i < |name| :: name[i] == line[6 + i];
    }
  }

  /** On a header line the first `(` follows `class ` and a run free of line terminators. */
  lemma FirstParenOfHeader(line: string) returns (f: nat)
    requires IsClassHeader(line)
    ensures f == IndexOf(line, '(') && 6 <= f < |line|
    ensures TerminatorFree(line, 6, f)
  {
    var p, q :| 0 <= p < |line| && 0 <= q < |line| && HeaderMatchAt(line, p, q);
    assert line[p] == '(';
    f := IndexOf(line, '(');
    assert f <= p;
  }

  /**
   * A declaration `class Name(Base):…` with a non-empty name free of `(` and a
   * non-empty base, both on one line, is a header whose scene name is `Name`,
   * whatever the base and the rest of the line hold.
   */
  lemma DeclaredSceneName(name: string, base: string, rest: string)
    requires |name| >= 1 && '(' !in name && NoLineTerminator(name)
    requires |base| >= 1 && NoLineTerminator(base)
    ensures var line := "class " + name + "(" + base + "):" + rest;
      IsClassHeader(line) && SceneName(line) == name
  {
    var line := "class " + name + "(" + base + "):" + rest;
    var p := 6 + |name|;
    var q := p + 1 + |base|;
    assert forall i | 6 <= i < p :: line[i] == name[i - 6];
    assert forall i | p < i < q :: line[i] == base[i - p - 1];
    assert HeaderMatchAt(line, p, q);
    SceneNameOfHeader(line);
    assert line[6..p] == name;
  }

  // ---------------------------------------------------------------------------
  // The command: ["manimgl", file_path, scene_name] (+ "-se <row+1>"), joined
  // ---------------------------------------------------------------------------

  /** The `-se` token naming the cursor row, one-based. */
  function LineFlag(row: nat): string
  {
    "-se " + NatToDecimal(row + 1)
  }

  /** The handler's `cmds`: the line flag is there only off the header's own line. */
  function CommandTokens(path: string, name: string, row: nat, headerIndex: nat): seq<string>
  {
    [Tool, path, name] + (if row == headerIndex then [] else [LineFlag(row)])
  }

  /** The whole handler as a function of the editor it finds. */
  function SceneLaunch(editor: Option<Editor>): SceneOutcome
  {
    match editor
    case None => Rejected(NoActiveEditor)
    case Some(e) =>
      if !EndsWith(e.fileName, ScriptSuffix) then Rejected(NotPythonFile)
      else
        match MatchingClass(Split(e.text), e.row)
        case None => Rejected(NoMatchingClass)
        case Some(m) =>
          var command := Join(CommandTokens(e.fileName, SceneName(m.line), e.row, m.index), " ");
          Launched(command, command + ClipboardFlags, e.row != m.index)
  }

  /**
   * When the handler stops: without an editor; on a file not ending in `.py`
   * (before any search); and on a `.py` file exactly when no class header
   * lies at or above the cursor. In none of these is anything written.
   */
  lemma SceneLaunchRejections(e: Editor)
    ensures SceneLaunch(None) == Rejected(NoActiveEditor)
    ensures SceneLaunch(Some(e)) == Rejected(NotPythonFile) <==> !EndsWith(e.fileName, ".py")
    ensures EndsWith(e.fileName, ".py") ==>
      (SceneLaunch(Some(e)) == Rejected(NoMatchingClass) <==> NoHeaderAtOrAbove(Split(e.text), e.row))
  {
    var lines := Split(e.text);
    NearestHeaderAtOrAbove(lines, e.row);
    if EndsWith(e.fileName, ".py") {
      assert SceneLaunch(Some(e)) == Rejected(NoMatchingClass) <==> MatchingClass(lines, e.row).None?;
    }
  }

  /**
   * What a launch writes, stated against the nearest header `h` at or above
   * the cursor: the terminal gets `manimgl <path> <Name>`, followed by
   * ` -se <row+1>` exactly when the cursor is not on the header itself (and
   * then `enter` is set); the clipboard gets that same text followed by
   * ` --prerun --finder -w`.
   */
  lemma SceneLaunchCommand(e: Editor, h: nat)
    requires EndsWith(e.fileName, ".py")
    requires IsNearestHeader(Split(e.text), e.row, h)
    ensures var name := SceneName(Split(e.text)[h]);
      var command := if e.row == h then "manimgl " + e.fileName + " " + name
                     else "manimgl " + e.fileName + " " + name + " -se " + NatToDecimal(e.row + 1);
      SceneLaunch(Some(e)) == Launched(command, command + " --prerun --finder -w", e.row != h)
  {
    var lines := Split(e.text);
    LaunchAtNearestHeader(e, h);
    SpelledCommand(e.fileName, SceneName(lines[h]), e.row, h);
    assert ClipboardFlags == " --prerun --finder -w";
  }

  /** On a `.py` file the handler launches from the nearest header at or above the cursor. */
  lemma LaunchAtNearestHeader(e: Editor, h: nat)
    requires EndsWith(e.fileName, ".py")
    requires IsNearestHeader(Split(e.text), e.row, h)
    ensures var command := Join(CommandTokens(e.fileName, SceneName(Split(e.text)[h]), e.row, h), " ");
      SceneLaunch(Some(e)) == Launched(command, command + ClipboardFlags, e.row != h)
  {
    var lines := Split(e.text);
    NearestHeaderAtOrAbove(lines, e.row);
    assert !NoHeaderAtOrAbove(lines, e.row);
    NearestHeaderIsUnique(lines, e.row, MatchingClass(lines, e.row).value.index, h);
  }

  /** The joined tokens, spelled out: three tokens on the header line, four elsewhere. */
  lemma SpelledCommand(path: string, name: string, row: nat, h: nat)
    ensures Join(CommandTokens(path, name, row, h), " ") ==
      if row == h then "manimgl " + path + " " + name
      else "manimgl " + path + " " + name + " -se " + NatToDecimal(row + 1)
  {
    var base := "manimgl " + path + " " + name;
    if row == h {
      assert CommandTokens(path, name, row, h) == [Tool, path, name];
      JoinThree(Tool, path, name, " ");
    } else {
      assert CommandTokens(path, name, row, h) == [Tool, path, name, LineFlag(row)];
      JoinFour(Tool, path, name, LineFlag(row), " ");
      AppendLineFlag(base, NatToDecimal(row + 1));
    }
  }

  /** Appending the `-se` token after a separating space. */
  lemma AppendLineFlag(command: string, digits: string)
    ensures command + " " + ("-se " + digits) == command + " -se " + digits
  {
    assert " " + "-se " == " -se ";
    assert command + " " + ("-se " + digits) == command + (" " + "-se ") + digits;
  }

  /** At most one line is the nearest header at or above a row. */
  lemma NearestHeaderIsUnique(lines: seq<string>, row: nat, h1: nat, h2: nat)
    requires IsNearestHeader(lines, row, h1) && IsNearestHeader(lines, row, h2)
    ensures h1 == h2
  {
  }

  /** Every launch puts on the clipboard the terminal command plus the fixed flags. */
  lemma ClipboardExtendsCommand(editor: Option<Editor>)
    ensures SceneLaunch(editor).Launched? ==>
      SceneLaunch(editor).clipboardText == SceneLaunch(editor).terminalText + " --prerun --finder -w"
  {
  }

  /** The two-scene document: headers `A` (line 0) and `B` (line 2). */
  function ExampleLines(): seq<string>
  {
    ["class A(Scene):", "  x=1", "class B(Scene):", "  y=2"]
  }

  /** In the two-scene document, line 2 is the nearest header to lines 2 and 3. */
  lemma ExampleNearestHeader(text: string)
    requires text == Join(ExampleLines(), "\n")
    ensures Split(text) == ExampleLines()
    ensures IsNearestHeader(Split(text), 2, 2) && IsNearestHeader(Split(text), 3, 2)
    ensures SceneName(Split(text)[2]) == "B"
  {
    var lines := ExampleLines();
    SplitJoin(lines);
    DeclaredSceneName("B", "Scene", "");
    assert lines[2] == "class " + "B" + "(" + "Scene" + "):" + "";
    assert lines[3][0] == ' ';
  }

  /** Two-scene document, cursor on the header line 2: the command names `B` and adds no line flag. */
  lemma ExampleOnHeader(path: string, text: string)
    requires EndsWith(path, ".py")
    requires text == Join(ExampleLines(), "\n")
    ensures SceneLaunch(Some(Editor(path, text, 2)))
      == Launched("manimgl " + path + " B", "manimgl " + path + " B --prerun --finder -w", false)
  {
    ExampleNearestHeader(text);
    SceneLaunchCommand(Editor(path, text, 2), 2);
    ExampleSpelling("manimgl " + path);
  }

  /**
   * Two-scene document, cursor on line 3 below header `B`: the command names `B`
   * and adds `-se 4`, the one-based number of line 3.
   */
  lemma ExampleBelowHeader(path: string, text: string)
    requires EndsWith(path, ".py")
    requires text == Join(ExampleLines(), "\n")
    ensures SceneLaunch(Some(Editor(path, text, 3)))
      == Launched("manimgl " + path + " B -se 4", "manimgl " + path + " B -se 4 --prerun --finder -w", true)
  {
    ExampleNearestHeader(text);
    SceneLaunchCommand(Editor(path, text, 3), 2);
    assert NatToDecimal(4) == "4";
    ExampleSpelling("manimgl " + path);
  }

  /** The spellings of the two-scene document's commands, regrouped. */
  lemma ExampleSpelling(base: string)
    ensures base + " " + "B" == base + " B"
    ensures base + " B" + " -se " + "4" == base + " B -se 4"
    ensures base + " B" + " --prerun --finder -w" == base + " B --prerun --finder -w"
    ensures base + " B -se 4" + " --prerun --finder -w" == base + " B -se 4 --prerun --finder -w"
  {
  }

  /**
   * A carriage return left at the end of a header line by the split on "\n"
   * does not stop the match and does not change the scene name.
   */
  lemma TrailingCarriageReturn(line: string)
    requires IsClassHeader(line)
    ensures IsClassHeader(line + "\r") && SceneName(line + "\r") == SceneName(line)
  {
    var withCr := line + "\r";
    var p, q :| 0 <= p < |line| && 0 <= q < |line| && HeaderMatchAt(line, p, q);
    assert HeaderMatchAt(withCr, p, q);
    assert IsClassHeader(withCr);
    SceneNameOfHeader(line);
    SceneNameOfHeader(withCr);
    var f, g := IndexOf(line, '('), IndexOf(withCr, '(');
    assert withCr[f] == '(';
    assert withCr[..f] == line[..f];
    assert g == f;
  }

  /** The base-class group needs a character: `class Foo():` is not a header. */
  lemma EmptyBaseIsNotHeader()
    ensures !IsClassHeader("class Foo():")
  {
    var line := "class Foo():";
    assert forall p, q | 0 <= p < |line| && 0 <= q < |line| && line[p] == '(' :: p == 9 && !HeaderMatchAt(line, p, q);
  }

  /** The pattern is anchored at the start of the line: an indented declaration is not a header. */
  lemma IndentedIsNotHeader(indent: string, rest: string)
    requires |indent| >= 1 && indent[0] == ' '
    ensures !IsClassHeader(indent + rest)
  {
    assert (indent + rest)[0] == ' ';
  }

  /**
   * When the first `(` comes right after `class `, the first lazy group takes
   * it, the line is a header, and the scene name is empty.
   */
  lemma ParenthesisedNameIsEmpty()
    ensures IsClassHeader("class ((X)):") && SceneName("class ((X)):") == ""
  {
    var line := "class ((X)):";
    assert HeaderMatchAt(line, 7, 10);
    SceneNameOfHeader(line);
  }

  // ---------------------------------------------------------------------------
  // The handler, statement by statement
  // ---------------------------------------------------------------------------

  /** `matching_class`'s search: the first entry of the (reversed) array at or above `row`. */
  method Find(a: array<ClassLine>, row: nat) returns (r: Option<ClassLine>)
    ensures r == FindAtOrAbove(a[..], row)
  {
    var i := 0;
    while i < a.Length
      invariant 0 <= i <= a.Length
      invariant FindAtOrAbove(a[..], row) == FindAtOrAbove(a[i..], row)
    {
      if a[i].index <= row {
        return Some(a[i]);
      }
      assert a[i..][1..] == a[i + 1..];
      i := i + 1;
    }
    return None;
  }

  /** `class_lines` is built, reversed in place, and searched for the first entry at or above `row`. */
  method FindMatchingClass(allLines: seq<string>, row: nat) returns (matching: Option<ClassLine>)
    ensures matching == MatchingClass(allLines, row)
  {
    var headers := ClassLines(allLines);
    var classLines := new ClassLine[|headers|](k requires 0 <= k < |headers| => headers[k]);
    assert classLines[..] == headers;
    Reverse(classLines);
    matching := Find(classLines, row);
  }

  /** The `runScene` handler: computes exactly what `SceneLaunch` states. */
  method RunScene(editor: Option<Editor>) returns (outcome: SceneOutcome)
    ensures outcome == SceneLaunch(editor)
  {
    if editor.None? {
      return Rejected(NoActiveEditor);
    }
    var filePath := editor.value.fileName;
    if !EndsWith(filePath, ScriptSuffix) {
      return Rejected(NotPythonFile);
    }
    var allLines := Split(editor.value.text);
    var row := editor.value.row;
    var matching := FindMatchingClass(allLines, row);
    if matching.None? {
      return Rejected(NoMatchingClass);
    }
    var sceneName := SceneName(matching.value.line);
    var cmds := [Tool, filePath, sceneName];
    var enter := false;
    if row != matching.value.index {
      cmds := cmds + [LineFlag(row)];
      enter := true;
    }
    assert cmds == CommandTokens(filePath, sceneName, row, matching.value.index);
    var command := Join(cmds, " ");
    return Launched(command, command + ClipboardFlags, enter);
  }
}

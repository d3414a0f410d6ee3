/**
 * `SPythonTextEditor`: the editable text widget of the script editor.  It
 * keeps the caret location the host reports (`OnCursorMoved`), a flag
 * telling whether the completer popup is shown, and drives the host text
 * layout through `GoTo`, `InsertTextAtCursor`, `HandleBackspace` and
 * `HandleDelete` to indent and unindent lines, auto-indent on Enter and
 * replace the partial name by a chosen suggestion.  Key presses are routed
 * by `OnKeyDown`; what they ask of the panel is returned as an `Action`.
 */
module TextEditor {
  import opened Wrappers
  import opened Chars
  import opened Document
  import opened EditorText

  // ---------------------------------------------------------------------
  // Key routing
  // ---------------------------------------------------------------------

  /** The keys `OnKeyDown` tells apart, and `Right`, which only the completion list reacts to. */
  datatype Key = Enter | H | P | Tab | SpaceBar | Down | Up | Escape | Add | Subtract | Right | OtherKey

  datatype Modifiers = Modifiers(control: bool, alt: bool, shift: bool)

  /** What a key press asks for. */
  datatype Action =
    | ExecuteText(selectionOnly: bool)  // run the selection, or the whole text, logging the output
    | ShowHelp                          // `PrintHelp`
    | PrettyPrint                       // run `pprint` on the selection
    | TabIndent(unindent: bool)         // Tab, Shift+Tab
    | AcceptCompleter
    | NewLine                           // insert a line break with auto-indent
    | RequestAutoComplete
    | CompleterNavDown
    | CompleterNavUp
    | HideCompleter
    | ScaleFont(larger: bool)
    | NoAction
    | HostDefault                       // the key goes to the base text widget

  /** `FReply`: handled here, unhandled, or whatever the base widget answers. */
  datatype Reply = Handled | Unhandled | HostReply

  /** The branch chain of `OnKeyDown`, in source order; every delegate is bound. */
  function KeyDispatch(key: Key, mods: Modifiers, completerShown: bool, anySelected: bool, textEmpty: bool): (r: (Action, Reply))
    ensures r.1 == HostReply <==> r.0 == HostDefault
    ensures r.1 == Unhandled <==> r.0.ScaleFont?
  {
    if key == Enter && mods.control then (ExecuteText(anySelected), Handled)
    else if key == Enter && mods.alt then (NoAction, Handled)
    else if key == H && mods.control then (ShowHelp, Handled)
    else if key == P && mods.control then (if anySelected then PrettyPrint else NoAction, Handled)
    else if key == Tab then (if textEmpty then NoAction else TabIndent(mods.shift), Handled)
    else if key == Enter then (if completerShown then AcceptCompleter else NewLine, Handled)
    else if key == SpaceBar && mods.control then (if anySelected then NoAction else RequestAutoComplete, Handled)
    else if key == Down && completerShown then (CompleterNavDown, Handled)
    else if key == Up && completerShown then (CompleterNavUp, Handled)
    else if key == Escape then (if anySelected then NoAction else HideCompleter, Handled)
    else if key == Add && mods.control then (ScaleFont(true), Unhandled)
    else if key == Subtract && mods.control then (ScaleFont(false), Unhandled)
    else (HostDefault, HostReply)
  }

  /** Enter, without Control or Alt, accepts the completion exactly when the completer is shown, and otherwise breaks the line. */
  lemma EnterRouting(mods: Modifiers, completerShown: bool, anySelected: bool, textEmpty: bool)
    requires !mods.control && !mods.alt
    ensures var r := KeyDispatch(Enter, mods, completerShown, anySelected, textEmpty);
      r.1 == Handled && (r.0 == AcceptCompleter <==> completerShown) && (r.0 == NewLine <==> !completerShown)
  {
  }

  /** The completer is only driven from the keyboard while it is shown. */
  lemma CompleterKeysNeedCompleter(key: Key, mods: Modifiers, completerShown: bool, anySelected: bool, textEmpty: bool)
    ensures var a := KeyDispatch(key, mods, completerShown, anySelected, textEmpty).0;
      a == AcceptCompleter || a == CompleterNavDown || a == CompleterNavUp ==> completerShown
  {
  }

  /** Tab never reaches the base widget: it indents, or does nothing on an empty text. */
  lemma TabStaysInEditor(mods: Modifiers, completerShown: bool, anySelected: bool, textEmpty: bool)
    ensures var r := KeyDispatch(Tab, mods, completerShown, anySelected, textEmpty);
      r.1 == Handled && (r.0 == TabIndent(mods.shift) <==> !textEmpty)
  {
  }

  /**
   * `OnKeyChar`: with Control down, the characters the Control shortcuts
   * type (line feed, carriage return, backspace, `h`, `p`, space) are
   * swallowed; every other character goes to the base widget.
   */
  function KeyChar(ch: char, control: bool): (r: Reply)
    ensures r != Unhandled
    ensures !control ==> r == HostReply
  {
    if control && (ch == '\n' || ch == '\r' || ch == '\U{8}' || ch == 'h' || ch == 'p' || ch == ' ') then Handled
    else HostReply
  }

  /**
   * The Control shortcuts `OnKeyDown` handles itself (Ctrl+Enter, Ctrl+H,
   * Ctrl+P, Ctrl+Space) also have the character they type swallowed, so
   * none of them edits the text; a letter typed with Control that is not
   * one of them still reaches the base widget.
   */
  lemma ControlShortcutsTypeNothing(mods: Modifiers, completerShown: bool, anySelected: bool, textEmpty: bool)
    requires mods.control
    ensures forall key :: key in {Enter, H, P, SpaceBar} ==>
      KeyDispatch(key, mods, completerShown, anySelected, textEmpty).1 == Handled
    ensures KeyChar('\r', true) == Handled && KeyChar('h', true) == Handled
    ensures KeyChar('p', true) == Handled && KeyChar(' ', true) == Handled
    ensures KeyChar('a', true) == HostReply
  {
  }

  // ---------------------------------------------------------------------
  // Tab on the caret line
  // ---------------------------------------------------------------------

  /** A line indented (Tab) or unindented (Shift+Tab). */
  function ShiftLine(line: string, unindent: bool): string {
    if unindent then line[UnIndentCount(line)..] else Indent + line
  }

  lemma ShiftLineNoBreak(line: string, unindent: bool)
    requires NoLineBreak(line)
    ensures NoLineBreak(ShiftLine(line, unindent))
  {
  }

  /**
   * Tab with nothing or one line selected: the caret line is indented or
   * unindented and the caret keeps its place in the text, moved by the
   * indentation; if the caret sat inside the spaces removed, the move is
   * out of range and the caret stays at the start of the line.
   */
  function TabLine(d: Doc, unindent: bool): (r: Doc)
    requires d.Valid()
    ensures r.Valid()
    ensures r.lines == d.lines[d.caret.line := ShiftLine(d.CurrentLine(), unindent)]
    ensures var k, off, line := d.caret.line, d.caret.offset, d.CurrentLine();
      var removed := UnIndentCount(line);
      && (!unindent ==> r.caret == Caret(k, off + 4) && r.CurrentLine()[..off + 4] == Indent + line[..off])
      && (unindent && removed <= off ==> r.caret == Caret(k, off - removed) && r.CurrentLine()[..off - removed] == line[removed..off])
      && (unindent && off < removed ==> r.caret == Caret(k, 0))
  {
    var k, off, line := d.caret.line, d.caret.offset, d.CurrentLine();
    ShiftLineNoBreak(line, unindent);
    ValidReplace(d.lines, k, ShiftLine(line, unindent));
    var lines := d.lines[k := ShiftLine(line, unindent)];
    if unindent then
      var removed := UnIndentCount(line);
      GoTo(Doc(lines, Caret(k, 0)), k, off - removed)
    else
      GoTo(Doc(lines, Caret(k, |Indent|)), k, off + |Indent|)
  }

  /** Shift+Tab after Tab gives back the line and the caret. */
  lemma TabThenShiftTab(d: Doc)
    requires d.Valid()
    ensures TabLine(TabLine(d, false), true) == d
  {
    var k, line := d.caret.line, d.CurrentLine();
    UnIndentIndented(line);
    assert d.lines[k := line] == d.lines;
  }

  // ---------------------------------------------------------------------
  // Tab over several lines
  // ---------------------------------------------------------------------

  /** The lines `first` to `end - 1` shifted, the others as they were. */
  function ShiftRange(lines: seq<string>, first: nat, end: nat, unindent: bool): seq<string> {
    seq(|lines|, j requires 0 <= j < |lines| => if first <= j < end then ShiftLine(lines[j], unindent) else lines[j])
  }

  /** Shifting a range of valid lines keeps them valid. */
  lemma ShiftRangeValid(lines: seq<string>, first: nat, end: nat, unindent: bool)
    requires ValidLines(lines)
    ensures ValidLines(ShiftRange(lines, first, end, unindent))
  {
    var r := ShiftRange(lines, first, end, unindent);
    forall j | 0 <= j < |r| ensures NoLineBreak(r[j]) {
      ShiftLineNoBreak(lines[j], unindent);
    }
  }

  /** Shifting one more line of the range. */
  lemma ShiftRangeStep(lines: seq<string>, first: nat, i: nat, unindent: bool)
    requires first <= i < |lines|
    ensures ShiftRange(lines, first, i, unindent)[i] == lines[i]
    ensures ShiftRange(lines, first, i, unindent)[i := ShiftLine(lines[i], unindent)] == ShiftRange(lines, first, i + 1, unindent)
  {
  }

  /** Unindenting a range right after indenting it gives back the lines. */
  lemma ShiftRangeRoundTrip(lines: seq<string>, first: nat, end: nat)
    ensures ShiftRange(ShiftRange(lines, first, end, false), first, end, true) == lines
  {
    var r := ShiftRange(ShiftRange(lines, first, end, false), first, end, true);
    forall j | 0 <= j < |lines| ensures r[j] == lines[j] {
      UnIndentIndented(lines[j]);
    }
  }

  /**
   * Where the caret goes after a multi-line Tab: right by the four spaces
   * added, or left by the spaces removed from the caret line.
   */
  function TabLinesTarget(offset: int, change: int, unindent: bool): int {
    if unindent then offset - change else offset + change
  }

  /** The same, as line 182 of the source computes it: the change is added on Shift+Tab too. */
  function TabLinesTargetAsWritten(offset: int, change: int): int {
    offset + change
  }

  /** A range of selected lines around the caret line. */
  predicate ValidRange(d: Doc, first: nat, last: nat) {
    first <= d.caret.line <= last < |d.lines|
  }

  /**
   * Tab with several lines selected, the lines `first` to `last` given, as
   * evidently intended: each is indented or unindented, then the caret is
   * sent back to its line, moved by the change on that line.
   */
  function TabLines(d: Doc, first: nat, last: nat, unindent: bool): (r: Doc)
    requires d.Valid() && ValidRange(d, first, last)
    ensures r.Valid() && r.lines == ShiftRange(d.lines, first, last + 1, unindent)
  {
    var k, off := d.caret.line, d.caret.offset;
    var lines := ShiftRange(d.lines, first, last + 1, unindent);
    ShiftRangeValid(d.lines, first, last + 1, unindent);
    var change := if unindent then UnIndentCount(d.lines[k]) else |Indent|;
    GoTo(Doc(lines, Caret(last, if unindent then 0 else |Indent|)), k, TabLinesTarget(off, change, unindent))
  }

  /**
   * After a multi-line Tab the caret is back on its line, before the same
   * text: four columns right, or left by the spaces Shift+Tab removed.
   */
  lemma TabLinesCaret(d: Doc, first: nat, last: nat, unindent: bool)
    requires d.Valid() && ValidRange(d, first, last)
    ensures var r, k, off, line := TabLines(d, first, last, unindent), d.caret.line, d.caret.offset, d.CurrentLine();
      var removed := UnIndentCount(line);
      && (!unindent ==> r.caret == Caret(k, off + 4) && r.CurrentLine()[..off + 4] == Indent + line[..off])
      && (unindent && removed <= off ==> r.caret == Caret(k, off - removed) && r.CurrentLine()[..off - removed] == line[removed..off])
  {
    var r, k := TabLines(d, first, last, unindent), d.caret.line;
    assert r.lines[k] == ShiftLine(d.CurrentLine(), unindent);
  }

  /** `TabLines` with the caret target as line 182 of the source computes it; this is what the editor runs. */
  function TabLinesAsWritten(d: Doc, first: nat, last: nat, unindent: bool): (r: Doc)
    requires d.Valid() && ValidRange(d, first, last)
    ensures r.Valid() && r.lines == ShiftRange(d.lines, first, last + 1, unindent)
  {
    var k, off := d.caret.line, d.caret.offset;
    var lines := ShiftRange(d.lines, first, last + 1, unindent);
    ShiftRangeValid(d.lines, first, last + 1, unindent);
    var change := if unindent then UnIndentCount(d.lines[k]) else |Indent|;
    GoTo(Doc(lines, Caret(last, if unindent then 0 else |Indent|)), k, TabLinesTargetAsWritten(off, change))
  }

  /**
   * What the pass as written does with the caret: Tab lands where the
   * corrected pass puts it; Shift+Tab aims the caret as many columns right
   * of its old offset as it removed spaces, which the host follows only
   * while that is inside the shortened line and ignores otherwise, leaving
   * the caret at the start of the last line shifted.
   */
  lemma TabLinesAsWrittenCaret(d: Doc, first: nat, last: nat, unindent: bool)
    requires d.Valid() && ValidRange(d, first, last)
    ensures !unindent ==> TabLinesAsWritten(d, first, last, unindent) == TabLines(d, first, last, unindent)
    ensures var r, k, off, line := TabLinesAsWritten(d, first, last, unindent), d.caret.line, d.caret.offset, d.CurrentLine();
      var removed := UnIndentCount(line);
      && (unindent && off + removed <= |line| - removed ==> r.caret == Caret(k, off + removed))
      && (unindent && off + removed > |line| - removed ==> r.caret == Caret(last, 0))
  {
    var r, k := TabLinesAsWritten(d, first, last, unindent), d.caret.line;
    assert r.lines[k] == ShiftLine(d.CurrentLine(), unindent);
  }

  /**
   * Lines `    aaaaaaaaaa` and `    b`, selected from line 1, offset 5 back
   * to line 0, offset 5, so that the caret is at line 0, offset 5, after
   * the first `a`.  The selected text has the two lines `aaaaaaaaa` and
   * `    b`; the caret line is below their count, and line 0 ends with
   * `aaaaaaaaa`, so lines 147-170 of the source pick lines 0 and 1.  Shift+Tab
   * as written then puts the caret at offset 9, before the last `a`; with
   * the change subtracted it stays after the first `a`, at offset 1.
   */
  lemma TabLinesAsWrittenLosesCaret()
    ensures var d := Doc(["    aaaaaaaaaa", "    b"], Caret(0, 5));
      && TabLinesAsWritten(d, 0, 1, true) == Doc(["aaaaaaaaaa", "b"], Caret(0, 9))
      && TabLines(d, 0, 1, true) == Doc(["aaaaaaaaaa", "b"], Caret(0, 1))
  {
    var a, b := "aaaaaaaaaa", "b";
    assert Indent + a == "    aaaaaaaaaa" && Indent + b == "    b";
    ShiftTabIndentedPair(a, b, 5);
  }

  /**
   * Shift+Tab over two lines indented by four spaces, the caret on the
   * first one past the spaces: as written the caret moves four columns
   * right of where it was in the text, corrected it keeps its place.
   */
  lemma ShiftTabIndentedPair(a: string, b: string, off: nat)
    requires NoLineBreak(a) && NoLineBreak(b) && 4 <= off && off + 4 <= |a|
    ensures var d := Doc([Indent + a, Indent + b], Caret(0, off));
      && TabLinesAsWritten(d, 0, 1, true) == Doc([a, b], Caret(0, off + 4))
      && TabLines(d, 0, 1, true) == Doc([a, b], Caret(0, off - 4))
  {
    var d := Doc([Indent + a, Indent + b], Caret(0, off));
    UnIndentIndented(a);
    UnIndentIndented(b);
    var shifted := ShiftRange(d.lines, 0, 2, true);
    assert shifted[0] == a && shifted[1] == b;
    assert shifted == [a, b];
    TabLinesAsWrittenCaret(d, 0, 1, true);
    TabLinesCaret(d, 0, 1, true);
  }

  // ---------------------------------------------------------------------
  // Enter
  // ---------------------------------------------------------------------

  /** Enter with the completer hidden: the line breaks at the caret and the new line starts with the indentation. */
  function NewLineAt(d: Doc): (r: Doc)
    requires d.Valid()
    ensures r.Valid()
  {
    Insert(d, EnterText(d.CurrentLine()))
  }

  /**
   * After Enter the caret line ends at the caret, the rest of it moves to a
   * new line after the indentation (the old leading spaces, four more after
   * a colon), and the caret sits after that indentation.
   */
  lemma NewLineLayout(d: Doc)
    requires d.Valid()
    ensures var k, off, line := d.caret.line, d.caret.offset, d.CurrentLine();
      var indent := (if EndsWith(line, ":") then Indent else "") + LeadingSpaces(line);
      NewLineAt(d) == Doc(d.lines[..k] + [line[..off], indent + line[off..]] + d.lines[k + 1..], Caret(k + 1, |indent|))
  {
    var line := d.CurrentLine();
    var indent := (if EndsWith(line, ":") then Indent else "") + LeadingSpaces(line);
    assert EnterText(line) == [LF] + indent;
    InsertBreak(d, indent);
  }

  // ---------------------------------------------------------------------
  // ApplySuggestion
  // ---------------------------------------------------------------------

  /** `HandleBackspace` called `n` times: up to `n` characters before the caret go. */
  function Backspaces(d: Doc, n: nat): (r: Doc)
    requires d.Valid()
    ensures r.Valid()
  {
    if n == 0 then d else Backspace(Backspaces(d, n - 1))
  }

  /** `n` backspaces take up to `n` characters before the caret out of the flat text, and the caret moves back over them. */
  lemma {:induction false} BackspacesRemove(d: Doc, n: nat)
    requires d.Valid()
    ensures CutBehind(d, Backspaces(d, n), n)
  {
    if n == 0 {
      BackspacesNone(d);
      CutBehindNone(d);
    } else {
      BackspacesRemove(d, n - 1);
      BackspacesWiden(d, n);
    }
  }

  lemma BackspacesNone(d: Doc)
    requires d.Valid()
    ensures Backspaces(d, 0) == d
  {
  }

  lemma BackspacesWiden(d: Doc, n: nat)
    requires d.Valid() && n > 0
    ensures CutBehind(d, Backspaces(d, n - 1), n - 1) ==> CutBehind(d, Backspaces(d, n), n)
  {
    var e := Backspaces(d, n - 1);
    if CutBehind(d, e, n - 1) {
      assert Backspaces(d, n) == Backspace(e);
      BackspaceWidens(d, e, n - 1);
    }
  }

  /** A backspace after `m` of them, as a cut of the flat text of `d`. */
  lemma BackspaceWidens(d: Doc, e: Doc, m: nat)
    requires d.Valid() && e.Valid() && CutBehind(d, e, m)
    ensures CutBehind(d, Backspace(e), m + 1)
  {
    BackspaceFlat(e);
    GapStep(Text(d), Pos(d), m + 1, Text(e), Pos(e), Text(Backspace(e)), Pos(Backspace(e)));
  }

  /** One more backspace on `t` with the gap `pe..p` already cut widens the gap by one character, if there is one. */
  lemma GapStep(t: string, p: nat, n: nat, te: string, pe: nat, tb: string, pb: nat)
    requires n > 0 && p <= |t| && pe == p - Min(n - 1, p) && te == t[..pe] + t[p..]
    requires pe > 0 ==> tb == te[..pe - 1] + te[pe..] && pb == pe - 1
    requires pe == 0 ==> tb == te && pb == pe
    ensures pb == p - Min(n, p) && tb == t[..pb] + t[p..]
  {
    CutBeforeGap(t, pe, p);
  }

  /** Removing the character before the gap of `t[..pe] + t[p..]` widens the gap by one. */
  lemma CutBeforeGap(t: string, pe: nat, p: nat)
    requires pe <= p <= |t|
    ensures pe > 0 ==> (t[..pe] + t[p..])[..pe - 1] + (t[..pe] + t[p..])[pe..] == t[..pe - 1] + t[p..]
  {
    if pe > 0 {
      assert (t[..pe] + t[p..])[..pe - 1] == t[..pe - 1];
      assert (t[..pe] + t[p..])[pe..] == t[p..];
    }
  }

  /** The caret line with the `n` characters just before the caret taken out, and the caret moved back over them. */
  function CutBefore(d: Doc, n: nat): Doc
    requires d.Valid() && n <= d.caret.offset
  {
    var k, off, line := d.caret.line, d.caret.offset, d.CurrentLine();
    Doc(d.lines[k := line[..off - n] + line[off..]], Caret(k, off - n))
  }

  /** Backspaces that stay within the caret line take the characters just before the caret off that line. */
  lemma {:induction false} BackspacesOnLine(d: Doc, n: nat)
    requires d.Valid() && n <= d.caret.offset
    ensures Backspaces(d, n) == CutBefore(d, n)
  {
    if n == 0 {
      CutNothing(d);
    } else {
      BackspacesOnLine(d, n - 1);
      BackspacesStep(d, n);
    }
  }

  lemma CutNothing(d: Doc)
    requires d.Valid()
    ensures CutBefore(d, 0) == d
  {
    var k, off, line := d.caret.line, d.caret.offset, d.CurrentLine();
    assert line[..off] + line[off..] == line;
    assert d.lines[k := line] == d.lines;
  }

  lemma BackspacesStep(d: Doc, n: nat)
    requires d.Valid() && 0 < n <= d.caret.offset
    requires Backspaces(d, n - 1) == CutBefore(d, n - 1)
    ensures Backspaces(d, n) == CutBefore(d, n)
  {
    BackspaceAfterBackspaces(d, n, Backspaces(d, n - 1));
  }

  /** One more backspace on a line from which `n - 1` characters before the caret are gone. */
  lemma BackspaceAfterBackspaces(d: Doc, n: nat, e: Doc)
    requires d.Valid() && 0 < n <= d.caret.offset
    requires e == CutBefore(d, n - 1)
    ensures e.Valid() && Backspace(e) == CutBefore(d, n)
  {
    var k, off, line := d.caret.line, d.caret.offset, d.CurrentLine();
    var eline := line[..off - (n - 1)] + line[off..];
    var target := line[..off - n] + line[off..];
    ValidReplace(d.lines, k, eline);
    assert eline[..off - n] + eline[off - n + 1..] == target by {
      assert eline[..off - n] == line[..off - n];
      assert eline[off - n + 1..] == line[off..];
    }
    BackspaceOnLine(e);
    assert e.lines[k := target] == d.lines[k := target];
  }

  /**
   * `ApplySuggestion` when the slicer succeeds: the partial's length in
   * characters before the caret go (no more than there are), then the
   * suggestion is inserted there.
   */
  function ReplaceBeforeCaret(d: Doc, n: nat, suggestion: string): (r: Doc)
    requires d.Valid()
    ensures r.Valid()
  {
    Insert(Backspaces(d, n), suggestion)
  }

  /** `r` is `d` with the `n` characters before the caret, no more than there are, replaced in the flat text by `s`, and the caret just after `s`. */
  predicate Replaced(d: Doc, r: Doc, n: nat, s: string)
    requires d.Valid() && r.Valid()
  {
    var t, p := Text(d), Pos(d);
    var m := Min(n, p);
    Text(r) == t[..p - m] + s + t[p..] && Pos(r) == p - m + |s|
  }

  /** In the flat text, the characters before the caret, no more than there are, give way to the suggestion, and the caret ends after it. */
  lemma ReplaceFlat(d: Doc, n: nat, suggestion: string)
    requires d.Valid()
    ensures Replaced(d, ReplaceBeforeCaret(d, n, suggestion), n, suggestion)
  {
    var e := Backspaces(d, n);
    BackspacesRemove(d, n);
    var t, p, pe := Text(d), Pos(d), Pos(e);
    assert (t[..pe] + t[p..])[..pe] == t[..pe];
    assert (t[..pe] + t[p..])[pe..] == t[p..];
    InsertFlat(e, suggestion);
  }

  /** Replacing up to the caret's offset in characters stays within the caret line. */
  lemma ReplaceOnLine(d: Doc, n: nat, suggestion: string)
    requires d.Valid() && n <= d.caret.offset && NoLineBreak(suggestion)
    ensures var k, off, line := d.caret.line, d.caret.offset, d.CurrentLine();
      ReplaceBeforeCaret(d, n, suggestion) == Doc(d.lines[k := line[..off - n] + suggestion + line[off..]], Caret(k, off - n + |suggestion|))
  {
    var k, off, line := d.caret.line, d.caret.offset, d.CurrentLine();
    var e := Backspaces(d, n);
    var eline := line[..off - n] + line[off..];
    assert e == Doc(d.lines[k := eline], Caret(k, off - n)) by {
      BackspacesOnLine(d, n);
    }
    assert Insert(e, suggestion) == Doc(e.lines[k := eline[..off - n] + suggestion + eline[off - n..]], Caret(k, off - n + |suggestion|)) by {
      InsertOnLine(e, suggestion);
    }
    assert eline[..off - n] + suggestion + eline[off - n..] == line[..off - n] + suggestion + line[off..];
    assert e.lines[k := line[..off - n] + suggestion + line[off..]] == d.lines[k := line[..off - n] + suggestion + line[off..]];
  }

  /**
   * With the caret at the end of a line that does not end in whitespace,
   * applying a suggestion without line breaks replaces the partial name at
   * the end of the line by the suggestion.
   */
  lemma SuggestionReplacesPartial(d: Doc, q: Query, suggestion: string)
    requires d.Valid() && d.caret.offset == |d.CurrentLine()| && NoLineBreak(suggestion)
    requires var line := d.CurrentLine(); line == [] || !IsWhitespace(line[|line| - 1])
    requires SuggestionText(d.CurrentLine(), d.caret.offset) == Some(q)
    ensures EndsWith(d.CurrentLine(), q.partial)
    ensures ReplaceBeforeCaret(d, |q.partial|, suggestion) == EndReplaced(d, |q.partial|, suggestion)
  {
    PartialBeforeCaret(d.CurrentLine());
    ReplaceAtEnd(d, |q.partial|, suggestion);
  }

  /** The caret line with its last `n` characters replaced by `suggestion`, and the caret after it. */
  function EndReplaced(d: Doc, n: nat, suggestion: string): Doc
    requires d.Valid() && n <= |d.CurrentLine()|
  {
    var k, line := d.caret.line, d.CurrentLine();
    Doc(d.lines[k := line[..|line| - n] + suggestion], Caret(k, |line| - n + |suggestion|))
  }

  /** With the caret at the end of its line, replacing stays at the end of that line. */
  lemma ReplaceAtEnd(d: Doc, n: nat, suggestion: string)
    requires d.Valid() && d.caret.offset == |d.CurrentLine()| && n <= d.caret.offset && NoLineBreak(suggestion)
    ensures ReplaceBeforeCaret(d, n, suggestion) == EndReplaced(d, n, suggestion)
  {
    var line := d.CurrentLine();
    ReplaceOnLine(d, n, suggestion);
    assert line[..|line| - n] + suggestion + line[|line|..] == line[..|line| - n] + suggestion;
  }

  /**
   * What `ApplySuggestion` makes of a document: when the slicer finds a
   * partial name at the caret, the partial is replaced by the suggestion;
   * otherwise the document stays as it is.
   */
  function AppliedSuggestion(d: Doc, suggestion: string): (r: Doc)
    requires d.Valid()
    ensures r.Valid()
    ensures SuggestionText(d.CurrentLine(), d.caret.offset).None? ==> r == d
  {
    var q := SuggestionText(d.CurrentLine(), d.caret.offset);
    if q.None? then d else ReplaceBeforeCaret(d, |q.value.partial|, suggestion)
  }

  /** With a query at the caret, the partial's length in characters before the caret give way to the suggestion in the flat text. */
  lemma AppliedFlat(d: Doc, q: Query, suggestion: string)
    requires d.Valid() && SuggestionText(d.CurrentLine(), d.caret.offset) == Some(q)
    ensures Replaced(d, AppliedSuggestion(d, suggestion), |q.partial|, suggestion)
  {
    ReplaceFlat(d, |q.partial|, suggestion);
  }

  // ---------------------------------------------------------------------
  // The widget
  // ---------------------------------------------------------------------

  /** What is selected when a key is pressed: nothing, text within one line, or whole lines `first` to `last`. */
  datatype Selection = NoSelection | OneLine | Lines(first: nat, last: nat)

  /**
   * The edit a routed key makes to the document: Enter breaks the line, Tab
   * and Shift+Tab shift the caret line or the selected lines, the latter
   * with the caret target as written.
   */
  function KeyEdit(d: Doc, action: Action, selection: Selection): (r: Doc)
    requires d.Valid()
    requires selection.Lines? ==> ValidRange(d, selection.first, selection.last)
    ensures r.Valid()
    ensures action != NewLine && !action.TabIndent? ==> r == d
  {
    if action == NewLine then NewLineAt(d)
    else if action.TabIndent? then
      if selection.Lines? then TabLinesAsWritten(d, selection.first, selection.last, action.unindent)
      else TabLine(d, action.unindent)
    else d
  }

  /** Deleting at the start of line `k` while it holds `line[i..]` leaves `line[i + 1..]`. */
  lemma DeleteFirst(lines: seq<string>, k: nat, line: string, i: nat)
    requires k < |lines| && i < |line| && Doc(lines[k := line[i..]], Caret(k, 0)).Valid()
    ensures Delete(Doc(lines[k := line[i..]], Caret(k, 0))) == Doc(lines[k := line[i + 1..]], Caret(k, 0))
  {
    var d := Doc(lines[k := line[i..]], Caret(k, 0));
    DeleteOnLine(d);
    assert line[i..][..0] + line[i..][1..] == line[i + 1..];
    assert d.lines[k := line[i + 1..]] == lines[k := line[i + 1..]];
  }

  class PythonTextEditor {
    /** The host layout's lines. */
    var lines: seq<string>
    /** `CaretLocation`, kept in step with the host caret by `OnCursorMoved`. */
    var caretLocation: Caret
    /** `bCompleterIsShown`. */
    var completerIsShown: bool

    function State(): Doc
      reads this
    {
      Doc(lines, caretLocation)
    }

    predicate Valid()
      reads this
    {
      State().Valid()
    }

    /** `Construct`: the initial text split into lines, the caret at the start, the completer hidden. */
    constructor (text: string)
      ensures Valid() && Text(State()) == text
      ensures caretLocation == Caret(0, 0) && !completerIsShown
    {
      lines := SplitLines(text);
      caretLocation := Caret(0, 0);
      completerIsShown := false;
    }

    method SetCompleterIsShown(shown: bool)
      modifies this
      ensures completerIsShown == shown && State() == old(State())
    {
      completerIsShown := shown;
    }

    /** `OnCursorMoved`: the host reports where its caret went. */
    method OnCursorMoved(location: Caret)
      requires Valid() && Doc(lines, location).Valid()
      modifies this
      ensures Valid() && caretLocation == location
      ensures lines == old(lines) && completerIsShown == old(completerIsShown)
    {
      caretLocation := location;
    }

    // The host text layout, as driven from here.

    method GoTo(line: int, offset: int)
      requires Valid()
      modifies this
      ensures Valid() && State() == Document.GoTo(old(State()), line, offset)
      ensures completerIsShown == old(completerIsShown)
    {
      var d := Document.GoTo(State(), line, offset);
      lines, caretLocation := d.lines, d.caret;
    }

    method InsertTextAtCursor(s: string)
      requires Valid()
      modifies this
      ensures Valid() && State() == Insert(old(State()), s)
      ensures completerIsShown == old(completerIsShown)
    {
      var d := Insert(State(), s);
      lines, caretLocation := d.lines, d.caret;
    }

    method HandleBackspace()
      requires Valid()
      modifies this
      ensures Valid() && State() == Backspace(old(State()))
      ensures completerIsShown == old(completerIsShown)
    {
      var d := Backspace(State());
      lines, caretLocation := d.lines, d.caret;
    }

    method HandleDelete()
      requires Valid()
      modifies this
      ensures Valid() && State() == Delete(old(State()))
      ensures completerIsShown == old(completerIsShown)
    {
      var d := Delete(State());
      lines, caretLocation := d.lines, d.caret;
    }

    // The editor's own operations.

    /** `IndentLine`: four spaces go in front of line `k`, and the caret ends after them. */
    method IndentLine(k: nat)
      requires Valid() && k < |lines|
      modifies this
      ensures Valid() && lines == old(lines)[k := Indent + old(lines)[k]] && caretLocation == Caret(k, 4)
      ensures completerIsShown == old(completerIsShown)
    {
      GoTo(k, 0);
      InsertOnLine(State(), Indent);
      assert lines[k][..0] + Indent + lines[k][0..] == Indent + lines[k];
      InsertTextAtCursor(Indent);
    }

    /**
     * `UnIndentLine`: deletes the leading spaces of line `k`, at most four,
     * from the start of the line, and returns how many went.
     */
    method UnIndentLine(k: nat, line: string) returns (removed: int)
      requires Valid() && k < |lines| && line == lines[k]
      modifies this
      ensures removed == UnIndentCount(line) && removed <= 4
      ensures forall i :: 0 <= i < removed ==> line[i] == ' '
      ensures Valid() && lines == old(lines)[k := line[removed..]] && caretLocation == Caret(k, 0)
      ensures completerIsShown == old(completerIsShown)
    {
      GoTo(k, 0);
      var whitespace := LeadingSpaces(line);
      var toRemove := Min(|whitespace|, 4);
      var i := 0;
      while i < toRemove
        invariant 0 <= i <= toRemove
        invariant Valid() && lines == old(lines)[k := line[i..]] && caretLocation == Caret(k, 0)
        invariant completerIsShown == old(completerIsShown)
      {
        DeleteFirst(old(lines), k, line, i);
        HandleDelete();
        i := i + 1;
      }
      assert line[0..] == line;
      removed := toRemove;
    }

    /**
     * `GetSuggestionText`: `objectOut` and `partialOut` stand for the two
     * out-pointers, `None` for a null one.  On success both are overwritten;
     * on failure both come back as they were.
     */
    method GetSuggestionText(objectOut: Option<string>, partialOut: Option<string>)
      returns (found: bool, objectString: Option<string>, partialString: Option<string>)
      requires Valid()
      ensures var q := SuggestionText(State().CurrentLine(), caretLocation.offset);
        && (found <==> objectOut.Some? && partialOut.Some? && q.Some?)
        && (found ==> objectString == Some(q.value.obj) && partialString == Some(q.value.partial))
        && (!found ==> objectString == objectOut && partialString == partialOut)
    {
      if objectOut.None? || partialOut.None? {
        return false, objectOut, partialOut;
      }
      var q := SuggestionText(lines[caretLocation.line], caretLocation.offset);
      if q.None? {
        return false, objectOut, partialOut;
      }
      found, objectString, partialString := true, Some(q.value.obj), Some(q.value.partial);
    }

    /**
     * `ApplySuggestion`: when the slicer finds a partial name, that many
     * characters before the caret are backspaced and the suggestion is
     * inserted; otherwise nothing changes.
     */
    method ApplySuggestion(suggestion: string)
      requires Valid()
      modifies this
      ensures Valid() && completerIsShown == old(completerIsShown)
      ensures State() == AppliedSuggestion(old(State()), suggestion)
    {
      ghost var d := State();
      var found, objectString, partialString := GetSuggestionText(Some(""), Some(""));
      if found {
        var partial := partialString.value;
        var i := 0;
        while i < |partial|
          invariant 0 <= i <= |partial|
          invariant Valid() && State() == Backspaces(d, i)
          invariant completerIsShown == old(completerIsShown)
        {
          HandleBackspace();
          i := i + 1;
        }
        InsertTextAtCursor(suggestion);
      }
    }

    /** Tab with nothing or a single line selected. */
    method TabCaretLine(unindent: bool)
      requires Valid()
      modifies this
      ensures Valid() && State() == TabLine(old(State()), unindent)
      ensures completerIsShown == old(completerIsShown)
    {
      var stored := caretLocation;
      GoTo(stored.line, 0);
      if unindent {
        var allLines := lines;
        var line := allLines[stored.line];
        var removed := UnIndentLine(stored.line, line);
        GoTo(stored.line, stored.offset - removed);
      } else {
        IndentLine(stored.line);
        GoTo(stored.line, stored.offset + 4);
      }
    }

    /** One pass of the loop below: line `k` indented or unindented, and the change on it. */
    method ShiftLineAt(k: nat, unindent: bool) returns (lineChange: int)
      requires Valid() && k < |lines|
      modifies this
      ensures Valid() && lines == old(lines)[k := ShiftLine(old(lines)[k], unindent)]
      ensures caretLocation == Caret(k, if unindent then 0 else 4)
      ensures unindent ==> lineChange == UnIndentCount(old(lines)[k])
      ensures completerIsShown == old(completerIsShown)
    {
      if unindent {
        lineChange := UnIndentLine(k, lines[k]);
      } else {
        IndentLine(k);
        lineChange := 4;
      }
    }

    /**
     * Tab with the lines `first` to `last` selected, as the source does it:
     * the caret target adds the change on Shift+Tab too (`TabLinesAsWritten`).
     */
    method TabSelectedLines(first: nat, last: nat, unindent: bool)
      requires Valid() && ValidRange(State(), first, last)
      modifies this
      ensures Valid() && State() == TabLinesAsWritten(old(State()), first, last, unindent)
      ensures completerIsShown == old(completerIsShown)
    {
      var stored := caretLocation;
      var allLines := lines;
      var change := 4;
      var i := first;
      while i <= last
        invariant first <= i <= last + 1
        invariant Valid() && lines == ShiftRange(allLines, first, i, unindent)
        invariant i > first ==> caretLocation == Caret(i - 1, if unindent then 0 else 4)
        invariant unindent && i > stored.line ==> change == UnIndentCount(allLines[stored.line])
        invariant !unindent ==> change == 4
        invariant completerIsShown == old(completerIsShown)
      {
        ShiftRangeStep(allLines, first, i, unindent);
        var lineChange := ShiftLineAt(i, unindent);
        if unindent && i == stored.line {
          change := lineChange;
        }
        i := i + 1;
      }
      GoTo(stored.line, TabLinesTargetAsWritten(stored.offset, change));
    }

    /** Enter with the completer hidden. */
    method BreakLine()
      requires Valid()
      modifies this
      ensures Valid() && State() == NewLineAt(old(State()))
      ensures completerIsShown == old(completerIsShown)
    {
      var currentLine := lines[caretLocation.line];
      InsertTextAtCursor(EnterText(currentLine));
    }

    /**
     * `OnKeyDown`: routes the key as `KeyDispatch` says; Tab and Enter edit
     * the text here, every other action is left to the panel or the host.
     */
    method OnKeyDown(key: Key, mods: Modifiers, selection: Selection) returns (action: Action, reply: Reply)
      requires Valid()
      requires selection.Lines? ==> selection.first < selection.last && ValidRange(State(), selection.first, selection.last)
      modifies this
      ensures (action, reply) == KeyDispatch(key, mods, old(completerIsShown), selection != NoSelection, Text(old(State())) == "")
      ensures Valid() && completerIsShown == old(completerIsShown)
      ensures State() == KeyEdit(old(State()), action, selection)
    {
      var routed := KeyDispatch(key, mods, completerIsShown, selection != NoSelection, Text(State()) == "");
      action, reply := routed.0, routed.1;
      if action == NewLine {
        BreakLine();
      } else if action.TabIndent? {
        if selection.Lines? {
          TabSelectedLines(selection.first, selection.last, action.unindent);
        } else {
          TabCaretLine(action.unindent);
        }
      }
    }
  }
}

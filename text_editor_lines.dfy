/**
 * The line-level string logic of `SPythonTextEditor`: the leading spaces of
 * a line (`GetPreceedingWhitespace`), indenting by four spaces, the text
 * inserted on Enter, and the autocomplete slicer `GetSuggestionText`, which
 * turns the caret line into the object to ask `dir()` about and the partial
 * name typed so far.
 */
module EditorText {
  import opened Wrappers
  import opened Chars

  function Min(a: int, b: int): int {
    if a <= b then a else b
  }

  // ---------------------------------------------------------------------
  // Indentation
  // ---------------------------------------------------------------------

  /** The indentation unit: four spaces. */
  const Indent: string := "    "

  /**
   * `GetPreceedingWhitespace`: the regex `^([ ]+).*$` captures the longest
   * run of spaces that starts the line (tabs do not count), or nothing.
   */
  function LeadingSpaces(line: string): (w: string)
    ensures |w| <= |line| && w == line[..|w|]
    ensures forall i :: 0 <= i < |w| ==> w[i] == ' '
    ensures |w| < |line| ==> line[|w|] != ' '
  {
    if |line| > 0 && line[0] == ' ' then [' '] + LeadingSpaces(line[1..]) else ""
  }

  /** The number of characters `UnIndentLine` deletes: the leading spaces, at most four. */
  function UnIndentCount(line: string): (n: nat)
    ensures n <= 4 && n <= |line|
    ensures forall i :: 0 <= i < n ==> line[i] == ' '
    ensures n < 4 ==> n == |line| || line[n] != ' '
  {
    Min(|LeadingSpaces(line)|, 4)
  }

  /** A space in front of a line is one more leading space. */
  lemma LeadingSpacesCons(line: string)
    ensures LeadingSpaces(" " + line) == " " + LeadingSpaces(line)
  {
    assert (" " + line)[1..] == line;
  }

  /** Indenting a line puts four more spaces in front of its leading spaces. */
  lemma LeadingSpacesIndented(line: string)
    ensures LeadingSpaces(Indent + line) == Indent + LeadingSpaces(line)
  {
    var l1 := " " + line;
    var l2 := " " + l1;
    var l3 := " " + l2;
    LeadingSpacesCons(line);
    LeadingSpacesCons(l1);
    LeadingSpacesCons(l2);
    LeadingSpacesCons(l3);
    assert Indent + line == " " + l3;
  }

  /** Unindenting an indented line gives the line back. */
  lemma UnIndentIndented(line: string)
    ensures UnIndentCount(Indent + line) == 4
    ensures (Indent + line)[UnIndentCount(Indent + line)..] == line
  {
    LeadingSpacesIndented(line);
  }

  /** Unindenting changes nothing only when the line does not start with a space. */
  lemma UnIndentNothing(line: string)
    ensures UnIndentCount(line) == 0 <==> line == [] || line[0] != ' '
  {
  }

  // ---------------------------------------------------------------------
  // Enter
  // ---------------------------------------------------------------------

  /**
   * What Enter inserts with the completer hidden: a line feed, four more
   * spaces when the whole current line ends with a colon, and the current
   * line's leading spaces.
   */
  function EnterText(line: string): (s: string)
    ensures |s| > 0 && s[0] == '\n'
    ensures forall i :: 1 <= i < |s| ==> s[i] == ' '
    ensures EndsWith(line, ":") ==> |s| == 1 + 4 + |LeadingSpaces(line)|
    ensures !EndsWith(line, ":") ==> |s| == 1 + |LeadingSpaces(line)|
  {
    "\n" + (if EndsWith(line, ":") then Indent else "") + LeadingSpaces(line)
  }

  // ---------------------------------------------------------------------
  // GetSuggestionText
  // ---------------------------------------------------------------------

  /** The characters of the regex class `[a-zA-Z_\.]`. */
  predicate IsNameChar(c: char) {
    IsLetter(c) || c == '_' || c == '.'
  }

  /** The line terminators the regex `.` does not match. */
  predicate BreaksDot(c: char) {
    c == '\n' || c == '\U{000B}' || c == '\U{000C}' || c == '\r' || c == '\U{0085}' || c == '\U{2028}' || c == '\U{2029}'
  }

  predicate NoDotBreak(s: string) {
    forall i :: 0 <= i < |s| ==> !BreaksDot(s[i])
  }

  /** The longest suffix of name characters. */
  function TrailingRun(s: string): (r: string)
    ensures |r| <= |s| && r == s[|s| - |r|..]
    ensures forall i :: 0 <= i < |r| ==> IsNameChar(r[i])
    ensures |r| < |s| ==> !IsNameChar(s[|s| - |r| - 1])
  {
    if |s| > 0 && IsNameChar(s[|s| - 1]) then
      var r := TrailingRun(s[..|s| - 1]);
      assert s[..|s| - 1][|s| - 1 - |r|..] + [s[|s| - 1]] == s[|s| - |r| - 1..];
      r + [s[|s| - 1]]
    else ""
  }

  /** `Find(".", FromEnd)`: the index of the last dot, or -1. */
  function LastDot(s: string): (i: int)
    ensures -1 <= i < |s|
    ensures i >= 0 ==> s[i] == '.'
    ensures forall j :: i < j < |s| ==> s[j] != '.'
  {
    if s == [] then -1
    else if s[|s| - 1] == '.' then |s| - 1
    else LastDot(s[..|s| - 1])
  }

  /** The text the slicer examines: the caret line cut after the character following the caret, then trimmed. */
  function Examined(line: string, offset: nat): (t: string)
    ensures |t| <= |line|
  {
    TrimStartAndEnd(line[..Min(offset + 1, |line|)])
  }

  /** The object to complete on and the partial name typed after it. */
  datatype Query = Query(obj: string, partial: string)

  /**
   * The three ways a run that does not start with a dot splits into object
   * and partial: a run ending in a dot is all object; otherwise the object
   * is the text before the last dot and the partial the text after it, or,
   * with no dot, `globals()` and the whole run.  The object is never empty,
   * the partial holds no dot and ends the run.
   */
  function SplitRun(run: string): (q: Query)
    requires run != [] && run[0] != '.'
    ensures q.obj != [] && '.' !in q.partial && EndsWith(run, q.partial)
    ensures '.' in run ==> q.obj + "." + q.partial == run
    ensures '.' !in run ==> q.obj == "globals()" && q.partial == run
  {
    if run[|run| - 1] == '.' then
      assert run == run[..|run| - 1] + ".";
      Query(run[..|run| - 1], "")
    else
      var dot := LastDot(run);
      if dot > 0 then
        assert run == run[..dot] + "." + run[dot + 1..];
        Query(run[..dot], run[dot + 1..])
      else
        assert dot == -1;
        Query("globals()", run)
  }

  /**
   * `GetSuggestionText` with both out-pointers present: the regex
   * `^.*?([a-zA-Z_\.]+)$` captures the longest trailing run of name
   * characters, provided no line terminator precedes it; a run starting
   * with a dot fails.
   */
  function SuggestionText(line: string, offset: nat): Option<Query>
  {
    var text := Examined(line, offset);
    var run := TrailingRun(text);
    if run == [] || !NoDotBreak(text[..|text| - |run|]) || run[0] == '.' then None
    else Some(SplitRun(run))
  }

  /** The run the slicer works on. */
  function RunOf(line: string, offset: nat): string {
    TrailingRun(Examined(line, offset))
  }

  /**
   * On success the object is not empty, the partial holds no dot, and the
   * two rebuild the run: around its last dot when it has one, else as
   * `globals()` and the whole run.  Either way the partial ends the run.
   */
  lemma SuggestionRebuildsRun(line: string, offset: nat)
    requires SuggestionText(line, offset).Some?
    ensures var q, run := SuggestionText(line, offset).value, RunOf(line, offset);
      && q.obj != [] && '.' !in q.partial
      && ('.' in run ==> q.obj + "." + q.partial == run)
      && ('.' !in run ==> q.obj == "globals()" && q.partial == run)
      && EndsWith(run, q.partial)
  {
  }

  /** The slicer fails whenever the examined text does not end in a name character. */
  lemma SuggestionNeedsNameChar(line: string, offset: nat)
    requires var text := Examined(line, offset); text == [] || !IsNameChar(text[|text| - 1])
    ensures SuggestionText(line, offset).None?
  {
  }

  /** The slicer fails on a run that starts with a dot, such as a float literal's fraction. */
  lemma SuggestionRejectsLeadingDot(line: string, offset: nat)
    requires var run := RunOf(line, offset); run != [] && run[0] == '.'
    ensures SuggestionText(line, offset).None?
  {
  }

  /** `TrimEnd` leaves a line that does not end in whitespace alone. */
  lemma TrimEndKeeps(s: string)
    requires s == [] || !IsWhitespace(s[|s| - 1])
    ensures TrimEnd(s) == s
  {
  }

  /**
   * With the caret at the end of a line that does not end in whitespace,
   * the partial is exactly the text before the caret that `ApplySuggestion`
   * deletes.
   */
  lemma PartialBeforeCaret(line: string)
    requires line == [] || !IsWhitespace(line[|line| - 1])
    requires SuggestionText(line, |line|).Some?
    ensures EndsWith(line, SuggestionText(line, |line|).value.partial)
  {
    var q := SuggestionText(line, |line|).value;
    var text := Examined(line, |line|);
    assert text == TrimStart(line) by {
      assert line[..Min(|line| + 1, |line|)] == line;
      TrimEndKeeps(line);
    }
    var run := TrailingRun(text);
    SuggestionRebuildsRun(line, |line|);
    assert EndsWith(line, text) && EndsWith(text, run) && EndsWith(run, q.partial);
    EndsWithTrans(line, text, run);
    EndsWithTrans(line, run, q.partial);
  }

  /** `TrimStart` leaves a text that does not start with whitespace alone. */
  lemma TrimStartKeeps(s: string)
    requires s == [] || !IsWhitespace(s[0])
    ensures TrimStart(s) == s
  {
  }

  /** The trailing run is pinned down by where the name characters stop. */
  lemma TrailingRunIs(s: string, k: nat)
    requires k <= |s| && (forall i :: k <= i < |s| ==> IsNameChar(s[i]))
    requires k == 0 || !IsNameChar(s[k - 1])
    ensures TrailingRun(s) == s[k..]
  {
  }

  /** The last dot is pinned down by a dot with none after it. */
  lemma LastDotIs(s: string, k: int)
    requires -1 <= k < |s| && (k >= 0 ==> s[k] == '.')
    requires forall j :: k < j < |s| ==> s[j] != '.'
    ensures LastDot(s) == k
  {
  }

  /** The slicer on a line without trailing blanks, once its run is known. */
  lemma SuggestionOnRun(line: string, k: nat)
    requires line != [] && !IsWhitespace(line[0]) && !IsWhitespace(line[|line| - 1])
    requires k < |line| && (forall i :: k <= i < |line| ==> IsNameChar(line[i]))
    requires k == 0 || !IsNameChar(line[k - 1])
    requires NoDotBreak(line[..k])
    ensures SuggestionText(line, |line|) == if line[k] == '.' then None else Some(SplitRun(line[k..]))
  {
    var text := Examined(line, |line|);
    assert text == line by {
      assert line[..Min(|line| + 1, |line|)] == line;
      TrimEndKeeps(line);
      TrimStartKeeps(line);
    }
    var run := TrailingRun(text);
    assert run == line[k..] by {
      TrailingRunIs(line, k);
    }
    assert run != [] && run[0] == line[k];
    assert text[..|text| - |run|] == line[..k];
    if line[k] != '.' {
      assert SuggestionText(line, |line|) == Some(SplitRun(run));
    }
  }

  /** A plain name: letters and underscores, no dot. */
  predicate IsPlainName(s: string) {
    forall i :: 0 <= i < |s| ==> IsLetter(s[i]) || s[i] == '_'
  }

  /** A line `obj.partial`, the caret at its end: the object and the partial are the two sides of the last dot. */
  lemma SuggestionDotted(obj: string, partial: string)
    requires obj != [] && obj[0] != '.' && (forall i :: 0 <= i < |obj| ==> IsNameChar(obj[i]))
    requires partial != [] && IsPlainName(partial)
    ensures var line := obj + "." + partial;
      SuggestionText(line, |line|) == Some(Query(obj, partial))
  {
    var line := obj + "." + partial;
    DottedLine(obj, partial);
    SuggestionOnRun(line, 0);
    assert line[0..] == line;
  }

  lemma DottedLine(obj: string, partial: string)
    requires obj != [] && obj[0] != '.' && (forall i :: 0 <= i < |obj| ==> IsNameChar(obj[i]))
    requires partial != [] && IsPlainName(partial)
    ensures var line := obj + "." + partial;
      && (forall i :: 0 <= i < |line| ==> IsNameChar(line[i]))
      && line[0] == obj[0] && line[|line| - 1] == partial[|partial| - 1]
      && SplitRun(line) == Query(obj, partial)
  {
    var line := obj + "." + partial;
    forall i | 0 <= i < |line| ensures IsNameChar(line[i]) {
      if i > |obj| { assert line[i] == partial[i - |obj| - 1]; }
    }
    forall j | |obj| < j < |line| ensures line[j] != '.' {
      assert line[j] == partial[j - |obj| - 1];
    }
    LastDotIs(line, |obj|);
    assert line[..|obj|] == obj && line[|obj| + 1..] == partial;
  }

  /** A line `obj.`, the caret at its end: the object is all before the dot and the partial is empty. */
  lemma SuggestionAfterDot(obj: string)
    requires obj != [] && obj[0] != '.' && (forall i :: 0 <= i < |obj| ==> IsNameChar(obj[i]))
    ensures SuggestionText(obj + ".", |obj| + 1) == Some(Query(obj, ""))
  {
    var line := obj + ".";
    assert line[0] == obj[0];
    SuggestionOnRun(line, 0);
    assert line[0..] == line;
    assert line[..|obj|] == obj;
  }

  /**
   * A line that is one name without dots completes against `globals()`;
   * the partial runs to the character after the caret.
   */
  lemma SuggestionBareName(name: string, offset: nat)
    requires name != [] && IsPlainName(name)
    ensures var n := Min(offset + 1, |name|);
      SuggestionText(name, offset) == Some(Query("globals()", name[..n]))
  {
    var text := name[..Min(offset + 1, |name|)];
    assert Examined(name, offset) == text by {
      TrimEndKeeps(text);
      TrimStartKeeps(text);
    }
    assert TrailingRun(text) == text by {
      TrailingRunIs(text, 0);
      assert text[0..] == text;
    }
    assert SplitRun(text) == Query("globals()", text) by {
      LastDotIs(text, -1);
    }
  }

  /** A run starting with a dot is refused. */
  lemma SuggestionLeadingDot()
    ensures SuggestionText("f(.abc", 6) == None
  {
    SuggestionOnRun("f(.abc", 2);
  }
}

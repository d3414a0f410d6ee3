/**
 * `SScriptEditorPanel`: the panel around the Python editor.  It owns the
 * completion popup and its `FSuggestions`.  When the editor asks for
 * completion it evaluates `dir(object)`, reads the printed list into
 * candidates, keeps those that contain the partial name, and writes the
 * chosen candidate back into the editor.
 *
 * The Python interpreter is a parameter: `pythonAvailable` says whether the
 * plugin is loaded and running, and `evaluate` maps a statement to the
 * printed result, or to `None` when the evaluation fails.
 */
module ScriptEditorPanel {
  import opened Wrappers
  import opened Chars
  import opened Document
  import opened EditorText
  import opened TextEditor
  import opened SuggestionList

  // ---------------------------------------------------------------------
  // The statement sent to Python
  // ---------------------------------------------------------------------

  /** `dir(%s)` with the object string in place. */
  function DirQuery(obj: string): (command: string)
    ensures |command| == |obj| + 5
    ensures StartsWith(command, "dir(") && EndsWith(command, ")") && command[4..|command| - 1] == obj
  {
    "dir(" + obj + ")"
  }

  // ---------------------------------------------------------------------
  // Removing quotes and brackets
  // ---------------------------------------------------------------------

  /** `Replace(c, "")`: every `c` removed, the rest kept in order. */
  function RemoveChar(s: string, c: char): (r: string)
    ensures c !in r && |r| <= |s|
    ensures forall x :: x in r ==> x in s
  {
    if s == [] then []
    else (if s[0] == c then [] else [s[0]]) + RemoveChar(s[1..], c)
  }

  lemma {:induction false} RemoveCharAppend(a: string, b: string, c: char)
    ensures RemoveChar(a + b, c) == RemoveChar(a, c) + RemoveChar(b, c)
  {
    if a != [] {
      assert (a + b)[1..] == a[1..] + b;
      RemoveCharAppend(a[1..], b, c);
    } else {
      assert a + b == b;
    }
  }

  predicate IsListPunctuation(c: char) {
    c == '\'' || c == '[' || c == ']'
  }

  predicate NoListPunctuation(s: string) {
    forall i :: 0 <= i < |s| ==> !IsListPunctuation(s[i])
  }

  /** The three `Replace` calls of `ShowAutoCompleter`, in source order. */
  function StripListPunctuation(s: string): string {
    RemoveChar(RemoveChar(RemoveChar(s, '\''), '['), ']')
  }

  /** One pass that keeps every character that is neither a quote nor a bracket. */
  function KeepNonPunctuation(s: string): (r: string)
    ensures NoListPunctuation(r)
  {
    if s == [] then []
    else (if IsListPunctuation(s[0]) then [] else [s[0]]) + KeepNonPunctuation(s[1..])
  }

  lemma {:induction false} KeepNonPunctuationAppend(a: string, b: string)
    ensures KeepNonPunctuation(a + b) == KeepNonPunctuation(a) + KeepNonPunctuation(b)
  {
    if a != [] {
      assert (a + b)[1..] == a[1..] + b;
      KeepNonPunctuationAppend(a[1..], b);
    } else {
      assert a + b == b;
    }
  }

  lemma {:induction false} KeepNonPunctuationClean(s: string)
    requires NoListPunctuation(s)
    ensures KeepNonPunctuation(s) == s
  {
    if s != [] {
      KeepNonPunctuationClean(s[1..]);
    }
  }

  /** The three passes remove exactly the quotes and brackets, whatever their order in the text. */
  lemma {:induction false} StripInOnePass(s: string)
    ensures StripListPunctuation(s) == KeepNonPunctuation(s)
  {
    if s != [] {
      var x, t := [s[0]], s[1..];
      assert s == x + t;
      RemoveCharAppend(x, t, '\'');
      RemoveCharAppend(RemoveChar(x, '\''), RemoveChar(t, '\''), '[');
      RemoveCharAppend(RemoveChar(RemoveChar(x, '\''), '['), RemoveChar(RemoveChar(t, '\''), '['), ']');
      StripInOnePass(t);
    }
  }

  // ---------------------------------------------------------------------
  // `ParseIntoArray`
  // ---------------------------------------------------------------------

  /** `d` occurs in `s` at index `i`. */
  predicate Occurs(s: string, d: string, i: int) {
    0 <= i && i + |d| <= |s| && s[i..i + |d|] == d
  }

  predicate Contains(s: string, d: string) {
    exists i :: 0 <= i <= |s| - |d| && Occurs(s, d, i)
  }

  /** `FCString::Strstr` from index `from`: the first occurrence of `d` there or later, or -1. */
  function FindFrom(s: string, d: string, from: nat): (r: int)
    requires d != []
    ensures r == -1 || (from <= r && Occurs(s, d, r))
    ensures forall j :: from <= j && (r == -1 || j < r) ==> !Occurs(s, d, j)
    decreases |s| - from
  {
    if from + |d| > |s| then -1
    else if s[from..from + |d|] == d then from
    else FindFrom(s, d, from + 1)
  }

  /** The pieces between the leftmost non-overlapping occurrences of `d`, empty pieces kept. */
  function Split(s: string, d: string): (pieces: seq<string>)
    requires d != []
    ensures |pieces| >= 1
    decreases |s|
  {
    var i := FindFrom(s, d, 0);
    if i < 0 then [s]
    else [s[..i]] + Split(s[i + |d|..], d)
  }

  /** `FString::Join`: the pieces with `d` between each two. */
  function JoinWith(pieces: seq<string>, d: string): string
    requires |pieces| >= 1
  {
    if |pieces| == 1 then pieces[0] else pieces[0] + d + JoinWith(pieces[1..], d)
  }

  /** `CullEmpty`: the empty pieces dropped, the others kept in order. */
  function Cull(pieces: seq<string>): (r: seq<string>)
    ensures forall k :: 0 <= k < |r| ==> r[k] != []
    ensures forall p :: p in r <==> p in pieces && p != []
  {
    if pieces == [] then []
    else (if pieces[0] == [] then [] else [pieces[0]]) + Cull(pieces[1..])
  }

  /** `ParseIntoArray(Out, d, true)`. */
  function ParseIntoArray(s: string, d: string): seq<string>
    requires d != []
  {
    Cull(Split(s, d))
  }

  /** Splitting and joining again gives back the text. */
  lemma {:induction false} JoinSplit(s: string, d: string)
    requires d != []
    ensures JoinWith(Split(s, d), d) == s
    decreases |s|
  {
    var i := FindFrom(s, d, 0);
    if i >= 0 {
      var rest := s[i + |d|..];
      var pieces := Split(s, d);
      assert pieces == [s[..i]] + Split(rest, d);
      assert JoinWith(pieces, d) == s[..i] + d + JoinWith(Split(rest, d), d) by {
        assert pieces[1..] == Split(rest, d);
      }
      JoinSplit(rest, d);
      assert s == s[..i] + s[i..i + |d|] + rest;
    }
  }

  lemma OccursInPrefix(s: string, d: string, i: nat, j: int)
    requires i <= |s| && Occurs(s[..i], d, j)
    ensures Occurs(s, d, j) && j + |d| <= i
  {
    assert s[..i][j..j + |d|] == s[j..j + |d|];
  }

  /** No piece contains the delimiter. */
  lemma {:induction false} SplitPiecesFree(s: string, d: string)
    requires d != []
    ensures forall k :: 0 <= k < |Split(s, d)| ==> !Contains(Split(s, d)[k], d)
    decreases |s|
  {
    var i := FindFrom(s, d, 0);
    if i >= 0 {
      SplitPiecesFree(s[i + |d|..], d);
      forall j | Occurs(s[..i], d, j)
        ensures false
      {
        OccursInPrefix(s, d, i, j);
      }
    }
  }

  /** Every item `ParseIntoArray` yields is non-empty and free of the delimiter. */
  lemma ParseIntoArrayItems(s: string, d: string)
    requires d != []
    ensures forall k :: 0 <= k < |ParseIntoArray(s, d)| ==> ParseIntoArray(s, d)[k] != [] && !Contains(ParseIntoArray(s, d)[k], d)
  {
    SplitPiecesFree(s, d);
    var pieces := Split(s, d);
    forall k | 0 <= k < |ParseIntoArray(s, d)|
      ensures !Contains(ParseIntoArray(s, d)[k], d)
    {
      var p := ParseIntoArray(s, d)[k];
      assert p in pieces;
    }
  }

  /** A name `ParseIntoArray(.., ", ", ..)` can give back: not empty and without `", "` inside. */
  predicate PlainItem(n: string) {
    n != [] && !Contains(n, ", ")
  }

  lemma FindAfterPlainItem(n: string, rest: string)
    requires PlainItem(n)
    ensures FindFrom(n + ", " + rest, ", ", 0) == |n|
  {
    var s := n + ", " + rest;
    assert s[|n|..|n| + 2] == ", ";
    assert Occurs(s, ", ", |n|);
    forall j | 0 <= j < |n|
      ensures !Occurs(s, ", ", j)
    {
      NoSeparatorInside(n, rest, j);
    }
  }

  lemma NoSeparatorInside(n: string, rest: string, j: nat)
    requires PlainItem(n) && j < |n|
    ensures !Occurs(n + ", " + rest, ", ", j)
  {
    var s := n + ", " + rest;
    if j + 2 <= |n| {
      assert s[..|n|] == n;
      assert s[j..j + 2] == s[..|n|][j..j + 2];
      assert !Occurs(n, ", ", j);
    } else {
      assert s[j + 1] == s[|n|] == ',';
    }
  }

  lemma {:induction false} SplitJoin(names: seq<string>)
    requires |names| >= 1 && forall k :: 0 <= k < |names| ==> PlainItem(names[k])
    ensures Split(JoinWith(names, ", "), ", ") == names
  {
    if |names| > 1 {
      var rest := JoinWith(names[1..], ", ");
      var s := names[0] + ", " + rest;
      FindAfterPlainItem(names[0], rest);
      assert s[..|names[0]|] == names[0];
      assert s[|names[0]| + 2..] == rest;
      SplitJoin(names[1..]);
    } else {
      assert !Contains(names[0], ", ");
    }
  }

  lemma {:induction false} CullKeeps(pieces: seq<string>)
    requires forall k :: 0 <= k < |pieces| ==> pieces[k] != []
    ensures Cull(pieces) == pieces
  {
    if pieces != [] {
      CullKeeps(pieces[1..]);
    }
  }

  /** Items joined by `", "` and parsed again come back unchanged, in order. */
  lemma ParseJoinRoundTrip(names: seq<string>)
    requires |names| >= 1 && forall k :: 0 <= k < |names| ==> PlainItem(names[k])
    ensures ParseIntoArray(JoinWith(names, ", "), ", ") == names
  {
    SplitJoin(names);
    CullKeeps(names);
  }

  // ---------------------------------------------------------------------
  // The candidates read from the answer to `dir(object)`
  // ---------------------------------------------------------------------

  /** The completion list read from a printed Python list. */
  function Candidates(answer: string): seq<string> {
    ParseIntoArray(StripListPunctuation(answer), ", ")
  }

  /** How Python prints a list of names without quotes in them: `['a', 'b']`. */
  function PythonList(names: seq<string>): string {
    "[" + QuotedItems(names) + "]"
  }

  function QuotedItems(names: seq<string>): string {
    if |names| == 0 then ""
    else if |names| == 1 then "'" + names[0] + "'"
    else "'" + names[0] + "'" + ", " + QuotedItems(names[1..])
  }

  lemma {:induction false} QuotedItemsStripped(names: seq<string>)
    requires |names| >= 1 && forall k :: 0 <= k < |names| ==> NoListPunctuation(names[k])
    ensures KeepNonPunctuation(QuotedItems(names)) == JoinWith(names, ", ")
  {
    QuotedStripped(names[0]);
    if |names| > 1 {
      QuotedItemsStripped(names[1..]);
      QuotedThenRest(names[0], QuotedItems(names[1..]));
    }
  }

  lemma QuotedStripped(name: string)
    requires NoListPunctuation(name)
    ensures KeepNonPunctuation("'" + name + "'") == name
  {
    KeepNonPunctuationClean(name);
    KeepNonPunctuationAppend("'", name);
    KeepNonPunctuationAppend("'" + name, "'");
  }

  lemma QuotedThenRest(name: string, rest: string)
    requires NoListPunctuation(name)
    ensures KeepNonPunctuation("'" + name + "'" + ", " + rest) == name + ", " + KeepNonPunctuation(rest)
  {
    QuotedStripped(name);
    KeepNonPunctuationAppend("'" + name + "'", ", ");
    KeepNonPunctuationAppend("'" + name + "'" + ", ", rest);
    assert KeepNonPunctuation(", ") == ", ";
  }

  /**
   * The list `dir` prints for names that are not empty and hold no quote,
   * bracket or `", "` (every Python identifier qualifies) is read back as
   * exactly those names, in order.
   */
  lemma CandidatesOfPythonList(names: seq<string>)
    requires forall k :: 0 <= k < |names| ==> PlainItem(names[k]) && NoListPunctuation(names[k])
    ensures Candidates(PythonList(names)) == names
  {
    var text := PythonList(names);
    StripInOnePass(text);
    KeepNonPunctuationAppend("[" + QuotedItems(names), "]");
    KeepNonPunctuationAppend("[", QuotedItems(names));
    if |names| == 0 {
      assert StripListPunctuation(text) == "";
    } else {
      QuotedItemsStripped(names);
      assert StripListPunctuation(text) == JoinWith(names, ", ");
      ParseJoinRoundTrip(names);
    }
  }

  /** Every candidate is a non-empty name with no quote, bracket or `", "` in it. */
  lemma CandidatesAreClean(answer: string)
    ensures forall k :: 0 <= k < |Candidates(answer)| ==>
      PlainItem(Candidates(answer)[k]) && NoListPunctuation(Candidates(answer)[k])
  {
    var stripped := StripListPunctuation(answer);
    StripInOnePass(answer);
    ParseIntoArrayItems(stripped, ", ");
    SplitKeepsClean(stripped, ", ");
    forall k | 0 <= k < |Candidates(answer)|
      ensures NoListPunctuation(Candidates(answer)[k])
    {
      assert Candidates(answer)[k] in Split(stripped, ", ");
    }
  }

  lemma {:induction false} SplitKeepsClean(s: string, d: string)
    requires d != [] && NoListPunctuation(s)
    ensures forall k :: 0 <= k < |Split(s, d)| ==> NoListPunctuation(Split(s, d)[k])
    decreases |s|
  {
    var i := FindFrom(s, d, 0);
    if i >= 0 {
      SplitKeepsClean(s[i + |d|..], d);
    }
  }

  // ---------------------------------------------------------------------
  // Filtering by the partial name
  // ---------------------------------------------------------------------

  /** `FilterByPredicate` with `Contains(PartialString, IgnoreCase)`. */
  function FilterByPartial(list: seq<string>, partial: string): (r: seq<string>)
    ensures |r| <= |list|
  {
    if list == [] then []
    else (if ContainsIgnoreCase(list[0], partial) then [list[0]] else []) + FilterByPartial(list[1..], partial)
  }

  /** The kept entries are exactly the entries that contain the partial, ignoring case. */
  lemma {:induction false} FilterMembers(list: seq<string>, partial: string)
    ensures forall x :: x in FilterByPartial(list, partial) <==> x in list && ContainsIgnoreCase(x, partial)
  {
    if list != [] {
      var head := if ContainsIgnoreCase(list[0], partial) then [list[0]] else [];
      FilterMembers(list[1..], partial);
      assert list == [list[0]] + list[1..];
      assert FilterByPartial(list, partial) == head + FilterByPartial(list[1..], partial);
    }
  }

  /** Filtering keeps the order: it distributes over concatenation. */
  lemma {:induction false} FilterKeepsOrder(a: seq<string>, b: seq<string>, partial: string)
    ensures FilterByPartial(a + b, partial) == FilterByPartial(a, partial) + FilterByPartial(b, partial)
  {
    if a != [] {
      var head := if ContainsIgnoreCase(a[0], partial) then [a[0]] else [];
      assert (a + b)[0] == a[0] && (a + b)[1..] == a[1..] + b;
      assert FilterByPartial(a + b, partial) == head + FilterByPartial(a[1..] + b, partial);
      FilterKeepsOrder(a[1..], b, partial);
      assert FilterByPartial(a, partial) == head + FilterByPartial(a[1..], partial);
    } else {
      assert a + b == b;
    }
  }

  /** An empty partial keeps the whole list, so the source's `Len()` test changes nothing. */
  lemma {:induction false} FilterEmptyPartial(list: seq<string>)
    ensures FilterByPartial(list, "") == list
  {
    if list != [] {
      ContainsEmpty(list[0]);
      FilterEmptyPartial(list[1..]);
    }
  }

  // ---------------------------------------------------------------------
  // One row of the list
  // ---------------------------------------------------------------------

  /** `ReplaceInline("\r\n", "\n")`: leftmost pairs first, without overlap. */
  function ReplaceCrLf(s: string): (r: string)
    ensures |r| <= |s|
  {
    if s == [] then []
    else if |s| >= 2 && s[0] == '\r' && s[1] == '\n' then "\n" + ReplaceCrLf(s[2..])
    else [s[0]] + ReplaceCrLf(s[1..])
  }

  /** `ReplaceInline` of one character by another. */
  function ReplaceChar(s: string, from: char, to: char): (r: string)
    ensures |r| == |s|
    ensures forall i :: 0 <= i < |s| ==> r[i] == (if s[i] == from then to else s[i])
  {
    if s == [] then [] else [if s[0] == from then to else s[0]] + ReplaceChar(s[1..], from, to)
  }

  /** The text `MakeSuggestionListItemWidget` shows for an entry. */
  function SanitizedRow(s: string): string {
    ReplaceChar(ReplaceChar(ReplaceCrLf(s), '\r', ' '), '\n', ' ')
  }

  /** One pass: a CR LF pair, a lone CR and a lone LF each become one space. */
  function OneLineRow(s: string): (r: string)
    ensures '\r' !in r && '\n' !in r
  {
    if s == [] then []
    else if |s| >= 2 && s[0] == '\r' && s[1] == '\n' then " " + OneLineRow(s[2..])
    else (if s[0] == '\r' || s[0] == '\n' then " " else [s[0]]) + OneLineRow(s[1..])
  }

  lemma ReplaceCharAppend(a: string, b: string, from: char, to: char)
    ensures ReplaceChar(a + b, from, to) == ReplaceChar(a, from, to) + ReplaceChar(b, from, to)
  {
  }

  /** The three passes show every line break of an entry as one space, a CR LF pair as a single one. */
  lemma {:induction false} SanitizeInOnePass(s: string)
    ensures SanitizedRow(s) == OneLineRow(s)
  {
    if s != [] {
      var n := if |s| >= 2 && s[0] == '\r' && s[1] == '\n' then 2 else 1;
      var head := if n == 2 then "\n" else [s[0]];
      assert ReplaceCrLf(s) == head + ReplaceCrLf(s[n..]);
      ReplaceCharAppend(head, ReplaceCrLf(s[n..]), '\r', ' ');
      ReplaceCharAppend(ReplaceChar(head, '\r', ' '), ReplaceChar(ReplaceCrLf(s[n..]), '\r', ' '), '\n', ' ');
      SanitizeInOnePass(s[n..]);
    }
  }

  // ---------------------------------------------------------------------
  // The panel's state and what each handler makes of it
  // ---------------------------------------------------------------------

  /** `i` is the last index of `s` whose entry equals `x` ignoring case, or -1 when there is none. */
  predicate LastMatch(s: seq<string>, x: string, i: int) {
    && -1 <= i < |s|
    && (i >= 0 ==> EqualsIgnoreCase(s[i], x))
    && (forall j :: i < j < |s| ==> !EqualsIgnoreCase(s[j], x))
  }

  /** The last index of an entry equal to `x`, compared as `FString`'s `==` does, ignoring case; or -1. */
  function LastIndexOf(s: seq<string>, x: string): (r: int)
    ensures LastMatch(s, x, r)
  {
    if s == [] then -1
    else if EqualsIgnoreCase(s[|s| - 1], x) then |s| - 1
    else LastIndexOf(s[..|s| - 1], x)
  }

  lemma LastIndexOfStep(s: seq<string>, i: nat, x: string)
    requires i < |s|
    ensures s[..i + 1] == s[..i] + [s[i]]
    ensures LastIndexOf(s[..i + 1], x) == if EqualsIgnoreCase(s[i], x) then i else LastIndexOf(s[..i], x)
  {
    assert s[..i + 1][..i] == s[..i];
  }

  /**
   * The comparison ignores case: of `foo` and `Foo` the later one is found
   * for `foo`, and `Foo` finds `foo`.
   */
  lemma LastIndexOfIgnoresCase()
    ensures LastIndexOf(["foo", "Foo"], "foo") == 1
    ensures LastIndexOf(["foo"], "Foo") == 0
  {
    assert Lower("Foo") == "foo" && Lower("foo") == "foo";
  }

  /**
   * Everything the handlers read or change: the editor's document and
   * completer flag, the three fields of `Suggestions`, whether the popup
   * is open, and `bIgnoreUIUpdate`.
   */
  datatype PanelState = PanelState(
    doc: Doc, completerShown: bool,
    selected: int, list: seq<string>, highlight: string,
    popupOpen: bool, ignoreUIUpdate: bool)

  /** The document is well formed and the editor's completer flag follows the popup. */
  predicate Consistent(st: PanelState) {
    st.doc.Valid() && st.completerShown == st.popupOpen
  }

  predicate HasSelection(st: PanelState) {
    0 <= st.selected < |st.list|
  }

  /** The selected entry, or the empty string when nothing is selected. */
  function SelectionText(st: PanelState): string {
    if HasSelection(st) then st.list[st.selected] else ""
  }

  /** `HideAutoCompleter`. */
  function Hidden(st: PanelState): PanelState {
    st.(completerShown := false, popupOpen := false)
  }

  /** `SetSuggestions`. */
  function WithSuggestions(st: PanelState, elements: seq<string>, highlight: string): (r: PanelState)
    ensures r.list == elements && r.highlight == highlight
    ensures r.doc == st.doc && r.ignoreUIUpdate == st.ignoreUIUpdate
    ensures r.popupOpen == (|elements| > 0) && r.completerShown == r.popupOpen
    ensures LastMatch(elements, SelectionText(st), r.selected)
  {
    var kept := st.(selected := LastIndexOf(elements, SelectionText(st)), list := elements, highlight := highlight);
    if |elements| > 0 then kept.(completerShown := true, popupOpen := true) else Hidden(kept)
  }

  /** `MarkActiveSuggestion`: the selected entry, if any, is written into the editor. */
  function Marked(st: PanelState): (r: PanelState)
    requires st.doc.Valid()
    ensures r.doc.Valid() && !r.ignoreUIUpdate
    ensures r.(doc := st.doc, ignoreUIUpdate := st.ignoreUIUpdate) == st
    ensures HasSelection(st) ==> r.doc == AppliedSuggestion(st.doc, st.list[st.selected])
    ensures !HasSelection(st) ==> r.doc == st.doc
  {
    var doc := if HasSelection(st) then AppliedSuggestion(st.doc, st.list[st.selected]) else st.doc;
    st.(doc := doc, ignoreUIUpdate := false)
  }

  /** The candidates shown for a query: those of the answer to `dir(object)` that contain the partial name. */
  function Completions(q: Query, evaluate: string -> Option<string>): seq<string> {
    var answer := evaluate(DirQuery(q.obj));
    FilterByPartial(if answer.Some? then Candidates(answer.value) else [], q.partial)
  }

  /** `ShowAutoCompleter`. */
  function Shown(st: PanelState, pythonAvailable: bool, evaluate: string -> Option<string>): (r: PanelState)
    requires st.doc.Valid()
    ensures r.doc == st.doc && r.ignoreUIUpdate == st.ignoreUIUpdate
    ensures Consistent(st) ==> Consistent(r)
  {
    if st.ignoreUIUpdate then st
    else if !pythonAvailable then Hidden(st)
    else match SuggestionText(st.doc.CurrentLine(), st.doc.caret.offset)
      case None => Hidden(st)
      case Some(q) => WithSuggestions(st, Completions(q, evaluate), q.partial)
  }

  /** The current line up to and including the character after the caret. */
  function CaretPrefix(d: Doc): string
    requires d.Valid()
  {
    var line := d.CurrentLine();
    line[..Min(d.caret.offset + 1, |line|)]
  }

  /** `OnTextChanged`. */
  function TextChanged(st: PanelState, pythonAvailable: bool, evaluate: string -> Option<string>): PanelState
    requires st.doc.Valid()
  {
    if !st.popupOpen then st
    else if EndsWith(CaretPrefix(st.doc), " ") then Hidden(st)
    else Shown(st, pythonAvailable, evaluate)
  }

  /** `IndexOfByPredicate` over the rows: the entries are distinct pointers, so a row is found at its own index. */
  function RowIndex(list: seq<string>, row: Option<nat>): (r: int)
    ensures -1 <= r < |list|
    ensures row.Some? && row.value < |list| <==> r >= 0
  {
    if row.Some? && row.value < |list| then row.value else IndexNone
  }

  /** `SuggestionSelectionChanged`. */
  function SelectionChanged(st: PanelState, row: Option<nat>, byMouseClick: bool): PanelState
    requires st.doc.Valid()
  {
    if st.ignoreUIUpdate then st
    else
      var picked := Marked(st.(selected := RowIndex(st.list, row)));
      if byMouseClick then Hidden(picked) else picked
  }

  /** `AcceptAutoCompleter`. */
  function Accepted(st: PanelState): PanelState
    requires st.doc.Valid()
  {
    Marked(Hidden(st))
  }

  /** `OnCompleterKeyDown`: Right, Enter and Tab accept while the popup is open. */
  function CompleterKeyDown(st: PanelState, key: Key): (Reply, PanelState)
    requires st.doc.Valid()
  {
    if (key == Right || key == Enter || key == Tab) && st.popupOpen then (Handled, Accepted(st))
    else (Unhandled, st)
  }

  /** What the panel does for the delegates the editor's key handler fires. */
  function AfterEditorAction(st: PanelState, action: Action, pythonAvailable: bool, evaluate: string -> Option<string>): PanelState
    requires st.doc.Valid()
  {
    match action
    case AcceptCompleter => Accepted(st)
    case RequestAutoComplete => Shown(st, pythonAvailable, evaluate)
    case HideCompleter => Hidden(st)
    case _ => st
  }

  // ---------------------------------------------------------------------
  // Properties of the handlers
  // ---------------------------------------------------------------------

  /** Every handler keeps the editor's completer flag equal to the popup's state. */
  lemma HandlersKeepConsistent(st: PanelState, pythonAvailable: bool, evaluate: string -> Option<string>,
                               elements: seq<string>, highlight: string, row: Option<nat>, byMouseClick: bool, key: Key, action: Action)
    requires Consistent(st)
    ensures Consistent(Hidden(st)) && Consistent(WithSuggestions(st, elements, highlight)) && Consistent(Marked(st))
    ensures Consistent(Shown(st, pythonAvailable, evaluate)) && Consistent(TextChanged(st, pythonAvailable, evaluate))
    ensures Consistent(SelectionChanged(st, row, byMouseClick)) && Consistent(Accepted(st))
    ensures Consistent(CompleterKeyDown(st, key).1) && Consistent(AfterEditorAction(st, action, pythonAvailable, evaluate))
  {
    MarkedKeepsConsistent(st);
    AcceptedKeepsConsistent(st);
    SelectionChangedKeepsConsistent(st, row, byMouseClick);
    TextChangedKeepsConsistent(st, pythonAvailable, evaluate);
    CompleterKeyDownKeepsConsistent(st, key);
    AfterEditorActionKeepsConsistent(st, action, pythonAvailable, evaluate);
  }

  lemma AcceptedKeepsConsistent(st: PanelState)
    requires Consistent(st)
    ensures Consistent(Accepted(st))
  {
    MarkedKeepsConsistent(Hidden(st));
  }

  lemma TextChangedKeepsConsistent(st: PanelState, pythonAvailable: bool, evaluate: string -> Option<string>)
    requires Consistent(st)
    ensures Consistent(TextChanged(st, pythonAvailable, evaluate))
  {
  }

  lemma CompleterKeyDownKeepsConsistent(st: PanelState, key: Key)
    requires Consistent(st)
    ensures Consistent(CompleterKeyDown(st, key).1)
  {
    AcceptedKeepsConsistent(st);
  }

  lemma AfterEditorActionKeepsConsistent(st: PanelState, action: Action, pythonAvailable: bool, evaluate: string -> Option<string>)
    requires Consistent(st)
    ensures Consistent(AfterEditorAction(st, action, pythonAvailable, evaluate))
  {
    AcceptedKeepsConsistent(st);
  }

  lemma MarkedSelected(st: PanelState)
    requires st.doc.Valid() && HasSelection(st)
    ensures Marked(st) == st.(doc := AppliedSuggestion(st.doc, st.list[st.selected]), ignoreUIUpdate := false)
  {
  }

  lemma MarkedKeepsConsistent(st: PanelState)
    requires Consistent(st)
    ensures Consistent(Marked(st))
  {
    var r := Marked(st);
    assert r.popupOpen == st.popupOpen && r.completerShown == st.completerShown by {
      assert r.(doc := st.doc, ignoreUIUpdate := st.ignoreUIUpdate) == st;
    }
  }

  lemma SelectionChangedKeepsConsistent(st: PanelState, row: Option<nat>, byMouseClick: bool)
    requires Consistent(st)
    ensures Consistent(SelectionChanged(st, row, byMouseClick))
  {
    if !st.ignoreUIUpdate {
      MarkedKeepsConsistent(st.(selected := RowIndex(st.list, row)));
    }
  }

  /**
   * Asking for completion opens the popup exactly when Python is there,
   * the slicer finds a query at the caret and some candidate contains the
   * partial name; the selection moves to the last candidate equal to the
   * old selection's text, ignoring case, or to none.
   */
  lemma ShowOpensIffCandidates(st: PanelState, pythonAvailable: bool, evaluate: string -> Option<string>)
    requires Consistent(st) && !st.ignoreUIUpdate
    ensures var r := Shown(st, pythonAvailable, evaluate);
      var q := SuggestionText(st.doc.CurrentLine(), st.doc.caret.offset);
      && (r.popupOpen <==> pythonAvailable && q.Some? && Completions(q.value, evaluate) != [])
      && (!pythonAvailable || q.None? ==> r == Hidden(st))
      && (pythonAvailable && q.Some? ==> LastMatch(r.list, SelectionText(st), r.selected))
  {
  }

  /** Every entry shown for a query is a candidate of `dir(object)` containing the partial name, ignoring case. */
  lemma ShownEntriesMatchPartial(st: PanelState, evaluate: string -> Option<string>, q: Query, answer: string)
    requires Consistent(st) && !st.ignoreUIUpdate
    requires SuggestionText(st.doc.CurrentLine(), st.doc.caret.offset) == Some(q)
    requires evaluate(DirQuery(q.obj)) == Some(answer)
    ensures var r := Shown(st, true, evaluate);
      forall x :: x in r.list <==> x in Candidates(answer) && ContainsIgnoreCase(x, q.partial)
  {
    FilterMembers(Candidates(answer), q.partial);
  }

  /** While `bIgnoreUIUpdate` is set, completion requests and list selection changes do nothing. */
  lemma IgnoredWhileMarking(st: PanelState, pythonAvailable: bool, evaluate: string -> Option<string>, row: Option<nat>, byMouseClick: bool)
    requires st.doc.Valid() && st.ignoreUIUpdate
    ensures Shown(st, pythonAvailable, evaluate) == st
    ensures SelectionChanged(st, row, byMouseClick) == st
  {
  }

  /** A space just before the caret closes the open popup and keeps the list. */
  lemma SpaceClosesPopup(st: PanelState, pythonAvailable: bool, evaluate: string -> Option<string>)
    requires Consistent(st) && st.popupOpen && EndsWith(CaretPrefix(st.doc), " ")
    ensures var r := TextChanged(st, pythonAvailable, evaluate);
      !r.popupOpen && !r.completerShown && r.list == st.list && r.selected == st.selected && r.doc == st.doc
  {
  }

  /**
   * Accepting closes the popup and writes the selected entry over the
   * partial name; with nothing selected the text stays as it is.
   */
  lemma AcceptWritesSelection(st: PanelState)
    requires Consistent(st)
    ensures var r := Accepted(st);
      && !r.popupOpen && !r.completerShown && r.list == st.list && r.selected == st.selected
      && (HasSelection(st) ==> r.doc == AppliedSuggestion(st.doc, st.list[st.selected]))
      && (!HasSelection(st) ==> r.doc == st.doc)
  {
  }

  /** Enter in the editor accepts the completion exactly when the popup is open, and otherwise breaks the line. */
  lemma EnterInEditor(st: PanelState, mods: Modifiers, selection: Selection, pythonAvailable: bool, evaluate: string -> Option<string>)
    requires Consistent(st) && !mods.control && !mods.alt
    requires selection.Lines? ==> ValidRange(st.doc, selection.first, selection.last)
    ensures var r := KeyDispatch(Enter, mods, st.completerShown, selection != NoSelection, Text(st.doc) == "");
      && (st.popupOpen ==> r.0 == AcceptCompleter && AfterEditorAction(st, r.0, pythonAvailable, evaluate) == Accepted(st))
      && (!st.popupOpen ==> r.0 == NewLine && KeyEdit(st.doc, r.0, selection) == NewLineAt(st.doc))
  {
  }

  /**
   * Picking a row in the list selects that row's entry and writes it into
   * the editor; a row outside the list selects nothing and leaves the text;
   * the popup closes only when the row was clicked.
   */
  lemma PickRow(st: PanelState, row: Option<nat>, byMouseClick: bool)
    requires Consistent(st) && !st.ignoreUIUpdate
    ensures var r := SelectionChanged(st, row, byMouseClick);
      && r.list == st.list && !r.ignoreUIUpdate
      && (r.popupOpen <==> st.popupOpen && !byMouseClick)
      && (row.Some? && row.value < |st.list| ==>
            r.selected == row.value && r.doc == AppliedSuggestion(st.doc, st.list[row.value]))
      && (!(row.Some? && row.value < |st.list|) ==> r.selected == IndexNone && r.doc == st.doc)
  {
  }

  /** Keys pressed in the list are handled exactly when they accept: Right, Enter or Tab with the popup open. */
  lemma ListKeys(st: PanelState, key: Key)
    requires Consistent(st)
    ensures var (reply, r) := CompleterKeyDown(st, key);
      && (reply == Handled <==> st.popupOpen && (key == Right || key == Enter || key == Tab))
      && (reply == Handled ==> r == Accepted(st))
      && (reply != Handled ==> reply == Unhandled && r == st)
  {
  }

  // ---------------------------------------------------------------------
  // The panel
  // ---------------------------------------------------------------------

  class ScriptEditorPanel {
    /** `PythonEditor`. */
    const editor: PythonTextEditor
    /** `Suggestions`. */
    const suggestions: Suggestions
    /** `SuggestionBox->IsOpen()`. */
    var suggestionBoxOpen: bool
    /** `bIgnoreUIUpdate`. */
    var ignoreUIUpdate: bool

    function Snapshot(): PanelState
      reads this, editor, suggestions
    {
      PanelState(editor.State(), editor.completerIsShown,
        suggestions.selectedSuggestion, suggestions.suggestionsList, suggestions.suggestionsHighlight,
        suggestionBoxOpen, ignoreUIUpdate)
    }

    predicate Valid()
      reads this, editor, suggestions
    {
      Consistent(Snapshot())
    }

    /** `Construct`: the editor holds the initial text, the popup is closed and the list is empty. */
    constructor (text: string)
      ensures Valid() && fresh(editor) && fresh(suggestions)
      ensures Text(editor.State()) == text && editor.caretLocation == Caret(0, 0)
      ensures !suggestionBoxOpen && !ignoreUIUpdate
      ensures suggestions.suggestionsList == [] && suggestions.selectedSuggestion == IndexNone
    {
      editor := new PythonTextEditor(text);
      suggestions := new Suggestions();
      suggestionBoxOpen := false;
      ignoreUIUpdate := false;
    }

    method HideAutoCompleter()
      requires Valid()
      modifies this, editor
      ensures Valid() && Snapshot() == Hidden(old(Snapshot()))
    {
      editor.SetCompleterIsShown(false);
      suggestionBoxOpen := false;
    }

    method ClearSuggestions()
      requires Valid()
      modifies this, editor, suggestions
      ensures Valid() && Snapshot() == Hidden(old(Snapshot())).(selected := IndexNone, list := [], highlight := "")
    {
      HideAutoCompleter();
      suggestions.Reset();
    }

    /**
     * `SetSuggestions`: the list is replaced by `elements`, and the last
     * element equal to the old selection's text, ignoring case, becomes
     * the selection.
     */
    method SetSuggestions(elements: seq<string>, highlight: string)
      requires Valid()
      modifies this, editor, suggestions
      ensures Valid() && Snapshot() == WithSuggestions(old(Snapshot()), elements, highlight)
    {
      var selectionText := "";
      if suggestions.HasSelectedSuggestion() {
        selectionText := suggestions.GetSelectedSuggestion().value;
      }
      assert selectionText == SelectionText(old(Snapshot()));
      suggestions.Reset();
      suggestions.suggestionsHighlight := highlight;
      AddSuggestions(elements, selectionText);
      assert Snapshot() == old(Snapshot()).(selected := LastIndexOf(elements, selectionText), list := elements, highlight := highlight);
      if suggestions.HasSuggestions() {
        editor.SetCompleterIsShown(true);
        suggestionBoxOpen := true;
      } else {
        HideAutoCompleter();
      }
    }

    /** The loop of `SetSuggestions`: each element goes to the emptied list, and an entry equal to `selectionText`, ignoring case, becomes the selected one. */
    method AddSuggestions(elements: seq<string>, selectionText: string)
      requires suggestions.suggestionsList == [] && suggestions.selectedSuggestion == IndexNone
      modifies suggestions
      ensures suggestions.suggestionsList == elements
      ensures suggestions.selectedSuggestion == LastIndexOf(elements, selectionText)
      ensures suggestions.suggestionsHighlight == old(suggestions.suggestionsHighlight)
    {
      var i := 0;
      assert elements[..0] == [];
      while i < |elements|
        invariant 0 <= i <= |elements|
        invariant suggestions.suggestionsList == elements[..i]
        invariant suggestions.selectedSuggestion == LastIndexOf(elements[..i], selectionText)
        invariant suggestions.suggestionsHighlight == old(suggestions.suggestionsHighlight)
      {
        LastIndexOfStep(elements, i, selectionText);
        suggestions.suggestionsList := suggestions.suggestionsList + [elements[i]];
        if EqualsIgnoreCase(elements[i], selectionText) {
          suggestions.selectedSuggestion := i;
        }
        i := i + 1;
      }
      assert elements[..i] == elements;
    }

    /**
     * `MarkActiveSuggestion`.  Selecting the row in the list view reports
     * the selection back to `SuggestionSelectionChanged`; `ignoreUIUpdate`
     * makes that call return at once.
     */
    method MarkActiveSuggestion()
      requires Valid()
      modifies this, editor, suggestions
      ensures Valid() && Snapshot() == Marked(old(Snapshot()))
      decreases 2
    {
      ghost var st := Snapshot();
      ignoreUIUpdate := true;
      if suggestions.HasSelectedSuggestion() {
        ApplySelected();
        MarkedSelected(st);
      } else {
        SuggestionSelectionChanged(None, false);
        assert Snapshot() == st.(ignoreUIUpdate := true);
      }
      ignoreUIUpdate := false;
    }

    /** The selected row goes to the list view, which reports it back, and its text is applied in the editor. */
    method ApplySelected()
      requires Valid() && ignoreUIUpdate && HasSelection(Snapshot())
      modifies this, editor, suggestions
      ensures Valid()
      ensures var st := old(Snapshot()); Snapshot() == st.(doc := AppliedSuggestion(st.doc, st.list[st.selected]))
      decreases 1
    {
      var selected := suggestions.GetSelectedSuggestion().value;
      SuggestionSelectionChanged(Some(suggestions.selectedSuggestion), false);
      editor.ApplySuggestion(selected);
    }

    /**
     * `SuggestionSelectionChanged`: `row` is the row the list view now
     * selects (`None` for none), `byMouseClick` whether a click chose it.
     */
    method SuggestionSelectionChanged(row: Option<nat>, byMouseClick: bool)
      requires Valid()
      modifies this, editor, suggestions
      ensures Valid() && Snapshot() == SelectionChanged(old(Snapshot()), row, byMouseClick)
      decreases if ignoreUIUpdate then 0 else 3
    {
      if ignoreUIUpdate {
        return;
      }
      suggestions.selectedSuggestion := RowIndex(suggestions.suggestionsList, row);
      MarkActiveSuggestion();
      if byMouseClick {
        HideAutoCompleter();
      }
    }

    /** `ShowAutoCompleter`. */
    method ShowAutoCompleter(pythonAvailable: bool, evaluate: string -> Option<string>)
      requires Valid()
      modifies this, editor, suggestions
      ensures Valid() && Snapshot() == Shown(old(Snapshot()), pythonAvailable, evaluate)
    {
      if ignoreUIUpdate {
        return;
      }
      if !pythonAvailable {
        HideAutoCompleter();
        return;
      }
      var found, objectString, partialString := editor.GetSuggestionText(Some(""), Some(""));
      if !found {
        HideAutoCompleter();
        return;
      }
      var obj, partial := objectString.value, partialString.value;
      if obj != [] {
        var autoCompleteList: seq<string> := [];
        var answer := evaluate(DirQuery(obj));
        if answer.Some? {
          autoCompleteList := Candidates(answer.value);
        }
        if |partial| > 0 {
          autoCompleteList := FilterByPartial(autoCompleteList, partial);
        } else {
          FilterEmptyPartial(autoCompleteList);
        }
        SetSuggestions(autoCompleteList, partial);
      } else {
        assert false;
      }
    }

    /** `OnTextChanged`: while the popup is open, a space before the caret closes it and anything else refreshes it. */
    method OnTextChanged(pythonAvailable: bool, evaluate: string -> Option<string>)
      requires Valid()
      modifies this, editor, suggestions
      ensures Valid() && Snapshot() == TextChanged(old(Snapshot()), pythonAvailable, evaluate)
    {
      if suggestionBoxOpen {
        var currentLine := editor.lines[editor.caretLocation.line];
        var examined := currentLine[..Min(editor.caretLocation.offset + 1, |currentLine|)];
        if EndsWith(examined, " ") {
          HideAutoCompleter();
        } else {
          ShowAutoCompleter(pythonAvailable, evaluate);
        }
      }
    }

    /** `AcceptAutoCompleter`. */
    method AcceptAutoCompleter()
      requires Valid()
      modifies this, editor, suggestions
      ensures Valid() && Snapshot() == Accepted(old(Snapshot()))
    {
      HideAutoCompleter();
      MarkActiveSuggestion();
    }

    /** `OnCompleterKeyDown`: keys pressed while the list has focus. */
    method OnCompleterKeyDown(key: Key) returns (reply: Reply)
      requires Valid()
      modifies this, editor, suggestions
      ensures Valid() && (reply, Snapshot()) == CompleterKeyDown(old(Snapshot()), key)
    {
      if key == Right || key == Enter || key == Tab {
        if suggestionBoxOpen {
          AcceptAutoCompleter();
          return Handled;
        }
      }
      return Unhandled;
    }

    /**
     * A key pressed in the editor: the editor routes and performs it, and
     * the completion delegates it fires run here.
     */
    method OnEditorKeyDown(key: Key, mods: Modifiers, selection: Selection, pythonAvailable: bool, evaluate: string -> Option<string>)
      returns (action: Action, reply: Reply)
      requires Valid()
      requires selection.Lines? ==> selection.first < selection.last && ValidRange(editor.State(), selection.first, selection.last)
      modifies this, editor, suggestions
      ensures (action, reply) == KeyDispatch(key, mods, old(suggestionBoxOpen), selection != NoSelection, Text(old(editor.State())) == "")
      ensures Valid()
      ensures Snapshot() == AfterEditorAction(old(Snapshot()).(doc := KeyEdit(old(editor.State()), action, selection)), action, pythonAvailable, evaluate)
    {
      action, reply := editor.OnKeyDown(key, mods, selection);
      match action
      case AcceptCompleter => AcceptAutoCompleter();
      case RequestAutoComplete => ShowAutoCompleter(pythonAvailable, evaluate);
      case HideCompleter => HideAutoCompleter();
      case _ =>
    }
  }
}

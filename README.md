# Script editor: Python syntax colouring, editing keys and autocompletion

This project models the core of an editor plugin that gives the host editor
a Python script panel. It covers three parts:

- `FPythonSyntaxMarshaller`, the syntax-colouring pass. It turns tokenized
  lines into styled runs (normal, operator, keyword, string, comment,
  whitespace). One parse state is carried from token to token and from line
  to line. A line comment is cut off at the end of each line; a string is
  not.
- `SPythonTextEditor`, the editable text widget:
  - it routes key presses (run, help, pretty-print, Tab and Shift+Tab
    indentation of one line or of selected lines, auto-indent on Enter,
    completion requests and navigation, Escape, font scaling);
  - it slices the caret line into the object to complete on and the partial
    name typed so far;
  - it writes a chosen suggestion over that partial name.
- `SScriptEditorPanel` and its `FSuggestions` list, the completion popup:
  - it evaluates `dir(object)` in Python;
  - it strips the quotes and brackets from the printed list and splits the
    result at `", "`;
  - it keeps the names that contain the partial name, ignoring case;
  - it shows them, moving the selection to the last entry equal to the
    previous selection's text, ignoring case;
  - it writes the selected entry into the editor, with a guard flag against
    the list view's re-entrant selection callback.

Modules, one per source concept:

| file | module | models |
|---|---|---|
| `wrappers.dfy` | `Wrappers` | `Option` |
| `chars.dfy` | `Chars` | the `FString` and `FChar` helpers the source uses (trimming, case-insensitive `Contains`, `StartsWith`, `EndsWith`) |
| `document.dfy` | `Document` | the host text layout as lines and a caret, with the host primitives `GoTo`, `InsertTextAtCursor`, `HandleBackspace` and `HandleDelete`, each related to the flat text |
| `syntax_marshaller.dfy` | `SyntaxMarshaller` | `PythonSyntaxMarshaller.cpp` |
| `text_editor_lines.dfy` | `EditorText` | the string logic of `SPythonTextEditor.cpp` (leading whitespace, Enter's inserted text, `GetSuggestionText`) |
| `text_editor.dfy` | `TextEditor` | `SPythonTextEditor` as a class, with its key routing and edits |
| `suggestions.dfy` | `SuggestionList` | `FSuggestions` from `SScriptEditorPanel.h` |
| `script_editor_panel.dfy` | `ScriptEditorPanel` | `SScriptEditorPanel.cpp` |

Classes hold what the source updates in place:

- `TextEditor.PythonTextEditor` holds the host layout's lines, `CaretLocation`
  and `bCompleterIsShown`.
- `SuggestionList.Suggestions` holds the three `FSuggestions` fields.
- `ScriptEditorPanel.ScriptEditorPanel` holds the editor, the suggestions,
  the popup's open flag and `bIgnoreUIUpdate`.

Each state-changing method is proved against a specification function on
values:

- editor methods against `Doc` functions such as `TabLine`, `TabLinesAsWritten`,
  `NewLineAt`, `AppliedSuggestion` and `KeyEdit`;
- panel handlers against `PanelState` functions such as `Hidden`,
  `WithSuggestions`, `Marked`, `Shown`, `TextChanged`, `SelectionChanged`,
  `Accepted` and `CompleterKeyDown`.

The lemmas then state what those functions promise.

Calls into code outside this plugin become parameters:

- The host tokenizer is not modelled. `ParseTokens` receives the tokenized
  lines: kinds and ranges into the source string.
- The Python plugin is the pair `pythonAvailable: bool` and
  `evaluate: string -> Option<string>`. `evaluate` maps a statement to its
  printed result, or to `None` when the evaluation fails.
- The list view's selection callback is modelled as the call it makes:
  `MarkActiveSuggestion` calls `SuggestionSelectionChanged` with the row it
  selects. The guard flag makes that call return at once.

## Model

| member | source | states |
|---|---|---|
| SyntaxMarshaller.ParseTokens | Editor/ScriptEditor/Source/ScriptEditor/Private/PythonSyntaxMarshaller.cpp:131-245 | the lines handed to the layout are exactly the document-wide pass `ParseDocument`: one entry per input line, one parse state threaded through all tokens |
| SyntaxMarshaller.ParseLine | Editor/ScriptEditor/Source/ScriptEditor/Private/PythonSyntaxMarshaller.cpp:152-242 | the inner token loop builds the line's model string, its runs and its final state as the per-line functions define them |
| SyntaxMarshaller.EntryState | Editor/ScriptEditor/Source/ScriptEditor/Private/PythonSyntaxMarshaller.cpp:150-151 | a line is never entered in the line-comment state; any other state carries over unchanged |
| SyntaxMarshaller.LineRuns | Editor/ScriptEditor/Source/ScriptEditor/Private/PythonSyntaxMarshaller.cpp:152-242 | every token yields exactly one run |
| SyntaxMarshaller.ParseDocument | Editor/ScriptEditor/Source/ScriptEditor/Private/PythonSyntaxMarshaller.cpp:142-244 | one output line per tokenized line |
| SyntaxMarshaller.RunAt | Editor/ScriptEditor/Source/ScriptEditor/Private/PythonSyntaxMarshaller.cpp:154-241 | run `i` is the styling of token `i` in the state the earlier tokens leave, spanning that token's text in the model string |
| SyntaxMarshaller.RunsTileModelString | Editor/ScriptEditor/Source/ScriptEditor/Private/PythonSyntaxMarshaller.cpp:154-241 | the runs of a line tile its model string: the first starts at 0, each starts where the previous ends, the last ends at the end, and each covers exactly its token's text |
| SyntaxMarshaller.LinePrefix | Editor/ScriptEditor/Source/ScriptEditor/Private/PythonSyntaxMarshaller.cpp:152-242 | parsing a prefix of a line's tokens gives a prefix of its runs and of its model string |
| SyntaxMarshaller.ParsedLineAt | Editor/ScriptEditor/Source/ScriptEditor/Private/PythonSyntaxMarshaller.cpp:142-244 | output line `k` is input line `k` parsed in the entry state the earlier lines leave |
| SyntaxMarshaller.BlankToken | Editor/ScriptEditor/Source/ScriptEditor/Private/PythonSyntaxMarshaller.cpp:158-161 | a blank token gets the whitespace run with the Normal style and keeps the state; a non-blank token gets a text run |
| SyntaxMarshaller.QuoteTransitions | Editor/ScriptEditor/Source/ScriptEditor/Private/PythonSyntaxMarshaller.cpp:165-182 | `"` and `'` open their string state from None and close it from that state; the quote itself is styled String |
| SyntaxMarshaller.InsideString | Editor/ScriptEditor/Source/ScriptEditor/Private/PythonSyntaxMarshaller.cpp:165-182 | inside a string every non-blank token is String; the state returns to None if and only if the token is the same quote as a Syntax token |
| SyntaxMarshaller.HashOpensLineComment | Editor/ScriptEditor/Source/ScriptEditor/Private/PythonSyntaxMarshaller.cpp:183-186 | a Syntax `#` met in None opens a line comment and is styled Comment |
| SyntaxMarshaller.InsideLineComment | Editor/ScriptEditor/Source/ScriptEditor/Private/PythonSyntaxMarshaller.cpp:216-230 | inside a line comment every non-blank token, quotes and keywords included, is Comment, and the state stays |
| SyntaxMarshaller.KeywordOperatorOnlyInNone | Editor/ScriptEditor/Source/ScriptEditor/Private/PythonSyntaxMarshaller.cpp:195-211 | the Keyword and Operator styles are given only to Syntax tokens met in None, and leave the state at None |
| SyntaxMarshaller.SyntaxInNone | Editor/ScriptEditor/Source/ScriptEditor/Private/PythonSyntaxMarshaller.cpp:195-215 | in None, a Syntax token that is not a quote or `#` is Operator when its first character is not a letter; otherwise it is Keyword or Normal by the neighbour check |
| SyntaxMarshaller.LiteralInNone | Editor/ScriptEditor/Source/ScriptEditor/Private/PythonSyntaxMarshaller.cpp:216-230 | in None a Literal token is Normal text |
| SyntaxMarshaller.KeywordNeighbours | Editor/ScriptEditor/Source/ScriptEditor/Private/PythonSyntaxMarshaller.cpp:196-203 | the keyword regex holds if and only if the character before is in the regex class `\s` or is one of `._`, a letter or a digit, and the token is followed by the end, `\s` or `:` |
| SyntaxMarshaller.KeywordExamples | Editor/ScriptEditor/Source/ScriptEditor/Private/PythonSyntaxMarshaller.cpp:196-206 | `class` in `class Foo:` is a keyword; `class` in `class_name = 1` is not; a no-break space before `if` counts as `\s`, a vertical tab does not |
| SyntaxMarshaller.HashCommentsRestOfLine | Editor/ScriptEditor/Source/ScriptEditor/Private/PythonSyntaxMarshaller.cpp:183-230 | after a `#` met in None, every later non-blank token of the line is Comment and the line ends in the line-comment state |
| SyntaxMarshaller.CommentLastsToLineEnd | Editor/ScriptEditor/Source/ScriptEditor/Private/PythonSyntaxMarshaller.cpp:216-230 | once reached, the line-comment state lasts to the end of the line |
| SyntaxMarshaller.LineCommentEndsAtLineEnd | Editor/ScriptEditor/Source/ScriptEditor/Private/PythonSyntaxMarshaller.cpp:150-151 | a line after one that ends in a comment is parsed as if from None |
| SyntaxMarshaller.StringStateKept | Editor/ScriptEditor/Source/ScriptEditor/Private/PythonSyntaxMarshaller.cpp:165-182 | a line entered inside a string stays in it until a closing quote appears |
| SyntaxMarshaller.StringCarriesOver | Editor/ScriptEditor/Source/ScriptEditor/Private/PythonSyntaxMarshaller.cpp:142-182 | a string left open carries over to the next line: its tokens are String up to the closing quote |
| SyntaxMarshaller.NoTripleQuoteRule | Editor/ScriptEditor/Source/ScriptEditor/Private/PythonSyntaxMarshaller.cpp:12-105 | no tokenizer rule is a triple quote |
| SyntaxMarshaller.TablesHoldNoTripleQuote | Editor/ScriptEditor/Source/ScriptEditor/Private/PythonSyntaxMarshaller.cpp:107-124 | none of the three tables `Create` registers holds `"""` or `'''` |
| SyntaxMarshaller.BlockCommentEntry | Editor/ScriptEditor/Source/ScriptEditor/Private/PythonSyntaxMarshaller.cpp:187-194 | the block-comment state is entered only from a triple-quote Syntax token |
| SyntaxMarshaller.NoBlockComments | Editor/ScriptEditor/Source/ScriptEditor/Private/PythonSyntaxMarshaller.cpp:187-194 | when the tokenizer only emits rule strings as Syntax tokens, the block-comment state is never reached: the two triple-quote branches are dead |
| SyntaxMarshaller.PythonSyntaxMarshaller.constructor | Editor/ScriptEditor/Source/ScriptEditor/Private/PythonSyntaxMarshaller.cpp:107-124 | the marshaller keeps the six style sizes it is given |
| SyntaxMarshaller.PythonSyntaxMarshaller.SetFontSize | Editor/ScriptEditor/Source/ScriptEditor/Private/PythonSyntaxMarshaller.cpp:253-267 | a size outside 6..108 changes nothing; otherwise all six styles take the size and `GetFontSize` returns it |
| Document.GoTo | Editor/ScriptEditor/Source/ScriptEditor/Private/SPythonTextEditor.cpp:271-284 | the caret moves to a location inside the text and stays put for one outside it; the lines are unchanged |
| Document.InsertFlat | Editor/ScriptEditor/Source/ScriptEditor/Private/SPythonTextEditor.cpp:271-274 | inserting puts the text at the caret in the flat text, and the caret ends after it |
| Document.InsertOnLine | Editor/ScriptEditor/Source/ScriptEditor/Private/SPythonTextEditor.cpp:271-274 | text without line feeds changes only the caret line |
| Document.InsertBreak | Editor/ScriptEditor/Source/ScriptEditor/Private/SPythonTextEditor.cpp:203-215 | inserting a line feed and an indentation splits the caret line, and the indentation opens the second half |
| Document.BackspaceFlat | Editor/ScriptEditor/Source/ScriptEditor/Private/SPythonTextEditor.cpp:384-394 | backspace removes the one character before the caret from the flat text, and nothing at the start |
| Document.DeleteFlat | Editor/ScriptEditor/Source/ScriptEditor/Private/SPythonTextEditor.cpp:276-284 | delete removes the one character after the caret from the flat text, and nothing at the end |
| Document.SplitLines | Editor/ScriptEditor/Source/ScriptEditor/Private/SPythonTextEditor.cpp:15-50 | splitting a text at line feeds gives valid lines that join back to the text |
| Document.SplitJoin | Editor/ScriptEditor/Source/ScriptEditor/Private/SPythonTextEditor.cpp:15-50 | joining valid lines and splitting again gives the lines back |
| EditorText.LeadingSpaces | Editor/ScriptEditor/Source/ScriptEditor/Private/SPythonTextEditor.cpp:285-292 | the leading whitespace is the longest run of spaces that starts the line |
| EditorText.UnIndentCount | Editor/ScriptEditor/Source/ScriptEditor/Private/SPythonTextEditor.cpp:276-284 | unindenting removes the leading spaces, at most four, and only spaces |
| EditorText.LeadingSpacesIndented | Editor/ScriptEditor/Source/ScriptEditor/Private/SPythonTextEditor.cpp:271-292 | indenting adds four leading spaces |
| EditorText.UnIndentIndented | Editor/ScriptEditor/Source/ScriptEditor/Private/SPythonTextEditor.cpp:271-284 | unindenting an indented line gives the line back |
| EditorText.UnIndentNothing | Editor/ScriptEditor/Source/ScriptEditor/Private/SPythonTextEditor.cpp:276-284 | unindenting changes nothing if and only if the line does not start with a space |
| EditorText.EnterText | Editor/ScriptEditor/Source/ScriptEditor/Private/SPythonTextEditor.cpp:203-215 | Enter inserts a line feed and spaces: the line's leading spaces, four more when the line ends with a colon |
| EditorText.TrailingRun | Editor/ScriptEditor/Source/ScriptEditor/Private/SPythonTextEditor.cpp:350-383 | the captured run is the longest suffix of name characters |
| EditorText.LastDot | Editor/ScriptEditor/Source/ScriptEditor/Private/SPythonTextEditor.cpp:350-383 | the index of the last dot, or -1 when there is none |
| EditorText.SplitRun | Editor/ScriptEditor/Source/ScriptEditor/Private/SPythonTextEditor.cpp:362-380 | a run not starting with a dot splits into a non-empty object and a dot-free partial that ends the run: around the last dot, or `globals()` and the whole run |
| EditorText.SuggestionRebuildsRun | Editor/ScriptEditor/Source/ScriptEditor/Private/SPythonTextEditor.cpp:350-383 | on success the object and the partial rebuild the captured run |
| EditorText.SuggestionNeedsNameChar | Editor/ScriptEditor/Source/ScriptEditor/Private/SPythonTextEditor.cpp:350-383 | the slicer fails when the examined text does not end in a name character |
| EditorText.SuggestionRejectsLeadingDot | Editor/ScriptEditor/Source/ScriptEditor/Private/SPythonTextEditor.cpp:362-366 | a run starting with a dot fails |
| EditorText.PartialBeforeCaret | Editor/ScriptEditor/Source/ScriptEditor/Private/SPythonTextEditor.cpp:350-394 | with the caret at the end of the line, the partial is the text just before the caret, which `ApplySuggestion` deletes |
| EditorText.SuggestionDotted | Editor/ScriptEditor/Source/ScriptEditor/Private/SPythonTextEditor.cpp:350-383 | on `obj.name` the slicer answers the object `obj` and the partial `name` |
| EditorText.SuggestionAfterDot | Editor/ScriptEditor/Source/ScriptEditor/Private/SPythonTextEditor.cpp:350-383 | on `obj.` the slicer answers `obj` and an empty partial |
| EditorText.SuggestionBareName | Editor/ScriptEditor/Source/ScriptEditor/Private/SPythonTextEditor.cpp:350-383 | a dot-free name completes against `globals()`, the partial reaching one character past the caret |
| EditorText.SuggestionLeadingDot | Editor/ScriptEditor/Source/ScriptEditor/Private/SPythonTextEditor.cpp:362-366 | `f(.abc` is refused |
| TextEditor.KeyDispatch | Editor/ScriptEditor/Source/ScriptEditor/Private/SPythonTextEditor.cpp:94-250 | only the fall-through branch is left to the base widget, and only the font-scaling keys answer Unhandled |
| TextEditor.EnterRouting | Editor/ScriptEditor/Source/ScriptEditor/Private/SPythonTextEditor.cpp:203-215 | plain Enter accepts the completion if and only if the completer is shown, and otherwise breaks the line |
| TextEditor.CompleterKeysNeedCompleter | Editor/ScriptEditor/Source/ScriptEditor/Private/SPythonTextEditor.cpp:203-231 | accept and navigation requests are raised only while the completer is shown |
| TextEditor.TabStaysInEditor | Editor/ScriptEditor/Source/ScriptEditor/Private/SPythonTextEditor.cpp:117-202 | Tab is always handled; it indents, with Shift unindents, and does nothing on an empty text |
| TextEditor.KeyChar | Editor/ScriptEditor/Source/ScriptEditor/Private/SPythonTextEditor.cpp:72-92 | without Control every character goes to the base widget; the answer is never Unhandled |
| TextEditor.ControlShortcutsTypeNothing | Editor/ScriptEditor/Source/ScriptEditor/Private/SPythonTextEditor.cpp:72-116 | Ctrl+Enter, Ctrl+H, Ctrl+P and Ctrl+Space are handled as keys and their characters are swallowed; another Control letter reaches the base widget |
| TextEditor.TabLine | Editor/ScriptEditor/Source/ScriptEditor/Private/SPythonTextEditor.cpp:127-140 | one-line Tab shifts only the caret line, and the caret keeps its place in the text, moved by the change |
| TextEditor.TabThenShiftTab | Editor/ScriptEditor/Source/ScriptEditor/Private/SPythonTextEditor.cpp:127-140 | Shift+Tab after Tab gives back the document and the caret |
| TextEditor.ShiftRangeRoundTrip | Editor/ScriptEditor/Source/ScriptEditor/Private/SPythonTextEditor.cpp:171-180 | unindenting a range of lines right after indenting it gives the lines back |
| TextEditor.TabLines | Editor/ScriptEditor/Source/ScriptEditor/Private/SPythonTextEditor.cpp:142-183 | multi-line Tab, with the caret target corrected: it shifts exactly the selected lines and leaves the others as they were |
| TextEditor.TabLinesCaret | Editor/ScriptEditor/Source/ScriptEditor/Private/SPythonTextEditor.cpp:171-183 | the caret returns to its line before the same text, moved by the change on that line, as line 192 does for one line |
| TextEditor.TabLinesAsWritten | Editor/ScriptEditor/Source/ScriptEditor/Private/SPythonTextEditor.cpp:171-183 | multi-line Tab as the editor runs it: the lines are shifted exactly as in `TabLines`, and the caret target adds the change as line 182 does |
| TextEditor.TabLinesAsWrittenCaret | Editor/ScriptEditor/Source/ScriptEditor/Private/SPythonTextEditor.cpp:171-183 | as written, Tab ends as the corrected pass does; Shift+Tab moves the caret right of its old offset by the spaces removed while that stays in the line, and otherwise leaves it at the start of the last line shifted |
| TextEditor.TabLinesAsWrittenLosesCaret | Editor/ScriptEditor/Source/ScriptEditor/Private/SPythonTextEditor.cpp:147-183 | on `    aaaaaaaaaa` / `    b` selected from (1,5) back to (0,5), Shift+Tab as written puts the caret at offset 9, the corrected pass at offset 1 |
| TextEditor.ShiftTabIndentedPair | Editor/ScriptEditor/Source/ScriptEditor/Private/SPythonTextEditor.cpp:171-183 | for any two lines indented by four spaces and the caret past the spaces on the first, Shift+Tab as written moves the caret four columns right of its place in the text; corrected, it keeps its place |
| TextEditor.NewLineAt | Editor/ScriptEditor/Source/ScriptEditor/Private/SPythonTextEditor.cpp:203-215 | Enter keeps the document well formed |
| TextEditor.NewLineLayout | Editor/ScriptEditor/Source/ScriptEditor/Private/SPythonTextEditor.cpp:203-215 | Enter splits the caret line at the caret, starts the new line with the indentation and puts the caret after it |
| TextEditor.BackspacesRemove | Editor/ScriptEditor/Source/ScriptEditor/Private/SPythonTextEditor.cpp:388-390 | `n` backspaces remove up to `n` characters before the caret from the flat text |
| TextEditor.ReplaceFlat | Editor/ScriptEditor/Source/ScriptEditor/Private/SPythonTextEditor.cpp:384-394 | the characters before the caret, no more than there are, are replaced in the flat text by the suggestion, and the caret ends after it |
| TextEditor.SuggestionReplacesPartial | Editor/ScriptEditor/Source/ScriptEditor/Private/SPythonTextEditor.cpp:384-394 | at the end of a line the partial name is replaced by the suggestion |
| TextEditor.AppliedSuggestion | Editor/ScriptEditor/Source/ScriptEditor/Private/SPythonTextEditor.cpp:384-394 | without a query at the caret nothing changes |
| TextEditor.AppliedFlat | Editor/ScriptEditor/Source/ScriptEditor/Private/SPythonTextEditor.cpp:384-394 | with a query at the caret the partial's length before the caret is replaced by the suggestion in the flat text, and the caret ends after it |
| TextEditor.KeyEdit | Editor/ScriptEditor/Source/ScriptEditor/Private/SPythonTextEditor.cpp:117-215 | only Tab and Enter edit the text, multi-line Tab with the caret target as written, and every edit keeps it well formed |
| TextEditor.PythonTextEditor.constructor | Editor/ScriptEditor/Source/ScriptEditor/Private/SPythonTextEditor.cpp:15-50 | the editor holds the given text, the caret is at the start and the completer is hidden |
| TextEditor.PythonTextEditor.SetCompleterIsShown | Editor/ScriptEditor/Source/ScriptEditor/Public/SPythonTextEditor.h:62 | only the completer flag changes |
| TextEditor.PythonTextEditor.OnCursorMoved | Editor/ScriptEditor/Source/ScriptEditor/Private/SPythonTextEditor.cpp:294-297 | the caret location becomes the reported one; nothing else changes |
| TextEditor.PythonTextEditor.GoTo | Editor/ScriptEditor/Source/ScriptEditor/Private/SPythonTextEditor.cpp:272 | the editor state becomes `Document.GoTo` of the old one; the completer flag stays |
| TextEditor.PythonTextEditor.InsertTextAtCursor | Editor/ScriptEditor/Source/ScriptEditor/Private/SPythonTextEditor.cpp:273 | the editor state becomes `Insert` of the old one; the completer flag stays |
| TextEditor.PythonTextEditor.HandleBackspace | Editor/ScriptEditor/Source/ScriptEditor/Private/SPythonTextEditor.cpp:389 | the editor state becomes `Backspace` of the old one; the completer flag stays |
| TextEditor.PythonTextEditor.HandleDelete | Editor/ScriptEditor/Source/ScriptEditor/Private/SPythonTextEditor.cpp:281 | the editor state becomes `Delete` of the old one; the completer flag stays |
| TextEditor.PythonTextEditor.IndentLine | Editor/ScriptEditor/Source/ScriptEditor/Private/SPythonTextEditor.cpp:271-274 | four spaces go in front of the line, and the caret ends after them |
| TextEditor.PythonTextEditor.UnIndentLine | Editor/ScriptEditor/Source/ScriptEditor/Private/SPythonTextEditor.cpp:276-284 | up to four leading spaces are removed and their count returned; the caret ends at the start of the line |
| TextEditor.PythonTextEditor.GetSuggestionText | Editor/ScriptEditor/Source/ScriptEditor/Private/SPythonTextEditor.cpp:350-383 | succeeds if and only if both out-pointers are present and the slicer finds a query; the outputs are changed only on success |
| TextEditor.PythonTextEditor.ApplySuggestion | Editor/ScriptEditor/Source/ScriptEditor/Private/SPythonTextEditor.cpp:384-394 | the document becomes `AppliedSuggestion` of the old one |
| TextEditor.PythonTextEditor.TabCaretLine | Editor/ScriptEditor/Source/ScriptEditor/Private/SPythonTextEditor.cpp:127-140 | the document becomes `TabLine` of the old one |
| TextEditor.PythonTextEditor.TabSelectedLines | Editor/ScriptEditor/Source/ScriptEditor/Private/SPythonTextEditor.cpp:171-183 | the document becomes `TabLinesAsWritten` of the old one: the selected lines shifted, and the caret sent to its offset plus the change, as line 182 does |
| TextEditor.PythonTextEditor.BreakLine | Editor/ScriptEditor/Source/ScriptEditor/Private/SPythonTextEditor.cpp:203-215 | the document becomes `NewLineAt` of the old one |
| TextEditor.PythonTextEditor.OnKeyDown | Editor/ScriptEditor/Source/ScriptEditor/Private/SPythonTextEditor.cpp:94-250 | the action and reply are `KeyDispatch`'s, and the document becomes `KeyEdit` of the old one |
| SuggestionList.StepIndex | Editor/ScriptEditor/Source/ScriptEditor/Public/SScriptEditorPanel.h:65-75 | on a non-empty list the new index is always valid: moved by the step, wrapping to the last entry below 0 and to the first past the end |
| SuggestionList.StepDownThenUp | Editor/ScriptEditor/Source/ScriptEditor/Public/SScriptEditorPanel.h:65-75 | a step down and a step up come back to the same entry, across the wrap too |
| SuggestionList.StepFromNone | Editor/ScriptEditor/Source/ScriptEditor/Public/SScriptEditorPanel.h:65-75 | with nothing selected, down selects the first entry and up the last |
| SuggestionList.StepOnEmpty | Editor/ScriptEditor/Source/ScriptEditor/Public/SScriptEditorPanel.h:65-75 | on an empty list a step gives `INDEX_NONE` or 0, which selects nothing |
| SuggestionList.Suggestions.constructor | Editor/ScriptEditor/Source/ScriptEditor/Public/SScriptEditorPanel.h:48-49 | nothing selected, no entries, no highlight |
| SuggestionList.Suggestions.Reset | Editor/ScriptEditor/Source/ScriptEditor/Public/SScriptEditorPanel.h:51-55 | back to nothing selected, no entries and no highlight |
| SuggestionList.Suggestions.StepSelectedSuggestion | Editor/ScriptEditor/Source/ScriptEditor/Public/SScriptEditorPanel.h:65-75 | only the index moves, as `StepIndex` says; on a non-empty list something is then selected |
| SuggestionList.Suggestions.GetSelectedSuggestion | Editor/ScriptEditor/Source/ScriptEditor/Public/SScriptEditorPanel.h:77-79 | an entry if and only if the index is valid, and then the entry at that index |
| ScriptEditorPanel.DirQuery | Editor/ScriptEditor/Source/ScriptEditor/Private/SScriptEditorPanel.cpp:251-253 | the statement is `dir(`, the object text and `)` |
| ScriptEditorPanel.RemoveChar | Editor/ScriptEditor/Source/ScriptEditor/Private/SScriptEditorPanel.cpp:257 | `Replace(c, "")` leaves no `c` and adds nothing |
| ScriptEditorPanel.StripInOnePass | Editor/ScriptEditor/Source/ScriptEditor/Private/SScriptEditorPanel.cpp:257 | the three `Replace` calls remove exactly the quotes and brackets, as one filtering pass would |
| ScriptEditorPanel.FindFrom | Editor/ScriptEditor/Source/ScriptEditor/Private/SScriptEditorPanel.cpp:257 | the leftmost occurrence of the delimiter at or after the start, or -1 when there is none |
| ScriptEditorPanel.Cull | Editor/ScriptEditor/Source/ScriptEditor/Private/SScriptEditorPanel.cpp:257 | culling keeps exactly the non-empty pieces |
| ScriptEditorPanel.JoinSplit | Editor/ScriptEditor/Source/ScriptEditor/Private/SScriptEditorPanel.cpp:257 | splitting at the delimiter and joining again gives back the text |
| ScriptEditorPanel.SplitPiecesFree | Editor/ScriptEditor/Source/ScriptEditor/Private/SScriptEditorPanel.cpp:257 | no piece contains the delimiter |
| ScriptEditorPanel.ParseIntoArrayItems | Editor/ScriptEditor/Source/ScriptEditor/Private/SScriptEditorPanel.cpp:257 | every item is non-empty and free of the delimiter |
| ScriptEditorPanel.ParseJoinRoundTrip | Editor/ScriptEditor/Source/ScriptEditor/Private/SScriptEditorPanel.cpp:257 | items joined by `", "` are parsed back unchanged and in order |
| ScriptEditorPanel.CandidatesOfPythonList | Editor/ScriptEditor/Source/ScriptEditor/Private/SScriptEditorPanel.cpp:255-258 | the list Python prints for plain names is read back as exactly those names, in order |
| ScriptEditorPanel.CandidatesAreClean | Editor/ScriptEditor/Source/ScriptEditor/Private/SScriptEditorPanel.cpp:255-258 | every candidate is non-empty and holds no quote, bracket or `", "` |
| ScriptEditorPanel.FilterMembers | Editor/ScriptEditor/Source/ScriptEditor/Private/SScriptEditorPanel.cpp:260-261 | the kept entries are exactly those containing the partial, ignoring case |
| ScriptEditorPanel.FilterKeepsOrder | Editor/ScriptEditor/Source/ScriptEditor/Private/SScriptEditorPanel.cpp:260-261 | filtering keeps the order: it distributes over concatenation |
| ScriptEditorPanel.FilterEmptyPartial | Editor/ScriptEditor/Source/ScriptEditor/Private/SScriptEditorPanel.cpp:259-261 | an empty partial keeps everything, so skipping the filter then changes nothing |
| ScriptEditorPanel.ReplaceChar | Editor/ScriptEditor/Source/ScriptEditor/Private/SScriptEditorPanel.cpp:283-284 | each occurrence of one character becomes the other; everything else stays |
| ScriptEditorPanel.OneLineRow | Editor/ScriptEditor/Source/ScriptEditor/Private/SScriptEditorPanel.cpp:282-285 | the shown row holds no CR and no LF |
| ScriptEditorPanel.SanitizeInOnePass | Editor/ScriptEditor/Source/ScriptEditor/Private/SScriptEditorPanel.cpp:282-285 | the three replacements show each line break as one space, and a CR LF pair as a single space |
| ScriptEditorPanel.LastIndexOf | Editor/ScriptEditor/Source/ScriptEditor/Private/SScriptEditorPanel.cpp:319-324 | the last index whose entry equals the text ignoring case, as `FString`'s `==` compares, or -1 when no entry does |
| ScriptEditorPanel.LastIndexOfIgnoresCase | Editor/ScriptEditor/Source/ScriptEditor/Private/SScriptEditorPanel.cpp:322 | `foo` finds the later `Foo` in `foo`, `Foo`, and `Foo` finds `foo` |
| ScriptEditorPanel.WithSuggestions | Editor/ScriptEditor/Source/ScriptEditor/Private/SScriptEditorPanel.cpp:310-355 | the list and highlight are replaced; the selection becomes the last entry equal to the old selection's text ignoring case, or none; the popup and the completer flag are open if and only if the list is non-empty |
| ScriptEditorPanel.Marked | Editor/ScriptEditor/Source/ScriptEditor/Private/SScriptEditorPanel.cpp:356-369 | a selected entry is written into the editor, and with no selection the text stays; only the document changes; the guard flag ends cleared |
| ScriptEditorPanel.Shown | Editor/ScriptEditor/Source/ScriptEditor/Private/SScriptEditorPanel.cpp:232-267 | asking for completion never changes the document or the guard flag |
| ScriptEditorPanel.RowIndex | Editor/ScriptEditor/Source/ScriptEditor/Private/SScriptEditorPanel.cpp:300 | a row is found if and only if it is a row of the list |
| ScriptEditorPanel.ShowOpensIffCandidates | Editor/ScriptEditor/Source/ScriptEditor/Private/SScriptEditorPanel.cpp:232-267 | the popup opens if and only if Python is available, the slicer finds a query and some candidate matches; the selection becomes the last candidate equal to the old selection's text ignoring case, or none |
| ScriptEditorPanel.ShownEntriesMatchPartial | Editor/ScriptEditor/Source/ScriptEditor/Private/SScriptEditorPanel.cpp:248-263 | the shown entries are exactly the candidates of `dir(object)` that contain the partial, ignoring case |
| ScriptEditorPanel.IgnoredWhileMarking | Editor/ScriptEditor/Source/ScriptEditor/Private/SScriptEditorPanel.cpp:234-235 | while the guard flag is set, completion requests and selection changes do nothing |
| ScriptEditorPanel.SpaceClosesPopup | Editor/ScriptEditor/Source/ScriptEditor/Private/SScriptEditorPanel.cpp:200-212 | a space just before the caret closes the open popup and keeps the list and the selection |
| ScriptEditorPanel.AcceptWritesSelection | Editor/ScriptEditor/Source/ScriptEditor/Private/SScriptEditorPanel.cpp:218-223 | accepting closes the popup and writes the selected entry over the partial; with nothing selected the text stays |
| ScriptEditorPanel.PickRow | Editor/ScriptEditor/Source/ScriptEditor/Private/SScriptEditorPanel.cpp:295-309 | a picked row becomes the selection and is written into the editor; a missing row selects nothing; only a mouse click closes the popup |
| ScriptEditorPanel.ListKeys | Editor/ScriptEditor/Source/ScriptEditor/Private/SScriptEditorPanel.cpp:140-149 | a key in the list is handled if and only if it is Right, Enter or Tab with the popup open, and then it accepts; otherwise nothing changes |
| ScriptEditorPanel.EnterInEditor | Editor/ScriptEditor/Source/ScriptEditor/Private/SScriptEditorPanel.cpp:96-104 | Enter in the editor accepts the completion if and only if the popup is open, and otherwise breaks the line |
| ScriptEditorPanel.HandlersKeepConsistent | Editor/ScriptEditor/Source/ScriptEditor/Private/SScriptEditorPanel.cpp:213-217 | every handler keeps the editor's completer flag equal to the popup's state |
| ScriptEditorPanel.ScriptEditorPanel.constructor | Editor/ScriptEditor/Source/ScriptEditor/Private/SScriptEditorPanel.cpp:21-104 | the editor holds the text, the popup is closed, the list is empty and nothing is selected |
| ScriptEditorPanel.ScriptEditorPanel.HideAutoCompleter | Editor/ScriptEditor/Source/ScriptEditor/Private/SScriptEditorPanel.cpp:213-217 | the popup closes and the completer flag clears; nothing else changes |
| ScriptEditorPanel.ScriptEditorPanel.ClearSuggestions | Editor/ScriptEditor/Source/ScriptEditor/Private/SScriptEditorPanel.cpp:370-374 | the popup closes and the list is reset |
| ScriptEditorPanel.ScriptEditorPanel.SetSuggestions | Editor/ScriptEditor/Source/ScriptEditor/Private/SScriptEditorPanel.cpp:310-355 | the panel state becomes `WithSuggestions` of the old one |
| ScriptEditorPanel.ScriptEditorPanel.AddSuggestions | Editor/ScriptEditor/Source/ScriptEditor/Private/SScriptEditorPanel.cpp:319-324 | the emptied list ends up holding exactly the elements, in order, and the selection is the last entry equal to the previous selection's text ignoring case, or none |
| ScriptEditorPanel.ScriptEditorPanel.ApplySelected | Editor/ScriptEditor/Source/ScriptEditor/Private/SScriptEditorPanel.cpp:359-364 | with a selection and the callback guard set, only the document changes: the selected entry is applied as a suggestion |
| ScriptEditorPanel.ScriptEditorPanel.MarkActiveSuggestion | Editor/ScriptEditor/Source/ScriptEditor/Private/SScriptEditorPanel.cpp:356-369 | the panel state becomes `Marked` of the old one, through the re-entrant selection callback |
| ScriptEditorPanel.ScriptEditorPanel.SuggestionSelectionChanged | Editor/ScriptEditor/Source/ScriptEditor/Private/SScriptEditorPanel.cpp:295-309 | the panel state becomes `SelectionChanged` of the old one |
| ScriptEditorPanel.ScriptEditorPanel.ShowAutoCompleter | Editor/ScriptEditor/Source/ScriptEditor/Private/SScriptEditorPanel.cpp:232-267 | the panel state becomes `Shown` of the old one |
| ScriptEditorPanel.ScriptEditorPanel.OnTextChanged | Editor/ScriptEditor/Source/ScriptEditor/Private/SScriptEditorPanel.cpp:200-212 | the panel state becomes `TextChanged` of the old one |
| ScriptEditorPanel.ScriptEditorPanel.AcceptAutoCompleter | Editor/ScriptEditor/Source/ScriptEditor/Private/SScriptEditorPanel.cpp:218-223 | the panel state becomes `Accepted` of the old one |
| ScriptEditorPanel.ScriptEditorPanel.OnCompleterKeyDown | Editor/ScriptEditor/Source/ScriptEditor/Private/SScriptEditorPanel.cpp:140-149 | the reply and the panel state are `CompleterKeyDown`'s |
| ScriptEditorPanel.ScriptEditorPanel.OnEditorKeyDown | Editor/ScriptEditor/Source/ScriptEditor/Private/SScriptEditorPanel.cpp:96-104 | the editor routes and edits as `OnKeyDown` says, then the panel runs the delegate the action fires |

## Left out

- The host tokenizer is not modelled. Tokens arrive as kinds and ranges. `SyntaxFromRules` states the one property of the tokenizer that a lemma relies on: Syntax tokens are rule strings.
- The regex engine is not modelled. Each pattern the source uses is stated directly on the characters. The corner case of `$` matching before a final line terminator is not modelled.
- Letters are ASCII letters only: the Unicode letter classes of `FChar` are not modelled.
- `FChar::IsWhitespace` (`IsWhitespace`, used for blank tokens and trimming) classifies only ASCII whitespace. The keyword regex's `\s` has its own predicate, `IsRegexSpace`, with ICU's members: no vertical tab, but the Unicode space separators.
- Case folding (`EqualsIgnoreCase`, `ContainsIgnoreCase`) folds ASCII letters only.
- Font scaling is left out: Ctrl+Plus, Ctrl+Minus and Ctrl+mouse wheel compute float sizes (`SPythonTextEditor.cpp` 240-245 and 252-269). `KeyDispatch` returns the `ScaleFont` action; `SetFontSize`'s range guard is modelled.
- Popup geometry, scrolling and list refresh are left out, because they are layout only (`SScriptEditorPanel.cpp` 325-351, `GetSelectionListMaxWidth`).
- Keyboard focus is left out. `CompleterNavUp` and `CompleterNavDown` only move focus to the list, and `AcceptAutoCompleter` moves it back. The list view's own arrow-key handling is host code.
- Running Python is left out: `ExecutePython`, `PrintHelp`, pretty-printing and `OpenDocumentation` send a command and log the output. `KeyDispatch` returns the action they correspond to.
- The context menu (`BuildContextMenuContent`) is left out, because it is UI construction only.
- The multi-line Tab range heuristic is left out (`SPythonTextEditor.cpp` 143-170). It guesses the range from the caret line and the number of selected lines, and checks it against the selected text. The guess can be a range shifted from the selection, and after the swap at lines 165-167 an empty one: then no line is shifted and the caret still moves. The model takes the range as a parameter, and only a range holding the caret line.
- The range check has two slips, left unmodelled with the heuristic. Line 163 compares `i-Start` with `Num` where `Num-1` is meant. Line 158 tests `i > Num` where `>=` is meant, so two equal lines `    a` fully selected with the caret at line 1, offset 5 give the range 1 to 2, and line 159 reads `AllLines[2]` past the end.
- TabSelectedLines runs the caret target as written at line 182. The corrected pass, `TabLines` with `TabLinesCaret`, is a reference only; the editor does not use it.
- The text of a selection is not modelled, and neither is the host clearing it before an edit. A key press receives only whether something is selected and the selected line range.
- A carriage return inside a line is an ordinary character in `Document`. Only the line feed splits lines.
- StepSelectedSuggestion: the 32-bit wrap-around of `SelectedSuggestion + Step` is not modelled. Nothing in the plugin calls the method, and the integers are unbounded.
- Text-change notifications raised by the host during an editor edit are not modelled. `ApplySuggestion` and Enter would re-enter `OnTextChanged`; the model runs that handler only when it is called.
- `CaretLocation` is treated as the host caret. The model assumes `OnCursorMoved` has reported every caret move before the next key press.
- Embedded NUL characters are not modelled. `ParseIntoArray` stops at a NUL in the source; the model's split does not.
- `bIgnoreUIUpdate` is not initialized by `Construct`. The model starts it cleared, as a value-initialized widget would.
- `Document.GoTo` leaves the caret where it is for a target outside the text. The model assumes the host does that. One-line Shift+Tab relies on it when the caret sits inside the spaces removed (the target at lines 135 and 192 is negative). Multi-line Shift+Tab relies on it when line 182's target is past the end of the line.
- The popup is assumed to close only through `HideAutoCompleter`. The menu anchor at `SScriptEditorPanel.cpp` 51-52 binds no callback for the host closing it. If the host dismisses the popup, `bCompleterIsShown` stays set, and the next Enter (lines 203-215) applies a stale selection. `Consistent` and `HandlersKeepConsistent` do not cover that case.
- KeywordBoundary: for a token at offset 0 of the source, line 199 slices with start -1. What that slice holds depends on how the host's `Mid` clamps a negative start; it never holds the character after the token. The model takes the missing neighbour as a boundary and still checks the next character. `SyntaxInNone`, `ParseTokens` and the lemmas built on them fix that case in this way.
- `ShowAutoCompleter`'s branch for an empty object string (`ClearSuggestions`) is proved unreachable: `SplitRun` never yields an empty object.

## Findings

| source | as written | input that shows it | evidently intended | confidence | as-written member | corrected member |
|---|---|---|---|---|---|---|
| Editor/ScriptEditor/Source/ScriptEditor/Private/SPythonTextEditor.cpp:182 | after Shift+Tab over several selected lines, the caret is sent to its old offset plus the number of spaces removed | lines `    aaaaaaaaaa` and `    b`, selected from line 1, offset 5 back to line 0, offset 5, so the caret is at line 0, offset 5 after the first `a`. Lines 147-170 pick lines 0 and 1: the caret line is below the two selected lines, and line 0 ends with the selected `aaaaaaaaa`. The caret goes to offset 9, before the last `a` | subtract the spaces removed, as the one-line path does at lines 135 and 192, leaving the caret after the first `a` at offset 1 | not executed | TextEditor.TabLinesAsWritten | TextEditor.TabLinesCaret |

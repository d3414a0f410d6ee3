/**
 * The Python syntax-colouring pass of the script editor
 * (`FPythonSyntaxMarshaller`): the tokenizer rule tables, the per-token
 * state machine of `ParseTokens`, the document-wide pass that threads one
 * parse state through every line, and the font-size guard.
 *
 * The host tokenizer is not modelled: a document arrives as tokenized
 * lines, each token a kind (Syntax or Literal) and a `[begin, end)` range
 * into the source string.
 */
module SyntaxMarshaller {
  import opened Chars
  import Wrappers

  // ---------------------------------------------------------------------
  // Rule tables handed to the tokenizer by `Create`
  // ---------------------------------------------------------------------

  const Keywords: seq<string> := [
    "False", "True", "None", "and", "or", "from", "import", "as", "in", "with",
    "await", "break", "class", "def", "continue", "assert", "async", "del", "if", "not",
    "else", "elif", "try", "except", "finally", "for", "while", "global", "with", "yield",
    "pass", "return"
  ]

  const Operators: seq<string> := [
    "#", "\"", "'", "+=", "+", "-=", "-", "(", ")", "[", "]", ".", "!=", "!", "&=", "~",
    "&", "*=", "*", "/=", "/", "%=", "%", "<<", "<=", "<", ">>", ">=", ">", "==", "&",
    "^=", "^", "|=", "|", "=", ",", "{", "}", ";"
  ]

  const Numbers: seq<string> := ["1", "2", "3", "4", "5", "6", "7", "8", "9", "0", "."]

  /** The rules in the order `Create` registers them: operators, then keywords, then numbers. */
  const TokenizerRules: seq<string> := Operators + Keywords + Numbers

  const TripleDoubleQuote: string := "\"\"\""
  const TripleSingleQuote: string := "'''"

  // ---------------------------------------------------------------------
  // Tokens, parse state and runs
  // ---------------------------------------------------------------------

  datatype TokenType = Syntax | Literal

  /** A token of a tokenized line; `begin` and `end` index the whole source string. */
  datatype Token = Token(kind: TokenType, begin: nat, end: nat)

  predicate WellFormed(source: string, t: Token) {
    t.begin <= t.end <= |source|
  }

  /**
   * `SourceString.Mid(Token.Range.BeginIndex, Token.Range.Len())`; like
   * `Mid`, a range reaching past the string is clamped to it.
   */
  function TokenText(source: string, t: Token): string {
    var b := if t.begin <= |source| then t.begin else |source|;
    var e := if t.end < b then b else if t.end <= |source| then t.end else |source|;
    source[b..e]
  }

  /** The host tokenizer only ever emits Syntax tokens whose text is one of the rule strings. */
  predicate SyntaxFromRules(source: string, toks: seq<Token>)
  {
    forall i :: 0 <= i < |toks| && toks[i].kind == Syntax ==> TokenText(source, toks[i]) in TokenizerRules
  }

  datatype ParseState = None | DoubleQuote | SingleQuote | LineComment | MultiLineComment

  /** The six text styles of `FSyntaxTextStyle` (Number is never chosen by `ParseTokens`). */
  datatype TextStyle = Normal | Operator | Keyword | String | Number | Comment

  /** The `FRunInfo` names "SyntaxHighlight.PY.<suffix>". */
  datatype RunName = PyNormal | PyString | PyComment | PyKeyword | PyOperator | PyWhiteSpace

  /** `FSlateTextRun` for ordinary text, `FWhiteSpaceTextRun` (tab width 4) for blank tokens. */
  datatype RunKind = TextRun | WhiteSpaceRun

  /** A styled run over `[begin, end)` of its line's model string. */
  datatype Run = Run(kind: RunKind, name: RunName, style: TextStyle, begin: nat, end: nat)

  /** One entry of `LinesToAdd`: the line's model string and its runs. */
  datatype NewLine = NewLine(model: string, runs: seq<Run>)

  /** How one token is styled, and the parse state after it. */
  datatype Styling = Styling(kind: RunKind, name: RunName, style: TextStyle, next: ParseState)

  /** What the Syntax branch chain decides, and whether it set `bHasMatchedSyntax`. */
  datatype SyntaxMatch = SyntaxMatch(name: RunName, style: TextStyle, next: ParseState, matched: bool)

  // ---------------------------------------------------------------------
  // The keyword neighbour check
  // ---------------------------------------------------------------------

  /** Left alternative of the keyword pattern: `\s` or one of `[._A-Za-z0-9]` before the token. */
  predicate LeftBoundary(c: char) {
    IsRegexSpace(c) || c == '.' || c == '_' || IsLetter(c) || IsDigit(c)
  }

  /** Right alternative of the keyword pattern: `\s`, a colon, or the end of the slice. */
  predicate RightBoundary(next: Wrappers.Option<char>) {
    next.None? || IsRegexSpace(next.value) || next.value == ':'
  }

  /**
   * The word-boundary regex of the keyword branch, stated on the optional
   * neighbours of the token in the source string.  A token at offset 0 has
   * no left neighbour: the source then slices with a negative start, and
   * what the slice holds depends on how the host clamps it.  The model
   * takes the missing neighbour as a boundary and still checks the next
   * character; README lists this under what is left out.
   */
  predicate KeywordBoundary(prev: Wrappers.Option<char>, next: Wrappers.Option<char>) {
    (prev.None? || LeftBoundary(prev.value)) && RightBoundary(next)
  }

  function PrevChar(source: string, t: Token): Wrappers.Option<char>
  {
    if 0 < t.begin <= |source| then Wrappers.Some(source[t.begin - 1]) else Wrappers.None
  }

  function NextChar(source: string, t: Token): Wrappers.Option<char>
  {
    if t.end < |source| then Wrappers.Some(source[t.end]) else Wrappers.None
  }

  predicate KeywordMatch(source: string, t: Token)
  {
    KeywordBoundary(PrevChar(source, t), NextChar(source, t))
  }

  // ---------------------------------------------------------------------
  // One token
  // ---------------------------------------------------------------------

  predicate IsTripleQuote(text: string) {
    text == TripleDoubleQuote || text == TripleSingleQuote
  }

  /** The chain of Syntax-token branches, in the order the source tests them. */
  function SyntaxBranch(source: string, t: Token, state: ParseState): SyntaxMatch
    requires TokenText(source, t) != []
  {
    var text := TokenText(source, t);
    if state == None && text == "\"" then SyntaxMatch(PyString, String, DoubleQuote, true)
    else if state == DoubleQuote && text == "\"" then SyntaxMatch(PyNormal, String, None, false)
    else if state == None && text == "'" then SyntaxMatch(PyString, String, SingleQuote, true)
    else if state == SingleQuote && text == "'" then SyntaxMatch(PyNormal, String, None, false)
    else if state == None && text == "#" then SyntaxMatch(PyComment, Comment, LineComment, false)
    else if state == None && IsTripleQuote(text) then SyntaxMatch(PyComment, Comment, MultiLineComment, false)
    else if state == MultiLineComment && IsTripleQuote(text) then SyntaxMatch(PyComment, Comment, None, false)
    else if state == None && IsLetter(text[0]) then
      (if KeywordMatch(source, t) then SyntaxMatch(PyKeyword, Keyword, None, false)
       else SyntaxMatch(PyNormal, Normal, state, false))
    else if state == None && !IsLetter(text[0]) then SyntaxMatch(PyOperator, Operator, None, false)
    else SyntaxMatch(PyNormal, Normal, state, false)
  }

  /** The literal fallback: a token not matched as syntax takes the style of the state it is in. */
  function StateFallback(name: RunName, style: TextStyle, state: ParseState): Styling {
    match state
    case DoubleQuote => Styling(TextRun, PyString, String, state)
    case SingleQuote => Styling(TextRun, PyString, String, state)
    case LineComment => Styling(TextRun, PyComment, Comment, state)
    case MultiLineComment => Styling(TextRun, PyComment, Comment, state)
    case None => Styling(TextRun, name, style, state)
  }

  /**
   * The body of the token loop of `ParseTokens`, for one token in a given
   * state. The source tests for a blank token by trimming trailing
   * whitespace and comparing with empty; `BlankToken` shows that test is
   * the same as `AllWhitespace`.
   */
  function Classify(source: string, t: Token, state: ParseState): Styling
  {
    var text := TokenText(source, t);
    if AllWhitespace(text) then Styling(WhiteSpaceRun, PyWhiteSpace, Normal, state)
    else
      var m := if t.kind == Syntax then SyntaxBranch(source, t, state)
               else SyntaxMatch(PyNormal, Normal, state, false);
      if t.kind == Literal || !m.matched then StateFallback(m.name, m.style, m.next)
      else Styling(TextRun, m.name, m.style, m.next)
  }

  // ---------------------------------------------------------------------
  // One line, one document
  // ---------------------------------------------------------------------

  /** The model string of a line: its token texts, concatenated in order. */
  function LineText(source: string, toks: seq<Token>): string
  {
    if toks == [] then []
    else LineText(source, toks[..|toks| - 1]) + TokenText(source, toks[|toks| - 1])
  }

  /** The parse state after the tokens of a line, entered in state `entry`. */
  function StateAfter(source: string, toks: seq<Token>, entry: ParseState): ParseState
  {
    if toks == [] then entry
    else Classify(source, toks[|toks| - 1], StateAfter(source, toks[..|toks| - 1], entry)).next
  }

  function MakeRun(s: Styling, begin: nat, end: nat): Run {
    Run(s.kind, s.name, s.style, begin, end)
  }

  /** The runs of a line, one per token. */
  function LineRuns(source: string, toks: seq<Token>, entry: ParseState): (r: seq<Run>)
    ensures |r| == |toks|
  {
    if toks == [] then []
    else
      var prefix := toks[..|toks| - 1];
      var len := |LineText(source, prefix)|;
      LineRuns(source, prefix, entry)
      + [MakeRun(Classify(source, toks[|toks| - 1], StateAfter(source, prefix, entry)),
                 len, len + |TokenText(source, toks[|toks| - 1])|)]
  }

  /** The state a line is parsed in, given the state the previous line ended in. */
  function EntryState(s: ParseState): (r: ParseState)
    ensures r != LineComment
    ensures s != LineComment ==> r == s
  {
    if s == LineComment then None else s
  }

  /** The parse state after the given lines; the document starts in `None`. */
  function DocStateAfter(source: string, lines: seq<seq<Token>>): ParseState
  {
    if lines == [] then None
    else
      var last := lines[|lines| - 1];
      StateAfter(source, last, EntryState(DocStateAfter(source, lines[..|lines| - 1])))
  }

  /** The lines `ParseTokens` hands to the text layout. */
  function ParseDocument(source: string, lines: seq<seq<Token>>): (r: seq<NewLine>)
    ensures |r| == |lines|
  {
    if lines == [] then []
    else
      var prefix := lines[..|lines| - 1];
      var last := lines[|lines| - 1];
      ParseDocument(source, prefix)
      + [NewLine(LineText(source, last), LineRuns(source, last, EntryState(DocStateAfter(source, prefix))))]
  }

  // ---------------------------------------------------------------------
  // ParseTokens
  // ---------------------------------------------------------------------

  /** Appending one token to a line extends its model string, runs and state by that token alone. */
  lemma LineStep(source: string, toks: seq<Token>, i: nat, entry: ParseState,
                 state: ParseState, styling: Styling, begin: nat, end: nat)
    requires i < |toks|
    requires state == StateAfter(source, toks[..i], entry)
    requires styling == Classify(source, toks[i], state)
    requires begin == |LineText(source, toks[..i])| && end == begin + |TokenText(source, toks[i])|
    ensures LineText(source, toks[..i + 1]) == LineText(source, toks[..i]) + TokenText(source, toks[i])
    ensures StateAfter(source, toks[..i + 1], entry) == styling.next
    ensures LineRuns(source, toks[..i + 1], entry) == LineRuns(source, toks[..i], entry) + [MakeRun(styling, begin, end)]
  {
    assert toks[..i + 1][..i] == toks[..i];
  }

  /** Appending one line to a document extends the parsed lines by that line alone. */
  lemma DocStep(source: string, lines: seq<seq<Token>>, k: nat)
    requires k < |lines|
    ensures DocStateAfter(source, lines[..k + 1])
         == StateAfter(source, lines[k], EntryState(DocStateAfter(source, lines[..k])))
    ensures ParseDocument(source, lines[..k + 1])
         == ParseDocument(source, lines[..k])
            + [NewLine(LineText(source, lines[k]),
                       LineRuns(source, lines[k], EntryState(DocStateAfter(source, lines[..k]))))]
  {
    assert lines[..k + 1][..k] == lines[..k];
  }

  /**
   * The inner loop of `ParseTokens`: the tokens of one line, entered in
   * `entry`, appended one by one to the model string and the run list.
   */
  method ParseLine(source: string, line: seq<Token>, entry: ParseState)
    returns (modelString: string, runs: seq<Run>, parseState: ParseState)
    ensures modelString == LineText(source, line)
    ensures runs == LineRuns(source, line, entry)
    ensures parseState == StateAfter(source, line, entry)
  {
    modelString, runs, parseState := "", [], entry;
    assert line[..0] == [];
    var i := 0;
    while i < |line|
      invariant 0 <= i <= |line|
      invariant modelString == LineText(source, line[..i])
      invariant runs == LineRuns(source, line[..i], entry)
      invariant parseState == StateAfter(source, line[..i], entry)
    {
      var token := line[i];
      var tokenText := TokenText(source, token);
      var beginAt, endAt := |modelString|, |modelString| + |tokenText|;
      var styling := Classify(source, token, parseState);
      LineStep(source, line, i, entry, parseState, styling, beginAt, endAt);
      modelString := modelString + tokenText;
      runs := runs + [MakeRun(styling, beginAt, endAt)];
      parseState := styling.next;
      i := i + 1;
    }
    assert line[..|line|] == line;
  }

  /** `FPythonSyntaxMarshaller::ParseTokens`: one pass over every line, threading one parse state. */
  method ParseTokens(source: string, tokenizedLines: seq<seq<Token>>) returns (linesToAdd: seq<NewLine>)
    ensures linesToAdd == ParseDocument(source, tokenizedLines)
  {
    linesToAdd := [];
    var parseState := None;
    var k := 0;
    while k < |tokenizedLines|
      invariant 0 <= k <= |tokenizedLines|
      invariant linesToAdd == ParseDocument(source, tokenizedLines[..k])
      invariant parseState == DocStateAfter(source, tokenizedLines[..k])
    {
      var line := tokenizedLines[k];
      DocStep(source, tokenizedLines, k);
      if parseState == LineComment {
        parseState := None;
      }
      var modelString, runs;
      modelString, runs, parseState := ParseLine(source, line, parseState);
      linesToAdd := linesToAdd + [NewLine(modelString, runs)];
      k := k + 1;
    }
    assert tokenizedLines[..|tokenizedLines|] == tokenizedLines;
  }

  // ---------------------------------------------------------------------
  // Properties of the pass
  // ---------------------------------------------------------------------

  /** Parsing a prefix of a line's tokens yields a prefix of the line's runs and of its model string. */
  lemma {:induction false} LinePrefix(source: string, toks: seq<Token>, entry: ParseState, k: nat)
    requires k <= |toks|
    ensures LineRuns(source, toks[..k], entry) == LineRuns(source, toks, entry)[..k]
    ensures |LineText(source, toks[..k])| <= |LineText(source, toks)|
    ensures LineText(source, toks)[..|LineText(source, toks[..k])|] == LineText(source, toks[..k])
  {
    if k < |toks| {
      var n := |toks| - 1;
      assert toks[..n][..k] == toks[..k];
      LinePrefix(source, toks[..n], entry, k);
      var st := StateAfter(source, toks[..n], entry);
      LineStep(source, toks, n, entry, st, Classify(source, toks[n], st),
               |LineText(source, toks[..n])|, |LineText(source, toks[..n])| + |TokenText(source, toks[n])|);
      assert toks[..n + 1] == toks;
    } else {
      assert toks[..k] == toks;
    }
  }

  /** Each token yields exactly one run, in token order, styled by the state the token is met in. */
  lemma RunAt(source: string, toks: seq<Token>, entry: ParseState, i: nat)
    requires i < |toks|
    ensures LineRuns(source, toks, entry)[i]
         == MakeRun(Classify(source, toks[i], StateAfter(source, toks[..i], entry)),
                    |LineText(source, toks[..i])|,
                    |LineText(source, toks[..i])| + |TokenText(source, toks[i])|)
  {
    LinePrefix(source, toks, entry, i + 1);
    LastRun(source, toks, entry, i);
  }

  lemma LastRun(source: string, toks: seq<Token>, entry: ParseState, i: nat)
    requires i < |toks|
    ensures LineRuns(source, toks[..i + 1], entry)[i]
         == MakeRun(Classify(source, toks[i], StateAfter(source, toks[..i], entry)),
                    |LineText(source, toks[..i])|,
                    |LineText(source, toks[..i])| + |TokenText(source, toks[i])|)
  {
    assert toks[..i + 1][..i] == toks[..i];
  }

  lemma TextStep(source: string, toks: seq<Token>, i: nat)
    requires i < |toks|
    ensures LineText(source, toks[..i + 1]) == LineText(source, toks[..i]) + TokenText(source, toks[i])
  {
    assert toks[..i + 1][..i] == toks[..i];
  }

  lemma TokenSpan(source: string, toks: seq<Token>, i: nat)
    requires i < |toks|
    ensures |LineText(source, toks[..i])| <= |LineText(source, toks[..i + 1])| <= |LineText(source, toks)|
    ensures LineText(source, toks)[|LineText(source, toks[..i])|..|LineText(source, toks[..i + 1])|]
         == TokenText(source, toks[i])
  {
    TextStep(source, toks, i);
    LinePrefix(source, toks, None, i + 1);
    var model, pre := LineText(source, toks), LineText(source, toks[..i + 1]);
    var len := |LineText(source, toks[..i])|;
    assert model[len..|pre|] == pre[len..];
  }

  /** Run `i` spans the model string from the end of the first `i` tokens' text to the end of the first `i + 1`. */
  lemma RunSpan(source: string, toks: seq<Token>, entry: ParseState, i: nat)
    requires i < |toks|
    ensures LineRuns(source, toks, entry)[i].begin == |LineText(source, toks[..i])|
    ensures LineRuns(source, toks, entry)[i].end == |LineText(source, toks[..i + 1])| <= |LineText(source, toks)|
    ensures |LineText(source, toks[..i])| <= |LineText(source, toks[..i + 1])|
    ensures LineText(source, toks)[|LineText(source, toks[..i])|..|LineText(source, toks[..i + 1])|]
         == TokenText(source, toks[i])
  {
    RunAt(source, toks, entry, i);
    TextStep(source, toks, i);
    TokenSpan(source, toks, i);
  }

  /**
   * The runs of a line tile its model string: the first starts at 0, each
   * starts where the previous ends, the last ends at the end of the model
   * string, and each covers exactly the text of its token.
   */
  lemma RunsTileModelString(source: string, toks: seq<Token>, entry: ParseState)
    ensures var runs, model := LineRuns(source, toks, entry), LineText(source, toks);
      && |runs| == |toks|
      && (forall i :: 0 <= i < |runs| ==>
            runs[i].begin <= runs[i].end <= |model|
            && model[runs[i].begin..runs[i].end] == TokenText(source, toks[i]))
      && (|runs| > 0 ==> runs[0].begin == 0 && runs[|runs| - 1].end == |model|)
      && (forall i :: 0 < i < |runs| ==> runs[i].begin == runs[i - 1].end)
  {
    RunsCover(source, toks, entry);
    RunsAdjacent(source, toks, entry);
    if toks != [] {
      RunBounds(source, toks, entry, 0);
      RunBounds(source, toks, entry, |toks| - 1);
      assert toks[..|toks|] == toks;
    }
  }

  lemma RunBounds(source: string, toks: seq<Token>, entry: ParseState, i: nat)
    requires i < |toks|
    ensures LineRuns(source, toks, entry)[i].begin == |LineText(source, toks[..i])|
    ensures LineRuns(source, toks, entry)[i].end == |LineText(source, toks[..i + 1])|
  {
    RunAt(source, toks, entry, i);
    TextStep(source, toks, i);
  }

  lemma RunsCover(source: string, toks: seq<Token>, entry: ParseState)
    ensures var runs, model := LineRuns(source, toks, entry), LineText(source, toks);
      forall i :: 0 <= i < |runs| ==>
        runs[i].begin <= runs[i].end <= |model|
        && model[runs[i].begin..runs[i].end] == TokenText(source, toks[i])
  {
    var runs, model := LineRuns(source, toks, entry), LineText(source, toks);
    forall i | 0 <= i < |runs|
      ensures runs[i].begin <= runs[i].end <= |model|
      ensures model[runs[i].begin..runs[i].end] == TokenText(source, toks[i])
    {
      RunSpan(source, toks, entry, i);
    }
  }

  lemma RunsAdjacent(source: string, toks: seq<Token>, entry: ParseState)
    ensures var runs := LineRuns(source, toks, entry);
      forall i :: 0 < i < |runs| ==> runs[i].begin == runs[i - 1].end
  {
    var runs := LineRuns(source, toks, entry);
    forall i | 0 < i < |runs|
      ensures runs[i].begin == runs[i - 1].end
    {
      RunBounds(source, toks, entry, i);
      RunBounds(source, toks, entry, i - 1);
    }
  }

  /** Line `k` of the parsed document is line `k` of the input, parsed in the state the lines before it leave. */
  lemma {:induction false} ParsedLineAt(source: string, lines: seq<seq<Token>>, k: nat)
    requires k < |lines|
    ensures |ParseDocument(source, lines)| == |lines|
    ensures ParseDocument(source, lines)[k]
         == NewLine(LineText(source, lines[k]),
                    LineRuns(source, lines[k], EntryState(DocStateAfter(source, lines[..k]))))
  {
    var p := lines[..|lines| - 1];
    if k < |lines| - 1 {
      assert lines[..k] == p[..k];
      ParsedLineAt(source, p, k);
    } else {
      assert p == lines[..k];
      if p != [] {
        ParsedLineAt(source, p, 0);
      }
    }
  }

  /** A blank token (empty after trimming trailing whitespace) gets the WhiteSpace run and leaves the state as it was. */
  lemma BlankToken(source: string, t: Token, state: ParseState)
    ensures TrimEnd(TokenText(source, t)) == []
        ==> Classify(source, t, state) == Styling(WhiteSpaceRun, PyWhiteSpace, Normal, state)
    ensures TrimEnd(TokenText(source, t)) != [] ==> Classify(source, t, state).kind == TextRun
  {
    TrimEndEmptyIffBlank(TokenText(source, t));
  }

  /** Opening and closing quotes: the quote itself is styled String; a closing quote keeps the name Normal. */
  lemma QuoteTransitions(source: string, t: Token, state: ParseState)
    requires t.kind == Syntax
    ensures var r := Classify(source, t, state); var text := TokenText(source, t);
      && (state == None && text == "\"" ==> r == Styling(TextRun, PyString, String, DoubleQuote))
      && (state == None && text == "'" ==> r == Styling(TextRun, PyString, String, SingleQuote))
      && (state == DoubleQuote && text == "\"" ==> r == Styling(TextRun, PyNormal, String, None))
      && (state == SingleQuote && text == "'" ==> r == Styling(TextRun, PyNormal, String, None))
  {
    var text := TokenText(source, t);
    if text == "\"" || text == "'" {
      assert !IsWhitespace(text[0]);
    }
  }

  /** Inside a string only the same quote, as a Syntax token, returns to None; every other non-blank token is String. */
  lemma InsideString(source: string, t: Token, state: ParseState)
    requires (state == DoubleQuote || state == SingleQuote)
    requires !AllWhitespace(TokenText(source, t))
    ensures var r := Classify(source, t, state);
      var closing := if state == DoubleQuote then "\"" else "'";
      && r.style == String
      && (r.next == None <==> t.kind == Syntax && TokenText(source, t) == closing)
      && (r.next != None ==> r.next == state && r.name == PyString)
  {
  }

  /** In state None a Syntax `#` opens a line comment and is styled Comment. */
  lemma HashOpensLineComment(source: string, t: Token)
    requires t.kind == Syntax && TokenText(source, t) == "#"
    ensures Classify(source, t, None) == Styling(TextRun, PyComment, Comment, LineComment)
  {
    assert !IsWhitespace(TokenText(source, t)[0]);
  }

  /** In a line comment every non-blank token, quotes and keywords included, is Comment, and the state stays. */
  lemma InsideLineComment(source: string, t: Token)
    ensures Classify(source, t, LineComment).next == LineComment
    ensures !AllWhitespace(TokenText(source, t))
        ==> Classify(source, t, LineComment) == Styling(TextRun, PyComment, Comment, LineComment)
  {
  }

  /** Keyword and Operator are assigned only in state None, and leave the state at None. */
  lemma KeywordOperatorOnlyInNone(source: string, t: Token, state: ParseState)
    requires Classify(source, t, state).style == Keyword || Classify(source, t, state).style == Operator
    ensures state == None && Classify(source, t, state).next == None
    ensures t.kind == Syntax
  {
  }

  predicate IsQuoteOrHash(text: string) {
    text == "\"" || text == "'" || text == "#" || IsTripleQuote(text)
  }

  /**
   * In state None a Syntax token that is not a quote or `#` is styled
   * Operator when its first character is not a letter, and Keyword or
   * Normal by the neighbour check when it is; the state stays None.
   */
  lemma SyntaxInNone(source: string, t: Token)
    requires t.kind == Syntax
    requires !AllWhitespace(TokenText(source, t)) && !IsQuoteOrHash(TokenText(source, t))
    ensures var r := Classify(source, t, None); var text := TokenText(source, t);
      && |text| > 0
      && r.next == None
      && (!IsLetter(text[0]) ==> r == Styling(TextRun, PyOperator, Operator, None))
      && (IsLetter(text[0]) && KeywordMatch(source, t) ==> r == Styling(TextRun, PyKeyword, Keyword, None))
      && (IsLetter(text[0]) && !KeywordMatch(source, t) ==> r == Styling(TextRun, PyNormal, Normal, None))
  {
  }

  /** In state None a Literal token is plain Normal text. */
  lemma LiteralInNone(source: string, t: Token)
    requires t.kind == Literal && !AllWhitespace(TokenText(source, t))
    ensures Classify(source, t, None) == Styling(TextRun, PyNormal, Normal, None)
  {
  }

  /** Beyond the first token, the neighbour check reads exactly the characters around the token. */
  lemma KeywordNeighbours(source: string, t: Token)
    requires WellFormed(source, t) && t.begin > 0
    ensures KeywordMatch(source, t)
        <==> LeftBoundary(source[t.begin - 1])
             && (t.end == |source| || IsRegexSpace(source[t.end]) || source[t.end] == ':')
  {
  }

  /** A line-comment state, once reached on a line, lasts to the end of the line, styling every non-blank token Comment. */
  lemma {:induction false} CommentLastsToLineEnd(source: string, toks: seq<Token>, entry: ParseState, j: nat, i: nat)
    requires j <= i <= |toks|
    requires StateAfter(source, toks[..j], entry) == LineComment
    ensures StateAfter(source, toks[..i], entry) == LineComment
    ensures i < |toks| && !AllWhitespace(TokenText(source, toks[i]))
        ==> LineRuns(source, toks, entry)[i].style == Comment
  {
    if i > j {
      CommentLastsToLineEnd(source, toks, entry, j, i - 1);
      LineStep(source, toks, i - 1, entry, StateAfter(source, toks[..i - 1], entry),
               Classify(source, toks[i - 1], StateAfter(source, toks[..i - 1], entry)),
               |LineText(source, toks[..i - 1])|,
               |LineText(source, toks[..i - 1])| + |TokenText(source, toks[i - 1])|);
      InsideLineComment(source, toks[i - 1]);
    }
    if i < |toks| {
      RunAt(source, toks, entry, i);
      InsideLineComment(source, toks[i]);
    }
  }

  /** After a `#` met in state None, every later non-blank token of that line is Comment and the line ends in a line comment. */
  lemma HashCommentsRestOfLine(source: string, toks: seq<Token>, entry: ParseState, j: nat)
    requires j < |toks|
    requires toks[j].kind == Syntax && TokenText(source, toks[j]) == "#"
    requires StateAfter(source, toks[..j], entry) == None
    ensures LineRuns(source, toks, entry)[j].style == Comment
    ensures forall i :: j < i < |toks| && !AllWhitespace(TokenText(source, toks[i])) ==>
      LineRuns(source, toks, entry)[i].style == Comment
    ensures StateAfter(source, toks, entry) == LineComment
  {
    RunAt(source, toks, entry, j);
    HashOpensLineComment(source, toks[j]);
    LineStep(source, toks, j, entry, None, Classify(source, toks[j], None),
             |LineText(source, toks[..j])|, |LineText(source, toks[..j])| + |TokenText(source, toks[j])|);
    forall i | j < i < |toks| && !AllWhitespace(TokenText(source, toks[i]))
      ensures LineRuns(source, toks, entry)[i].style == Comment
    {
      CommentLastsToLineEnd(source, toks, entry, j + 1, i);
    }
    CommentLastsToLineEnd(source, toks, entry, j + 1, |toks|);
    assert toks[..|toks|] == toks;
  }

  /** A line comment never reaches the next line: every line is parsed in a state other than LineComment. */
  lemma LineCommentEndsAtLineEnd(source: string, lines: seq<seq<Token>>, k: nat)
    requires 0 < k < |lines|
    requires DocStateAfter(source, lines[..k]) == LineComment
    ensures ParseDocument(source, lines)[k].runs == LineRuns(source, lines[k], None)
  {
    ParsedLineAt(source, lines, k);
  }

  /** The quote that closes a string state. */
  function ClosingQuote(state: ParseState): string
  {
    if state == DoubleQuote then "\"" else "'"
  }

  /** No token of `toks[..j]` is a Syntax token holding the given quote. */
  predicate NoClosingBefore(source: string, toks: seq<Token>, j: nat, quote: string)
    requires j <= |toks|
  {
    forall i :: 0 <= i < j ==> !(toks[i].kind == Syntax && TokenText(source, toks[i]) == quote)
  }

  /** Until the closing quote appears, a line entered inside a string stays in that string. */
  lemma {:induction false} StringStateKept(source: string, toks: seq<Token>, entry: ParseState, j: nat)
    requires j <= |toks|
    requires entry == DoubleQuote || entry == SingleQuote
    requires NoClosingBefore(source, toks, j, ClosingQuote(entry))
    ensures StateAfter(source, toks[..j], entry) == entry
  {
    if j > 0 {
      StringStateKept(source, toks, entry, j - 1);
      LineStep(source, toks, j - 1, entry, entry, Classify(source, toks[j - 1], entry),
               |LineText(source, toks[..j - 1])|, |LineText(source, toks[..j - 1])| + |TokenText(source, toks[j - 1])|);
      if !AllWhitespace(TokenText(source, toks[j - 1])) {
        InsideString(source, toks[j - 1], entry);
      }
    }
  }

  /**
   * A string left open at the end of a line carries over: on the next line
   * every non-blank token before the first Syntax token that is the same
   * quote is styled String, and the state is still that string state.
   */
  lemma StringCarriesOver(source: string, toks: seq<Token>, entry: ParseState, j: nat)
    requires j <= |toks|
    requires entry == DoubleQuote || entry == SingleQuote
    requires NoClosingBefore(source, toks, j, ClosingQuote(entry))
    ensures StateAfter(source, toks[..j], entry) == entry
    ensures forall i :: 0 <= i < j && !AllWhitespace(TokenText(source, toks[i])) ==>
      LineRuns(source, toks, entry)[i].style == String
  {
    StringStateKept(source, toks, entry, j);
    forall i | 0 <= i < j && !AllWhitespace(TokenText(source, toks[i]))
      ensures LineRuns(source, toks, entry)[i].style == String
    {
      StringStateKept(source, toks, entry, i);
      RunAt(source, toks, entry, i);
      InsideString(source, toks[i], entry);
    }
  }

  /** None of the rule strings is a triple quote. */
  lemma NoTripleQuoteRule(r: string)
    requires r in TokenizerRules
    ensures !IsTripleQuote(r)
  {
    TablesHoldNoTripleQuote();
  }

  /** No table of `Create` holds `"""` or `'''`. */
  lemma TablesHoldNoTripleQuote()
    ensures TripleDoubleQuote !in Operators && TripleSingleQuote !in Operators
    ensures TripleDoubleQuote !in Keywords && TripleSingleQuote !in Keywords
    ensures TripleDoubleQuote !in Numbers && TripleSingleQuote !in Numbers
    ensures TripleDoubleQuote !in TokenizerRules && TripleSingleQuote !in TokenizerRules
  {
    forall i | 0 <= i < |Operators| ensures |Operators[i]| <= 2 { }
    forall i | 0 <= i < |Keywords| ensures IsLetter(Keywords[i][0]) { }
    forall i | 0 <= i < |Numbers| ensures |Numbers[i]| == 1 { }
  }

  /** A token met outside a block comment enters one only when it is a triple-quote Syntax token. */
  lemma BlockCommentEntry(source: string, t: Token, state: ParseState)
    requires state != MultiLineComment
    requires Classify(source, t, state).next == MultiLineComment
    ensures t.kind == Syntax && IsTripleQuote(TokenText(source, t))
  {
  }

  /** Without a triple-quote token the block-comment state is never entered on a line. */
  lemma {:induction false} NoBlockCommentOnLine(source: string, toks: seq<Token>, entry: ParseState)
    requires SyntaxFromRules(source, toks)
    requires entry != MultiLineComment
    ensures StateAfter(source, toks, entry) != MultiLineComment
  {
    if toks != [] {
      var p := toks[..|toks| - 1];
      var t := toks[|toks| - 1];
      assert SyntaxFromRules(source, p) by {
        forall i | 0 <= i < |p| && p[i].kind == Syntax ensures TokenText(source, p[i]) in TokenizerRules {
          assert p[i] == toks[i];
        }
      }
      NoBlockCommentOnLine(source, p, entry);
      var st := StateAfter(source, p, entry);
      if Classify(source, t, st).next == MultiLineComment {
        BlockCommentEntry(source, t, st);
        NoTripleQuoteRule(TokenText(source, t));
        assert false;
      }
    }
  }

  /**
   * When every Syntax token is one of the rule strings, the document never
   * enters the block-comment state: the two triple-quote branches of the
   * state machine are dead.
   */
  lemma {:induction false} NoBlockComments(source: string, lines: seq<seq<Token>>)
    requires forall k :: 0 <= k < |lines| ==> SyntaxFromRules(source, lines[k])
    ensures DocStateAfter(source, lines) != MultiLineComment
  {
    if lines != [] {
      var p := lines[..|lines| - 1];
      assert forall k :: 0 <= k < |p| ==> p[k] == lines[k];
      NoBlockComments(source, p);
      NoBlockCommentOnLine(source, lines[|lines| - 1], EntryState(DocStateAfter(source, p)));
    }
  }

  /**
   * `class Foo:` styles `class` as a keyword; `class_name = 1` does not.
   * A no-break space before `if` is a boundary for the regex, a vertical
   * tab is not.
   */
  lemma KeywordExamples()
    ensures KeywordMatch("\nclass Foo:", Token(Syntax, 1, 6))
    ensures !KeywordMatch("\nclass_name = 1", Token(Syntax, 1, 6))
    ensures KeywordMatch("\U{00A0}if x:", Token(Syntax, 1, 3))
    ensures !KeywordMatch("\U{000B}if x:", Token(Syntax, 1, 3))
    ensures Classify("\nclass Foo:", Token(Syntax, 1, 6), None).style == Keyword
    ensures Classify("\nclass_name = 1", Token(Syntax, 1, 6), None).style == Normal
  {
    var text := TokenText("\nclass Foo:", Token(Syntax, 1, 6));
    assert text == "class" && !IsWhitespace(text[0]);
    assert TokenText("\nclass_name = 1", Token(Syntax, 1, 6)) == text;
  }

  // ---------------------------------------------------------------------
  // Font size
  // ---------------------------------------------------------------------

  /** The font sizes of the six styles of `FSyntaxTextStyle`. */
  class PythonSyntaxMarshaller {
    var normalSize: int
    var operatorSize: int
    var keywordSize: int
    var stringSize: int
    var numberSize: int
    var commentSize: int

    /** `Create`: the marshaller with its styles; the tokenizer gets `TokenizerRules`. */
    constructor (normal: int, operator: int, keyword: int, str: int, number: int, comment: int)
      ensures normalSize == normal && operatorSize == operator && keywordSize == keyword
      ensures stringSize == str && numberSize == number && commentSize == comment
    {
      normalSize, operatorSize, keywordSize := normal, operator, keyword;
      stringSize, numberSize, commentSize := str, number, comment;
    }

    /** The size of the Normal style. */
    function GetFontSize(): int
      reads this
    {
      normalSize
    }

    predicate AllSizes(size: int)
      reads this
    {
      normalSize == size && operatorSize == size && keywordSize == size
      && stringSize == size && numberSize == size && commentSize == size
    }

    /** Sizes outside [6, 108] are ignored; otherwise every style takes the new size. */
    method SetFontSize(size: int)
      modifies this
      ensures size < 6 || size > 108 ==> unchanged(this)
      ensures 6 <= size <= 108 ==> AllSizes(size) && GetFontSize() == size
    {
      if size < 6 || size > 108 {
        return;
      }
      normalSize := size;
      operatorSize := size;
      keywordSize := size;
      stringSize := size;
      numberSize := size;
      commentSize := size;
    }
  }
}

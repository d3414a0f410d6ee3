/**
 * The text of the editor as the host text layout holds it: a non-empty
 * sequence of lines, none holding a line feed, and a caret given as a line
 * index and an offset into that line.  The host primitives the editor
 * drives (`GoTo`, `InsertTextAtCursor`, `HandleBackspace`, `HandleDelete`)
 * are given here as functions on that value, and each is related to the
 * flat text (the lines joined by line feeds) and the flat caret position.
 */
module Document {

  const LF: char := '\n'

  predicate NoLineBreak(s: string) {
    forall i :: 0 <= i < |s| ==> s[i] != LF
  }

  predicate ValidLines(lines: seq<string>) {
    |lines| > 0 && forall k :: 0 <= k < |lines| ==> NoLineBreak(lines[k])
  }

  /** `FTextLocation`: a line index and an offset into that line. */
  datatype Caret = Caret(line: nat, offset: nat)

  datatype Doc = Doc(lines: seq<string>, caret: Caret) {
    predicate Valid() {
      ValidLines(lines) && caret.line < |lines| && caret.offset <= |lines[caret.line]|
    }

    /** The line the caret is on (`GetCurrentTextLine`). */
    function CurrentLine(): string
      requires Valid()
    {
      lines[caret.line]
    }
  }

  // ---------------------------------------------------------------------
  // Lines and flat text
  // ---------------------------------------------------------------------

  /** The flat text: the lines separated by line feeds. */
  function Join(lines: seq<string>): string
  {
    if |lines| == 0 then ""
    else if |lines| == 1 then lines[0]
    else lines[0] + [LF] + Join(lines[1..])
  }

  /** The flat text of the lines before a line, with the line feed that ends them. */
  function Before(a: seq<string>): string {
    if a == [] then "" else Join(a) + [LF]
  }

  /** The flat text of the lines after a line, with the line feed that starts them. */
  function After(b: seq<string>): string {
    if b == [] then "" else [LF] + Join(b)
  }

  /** The flat text of the document. */
  function Text(d: Doc): string {
    Join(d.lines)
  }

  /** The flat caret position. */
  function Pos(d: Doc): (p: nat)
    requires d.Valid()
    ensures p <= |Text(d)|
  {
    TextAroundLine(d, d.caret.line);
    |Before(d.lines[..d.caret.line])| + d.caret.offset
  }

  /** Splitting the text at line feeds; `SplitLines` and `Join` are inverse. */
  function SplitLines(s: string): (r: seq<string>)
    ensures ValidLines(r)
    ensures Join(r) == s
  {
    if s == [] then [""]
    else
      var rest := SplitLines(s[1..]);
      if s[0] == LF then
        JoinCons([], [""] + rest);
        [""] + rest
      else
        JoinCons([s[0]], rest);
        assert [s[0]] + s[1..] == s;
        [[s[0]] + rest[0]] + rest[1..]
  }

  // ---------------------------------------------------------------------
  // Join lemmas
  // ---------------------------------------------------------------------

  /** The lines around a non-empty block contribute their text and one line feed each side. */
  lemma {:induction false} JoinAround(a: seq<string>, m: seq<string>, b: seq<string>)
    requires |m| > 0
    ensures Join(a + m + b) == Before(a) + Join(m) + After(b)
    decreases |a|
  {
    if a == [] {
      assert a + m + b == m + b;
      JoinThenAfter(m, b);
    } else {
      assert (a + m + b)[1..] == a[1..] + m + b;
      JoinAround(a[1..], m, b);
      BeforeCons(a);
    }
  }

  lemma {:induction false} JoinThenAfter(m: seq<string>, b: seq<string>)
    requires |m| > 0
    ensures Join(m + b) == Join(m) + After(b)
    decreases |m|
  {
    if |m| == 1 {
      if b == [] {
        assert m + b == m;
      } else {
        assert (m + b)[1..] == b;
      }
    } else {
      assert (m + b)[1..] == m[1..] + b;
      JoinThenAfter(m[1..], b);
    }
  }

  lemma BeforeCons(a: seq<string>)
    requires |a| > 0
    ensures Before(a) == a[0] + [LF] + Before(a[1..])
  {
  }

  /** The flat text is the first line followed by the rest. */
  lemma JoinFirst(r: seq<string>)
    requires |r| > 0
    ensures Join(r) == r[0] + After(r[1..])
  {
  }

  /** Prepending text to the first line prepends it to the flat text. */
  lemma JoinCons(x: string, r: seq<string>)
    requires |r| > 0
    ensures Join([x + r[0]] + r[1..]) == x + Join(r)
  {
    var r2 := [x + r[0]] + r[1..];
    assert r2[1..] == r[1..];
    JoinFirst(r2);
    JoinFirst(r);
  }

  /** The flat text is the lines before the last one, then the last one. */
  lemma JoinAppendLast(p: seq<string>, z: string)
    ensures Join(p + [z]) == Before(p) + z
  {
    JoinAround(p, [z], []);
    assert p + [z] + [] == p + [z];
  }

  /** Appending text to the last line appends it to the flat text. */
  lemma JoinSnoc(p: seq<string>, z: string, y: string)
    ensures Join(p + [z + y]) == Join(p + [z]) + y
  {
    JoinAppendLast(p, z + y);
    JoinAppendLast(p, z);
    var pre := Before(p);
    assert pre + (z + y) == (pre + z) + y;
  }

  lemma BeforeAppend(a: seq<string>, x: seq<string>)
    ensures Before(a + x) == Before(a) + Before(x)
  {
    if x == [] {
      assert a + x == a;
    } else if a == [] {
      assert a + x == x;
    } else {
      JoinAround(a, x, []);
      assert a + x + [] == a + x;
    }
  }

  /** A text without line feeds is one line. */
  lemma {:induction false} SplitOneLine(s: string)
    requires NoLineBreak(s)
    ensures SplitLines(s) == [s]
  {
    if s != [] {
      SplitOneLine(s[1..]);
      assert [s[0]] + s[1..] == s;
    }
  }

  /** `SplitLines` undoes `Join` on valid lines. */
  lemma {:induction false} SplitJoin(lines: seq<string>)
    requires ValidLines(lines)
    ensures SplitLines(Join(lines)) == lines
    decreases |Join(lines)|, |lines|
  {
    var first := lines[0];
    if first == [] {
      if |lines| == 1 {
      } else {
        var rest := lines[1..];
        assert Join(lines) == [LF] + Join(rest);
        assert Join(lines)[1..] == Join(rest);
        SplitJoin(rest);
      }
    } else {
      var shorter := [first[1..]] + lines[1..];
      assert ValidLines(shorter) by {
        forall k | 0 <= k < |shorter| ensures NoLineBreak(shorter[k]) {
          if k > 0 { assert shorter[k] == lines[k]; }
        }
      }
      JoinCons([first[0]], shorter);
      assert [first[0]] + shorter[0] == first;
      assert [[first[0]] + shorter[0]] + shorter[1..] == lines;
      assert Join(lines)[1..] == Join(shorter);
      SplitJoin(shorter);
      assert Join(lines)[0] == first[0];
    }
  }

  /** The flat text around a line: the lines before it, the line, the lines after it. */
  lemma TextAroundLine(d: Doc, k: nat)
    requires k < |d.lines|
    ensures Text(d) == Before(d.lines[..k]) + d.lines[k] + After(d.lines[k + 1..])
  {
    JoinAround(d.lines[..k], [d.lines[k]], d.lines[k + 1..]);
    assert d.lines[..k] + [d.lines[k]] + d.lines[k + 1..] == d.lines;
  }

  /** The text around two neighbouring lines `k` and `k + 1`. */
  lemma TextAroundPair(lines: seq<string>, k: nat)
    requires k + 1 < |lines|
    ensures Join(lines) == Before(lines[..k]) + (lines[k] + [LF] + lines[k + 1]) + After(lines[k + 2..])
  {
    PairSplit(lines, k);
    JoinAround(lines[..k], [lines[k], lines[k + 1]], lines[k + 2..]);
    JoinPair(lines[k], lines[k + 1]);
  }

  lemma PairSplit(lines: seq<string>, k: nat)
    requires k + 1 < |lines|
    ensures lines == lines[..k] + [lines[k], lines[k + 1]] + lines[k + 2..]
  {
    assert lines[k..] == [lines[k], lines[k + 1]] + lines[k + 2..];
    assert lines == lines[..k] + lines[k..];
  }

  lemma JoinPair(x: string, y: string)
    ensures Join([x, y]) == x + [LF] + y
  {
    assert [x, y][1..] == [y];
  }

  lemma CutBetween(x: string, u: string, v: string, y: string)
    ensures (x + u + v + y)[..|x| + |u|] == x + u
    ensures (x + u + v + y)[|x| + |u|..] == v + y
  {
    assert x + u + v + y == (x + u) + (v + y);
  }

  /** The flat text before and after the caret. */
  lemma TextAtCaret(d: Doc)
    requires d.Valid()
    ensures var k, off, line := d.caret.line, d.caret.offset, d.lines[d.caret.line];
      && Pos(d) <= |Text(d)|
      && Text(d)[..Pos(d)] == Before(d.lines[..k]) + line[..off]
      && Text(d)[Pos(d)..] == line[off..] + After(d.lines[k + 1..])
  {
    var k, off, line := d.caret.line, d.caret.offset, d.lines[d.caret.line];
    TextAroundLine(d, k);
    CutInside(Before(d.lines[..k]), line, off, After(d.lines[k + 1..]));
  }

  lemma CutInside(x: string, line: string, off: nat, y: string)
    requires off <= |line|
    ensures (x + line + y)[..|x| + off] == x + line[..off]
    ensures (x + line + y)[|x| + off..] == line[off..] + y
  {
    assert line == line[..off] + line[off..];
    CutBetween(x, line[..off], line[off..], y);
  }

  lemma NoBreakConcat(u: string, v: string)
    requires NoLineBreak(u) && NoLineBreak(v)
    ensures NoLineBreak(u + v)
  {
    forall i | 0 <= i < |u + v| ensures (u + v)[i] != LF {
      if i < |u| { assert (u + v)[i] == u[i]; } else { assert (u + v)[i] == v[i - |u|]; }
    }
  }

  lemma NoBreakSlice(u: string, i: nat, j: nat)
    requires NoLineBreak(u) && i <= j <= |u|
    ensures NoLineBreak(u[i..j])
  {
    forall n | 0 <= n < j - i ensures u[i..j][n] != LF {
      assert u[i..j][n] == u[i + n];
    }
  }

  /** Replacing lines `i..j` by a non-empty block of valid lines keeps the lines valid. */
  lemma ValidSplice(lines: seq<string>, i: nat, j: nat, m: seq<string>)
    requires ValidLines(lines) && i <= j <= |lines| && |m| > 0
    requires forall n :: 0 <= n < |m| ==> NoLineBreak(m[n])
    ensures ValidLines(lines[..i] + m + lines[j..])
  {
    var r := lines[..i] + m + lines[j..];
    forall n | 0 <= n < |r| ensures NoLineBreak(r[n]) {
      if n < i { assert r[n] == lines[n]; }
      else if n < i + |m| { assert r[n] == m[n - i]; }
      else { assert r[n] == lines[n - i - |m| + j]; }
    }
  }

  // ---------------------------------------------------------------------
  // Host primitives
  // ---------------------------------------------------------------------

  /**
   * `GoTo(FTextLocation(line, offset))`: the caret moves there when the
   * location is inside the text, and stays where it is otherwise.
   */
  function GoTo(d: Doc, line: int, offset: int): (r: Doc)
    requires d.Valid()
    ensures r.Valid() && r.lines == d.lines
    ensures 0 <= line < |d.lines| && 0 <= offset <= |d.lines[line]| ==> r.caret == Caret(line, offset)
    ensures !(0 <= line < |d.lines| && 0 <= offset <= |d.lines[line]|) ==> r == d
  {
    if 0 <= line < |d.lines| && 0 <= offset <= |d.lines[line]| then Doc(d.lines, Caret(line, offset)) else d
  }

  /** The text inserted by `Insert`: the lines of `s`, the first and last joined to the caret line's two halves. */
  function InsertedLines(pre: string, s: string, post: string): (m: seq<string>)
    ensures |m| == |SplitLines(s)|
  {
    var pieces := SplitLines(s);
    var n := |pieces| - 1;
    if n == 0 then [pre + s + post]
    else [pre + pieces[0]] + pieces[1..n] + [pieces[n] + post]
  }

  /**
   * `InsertTextAtCursor(s)`: the text is inserted at the caret, which ends
   * after it; each line feed in `s` starts a new line.
   */
  function Insert(d: Doc, s: string): (r: Doc)
    requires d.Valid()
    ensures r.Valid()
  {
    var k, off, line := d.caret.line, d.caret.offset, d.lines[d.caret.line];
    var m := InsertedLines(line[..off], s, line[off..]);
    var r := Doc(d.lines[..k] + m + d.lines[k + 1..], InsertedCaret(k, off, s));
    InsertedValid(d, s, r);
    r
  }

  /** In the flat text, `Insert` puts `s` at the caret, and the caret ends just after it. */
  lemma InsertFlat(d: Doc, s: string)
    requires d.Valid()
    ensures Text(Insert(d, s)) == Text(d)[..Pos(d)] + s + Text(d)[Pos(d)..]
    ensures Pos(Insert(d, s)) == Pos(d) + |s|
  {
    InsertCorrect(d, s, Insert(d, s));
  }

  /** The inserted block, joined, is the caret line with `s` spliced in. */
  lemma InsertedText(pre: string, s: string, post: string)
    requires NoLineBreak(pre) && NoLineBreak(post)
    ensures var m := InsertedLines(pre, s, post);
      && (forall n :: 0 <= n < |m| ==> NoLineBreak(m[n]))
      && Join(m) == pre + s + post
  {
    var pieces := SplitLines(s);
    var n := |pieces| - 1;
    var m := InsertedLines(pre, s, post);
    if n == 0 {
      assert pieces == [pieces[0]];
      assert Join(pieces) == pieces[0];
      NoBreakConcat(pre, s);
      NoBreakConcat(pre + s, post);
    } else {
      var withPre := [pre + pieces[0]] + pieces[1..];
      JoinCons(pre, pieces);
      assert withPre[..n] == [pre + pieces[0]] + pieces[1..n];
      assert withPre == withPre[..n] + [pieces[n]];
      JoinSnoc(withPre[..n], pieces[n], post);
      assert m == withPre[..n] + [pieces[n] + post];
      NoBreakConcat(pre, pieces[0]);
      NoBreakConcat(pieces[n], post);
      forall i | 0 <= i < |m| ensures NoLineBreak(m[i]) {
        if 0 < i < n { assert m[i] == pieces[i]; }
      }
    }
  }

  /** Where `Insert` leaves the caret: after `s`, on the line where `s` ends. */
  function InsertedCaret(k: nat, off: nat, s: string): Caret {
    var pieces := SplitLines(s);
    var n := |pieces| - 1;
    if n == 0 then Caret(k, off + |s|) else Caret(k + n, |pieces[n]|)
  }

  /** Splicing the inserted block in place of line `k` keeps the lines valid and puts `s` between the halves. */
  lemma InsertSplice(lines: seq<string>, k: nat, pre: string, s: string, post: string)
    requires ValidLines(lines) && k < |lines| && NoLineBreak(pre) && NoLineBreak(post)
    ensures var spliced := lines[..k] + InsertedLines(pre, s, post) + lines[k + 1..];
      && ValidLines(spliced)
      && Join(spliced) == (Before(lines[..k]) + pre) + s + (post + After(lines[k + 1..]))
  {
    var m := InsertedLines(pre, s, post);
    InsertedText(pre, s, post);
    ValidSplice(lines, k, k + 1, m);
    JoinAround(lines[..k], m, lines[k + 1..]);
  }

  /** After the splice, the caret computed by `Insert` sits just after `s`. */
  lemma InsertCaret(lines: seq<string>, k: nat, pre: string, s: string, post: string)
    requires k < |lines|
    ensures var spliced := lines[..k] + InsertedLines(pre, s, post) + lines[k + 1..];
      var c := InsertedCaret(k, |pre|, s);
      c.line <= |spliced| && |Before(spliced[..c.line])| + c.offset == |Before(lines[..k])| + |pre| + |s|
  {
    var pieces := SplitLines(s);
    var m := InsertedLines(pre, s, post);
    var spliced := lines[..k] + m + lines[k + 1..];
    var n := |pieces| - 1;
    if n == 0 {
      assert spliced[..k] == lines[..k];
    } else {
      SplicePrefix(lines[..k], m, lines[k + 1..], n);
      BeforeAppend(lines[..k], m[..n]);
      InsertedPrefix(pre, s, post);
    }
  }

  lemma SpliceHead(a: seq<string>, m: seq<string>, b: seq<string>)
    ensures (a + m + b)[..|a|] == a
  {
  }

  lemma SplicePrefix(a: seq<string>, m: seq<string>, b: seq<string>, n: nat)
    requires n <= |m|
    ensures (a + m + b)[..|a| + n] == a + m[..n]
  {
  }

  lemma InsertCorrect(d: Doc, s: string, r: Doc)
    requires d.Valid()
    requires var k, off, line := d.caret.line, d.caret.offset, d.lines[d.caret.line];
      r == Doc(d.lines[..k] + InsertedLines(line[..off], s, line[off..]) + d.lines[k + 1..], InsertedCaret(k, off, s))
    ensures r.Valid()
    ensures Text(r) == Text(d)[..Pos(d)] + s + Text(d)[Pos(d)..]
    ensures Pos(r) == Pos(d) + |s|
  {
    InsertedValid(d, s, r);
    InsertedFlat(d, s, r);
  }

  lemma InsertedValid(d: Doc, s: string, r: Doc)
    requires d.Valid()
    requires var k, off, line := d.caret.line, d.caret.offset, d.lines[d.caret.line];
      r == Doc(d.lines[..k] + InsertedLines(line[..off], s, line[off..]) + d.lines[k + 1..], InsertedCaret(k, off, s))
    ensures r.Valid()
    ensures Join(r.lines) == (Before(d.lines[..d.caret.line]) + d.lines[d.caret.line][..d.caret.offset]) + s
      + (d.lines[d.caret.line][d.caret.offset..] + After(d.lines[d.caret.line + 1..]))
  {
    var k, off, line := d.caret.line, d.caret.offset, d.lines[d.caret.line];
    var pre, post := line[..off], line[off..];
    NoBreakSlice(line, 0, off);
    NoBreakSlice(line, off, |line|);
    InsertSplice(d.lines, k, pre, s, post);
    assert |pre| == off;
    var pieces := SplitLines(s);
    var n := |pieces| - 1;
    var m := InsertedLines(pre, s, post);
    if n == 0 {
      assert r.lines[k] == m[0];
    } else {
      assert r.lines[k + n] == m[n];
    }
  }

  lemma InsertedFlat(d: Doc, s: string, r: Doc)
    requires d.Valid() && r.Valid()
    requires var k, off, line := d.caret.line, d.caret.offset, d.lines[d.caret.line];
      && r == Doc(d.lines[..k] + InsertedLines(line[..off], s, line[off..]) + d.lines[k + 1..], InsertedCaret(k, off, s))
      && Join(r.lines) == (Before(d.lines[..k]) + line[..off]) + s + (line[off..] + After(d.lines[k + 1..]))
    ensures Text(r) == Text(d)[..Pos(d)] + s + Text(d)[Pos(d)..]
    ensures Pos(r) == Pos(d) + |s|
  {
    var k, off, line := d.caret.line, d.caret.offset, d.lines[d.caret.line];
    var pre, post := line[..off], line[off..];
    TextAtCaret(d);
    InsertCaret(d.lines, k, pre, s, post);
    assert |pre| == off;
  }

  /** The inserted lines before the last one, joined, hold `pre` and all of `s` up to its last line. */
  lemma InsertedPrefix(pre: string, s: string, post: string)
    requires |SplitLines(s)| > 1
    ensures var pieces, m := SplitLines(s), InsertedLines(pre, s, post);
      var n := |pieces| - 1;
      |Before(m[..n])| + |pieces[n]| == |pre| + |s|
  {
    var pieces := SplitLines(s);
    var n := |pieces| - 1;
    var head := InsertedLines(pre, s, post)[..n];
    assert head == [pre + pieces[0]] + pieces[1..n];
    JoinAppendLast(head, pieces[n]);
    assert head + [pieces[n]] == [pre + pieces[0]] + pieces[1..];
    JoinCons(pre, pieces);
  }

  /**
   * `HandleBackspace` with nothing selected: the character before the
   * caret goes; at the start of a line that line joins the previous one.
   */
  function Backspace(d: Doc): (r: Doc)
    requires d.Valid()
    ensures r.Valid()
  {
    var k, off, line := d.caret.line, d.caret.offset, d.lines[d.caret.line];
    if off > 0 then
      var r := Doc(d.lines[..k] + [line[..off - 1] + line[off..]] + d.lines[k + 1..], Caret(k, off - 1));
      BackspaceInLine(d, r);
      r
    else if k > 0 then
      var r := Doc(d.lines[..k - 1] + [d.lines[k - 1] + line] + d.lines[k + 1..], Caret(k - 1, |d.lines[k - 1]|));
      BackspaceJoin(d, r);
      r
    else
      d
  }

  /** In the flat text, `Backspace` removes the one character before the caret, and nothing at the very start. */
  lemma BackspaceFlat(d: Doc)
    requires d.Valid()
    ensures Pos(d) <= |Text(d)|
    ensures Pos(d) > 0 ==> Text(Backspace(d)) == Text(d)[..Pos(d) - 1] + Text(d)[Pos(d)..] && Pos(Backspace(d)) == Pos(d) - 1
    ensures Pos(d) == 0 ==> Backspace(d) == d
  {
    var k, off := d.caret.line, d.caret.offset;
    if off > 0 {
      BackspaceInLine(d, Backspace(d));
    } else if k > 0 {
      BackspaceJoin(d, Backspace(d));
    } else {
      assert d.lines[..k] == [];
    }
  }

  /** Cutting one character out of a text given as `x + c + z`. */
  lemma DropOne(t: string, x: string, c: string, z: string, p: nat, q: nat)
    requires t == x + c + z && |c| == 1 && p == |x| && q == p + 1
    ensures t[..p] + t[q..] == x + z
  {
    assert t[..p] == x;
    assert t[q..] == z;
  }

  lemma BackspaceInLine(d: Doc, r: Doc)
    requires d.Valid() && d.caret.offset > 0
    requires var k, off, line := d.caret.line, d.caret.offset, d.lines[d.caret.line];
      r == Doc(d.lines[..k] + [line[..off - 1] + line[off..]] + d.lines[k + 1..], Caret(k, off - 1))
    ensures r.Valid() && 0 < Pos(d) <= |Text(d)|
    ensures Text(r) == Text(d)[..Pos(d) - 1] + Text(d)[Pos(d)..] && Pos(r) == Pos(d) - 1
  {
    var k, off, line := d.caret.line, d.caret.offset, d.lines[d.caret.line];
    var a := d.lines[..k];
    DroppedValid(d.lines, k, off - 1);
    DroppedText(d.lines, k, off - 1);
    assert r.lines[..k] == a;
    DropOne(Text(d), Before(a) + line[..off - 1], line[off - 1..off], line[off..] + After(d.lines[k + 1..]), Pos(d) - 1, Pos(d));
  }

  lemma BackspaceJoin(d: Doc, r: Doc)
    requires d.Valid() && d.caret.offset == 0 && d.caret.line > 0
    requires var k, line := d.caret.line, d.lines[d.caret.line];
      r == Doc(d.lines[..k - 1] + [d.lines[k - 1] + line] + d.lines[k + 1..], Caret(k - 1, |d.lines[k - 1]|))
    ensures r.Valid() && 0 < Pos(d) <= |Text(d)|
    ensures Text(r) == Text(d)[..Pos(d) - 1] + Text(d)[Pos(d)..] && Pos(r) == Pos(d) - 1
  {
    var k := d.caret.line;
    var a, prev, line, b := d.lines[..k - 1], d.lines[k - 1], d.lines[k], d.lines[k + 1..];
    PairValid(d.lines, k - 1, k, k + 1);
    PairText(d.lines, k - 1, k, k + 1);
    StartPos(d);
    SpliceHead(a, [prev + line], b);
    DropOne(Text(d), Before(a) + prev, [LF], line + After(b), Pos(d) - 1, Pos(d));
  }

  /** At the start of line `k`, the caret is one past the end of line `k - 1` in the flat text. */
  lemma StartPos(d: Doc)
    requires d.Valid() && d.caret.offset == 0 && d.caret.line > 0
    ensures var k := d.caret.line;
      Pos(d) == |Before(d.lines[..k - 1])| + |d.lines[k - 1]| + 1
  {
    var k := d.caret.line;
    var a := d.lines[..k - 1];
    assert d.lines[..k] == a + [d.lines[k - 1]];
    BeforeAppend(a, [d.lines[k - 1]]);
  }

  /**
   * `HandleDelete` with nothing selected: the character after the caret
   * goes; at the end of a line the next line joins it.
   */
  function Delete(d: Doc): (r: Doc)
    requires d.Valid()
    ensures r.Valid()
  {
    var k, off, line := d.caret.line, d.caret.offset, d.lines[d.caret.line];
    if off < |line| then
      var r := Doc(d.lines[..k] + [line[..off] + line[off + 1..]] + d.lines[k + 1..], d.caret);
      DeleteInLine(d, r);
      r
    else if k + 1 < |d.lines| then
      var r := Doc(d.lines[..k] + [line + d.lines[k + 1]] + d.lines[k + 2..], d.caret);
      DeleteJoin(d, r);
      r
    else
      d
  }

  /** In the flat text, `Delete` removes the one character after the caret, and nothing at the very end. */
  lemma DeleteFlat(d: Doc)
    requires d.Valid()
    ensures Pos(Delete(d)) == Pos(d) <= |Text(d)|
    ensures Pos(d) < |Text(d)| ==> Text(Delete(d)) == Text(d)[..Pos(d)] + Text(d)[Pos(d) + 1..]
    ensures Pos(d) == |Text(d)| ==> Delete(d) == d
  {
    var k, off, line := d.caret.line, d.caret.offset, d.lines[d.caret.line];
    if off < |line| {
      DeleteInLine(d, Delete(d));
    } else if k + 1 < |d.lines| {
      DeleteJoin(d, Delete(d));
    } else {
      CaretAtEnd(d);
    }
  }

  /** At the end of the last line, the caret is at the end of the flat text. */
  lemma CaretAtEnd(d: Doc)
    requires d.Valid() && d.caret.offset == |d.lines[d.caret.line]| && d.caret.line + 1 == |d.lines|
    ensures Pos(d) == |Text(d)|
  {
    TextAtCaret(d);
    assert d.lines[d.caret.line + 1..] == [];
  }

  lemma DeleteInLine(d: Doc, r: Doc)
    requires d.Valid() && d.caret.offset < |d.lines[d.caret.line]|
    requires var k, off, line := d.caret.line, d.caret.offset, d.lines[d.caret.line];
      r == Doc(d.lines[..k] + [line[..off] + line[off + 1..]] + d.lines[k + 1..], d.caret)
    ensures r.Valid() && Pos(r) == Pos(d) < |Text(d)|
    ensures Text(r) == Text(d)[..Pos(d)] + Text(d)[Pos(d) + 1..]
  {
    var k, off, line := d.caret.line, d.caret.offset, d.lines[d.caret.line];
    var a := d.lines[..k];
    DroppedValid(d.lines, k, off);
    DroppedText(d.lines, k, off);
    assert r.lines[..k] == a;
    DropOne(Text(d), Before(a) + line[..off], line[off..off + 1], line[off + 1..] + After(d.lines[k + 1..]), Pos(d), Pos(d) + 1);
  }

  lemma DeleteJoin(d: Doc, r: Doc)
    requires d.Valid() && d.caret.offset == |d.lines[d.caret.line]| && d.caret.line + 1 < |d.lines|
    requires var k, line := d.caret.line, d.lines[d.caret.line];
      r == Doc(d.lines[..k] + [line + d.lines[k + 1]] + d.lines[k + 2..], d.caret)
    ensures r.Valid() && Pos(r) == Pos(d) < |Text(d)|
    ensures Text(r) == Text(d)[..Pos(d)] + Text(d)[Pos(d) + 1..]
  {
    var k, line := d.caret.line, d.lines[d.caret.line];
    var a := d.lines[..k];
    PairValid(d.lines, k, k + 1, k + 2);
    PairText(d.lines, k, k + 1, k + 2);
    assert r.lines[..k] == a;
    DropOne(Text(d), Before(a) + line, [LF], d.lines[k + 1] + After(d.lines[k + 2..]), Pos(d), Pos(d) + 1);
  }

  /** Line `k` without its character `j` keeps the lines valid. */
  lemma DroppedValid(lines: seq<string>, k: nat, j: nat)
    requires ValidLines(lines) && k < |lines| && j < |lines[k]|
    ensures ValidLines(lines[..k] + [lines[k][..j] + lines[k][j + 1..]] + lines[k + 1..])
  {
    var line := lines[k];
    NoBreakSlice(line, 0, j);
    NoBreakSlice(line, j + 1, |line|);
    NoBreakConcat(line[..j], line[j + 1..]);
    ValidSplice(lines, k, k + 1, [line[..j] + line[j + 1..]]);
  }

  /** The flat text before and after taking character `j` out of line `k`. */
  lemma DroppedText(lines: seq<string>, k: nat, j: nat)
    requires k < |lines| && j < |lines[k]|
    ensures var x, line, y := Before(lines[..k]), lines[k], After(lines[k + 1..]);
      && Join(lines[..k] + [line[..j] + line[j + 1..]] + lines[k + 1..]) == (x + line[..j]) + (line[j + 1..] + y)
      && Join(lines) == (x + line[..j]) + line[j..j + 1] + (line[j + 1..] + y)
  {
    var x, line, y := Before(lines[..k]), lines[k], After(lines[k + 1..]);
    var u, c, v := line[..j], line[j..j + 1], line[j + 1..];
    JoinAround(lines[..k], [u + v], lines[k + 1..]);
    Regroup(x, u, [], v, y);
    JoinAround(lines[..k], [line], lines[k + 1..]);
    Around(lines, k);
    SplitAt(line, j);
    Regroup(x, u, c, v, y);
  }

  lemma Around(lines: seq<string>, k: nat)
    requires k < |lines|
    ensures lines[..k] + [lines[k]] + lines[k + 1..] == lines
  {
  }

  lemma SplitAt(line: string, j: nat)
    requires j < |line|
    ensures line[..j] + line[j..j + 1] + line[j + 1..] == line
  {
  }

  lemma Regroup(x: string, u: string, c: string, v: string, y: string)
    ensures x + (u + c + v) + y == (x + u) + c + (v + y)
    ensures x + (u + v) + y == (x + u) + (v + y)
  {
  }

  /** Lines `k` and `k + 1` joined into one keep the lines valid. */
  /** Lines `i` and `j`, the next one, joined into one keep the lines valid; `l` is the line after `j`. */
  lemma PairValid(lines: seq<string>, i: nat, j: nat, l: nat)
    requires ValidLines(lines) && j == i + 1 && l == j + 1 && l <= |lines|
    ensures ValidLines(lines[..i] + [lines[i] + lines[j]] + lines[l..])
  {
    NoBreakConcat(lines[i], lines[j]);
    ValidSplice(lines, i, l, [lines[i] + lines[j]]);
  }

  /** The flat text before and after joining lines `i` and `j`, the next one: the line feed between them goes. */
  lemma PairText(lines: seq<string>, i: nat, j: nat, l: nat)
    requires j == i + 1 && l == j + 1 && l <= |lines|
    ensures var x, line, next, y := Before(lines[..i]), lines[i], lines[j], After(lines[l..]);
      && Join(lines[..i] + [line + next] + lines[l..]) == (x + line) + (next + y)
      && Join(lines) == (x + line) + [LF] + (next + y)
  {
    var x, line, next, y := Before(lines[..i]), lines[i], lines[j], After(lines[l..]);
    JoinAround(lines[..i], [line + next], lines[l..]);
    Regroup(x, line, [], next, y);
    TextAroundPair(lines, i);
    Regroup(x, line, [LF], next, y);
  }

  // ---------------------------------------------------------------------
  // The primitives seen line by line
  // ---------------------------------------------------------------------

  /** Inserting text without line feeds changes only the caret line, and the caret ends after the text. */
  lemma InsertOnLine(d: Doc, s: string)
    requires d.Valid() && NoLineBreak(s)
    ensures var k, off, line := d.caret.line, d.caret.offset, d.lines[d.caret.line];
      Insert(d, s) == Doc(d.lines[k := line[..off] + s + line[off..]], Caret(k, off + |s|))
  {
    var k, off, line := d.caret.line, d.caret.offset, d.lines[d.caret.line];
    SplitOneLine(s);
    assert d.lines[..k] + [line[..off] + s + line[off..]] + d.lines[k + 1..] == d.lines[k := line[..off] + s + line[off..]];
  }

  /** Deleting inside a line removes the character after the caret from that line only. */
  lemma DeleteOnLine(d: Doc)
    requires d.Valid() && d.caret.offset < |d.lines[d.caret.line]|
    ensures var k, off, line := d.caret.line, d.caret.offset, d.lines[d.caret.line];
      Delete(d) == Doc(d.lines[k := line[..off] + line[off + 1..]], d.caret)
  {
    var k, off, line := d.caret.line, d.caret.offset, d.lines[d.caret.line];
    assert d.lines[..k] + [line[..off] + line[off + 1..]] + d.lines[k + 1..] == d.lines[k := line[..off] + line[off + 1..]];
  }

  /** Backspace inside a line removes the character before the caret from that line only. */
  lemma BackspaceOnLine(d: Doc)
    requires d.Valid() && d.caret.offset > 0
    ensures var k, off, line := d.caret.line, d.caret.offset, d.lines[d.caret.line];
      Backspace(d) == Doc(d.lines[k := line[..off - 1] + line[off..]], Caret(k, off - 1))
  {
    var k, off, line := d.caret.line, d.caret.offset, d.lines[d.caret.line];
    assert d.lines[..k] + [line[..off - 1] + line[off..]] + d.lines[k + 1..] == d.lines[k := line[..off - 1] + line[off..]];
  }

  /** Replacing one line by a line without line feeds keeps the lines valid. */
  lemma ValidReplace(lines: seq<string>, k: nat, x: string)
    requires ValidLines(lines) && k < |lines| && NoLineBreak(x)
    ensures ValidLines(lines[k := x])
  {
  }

  /** A slice of a line is a line. */
  lemma NoBreakSuffix(u: string, i: nat)
    requires NoLineBreak(u) && i <= |u|
    ensures NoLineBreak(u[i..])
  {
  }

  /** Inserting a line feed and then a text without line feeds splits the caret line, the text opening the second half. */
  lemma InsertBreak(d: Doc, indent: string)
    requires d.Valid() && NoLineBreak(indent)
    ensures var k, off, line := d.caret.line, d.caret.offset, d.lines[d.caret.line];
      Insert(d, [LF] + indent) == Doc(d.lines[..k] + [line[..off], indent + line[off..]] + d.lines[k + 1..], Caret(k + 1, |indent|))
  {
    var k, off, line := d.caret.line, d.caret.offset, d.lines[d.caret.line];
    var s := [LF] + indent;
    assert SplitLines(s) == ["", indent] by {
      SplitOneLine(indent);
      assert s[1..] == indent;
    }
    assert InsertedLines(line[..off], s, line[off..]) == [line[..off], indent + line[off..]] by {
      var pieces := SplitLines(s);
      assert pieces[1..1] == [] && line[..off] + pieces[0] == line[..off];
    }
  }

  /** `e` is `d` with up to `m` characters before the caret taken out of the flat text, and the caret moved back over them. */
  predicate CutBehind(d: Doc, e: Doc, m: nat)
    requires d.Valid() && e.Valid()
  {
    Pos(e) == Pos(d) - (if m < Pos(d) then m else Pos(d)) && Text(e) == Text(d)[..Pos(e)] + Text(d)[Pos(d)..]
  }


  /** Nothing cut: the document itself. */
  lemma CutBehindNone(d: Doc)
    requires d.Valid()
    ensures CutBehind(d, d, 0)
  {
    assert Text(d)[..Pos(d)] + Text(d)[Pos(d)..] == Text(d);
  }

}

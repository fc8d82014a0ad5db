/**
 * Attribute lines written out from their parts, and what `Attr::find_iter` makes of them.
 *
 * A `Layout` holds everything a well-formed `include_doc` line is made of: the runs of
 * blanks around its tokens, the `!` of inner attributes, the path, the action word and
 * the argument. `Line` writes the line; the lemmas show that the recognizer of
 * src/attr.rs:61 reads every such line back, as one attribute spanning the whole line,
 * whatever the blanks are, and that a line of the same shape with an unknown action word
 * is reported as a `BadAttrError` over the whole line.
 */
module AttrRender {
  import opened Wrappers
  import Decimal
  import Attr

  /** Every character of `s` is a blank. */
  predicate AllBlank(s: string)
    decreases |s|
  {
    s == [] || (Attr.IsBlank(s[0]) && AllBlank(s[1..]))
  }

  lemma {:induction false} AllBlankIff(s: string)
    ensures AllBlank(s) <==> forall i :: 0 <= i < |s| ==> Attr.IsBlank(s[i])
    decreases |s|
  {
    if s != [] {
      AllBlankIff(s[1..]);
      assert forall i :: 1 <= i < |s| ==> s[i] == s[1..][i - 1];
    }
  }

  /** `s` holds no double quote. */
  predicate Unquoted(s: string)
    decreases |s|
  {
    s == [] || (s[0] != '"' && Unquoted(s[1..]))
  }

  lemma {:induction false} UnquotedIff(s: string)
    ensures Unquoted(s) <==> '"' !in s
    decreases |s|
  {
    if s != [] {
      UnquotedIff(s[1..]);
      assert s == [s[0]] + s[1..];
    }
  }

  /** The runs of blanks, in order: before `//`, before `#`, after `[`, after `include_doc`,
      after `(`, after the path, after `,`, after the action word, after the argument's `(`,
      after the argument, after the argument's `)`, after the last `)`, after `]`. */
  datatype Layout = Layout(ws: seq<string>, inner: bool, path: string, action: Attr.Action, arg: Attr.RawArg)

  predicate ArgWellFormed(arg: Attr.RawArg) {
    match arg
    case NoRawArg => true
    case RawText(text) => Unquoted(text)
    case RawNumber(_, digits) => digits != [] && Decimal.AllDigits(digits)
  }

  predicate WellFormed(l: Layout) {
    && |l.ws| == 13
    && (forall k :: 0 <= k < 13 ==> AllBlank(l.ws[k]))
    && Unquoted(l.path)
    && ArgWellFormed(l.arg)
  }

  /** The layouts of well-formed lines. */
  type LineLayout = l: Layout | WellFormed(l) witness Layout(seq(13, k => []), false, [], Attr.Start, Attr.NoRawArg)

  function ActionName(a: Attr.Action): string {
    match a
    case Start => "start"
    case End => "end"
  }

  // The pieces of a line, in order.

  // `[ \t]*//[ \t]*#(!?)\[[ \t]*include_doc`
  function HeadStr(l: Layout): string
    requires |l.ws| == 13
  {
    l.ws[0] + ("//" + (l.ws[1] + ("#" + ((if l.inner then "!" else "") + ("[" + (l.ws[2] + "include_doc"))))))
  }

  // `[ \t]*\([ \t]*"PATH"[ \t]*,[ \t]*`
  function PathStr(l: Layout): string
    requires |l.ws| == 13
  {
    l.ws[3] + ("(" + (l.ws[4] + ("\"" + (l.path + ("\"" + (l.ws[5] + ("," + l.ws[6])))))))
  }

  // `(start|end)[ \t]*`
  function ActionStr(l: Layout): string
    requires |l.ws| == 13
  {
    ActionName(l.action) + l.ws[7]
  }

  // `(?:\([ \t]*(?:"TEXT"|(-)?DIGITS)[ \t]*\)[ \t]*)?`
  function ArgStr(l: Layout): string
    requires |l.ws| == 13
  {
    match l.arg
    case NoRawArg => []
    case RawText(text) => "(" + (l.ws[8] + ("\"" + (text + ("\"" + (l.ws[9] + (")" + l.ws[10]))))))
    case RawNumber(minus, digits) =>
      "(" + (l.ws[8] + ((if minus then "-" else "") + (digits + (l.ws[9] + (")" + l.ws[10])))))
  }

  // `\)[ \t]*\][ \t]*`
  function CloseStr(l: Layout): string
    requires |l.ws| == 13
  {
    ")" + (l.ws[11] + ("]" + l.ws[12]))
  }

  // The tails of a line, from a piece to the end.

  function ArgTail(l: Layout): string
    requires |l.ws| == 13
  {
    ArgStr(l) + CloseStr(l)
  }

  function ActionTail(l: Layout): string
    requires |l.ws| == 13
  {
    ActionStr(l) + ArgTail(l)
  }

  function PathTail(l: Layout): string
    requires |l.ws| == 13
  {
    PathStr(l) + ActionTail(l)
  }

  /** The line of layout `l`. */
  function Line(l: Layout): string
    requires |l.ws| == 13
  {
    HeadStr(l) + PathTail(l)
  }

  /** What `find_iter` is to report for the line of `l` found at `range`: the attribute with
      its decoded argument, or a `BadAttrError` when the line number does not fit a `usize`. */
  function Expected(l: Layout, range: Attr.Range): Result<Attr.Attr, Attr.BadAttrError>
    requires ArgWellFormed(l.arg)
  {
    var kind := if l.inner then Attr.Inner else Attr.Outer;
    match l.arg
    case NoRawArg => Ok(Attr.Attr(range, l.path, kind, l.action, Attr.NoArg))
    case RawText(text) => Ok(Attr.Attr(range, l.path, kind, l.action, Attr.Text(text)))
    case RawNumber(minus, digits) =>
      if Decimal.Value(digits) > Decimal.USIZE_MAX then Err(Attr.BadAttrError(range))
      else
        var n := Decimal.Value(digits);
        Ok(Attr.Attr(range, l.path, kind, l.action, if minus then Attr.LineRev(n) else Attr.Line(n)))
  }

  // ---------------------------------------------------------------------------
  // Reading pieces back.

  /** The characters of `w` from its `k`-th on are written in `t` from offset `i + k` on. */
  predicate WrittenFrom(t: string, i: nat, w: string, k: nat)
    decreases |w| - k
  {
    k >= |w| || (i + k < |t| && t[i + k] == w[k] && WrittenFrom(t, i, w, k + 1))
  }

  /** The text `w` is written in `t` at offset `i`. */
  predicate Written(t: string, i: nat, w: string) {
    i + |w| <= |t| && WrittenFrom(t, i, w, 0)
  }

  lemma {:induction false} WrittenFromAll(t: string, i: nat, w: string, k: nat)
    requires i + |w| <= |t|
    ensures WrittenFrom(t, i, w, k) <==> forall j :: k <= j < |w| ==> t[i + j] == w[j]
    decreases |w| - k
  {
    if k < |w| {
      WrittenFromAll(t, i, w, k + 1);
    }
  }

  /** `Written` character by character. */
  lemma WrittenIff(t: string, i: nat, w: string)
    ensures Written(t, i, w) <==> i + |w| <= |t| && forall k :: 0 <= k < |w| ==> t[i + k] == w[k]
  {
    if i + |w| <= |t| {
      WrittenFromAll(t, i, w, 0);
    }
  }

  lemma FirstOf(t: string, i: nat, w: string)
    requires Written(t, i, w) && w != []
    ensures i < |t| && t[i] == w[0]
  {
  }

  lemma Split(t: string, i: nat, a: string, b: string)
    requires Written(t, i, a + b)
    ensures Written(t, i, a) && Written(t, i + |a|, b)
  {
    WrittenIff(t, i, a + b);
    forall k | 0 <= k < |a| ensures t[i + k] == a[k] {
      assert (a + b)[k] == a[k];
    }
    forall k | 0 <= k < |b| ensures t[i + |a| + k] == b[k] {
      assert (a + b)[|a| + k] == b[k];
    }
    WrittenIff(t, i, a);
    WrittenIff(t, i + |a|, b);
  }

  /** `Split` with the offset of the second part named. */
  lemma SplitAt(t: string, i: nat, j: nat, a: string, b: string)
    requires Written(t, i, a + b) && j == i + |a|
    ensures Written(t, i, a) && Written(t, j, b) && |a + b| == j - i + |b|
  {
    Split(t, i, a, b);
  }

  /** Text written at `i` is the slice of `t` from `i` on. */
  lemma WrittenSlice(t: string, i: nat, w: string)
    requires Written(t, i, w)
    ensures Attr.StartsWith(t, i, w)
  {
    WrittenIff(t, i, w);
    forall k | 0 <= k < |w| ensures t[i..i + |w|][k] == w[k] {
      assert t[i + k] == w[k];
    }
  }

  /** The slice of `t` from `i` on is written at `i`. */
  lemma SliceWritten(t: string, i: nat, w: string)
    requires i <= |t| && Attr.StartsWith(t, i, w)
    ensures Written(t, i, w)
  {
    WrittenIff(t, i, w);
    forall k | 0 <= k < |w| ensures t[i + k] == w[k] {
      assert t[i..i + |w|][k] == w[k];
    }
  }

  /** A text is written in itself at the end of whatever precedes it. */
  lemma WrittenAfter(pre: string, w: string)
    ensures Written(pre + w, |pre|, w)
  {
    forall k | 0 <= k < |w| ensures (pre + w)[|pre| + k] == w[k] {
    }
    WrittenIff(pre + w, |pre|, w);
  }

  lemma CharOn(t: string, i: nat, c: char, rest: string)
    requires Written(t, i, [c] + rest)
    ensures i < |t| && t[i] == c && Written(t, i + 1, rest)
  {
    FirstOf(t, i, [c] + rest);
    Split(t, i, [c], rest);
  }

  /** The characters of `t` from `i` up to `j` all satisfy `p`. */
  lemma {:induction false} BlanksUpTo(t: string, i: nat, j: nat)
    requires i <= j <= |t|
    requires forall k :: i <= k < j ==> Attr.IsBlank(t[k])
    requires j < |t| ==> !Attr.IsBlank(t[j])
    ensures Attr.Blanks(t, i) == j
    decreases j - i
  {
    if i < j {
      BlanksUpTo(t, i + 1, j);
    }
  }

  lemma BlanksOn(t: string, i: nat, w: string)
    requires Written(t, i, w) && (forall k :: 0 <= k < |w| ==> Attr.IsBlank(w[k]))
    requires i + |w| < |t| ==> !Attr.IsBlank(t[i + |w|])
    ensures Attr.Blanks(t, i) == i + |w|
  {
    WrittenIff(t, i, w);
    forall k | i <= k < i + |w| ensures Attr.IsBlank(t[k]) {
      assert t[i + (k - i)] == w[k - i];
    }
    BlanksUpTo(t, i, i + |w|);
  }

  /** `Until` stops at the first `c`, or at the end of the text. */
  lemma {:induction false} UntilAt(t: string, i: nat, j: nat, c: char)
    requires i <= j <= |t| && (j == |t| || t[j] == c)
    requires forall k :: i <= k < j ==> t[k] != c
    ensures Attr.Until(t, i, c) == j
    decreases j - i
  {
    if i < j {
      UntilAt(t, i + 1, j, c);
    }
  }

  lemma QuotedOn(t: string, i: nat, x: string, rest: string)
    requires Written(t, i, "\"" + (x + ("\"" + rest))) && '"' !in x
    ensures Attr.Quoted(t, i) == Some((x, i + |x| + 2))
    ensures Written(t, i + |x| + 2, rest)
  {
    CharOn(t, i, '"', x + ("\"" + rest));
    Split(t, i + 1, x, "\"" + rest);
    CharOn(t, i + 1 + |x|, '"', rest);
    WrittenIff(t, i + 1, x);
    forall k | i + 1 <= k < i + 1 + |x| ensures t[k] != '"' {
      assert t[i + 1 + (k - i - 1)] == x[k - i - 1];
      assert x[k - i - 1] in x;
    }
    UntilAt(t, i + 1, i + 1 + |x|, '"');
    WrittenSlice(t, i + 1, x);
  }

  lemma {:induction false} DigitsUpTo(t: string, i: nat, j: nat)
    requires i <= j <= |t|
    requires forall k :: i <= k < j ==> Decimal.IsDigit(t[k])
    requires j < |t| ==> !Decimal.IsDigit(t[j])
    ensures Attr.DigitRun(t, i) == j
    decreases j - i
  {
    if i < j {
      DigitsUpTo(t, i + 1, j);
    }
  }

  lemma DigitsOn(t: string, i: nat, d: string)
    requires Written(t, i, d) && Decimal.AllDigits(d)
    requires i + |d| < |t| ==> !Decimal.IsDigit(t[i + |d|])
    ensures Attr.DigitRun(t, i) == i + |d|
  {
    WrittenIff(t, i, d);
    forall k | i <= k < i + |d| ensures Decimal.IsDigit(t[k]) {
      assert t[i + (k - i)] == d[k - i];
    }
    DigitsUpTo(t, i, i + |d|);
  }

  // Blanks followed by another piece.

  lemma BlanksThen(t: string, i: nat, w: string, rest: string)
    requires Written(t, i, w + rest) && (forall k :: 0 <= k < |w| ==> Attr.IsBlank(w[k])) && rest != [] && !Attr.IsBlank(rest[0])
    ensures Attr.Blanks(t, i) == i + |w| && i + |w| < |t| && Written(t, i + |w|, rest)
  {
    Split(t, i, w, rest);
    BlanksOn(t, i, w);
  }

  lemma BlanksThenChar(t: string, i: nat, w: string, c: char, rest: string)
    requires Written(t, i, w + ([c] + rest)) && (forall k :: 0 <= k < |w| ==> Attr.IsBlank(w[k])) && !Attr.IsBlank(c)
    ensures Attr.Blanks(t, i) == i + |w| && i + |w| < |t| && t[i + |w|] == c
    ensures Written(t, i + |w| + 1, rest)
  {
    BlanksThen(t, i, w, [c] + rest);
    CharOn(t, i + |w|, c, rest);
  }

  lemma BlanksThenWord(t: string, i: nat, w: string, word: string, rest: string)
    requires Written(t, i, w + (word + rest)) && (forall k :: 0 <= k < |w| ==> Attr.IsBlank(w[k]))
    requires word != [] && !Attr.IsBlank(word[0])
    ensures Attr.Blanks(t, i) == i + |w| && Attr.StartsWith(t, i + |w|, word)
    ensures Written(t, i + |w| + |word|, rest)
  {
    assert (word + rest)[0] == word[0];
    BlanksThen(t, i, w, word + rest);
    Split(t, i + |w|, word, rest);
    WrittenSlice(t, i + |w|, word);
  }

  lemma BlanksThenQuoted(t: string, i: nat, w: string, x: string, rest: string)
    requires Written(t, i, w + ("\"" + (x + ("\"" + rest)))) && (forall k :: 0 <= k < |w| ==> Attr.IsBlank(w[k])) && '"' !in x
    ensures Attr.Blanks(t, i) == i + |w| && Attr.Quoted(t, i + |w|) == Some((x, i + |w| + |x| + 2))
    ensures i + |w| + |x| + 2 <= |t| && Written(t, i + |w| + |x| + 2, rest)
  {
    BlanksThen(t, i, w, "\"" + (x + ("\"" + rest)));
    QuotedOn(t, i + |w|, x, rest);
  }

  // ---------------------------------------------------------------------------
  // Reading the parts of a line back. Each lemma says what the recognizer makes of a part
  // written at `i`, given the character that follows it.


  lemma OpenerOn(t: string, i: nat, j: nat, l: LineLayout, rest: string)
    requires Written(t, i, l.ws[0] + ("//" + (l.ws[1] + ("#" + rest))))
    requires j == i + |l.ws[0]| + |l.ws[1]| + 3
    ensures Attr.Opener(t, i) == Some(j) && j <= |t| && Written(t, j, rest)
  {
    AllBlankIff(l.ws[0]);
    AllBlankIff(l.ws[1]);
    BlanksThenWord(t, i, l.ws[0], "//", l.ws[1] + ("#" + rest));
    BlanksThenChar(t, i + |l.ws[0]| + 2, l.ws[1], '#', rest);
  }

  lemma BracketOn(t: string, i: nat, j: nat, l: LineLayout)
    requires Written(t, i, (if l.inner then "!" else "") + ("[" + (l.ws[2] + "include_doc")))
    requires j == i + (if l.inner then 1 else 0) + |l.ws[2]| + 12
    ensures Attr.Bracket(t, i) == Some((l.inner, j)) && j <= |t|
  {
    var r := "[" + (l.ws[2] + "include_doc");
    var a := if l.inner then i + 1 else i;
    AllBlankIff(l.ws[2]);
    if l.inner {
      CharOn(t, i, '!', r);
    } else {
      assert (if l.inner then "!" else "") + r == r;
    }
    CharOn(t, a, '[', l.ws[2] + "include_doc");
    Split(t, a + 1, l.ws[2], "include_doc");
    FirstOf(t, a + 1 + |l.ws[2]|, "include_doc");
    BlanksOn(t, a + 1, l.ws[2]);
    WrittenSlice(t, a + 1 + |l.ws[2]|, "include_doc");
  }

  lemma HeadOn(t: string, i: nat, j: nat, l: LineLayout)
    requires Written(t, i, HeadStr(l)) && j == i + |HeadStr(l)|
    ensures Attr.Head(t, i) == Some((l.inner, j))
  {
    var bang := if l.inner then "!" else "";
    var a := i + |l.ws[0]| + |l.ws[1]| + 3;
    OpenerOn(t, i, a, l, bang + ("[" + (l.ws[2] + "include_doc")));
    BracketOn(t, a, j, l);
  }

  lemma PathOpenOn(t: string, i: nat, l: LineLayout)
    requires Written(t, i, PathStr(l))
    ensures Attr.Blanks(t, i) == i + |l.ws[3]| && i + |l.ws[3]| < |t| && t[i + |l.ws[3]|] == '('
    ensures Attr.Blanks(t, i + |l.ws[3]| + 1) == i + |l.ws[3]| + 1 + |l.ws[4]|
    ensures Attr.Quoted(t, i + |l.ws[3]| + 1 + |l.ws[4]|) == Some((l.path, i + |l.ws[3]| + 1 + |l.ws[4]| + |l.path| + 2))
    ensures i + |l.ws[3]| + 1 + |l.ws[4]| + |l.path| + 2 <= |t|
    ensures Written(t, i + |l.ws[3]| + 1 + |l.ws[4]| + |l.path| + 2, l.ws[5] + ("," + l.ws[6]))
  {
    var a := i + |l.ws[3]|;
    AllBlankIff(l.ws[3]);
    AllBlankIff(l.ws[4]);
    UnquotedIff(l.path);
    BlanksThenChar(t, i, l.ws[3], '(', l.ws[4] + ("\"" + (l.path + ("\"" + (l.ws[5] + ("," + l.ws[6]))))));
    BlanksThenQuoted(t, a + 1, l.ws[4], l.path, l.ws[5] + ("," + l.ws[6]));
  }

  lemma PathOn(t: string, i: nat, j: nat, l: LineLayout)
    requires Written(t, i, PathStr(l)) && j == i + |PathStr(l)|
    requires j < |t| && t[j] != ' ' && t[j] != '\t'
    ensures Attr.PathPart(t, i) == Some((l.path, j))
  {
    var a := i + |l.ws[3]|;
    var b := a + 1 + |l.ws[4]|;
    var c := b + |l.path| + 2;
    var d := c + |l.ws[5]|;
    var e := d + 1 + |l.ws[6]|;
    PathOpenOn(t, i, l);
    AllBlankIff(l.ws[5]);
    AllBlankIff(l.ws[6]);
    BlanksThenChar(t, c, l.ws[5], ',', l.ws[6]);
    assert e == j;
    BlanksOn(t, d + 1, l.ws[6]);
    PathPartFrom(t, i, a, b, c, d, e, l.path);
  }

  lemma PathPartFrom(t: string, i: nat, a: nat, b: nat, c: nat, d: nat, e: nat, path: string)
    requires i <= a < |t| && b <= c <= d < |t| && e <= |t|
    requires Attr.Blanks(t, i) == a && t[a] == '(' && Attr.Blanks(t, a + 1) == b
    requires Attr.Quoted(t, b) == Some((path, c)) && Attr.Blanks(t, c) == d && t[d] == ','
    requires Attr.Blanks(t, d + 1) == e
    ensures Attr.PathPart(t, i) == Some((path, e))
  {
  }

  lemma ActionOn(t: string, i: nat, a: nat, j: nat, l: LineLayout)
    requires Written(t, i, ActionStr(l)) && a == i + |ActionName(l.action)| && j == i + |ActionStr(l)|
    requires j < |t| && t[j] != ' ' && t[j] != '\t'
    ensures Attr.ActionWord(t, i) == Some((l.action, a)) && a <= |t| && Attr.Blanks(t, a) == j
  {
    var name := ActionName(l.action);
    AllBlankIff(l.ws[7]);
    FirstOf(t, i, ActionStr(l));
    Split(t, i, name, l.ws[7]);
    WrittenSlice(t, i, name);
    BlanksOn(t, i + |name|, l.ws[7]);
    if l.action == Attr.End {
      assert t[i] == t[i..i + 3][0] == 'e';
      assert !Attr.StartsWith(t, i, "start") by {
        if i + 5 <= |t| {
          assert t[i..i + 5][0] == t[i];
        }
      }
    }
  }

  lemma ArgGroupFrom(t: string, i: nat, a: nat, arg: Attr.RawArg, b: nat, c: nat, e: nat)
    requires i < |t| && t[i] == '(' && a <= |t| && b <= c < |t| && e <= |t|
    requires Attr.Blanks(t, i + 1) == a && Attr.ArgValue(t, a) == Some((arg, b))
    requires Attr.Blanks(t, b) == c && t[c] == ')' && Attr.Blanks(t, c + 1) == e
    ensures Attr.ArgGroup(t, i) == Some((arg, e))
  {
  }

  lemma NumberFrom(t: string, a: nat, a': nat, minus: bool, digits: string)
    requires a < |t| && t[a] != '"' && (t[a] == '-' <==> minus) && digits != []
    requires a' == (if minus then a + 1 else a) && a' + |digits| <= |t|
    requires Attr.DigitRun(t, a') == a' + |digits| && t[a'..a' + |digits|] == digits
    ensures Attr.ArgValue(t, a) == Some((Attr.RawNumber(minus, digits), a' + |digits|))
  {
  }

  /** The end of an argument group: blanks, `)`, blanks, up to the `)` at `j`. */
  lemma ArgCloseOn(t: string, b: nat, j: nat, w1: string, w2: string)
    requires Written(t, b, w1 + (")" + w2))
    requires (forall k :: 0 <= k < |w1| ==> Attr.IsBlank(w1[k])) && (forall k :: 0 <= k < |w2| ==> Attr.IsBlank(w2[k]))
    requires j == b + |w1| + 1 + |w2| && j < |t| && t[j] == ')'
    ensures Attr.Blanks(t, b) == b + |w1| && b + |w1| < |t| && t[b + |w1|] == ')'
    ensures Attr.Blanks(t, b + |w1| + 1) == j
  {
    BlanksThenChar(t, b, w1, ')', w2);
    BlanksOn(t, b + |w1| + 1, w2);
  }

  lemma ArgTextOn(t: string, i: nat, j: nat, w0: string, w1: string, w2: string, text: string)
    requires (forall k :: 0 <= k < |w0| ==> Attr.IsBlank(w0[k])) && (forall k :: 0 <= k < |w1| ==> Attr.IsBlank(w1[k]))
    requires (forall k :: 0 <= k < |w2| ==> Attr.IsBlank(w2[k])) && '"' !in text
    requires Written(t, i, "(" + (w0 + ("\"" + (text + ("\"" + (w1 + (")" + w2)))))))
    requires j == i + |w0| + |text| + |w1| + |w2| + 4 && j < |t| && t[j] == ')'
    ensures Attr.ArgGroup(t, i) == Some((Attr.RawText(text), j))
  {
    var r := w1 + (")" + w2);
    CharOn(t, i, '(', w0 + ("\"" + (text + ("\"" + r))));
    var a := i + 1 + |w0|;
    BlanksThenQuoted(t, i + 1, w0, text, r);
    var b := a + |text| + 2;
    ArgCloseOn(t, b, j, w1, w2);
    ArgGroupFrom(t, i, a, Attr.RawText(text), b, b + |w1|, j);
  }

  lemma SignedDigitsOn(t: string, a: nat, b: nat, minus: bool, digits: string, rest: string)
    requires digits != [] && Decimal.AllDigits(digits)
    requires Written(t, a, (if minus then "-" else "") + (digits + rest))
    requires rest != [] && !Decimal.IsDigit(rest[0])
    requires b == a + (if minus then 1 else 0) + |digits|
    ensures Attr.ArgValue(t, a) == Some((Attr.RawNumber(minus, digits), b)) && Written(t, b, rest)
  {
    var a' := if minus then a + 1 else a;
    if minus {
      CharOn(t, a, '-', digits + rest);
    } else {
      assert (if minus then "-" else "") + (digits + rest) == digits + rest;
      FirstOf(t, a, digits + rest);
    }
    Split(t, a', digits, rest);
    WrittenSlice(t, a', digits);
    FirstOf(t, b, rest);
    DigitsOn(t, a', digits);
    NumberFrom(t, a, a', minus, digits);
  }

  lemma ArgNumberOn(t: string, i: nat, j: nat, w0: string, w1: string, w2: string, minus: bool, digits: string)
    requires (forall k :: 0 <= k < |w0| ==> Attr.IsBlank(w0[k])) && (forall k :: 0 <= k < |w1| ==> Attr.IsBlank(w1[k]))
    requires (forall k :: 0 <= k < |w2| ==> Attr.IsBlank(w2[k]))
    requires digits != [] && Decimal.AllDigits(digits)
    requires Written(t, i, "(" + (w0 + ((if minus then "-" else "") + (digits + (w1 + (")" + w2))))))
    requires j == i + |w0| + (if minus then 1 else 0) + |digits| + |w1| + |w2| + 2 && j < |t| && t[j] == ')'
    ensures Attr.ArgGroup(t, i) == Some((Attr.RawNumber(minus, digits), j))
  {
    var r := w1 + (")" + w2);
    var sign := if minus then "-" else "";
    CharOn(t, i, '(', w0 + (sign + (digits + r)));
    var a := i + 1 + |w0|;
    assert Decimal.IsDigit(digits[0]);
    assert (sign + (digits + r))[0] == if minus then '-' else digits[0];
    BlanksThen(t, i + 1, w0, sign + (digits + r));
    assert r[0] == ')' || Attr.IsBlank(r[0]);
    var b := a + |sign| + |digits|;
    SignedDigitsOn(t, a, b, minus, digits, r);
    ArgCloseOn(t, b, j, w1, w2);
    ArgGroupFrom(t, i, a, Attr.RawNumber(minus, digits), b, b + |w1|, j);
  }

  lemma ArgOn(t: string, i: nat, j: nat, l: LineLayout)
    requires Written(t, i, ArgStr(l)) && j == i + |ArgStr(l)| && j < |t| && t[j] == ')'
    ensures Attr.ArgGroup(t, i) == Some((l.arg, j))
  {
    AllBlankIff(l.ws[8]);
    AllBlankIff(l.ws[9]);
    AllBlankIff(l.ws[10]);
    match l.arg
    case NoRawArg =>
    case RawText(text) =>
      UnquotedIff(text);
      ArgTextOn(t, i, j, l.ws[8], l.ws[9], l.ws[10], text);
    case RawNumber(minus, digits) =>
      ArgNumberOn(t, i, j, l.ws[8], l.ws[9], l.ws[10], minus, digits);
  }

  /** The end of a line: the end of the text or a line feed. */
  predicate EndsLine(t: string, j: nat) {
    j == |t| || (j < |t| && t[j] == '\n')
  }

  lemma CloseOn(t: string, d: nat, e: nat, z: nat, l: LineLayout)
    requires Written(t, d, CloseStr(l)) && e == d + 1 + |l.ws[11]| && z == d + |CloseStr(l)|
    requires z == |t| || (z < |t| && t[z] == '\n')
    ensures d < |t| && t[d] == ')' && Attr.Blanks(t, d + 1) == e
    ensures e < |t| && t[e] == ']' && Attr.Blanks(t, e + 1) == z
  {
    AllBlankIff(l.ws[11]);
    AllBlankIff(l.ws[12]);
    CharOn(t, d, ')', l.ws[11] + ("]" + l.ws[12]));
    BlanksThenChar(t, d + 1, l.ws[11], ']', l.ws[12]);
    BlanksOn(t, e + 1, l.ws[12]);
  }

  lemma DetailedFrom(t: string, i: nat, path: string, a: nat, action: Attr.Action, b: nat, b': nat,
                     arg: Attr.RawArg, c: nat, e: nat)
    requires i <= |t| && a <= |t| && b <= |t| && b' <= |t| && c < |t| && e <= |t|
    requires Attr.PathPart(t, i) == Some((path, a)) && Attr.ActionWord(t, a) == Some((action, b))
    requires Attr.Blanks(t, b) == b' && Attr.ArgGroup(t, b') == Some((arg, c))
    requires t[c] == ')' && Attr.Blanks(t, c + 1) == e
    ensures Attr.Detailed(t, i) == Some((Attr.Detail(path, action, arg), e))
  {
  }

  lemma MatchAtFrom(t: string, q: nat, inner: bool, a: nat, detail: Attr.Detail, d: nat, e: nat)
    requires q <= |t| && a <= |t| && d < |t| && e <= |t| && Attr.IsLineStart(t, q)
    requires Attr.Head(t, q) == Some((inner, a)) && Attr.Detailed(t, a) == Some((detail, d))
    requires t[d] == ']' && Attr.Blanks(t, d + 1) == e && (e == |t| || t[e] == '\n')
    ensures Attr.MatchAt(t, q) == Some(Attr.Captures(Attr.Range(q, e), inner, Some(detail)))
  {
    assert Attr.Close(t, d) == Some(e);
  }

  /** The characters that follow the pieces of a layout's line, which their readers need. */
  lemma PieceEdges(t: string, a: nat, b: nat, c: nat, d: nat, l: LineLayout)
    requires Written(t, a, PathStr(l)) && b == a + |PathStr(l)|
    requires Written(t, b, ActionStr(l)) && c == b + |ActionStr(l)|
    requires Written(t, c, ArgStr(l)) && d == c + |ArgStr(l)|
    requires Written(t, d, CloseStr(l))
    ensures b < |t| && t[b] != ' ' && t[b] != '\t'
    ensures c < |t| && t[c] != ' ' && t[c] != '\t'
    ensures d < |t| && t[d] == ')'
  {
    FirstOf(t, b, ActionStr(l));
    FirstOf(t, d, CloseStr(l));
    if l.arg != Attr.NoRawArg {
      FirstOf(t, c, ArgStr(l));
    }
  }

  /** The pieces of a layout's line, each written at its own offset, the last followed by a
      line end, are read back by the pattern as one match from `q` to `z`. */
  lemma PiecesOn(t: string, q: nat, a: nat, b: nat, c: nat, d: nat, z: nat, l: LineLayout)
    requires Written(t, q, HeadStr(l)) && a == q + |HeadStr(l)|
    requires Written(t, a, PathStr(l)) && b == a + |PathStr(l)|
    requires Written(t, b, ActionStr(l)) && c == b + |ActionStr(l)|
    requires Written(t, c, ArgStr(l)) && d == c + |ArgStr(l)|
    requires Written(t, d, CloseStr(l)) && z == d + |CloseStr(l)| && EndsLine(t, z)
    requires Attr.IsLineStart(t, q)
    ensures Attr.MatchAt(t, q)
      == Some(Attr.Captures(Attr.Range(q, z), l.inner, Some(Attr.Detail(l.path, l.action, l.arg))))
  {
    var b' := b + |ActionName(l.action)|;
    var e := d + 1 + |l.ws[11]|;
    assert z == |t| || (z < |t| && t[z] == '\n');
    assert q == 0 || t[q - 1] == '\n';
    assert q <= a <= b <= b' <= c <= d < e < z;
    PieceEdges(t, a, b, c, d, l);
    HeadOn(t, q, a, l);
    PathOn(t, a, b, l);
    ActionOn(t, b, b', c, l);
    ArgOn(t, c, d, l);
    CloseOn(t, d, e, z, l);
    DetailedFrom(t, a, l.path, b, l.action, b', c, l.arg, d, e);
    MatchAtFrom(t, q, l.inner, a, Attr.Detail(l.path, l.action, l.arg), e, z);
  }

  /** A layout's line written at `q` is its pieces written one after the other. */
  lemma LinePieces(t: string, q: nat, a: nat, b: nat, c: nat, d: nat, l: LineLayout)
    requires Written(t, q, Line(l))
    requires a == q + |HeadStr(l)| && b == a + |PathStr(l)| && c == b + |ActionStr(l)| && d == c + |ArgStr(l)|
    ensures Written(t, q, HeadStr(l)) && Written(t, a, PathStr(l)) && Written(t, b, ActionStr(l))
    ensures Written(t, c, ArgStr(l)) && Written(t, d, CloseStr(l))
    ensures q + |Line(l)| == d + |CloseStr(l)|
  {
    SplitAt(t, q, a, HeadStr(l), PathTail(l));
    SplitAt(t, a, b, PathStr(l), ActionTail(l));
    SplitAt(t, b, c, ActionStr(l), ArgTail(l));
    SplitAt(t, c, d, ArgStr(l), CloseStr(l));
  }

  /** The line of a layout, written at a line start and followed by a line end or the end of
      the text, is one match of the pattern over the whole line, with the layout's captures. */
  lemma MatchAtOn(t: string, q: nat, z: nat, l: LineLayout)
    requires Written(t, q, Line(l)) && z == q + |Line(l)|
    requires Attr.IsLineStart(t, q) && EndsLine(t, z)
    ensures Attr.MatchAt(t, q)
      == Some(Attr.Captures(Attr.Range(q, z), l.inner, Some(Attr.Detail(l.path, l.action, l.arg))))
  {
    var a := q + |HeadStr(l)|;
    var b := a + |PathStr(l)|;
    var c := b + |ActionStr(l)|;
    var d := c + |ArgStr(l)|;
    LinePieces(t, q, a, b, c, d, l);
    PiecesOn(t, q, a, b, c, d, z, l);
  }

  /** Decoding the captures of a layout's line gives what the layout describes. */
  lemma DecodeExpected(l: Layout, range: Attr.Range)
    requires ArgWellFormed(l.arg)
    ensures Attr.Decode(Attr.Captures(range, l.inner, Some(Attr.Detail(l.path, l.action, l.arg)))) == Expected(l, range)
  {
    if l.arg.RawNumber? {
      var p := Decimal.ParseUsize(l.arg.digits);
      assert p.Some? <==> Decimal.Value(l.arg.digits) <= Decimal.USIZE_MAX;
    }
  }

  // ---------------------------------------------------------------------------
  // Lines of the attribute's shape with an unknown action word.

  /** An action word the pattern does not know: it begins with neither `start` nor `end`.
      It does not begin with a blank, which the blanks before it would take, and holds no
      line feed, so that its line goes on to the closing `]`. */
  predicate UnknownWord(word: string) {
    && !(|word| >= 5 && word[..5] == "start")
    && !(|word| >= 3 && word[..3] == "end")
    && (word == [] || !Attr.IsBlank(word[0]))
    && '\n' !in word
  }

  /** The line of layout `l` with `word` in place of its action word and argument. */
  function BadLine(l: Layout, word: string): string
    requires |l.ws| == 13
  {
    HeadStr(l) + (PathStr(l) + (word + CloseStr(l)))
  }

  /** Text written at `b` that begins with `word` and then `)` does not begin with `key`,
      a word without `)`, unless `word` itself does. */
  lemma NotWordOn(t: string, b: nat, word: string, rest: string, key: string)
    requires Written(t, b, word + rest) && rest != [] && rest[0] == ')' && ')' !in key
    requires !(|word| >= |key| && word[..|key|] == key)
    ensures !Attr.StartsWith(t, b, key)
  {
    WrittenIff(t, b, word + rest);
    if b + |key| <= |t| {
      if |word| >= |key| {
        forall k | 0 <= k < |key| ensures t[b..b + |key|][k] == word[..|key|][k] {
          assert t[b + k] == (word + rest)[k];
        }
      } else {
        assert t[b + |word|] == (word + rest)[|word|];
        assert t[b..b + |key|][|word|] == ')';
        assert key[|word|] in key;
      }
    }
  }

  lemma NotActionOn(t: string, b: nat, word: string, rest: string)
    requires Written(t, b, word + rest) && rest != [] && rest[0] == ')'
    requires !(|word| >= 5 && word[..5] == "start") && !(|word| >= 3 && word[..3] == "end")
    ensures Attr.ActionWord(t, b) == None
  {
    NotWordOn(t, b, word, rest, "start");
    NotWordOn(t, b, word, rest, "end");
  }


  lemma {:induction false} TrimmedAt(t: string, i: nat, k: nat, j: nat)
    requires i < k <= j <= |t| && !Attr.IsBlank(t[k - 1])
    requires forall m :: k <= m < j ==> Attr.IsBlank(t[m])
    ensures Attr.Trimmed(t, i, j) == k
    decreases j
  {
    if k < j {
      TrimmedAt(t, i, k, j - 1);
    }
  }

  /** The fallback form reads text without line feeds, a `]` and blanks, up to a line end. */
  lemma FallbackOn(t: string, a: nat, k: nat, z: nat, mid: string, w: string)
    requires Written(t, a, mid + ("]" + w)) && k == a + |mid| + 1 && z == k + |w| && EndsLine(t, z)
    requires '\n' !in mid && (forall m :: 0 <= m < |w| ==> Attr.IsBlank(w[m]))
    ensures Attr.Fallback(t, a) == Some(z)
  {
    var s := mid + ("]" + w);
    WrittenIff(t, a, s);
    forall m | a <= m < z ensures t[m] != '\n' {
      assert t[a + (m - a)] == s[m - a];
      if m - a < |mid| {
        assert s[m - a] == mid[m - a];
        assert mid[m - a] in mid;
      } else if m - a > |mid| {
        assert s[m - a] == w[m - k];
      }
    }
    UntilAt(t, a, z, '\n');
    forall m | k <= m < z ensures Attr.IsBlank(t[m]) {
      assert t[a + (m - a)] == s[m - a] == w[m - k];
    }
    assert t[a + |mid|] == s[|mid|] == ']';
    TrimmedAt(t, a, k, z);
  }

  /** What follows the path part of a bad line holds no line feed. */
  lemma BadRestUnbroken(l: LineLayout, word: string)
    requires '\n' !in l.path && '\n' !in word
    ensures '\n' !in PathStr(l) + (word + (")" + l.ws[11]))
  {
    AllBlankIff(l.ws[3]);
    AllBlankIff(l.ws[4]);
    AllBlankIff(l.ws[5]);
    AllBlankIff(l.ws[6]);
    AllBlankIff(l.ws[11]);
  }

  /** A bad line written at a line start and followed by a line end is matched by the
      fallback form, from `q` to `z`, with no detailed captures. */
  lemma BadMatchAt(t: string, q: nat, a: nat, b: nat, z: nat, l: LineLayout, word: string)
    requires Written(t, q, HeadStr(l)) && a == q + |HeadStr(l)|
    requires Written(t, a, PathStr(l) + (word + CloseStr(l))) && b == a + |PathStr(l)|
    requires z == b + |word + CloseStr(l)| && EndsLine(t, z)
    requires Attr.IsLineStart(t, q) && UnknownWord(word) && '\n' !in l.path
    ensures Attr.MatchAt(t, q) == Some(Attr.Captures(Attr.Range(q, z), l.inner, None))
  {
    var mid := PathStr(l) + (word + (")" + l.ws[11]));
    assert q == 0 || t[q - 1] == '\n';
    assert PathStr(l) + (word + CloseStr(l)) == mid + ("]" + l.ws[12]);
    AllBlankIff(l.ws[12]);
    BadRestUnbroken(l, word);
    FallbackOn(t, a, a + |mid| + 1, z, mid, l.ws[12]);
    SplitAt(t, a, b, PathStr(l), word + CloseStr(l));
    FirstOf(t, b, word + CloseStr(l));
    assert t[b] != ' ' && t[b] != '\t';
    HeadOn(t, q, a, l);
    PathOn(t, a, b, l);
    NotActionOn(t, b, word, CloseStr(l));
  }

  // ---------------------------------------------------------------------------
  // Whole texts.

  /** A text is written in itself at offset 0. */
  lemma WrittenWhole(t: string)
    ensures Written(t, 0, t)
  {
    WrittenAfter([], t);
    assert [] + t == t;
  }

  /** A text that the pattern matches as a whole, from its start to its end, is that one match. */
  lemma MatchesWhole(t: string, c: Attr.Captures)
    requires 0 < |t| && Attr.MatchAt(t, 0) == Some(c) && c.whole.end == |t|
    ensures Attr.FindIter(t) == [Attr.Decode(c)]
  {
    var tab := Attr.MatchTable(t);
    assert tab[0] == Some(c);
    assert Attr.Matches(t) == [c] + Attr.ScanFrom(t, tab, |t|);
  }

  /** `find_iter` over the line of a well-formed layout alone reports exactly one result: the
      attribute the layout describes, with a range over the whole line, blanks included. */
  lemma LineReadBack(l: LineLayout)
    ensures Attr.FindIter(Line(l)) == [Expected(l, Attr.Range(0, |Line(l)|))]
  {
    var t := Line(l);
    var z := |t|;
    var c := Attr.Captures(Attr.Range(0, z), l.inner, Some(Attr.Detail(l.path, l.action, l.arg)));
    WrittenWhole(t);
    MatchAtOn(t, 0, z, l);
    MatchesWhole(t, c);
    DecodeExpected(l, Attr.Range(0, z));
  }

  /** Blanks do not matter: two lines that differ only in their runs of blanks decode to the
      same attribute, each with a range over its own whole line. */
  lemma BlanksIgnored(l1: LineLayout, l2: LineLayout)
    requires l1.(ws := l2.ws) == l2
    ensures Attr.FindIter(Line(l1)) == [Expected(l2, Attr.Range(0, |Line(l1)|))]
    ensures Attr.FindIter(Line(l2)) == [Expected(l2, Attr.Range(0, |Line(l2)|))]
  {
    LineReadBack(l1);
    LineReadBack(l2);
  }

  /** A line of a text: a well-formed attribute line, or a line of the same shape whose
      action word is unknown. */
  datatype Row = Good(l: Layout) | Bad(l: Layout, word: string)

  predicate RowWellFormed(r: Row) {
    WellFormed(r.l) && (r.Bad? ==> UnknownWord(r.word) && '\n' !in r.l.path)
  }

  type TextRow = r: Row | RowWellFormed(r)
    witness Good(Layout(seq(13, k => []), false, [], Attr.Start, Attr.NoRawArg))

  function RowLine(r: TextRow): string {
    match r
    case Good(l) => Line(l)
    case Bad(l, word) => BadLine(l, word)
  }

  /** What `find_iter` is to report for a row found at `range`. */
  function RowResult(r: TextRow, range: Attr.Range): Result<Attr.Attr, Attr.BadAttrError> {
    match r
    case Good(l) => Expected(l, range)
    case Bad(_, _) => Err(Attr.BadAttrError(range))
  }

  /** A row written at a line start and followed by a line end is one match over the row,
      which decodes to what the row is to give. */
  lemma RowMatchAt(t: string, q: nat, z: nat, r: TextRow)
    requires Written(t, q, RowLine(r)) && z == q + |RowLine(r)|
    requires Attr.IsLineStart(t, q) && EndsLine(t, z)
    ensures Attr.MatchAt(t, q).Some? && Attr.MatchAt(t, q).value.whole.end == z
    ensures Attr.Decode(Attr.MatchAt(t, q).value) == RowResult(r, Attr.Range(q, z))
  {
    match r
    case Good(l) =>
      MatchAtOn(t, q, z, l);
      DecodeExpected(l, Attr.Range(q, z));
    case Bad(l, word) =>
      var a := q + |HeadStr(l)|;
      SplitAt(t, q, a, HeadStr(l), PathStr(l) + (word + CloseStr(l)));
      BadMatchAt(t, q, a, a + |PathStr(l)|, z, l, word);
  }

  /** No match starts at a line feed. */
  lemma NoMatchAtLineFeed(t: string, z: nat)
    requires z < |t| && t[z] == '\n'
    ensures Attr.MatchTable(t)[z] == None
  {
    assert Attr.MatchTable(t)[z] == Attr.MatchAt(t, z);
  }

  /** The scan passes over offsets where no match starts. */
  lemma {:induction false} ScanSkipsEmpty(t: string, tab: seq<Option<Attr.Captures>>, i: nat, j: nat)
    requires Attr.Sane(t, tab) && i <= j <= |t|
    requires forall k :: i <= k < j ==> tab[k] == None
    ensures Attr.ScanFrom(t, tab, i) == Attr.ScanFrom(t, tab, j)
    decreases j - i
  {
    if i < j {
      ScanSkipsEmpty(t, tab, i + 1, j);
    }
  }

  /** A rest of `t` made of `a` then `b` has `a` written at its start and `b` as the rest after `a`. */
  lemma SuffixSplit(t: string, i: nat, j: nat, a: string, b: string)
    requires i <= |t| && t[i..] == a + b && j == i + |a|
    ensures Written(t, i, a) && j <= |t| && t[j..] == b
  {
    WrittenIff(t, i, a);
    forall k | 0 <= k < |a| ensures t[i + k] == a[k] {
      assert t[i..][k] == (a + b)[k];
    }
    forall k | 0 <= k < |b| ensures t[j..][k] == b[k] {
      assert t[i..][|a| + k] == (a + b)[|a| + k];
    }
  }

  /** A rest of `t` that starts with `c` starts at a `c`, and what follows is the rest after it. */
  lemma SuffixFirst(t: string, i: nat, c: char, b: string)
    requires i <= |t| && t[i..] == [c] + b
    ensures i < |t| && t[i] == c && t[i + 1..] == b
  {
    assert t[i..][0] == c;
    assert t[i + 1..] == t[i..][1..];
  }

  /** A match followed by an offset where none starts is followed, in the scan, by what the
      scan finds after that offset. */
  lemma ScanPast(t: string, tab: seq<Option<Attr.Captures>>, p: nat, z: nat, c: Attr.Captures)
    requires Attr.Sane(t, tab) && p < |t| && tab[p] == Some(c)
    requires c.whole.end == z && z < |t| && tab[z] == None
    ensures Attr.ScanFrom(t, tab, p) == [c] + Attr.ScanFrom(t, tab, z + 1)
  {
  }

  /** A match followed by an offset where none starts: the decoded scan is the match's
      result followed by the decoded scan after that offset. */
  lemma ScanCons(t: string, tab: seq<Option<Attr.Captures>>, p: nat, z: nat, c: Attr.Captures)
    requires Attr.Sane(t, tab) && p < |t| && tab[p] == Some(c)
    requires c.whole.end == z && z < |t| && tab[z] == None
    ensures Decoded(Attr.ScanFrom(t, tab, p)) == [Attr.Decode(c)] + Decoded(Attr.ScanFrom(t, tab, z + 1))
  {
    ScanPast(t, tab, p, z, c);
    DecodedCons(c, Attr.ScanFrom(t, tab, z + 1));
  }

  lemma ConsEqual<T>(a: seq<T>, b: seq<T>, x: T, y: T, xs: seq<T>, ys: seq<T>)
    requires a == [x] + xs && b == [y] + ys && x == y && xs == ys
    ensures a == b
  {
  }

  /** The matches, each decoded. */
  function Decoded(ms: seq<Attr.Captures>): seq<Result<Attr.Attr, Attr.BadAttrError>> {
    if ms == [] then [] else [Attr.Decode(ms[0])] + Decoded(ms[1..])
  }

  lemma DecodedCons(c: Attr.Captures, ms: seq<Attr.Captures>)
    ensures Decoded([c] + ms) == [Attr.Decode(c)] + Decoded(ms)
  {
    assert ([c] + ms)[1..] == ms;
  }

  /** `find_iter` is the matches of the pattern, each decoded. */
  lemma {:induction false} DecodedIsFindIter(ms: seq<Attr.Captures>, t: string)
    requires ms == Attr.Matches(t)
    ensures Attr.FindIter(t) == Decoded(ms)
  {
    DecodedIndex(ms);
  }

  lemma {:induction false} DecodedIndex(ms: seq<Attr.Captures>)
    ensures |Decoded(ms)| == |ms| && forall i :: 0 <= i < |ms| ==> Decoded(ms)[i] == Attr.Decode(ms[i])
    decreases |ms|
  {
    if ms != [] {
      DecodedIndex(ms[1..]);
    }
  }

  /** A line and what `find_iter` is to report for it, with its range left at zero. */
  datatype Reading = Reading(line: string, result: Result<Attr.Attr, Attr.BadAttrError>)

  /** A result moved to `range`. */
  function Placed(r: Result<Attr.Attr, Attr.BadAttrError>, range: Attr.Range): (p: Result<Attr.Attr, Attr.BadAttrError>)
    ensures Attr.RangeOf(p) == range && (p.Err? <==> r.Err?)
    ensures p.Ok? ==> p.value == r.value.(range := range)
  {
    match r
    case Ok(a) => Ok(a.(range := range))
    case Err(_) => Err(Attr.BadAttrError(range))
  }

  /** The lines, each followed by a line feed. */
  function Lines(ls: seq<Reading>): string {
    if ls == [] then [] else ls[0].line + ("\n" + Lines(ls[1..]))
  }

  /** The results of the lines written from offset `p` on, each moved to its line. */
  function ReadResults(ls: seq<Reading>, p: nat): seq<Result<Attr.Attr, Attr.BadAttrError>>
    decreases |ls|
  {
    if ls == [] then []
    else [Placed(ls[0].result, Attr.Range(p, p + |ls[0].line|))] + ReadResults(ls[1..], p + |ls[0].line| + 1)
  }

  lemma ReadResultsCons(ls: seq<Reading>, p: nat)
    requires ls != []
    ensures ReadResults(ls, p) == [Placed(ls[0].result, Attr.Range(p, p + |ls[0].line|))] + ReadResults(ls[1..], p + |ls[0].line| + 1)
  {
  }

  /** The first of lines written at `p` is followed by a line feed and the other lines. */
  lemma LinesSplit(t: string, p: nat, ls: seq<Reading>)
    requires p <= |t| && t[p..] == Lines(ls) && ls != []
    ensures Attr.StartsWith(t, p, ls[0].line) && p + |ls[0].line| < |t| && t[p + |ls[0].line|] == '\n'
    ensures Attr.IsLineStart(t, p + |ls[0].line| + 1) && t[p + |ls[0].line| + 1..] == Lines(ls[1..])
  {
    SuffixSplit(t, p, p + |ls[0].line|, ls[0].line, "\n" + Lines(ls[1..]));
    SuffixFirst(t, p + |ls[0].line|, '\n', Lines(ls[1..]));
    WrittenSlice(t, p, ls[0].line);
  }

  /** The table holds at offset `q` a match over the line of `l`, decoding to its result moved there. */
  predicate ReadsAt(tab: seq<Option<Attr.Captures>>, q: nat, l: Reading) {
    match l
    case Reading(line, result) =>
      && q < |tab| && tab[q].Some?
      && tab[q].value.whole.end == q + |line|
      && Attr.Decode(tab[q].value) == Placed(result, Attr.Range(q, q + |line|))
  }

  /** Wherever the line of `l` is written in `t` from a line start up to a line feed, the
      table holds a match over exactly that line, decoding to the result of `l` moved there. */
  ghost predicate TabReads(t: string, tab: seq<Option<Attr.Captures>>, l: Reading) {
    forall q: nat {:trigger Attr.StartsWith(t, q, l.line)} ::
      q + |l.line| < |t| && Attr.StartsWith(t, q, l.line) && Attr.IsLineStart(t, q) && t[q + |l.line|] == '\n' ==>
        ReadsAt(tab, q, l)
  }

  /** Wherever the line of `l` is written from a line start up to a line feed, the pattern
      matches exactly that line, and the match decodes to the result of `l` moved there. */
  ghost predicate ReadsAs(l: Reading) {
    forall t: string, q: nat {:trigger Attr.StartsWith(t, q, l.line)} ::
      q + |l.line| < |t| && Attr.StartsWith(t, q, l.line) && Attr.IsLineStart(t, q) && t[q + |l.line|] == '\n' ==>
        && Attr.MatchAt(t, q).Some?
        && Attr.MatchAt(t, q).value.whole.end == q + |l.line|
        && Attr.Decode(Attr.MatchAt(t, q).value) == Placed(l.result, Attr.Range(q, q + |l.line|))
  }

  /** A line that reads as it should is in the table of matches of every text, wherever it is written. */
  lemma TabReadsOf(t: string, l: Reading)
    requires ReadsAs(l)
    ensures TabReads(t, Attr.MatchTable(t), l)
  {
    forall q: nat | q + |l.line| < |t| && Attr.StartsWith(t, q, l.line) && Attr.IsLineStart(t, q) && t[q + |l.line|] == '\n'
      ensures ReadsAt(Attr.MatchTable(t), q, l)
    {
      assert Attr.MatchTable(t)[q] == Attr.MatchAt(t, q);
    }
  }

  ghost predicate AllTabRead(t: string, tab: seq<Option<Attr.Captures>>, ls: seq<Reading>) {
    ls == [] || (TabReads(t, tab, ls[0]) && AllTabRead(t, tab, ls[1..]))
  }

  /** Scanning a table that holds the lines written from a line start `p` to the end of `t` finds them,
      one match per line, decoding to the lines' results. */
  lemma {:induction false} ScanLines(t: string, tab: seq<Option<Attr.Captures>>, p: nat, ls: seq<Reading>)
    requires Attr.Sane(t, tab) && AllTabRead(t, tab, ls)
    requires p <= |t| && Attr.IsLineStart(t, p) && t[p..] == Lines(ls)
    ensures Decoded(Attr.ScanFrom(t, tab, p)) == ReadResults(ls, p)
    decreases |ls|
  {
    if ls == [] {
      assert p == |t|;
    } else {
      var z := p + |ls[0].line|;
      LinesSplit(t, p, ls);
      var c := tab[p].value;
      ScanCons(t, tab, p, z, c);
      ScanLines(t, tab, z + 1, ls[1..]);
      ReadResultsCons(ls, p);
      ConsEqual(Decoded(Attr.ScanFrom(t, tab, p)), ReadResults(ls, p),
        Attr.Decode(c), Placed(ls[0].result, Attr.Range(p, z)),
        Decoded(Attr.ScanFrom(t, tab, z + 1)), ReadResults(ls[1..], z + 1));
    }
  }

  /** The line of a row and what it is to give. */
  function RowReading(r: TextRow): Reading {
    Reading(RowLine(r), RowResult(r, Attr.Range(0, 0)))
  }

  lemma PlacedRow(r: TextRow, range: Attr.Range)
    ensures Placed(RowResult(r, Attr.Range(0, 0)), range) == RowResult(r, range)
  {
  }

  /** A row written from a line start up to a line feed is one match over the row, decoding
      to what the row is to give there. */
  lemma RowReadsAt(t: string, q: nat, r: TextRow, l: Reading)
    requires l == RowReading(r)
    requires q + |l.line| < |t| && Attr.StartsWith(t, q, l.line) && Attr.IsLineStart(t, q) && t[q + |l.line|] == '\n'
    ensures && Attr.MatchAt(t, q).Some?
            && Attr.MatchAt(t, q).value.whole.end == q + |l.line|
            && Attr.Decode(Attr.MatchAt(t, q).value) == Placed(l.result, Attr.Range(q, q + |l.line|))
  {
    var c := RowMatch(t, q, r);
    RowReadingOf(Attr.MatchAt(t, q), q, r, l, c);
  }

  lemma RowMatch(t: string, q: nat, r: TextRow) returns (c: Attr.Captures)
    requires q + |RowLine(r)| < |t| && Attr.StartsWith(t, q, RowLine(r))
    requires Attr.IsLineStart(t, q) && t[q + |RowLine(r)|] == '\n'
    ensures Attr.MatchAt(t, q) == Some(c) && c.whole.end == q + |RowLine(r)|
    ensures Attr.Decode(c) == RowResult(r, Attr.Range(q, q + |RowLine(r)|))
  {
    SliceWritten(t, q, RowLine(r));
    RowMatchAt(t, q, q + |RowLine(r)|, r);
    c := Attr.MatchAt(t, q).value;
  }

  lemma RowReadingOf(m: Option<Attr.Captures>, q: nat, r: TextRow, l: Reading, c: Attr.Captures)
    requires m == Some(c) && l == RowReading(r)
    requires c.whole.end == q + |RowLine(r)| && Attr.Decode(c) == RowResult(r, Attr.Range(q, q + |RowLine(r)|))
    ensures && m.Some?
            && m.value.whole.end == q + |l.line|
            && Attr.Decode(m.value) == Placed(l.result, Attr.Range(q, q + |l.line|))
  {
    PlacedRow(r, Attr.Range(q, q + |RowLine(r)|));
  }

  /** Every row reads as it should. */
  lemma RowReads(r: TextRow)
    ensures ReadsAs(RowReading(r))
  {
    RowReadsAs(r, RowReading(r));
  }

  lemma RowReadsAs(r: TextRow, l: Reading)
    requires l == RowReading(r)
    ensures ReadsAs(l)
  {
    forall t: string, q: nat {:trigger Attr.StartsWith(t, q, l.line)}
      | q + |l.line| < |t| && Attr.StartsWith(t, q, l.line) && Attr.IsLineStart(t, q) && t[q + |l.line|] == '\n'
      ensures && Attr.MatchAt(t, q).Some?
              && Attr.MatchAt(t, q).value.whole.end == q + |l.line|
              && Attr.Decode(Attr.MatchAt(t, q).value) == Placed(l.result, Attr.Range(q, q + |l.line|))
    {
      RowReadsAt(t, q, r, l);
    }
  }

  /** Each line reads as its reading says. */
  ghost predicate AllRead(ls: seq<Reading>) {
    ls == [] || (ReadsAs(ls[0]) && AllRead(ls[1..]))
  }

  lemma {:induction false} AllTabReadOf(t: string, ls: seq<Reading>)
    requires AllRead(ls)
    ensures AllTabRead(t, Attr.MatchTable(t), ls)
    decreases |ls|
  {
    if ls != [] {
      TabReadsOf(t, ls[0]);
      AllTabReadOf(t, ls[1..]);
    }
  }

  /** `find_iter` over blank lines followed by lines, each ended by a line feed and each
      reading as its reading says, reports one result per line, in order and over the line. */
  lemma LinesReadBack(pre: string, ls: seq<Reading>)
    requires forall k :: 0 <= k < |pre| ==> pre[k] == '\n'
    requires AllRead(ls)
    ensures Attr.FindIter(pre + Lines(ls)) == ReadResults(ls, |pre|)
  {
    var t := pre + Lines(ls);
    var tab := Attr.MatchTable(t);
    AllTabReadOf(t, ls);
    assert t[|pre|..] == Lines(ls);
    forall k | 0 <= k < |pre| ensures tab[k] == None {
      NoMatchAtLineFeed(t, k);
    }
    ScanSkipsEmpty(t, tab, 0, |pre|);
    ScanLines(t, tab, |pre|, ls);
    DecodedIsFindIter(Attr.Matches(t), t);
  }
}

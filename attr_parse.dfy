/**
 * The converse of `AttrRender`: every match of the detailed form of the pattern of
 * src/attr.rs:61 is the line of a well-formed `Layout`, and its captures are that layout's
 * path, action word and argument. Together with `AttrRender.MatchAtOn` this says that the
 * detailed matches are exactly the lines `AttrRender.Line` writes.
 *
 * The recognizer's offsets cut the matched text into pieces; each lemma below reads one
 * piece of a line back from the text, and `MatchAtLayout` glues them together.
 */
module AttrParse {
  import opened Wrappers
  import Decimal
  import Attr
  import opened AttrRender

  /** Two adjacent slices of `t` make up the slice that spans both. */
  lemma Cat(t: string, i: nat, j: nat, k: nat, a: string, b: string)
    requires i <= j <= k <= |t| && t[i..j] == a && t[j..k] == b
    ensures t[i..k] == a + b
  {
    assert t[i..k] == t[i..j] + t[j..k];
  }

  lemma CharAt(t: string, i: nat, c: char)
    requires i < |t| && t[i] == c
    ensures t[i..i + 1] == [c]
  {
  }

  /** What `Until` skips holds no `c`. */
  lemma {:induction false} UntilClear(t: string, i: nat, c: char)
    requires i <= |t|
    ensures forall k :: i <= k < Attr.Until(t, i, c) ==> t[k] != c
    decreases |t| - i
  {
    if i < |t| && t[i] != c {
      UntilClear(t, i + 1, c);
    }
  }

  /** What `DigitRun` skips is all digits. */
  lemma {:induction false} DigitRunAll(t: string, i: nat)
    requires i <= |t|
    ensures forall k :: i <= k < Attr.DigitRun(t, i) ==> Decimal.IsDigit(t[k])
    decreases |t| - i
  {
    if i < |t| && Decimal.IsDigit(t[i]) {
      DigitRunAll(t, i + 1);
    }
  }

  // `\[[ \t]*include_doc`, read from offset `a1` to `h`.
  lemma BracketRead(t: string, a1: nat, b1: nat, h: nat, w: string)
    requires a1 < a1 + 1 <= b1 <= h <= |t|
    requires t[a1] == '[' && t[a1 + 1..b1] == w && t[b1..h] == "include_doc"
    ensures t[a1..h] == "[" + (w + "include_doc")
  {
    CharAt(t, a1, '[');
    Cat(t, a1 + 1, b1, h, w, "include_doc");
    Cat(t, a1, a1 + 1, h, "[", w + "include_doc");
  }

  // `#(!?)` and what follows, read from offset `b` to `h`.
  lemma HashRead(t: string, b: nat, a1: nat, h: nat, inner: bool, r: string)
    requires b < a1 <= h <= |t| && a1 == (if inner then b + 2 else b + 1)
    requires t[b] == '#' && (inner ==> t[b + 1] == '!') && t[a1..h] == r
    ensures t[b..h] == "#" + ((if inner then "!" else "") + r)
  {
    var bang := if inner then "!" else "";
    if inner {
      CharAt(t, b + 1, '!');
      Cat(t, b + 1, a1, h, bang, r);
    } else {
      assert t[b + 1..h] == bang + r;
    }
    CharAt(t, b, '#');
    Cat(t, b, b + 1, h, "#", bang + r);
  }

  // `[ \t]*//[ \t]*` and what follows, read from offset `q` to `h`.
  lemma SlashesRead(t: string, q: nat, a: nat, b: nat, h: nat, w0: string, w1: string, r: string)
    requires q <= a && a + 2 <= b <= h <= |t|
    requires t[q..a] == w0 && t[a..a + 2] == "//" && t[a + 2..b] == w1 && t[b..h] == r
    ensures t[q..h] == w0 + ("//" + (w1 + r))
  {
    Cat(t, a + 2, b, h, w1, r);
    Cat(t, a, a + 2, h, "//", w1 + r);
    Cat(t, q, a, h, w0, "//" + (w1 + r));
  }

  // `[ \t]*//[ \t]*#(!?)\[[ \t]*include_doc`, read from offset `q` to `h`.
  lemma HeadRead(t: string, q: nat, a: nat, b: nat, a1: nat, b1: nat, h: nat, l: Layout)
    requires |l.ws| == 13 && q <= a && a + 2 <= b < a1 < a1 + 1 <= b1 && h == b1 + 11 <= |t|
    requires t[q..a] == l.ws[0] && t[a..a + 2] == "//" && t[a + 2..b] == l.ws[1] && t[b] == '#'
    requires a1 == (if l.inner then b + 2 else b + 1) && (l.inner ==> t[b + 1] == '!')
    requires t[a1] == '[' && t[a1 + 1..b1] == l.ws[2] && t[b1..h] == "include_doc"
    ensures t[q..h] == HeadStr(l)
  {
    BracketRead(t, a1, b1, h, l.ws[2]);
    var r := "[" + (l.ws[2] + "include_doc");
    HashRead(t, b, a1, h, l.inner, r);
    SlashesRead(t, q, a, b, h, l.ws[0], l.ws[1], "#" + ((if l.inner then "!" else "") + r));
  }

  /** `[ \t]*\([ \t]*"PATH"[ \t]*,[ \t]*`, read from offset `h` to `e`; `j` is the closing quote. */
  lemma PathRead(t: string, h: nat, a: nat, p: nat, j: nat, c: nat, e: nat, l: Layout)
    requires |l.ws| == 13 && h <= a < p < j < c < e <= |t|
    requires t[h..a] == l.ws[3] && t[a] == '(' && t[a + 1..p] == l.ws[4] && t[p] == '"'
    requires t[p + 1..j] == l.path && t[j] == '"' && t[j + 1..c] == l.ws[5] && t[c] == ','
    requires t[c + 1..e] == l.ws[6]
    ensures t[h..e] == PathStr(l)
  {
    CharAt(t, c, ',');
    Cat(t, c, c + 1, e, ",", l.ws[6]);
    var r1 := "," + l.ws[6];
    Cat(t, j + 1, c, e, l.ws[5], r1);
    CharAt(t, j, '"');
    Cat(t, j, j + 1, e, "\"", l.ws[5] + r1);
    var r2 := "\"" + (l.ws[5] + r1);
    Cat(t, p + 1, j, e, l.path, r2);
    CharAt(t, p, '"');
    Cat(t, p, p + 1, e, "\"", l.path + r2);
    var r3 := "\"" + (l.path + r2);
    Cat(t, a + 1, p, e, l.ws[4], r3);
    CharAt(t, a, '(');
    Cat(t, a, a + 1, e, "(", l.ws[4] + r3);
    Cat(t, h, a, e, l.ws[3], "(" + (l.ws[4] + r3));
  }

  /** `(start|end)[ \t]*`, read from offset `i` to `g`. */
  lemma ActionRead(t: string, i: nat, b: nat, g: nat, l: Layout)
    requires |l.ws| == 13 && i <= b <= g <= |t|
    requires t[i..b] == ActionName(l.action) && t[b..g] == l.ws[7]
    ensures t[i..g] == ActionStr(l)
  {
    Cat(t, i, b, g, ActionName(l.action), l.ws[7]);
  }

  /** `\([ \t]*"TEXT"[ \t]*\)[ \t]*`, read from offset `g` to `e`; `j` is the closing quote. */
  lemma TextArgRead(t: string, g: nat, a: nat, j: nat, b: nat, e: nat, l: Layout)
    requires |l.ws| == 13 && l.arg.RawText? && g < a < j < b < e <= |t|
    requires t[g] == '(' && t[g + 1..a] == l.ws[8] && t[a] == '"' && t[a + 1..j] == l.arg.text
    requires t[j] == '"' && t[j + 1..b] == l.ws[9] && t[b] == ')' && t[b + 1..e] == l.ws[10]
    ensures t[g..e] == ArgStr(l)
  {
    CharAt(t, b, ')');
    Cat(t, b, b + 1, e, ")", l.ws[10]);
    var r1 := ")" + l.ws[10];
    Cat(t, j + 1, b, e, l.ws[9], r1);
    CharAt(t, j, '"');
    Cat(t, j, j + 1, e, "\"", l.ws[9] + r1);
    var r2 := "\"" + (l.ws[9] + r1);
    Cat(t, a + 1, j, e, l.arg.text, r2);
    CharAt(t, a, '"');
    Cat(t, a, a + 1, e, "\"", l.arg.text + r2);
    var r3 := "\"" + (l.arg.text + r2);
    Cat(t, g + 1, a, e, l.ws[8], r3);
    CharAt(t, g, '(');
    Cat(t, g, g + 1, e, "(", l.ws[8] + r3);
  }

  /** `\([ \t]*(-)?DIGITS[ \t]*\)[ \t]*`, read from offset `g` to `e`; the digits run from
      `d` to `j`. */
  lemma NumberArgRead(t: string, g: nat, a: nat, d: nat, j: nat, b: nat, e: nat, l: Layout)
    requires |l.ws| == 13 && l.arg.RawNumber? && g < a <= d <= j <= b < e <= |t|
    requires d == (if l.arg.minus then a + 1 else a) && (l.arg.minus ==> t[a] == '-')
    requires t[g] == '(' && t[g + 1..a] == l.ws[8] && t[d..j] == l.arg.digits
    requires t[j..b] == l.ws[9] && t[b] == ')' && t[b + 1..e] == l.ws[10]
    ensures t[g..e] == ArgStr(l)
  {
    var sign := if l.arg.minus then "-" else "";
    CharAt(t, b, ')');
    Cat(t, b, b + 1, e, ")", l.ws[10]);
    var r1 := ")" + l.ws[10];
    Cat(t, j, b, e, l.ws[9], r1);
    Cat(t, d, j, e, l.arg.digits, l.ws[9] + r1);
    var r2 := l.arg.digits + (l.ws[9] + r1);
    if l.arg.minus {
      CharAt(t, a, '-');
      Cat(t, a, d, e, sign, r2);
    } else {
      assert t[a..e] == sign + r2;
    }
    Cat(t, g + 1, a, e, l.ws[8], sign + r2);
    CharAt(t, g, '(');
    Cat(t, g, g + 1, e, "(", l.ws[8] + (sign + r2));
  }

  /** `\)[ \t]*\][ \t]*`, read from offset `c` to `z`. */
  lemma CloseRead(t: string, c: nat, d: nat, z: nat, l: Layout)
    requires |l.ws| == 13 && c < d < z <= |t|
    requires t[c] == ')' && t[c + 1..d] == l.ws[11] && t[d] == ']' && t[d + 1..z] == l.ws[12]
    ensures t[c..z] == CloseStr(l)
  {
    CharAt(t, d, ']');
    Cat(t, d, d + 1, z, "]", l.ws[12]);
    Cat(t, c + 1, d, z, l.ws[11], "]" + l.ws[12]);
    CharAt(t, c, ')');
    Cat(t, c, c + 1, z, ")", l.ws[11] + ("]" + l.ws[12]));
  }

  /** The five pieces of a line, read from consecutive offsets, make up the line. */
  lemma LineRead(t: string, q: nat, h: nat, i: nat, g: nat, c: nat, z: nat, l: Layout)
    requires |l.ws| == 13 && q <= h <= i <= g <= c <= z <= |t|
    requires t[q..h] == HeadStr(l) && t[h..i] == PathStr(l) && t[i..g] == ActionStr(l)
    requires t[g..c] == ArgStr(l) && t[c..z] == CloseStr(l)
    ensures t[q..z] == Line(l)
  {
    Cat(t, g, c, z, ArgStr(l), CloseStr(l));
    Cat(t, i, g, z, ActionStr(l), ArgTail(l));
    Cat(t, h, i, z, PathStr(l), ActionTail(l));
    Cat(t, q, h, z, HeadStr(l), PathTail(l));
  }

  // ---------------------------------------------------------------------------
  // Where the recognizer cuts a detailed match.

  /** The offsets of the pieces of a detailed match: `a` is `//`, `b` is `#`, `a1` is `[`,
      `b1` is `include_doc`; `pa` is the path's `(`, `pp` and `pj` are its quotes, `pc` is
      the comma; `pe` is the action word, `ab` its end and `g` the argument; `ga` is the
      argument's value, `gd` and `gj` bound its text or digits, `gb` is its `)`; `c` is the
      last `)`, `d` the `]` and `z` the end of the match. */
  datatype Cuts = Cuts(
    inner: bool, path: string, action: Attr.Action, arg: Attr.RawArg,
    q: nat, a: nat, b: nat, a1: nat, b1: nat, h: nat,
    pa: nat, pp: nat, pj: nat, pc: nat, pe: nat, ab: nat, g: nat,
    ga: nat, gd: nat, gj: nat, gb: nat, c: nat, d: nat, z: nat)

  /** The characters of `t` from `x` up to `y` are blanks. */
  predicate Blank(t: string, x: nat, y: nat) {
    x <= y <= |t| && forall k {:trigger Attr.IsBlank(t[k])} :: x <= k < y ==> Attr.IsBlank(t[k])
  }

  predicate IsQuote(c: char) {
    c == '"'
  }

  /** The characters of `t` from `x` up to `y` are not double quotes. */
  predicate QuoteFree(t: string, x: nat, y: nat) {
    x <= y <= |t| && forall k {:trigger IsQuote(t[k])} :: x <= k < y ==> !IsQuote(t[k])
  }

  // `[ \t]*//[ \t]*#(!?)\[[ \t]*include_doc` from `q` to `h`.
  predicate HeadCut(t: string, q: nat, a: nat, b: nat, a1: nat, b1: nat, h: nat, inner: bool) {
    && q <= a && a + 2 <= b < a1 < a1 + 1 <= b1 && h == b1 + 11 <= |t|
    && t[a..a + 2] == "//" && t[b] == '#'
    && a1 == (if inner then b + 2 else b + 1) && (inner ==> t[b + 1] == '!')
    && t[a1] == '[' && t[b1..h] == "include_doc"
  }

  /** `[ \t]*\([ \t]*"PATH"[ \t]*,[ \t]*` from `h` to `pe`. */
  predicate PathCut(t: string, h: nat, pa: nat, pp: nat, pj: nat, pc: nat, pe: nat, path: string) {
    && h <= pa < pp < pj < pc < pe <= |t|
    && t[pa] == '(' && t[pp] == '"' && t[pj] == '"' && t[pc] == ','
    && path == t[pp + 1..pj] && QuoteFree(t, pp + 1, pj)
  }

  /** `(start|end)[ \t]*` from `pe` to `g`. */
  predicate ActionCut(t: string, pe: nat, ab: nat, g: nat, action: Attr.Action) {
    pe <= ab <= g <= |t| && t[pe..ab] == ActionName(action)
  }

  /** The optional parenthesised argument from `g` to `c`. */
  predicate ArgCut(t: string, g: nat, ga: nat, gd: nat, gj: nat, gb: nat, c: nat, arg: Attr.RawArg) {
    && g <= c <= |t|
    && match arg
       case NoRawArg => c == g
       case RawText(text) =>
         && g < ga < gj < gb < c && gd == ga + 1
         && t[g] == '(' && t[ga] == '"' && text == t[gd..gj] && QuoteFree(t, gd, gj) && t[gj] == '"'
         && t[gb] == ')'
       case RawNumber(minus, digits) =>
         && g < ga <= gd < gj <= gb < c
         && gd == (if minus then ga + 1 else ga) && (minus ==> t[ga] == '-')
         && t[g] == '(' && digits == t[gd..gj] && Decimal.AllDigits(digits) && t[gb] == ')'
  }

  /** `\)[ \t]*\][ \t]*` from `c` to `z`. */
  predicate CloseCut(t: string, c: nat, d: nat, z: nat) {
    c < d < z <= |t| && t[c] == ')' && t[d] == ']'
  }

  /** The `i`-th run of blanks of a detailed match, from its first offset to its end; the
      argument's runs are empty when it has none. */
  function Span(k: Cuts, i: int): (nat, nat) {
    if i == 0 then (k.q, k.a)
    else if i == 1 then (k.a + 2, k.b)
    else if i == 2 then (k.a1 + 1, k.b1)
    else if i == 3 then (k.h, k.pa)
    else if i == 4 then (k.pa + 1, k.pp)
    else if i == 5 then (k.pj + 1, k.pc)
    else if i == 6 then (k.pc + 1, k.pe)
    else if i == 7 then (k.ab, k.g)
    else if i == 8 then (if k.arg.NoRawArg? then (k.g, k.g) else (k.g + 1, k.ga))
    else if i == 9 then (if k.arg.NoRawArg? then (k.g, k.g) else if k.arg.RawText? then (k.gj + 1, k.gb) else (k.gj, k.gb))
    else if i == 10 then (if k.arg.NoRawArg? then (k.g, k.g) else (k.gb + 1, k.c))
    else if i == 11 then (k.c + 1, k.d)
    else (k.d + 1, k.z)
  }

  /** The runs of blanks of a detailed match. */
  predicate BlanksValid(t: string, k: Cuts) {
    forall i :: 0 <= i < 13 ==> Blank(t, Span(k, i).0, Span(k, i).1)
  }

  predicate CutsValid(t: string, k: Cuts) {
    && BlanksValid(t, k)
    && HeadCut(t, k.q, k.a, k.b, k.a1, k.b1, k.h, k.inner)
    && PathCut(t, k.h, k.pa, k.pp, k.pj, k.pc, k.pe, k.path)
    && ActionCut(t, k.pe, k.ab, k.g, k.action)
    && ArgCut(t, k.g, k.ga, k.gd, k.gj, k.gb, k.c, k.arg)
    && CloseCut(t, k.c, k.d, k.z)
  }

  /** The slice of `t` from `x` to `y`, or nothing when that is not a slice. */
  function Slice(t: string, x: nat, y: nat): (s: string)
    ensures x <= y <= |t| ==> s == t[x..y]
  {
    if x <= y <= |t| then t[x..y] else []
  }

  /** The layout of a detailed match, read off its pieces. */
  function LayoutOf(t: string, k: Cuts): (l: Layout)
    ensures |l.ws| == 13
  {
    Layout(seq(13, i => Slice(t, Span(k, i).0, Span(k, i).1)), k.inner, k.path, k.action, k.arg)
  }

  // Each piece of a detailed match is the matching piece of its layout's line.

  /** The `i`-th run of blanks of a layout read off a detailed match. */
  lemma Ws(t: string, k: Cuts, i: int, x: nat, y: nat)
    requires 0 <= i < 13 && Span(k, i) == (x, y) && x <= y <= |t|
    ensures LayoutOf(t, k).ws[i] == t[x..y]
  {
  }

  lemma HeadPiece(t: string, k: Cuts)
    requires HeadCut(t, k.q, k.a, k.b, k.a1, k.b1, k.h, k.inner)
    ensures t[k.q..k.h] == HeadStr(LayoutOf(t, k))
  {
    Ws(t, k, 0, k.q, k.a);
    Ws(t, k, 1, k.a + 2, k.b);
    Ws(t, k, 2, k.a1 + 1, k.b1);
    HeadRead(t, k.q, k.a, k.b, k.a1, k.b1, k.h, LayoutOf(t, k));
  }

  lemma PathPiece(t: string, k: Cuts)
    requires PathCut(t, k.h, k.pa, k.pp, k.pj, k.pc, k.pe, k.path)
    ensures t[k.h..k.pe] == PathStr(LayoutOf(t, k))
  {
    Ws(t, k, 3, k.h, k.pa);
    Ws(t, k, 4, k.pa + 1, k.pp);
    Ws(t, k, 5, k.pj + 1, k.pc);
    Ws(t, k, 6, k.pc + 1, k.pe);
    PathRead(t, k.h, k.pa, k.pp, k.pj, k.pc, k.pe, LayoutOf(t, k));
  }

  lemma ActionPiece(t: string, k: Cuts)
    requires ActionCut(t, k.pe, k.ab, k.g, k.action)
    ensures t[k.pe..k.g] == ActionStr(LayoutOf(t, k))
  {
    Ws(t, k, 7, k.ab, k.g);
    ActionRead(t, k.pe, k.ab, k.g, LayoutOf(t, k));
  }

  lemma TextPiece(t: string, k: Cuts)
    requires ArgCut(t, k.g, k.ga, k.gd, k.gj, k.gb, k.c, k.arg) && k.arg.RawText?
    ensures t[k.g..k.c] == ArgStr(LayoutOf(t, k))
  {
    Ws(t, k, 8, k.g + 1, k.ga);
    Ws(t, k, 9, k.gj + 1, k.gb);
    Ws(t, k, 10, k.gb + 1, k.c);
    TextArgRead(t, k.g, k.ga, k.gj, k.gb, k.c, LayoutOf(t, k));
  }

  lemma NumberPiece(t: string, k: Cuts)
    requires ArgCut(t, k.g, k.ga, k.gd, k.gj, k.gb, k.c, k.arg) && k.arg.RawNumber?
    ensures t[k.g..k.c] == ArgStr(LayoutOf(t, k))
  {
    Ws(t, k, 8, k.g + 1, k.ga);
    Ws(t, k, 9, k.gj, k.gb);
    Ws(t, k, 10, k.gb + 1, k.c);
    NumberArgRead(t, k.g, k.ga, k.gd, k.gj, k.gb, k.c, LayoutOf(t, k));
  }

  lemma ArgPiece(t: string, k: Cuts)
    requires ArgCut(t, k.g, k.ga, k.gd, k.gj, k.gb, k.c, k.arg)
    ensures t[k.g..k.c] == ArgStr(LayoutOf(t, k))
  {
    if k.arg.RawText? {
      TextPiece(t, k);
    } else if k.arg.RawNumber? {
      NumberPiece(t, k);
    }
  }

  lemma ClosePiece(t: string, k: Cuts)
    requires CloseCut(t, k.c, k.d, k.z)
    ensures t[k.c..k.z] == CloseStr(LayoutOf(t, k))
  {
    Ws(t, k, 11, k.c + 1, k.d);
    Ws(t, k, 12, k.d + 1, k.z);
    CloseRead(t, k.c, k.d, k.z, LayoutOf(t, k));
  }

  /** A blank span is a run of blanks. */
  lemma BlankRunOf(t: string, x: nat, y: nat)
    requires Blank(t, x, y)
    ensures AllBlank(Slice(t, x, y))
  {
    AllBlankIff(t[x..y]);
  }

  /** A quote-free span holds no quote. */
  lemma QuoteFreeOf(t: string, x: nat, y: nat)
    requires QuoteFree(t, x, y)
    ensures Unquoted(Slice(t, x, y))
  {
    forall i | 0 <= i < y - x
      ensures t[x..y][i] != '"'
    {
      assert !IsQuote(t[x + i]);
    }
    UnquotedIff(t[x..y]);
  }

  /** A span of blanks that is a piece of a layout is a run of blanks. */
  lemma SpanBlank(t: string, x: nat, y: nat, w: string)
    requires Blank(t, x, y) && w == Slice(t, x, y)
    ensures AllBlank(w)
  {
    BlankRunOf(t, x, y);
  }

  lemma LayoutBlanks(t: string, k: Cuts)
    requires BlanksValid(t, k)
    ensures forall i :: 0 <= i < 13 ==> AllBlank(LayoutOf(t, k).ws[i])
  {
    forall i | 0 <= i < 13
      ensures AllBlank(LayoutOf(t, k).ws[i])
    {
      SpanBlank(t, Span(k, i).0, Span(k, i).1, LayoutOf(t, k).ws[i]);
    }
  }

  lemma PathUnquoted(t: string, k: Cuts)
    requires PathCut(t, k.h, k.pa, k.pp, k.pj, k.pc, k.pe, k.path)
    ensures Unquoted(k.path)
  {
    QuoteFreeOf(t, k.pp + 1, k.pj);
  }

  lemma ArgFormed(t: string, k: Cuts)
    requires ArgCut(t, k.g, k.ga, k.gd, k.gj, k.gb, k.c, k.arg)
    ensures ArgWellFormed(k.arg)
  {
    if k.arg.RawText? {
      QuoteFreeOf(t, k.gd, k.gj);
    }
  }

  /** The layout of a detailed match is well-formed. */
  lemma LayoutWellFormed(t: string, k: Cuts)
    requires CutsValid(t, k)
    ensures WellFormed(LayoutOf(t, k))
  {
    LayoutBlanks(t, k);
    PathUnquoted(t, k);
    ArgFormed(t, k);
  }

  /** The text a detailed match covers is the line of its layout. */
  lemma LayoutRead(t: string, k: Cuts)
    requires CutsValid(t, k)
    ensures t[k.q..k.z] == Line(LayoutOf(t, k))
  {
    HeadPiece(t, k);
    PathPiece(t, k);
    ActionPiece(t, k);
    ArgPiece(t, k);
    ClosePiece(t, k);
    LineRead(t, k.q, k.h, k.pe, k.g, k.c, k.z, LayoutOf(t, k));
  }

  // ---------------------------------------------------------------------------
  // The recognizer's cuts, stage by stage.

  /** What `Blanks` skips is blank. */
  lemma {:induction false} BlanksBlank(t: string, i: nat)
    requires i <= |t|
    ensures Blank(t, i, Attr.Blanks(t, i))
    decreases |t| - i
  {
    if i < |t| && Attr.IsBlank(t[i]) {
      BlanksBlank(t, i + 1);
    }
  }

  /** `y` is where the run of blanks at `x` ends. */
  predicate Skips(t: string, x: nat, y: nat) {
    x <= |t| && y == Attr.Blanks(t, x)
  }

  lemma SkipsBlank(t: string, x: nat, y: nat)
    requires Skips(t, x, y)
    ensures Blank(t, x, y)
  {
    BlanksBlank(t, x);
  }

  // `[ \t]*//[ \t]*#` at `i`: the offsets of the slashes and the hash sign.
  lemma OpenerCut(t: string, i: nat) returns (a: nat, b: nat)
    requires i <= |t| && Attr.Opener(t, i).Some?
    ensures Blank(t, i, a) && Blank(t, a + 2, b) && i <= a && a + 2 <= b < |t|
    ensures Attr.Opener(t, i).value == b + 1 && t[a..a + 2] == "//" && t[b] == '#'
  {
    a := Attr.Blanks(t, i);
    b := Attr.Blanks(t, a + 2);
    BlanksBlank(t, i);
    BlanksBlank(t, a + 2);
  }

  // `(!?)\[[ \t]*include_doc` at `i`: the offsets of the bracket and the word.
  lemma BracketCut(t: string, i: nat) returns (a1: nat, b1: nat)
    requires i <= |t| && Attr.Bracket(t, i).Some?
    ensures var (inner, h) := Attr.Bracket(t, i).value;
      && a1 == (if inner then i + 1 else i) && Skips(t, a1 + 1, b1)
      && a1 < a1 + 1 <= b1 && h == b1 + 11 <= |t|
      && (inner ==> t[i] == '!') && t[a1] == '[' && t[b1..h] == "include_doc"
  {
    a1 := if Attr.Bracket(t, i).value.0 then i + 1 else i;
    b1 := Attr.Blanks(t, a1 + 1);
  }

  lemma HeadCuts(t: string, q: nat) returns (a: nat, b: nat, a1: nat, b1: nat)
    requires q <= |t| && Attr.Head(t, q).Some?
    ensures HeadCut(t, q, a, b, a1, b1, Attr.Head(t, q).value.1, Attr.Head(t, q).value.0)
    ensures Blank(t, q, a) && Blank(t, a + 2, b) && Blank(t, a1 + 1, b1)
  {
    a, b := OpenerCut(t, q);
    assert Attr.Head(t, q) == Attr.Bracket(t, b + 1);
    a1, b1 := BracketCut(t, b + 1);
    SkipsBlank(t, a1 + 1, b1);
  }

  lemma PathCuts(t: string, h: nat) returns (pa: nat, pp: nat, pj: nat, pc: nat)
    requires h <= |t| && Attr.PathPart(t, h).Some?
    ensures PathCut(t, h, pa, pp, pj, pc, Attr.PathPart(t, h).value.1, Attr.PathPart(t, h).value.0)
    ensures Skips(t, h, pa) && Skips(t, pa + 1, pp) && Skips(t, pj + 1, pc) && Skips(t, pc + 1, Attr.PathPart(t, h).value.1)
  {
    pa := Attr.Blanks(t, h);
    pp := Attr.Blanks(t, pa + 1);
    pj := Attr.Until(t, pp + 1, '"');
    pc := Attr.Blanks(t, pj + 1);
    UntilClear(t, pp + 1, '"');
  }

  /** The quoted argument `(  "TEXT"  )  ` from `g` to `c`. */
  lemma TextArgCuts(t: string, g: nat, ga: nat, text: string, j: nat, gb: nat, c: nat)
    requires g < |t| && t[g] == '(' && ga == Attr.Blanks(t, g + 1)
    requires Attr.Quoted(t, ga) == Some((text, j))
    requires gb == Attr.Blanks(t, j) && gb < |t| && t[gb] == ')' && c == Attr.Blanks(t, gb + 1)
    ensures ArgCut(t, g, ga, ga + 1, j - 1, gb, c, Attr.RawText(text))
    ensures Skips(t, g + 1, ga) && Skips(t, j, gb) && Skips(t, gb + 1, c)
  {
    UntilClear(t, ga + 1, '"');
  }

  /** The numeric argument `(  -DIGITS  )  ` from `g` to `c`. */
  lemma NumberArgCuts(t: string, g: nat, ga: nat, gd: nat, gj: nat, gb: nat, c: nat)
    requires g < |t| && t[g] == '(' && ga == Attr.Blanks(t, g + 1) && ga < |t|
    requires gd == (if t[ga] == '-' then ga + 1 else ga) && gd <= |t|
    requires gj == Attr.DigitRun(t, gd) && gj != gd
    requires gb == Attr.Blanks(t, gj) && gb < |t| && t[gb] == ')' && c == Attr.Blanks(t, gb + 1)
    ensures ArgCut(t, g, ga, gd, gj, gb, c, Attr.RawNumber(t[ga] == '-', t[gd..gj]))
    ensures Skips(t, g + 1, ga) && Skips(t, gj, gb) && Skips(t, gb + 1, c)
  {
    DigitRunAll(t, gd);
  }

  lemma TextArg(t: string, g: nat) returns (ga: nat, gj: nat, gb: nat)
    requires g < |t| && t[g] == '(' && Attr.ArgGroup(t, g).Some?
    requires Attr.Quoted(t, Attr.Blanks(t, g + 1)).Some?
    ensures var (arg, c) := Attr.ArgGroup(t, g).value;
      && arg.RawText? && ArgCut(t, g, ga, ga + 1, gj, gb, c, arg)
      && Skips(t, g + 1, ga) && Skips(t, gj + 1, gb) && Skips(t, gb + 1, c)
  {
    ga := Attr.Blanks(t, g + 1);
    var (text, e) := Attr.Quoted(t, ga).value;
    assert Attr.ArgValue(t, ga) == Some((Attr.RawText(text), e));
    gb := Attr.Blanks(t, e);
    var c := Attr.Blanks(t, gb + 1);
    assert Attr.ArgGroup(t, g) == Some((Attr.RawText(text), c));
    TextArgCuts(t, g, ga, text, e, gb, c);
    gj := e - 1;
  }

  lemma NumberArg(t: string, g: nat) returns (ga: nat, gd: nat, gj: nat, gb: nat)
    requires g < |t| && t[g] == '(' && Attr.ArgGroup(t, g).Some?
    requires Attr.Quoted(t, Attr.Blanks(t, g + 1)).None?
    ensures var (arg, c) := Attr.ArgGroup(t, g).value;
      && arg.RawNumber? && ArgCut(t, g, ga, gd, gj, gb, c, arg)
      && Skips(t, g + 1, ga) && Skips(t, gj, gb) && Skips(t, gb + 1, c)
  {
    ga := Attr.Blanks(t, g + 1);
    gd := if t[ga] == '-' then ga + 1 else ga;
    gj := Attr.DigitRun(t, gd);
    assert Attr.ArgValue(t, ga) == Some((Attr.RawNumber(t[ga] == '-', t[gd..gj]), gj));
    gb := Attr.Blanks(t, gj);
    var c := Attr.Blanks(t, gb + 1);
    assert Attr.ArgGroup(t, g) == Some((Attr.RawNumber(t[ga] == '-', t[gd..gj]), c));
    NumberArgCuts(t, g, ga, gd, gj, gb, c);
  }

  lemma ArgCuts(t: string, g: nat) returns (ga: nat, gd: nat, gj: nat, gb: nat)
    requires g <= |t| && Attr.ArgGroup(t, g).Some?
    ensures var (arg, c) := Attr.ArgGroup(t, g).value;
      && ArgCut(t, g, ga, gd, gj, gb, c, arg)
      && (arg.RawText? ==> Skips(t, g + 1, ga) && Skips(t, gj + 1, gb) && Skips(t, gb + 1, c))
      && (arg.RawNumber? ==> Skips(t, g + 1, ga) && Skips(t, gj, gb) && Skips(t, gb + 1, c))
  {
    if !(g < |t| && t[g] == '(') {
      ga, gd, gj, gb := g, g, g, g;
    } else if Attr.Quoted(t, Attr.Blanks(t, g + 1)).Some? {
      ga, gj, gb := TextArg(t, g);
      gd := ga + 1;
    } else {
      ga, gd, gj, gb := NumberArg(t, g);
    }
  }

  lemma CloseCuts(t: string, c: nat)
    requires c < |t| && t[c] == ')' && Attr.Close(t, Attr.Blanks(t, c + 1)).Some?
    ensures var d := Attr.Blanks(t, c + 1); var z := Attr.Close(t, d).value;
      CloseCut(t, c, d, z) && Skips(t, c + 1, d) && Skips(t, d + 1, z)
  {
  }

  lemma ActionCuts(t: string, pe: nat)
    requires pe <= |t| && Attr.ActionWord(t, pe).Some?
    ensures var (action, ab) := Attr.ActionWord(t, pe).value;
      ab <= |t| && ActionCut(t, pe, ab, Attr.Blanks(t, ab), action) && Skips(t, ab, Attr.Blanks(t, ab))
  {
  }

  // The cuts again, with `Skips` turned into `Blank`.

  lemma PathRuns(t: string, h: nat) returns (pa: nat, pp: nat, pj: nat, pc: nat)
    requires h <= |t| && Attr.PathPart(t, h).Some?
    ensures PathCut(t, h, pa, pp, pj, pc, Attr.PathPart(t, h).value.1, Attr.PathPart(t, h).value.0)
    ensures Blank(t, h, pa) && Blank(t, pa + 1, pp) && Blank(t, pj + 1, pc) && Blank(t, pc + 1, Attr.PathPart(t, h).value.1)
  {
    pa, pp, pj, pc := PathCuts(t, h);
    SkipsBlank(t, h, pa);
    SkipsBlank(t, pa + 1, pp);
    SkipsBlank(t, pj + 1, pc);
    SkipsBlank(t, pc + 1, Attr.PathPart(t, h).value.1);
  }

  lemma ActionRuns(t: string, pe: nat)
    requires pe <= |t| && Attr.ActionWord(t, pe).Some?
    ensures var (action, ab) := Attr.ActionWord(t, pe).value;
      ab <= |t| && ActionCut(t, pe, ab, Attr.Blanks(t, ab), action) && Blank(t, ab, Attr.Blanks(t, ab))
  {
    ActionCuts(t, pe);
    SkipsBlank(t, Attr.ActionWord(t, pe).value.1, Attr.Blanks(t, Attr.ActionWord(t, pe).value.1));
  }

  lemma ArgRuns(t: string, g: nat) returns (ga: nat, gd: nat, gj: nat, gb: nat)
    requires g <= |t| && Attr.ArgGroup(t, g).Some?
    ensures var (arg, c) := Attr.ArgGroup(t, g).value;
      && ArgCut(t, g, ga, gd, gj, gb, c, arg)
      && (arg.RawText? ==> Blank(t, g + 1, ga) && Blank(t, gj + 1, gb) && Blank(t, gb + 1, c))
      && (arg.RawNumber? ==> Blank(t, g + 1, ga) && Blank(t, gj, gb) && Blank(t, gb + 1, c))
  {
    ga, gd, gj, gb := ArgCuts(t, g);
    var (arg, c) := Attr.ArgGroup(t, g).value;
    if arg.RawText? {
      SkipsBlank(t, g + 1, ga);
      SkipsBlank(t, gj + 1, gb);
      SkipsBlank(t, gb + 1, c);
    } else if arg.RawNumber? {
      SkipsBlank(t, g + 1, ga);
      SkipsBlank(t, gj, gb);
      SkipsBlank(t, gb + 1, c);
    }
  }

  lemma CloseRuns(t: string, c: nat)
    requires c < |t| && t[c] == ')' && Attr.Close(t, Attr.Blanks(t, c + 1)).Some?
    ensures var d := Attr.Blanks(t, c + 1); var z := Attr.Close(t, d).value;
      CloseCut(t, c, d, z) && Blank(t, c + 1, d) && Blank(t, d + 1, z)
  {
    CloseCuts(t, c);
    var d := Attr.Blanks(t, c + 1);
    SkipsBlank(t, c + 1, d);
    SkipsBlank(t, d + 1, Attr.Close(t, d).value);
  }

  /** The runs of blanks after `include_doc` up to the argument's end. */
  predicate DetailBlanks(t: string, k: Cuts) {
    && Blank(t, k.h, k.pa) && Blank(t, k.pa + 1, k.pp) && Blank(t, k.pj + 1, k.pc) && Blank(t, k.pc + 1, k.pe)
    && Blank(t, k.ab, k.g)
    && (k.arg.RawText? ==> Blank(t, k.g + 1, k.ga) && Blank(t, k.gj + 1, k.gb) && Blank(t, k.gb + 1, k.c))
    && (k.arg.RawNumber? ==> Blank(t, k.g + 1, k.ga) && Blank(t, k.gj, k.gb) && Blank(t, k.gb + 1, k.c))
  }

  /** The thirteen runs of blanks, given one by one, make `BlanksValid`. */
  lemma SpansBlank(t: string, k: Cuts)
    requires Blank(t, k.q, k.a) && Blank(t, k.a + 2, k.b) && Blank(t, k.a1 + 1, k.b1)
    requires DetailBlanks(t, k) && k.g <= |t|
    requires Blank(t, k.c + 1, k.d) && Blank(t, k.d + 1, k.z)
    ensures BlanksValid(t, k)
  {
    forall i | 0 <= i < 13
      ensures Blank(t, Span(k, i).0, Span(k, i).1)
    {
      if i < 8 || 10 < i {
      } else if k.arg.NoRawArg? {
        assert Span(k, i) == (k.g, k.g);
      } else if k.arg.RawText? {
      } else {
      }
    }
  }

  /** The pieces of the detailed form at `h`. */
  lemma DetailedSplit(t: string, h: nat) returns (path: string, pe: nat, action: Attr.Action, ab: nat, arg: Attr.RawArg, c: nat)
    requires h <= |t| && Attr.Detailed(t, h).Some?
    ensures pe <= |t| && Attr.PathPart(t, h) == Some((path, pe))
    ensures ab <= |t| && Attr.ActionWord(t, pe) == Some((action, ab))
    ensures Attr.ArgGroup(t, Attr.Blanks(t, ab)) == Some((arg, c)) && c < |t| && t[c] == ')'
    ensures Attr.Detailed(t, h).value == (Attr.Detail(path, action, arg), Attr.Blanks(t, c + 1))
  {
    path, pe := Attr.PathPart(t, h).value.0, Attr.PathPart(t, h).value.1;
    action, ab := Attr.ActionWord(t, pe).value.0, Attr.ActionWord(t, pe).value.1;
    arg, c := Attr.ArgGroup(t, Attr.Blanks(t, ab)).value.0, Attr.ArgGroup(t, Attr.Blanks(t, ab)).value.1;
  }

  /** The pieces of a detailed match at `q`. */
  lemma MatchSplit(t: string, q: nat) returns (inner: bool, h: nat, e: nat)
    requires q <= |t| && Attr.MatchAt(t, q).Some? && Attr.MatchAt(t, q).value.detail.Some?
    ensures h <= |t| && Attr.Head(t, q) == Some((inner, h))
    ensures Attr.Detailed(t, h).Some? && Attr.Detailed(t, h).value.1 == e && e <= |t| && Attr.Close(t, e).Some?
    ensures Attr.MatchAt(t, q).value
      == Attr.Captures(Attr.Range(q, Attr.Close(t, e).value), inner, Some(Attr.Detailed(t, h).value.0))
  {
    inner, h := Attr.Head(t, q).value.0, Attr.Head(t, q).value.1;
    e := Attr.Detailed(t, h).value.1;
  }

  /** The offsets where the pieces after `include_doc` are cut; those of the head and the
      close are left as they come. */
  lemma DetailedCuts(t: string, h: nat, path: string, pe: nat, action: Attr.Action, ab: nat, arg: Attr.RawArg, c: nat)
    returns (k: Cuts)
    requires h <= |t| && pe <= |t| && Attr.PathPart(t, h) == Some((path, pe))
    requires ab <= |t| && Attr.ActionWord(t, pe) == Some((action, ab))
    requires Attr.ArgGroup(t, Attr.Blanks(t, ab)) == Some((arg, c))
    ensures k.h == h && k.g <= |t| && DetailBlanks(t, k)
    ensures k.path == path && k.action == action && k.arg == arg && k.c == c
    ensures PathCut(t, k.h, k.pa, k.pp, k.pj, k.pc, k.pe, k.path)
    ensures ActionCut(t, k.pe, k.ab, k.g, k.action)
    ensures ArgCut(t, k.g, k.ga, k.gd, k.gj, k.gb, k.c, k.arg)
  {
    var pa, pp, pj, pc := PathRuns(t, h);
    ActionRuns(t, pe);
    var g := Attr.Blanks(t, ab);
    var ga, gd, gj, gb := ArgRuns(t, g);
    k := Cuts(false, path, action, arg, 0, 0, 0, 0, 0, h, pa, pp, pj, pc, pe, ab, g, ga, gd, gj, gb, c, 0, 0);
  }

  /** A detailed match at `q` and the offsets where its pieces are cut. */
  lemma MatchCuts(t: string, q: nat) returns (k: Cuts)
    requires q <= |t| && Attr.MatchAt(t, q).Some? && Attr.MatchAt(t, q).value.detail.Some?
    ensures CutsValid(t, k) && k.q == q
    ensures Attr.MatchAt(t, q).value
      == Attr.Captures(Attr.Range(q, k.z), k.inner, Some(Attr.Detail(k.path, k.action, k.arg)))
  {
    var inner, h, e := MatchSplit(t, q);
    var a, b, a1, b1 := HeadCuts(t, q);
    var path, pe, action, ab, arg, c := DetailedSplit(t, h);
    var m := DetailedCuts(t, h, path, pe, action, ab, arg, c);
    CloseRuns(t, c);
    var z := Attr.Close(t, e).value;
    k := m.(inner := inner, q := q, a := a, b := b, a1 := a1, b1 := b1, d := e, z := z);
    SpansBlank(t, k);
  }

  /** Every detailed match is the line of a well-formed layout, and its captures are that
      layout's flag, path, action word and argument. */
  lemma MatchAtLayout(t: string, q: nat)
    requires q <= |t| && Attr.MatchAt(t, q).Some? && Attr.MatchAt(t, q).value.detail.Some?
    ensures var c := Attr.MatchAt(t, q).value;
      exists l: Layout :: && WellFormed(l)
                          && t[q..c.whole.end] == Line(l)
                          && c.inner == l.inner
                          && c.detail == Some(Attr.Detail(l.path, l.action, l.arg))
  {
    var k := MatchCuts(t, q);
    LayoutWellFormed(t, k);
    LayoutRead(t, k);
    var l := LayoutOf(t, k);
    assert WellFormed(l) && t[q..k.z] == Line(l);
  }
}

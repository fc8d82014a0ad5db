/**
 * The unit tests of src/attr.rs, stated as lemmas about `Attr.FindIter`, and a few more
 * lines of the same kinds: an inner attribute, a line number that `usize` cannot hold.
 * Each test line is written as the pieces of a layout's line, one after the other; the
 * concatenation is the test's string.
 */
module AttrExamples {
  import opened Wrappers
  import Attr
  import Decimal
  import opened AttrRender

  /** One blank after `//`, no other blanks, as most of the tests write them. */
  const Tight: seq<string> := ["", " ", "", "", "", "", "", "", "", "", "", "", ""]

  /** Two blanks everywhere, three after `//`, as the tests with spaces write them. */
  const Spaced: seq<string> := ["  ", "   ", "  ", "  ", "  ", "  ", "  ", "  ", "  ", "  ", "  ", "  ", "  "]

  /** One blank after `//` and one after the comma, as the tests of `find_iter` write them. */
  const AfterComma: seq<string> := ["", " ", "", "", "", "", " ", "", "", "", "", "", ""]

  /** The text argument of the tests. */
  const TestText := "this is text"

  /** One more than the largest `usize`, in decimal. */
  const Huge := "18446744073709551616"

  const OuterStart := Layout(Tight, false, "abc", Attr.Start, Attr.NoRawArg)
  const InnerStart := Layout(Tight, true, "abc", Attr.Start, Attr.NoRawArg)
  const OuterEnd := Layout(Tight, false, "abc", Attr.End, Attr.NoRawArg)
  const WithText := Layout(Tight, false, "abc", Attr.Start, Attr.RawText(TestText))
  const WithLine := Layout(Tight, false, "abc", Attr.Start, Attr.RawNumber(false, "10"))
  const WithLineRev := Layout(Tight, false, "abc", Attr.Start, Attr.RawNumber(true, "10"))
  const WithHugeLine := Layout(Tight, false, "abc", Attr.Start, Attr.RawNumber(false, Huge))
  const SpacedStart := Layout(Spaced, false, "abc", Attr.Start, Attr.NoRawArg)
  const SpacedText := Layout(Spaced, false, "abc", Attr.Start, Attr.RawText(TestText))

  const CommaStart := Layout(AfterComma, false, "abc", Attr.Start, Attr.NoRawArg)
  const CommaEnd := Layout(AfterComma, false, "abc", Attr.End, Attr.NoRawArg)
  const StartRow: TextRow := Good(CommaStart)
  const EndRow: TextRow := Good(CommaEnd)
  const UnknownRow: TextRow := Bad(CommaStart, "unknown")

  function Outer(path: string, action: Attr.Action, arg: Attr.ActionArg, range: Attr.Range): Result<Attr.Attr, Attr.BadAttrError> {
    Ok(Attr.Attr(range, path, Attr.Outer, action, arg))
  }

  lemma BlankRuns()
    ensures |Tight| == |Spaced| == |AfterComma| == 13
    ensures forall k :: 0 <= k < 13 ==> AllBlank(Tight[k]) && AllBlank(Spaced[k]) && AllBlank(AfterComma[k])
  {
  }

  /** A layout's line is its pieces, one after the other. */
  lemma PiecesAre(l: Layout, h: string, p: string, a: string, g: string, c: string)
    requires |l.ws| == 13
    requires HeadStr(l) == h && PathStr(l) == p && ActionStr(l) == a && ArgStr(l) == g && CloseStr(l) == c
    ensures Line(l) == h + p + a + g + c
  {
  }

  /** A line whose action word is replaced by `word` is its pieces, one after the other. */
  lemma BadPiecesAre(l: Layout, word: string, h: string, p: string, c: string)
    requires |l.ws| == 13
    requires HeadStr(l) == h && PathStr(l) == p && CloseStr(l) == c
    ensures BadLine(l, word) == h + p + word + c
  {
  }

  /** `find_iter` over the line `s` of a well-formed layout. */
  lemma Reads(l: LineLayout, s: string)
    requires Line(l) == s
    ensures Attr.FindIter(s) == [Expected(l, Attr.Range(0, |s|))]
  {
    LineReadBack(l);
  }

  /** The value of the first `n` digits of `s`, one digit at a time. */
  function DigitsValue(s: string, n: nat): int
    requires n <= |s|
  {
    if n == 0 then 0 else DigitsValue(s, n - 1) * 10 + (s[n - 1] as int - '0' as int)
  }

  lemma {:induction false} DigitsValueIsValue(s: string, n: nat)
    requires n <= |s| && Decimal.AllDigits(s)
    ensures Decimal.Value(s[..n]) == DigitsValue(s, n)
  {
    if n > 0 {
      DigitsValueIsValue(s, n - 1);
      assert s[..n][..n - 1] == s[..n - 1];
    }
  }

  lemma HugeDigits()
    ensures Decimal.AllDigits(Huge)
  {
  }

  // The value of the first digits of `Huge`, four more at each step; each step evaluates
  // only a few digits, where one lemma over all twenty would evaluate them all at once.

  lemma HugePrefix4()
    ensures DigitsValue(Huge, 4) == 1844
  {
    assert DigitsValue(Huge, 2) == 18;
  }

  lemma HugePrefix8()
    ensures DigitsValue(Huge, 8) == 18446744
  {
    HugePrefix4();
    assert DigitsValue(Huge, 6) == 184467;
  }

  lemma HugePrefix12()
    ensures DigitsValue(Huge, 12) == 184467440737
  {
    HugePrefix8();
    assert DigitsValue(Huge, 10) == 1844674407;
  }

  lemma HugePrefix16()
    ensures DigitsValue(Huge, 16) == 1844674407370955
  {
    HugePrefix12();
    assert DigitsValue(Huge, 14) == 18446744073709;
  }

  lemma HugePrefix20()
    ensures DigitsValue(Huge, 20) == 18446744073709551616
  {
    HugePrefix16();
    assert DigitsValue(Huge, 18) == 184467440737095516;
  }

  lemma HugeValue()
    ensures Decimal.AllDigits(Huge) && Decimal.Value(Huge) == Decimal.USIZE_MAX + 1
  {
    HugePrefix20();
    HugeDigits();
    DigitsValueIsValue(Huge, 20);
    assert Huge[..20] == Huge;
  }

  lemma OuterStartWellFormed()
    ensures WellFormed(OuterStart)
  {
    BlankRuns();
  }

  lemma OuterStartLine()
    ensures |OuterStart.ws| == 13 && Line(OuterStart) == "// #[include_doc" + "(\"abc\"," + "start" + "" + ")]"
  {
    PiecesAre(OuterStart, "// #[include_doc", "(\"abc\",", "start", "", ")]");
  }

  /** `attr_outer`, `attr_start` and `attr_arg_none`. */
  lemma AttrOuter()
    ensures Attr.FindIter("// #[include_doc" + "(\"abc\"," + "start" + "" + ")]")
      == [Outer("abc", Attr.Start, Attr.NoArg, Attr.Range(0, 30))]
  {
    OuterStartWellFormed();
    OuterStartLine();
    Reads(OuterStart, "// #[include_doc" + "(\"abc\"," + "start" + "" + ")]");
  }

  lemma InnerStartWellFormed()
    ensures WellFormed(InnerStart)
  {
    BlankRuns();
  }

  lemma InnerStartLine()
    ensures |InnerStart.ws| == 13 && Line(InnerStart) == "// #![include_doc" + "(\"abc\"," + "start" + "" + ")]"
  {
    PiecesAre(InnerStart, "// #![include_doc", "(\"abc\",", "start", "", ")]");
  }

  /** `attr_inner`. */
  lemma AttrInner()
    ensures Attr.FindIter("// #![include_doc" + "(\"abc\"," + "start" + "" + ")]")
      == [Ok(Attr.Attr(Attr.Range(0, 31), "abc", Attr.Inner, Attr.Start, Attr.NoArg))]
  {
    InnerStartWellFormed();
    InnerStartLine();
    Reads(InnerStart, "// #![include_doc" + "(\"abc\"," + "start" + "" + ")]");
  }

  lemma OuterEndWellFormed()
    ensures WellFormed(OuterEnd)
  {
    BlankRuns();
  }

  lemma OuterEndLine()
    ensures |OuterEnd.ws| == 13 && Line(OuterEnd) == "// #[include_doc" + "(\"abc\"," + "end" + "" + ")]"
  {
    PiecesAre(OuterEnd, "// #[include_doc", "(\"abc\",", "end", "", ")]");
  }

  /** `attr_end`. */
  lemma AttrEnd()
    ensures Attr.FindIter("// #[include_doc" + "(\"abc\"," + "end" + "" + ")]")
      == [Outer("abc", Attr.End, Attr.NoArg, Attr.Range(0, 28))]
  {
    OuterEndWellFormed();
    OuterEndLine();
    Reads(OuterEnd, "// #[include_doc" + "(\"abc\"," + "end" + "" + ")]");
  }

  lemma TestTextUnquoted()
    ensures Unquoted(TestText)
  {
    UnquotedIff(TestText);
  }

  lemma WithTextWellFormed()
    ensures WellFormed(WithText)
  {
    BlankRuns();
    TestTextUnquoted();
  }

  lemma WithTextLine()
    ensures |WithText.ws| == 13 && Line(WithText) == "// #[include_doc" + "(\"abc\"," + "start" + "(\"this is text\")" + ")]"
  {
    PiecesAre(WithText, "// #[include_doc", "(\"abc\",", "start", "(\"this is text\")", ")]");
  }

  /** `attr_arg_text`. */
  lemma AttrArgText()
    ensures Attr.FindIter("// #[include_doc" + "(\"abc\"," + "start" + "(\"this is text\")" + ")]")
      == [Outer("abc", Attr.Start, Attr.Text("this is text"), Attr.Range(0, 46))]
  {
    WithTextWellFormed();
    WithTextLine();
    Reads(WithText, "// #[include_doc" + "(\"abc\"," + "start" + "(\"this is text\")" + ")]");
  }

  lemma WithLineWellFormed()
    ensures WellFormed(WithLine)
  {
    BlankRuns();
  }

  lemma WithLineLine()
    ensures |WithLine.ws| == 13 && Line(WithLine) == "// #[include_doc" + "(\"abc\"," + "start" + "(10)" + ")]"
  {
    PiecesAre(WithLine, "// #[include_doc", "(\"abc\",", "start", "(10)", ")]");
  }

  lemma WithLineExpected(range: Attr.Range)
    ensures Expected(WithLine, range) == Outer("abc", Attr.Start, Attr.Line(10), range)
  {
    assert Decimal.Value("10") == 10;
  }

  /** `attr_arg_offset`. */
  lemma AttrArgOffset()
    ensures Attr.FindIter("// #[include_doc" + "(\"abc\"," + "start" + "(10)" + ")]")
      == [Outer("abc", Attr.Start, Attr.Line(10), Attr.Range(0, 34))]
  {
    WithLineWellFormed();
    WithLineLine();
    Reads(WithLine, "// #[include_doc" + "(\"abc\"," + "start" + "(10)" + ")]");
    WithLineExpected(Attr.Range(0, |"// #[include_doc" + "(\"abc\"," + "start" + "(10)" + ")]"|));
  }

  lemma WithLineRevWellFormed()
    ensures WellFormed(WithLineRev)
  {
    BlankRuns();
  }

  lemma WithLineRevLine()
    ensures |WithLineRev.ws| == 13 && Line(WithLineRev) == "// #[include_doc" + "(\"abc\"," + "start" + "(-10)" + ")]"
  {
    PiecesAre(WithLineRev, "// #[include_doc", "(\"abc\",", "start", "(-10)", ")]");
  }

  lemma WithLineRevExpected(range: Attr.Range)
    ensures Expected(WithLineRev, range) == Outer("abc", Attr.Start, Attr.LineRev(10), range)
  {
    assert Decimal.Value("10") == 10;
  }

  /** `attr_arg_offset_end`. */
  lemma AttrArgOffsetEnd()
    ensures Attr.FindIter("// #[include_doc" + "(\"abc\"," + "start" + "(-10)" + ")]")
      == [Outer("abc", Attr.Start, Attr.LineRev(10), Attr.Range(0, 35))]
  {
    WithLineRevWellFormed();
    WithLineRevLine();
    Reads(WithLineRev, "// #[include_doc" + "(\"abc\"," + "start" + "(-10)" + ")]");
    WithLineRevExpected(Attr.Range(0, |"// #[include_doc" + "(\"abc\"," + "start" + "(-10)" + ")]"|));
  }

  lemma WithHugeLineWellFormed()
    ensures WellFormed(WithHugeLine)
  {
    BlankRuns();
    HugeDigits();
  }

  lemma WithHugeLineLine()
    ensures |WithHugeLine.ws| == 13 && Line(WithHugeLine) == "// #[include_doc" + "(\"abc\"," + "start" + "(18446744073709551616)" + ")]"
  {
    PiecesAre(WithHugeLine, "// #[include_doc", "(\"abc\",", "start", "(18446744073709551616)", ")]");
  }

  lemma WithHugeLineExpected(range: Attr.Range)
    ensures Expected(WithHugeLine, range) == Err(Attr.BadAttrError(range))
  {
    HugeValue();
  }

  /** A line number one past the largest `usize` makes the line a `BadAttrError`. */
  lemma AttrArgOverflow()
    ensures Attr.FindIter("// #[include_doc" + "(\"abc\"," + "start" + "(18446744073709551616)" + ")]")
      == [Err(Attr.BadAttrError(Attr.Range(0, 52)))]
  {
    WithHugeLineWellFormed();
    WithHugeLineLine();
    Reads(WithHugeLine, "// #[include_doc" + "(\"abc\"," + "start" + "(18446744073709551616)" + ")]");
    WithHugeLineExpected(Attr.Range(0, |"// #[include_doc" + "(\"abc\"," + "start" + "(18446744073709551616)" + ")]"|));
  }

  lemma SpacedStartWellFormed()
    ensures WellFormed(SpacedStart)
  {
    BlankRuns();
  }

  lemma SpacedStartLine()
    ensures |SpacedStart.ws| == 13 && Line(SpacedStart) == "  //   #[  include_doc" + "  (  \"abc\"  ,  " + "start  " + "" + ")  ]  "
  {
    PiecesAre(SpacedStart, "  //   #[  include_doc", "  (  \"abc\"  ,  ", "start  ", "", ")  ]  ");
  }

  /** `attr_space_arg_none`. */
  lemma AttrSpaceArgNone()
    ensures Attr.FindIter("  //   #[  include_doc" + "  (  \"abc\"  ,  " + "start  " + "" + ")  ]  ")
      == [Outer("abc", Attr.Start, Attr.NoArg, Attr.Range(0, 50))]
  {
    SpacedStartWellFormed();
    SpacedStartLine();
    Reads(SpacedStart, "  //   #[  include_doc" + "  (  \"abc\"  ,  " + "start  " + "" + ")  ]  ");
  }

  lemma SpacedTextWellFormed()
    ensures WellFormed(SpacedText)
  {
    BlankRuns();
    TestTextUnquoted();
  }

  lemma SpacedTextArg()
    ensures |SpacedText.ws| == 13 && ArgStr(SpacedText) == "(  \"this is text\"  )  "
  {
  }

  lemma SpacedTextLine()
    ensures |SpacedText.ws| == 13 && Line(SpacedText) == "  //   #[  include_doc" + "  (  \"abc\"  ,  " + "start  " + "(  \"this is text\"  )  " + ")  ]  "
  {
    SpacedTextArg();
    PiecesAre(SpacedText, "  //   #[  include_doc", "  (  \"abc\"  ,  ", "start  ", "(  \"this is text\"  )  ", ")  ]  ");
  }

  /** `attr_space_arg_text`. */
  lemma AttrSpaceArgText()
    ensures Attr.FindIter("  //   #[  include_doc" + "  (  \"abc\"  ,  " + "start  " + "(  \"this is text\"  )  " + ")  ]  ")
      == [Outer("abc", Attr.Start, Attr.Text("this is text"), Attr.Range(0, 72))]
  {
    SpacedTextWellFormed();
    SpacedTextLine();
    Reads(SpacedText, "  //   #[  include_doc" + "  (  \"abc\"  ,  " + "start  " + "(  \"this is text\"  )  " + ")  ]  ");
  }

  lemma StartRowLine()
    ensures RowLine(StartRow) == "// #[include_doc" + "(\"abc\", " + "start" + ")]"
  {
    PiecesAre(CommaStart, "// #[include_doc", "(\"abc\", ", "start", "", ")]");
  }

  lemma EndRowLine()
    ensures RowLine(EndRow) == "// #[include_doc" + "(\"abc\", " + "end" + ")]"
  {
    PiecesAre(CommaEnd, "// #[include_doc", "(\"abc\", ", "end", "", ")]");
  }

  lemma UnknownRowLine()
    ensures RowLine(UnknownRow) == "// #[include_doc" + "(\"abc\", " + "unknown" + ")]"
  {
    BadPiecesAre(CommaStart, "unknown", "// #[include_doc", "(\"abc\", ", ")]");
  }

  /** The lines of the `find_attr` tests, with what each is to give. */
  const StartReading := Reading("// #[include_doc" + "(\"abc\", " + "start" + ")]", Outer("abc", Attr.Start, Attr.NoArg, Attr.Range(0, 0)))
  const EndReading := Reading("// #[include_doc" + "(\"abc\", " + "end" + ")]", Outer("abc", Attr.End, Attr.NoArg, Attr.Range(0, 0)))
  const UnknownReading := Reading("// #[include_doc" + "(\"abc\", " + "unknown" + ")]", Err(Attr.BadAttrError(Attr.Range(0, 0))))

  lemma StartReads()
    ensures ReadsAs(StartReading)
  {
    StartRowLine();
    RowReadsAs(StartRow, StartReading);
  }

  lemma EndReads()
    ensures ReadsAs(EndReading)
  {
    EndRowLine();
    RowReadsAs(EndRow, EndReading);
  }

  lemma UnknownReads()
    ensures ReadsAs(UnknownReading)
  {
    UnknownRowLine();
    RowReadsAs(UnknownRow, UnknownReading);
  }

  /** One line ended by a line feed, and what it gives from `p` on. */
  lemma OneLine(l: Reading, p: nat)
    requires ReadsAs(l)
    ensures AllRead([l])
    ensures Lines([l]) == l.line + "\n"
    ensures ReadResults([l], p) == [Placed(l.result, Attr.Range(p, p + |l.line|))]
  {
    assert [l][1..] == [];
    assert ReadResults([], p + |l.line| + 1) == [];
  }

  /** Two lines, each ended by a line feed, and what they give from `p` on. */
  lemma TwoLines(l1: Reading, l2: Reading, p: nat)
    requires ReadsAs(l1) && ReadsAs(l2)
    ensures AllRead([l1, l2])
    ensures Lines([l1, l2]) == l1.line + "\n" + (l2.line + "\n")
    ensures ReadResults([l1, l2], p)
      == [Placed(l1.result, Attr.Range(p, p + |l1.line|))] + [Placed(l2.result, Attr.Range(p + |l1.line| + 1, p + |l1.line| + 1 + |l2.line|))]
  {
    assert [l1, l2][1..] == [l2];
    OneLine(l2, p + |l1.line| + 1);
  }

  /** `find_attr_1`. */
  lemma FindAttr1()
    ensures Attr.FindIter("\n" + ("// #[include_doc" + "(\"abc\", " + "start" + ")]") + "\n")
      == [Outer("abc", Attr.Start, Attr.NoArg, Attr.Range(1, 32))]
  {
    StartReads();
    OneLine(StartReading, 1);
    LinesReadBack("\n", [StartReading]);
    assert "\n" + Lines([StartReading]) == "\n" + ("// #[include_doc" + "(\"abc\", " + "start" + ")]") + "\n";
  }

  /** `find_attr_2`. */
  lemma FindAttr2()
    ensures Attr.FindIter("\n" + ("// #[include_doc" + "(\"abc\", " + "start" + ")]") + "\n" + ("// #[include_doc" + "(\"abc\", " + "end" + ")]") + "\n")
      == [Outer("abc", Attr.Start, Attr.NoArg, Attr.Range(1, 32)), Outer("abc", Attr.End, Attr.NoArg, Attr.Range(33, 62))]
  {
    StartEndText();
    LinesReadBack("\n", [StartReading, EndReading]);
    TwoLines(StartReading, EndReading, 1);
  }

  lemma StartEndText()
    ensures AllRead([StartReading, EndReading])
    ensures "\n" + Lines([StartReading, EndReading]) == "\n" + ("// #[include_doc" + "(\"abc\", " + "start" + ")]") + "\n" + ("// #[include_doc" + "(\"abc\", " + "end" + ")]") + "\n"
  {
    StartReads();
    EndReads();
    TwoLines(StartReading, EndReading, 1);
  }

  /** `find_attr_error`: `unknown` is neither `start` nor `end`. */
  lemma FindAttrError()
    ensures Attr.FindIter("\n" + ("// #[include_doc" + "(\"abc\", " + "unknown" + ")]") + "\n")
      == [Err(Attr.BadAttrError(Attr.Range(1, 34)))]
  {
    UnknownReads();
    OneLine(UnknownReading, 1);
    LinesReadBack("\n", [UnknownReading]);
    assert "\n" + Lines([UnknownReading]) == "\n" + ("// #[include_doc" + "(\"abc\", " + "unknown" + ")]") + "\n";
  }

  /** `find_attr_error2`. */
  lemma FindAttrError2()
    ensures Attr.FindIter("\n" + ("// #[include_doc" + "(\"abc\", " + "unknown" + ")]") + "\n" + ("// #[include_doc" + "(\"abc\", " + "unknown" + ")]") + "\n")
      == [Err(Attr.BadAttrError(Attr.Range(1, 34))), Err(Attr.BadAttrError(Attr.Range(35, 68)))]
  {
    UnknownTwiceText();
    LinesReadBack("\n", [UnknownReading, UnknownReading]);
    TwoLines(UnknownReading, UnknownReading, 1);
  }

  lemma UnknownTwiceText()
    ensures AllRead([UnknownReading, UnknownReading])
    ensures "\n" + Lines([UnknownReading, UnknownReading]) == "\n" + ("// #[include_doc" + "(\"abc\", " + "unknown" + ")]") + "\n" + ("// #[include_doc" + "(\"abc\", " + "unknown" + ")]") + "\n"
  {
    UnknownReads();
    TwoLines(UnknownReading, UnknownReading, 1);
  }
}

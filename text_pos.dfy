/**
 * Converting a character offset in a text into a 1-based line and column
 * (`TextPos::from_str_offset`). Offsets count characters, so the model is exact
 * for ASCII text, where character and byte offsets agree.
 */
module TextPos {
  datatype Pos = Pos(line: nat, column: nat)

  /** The number of line feeds in `s`. */
  function Newlines(s: string): nat {
    if s == [] then 0 else Newlines(s[..|s| - 1]) + (if s[|s| - 1] == '\n' then 1 else 0)
  }

  /** Index of the first character of the line holding offset `k`: just after the last line feed before `k`, or 0. */
  function LineStart(s: string, k: nat): (r: nat)
    requires k <= |s|
    ensures r <= k
    ensures r > 0 ==> s[r - 1] == '\n'
    ensures forall i :: r <= i < k ==> s[i] != '\n'
  {
    if k == 0 then 0 else if s[k - 1] == '\n' then k else LineStart(s, k - 1)
  }

  /** The loop stops at the offset or at the end of the text, whichever comes first. */
  function Clamp(s: string, offset: nat): (k: nat)
    ensures k <= |s| && k <= offset
    ensures k == offset || k == |s|
  {
    if offset < |s| then offset else |s|
  }

  /**
   * The position of `offset` in `s`: one more than the number of line feeds before it,
   * and one more than the number of characters between the start of its line and it.
   */
  function Position(s: string, offset: nat): (p: Pos)
    ensures p.line >= 1 && p.column >= 1
    ensures offset == 0 ==> p == Pos(1, 1)
  {
    var k := Clamp(s, offset);
    Pos(1 + Newlines(s[..k]), 1 + k - LineStart(s, k))
  }

  /** `TextPos::from_str_offset`: walks the characters before `offset`, counting lines and columns. */
  method FromStrOffset(s: string, offset: nat) returns (p: Pos)
    ensures p == Position(s, offset)
  {
    p := Pos(1, 1);
    var index := 0;
    while index < |s|
      invariant index <= Clamp(s, offset)
      invariant p == Pos(1 + Newlines(s[..index]), 1 + index - LineStart(s, index))
    {
      if index >= offset {
        break;
      }
      assert s[..index + 1][..index] == s[..index];
      if s[index] == '\n' {
        p := p.(line := p.line + 1, column := 1);
      } else {
        p := p.(column := p.column + 1);
      }
      index := index + 1;
    }
  }

  /** Every offset at or past the end of the text has the position of the end. */
  lemma PastEnd(s: string, offset: nat)
    requires offset >= |s|
    ensures Position(s, offset) == Position(s, |s|)
  {
  }

  /** Line feeds are counted exactly: `Newlines` is the multiplicity of '\n' in the text. */
  lemma {:induction false} NewlinesCount(s: string)
    ensures Newlines(s) == multiset(s)['\n']
  {
    if s != [] {
      NewlinesCount(s[..|s| - 1]);
      assert s == s[..|s| - 1] + [s[|s| - 1]];
    }
  }

  /** Extending a prefix never removes line feeds. */
  lemma {:induction false} NewlinesMonotone(s: string, a: nat, b: nat)
    requires a <= b <= |s|
    ensures Newlines(s[..a]) <= Newlines(s[..b])
  {
    if a < b {
      NewlinesMonotone(s, a, b - 1);
      assert s[..b][..b - 1] == s[..b - 1];
    }
  }

  /** The line number never decreases as the offset grows. */
  lemma LineMonotone(s: string, a: nat, b: nat)
    requires a <= b
    ensures Position(s, a).line <= Position(s, b).line
  {
    NewlinesMonotone(s, Clamp(s, a), Clamp(s, b));
  }

  /** The column restarts at 1 right after a line feed and otherwise grows by one per character. */
  lemma ColumnStep(s: string, k: nat)
    requires k < |s|
    ensures Position(s, k + 1).column == if s[k] == '\n' then 1 else Position(s, k).column + 1
    ensures Position(s, k + 1).line == if s[k] == '\n' then Position(s, k).line + 1 else Position(s, k).line
  {
    assert s[..k + 1][..k] == s[..k];
  }

  /** The unit test of text_pos.rs: offsets 0 to 5 of "abc\ndef". */
  lemma AbcDef(s: string)
    requires s == "abc\ndef"
    ensures Position(s, 0) == Pos(1, 1)
    ensures Position(s, 1) == Pos(1, 2)
    ensures Position(s, 2) == Pos(1, 3)
    ensures Position(s, 3) == Pos(1, 4)
    ensures Position(s, 4) == Pos(2, 1)
    ensures Position(s, 5) == Pos(2, 2)
  {
    ColumnStep(s, 0);
    ColumnStep(s, 1);
    ColumnStep(s, 2);
    ColumnStep(s, 3);
    ColumnStep(s, 4);
  }
}

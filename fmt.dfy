/**
 * Diagnostic excerpts: the `--> path:line` link and the gutter-aligned source
 * listing. The coloured separator is the plain character '|'.
 */
module Fmt {
  import Decimal

  const Sep: string := "|"

  /** `fmt_link`: "--> " then the path, a colon and the line number in decimal. */
  function FmtLink(relPath: string, line: nat): (r: string)
    ensures |r| > 5 + |relPath|
    ensures r[..4] == "--> " && r[4..4 + |relPath|] == relPath && r[4 + |relPath|] == ':'
    ensures var d := r[5 + |relPath|..];
      Decimal.AllDigits(d) && Decimal.Value(d) == line && (|d| > 1 ==> d[0] != '0')
  {
    var r := "--> " + relPath + ":" + Decimal.Show(line);
    assert r[5 + |relPath|..] == Decimal.Show(line);
    r
  }

  /** The widest tag, or 0 when there are no entries (`max().unwrap_or(0)`). */
  function MaxWidth(lines: seq<(string, string)>): (w: nat)
    ensures forall i :: 0 <= i < |lines| ==> |lines[i].0| <= w
    ensures lines == [] ==> w == 0
    ensures lines != [] ==> exists i :: 0 <= i < |lines| && |lines[i].0| == w
  {
    if lines == [] then 0
    else
      var m := MaxWidth(lines[..|lines| - 1]);
      var last := |lines[|lines| - 1].0|;
      assert forall i :: 0 <= i < |lines| - 1 ==> lines[i] == lines[..|lines| - 1][i];
      if last > m then last else m
  }

  function Spaces(n: nat): (r: string)
    ensures |r| == n && forall i :: 0 <= i < n ==> r[i] == ' '
  {
    seq(n, _ => ' ')
  }

  /** One rendered entry: a space, the label right-aligned to `width` and a space (only when `width` is not 0), the separator, a space and the content. */
  function Entry(tag: string, content: string, width: nat): string
    requires |tag| <= width
  {
    " " + (if width != 0 then Spaces(width - |tag|) + tag + " " else "") + Sep + " " + content
  }

  /** The entries joined by single line feeds, with none before the first or after the last. */
  function Join(xs: seq<string>): string {
    if xs == [] then "" else if |xs| == 1 then xs[0] else Join(xs[..|xs| - 1]) + "\n" + xs[|xs| - 1]
  }

  /** The rendered entries of `lines`, all aligned to the widest tag. */
  function Entries(lines: seq<(string, string)>): (es: seq<string>)
    ensures |es| == |lines|
  {
    var w := MaxWidth(lines);
    seq(|lines|, i requires 0 <= i < |lines| => Entry(lines[i].0, lines[i].1, w))
  }

  /** What `fmt_source` produces for `lines`. */
  function Listing(lines: seq<(string, string)>): string {
    Join(Entries(lines))
  }

  /** `fmt_source`: appends each entry, padding its label with spaces up to the widest one. */
  method FmtSource(lines: seq<(string, string)>) returns (s: string)
    ensures s == Listing(lines)
  {
    var maxWidth := MaxWidth(lines);
    ghost var es := Entries(lines);
    s := "";
    for index := 0 to |lines|
      invariant s == Join(es[..index])
    {
      var (line, content) := lines[index];
      ghost var before := s;
      ghost var gutter := if maxWidth != 0 then Spaces(maxWidth - |line|) + line + " " else "";
      if index != 0 {
        s := s + "\n";
      }
      s := s + " ";
      ghost var lead := s;
      if maxWidth != 0 {
        for k := |line| to maxWidth
          invariant s == lead + Spaces(k - |line|)
        {
          assert Spaces(k + 1 - |line|) == Spaces(k - |line|) + " ";
          s := s + " ";
        }
        s := s + line;
        s := s + " ";
      }
      assert s == lead + gutter;
      s := s + Sep;
      s := s + " ";
      s := s + content;
      ListingStep(lines, index, before, gutter, s);
    }
    assert es[..|lines|] == es;
  }

  /** One turn of the loop of `FmtSource` appends the next entry to the listing of the earlier ones. */
  lemma ListingStep(lines: seq<(string, string)>, index: nat, before: string, gutter: string, s: string)
    requires index < |lines|
    requires before == Join(Entries(lines)[..index])
    requires gutter == if MaxWidth(lines) != 0 then Spaces(MaxWidth(lines) - |lines[index].0|) + lines[index].0 + " " else ""
    requires s == before + (if index == 0 then "" else "\n") + " " + gutter + Sep + " " + lines[index].1
    ensures s == Join(Entries(lines)[..index + 1])
  {
    var es := Entries(lines);
    var e := es[index];
    EntryAt(lines, index, gutter);
    var nl := if index == 0 then "" else "\n";
    Regroup(before, nl, gutter, lines[index].1);
    assert s == before + nl + e;
    PrefixSnoc(es, index);
    JoinSnoc(es[..index], e);
  }

  lemma PrefixSnoc<T>(xs: seq<T>, i: nat)
    requires i < |xs|
    ensures xs[..i + 1] == xs[..i] + [xs[i]]
    ensures i == 0 <==> xs[..i] == []
  {
  }

  lemma EntryAt(lines: seq<(string, string)>, index: nat, gutter: string)
    requires index < |lines|
    requires gutter == if MaxWidth(lines) != 0 then Spaces(MaxWidth(lines) - |lines[index].0|) + lines[index].0 + " " else ""
    ensures Entries(lines)[index] == " " + gutter + Sep + " " + lines[index].1
  {
  }

  lemma Regroup(before: string, nl: string, gutter: string, content: string)
    ensures before + nl + " " + gutter + Sep + " " + content == before + nl + (" " + gutter + Sep + " " + content)
  {
  }

  lemma JoinSnoc(xs: seq<string>, x: string)
    ensures Join(xs + [x]) == if xs == [] then x else Join(xs) + "\n" + x
  {
    assert (xs + [x])[..|xs|] == xs;
  }

  /** Offset of the `k`-th entry in the joined text: each earlier entry and its line feed come first. */
  function Offset(xs: seq<string>, k: nat): nat
    requires k <= |xs|
  {
    if k == 0 then 0 else Offset(xs, k - 1) + |xs[k - 1]| + 1
  }

  lemma {:induction false} OffsetPrefix(xs: seq<string>, n: nat, k: nat)
    requires k <= n <= |xs|
    ensures Offset(xs[..n], k) == Offset(xs, k)
  {
    if k > 0 {
      OffsetPrefix(xs, n, k - 1);
    }
  }

  lemma {:induction false} OffsetMonotone(xs: seq<string>, a: nat, b: nat)
    requires a <= b <= |xs|
    ensures Offset(xs, a) <= Offset(xs, b)
  {
    if a < b {
      OffsetMonotone(xs, a, b - 1);
    }
  }

  /** A joined text is as long as its entries plus one line feed between each two. */
  lemma {:induction false} JoinLength(xs: seq<string>)
    requires xs != []
    ensures |Join(xs)| + 1 == Offset(xs, |xs|)
  {
    var n := |xs|;
    if n > 1 {
      JoinLength(xs[..n - 1]);
      OffsetPrefix(xs, n - 1, n - 1);
    }
  }

  /**
   * Joining puts every entry verbatim at its offset, preceded by exactly one line feed
   * unless it is the first, and nothing follows the last entry.
   */
  lemma {:induction false} JoinAt(xs: seq<string>, k: nat)
    requires k < |xs|
    ensures Offset(xs, k) + |xs[k]| <= |Join(xs)|
    ensures k == |xs| - 1 ==> Offset(xs, k) + |xs[k]| == |Join(xs)|
    ensures Join(xs)[Offset(xs, k)..Offset(xs, k) + |xs[k]|] == xs[k]
    ensures k > 0 ==> Join(xs)[Offset(xs, k) - 1] == '\n'
    decreases |xs|, 1
  {
    var n := |xs|;
    JoinLength(xs);
    OffsetMonotone(xs, k + 1, n);
    if n == 1 {
      assert Join(xs) == xs[0];
    } else if k < n - 1 {
      JoinAtInit(xs, k);
    } else {
      JoinAtLast(xs);
    }
  }

  /** An entry before the last one sits in the join of all but the last, which the whole join extends. */
  lemma {:induction false} JoinAtInit(xs: seq<string>, k: nat)
    requires k < |xs| - 1 && Offset(xs, k) + |xs[k]| <= |Join(xs)|
    ensures Join(xs)[Offset(xs, k)..Offset(xs, k) + |xs[k]|] == xs[k]
    ensures k > 0 ==> Join(xs)[Offset(xs, k) - 1] == '\n'
    decreases |xs|, 0
  {
    var n := |xs|;
    var init := xs[..n - 1];
    JoinAt(init, k);
    OffsetPrefix(xs, n - 1, k);
    assert init[k] == xs[k];
    PrefixSlice(Join(xs), Join(init), "\n" + xs[n - 1], Offset(xs, k), |xs[k]|);
  }

  lemma PrefixSlice(t: string, a: string, b: string, i: nat, l: nat)
    requires t == a + b && i + l <= |a|
    ensures t[i..i + l] == a[i..i + l]
    ensures i > 0 ==> t[i - 1] == a[i - 1]
  {
  }

  /** The last entry follows the join of the others and one line feed. */
  lemma JoinAtLast(xs: seq<string>)
    requires |xs| > 1 && Offset(xs, |xs| - 1) + |xs[|xs| - 1]| == |Join(xs)|
    ensures Join(xs)[Offset(xs, |xs| - 1)..Offset(xs, |xs| - 1) + |xs[|xs| - 1]|] == xs[|xs| - 1]
    ensures Join(xs)[Offset(xs, |xs| - 1) - 1] == '\n'
  {
    var n := |xs|;
    var init := xs[..n - 1];
    JoinLength(init);
    OffsetPrefix(xs, n - 1, n - 1);
    SuffixSlice(Join(xs), Join(init) + "\n", xs[n - 1]);
  }

  lemma SuffixSlice(t: string, a: string, b: string)
    requires t == a + b && |a| > 0 && a[|a| - 1] == '\n'
    ensures t[|a|..|a| + |b|] == b && t[|a| - 1] == '\n'
  {
  }

  /** An empty list of entries renders as the empty string. */
  lemma ListingEmpty()
    ensures Listing([]) == ""
  {
  }

  /**
   * The shape of every entry of a listing: it starts with a space; the separator sits at
   * the same column in every entry (index 1 when all labels are empty, otherwise one past
   * the label gutter of width `MaxWidth`); the label is right-aligned before it; and the
   * content follows the separator and a space verbatim.
   */
  lemma EntryShape(lines: seq<(string, string)>, k: nat)
    requires k < |lines|
    ensures var w := MaxWidth(lines); var e := Entries(lines)[k];
      var tag := lines[k].0; var content := lines[k].1;
      var col := if w == 0 then 1 else w + 2;
      && |e| == col + 2 + |content|
      && e[0] == ' '
      && e[col] == '|' && e[col + 1] == ' '
      && e[col + 2..] == content
      && (w == 0 ==> e == " | " + content)
      && (w != 0 ==> e[1..1 + w - |tag|] == Spaces(w - |tag|) && e[1 + w - |tag|..1 + w] == tag && e[1 + w] == ' ')
  {
  }

  /**
   * In the whole listing, entry `k` starts at its offset with a space, the separator of
   * every entry is at the same distance from the start of its entry, and the content
   * appears verbatim after it.
   */
  lemma ListingAt(lines: seq<(string, string)>, k: nat)
    requires k < |lines|
    ensures var s := Listing(lines); var es := Entries(lines); var o := Offset(es, k);
      var w := MaxWidth(lines); var col := if w == 0 then 1 else w + 2;
      && o + |es[k]| <= |s|
      && (k > 0 ==> s[o - 1] == '\n')
      && s[o] == ' ' && s[o + col] == '|'
      && s[o + col + 2..o + |es[k]|] == lines[k].1
  {
    var w := MaxWidth(lines);
    EntryFrame(lines, k);
    JoinedEntryAt(Entries(lines), k, if w == 0 then 1 else w + 2, lines[k].1);
  }

  /** The part of `EntryShape` that locates the separator and the content. */
  lemma EntryFrame(lines: seq<(string, string)>, k: nat)
    requires k < |lines|
    ensures var w := MaxWidth(lines); var e := Entries(lines)[k]; var col := if w == 0 then 1 else w + 2;
      && |e| == col + 2 + |lines[k].1|
      && e[0] == ' ' && e[col] == '|' && e[col + 2..] == lines[k].1
  {
    EntryShape(lines, k);
  }

  /** Where an entry of the shape `EntryShape` states lands in the joined text. */
  lemma JoinedEntryAt(es: seq<string>, k: nat, col: nat, content: string)
    requires k < |es| && |es[k]| == col + 2 + |content|
    requires es[k][0] == ' ' && es[k][col] == '|' && es[k][col + 2..] == content
    ensures var s := Join(es); var o := Offset(es, k);
      && o + |es[k]| <= |s|
      && (k > 0 ==> s[o - 1] == '\n')
      && s[o] == ' ' && s[o + col] == '|'
      && s[o + col + 2..o + |es[k]|] == content
  {
    JoinAt(es, k);
    WithinSlice(Join(es), es[k], Offset(es, k), col);
  }

  lemma WithinSlice(s: string, e: string, o: nat, col: nat)
    requires o + |e| <= |s| && s[o..o + |e|] == e && col + 2 <= |e|
    ensures s[o] == e[0] && s[o + col] == e[col] && s[o + col + 2..o + |e|] == e[col + 2..]
  {
    assert s[o..o + |e|][col] == e[col];
  }
}

/**
 * The `include_doc` attribute lines of src/attr.rs: the line pattern, decoding a match
 * into an `Attr`, reporting shaped-but-malformed lines as `BadAttrError`, and the small
 * total functions on kinds and mismatches.
 *
 * The pattern is modelled as a deterministic recognizer. It reads the text from a line
 * start on and answers what the regular expression matches there: nothing, the detailed
 * form with its captures, or only the fallback form (`.*` before the closing `]`). Both
 * alternatives can match the same line; the recognizer tries the detailed form and its
 * closing `]` first and takes the fallback only when that fails, in the order the
 * engine's leftmost-first search prefers them. Within the detailed form every choice is
 * forced by the next character; the fallback form matches exactly when the rest of the
 * line, without its trailing blanks, ends with `]`, and then runs to the line end.
 */
module Attr {
  import opened Wrappers
  import Decimal
  import TextPos
  import Fmt

  datatype Kind = Inner | Outer
  datatype Action = Start | End
  datatype ActionArg = NoArg | Line(n: nat) | LineRev(n: nat) | Text(text: string)
  datatype Range = Range(start: nat, end: nat)
  datatype Attr = Attr(range: Range, path: string, kind: Kind, action: Action, arg: ActionArg)
  datatype BadAttrError = BadAttrError(range: Range)
  datatype Mismatch = KindMismatch | PathMismatch

  /** `Kind::doc_comment_prefix`: "//! " for inner and "/// " for outer doc comments. */
  function DocCommentPrefix(kind: Kind): (r: string)
    ensures |r| == 4 && r[..2] == "//" && r[3] == ' '
    ensures r[2] == '!' <==> kind == Inner
    ensures r[2] == '/' <==> kind == Outer
  {
    match kind
    case Inner => "//! "
    case Outer => "/// "
  }

  /** `Mismatch::message`. */
  function MismatchMessage(m: Mismatch): (r: string)
    ensures |r| > 10 && r[..9] == "mismatch " && r[|r| - 1] == '.'
    ensures r[9] == (if m == KindMismatch then 'a' else 'i')
  {
    match m
    case KindMismatch => "mismatch attribute kind."
    case PathMismatch => "mismatch include path."
  }

  /** `Attr::mismatch`: the kind is compared first, then the path. */
  function MismatchOf(a: Attr, b: Attr): (r: Option<Mismatch>)
    ensures r == None <==> a.kind == b.kind && a.path == b.path
    ensures r == Some(KindMismatch) <==> a.kind != b.kind
    ensures r == Some(PathMismatch) <==> a.kind == b.kind && a.path != b.path
  {
    if a.kind != b.kind then Some(KindMismatch)
    else if a.path != b.path then Some(PathMismatch)
    else None
  }

  // ---------------------------------------------------------------------------
  // Lexical pieces of the pattern. Each one reads the text `s` from offset `i` on and
  // yields the offset where its match ends.

  predicate IsBlank(c: char) {
    c == ' ' || c == '\t'
  }

  /** `[ \t]*`, greedy: the end of the run of blanks at `i`. */
  function Blanks(s: string, i: nat): (j: nat)
    requires i <= |s|
    ensures i <= j <= |s|
    ensures j < |s| ==> !IsBlank(s[j])
    ensures j > i ==> IsBlank(s[i])
    decreases |s| - i
  {
    if i < |s| && IsBlank(s[i]) then Blanks(s, i + 1) else i
  }

  /** Whether the word `w` occurs in `s` at offset `i`. */
  predicate StartsWith(s: string, i: nat, w: string)
    requires i <= |s|
  {
    i + |w| <= |s| && s[i..i + |w|] == w
  }

  /** The offset of the first `c` at or after `i`, or the end of the text: `[^"]*` for a
      quote, and the extent of `.` (which does not match a line feed) for a line feed. */
  function Until(s: string, i: nat, c: char): (j: nat)
    requires i <= |s|
    ensures i <= j <= |s|
    ensures j < |s| ==> s[j] == c
    decreases |s| - i
  {
    if i == |s| || s[i] == c then i else Until(s, i + 1, c)
  }

  /** `"([^"]*)"`: a quoted text, which may span lines; yields the text between the quotes
      and the end of the closing quote. */
  function Quoted(s: string, i: nat): (r: Option<(string, nat)>)
    requires i <= |s|
    ensures r.Some? ==> i + 2 + |r.value.0| == r.value.1 <= |s|
  {
    if i < |s| && s[i] == '"' then
      var j := Until(s, i + 1, '"');
      if j < |s| then Some((s[i + 1..j], j + 1)) else None
    else None
  }

  /** `[0-9]*`: the end of the run of ASCII digits at `i`. */
  function DigitRun(s: string, i: nat): (j: nat)
    requires i <= |s|
    ensures i <= j <= |s|
    decreases |s| - i
  {
    if i < |s| && Decimal.IsDigit(s[i]) then DigitRun(s, i + 1) else i
  }

  /** The end of `s[i..j]` once its trailing blanks are dropped. */
  function Trimmed(s: string, i: nat, j: nat): (k: nat)
    requires i <= j <= |s|
    ensures i <= k <= j
    decreases j
  {
    if j > i && IsBlank(s[j - 1]) then Trimmed(s, i, j - 1) else j
  }

  // ---------------------------------------------------------------------------
  // The pattern of src/attr.rs:61 (`RE`), piece by piece.

  /** The raw fourth to sixth captures: a quoted argument, or an optional minus and digits. */
  datatype RawArg = NoRawArg | RawText(text: string) | RawNumber(minus: bool, digits: string)

  /** The captures of the detailed form: path, action word and raw argument. */
  datatype Detail = Detail(path: string, action: Action, arg: RawArg)

  // `[ \t]*//[ \t]*#`: the comment opener and the hash sign.
  function Opener(s: string, i: nat): (r: Option<nat>)
    requires i <= |s|
    ensures r.Some? ==> i + 3 <= r.value <= |s| && s[i] != '\n'
  {
    var a := Blanks(s, i);
    if !StartsWith(s, a, "//") then None
    else
      var b := Blanks(s, a + 2);
      if b < |s| && s[b] == '#' then Some(b + 1) else None
  }

  /** `(!?)\[[ \t]*include_doc` after the hash sign: yields whether `!` was present. */
  function Bracket(s: string, i: nat): (r: Option<(bool, nat)>)
    requires i <= |s|
    ensures r.Some? ==> i <= r.value.1 <= |s|
  {
    var inner := i < |s| && s[i] == '!';
    var a := if inner then i + 1 else i;
    if !(a < |s| && s[a] == '[') then None
    else
      var b := Blanks(s, a + 1);
      if StartsWith(s, b, "include_doc") then
        Some((inner, b + 11))
      else None
  }

  /** The part of the pattern before the detailed and fallback forms part ways. */
  function Head(s: string, i: nat): (r: Option<(bool, nat)>)
    requires i <= |s|
    ensures r.Some? ==> i < r.value.1 <= |s| && s[i] != '\n'
  {
    match Opener(s, i)
    case None => None
    case Some(a) =>
      match Bracket(s, a)
      case None => None
      case Some((inner, b)) => Some((inner, b))
  }

  /** `(start|end)`. */
  function ActionWord(s: string, i: nat): (r: Option<(Action, nat)>)
    requires i <= |s|
    ensures r.Some? ==> i <= r.value.1 <= |s|
  {
    if StartsWith(s, i, "start") then
      Some((Start, i + 5))
    else if StartsWith(s, i, "end") then
      Some((End, i + 3))
    else None
  }

  /** `(?:"([^"]*)"|(-)?([0-9]+))`: the argument inside its parentheses. */
  function ArgValue(s: string, i: nat): (r: Option<(RawArg, nat)>)
    requires i <= |s|
    ensures r.Some? ==> i <= r.value.1 <= |s|
  {
    match Quoted(s, i)
    case Some((text, j)) => Some((RawText(text), j))
    case None =>
      var minus := i < |s| && s[i] == '-';
      var a := if minus then i + 1 else i;
      var b := DigitRun(s, a);
      if b == a then None else Some((RawNumber(minus, s[a..b]), b))
  }

  /** `(?:\([ \t]*ARG[ \t]*\)[ \t]*)?`: the optional parenthesised argument after the action word. */
  function ArgGroup(s: string, i: nat): (r: Option<(RawArg, nat)>)
    requires i <= |s|
    ensures r.Some? ==> i <= r.value.1 <= |s|
  {
    if !(i < |s| && s[i] == '(') then Some((NoRawArg, i))
    else
      match ArgValue(s, Blanks(s, i + 1))
      case None => None
      case Some((arg, a)) =>
        var b := Blanks(s, a);
        if b < |s| && s[b] == ')' then Some((arg, Blanks(s, b + 1))) else None
  }

  /** `[ \t]*\([ \t]*"PATH"[ \t]*,[ \t]*`: the opening parenthesis, the path and the comma. */
  function PathPart(s: string, i: nat): (r: Option<(string, nat)>)
    requires i <= |s|
    ensures r.Some? ==> i <= r.value.1 <= |s|
  {
    var a := Blanks(s, i);
    if !(a < |s| && s[a] == '(') then None
    else
      match Quoted(s, Blanks(s, a + 1))
      case None => None
      case Some((path, b)) =>
        var c := Blanks(s, b);
        if c < |s| && s[c] == ',' then Some((path, Blanks(s, c + 1))) else None
  }

  /** The detailed form after `include_doc`: the path part, the action word, blanks, the
      optional argument, a closing parenthesis and blanks. */
  function Detailed(s: string, i: nat): (r: Option<(Detail, nat)>)
    requires i <= |s|
    ensures r.Some? ==> i <= r.value.1 <= |s|
  {
    match PathPart(s, i)
    case None => None
    case Some((path, a)) =>
      match ActionWord(s, a)
      case None => None
      case Some((action, b)) =>
        match ArgGroup(s, Blanks(s, b))
        case None => None
        case Some((arg, c)) =>
          if c < |s| && s[c] == ')' then Some((Detail(path, action, arg), Blanks(s, c + 1))) else None
  }

  /** `\][ \t]*$`: a closing bracket, trailing blanks, then a line end or the end of the text. */
  function Close(s: string, i: nat): (r: Option<nat>)
    requires i <= |s|
    ensures r.Some? ==> i < r.value <= |s| && (r.value == |s| || s[r.value] == '\n')
  {
    if !(i < |s| && s[i] == ']') then None
    else
      var j := Blanks(s, i + 1);
      if j == |s| || s[j] == '\n' then Some(j) else None
  }

  /** The fallback form `.*\][ \t]*$`: the rest of the current line, with its trailing blanks
      dropped, ends with a closing bracket. The match runs to the end of the line. */
  function Fallback(s: string, i: nat): (r: Option<nat>)
    requires i <= |s|
    ensures r.Some? ==> i < r.value <= |s| && (r.value == |s| || s[r.value] == '\n')
  {
    var j := Until(s, i, '\n');
    var k := Trimmed(s, i, j);
    if k > i && s[k - 1] == ']' then Some(j) else None
  }

  /** The `^` of multi-line mode: the start of the text or just after a line feed. */
  predicate IsLineStart(t: string, q: nat)
    requires q <= |t|
  {
    q == 0 || t[q - 1] == '\n'
  }

  /** A match of the pattern as a set of captures: group 0's range, group 1 (`!`) and,
      for the detailed form, groups 2 to 6. */
  datatype Captures = Captures(whole: Range, inner: bool, detail: Option<Detail>)

  /** The match of the pattern starting at offset `q` of `t`, if there is one. The detailed
      form takes precedence, as the first alternative of the regular expression does;
      otherwise the fallback form. A match starts at a line start, covers at least one
      character and ends at a line end. */
  function MatchAt(t: string, q: nat): (r: Option<Captures>)
    requires q <= |t|
    ensures r.Some? ==> r.value.whole.start == q < r.value.whole.end <= |t|
    ensures r.Some? ==> IsLineStart(t, q) && t[q] != '\n'
    ensures r.Some? ==> r.value.whole.end == |t| || t[r.value.whole.end] == '\n'
  {
    if !IsLineStart(t, q) then None
    else
      match Head(t, q)
      case None => None
      case Some((inner, a)) =>
        var detailed := Detailed(t, a);
        if detailed.Some? && Close(t, detailed.value.1).Some? then
          Some(Captures(Range(q, Close(t, detailed.value.1).value), inner, Some(detailed.value.0)))
        else
          match Fallback(t, a)
          case None => None
          case Some(b) => Some(Captures(Range(q, b), inner, None))
  }


  /** Where a match may lie: it starts at offset `q`, at a line start, covers at least one
      character and ends at a line end. */
  predicate Fits(t: string, q: nat, c: Captures) {
    c.whole.start == q < c.whole.end <= |t| && IsLineStart(t, q) && t[q] != '\n'
    && (c.whole.end == |t| || t[c.whole.end] == '\n')
  }

  /** A table that holds, for each offset of `t`, the match starting there, if any. */
  predicate Sane(t: string, tab: seq<Option<Captures>>) {
    |tab| == |t| && forall q :: 0 <= q < |tab| && tab[q].Some? ==> Fits(t, q, tab[q].value)
  }

  /** The pattern's match at every offset of `t`. */
  function MatchTable(t: string): (tab: seq<Option<Captures>>)
    ensures Sane(t, tab)
    ensures forall q :: 0 <= q < |t| ==> tab[q] == MatchAt(t, q)
  {
    seq(|t|, q requires 0 <= q < |t| => MatchAt(t, q))
  }

  /** `captures_iter` from offset `p` on, over the table of matches: each search resumes
      where the previous match ended. */
  function ScanFrom(t: string, tab: seq<Option<Captures>>, p: nat): seq<Captures>
    requires Sane(t, tab) && p <= |t|
    decreases |t| - p
  {
    if p == |t| then []
    else
      match tab[p]
      case Some(c) => [c] + ScanFrom(t, tab, c.whole.end)
      case None => ScanFrom(t, tab, p + 1)
  }

  /** `RE.captures_iter(t)`. */
  function Matches(t: string): seq<Captures> {
    ScanFrom(t, MatchTable(t), 0)
  }

  /** Every one of `ms` is the match the table holds at its start, an offset from `p` on. */
  predicate FromTable(tab: seq<Option<Captures>>, p: nat, ms: seq<Captures>) {
    forall i :: 0 <= i < |ms| ==> p <= ms[i].whole.start < |tab| && tab[ms[i].whole.start] == Some(ms[i])
  }

  /** Each of `ms` ends strictly before the next one begins. */
  predicate Ascending(ms: seq<Captures>) {
    forall i :: 0 <= i < |ms| - 1 ==> ms[i].whole.end < ms[i + 1].whole.start
  }

  /** Some match of `ms` covers offset `q`. */
  predicate Covered(ms: seq<Captures>, q: nat) {
    exists i :: 0 <= i < |ms| && ms[i].whole.start <= q < ms[i].whole.end
  }

  /** The matches found from `p` on are, in document order, matches of the table at offsets
      from `p` on; each ends strictly before the next one begins. */
  lemma {:induction false} ScanSound(t: string, tab: seq<Option<Captures>>, p: nat)
    requires Sane(t, tab) && p <= |t|
    ensures FromTable(tab, p, ScanFrom(t, tab, p))
    ensures Ascending(ScanFrom(t, tab, p))
    decreases |t| - p
  {
    if p < |t| {
      match tab[p]
      case None =>
        ScanSound(t, tab, p + 1);
        FromTableLater(tab, p, ScanFrom(t, tab, p));
      case Some(c) =>
        ScanSound(t, tab, c.whole.end);
        ScannedCons(t, tab, p, c);
    }
  }

  /** Matches from `p + 1` on are matches from `p` on. */
  lemma FromTableLater(tab: seq<Option<Captures>>, p: nat, ms: seq<Captures>)
    requires FromTable(tab, p + 1, ms)
    ensures FromTable(tab, p, ms)
  {
  }

  /** The scan from a match at `p` is that match followed by the scan from where it ends,
      which begins after it. */
  lemma ScannedCons(t: string, tab: seq<Option<Captures>>, p: nat, c: Captures)
    requires Sane(t, tab) && p < |t| && tab[p] == Some(c)
    requires FromTable(tab, c.whole.end, ScanFrom(t, tab, c.whole.end)) && Ascending(ScanFrom(t, tab, c.whole.end))
    ensures FromTable(tab, p, ScanFrom(t, tab, p)) && Ascending(ScanFrom(t, tab, p))
  {
    assert Fits(t, p, c);
    var rest := ScanFrom(t, tab, c.whole.end);
    if rest != [] {
      var s := rest[0].whole.start;
      assert tab[s] == Some(rest[0]);
      assert Fits(t, s, rest[0]);
    }
    assert ScanFrom(t, tab, p) == [c] + rest;
  }

  /** No match is skipped: every offset from `p` on that holds a match lies inside one of the
      matches found (it is the start of one unless an earlier match already covers it). */
  lemma {:induction false} ScanComplete(t: string, tab: seq<Option<Captures>>, p: nat, q: nat)
    requires Sane(t, tab) && p <= q < |t| && tab[q].Some?
    ensures Covered(ScanFrom(t, tab, p), q)
    decreases |t| - p
  {
    var ms := ScanFrom(t, tab, p);
    match tab[p]
    case None =>
      MatchesCompleteStep(t, tab, p, q);
    case Some(c) =>
      assert ms == [c] + ScanFrom(t, tab, c.whole.end);
      if q < c.whole.end {
        assert ms[0].whole.start <= q < ms[0].whole.end;
      } else {
        if q == c.whole.end {
          assert false;
        }
        ScanComplete(t, tab, c.whole.end, q);
        var rest := ScanFrom(t, tab, c.whole.end);
        var i :| 0 <= i < |rest| && rest[i].whole.start <= q < rest[i].whole.end;
        assert ms[i + 1] == rest[i];
      }
  }

  lemma {:induction false} MatchesCompleteStep(t: string, tab: seq<Option<Captures>>, p: nat, q: nat)
    requires Sane(t, tab) && p <= q < |t| && tab[q].Some? && tab[p].None?
    ensures Covered(ScanFrom(t, tab, p), q)
    decreases |t| - p, 0
  {
    ScanComplete(t, tab, p + 1, q);
  }

  /** `RE.find(t)` from offset `p` on, over the table of matches: the range of the first match. */
  function FirstFrom(t: string, tab: seq<Option<Captures>>, p: nat): Option<Range>
    requires Sane(t, tab) && p <= |t|
    decreases |t| - p
  {
    if p == |t| then None
    else
      match tab[p]
      case Some(c) => Some(c.whole)
      case None => FirstFrom(t, tab, p + 1)
  }

  /** The first match found is the first one `captures_iter` yields. */
  lemma {:induction false} FirstFromIsFirstScanned(t: string, tab: seq<Option<Captures>>, p: nat)
    requires Sane(t, tab) && p <= |t|
    ensures FirstFrom(t, tab, p) == if ScanFrom(t, tab, p) == [] then None else Some(ScanFrom(t, tab, p)[0].whole)
    decreases |t| - p
  {
    if p < |t| && tab[p].None? {
      FirstFromIsFirstScanned(t, tab, p + 1);
    }
  }

  // ---------------------------------------------------------------------------
  // Decoding matches.

  /** `Attr::from_captures`: the fallback form has no path capture and yields nothing, and
      so does a line number that `usize` cannot hold. */
  function FromCaptures(c: Captures): (r: Option<Attr>)
    ensures r.Some? <==>
      c.detail.Some? && (c.detail.value.arg.RawNumber? ==> Decimal.ParseUsize(c.detail.value.arg.digits).Some?)
    ensures r.Some? ==>
      r.value.range == c.whole && r.value.path == c.detail.value.path &&
      r.value.action == c.detail.value.action && (r.value.kind == Inner <==> c.inner)
  {
    match c.detail
    case None => None
    case Some(d) =>
      var kind := if c.inner then Inner else Outer;
      var arg: Option<ActionArg> :=
        match d.arg
        case RawText(text) => Some(Text(text))
        case RawNumber(minus, digits) =>
          (match Decimal.ParseUsize(digits)
           case None => None
           case Some(value) => Some(if minus then LineRev(value) else Line(value)))
        case NoRawArg => Some(NoArg);
      if arg.None? then None
      else Some(Attr(c.whole, d.path, kind, d.action, arg.value))
  }

  function RangeOf(r: Result<Attr, BadAttrError>): Range {
    match r
    case Ok(a) => a.range
    case Err(e) => e.range
  }

  /** One item of `Attr::find_iter`: the decoded attribute, or a `BadAttrError` over the match. */
  function Decode(c: Captures): (r: Result<Attr, BadAttrError>)
    ensures RangeOf(r) == c.whole
    ensures r.Err? <==> FromCaptures(c).None?
  {
    match FromCaptures(c)
    case Some(a) => Ok(a)
    case None => Err(BadAttrError(c.whole))
  }

  /** `Attr::find_iter`: one result per match, each the decoding of its match. The results
      cover whole lines, from a line start to a line end, and come in document order with
      strictly increasing, disjoint ranges. */
  function FindIter(t: string): (r: seq<Result<Attr, BadAttrError>>)
    ensures |r| == |Matches(t)|
    ensures forall i :: 0 <= i < |r| ==> r[i] == Decode(Matches(t)[i])
    ensures forall i :: 0 <= i < |r| ==>
      RangeOf(r[i]).start < RangeOf(r[i]).end <= |t|
      && IsLineStart(t, RangeOf(r[i]).start)
      && (RangeOf(r[i]).end == |t| || t[RangeOf(r[i]).end] == '\n')
    ensures forall i :: 0 <= i < |r| - 1 ==> RangeOf(r[i]).end < RangeOf(r[i + 1]).start
  {
    var ms := Matches(t);
    var r := seq(|ms|, i requires 0 <= i < |ms| => Decode(ms[i]));
    MatchesOnLines(t);
    r
  }

  /** The matches of the pattern lie on whole lines, in document order, each the pattern's
      match at its start. */
  lemma MatchesOnLines(t: string)
    ensures var ms := Matches(t);
      && (forall i :: 0 <= i < |ms| ==>
            ms[i].whole.start < ms[i].whole.end <= |t|
            && IsLineStart(t, ms[i].whole.start)
            && (ms[i].whole.end == |t| || t[ms[i].whole.end] == '\n')
            && MatchAt(t, ms[i].whole.start) == Some(ms[i]))
      && (forall i :: 0 <= i < |ms| - 1 ==> ms[i].whole.end < ms[i + 1].whole.start)
  {
    var tab := MatchTable(t);
    ScanSound(t, tab, 0);
    var ms := Matches(t);
    forall i | 0 <= i < |ms|
      ensures ms[i].whole.start < ms[i].whole.end <= |t|
      ensures IsLineStart(t, ms[i].whole.start)
      ensures ms[i].whole.end == |t| || t[ms[i].whole.end] == '\n'
      ensures MatchAt(t, ms[i].whole.start) == Some(ms[i])
    {
      assert tab[ms[i].whole.start] == Some(ms[i]);
      assert Fits(t, ms[i].whole.start, ms[i]);
    }
  }

  /** Each result of `find_iter` decodes the pattern's match at the start of its range. */
  lemma FindIterAt(t: string, i: nat)
    requires i < |FindIter(t)|
    ensures MatchAt(t, RangeOf(FindIter(t)[i]).start) == Some(Matches(t)[i])
    ensures FindIter(t)[i] == Decode(MatchAt(t, RangeOf(FindIter(t)[i]).start).value)
  {
    MatchesOnLines(t);
  }

  /** Every line where the pattern matches is reported by `find_iter`, well-formed or not:
      the offset lies in the range of one of its results. */
  lemma FindIterComplete(t: string, q: nat)
    requires q < |t| && MatchAt(t, q).Some?
    ensures exists i :: 0 <= i < |FindIter(t)| && RangeOf(FindIter(t)[i]).start <= q < RangeOf(FindIter(t)[i]).end
  {
    var tab := MatchTable(t);
    ScanComplete(t, tab, 0, q);
    var ms := Matches(t);
    var i :| 0 <= i < |ms| && ms[i].whole.start <= q < ms[i].whole.end;
    assert RangeOf(FindIter(t)[i]) == ms[i].whole;
  }

  /** `Attr::find_may_bad`: the range of the first line the pattern matches, if any. */
  function FindMayBad(t: string): Option<Range> {
    FirstFrom(t, MatchTable(t), 0)
  }

  /** `find_may_bad` reports the range of the first result of `find_iter`, and nothing
      exactly when the pattern matches nowhere in the text. */
  lemma FindMayBadIsFirst(t: string)
    ensures FindMayBad(t) == if FindIter(t) == [] then None else Some(RangeOf(FindIter(t)[0]))
    ensures FindMayBad(t).None? <==> forall q :: 0 <= q < |t| ==> MatchAt(t, q).None?
  {
    var tab := MatchTable(t);
    FirstFromIsFirstScanned(t, tab, 0);
    if FindMayBad(t).None? {
      forall q | 0 <= q < |t| ensures MatchAt(t, q).None? {
        if tab[q].Some? {
          ScanComplete(t, tab, 0, q);
        }
      }
    } else {
      ScanSound(t, tab, 0);
      assert tab[Matches(t)[0].whole.start].Some?;
    }
  }

  /** `BadAttrError::message`: a header, the link to the line of the error and the offending text after the separator. */
  method BadAttrMessage(e: BadAttrError, relPath: string, input: string) returns (m: string)
    requires e.range.start <= e.range.end <= |input|
    ensures m == "invalid attribute\n" + Fmt.FmtLink(relPath, TextPos.Position(input, e.range.start).line)
      + "\n " + Fmt.Sep + " " + input[e.range.start..e.range.end]
  {
    var p := TextPos.FromStrOffset(input, e.range.start);
    m := "invalid attribute\n" + Fmt.FmtLink(relPath, p.line) + "\n " + Fmt.Sep + " " + input[e.range.start..e.range.end];
  }
}

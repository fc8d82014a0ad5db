/**
 * `apply` and `read_source` of src/main.rs: every `include_doc = "P"` ... `include_doc_end = "Q"`
 * block of a source file is rebuilt around the text of the file `P`.
 *
 * The regular expression of src/main.rs:39 that cuts the input into blocks is not modelled;
 * the input arrives already cut, as a sequence of segments whose concatenation is the text
 * (`Input`). Reading a file is the parameter `read`, which stands for `try_read_source` in
 * the directory of the file being processed.
 */
module Splice {
  import opened Wrappers

  /** A piece of the input: text outside every block, or one block the expression matched. */
  datatype Segment =
    | Text(text: string)
      /** `start` and `end` are capture groups 1 and 3 as matched: the start-marker and
          end-marker lines, with whatever white space, line feeds included, their `\s*` took
          in; `body` is everything between them; `startPath` and `endPath` are the quoted
          paths of the two marker lines (groups 2 and 4). */
    | Block(start: string, startPath: string, body: string, end: string, endPath: string)

  /** The text a segment was cut from (capture group 0 for a block). */
  function Original(s: Segment): string {
    match s
    case Text(text) => text
    case Block(start, _, body, end, _) => start + body + end
  }

  /** The text the segments were cut from. */
  function Input(segs: seq<Segment>): string {
    if segs == [] then "" else Original(segs[0]) + Input(segs[1..])
  }

  /** The marker text put before the included text. */
  const Opening: string := "\n/**\n"

  /** The marker text put after the included text. */
  const Closing: string := "\n*/\n"

  /** The prefix `read_source` puts before the message of a failed read. */
  const ErrorPrefix: string := "ERROR : "

  /** `read_source`: the text of the file, or the error message after "ERROR : " when it cannot be read. */
  function ReadSource(read: string -> Result<string, string>, path: string): (s: string)
    ensures read(path).Ok? ==> s == read(path).value
    ensures read(path).Err? ==> |s| >= |ErrorPrefix| && s[..|ErrorPrefix|] == ErrorPrefix && s[|ErrorPrefix|..] == read(path).error
  {
    match read(path)
    case Ok(value) => value
    case Err(e) => ErrorPrefix + e
  }

  /** What the replacement closure of `apply` returns for a segment; text is kept as it is. */
  function Replacement(s: Segment, read: string -> Result<string, string>): string {
    match s
    case Text(text) => text
    case Block(start, startPath, body, end, endPath) =>
      if startPath != endPath then Original(s)
      else start + Opening + ReadSource(read, startPath) + Closing + end
  }

  /** The text `replace_all` builds: each segment replaced, in order. */
  function Spliced(segs: seq<Segment>, read: string -> Result<string, string>): string {
    if segs == [] then "" else Replacement(segs[0], read) + Spliced(segs[1..], read)
  }

  /** The expression matched at least once. */
  predicate HasBlock(segs: seq<Segment>) {
    exists i :: 0 <= i < |segs| && segs[i].Block?
  }

  /** The replacement closure: builds the rebuilt block by appending its parts to `r`. */
  method ReplaceBlock(s: Segment, read: string -> Result<string, string>) returns (r: string)
    requires s.Block?
    ensures r == Replacement(s, read)
  {
    if s.startPath != s.endPath {
      return s.start + s.body + s.end;
    }
    r := "";
    r := r + s.start;
    r := r + Opening;
    r := r + ReadSource(read, s.startPath);
    r := r + Closing;
    r := r + s.end;
  }

  /** `apply`: the spliced text when at least one block matched, `None` otherwise. */
  method Apply(segs: seq<Segment>, read: string -> Result<string, string>) returns (r: Option<string>)
    ensures r.Some? <==> HasBlock(segs)
    ensures r.Some? ==> r.value == Spliced(segs, read)
  {
    var out := "";
    var replaced := false;
    for i := 0 to |segs|
      invariant out == Spliced(segs[..i], read)
      invariant replaced <==> HasBlock(segs[..i])
    {
      var piece;
      match segs[i] {
        case Text(text) =>
          piece := text;
        case Block(_, _, _, _, _) =>
          piece := ReplaceBlock(segs[i], read);
          replaced := true;
      }
      SplicedAppend(segs[..i], [segs[i]], read);
      assert segs[..i + 1] == segs[..i] + [segs[i]];
      assert [segs[i]][1..] == [];
      out := out + piece;
    }
    assert segs[..|segs|] == segs;
    if replaced {
      return Some(out);
    }
    return None;
  }

  lemma Assoc(x: string, y: string, z: string)
    ensures x + (y + z) == x + y + z
  {
  }

  /** Splicing works segment by segment. */
  lemma {:induction false} SplicedAppend(a: seq<Segment>, b: seq<Segment>, read: string -> Result<string, string>)
    ensures Spliced(a + b, read) == Spliced(a, read) + Spliced(b, read)
    decreases |a|
  {
    if a != [] {
      assert (a + b)[0] == a[0] && (a + b)[1..] == a[1..] + b;
      SplicedAppend(a[1..], b, read);
      Assoc(Replacement(a[0], read), Spliced(a[1..], read), Spliced(b, read));
    } else {
      assert a + b == b;
    }
  }

  lemma {:induction false} InputAppend(a: seq<Segment>, b: seq<Segment>)
    ensures Input(a + b) == Input(a) + Input(b)
    decreases |a|
  {
    if a != [] {
      assert (a + b)[0] == a[0] && (a + b)[1..] == a[1..] + b;
      InputAppend(a[1..], b);
      Assoc(Original(a[0]), Input(a[1..]), Input(b));
    } else {
      assert a + b == b;
    }
  }

  /** The output around segment `i` is the output of the segments before it, its replacement
      and the output of the segments after it; in particular text outside every block is
      copied unchanged and in place. */
  lemma SplicedAt(segs: seq<Segment>, i: nat, read: string -> Result<string, string>)
    requires i < |segs|
    ensures Spliced(segs, read) == Spliced(segs[..i], read) + (Replacement(segs[i], read) + Spliced(segs[i + 1..], read))
    ensures segs[i].Text? ==> Spliced(segs, read) == Spliced(segs[..i], read) + (segs[i].text + Spliced(segs[i + 1..], read))
  {
    var rest := segs[i..];
    assert segs == segs[..i] + rest;
    SplicedAppend(segs[..i], rest, read);
    assert rest[1..] == segs[i + 1..];
  }

  /** Only blocks with equal paths change; every other segment is replaced by its own text. */
  predicate Rebuilt(s: Segment) {
    s.Block? && s.startPath == s.endPath
  }

  /** Without a rebuilt block the output is the input: with no block at all (when `apply`
      answers `None`), or when every block names two different paths (when `apply` still
      answers `Some`, with the input unchanged). */
  lemma {:induction false} UnchangedWithoutRebuilt(segs: seq<Segment>, read: string -> Result<string, string>)
    requires forall i :: 0 <= i < |segs| ==> !Rebuilt(segs[i])
    ensures Spliced(segs, read) == Input(segs)
    decreases |segs|
  {
    if segs != [] {
      assert forall i :: 0 <= i < |segs| - 1 ==> segs[1..][i] == segs[i + 1];
      UnchangedWithoutRebuilt(segs[1..], read);
    }
  }

  /** A rebuilt block keeps its marker lines, and between them holds exactly the opening
      marker, what `read_source` gives for the start path and the closing marker. */
  lemma RebuiltShape(s: Segment, read: string -> Result<string, string>)
    requires Rebuilt(s)
    ensures var r := Replacement(s, read);
      var content := ReadSource(read, s.startPath);
      && |r| == |s.start| + |Opening| + |content| + |Closing| + |s.end|
      && r[..|s.start|] == s.start
      && r[|s.start|..|s.start| + |Opening|] == Opening
      && r[|s.start| + |Opening|..|r| - |Closing| - |s.end|] == content
      && r[|r| - |Closing| - |s.end|..|r| - |s.end|] == Closing
      && r[|r| - |s.end|..] == s.end
  {
  }

  /** The blocks of the output: each rebuilt block with its new body, every other segment as it was. */
  function Refreshed(segs: seq<Segment>, read: string -> Result<string, string>): (out: seq<Segment>)
    ensures |out| == |segs|
  {
    if segs == [] then [] else [Refresh(segs[0], read)] + Refreshed(segs[1..], read)
  }

  /** A rebuilt block with the body the first run wrote; every other segment as it was. */
  function Refresh(s: Segment, read: string -> Result<string, string>): Segment {
    if Rebuilt(s) then s.(body := Opening + ReadSource(read, s.startPath) + Closing) else s
  }

  /** The text of a refreshed segment is the replacement of the segment. */
  lemma RefreshOriginal(s: Segment, read: string -> Result<string, string>)
    ensures Original(Refresh(s, read)) == Replacement(s, read)
  {
    if Rebuilt(s) {
      var c := ReadSource(read, s.startPath);
      calc {
        Original(Refresh(s, read));
        s.start + (Opening + c + Closing) + s.end;
        { Assoc(s.start, Opening + c, Closing); Assoc(s.start, Opening, c); }
        s.start + Opening + c + Closing + s.end;
      }
    }
  }

  /** Running `apply` again over its own output, cut into the same blocks, gives the same
      text: the new bodies are what the first run wrote, and the replacement of a block
      does not depend on its body. The second run cuts the output into these blocks only
      when no included text holds an end-marker line of its own; cutting is not part of
      this model. */
  lemma {:induction false} SpliceIdempotent(segs: seq<Segment>, read: string -> Result<string, string>)
    ensures Input(Refreshed(segs, read)) == Spliced(segs, read)
    ensures Spliced(Refreshed(segs, read), read) == Spliced(segs, read)
  {
    RefreshedInput(segs, read);
    RefreshedSpliced(segs, read);
  }

  /** The output is the text of the refreshed segments. */
  lemma {:induction false} RefreshedInput(segs: seq<Segment>, read: string -> Result<string, string>)
    ensures Input(Refreshed(segs, read)) == Spliced(segs, read)
    decreases |segs|
  {
    if segs != [] {
      RefreshedInput(segs[1..], read);
      RefreshOriginal(segs[0], read);
      assert Refreshed(segs, read)[0] == Refresh(segs[0], read);
      assert Refreshed(segs, read)[1..] == Refreshed(segs[1..], read);
    }
  }

  /** Splicing the refreshed segments gives the same text as splicing the original ones. */
  lemma {:induction false} RefreshedSpliced(segs: seq<Segment>, read: string -> Result<string, string>)
    ensures Spliced(Refreshed(segs, read), read) == Spliced(segs, read)
    decreases |segs|
  {
    if segs != [] {
      RefreshedSpliced(segs[1..], read);
      assert Refreshed(segs, read)[1..] == Refreshed(segs[1..], read);
    }
  }

  /** The output has a block exactly where the input has one, so the second run answers `Some` too. */
  lemma {:induction false} RefreshedBlocks(segs: seq<Segment>, read: string -> Result<string, string>)
    ensures forall i :: 0 <= i < |segs| ==> (Refreshed(segs, read)[i].Block? <==> segs[i].Block?)
    ensures HasBlock(Refreshed(segs, read)) <==> HasBlock(segs)
  {
    RefreshedAt(segs, read);
    var out := Refreshed(segs, read);
    if HasBlock(segs) {
      var i :| 0 <= i < |segs| && segs[i].Block?;
      assert out[i].Block?;
    }
    if HasBlock(out) {
      var i :| 0 <= i < |out| && out[i].Block?;
      assert segs[i].Block?;
    }
  }

  lemma {:induction false} RefreshedAt(segs: seq<Segment>, read: string -> Result<string, string>)
    ensures forall i :: 0 <= i < |segs| ==> (Refreshed(segs, read)[i].Block? <==> segs[i].Block?)
    decreases |segs|
  {
    if segs != [] {
      RefreshedAt(segs[1..], read);
      var out := Refreshed(segs, read);
      assert out[1..] == Refreshed(segs[1..], read);
      forall i | 1 <= i < |segs|
        ensures out[i].Block? <==> segs[i].Block?
      {
        assert out[i] == out[1..][i - 1];
        assert segs[i] == segs[1..][i - 1];
      }
    }
  }
}

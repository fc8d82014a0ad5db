# rustdoc-include, modelled in Dafny

rustdoc-include rewrites Rust source files. Each block between
`// #[include_doc = "P"]` and `// #[include_doc_end = "P"]` is rebuilt around the text
of the file `P`. Around that sit:

- the recognizer of the newer `// #[include_doc("P", start|end(ARG))]` attribute lines;
- the conversion of offsets to line and column;
- the small formatter for diagnostic excerpts.

This project models these pieces in Dafny and proves what they promise.

| module | file | models |
|---|---|---|
| `Decimal` | decimal.dfy | `{}` for `usize` (shortest decimal) and `str::parse::<usize>` (64-bit; an optional leading '+', then ASCII digits accumulated one by one; fails on an empty string, a lone '+', a non-digit or overflow) |
| `TextPos` | text_pos.dfy | `TextPos::from_str_offset`: a loop proved against `Position`, the line and column stated as counts |
| `Fmt` | fmt.dfy | `fmt_link`, and `fmt_source` as a loop proved against `Listing`, with the layout of every entry proved about `Listing` |
| `Attr` | attr.dfy | see below |
| `AttrRender` | attr_render.dfy | attribute lines written out from their parts, and what `find_iter` reports for them |
| `AttrParse` | attr_parse.dfy | the converse: every detailed match is such a line, read back into its parts |
| `AttrExamples` | attr_examples.dfy | the unit tests of src/attr.rs as lemmas about `Attr.FindIter` |
| `Splice` | splice.dfy | `apply` (its replacement closure, the accumulation and the `Some`/`None` decision) and `read_source` |

`Attr` models these parts of src/attr.rs:

- the attribute pattern, as a deterministic recognizer;
- `from_captures`, `find_iter` and `find_may_bad`;
- `mismatch`, `Mismatch::message` and `doc_comment_prefix`;
- `BadAttrError::message`.

The pattern of src/attr.rs:61 is a recognizer that answers, at each line start, one of three things:

- nothing;
- the detailed form with its captures;
- the fallback form `.*]`, which matches any other line shaped like `// #[include_doc ... ]`.

Both forms can match the same line. The recognizer tries the detailed form and its closing `]` first, and takes the fallback form only when that fails. That is the order in which the leftmost-first search of the `regex` crate prefers the two alternatives. Within the detailed form, the next character decides every choice. The fallback form matches exactly when the rest of the line, without its trailing blanks, ends with `]`, and the match then runs to the line end.

`captures_iter` is a scan over a table of the matches at every offset, and the scan resumes at the end of each match. `find_iter` decodes each match. A match that `from_captures` rejects becomes a `BadAttrError` over the whole match. That covers the fallback form and a line number that `usize` cannot hold.

`AttrRender` builds attribute lines from a `Layout`: the thirteen runs of blanks, `!` or not, the path, the action word and the raw argument. It proves three things:

- `find_iter` reads every such line back as exactly the attribute it describes, over the whole line, whatever the blanks are;
- a line of the same shape with an unknown action word comes back as a `BadAttrError` over the whole line;
- over several lines, `find_iter` reports one result per line, in order.

`AttrParse` proves the converse. The recognizer's offsets cut every detailed match into the pieces of a well-formed `Layout`, and the matched text is that layout's line. So the detailed matches are exactly the lines `AttrRender` writes.

`Splice` takes the input already cut into segments: plain text, or a block matched by the expression of src/main.rs:39. The concatenation of the segments is the input. Reading a file is the function parameter `read`, which stands for `try_read_source`.

As in src/main.rs:38-60, a block with two different paths is reproduced verbatim. The included text is put between `"\n/**\n"` and `"\n*/\n"`. A failed read becomes the text `"ERROR : "` followed by the message.

## Model

| member | source | states |
|---|---|---|
| Decimal.Show | src/fmt.rs:7 | the decimal text of a number is all digits, denotes the number, and has no leading zero |
| Decimal.ParseUsize | src/attr.rs:82 | after dropping one optional leading '+', parsing succeeds exactly when the rest is a non-empty run of ASCII digits whose value is at most 2^64-1, and then yields that value; on all-digit input that is: non-empty and at most 2^64-1 |
| Decimal.Unsigned | src/attr.rs:82 | the digits to parse are a suffix of the input, and differ from it exactly when the input starts with '+' |
| Decimal.AccumulateValue | src/attr.rs:82 | the digit-by-digit loop (times ten plus the digit, failing on a non-digit or once the value passes 2^64-1) gives the value of all the digits exactly when every character is a digit and the value fits |
| Decimal.ShowParseRoundTrip | src/attr.rs:82 | every `usize` value printed in decimal parses back to itself |
| TextPos.Position | src/text_pos.rs:10-24 | line and column are at least 1, and offset 0 is 1:1 |
| TextPos.FromStrOffset | src/text_pos.rs:10-24 | the loop's result is `Position`: 1 + the line feeds before the (clamped) offset, and 1 + the characters since the last line feed before it |
| TextPos.PastEnd | src/text_pos.rs:12-15 | every offset at or beyond the end gives the position of the end |
| TextPos.NewlinesCount | src/text_pos.rs:16-18 | the line count is exactly the multiplicity of '\n' in the prefix |
| TextPos.LineMonotone | src/text_pos.rs:11-22 | the line never decreases as the offset grows |
| TextPos.ColumnStep | src/text_pos.rs:16-21 | one character further, a line feed increments the line and resets the column to 1; any other character increments the column |
| TextPos.AbcDef | src/text_pos.rs:27-42 | offsets 0..5 of "abc\ndef" give 1:1, 1:2, 1:3, 1:4, 2:1, 2:2 |
| Fmt.FmtLink | src/fmt.rs:6-8 | the link is "--> ", the path, ':' and the shortest decimal text of the line |
| Fmt.MaxWidth | src/fmt.rs:14 | the width bounds every label, is attained by one, and is 0 for no entries |
| Fmt.FmtSource | src/fmt.rs:9-34 | the pushes of the loop, with the inner padding loop, build exactly `Listing` (the entries joined by line feeds) |
| Fmt.ListingEmpty | src/fmt.rs:15-33 | no entries give the empty string |
| Fmt.JoinAt | src/fmt.rs:17-20 | each entry appears verbatim at its offset, preceded by exactly one line feed unless it is the first, and nothing follows the last |
| Fmt.EntryShape | src/fmt.rs:21-31 | an entry starts with a space; with all labels empty it is a space, the separator, a space and the content; otherwise the label is right-aligned in a field of width `MaxWidth`, then one space, so the separator is at column `MaxWidth + 2` in every entry; the content follows the separator and a space verbatim |
| Fmt.ListingAt | src/fmt.rs:17-32 | in the whole listing, entry k starts with a space after a line feed (unless first), has its separator at the common column, and its content verbatim after it |
| Attr.DocCommentPrefix | src/attr.rs:24-29 | the prefix is four characters "//", then '!' exactly for inner and '/' exactly for outer, then a space |
| Attr.MismatchMessage | src/attr.rs:50-57 | both messages start with "mismatch " and end with '.', and they differ (kind vs include path) |
| Attr.MismatchOf | src/attr.rs:99-107 | no mismatch iff kind and path agree; a kind mismatch iff the kinds differ (also when the paths differ); a path mismatch iff only the paths differ |
| Attr.MatchAt | src/attr.rs:61 | a match starts at a line start on a character other than a line feed, and ends at a line end or at the end of the text |
| Attr.ScanSound | src/attr.rs:113 | every match the scan reports is the pattern's match at its start, and they come in document order with disjoint ranges |
| Attr.ScanComplete | src/attr.rs:113 | every offset where the pattern matches lies inside some reported match |
| Attr.FirstFromIsFirstScanned | src/attr.rs:117-119 | the first match found is the first match the scan reports |
| Attr.FromCaptures | src/attr.rs:67-98 | an `Attr` comes back iff the detailed form matched and any line number fits a `usize`; it then has the match's range, the path, the action word, and kind Inner iff `!` was present |
| Attr.Decode | src/attr.rs:112-115 | each item covers the match's range, and it is an error iff `from_captures` fails |
| Attr.FindIter | src/attr.rs:112-116 | one item per match, each the decoding of its match; every item spans a line start to a line end, and the items come in document order with a gap between each two |
| Attr.MatchesOnLines | src/attr.rs:113 | every match `captures_iter` reports spans a line start to a line end, is the pattern's match at its start, and lies before the next one |
| Attr.FindIterAt | src/attr.rs:112-116 | item i of `find_iter` is the decoding of the pattern's match at the start of its own range |
| Attr.FindIterComplete | src/attr.rs:112-116 | no matching line is skipped: every offset where the pattern matches lies in the range of some item |
| Attr.FindMayBadIsFirst | src/attr.rs:117-119 | `find_may_bad` is the range of the first item of `find_iter`, and `None` exactly when the pattern matches nowhere |
| Attr.BadAttrMessage | src/attr.rs:142-152 | the message is the header, the link with the line of the error's start, and the offending text after the separator |
| AttrRender.MatchAtOn | src/attr.rs:61 | a well-formed attribute line at a line start, ended by a line end, is one match over the whole line with its layout's captures |
| AttrParse.MatchAtLayout | src/attr.rs:61 | conversely, every detailed match is the line of a well-formed layout, and its captures are that layout's `!`, path, action word and argument |
| AttrParse.MatchCuts | src/attr.rs:61 | a detailed match cuts at offsets where each piece of the pattern sits: the runs of blanks, the literal characters, the path between its quotes without a quote, the action word and the argument |
| AttrParse.LayoutWellFormed | src/attr.rs:61 | the pieces cut from a detailed match make a well-formed layout: thirteen runs of blanks, a quote-free path, and a quote-free text or a non-empty run of digits |
| AttrParse.LayoutRead | src/attr.rs:61 | the text a detailed match covers is the line of the layout cut from it |
| AttrRender.DecodeExpected | src/attr.rs:67-98 | decoding a layout's captures gives its attribute: Inner iff `!`, its path and action, and a `Text`, `Line`, `LineRev` or no argument; a line number beyond `usize` gives a `BadAttrError` |
| AttrRender.BadMatchAt | src/attr.rs:61 | a line of the attribute's shape whose action word is neither `start` nor `end` is matched by the fallback form over the whole line, without a path capture |
| AttrRender.NoMatchAtLineFeed | src/attr.rs:61 | no match starts at a line feed |
| AttrRender.LineReadBack | src/attr.rs:112-116 | `find_iter` over a well-formed attribute line gives exactly its attribute, over the whole line |
| AttrRender.BlanksIgnored | src/attr.rs:61 | two lines that differ only in their blanks decode to the same attribute, each over its own whole line |
| AttrRender.RowMatchAt | src/attr.rs:112-115 | a well-formed or bad row is one match over the row, and it decodes to the row's attribute or to a `BadAttrError` over the row |
| AttrRender.ScanLines | src/attr.rs:113-115 | over lines that each read as given, the scan reports one result per line, in order, each over its own line |
| AttrRender.RowReads | src/attr.rs:113-115 | wherever it is written, a row at a line start and ended by a line feed reads as its layout says |
| AttrRender.LinesReadBack | src/attr.rs:112-116 | `find_iter` over blank lines, then lines that each read as given, reports exactly one result per line, in document order, each over its own line |
| AttrExamples.AttrOuter | src/attr.rs:174-183 | `attr_outer` (also `attr_start` at src/attr.rs:194-203 and `attr_arg_none` at 215-224): Outer, "abc", Start, no argument, over the whole line |
| AttrExamples.AttrInner | src/attr.rs:184-193 | `attr_inner`: `#!` gives Inner |
| AttrExamples.AttrEnd | src/attr.rs:204-214 | `attr_end`: the action word `end` gives End |
| AttrExamples.AttrArgText | src/attr.rs:225-234 | `attr_arg_text`: a quoted argument gives `Text` without the quotes |
| AttrExamples.AttrArgOffset | src/attr.rs:235-244 | `attr_arg_offset`: digits give `Line(10)` |
| AttrExamples.AttrArgOffsetEnd | src/attr.rs:245-255 | `attr_arg_offset_end`: a minus and digits give `LineRev(10)` |
| AttrExamples.AttrArgOverflow | src/attr.rs:79-90 | a line number of 2^64 makes the line a `BadAttrError` over the whole line |
| AttrExamples.AttrSpaceArgNone | src/attr.rs:256-265 | `attr_space_arg_none`: blanks around every token leave the attribute unchanged, and the range covers the leading and trailing blanks |
| AttrExamples.AttrSpaceArgText | src/attr.rs:266-275 | `attr_space_arg_text`: the same with a quoted argument |
| AttrExamples.FindAttr1 | src/attr.rs:282-297 | `find_attr_1`: one attribute, at 1..32 |
| AttrExamples.FindAttr2 | src/attr.rs:298-323 | `find_attr_2`: a start at 1..32 and then an end at 33..62 |
| AttrExamples.FindAttrError | src/attr.rs:324-332 | `find_attr_error`: an unknown action word gives a `BadAttrError` at 1..34 |
| AttrExamples.FindAttrError2 | src/attr.rs:333-345 | `find_attr_error2`: two bad lines give two `BadAttrError`s, at 1..34 and 35..68, not one |
| Splice.ReadSource | src/main.rs:61-66 | a successful read gives the file's text; a failed one gives "ERROR : " followed by the error message |
| Splice.ReplaceBlock | src/main.rs:40-54 | the appends of the closure build the replacement of the block: verbatim when the paths differ |
| Splice.RebuiltShape | src/main.rs:47-53 | a block with equal paths becomes its start line, "\n/**\n", what `read_source` gives, "\n*/\n" and its end line, each at its place |
| Splice.Apply | src/main.rs:38-60 | `Some` exactly when at least one block matched (even if the result equals the input), and then the text with every segment replaced, in order |
| Splice.SplicedAt | src/main.rs:40 | the output around a segment is the output before it, its replacement, and the output after it; text outside blocks is copied unchanged and in place |
| Splice.UnchangedWithoutRebuilt | src/main.rs:43-46 | with no block of equal paths the output equals the input |
| Splice.SpliceIdempotent | src/main.rs:38-60 | the output cut into the same blocks has the refreshed bodies, and running `apply` on it again gives the same text |
| Splice.RefreshedBlocks | src/main.rs:55-59 | the output has a block exactly where the input had one, so a second run answers `Some` too |

## Left out

- The `regex` crate and the `Lazy` cache of src/attr.rs:59-64. Matching is the hand-written recognizer described above. That it agrees with the engine is argued, not proved.
- Segmentation by the expression of src/main.rs:39. Which end marker a start marker pairs with (the nearest one, through the lazy `.*?`) is not modelled. The segments arrive already cut.
- `try_read_source` (src/main.rs:67-71), `main`, the command line, `println!`/`eprintln!` (including the warning at src/main.rs:44), and writing files. Reading is the parameter `read`.
- Terminal colours: the separator is the plain character '|'.
- `Path::display` and `Path::join`: paths are plain strings.
- `Attr::message` and `Attr::line` (src/attr.rs:121-130). They call `to_line`, which is not part of this model.
- `Attr::range` and `BadAttrError::range`: they only return a field, and the model reads the field.
- Offsets count characters, while Rust's `char_indices` and match ranges count bytes. The model is exact for ASCII text.
- `usize` is taken to be 64 bits wide.
- AttrRender.BadMatchAt: states the bad-attribute outcome only for lines whose action word is unknown. Other malformed lines of the attribute's shape, such as a missing comma or an unquoted path, go through the same `MatchAt` code but have no lemma of their own.
- Attr.MatchAt: its own contract states only where a match may lie. What it matches is stated by AttrRender.MatchAtOn and AttrParse.MatchAtLayout (the detailed matches are exactly the well-formed lines, both directions), AttrRender.BadMatchAt and AttrRender.NoMatchAtLineFeed. Which lines the fallback form takes is stated only for an unknown action word.
- Splice.SpliceIdempotent: proves that a second run gives the same text only for the output cut into the refreshed blocks. A second run cuts it that way unless an included text holds an end-marker line (`// #[include_doc_end = "..."]`), which would pair with the start marker first; cutting is not part of this model.

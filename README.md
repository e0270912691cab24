# ztd core: chunk data format, option processor, colour codes

A Dafny model of three parts of the ztd C++ library, with proofs about them.

- **The chunk data format engine** (`src/filedat.cpp`, `include/filedat.hpp`).
  A text such as `{ name = "x"; list = [ a, b ] }` parses into a tree of
  chunks: none, string, map or list. The engine covers:
  - the quote-aware comment stripper;
  - the value segmenter `_getstrval`;
  - the key/value splitter;
  - the recursive parser `chunkdat::set`;
  - deep copy;
  - the map and list mutators (add, concatenate, merge, erase);
  - the accessors;
  - the serializer `strval`;
  - the `filedat` document that ties a file path, its text and its tree together.
- **The command-line option processor** `option_set::process` (`src/options.cpp`).
  Its lookups and its typed errors are modelled with it.
- **The ANSI colour-code tables and lookups** (`src/color.cpp`).

Each procedure that loops or updates state in the source is a Dafny `method`, and its loops are kept. Objects whose fields change are classes: `chunkdat`, `filedat`, `option_set` and `color`. Every method is proved equal to a specification function, and lemmas then state and prove what those functions guarantee. The specification functions follow the source's branches one by one, with two deliberate exceptions. First, the duplicate-key error of the map loop is modelled with the offset the code evidently intends, the start of the repeated key. The source adds the start of the value to that offset a second time. `Parser.InsertAsWritten` models the step as written, and "## Findings" shows the difference. Second, the colour lookup by name (`Colors.GetColorCode`, `Colors.Color.Named`, `Colors.Color.SetColorNamed`) searches the intended name table, whose 19th name is "b_cyan". As written, a missing comma joins it with the next name into "b_cyanbold" (src/color.cpp:23-25), so `color("b_cyan")` gives `COLOR_RESET` there; `Colors.NamedLookupAsWritten` and `Colors.BoldCyanAsWritten` state what the table as written does.

Files and modules:

| file | module | contents |
|---|---|---|
| chunk.dfy | Chunks | chunk tree, `format_error`, `isRead`, the key order of `std::map` |
| text.dfy | Text | `repeatString`, `escape`, `std::string::find`, the line/column part of `printErrorIndex` |
| comments.dfy | Comments | `removeComments` |
| segment.dfy | Segments, SegmentFacts | `_skip`, `_getstrval` and their properties |
| parse.dfy | Parser | `_getkeyval`, `chunkdat::set(string, offset, parent)` |
| parse_facts.dfy | ParserFacts | properties of the parser |
| parse_examples.dfy | ParserExamples | worked inputs, the duplicate-key offset |
| render.dfy | Render | `chunkdat::strval` |
| mutate.dfy | Mutation | the mutators and accessors as functions on trees |
| mutate_facts.dfy | MutationFacts | their properties (kind tables, exactness, inverses) |
| document.dfy | Documents | classes `ChunkDat` and `FileDat`, deep copy, the operator wrappers |
| options.dfy | Options | options, `option_error`, class `OptionSet` and `process` |
| options_facts.dfy | OptionFacts | properties of `process` |
| color.dfy | Colors | the colour tables, lookups, class `Color` |

Modelling conventions:

- A `std::string` is a `seq<char>`.
- Reading `str[str.size()]` yields the terminating NUL; `Chunks.At` models this.
- A thrown `format_error` is the `Err` case of `Result`.
- An operation that can throw after changing its object returns an `Outcome`. It is either `Done(tree)` or `Failed(error, tree)`, and the tree is what the object holds once the exception has left.
- Map keys are visited in the order `std::map` uses: lexicographic by character code, with a proper prefix first (`Chunks.StrLt`, `Chunks.SortedKeys`).
- The `uint32_t` nesting counter of list groups is modelled explicitly, modulo 2^32 (`Segments.U32`).

Behaviour worth knowing, as the code has it:

- List elements are separated by `,` or `;` (src/filedat.cpp:594). A newline does not separate them.
- `merge(A, A, false)` fails as soon as `A` holds a string entry (src/filedat.cpp:779-785), so merge has no "A merged with itself is A" law; `MutationFacts.MergeSelfFails`.
- `set(chunkdat)` is the structural deep copy of src/filedat.cpp:623-659, not the re-parse of `strval()` declared inline at include/filedat.hpp:146.
- Errors of `_getkeyval` are rethrown unchanged (src/filedat.cpp:455-459, 478-481). The offset of an error in the value part is therefore relative to the text after the `=`, and the map loop adds only the start of the entry.
- A key whose `=` is followed by blanks only is given the empty string, and no error is raised. So `{ a = 1 ; b = }` parses to `a` = "1" and `b` = "" (src/filedat.cpp:423-433, 465-468, 551-554); `ParserExamples.EmptyValueKept`. Only a key with nothing at all after its `=` (`b=` at the end of the text) has no value, because `delim_found` needs a character after the delimiter; `ParserExamples.BareKeyReported`.

## Model

| member | source | states |
|---|---|---|
| Chunks.KindOf | include/filedat.hpp:36 | a chunk has exactly one of the four kinds none, string, map, list, each kind exactly for its own constructor |
| Chunks.ReadCharacters | src/filedat.cpp:6-9 | blanks, NUL and DEL are not printable; `!` and `~` are; every printable byte lies in 33..126 |
| Chunks.IsRead | src/filedat.cpp:6-9 | specification of `isRead`: the printable characters 33..126; `Chunks.ReadCharacters` |
| Chunks.At | src/filedat.cpp:397-421 | inside the string, the character at the index (past the end the body gives NUL, as `std::string` does at `size()`) |
| Chunks.StrLtIrreflexive | src/filedat.cpp:873 | the key order of `std::map` is irreflexive |
| Chunks.StrLtTransitive | src/filedat.cpp:873 | the key order is transitive |
| Chunks.StrLtTotal | src/filedat.cpp:873 | any two distinct keys are ordered one way or the other |
| Chunks.StrLtAsymmetric | src/filedat.cpp:873 | the key order is asymmetric |
| Chunks.Least | src/filedat.cpp:873 | the least key of a non-empty key set is in the set and below every other key |
| Chunks.SortedKeys | src/filedat.cpp:873 | the iteration order of the map holds exactly the keys of the map |
| Chunks.SortedKeysSorted | src/filedat.cpp:873 | iteration visits each key once, in strictly ascending order |
| Chunks.SortedDistinct | src/filedat.cpp:873 | a strictly ascending key sequence has no key twice |
| Text.Find | src/filedat.cpp:21 | `find(c, from)` is npos (-1) exactly when no `c` is at or after `from`; otherwise it is the first such index |
| Text.Repeat | src/filedat.cpp:11-17 | specification of `repeatString`: `n` copies of the text; `Text.RepeatAdd`, `Text.RepeatLength`, `Text.RepeatChars` |
| Text.RepeatString | src/filedat.cpp:11-17 | the loop appends `n` copies of the text |
| Text.RepeatAdd | src/filedat.cpp:11-17 | `a + b` copies are `a` copies followed by `b` copies |
| Text.RepeatLength | src/filedat.cpp:11-17 | `n` copies are `n` times as long as the text |
| Text.RepeatChars | src/filedat.cpp:11-17 | every character of a repetition comes from the repeated text |
| Text.Escaped | src/filedat.cpp:19-29 | specification of `escape`: a backslash before every `c`; `Text.EscapeRoundTrip`, `Text.EscapedLength`, `Text.Escape` |
| Text.EscapedAppend | src/filedat.cpp:19-29 | escaping distributes over concatenation |
| Text.EscapedWithout | src/filedat.cpp:19-29 | text without `c` is left unchanged |
| Text.EscapedLength | src/filedat.cpp:19-29 | escaping adds exactly one character per occurrence of `c` |
| Text.EscapeRoundTrip | src/filedat.cpp:19-29 | dropping the backslash before each `c` gives the original text back |
| Text.FindAfter | src/filedat.cpp:19-29 | a search that starts inside the second part of a text finds what a search of that part finds, shifted |
| Text.EscapeUpTo | src/filedat.cpp:19-29 | escaping a prefix that ends at the next `c` adds one backslash before that `c` |
| Text.EscapeStep | src/filedat.cpp:22-27 | each round inserts the backslash before the next unescaped `c` and resumes the search two past it, strictly further on |
| Text.EscapeFinish | src/filedat.cpp:22-28 | once no `c` remains in the unprocessed rest, the text is the escaped input |
| Text.Escape | src/filedat.cpp:19-29 | `escape(s, c)` terminates and returns `s` with a backslash before every `c`, every other character kept in order |
| Text.NatToString | src/filedat.cpp:826 | `std::to_string` of a natural number is a non-empty string of decimal digits |
| Text.NatToStringValue | src/filedat.cpp:826 | the digits `std::to_string` writes stand for the number itself (`Text.DecimalValue`) and have no leading zero, so the `erase` and `subChunkRef` messages show the index and the size |
| Text.DigitCharValue | src/filedat.cpp:826 | each decimal digit character stands for its own value |
| Text.CStrLen | src/filedat.cpp:35 | `strlen` is the index of the first NUL, or the length when there is none |
| Text.ErrorPosition | src/filedat.cpp:31-51 | for a non-negative index: `line` is one plus the number of newlines before the start of the index's line; `j` is that start, just after a newline or at the text's start; `i` is the newline or end of text that ends the line. A negative index gives line 1 and a line span of 0..0 |
| Comments.QuoteEnd | src/filedat.cpp:85-90 | the end of a quoted stretch is at or after its start, and is either the end of the text or the closing quote |
| Comments.SkipQuote | src/filedat.cpp:85-90 | the inner quote loop stops where `QuoteEnd` says, skipping escaped quotes |
| Comments.RemoveComments | src/filedat.cpp:71-121 | the loop that erases comments in place computes `Strip`: the stripped text, or the unclosed-quote error |
| Comments.ScanShift | src/filedat.cpp:71-121 | the scan never looks back: scanning behind an already scanned prefix is scanning the rest and putting the prefix in front |
| Comments.ScanPlain | src/filedat.cpp:74-120 | the scan passes over characters that are no backslash, quote or comment start without changing anything |
| Comments.PlainUnchanged | src/filedat.cpp:71-121 | text without backslashes, quotes and comments comes back unchanged |
| Comments.PlainPrefix | src/filedat.cpp:71-121 | the scan passes over a plain prefix unchanged |
| Comments.ScanComment | src/filedat.cpp:111-117 | at `#` or `//` the text up to the next newline is erased and the scan resumes after the newline, or the text ends there |
| Comments.CommentErased | src/filedat.cpp:111-117 | after a plain prefix (no backslash, quote or comment start), a comment is erased up to the newline that ends it, which is kept |
| Comments.LineComment | src/filedat.cpp:111-117 | after a plain prefix, a comment started by `#` or `//` is erased up to, not including, the end of its line, and the next line is stripped as usual |
| Comments.FinalComment | src/filedat.cpp:111-117 | after a plain prefix, a comment on the last line is erased to the end of the text |
| Comments.QuotedKept | src/filedat.cpp:81-110 | after a plain prefix, a quoted stretch without backslashes is kept whole, comment characters included, and so is the character that follows it |
| Comments.UnclosedQuoteReported | src/filedat.cpp:91-92 | after a plain prefix, a quote that never closes throws "Double quote doesn't close" or "Single quote doesn't close" at the opening quote, quoting the text |
| Comments.ScanOutcome | src/filedat.cpp:71-121 | the scan never lengthens the text, and any error it throws has no origin and points at a `"` or `'` whose message names that quote |
| Comments.StripOutcome | src/filedat.cpp:71-121 | `removeComments` never lengthens the text and throws only the unclosed-quote errors, at a quote character |
| Comments.Scan | src/filedat.cpp:71-121 | specification of the comment loop from a position: the text with the comments from there on erased, or the unclosed-quote error; `Comments.ScanShift`, `Comments.ScanComment`, `Comments.ScanOutcome` |
| Comments.Strip | src/filedat.cpp:71-121 | specification of `removeComments`, the scan from the start; `Comments.StripOutcome`, `Comments.PlainUnchanged`, `Comments.LineComment` |
| Segments.FirstRead | src/filedat.cpp:236-247 | the first printable character at or after `i`, or the end of the text |
| Segments.FirstReadSkips | src/filedat.cpp:236-247 | everything before that position is blank |
| Segments.Skip | src/filedat.cpp:236-257 | `_skip` returns the index of the first printable character (the length if none) and the text from there on |
| Segments.QuoteText | src/filedat.cpp:276-305 | the copied quote content is never longer than the quoted stretch |
| Segments.GroupEnd | src/filedat.cpp:306-396 | a brace or bracket group that closes ends at its closing character |
| Segments.BlankRunEnd | src/filedat.cpp:401-402 | the blank run ends at the first printable character or delimiter, and contains neither |
| Segments.TrimEnd | src/filedat.cpp:431-432 | trimming removes exactly the trailing non-printable characters: a prefix of the value that ends in a printable character (or is empty) |
| Segments.ReadQuote | src/filedat.cpp:276-305 | the quote loop ends at the closing quote or the end of text, copying the content without the escaping backslashes |
| Segments.CopyQuote | src/filedat.cpp:318-328 | the quote loop inside a group copies the quoted stretch verbatim, backslashes included |
| Segments.GroupStep | src/filedat.cpp:311-345 | one round of a group loop throws the quote error exactly where the group's specification does; otherwise it copies characters verbatim and leaves the group's end unchanged |
| Segments.CopyGroup | src/filedat.cpp:306-396 | the brace and bracket loops copy the group verbatim up to its closing character, or throw "Brace does not close" or a quote error |
| Segments.ReadBlanks | src/filedat.cpp:401-402 | the blank loop stops at the end of the blank run and copies exactly that run |
| Segments.Round | src/filedat.cpp:306-421 | one round of the main loop either ends it with the loop's result or goes on strictly further with the same result |
| Segments.ScanLoop | src/filedat.cpp:274-422 | the main loop of `_getstrval` computes `ScanValue` |
| Segments.GetStrVal | src/filedat.cpp:261-436 | `_getstrval` computes `Segment`: value, rest, start of rest, start of value and whether a delimiter was found |
| Segments.ScanValue | src/filedat.cpp:274-422 | specification of a round of the main loop of `_getstrval`: a quoted stretch is copied without its quotes, and an unclosed quote throws; `SegmentFacts.ScanValueStops` |
| Segments.Dispatch | src/filedat.cpp:306-421 | specification of what the character at the position does to the value: a group is copied whole, blanks are kept only before a printable character, a delimiter ends the value; `SegmentFacts.DispatchStops` |
| Segments.Segment | src/filedat.cpp:261-436 | specification of `_getstrval`; `SegmentFacts.SegmentShape`, `SegmentFacts.SegmentSize` |
| SegmentFacts.GroupEndError | src/filedat.cpp:306-396 | every error of a group loop quotes the text and points at an unclosed quote or at the opening brace or bracket |
| SegmentFacts.ScanValueStops | src/filedat.cpp:274-422 | the main loop stops at or after its start and at most one past the end, advances past a printable character, and keeps no more characters than it passes over. Inside the text it stops just after a delimiter, or, with no delimiter given, at a non-printable character. Its errors quote the text at an unclosed quote or group |
| SegmentFacts.DispatchStops | src/filedat.cpp:306-421 | the same for each branch of a round |
| SegmentFacts.SegmentSize | src/filedat.cpp:423-435 | value and rest are together never longer than the input; a non-empty rest means a delimiter was found |
| SegmentFacts.SegmentShape | src/filedat.cpp:261-436 | a blank text has no value. Otherwise the value starts at the first printable character. `delim_found` holds exactly when text is left, and the rest is the input after the delimiter. With no delimiter found, the value has no trailing blanks. Errors quote the input at an unclosed quote or group |
| Parser.KeyVal | src/filedat.cpp:439-492 | the value of a key/value pair is never longer than the text, and a non-empty rest is shorter than it |
| Parser.SetOutcome | src/filedat.cpp:494-621 | specification of `set(string)`: a blank value is the empty string, `{` and `[` open a map or list group, anything else is kept verbatim; its properties are `ParserFacts.SetOutcomeError`, `ParserFacts.ParsedKinds`, `ParserFacts.BlankIsEmptyString` and `RoundTrip.RenderParse` |
| Parser.Group | src/filedat.cpp:514-586 | specification of the map and list branches: "Unexpected char" after the group, otherwise its body between the first and last character; `ParserFacts.GroupError`, `ParserFacts.GroupKinds` |
| Parser.Body | src/filedat.cpp:527-584 | specification of a group body: blank is the empty map or list, otherwise the map or list loop; `ParserFacts.BodyError` |
| Parser.Entries | src/filedat.cpp:531-569 | specification of the do-while loop over map entries; `ParserFacts.EntriesError`, `ParserFacts.EntriesKeep`, `RoundTrip.EntriesFrom` |
| Parser.Insert | src/filedat.cpp:551-566 | specification of the insertion step, with the corrected duplicate-key offset; `ParserFacts.InsertKeeps`, `ParserFacts.DuplicateKeyRejected` |
| Parser.Items | src/filedat.cpp:588-613 | specification of the do-while loop over list elements; `ParserFacts.ItemsError`, `ParserFacts.ItemsKeep`, `RoundTrip.ItemsFromParse` |
| Parser.EntryRound | src/filedat.cpp:531-569 | one round of the map loop: when it goes on, it goes on with a strictly shorter rest |
| Parser.InsertAsWritten | src/filedat.cpp:553-566 | the insertion step as written: its errors quote the whole text and have no origin, and when it succeeds it agrees with the corrected step |
| Parser.GetKeyVal | src/filedat.cpp:439-492 | `_getkeyval` computes `KeyVal`: a `;` key starts a new value, a missing key or a missing `=` throws, otherwise key, value, rest and their offsets |
| Parser.ParseText | src/filedat.cpp:494-621 | `set(string)` computes `SetOutcome`: the tree, or the error together with what was built |
| Parser.ParseGroup | src/filedat.cpp:514-530 | the map and list branches: "Unexpected char" after the group, otherwise the body between the first and last character |
| Parser.ParseBody | src/filedat.cpp:527-529 | a blank body is the empty map or list, anything else is read entry by entry |
| Parser.ParseEntries | src/filedat.cpp:531-569 | the do-while loop over the entries of a map computes `Entries` |
| Parser.ParseEntry | src/filedat.cpp:533-568 | one round of that loop computes `EntryRound` |
| Parser.InsertEntry | src/filedat.cpp:551-566 | the insertion step computes `Insert` |
| Parser.ParseItems | src/filedat.cpp:588-613 | the do-while loop over the elements of a list computes `Items` |
| ParserFacts.KeyValShape | src/filedat.cpp:439-492 | every error of `_getkeyval` has an empty origin, and a non-empty key starts at the first printable character |
| ParserFacts.SetOutcomeError | src/filedat.cpp:494-621 | every error `set` throws quotes the whole text it was given and has an empty origin |
| ParserFacts.GroupError | src/filedat.cpp:514-614 | the same for a map or list group |
| ParserFacts.BodyError | src/filedat.cpp:527-614 | the same for a map or list body |
| ParserFacts.EntriesError | src/filedat.cpp:531-569 | the same for the map loop |
| ParserFacts.RoundError | src/filedat.cpp:533-568 | the same for one round of the map loop |
| ParserFacts.ItemsError | src/filedat.cpp:588-613 | the same for the list loop |
| ParserFacts.InsertKeeps | src/filedat.cpp:551-566 | an insertion keeps every entry and adds at most one, under a non-empty key that was absent |
| ParserFacts.EntriesKeep | src/filedat.cpp:531-569 | the map loop leaves a map that keeps every entry it started from, whether it finishes or throws, and never inserts an empty key |
| ParserFacts.RoundKeep | src/filedat.cpp:533-568 | the same for one round |
| ParserFacts.ItemsKeep | src/filedat.cpp:588-613 | the list loop only appends: the elements it started from stay a prefix of what it leaves |
| ParserFacts.DuplicateKeyRejected | src/filedat.cpp:556-561 | in the corrected insertion step, a key already present throws "Key '<k>' already present" at the start of the key, and the map is left as it was. The source's handler adds the start of the value once more (see "## Findings") |
| ParserFacts.BlankIsEmptyString | src/filedat.cpp:504-510 | a blank text parses to the empty string chunk |
| ParserFacts.GroupKinds | src/filedat.cpp:514-614 | a map group yields a map without an empty key, a list group a list |
| ParserFacts.ParsedKinds | src/filedat.cpp:494-621 | a successful parse never yields none. A string chunk holds either nothing or the whole text verbatim, and a map never has an empty key |
| ParserExamples.PlainChar | src/filedat.cpp:412-435 | a lone printable character is a whole value with nothing left |
| ParserExamples.CharValue | src/filedat.cpp:615-620 | and parses to a string holding it |
| ParserExamples.CharBefore | src/filedat.cpp:412-429 | a one-character value ends at the delimiter after it; the rest is the text after the delimiter |
| ParserExamples.LastPair | src/filedat.cpp:439-492 | `k=v` is key `k`, value `v`, no rest |
| ParserExamples.PairBefore | src/filedat.cpp:439-492 | `k=v;rest` is key `k`, value `v` and the rest after the `;` |
| ParserExamples.BracedValue | src/filedat.cpp:306-350 | `{b}` or `[b]` with a plain body is one value with nothing left after it |
| ParserExamples.BracedScan | src/filedat.cpp:306-396 | the scan of such a value reads it whole |
| ParserExamples.BlankPlain | src/filedat.cpp:236-257 | a blank body holds no quote, brace or bracket |
| ParserExamples.EmptyMap | src/filedat.cpp:514-529 | `{}` with only blanks inside is the empty map |
| ParserExamples.EmptyList | src/filedat.cpp:571-586 | `[]` with only blanks inside is the empty list |
| ParserExamples.EntryStep | src/filedat.cpp:531-569 | a round over `k=v;rest` inserts `k` and goes on four characters further |
| ParserExamples.LastEntryDuplicate | src/filedat.cpp:553-566 | a repeated last key `k=v` at offset `i` is reported at `i` by the map loop, and at `i + i` by the insertion step as written |
| ParserExamples.DuplicateGroup | src/filedat.cpp:514-531 | `{k=a;k=b}` is read as a map body starting at offset 1 |
| ParserExamples.DuplicateEntries | src/filedat.cpp:531-569 | the corrected map loop over `k=a;k=b` fails at offset 5 with the first entry inserted; the insertion step as written reports the same error at offset 10 |
| ParserExamples.DuplicateOffsetAsWritten | src/filedat.cpp:553-566 | as written, `{k=a;k=b}` reports the repeated key at offset 10, past the end of the nine-character text, while the key is at offset 5 |
| ParserExamples.DuplicateOffsetCorrected | src/filedat.cpp:494-621 | corrected, `{k=a;k=b}` fails at offset 5, where the repeated key is, and the map keeps the first entry |
| ParserExamples.EmptyValueKept | src/filedat.cpp:423-433 | `{ a = 1 ; b = }` parses without error to the map with `a` = "1" and `b` = "" |
| ParserExamples.SpacedGroup | src/filedat.cpp:514-531 | `{ a = 1 ; b = }` is read as a map body starting at offset 1 |
| ParserExamples.SpacedFirst | src/filedat.cpp:533-566 | its first round reads the pair `a = 1` and goes on at offset 9 |
| ParserExamples.SpacedLast | src/filedat.cpp:533-568 | its second round reads `b =` with a blank value, inserts the empty string and ends the loop |
| ParserExamples.BareKeyReported | src/filedat.cpp:467-468 | `b=` with nothing after the `=` throws "Key 'b' has no value" at offset 1 |
| ParserExamples.BareKeySegment | src/filedat.cpp:423-433 | the key segment of `b=` is `b`, with no delimiter found, since nothing follows the `=` |
| ParserExamples.KeyThenBlank | src/filedat.cpp:397-433 | a blank, a one-character word, a blank and a delimiter: the segment is the word, and the rest starts after the delimiter |
| Render.Delimited | src/filedat.cpp:869-925 | a map or list renders between its braces or brackets, and a non-empty one starts a new line after the opening one |
| Render.StringChild | src/filedat.cpp:884-887 | a string child is double-quoted, and removing the escaping backslashes from between the quotes gives the string back |
| Render.EraseLastComma | src/filedat.cpp:905-921 | erasing the comma of the last element turns the comma-terminated lines into the list's lines |
| Render.LeastUnique | src/filedat.cpp:873 | the key that `std::map` visits first is unique |
| Render.SortedStep | src/filedat.cpp:873 | visiting the least remaining key keeps the keys in sorted order |
| Render.StrVal | src/filedat.cpp:863-928 | `strval` computes `Render`. A string is its text and none is empty. An empty map is `{}` and an empty list `[]`. Otherwise each child is on its own line, indented by the aligner repeated `alignment + 1` times |
| Render.ChildText | src/filedat.cpp:882-891 | a string child is double-quoted with its double quotes escaped; any other child is rendered one level deeper |
| Render.KeysInOrder | src/filedat.cpp:873 | the loop yields the keys of the map in the order `std::map` visits them |
| Render.MapText | src/filedat.cpp:869-896 | map entries are `key = child` lines in ascending key order |
| Render.ListText | src/filedat.cpp:897-925 | each element is followed by `,\n`, and the last comma is then erased |
| Render.Render | src/filedat.cpp:863-928 | specification of `strval`; `Render.Delimited`, `RoundTrip.RenderParse`, `RoundTrip.RenderEnds` |
| Render.Child | src/filedat.cpp:882-891 | specification of how a child is written: a string in double quotes with its double quotes escaped, any other child rendered one level deeper; `Render.StringChild` |
| Render.MapLines | src/filedat.cpp:873-893 | specification of the map loop: one `key = child` line per key, in the given order; `Render.MapText` |
| Render.ListLines | src/filedat.cpp:897-925 | specification of the list loop: the element lines, each ending in `,` but the last; `Render.EraseLastComma`, `Render.ListText` |
| RoundTrip.RenderParse | src/filedat.cpp:863-928 | `set` reads back what `strval(alignment, aligner)` writes, for every tree that holds no none chunk, whose keys and string leaves are words, whose groups nest at most 2^32 deep, and an aligner of spaces and tabs |
| RoundTrip.WorkedExample | src/filedat.cpp:494-621 | the tree `{name = "bob", age = 30, tags = [1, 2, 3]}` survives rendering with tabs and parsing back |
| RoundTrip.MapParse | src/filedat.cpp:514-569 | a rendered map whose values read back as themselves reads back as itself |
| RoundTrip.MapBody | src/filedat.cpp:527-569 | the body of a rendered non-empty map is read back as that map |
| RoundTrip.ListParse | src/filedat.cpp:571-613 | a rendered list whose elements read back as themselves reads back as itself |
| RoundTrip.ListBody | src/filedat.cpp:583-613 | the body of a rendered non-empty list is read back as that list |
| RoundTrip.GroupRead | src/filedat.cpp:514-530 | `set` reads a rendered group as one value with nothing after it, and parses the text between its braces or brackets |
| RoundTrip.GroupGrab | src/filedat.cpp:306-396 | the group loop started after the opening character of a rendered group stops at its own closing character |
| RoundTrip.RenderInner | src/filedat.cpp:869-925 | a rendered group is its opening character, its inner text and its closing character |
| RoundTrip.RenderEnds | src/filedat.cpp:863-928 | the rendering of such a tree starts and ends with a printable character: the word of a string, the braces or brackets of a group |
| RoundTrip.ChildScan | src/filedat.cpp:274-422 | the value scan reads a written child whole and stops right after it, having read the child's rendering |
| RoundTrip.KeySegment | src/filedat.cpp:446-453 | the key segment of an entry line `key = ...` is the key, and the rest starts after the `=` |
| RoundTrip.ValueSegment | src/filedat.cpp:471-478 | the value segment of an entry line is the rendering of the child, up to the end of its line |
| RoundTrip.EntryKeyVal | src/filedat.cpp:439-492 | `_getkeyval` on an entry line gives its key, the child's rendering and the lines after it |
| RoundTrip.LineRound | src/filedat.cpp:533-568 | one round of the map loop over an entry line inserts that key with its child and goes on with the next line |
| RoundTrip.LastEntry | src/filedat.cpp:531-569 | the map loop over the last entry line ends with the whole map |
| RoundTrip.EntriesFrom | src/filedat.cpp:531-569 | the map loop over the entry lines of the remaining keys collects their entries, which with those already read make up the map |
| RoundTrip.EntriesOn | src/filedat.cpp:531-569 | the same when more entries follow: one round, then the rest |
| RoundTrip.ItemSegment | src/filedat.cpp:592-598 | the segment of an element line ending in a comma is the element's rendering, and the rest starts after the comma |
| RoundTrip.LastItemSegment | src/filedat.cpp:592-598 | the segment of the last element line is the element's rendering, with nothing left |
| RoundTrip.LastItem | src/filedat.cpp:588-613 | the list loop over the last element line appends that element and ends |
| RoundTrip.NextItem | src/filedat.cpp:588-613 | one round of the list loop over an element line appends that element and goes on with the next line |
| RoundTrip.ItemsFromParse | src/filedat.cpp:588-613 | the list loop over the remaining element lines appends those elements in order |
| RoundTrip.WordValue | src/filedat.cpp:615-620 | a word parses to the string holding it |
| RoundTrip.QuotedChild | src/filedat.cpp:884-887 | a word child is written as the word between double quotes |
| Mutation.AddToMap | src/filedat.cpp:661-683 | specification of `addToMap(name, val)`; `MutationFacts.AddToMapKinds`, `MutationFacts.AddExisting`, `MutationFacts.AddToNone` |
| Mutation.AddAllToMap | src/filedat.cpp:685-689 | specification of `addToMap(vector)`, one pair after the other; `MutationFacts.AddAllToMapFacts` |
| Mutation.AddToList | src/filedat.cpp:691-708 | specification of `addToList(val)`; `MutationFacts.AddToListKinds` |
| Mutation.AddAllToList | src/filedat.cpp:710-714 | specification of `addToList(vector)`; `MutationFacts.AddAllToListAppends`, `MutationFacts.AddAllToListWrongKind` |
| Mutation.Concat | src/filedat.cpp:716-748 | specification of `concatenate`; `MutationFacts.ConcatKinds`, `MutationFacts.ConcatMaps` |
| Mutation.Merge | src/filedat.cpp:751-798 | specification of `merge`; `MutationFacts.MergeKinds`, `MutationFacts.MergeMaps`, `MutationFacts.MergeSelfFails` |
| Mutation.MergeEntries | src/filedat.cpp:757-770 | specification of the map loop of `merge`, key by key in map order; `MutationFacts.MergeEntriesFacts` |
| Mutation.EraseKey | src/filedat.cpp:801-818 | specification of `erase(key)`; `MutationFacts.EraseKeyExact`, `MutationFacts.AddThenErase` |
| Mutation.EraseIndex | src/filedat.cpp:820-836 | specification of `erase(index)`; `MutationFacts.EraseIndexExact`, `MutationFacts.AppendThenErase` |
| Mutation.SubChunkRef | src/filedat.cpp:969-988 | specification of `subChunkRef(key)`; `MutationFacts.PtrMatchesRef` |
| Mutation.SubChunkRefAt | src/filedat.cpp:990-1008 | specification of `subChunkRef(index)`; `MutationFacts.PtrMatchesRef`, `MutationFacts.PtrAtInRange` |
| Mutation.GetList | src/filedat.cpp:838-849 | specification of `getlist()`; `Documents.ChunkDat.GetList` |
| Mutation.GetMap | src/filedat.cpp:850-861 | specification of `getmap()`; `Documents.ChunkDat.GetMap` |
| MutationFacts.AddToNone | src/filedat.cpp:673-678 | a none chunk becomes a map with exactly one entry, or a list with exactly one element |
| MutationFacts.AddExisting | src/filedat.cpp:667-671 | adding a key that is present throws "Key '<k>' already present" and leaves the map unchanged |
| MutationFacts.AddToMapKinds | src/filedat.cpp:661-683 | adding a key succeeds exactly on none and on a map without that key; on failure nothing changes; on a string or a list it throws "Cannot add keys to non-map chunks" |
| MutationFacts.AddToListKinds | src/filedat.cpp:691-708 | appending succeeds exactly on none and on a list; on failure nothing changes; on a list it appends exactly that element |
| MutationFacts.FreshKeysStep | src/filedat.cpp:685-689 | the pairs of a vector are all new exactly when the first is new and the rest are new after it |
| MutationFacts.KeysOfStep | src/filedat.cpp:685-689 | the keys of a vector are its first key and the keys of the rest |
| MutationFacts.AddAllToMapFacts | src/filedat.cpp:685-689 | `addToMap(vector)` always leaves a map that keeps every entry it had; it succeeds exactly when all keys are new and distinct, and then holds each pair besides |
| MutationFacts.AddAllToListAppends | src/filedat.cpp:710-714 | `addToList(vector)` on a list appends the whole vector in order |
| MutationFacts.AddAllToListWrongKind | src/filedat.cpp:691-714 | on a string or a map it throws at once, changing nothing |
| MutationFacts.KeysOnce | src/filedat.cpp:720-724 | iterating a map visits every key once |
| MutationFacts.PairsFacts | src/filedat.cpp:720-724 | the pairs iterated are exactly the map's entries, each key once |
| MutationFacts.ConcatMaps | src/filedat.cpp:718-725 | concatenating two maps succeeds exactly when their key sets are disjoint, and then gives their union |
| MutationFacts.ConcatMapsPartial | src/filedat.cpp:718-725 | when it throws, the map it leaves kept all its entries |
| MutationFacts.ConcatKinds | src/filedat.cpp:716-748 | the kind table of `concatenate`: none adopts the other chunk, lists append, strings join, and different kinds throw "Cannot concatenate chunks of different types" changing nothing |
| MutationFacts.MergeEntriesFacts | src/filedat.cpp:757-770 | the map branch of merge always leaves a map. Each key absent from this map gets the other map's chunk, and each shared key gets the merge of the two. Keys of neither are unchanged |
| MutationFacts.MergeMaps | src/filedat.cpp:751-770 | the same for two whole maps |
| MutationFacts.MergeDisjoint | src/filedat.cpp:751-770 | two maps without a shared key merge into their union |
| MutationFacts.DisjointEntries | src/filedat.cpp:757-770 | merging only new keys never throws |
| MutationFacts.MergeKinds | src/filedat.cpp:751-798 | the kind table of `merge`: none adopts the other chunk; lists append; strings are replaced with `overwrite` and otherwise throw; other kind pairs are replaced with `overwrite` and otherwise throw |
| MutationFacts.MergeSelfFails | src/filedat.cpp:751-785 | merging a map with a string entry into itself without `overwrite` throws |
| MutationFacts.EraseKeyExact | src/filedat.cpp:801-818 | `erase(key)` succeeds exactly on a map holding the key, then removes that entry only; otherwise it throws and changes nothing |
| MutationFacts.EraseIndexExact | src/filedat.cpp:820-836 | `erase(index)` succeeds exactly when `index < listSize()`. It then removes that element and keeps the others in order; otherwise it throws and changes nothing |
| MutationFacts.AddThenErase | src/filedat.cpp:661-818 | erasing a key just added gives the map back |
| MutationFacts.AppendThenErase | src/filedat.cpp:691-836 | erasing the element just appended gives the list back |
| MutationFacts.EraseThenAdd | src/filedat.cpp:661-818 | adding back an erased entry gives the map back |
| MutationFacts.ListSizeKinds | src/filedat.cpp:930-936 | `listSize()` is -1 exactly on a non-list, the element count on a list |
| MutationFacts.PtrMatchesRef | src/filedat.cpp:938-1008 | `subChunkPtr` finds a child exactly when `subChunkRef` does not throw, and both yield the same child |
| MutationFacts.PtrAtInRange | src/filedat.cpp:954-967 | `subChunkPtr(index)` finds a child exactly for the indices below `listSize()` |
| MutationFacts.AddedFound | src/filedat.cpp:661-952 | an added entry can be looked up, and an erased one cannot |
| Documents.CopyChunk | src/filedat.cpp:623-659 | the deep copy yields a tree equal to the original |
| Documents.CopyMap | src/filedat.cpp:631-640 | the map branch copies every entry |
| Documents.CopyList | src/filedat.cpp:641-650 | the list branch copies every element in order |
| Documents.MergeChunk | src/filedat.cpp:751-798 | the recursive `merge` computes `Merge` |
| Documents.MergeMap | src/filedat.cpp:757-770 | its map loop computes the map branch of `Merge` |
| Documents.MergeEntriesStep | src/filedat.cpp:759-768 | one key of that loop: a new key is added, a shared one merged in place |
| Documents.ChunkDat.constructor | src/filedat.cpp:1010-1015 | `chunkdat()` holds none, at offset 0, with no parent |
| Documents.ChunkDat.Copy | src/filedat.cpp:1031-1035 | `chunkdat(chunkdat const&)`, `copy()` and `pcopy()` give an equal tree with the same trace |
| Documents.ChunkDat.FromText | src/filedat.cpp:1021-1025 | `chunkdat(string, offset, parent)` yields an object exactly when the text parses, holding the parsed tree; otherwise it throws the parse error |
| Documents.ChunkDat.Set | src/filedat.cpp:494-499 | `set(string)` stores offset and parent, then holds the parsed tree, or what the parse built before throwing |
| Documents.ChunkDat.CopyFrom | src/filedat.cpp:623-659 | `set(chunkdat)` takes the other's trace and a copy of its tree; assigning an object to itself leaves none, since `clear()` runs first |
| Documents.ChunkDat.Clear | src/filedat.cpp:1041-1046 | `clear()` drops the tree and keeps the trace |
| Documents.ChunkDat.Type | src/filedat.cpp:1048-1054 | `type()` is the kind of the tree, none when there is no payload |
| Documents.ChunkDat.ListSize | src/filedat.cpp:930-936 | `listSize()` as specified by `Mutation.ListSize` |
| Documents.ChunkDat.StrVal | src/filedat.cpp:863-928 | `strval` of the object is `Render` of its tree |
| Documents.ChunkDat.AddToMap | src/filedat.cpp:661-683 | `addToMap`, `add(name, val)` and `+=` with a pair: the new tree, or the error with the tree unchanged, as `Mutation.AddToMap`; the trace is kept |
| Documents.ChunkDat.AddAllToMap | src/filedat.cpp:685-689 | `addToMap(vector)` and `+=` with a vector of pairs, as `Mutation.AddAllToMap` |
| Documents.ChunkDat.AddToList | src/filedat.cpp:691-708 | `addToList`, `add(val)` and `+=` with a chunk, as `Mutation.AddToList` |
| Documents.ChunkDat.AddAllToList | src/filedat.cpp:710-714 | `addToList(vector)` and `+=` with a vector, as `Mutation.AddAllToList` |
| Documents.ChunkDat.Concatenate | src/filedat.cpp:716-748 | `concatenate` and `*=`, as `Mutation.Concat`; a none object also takes the other's trace |
| Documents.ChunkDat.Merge | src/filedat.cpp:751-798 | `merge`, as `Mutation.Merge`; the trace is the other's exactly where the other chunk is copied whole |
| Documents.ChunkDat.EraseKey | src/filedat.cpp:801-818 | `erase(key)` and `-=` with a key, as `Mutation.EraseKey` |
| Documents.ChunkDat.EraseIndex | src/filedat.cpp:820-836 | `erase(index)` and `-=` with an index, as `Mutation.EraseIndex` |
| Documents.ChunkDat.Locate | src/filedat.cpp:969-1008 | an accessor error points into the parent's file and text at the object's offset, or quotes the chunk when there is no parent |
| Documents.ChunkDat.GetList | src/filedat.cpp:838-849 | `getlist()` gives the elements of a list, and otherwise throws "chunkdat isn't a list" |
| Documents.ChunkDat.GetMap | src/filedat.cpp:850-861 | `getmap()` gives the entries of a map, and otherwise throws "chunkdat isn't a map" |
| Documents.ChunkDat.SubChunkPtr | src/filedat.cpp:938-952 | `subChunkPtr(key)`: the child under the key, null on a non-map or an absent key |
| Documents.ChunkDat.SubChunkPtrAt | src/filedat.cpp:954-967 | `subChunkPtr(index)`: the element, null on a non-list or an index out of range |
| Documents.ChunkDat.SubChunkRef | src/filedat.cpp:969-988 | `subChunkRef(key)` and `operator[]`: the child, or the error for a non-map or an absent key |
| Documents.ChunkDat.SubChunkRefAt | src/filedat.cpp:990-1008 | `subChunkRef(index)` and `operator[]`: the element, or the error for a non-list or "List size is below <index>" |
| Documents.PlusPair | include/filedat.hpp:260 | `a + pair` is a fresh copy of `a` with the key added, `a` itself untouched |
| Documents.PlusPairs | include/filedat.hpp:262 | `a + pairs` is a fresh copy of `a` with the pairs added |
| Documents.PlusChunk | include/filedat.hpp:264 | `a + chunk` is a fresh copy of `a` with the chunk appended |
| Documents.PlusChunks | include/filedat.hpp:266 | `a + chunks` is a fresh copy of `a` with the chunks appended |
| Documents.Times | include/filedat.hpp:268 | `a * b` is a fresh copy of `a` concatenated with `b`; the copy keeps `a`'s offset and parent, or takes `b`'s when `a` is none |
| Documents.MinusKey | include/filedat.hpp:270 | `a - key` is a fresh copy of `a` with the key erased |
| Documents.MinusIndex | include/filedat.hpp:272 | `a - index` is a fresh copy of `a` with the element erased |
| Documents.FileDat.constructor | src/filedat.cpp:123-126 | `filedat()` has no path, no text and an empty tree |
| Documents.FileDat.WithPath | src/filedat.cpp:128-132 | `filedat(path)` has that path, no text and an empty tree |
| Documents.FileDat.GenerateChunk | src/filedat.cpp:220-234 | `generateChunk()` strips comments, keeps the stripped text and parses it without a parent. An error of either step is rethrown with the file's path and the text as it was then, and leaves no tree |
| Documents.FileDat.Clear | src/filedat.cpp:140-148 | `clear()` empties the text and replaces a present tree with an empty one |
| Documents.FileDat.ImportString | src/filedat.cpp:191-197 | `import_string` clears, takes the text, drops the path and generates the tree |
| Documents.FileDat.StrVal | src/filedat.cpp:212-218 | `strval(aligner)` is empty without a tree, otherwise the tree rendered at alignment 0 |
| Options.DefaultOpt | src/options.cpp:28-35 | `option()` defines no name, takes no argument and is not activated |
| Options.ShortOpt | src/options.cpp:37-52 | a short option has its character, no long name, the given argument flag, and starts not activated |
| Options.LongOpt | src/options.cpp:54-69 | a long option has its name and no character |
| Options.FullOpt | src/options.cpp:71-86 | an option with both names has both |
| Options.MakeError | src/options.cpp:6-16 | an `option_error` keeps the type and the option it was built with |
| Options.FindShort | src/options.cpp:143-151 | `find(c)` is the index of the first option defined with that character, and nothing exactly when there is none |
| Options.FindLong | src/options.cpp:153-161 | `find(str)` is the index of the first option defined with that name, and nothing exactly when there is none |
| Options.Activate | src/options.cpp:190-197 | specification of activating option `k`: it is marked activated, takes the argument when one is given, and a copy is appended to `option_sequence`; `OptionFacts.ActivateKeeps` |
| Options.Process | src/options.cpp:163-299 | specification of `process`, from an empty `option_sequence`; `OptionFacts.ProcessRecords`, `OptionFacts.PlainArguments`, `OptionFacts.StopOnArgument`, `OptionFacts.StopAtOperand`, `OptionFacts.ProcessStops` |
| Options.Steps | src/options.cpp:168-297 | specification of the token loop from token `t`; `OptionFacts.StepsKeeps`, `OptionFacts.TerminatorSteps`, `OptionFacts.StepsToOperand` |
| Options.Token | src/options.cpp:168-297 | the processing of one token moves strictly forward and never past the end of the arguments |
| Options.LongToken | src/options.cpp:172-220 | the same for a `--name` token |
| Options.Cluster | src/options.cpp:238-277 | the character loop of a `-xyz` token ends on this token or the one it takes as argument |
| Options.OptionSet.constructor | include/options.hpp:112-175 | a new option set has no options and an empty option sequence |
| Options.OptionSet.Add | include/options.hpp:117 | `add(opt)` appends the option to `option_vec` and leaves `option_sequence` alone |
| Options.OptionSet.FindChar | src/options.cpp:143-151 | the loop of `find(c)` computes `FindShort` |
| Options.OptionSet.FindName | src/options.cpp:153-161 | the loop of `find(str)` computes `FindLong` |
| Options.OptionSet.Turn | src/options.cpp:190-197 | activating an option sets `activated`, stores the argument and appends a copy to `option_sequence` |
| Options.OptionSet.LongArg | src/options.cpp:172-220 | the `--` branch computes `LongToken` |
| Options.OptionSet.ShortArgs | src/options.cpp:238-280 | the character loop of a cluster computes `Cluster`, then appends the ignored characters |
| Options.OptionSet.Round | src/options.cpp:170-296 | one round of the token loop computes `Token` |
| Options.OptionSet.ProcessArgs | src/options.cpp:163-299 | `process` leaves `option_vec` and `option_sequence` as `Process` says, and returns what it returns or throws |
| OptionFacts.Defs | src/options.cpp:163-299 | the definitions of a sequence of options have its length |
| OptionFacts.SameLookups | src/options.cpp:143-161 | the lookups see only the definitions, not what `process` writes into options |
| OptionFacts.ActivateKeeps | src/options.cpp:190-197 | activating an option keeps the definitions and appends exactly one activated, defined option to `option_sequence` |
| OptionFacts.ClusterKeeps | src/options.cpp:238-277 | the cluster loop keeps the definitions and records only activated, defined options |
| OptionFacts.TokenKeeps | src/options.cpp:170-296 | the same for one token |
| OptionFacts.StepsKeeps | src/options.cpp:168-297 | the same for the rest of the arguments |
| OptionFacts.ProcessRecords | src/options.cpp:163-299 | `process` starts from an empty sequence and leaves the definitions unchanged; each recorded option is activated and one of the defined options. This holds also when it throws |
| OptionFacts.PlainSteps | src/options.cpp:284-294 | without `stop_on_argument`, tokens that look like no option are appended to the output unchanged |
| OptionFacts.PlainArguments | src/options.cpp:163-299 | arguments none of which looks like an option are returned unchanged, whatever the flags, and no option is activated |
| OptionFacts.TerminatorSteps | src/options.cpp:288-292 | a bare `--` appends every later token verbatim |
| OptionFacts.Terminator | src/options.cpp:288-292 | operands, then `--`, then anything: the operands and everything after `--`, verbatim |
| OptionFacts.ClusterKeepsNothing | src/options.cpp:238-280 | without `ignore_unknown` a cluster collects no unknown characters |
| OptionFacts.StopSteps | src/options.cpp:284-287 | with `stop_on_argument`, unknown options rejected and nothing collected yet, the loop from token `t` returns either nothing or the arguments from some operand at or after `t` on, untouched (`OptionFacts.StopsWhereReached` says which) |
| OptionFacts.StopOnArgument | src/options.cpp:284-287 | with `stop_on_argument` (unknown options rejected) `process` returns either nothing or the arguments from some operand on, untouched (`OptionFacts.ProcessStops` says which) |
| OptionFacts.FlagToken | src/options.cpp:222-277 | a token `-xyz` not taken for a number whose characters are all flags, options that take no argument |
| OptionFacts.ClusterChars | src/options.cpp:238-277 | the option characters of a run of cluster tokens, in order |
| OptionFacts.SameFlags | src/options.cpp:143-151 | options with the same definitions have the same flags |
| OptionFacts.ClusterFlags | src/options.cpp:222-238 | the characters of a flag token are flags of any options with the same definitions |
| OptionFacts.ClusterStep | src/options.cpp:222-283 | a flag cluster activates its characters in order, keeps the definitions and moves on to the next token |
| OptionFacts.StepsToOperand | src/options.cpp:168-297 | with `stop_on_argument`, after a run of flag clusters the loop returns the first operand and everything after it, keeps the definitions and records the clusters' characters in order |
| OptionFacts.StopAtOperand | src/options.cpp:163-299 | with `stop_on_argument`, whether unknown options are ignored or not, `process` over flag clusters and then an operand returns the operand and everything after it untouched, and records the flags in the order written |
| OptionFacts.Reach | src/options.cpp:168-297 | where the token loop stops: the first token whose round returns or throws, or the end of the arguments, with the loop's state there; `OptionFacts.ReachSteps`, `OptionFacts.ReachOperand`, `OptionFacts.StopsWhereReached` |
| OptionFacts.ReachSteps | src/options.cpp:168-297 | the loop goes from token `t` to where it stops by whole rounds, with the same result as starting there, and a token short of the end where it stops ends the run |
| OptionFacts.ReachOperand | src/options.cpp:225-287 | with `stop_on_argument` the loop stops at an operand (a plain token, `-`, `--`, or a `-<digit>` token under `ignore_numbers`) and returns it with everything after it |
| OptionFacts.LongFails | src/options.cpp:172-220 | a `--name` or `--name=value` token that ends the run ends it with an error (unknown option, missing argument, argument not taken) |
| OptionFacts.OthersFail | src/options.cpp:172-283 | with `stop_on_argument`, a token that ends the run and is not an operand ends it with an error |
| OptionFacts.StopsWhereReached | src/options.cpp:168-298 | with `stop_on_argument`, whatever the other flags: if the loop stops at an operand, it returns that operand and everything after it untouched; if it reaches the end, it returns the tokens it kept; any other stop throws |
| OptionFacts.ReachKeepsNothing | src/options.cpp:178-280 | with `stop_on_argument`, unknown options rejected and nothing kept yet, the loop keeps nothing on its way to where it stops |
| OptionFacts.ProcessStops | src/options.cpp:163-299 | with `stop_on_argument`, for both values of `ignore_unknown`: `process` returns the first operand it reaches and everything after it untouched, or at the end the tokens it kept (none when unknown options are rejected), or throws |
| OptionFacts.EqualsAfterName | src/options.cpp:174 | the first `=` of `--name=value` is the one after the name |
| OptionFacts.LongWithValue | src/options.cpp:200-219 | `--name=value`: an option taking an argument gets the text after the first `=`; one taking none throws `takes_no_arg`; an unknown name throws `unknown_option`, or is kept in the output when ignored |
| OptionFacts.LongWithoutValue | src/options.cpp:185-193 | `--name` for an option taking an argument takes the next token, and throws `missing_arg` when there is none |
| OptionFacts.ActivateFlags | src/options.cpp:271-275 | activating flags keeps the number of options |
| OptionFacts.FlagsAfter | src/options.cpp:271-275 | activating a flag keeps the definitions, so the following flags are still flags |
| OptionFacts.Names | src/options.cpp:258-274 | the characters of the recorded options, one per entry |
| OptionFacts.NamesAppend | src/options.cpp:258-274 | those characters distribute over concatenation |
| OptionFacts.FlagsInOrder | src/options.cpp:238-277 | the flags of a cluster are recorded once each, in the order they are written, after what was recorded before |
| OptionFacts.FlagRun | src/options.cpp:238-277 | a run of flags in a cluster is the same as activating them all |
| OptionFacts.FlagCluster | src/options.cpp:222-283 | `-abc` made of flags activates a, b and c in that order and outputs nothing |
| OptionFacts.ClusterArgument | src/options.cpp:248-269 | in a cluster, an option taking an argument takes the rest of the token, skipping one `=`, and ends the cluster. At the end of the token it takes the next token, and throws `missing_arg` when there is none |
| OptionFacts.UnknownKept | src/options.cpp:241-247 | with `ignore_unknown`, unknown characters of a cluster are kept in order |
| OptionFacts.UnknownCluster | src/options.cpp:238-280 | a cluster of unknown characters yields `-` plus those characters with `ignore_unknown`, and otherwise throws `unknown_option` for the first |
| Colors.Ordinal | include/color.hpp:40-66 | every enumerator is below `COLOR_COUNT` |
| Colors.CodeAt | src/color.cpp:61-67 | `getColorCode(index)` is `COLOR_RESET` for an index of at least `COLOR_COUNT`, and the table entry otherwise |
| Colors.CodeOf | src/color.cpp:69-72 | `getColorCode(enum)` is the code at the enumerator's index |
| Colors.IndexOf | src/color.cpp:76-82 | the index of the first table name equal to the name, or the table's size when none is |
| Colors.GetColorCode | src/color.cpp:74-84 | the lookup loop returns the code of the first name that matches, and `COLOR_RESET` when none does |
| Colors.CodeNamed | src/color.cpp:74-84 | specification of `getColorCode(name)` over a given name table: the code at the index of the first equal name, `COLOR_RESET` when none is; `Colors.NamedLookup` |
| Colors.NoneIsReset | src/color.cpp:33 | the code of `none` is `COLOR_RESET` |
| Colors.NamesDistinct | src/color.cpp:3-23 | the 19 names of the table are pairwise distinct |
| Colors.NamedLookup | src/color.cpp:74-84 | looking a colour up by its name gives that colour's code; an unknown name gives `COLOR_RESET` |
| Colors.NameRoundTrip | src/color.cpp:3-23 | with the intended name table, every colour is found by its own name |
| Colors.BoldCyanAsWritten | src/color.cpp:23-25 | with the table as written, "b_cyan" gives `COLOR_RESET` instead of the bold cyan code |
| Colors.FirstEntry | src/color.cpp:76-82 | a name met for the first time at index `k` of a table is found at `k` |
| Colors.AsWrittenEntries | src/color.cpp:3-25 | as written, the table agrees with the intended one but for its last entry, longer than every other name |
| Colors.AsWrittenIndex | src/color.cpp:74-84 | as written, every name of the table is found at its own index |
| Colors.NamedLookupAsWritten | src/color.cpp:74-84 | as written, every colour but bold cyan is found by its own name, and bold cyan only by the joined name "b_cyanbold" |
| Colors.Color.constructor | src/color.cpp:86-89 | `color()` stores the code of `none`, `COLOR_RESET` |
| Colors.Color.Of | src/color.cpp:91-94 | `color(enum)` stores the code of the enumerator |
| Colors.Color.Named | src/color.cpp:96-99 | `color(name)` stores the code found by name |
| Colors.Color.SetColor | src/color.cpp:101-104 | `setColor(enum)` stores exactly `getColorCode(enum)` |
| Colors.Color.SetColorNamed | src/color.cpp:106-109 | `setColor(name)` stores exactly `getColorCode(name)` |
| Colors.Color.Code | src/color.cpp:111-114 | `code()` returns the stored code |

## Left out

- File, standard input and stream I/O: `import_file`, `import_stdin`, `export_file` and `readTest` (src/filedat.cpp:150-210). These need the operating system. Only `import_string` and `generateChunk`, which work on an in-memory text, are modelled.
- The printing in `printErrorIndex` (src/filedat.cpp:52-68). Only its line and column computation is modelled, as `Text.ErrorPosition`.
- `option::print_help`, `option_set::print_help` and `argVector` (src/options.cpp:18-26, 106-141). These only format output or read `argv`.
- The format entries after the 19 declared colours, `BOLD` to `STRIKE` and "italic" to "strike" (src/color.cpp:25-29, 54-58). Both arrays are declared with `COLOR_COUNT` (19) elements (include/color.hpp:20, 68-70), yet the name array has 23 initializers (src/color.cpp:3-29) and the code array 24 (src/color.cpp:31-59). Too many initializers make the C++ ill-formed, so the source has no defined table to follow. The model takes the first 19 initializers of each array. The second row of "## Findings" rests on the same choice: the 19th name is the joined "b_cyanbold".
- Colors.GetColorCode, Colors.Color.Named, Colors.Color.SetColorNamed, Colors.NamedLookup, Colors.NamesDistinct: these use the intended name table `NameTable`, whose 19th name is "b_cyan". The table as written, `NameTableAsWritten`, has the joined "b_cyanbold" there. What the source does with it is stated by `Colors.NamedLookupAsWritten` and `Colors.BoldCyanAsWritten`.
- Parser.Insert, Parser.EntryRound, Parser.Entries, Parser.Items, Parser.SetOutcome, Parser.Group, Parser.Body: the duplicate-key error is at the start of the repeated key (`keystart`). The source reports it at `keystart + valstart` (src/filedat.cpp:560, 563-565), because its handler adds the start of the value again; `Parser.InsertAsWritten` models that step as written. Every other branch, offset and message follows the code.
- Parser.ParseText, Parser.ParseGroup, Parser.ParseBody, Parser.ParseEntries, Parser.ParseEntry, Parser.InsertEntry, Parser.ParseItems, Documents.ChunkDat.FromText, Documents.ChunkDat.Set, Documents.FileDat.GenerateChunk, Documents.FileDat.ImportString: these methods compute the specification functions above, so they share that corrected duplicate-key offset. A list element cannot repeat a key, so `Parser.ParseItems` differs only for maps nested inside a list.
- RoundTrip.RenderParse: the round trip holds only for readable trees (`RoundTrip.Readable`). Keys and string leaves must be words: non-empty, printable, and free of quotes, braces, brackets, `=`, `;`, `,` and backslashes. No chunk may be none, groups nest at most 2^32 deep (`n <= U32`), and the aligner is made of spaces and tabs (`RoundTrip.Indent`). Outside these trees the round trip fails. A none child is written as nothing and read back as the empty string. A leaf `a\` is written as `"a\"`, whose closing quote is escaped, so the quote never closes. A leaf that starts with `{` is read back as a group. A key holding `=`, `;` or a blank is split at that character.
- Segments.ReadBlanks, Segments.BlankRunEnd: the blank run stops at the end of the text. In the source, when neither delimiter is NUL and the blanks run to the end, the loop at src/filedat.cpp:401-402 goes on reading `str[i]` past `str.size()`, which is undefined behaviour in C++; the model stops at `|s|` instead.
- Children's own trace: in the source, a child chunk parsed inside a map or list also records its offset and parent. The model keeps the trace of `ChunkDat` objects only; tree nodes are plain values.
- Documents.ChunkDat.SubChunkRef, Documents.ChunkDat.SubChunkRefAt, Documents.ChunkDat.SubChunkPtr, Documents.ChunkDat.SubChunkPtrAt, Documents.ChunkDat.GetList, Documents.ChunkDat.GetMap: these return the child's value (or an `Option` or sequence of values), not a reference or pointer through which the parent's tree could be changed (src/filedat.cpp:838-1008), not a reference through which the parent's tree could be changed. Aliasing between a tree and references into it is not modelled.
- Concatenating or list-merging an object with itself (`a *= a` on a list) iterates a vector while appending to it, which is undefined behaviour in C++. The model's `Concatenate` and `Merge` read the other object's tree before the call.
- Mutation.Concat and Mutation.Merge do not copy the other chunk before reading it, because trees are values. A pointer held into the other tree is not modelled.
- A value that starts with `{` or `[` only because a quoted stretch does (the text `"{"`) makes `set` pop from an empty string. In C++ that is undefined behaviour; the model reads the body as empty.
- The `int` offsets of the parser and the `unsigned int` alignment of `strval` are unbounded integers here, with no 32-bit overflow.
- The `+=` and `-=` operator wrappers (include/filedat.hpp:235-247) and `add` (include/filedat.hpp:165-180) are not separate members. They are modelled by the `ChunkDat` methods they forward to.
- `chunkdat::set(chunkdat)`, the header's inline re-parse (include/filedat.hpp:146), is superseded by the deep copy of src/filedat.cpp:623-659, which is what the model uses.
- The string branch of `merge` calls `chk.str()`, which include/filedat.hpp does not declare. It is modelled as the other chunk's string value.

## Findings

| source | as written | input that shows it | evidently intended | confidence | as-written member | corrected member |
|---|---|---|---|---|---|---|
| src/filedat.cpp:553-566 | the duplicate-key error is thrown inside the `try` whose handler re-bases child errors, so the start of the value is added to the key's offset a second time | `{k=a;k=b}`: the error says offset 10, past the end of the 9-character text; the repeated key is at offset 5 | the error points at the start of the repeated key | not executed | ParserExamples.DuplicateOffsetAsWritten (with Parser.InsertAsWritten) | ParserExamples.DuplicateOffsetCorrected (with Parser.Insert and ParserFacts.DuplicateKeyRejected) |
| src/color.cpp:23-25 | a missing comma after `"b_cyan"` joins it with `"bold"`, so the 19th name is `"b_cyanbold"` | `color("b_cyan")` stores `COLOR_RESET`, not the bold cyan code | every colour can be found by its own name | not executed | Colors.BoldCyanAsWritten (with Colors.NameTableAsWritten) | Colors.NameRoundTrip (with Colors.NameTable) |

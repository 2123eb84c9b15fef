# css-coverage source maps in Dafny

A model of the part of css-coverage that reads and writes source maps
(revision 3 of the Source Map format, ECMA-426), with proofs about it.

- **Base64 VLQ** (`base64vlq.py`). A symbol of the 64-character alphabet
  carries five value bits and a continuation flag (bit 5). Integers are
  written least significant group first. The lowest bit of an integer's
  first group is its sign.
  - `Base64Vlq` defines the alphabet, the reverse table and the two codec
    loops (`base64vlq_decode`, `base64vlq_encode`). It writes them as
    methods over a table array and as the functions `Decode` and `Encode`
    that specify them.
  - `Base64VlqProperties` proves the round trip and the shape of the
    encoder's output.
- **Records** (`Mappings`). `SourceMapping` with the two co-presence rules
  of `__post_init__`, and the `content_line` property as written.
- **AutoIndexing**. The `autoindex` dictionary, which numbers keys in
  first-seen order. It appears as a class with `modifies` clauses and as a
  value (`Interner`) that specifies it.
- **SourceMaps**. The JSON object, `SourceMap` (its `entries` dictionary and
  the `_index` of columns per line), `from_json` and `to_json` as the
  Python code runs them, and `__getitem__`.
  - The two conversions are methods: running totals in local variables,
    nested loops, and the two `autoindex` objects.
  - Each method is proved equal to a function (`FromJsonSpec`,
    `ToJsonSpec`).
- **Properties of `from_json`** (`FromJsonProperties`, `FromJsonExamples`),
  **of `to_json`** (`ToJsonProperties`, `ToJsonShape`) and **of the lookup**
  (`LookupProperties`).
- **FromJsonTotals**. The running totals of `from_json` over the whole
  file, defined independently of the loops as a fold over every group of
  every segment. Which error `from_json` raises, and what each entry holds,
  follow from the totals before and after its group.
- **MapRoundTrip**. Two round trips, each under stated conditions.
  - `from_json(to_json(m)) == m` holds for a map `m` with at least one
    `_index` line, one content per source, the entries `from_json` makes and
    the dictionary-plus-index invariant.
  - Reading a JSON object, writing it and reading it again gives the same
    map. This holds when `sources` are distinct and `sourcesContent` is
    empty or has one entry per source.
  - Outside these conditions the round trips can fail. For example, sources
    `["a", "a"]` with contents `["X", "Y"]` and mappings "AAAA,CCAA" read
    as two entries whose source is "a" with different contents, and
    `to_json` keeps only one content for "a".
- **Text**. The Python string operations the code uses: `split` and `join`
  for one separator, `splitlines`, and list indexing with negative
  positions (`PyIndex`).

Python's negative indexing is modelled exactly. `sources[spos]` and
`contents[spos]` with a negative `spos`, and `_index[l]` with a negative
`l`, count from the end as CPython does.

## Model

| member | source | states |
|---|---|---|
| Base64Vlq.Table | base64vlq.py:30-33 | A character has a table value only if it is the symbol of that value, and its code point is below `max(_b64chars) + 1` |
| Base64Vlq.TableOfSymbol | base64vlq.py:30-33 | The table takes each of the 64 symbols back to its value |
| Base64Vlq.TableDefinedOnAlphabet | base64vlq.py:30-33 | A character has a table entry exactly when it is in the alphabet |
| Base64Vlq.BuildTable | base64vlq.py:31-33 | The load-time loop makes a table of `max(_b64chars) + 1` slots holding each symbol's value and `None` elsewhere |
| Base64Vlq.Decode | base64vlq.py:39-54 | No contract of its own; specified by `Base64Vlq.DecodeVlq`, `Base64VlqProperties.RoundTrip`, `Base64VlqProperties.DecodeCounts` and `Base64VlqProperties.DropsUnterminatedRun` |
| Base64Vlq.DecodeFrom | base64vlq.py:44-53 | No contract of its own; the loop from any state of `shift`, `value` and `results`, specified by `Base64VlqProperties.DecodeFromSucceeds`, `Base64VlqProperties.DropTrailingFrom` and `Base64VlqProperties.DecodeFromCodes` |
| Base64Vlq.Signed | base64vlq.py:52 | No contract of its own; specified by `Base64VlqProperties.SignedZigZag` |
| Base64Vlq.Encode | base64vlq.py:57-70 | No contract of its own; specified by `Base64Vlq.EncodeVlq`, `Base64VlqProperties.RoundTrip`, `Base64VlqProperties.EncodeConcat` and `Base64VlqProperties.EncodeInAlphabet` |
| Base64Vlq.EncodeDigits | base64vlq.py:62-69 | No contract of its own; specified by `Base64VlqProperties.DecodeEncodeFrom` and `Base64VlqProperties.DigitsShape` |
| Base64Vlq.ZigZag | base64vlq.py:64 | No contract of its own; specified by `Base64VlqProperties.SignedZigZag` and `Base64VlqProperties.SignInFirstSymbol` |
| Base64Vlq.DecodeVlq | base64vlq.py:39-54 | The decoding loop over characters with the reverse table computes `Decode`, including the failure on a character without a value |
| Base64Vlq.EncodeVlq | base64vlq.py:57-70 | The outer loop over the values and the `while True` loop per value compute `Encode` |
| Base64Vlq.Digits | base64vlq.py:64-69 | Every integer gets at least one symbol |
| Base64VlqProperties.RoundTrip | base64vlq.py:39-70 | Decoding what the encoder writes gives back every integer in order, for all integer sequences |
| Base64VlqProperties.DecodeEncodeFrom | base64vlq.py:39-70 | Decoding the symbol values of a whole sequence appends exactly that sequence to the results |
| Base64VlqProperties.DecodeDigits | base64vlq.py:39-69 | The symbols of one integer rebuild its zig-zag magnitude five bits at a time and emit that integer once its terminator is read |
| Base64VlqProperties.SignedZigZag | base64vlq.py:52-64 | The decoder's sign rule inverts the encoder's zig-zag step, which doubles the magnitude and adds 1 for a negative integer |
| Base64VlqProperties.DecodeFromCodes | base64vlq.py:46-53 | Decoding characters is looking each up in the table and then decoding the values; a character without a value fails |
| Base64VlqProperties.CodesOfSymbols | base64vlq.py:30-70 | The table takes every emitted symbol back to its value |
| Base64VlqProperties.KnownVectors | base64vlq.py:39-70 | `encode(0) == "A"`; "A", "C", "D" and "gB" decode to 0, 1, -1 and 16 |
| Base64VlqProperties.GbVector | base64vlq.py:64-70 | 16 is written as "gB" and "gB" reads back as 16 |
| Base64VlqProperties.EncodeVector | base64vlq.py:57-70 | `encode(1, -1, 16) == "CDgB"` |
| Base64VlqProperties.NoNegativeZero | base64vlq.py:52-64 | "B" (negative zero) decodes to 0, but no integer encodes to it |
| Base64VlqProperties.EncodeInAlphabet | base64vlq.py:67-70 | Every character the encoder emits is in the alphabet and has a table value |
| Base64VlqProperties.DigitsShape | base64vlq.py:65-69 | In one integer's run, every value except the last has the continuation flag, and the last does not |
| Base64VlqProperties.RunShape | base64vlq.py:65-70 | The same for the characters of one integer's run |
| Base64VlqProperties.ShortValue | base64vlq.py:64-69 | An integer takes exactly one character iff its magnitude is below 16, in both directions |
| Base64VlqProperties.SignInFirstSymbol | base64vlq.py:64-67 | The lowest bit of the first symbol is set iff the integer is negative |
| Base64VlqProperties.DecodeSingle | base64vlq.py:46-53 | One unflagged symbol decodes to the single integer it carries |
| Base64VlqProperties.EncodeConcat | base64vlq.py:57-70 | `encode()` is "", and encoding a concatenation is the concatenation of the encodings |
| Base64VlqProperties.DecodeCounts | base64vlq.py:39-54 | `decode("") == []`; decoding succeeds iff every character has a table value, fails iff some character is outside the alphabet, and yields one integer per valid unflagged character |
| Base64VlqProperties.DecodeFromSucceeds | base64vlq.py:46-53 | From any loop state the same success condition and count hold |
| Base64VlqProperties.OnlyFlaggedLeft | base64vlq.py:48-54 | A remainder made only of flagged symbols adds no integer |
| Base64VlqProperties.DropTrailingFrom | base64vlq.py:48-54 | Appending flagged symbols to any input does not change what decoding gives, from any loop state |
| Base64VlqProperties.DropsUnterminatedRun | base64vlq.py:48-54 | A trailing run of flagged symbols with no terminator is silently dropped |
| Text.PyIndex | sourcemap.py:95-97 | No contract of its own; specified by `Text.PyIndexFromEnd` |
| Text.PyIndexFromEnd | sourcemap.py:95-97 | `xs[i]` exists exactly for `-len(xs) <= i < len(xs)`, and `i` and `i - len(xs)` pick the same element |
| Text.Split | sourcemap.py:84 | There is always at least one piece, and no piece holds the separator; `Text.SplitJoin`, `Text.JoinSplit` and `Text.SplitCount` relate it to `Join` |
| Text.Join | sourcemap.py:142 | No contract of its own; specified by `Text.SplitJoin` and `Text.JoinSplit` |
| Text.SplitLines | sourcemap.py:53 | No line it yields holds a line boundary; `Text.SplitLinesJoin` relates it to joining by line feeds |
| Text.SplitJoin | sourcemap.py:84-89 | Splitting a `sep`-joined, nonempty list of `sep`-free pieces gives the list back |
| Text.JoinSplit | sourcemap.py:84-89 | Joining the pieces of a split with the same separator rebuilds the string |
| Text.SplitCount | sourcemap.py:84 | `s.split(sep)` has one more piece than `s` has occurrences of `sep` |
| Text.SplitLinesJoin | sourcemap.py:53 | `splitlines` gives back lines joined by line feeds, when no line holds a line boundary and the last is not empty |
| Mappings.NewSourceMapping | sourcemap.py:28-48 | Construction succeeds iff the record satisfies both rules. It fails with the missing-position error iff a source lacks its line or column. It fails with the name error iff a name has no source (the position rule is checked first) |
| Mappings.OnlyTwoRules | sourcemap.py:38-48 | Nothing else is checked: a source line without a source is accepted, and the two errors come in the source's order |
| Mappings.ContentLine | sourcemap.py:50-55 | No contract of its own; the property as written, specified by `Mappings.ContentLineAlwaysNone`, `Mappings.ContentLineDropsTheLine` and `Mappings.ContentLineRaisesWithoutContent` |
| Mappings.ContentLineFixed | sourcemap.py:50-55 | No contract of its own; the corrected property, specified by `Mappings.ContentLineFixedLine` and `Mappings.ContentLineFixedPicksLine` |
| Mappings.ContentLineAlwaysNone | sourcemap.py:50-55 | As written, `content_line` yields `None` whenever it returns, and raises exactly when there is no source content |
| Mappings.ContentLineDropsTheLine | sourcemap.py:52-53 | A mapping pointing at the second of two content lines gets `None` from `content_line`, while the corrected property gives that line |
| Mappings.ContentLineRaisesWithoutContent | sourcemap.py:52-54 | A mapping without source content makes `content_line` raise, where the corrected property yields `None` |
| Mappings.ContentLineFixedLine | sourcemap.py:50-55 | The corrected property yields a line iff there is content, a source line, and a content line at that position (negative positions counting from the end). The line holds no line boundary |
| Mappings.ContentLineFixedPicksLine | sourcemap.py:50-55 | For content made of lines joined by line feeds, the corrected property yields exactly the line the mapping points at |
| AutoIndexing.Intern | sourcemap.py:13-15 | A lookup returns the key's number. A new key gets the next number and is appended to the keys. The dictionary stays consistent |
| AutoIndexing.InternKeeps | sourcemap.py:13-15 | A lookup never renumbers a key that already has a number |
| AutoIndexing.InternAllFirstSeen | sourcemap.py:13-15 | After a series of lookups the keys are listed in the order they were first looked up |
| AutoIndexing.FirstSeenOrder | sourcemap.py:144-148 | First-seen order: each key of the lookups exactly once, and a key listed earlier first occurs earlier |
| AutoIndexing.FirstSeenFrom | sourcemap.py:13-15 | The same from any list of distinct keys already given |
| AutoIndexing.AutoIndex.constructor | sourcemap.py:13-15 | A new `autoindex` is empty, with its counter at 0 |
| AutoIndexing.AutoIndex.Get | sourcemap.py:13-15 | `d[key]` on the object does what `Intern` does to its dictionary and counter |
| AutoIndexing.AutoIndex.SortedKeys | sourcemap.py:146-148 | The keys sorted by number are the keys in insertion order: each key once, and numbers increase along the list |
| SourceMaps.FromJsonSpec | sourcemap.py:75-112 | A version other than 3 fails before anything is read. A result keeps `file` and `sourceRoot` |
| SourceMaps.ParseLines | sourcemap.py:84-87 | The outer loop adds one `_index` line per segment |
| SourceMaps.ParseGroups | sourcemap.py:88-105 | The inner loop adds no line to `_index` |
| SourceMaps.ContentAt | sourcemap.py:95 | No contract of its own; specified by `FromJsonTotals.GroupByTotals` and `FromJsonProperties.GroupRecordFacts` |
| SourceMaps.GroupRecord | sourcemap.py:92-101 | No contract of its own; specified by `FromJsonProperties.GroupRecordFacts` and `FromJsonTotals.GroupByTotals` |
| SourceMaps.Group | sourcemap.py:89-104 | No contract of its own; specified by `SourceMaps.ReadGroup`, `FromJsonProperties.GroupFacts` and `FromJsonTotals.GroupByTotals` |
| SourceMaps.ReadGroup | sourcemap.py:89-105 | The body of the inner loop, with the reverse table, computes `Group`: the column, the mapping and the totals after one group, or the error it raises |
| SourceMaps.FromJson | sourcemap.py:75-112 | `from_json` with running totals, nested loops and the reverse table computes `FromJsonSpec` |
| SourceMaps.EmitGroup | sourcemap.py:124-140 | One group has 1, 4 or 5 values by the mapping's source and name, begins with the column delta, and keeps the emitter consistent |
| SourceMaps.EmitLine | sourcemap.py:122-140 | The inner loop appends one group per column or fails with `KeyError` |
| SourceMaps.EmitLines | sourcemap.py:119-142 | The outer loop appends one segment per line or fails with `KeyError` |
| SourceMaps.ToJsonSpec | sourcemap.py:114-155 | `version` is 3, `file` and `sourceRoot` are kept, there is one content per source, and the only failure is `KeyError` |
| SourceMaps.WriteGroup | sourcemap.py:123-140 | The body of the inner loop, with the two `autoindex` objects, computes `EmitGroup` on their dictionaries |
| SourceMaps.UnnamedGroup | sourcemap.py:124-136 | A mapping with a source and no name is written as four deltas, and the totals move to its source position |
| SourceMaps.NamedGroup | sourcemap.py:124-139 | A mapping with a source and a name is written as five deltas, and the name total moves to its name's number |
| SourceMaps.ToJson | sourcemap.py:114-155 | `to_json` with two `autoindex` objects and nested loops computes `ToJsonSpec` |
| SourceMaps.GetItem | sourcemap.py:157-169 | No contract of its own; specified by the `LookupProperties` lemmas below |
| SourceMaps.BisectRight | sourcemap.py:168 | `bisect` returns an insertion point within `lo .. hi` |
| FromJsonProperties.GroupRecordFacts | sourcemap.py:92-104 | A group's mapping sits at its own position and has no name. It has a source iff the group has at least 4 values. Its source is in `sources`, and with aligned sources its content is that source's `sourcesContent` entry |
| FromJsonProperties.GroupFacts | sourcemap.py:89-105 | A group that reads decodes to at least one value, its column is the previous column plus its delta, and its mapping has these properties |
| FromJsonProperties.ParseGroupsBuilt | sourcemap.py:89-105 | The inner loop keeps the dictionary-plus-index invariant and the properties of every record |
| FromJsonProperties.ParseLinesBuilt | sourcemap.py:84-105 | So does the outer loop |
| FromJsonProperties.ParseGroupsShape | sourcemap.py:88-105 | The inner loop leaves earlier lines alone and appends the running columns of its groups to the current line; every group decodes to at least one value |
| FromJsonProperties.ParseLinesShape | sourcemap.py:84-105 | The outer loop appends one `_index` line per segment, an empty segment giving an empty line |
| FromJsonProperties.LineColumnsShape | sourcemap.py:85-89 | A segment gives an empty `_index` line iff it is empty, and otherwise one column per group |
| FromJsonProperties.LinesColumnsAt | sourcemap.py:84-85 | The `l`-th `_index` line is that of the `l`-th segment |
| FromJsonProperties.RunningColumnsAt | sourcemap.py:88-105 | Columns are stored in encounter order: each is the one before it (0 at the start of a line) plus its group's delta |
| FromJsonProperties.FromJsonIndexed | sourcemap.py:84-111 | After `from_json`: `(L, c)` is a key iff `c` is on `_index` line `L`, and the entry there records `(L, c)`. `_index` has `mappings.count(";") + 1` lines, given by the running columns of each segment |
| FromJsonProperties.FromJsonRecords | sourcemap.py:91-104 | After `from_json`, every record has no name and a source from `sources`. A record without a source carries nothing else. With aligned sources, a record's content is its source's entry |
| FromJsonProperties.FromJsonGroupsDecode | sourcemap.py:89 | Every group of an accepted map decodes to at least the column delta |
| FromJsonTotals.GroupByTotals | sourcemap.py:89-104 | A group raises iff its error under the totals before it is some error, and it is the same error. Otherwise its values move the totals, and its mapping has source `sources[spos]`, line `sline` and column `scol` at the moved totals. Its content is `contents[spos]` when `len(contents) > spos`, and `None` otherwise |
| FromJsonTotals.ParseGroupsTotals | sourcemap.py:89-105 | The inner loop raises iff one of its groups does, with the first such group's error; otherwise it ends at the totals after all its groups |
| FromJsonTotals.ParseLinesTotals | sourcemap.py:84-105 | The same for the outer loop over every group of every segment: the totals are never reset at a `;` or at an empty segment |
| FromJsonTotals.FromJsonFirstError | sourcemap.py:75-105 | A version 3 map reads iff no group of the file raises under the file-wide totals before it; otherwise `from_json` raises the first such group's error |
| FromJsonTotals.FirstErrorAt | sourcemap.py:89-105 | When no group before the `i`-th raises and the `i`-th does, the first error is the `i`-th group's |
| FromJsonTotals.SourceOutOfRangeFails | sourcemap.py:95-97 | When the first group that raises has its file-wide source index inside `contents` (or past its length) but outside `sources`, `from_json` raises the `IndexError` of `sources[spos]` |
| FromJsonTotals.ParseGroupsKeeps | sourcemap.py:104-105 | The inner loop changes no entry at a position none of its groups writes |
| FromJsonTotals.ParseLinesKeeps | sourcemap.py:84-105 | The outer loop never changes the entries of lines already read |
| FromJsonTotals.ParseGroupsRecords | sourcemap.py:89-105 | The `k`-th group of a segment, when no later group of that segment has its column, leaves its mapping at its column, built from the totals after it |
| FromJsonTotals.FromJsonTotalsRecords | sourcemap.py:84-105 | In a map `from_json` reads, the entry at the `k`-th column of line `l` is made by the last group there. It has source `sources[spos]`, line `sline`, column `scol` and content `contents[spos]` (or `None` when `len(contents) <= spos`), for the file-wide totals after that group. Empty segments are counted, and `sourcesContent` need not be aligned |
| FromJsonTotals.LastGroupOfEntry | sourcemap.py:104 | Every entry comes from a group of its line that no later group of the line overwrites |
| FromJsonExamples.EmptyGroupFails | sourcemap.py:89 | An empty group between commas fails at the unpacking |
| FromJsonExamples.InvalidSymbolFails | base64vlq.py:46-47 | A character outside the alphabet fails the whole map |
| FromJsonExamples.MissingSourceFails | sourcemap.py:97 | A source index with no entry in `sources` fails at `sources[spos]` |
| FromJsonExamples.TotalsCarryAcrossLines | sourcemap.py:79-105 | For "CAAA;;AACA" the column restarts at 0 on line 2 while the source line total carries over from line 0 across the empty line |
| FromJsonExamples.DecodeZeros | base64vlq.py:39-54 | "AAAA" decodes to four zeros |
| ToJsonProperties.FreshFollows | sourcemap.py:116-140 | From the start, writing mappings leaves the two dictionaries as the lookups of their sources and names in order, and each content as that of the first mapping of its source |
| ToJsonProperties.AbsorbFollows | sourcemap.py:126-139 | Writing one mapping keeps that relation |
| ToJsonProperties.EmitLinesAbsorbs | sourcemap.py:119-142 | The loops' final emitter is that of writing the mappings visited, line by line and column by column |
| ToJsonProperties.ToJsonSources | sourcemap.py:114-155 | `sources` and `names` are the first-seen orders of the visited mappings' sources and names; `sourcesContent[i]` is the content of the first mapping of `sources[i]` |
| ToJsonShape.EncodePlain | sourcemap.py:140-142 | A group is nonempty and holds neither separator |
| ToJsonShape.ToJsonShape | sourcemap.py:119-149 | `mappings` has one `;`-separated segment per `_index` line and one `,`-separated group per column, whose deltas give back the columns; an empty `_index` gives "" |
| ToJsonShape.EmitLineSucceeds | sourcemap.py:122-123 | The inner loop fails iff a column of its line has no entry |
| ToJsonShape.EmitLinesSucceeds | sourcemap.py:119-123 | The outer loop fails iff a listed column of some line has no entry |
| ToJsonShape.ToJsonSucceeds | sourcemap.py:114-155 | `to_json` raises `KeyError` iff a column listed in `_index` has no entry |
| LookupProperties.BisectRightSplits | sourcemap.py:168 | On sorted columns, `bisect` splits them into those up to the query and those above it |
| LookupProperties.LineMeansColumnZero | sourcemap.py:158-161 | An integer index means column 0 |
| LookupProperties.ExactHit | sourcemap.py:162-163 | A position with an entry returns that entry |
| LookupProperties.NoLineOrEmptyLine | sourcemap.py:164-167 | Otherwise, a line `_index` does not have, or an empty line, raises `IndexError` |
| LookupProperties.NearestPreceding | sourcemap.py:164-169 | On a sorted line of an indexed map, a position without an entry returns an entry of that line. It is the one at the greatest column below the query, or at the first column when every column is above it |
| LookupProperties.SomeEntryOfTheLine | sourcemap.py:164-169 | Whatever the column order, a position on a nonempty line returns one of that line's entries |
| LookupProperties.NegativeLine | sourcemap.py:162-169 | A negative line picks `_index` from the end, but the entry lookup keys on the line as given, so it raises |
| LookupProperties.ThreeColumnsExample | sourcemap.py:157-169 | With columns 2, 5 and 9: 7 gives the entry at 5, 0 the one at 2, 12 the one at 9, a line past the end raises |
| MapRoundTrip.GroupBack | sourcemap.py:89-140 | What `to_json` writes for one mapping reads back, against the same totals, as the same column, the same mapping and the totals `to_json` moved to |
| MapRoundTrip.LineBack | sourcemap.py:88-142 | The groups of one line read back as that line's entries and columns |
| MapRoundTrip.LinesBack | sourcemap.py:84-142 | The segments of all lines read back as every listed entry and the lines themselves |
| MapRoundTrip.PutLinesAll | sourcemap.py:104-105 | Reading every line of an indexed map records exactly its dictionary |
| MapRoundTrip.ToJsonContentsAgree | sourcemap.py:135-147 | With one content per source, the contents `to_json` writes agree with every entry |
| MapRoundTrip.ToJsonFromJson | sourcemap.py:75-155 | For any map with at least one line whose entries are of the kind `from_json` makes, with one content per source and the dictionary-plus-index invariant, `to_json` succeeds and `from_json` of its result is the same map |
| MapRoundTrip.AlignedOneContent | sourcemap.py:95 | With aligned sources, the records `from_json` makes carry one content per source |
| MapRoundTrip.FromJsonToJson | sourcemap.py:75-155 | For a JSON object with distinct sources and `sourcesContent` absent or one per source, the map `from_json` reads is written and read back to itself |

## Left out

- `script.py` is not part of this model: it lists directories, loads files and writes an HTML report.
- `SourceMap.__repr__` is left out: it only formats text.
- JSON parsing and the `TypedDict` typing are left out. The model takes the parsed object as a datatype with every field present: a missing `file` or `sourceRoot` is `None`, and a missing `sourcesContent` is `[]`.
- A `sourcesContent` of JSON `null` is not modelled. Python's `get` would then return `None` and `len(None)` would raise `TypeError`. The field's type has no such value.
- Missing required JSON keys (`version`, `sources`, `mappings`) raise `KeyError` in Python. They are not modelled, for the same reason.
- The exception types are folded into error constructors: `MapError`, `RecordError`, `LookupError` and `ContentLineError`. Messages are not modelled.
- Base64Vlq.Table: a non-ASCII character (`UnicodeEncodeError`), a code point past the end of the table (`IndexError`) and an ASCII character without a value (`TypeError` at `v & mask`) are one error, `InvalidSymbol`.
- Base64Vlq.DecodeVlq: `_b64table` is a module global in Python; here it is a parameter, built by `BuildTable`. The same holds for `SourceMaps.ReadGroup` and `SourceMaps.FromJson`.
- SourceMaps.FromJsonSpec: names are never stored in a record, as in the code. `npos` is still advanced, and `names` is never read.
- SourceMaps.WriteGroup: the `assert entry.source_line is not None` checks hold by the record's type.
- AutoIndexing.AutoIndex.SortedKeys: the sort by number is not written as a sort. The keys list in insertion order is already sorted by number, and the method's contract states that.
- MapRoundTrip.FromJsonToJson: distinct sources alone are not enough for the round trip, so it also requires `sourcesContent` empty or one per source. With a shorter, nonempty `sourcesContent`, a negative source index reaches `contents[spos]` from the end. The same source can then get two different contents, and `to_json` keeps only the first.
- MapRoundTrip.ToJsonFromJson: the map needs at least one `_index` line. An empty `_index` is written as "" and reads back as one empty line.
- FromJsonProperties.FromJsonRecords: states a record's content only when the sources are aligned. The general statement, for any `sourcesContent`, is `FromJsonTotals.FromJsonTotalsRecords`.
- Unsorted `_index` lines are possible (a negative column delta). There, `__getitem__` is only shown to return some entry of the line (`SomeEntryOfTheLine`), not the nearest-column rule.

## Findings

| source | as written | input that shows it | evidently intended | confidence | as-written member | corrected member |
|---|---|---|---|---|---|---|
| sourcemap.py:53 | `content_line` looks up the content line but has no `return`, so it yields `None` | a mapping with `source_content` "a\nb" and `source_line` 1 | return the line, "b" | not executed | Mappings.ContentLineDropsTheLine | Mappings.ContentLineFixedPicksLine |
| sourcemap.py:52-54 | without source content, `None.splitlines()` raises `AttributeError`, which the handler does not catch, so `content_line` raises | a mapping with no source (`source_content` is `None`) | yield `None` | not executed | Mappings.ContentLineRaisesWithoutContent | Mappings.ContentLineFixedLine |

# logseq-analyzer, modelled in Dafny

logseq-analyzer reads a Logseq graph. That is a directory of Markdown pages, journals, assets and a
`config.edn`. It builds an index of the graph's files and computes:

- each file's name data, links and node type;
- the namespace hierarchy and its conflicts;
- the journal timeline and the dangling links;
- the asset back-links;
- the summary reports.

The repository holds three generations of the same analyser:

- the current package, `logseq_analyzer/analysis`, `logseq_file`, `config` and `utils`;
- the older flat modules in `logseq_analyzer/*.py`;
- the first scripts in `src/`.

This project models the core of all three. It covers the data each analysis computes and how that
data is updated. It does not model reading the files: patterns, file contents, dates and
configuration arrive as values.

Modules, one per source concern, each in its own file:

- `PyStr`, `PyInt`, `PyList`, `PyValue`, `Order`, `Wrappers`: the Python builtins the analyser leans on,
  written out over `seq<char>` and `int`: `strip`, `lower`, `split`/`join`, `replace`, `str`/`int`,
  `list.remove`, truthiness and `==`, `sorted`, Option and Result values.
- `FileName`, `LogseqFileModel`, `Bullets`, `Properties`, `Aliases`, `NodeType`: the per-file object.
  This covers the name processing of `logseq_file/name.py` and the content bookkeeping of
  `logseq_file/file.py`. It also covers the bullet statistics, the built-in property split,
  the alias splitter and every variant of `determine_node_type`.
- `LegacyFilename`: the name object of the older `logseq_filename.py`, which strips only a
  trailing file separator, keeps a journal name whose date does not parse, and reads the file type
  from the parent directory alone. Lemmas set it beside `FileName` on concrete names.
- `SummaryData`: the summary pass of the first scripts (`src/summarydata.py`), with its
  asset-first file-type rule.
- `FileIndexModel`: the multi-index `FileIndex` (a class over four maps), with its consistency
  invariant.
- `Tally`, `Backlinks`, `Alphanum`, `Graph`, `LegacyGraph`, `Filters`: the graph pass. This is the
  per-value counts and `found_in` records, the back-link flags (set consumption in the current
  package, two-character buckets in the older code), the dangling links, namespace propagation and
  the record filters. The older graph stores each file under its `LogseqFileHash` key of name,
  parent directory and suffix, so a second file with a stored key replaces the first one.
  In the current package, the namespace branch of `post_processing_content`
  (logseq_analyzer/analysis/graph.py:76-101) and the node-type lookup of `process_summary_data`
  (graph.py:117-119) only run on files whose initialisation stored the file type and the
  processed name, that is, after the correction `FileName.InitIntendedSetsNamespace` of the
  file.py:78-81 finding below. `Graph` takes those fields of each file as free inputs.
- `NamespaceCore`, `NamespaceData`, `NamespacesAnalysis`, `LegacyNamespaces`, `NamespaceAnalyzerModel`,
  `SrcNamespace`, `SrcNamespaceAnalyzer`, `ProcessNamespaces`, `SrcContent`: the namespace analyses.
  `NamespaceCore` holds one generic fold over the stream of (page, part, level) occurrences, with
  one lemma per accumulator. Each generation's class or function set is proved to compute that
  fold's results.
- `DateUtilities`, `DateTokens`, `Journals`, `LegacyJournals`: day arithmetic, the Logseq-to-Python
  date-format conversion, the journal timeline with gaps filled in, the missing days and the
  past/inside/future split of dangling journal days.
- `Edn`: the `config.edn` tokenizer and the recursive-descent parser (a class over a token list).
  The source has no EDN writer. `Edn.Encode` and `Edn.Dumps` are a printer written for the model,
  the partner of the parser in the round-trip lemmas.
- `AssetsAnalysis`, `Summarizers`: asset back-links, the HLS highlight matching, and the file and
  content summarizers.

Where a Python object updates its fields, the model is a `class` with those fields. Its methods
are proved to leave the state that a specification function computes from the old state. Loops
are `while` loops with invariants, proved equal to a fold. A Python dict whose order matters is a
sequence of pairs. A dict whose order is never observed is a `map`.

Several older modules repeat code of the current package unchanged. The members that model the
current copy stand for these copies too:

- `Aliases.ProcessAliases`, `Aliases.OpenMarkerSurvives` and `Aliases.CloseMarkerSurvives` for `process_aliases` in
  logseq_analyzer/helpers.py:92-119 and logseq_analyzer/process_content_data.py:22-49;
- `Properties.SplitBuiltinUserProperties` for logseq_analyzer/process_content_data.py:15-19,
  logseq_analyzer/logseq_file.py:270-275 and __main__.py:360-364;
- `Filters.ExtractSummarySubset` for __main__.py:485-499;
- `Bullets.LogseqBullets.GetPrimaryBullet` and `Bullets.LogseqBullets.IsPrimaryBulletPageProperties`
  for logseq_analyzer/logseq_bullets.py:54-84;
- `NodeType.TableLookup` and `Backlinks.Lookup.CheckIsBacklinked` for
  logseq_analyzer/logseq_file.py:160-175 and 223-232;
- `FileName.AddOrdinalSuffixToDayOfMonth` for logseq_analyzer/logseq_filename.py:140-146.

`src/process_namespaces.get_unique_conflicts` (src/process_namespaces.py:221-241) follows the same
rule as `NamespaceCore.UniqueParentConflicts`, which stands for both.

## Model

| member | source | states |
|---|---|---|
| NodeType.Classify | logseq_analyzer/process_summary_data.py:21-44 | Never "other"; with content the role is branch iff back-linked with outgoing links, leaf iff back-linked without them, root iff not back-linked but linking out, orphan_graph otherwise (orphan_namespace when only namespace-back-linked); without content leaf when back-linked, else the two orphan tags |
| NodeType.TableLookup | logseq_analyzer/logseq_file/file.py:190-205 | The lookup table yields "other" exactly when the file has no content but has outgoing links; on every other key it agrees with the decision tree |
| NodeType.ClassifyNoNamespace | src/summarydata.py:122-139 | The three-flag classifier equals the decision tree with the namespace flag off, so it never gives the namespace orphans or "other" |
| NodeType.ClassifyFlags | __main__.py:457-482 | Exactly one of the five role flags is raised, and it is the role the three-flag classifier gives |
| Backlinks.Consume | logseq_analyzer/process_summary_data.py:10-18 | The answer is membership of the name; the set afterwards is the old set without that name |
| Backlinks.ConsumeAll | logseq_analyzer/process_summary_data.py:10-18 | A run of calls gives one answer per name asked |
| Backlinks.ConsumeAllFirstOccurrence | logseq_analyzer/process_summary_data.py:10-18 | A run of calls answers true exactly at the first occurrence of a name that was in the set, so only one file per name is back-linked |
| Backlinks.RemainingIsDifference | logseq_analyzer/process_summary_data.py:10-18 | The set left after a run is the initial set minus every name asked about |
| Backlinks.Lookup.CheckIsBacklinked | logseq_analyzer/logseq_file/file.py:287-295 | Returns whether the name was in the lookup set and removes exactly that name |
| Backlinks.CheckIsBacklinkedBucket | src/process_summary_data.py:35-48 | False when already back-linked outside namespaces; otherwise membership of the name in the bucket of its id, false for a missing bucket |
| Backlinks.ExactImpliesPrefix | __main__.py:447-454 | The prefix test accepts every name the exact bucket test accepts |
| Backlinks.ChildBacklinksParent | src/summarydata.py:102-119 | A reference to a child page `name/child` in the bucket makes `name` back-linked under the prefix test |
| Filters.ListFilesWithKeys | logseq_analyzer/process_summary_data.py:74-78 | The keys, in dict order, whose record holds a truthy value for every criterion |
| Filters.ListFilesWithoutKeys | src/process_summary_data.py:114-118 | The keys, in dict order, whose record has no value (None) for every criterion |
| Filters.FalsyValueIsNotMissing | logseq_analyzer/process_summary_data.py:56-62 | A key whose record stores False, 0 or "" for a criterion is not listed as lacking it |
| Filters.ListFilesWithKeysAndValues | logseq_analyzer/process_summary_data.py:88-92 | The keys, in dict order, whose record equals the expected value for every criterion |
| Filters.ExtractSummarySubset | src/summarydata.py:142-153 | The (key, record) pairs, in dict order, whose record matches every criterion |
| Filters.FilesWithAttrs | logseq_analyzer/analysis/index.py:114-118 | The file objects, in order, that have every listed attribute, by presence alone (`hasattr`) |
| Filters.NamesWithoutAttrs | logseq_analyzer/analysis/index.py:106-112 | The names of the file objects lacking every listed attribute, both directions, in the objects' order |
| Filters.HasKeyWithValues | src/process_summary_data.py:21-25 | True iff some listed key holds a truthy value |
| Filters.CheckHasBacklinks | src/process_summary_data.py:28-32 | True iff one of the seven link keys holds a truthy value |
| Alphanum.CreateAlphanum | src/contentdata.py:204-213 | Every non-empty item lands in the bucket of its id (first two characters, or "!" and its one character), empty items are skipped, every bucket is non-empty |
| Alphanum.BucketedMember | src/contentdata.py:204-213 | A non-empty item is in its own bucket, and only items of the input are in any bucket |
| Alphanum.BucketUnion | src/contentdata.py:204-213 | The union of the buckets is exactly the set of non-empty items |
| Alphanum.BucketLookupIsMembership | src/process_summary_data.py:44-48 | Looking a name up in the bucket of its own id is the same as asking whether it is among the references |
| Alphanum.IdentifyDanglingLinks | src/contentdata.py:189-201 | The result is every reference absent from the file-name bucket with the same id, minus the aliases |
| Alphanum.MainDanglingLinks | __main__.py:308-335 | The first script's dangling links: sorted, without duplicates, and exactly the non-empty linked references that are no file name (that script has no aliases) |
| Alphanum.DanglingIsSetDifference | src/contentdata.py:189-201 | The bucketed computation is the plain set difference: non-empty references that are neither file names nor aliases |
| Aliases.Piece | logseq_analyzer/utils/helpers.py:53 | A finished piece is stripped and lower-case |
| Aliases.ScanAliases | logseq_analyzer/utils/helpers.py:43-64 | The index/buffer loop computes the bracket-aware split, and every alias it returns is non-empty, stripped and lower-case |
| Aliases.ProcessAliases | logseq_analyzer/utils/helpers.py:37-64 | The aliases are the bracket-aware split of the stripped value, each non-empty, stripped and lower-case |
| Aliases.AliasesWellFormed | logseq_analyzer/utils/helpers.py:52-64 | Whatever the input, no empty, unstripped or upper-case alias is produced |
| Aliases.MarkerAtIsSlice | logseq_analyzer/utils/helpers.py:45-50 | The two-character marker test is the slice comparison `aliases[i:i+2] == "[["` / `"]]"` |
| Aliases.NoBracketsIsCommaSplit | logseq_analyzer/utils/helpers.py:37-64 | Without any bracket character the result is a split on every comma, each field stripped and lower-cased, blank fields dropped |
| Aliases.BracketedRun | logseq_analyzer/utils/helpers.py:45-60 | A run `[[body]]` with no bracket inside is appended to the open piece whole, commas included, and splitting is on again after it |
| Aliases.CloseAfter | logseq_analyzer/utils/helpers.py:48-50 | A `]]` after a stretch scanned with splitting off switches splitting back on |
| Aliases.BracketedCommaKept | logseq_analyzer/utils/helpers.py:37-64 | `a[[x,y]]b`-style input keeps the comma inside brackets in a single alias |
| Aliases.Field | logseq_analyzer/utils/helpers.py:51-56 | A comma-terminated field emits its piece (when non-blank) and moves past the comma |
| Aliases.LastField | logseq_analyzer/utils/helpers.py:61-64 | The field after the last comma is emitted at the end of the input |
| Aliases.CommaList | logseq_analyzer/utils/helpers.py:37-64 | A comma-joined list of bracket-free fields comes back as their pieces, in order |
| Aliases.CleanCommaList | logseq_analyzer/utils/helpers.py:37-64 | Fields that are already non-empty, stripped and lower-case come back unchanged ("a,b,c" gives ["a","b","c"]) |
| Aliases.PaddedPiece | logseq_analyzer/utils/helpers.py:53 | Padding around a field is dropped and the rest lower-cased ("  A  ,  B  " gives ["a","b"]) |
| Aliases.BlankFieldDropped | logseq_analyzer/utils/helpers.py:54-55 | A blank field between commas leaves no alias ("x,,y," gives ["x","y"]) |
| Aliases.PrefixThenBracketed | logseq_analyzer/utils/helpers.py:45-60 | Plain text followed by a bracketed run forms one open piece |
| Aliases.CommaThenLast | logseq_analyzer/utils/helpers.py:51-64 | A comma then a last plain field emit the open piece and then the field, in order |
| Aliases.PrefixBracketedThenField | logseq_analyzer/utils/helpers.py:37-64 | `pre[[body]],last` gives the alias `pre body` with its commas, then `last` ("alias1 [[alias2,alias3]], alias4" gives ["alias1 alias2,alias3", "alias4"]) |
| Bullets.ContentChunks | logseq_analyzer/logseq_file/bullets.py:67-73 | The kept bullets are the stripped non-blank chunks, each non-blank, in order |
| Bullets.BlankCount | logseq_analyzer/logseq_file/bullets.py:69-70 | The number of chunks that are blank once stripped, at most the number of chunks |
| Bullets.ChunksCounted | logseq_analyzer/logseq_file/bullets.py:67-73 | Every later chunk is counted once, as a content bullet or as a blank one |
| Bullets.CountBullet | logseq_analyzer/logseq_file/bullets.py:68-73 | One pass: a blank bullet bumps the blank count, any other is kept stripped |
| Bullets.CountLaterBullets | logseq_analyzer/logseq_file/bullets.py:67-73 | The loop over `all_bullets[1:]` yields exactly the content chunks and the blank count |
| Bullets.HashPrimaryHasNoProperties | logseq_analyzer/logseq_file/bullets.py:80-84 | A primary bullet that starts with "#" never marks page properties |
| Bullets.LogseqBullets.constructor | logseq_analyzer/logseq_file/bullets.py:28-35 | After initialisation: character count, chunks (none for empty content), primary bullet and the counts by the one-chunk and many-chunk cases, content plus blank bullets equal the later chunks, page-property flag iff a non-blank primary not starting with "#" |
| Bullets.LogseqBullets.GetPrimaryBullet | logseq_analyzer/logseq_file/bullets.py:56-73 | The whole new state: one chunk sets primary and count 1 or the blank count, several chunks set the primary and add the later chunks' content and blank counts; nothing else changes |
| Bullets.LogseqBullets.IsPrimaryBulletPageProperties | logseq_analyzer/logseq_file/bullets.py:80-84 | The flag is raised iff the stripped primary is non-empty and not a heading or tag, and never lowered; nothing else changes |
| Bullets.OlderBulletCounts | src/logseq_file.py:42-55 | A single chunk counts nothing; otherwise the content count is the number of non-blank later chunks and the two counts add up to the later chunks |
| Bullets.BulletDensity | __main__.py:197-203 | Floor division of the character count by the bullet count, 0 without bullets |
| Aliases.OpenMarkerSurvives | logseq_analyzer/utils/helpers.py:45-50 | A marker can end up inside an alias: `[]][` gives ["[["] |
| Aliases.CloseMarkerSurvives | logseq_analyzer/utils/helpers.py:45-50 | Likewise `][[]` gives ["]]"] |
| DateTokens.GetOrAt | logseq_analyzer/config/datetime_tokens.py:124-130 | `_token_map.get(token, token)`: a key of the table is looked up to its own directive |
| DateTokens.GetOrFrom | logseq_analyzer/config/datetime_tokens.py:124-130 | The replacement is a directive of the table or the token itself |
| DateTokens.FirstMatch | logseq_analyzer/config/datetime_tokens.py:99-104 | The alternation match at a position is one of the alternatives and a prefix of the remaining text |
| DateTokens.FirstMatchNone | logseq_analyzer/config/datetime_tokens.py:99-104 | The alternation fails exactly when no alternative is a prefix of the text |
| DateTokens.FirstMatchLongest | logseq_analyzer/config/datetime_tokens.py:99-104 | With the alternatives sorted longest first, the match found is at least as long as any alternative that matches |
| DateTokens.MatchIsLongest | logseq_analyzer/config/datetime_tokens.py:99-104 | With the alternatives sorted longest first, the alternation returns k iff k is a longest matching alternative |
| DateTokens.SubAtToken | logseq_analyzer/config/datetime_tokens.py:116-122 | Where a longest token starts, its directive is emitted and the substitution resumes after it |
| DateTokens.SubCopies | logseq_analyzer/config/datetime_tokens.py:116-122 | Where no token starts, the character is copied and the substitution resumes at the next one |
| DateTokens.SubAvoids | logseq_analyzer/config/datetime_tokens.py:116-122 | A character absent from the input and from every directive is absent from the output |
| DateTokens.ConvertedHasNoO | logseq_analyzer/config/datetime_tokens.py:116-122 | The converted format never contains "o": it is deleted first and no directive contains it |
| DateTokens.TokenPattern | logseq_analyzer/config/datetime_tokens.py:99-104 | The compiled alternation holds exactly the keys of the token map, none empty, sorted longest first |
| DateTokens.TableIsRuns | logseq_analyzer/config/datetime_tokens.py:11-41 | Every key of the token map is a run of one repeated letter |
| DateTokens.KeyWithinRun | logseq_analyzer/config/datetime_tokens.py:11-41 | A token found at the start of the text is no longer than the run of its first letter there |
| DateTokens.TableGet | logseq_analyzer/config/datetime_tokens.py:11-41 | Looking up any key of the token map gives that key's own directive (keys are distinct) |
| DateTokens.TableStep | logseq_analyzer/config/datetime_tokens.py:116-130 | A whole run equal to a key of the token map is replaced by that key's directive |
| DateTokens.TableCopy | logseq_analyzer/config/datetime_tokens.py:116-130 | A character that no token is made of is copied unchanged |
| DateTokens.RemoveSingleChar | logseq_analyzer/config/datetime_tokens.py:120 | Deleting a character that occurs once removes exactly that occurrence |
| DateTokens.SampleEEEE | logseq_analyzer/config/datetime_tokens.py:116-122 | "EEEE" converts to "%A" |
| DateTokens.SampleIso | logseq_analyzer/config/datetime_tokens.py:116-122 | "yyyy-MM-dd" converts to "%Y-%m-%d" |
| DateTokens.SampleOrdinal | logseq_analyzer/config/datetime_tokens.py:116-122 | "MMM do, yyyy" converts to "%b %#d, %Y" |
| DateTokens.LogseqJournalFormats.constructor | logseq_analyzer/config/datetime_tokens.py:52-57 | Both Python formats start empty |
| DateTokens.LogseqDateTimeTokens.constructor | logseq_analyzer/config/datetime_tokens.py:92-97 | No pattern is compiled yet |
| DateTokens.LogseqDateTimeTokens.SetDatetimeTokenPattern | logseq_analyzer/config/datetime_tokens.py:99-104 | The pattern becomes the longest-first alternation of the token map's keys |
| DateTokens.LogseqDateTimeTokens.ConvertCljsDateToPy | logseq_analyzer/config/datetime_tokens.py:116-122 | Fails before the pattern is compiled; otherwise deletes every "o" and substitutes each longest token by its directive |
| DateTokens.LogseqDateTimeTokens.SetJournalPyFormatting | logseq_analyzer/config/datetime_tokens.py:106-114 | Succeeds iff the pattern is compiled and both journal settings are present, and then both formats are their conversions |
| DateUtilities.Next | logseq_analyzer/utils/date_utilities.py:19-22 | The next day is exactly one day later |
| DateUtilities.Min | logseq_analyzer/utils/date_utilities.py:56 | The minimum of a non-empty list is one of its dates and no later than any of them |
| DateUtilities.Max | logseq_analyzer/utils/date_utilities.py:57 | The maximum of a non-empty list is one of its dates and no earlier than any of them |
| DateUtilities.Range | logseq_analyzer/utils/date_utilities.py:24-40 | No day count iff the two dates coincide (a zero delta is falsy); otherwise the inclusive number of days |
| DateUtilities.Stats | logseq_analyzer/utils/date_utilities.py:42-59 | An empty timeline gives `datetime.min` bounds and 0 days; otherwise the bounds are dates of the timeline enclosing every date, and the days are their range |
| DateUtilities.StatsOfOneDay | logseq_analyzer/utils/date_utilities.py:35-36 | A timeline of one date, repeated or not, gets no day count rather than 1 |
| DateUtilities.AddOrdinalSuffixToDayOfMonth | logseq_analyzer/utils/date_utilities.py:61-67 | Fails iff the string is not an integer; otherwise the string itself followed by the ordinal suffix of its value |
| DateUtilities.OrdinalAgreesWithFileName | logseq_analyzer/utils/date_utilities.py:61-67 | On a number's canonical spelling this helper agrees with the file-name helper of the same name |
| DateUtilities.OrdinalKeepsPadding | logseq_analyzer/utils/date_utilities.py:61-67 | A zero-padded day keeps its padding ("01" gives "01st") |
| Edn.Put | logseq_analyzer/config/edn_parser.py:104 | Storing a key that no stored key equals under Python's `==` (where `True == 1`) appends the entry at the end of the dict |
| Edn.PutLookup | logseq_analyzer/config/edn_parser.py:104 | After `result[key] = val` the key maps to `val`; the key list is unchanged when an equal key was stored (it keeps its place and spelling) and gains the key at the end otherwise |
| Edn.DigitsEnd | logseq_analyzer/config/edn_parser.py:173 | The `\d+` run from a position: all digits up to the end found, and the next character is no digit |
| Edn.IntTokenParses | logseq_analyzer/config/edn_parser.py:175-182 | A number token without ".", "e" or "E" is accepted by `int()` |
| Edn.NumberValue | logseq_analyzer/config/edn_parser.py:175-182 | A number token gives an int iff it has none of ".", "e", "E", otherwise a float |
| Edn.IntToStringIsNumber | logseq_analyzer/config/edn_parser.py:169-182 | `str(i)` is an integer number token and reads back as `i` |
| Edn.NumberSamples | logseq_analyzer/config/edn_parser.py:169-182 | "6.022e23" is a float token, "-7" reads as -7, and "1.2.3" is no number |
| Edn.ValueAt | logseq_analyzer/config/edn_parser.py:56-81 | A value read from a position consumes at least one token and stays within the token list |
| Edn.ItemsAt | logseq_analyzer/config/edn_parser.py:107-133 | The vector/list loop, when it succeeds, consumes at least the closing token and stays within the list |
| Edn.ElemsAt | logseq_analyzer/config/edn_parser.py:135-147 | The set loop, when it succeeds, consumes at least the closing token and stays within the list |
| Edn.EntriesAt | logseq_analyzer/config/edn_parser.py:83-105 | The map loop, when it succeeds, consumes at least the closing token and stays within the list |
| Edn.ParseComplete | logseq_analyzer/config/edn_parser.py:47-54 | `parse` gives v iff one value v takes up every token |
| Edn.ParseExtra | logseq_analyzer/config/edn_parser.py:52-53 | A value followed by more tokens is refused, naming the first extra token |
| Edn.EndOfInputErrors | logseq_analyzer/config/edn_parser.py:60-62 | Empty input, and input that ends right after an opener, raise the end-of-input error |
| Edn.StrayCloserIsSymbol | logseq_analyzer/config/edn_parser.py:76-81 | A closing token in value position is no error: it is returned as the symbol it spells |
| Edn.SmallInts | logseq_analyzer/config/edn_parser.py:175-182 | The tokens `1` and `2` are the integers 1 and 2 |
| Edn.VectorKeyBecomesTuple | logseq_analyzer/config/edn_parser.py:97-104 | A vector used as a map key is stored as a tuple: `{[1 2] "value"}` has the key (1, 2) |
| Edn.QuotedValue | logseq_analyzer/config/edn_parser.py:149-155 | A string token is returned as what `literal_eval` makes of it |
| Edn.VectorOneTwo | logseq_analyzer/config/edn_parser.py:107-119 | The tokens `[ 1 2 ]`, wherever they stand, read as the list [1, 2] and consume four tokens |
| Edn.UnhashableSetElement | logseq_analyzer/config/edn_parser.py:146 | A vector inside a set cannot be hashed: `#{[1]}` raises TypeError |
| Edn.LogseqConfigEDN.constructor | logseq_analyzer/config/edn_parser.py:26-31 | The parser holds the tokens and starts at position 0 |
| Edn.LogseqConfigEDN.Peek | logseq_analyzer/config/edn_parser.py:33-37 | The token at the position, None past the end |
| Edn.LogseqConfigEDN.Next | logseq_analyzer/config/edn_parser.py:39-45 | The token at the old position (None past the end), and the position moves on by exactly one |
| Edn.LogseqConfigEDN.Parse | logseq_analyzer/config/edn_parser.py:47-54 | The method computes the whole-input parse function, errors included |
| Edn.LogseqConfigEDN.ParseValue | logseq_analyzer/config/edn_parser.py:56-81 | The value or error and the new position are those of the value function at the old position |
| Edn.LogseqConfigEDN.ParseSequence | logseq_analyzer/config/edn_parser.py:107-133 | The vector or list and the new position are those of the items loop after the opener |
| Edn.LogseqConfigEDN.ParseSet | logseq_analyzer/config/edn_parser.py:135-147 | The set and the new position are those of the set loop after `#{` |
| Edn.LogseqConfigEDN.ParseMap | logseq_analyzer/config/edn_parser.py:83-105 | The dict and the new position are those of the map loop after `{` |
| Edn.NoCommentsKept | logseq_analyzer/config/edn_parser.py:214 | Text without ";" is left unchanged by the comment removal |
| Edn.CommentDropped | logseq_analyzer/config/edn_parser.py:214 | A comment runs from its ";" to the end of its line; the newline and the rest stay |
| Edn.CommentCutsString | logseq_analyzer/config/edn_parser.py:214-217 | The comment removal runs before tokenizing, so `"a;b"` loses its closing quote, the lone quote matches nothing, and only the atom `a` is left |
| Edn.LexSkipsRun | logseq_analyzer/config/edn_parser.py:10-18 | Whitespace and commas between tokens are stepped over |
| Edn.LexJoin | logseq_analyzer/config/edn_parser.py:208-217 | The tokenizer splits space-joined atoms and brackets back into exactly those tokens |
| Edn.EncodeParses | logseq_analyzer/config/edn_parser.py:56-147 | Every printable value is read back whole from its tokens, wherever they stand |
| Edn.DumpsTokens | logseq_analyzer/config/edn_parser.py:208-217 | The text of a printable value tokenizes to that value's tokens |
| Edn.LoadsDumps | logseq_analyzer/config/edn_parser.py:199-205 | `loads` reads back every printable value (nested vectors, and maps whose scalar keys are pairwise unequal under Python's `==`; keywords, integers, literals) from its printed text |
| Edn.KeyEqReflexive | logseq_analyzer/config/edn_parser.py:104 | Every key equals itself under the model of Python's `==` on keys |
| Edn.KeyEqSymmetric | logseq_analyzer/config/edn_parser.py:104 | Key equality is symmetric |
| Edn.BoolKeyJoinsInt | logseq_analyzer/config/edn_parser.py:104 | `{1 :a true :b}` leaves one entry: the key `1`, keeping its spelling, with the second value |
| Edn.AddElemUnequal | logseq_analyzer/config/edn_parser.py:146 | `result.add(x)` keeps the set's elements pairwise unequal, leaves an element equal to `x`, keeps every old element and adds at most one |
| Edn.TrueJoinsOne | logseq_analyzer/config/edn_parser.py:146 | `#{1 true}` holds only `1`: adding `True` to `{1}` changes nothing |
| Edn.EqualKeysNotPrintable | logseq_analyzer/config/edn_parser.py:97-104 | A map with the keys `1` and `true` is not printable, so the round trip covers only maps that `loads` keeps whole |
| FileIndexModel.MatchesAll | logseq_analyzer/analysis/index.py:94 | True iff every criterion's attribute exists and equals the expected value; an error only when some attribute is missing |
| FileIndexModel.MatchingFiles | logseq_analyzer/analysis/index.py:90-96 | On success the result keeps iteration order and holds exactly the files matching every criterion; an error only when some file lacks an attribute |
| FileIndexModel.FileIndex.constructor | logseq_analyzer/analysis/index.py:17-22 | The four maps start empty, which is a valid index |
| FileIndexModel.FileIndex.Len | logseq_analyzer/analysis/index.py:32-34 | On a consistent index the length is the number of indexed files |
| FileIndexModel.FileIndex.Add | logseq_analyzer/analysis/index.py:36-41 | The file is in the file set, is its own hash entry, is appended to its name's list and owns its path |
| FileIndexModel.FileIndex.Get | logseq_analyzer/analysis/index.py:43-51 | An int finds nothing, a name finds its list (empty when unknown, and only files of that name on a consistent index), a path finds its file or None, any other key raises TypeError |
| FileIndexModel.FileIndex.Remove | logseq_analyzer/analysis/index.py:53-88 | The new state and the success flag are those of the removal function for the key's kind |
| FileIndexModel.FileIndex.UnindexLoop | logseq_analyzer/analysis/index.py:75-78 | The loop of the name branch computes the removal function over the listed files, stopping at the first that raises |
| FileIndexModel.FileIndex.ListFilesWithKeysAndValues | logseq_analyzer/analysis/index.py:90-96 | Given the indexed files once each in iteration order, the result is the matching-files function over that order; on success it holds exactly the indexed files matching every criterion |
| FileIndexModel.SelectMatching | logseq_analyzer/analysis/index.py:92-96 | The loop computes the matching-files function |
| FileIndexModel.UnindexAllStops | logseq_analyzer/analysis/index.py:75-78 | Once a removal in the loop has raised, later files change nothing |
| FileIndexModel.AddConsistent | logseq_analyzer/analysis/index.py:36-41 | Adding a file whose path is free keeps the four maps consistent and puts the file in all of them |
| FileIndexModel.AddAbsentValid | logseq_analyzer/analysis/index.py:36-41 | Adding a file not yet indexed keeps the index exact (no duplicate in any name list) |
| FileIndexModel.AddPresentDuplicates | logseq_analyzer/analysis/index.py:36-41 | Adding an indexed file again leaves the file set alone but lists the file a second time under its name |
| FileIndexModel.RemoveFileValid | logseq_analyzer/analysis/index.py:55-63 | Removing an indexed file by object succeeds, takes it out of all four maps and keeps the index exact |
| FileIndexModel.RemoveAbsentFile | logseq_analyzer/analysis/index.py:55-63 | Removing a file that is not indexed changes nothing |
| FileIndexModel.UnindexAllValid | logseq_analyzer/analysis/index.py:75-78 | Over distinct indexed files the loop succeeds and takes them out of the file set, the hash map and the path map |
| FileIndexModel.RemoveNameValid | logseq_analyzer/analysis/index.py:73-79 | On an exact index `remove(name)` succeeds, drops the name and removes exactly the files of that name |
| FileIndexModel.GoneIsNamed | logseq_analyzer/analysis/index.py:73-79 | On an exact index the files listed under a name are exactly the indexed files of that name |
| FileIndexModel.UnindexAllRemoves | logseq_analyzer/analysis/index.py:75-78 | A successful loop leaves none of the files it went through indexed |
| FileIndexModel.AddTwiceRemoveOnceLeavesStale | logseq_analyzer/analysis/index.py:36-63 | Adding a file twice then removing it once leaves it listed under its name though gone from the file set: the index is no longer exact |
| FileIndexModel.AddTwiceRemoveNameRaises | logseq_analyzer/analysis/index.py:36-79 | Removing the name of a file listed twice raises part-way through the loop |
| FileIndexModel.AddOnceValid | logseq_analyzer/analysis/index.py:36-41 | The membership-guarded add keeps the index exact whether or not the file was there |
| FileIndexModel.FileIndex.AddOnce | logseq_analyzer/analysis/index.py:36-41 | `add` guarded by membership, as the removal code evidently assumes: adding a file already indexed changes nothing, so no name list holds a duplicate |
| FileName.RStripChars | logseq_analyzer/logseq_file/name.py:56 | `rstrip(chars)`: a prefix of the text, not ending in a stripped character, with only stripped characters removed |
| FileName.LStripChars | logseq_analyzer/logseq_file/name.py:56 | `lstrip(chars)`: a suffix of the text, not starting with a stripped character, with only stripped characters removed |
| FileName.ReplaceLeavesNone | logseq_analyzer/logseq_file/name.py:59 | Replacing every file separator by a text sharing no character with it leaves no separator |
| FileName.AddOrdinalSuffixToDayOfMonth | logseq_analyzer/logseq_file/name.py:164-171 | The day as written followed by one of "st", "nd", "rd", "th" |
| FileName.OrdinalIsEnglish | logseq_analyzer/logseq_file/name.py:164-171 | On days 1-31 the suffix is the English ordinal (1st, 2nd, 3rd, 11th-13th, 21st, 22nd, 23rd, 31st) |
| FileName.OrdinalOnlyCoversDays | logseq_analyzer/logseq_file/name.py:164-171 | Only 11-13 are special-cased, so 111 gets "st" where English says "th" |
| FileName.ParentTypeLookup | logseq_analyzer/logseq_file/name.py:139-147 | The directory lookup gives "other" exactly for a parent that is no configured directory, and each configured directory its own type |
| FileName.FileTypeByParent | logseq_analyzer/logseq_file/name.py:135-150 | A file directly in a configured directory gets that directory's type |
| FileName.FileTypeBySubdirectory | logseq_analyzer/logseq_file/name.py:149-162 | Elsewhere the first of assets, draws, journals, pages, whiteboards among the path parts decides the sub_ type, in that order, and "other" means none is there |
| FileName.PartLevelsLast | logseq_analyzer/logseq_file/name.py:123 | `{part: level}`: every part is a key, mapped to its last 1-based position |
| FileName.IfTruthy | logseq_analyzer/logseq_file/name.py:131-133 | An attribute is set iff its value is non-empty, and then to that value |
| FileName.NamespaceFields | logseq_analyzer/logseq_file/name.py:114-133 | For a name with "/": the level is the number of parts (at least 2), the root is the text before the first "/" (unset for a leading "/"), and parent-full, "/" and stem rebuild the name |
| FileName.Rebuild | logseq_analyzer/logseq_file/name.py:128-129 | The full parent, a "/" and the stem give back the name |
| FileName.FirstPart | logseq_analyzer/logseq_file/name.py:121 | The root is the text before the first "/", empty exactly for a leading "/" |
| FileName.NamespaceParent | logseq_analyzer/logseq_file/name.py:127 | The parent is the part before the stem when there are more than two parts, otherwise the root |
| FileName.NotNamespaceNoOp | logseq_analyzer/logseq_file/name.py:116-117 | A name that is no namespace gets no namespace data |
| FileName.JournalTitle | logseq_analyzer/logseq_file/name.py:70-90 | A journal page title never contains an apostrophe |
| FileName.ProcessedNameHasNoSeparator | logseq_analyzer/logseq_file/name.py:52-60 | Outside the journals directory no file separator survives in the processed name |
| FileName.ProcessedJournalName | logseq_analyzer/logseq_file/name.py:57-58 | A journal's processed name has no apostrophe, and is "" when its date does not parse |
| FileName.InitAsWrittenLosesNameData | logseq_analyzer/logseq_file/file.py:74-83 | As written, initialisation leaves a fresh name object unchanged: no file type, processed name or namespace flag is kept |
| FileName.InitIntendedSetsNamespace | logseq_analyzer/logseq_file/file.py:74-83 | With the results stored, a page whose processed name has a "/" becomes a namespace with its level and file type set |
| FileName.LogseqFilename.constructor | logseq_analyzer/logseq_file/name.py:43-50 | The stem is kept as the original name and lower-cased as the name; parent and suffix are lower-cased |
| FileName.LogseqFilename.GetNamespaceNameData | logseq_analyzer/logseq_file/name.py:114-133 | The namespace fields become the truthy values derived from the name's parts, only for a namespace |
| FileName.LogseqFilename.InitFileData | logseq_analyzer/logseq_file/file.py:78-81 | The four calls as written: the returned file type and processed name are dropped |
| FileName.LogseqFilename.InitNameData | logseq_analyzer/logseq_file/file.py:78-81 | With the results stored: the file type, the processed name, the namespace and hls flags from it, and its namespace fields |
| Graph.GatheredMembers | logseq_analyzer/analysis/graph.py:43-55 | A gathered value is a value of one of the listed criteria of the file's data |
| Graph.NonEmptyCount | logseq_analyzer/analysis/graph.py:56 | The flattening filter keeps every occurrence of each non-empty item and drops the empty ones |
| Graph.LinkedReferencesCount | logseq_analyzer/analysis/graph.py:43-56 | A file's linked references are each non-empty value of the nine criteria plus its namespace parent, occurrence by occurrence |
| Graph.ParentIsLinked | logseq_analyzer/analysis/graph.py:63-64 | The namespace parent is always among the linked references, so its removal cannot raise |
| Graph.UniqueRefsMembers | logseq_analyzer/analysis/graph.py:63-66 | A linked reference reaches the unique set unless it is the namespace parent and occurs only once |
| Graph.RemoveFirstMembers | logseq_analyzer/analysis/graph.py:64 | `list.remove(p)` loses `p` only when it occurred once, and keeps every other item |
| Graph.LevelSetOnce | logseq_analyzer/analysis/graph.py:86-91 | A level once set is never overwritten, an absent one takes the given value, and the child joins the children |
| Graph.SizeCountsNewChildren | logseq_analyzer/analysis/graph.py:103-108 | Adding a new child keeps `ns_size` equal to the number of children |
| Graph.SizeDriftsOnRepeat | logseq_analyzer/analysis/graph.py:103-108 | Adding a child already present leaves the children alone but still bumps `ns_size` past their number |
| Graph.Positions | logseq_analyzer/analysis/index.py:47-48 | `index.get(name)`: exactly the positions of the files with that name, increasing |
| Graph.UpdateFiles | logseq_analyzer/analysis/graph.py:85-101 | The loop over the files of one name computes the namespace update function |
| Graph.ContentIteration | logseq_analyzer/analysis/graph.py:36-66 | One iteration of the file loop advances the content fold by one file |
| Graph.NsIteration | logseq_analyzer/analysis/graph.py:37-38 | The namespace step of one file advances the namespace fold by one file |
| Graph.TallyIteration | logseq_analyzer/analysis/graph.py:58-61 | The tallies of one file's references advance the tally fold by one file |
| Graph.SetsIteration | logseq_analyzer/analysis/graph.py:40-41 | The sets gain one file's references, namespace names and aliases, advancing the set fold by one file |
| Graph.NsFoldLength | logseq_analyzer/analysis/graph.py:36-38 | The namespace updates keep one attribute record per file |
| Graph.ContentLoop | logseq_analyzer/analysis/graph.py:36-66 | The loop computes the content fold over all files |
| Graph.ContentTallies | logseq_analyzer/analysis/graph.py:58-61 | Every linked item's count grows by its occurrences over the files, and each tally's count equals the length of its found-in list |
| Graph.ContentSets | logseq_analyzer/analysis/graph.py:40-82 | The unique set gains exactly each file's references less one namespace-parent occurrence, the namespace set each namespace's root and name, the alias set each file's aliases |
| Graph.DanglingLinks | logseq_analyzer/analysis/graph.py:70-74 | Dangling links are the linked names (plain or namespace) that name no file and are no alias |
| Graph.DanglingIsLinkedUnnamed | logseq_analyzer/analysis/graph.py:36-74 | From empty sets, x is dangling iff some file links x (or it is a namespace's root or name), no file is named x and no file has x as alias |
| Graph.NsPostTargets | logseq_analyzer/analysis/graph.py:76-101 | A namespace step touches only the root's files, and the parent's files when the level exceeds 2; the files it touches gain the child |
| Graph.SummaryStep | logseq_analyzer/analysis/graph.py:112-121 | One iteration keeps one flag and node type per file |
| Graph.SummaryLoop | logseq_analyzer/analysis/graph.py:110-121 | The loop computes the summary fold over all files |
| Graph.SummaryFlags | logseq_analyzer/analysis/graph.py:110-121 | After the loop no processed file is both back-linked and namespace-only back-linked; journals and pages get the table node type, other files keep theirs; unprocessed files are untouched; the sets only shrink |
| Graph.SummaryConsumes | logseq_analyzer/analysis/graph.py:112-119 | A file reached with both flags false becomes namespace-only back-linked iff its name is in the namespace set, back-linked iff it is in the plain set and not the namespace one, and its name leaves both sets |
| Graph.CurrentContent | logseq_analyzer/analysis/graph.py:33-74 | The post-processing computes the content function of the current rules |
| Graph.LogseqGraph.constructor | logseq_analyzer/analysis/graph.py:16-21 | Empty tallies and sets; each file starts with its own namespace level, no flags and node type "other" |
| Graph.LogseqGraph.PostProcessingContent | logseq_analyzer/analysis/graph.py:33-74 | The tallies, sets, namespace attributes and dangling links become the content function of the old state |
| Graph.LogseqGraph.ProcessSummaryData | logseq_analyzer/analysis/graph.py:110-121 | The flags and node types become the summary fold, and no file is both back-linked and namespace-only back-linked |
| Graph.LegacyRulesKeepSize | logseq_analyzer/logseq_graph.py:117-134 | Under the older rules `ns_size` always equals the number of children, a root's level becomes 1, and a parent's level is never lowered and is at least the child's level minus one |
| LegacyGraph.Slot | logseq_analyzer/logseq_file.py:415-433 | The slot found for a key is the first that holds it, or one past the end when none does |
| LegacyGraph.SlotUnique | logseq_analyzer/logseq_file.py:415-433 | With distinct keys, a slot holding the key is the slot found |
| LegacyGraph.IndexKeys | logseq_analyzer/logseq_graph.py:50 | The keys of an index of the files are exactly the files' names |
| LegacyGraph.ReadOne | logseq_analyzer/logseq_graph.py:46-53 | Reading one file keeps one entry per slot; a stored key keeps the slots, a new key is appended after them, and the file's key is stored afterwards |
| LegacyGraph.ReadOneWellformed | logseq_analyzer/logseq_graph.py:46-53 | Reading one file keeps keys distinct, each slot's key naming its file, and the name map an index of the files |
| LegacyGraph.ReadOneFile | logseq_analyzer/logseq_graph.py:49 | After reading, the slot of the file's key holds that file and every other slot keeps its file |
| LegacyGraph.ReadAllWellformed | logseq_analyzer/logseq_graph.py:46-53 | Reading any sequence of files keeps the graph well formed |
| LegacyGraph.ReadAllKeys | logseq_analyzer/logseq_graph.py:46-53 | After reading, every key read is stored, and every stored key was stored before or read |
| LegacyGraph.SameKeyCollapses | logseq_analyzer/logseq_graph.py:46-53 | Two files with one key leave one stored file, the second, and their name lists that hash twice |
| LegacyGraph.FreshKey | logseq_analyzer/logseq_file.py:415-433 | With distinct keys read in order, the next file's key is not yet stored |
| LegacyGraph.SlotsStep | logseq_analyzer/logseq_graph.py:46-53 | A file with a new key takes the next slot, after the files read before it |
| LegacyGraph.FreshKeyPositions | logseq_analyzer/logseq_graph.py:50 | A file with a new key keeps every name's hash list equal to the positions of that name's files |
| LegacyGraph.DistinctKeysRead | logseq_analyzer/logseq_graph.py:46-53 | When no two files read share a key, the graph is well formed, file k sits in slot k with its key, and each name lists exactly the slots of its files in reading order |
| LegacyGraph.WellformedNs | logseq_analyzer/logseq_graph.py:56-134 | Writing one namespace record per slot keeps the graph well formed |
| LegacyGraph.LogseqGraph.ProcessGraphFiles | logseq_analyzer/logseq_graph.py:42-53 | The graph becomes the result of reading the files in order, each into the slot of its key, and stays well formed |
| LegacyGraph.LogseqGraph.ReadFile | logseq_analyzer/logseq_graph.py:46-53 | One loop iteration makes the graph the result of reading that file |
| LegacyGraph.LegacySizeAlwaysCounts | logseq_analyzer/logseq_graph.py:107-134 | The older namespace propagation keeps every file's `ns_size` equal to its number of children and one record per file |
| LegacyGraph.FindMention | logseq_analyzer/logseq_graph.py:309-312 | The innermost loop finds a mention iff some mention contains the asset's name or the mentioning file's name |
| LegacyGraph.MarkAssets | logseq_analyzer/logseq_graph.py:293-312 | One flag per file; what each flag becomes is stated by MarkFromFile and MarkAll |
| LegacyGraph.MarkHashes | logseq_analyzer/logseq_graph.py:303-312 | Over the files named `asset`, a flag becomes true iff it was true or that file is mentioned by the file at position p |
| LegacyGraph.MarkAsset | logseq_analyzer/logseq_graph.py:300-312 | A missing name changes nothing; otherwise the flags of that name's files are raised exactly where mentioned |
| LegacyGraph.MarkFromFile | logseq_analyzer/logseq_graph.py:300-312 | For one mentioning file, a flag becomes true iff it was true or its file is in the asset subset and is mentioned by it |
| LegacyGraph.MarkAll | logseq_analyzer/logseq_graph.py:297-312 | The loop over all files with asset mentions computes the marking function |
| LegacyGraph.AssetsPartition | logseq_analyzer/logseq_graph.py:314-317 | The back-linked and the not back-linked asset lists split the asset files between them, as a multiset and in length |
| LegacyGraph.LegacyContent | logseq_analyzer/logseq_graph.py:56-105 | The content pass computes the content function of the older rules, with dangling links taken against the name map's keys |
| LegacyGraph.LogseqGraph.constructor | logseq_analyzer/logseq_graph.py:19-34 | Every container starts empty |
| LegacyGraph.LogseqGraph.PostProcessingContent | logseq_analyzer/logseq_graph.py:56-134 | The tallies, sets, namespace attributes and dangling links become the content function of the older rules |
| LegacyGraph.LogseqGraph.ProcessSummaryData | logseq_analyzer/logseq_graph.py:136-149 | The flags and node types become the summary fold of the older rules: never both flags, and "other" for every file that is no journal or page |
| LegacyGraph.LogseqGraph.HandleAssets | logseq_analyzer/logseq_graph.py:293-317 | The flags become the marking function of the old flags, then the two asset lists are the asset files by flag |
| Journals.SortDays | logseq_analyzer/analysis/journals.py:68-70 | `sorted(days)`: ascending and a permutation of the input |
| Journals.Between | logseq_analyzer/analysis/journals.py:84-88 | The days strictly before `b` from `a`: b - a of them, or none |
| Journals.BetweenElements | logseq_analyzer/analysis/journals.py:84-88 | The k-th filled-in day is `a + k`, one `next` after another |
| Journals.BetweenIncreasing | logseq_analyzer/analysis/journals.py:84-88 | The filled-in days are strictly increasing and lie in [a, b) |
| Journals.AbsentMembers | logseq_analyzer/analysis/journals.py:86-87 | A filled-in day is recorded missing exactly when it is not a dangling journal day |
| Journals.FillGap | logseq_analyzer/analysis/journals.py:82-88 | The inner loop appends the gap days after the i-th existing day, and as missing those that are not dangling |
| Journals.BuildTimeline | logseq_analyzer/analysis/journals.py:81-88 | The loop appends exactly the timeline and the missing days |
| Journals.BuiltStep | logseq_analyzer/analysis/journals.py:81-88 | One round appends the existing day and its gap to the timeline, and the gap's non-dangling days to the missing list |
| Journals.TimelineIsContiguous | logseq_analyzer/analysis/journals.py:75-88 | For strictly increasing existing days the timeline is every day from the first to the last, each once, in order |
| Journals.ExistingOnTimeline | logseq_analyzer/analysis/journals.py:81-82 | Every existing day is on the timeline, whatever their order |
| Journals.TimelineLength | logseq_analyzer/analysis/journals.py:81-88 | The timeline has the existing days plus the gap days |
| Journals.GapDaysBetween | logseq_analyzer/analysis/journals.py:84-88 | Every gap day lies strictly between an existing day and the next one |
| Journals.GapDaysNotExisting | logseq_analyzer/analysis/journals.py:84-88 | On sorted existing days no gap day is an existing day |
| Journals.MissingExactly | logseq_analyzer/analysis/journals.py:75-88 | On sorted existing days a day is missing iff it is on the timeline, is no existing day and is no dangling journal day |
| Journals.GapDaysIncreasing | logseq_analyzer/analysis/journals.py:84-88 | On sorted existing days the gap days strictly increase, so none repeats |
| Journals.TimelineAscending | logseq_analyzer/analysis/journals.py:75-88 | Sorted existing days give a sorted timeline |
| Journals.TimelineStatsSpan | logseq_analyzer/analysis/journals.py:90-94 | The timeline statistics of strictly increasing days: first and last existing day and the timeline's length as day count |
| Journals.StatsOfRun | logseq_analyzer/utils/date_utilities.py:43-59 | The statistics of a run of days from `first` to `last` are those bounds and the run's length |
| Journals.OnSideMembers | logseq_analyzer/analysis/journals.py:106-112 | A bucket holds exactly the dangling days on its side |
| Journals.OnSideCount | logseq_analyzer/analysis/journals.py:106-112 | A bucket holds every copy of the days on its side and nothing else |
| Journals.BucketsPartition | logseq_analyzer/analysis/journals.py:106-112 | The three buckets split the dangling days: their multisets add up to it |
| Journals.BucketMembers | logseq_analyzer/analysis/journals.py:106-112 | With first not after last: past is before first, future after last, inside between them inclusive |
| Journals.SplitOutsideRange | logseq_analyzer/analysis/journals.py:106-112 | The loop computes the bucket function for the given bounds |
| Journals.BucketsSnoc | logseq_analyzer/analysis/journals.py:106-112 | One more dangling day goes to exactly one bucket, the one of its side |
| Journals.StatsDate | logseq_analyzer/utils/date_utilities.py:45-52 | A statistics dict yields a date only under "first_date" and "last_date" |
| Journals.OutsideRangeAsWrittenFails | logseq_analyzer/analysis/journals.py:104-105 | The statistics have no "first" key, so the split as written always raises KeyError |
| Journals.OutsideRange | logseq_analyzer/analysis/journals.py:99-112 | The intended split uses the timeline's first and last date |
| Journals.OutsideRangePartition | logseq_analyzer/analysis/journals.py:99-112 | The corrected split of a built timeline's dangling days: the buckets split them, past is exactly those before the first timeline day, future those after the last, inside the rest |
| Journals.LogseqJournals.constructor | logseq_analyzer/analysis/journals.py:44-73 | Existing and dangling days sorted, the timeline and missing days built from them, all journals sorted together, the three statistics, and the dangling days split (with the corrected keys) |
| Journals.LogseqJournals.BuildCompleteTimeline | logseq_analyzer/analysis/journals.py:75-97 | Appends the timeline and missing days to the lists, sorts timeline and dangling days together, and records the three statistics |
| Journals.LogseqJournals.GetDanglingJournalsOutsideRange | logseq_analyzer/analysis/journals.py:99-112 | With the statistics' real key names, each dangling day is appended to its bucket |
| LegacyJournals.StripOrdinals | logseq_analyzer/logseq_journals.py:67-69 | The key with every "st", "nd", "rd" and "th" deleted is no longer than the key |
| LegacyJournals.StripOrdinalsUnguarded | logseq_analyzer/logseq_journals.py:67-69 | The `any(...)` guard changes nothing: unguarded deletion gives the same key |
| LegacyJournals.ParsedMembers | logseq_analyzer/logseq_journals.py:64-78 | A day is collected exactly when some key parses to it, and no more days than keys |
| LegacyJournals.ParseAll | logseq_analyzer/logseq_journals.py:64-78 | The try/append loop collects exactly the parsed days, in key order |
| LegacyJournals.ExtractJournalsFromDanglingLinks | src/logseq_journals.py:142-162 | The links that parse, sorted: ascending and a permutation of the parsed days |
| LegacyJournals.Take | logseq_analyzer/logseq_journals.py:92-97 | A filled-in day that is dangling loses one dangling copy and is not missing; otherwise it is appended to the missing days |
| LegacyJournals.TakeAccounts | logseq_analyzer/logseq_journals.py:92-97 | A filled-in day is counted once, as missing or as a dangling copy taken away |
| LegacyJournals.TakeAllAccounts | logseq_analyzer/logseq_journals.py:80-101 | Over the whole loop, missing plus remaining dangling days account for every filled-in day once, as multisets |
| LegacyJournals.TakeAllKeeps | logseq_analyzer/logseq_journals.py:92-97 | A day never filled in stays dangling, or stays absent |
| LegacyJournals.TakeAllAbsent | logseq_analyzer/logseq_journals.py:92-97 | When no day is filled in twice, the missing days are the filled-in days not dangling at the start |
| LegacyJournals.FillGap | logseq_analyzer/logseq_journals.py:88-98 | The inner loop appends the gap after the i-th key and takes each gap day against the missing and dangling lists |
| LegacyJournals.FillTimeline | logseq_analyzer/logseq_journals.py:80-105 | Each key but the last followed by its gap, then the last key: the timeline, with all gap days taken |
| LegacyJournals.BuildCompleteTimeline | src/logseq_journals.py:70-99 | The function-style loop returns the timeline and the missing days, leaving the dangling list without the days it took |
| LegacyJournals.LegacyMissingAgrees | src/logseq_journals.py:70-99 | On sorted keys the consuming loop's missing days equal the analysis package's missing days |
| LegacyJournals.DateRanges | logseq_analyzer/logseq_journals.py:142-156 | No count when either bound is None, otherwise the inclusive day count |
| LegacyJournals.RangesDifferOnOneDay | logseq_analyzer/logseq_journals.py:142-156 | This range and the newer `DateUtilities.range` agree except on a single day, where this gives 1 |
| LegacyJournals.GetDateStats | logseq_analyzer/logseq_journals.py:115-139 | `datetime.min` bounds and 0 days for an empty timeline; otherwise dates of the timeline enclosing every date and the inclusive day count |
| LegacyJournals.GetDateStatsStrict | src/logseq_journals.py:102-117 | Without the empty-timeline branch the statistics succeed iff the timeline is non-empty |
| LegacyJournals.StatsVersionsAgree | src/logseq_journals.py:102-117 | The strict statistics equal the class's on every non-empty timeline; the newer `stats` agrees with them except on a timeline of one day |
| LegacyJournals.GetMostRecentDate | src/logseq_journals.py:203-213 | None for no dates, otherwise a date of the list no earlier than any |
| LegacyJournals.GetLeastRecentDate | src/logseq_journals.py:216-226 | None for no dates, otherwise a date of the list no later than any |
| LegacyJournals.RecentDatesAreStats | src/process_journals.py:80-84 | On a non-empty timeline the two helpers and their range are the statistics' bounds and day count |
| LegacyJournals.GetDanglingJournalsPast | src/logseq_journals.py:120-128 | The links strictly before the start, in order |
| LegacyJournals.GetDanglingJournalsFuture | src/logseq_journals.py:131-139 | The links strictly after the end, in order |
| LegacyJournals.FilterMembers | src/logseq_journals.py:120-139 | The filters keep exactly the links strictly beyond their bound |
| LegacyJournals.FiltersAreSides | logseq_analyzer/logseq_journals.py:158-176 | For ordered bounds the two filters are the past and future buckets of the analysis package |
| LegacyJournals.GuardsMatchFilters | logseq_analyzer/logseq_journals.py:58-61 | On non-empty dangling days a guard holds exactly when its filter finds something |
| LegacyJournals.Less | src/process_journals.py:92-101 | Comparing optional dates raises unless both are present, and then is `<` |
| LegacyJournals.OutsideTimeline | src/process_journals.py:80-101 | The guarded filters succeed iff timeline and dangling days are both non-empty (None compares raise), and each filter run gives the links beyond the bound |
| LegacyJournals.OutsideTimelineRunsWhenNeeded | src/process_journals.py:92-101 | A filter runs exactly when it finds a dangling day beyond the timeline |
| LegacyJournals.ProcessJournalsTimelines | src/process_journals.py:18-101 | Keys parsed and sorted, the timeline and missing days of the consuming loop (equal to the analysis package's), and the guarded filters over the remaining dangling days |
| LegacyJournals.LogseqJournals.constructor | logseq_analyzer/logseq_journals.py:17-27 | The graph's dangling links and journal keys, every list empty and no statistics |
| LegacyJournals.LogseqJournals.ExtractJournalsFromDanglingLinks | logseq_analyzer/logseq_journals.py:29-44 | The links that parse once ordinals are stripped are appended, then the list is sorted |
| LegacyJournals.LogseqJournals.ProcessJournalKeysToDatetime | logseq_analyzer/logseq_journals.py:64-78 | The keys that parse once ordinals are stripped are appended in order, unsorted |
| LegacyJournals.LogseqJournals.BuildCompleteTimeline | logseq_analyzer/logseq_journals.py:80-105 | The timeline of the processed keys is appended, and the gap days are taken against the missing and dangling lists |
| LegacyJournals.LogseqJournals.ProcessJournalsTimelines | logseq_analyzer/logseq_journals.py:46-62 | Keys, timeline, both statistics, and the past and future filters behind their guards |
| LegacyJournals.LogseqJournals.RecordTimelineStats | logseq_analyzer/logseq_journals.py:53-62 | The two statistics, then each filter whose guard holds |
| LogseqFileModel.AnyLink | logseq_analyzer/logseq_file/file.py:186-188 | True iff some truthy value sits under "page_references", "tags", "tagged_backlinks" or a key containing "properties" |
| LogseqFileModel.StoreTruthyKeeps | logseq_analyzer/logseq_file/file.py:183-185 | Keys without a truthy extracted value keep whatever they held |
| LogseqFileModel.StoreTruthySets | logseq_analyzer/logseq_file/file.py:183-185 | A truthy extracted value is stored under its key |
| LogseqFileModel.StoreTruthyValues | logseq_analyzer/logseq_file/file.py:183-185 | Nothing falsy is ever written: a stored value is old or truthy and comes from the extracted values |
| LogseqFileModel.LogseqFile.constructor | logseq_analyzer/logseq_file/file.py:33-61 | Empty data, no back-link flags, content flag from the content |
| LogseqFileModel.LogseqFile.ProcessContentData | logseq_analyzer/logseq_file/file.py:98-188 | Nothing for empty content; otherwise the masked blocks are kept, every truthy value is stored under its key, has_backlinks is raised iff a link key got a value, and with page properties the content becomes the later bullets joined by newlines, dropping the properties bullet; the name, path and other flags are unchanged |
| LogseqFileModel.StoreValues | logseq_analyzer/logseq_file/file.py:183-188 | The storing loop leaves every truthy value under its key, in order, and raises the back-link flag exactly when it was raised or a link key got a truthy value |
| LogseqFileModel.LogseqFile.CheckIsBacklinked | logseq_analyzer/logseq_file/file.py:287-295 | True iff the file's name was in the shared set, and exactly that name is removed |
| LogseqFileModel.LogseqFile.DetermineNodeType | logseq_analyzer/logseq_file/file.py:190-205 | "other" iff no content but outgoing links, otherwise the decision-tree role for the file's four flags |
| LogseqFileModel.UnmaskBlocks | logseq_analyzer/logseq_file/file.py:271-285 | The loop replaces each placeholder by its block in mapping order; no mapping leaves the content unchanged |
| LogseqFileModel.UnmaskAbsent | logseq_analyzer/logseq_file/file.py:271-285 | Placeholders that never occur leave the content as it is |
| LogseqFileModel.EqualFilesHashEqually | logseq_analyzer/logseq_file/file.py:66-72 | Equal files (same path parts) have equal hashes, whatever the hash function |
| LogseqFileModel.EqualKeysHashEqually | logseq_analyzer/logseq_file.py:415-433 | `LogseqFileHash` equality and hash both read (name, parent, suffix), so equal keys hash equally |
| LogseqFileModel.IsPrimaryBulletPageProperties | logseq_analyzer/logseq_file.py:151-158 | False iff the stripped bullet is empty or starts with "#", the same as the bullets module |
| LogseqFileModel.FirstValues | src/logseq_file.py:173-176 | `setdefault` keeps the first value of each property, and every property seen is a key |
| LogseqFileModel.LastValues | logseq_analyzer/logseq_file/file.py:128-129 | `dict(pairs)` keeps the last value of each property, and every property seen is a key |
| NamespaceCore.PartOccurrences | logseq_analyzer/analysis/namespaces.py:105 | One occurrence per item of an entry's `parts`, in order, carrying the entry's name, the part and its level |
| NamespaceCore.PartOccurrencesMembers | logseq_analyzer/analysis/namespaces.py:105 | An occurrence comes from an entry exactly when the entry has that part at that level |
| NamespaceCore.OccurrencesMembers | logseq_analyzer/analysis/namespaces.py:97-112 | The nested walk meets an occurrence exactly when some entry has that part at that level |
| NamespaceCore.FoldAppend | logseq_analyzer/analysis/namespaces.py:97-112 | Folding a stream in two pieces is folding it in one |
| NamespaceCore.FoldParts | logseq_analyzer/analysis/namespaces.py:105-112 | The inner loop over one entry's parts is the fold of that entry's occurrences |
| NamespaceCore.FoldEntries | logseq_analyzer/analysis/namespaces.py:97-112 | The nested loop over entries and their parts is the fold of the whole occurrence stream |
| NamespaceCore.FoldBoth | logseq_analyzer/analysis/namespaces.py:105-112 | Updating several accumulators in one loop body is the same as updating each in a loop of its own |
| NamespaceCore.LevelCountPositive | logseq_analyzer/analysis/namespaces.py:108 | A level's count is positive exactly when the level is met |
| NamespaceCore.AtLevelNonEmpty | logseq_analyzer/analysis/namespaces.py:168-171 | A part's entries at a level are non-empty exactly when the part is met at that level |
| NamespaceCore.AtLevelAppend | logseq_analyzer/analysis/namespaces.py:170 | Filtering records by level distributes over concatenation |
| NamespaceCore.FoldUniqueParts | logseq_analyzer/analysis/namespaces.py:106 | `unique_parts` ends as what it held plus every part met |
| NamespaceCore.FoldPerLevel | logseq_analyzer/analysis/namespaces.py:107 | Each level of `unique_namespaces_per_level` holds what it held plus exactly the parts met at that level, and is a key once anything sits there |
| NamespaceCore.FoldDistribution | logseq_analyzer/analysis/namespaces.py:108 | Each level of the `Counter` adds the number of items at that level |
| NamespaceCore.DistributionKeys | logseq_analyzer/analysis/namespaces.py:90-114 | From an empty `Counter`, the distribution's keys are exactly the levels met |
| NamespaceCore.FoldPartLevels | logseq_analyzer/analysis/namespaces.py:111 | `_part_levels[p]` gains exactly the levels `p` is met at |
| NamespaceCore.FoldPartEntries | logseq_analyzer/analysis/namespaces.py:112 | `_part_entries[p]` gains one (entry, level) record per item of `p`, in walk order |
| NamespaceCore.FoldConflicts | logseq_analyzer/analysis/namespaces.py:151-155 | A candidate part lists every entry it is met in, once per item; other parts gain nothing and gain no key |
| NamespaceCore.MaxDepth | logseq_analyzer/analysis/namespaces.py:113 | 0 for an empty distribution, otherwise the largest level present |
| NamespaceCore.PartNames | logseq_analyzer/analysis/namespaces.py:105-109 | The part names of a `parts` dict, in order |
| NamespaceCore.InsertPaths | logseq_analyzer/analysis/namespaces.py:109-110 | The `setdefault` walk of one entry adds exactly the prefixes of its path to the tree; no path is lost |
| NamespaceCore.TreeOfPaths | logseq_analyzer/analysis/namespaces.py:100-110 | The tree holds each entry's parts, in order, as a root-to-node path, plus what was there, and nothing else |
| NamespaceCore.BuildTree | logseq_analyzer/analysis/namespaces.py:97-110 | The tree loop, restarting at the root for each entry, gives the tree of all entries' paths |
| NamespaceCore.LastToken | logseq_analyzer/analysis/namespaces.py:172 | `rsplit(" ", 1)[-1]`: a suffix with no space, preceded by a space when shorter than the key |
| NamespaceCore.NoSpaceInNumber | logseq_analyzer/analysis/namespaces.py:169 | A formatted level contains no space |
| NamespaceCore.LastTokenAfterSpace | logseq_analyzer/analysis/namespaces.py:169-172 | The last token of `prefix + " " + d` is `d` when `d` has no space |
| NamespaceCore.KeyLevelOfDepthKey | logseq_analyzer/analysis/namespaces.py:169-172 | `int(key.rsplit(" ", 1)[-1])` of `f"{part} {level}"` gives back `level`, even when the part has spaces |
| NamespaceCore.DepthKeyInjective | logseq_analyzer/analysis/namespaces.py:169 | Distinct (part, level) pairs never share a "part level" key |
| NamespaceCore.DepthKeysInjective | logseq_analyzer/analysis/namespaces.py:169 | The same, for all pairs at once |
| NamespaceCore.Least | logseq_analyzer/analysis/namespaces.py:168 | A least member of a non-empty set of levels |
| NamespaceCore.SortedLevelsSpec | logseq_analyzer/analysis/namespaces.py:168 | The levels of a part, in some order of the set: Python's set iteration order is not modelled and ascending order is chosen; the sequence is strictly ascending and holds exactly the set's members |
| NamespaceCore.SplitPart | logseq_analyzer/analysis/namespaces.py:168-171 | For each level, `conflicts_parent_depth["part level"]` is the entries met at that level, other keys existing or not as before |
| NamespaceCore.SplitConflicts | logseq_analyzer/analysis/namespaces.py:163-171 | The split holds, for each conflicting part and each of its levels, exactly the entries at that level, and no other key |
| NamespaceCore.ConflictingParts | logseq_analyzer/analysis/namespaces.py:163-167 | The parts kept are exactly those with two or more levels, each with its sorted levels and its records |
| NamespaceCore.SplitEntriesNonEmpty | logseq_analyzer/analysis/namespaces.py:168-171 | Every key of the split lists at least one entry |
| NamespaceCore.SliceTo | logseq_analyzer/analysis/namespaces.py:175 | Python's `parts[:level]`: a prefix, of length `min(level, len)` for a non-negative level |
| NamespaceCore.PrefixOfPage | logseq_analyzer/analysis/namespaces.py:174-176 | "/".join(page.split("/")[:level]) is a leading piece of the page, and the whole page once the level reaches its depth |
| NamespaceCore.CollectPrefixes | logseq_analyzer/analysis/namespaces.py:173-176 | The set of prefixes of the pages at the key's level |
| NamespaceCore.UniqueParentConflicts | logseq_analyzer/namespace_analyzer.py:167-178 | `ValueError` iff some key's last token is not a number; otherwise every key gets the prefixes of its pages at its level |
| NamespaceCore.UniqueParentsOfSplit | logseq_analyzer/analysis/namespaces.py:168-176 | On a split, each key's parent set is the prefixes of its pages at its own level |
| NamespaceCore.SplitKeysParse | logseq_analyzer/analysis/namespaces.py:169-172 | No key of a split makes `int(...)` fail |
| NamespaceCore.Assign | logseq_analyzer/analysis/namespaces.py:101-104 | `d[name] = v`: the key is replaced in place or appended, and the new entry is there |
| NamespaceCore.AssignKeys | logseq_analyzer/analysis/namespaces.py:101-104 | Assigning adds exactly the assigned key |
| NamespaceCore.AssignUnique | logseq_analyzer/analysis/namespaces.py:101-104 | Assigning keeps each key at most once |
| NamespaceCore.AssignAllSpec | logseq_analyzer/analysis/namespaces.py:97-104 | After the loop, each key is there once, the keys are the old ones and those assigned, and only assigned or old entries occur |
| NamespaceCore.WithParts | logseq_analyzer/namespace_analyzer.py:61-63 | The dict comprehension keeps exactly the entries whose parts are truthy |
| NamespaceCore.PerLevelAll | logseq_analyzer/analysis/namespaces.py:107 | `unique_namespaces_per_level` after the walk, at every level |
| NamespaceCore.DistributionAll | logseq_analyzer/analysis/namespaces.py:108-114 | `level_distribution` after the walk counts exactly the items of each level met |
| NamespaceCore.PartLevelsAll | logseq_analyzer/analysis/namespaces.py:111 | `_part_levels` after the walk, at every part |
| NamespaceCore.PartEntriesAll | logseq_analyzer/analysis/namespaces.py:112 | `_part_entries` after the walk, at every part |
| NamespaceCore.TreeOfAll | logseq_analyzer/analysis/namespaces.py:100-110 | The tree after the walk holds exactly the old paths and the entries' path prefixes |
| NamespaceCore.CollectUniqueParts | logseq_analyzer/analysis/namespaces.py:97-106 | `unique_parts` ends as the old set plus every part of every entry |
| NamespaceCore.CollectPerLevel | logseq_analyzer/analysis/namespaces.py:97-107 | The per-level loop, in terms of the occurrence stream |
| NamespaceCore.CollectDistribution | logseq_analyzer/analysis/namespaces.py:90-108 | The distribution loop from a fresh `Counter` |
| NamespaceCore.CollectPartLevels | logseq_analyzer/analysis/namespaces.py:97-111 | The part-levels loop |
| NamespaceCore.CollectPartEntries | logseq_analyzer/analysis/namespaces.py:97-112 | The part-entries loop |
| NamespaceCore.GrowTree | logseq_analyzer/analysis/namespaces.py:97-110 | The tree loop |
| NamespaceCore.ConflictsAll | logseq_analyzer/analysis/namespaces.py:151-155 | A conflicts dict after the walk, at every part |
| NamespaceCore.MergeSets | logseq_analyzer/analysis/namespaces.py:176 | A `defaultdict(set)` fed with new members: every key's set is its old set plus the new members |
| NamespaceCore.SplitWrittenOver | logseq_analyzer/analysis/namespaces.py:171 | Writing a split into an existing dict overwrites its keys and keeps the others |
| NamespaceCore.ParentsWrittenOver | logseq_analyzer/analysis/namespaces.py:176 | Parent sets written over an existing dict, both by plain assignment and by adding to a `defaultdict(set)` |
| NamespaceCore.DepthConflicts | logseq_analyzer/analysis/namespaces.py:157-176 | `detect_parent_depth_conflicts`: the split of the conflicting parts, and the unique parent prefixes of every key |
| NamespaceCore.StreamConflictsSpec | logseq_analyzer/analysis/namespaces.py:111-167 | A part conflicts exactly when it is met at two or more levels; its levels are those, ascending, and its records are all its items |
| NamespaceCore.CollectConflicts | src/namespace.py:89-112 | `detect_parent_depth_conflicts` of the oldest code: on fresh dicts, exactly the parts met at two or more levels, each with its sorted levels and all its records |
| NamespaceCore.SplitFromScratch | logseq_analyzer/analysis/namespaces.py:86-171 | From fresh dicts, the split is that of the stream's conflicts |
| NamespaceCore.PartsOfMembers | logseq_analyzer/analysis/namespaces.py:105-106 | A part is met exactly when some entry has it at some level |
| NamespaceCore.LevelsOfMembers | logseq_analyzer/analysis/namespaces.py:105-108 | A level is met exactly when some entry has some part at it |
| NamespaceCore.PartsAtLevelMembers | logseq_analyzer/analysis/namespaces.py:105-107 | A part is met at a level exactly when some entry has it there |
| NamespaceCore.EntriesWithItems | logseq_analyzer/analysis/namespaces.py:152-155 | The entries listed for a part are those of its items |
| NamespaceCore.EntriesWithMembers | logseq_analyzer/analysis/namespaces.py:151-155 | A page is listed under a part exactly when it has that part, at some level |
| NamespaceData.AsDict | logseq_analyzer/namespace_analyzer.py:33-50 | The summary data as a name-keyed dict: one (name, record) pair per page, in data order |
| NamespaceData.EntriesWhere | logseq_analyzer/namespace_analyzer.py:56-60 | The pages whose record passes the key test, as (name, parts) entries, and nothing else |
| NamespaceData.SetDefaultKeys | logseq_analyzer/namespace_analyzer.py:57-60 | One `setdefault`: the keys gain the name and no key is doubled |
| NamespaceData.SetDefaultAllFirst | logseq_analyzer/namespace_analyzer.py:56-60 | Whatever the loop appends has a new name and is the first value given for that name |
| NamespaceData.SetDefaultAllSpec | logseq_analyzer/namespace_analyzer.py:56-60 | `setdefault` never changes a key already present: the old dict is a prefix of the new one, the keys are those of both, no key is doubled, and each new key holds the first value given for it |
| NamespaceData.SetDefaultAllSnoc | logseq_analyzer/namespace_analyzer.py:56-60 | One more `setdefault` at the end of the loop is one more step of the fold |
| NamespaceData.SetDefaultLoop | logseq_analyzer/namespace_analyzer.py:56-60 | The `setdefault` loop, step by step, is the fold of its steps |
| NamespaceData.LevelPartition | logseq_analyzer/namespace_analyzer.py:124 | A page whose `namespace_level` is set (not `None`) is selected with its parts; any other page is exactly one whose key is missing or `None`, and is named among the pages without the key |
| NamespaceData.WithoutLevelNames | src/process_summary_data.py:114-118 | The pages listed without `namespace_level` are exactly those whose key is missing or `None` |
| NamespaceAnalyzerModel.YieldWithLevelAsWrittenEmpty | logseq_analyzer/namespace_analyzer.py:56 | As written, `yield_files_with_keys(self.data, ...)` asks each name string for a `namespace_level` attribute, so no page is ever selected |
| NamespaceAnalyzerModel.WithoutLevelAsWrittenRaises | logseq_analyzer/namespace_analyzer.py:124 | As written, `list_files_without_keys(self.data, ...)` reads `.name` from a string, so any non-empty data raises `AttributeError` |
| NamespaceAnalyzerModel.NamespacePageMissedAsWritten | logseq_analyzer/namespace_analyzer.py:56-63 | A page with a level and parts is missed as written and selected, with its parts, by the intended rule |
| NamespaceAnalyzerModel.NamespaceAnalyzer.constructor | logseq_analyzer/namespace_analyzer.py:33-50 | The data and dangling links are kept; every dict, set and counter starts empty and the tree is empty |
| NamespaceAnalyzerModel.NamespaceAnalyzer.InitNsParts | logseq_analyzer/namespace_analyzer.py:52-63 | (corrected, see Findings: as written line 56 selects no page) Every page whose `namespace_level` is set is copied into `namespace_data` unless its name is there already; `namespace_parts` is rebuilt from the entries with truthy parts |
| NamespaceAnalyzerModel.NamespaceAnalyzer.AnalyzeNsDetails | logseq_analyzer/namespace_analyzer.py:65-85 | The per-level sets and unique parts gain exactly what the walk meets, the tree gains exactly the entries' paths, the distribution counts each level afresh and the maximum depth is its largest level, or 0 |
| NamespaceAnalyzerModel.NamespaceAnalyzer.DetectNonNsConflicts | logseq_analyzer/namespace_analyzer.py:120-132 | (corrected, see Findings: as written line 124 raises `AttributeError`) Parts that are also names of pages without `namespace_level`, or dangling links, each gain every entry they occur in; no other part gains anything |
| NamespaceAnalyzerModel.NamespaceAnalyzer.DetectParentDepthConflicts | logseq_analyzer/namespace_analyzer.py:134-165 | Each part met at two or more levels gets one "part level" key per level listing the entries there; other keys stay; keys that parsed still parse |
| NamespaceAnalyzerModel.NamespaceAnalyzer.GetUniqueParentConflicts | logseq_analyzer/namespace_analyzer.py:167-178 | `ValueError` exactly when some key's last token is not a number, and then the model leaves the dict unchanged (weaker, see Left out); otherwise each key gets the level-length prefixes of its pages and other keys keep their sets |
| NamespacesAnalysis.Namespaced | logseq_analyzer/analysis/namespaces.py:97-104 | Exactly the files with namespace info, namespaced and with truthy parts, as (name, parts) entries |
| NamespacesAnalysis.LogseqNamespaces.constructor | logseq_analyzer/analysis/namespaces.py:68-76 | Every dict, set and counter starts empty and the tree is empty |
| NamespacesAnalysis.LogseqNamespaces.InitNsParts | logseq_analyzer/analysis/namespaces.py:86-114 | `parts` assigned per namespaced file; per-item bookkeeping of unique parts, per-level sets, part levels, part entries and tree all gain exactly what the walk meets; distribution counted afresh and max depth its largest level, or 0; the `namespace_data[file.path.name]` record of line 101 is not kept, its only reader being `analyze_ns_queries`, which is not modelled |
| NamespacesAnalysis.LogseqNamespaces.DetectNonNsConflicts | logseq_analyzer/analysis/namespaces.py:136-155 | Parts that are also names of non-namespace files, or dangling links, each gain every entry they occur in; no other part gains anything |
| NamespacesAnalysis.LogseqNamespaces.DetectParentDepthConflicts | logseq_analyzer/analysis/namespaces.py:157-176 | Each part with two or more levels gets a "part level" key per level, listing the entries there; each key's unique parents gain those entries' level-length prefixes; other keys stay |
| LegacyNamespaces.NamespacedMembers | logseq_analyzer/logseq_namespaces.py:69-76 | An entry is kept exactly when it comes from a file with `ns_level` and truthy `ns_parts` |
| LegacyNamespaces.Objects | logseq_analyzer/logseq_namespaces.py:165 | The attribute objects of the hashed files, in order |
| LegacyNamespaces.ListFilesWithoutKeys | logseq_analyzer/logseq_namespaces.py:169-173 | Both directions: every file lacking every listed attribute is named, and every name comes from such a file |
| LegacyNamespaces.LogseqNamespaces.constructor | logseq_analyzer/logseq_namespaces.py:34-62 | The first construction keeps the files and dangling links; everything else starts empty |
| LegacyNamespaces.LogseqNamespaces.InitNsParts | logseq_analyzer/logseq_namespaces.py:64-88 | The same bookkeeping as the current package, over the files with `ns_level` and truthy `ns_parts`; the `namespace_data[file.name] = meta` record of lines 71-72 is not kept, its only reader being `analyze_ns_queries`, which is not modelled |
| LegacyNamespaces.LogseqNamespaces.DetectNonNsConflicts | logseq_analyzer/logseq_namespaces.py:122-134 | Candidates are the unique parts named by a file without `ns_level`, or dangling; each gains every entry it occurs in |
| LegacyNamespaces.LogseqNamespaces.DetectParentDepthConflicts | logseq_analyzer/logseq_namespaces.py:136-158 | Each key's entries and unique parents are assigned, overwriting any earlier set; other keys stay |
| ProcessNamespaces.ExtractUniqueNamespaceParts | src/process_namespaces.py:244-257 | A part is in the result exactly when some entry has it, at some level |
| ProcessNamespaces.AnalyzeNamespaceDetails | src/process_namespaces.py:126-148 | The distribution's keys are exactly the levels met, each counting its items; max depth is the largest, or 0 |
| ProcessNamespaces.FoldKnownLevels | src/process_namespaces.py:120-122 | Adding into fixed level keys succeeds exactly when every level met is a key, each then gaining its parts; otherwise the `KeyError` names a missing level |
| ProcessNamespaces.EmptyLevels | src/process_namespaces.py:118 | Keys exactly 1 to n, each with an empty set |
| ProcessNamespaces.GetUniqueNamespacesByLevel | src/process_namespaces.py:104-123 | Keys exactly 1 to `max_depth`, each with the parts met at that level, when every level lies in that range; otherwise `KeyError` for an offending level |
| ProcessNamespaces.DetailsDepthCoversLevels | src/process_namespaces.py:104-148 | The depth reported by `analyze_namespace_details` covers every level met, so with levels from 1 the per-level dict never raises |
| ProcessNamespaces.DetectNonNamespaceConflicts | src/process_namespaces.py:151-177 | A part gets a key exactly when it is met and is a non-namespace name (resp. a dangling link), listing every entry holding it once per item |
| ProcessNamespaces.DetectParentDepthConflicts | src/process_namespaces.py:180-218 | The "part level" split of the parts met at two or more levels; every key lists at least one entry |
| ProcessNamespaces.VisualizeNamespaceHierarchy | src/process_namespaces.py:296-314 | The tree's root-to-node paths are exactly the empty path and the prefixes of the entries' parts |
| Order.LeReflexive | src/contentdata.py:183-184 | Python's string order, as `sorted` uses it, is reflexive |
| Order.LeTotal | src/contentdata.py:183-184 | Any two strings are comparable |
| Order.LeAntisymmetric | src/contentdata.py:183-184 | Strings below each other are equal |
| Order.LeTransitive | src/contentdata.py:183-184 | The order is transitive |
| Order.Insert | src/contentdata.py:183-184 | Inserting into an ascending list keeps it ascending and adds exactly one occurrence of the new element |
| Order.Sort | src/contentdata.py:183-184 | `sorted(xs)`: ascending and a permutation of the input |
| Order.SortedList | src/contentdata.py:183 | `sorted` of a set: ascending, exactly the set's members, each once |
| Order.WithKeyMembers | logseq_analyzer/utils/helpers.py:67-71 | The elements sharing a sort value are exactly those with that value |
| Order.WithKeyAppend | logseq_analyzer/utils/helpers.py:67-71 | Selecting the elements with a sort value distributes over concatenation |
| Order.InsertDesc | logseq_analyzer/utils/helpers.py:67-71 | Inserting into a list descending by key keeps it descending and adds exactly one occurrence |
| Order.WithKeyInsertDesc | logseq_analyzer/utils/helpers.py:67-71 | The inserted element lands in front of every element with the same key and keeps their order |
| Order.SortDesc | src/process_dangling_links.py:20 | `sorted(..., reverse=True)` by a numeric key: descending and a permutation |
| Order.SortDescStable | src/process_dangling_links.py:20 | The sort is stable: the elements with one key keep their original order |
| Order.SortDescStableAll | src/process_dangling_links.py:20 | Stability at every key at once |
| Order.SortDictByValue | logseq_analyzer/utils/helpers.py:67-71 | `sort_dict_by_value`: a permutation of the items, descending when `reverse` holds and ascending otherwise, and stable among equal values |
| Properties.Select | logseq_analyzer/config/builtin_properties.py:74-77 | A list comprehension filtering on membership: an order-preserving subsequence whose elements all pass, each with its full count |
| Properties.SplitBuiltinUserProperties | logseq_analyzer/config/builtin_properties.py:63-77 | An order-preserving partition: built-ins and user properties are subsequences, every occurrence lands in exactly one list, and the lengths add up |
| Properties.SplitPlacesEach | src/contentdata.py:234-238 | A property name of the input is in the built-in list iff it is built-in, and in the user list iff it is not |
| Properties.AllBuiltInHaveNoUser | src/process_content_data.py:29-34 | A page whose properties are all built-in has no user properties |
| PyInt.NatToString | logseq_analyzer/logseq_file/name.py:171 | `str(n)` of a non-negative integer is a non-empty run of decimal digits |
| PyInt.IntToString | logseq_analyzer/logseq_file/name.py:83 | `str(i)` is never empty |
| PyInt.ParseDigits | logseq_analyzer/config/edn_parser.py:182 | A value exactly for a non-empty run of decimal digits |
| PyInt.ParseNatToString | logseq_analyzer/config/edn_parser.py:182 | Reading back what `str` wrote gives the number |
| PyInt.ParseIntToString | logseq_analyzer/analysis/namespaces.py:169-172 | `int(str(i)) == i` for every integer, negative ones included |
| PyList.RemoveFirst | logseq_analyzer/analysis/index.py:76 | `list.remove(x)`: one element shorter when `x` occurs, unchanged otherwise (where Python raises) |
| PyList.RemoveFirstKeeps | logseq_analyzer/analysis/graph.py:64 | Removing `x` keeps every other element's membership |
| PyList.RemoveFirstCount | logseq_analyzer/analysis/graph.py:64 | `list.remove(x)` takes away exactly one occurrence of `x`, when there is one |
| PyValue.PyEqSymmetric | logseq_analyzer/process_summary_data.py:65-71 | Python `==` on the stored values (with `True == 1`) is symmetric |
| PyValue.Get | logseq_analyzer/process_summary_data.py:59-62 | `dict.get` of a missing key is `None` |
| PyValue.GetAttr | logseq_analyzer/namespace_analyzer.py:124 | `getattr` succeeds exactly when the attribute exists, and returns it |
| PyStr.LStrip | logseq_analyzer/utils/helpers.py:39 | `lstrip()`: what it drops is whitespace and what remains does not start with whitespace |
| PyStr.RStrip | logseq_analyzer/utils/helpers.py:39 | `rstrip()`: a prefix of the input not ending in whitespace, everything after it whitespace |
| PyStr.Strip | logseq_analyzer/utils/helpers.py:39 | `strip()`: no whitespace at either end, and never longer |
| PyStr.StripIdempotent | logseq_analyzer/utils/helpers.py:39 | Stripping a stripped string changes nothing |
| PyStr.LowerChar | logseq_analyzer/logseq_file/name.py:46 | A lowered character is never an upper-case ASCII letter |
| PyStr.Lower | logseq_analyzer/logseq_file/name.py:46-48 | `lower()` keeps the length and lowers each character |
| PyStr.FindChar | logseq_analyzer/logseq_file/name.py:114-133 | The first occurrence of a character, or the length when there is none |
| PyStr.Split | logseq_analyzer/logseq_file/name.py:119 | `split(c)`: at least one piece, none containing `c` |
| PyStr.JoinSplit | logseq_analyzer/logseq_file/name.py:119-131 | `c.join(s.split(c)) == s` |
| PyStr.SplitCountsSeparators | logseq_analyzer/logseq_file/name.py:62-64 | `split` yields a single piece exactly when the separator does not occur, which is the namespace test |
| PyStr.Find | logseq_analyzer/logseq_file/file.py:271-285 | The first position the pattern occurs at, or the length when it does not occur |
| PyStr.RemoveAll | logseq_analyzer/config/datetime_tokens.py:120 | `replace(p, "")` never makes a string longer |
| PyStr.ReplaceEmpty | logseq_analyzer/logseq_file/name.py:58 | `replace("", t)` puts `t` around every character: the length grows by the length of `t` times one more than the length of the string |
| PyStr.ReplaceWithNothing | logseq_analyzer/config/datetime_tokens.py:120 | General replacement with "" is the deletion of every occurrence |
| PyStr.ReplaceAbsent | logseq_analyzer/logseq_file/file.py:271-285 | A pattern that does not occur leaves the string unchanged |
| PyStr.ReplaceBySelf | logseq_analyzer/logseq_file/name.py:58 | Replacing a pattern by itself changes nothing |
| PyStr.RemoveAllAbsent | logseq_analyzer/config/datetime_tokens.py:120 | Deleting a pattern that does not occur changes nothing |
| PyStr.RemoveAllLeavesNone | logseq_analyzer/config/datetime_tokens.py:120 | Deleting every occurrence of a one-character text leaves none |
| PyStr.FindCharAfter | logseq_analyzer/logseq_file/name.py:119 | The first separator of `a + c + b`, for `a` without `c`, is right after `a` |
| PyStr.FindCharAbsent | logseq_analyzer/logseq_file/name.py:119 | A character that does not occur is found at the end |
| PyStr.SplitAfterField | logseq_analyzer/logseq_file/name.py:119 | `(a + c + b).split(c)` is `[a]` followed by the pieces of `b` |
| PyStr.SplitJoin | logseq_analyzer/logseq_file/name.py:119-131 | Splitting a join of separator-free parts gives the parts back |
| PyStr.LStripSpaces | logseq_analyzer/utils/helpers.py:37-64 | Leading whitespace is exactly what `lstrip` removes |
| PyStr.RStripSpaces | logseq_analyzer/utils/helpers.py:37-64 | Trailing whitespace is exactly what `rstrip` removes |
| PyStr.StripPadded | logseq_analyzer/utils/helpers.py:37-64 | A stripped core padded with whitespace strips back to the core |
| PyStr.JoinNoChar | logseq_analyzer/logseq_file/name.py:58 | A join of parts without `x`, on another separator, has no `x` |
| PyStr.JoinEnds | logseq_analyzer/utils/helpers.py:37-64 | A join of non-empty parts starts with the first part's first character and ends with the last part's last one |
| PyStr.JoinStripped | logseq_analyzer/utils/helpers.py:37-64 | A join of stripped non-empty parts is stripped |
| PyStr.JoinSnoc | logseq_analyzer/logseq_file/name.py:127 | Joining one more part appends the separator and that part |
| SrcContent.ContentNamespaceAgrees | src/logseq_file.py:223-246 | With "/" as separator, the yielded fields are those of the newer `get_namespace_name_data`, less the full parent |
| SrcContent.ProcessContentNs | src/logseq_file.py:113-117 | No separator: the data is unchanged; otherwise the level is the number of parts, the parts dict keys exactly the pieces of the name, and the full parent is untouched |
| SrcContent.ProcessContentAgrees | src/logseq_file.py:223-246 | The older step agrees with the newer name code on every field but the full parent |
| SrcContent.ZeroBasedShift | src/contentdata.py:145-154 | The content code's zero-based fields: the level is one less, at least 1, each part's number one less, the root the same |
| SrcContent.RootAndParentDiffer | src/contentdata.py:157-169 | A namespaced name has two or more parts; neither its root nor its joined parent is the name itself |
| SrcContent.ProcessContentNamespaces | src/contentdata.py:30-172 | The loop over the content dict is the fold of its turns |
| SrcContent.ContentStepOthers | src/contentdata.py:157-169 | A turn changes another page only in its level, which never drops: a root only from a negative level to 0, the joined parent to the child's level less one |
| SrcContent.ContentFoldKeys | src/contentdata.py:30-36 | Every page of the content dict gets a record, with or without content, and no other key appears |
| SrcContent.ContentFoldOwnFields | src/contentdata.py:31-154 | Each page's record holds its own root, parent and parts (the defaults without content or "/"), and a level at least its own |
| SrcContent.ContentFoldLinked | src/contentdata.py:155 | The namespace links gathered are exactly the roots and names of the namespaced pages with content |
| SrcContent.PostProcessingContentNamespaces | src/process_content_data.py:94-119 | No page is added or removed |
| SrcContent.PostProcessingEffect | src/process_content_data.py:105-119 | Only the root and (above level 2) the parent change; each gains the child, never drops in level and has a size equal to its number of children; a root alone gets `max(1, previous or 0)` |
| SrcContent.MainNamespaceFieldsSpec | __main__.py:273-282 | A namespaced name has two or more parts; parent + "/" + stem is the name; level, root and full parent agree with the newer name code |
| SrcContent.StoreMetaData | __main__.py:535-540 | The loop filling `graph_meta_data` is the fold of its turns |
| SrcContent.StoredNames | __main__.py:535-540 | Every file's own name is a key once stored, whether it holds that file or an earlier one |
| SrcContent.SecondOfNameUsesSecondary | __main__.py:537-538 | A file whose name an earlier file already took is stored under its secondary name |
| SrcContent.StoredValues | __main__.py:535-540 | Each key holds a file that chose that key |
| SrcContent.DistinctNamesStoredByName | __main__.py:535-540 | With distinct names and no secondary name equal to a name, every file is stored under its own name |
| SrcNamespace.LowestIndex | src/namespace.py:46-49 | The index of the item `sorted(parts.items(), key=level)[0]` picks, within range |
| SrcNamespace.LowestIndexSpec | src/namespace.py:46-49 | The stable sort picks the first item at the lowest level |
| SrcNamespace.FirstAtLowestUnique | src/namespace.py:46-49 | Only one item is first at the lowest level, so the prefix is well defined |
| SrcNamespace.PrefixCountPositive | src/namespace.py:46-49 | A prefix is counted exactly when some entry with parts has it as its lowest-level part |
| SrcNamespace.AnalyzeNamespaceDetails | src/namespace.py:24-60 | The level distribution counts each level's items and the max depth is its largest level, or 0; each prefix counted once per entry; one length per entry, in order |
| SrcNamespace.FoldFrequency | src/namespace.py:76-79 | A part has a counter exactly when it is met, with a key per level it is met at, counting its items there |
| SrcNamespace.CombinedToken | src/namespace.py:80 | `f"{part} ({level})"` starts with the part and, without its ")", ends in the token "(" + level |
| SrcNamespace.CombinedInjective | src/namespace.py:80 | Distinct (part, level) pairs never share a `frequency_list` key, even when parts contain spaces |
| SrcNamespace.FoldLines | src/namespace.py:80-83 | A (part, level) key is present exactly when the pair is met, and holds one "\n\t" line per item naming its entry |
| SrcNamespace.FoldLineKeys | src/namespace.py:80-83 | No key is made up: each comes from some item |
| SrcNamespace.FrequencyAll | src/namespace.py:76-79 | The counters of the whole stream, at every part and level |
| SrcNamespace.LinesAll | src/namespace.py:80-83 | The lines of the whole stream, at every key |
| SrcNamespace.AnalyzeNamespaceFrequency | src/namespace.py:63-86 | Both results of `analyze_namespace_frequency`: the counters by part and level, and the lines by (part, level) key, each for exactly the pairs met |
| SrcNamespace.FrequencyListMatches | src/namespace.py:63-86 | The two results agree: a pair has lines exactly when it is counted |
| SrcNamespace.DetectNonNamespaceConflicts | src/namespace.py:115-131 | A part gets a key exactly when it is met and is a non-namespace name, listing every entry holding it once per item |
| SrcNamespaceAnalyzer.NamespaceAnalyzer.constructor | src/namespace_analyzer.py:33-49 | The data and dangling links are kept; everything else starts empty |
| SrcNamespaceAnalyzer.NamespaceAnalyzer.InitNsParts | src/namespace_analyzer.py:51-60 | Every page with a truthy `namespace_level` is copied into `namespace_data` unless already there; `namespace_parts` rebuilt from the entries with truthy parts |
| SrcNamespaceAnalyzer.NamespaceAnalyzer.GetUniqueNsParts | src/namespace_analyzer.py:62-68 | Every part joins the unique parts, which are returned |
| SrcNamespaceAnalyzer.NamespaceAnalyzer.AnalyzeNsDetails | src/namespace_analyzer.py:70-85 | A fresh distribution counting each level's items, and its largest level, or 0 |
| SrcNamespaceAnalyzer.NamespaceAnalyzer.GetUniqueNsByLevels | src/namespace_analyzer.py:87-94 | A fresh dict holding, at each level met and only those, the parts met there |
| SrcNamespaceAnalyzer.NamespaceAnalyzer.BuildNsTree | src/namespace_analyzer.py:125-135 | The tree gains exactly the prefixes of each entry's parts and loses nothing |
| SrcNamespaceAnalyzer.NamespaceAnalyzer.DetectNonNsConflicts | src/namespace_analyzer.py:137-151 | Fresh dicts: parts that are names of pages whose `namespace_level` is `None`, or dangling links, each list every entry they occur in |
| SrcNamespaceAnalyzer.NamespaceAnalyzer.DetectParentDepthConflicts | src/namespace_analyzer.py:153-181 | One "part level" key per level of each part met at two or more levels, written over the dict; keys that parsed still parse |
| SrcNamespaceAnalyzer.NamespaceAnalyzer.GetUniqueParentConflicts | src/namespace_analyzer.py:183-195 | `ValueError` exactly when some key's last token is not a number, and then the model leaves the dict unchanged (weaker, see Left out); otherwise each key gets the level-length prefixes of its pages |
| Tally.Repeat | logseq_analyzer/analysis/graph.py:61 | `n` copies of a name, as `found_in` collects them |
| Tally.Upsert | logseq_analyzer/analysis/graph.py:58-61 | One turn: the value's count grows by one and its `found_in` gains the file's name; every other value keeps its tally |
| Tally.UpsertHasKey | logseq_analyzer/analysis/graph.py:59 | `setdefault` adds the key if it is new and keeps every other key |
| Tally.UpsertUnique | logseq_analyzer/analysis/graph.py:59 | Keys stay unique |
| Tally.UpsertBalanced | logseq_analyzer/analysis/graph.py:58-61 | A value's count stays equal to the length of its `found_in` |
| Tally.TallyAllFind | logseq_analyzer/analysis/graph.py:58-61 | After one file's values, a value's count grew by its number of occurrences and its `found_in` by that many copies of the file's name |
| Tally.TallyAllBalanced | logseq_analyzer/analysis/graph.py:58-61 | Counting keeps every count equal to its `found_in` length and keeps keys unique |
| Tally.CountItems | logseq_analyzer/analysis/graph.py:58-61 | The counting loop is the fold of its turns |
| Tally.SortByCount | logseq_analyzer/logseq_graph.py:292 | Sorting by count, largest first: a permutation of the items, and balance is kept |
| Tally.TallyFilesCount | logseq_analyzer/logseq_graph.py:285-291 | A value's count is its number of occurrences under the criterion over all files; tallies stay balanced with unique keys |
| Tally.ExtractSummarySubsetContent | logseq_analyzer/logseq_graph.py:273-292 | The tallies of one criterion over all files, ordered by count, largest first, each count equal to its number of `found_in` entries |
| Tally.Bump | logseq_analyzer/analysis/summary_content.py:56 | `counter[name] += 1`: that name's entry and the counter's total grow by one, every other entry stays |
| Tally.UpsertCounted | logseq_analyzer/analysis/summary_content.py:53-56 | One turn: count grows by one, the file's counter entry by one, other values unchanged, and the count stays the sum of the counter |
| Tally.CountedAllFind | logseq_analyzer/analysis/summary_content.py:52-56 | One file's values raise a value's count and its entry for that file by the value's occurrences, and leave other files' entries alone |
| Tally.CountedFilesBalanced | logseq_analyzer/analysis/summary_content.py:52-56 | Over all files, every count is the sum of its per-file counter |
| Tally.CountedAllBalanced | logseq_analyzer/analysis/summary_content.py:52-56 | Counting keeps each count equal to the sum of its counter |
| Tally.ExtractCountedSubset | logseq_analyzer/analysis/summary_content.py:38-57 | The counted tallies of one criterion, ordered by count, largest first, each count the sum of its per-file counter |
| Tally.SortedCountedBalanced | logseq_analyzer/analysis/summary_content.py:57 | Any permutation keeps the counts balanced |
| Tally.CountCountedItems | logseq_analyzer/analysis/summary_content.py:53-56 | The counting loop over one file's values is the fold of its turns |
| Tally.GenerateSummary | logseq_analyzer/analysis/summary_content.py:29-36 | One subset per criterion, keyed by the criterion, each the sorted counted tallies of that criterion |
| Tally.ProcessDanglingLinks | src/process_dangling_links.py:8-21 | Exactly the entries whose key is dangling, values unchanged, ordered by count, largest first |
| Tally.DanglingEntries | src/process_dangling_links.py:19 | The comprehension keeps exactly the dangling entries, in order |
| Tally.DanglingKeys | src/process_dangling_links.py:8-21 | The result's keys are exactly the dangling links that have an entry |
| Summarizers.GroupSpec | logseq_analyzer/analysis/summarizers.py:50-56 | A `defaultdict(list)` bucket exists exactly for the values met (or already there), and each bucket's new entries are the names of the files with that value, in order |
| Summarizers.NamesWithNone | logseq_analyzer/analysis/summarizers.py:54-56 | A value no file has selects no name |
| Summarizers.GroupSnoc | logseq_analyzer/analysis/summarizers.py:50-56 | One more file appends its name to its own value's bucket |
| Summarizers.BucketsTotal | logseq_analyzer/analysis/summarizers.py:54-56 | Each file lands in exactly one bucket: the buckets' lengths add up to the number of files |
| Summarizers.GeneralStepSpec | logseq_analyzer/analysis/summarizers.py:58-71 | One file's five tests append its name to exactly the buckets of its flags |
| Summarizers.GeneralSpec | logseq_analyzer/analysis/summarizers.py:50-71 | A flag bucket exists only for a flag some file has (or was there), and lists the names of the files with that flag, in order |
| Summarizers.FlagNamesNone | logseq_analyzer/analysis/summarizers.py:58-71 | A flag no file has selects no name |
| Summarizers.FlagNamesMembers | logseq_analyzer/analysis/summarizers.py:58-71 | The names listed for a flag are exactly those of the files with it |
| Summarizers.SortValues | logseq_analyzer/analysis/summarizers.py:73-74 | Each bucket sorted: same keys, each list ascending and a permutation of what it held |
| Summarizers.SortBuckets | logseq_analyzer/analysis/summarizers.py:73-74 | The sorting loop over the keys sorts every bucket |
| Summarizers.GeneralContains | logseq_analyzer/analysis/summarizers.py:40-74 | From empty buckets: a flag bucket exists iff some file has the flag, and lists a name iff some file of that name has it |
| Summarizers.LogseqFileSummarizer.constructor | logseq_analyzer/analysis/summarizers.py:30-42 | Empty `defaultdict`s, then the summary: type, node-type and extension buckets of the index, and the sorted flag buckets |
| Summarizers.LogseqFileSummarizer.GenerateSummary | logseq_analyzer/analysis/summarizers.py:44-74 | Each file's name appended to its type, node type and extension buckets and to its flag buckets; every flag bucket then sorted |
| Summarizers.LastIndexSpec | logseq_analyzer/analysis/summarizers.py:106-109 | The last position of a name among the first n files, found exactly when the name occurs |
| Summarizers.ByName | logseq_analyzer/analysis/summarizers.py:106-109 | `d[name] = value` in order: the keys are exactly the names met |
| Summarizers.LastIndexIn | logseq_analyzer/analysis/summarizers.py:106-109 | The last position of a name that is met, with no later occurrence |
| Summarizers.ByNameSnoc | logseq_analyzer/analysis/summarizers.py:106-109 | One more assignment rebinds its name and leaves the others |
| Summarizers.ReportItemsKeys | logseq_analyzer/analysis/summarizers.py:103-105 | `report.setdefault(k, {})` over one file's items adds exactly that file's data keys |
| Summarizers.ReportKeys | logseq_analyzer/analysis/summarizers.py:100-105 | The report gains a key for every data key of every file, and no other |
| Summarizers.FoldItems | logseq_analyzer/analysis/summarizers.py:103-105 | The loop over one file's data items is the fold of its turns |
| Summarizers.LogseqContentSummarizer.constructor | logseq_analyzer/analysis/summarizers.py:77-91 | Empty reports, then the summary: every data item counted in through the helper, and each info report keyed by name |
| Summarizers.LogseqContentSummarizer.GenerateSummary | logseq_analyzer/analysis/summarizers.py:93-113 | The report gains each data item of each file through the counting helper; the four info reports are rebuilt, each name keyed to the records of the last file of that name |
| Summarizers.LastFileWins | logseq_analyzer/analysis/summarizers.py:100-109 | An info report keys each file name once, to the records of the last file with that name |
| Summarizers.GroupGet | logseq_analyzer/analysis/summarizers.py:50-56 | Reading any key after grouping gives its old names followed by the names of the files whose field has that value, in index order |
| Summarizers.SummariseFiles | logseq_analyzer/analysis/summarizers.py:50-71 | The loop over the index leaves the three grouped dicts and the flag buckets of all files, in index order |
| Summarizers.TestFlags | logseq_analyzer/analysis/summarizers.py:59-71 | The five flag tests of one file append its name to exactly the buckets of its flags |
| Summarizers.SummariseContent | logseq_analyzer/analysis/summarizers.py:100-109 | The loop over the index leaves the counted report and the four info reports keyed by name to the last file of that name |
| AssetsAnalysis.AssetPositions | logseq_analyzer/analysis/assets.py:25-26 | Exactly the positions of the files whose type is `asset`, each in range |
| AssetsAnalysis.UpdateAssetBacklink | logseq_analyzer/analysis/assets.py:42-51 | The flag becomes set when some mention holds the asset's name or the mentioning file's name, and is never cleared |
| AssetsAnalysis.MarkFromFile | logseq_analyzer/analysis/assets.py:32-36 | For one mentioning file, an asset file's flag is set exactly when it was set or this file mentions it; other files keep their flags |
| AssetsAnalysis.MarkAll | logseq_analyzer/analysis/assets.py:27-36 | The loop over all files, skipping those with no mentions of either kind, leaves the flags `AssetFlags` describes |
| AssetsAnalysis.AssetFlagsIdempotent | logseq_analyzer/analysis/assets.py:22-40 | Marking twice marks nothing more: the flags `handle_assets` leaves are a fixed point |
| AssetsAnalysis.AssetFlagsAgreeWithLegacy | logseq_analyzer/analysis/assets.py:22-40 | With no embedded asset links and the asset subset naming exactly the asset files, the flags agree with the older `handle_assets` |
| AssetsAnalysis.LogseqAssets.constructor | logseq_analyzer/analysis/assets.py:17-20 | Both lists start empty |
| AssetsAnalysis.LogseqAssets.HandleAssets | logseq_analyzer/analysis/assets.py:22-40 | The index's flags become `AssetFlags`, and the asset files are listed, in reading order, by their new flag |
| AssetsAnalysis.SubAssetMapping | logseq_analyzer/analysis/assets.py:73 | The keys are exactly the names of the `sub_asset` files; each maps to the last such file with its name |
| AssetsAnalysis.LastValueSpec | logseq_analyzer/analysis/assets.py:90-96 | A later match overrides an earlier one: each property's value is that of its last match, or "" without one |
| AssetsAnalysis.ReadProperties | logseq_analyzer/analysis/assets.py:89-96 | The three properties each keep the value of their last match |
| AssetsAnalysis.FormatBullet | logseq_analyzer/analysis/assets.py:85-100 | One bullet's contribution is its formatted text, when it starts with "[:span]" and all three properties are non-empty |
| AssetsAnalysis.CollectPage | logseq_analyzer/analysis/assets.py:84-100 | The set gains exactly the formatted texts of the page's bullets |
| AssetsAnalysis.FromBulletsSnoc | logseq_analyzer/analysis/assets.py:83-100 | One more page adds exactly the texts its bullets format to |
| AssetsAnalysis.CollectFormatted | logseq_analyzer/analysis/assets.py:83-100 | The two loops add exactly the formatted bullets of every highlight page |
| AssetsAnalysis.BacklinkSetsAsWrittenOverlap | logseq_analyzer/analysis/assets.py:106-108 | As written, a name no bullet formats to is both backlinked and not backlinked |
| AssetsAnalysis.BacklinkSets | logseq_analyzer/analysis/assets.py:102-108 | As evidently intended: the names split into two disjoint sets covering them all, backlinked exactly when some bullet formats to the name |
| AssetsAnalysis.MarkNames | logseq_analyzer/analysis/assets.py:119-124 | Each file a listed name maps to gets the given flag and the type `asset`; every other file is unchanged |
| AssetsAnalysis.UpdateSubAssetFiles | logseq_analyzer/analysis/assets.py:111-126 | Backlinked names first, then the others: the second loop's `False` wins, every touched file becomes an `asset` |
| AssetsAnalysis.SubAssetFlags | logseq_analyzer/analysis/assets.py:106-124 | Whichever backlinked set is handed on, every mapped file ends an `asset`, flagged exactly when some bullet formats to its name |
| AssetsAnalysis.LogseqAssetsHls.constructor | logseq_analyzer/analysis/assets.py:60-66 | Every field starts empty |
| AssetsAnalysis.LogseqAssetsHls.GetAssetFiles | logseq_analyzer/analysis/assets.py:68-74 | The mapping of the `sub_asset` files by name, and its key set as the names |
| AssetsAnalysis.LogseqAssetsHls.ConvertNamesToData | logseq_analyzer/analysis/assets.py:76-100 | The formatted bullets of the highlight pages join those already collected, and nothing else does |
| AssetsAnalysis.LogseqAssetsHls.CheckBacklinks | logseq_analyzer/analysis/assets.py:102-126 | The intended backlinked and not-backlinked sets, then each mapped file becomes an `asset` with the flag of its set |
| SummaryData.SrcFileType | src/process_summary_data.py:51-76 | Total over the six types: "asset" iff the parent is the assets directory or the assets directory is among the parts; each other type iff its directory is the parent and no earlier rule applies; "other" iff no configured directory is the parent and no assets directory is on the path |
| SummaryData.SrcFileTypeIsLookup | src/process_summary_data.py:51-76 | With distinct directory names the rule is the plain parent lookup unless an assets directory is among the parts, which makes the file an asset |
| SummaryData.ContentOf | src/summarydata.py:33 | `get(name, {})`: the file's content record, or the empty one when it has none |
| SummaryData.SummaryOf | src/summarydata.py:32-97 | One file's summary: has_content iff its content record is non-empty; each link flag iff there is content and one of that flag's keys holds a truthy value; the file type by the asset-first rule; back-linked iff some reference in its id's bucket is the name or contains name + "/"; node type "other" exactly for files that are neither journals nor pages, else the three-flag role |
| SummaryData.NoContentNoLinks | src/summarydata.py:33-66 | A file without a content record, or with an empty one, raises none of the content and link flags |
| SummaryData.EmptyPageRole | src/summarydata.py:85-88 | A journal or page without content is a leaf when linked to, and a true orphan otherwise |
| SummaryData.AssetsHaveNoRole | src/summarydata.py:72-88 | A file under an assets directory is an asset and gets node type "other" |
| SummaryData.ProcessSummaryData | src/summarydata.py:6-99 | The loop writes one summary per metadata entry, in order, under the entry's own name, each the summary of that file |
| LegacyFilename.StripTrailingSeparator | logseq_analyzer/logseq_filename.py:49-50 | The result is a prefix of the name: unchanged unless the name ends with the whole separator, and then only separator characters are removed from the end |
| LegacyFilename.LegacyJournalKey | logseq_analyzer/logseq_filename.py:59-81 | The journal title (no apostrophe) when the date parses, else the name unchanged |
| LegacyFilename.LegacyProcessName | logseq_analyzer/logseq_filename.py:47-57 | A journal whose date does not parse keeps its name with the trailing separator stripped |
| LegacyFilename.LegacyNameHasNoSeparator | logseq_analyzer/logseq_filename.py:53-57 | Outside the journals directory no file separator survives in the processed name |
| LegacyFilename.LeadingSeparatorKept | logseq_analyzer/logseq_filename.py:47-57 | With separator "___", `___a` becomes "/a" here, where the newer package gives "a" |
| LegacyFilename.PartialSeparatorKept | logseq_analyzer/logseq_filename.py:49-50 | `a_` does not end with "___", so it is kept here, where the newer package strips it to "a" |
| LegacyFilename.UnparsedJournalKept | logseq_analyzer/logseq_filename.py:75-81 | A journal name whose date does not parse is kept here, where the newer package gives "" |
| LegacyFilename.FileTypeIsParentLookup | logseq_analyzer/logseq_filename.py:127-137 | The bare parent lookup: one of the six plain types, never a `sub_` type, "other" iff the parent is no configured directory, and the newer rule's answer whenever it is one |
| LegacyFilename.LogseqFilename.constructor | logseq_analyzer/logseq_filename.py:33-45 | The original stem, the lower-cased parent and suffix (None when absent), the processed lower-cased name, the namespace flag iff that name has "/", the parent's file type and the namespace fields of that name |
| LegacyFilename.LogseqFilename.ProcessLogseqFilename | logseq_analyzer/logseq_filename.py:47-57 | Only the name changes, to the processed name |
| LegacyFilename.LogseqFilename.GetNamespaceNameData | logseq_analyzer/logseq_filename.py:103-125 | The namespace fields become the truthy values derived from the name's parts, only for a namespace |
| LegacyFilename.LogseqFilename.DetermineFileType | logseq_analyzer/logseq_filename.py:127-137 | "other" iff the parent is no configured directory; otherwise the type the newer rule gives too |
| LegacyFilename.LegacyNamespaceLevel | logseq_analyzer/logseq_filename.py:43-45 | A processed name with "/" gets its namespace level, the number of parts, at least two |

## Left out

- File-system and process I/O: reading pages, `stat`, writing reports, caches, logging, the command-line and GUI front ends, and the `print` calls in `analysis/assets.py`. They produce or consume the values this model takes as inputs.
- Regular expressions: every pattern match, `mask_blocks` with its `uuid` placeholders, the regex-driven `process_*` loops of the file object, the bullet splitter and `analyze_ns_queries`. Their match lists are parameters; what is modelled is how those lists are stored and combined.
- `strptime`/`strftime` and `datetime`: dates are proleptic Gregorian day numbers, and parsing a journal key is a function parameter in `LegacyJournals`. `journals_to_datetime` is not part of this model; it is missing from `date_utilities`.
- `ast.literal_eval` on EDN string tokens is the `Decoder` parameter of `Edn`. Floats are kept as their token text.
- Edn.KeyEq: a float is kept as its token text and equals only the same text, so `1.0`, `1.00` and `1` stay distinct keys and set elements where Python merges them. A frozenset key equals only the same set of model values, not a set of Python-equal elements.
- Edn.Put: keys and set elements are merged through `Edn.KeyEq`, so the float limitation of `Edn.KeyEq` applies here too.
- Edn.AddElem: keys and set elements are merged through `Edn.KeyEq`, so the float limitation of `Edn.KeyEq` applies here too.
- Edn.ElemsAt: keys and set elements are merged through `Edn.KeyEq`, so the float limitation of `Edn.KeyEq` applies here too.
- Edn.EntriesAt: keys and set elements are merged through `Edn.KeyEq`, so the float limitation of `Edn.KeyEq` applies here too.
- Edn.LoadsDumps: keys and set elements are merged through `Edn.KeyEq`, so the float limitation of `Edn.KeyEq` applies here too.
- Edn.DigitsEnd: `\d` in the number pattern matches ASCII digits only. Python's `re` on `str` also matches other Unicode decimal digits.
- Edn.Lex: `\s` in the token pattern is ASCII whitespace only (`PyStr.IsSpace`). Python's `re` on `str` also matches Unicode whitespace.
- PyInt.ParseInt: accepts an optional sign and ASCII decimal digits only. Python's `int` also accepts surrounding whitespace, underscores and Unicode digits, which the model rejects.
- PyStr.Strip, PyStr.Lower: ASCII whitespace and ASCII `A`-`Z` only. Python's Unicode tables are not modelled.
- `convert_uri_to_logseq_url` and the `uri` and `logseq_url` attributes, in both name objects (`FileName`, `LegacyFilename`): URL quoting is not modelled.
- Bullet density and other ratios: floating point is left out; the counts they divide are modelled.
- Object identity and aliasing: files are values. The current package identifies them by their path parts; the older one by the `LogseqFileHash` key of name, parent directory and suffix, which `LegacyGraph` stores as the slot that key was first given. A mutated shared object is a field of a map or a per-slot sequence keyed by that identity.
- Dict ordering where nothing observes it: `frequency`, `conflicts_*`, the summarizer reports and the query analyses are `map`s. `sort_report` and the sort of summary buckets are the identity on maps; the sort order itself is proved in `Order`.
- `Summarizers`: the content reports hold the inner dict; the source wraps each one as a one-key dict (`{"report_size": …}`, analysis/summarizers.py:110-113).
- `get_count_and_foundin_data` is imported by analysis/summarizers.py but not defined in utils/helpers.py. `Summarizers.Report` takes it as the `count` parameter.
- The older `logseq_graph.py` reads `file.path.name` and `file.path.is_namespace`, which the older `logseq_file.py` objects do not have (they carry `name` and `is_namespace` themselves). `LegacyGraph` reads the attributes the objects do have.
- NamespacesAnalysis.Namespaced: `init_ns_parts` (analysis/namespaces.py:97-98) writes `for file in index` and reads `file.path.ns_info`. The `FileIndex` of analysis/index.py:13-119 defines neither `__iter__` nor `__getitem__`, and `LogseqFilename` (logseq_file/name.py:21-40) has no `ns_info`, so as written the loop raises `TypeError`. The model iterates the indexed files in index order as `IndexFile` values, which carry the `ns_info`-derived fields the call site expects (`hasNsInfo`, `parts`).
- NamespacesAnalysis.LogseqNamespaces.InitNsParts: likewise, it takes the index as a sequence of `IndexFile` values through `Namespaced`, in index order, where the provided `FileIndex` cannot be iterated.
- NamespacesAnalysis.LogseqNamespaces.DetectNonNsConflicts: likewise (analysis/namespaces.py:139-140): the non-namespace names come from iterating `IndexFile` values and reading `hasNsInfo`, which the provided `FileIndex` and `LogseqFilename` do not offer.
- Journals.LogseqJournals.constructor: `process` (analysis/journals.py:70) iterates `index`, which the provided `FileIndex` does not support. The model takes the journal files' days, in index order, as the `journalDays` parameter.
- Summarizers.SummariseFiles: `generate_summary` (analysis/summarizers.py:50-67) iterates `self.index` and reads `f.node`, `f.info` and `f.path.file.suffix`. The provided `FileIndex` cannot be iterated, and the provided `LogseqFile` (logseq_file/file.py:25-50) and `LogseqFilename` have no `node`, `info` or `file`. The model iterates the indexed files in index order as `SFile` values that carry the node flags, content flag and extension those lines read.
- Summarizers.LogseqFileSummarizer.GenerateSummary: likewise, through `SummariseFiles`.
- Summarizers.SummariseContent: `generate_summary` (analysis/summarizers.py:100-109) iterates `self.index` and reads `f.info`. Neither is offered by the provided `FileIndex` and `LogseqFile`. The model iterates `CFile` values in index order, each carrying the data and the four info records those lines read.
- Summarizers.LogseqContentSummarizer.GenerateSummary: likewise, through `SummariseContent`.
- Tally.ExtractCountedSubset: `_extract_summary_subset_content` (analysis/summary_content.py:52) writes `for file in index`, which the provided `FileIndex` does not support. The model takes the indexed files, in index order, as a sequence of `FileData` values.
- Tally.GenerateSummary: likewise, through `ExtractCountedSubset`.
- `part_level_details` in src/namespace.py:37-44 is a local `defaultdict` that is filled and never read, so it is not modelled. Neither are the `process_namespace_data` entry points that only chain the modelled helpers and write the results.
- `NamespaceAnalyzerModel.NamespaceAnalyzer.GetUniqueParentConflicts`: on a key whose last token is not a number, Python raises after assigning the earlier keys; the model leaves the dict unchanged and returns the error.
- `SrcNamespaceAnalyzer.NamespaceAnalyzer.GetUniqueParentConflicts`: likewise, src/namespace_analyzer.py:188-195 has assigned every key met before the one whose `int(...)` raises, while the model leaves `conflicts_parent_unique` unchanged and returns the error; the path is not reached from the constructor, since `DetectParentDepthConflicts` keeps every key parseable.
- Text that the source reads as `None` (a missing `text` field, a missing property value) is modelled as the empty string.
- `AssetsAnalysis.MarkNames` and `AssetsAnalysis.LogseqAssetsHls.CheckBacklinks` require every name to be a key of the sub-asset mapping. Python would raise `KeyError` otherwise, and every name comes from that mapping's keys.
- PyList.RemoveFirst: returns the list unchanged where Python's `list.remove` raises `ValueError`; every modelled caller removes an element it has just checked or shown to be present.
- Aliases.SplitAliases: the splitter does not keep link markers out of its results. `Aliases.OpenMarkerSurvives` and `Aliases.CloseMarkerSurvives` give two inputs whose only alias is `[[` or `]]`. The source promises nothing about brackets in the results, so this is stated as proved behaviour, not as a defect.
- SummaryData.ProcessSummaryData: the result is the sequence of (name, summary) pairs in metadata order. The `defaultdict(bool)` default for a field never written is not modelled, since every entry gets all eight fields.
- SummaryData.Meta: a metadata record that lacks one of the four fields read raises `KeyError` in Python. The model's record always has them.

## Findings

| source | as written | input that shows it | evidently intended | confidence | as-written member | corrected member |
|---|---|---|---|---|---|---|
| logseq_analyzer/analysis/index.py:36-63 | `add` appends to the name list even when the file is already indexed; `remove` takes out one copy | add file f twice, then remove f: f is gone from `files` but still listed under its name; removing by name then raises `KeyError` | a file is listed under its name at most once | not executed | FileIndexModel.AddTwiceRemoveOnceLeavesStale | FileIndexModel.AddOnceValid |
| logseq_analyzer/logseq_file/file.py:78-81 | `init_file_data` calls `determine_file_type` and `process_logseq_filename` and drops the strings they return | any fresh file, for example a page whose name contains "/": it gets no file type, no processed name and no namespace data | store both results on the name object before `get_namespace_name_data` reads them | not executed | FileName.InitAsWrittenLosesNameData | FileName.InitIntendedSetsNamespace |
| logseq_analyzer/analysis/journals.py:104-105 | reads the keys "first" and "last" of the timeline statistics | any timeline: the statistics hold "first_date" and "last_date", so the lookup raises `KeyError` | read "first_date" and "last_date" | not executed | Journals.OutsideRangeAsWrittenFails | Journals.OutsideRangePartition |
| logseq_analyzer/namespace_analyzer.py:56 | `yield_files_with_keys(self.data, …)` is given a dict, so it iterates over name strings, and `hasattr` on a string is always false | a page "a/b" with `namespace_level` 2: no namespace page is selected | select the records that have a `namespace_level` | not executed | NamespaceAnalyzerModel.NamespacePageMissedAsWritten | NamespaceData.LevelPartition |
| logseq_analyzer/namespace_analyzer.py:124 | `list_files_without_keys(self.data, …)` reads `.name` of each name string | any non-empty data: `AttributeError` | the names of the records without a `namespace_level` | not executed | NamespaceAnalyzerModel.WithoutLevelAsWrittenRaises | NamespaceData.WithoutLevelNames |
| logseq_analyzer/analysis/assets.py:107 | the back-linked set is the asset names intersected with themselves | asset "a.pdf" that no highlight bullet names: it is in both the back-linked and the not-back-linked set | intersect the asset names with the formatted bullets | not executed | AssetsAnalysis.BacklinkSetsAsWrittenOverlap | AssetsAnalysis.BacklinkSets |

# Kapwa Companion text pipeline: a verified Dafny model

This project models the text-processing core of the Kapwa Companion back end in Dafny and proves properties of the model. It covers three parts.

- **The knowledge-base chunker** (`functions/chroma_setup.py`). It has four stages:
  - a token counter, with tiktoken when it loaded and `len(text) // 4` otherwise;
  - a cleaner that applies a fixed sequence of regular-expression rewrites;
  - an abbreviation-aware sentence splitter;
  - a chunk builder. It packs sentences into buffers and finalises a buffer when the next sentence would take it past 400 tokens; a new buffer is the overlap seed plus that sentence, so a buffer holds at most 400 + 50 tokens. It seeds each new buffer with the longest run of trailing sentences that fits an overlap budget of 50 tokens.

  It also models the metadata stored with each chunk.
- **Post-processing of the LLM's suggestion list** (`functions/suggestion_extractor.py`). This strips the markdown fence, decodes the JSON and keeps only suggestion objects. It stamps each kept object with the extraction metadata, then removes duplicates under a trimmed, lower-cased key; the first occurrence wins.
- **The vector-store viewer's helpers** (`functions/chroma_show.py`). These are the file-name and file-type extraction, the truncation of IDs, file names and previews, the per-source chunk counter of the summary table, and the per-file and per-type counters of the files breakdown.

## How the model is built

- **Pure code** (the cleaner, the token counter, the path helpers) becomes functions and lemmas.
- **Loop code** becomes methods with loop invariants, each proved equal to a specification function:
  - the chunk scan and its overlap loop;
  - the abbreviation-protection loop and the sentence and paragraph assembly loops;
  - the stamping and deduplication loops;
  - the counting loops of the viewer.

  The properties the source promises are then proved about those functions.
- **External code is passed in as parameters:**
  - the tokenizer, as `Tokens.Tokenizer`;
  - `json.loads`, as a decoder function returning `Option<Json>`;
  - the current timestamp.

Files:

- `text.dfy`: strings, Python whitespace, `str.strip`, ASCII case mapping and `str.replace`.
- `tokens.dfy`: the token counter.
- `cleaner.dfy`: the cleaner.
- `splitter.dfy`: the sentence splitter.
- `split_example.dfy`: worked examples of the splitter.
- `chunker.dfy`: the chunk builder and the per-chunk metadata.
- `suggestions.dfy`: post-processing of the LLM response.
- `viewer.dfy`: the viewer's helpers and counters.

Four behaviours of the source are modelled as written, not as one might expect:

- A buffer can hold more than 400 tokens. The proved bound is 400 + 50.
- The cleaner is not idempotent.
- The blank-line paragraph split never fires on cleaned text.
- The inner dot of the dotted abbreviations (`i.e`, `e.g`, `a.m`, `p.m`, `Ph.D`, `M.D`) is an unescaped regular-expression wildcard. So a word such as `mad.` is rewritten to `M.D.`, and a sentence boundary after it is lost.

## Model

| member | source | states |
|---|---|---|
| Tokens.CountTokens | functions/chroma_setup.py:71-77 | The count is a natural number. With a loaded tokenizer it is the length of the encoding; without one it is `len(text) // 4`, i.e. `4n <= len(text) < 4n + 4`. |
| Text.StripLeftShape | functions/chroma_setup.py:94 | `lstrip` removes exactly a leading run of whitespace; the result is a suffix of the input and does not start with whitespace. |
| Text.StripRightShape | functions/chroma_setup.py:94 | `rstrip` removes exactly a trailing run of whitespace; the result is a prefix of the input and does not end with whitespace. |
| Text.StripShape | functions/chroma_setup.py:94 | `strip` returns a trimmed slice of the input with only whitespace cut on each side. |
| Text.StripFixedIffTrimmed | functions/chroma_setup.py:94 | `s.strip() == s` if and only if `s` neither starts nor ends with whitespace. |
| Text.StripChars | functions/chroma_setup.py:94 | `strip` brings in no character that was not in its input. |
| Text.Lower | functions/suggestion_extractor.py:52 | `str.lower` keeps the length and lower-cases position by position. |
| Text.Upper | functions/chroma_show.py:82 | `str.upper` keeps the length and upper-cases position by position. |
| Text.ReplaceRemovesAll | functions/chroma_setup.py:124 | After `str.replace(pat, rep)` no occurrence of the pattern is left, provided neither starts with a character of the other. |
| Text.ReplaceAbsent | functions/chroma_setup.py:124 | `str.replace` leaves a text without the pattern unchanged. |
| Text.ReplaceAllChars | functions/chroma_setup.py:88-89 | A replacement brings in only characters of the input and of the replacement. |
| Cleaner.Clean | functions/chroma_setup.py:79-94 | The cleaned text is trimmed, contains no whitespace other than the plain space, and has no run of four or more dots. |
| Cleaner.CollapseSpacesShape | functions/chroma_setup.py:82 | After `re.sub(r'\s+', ' ')` only plain spaces remain and no two are adjacent; a leading whitespace run becomes one space and any other first character is kept. |
| Cleaner.CollapseFixedIff | functions/chroma_setup.py:82 | Collapsing changes nothing if and only if the text has only plain spaces and no double space. |
| Cleaner.DigitRun | functions/chroma_setup.py:85 | The matched `\d+` run is the longest run of digits at the front. |
| Cleaner.RemoveCitationsChars | functions/chroma_setup.py:85 | Removing `[digits]` citations brings in no new character. |
| Cleaner.RemoveCitationsNoMarker | functions/chroma_setup.py:85 | A text with no `[digits]` citation at any position is unchanged. |
| Cleaner.RemoveCitationsAbsent | functions/chroma_setup.py:85 | A text without `[` is unchanged. |
| Cleaner.FixApostrophesShape | functions/chroma_setup.py:88 | No mis-encoded apostrophe survives, and the only character brought in is `'`. |
| Cleaner.FixApostrophesAbsent | functions/chroma_setup.py:88 | A text without the lead byte of the mojibake is unchanged. |
| Cleaner.FixQuotesChars | functions/chroma_setup.py:89 | Repairing quotes brings in only `"`, and the first character is kept or becomes `"`. |
| Cleaner.FixQuotesRemovesAll | functions/chroma_setup.py:89 | After the quote repair no two-character mojibake prefix is left, which covers both alternatives of the pattern. |
| Cleaner.FixQuotesAbsent | functions/chroma_setup.py:89 | A text without the lead byte of the mojibake is unchanged. |
| Cleaner.DotRun | functions/chroma_setup.py:92 | The matched dot run is the longest run of dots at the front. |
| Cleaner.NormalizeEllipsesShape | functions/chroma_setup.py:92 | After `re.sub(r'\.{3,}', '...')` there is no run of four dots; no character is brought in and the first character is kept. |
| Cleaner.NormalizeEllipsesFixedIff | functions/chroma_setup.py:92 | Normalising dots changes nothing if and only if the text has no run of four dots. |
| Cleaner.NoFourDotsStrip | functions/chroma_setup.py:94 | Stripping cannot create a run of four dots. |
| Cleaner.CleanNotIdempotent | functions/chroma_setup.py:82-85 | Cleaning `"a [1] b"` gives `"a  b"` with two spaces, and cleaning that again gives `"a b"`: the cleaner is not idempotent. |
| Cleaner.CleanCitationExample | functions/chroma_setup.py:82-94 | `"a [1] b"` cleans to `"a  b"`: whitespace is collapsed before the citation is removed. |
| Cleaner.CleanDoubleSpaceExample | functions/chroma_setup.py:82-94 | `"a  b"` cleans to `"a b"`. |
| Cleaner.NestedCitationSurvives | functions/chroma_setup.py:85 | `"[1[2]]"` cleans to `"[1]"`, because one pass of the citation pattern leaves a new citation behind. |
| Cleaner.CleanPlainTail | functions/chroma_setup.py:88-94 | When the first two rewrites give a trimmed text with no mojibake and no dot, the remaining steps (apostrophes, quotes, ellipses and strip) change nothing. |
| Splitter.RunEnd | functions/chroma_setup.py:114 | The `\s+` run starting at `i` ends at the first character that is not whitespace. |
| Splitter.SentenceSpans | functions/chroma_setup.py:114 | `re.split` at the sentence boundaries gives a non-empty list of spans, each inside the text. Their order and disjointness are stated by `SentenceSplitExact`. |
| Splitter.Pieces | functions/chroma_setup.py:114 | Each piece is the text of its span. |
| Splitter.SentenceSplitExact | functions/chroma_setup.py:114 | The first span starts at 0 and the last ends at the end of the text. No span contains a boundary. Consecutive spans are separated by exactly the whitespace run after a `[.!?]` that is followed by an ASCII capital, so a period before a lowercase letter or a digit never splits. |
| Splitter.SentenceSpansFromShape | functions/chroma_setup.py:114 | From any position reached without a boundary, the rest of the split has the shape above. |
| Splitter.SentencesWithoutTerminator | functions/chroma_setup.py:114 | A text with no `.`, `!` or `?` is one sentence. |
| Splitter.LastNewlineEnd | functions/chroma_setup.py:120 | It finds the end of the last newline in a range, or reports that there is none. |
| Splitter.ParagraphMatchEnd | functions/chroma_setup.py:120 | A `\n\s*\n` match starts at a newline and ends just after a later newline. |
| Splitter.ParagraphSpansFrom | functions/chroma_setup.py:120 | The paragraph split gives a non-empty list of spans, each inside the sentence. Their order is stated by `ParagraphSplitExact`. |
| Splitter.ParagraphSplitExact | functions/chroma_setup.py:120 | The paragraph parts cover the sentence from 0 to its end, in order. Between two consecutive parts lies exactly one `\n\s*\n` separator: a newline, whitespace, a newline. No separator starts inside a part. |
| Splitter.ParagraphSpansFromShape | functions/chroma_setup.py:120 | From any position reached without a separator, the rest of the paragraph split has that shape. |
| Splitter.ParagraphSeparator | functions/chroma_setup.py:120 | A separator match runs from a newline to a later newline over whitespace only. |
| Splitter.ParagraphsIdle | functions/chroma_setup.py:120 | A sentence without a newline is one paragraph. |
| Splitter.ParagraphSplitDead | functions/chroma_setup.py:117-125 | On a text without newlines, which includes every output of the cleaner, the splitter is the sentence split followed by the keep/restore step, with no paragraph split. |
| Splitter.SentencesAreParagraphs | functions/chroma_setup.py:114-120 | When the text has no newline, every sentence is its own single paragraph. |
| Splitter.ProtectAllNoNewline | functions/chroma_setup.py:109-110 | Protecting abbreviations brings in no newline. |
| Splitter.AbbreviationsWithoutNewline | functions/chroma_setup.py:102-106 | No listed abbreviation contains a newline. |
| Splitter.ProtectFromChars | functions/chroma_setup.py:110 | Protection brings in only characters of the abbreviation and of `<DOT>`. |
| Splitter.ProtectAllWithoutDot | functions/chroma_setup.py:109-110 | A text without `.` is unchanged by the protection loop. |
| Splitter.ProtectAllFirst | functions/chroma_setup.py:109-110 | The protection loop applies the abbreviations one after the other, in list order. |
| Splitter.SplitSentences | functions/chroma_setup.py:96-127 | The splitter method returns exactly the specification's pieces. Every piece is non-empty, equal to its own `strip()`, and free of `<DOT>`. |
| Splitter.ProtectAbbreviations | functions/chroma_setup.py:109-110 | The loop rewrites the text with every abbreviation in list order. |
| Splitter.KeepParts | functions/chroma_setup.py:121-125 | The inner loop keeps, restored and stripped, exactly the parts whose `strip()` is not empty, in order. |
| Splitter.RestoreWellFormed | functions/chroma_setup.py:122-125 | A part that is not blank is restored into a non-empty, trimmed piece with no `<DOT>`. |
| Splitter.RestoreNoMarker | functions/chroma_setup.py:124 | No `<DOT>` is left after the restore. |
| Splitter.KeepWellFormed | functions/chroma_setup.py:121-125 | Every kept part is well formed. |
| Splitter.AssembleWellFormed | functions/chroma_setup.py:117-125 | Every piece of the assembled result is well formed. |
| Splitter.SplitSpecWellFormed | functions/chroma_setup.py:96-127 | Every piece the splitter returns is non-empty, trimmed and free of `<DOT>`. |
| Splitter.AssembleWithoutParagraphs | functions/chroma_setup.py:117-125 | When no sentence splits into paragraphs, assembly is the keep step over the sentences. |
| SplitExample.ThreeSentences | functions/chroma_setup.py:101-125 | `"Dr. Reyes works at sea. Mr. Cruz is an OFW in Dubai. Pamilya niya ay masaya."` splits into exactly its three sentences, with the dots after `Dr` and `Mr` kept. |
| SplitExample.ProtectInput | functions/chroma_setup.py:109-110 | Protection rewrites exactly `Dr.` and `Mr.` in that text. |
| SplitExample.ProtectedSentences | functions/chroma_setup.py:114 | The protected text splits into three sentences. |
| SplitExample.ProtectedBoundaries | functions/chroma_setup.py:114 | The protected text splits at exactly two points: after `sea.` and after `Dubai.`. No other position is a boundary. |
| SplitExample.ProtectedSpelling | functions/chroma_setup.py:109-125 | `"MR. X"` comes back as `"Mr. X"`: the case-insensitive match is replaced by the list's spelling. |
| SplitExample.ProtectUpperMr | functions/chroma_setup.py:110 | The case-insensitive `Mr` pattern rewrites `MR.` to `Mr<DOT>`. |
| SplitExample.WildcardSwallowsWord | functions/chroma_setup.py:104-125 | `"mad. She"` has a sentence boundary after `mad.`, yet it comes back as the single piece `"M.D. She"`: the unescaped dot of `M.D` matches the `a`, so the word is rewritten and the boundary is lost. |
| SplitExample.ProtectMad | functions/chroma_setup.py:110 | The case-insensitive `M.D` pattern, with its dot as a wildcard, rewrites `mad.` to `M.D<DOT>`. |
| SplitExample.ProtectAllMad | functions/chroma_setup.py:109-110 | Over the whole list, only `M.D` changes `"mad. She"`. |
| SplitExample.RestoreUpperMr | functions/chroma_setup.py:124-125 | Restoring `Mr<DOT> X` gives `Mr. X`. |
| Chunker.DefaultConfig | functions/chroma_setup.py:32-33 | The chunk budget is 400 tokens and the overlap budget 50. |
| Chunker.SmartChunkText | functions/chroma_setup.py:129-193 | The chunker method returns exactly the specification's chunks (clean, split, pack, join, filter), and none of them is empty. |
| Chunker.PackSentences | functions/chroma_setup.py:142-184 | The packing loop emits the joined buffers of the specification scan, the last open buffer included when it is not empty. |
| Chunker.CarryOverlap | functions/chroma_setup.py:160-171 | The overlap loop returns the seed, in original order, and its running total is the seed's token sum, which is at most the overlap budget. |
| Chunker.SeedLongestFitting | functions/chroma_setup.py:160-171 | The seed is a suffix of the finalised buffer whose sum is within the overlap budget, and every longer suffix exceeds the budget. |
| Chunker.SeedWithinSuffix | functions/chroma_setup.py:165-169 | The reversed walk collects a suffix of the buffer whose sum is within the budget. |
| Chunker.SeedWithinStops | functions/chroma_setup.py:167-171 | The walk stops only at a sentence that would overflow the budget. |
| Chunker.ScanTokens | functions/chroma_setup.py:144-179 | The running total always equals the token sum of the open buffer. |
| Chunker.ScanBounded | functions/chroma_setup.py:146-179 | Throughout the scan every buffer is bounded: its seed is within the overlap budget, each sentence within the chunk budget, and the whole within 400 + 50. Every finalised buffer holds a new sentence. |
| Chunker.StepInvariant | functions/chroma_setup.py:147-179 | One sentence of the scan preserves that invariant. |
| Chunker.AddBounded | functions/chroma_setup.py:176-179 | Appending a sentence that fits keeps the buffer bounded. |
| Chunker.SeedBounded | functions/chroma_setup.py:173-175 | A seed followed by one fitting sentence is bounded. |
| Chunker.BuffersBounded | functions/chroma_setup.py:146-184 | Every emitted buffer is bounded by 400 + 50 and holds at least one sentence of its own. |
| Chunker.BufferExceedsMax | functions/chroma_setup.py:155-175 | For sentences of 50 and 400 tokens the second buffer holds both and sums to 450 tokens, more than 400. |
| Chunker.ScanCoverage | functions/chroma_setup.py:146-179 | Across the scan, the non-seed sentences of the buffers, in order, are exactly the sentences that fit on their own. |
| Chunker.BuffersCoverFitting | functions/chroma_setup.py:146-184 | The non-seed sentences of all emitted buffers, in order, are exactly the input sentences whose count is at most 400. |
| Chunker.OversizedDropped | functions/chroma_setup.py:150-152 | A sentence over the chunk budget appears in no buffer. |
| Chunker.NoFittingNoBuffers | functions/chroma_setup.py:139-184 | There are no buffers if and only if no sentence fits. |
| Chunker.NothingFits | functions/chroma_setup.py:150-152 | When every sentence is oversized, none fits. |
| Chunker.OnlyOversizedNoChunks | functions/chroma_setup.py:139-187 | No sentences, or only oversized ones, give no chunks. |
| Chunker.ScanSeeds | functions/chroma_setup.py:155-175 | The first buffer has no seed, and each later buffer starts with the seed of the buffer before it. |
| Chunker.BuffersSeedChain | functions/chroma_setup.py:155-184 | The emitted buffers form that seed chain. |
| Chunker.ScanDrawn | functions/chroma_setup.py:146-179 | Every sentence in a buffer is an input sentence. |
| Chunker.DrawnStep | functions/chroma_setup.py:155-179 | One step puts into the buffers only the incoming sentence. |
| Chunker.JoinEndsWithLast | functions/chroma_setup.py:157-184 | `' '.join` of a buffer ends with its last sentence. |
| Chunker.JoinNotBlank | functions/chroma_setup.py:157-184 | A buffer whose last sentence starts with a non-space joins to a chunk that is not blank. |
| Chunker.NonBlankKept | functions/chroma_setup.py:187 | The filter keeps only chunks that are neither blank nor empty. |
| Chunker.NonBlankIdle | functions/chroma_setup.py:187 | The filter removes nothing from a list of chunks that are not blank. |
| Chunker.FilterRemovesNothing | functions/chroma_setup.py:182-187 | On sentences that are non-empty and start with a non-space, the filter at line 187 removes nothing. |
| Chunker.PipelineFilterIdle | functions/chroma_setup.py:136-187 | On the pipeline's own input the filter removes nothing and the paragraph split does not fire. |
| Chunker.JoinAll | functions/chroma_setup.py:157-184 | One chunk per buffer, and chunk `k` is the joined buffer `k`. |
| Chunker.ChunkRecords | functions/chroma_setup.py:220-227 | One metadata record per chunk. |
| Chunker.ChunkRecordsAt | functions/chroma_setup.py:220-227 | Record `i` has the file name as source, `chunk_id = i` (0-based), the chunk's token count and its length as `char_length`. |
| Chunker.ChunkRecordsAligned | functions/chroma_setup.py:220-227 | Each record's token count and length match its chunk. |
| Chunker.RecordsMatchDocuments | functions/chroma_setup.py:209-227 | Over all files, documents and metadatas have equal length and record `k` describes document `k`. |
| Chunker.BuildRecords | functions/chroma_setup.py:209-227 | The file loop returns exactly the concatenated chunks of every file and their records. |
| Chunker.AppendRecords | functions/chroma_setup.py:220-227 | The inner loop appends the file's chunks and their records. |
| Suggestions.StripLeftAppend | functions/suggestion_extractor.py:21 | `lstrip` is not disturbed by text after the first character that is not whitespace. |
| Suggestions.FenceRoundTrip | functions/suggestion_extractor.py:20-23 | A body wrapped in the opening ```` ```json ```` fence and the closing ```` ``` ```` fence comes back stripped. |
| Suggestions.FencesAbsent | functions/suggestion_extractor.py:20-23 | A response with neither fence is left unchanged. |
| Suggestions.StripFencedBody | functions/suggestion_extractor.py:21-23 | Stripping a body followed by the closing fence only strips the body's front. |
| Suggestions.StripAfterStripLeft | functions/suggestion_extractor.py:21-23 | Stripping after `lstrip` is the same as stripping. |
| Suggestions.RemoveFences | functions/suggestion_extractor.py:20-23 | The fence-removal code computes the specification's fence stripping. |
| Suggestions.PutLookup | functions/suggestion_extractor.py:38-41 | Setting a key of a JSON object changes that key's value and no other. |
| Suggestions.StampLookup | functions/suggestion_extractor.py:38-41 | A stamped object has the timestamp, `"Combined Data Sources"` and `"mixed"` under its three metadata keys; every other key is unchanged. |
| Suggestions.StampShape | functions/suggestion_extractor.py:36-41 | A stamped suggestion object carries all the metadata and keeps its other fields. |
| Suggestions.KeptIsStampedFilter | functions/suggestion_extractor.py:32-45 | The kept list is no longer than the input. Each kept element is the stamp of an input dict with a `suggestion` key, and every such input dict is kept. |
| Suggestions.StampSuggestions | functions/suggestion_extractor.py:32-45 | The stamping loop computes exactly that filtered, stamped list. |
| Suggestions.DedupDistinct | functions/suggestion_extractor.py:48-58 | The deduplicated list has no empty key and no two elements with the same `lower().strip()` key. |
| Suggestions.DedupComplete | functions/suggestion_extractor.py:48-58 | Every non-empty key of the input is represented in the output. |
| Suggestions.DedupFirstOccurrences | functions/suggestion_extractor.py:48-58 | The output is a subsequence of the input in original order, and each element is the first input element with its key. |
| Suggestions.DedupShorter | functions/suggestion_extractor.py:48-58 | Deduplication never lengthens the list. |
| Suggestions.DedupSubset | functions/suggestion_extractor.py:48-58 | Every output element comes from the input. |
| Suggestions.KeysOfAt | functions/suggestion_extractor.py:53-54 | Every element's key is in the set of seen keys. |
| Suggestions.Deduplicate | functions/suggestion_extractor.py:48-60 | The dedup loop returns the first occurrences. It fails, as `.lower()` raises, when some suggestion value is not a string. |
| Suggestions.DedupStep | functions/suggestion_extractor.py:51-57 | One iteration appends the element exactly when its key is non-empty and unseen. |
| Suggestions.ProcessLlmResponse | functions/suggestion_extractor.py:14-60 | The method computes the specification's result: strip the fences, decode, filter and stamp, deduplicate. |
| Suggestions.DecodeFailureGivesNothing | functions/suggestion_extractor.py:25-30 | A decode failure returns the empty list. |
| Suggestions.ProcessOutput | functions/suggestion_extractor.py:14-60 | Every successful result has distinct non-empty keys and is fully stamped with the one timestamp. It is empty on a decode failure, otherwise no longer than the decoded elements. |
| Viewer.AfterLast | functions/chroma_show.py:75-77 | `split(c)[-1]` is the suffix after the last `c`, and the whole text when there is no `c`. |
| Viewer.FileNameShape | functions/chroma_show.py:71-79 | The file name is a suffix of the source with no `/`. It has no `\` when the source has no `/`, and it is the whole source when there is neither separator. |
| Viewer.FileNameOfPath | functions/chroma_show.py:74-75 | The file name of `dir/name` is `name`. |
| Viewer.MissingSource | functions/chroma_show.py:71-84 | A metadata without a source gives `("Unknown", "TXT", "Unknown")`. |
| Viewer.FileTypeCases | functions/chroma_show.py:82 | The type is the upper-cased extension, `""` for a name ending in `.`, and `"TXT"` without a `.`. |
| Viewer.TruncateFits | functions/chroma_show.py:125-138 | A text over the width becomes its head plus `...`, exactly as long as the width; a shorter one is unchanged. |
| Viewer.TruncateIdempotent | functions/chroma_show.py:125-138 | Truncating twice is truncating once. |
| Viewer.ReplaceOneChar | functions/chroma_show.py:135 | Replacing one character by another maps the text position by position and keeps its length. |
| Viewer.PreviewShape | functions/chroma_show.py:134-135 | The preview has the length of the truncated document, at most 40, and no `\n` or `\r`. |
| Viewer.GetSet | functions/chroma_show.py:108-111 | Setting a key of a counter changes that key's count and no other. |
| Viewer.TotalSet | functions/chroma_show.py:108-111 | Setting a key changes the total by the difference in its count. |
| Viewer.TallyCounts | functions/chroma_show.py:107-111 | In the counter, a key's count is its number of occurrences; the `get` default is returned only for keys that never occur. |
| Viewer.TallyTotal | functions/chroma_show.py:107-111 | The counts sum to the number of metadatas. |
| Viewer.TallyStepAt | functions/chroma_show.py:108-111 | One iteration adds one to the current key's count. |
| Viewer.SourcesOf | functions/chroma_show.py:109-110 | Position `i` holds the source of metadata `i`. |
| Viewer.FileNamesOf | functions/chroma_show.py:205-206 | Position `i` holds the file name of metadata `i`. |
| Viewer.FileTypesOf | functions/chroma_show.py:205-206 | Position `i` holds the file type of metadata `i`. |
| Viewer.CountChunksPerSource | functions/chroma_show.py:107-111 | The counting loop computes the per-source tally. |
| Viewer.FilesBreakdown | functions/chroma_show.py:202-210 | The two counting loops compute the per-file-name and per-type tallies. |
| Viewer.DisplayCount | functions/chroma_show.py:114 | `min(limit, n)` for a non-negative limit; a negative limit gives no rows. |
| Viewer.RowsUpTo | functions/chroma_show.py:116-147 | Exactly the requested number of rows. |
| Viewer.RowsUpToAt | functions/chroma_show.py:116-147 | Row `k` is built from item `k`. |
| Viewer.SummaryTable | functions/chroma_show.py:107-147 | The summary method produces exactly the specification's rows. |
| Viewer.BuildRow | functions/chroma_show.py:117-147 | One row holds the number, truncated ID, truncated file name, type, chunk numbers and preview. |
| Viewer.SummaryRowsShape | functions/chroma_show.py:107-147 | There are `min(limit, n)` rows, numbered from 1. IDs fit 25, file names 32 and previews 40 characters; previews have no newline or carriage return. Each row's chunk total is the number of chunks of its source, at least 1. |
| Viewer.OccursCounted | functions/chroma_show.py:109-130 | The item being shown counts towards its own source, so the `get` default of 1 is never used. |

## Left out

- **The tiktoken encoding.** The tokenizer is a parameter: `Loaded(encode)` stands for an encoder that loaded, and `Unavailable` for the fallback.
- **Chroma, embeddings and UUIDs.** The Chroma client, the collection calls, the embedding functions and the UUID ids of `populate_vector_database` are storage and randomness outside the model.
- **Files without chunks.** Skipping a file with no chunks is modelled only through its empty contribution.
- **Logging and averages.** All printing, the progress and warning messages, and the average-token statistics are left out. They are console output and floating point.
- **Regular expressions** are hand-written scanners:
  - `\s` and `str.strip` use Python's whitespace set;
  - `\d`, `\b` (word characters) and `re.IGNORECASE` are ASCII only, so non-ASCII digits, letters and case folding are not modelled;
  - `[A-Z]` is ASCII, as in Python;
  - the inner `.` of `i.e`, `e.g`, `a.m`, `p.m`, `Ph.D` and `M.D` is a wildcard for any character but a newline, as in the source's unescaped pattern.
- **`str.lower` and `str.upper`** map ASCII letters only.
- **JSON.**
  - `json.loads` is a parameter returning a value or a failure.
  - JSON numbers are integers.
  - The current timestamp is a parameter.
  - A decoded object is a list of key-value pairs. Lookups take the first pair with the key. `json.loads` never returns an object with a repeated key, since it keeps the last value; the decoder parameter is not constrained to match, so the model also admits objects that `json.loads` never produces.
  - Iterating over a decoded object or string yields its keys or characters, which are never kept. A number, boolean or null is not iterable, which is an error.
- **In-place updates and aliasing.** The suggestion dicts are modelled as values. The in-place update of each dict (lines 38-41) becomes a new object with the same key order; aliasing between list elements is not modelled. The same holds for the viewer's counters, which are ordered association lists.
- **The viewer's try/except blocks and output.** The sorted printing of the breakdown, PrettyTable's column wrapping and the early return on an empty collection are left out; an empty collection gives no rows.
- **Chunk information.** `chunk_info` is kept as the pair of its two numbers rather than the formatted `"i/n"` string.
- **Metadata values.** A `chunk_id` metadata value that is not an integer is not modelled.
- **Loop bodies.** The inline loops of `_smart_chunk_text`, `_improved_sentence_split`, `populate_vector_database` and `_process_llm_response` are written as small methods called from the outer loop. They have the same order of updates.

# CodeBridge AI core, modelled in Dafny

CodeBridge AI is a retrieval-augmented helper for Swift and Xcode work. It has five parts:

- scrapers save documentation pages and Swift Forum threads as `.txt` files;
- the embedding engine cuts every file into paragraph chunks and stores them with ids and metadata;
- a query retrieves the nearest chunks;
- the LLM engine classifies the question and picks a system prompt;
- it then builds the request for LM Studio or Ollama from the retrieved chunks.

The Xcode helper parses a compiler diagnostic, reads the code around the reported line, and chooses between a dedicated Xcode-error request and a retrieval-backed one.

The model has one module per source file, plus three support modules.

| file | module | models |
|---|---|---|
| `wrappers.dfy` | `Wrappers` | `Option` |
| `pystr.dfy` | `PyStr` | Python `str` behaviour the code relies on: `split`, `join`, one-pass `replace`, ASCII `lower`, `str(int)`, `int(str)`, slices with negative bounds, `os.path.basename` |
| `patterns.dfy` | `Patterns` | `re.search` for patterns made of literals, `\d+` and `.*` |
| `chunking.dfy` | `Chunking` | `chunk_text` |
| `embeddings.dfy` | `Embeddings` | `process_documents` and `query` |
| `xcode_helper.dfy` | `XcodeHelper` | `clean_xcode_error`, `extract_code_context`, `process_xcode_error` |
| `llm.dfy` | `Llm` | endpoint selection, `detect_query_type`, `get_system_prompt`, and the prompt and message builders |
| `scraper.dfy` | `Scraper` | page naming and the saved file of the documentation scraper |
| `swift_scraper.dfy` | `SwiftScraper` | page naming, forum topic selection, accepted-answer search and topic text of the Swift scraper |

Code that builds values step by step is a `method`. Each is proved against a specification, and the properties are proved about that specification:

- loops, with their loop invariants: `ChunkText`; `BuildBatch`, with its inner loop `AddFileRecords`; `FormatResults`; `BuildContextText`; `SelectTopics`; `FindAcceptedAnswer`;
- straight-line builders made of `+=` steps: `BuildXcodeUserContent`; `ComposeForumText`.

All but one are proved equal to a specification function. `FormatResults` is proved against the predicate `Formats`, which fixes every field of the result.

The objects are classes:

- `EmbeddingEngine` keeps the log of what was handed to the collection;
- `LlmEngine` has fields set once by its constructor.

Four things are parameters or oracles:

- The embedding model is a function from text to vector.
- The vector store is a function from the add-call log, the query vector and the result count to the store's answer.
- The file system and HTTP are inputs: directory listings, file lines, `os.path.exists` and fetched forum posts.
- HTML-to-text cleaning is a function parameter.

Behaviour of the code worth knowing, all of it captured by the model:

- An empty document gives one empty chunk, `[""]`, because `"".split("\n\n") == [""]`.
- With a negative `chunk_size` it gives `["", ""]`.
- Records are stored with `collection.add`. `n_results` is passed to the store unchecked.
- Chunk ids can collide across files: `a.txt` and `a.txt.txt` both give `a_0`.

## Model

| member | source | states |
|---|---|---|
| PyStr.JoinSplit | src/embeddings.py:60 | `'\n\n'.join(text.split('\n\n')) == text` for every text: the paragraph split loses nothing |
| PyStr.LastSegmentSpec | src/xcode_helper.py:49 | `os.path.basename` / `split('/')[-1]`: no `/`, a suffix of the path preceded by `/` or nothing, the whole path when it has no `/` |
| PyStr.ReplaceCharMap | src/swift_scraper.py:57 | replacing one character by another maps the string character by character and keeps its length |
| PyStr.ParseIntToString | src/xcode_helper.py:82 | `int(str(i)) == i`, so a line number read back from the diagnostic is the number written |
| PyStr.ParseNatToString | src/xcode_helper.py:82 | reading back the decimal form of a natural number gives the number |
| PyStr.NatToStringInjective | src/embeddings.py:118 | distinct numbers have distinct decimal forms |
| Chunking.Paragraphs | src/embeddings.py:60 | `text.split('\n\n')` is never the empty list |
| Chunking.Step | src/embeddings.py:67-82 | one pass of the loop body: flush the buffer and seed the next one with its last paragraph (only when `overlap > 0`) when the paragraph would overflow `chunk_size`, then append the paragraph; `ChunkText` is proved to run exactly these steps |
| Chunking.Pack | src/embeddings.py:65-82 | the loop over the paragraphs as a fold of `Step`, in order; its properties are the `Pack…` lemmas below |
| Chunking.Groups | src/embeddings.py:65-86 | the closed groups, plus the final buffer when it is non-empty; `GroupsShape` states the result |
| Chunking.Chunks | src/embeddings.py:57-88 | `chunk_text`: each group joined with `'\n\n'`; its properties are the `Chunks…` lemmas below |
| Chunking.JoinGroups | src/embeddings.py:70 | one chunk per paragraph group, each the group joined with `'\n\n'` |
| Chunking.ChunkText | src/embeddings.py:57-88 | the loop with `current_chunk`/`current_size` returns exactly `Chunks`, the fold of the flush-or-append step over the paragraphs |
| Chunking.PackSnoc | src/embeddings.py:65-82 | the fold consumes paragraphs one at a time in order |
| Chunking.PackBuffer | src/embeddings.py:81 | after any paragraph the buffer is non-empty and ends with that paragraph |
| Chunking.DeduplicatedSnoc | src/embeddings.py:73-75 | dropping overlap copies proceeds group by group |
| Chunking.PackDeduplicated | src/embeddings.py:65-86 | closed groups then the buffer give back every consumed paragraph once the overlap copies are dropped |
| Chunking.StepDeduplicated | src/embeddings.py:67-82 | one loop step adds exactly its paragraph to the deduplicated groups |
| Chunking.DeduplicatedWithoutOverlap | src/embeddings.py:77-79 | with `overlap <= 0` nothing is dropped |
| Chunking.PackLinked | src/embeddings.py:73-76 | with `overlap > 0` each group after a non-empty one starts with that group's last paragraph |
| Chunking.SumLenSnoc | src/embeddings.py:82 | `current_size` grows by the paragraph's length |
| Chunking.PackWithinBudget | src/embeddings.py:68 | with no overlap a group of two or more paragraphs totals at most `chunk_size` |
| Chunking.PackGreedy | src/embeddings.py:68-70 | with no overlap a group is closed only when the next paragraph would overflow it |
| Chunking.PackLeading | src/embeddings.py:68-70 | the first closed group is empty exactly when the first paragraph alone exceeds the budget; no other group is empty |
| Chunking.PackSignOnly | src/embeddings.py:73 | only the sign of `overlap` is read |
| Chunking.GroupsShape | src/embeddings.py:85-86 | the chunks are the closed groups followed by the final, non-empty buffer |
| Chunking.ChunksNonEmpty | src/embeddings.py:85-88 | `chunk_text` never returns `[]` |
| Chunking.ChunksOfEmptyText | src/embeddings.py:60-88 | `chunk_text("")` is `[""]` for a non-negative budget |
| Chunking.ChunksOfEmptyTextNegativeBudget | src/embeddings.py:68-70 | `chunk_text("")` is `["", ""]` for a negative budget |
| Chunking.ChunksCoverParagraphs | src/embeddings.py:65-86 | every paragraph lands in a chunk, in order |
| Chunking.ChunksPartitionParagraphs | src/embeddings.py:77-79 | without overlap the groups partition the paragraphs |
| Chunking.ChunksOverlap | src/embeddings.py:73-76 | with overlap a chunk after a non-empty chunk begins with its last paragraph |
| Chunking.ChunksWithinBudget | src/embeddings.py:68 | without overlap only a single-paragraph chunk can exceed `chunk_size` (separators not counted) |
| Chunking.ChunksGreedy | src/embeddings.py:68-70 | without overlap a chunk is closed only when the next paragraph does not fit |
| Chunking.ChunksLeadingEmpty | src/embeddings.py:68-70 | the first chunk is `""` when the first paragraph is over budget; later chunks never come from an empty group |
| Chunking.ChunksSignOnly | src/embeddings.py:73 | `chunk_text(t, s, o1) == chunk_text(t, s, o2)` when `o1`, `o2` have the same sign |
| Chunking.JoinAppend | src/embeddings.py:70 | joining two non-empty lists puts one separator between their joins |
| Chunking.JoinGroupsFlatten | src/embeddings.py:70 | joining the joined groups is joining all their paragraphs |
| Chunking.FlattenNonEmpty | src/embeddings.py:81 | non-empty groups flatten to a non-empty list |
| Chunking.ChunksRoundTrip | src/embeddings.py:57-88 | without overlap and with a first paragraph that fits, joining the chunks with `'\n\n'` gives back the text |
| Embeddings.TextFiles | src/embeddings.py:95 | the listing filtered to names ending in `.txt`, in order; `TextFilesSpec` states which entries are kept, `TextFilesAppend` and `TextFilesSingle` the order |
| Embeddings.ChunkId | src/embeddings.py:118 | the id `{filename.replace('.txt', '')}_{i}`; `ChunkIdInjective` and `ChunkIdCollision` state what it distinguishes |
| Embeddings.FileChunks | src/embeddings.py:114 | a file's chunks: `chunk_text` with its defaults 500 and 50 |
| Embeddings.BatchOf | src/embeddings.py:103-121 | the three lists the nested loops fill, as `Records` of the chunked files; `BuildBatch`, `Locate` and `BatchCoversFiles` state it |
| Embeddings.TextFilesSpec | src/embeddings.py:95 | `doc_files` keeps exactly the `.txt` entries of the listing |
| Embeddings.TextFilesAppend | src/embeddings.py:95 | the filter distributes over concatenation, so the listing order is kept |
| Embeddings.TextFilesSingle | src/embeddings.py:95 | one entry is kept exactly when its name ends in `.txt` |
| Embeddings.FileBatch | src/embeddings.py:117-121 | one id, text and metadata per chunk of a file |
| Embeddings.ChunkedAll | src/embeddings.py:107-114 | each file, in order, paired with the chunks `chunk_text` makes of its content |
| Embeddings.ChunkIds | src/embeddings.py:117-119 | the `i`-th id of a file is `ChunkId(filename, i)`, one per chunk |
| Embeddings.ChunkMetadatas | src/embeddings.py:117-121 | the `i`-th metadata of a file is `{"source": filename, "chunk": i}`, one per chunk |
| Embeddings.Records | src/embeddings.py:103-121 | the three record lists stay the same length |
| Embeddings.Locate | src/embeddings.py:117-121 | record `k`'s id, text and metadata all belong to the same chunk of the same file |
| Embeddings.RecordsCoverFiles | src/embeddings.py:107-121 | a file with a chunk contributes at least one record |
| Embeddings.BatchCoversFiles | src/embeddings.py:107-121 | every file contributes at least one record, since `chunk_text` never returns `[]` |
| Embeddings.ChunkIdInjective | src/embeddings.py:118 | within one file chunk ids are distinct |
| Embeddings.ChunkIdCollision | src/embeddings.py:118 | across files ids collide: `a.txt` and `a.txt.txt` both give `a_0` |
| Embeddings.BuildBatch | src/embeddings.py:103-121 | the nested loops build exactly `BatchOf(doc_files)` |
| Embeddings.AddFileRecords | src/embeddings.py:117-121 | the inner loop appends exactly one file's records to the lists built so far |
| Embeddings.FormatResults | src/embeddings.py:159-168 | the result loop succeeds exactly when every column it indexes is long enough, and then gives one record per id with that index's text, metadata and distance (`None` without distances) |
| Embeddings.EncodeAll | src/embeddings.py:125 | one embedding per text, in order |
| Embeddings.EmbeddingEngine.constructor | src/embeddings.py:15-43 | the log of `add` calls made by this engine starts empty; whatever an earlier run persisted in the collection is part of the search oracle |
| Embeddings.EmbeddingEngine.ProcessDocuments | src/embeddings.py:90-136 | no `.txt` file: nothing is stored; otherwise exactly one `add` call with all records and their embeddings |
| Embeddings.EmbeddingEngine.Query | src/embeddings.py:138-168 | the question's embedding and `n_results` go to the store unchanged, and its answer is formatted as above |
| XcodeHelper.PathRunEnd | src/xcode_helper.py:37 | `[\w/\.\-]+` reads a maximal run of path characters |
| XcodeHelper.DigitRunEnd | src/xcode_helper.py:37 | `(\d+)` reads a maximal run of digits |
| XcodeHelper.LineEnd | src/xcode_helper.py:37 | `(.*)` stops at the first line break |
| XcodeHelper.KindAt | src/xcode_helper.py:37 | the kind group reads `error` or `warning` |
| XcodeHelper.ScanAt | src/xcode_helper.py:37-40 | a scan that succeeds finds `:` after the path and the line, `: ` after the column, `error` or `warning` then `: `, and a message ending at a line break or the end |
| XcodeHelper.ScanLine | src/xcode_helper.py:37-40 | the same, once the path has been read up to its `:` |
| XcodeHelper.ScanLineTo | src/xcode_helper.py:37-40 | the same, once the line run has been read: it must be nonempty and end at `:` |
| XcodeHelper.ScanTail | src/xcode_helper.py:37-40 | the same, once path and line have been read |
| XcodeHelper.ScanColumn | src/xcode_helper.py:37-40 | the same, once the column run has been read: it must be nonempty and end at `: ` |
| XcodeHelper.ScanKind | src/xcode_helper.py:37 | reads `error` or `warning` after the column's `: ` and the message up to the line's end |
| XcodeHelper.ScanKindFramed | src/xcode_helper.py:37 | what it reads after separators in place is framed as above |
| XcodeHelper.ScanAtRuns | src/xcode_helper.py:37 | between those separators: path characters, digits, digits, and no line break |
| XcodeHelper.ScanAtComplete | src/xcode_helper.py:37 | wherever the layout is laid out with runs of the pattern's shape, the scan finds exactly those bounds |
| XcodeHelper.LaidRunEnds | src/xcode_helper.py:37 | in such a layout the path and line runs the scan reads end at the layout's `:` |
| XcodeHelper.LaidColumnEnd | src/xcode_helper.py:37 | and the column run ends at its `: ` |
| XcodeHelper.LaidKindEnds | src/xcode_helper.py:37 | and the kind is read and the message ends where the layout says |
| XcodeHelper.ColumnRunEnd | src/xcode_helper.py:37 | a digit run followed by `: ` ends there |
| XcodeHelper.ScanAtEnds | src/xcode_helper.py:37 | the scan at a start hands its result over from the path `:` on |
| XcodeHelper.ScanLineComplete | src/xcode_helper.py:37 | the scan after the path reads the line run up to its end |
| XcodeHelper.ScanLineToComplete | src/xcode_helper.py:37 | a nonempty line run ending at `:` hands over to the rest of the scan |
| XcodeHelper.ScanTailComplete | src/xcode_helper.py:37 | once path and line are read, the scan reads the column run up to its end |
| XcodeHelper.ScanColumnComplete | src/xcode_helper.py:37 | a nonempty column run ending at `: ` hands over to reading kind and message |
| XcodeHelper.ScanKindComplete | src/xcode_helper.py:37 | the kind read and the line's end give exactly the laid-out bounds |
| XcodeHelper.KindAtComplete | src/xcode_helper.py:37 | `error: ` or `warning: ` is read as that kind |
| XcodeHelper.PathRunEndAt | src/xcode_helper.py:37 | a run of path characters that stops at `e` is the maximal run |
| XcodeHelper.DigitRunEndAt | src/xcode_helper.py:37 | a digit run that stops at `e` is the maximal run |
| XcodeHelper.LineEndAt | src/xcode_helper.py:37 | a line-break-free stretch ending at a line break or the end is the line's end |
| XcodeHelper.MatchAt | src/xcode_helper.py:37 | the pattern matched at one start: the five groups between the scanned bounds; `MatchAtSound`, `MatchAtGroups` and `MatchAtComplete` characterise it both ways |
| XcodeHelper.MatchAtComplete | src/xcode_helper.py:37 | conversely, `path:line:column: kind: message` at a position, with groups of the pattern's shape and the message running to the line end, is matched there with exactly those groups |
| XcodeHelper.CoveredParts | src/xcode_helper.py:37 | each group and separator of such a layout sits at its place |
| XcodeHelper.PartsFramed | src/xcode_helper.py:37 | those separators frame the bounds |
| XcodeHelper.PartsLaid | src/xcode_helper.py:37 | those groups lay out the runs |
| XcodeHelper.PartsGroups | src/xcode_helper.py:37 | the groups read back between the bounds are the given ones |
| XcodeHelper.KindParts | src/xcode_helper.py:37 | in `head: kind: message` each part sits at its place |
| XcodeHelper.HeadParts | src/xcode_helper.py:37 | in `path:line:column` each group and `:` sits at its place |
| XcodeHelper.PathCharsAt | src/xcode_helper.py:37 | a path of path characters placed in the text gives path characters at those positions |
| XcodeHelper.DigitsAt | src/xcode_helper.py:37 | the same for a digit string |
| XcodeHelper.NoBreakAt | src/xcode_helper.py:37 | the same for a message without a line break |
| XcodeHelper.CleanFindsLayout | src/xcode_helper.py:40-46 | a diagnostic laid out anywhere in the text is found, at that start or earlier, and the line read is a number, not `unknown` |
| XcodeHelper.MatchAtSound | src/xcode_helper.py:37-46 | a match covers `path:line:column: kind: message` at its start, with the message running to the line end |
| XcodeHelper.MatchAtGroups | src/xcode_helper.py:37-46 | the groups have the shapes the pattern demands |
| XcodeHelper.FramedCovers | src/xcode_helper.py:37 | the groups laid end to end with their separators are the matched text |
| XcodeHelper.FramedHead | src/xcode_helper.py:37 | up to the column's end the match is `path:line:column` |
| XcodeHelper.FramedTail | src/xcode_helper.py:37 | from there it is `: kind: message` |
| XcodeHelper.SearchFrom | src/xcode_helper.py:40 | `re.search` returns the leftmost match, and none starts before it |
| XcodeHelper.CleanXcodeError | src/xcode_helper.py:26-67 | `full_error` is always the input and `type` is `error` or `warning` |
| XcodeHelper.CleanUnmatched | src/xcode_helper.py:58-67 | no match: every location field is `unknown`, the type is `error`, and the message is the whole text |
| XcodeHelper.CleanMatched | src/xcode_helper.py:41-56 | on a match the fields are the groups of the leftmost match |
| XcodeHelper.CleanMatchedShape | src/xcode_helper.py:42-46 | on a match: path of path characters without `:`, line and column digit strings, a single-line message |
| XcodeHelper.CleanMatchedFile | src/xcode_helper.py:49 | `file` is the basename of `path`: no `/`, a suffix of the path, the whole path when it has no `/` |
| XcodeHelper.ExtractCodeContext | src/xcode_helper.py:69-95 | `None` exactly when the line number is not an integer or the file cannot be read |
| XcodeHelper.CodeWindow | src/xcode_helper.py:87-91 | the slice `lines[max(0, n-c-1):min(len(lines), n+c)]` with Python's slice rules; `CodeWindowSpec` states it |
| XcodeHelper.CodeWindowSpec | src/xcode_helper.py:87-91 | for `n, c >= 0`: the window is `lines[max(0,n-c-1):min(len,n+c)]`, at most `2c+1` lines, contains line `n` when it exists, and is empty past the end of the file |
| XcodeHelper.CodeWindowNegativeLine | src/xcode_helper.py:87-91 | a negative line number slices from the end: line `-1` with no context gives all but the last line |
| XcodeHelper.ProcessXcodeError | src/xcode_helper.py:97-131 | the retrieval query and the request `process_xcode_error` makes; `ProcessXcodeErrorRouting` states both |
| XcodeHelper.ProcessXcodeErrorRouting | src/xcode_helper.py:97-131 | documents are retrieved for the message with `n_results=3`; the Xcode request is used exactly when code is wanted, the path is known and exists, and non-empty code was read; otherwise the query is `"Xcode error: "` plus the text |
| Patterns.MatchAt | src/llm.py:138 | a pattern of literals, `\d+` and `.*` (never across a line break) matches a prefix of the text from a position, each repetition free to stop anywhere it can reach |
| Patterns.Search | src/llm.py:138 | `re.search`: a match starts somewhere; `SearchFromSpec` states it |
| Patterns.FoundFrom | src/llm.py:138 | `re.search` finds a match starting at any later position |
| Patterns.SearchFromWitness | src/llm.py:138 | a successful search has a match position |
| Patterns.SearchFromSpec | src/llm.py:138 | search succeeds exactly when a match starts somewhere |
| Patterns.FoundAnywhere | src/llm.py:138 | search is unanchored |
| Patterns.LiteralSearch | src/llm.py:102-104 | a literal pattern is found exactly when the text contains it |
| Llm.FirstMatch | src/llm.py:137-144 | the first pattern in list order that is found, and none before it is; `None` exactly when none is found |
| Llm.DetectQueryType | src/llm.py:90-147 | always one of the three tags (the pattern lists are the constants `ErrorPatterns` and `CodePatterns`, in the source's order, lowercased); `swift_error` iff an error pattern matches; `swift_code` iff none does and a code pattern does; `general` iff no pattern of either list matches |
| Llm.DetectIgnoresCase | src/llm.py:138 | the class of a query is the class of its lowercased form |
| Llm.ErrorMarkerAnywhere | src/llm.py:102 | `Error:` in any case anywhere gives `swift_error` |
| Llm.SwiftUIAnywhere | src/llm.py:120 | `SwiftUI` in any case anywhere gives `swift_code` unless an error pattern matches |
| Llm.GetSystemPrompt | src/llm.py:149-191 | total (the prompts are the constants `SwiftErrorPrompt`, `SwiftCodePrompt` and `GeneralPrompt`, the source's text); the error prompt iff `swift_error`, the code prompt iff `swift_code`, the general prompt for every other tag |
| Llm.ContextBlock | src/llm.py:207-208 | one numbered block: `--- Context {i+1} (Source: …) ---`, the source without `.txt`, then the chunk text |
| Llm.ContextText | src/llm.py:205-208 | the blocks of the retrieved chunks, concatenated in order; `ContextTextEmpty`, `ContextTextSnoc` and `BuildContextText` state it |
| Llm.ContextTextEmpty | src/llm.py:205-208 | no retrieved chunk gives `""` |
| Llm.ContextTextSnoc | src/llm.py:206-208 | one more chunk appends one block, numbered one after the previous |
| Llm.BuildContextText | src/llm.py:205-208 | the `+=` loop builds the in-order concatenation of the numbered blocks, each naming its source without `.txt` |
| Llm.ContextUserMessage | src/llm.py:219 | the LM Studio user message is the context header, exactly the context text, the question label and exactly the query, each at its stated slice |
| Llm.ContextPrompt | src/llm.py:242 | the Ollama prompt is the system prompt and a blank line, exactly the context text, the question label, exactly the query, and the `Answer:` cue, each at its stated slice |
| Llm.XcodeUserContent | src/llm.py:283-287 | the user content for an Xcode error; `XcodeUserContentShape` states its parts |
| Llm.XcodeUserContentShape | src/llm.py:283-287 | the Xcode user content opens with the error, ends with the fixed request, and holds the fenced code block between them exactly when the code context is truthy |
| Llm.BuildXcodeUserContent | src/llm.py:283-287 | the `+=` steps build that user content |
| Llm.LlmEngine.constructor | src/llm.py:27-36 | provider stored lowercased; the LM Studio chat endpoint iff it is `lmstudio`, the Ollama generate endpoint otherwise |
| Llm.LlmEngine.RequestFor | src/llm.py:290-317 | the request goes to the engine's endpoint and model, and is a chat request iff the provider is LM Studio |
| Llm.LlmEngine.GenerateResponseRequest | src/llm.py:204-242 | the system prompt of the query's class, with the context blocks in the user message (LM Studio) or the prompt (Ollama) |
| Llm.LlmEngine.XcodeErrorRequest | src/llm.py:271-317 | the fixed Xcode prompt with the Xcode user content |
| Scraper.PageName | src/scraper.py:43-45 | the name is never empty and never holds `/` |
| Scraper.PageNameWithoutSlash | src/scraper.py:43-45 | a URL without `/` is its own name, `index` if empty |
| Scraper.PageNameAfterSlash | src/scraper.py:43-45 | the name is the text after the last `/`, `index` for a trailing `/` |
| Scraper.PageNameIsLastSegment | src/scraper.py:43 | unless it is `index`, the name is the URL's suffix after its last `/` |
| Scraper.PageFile | src/scraper.py:48-49 | saved as the name plus `.txt`, holding exactly the extracted text |
| SwiftScraper.Sanitise | src/swift_scraper.py:57 | the three `replace` passes; `SanitiseSpec` states their effect |
| SwiftScraper.SanitiseSpec | src/swift_scraper.py:57 | each `?`, `&` and `=` becomes `_` in place and every other character is kept, so none of the three remains and nothing else is introduced |
| SwiftScraper.SanitiseClean | src/swift_scraper.py:57 | a name without those characters is unchanged |
| SwiftScraper.DocName | src/swift_scraper.py:52-57 | the page name: the last segment without `.html`, else the previous segment, sanitised; `None` for the `IndexError`; the `DocName…` lemmas state it |
| SwiftScraper.DocNameSafe | src/swift_scraper.py:52-57 | a derived name never holds `/`, `?`, `&` or `=` |
| SwiftScraper.DocNameNone | src/swift_scraper.py:52-54 | the `IndexError` case is exactly a URL without `/` that is empty once `.html` is removed |
| SwiftScraper.DocNameRemovesHtml | src/swift_scraper.py:52 | `.html` is removed in the middle of the segment, not only as a suffix |
| SwiftScraper.DocNameFallback | src/swift_scraper.py:53-54 | an empty last segment falls back to the raw previous segment, still sanitised |
| SwiftScraper.DocPageText | src/swift_scraper.py:62-63 | the page file is the `Source:` header followed by exactly the content |
| SwiftScraper.DocPageFile | src/swift_scraper.py:52-63 | a file is saved exactly when a name is derived |
| SwiftScraper.TopicBudget | src/swift_scraper.py:104-106 | the number of topics looked at: `n` when `0 < n <= len`, `len` when `n >= len`, none for `n <= 0` |
| SwiftScraper.WithIds | src/swift_scraper.py:111-113 | keeps exactly the topics with a truthy id, and no more of them than there are topics |
| SwiftScraper.WithIdsAppend | src/swift_scraper.py:111-113 | the filter of a concatenation is the concatenation of the filters: order is kept |
| SwiftScraper.WithIdsSingle | src/swift_scraper.py:111-113 | one topic is kept exactly when its id is truthy; with `WithIdsAppend` this fixes the result as an order-preserving filter |
| SwiftScraper.SelectTopics | src/swift_scraper.py:104-113 | the slice, the `i >= n` break and the falsy-id skip select exactly the truthy-id topics among the first `TopicBudget` ones |
| SwiftScraper.SelectedTopicsBound | src/swift_scraper.py:104-106 | at most `max(0, topics_per_page)` topics are fetched per page |
| SwiftScraper.FirstAccepted | src/swift_scraper.py:131-135 | the first flagged post after the question, and no flagged one before it |
| SwiftScraper.AcceptedAnswer | src/swift_scraper.py:130-135 | the text of the first flagged post after the question, found by `FirstAccepted`; `FindAcceptedAnswer` is proved to return it |
| SwiftScraper.FindAcceptedAnswer | src/swift_scraper.py:130-135 | the loop with `break` returns that post's text, or `None` |
| SwiftScraper.QuestionIsNotAnswer | src/swift_scraper.py:131 | the question post is never the answer, even when flagged |
| SwiftScraper.FirstFlaggedWins | src/swift_scraper.py:132-134 | the search stops at the first flagged post even if its text is empty |
| SwiftScraper.ComposeForumText | src/swift_scraper.py:138-140 | the `+=` composition of the topic text |
| SwiftScraper.ForumText | src/swift_scraper.py:138-140 | the saved topic text; `ForumTextShape` states its parts |
| SwiftScraper.ForumTextShape | src/swift_scraper.py:138-140 | title and question first; the accepted-solution section exactly when the answer is non-empty |
| SwiftScraper.ForumName | src/swift_scraper.py:147 | `swift_forum_{id}` (the `.txt` is added on saving); `ForumNameInjective` states it |
| SwiftScraper.ForumNameInjective | src/swift_scraper.py:147 | different topic ids are saved under different names |
| SwiftScraper.SaveTopic | src/swift_scraper.py:124-150 | no posts: nothing saved; otherwise `swift_forum_{id}.txt` with the topic URL header and the cleaned topic text |

## Left out

- Loading the embedding model and the ChromaDB client, and creating directories: of `EmbeddingEngine.__init__` only the empty log of this engine's `add` calls is modelled. These are foreign libraries and I/O. What an earlier run persisted in the collection is inside the search oracle.
- Re-adding ids that a persisted collection already holds is not modelled: the model does not say what ChromaDB's `add` does with an existing id.
- Embeddings are opaque vectors; no numeric property of them is modelled.
- The collection's search is an oracle. The model does not capture which chunks are nearest.
- Reading files, `os.listdir`, `os.path.exists`, HTTP requests, response parsing, `time.sleep`, progress bars and printing are left out. Their results are inputs.
- `check_connection` and the reply handling of `generate_response` / `generate_response_for_xcode_error` are left out: status codes, JSON fields, error strings and exceptions. The model stops at the request that would be posted.
- BeautifulSoup extraction of page and forum text is left out. The forum cleaning is a function parameter.
- The page and topic loops' network calls and file writes are left out, along with the per-URL and per-topic `try` blocks. A page name that raises `IndexError` is `None`.
- `save_swift_guide` and the embedded Swift guide texts are left out. They are data and file writes.
- `suggest_swift_implementation` is left out. It only forwards a fixed query prefix to `generate_response`, which is modelled.
- `main.py` and `run_swift_setup.py` are left out. They are the command-line loop and setup orchestration.
- Regular expressions and case folding are modelled for ASCII only, whereas Python 3 `re` on `str` and `str.lower()` are Unicode. `re.IGNORECASE` is modelled by lowering both the query and the patterns with the ASCII `PyStr.ToLower`. Unicode case folding (for example the Kelvin sign) and Unicode `\w`/`\d` are not modelled.
- Llm.LlmEngine.constructor: `provider.lower()` is modelled by the ASCII `PyStr.ToLower`, so for a provider with non-ASCII capitals the stored `provider` differs from Python's (Python lowers `É` to `é`; the model keeps `É`). The endpoint choice is still the same for every input. The provider is only ever compared with `lmstudio` (src/llm.py:33, 46, 79, 215, 290). The only non-ASCII character whose lowercase is ASCII is the Kelvin sign, which lowers to `k`, and `lmstudio` has no `k`.
- JSON values of unexpected types (a non-string title, a non-boolean `accepted_answer`) are left out. The topic id is `Option<int>`, with `None` for a missing or null id; the flag is a `bool`.
- The default arguments of `LLMEngine.__init__` (model `GLM-4-0414`, provider `lmstudio`, the two local URLs) are not modelled: the constructor takes all four values as parameters.
- `int()` is modelled on an optional sign and ASCII digits only. Surrounding whitespace and underscores, which Python also accepts, are not modelled.

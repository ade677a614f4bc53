# 3GPP RAG assistant: document processing, retrieval and indexing, modelled in Dafny

This project models the core of a retrieval-augmented question-answering
assistant for 3GPP specifications, and proves properties of it.

- **Document processors.** Four of them turn PDF, DOCX and legacy `.doc` files into overlapping text chunks:
  - `document_processor_COMPLETE.py` handles PDF;
  - `document_processor_DOCX.py` handles Word;
  - `document_processor_DOC.py` handles legacy Word through a chosen extractor;
  - `document_processor_UNIFIED.py` handles all three formats.
- **Retriever.** `DocumentRetriever.retrieve` picks chunks out of a nearest-neighbour answer. `format_context` renders them as a prompt context.
- **Vector store.** `VectorStore.add_chunks` hands chunks to the collection in batches.

The model has these modules:

- `Text`: strings, Python's `strip`, `join`, `in`, path suffixes, decimal rendering.
- `Cleaning`: the regular-expression steps out of which the four `clean_text` variants are built.
- `Chunking`: the chunking loop every processor shares.
- `Extraction`: what the loaders share (inputs that stand for a file and for what the parsing libraries make of it, page and paragraph assembly, the skip-on-failure directory loop).
- `CompleteProcessor`, `DocxProcessor`, `DocProcessor` and `UnifiedProcessor`: one module per processor.
- `Retriever` and `VectorStore`.

The character classes `\w`, `\s` and `\d` are a parameter, `CharClasses`. The facts about them that Python guarantees and that the proofs use are stated once, in `Text.WellFormed`.

Loops in the source are methods with loop invariants. Each method is proved equal to a recursive specification function. The properties are lemmas about those functions:

- the chunking loop (`Chunking.ChunkCleaned`);
- the page, paragraph and table loops of the loaders;
- the directory loops;
- the `.doc` extractor probe;
- the retrieval loop;
- the context builder;
- the record preparation and batching of `add_chunks`.

The vector store is a class whose one mutable field, `sent`, records the batches handed to the collection.

Three facts about the code are worth knowing before the table:

- **Cleaning is not idempotent.** The `clean_text` substitutions run in a fixed order (`document_processor_COMPLETE.py:132-143`): whitespace is collapsed before disallowed characters are deleted, so deleting a symbol between two spaces leaves two spaces side by side. A second pass collapses them. `CompleteProcessor.CleanTextNotIdempotent` exhibits such an input.
- **Page numbers.** The page-number substitution `^\s*\d+\s*$` (`document_processor_DOCX.py:206-208`) runs after every newline has been collapsed away. Its anchors then match only at the two ends of the whole text. So it empties a text of the shape `\s*\d+\s*` and nothing else; `"1 2"` survives. `DocxProcessor.CleanNumberLine` and `DocProcessor.CleanTextSpec` state exactly this.
- **Termination.** The guard after the cursor update is commented `# Prevent infinite loop` (`document_processor_COMPLETE.py:204-208`), but it does not prevent one (see Findings). The model's processors check their parameters when built, so that the loop ends.

## Model

| member | source | states |
|---|---|---|
| Chunking.Chunk.Metadata | src/core/document_processor_COMPLETE.py:187-193 | a chunk's metadata is the document's, with `chunk_index`, `start_char`, `end_char` and `chunk_size` set to the chunk's own values and every other key unchanged |
| Chunking.NewConfig | src/core/document_processor_COMPLETE.py:45-64 | a processor's parameters are accepted exactly when ValidConfig holds, and then unchanged |
| Chunking.LastMatchIsLastSentenceEnd | src/core/document_processor_COMPLETE.py:173-179 | `re.finditer(r'[.!?]\s+', w)` reports a match exactly when the closed-form LastSentenceEnd finds one, and its last match ends there |
| Chunking.MatchEndsLast | src/core/document_processor_COMPLETE.py:174 | the left-to-right scan misses no break: it is empty exactly when no terminator followed by whitespace occurs, and otherwise its last end is the end of the whitespace run after the last break |
| Chunking.SentenceEndShape | src/core/document_processor_COMPLETE.py:174-179 | a sentence end follows whitespace and is not followed by more; there is none exactly when no break occurs |
| Chunking.LastBreakIsLast | src/core/document_processor_COMPLETE.py:178 | the break taken is the last one: none lies after it, and none at all when nothing is found |
| Chunking.SliceEndSnapped | src/core/document_processor_COMPLETE.py:164-179 | a cut inside the text is `start + chunk_size`, or a sentence end inside the ±100 window right after whitespace |
| Chunking.CursorAdvances | src/core/document_processor_COMPLETE.py:204-208 | under ValidConfig the new cursor `end - chunk_overlap` is past the old one, so the reset to 1 never fires |
| Chunking.NextCut | src/core/document_processor_COMPLETE.py:163-182 | one iteration's cut and stripped slice equal SliceEnd and the strip of the Python slice |
| Chunking.ChunkCleaned | src/core/document_processor_COMPLETE.py:159-212 | the loop returns exactly Chunks of the cleaned text |
| Chunking.ChunksProperties | src/core/document_processor_COMPLETE.py:159-212 | chunks are numbered 0..n-1 in order, start at strictly increasing offsets inside the text, each is its slice stripped and at least `min_chunk_size` long, and carries the document's metadata |
| Chunking.ChunksOverlap | src/core/document_processor_COMPLETE.py:163-208 | the chunks overlap: each chunk's `end_char` is the snapped cut of its `start_char`, and the next chunk starts at `end_char - chunk_overlap` or later (exactly there when `min_chunk_size <= 0`, so that no slice is dropped) |
| Chunking.ChunksInherit | src/core/document_processor_COMPLETE.py:187-193 | every chunk keeps each document key other than the four chunk fields with the document's value |
| Chunking.EmittedIsSlice | src/core/document_processor_COMPLETE.py:182 | a chunk's text is a contiguous piece of the cleaned text inside its slice, without whitespace at either end |
| Chunking.ShortTextNoChunks | src/core/document_processor_COMPLETE.py:185 | a cleaned text shorter than `min_chunk_size` gives no chunk |
| Chunking.ShortTextOneChunk | src/core/document_processor_COMPLETE.py:163-208 | a non-empty text no longer than `chunk_size - chunk_overlap` (so that the cursor's first move already passes its end) gives one chunk, its stripped whole with `end_char == chunk_size`, when that is at least `min_chunk_size` long, and none otherwise |
| Chunking.AsWrittenNext | src/core/document_processor_COMPLETE.py:204-208 | the cursor update as written: `max(end - chunk_overlap, 1)` |
| Chunking.StuckCursor | src/core/document_processor_COMPLETE.py:204-208 | with `chunk_size <= 100` and `chunk_overlap >= 2` the text "x. " followed by letters keeps the cursor at 1 forever |
| Chunking.StuckFrom | src/core/document_processor_COMPLETE.py:166-179 | on such a text the cut at cursor 0 or 1 snaps back to 3 |
| Text.StripSpec | src/core/document_processor_COMPLETE.py:182 | `strip()` keeps only input characters, is empty exactly for blank input, leaves no whitespace at the ends and is idempotent |
| Text.StripIsSlice | src/core/document_processor_COMPLETE.py:182 | `strip()` is the slice between its bounds, with only whitespace cut off at either side |
| Text.LastIndexOf | src/core/document_processor_DOCX.py:181 | the index found holds the character and no later one does; None exactly when the character is absent |
| Text.Suffix | src/core/document_processor_DOCX.py:181 | a path suffix is the tail of the name from its last dot, present exactly when that dot is neither the first nor the last character; so it is empty or a dot followed by at least one character and no further dot |
| Text.NatToStringInjective | src/core/vector_store.py:68 | different numbers render differently |
| Cleaning.CollapseSpaces | src/core/document_processor_COMPLETE.py:132 | the collapse is empty exactly for empty input and starts with a space exactly when the input starts with whitespace |
| Cleaning.CollapseSpec | src/core/document_processor_COMPLETE.py:132 | after `re.sub(r'\s+', ' ', s)` the non-whitespace characters are unchanged in order, `' '` is the only whitespace, and no two spaces are adjacent |
| Cleaning.CollapseKeeps | src/core/document_processor_COMPLETE.py:132 | a string already in collapsed form is its own collapse |
| Cleaning.KeepAllowed | src/core/document_processor_COMPLETE.py:141 | the allow-list substitution keeps exactly the allowed characters of the input |
| Cleaning.KeepAllowedKeepsAllowed | src/core/document_processor_COMPLETE.py:141 | a string of allowed characters is left unchanged |
| Cleaning.NonSpaceKeepAllowed | src/core/document_processor_COMPLETE.py:141 | deleting disallowed characters commutes with dropping whitespace |
| Cleaning.DropDigitLine | src/core/document_processor_DOCX.py:208 | on text without a newline the `MULTILINE` lone-number pattern empties a `\s*\d+\s*` text and leaves any other unchanged |
| Cleaning.CollapseDigitLine | src/core/document_processor_DOCX.py:201-208 | collapsing whitespace keeps a lone number a lone number |
| Cleaning.RewriteFrom | src/core/document_processor_DOCX.py:214 | the separator rewrite changes only whitespace and bars, keeps the other characters in order, and leaves no two bars adjacent |
| Cleaning.DropControl | src/core/document_processor_DOC.py:377 | the control filter keeps exactly the characters with `ord >= 32`, newline and tab |
| Cleaning.DropControlKeeps | src/core/document_processor_DOC.py:377 | a string with no control character is left unchanged |
| Cleaning.CollapsedAllowed | src/core/document_processor_COMPLETE.py:132-141 | collapse then allow-list leaves only word characters, allowed punctuation and single spaces, and deletes from the non-whitespace characters exactly the disallowed ones |
| Extraction.ProbedDocMethodsSpec | src/core/document_processor_UNIFIED.py:88-112 | each `.doc` extractor is listed exactly when its probe succeeds, never LibreOffice, at most once, in the order antiword, textract, win32com |
| Extraction.PagePartsSpec | src/core/document_processor_COMPLETE.py:100-106 | every part is the marker of a page with text, numbered by its position from 1, and every such page contributes its marker |
| Extraction.PageMarkersDistinct | src/core/document_processor_COMPLETE.py:106 | markers of different pages differ |
| Extraction.AssemblePages | src/core/document_processor_COMPLETE.py:100-111 | the page loop returns the newline-joined markers; without skipping, a page whose extraction raises fails the load |
| Extraction.ParagraphPartSpec | src/core/document_processor_DOCX.py:97-104 | a paragraph contributes exactly when not blank; a heading is set off as `\n## text\n` |
| Extraction.RowPartSpec | src/core/document_processor_DOCX.py:107-111 | a row is dropped exactly when it has no cell or one blank cell |
| Extraction.AssembleDocx | src/core/document_processor_DOCX.py:97-113 | the DOCX text is the paragraph parts then the row parts, joined with newlines |
| Extraction.CollectParagraphs | src/core/document_processor_DOCX.py:97-104 | the paragraph loop collects exactly the paragraph parts |
| Extraction.CollectTables | src/core/document_processor_DOCX.py:107-111 | the table loop collects exactly the row parts of all tables in order |
| Extraction.CollectRows | src/core/document_processor_DOCX.py:108-111 | the row loop of one table collects exactly its row parts |
| Extraction.DocOnly | src/core/document_processor_DOC.py:487 | exactly the globbed files whose lower-cased suffix is `.doc` are kept (the same filter as `document_processor_UNIFIED.py:355`) |
| Extraction.Outcomes | src/core/document_processor_COMPLETE.py:256-264 | the outcome of each file is the per-file step applied to it, in file order |
| Extraction.OutcomesAppend | src/core/document_processor_DOCX.py:321-337 | the outcomes of two file lists are concatenated |
| Extraction.CollectedStep | src/core/document_processor_COMPLETE.py:256-264 | one more file adds its chunks on success and nothing on failure |
| Extraction.CollectedAppend | src/core/document_processor_DOCX.py:321-337 | collecting over two file lists concatenates the two collections |
| Extraction.CollectedAround | src/core/document_processor_COMPLETE.py:256-264 | a failing file adds nothing; a succeeding one adds its chunks at its place |
| Extraction.CollectedAllFail | src/core/document_processor_COMPLETE.py:256-264 | when every file fails nothing is collected |
| CompleteProcessor.New | src/core/document_processor_COMPLETE.py:45-64 | ImportError without pypdf; otherwise accepted exactly for valid parameters, which are kept |
| CompleteProcessor.CleanTextSpec | src/core/document_processor_COMPLETE.py:121-143 | the cleaned text is in clean form (word characters, allowed punctuation and spaces, with `' '` the only whitespace, no newline, no whitespace at the ends) and keeps in order every non-whitespace input character the allow-list keeps |
| CompleteProcessor.CleanTextNotIdempotent | src/core/document_processor_COMPLETE.py:121-143 | cleaning `"a © b"` twice differs from cleaning it once |
| CompleteProcessor.ChunkText | src/core/document_processor_COMPLETE.py:145-212 | `chunk_text` is the chunking of the cleaned text |
| CompleteProcessor.LoadedPdfSpec | src/core/document_processor_COMPLETE.py:66-119 | FileNotFoundError for a missing file, the reader's error for an unreadable one; on success `source`, `file_path` and `num_pages` name the file and count all pages, `title` is present exactly when the PDF has information, and the text is the joined page markers |
| CompleteProcessor.LoadPdf | src/core/document_processor_COMPLETE.py:66-119 | `load_pdf` returns LoadedPdf |
| CompleteProcessor.ProcessOne | src/core/document_processor_COMPLETE.py:214-230 | `process_pdf` is load then chunk |
| CompleteProcessor.ProcessPdfSource | src/core/document_processor_COMPLETE.py:214-230 | processing fails exactly when the file is missing or unreadable, and every chunk names the file as its source |
| CompleteProcessor.ProcessDirectory | src/core/document_processor_COMPLETE.py:232-268 | FileNotFoundError for a missing directory; otherwise the chunks of the PDFs that process without raising, in file order |
| DocxProcessor.New | src/core/document_processor_DOCX.py:45-64 | ImportError without python-docx; otherwise accepted exactly for valid parameters |
| DocxProcessor.CleanNumberLine | src/core/document_processor_DOCX.py:190-216 | a text of the shape `\s*\d+\s*` cleans to nothing |
| DocxProcessor.CleanTextSpec | src/core/document_processor_DOCX.py:190-216 | the cleaned text is in clean form, has no two adjacent bars, and otherwise keeps in order every character that is neither whitespace nor a bar and that the allow-list keeps |
| DocxProcessor.ChunkText | src/core/document_processor_DOCX.py:218-285 | `chunk_text` is the chunking of the cleaned text |
| DocxProcessor.LoadedDocx | src/core/document_processor_DOCX.py:66-125 | FileNotFoundError for a missing file; on success the file opened and the metadata is DocxMetadata |
| DocxProcessor.DocxMetadata | src/core/document_processor_DOCX.py:86-117 | the metadata names the file in `source` and `file_path`, and `num_paragraphs` and `num_tables` count every paragraph and table, blank ones included |
| DocxProcessor.LoadDocx | src/core/document_processor_DOCX.py:66-125 | `load_docx` returns LoadedDocx |
| DocxProcessor.LoadDoc | src/core/document_processor_DOCX.py:127-169 | `load_doc` succeeds exactly when the file exists and antiword reads it, with antiword's text; it fails with RuntimeError otherwise |
| DocxProcessor.LoadDocumentSpec | src/core/document_processor_DOCX.py:171-188 | ValueError for any suffix but `.doc`/`.docx` (any case), FileNotFoundError for a missing `.docx`, RuntimeError for a missing `.doc`; a loaded document names its file |
| DocxProcessor.ProcessDocumentSource | src/core/document_processor_DOCX.py:287-303 | processing fails exactly when loading does, and every chunk names the file as its source |
| DocxProcessor.ProcessDirectory | src/core/document_processor_DOCX.py:305-341 | FileNotFoundError for a missing directory; otherwise the chunks of the `*.doc` then `*.docx` files that process without raising |
| DocxProcessor.DirectoryOrder | src/core/document_processor_DOCX.py:321-337 | the directory's chunks are those of its `.doc` files followed by those of its `.docx` files |
| DocProcessor.AvailableMethodsSpec | src/core/document_processor_DOC.py:70-106 | each extractor is listed exactly when its probe succeeds (LibreOffice when any of its binaries runs), at most once, in probing order |
| DocProcessor.DetectAvailableMethods | src/core/document_processor_DOC.py:70-106 | the probing loop returns AvailableMethods |
| DocProcessor.New | src/core/document_processor_DOC.py:45-67 | accepted exactly for valid parameters; the processor keeps the requested method, the platform and the detected extractors |
| DocProcessor.Named | src/core/document_processor_DOC.py:305-319 | a method name names the extractor whose name it is, or none |
| DocProcessor.SelectMethodSpec | src/core/document_processor_DOC.py:290-307 | the choice is available; in auto mode it fails exactly when nothing is available, prefers win32com on Windows and otherwise the first of antiword, textract, libreoffice; an explicit request is honoured exactly when available |
| DocProcessor.DocMetadata | src/core/document_processor_DOC.py:108-270 | an extractor's metadata names the file, the format `doc (legacy)` and the extractor |
| DocProcessor.LoadDocSpec | src/core/document_processor_DOC.py:272-319 | FileNotFoundError, then ValueError for a suffix other than `.doc`, then RuntimeError when no extractor is chosen; otherwise success exactly when the chosen extractor reads the file, with its text and metadata, and no second attempt |
| DocProcessor.ControlFilterKeeps | src/core/document_processor_DOC.py:374-377 | the control filter never finds anything to drop after the allow-list |
| DocProcessor.CleanTextSpec | src/core/document_processor_DOC.py:353-379 | the cleaned text is in clean form with no control character, keeps the allowed non-whitespace characters in order unless it is a lone number, and a lone number cleans to nothing |
| DocProcessor.ChunkText | src/core/document_processor_DOC.py:381-448 | `chunk_text` is the chunking of the cleaned text |
| DocProcessor.ProcessDocumentSource | src/core/document_processor_DOC.py:450-466 | processing fails exactly when loading does, and every chunk names the file and the extractor |
| DocProcessor.ProcessDirectory | src/core/document_processor_DOC.py:468-513 | FileNotFoundError for a missing directory; otherwise the chunks of the `.doc` files that process without raising, and the names of those that raise |
| DocProcessor.FailedNamesSpec | src/core/document_processor_DOC.py:496-505 | the recorded names are exactly those of the files that failed, no more of them than files |
| UnifiedProcessor.DetectProcessors | src/core/document_processor_UNIFIED.py:68-117 | the PDF and DOCX flags are the import probes; the `.doc` flag is set exactly when some `.doc` extractor was found |
| UnifiedProcessor.DocFlagSpec | src/core/document_processor_UNIFIED.py:88-115 | `.doc` support is there exactly when antiword, textract or (on Windows) win32com is |
| UnifiedProcessor.New | src/core/document_processor_UNIFIED.py:46-65 | accepted exactly for valid parameters (ValueError otherwise), keeping them, and storing the whole detection result: `pdf` iff pypdf imports, `docx` iff python-docx imports, the probed `.doc` extractors, and `doc` iff there is one |
| UnifiedProcessor.LoadPdf | src/core/document_processor_UNIFIED.py:119-148 | an unreadable PDF or any failing page fails the load; otherwise the joined page markers and the PDF metadata |
| UnifiedProcessor.LoadDocx | src/core/document_processor_UNIFIED.py:150-185 | an unreadable file fails; otherwise paragraphs then rows joined with newlines, and the DOCX metadata |
| UnifiedProcessor.DocChoiceSpec | src/core/document_processor_UNIFIED.py:191-227 | the extractor used is detected, precedes every other detected one but LibreOffice, and is missing only when none of antiword, textract, win32com is |
| UnifiedProcessor.LoadDoc | src/core/document_processor_UNIFIED.py:187-238 | RuntimeError when DocChoice finds no extractor; otherwise one attempt with the chosen one: success exactly when it reads the file, with its text and the `.doc` metadata naming it, and its own exception (passed on unchanged) when it fails |
| UnifiedProcessor.LoadDocSpec | src/core/document_processor_UNIFIED.py:191-227 | RuntimeError exactly when none of antiword, textract, win32com was detected; a success returns the text of a detected extractor that precedes every other detected one but LibreOffice; when antiword was detected, success exactly when antiword reads the file |
| UnifiedProcessor.LoadDocumentErrors | src/core/document_processor_UNIFIED.py:240-279 | FileNotFoundError for a missing file whatever its suffix, ValueError for an unsupported suffix, RuntimeError for a format whose support is missing |
| UnifiedProcessor.LoadDocumentSpec | src/core/document_processor_UNIFIED.py:240-279 | a loaded document has a supported, available format and names its file and that format |
| UnifiedProcessor.LoadDocumentOf | src/core/document_processor_UNIFIED.py:240-279 | `load_document` returns LoadDocument |
| UnifiedProcessor.CleanTextSpec | src/core/document_processor_UNIFIED.py:281-287 | the cleaned text is in clean form and keeps in order the allowed non-whitespace characters |
| UnifiedProcessor.ChunkText | src/core/document_processor_UNIFIED.py:289-333 | `chunk_text` is the chunking of the cleaned text |
| UnifiedProcessor.ProcessDocumentSource | src/core/document_processor_UNIFIED.py:335-339 | processing fails exactly when loading does, and every chunk names the file as its source |
| UnifiedProcessor.ProcessDirectory | src/core/document_processor_UNIFIED.py:341-384 | FileNotFoundError for a missing directory; otherwise the chunks of the files that process without raising, PDFs then DOCX then `.doc` |
| UnifiedProcessor.DirectoryOrder | src/core/document_processor_UNIFIED.py:352-369 | the directory's chunks are those of its PDFs, then its DOCX files, then its `.doc` files |
| Retriever.ChooseK | src/core/retriever.py:52 | an absent or zero `top_k` falls back to the default |
| Retriever.QuerySize | src/core/retriever.py:60-63 | twice `k` results are asked for when a filter is given, `k` otherwise |
| Retriever.Candidates | src/core/retriever.py:67-71 | the zipped candidates are as many as the shortest list and hold the i-th entries |
| Retriever.Render | src/core/retriever.py:76-84 | a rendered document keeps the text, has similarity `1 - distance`, and defaults source to "unknown" and index to 0 |
| Retriever.AcceptedSpec | src/core/retriever.py:66-87 | every accepted document renders a candidate that passes the filter; no more than the candidates; all of them without a filter |
| Retriever.AcceptedSources | src/core/retriever.py:73-74 | with a filter every accepted source contains it, and a candidate without a source is never accepted |
| Retriever.SimilarityAtLeast | src/core/retriever.py:77 | candidates no farther than `x` give similarity at least `1 - x` |
| Retriever.AcceptedBySimilarity | src/core/retriever.py:66-84 | nearest-first candidates give most-similar-first documents |
| Retriever.Take | src/core/retriever.py:86-87 | the first `n` elements, or all when there are fewer |
| Retriever.Retrieve | src/core/retriever.py:35-91 | `retrieve` returns Retrieval of the index's answer to QuerySize results |
| Retriever.StopEarly | src/core/retriever.py:86-87 | stopping once `k` are collected yields the first `k` accepted documents |
| Retriever.RetrievalSpec | src/core/retriever.py:35-91 | at most `k` documents (one when `k` is not positive), a prefix of the accepted ones, with filtered sources, most similar first for a nearest-first answer, none for an empty answer |
| Retriever.Blocks | src/core/retriever.py:105-109 | one block per document, numbered from 1 |
| Retriever.FormatContext | src/core/retriever.py:93-111 | the context is the blocks joined with newlines |
| Retriever.ContextSnoc | src/core/retriever.py:103-111 | no documents give the empty context; one more document adds a newline and the next numbered block |
| Retriever.BlockNumbersDistinct | src/core/retriever.py:107 | equal blocks have equal numbers |
| VectorStore.Records.Slice | src/core/vector_store.py:90-93 | a slice of parallel lists is parallel, `hi - lo` long |
| VectorStore.IdsDistinct | src/core/vector_store.py:68 | `id_i` and `id_j` are equal exactly when `i == j` |
| VectorStore.Flatten | src/core/vector_store.py:77-81 | the stored metadata has exactly the keys source, chunk_index and chunk_size, each the chunk's own value or, when absent, "unknown", the chunk's position and its text's length |
| VectorStore.Prepared | src/core/vector_store.py:59-82 | the four lists are parallel, one entry per chunk |
| VectorStore.PreparedSpec | src/core/vector_store.py:59-82 | ids are pairwise distinct, each metadata has the three keys with the chunk's values or the defaults "unknown", `i` and the text's length, and entry `i` holds chunk `i`'s embedding and text |
| VectorStore.ProcessorChunkMetadata | src/core/vector_store.py:77-81 | for a processor's chunk the stored index is the chunk's own number, the size its length, the source the document's or "unknown" |
| VectorStore.PrepareRecords | src/core/vector_store.py:59-82 | the preparation loop returns Prepared |
| VectorStore.BatchAt | src/core/vector_store.py:86-94 | a batch holds between 1 and 100 records |
| VectorStore.BatchesFromCount | src/core/vector_store.py:86 | there are `ceil((n - i) / 100)` batches from offset `i` |
| VectorStore.BatchIndex | src/core/vector_store.py:86-94 | batch `j` from offset `i` starts at record `i + 100 j`, before the end |
| VectorStore.BatchesSpec | src/core/vector_store.py:84-94 | `ceil(n / 100)` batches (none for no chunks), each 1 to 100 records, batch `j` the slice `[100 j, min(100 j + 100, n))`, and together exactly the records |
| VectorStore.BatchesJoin | src/core/vector_store.py:84-94 | the batches from offset `i`, put back together, are the records from `i` on |
| VectorStore.SliceAppend | src/core/vector_store.py:90-93 | adjacent slices append to the slice they span |
| VectorStore.VectorStore.constructor | src/core/vector_store.py:17-47 | a new store has handed nothing to its collection |
| VectorStore.VectorStore.AddChunks | src/core/vector_store.py:49-98 | the collection receives, after what it had, exactly the batches of the prepared records |
| VectorStore.VectorStore.Clear | src/core/vector_store.py:132-137 | the collection is replaced by an empty one |
| VectorStore.AddedRecords | src/core/vector_store.py:49-98 | what one call hands over, put back together, is the prepared records, ids restarting at `id_0` |

## Left out

- Parsing libraries (pypdf, python-docx, antiword, textract, win32com, LibreOffice): what each makes of a file is an input (`Extraction.FileEntry`). An exception that a loader passes on unchanged is the single error `ExtractorError`; which exception class it was is not modelled.
- DocProcessor.LoadDoc and DocxProcessor.LoadDoc: every failure of a `.doc` extractor is modelled as RuntimeError. The source wraps only some failures. Textract and win32com wrap every exception (`document_processor_DOC.py:163-164`, `210-211`). Antiword wraps only a non-zero exit (`document_processor_DOC.py:136-137`; `document_processor_DOCX.py:164-169` also wraps a missing binary). LibreOffice wraps only a failed conversion or a missing output file (`document_processor_DOC.py:253-254`, `269-270`). Exceptions left unwrapped escape unchanged, and the model does not tell them apart: a UnicodeDecodeError from antiword's `text=True` output (`document_processor_DOC.py:118-123`, `document_processor_DOCX.py:146-151`), antiword's binary vanishing after detection (`document_processor_DOC.py:118`), and an OSError from LibreOffice's temporary directory or output file (`document_processor_DOC.py:236-257`).
- LibreOffice extraction (`_extract_with_libreoffice`): the temporary directory and subprocess are not modelled; its text is an input like the other extractors'.
- Extractor metadata: the metadata the `.doc` extractors return is modelled only as far as source, format and extractor name. The win32com title, author and subject are inputs.
- File system: existence, `glob` and directory presence are inputs. The order `glob` lists files in is taken as given.
- Side effects: logging, `_print_installation_help`, `save_chunks`, `to_dict` and the `main` functions are not modelled. They compute nothing the core returns.
- UnifiedProcessor.ProcessDirectory: its `failed_files` list is only logged, so it is not returned.
- DocProcessor.ProcessDirectory: the source only logs `failed_files` and returns the chunks alone (`document_processor_DOC.py:505-513`); the model returns the failed names as an extra result, which the source does not, so that FailedNamesSpec can state which files they are.
- Embeddings: the embedding model and the query embedding are not modelled. An embedding is an opaque `seq<real>`, and the vector index is a function from the number of results asked for to its answer.
- ChromaDB: the client, `query`, `count` and `get_stats` are not modelled. The store records the batches handed to `collection.add`; how the collection stores them, including duplicate ids across calls, is not modelled.
- Retriever.Block: the `:.3f` formatting of the similarity is a `format` parameter, and similarity is a real rather than a float.
- Character tables: the Unicode tables of `\w`, `\s` and `\d` are not written out. They are a parameter, constrained only by `Text.WellFormed`.
- Metadata values: only strings and integers are modelled; the source stores nothing else in the fields read here.
- Chunking.ValidConfig: parameters outside it (including `chunk_size <= 0`, where Python's negative slice indices come into play) are refused when a processor is built. The as-written loop for them is modelled only as far as the stuck cursor.
- CompleteProcessor.CleanText: the page-header and blank-line substitutions are left out. They need a newline and run after every newline has been collapsed away, so they change nothing. The same holds for the other three `clean_text` variants.
- Text.LowerChar: the suffix is lower-cased ASCII only. This is exact for the comparisons with `.pdf`, `.docx` and `.doc`.
- UnifiedProcessor.LoadDoc: textract's UTF-8 decoding with `errors='ignore'` is part of the extractor's output, not modelled separately.
- VectorStore.VectorStore.AddChunks: the per-batch log message is not modelled.

## Findings

| source | as written | input that shows it | evidently intended | confidence | as-written member | corrected member |
|---|---|---|---|---|---|---|
| src/core/document_processor_COMPLETE.py:204-208 (and the same lines of the other three processors) | the cursor moves to `end - chunk_overlap`, reset to 1 when not positive, which is meant to guarantee termination | `chunk_size = 50`, `chunk_overlap = 2`, text `"x. "` followed by 60 letters: the cut snaps back to 3 at cursor 0 and at cursor 1, so the cursor stays at 1 and the loop never ends | the loop ends for every accepted configuration; the parameters are checked when the processor is built | not executed | Chunking.AsWrittenNext, Chunking.StuckCursor | Chunking.NewConfig, Chunking.CursorAdvances |

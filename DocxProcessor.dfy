/** The Word processor (`DocumentProcessor` of
    `document_processor_DOCX.py`): `.docx` through python-docx, legacy
    `.doc` through antiword only, its `clean_text` with the table
    separator rewrite, `chunk_text` and the directory walk over `*.doc`
    and `*.docx`. */
module DocxProcessor {
  import opened Text
  import opened Cleaning
  import opened Chunking
  import opened Extraction

  /** The punctuation the allow-list of `clean_text` keeps; `#` and `|`
      survive for headings and tables. */
  const Punct := ".,;:()[]-/#|"

  /** The constructor: python-docx must be importable. The parameters are
      checked as in the PDF processor (see StuckCursor). */
  function New(docxAvailable: bool, chunkSize: int, chunkOverlap: int, minChunkSize: int): (r: Result<Config>)
    ensures !docxAvailable ==> r == Failure(ImportError)
    ensures docxAvailable ==> (r.Success? <==> ValidConfig(Config(chunkSize, chunkOverlap, minChunkSize)))
    ensures r.Success? ==> r.value == Config(chunkSize, chunkOverlap, minChunkSize)
  {
    if !docxAvailable then Failure(ImportError)
    else match NewConfig(chunkSize, chunkOverlap, minChunkSize)
      case Some(cfg) => Success(cfg)
      case None => Failure(ValueError)
  }

  /** A collapsed string holds no newline. */
  lemma CollapsedHasNoNewline(cc: CharClasses, text: string)
    requires WellFormed(cc)
    ensures '\n' !in CollapseSpaces(cc, text)
  {
    CollapseSpec(cc, text);
  }

  /** The string `clean_text` hands to its final strip. */
  function Rewritten(cc: CharClasses, text: string): string
    requires WellFormed(cc)
  {
    var collapsed := CollapseSpaces(cc, text);
    CollapsedHasNoNewline(cc, text);
    RewriteSeparators(cc, KeepAllowed(cc, Punct, DropDigitLine(cc, collapsed)))
  }

  /** `clean_text`: collapse whitespace, empty a text that is a lone
      number (`^\s*\d+\s*$`; with no newline left the `MULTILINE` anchors
      only match at the ends), apply the allow-list, rewrite each run of
      two bars to `" | "`, strip. The blank-line and page-header
      substitutions need a newline and change nothing. */
  function CleanText(cc: CharClasses, text: string): string
    requires WellFormed(cc)
  {
    Strip(cc, Rewritten(cc, text))
  }

  /** A text that is a lone number cleans to nothing. */
  lemma CleanNumberLine(cc: CharClasses, text: string)
    requires WellFormed(cc) && DigitLine(cc, text)
    ensures CleanText(cc, text) == ""
  {
    CollapseDigitLine(cc, text);
  }

  /** Otherwise the cleaned text is in clean form, has no two bars side
      by side, and keeps, in order, every character of the input that is
      neither whitespace nor a bar and that the allow-list keeps. */
  lemma CleanTextSpec(cc: CharClasses, text: string)
    requires WellFormed(cc)
    ensures CleanForm(cc, Punct, CleanText(cc, text))
    ensures NoDouble(CleanText(cc, text), '|')
    ensures !DigitLine(cc, CollapseSpaces(cc, text)) ==>
      Content(cc, CleanText(cc, text)) == Content(cc, KeepAllowed(cc, Punct, NonSpace(cc, text)))
  {
    var collapsed := CollapseSpaces(cc, text);
    CollapsedHasNoNewline(cc, text);
    var x := KeepAllowed(cc, Punct, DropDigitLine(cc, collapsed));
    var y := RewriteSeparators(cc, x);
    var r := Strip(cc, y);
    CollapsedAllowed(cc, Punct, text);
    assert Prepared(cc, Punct, x);
    assert forall c :: c in y ==> c in x[0..] || c == ' ';
    assert x[0..] == x;
    PreparedSubset(cc, Punct, x, y);
    StripPrepared(cc, Punct, y);
    StripIsSlice(cc, y);
    var ab := StripBounds(cc, y);
    NoDoubleSlice(y, ab.0, ab.1, '|');
    if !DigitLine(cc, collapsed) {
      ContentOfNonSpace(cc, r);
      NonSpaceStrip(cc, y);
      ContentOfNonSpace(cc, y);
      ContentOfNonSpace(cc, x);
    }
  }

  /** `chunk_text`: clean, then run the chunking loop. */
  method ChunkText(cc: CharClasses, cfg: Config, text: string, metadata: Metadata) returns (chunks: seq<Chunk>)
    requires WellFormed(cc) && ValidConfig(cfg)
    ensures chunks == Chunks(cc, cfg, CleanText(cc, text), metadata)
  {
    var cleaned := CleanText(cc, text);
    chunks := ChunkCleaned(cc, cfg, cleaned, metadata);
  }

  /** `str(date)` when the property is set, `""` otherwise. */
  function DateText(d: Option<string>): string
  {
    if d.Some? then d.value else ""
  }

  /** The metadata `load_docx` returns: the paragraph and table counts
      include blank paragraphs and tables. */
  function DocxMetadata(f: FileEntry, src: DocxSource): (m: Metadata)
    ensures "source" in m && m["source"] == Str(f.name) && "file_path" in m && m["file_path"] == Str(f.path)
    ensures "num_paragraphs" in m && m["num_paragraphs"] == Int(|src.paragraphs|)
    ensures "num_tables" in m && m["num_tables"] == Int(|src.tables|)
  {
    map[
      "source" := Str(f.name), "file_path" := Str(f.path),
      "title" := Str(src.props.title), "author" := Str(src.props.author), "subject" := Str(src.props.subject),
      "created" := Str(DateText(src.props.created)), "modified" := Str(DateText(src.props.modified)),
      "num_paragraphs" := Int(|src.paragraphs|), "num_tables" := Int(|src.tables|)]
  }

  /** What `load_docx` returns: FileNotFoundError for a missing file,
      python-docx's exception when it cannot open the file, and otherwise
      the paragraph and row parts joined with newlines. */
  function LoadedDocx(cc: CharClasses, f: FileEntry): (r: Result<Loaded>)
    ensures !f.present ==> r == Failure(FileNotFoundError)
    ensures r.Success? ==> f.present && f.docx.Some? && r.value.metadata == DocxMetadata(f, f.docx.value)
  {
    if !f.present then Failure(FileNotFoundError)
    else match f.docx
      case None => Failure(ExtractorError)
      case Some(src) =>
        Success(Loaded(Join("\n", ParagraphParts(cc, src.paragraphs) + TableParts(cc, src.tables)), DocxMetadata(f, src)))
  }

  /** `load_docx`. */
  method LoadDocx(cc: CharClasses, f: FileEntry) returns (r: Result<Loaded>)
    ensures r == LoadedDocx(cc, f)
  {
    if !f.present {
      return Failure(FileNotFoundError);
    }
    if f.docx.None? {
      return Failure(ExtractorError);
    }
    var src := f.docx.value;
    var metadata := DocxMetadata(f, src);
    var text := AssembleDocx(cc, src.paragraphs, src.tables);
    r := Success(Loaded(text, metadata));
  }

  /** The metadata `load_doc` returns. */
  function DocMetadata(f: FileEntry): (m: Metadata)
    ensures "source" in m && m["source"] == Str(f.name) && "file_path" in m && m["file_path"] == Str(f.path)
  {
    map["source" := Str(f.name), "file_path" := Str(f.path),
        "format" := Str("doc (legacy)"), "conversion_method" := Str("antiword")]
  }

  /** `load_doc`: antiword's output, or RuntimeError when antiword is
      missing or fails on the file (a missing file included: this loader
      does not check for one). */
  function LoadDoc(f: FileEntry): (r: Result<Loaded>)
    ensures r.Success? <==> f.present && Antiword in f.doc
    ensures r.Failure? ==> r.error == RuntimeError
    ensures r.Success? ==> r.value.text == f.doc[Antiword] && r.value.metadata == DocMetadata(f)
  {
    if f.present && Antiword in f.doc then Success(Loaded(f.doc[Antiword], DocMetadata(f)))
    else Failure(RuntimeError)
  }

  /** `load_document`: dispatch on the lower-cased suffix. */
  function LoadDocument(cc: CharClasses, f: FileEntry): Result<Loaded>
  {
    var ext := LowerSuffix(f);
    if ext == ".docx" then LoadedDocx(cc, f)
    else if ext == ".doc" then LoadDoc(f)
    else Failure(ValueError)
  }

  /** Which loader answers: a suffix other than `.doc` and `.docx` (in any
      case) is a ValueError whether or not the file exists; a missing
      `.docx` is a FileNotFoundError, a missing `.doc` a RuntimeError; a
      loaded document names its file in `source` and `file_path`. */
  lemma LoadDocumentSpec(cc: CharClasses, f: FileEntry)
    ensures var r := LoadDocument(cc, f);
      && (LowerSuffix(f) != ".doc" && LowerSuffix(f) != ".docx" ==> r == Failure(ValueError))
      && (!f.present && LowerSuffix(f) == ".docx" ==> r == Failure(FileNotFoundError))
      && (!f.present && LowerSuffix(f) == ".doc" ==> r == Failure(RuntimeError))
      && (r.Success? ==> f.present && (LowerSuffix(f) == ".doc" || LowerSuffix(f) == ".docx"))
      && (r.Success? ==> r.value.metadata["source"] == Str(f.name) && r.value.metadata["file_path"] == Str(f.path))
  {
    var ext := LowerSuffix(f);
    if ext == ".docx" {
      var r := LoadedDocx(cc, f);
      if r.Success? {
        var m := DocxMetadata(f, f.docx.value);
      }
    } else if ext == ".doc" {
      var m := DocMetadata(f);
    }
  }

  /** `process_document`: load, then chunk. */
  function ProcessDocument(cc: CharClasses, cfg: Config, f: FileEntry): Result<seq<Chunk>>
    requires WellFormed(cc) && ValidConfig(cfg)
  {
    match LoadDocument(cc, f)
    case Failure(e) => Failure(e)
    case Success(l) => Success(Chunks(cc, cfg, CleanText(cc, l.text), l.metadata))
  }

  /** Every chunk of a processed document names the file as its source. */
  lemma ProcessDocumentSource(cc: CharClasses, cfg: Config, f: FileEntry)
    requires WellFormed(cc) && ValidConfig(cfg)
    ensures ProcessDocument(cc, cfg, f).Failure? <==> LoadDocument(cc, f).Failure?
    ensures ProcessDocument(cc, cfg, f).Success? ==>
      forall c :: c in ProcessDocument(cc, cfg, f).value ==> "source" in c.Metadata() && c.Metadata()["source"] == Str(f.name)
  {
    if LoadDocument(cc, f).Success? {
      var l := LoadDocument(cc, f).value;
      LoadDocumentSpec(cc, f);
      ChunksInherit(cc, cfg, CleanText(cc, l.text), l.metadata, "source");
    }
  }

  /** `process_document` on one file after another. */
  method ProcessOne(cc: CharClasses, cfg: Config, f: FileEntry) returns (r: Result<seq<Chunk>>)
    requires WellFormed(cc) && ValidConfig(cfg)
    ensures r == ProcessDocument(cc, cfg, f)
  {
    var loaded: Result<Loaded>;
    var ext := LowerSuffix(f);
    if ext == ".docx" {
      loaded := LoadDocx(cc, f);
    } else if ext == ".doc" {
      loaded := LoadDoc(f);
    } else {
      loaded := Failure(ValueError);
    }
    if loaded.Failure? {
      return Failure(loaded.error);
    }
    var chunks := ChunkText(cc, cfg, loaded.value.text, loaded.value.metadata);
    r := Success(chunks);
  }

  /** The per-file step of `process_directory`. */
  function Process(cc: CharClasses, cfg: Config): (process: FileEntry --> Result<seq<Chunk>>)
    requires WellFormed(cc) && ValidConfig(cfg)
    ensures forall f :: process.requires(f) && process(f) == ProcessDocument(cc, cfg, f)
  {
    f requires WellFormed(cc) && ValidConfig(cfg) => ProcessDocument(cc, cfg, f)
  }

  /** `process_directory` over the files `glob("*.doc")` and then
      `glob("*.docx")` list: a missing directory raises
      FileNotFoundError; otherwise the chunks of the files that process
      without raising, in that order. */
  method ProcessDirectory(cc: CharClasses, cfg: Config, directoryPresent: bool, docFiles: seq<FileEntry>, docxFiles: seq<FileEntry>)
    returns (r: Result<seq<Chunk>>)
    requires WellFormed(cc) && ValidConfig(cfg)
    ensures !directoryPresent ==> r == Failure(FileNotFoundError)
    ensures directoryPresent ==> r == Success(Collected(Outcomes(Process(cc, cfg), docFiles + docxFiles)))
  {
    if !directoryPresent {
      return Failure(FileNotFoundError);
    }
    var files := docFiles + docxFiles;
    if files == [] {
      return Success([]);
    }
    ghost var outcomes := Outcomes(Process(cc, cfg), files);
    var allChunks: seq<Chunk> := [];
    var i := 0;
    while i < |files|
      invariant 0 <= i <= |files|
      invariant allChunks == Collected(outcomes[..i])
    {
      var outcome := ProcessOne(cc, cfg, files[i]);
      assert outcome == outcomes[i];
      CollectedStep(outcomes, i);
      if outcome.Success? {
        allChunks := allChunks + outcome.value;
      }
      i := i + 1;
    }
    assert outcomes[..i] == outcomes;
    r := Success(allChunks);
  }

  /** The directory's chunks are those of its `.doc` files followed by
      those of its `.docx` files. */
  lemma DirectoryOrder(cc: CharClasses, cfg: Config, docFiles: seq<FileEntry>, docxFiles: seq<FileEntry>)
    requires WellFormed(cc) && ValidConfig(cfg)
    ensures Collected(Outcomes(Process(cc, cfg), docFiles + docxFiles))
         == Collected(Outcomes(Process(cc, cfg), docFiles)) + Collected(Outcomes(Process(cc, cfg), docxFiles))
  {
    OutcomesAppend(Process(cc, cfg), docFiles, docxFiles);
    CollectedAppend(Outcomes(Process(cc, cfg), docFiles), Outcomes(Process(cc, cfg), docxFiles));
  }
}

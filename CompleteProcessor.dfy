/** The PDF processor (`DocumentProcessor` of
    `document_processor_COMPLETE.py`): its constructor, `clean_text`,
    `chunk_text`, `load_pdf`, `process_pdf` and `process_directory`. */
module CompleteProcessor {
  import opened Text
  import opened Cleaning
  import opened Chunking
  import opened Extraction

  /** The punctuation the allow-list of `clean_text` keeps. */
  const Punct := ".,;:()[]-/"

  /** The constructor: pypdf must be importable. The parameters are also
      checked, which the source does not do (see StuckCursor): only those
      under which `chunk_text` terminates are accepted. */
  function New(pypdfAvailable: bool, chunkSize: int, chunkOverlap: int, minChunkSize: int): (r: Result<Config>)
    ensures !pypdfAvailable ==> r == Failure(ImportError)
    ensures pypdfAvailable ==> (r.Success? <==> ValidConfig(Config(chunkSize, chunkOverlap, minChunkSize)))
    ensures r.Success? ==> r.value == Config(chunkSize, chunkOverlap, minChunkSize)
  {
    if !pypdfAvailable then Failure(ImportError)
    else match NewConfig(chunkSize, chunkOverlap, minChunkSize)
      case Some(cfg) => Success(cfg)
      case None => Failure(ValueError)
  }

  /** `clean_text`: collapse every whitespace run to one space, delete the
      characters outside `[\w\s.,;:()\[\]\-/\n]`, strip. The page-header
      and blank-line substitutions between those steps need a newline and
      find none once whitespace is collapsed, so they change nothing. */
  function CleanText(cc: CharClasses, text: string): string
    requires WellFormed(cc)
  {
    Strip(cc, KeepAllowed(cc, Punct, CollapseSpaces(cc, text)))
  }

  /** The cleaned text holds only word characters, spaces and the allowed
      punctuation, with `' '` the only whitespace (two spaces can be
      adjacent: see CleanTextNotIdempotent), has no newline and no
      whitespace at its ends,
      and its non-whitespace characters are those of the input that the
      allow-list keeps, in order. */
  lemma CleanTextSpec(cc: CharClasses, text: string)
    requires WellFormed(cc)
    ensures CleanForm(cc, Punct, CleanText(cc, text))
    ensures NonSpace(cc, CleanText(cc, text)) == KeepAllowed(cc, Punct, NonSpace(cc, text))
  {
    var x := KeepAllowed(cc, Punct, CollapseSpaces(cc, text));
    CollapsedAllowed(cc, Punct, text);
    StripPrepared(cc, Punct, x);
    NonSpaceStrip(cc, x);
  }

  /** Cleaning twice is not cleaning once: deleting a symbol between two
      spaces leaves two spaces side by side, which only a second pass
      collapses. */
  lemma CleanTextNotIdempotent(cc: CharClasses)
    requires WellFormed(cc) && 'a' in cc.word && 'b' in cc.word
    requires '\U{A9}' !in cc.word && '\U{A9}' !in cc.space
    ensures CleanText(cc, CleanText(cc, "a \U{A9} b")) != CleanText(cc, "a \U{A9} b")
  {
    CleanSymbolBetweenSpaces(cc);
    CleanDoubleSpace(cc);
  }

  lemma CleanSymbolBetweenSpaces(cc: CharClasses)
    requires WellFormed(cc) && 'a' in cc.word && 'b' in cc.word
    requires '\U{A9}' !in cc.word && '\U{A9}' !in cc.space
    ensures CleanText(cc, "a \U{A9} b") == "a  b"
  {
    CollapseSymbol(cc);
    DropSymbol(cc);
    StripWords(cc, "a  b");
  }

  lemma CleanDoubleSpace(cc: CharClasses)
    requires WellFormed(cc) && 'a' in cc.word && 'b' in cc.word
    ensures CleanText(cc, "a  b") == "a b"
  {
    CollapseTwoSpaces(cc);
    KeepAllowedKeepsAllowed(cc, Punct, "a b");
    StripWords(cc, "a b");
  }

  lemma CollapseSymbol(cc: CharClasses)
    requires WellFormed(cc) && 'a' in cc.word && 'b' in cc.word
    requires '\U{A9}' !in cc.word && '\U{A9}' !in cc.space
    ensures CollapseSpaces(cc, "a \U{A9} b") == "a \U{A9} b"
  {
    var s := "a \U{A9} b";
    assert NoDouble(s, ' ') by {
      assert s[0] == 'a' && s[1] == ' ' && s[2] == '\U{A9}' && s[3] == ' ' && s[4] == 'b';
    }
    CollapseKeeps(cc, s);
  }

  /** A string that starts and ends with a word character is its own strip. */
  lemma StripWords(cc: CharClasses, s: string)
    requires WellFormed(cc) && |s| > 0 && s[0] in cc.word && s[|s| - 1] in cc.word
    ensures Strip(cc, s) == s
  {
    assert s[0] !in cc.space && s[|s| - 1] !in cc.space;
  }

  lemma DropSymbol(cc: CharClasses)
    requires WellFormed(cc) && 'a' in cc.word && 'b' in cc.word
    requires '\U{A9}' !in cc.word && '\U{A9}' !in cc.space
    ensures KeepAllowed(cc, Punct, "a \U{A9} b") == "a  b"
  {
    DropSymbolTail(cc);
    assert "a \U{A9} b"[1..] == " \U{A9} b";
    assert Allowed(cc, Punct, 'a');
  }

  lemma DropSymbolTail(cc: CharClasses)
    requires WellFormed(cc) && 'b' in cc.word
    requires '\U{A9}' !in cc.word && '\U{A9}' !in cc.space
    ensures KeepAllowed(cc, Punct, " \U{A9} b") == "  b"
  {
    DropSymbolFront(cc);
    assert " \U{A9} b"[1..] == "\U{A9} b";
  }

  lemma DropSymbolFront(cc: CharClasses)
    requires WellFormed(cc) && 'b' in cc.word
    requires '\U{A9}' !in cc.word && '\U{A9}' !in cc.space
    ensures KeepAllowed(cc, Punct, "\U{A9} b") == " b"
  {
    assert KeepAllowed(cc, Punct, "b") == "b";
    assert KeepAllowed(cc, Punct, " b") == " b" by {
      assert " b"[1..] == "b";
    }
    assert "\U{A9} b"[1..] == " b";
    assert !Allowed(cc, Punct, '\U{A9}');
  }

  lemma CollapseTwoSpaces(cc: CharClasses)
    requires WellFormed(cc) && 'a' in cc.word && 'b' in cc.word
    ensures CollapseSpaces(cc, "a  b") == "a b"
  {
    assert LeadingSpaces(cc, "b") == 0;
    assert LeadingSpaces(cc, " b") == 1;
    assert LeadingSpaces(cc, "  b") == 2;
    assert CollapseSpaces(cc, "b") == "b";
    assert CollapseSpaces(cc, "  b") == " b";
  }

  /** `chunk_text`: clean, then run the chunking loop. */
  method ChunkText(cc: CharClasses, cfg: Config, text: string, metadata: Metadata) returns (chunks: seq<Chunk>)
    requires WellFormed(cc) && ValidConfig(cfg)
    ensures chunks == Chunks(cc, cfg, CleanText(cc, text), metadata)
  {
    var cleaned := CleanText(cc, text);
    chunks := ChunkCleaned(cc, cfg, cleaned, metadata);
  }

  /** A value of the PDF information dictionary, `""` when absent. */
  function Info(info: map<string, string>, key: string): string
  {
    if key in info then info[key] else ""
  }

  /** The metadata `load_pdf` returns. */
  function PdfMetadata(f: FileEntry, src: PdfSource): Metadata
  {
    var base := map["source" := Str(f.name), "num_pages" := Int(|src.pages|), "file_path" := Str(f.path)];
    if |src.info| > 0 then
      base["title" := Str(Info(src.info, "/Title"))]["author" := Str(Info(src.info, "/Author"))]["subject" := Str(Info(src.info, "/Subject"))]
    else base
  }

  /** What `load_pdf` returns for a file: FileNotFoundError when it is
      missing, the reader's exception when pypdf cannot open it, and
      otherwise the newline-joined markers of the pages with text. */
  function LoadedPdf(f: FileEntry): Result<Loaded>
  {
    if !f.present then Failure(FileNotFoundError)
    else match f.pdf
      case None => Failure(ExtractorError)
      case Some(src) => Success(Loaded(Join("\n", PageParts(src.pages)), PdfMetadata(f, src)))
  }

  /** The loaded metadata names the file, counts every page, and carries
      title, author and subject exactly when the PDF has information. */
  lemma LoadedPdfSpec(f: FileEntry)
    ensures var r := LoadedPdf(f);
      && (!f.present ==> r == Failure(FileNotFoundError))
      && (f.present && f.pdf.None? ==> r == Failure(ExtractorError))
      && (r.Success? ==>
          && r.value.metadata["source"] == Str(f.name)
          && r.value.metadata["file_path"] == Str(f.path)
          && r.value.metadata["num_pages"] == Int(|f.pdf.value.pages|)
          && ("title" in r.value.metadata <==> |f.pdf.value.info| > 0)
          && r.value.text == Join("\n", PageParts(f.pdf.value.pages)))
  {
  }

  /** `load_pdf`: the page loop skips pages whose extraction raises. */
  method LoadPdf(f: FileEntry) returns (r: Result<Loaded>)
    ensures r == LoadedPdf(f)
  {
    if !f.present {
      return Failure(FileNotFoundError);
    }
    if f.pdf.None? {
      return Failure(ExtractorError);
    }
    var src := f.pdf.value;
    var metadata := PdfMetadata(f, src);
    var text := AssemblePages(src.pages, true);
    r := Success(Loaded(text.value, metadata));
  }

  /** `process_pdf`: load, then chunk. */
  function ProcessPdf(cc: CharClasses, cfg: Config, f: FileEntry): Result<seq<Chunk>>
    requires WellFormed(cc) && ValidConfig(cfg)
  {
    match LoadedPdf(f)
    case Failure(e) => Failure(e)
    case Success(l) => Success(Chunks(cc, cfg, CleanText(cc, l.text), l.metadata))
  }

  /** `process_pdf` inside the directory loop's `try`. */
  method ProcessOne(cc: CharClasses, cfg: Config, f: FileEntry) returns (r: Result<seq<Chunk>>)
    requires WellFormed(cc) && ValidConfig(cfg)
    ensures r == ProcessPdf(cc, cfg, f)
  {
    var loaded := LoadPdf(f);
    if loaded.Failure? {
      return Failure(loaded.error);
    }
    var chunks := ChunkText(cc, cfg, loaded.value.text, loaded.value.metadata);
    r := Success(chunks);
  }

  /** Every chunk of a processed PDF names the file as its source. */
  lemma ProcessPdfSource(cc: CharClasses, cfg: Config, f: FileEntry)
    requires WellFormed(cc) && ValidConfig(cfg)
    ensures ProcessPdf(cc, cfg, f).Failure? <==> !f.present || f.pdf.None?
    ensures ProcessPdf(cc, cfg, f).Success? ==>
      forall c :: c in ProcessPdf(cc, cfg, f).value ==> "source" in c.Metadata() && c.Metadata()["source"] == Str(f.name)
  {
    if LoadedPdf(f).Success? {
      var l := LoadedPdf(f).value;
      assert l.metadata["source"] == Str(f.name);
      ChunksInherit(cc, cfg, CleanText(cc, l.text), l.metadata, "source");
    }
  }

  /** The per-file step of `process_directory`. */
  function Process(cc: CharClasses, cfg: Config): (process: FileEntry --> Result<seq<Chunk>>)
    requires WellFormed(cc) && ValidConfig(cfg)
    ensures forall f :: process.requires(f) && process(f) == ProcessPdf(cc, cfg, f)
  {
    f requires WellFormed(cc) && ValidConfig(cfg) => ProcessPdf(cc, cfg, f)
  }

  /** `process_directory` over the files `glob("*.pdf")` lists: a missing
      directory raises FileNotFoundError; otherwise the chunks of the files
      that process without raising, in file order. */
  method ProcessDirectory(cc: CharClasses, cfg: Config, directoryPresent: bool, pdfFiles: seq<FileEntry>) returns (r: Result<seq<Chunk>>)
    requires WellFormed(cc) && ValidConfig(cfg)
    ensures !directoryPresent ==> r == Failure(FileNotFoundError)
    ensures directoryPresent ==> r == Success(Collected(Outcomes(Process(cc, cfg), pdfFiles)))
  {
    if !directoryPresent {
      return Failure(FileNotFoundError);
    }
    if pdfFiles == [] {
      return Success([]);
    }
    ghost var outcomes := Outcomes(Process(cc, cfg), pdfFiles);
    var allChunks: seq<Chunk> := [];
    var i := 0;
    while i < |pdfFiles|
      invariant 0 <= i <= |pdfFiles|
      invariant allChunks == Collected(outcomes[..i])
    {
      var outcome := ProcessOne(cc, cfg, pdfFiles[i]);
      assert outcome == outcomes[i];
      CollectedStep(outcomes, i);
      if outcome.Success? {
        allChunks := allChunks + outcome.value;
      }
      i := i + 1;
    }
    assert outcomes[..i] == outcomes;
    r := Success(allChunks);
  }
}

/** The unified processor (`UnifiedDocumentProcessor` of
    `document_processor_UNIFIED.py`): it probes for PDF, DOCX and `.doc`
    support, routes each file to a loader by its suffix, cleans with the
    allow-list that keeps `#` and `|`, chunks, and walks a directory's
    PDFs, then its DOCX files, then its `.doc` files. */
module UnifiedProcessor {
  import opened Text
  import opened Cleaning
  import opened Chunking
  import opened Extraction

  /** The punctuation the allow-list of `clean_text` keeps. */
  const Punct := ".,;:()[]-/#|"

  /** The `available_processors` dictionary. */
  datatype Processors = Processors(pdf: bool, docx: bool, doc: bool, docMethods: seq<DocMethod>)

  /** `_detect_processors`: the pypdf and python-docx import probes, then
      the three `.doc` extractor probes. */
  method DetectProcessors(env: Environment) returns (p: Processors)
    ensures p.pdf <==> "pypdf" in env.importable
    ensures p.docx <==> "docx" in env.importable
    ensures p.docMethods == ProbedDocMethods(env)
    ensures p.doc <==> |p.docMethods| > 0
  {
    var pdf := "pypdf" in env.importable;
    var docx := "docx" in env.importable;
    var docMethods: seq<DocMethod> := [];
    if "antiword" in env.runnable {
      docMethods := docMethods + [Antiword];
    }
    if "textract" in env.importable {
      docMethods := docMethods + [Textract];
    }
    if env.win32 && "win32com.client" in env.importable {
      docMethods := docMethods + [Win32com];
    }
    p := Processors(pdf, docx, |docMethods| > 0, docMethods);
  }

  /** `.doc` support is there exactly when one of antiword, textract or
      (on Windows) win32com is. */
  lemma DocFlagSpec(env: Environment, p: Processors)
    requires p.docMethods == ProbedDocMethods(env) && (p.doc <==> |p.docMethods| > 0)
    ensures p.doc <==> "antiword" in env.runnable || "textract" in env.importable || (env.win32 && "win32com.client" in env.importable)
  {
    ProbedDocMethodsSpec(env);
    if p.doc {
      assert p.docMethods[0] in p.docMethods;
    }
  }

  /** The processor: its chunking parameters and what was detected. */
  datatype Processor = Processor(cfg: Config, available: Processors)

  /** The constructor, with the parameter check the source lacks (see
      StuckCursor). */
  method New(env: Environment, chunkSize: int, chunkOverlap: int, minChunkSize: int) returns (r: Result<Processor>)
    ensures r.Success? <==> ValidConfig(Config(chunkSize, chunkOverlap, minChunkSize))
    ensures r.Failure? ==> r.error == ValueError
    ensures r.Success? ==> r.value.cfg == Config(chunkSize, chunkOverlap, minChunkSize)
    ensures r.Success? ==> r.value.available == Processors("pypdf" in env.importable, "docx" in env.importable,
                                                           |ProbedDocMethods(env)| > 0, ProbedDocMethods(env))
  {
    var cfg := NewConfig(chunkSize, chunkOverlap, minChunkSize);
    if cfg.None? {
      return Failure(ValueError);
    }
    var available := DetectProcessors(env);
    r := Success(Processor(cfg.value, available));
  }

  /** The metadata of `_load_pdf`: title and author only when the PDF
      has an information dictionary. */
  function PdfMetadata(f: FileEntry, src: PdfSource): (m: Metadata)
    ensures "source" in m && m["source"] == Str(f.name) && "format" in m && m["format"] == Str("pdf")
  {
    var base := map["source" := Str(f.name), "num_pages" := Int(|src.pages|), "file_path" := Str(f.path), "format" := Str("pdf")];
    if |src.info| > 0 then
      base["title" := Str(if "/Title" in src.info then src.info["/Title"] else "")]["author" := Str(if "/Author" in src.info then src.info["/Author"] else "")]
    else base
  }

  /** `_load_pdf`: unlike the PDF processor it lets a page's extraction
      error escape, so one failing page fails the file. */
  method LoadPdf(f: FileEntry) returns (r: Result<Loaded>)
    requires f.present
    ensures f.pdf.None? ==> r == Failure(ExtractorError)
    ensures f.pdf.Some? && (exists i :: 0 <= i < |f.pdf.value.pages| && f.pdf.value.pages[i].None?) ==> r == Failure(ExtractorError)
    ensures f.pdf.Some? && (forall i :: 0 <= i < |f.pdf.value.pages| ==> f.pdf.value.pages[i].Some?) ==>
      r == Success(Loaded(Join("\n", PageParts(f.pdf.value.pages)), PdfMetadata(f, f.pdf.value)))
  {
    if f.pdf.None? {
      return Failure(ExtractorError);
    }
    var src := f.pdf.value;
    var metadata := PdfMetadata(f, src);
    var text := AssemblePages(src.pages, false);
    if text.Failure? {
      return Failure(text.error);
    }
    r := Success(Loaded(text.value, metadata));
  }

  /** The metadata of `_load_docx`. */
  function DocxMetadata(f: FileEntry, src: DocxSource): (m: Metadata)
    ensures "source" in m && m["source"] == Str(f.name) && "format" in m && m["format"] == Str("docx")
  {
    map["source" := Str(f.name), "file_path" := Str(f.path), "format" := Str("docx"),
        "title" := Str(src.props.title), "author" := Str(src.props.author),
        "num_paragraphs" := Int(|src.paragraphs|), "num_tables" := Int(|src.tables|)]
  }

  /** `_load_docx`: paragraphs, then table rows, as in the Word processor. */
  method LoadDocx(cc: CharClasses, f: FileEntry) returns (r: Result<Loaded>)
    requires f.present
    ensures f.docx.None? ==> r == Failure(ExtractorError)
    ensures f.docx.Some? ==> r == Success(Loaded(
      Join("\n", ParagraphParts(cc, f.docx.value.paragraphs) + TableParts(cc, f.docx.value.tables)),
      DocxMetadata(f, f.docx.value)))
  {
    if f.docx.None? {
      return Failure(ExtractorError);
    }
    var src := f.docx.value;
    var metadata := DocxMetadata(f, src);
    var text := AssembleDocx(cc, src.paragraphs, src.tables);
    r := Success(Loaded(text, metadata));
  }

  /** The extractor `_load_doc` uses: the first of antiword, textract and
      win32com that was detected. */
  function DocChoice(docMethods: seq<DocMethod>): Option<DocMethod>
  {
    if Antiword in docMethods then Some(Antiword)
    else if Textract in docMethods then Some(Textract)
    else if Win32com in docMethods then Some(Win32com)
    else None
  }

  /** The choice is detected, precedes every other detected extractor but
      LibreOffice, and is missing only when none of the three is. */
  lemma DocChoiceSpec(docMethods: seq<DocMethod>)
    ensures var c := DocChoice(docMethods);
      && (c.None? <==> Antiword !in docMethods && Textract !in docMethods && Win32com !in docMethods)
      && (c.Some? ==> c.value in docMethods && c.value != LibreOffice)
      && (c.Some? ==> forall m :: m in docMethods && m != LibreOffice ==> Rank(c.value) <= Rank(m))
  {
  }

  /** The metadata of `_load_doc`. */
  function DocMetadata(f: FileEntry, m: DocMethod): (md: Metadata)
    ensures "source" in md && md["source"] == Str(f.name) && "format" in md && md["format"] == Str("doc")
  {
    map["source" := Str(f.name), "file_path" := Str(f.path), "format" := Str("doc"), "extraction_method" := Str(MethodName(m))]
  }

  /** `_load_doc`: one attempt with the chosen extractor; its failure
      escapes unchanged, and with no extractor it is a RuntimeError. */
  function LoadDoc(p: Processor, f: FileEntry): (r: Result<Loaded>)
    ensures r.Success? ==> exists m :: r.value.metadata == DocMetadata(f, m)
    ensures DocChoice(p.available.docMethods).None? ==> r == Failure(RuntimeError)
    ensures DocChoice(p.available.docMethods).Some? ==>
      var c := DocChoice(p.available.docMethods).value;
      && (r.Success? <==> c in f.doc)
      && (r.Success? ==> r.value == Loaded(f.doc[c], DocMetadata(f, c)))
      && (r.Failure? ==> r.error == ExtractorError)
  {
    match DocChoice(p.available.docMethods)
    case None => Failure(RuntimeError)
    case Some(m) => if m in f.doc then Success(Loaded(f.doc[m], DocMetadata(f, m))) else Failure(ExtractorError)
  }

  /** In terms of what was detected: the load is a RuntimeError exactly
      when none of antiword, textract and win32com was detected; otherwise
      a detected extractor that precedes every other detected one but
      LibreOffice is tried once, and its text is returned when it reads
      the file; any other failure is that extractor's own exception. */
  lemma LoadDocSpec(p: Processor, f: FileEntry)
    ensures var ms := p.available.docMethods;
      var r := LoadDoc(p, f);
      && (r == Failure(RuntimeError) <==> Antiword !in ms && Textract !in ms && Win32com !in ms)
      && (r.Failure? ==> r.error == RuntimeError || r.error == ExtractorError)
      && (r.Success? ==>
            exists c :: && c in ms && c != LibreOffice && c in f.doc
                        && (forall m :: m in ms && m != LibreOffice ==> Rank(c) <= Rank(m))
                        && r.value == Loaded(f.doc[c], DocMetadata(f, c)))
      && (Antiword in ms ==> (r.Success? <==> Antiword in f.doc))
  {
    var ms := p.available.docMethods;
    DocChoiceSpec(ms);
    match DocChoice(ms)
    case None =>
    case Some(c) =>
      if c in f.doc {
        assert LoadDoc(p, f).value == Loaded(f.doc[c], DocMetadata(f, c));
      }
  }

  /** The result of `_load_pdf`, as a value. */
  function LoadedPdf(f: FileEntry): (r: Result<Loaded>)
    ensures r.Success? ==> f.pdf.Some? && r.value.metadata == PdfMetadata(f, f.pdf.value)
  {
    match f.pdf
    case None => Failure(ExtractorError)
    case Some(src) =>
      if forall i :: 0 <= i < |src.pages| ==> src.pages[i].Some? then
        Success(Loaded(Join("\n", PageParts(src.pages)), PdfMetadata(f, src)))
      else Failure(ExtractorError)
  }

  /** The result of `_load_docx`, as a value. */
  function LoadedDocx(cc: CharClasses, f: FileEntry): (r: Result<Loaded>)
    ensures r.Success? ==> f.docx.Some? && r.value.metadata == DocxMetadata(f, f.docx.value)
  {
    match f.docx
    case None => Failure(ExtractorError)
    case Some(src) => Success(Loaded(Join("\n", ParagraphParts(cc, src.paragraphs) + TableParts(cc, src.tables)), DocxMetadata(f, src)))
  }

  /** `load_document`: existence first, then the lower-cased suffix, then
      the availability flag of that format. */
  function LoadDocument(cc: CharClasses, p: Processor, f: FileEntry): Result<Loaded>
  {
    var ext := LowerSuffix(f);
    if !f.present then Failure(FileNotFoundError)
    else if ext == ".pdf" then (if !p.available.pdf then Failure(RuntimeError) else LoadedPdf(f))
    else if ext == ".docx" then (if !p.available.docx then Failure(RuntimeError) else LoadedDocx(cc, f))
    else if ext == ".doc" then (if !p.available.doc then Failure(RuntimeError) else LoadDoc(p, f))
    else Failure(ValueError)
  }

  /** A missing file is a FileNotFoundError whatever its suffix; an
      unsupported suffix a ValueError; a supported format whose flag is
      off a RuntimeError. */
  lemma LoadDocumentErrors(cc: CharClasses, p: Processor, f: FileEntry)
    ensures var r := LoadDocument(cc, p, f);
      var ext := LowerSuffix(f);
      && (!f.present ==> r == Failure(FileNotFoundError))
      && (f.present && ext != ".pdf" && ext != ".docx" && ext != ".doc" ==> r == Failure(ValueError))
      && (f.present && ext == ".pdf" && !p.available.pdf ==> r == Failure(RuntimeError))
      && (f.present && ext == ".docx" && !p.available.docx ==> r == Failure(RuntimeError))
      && (f.present && ext == ".doc" && !p.available.doc ==> r == Failure(RuntimeError))
  {
  }

  /** A loaded document names its file and its format. */
  lemma LoadDocumentSpec(cc: CharClasses, p: Processor, f: FileEntry)
    ensures var r := LoadDocument(cc, p, f);
      var ext := LowerSuffix(f);
      && (r.Success? ==> f.present && ((ext == ".pdf" && p.available.pdf) || (ext == ".docx" && p.available.docx) || (ext == ".doc" && p.available.doc)))
      && (r.Success? ==> r.value.metadata["source"] == Str(f.name))
      && (r.Success? ==> r.value.metadata["format"] == Str(if ext == ".pdf" then "pdf" else if ext == ".docx" then "docx" else "doc"))
  {
    var ext := LowerSuffix(f);
    var r := LoadDocument(cc, p, f);
    if f.present && ext == ".pdf" && p.available.pdf {
      assert r == LoadedPdf(f);
    } else if f.present && ext == ".docx" && p.available.docx {
      assert r == LoadedDocx(cc, f);
    } else if f.present && ext == ".doc" && p.available.doc {
      assert r == LoadDoc(p, f);
      if r.Success? {
        var m :| r.value.metadata == DocMetadata(f, m);
      }
    }
  }

  /** `load_document` as the processor runs it. */
  method LoadDocumentOf(cc: CharClasses, p: Processor, f: FileEntry) returns (r: Result<Loaded>)
    ensures r == LoadDocument(cc, p, f)
  {
    if !f.present {
      return Failure(FileNotFoundError);
    }
    var ext := LowerSuffix(f);
    if ext == ".pdf" {
      if !p.available.pdf {
        return Failure(RuntimeError);
      }
      r := LoadPdf(f);
    } else if ext == ".docx" {
      if !p.available.docx {
        return Failure(RuntimeError);
      }
      r := LoadDocx(cc, f);
    } else if ext == ".doc" {
      if !p.available.doc {
        return Failure(RuntimeError);
      }
      r := LoadDoc(p, f);
    } else {
      r := Failure(ValueError);
    }
  }

  /** `clean_text`: collapse whitespace, apply the allow-list, strip. This
      variant has no lone-number and no separator step. */
  function CleanText(cc: CharClasses, text: string): string
    requires WellFormed(cc)
  {
    Strip(cc, KeepAllowed(cc, Punct, CollapseSpaces(cc, text)))
  }

  /** The cleaned text is in clean form and keeps, in order, every
      non-whitespace character of the input the allow-list keeps. */
  lemma CleanTextSpec(cc: CharClasses, text: string)
    requires WellFormed(cc)
    ensures CleanForm(cc, Punct, CleanText(cc, text))
    ensures NonSpace(cc, CleanText(cc, text)) == KeepAllowed(cc, Punct, NonSpace(cc, text))
  {
    var x := KeepAllowed(cc, Punct, CollapseSpaces(cc, text));
    CollapsedAllowed(cc, Punct, text);
    StripPrepared(cc, Punct, x);
    NonSpaceStrip(cc, x);
  }

  /** `chunk_text`: clean, then run the chunking loop. */
  method ChunkText(cc: CharClasses, cfg: Config, text: string, metadata: Metadata) returns (chunks: seq<Chunk>)
    requires WellFormed(cc) && ValidConfig(cfg)
    ensures chunks == Chunks(cc, cfg, CleanText(cc, text), metadata)
  {
    var cleaned := CleanText(cc, text);
    chunks := ChunkCleaned(cc, cfg, cleaned, metadata);
  }

  /** `process_document`: load, then chunk. */
  function ProcessDocument(cc: CharClasses, p: Processor, f: FileEntry): Result<seq<Chunk>>
    requires WellFormed(cc) && ValidConfig(p.cfg)
  {
    match LoadDocument(cc, p, f)
    case Failure(e) => Failure(e)
    case Success(l) => Success(Chunks(cc, p.cfg, CleanText(cc, l.text), l.metadata))
  }

  /** Every chunk of a processed file names the file as its source. */
  lemma ProcessDocumentSource(cc: CharClasses, p: Processor, f: FileEntry)
    requires WellFormed(cc) && ValidConfig(p.cfg)
    ensures ProcessDocument(cc, p, f).Failure? <==> LoadDocument(cc, p, f).Failure?
    ensures ProcessDocument(cc, p, f).Success? ==>
      forall c :: c in ProcessDocument(cc, p, f).value ==> "source" in c.Metadata() && c.Metadata()["source"] == Str(f.name)
  {
    if LoadDocument(cc, p, f).Success? {
      var l := LoadDocument(cc, p, f).value;
      LoadDocumentSpec(cc, p, f);
      ChunksInherit(cc, p.cfg, CleanText(cc, l.text), l.metadata, "source");
    }
  }

  /** `process_document` inside the directory loop's `try`. */
  method ProcessOne(cc: CharClasses, p: Processor, f: FileEntry) returns (r: Result<seq<Chunk>>)
    requires WellFormed(cc) && ValidConfig(p.cfg)
    ensures r == ProcessDocument(cc, p, f)
  {
    var loaded := LoadDocumentOf(cc, p, f);
    if loaded.Failure? {
      return Failure(loaded.error);
    }
    var chunks := ChunkText(cc, p.cfg, loaded.value.text, loaded.value.metadata);
    r := Success(chunks);
  }

  /** The per-file step of `process_directory`. */
  function Process(cc: CharClasses, p: Processor): (process: FileEntry --> Result<seq<Chunk>>)
    requires WellFormed(cc) && ValidConfig(p.cfg)
    ensures forall f :: process.requires(f) && process(f) == ProcessDocument(cc, p, f)
  {
    f requires WellFormed(cc) && ValidConfig(p.cfg) => ProcessDocument(cc, p, f)
  }

  /** The files `process_directory` walks: what `glob("*.pdf")` and
      `glob("*.docx")` list, then what `glob("*.doc")` lists with a
      lower-cased suffix of `.doc`. */
  function AllFiles(pdfFiles: seq<FileEntry>, docxFiles: seq<FileEntry>, docGlobbed: seq<FileEntry>): seq<FileEntry>
  {
    pdfFiles + docxFiles + DocOnly(docGlobbed)
  }

  /** `process_directory`: a missing directory raises FileNotFoundError;
      otherwise the chunks of the files that process without raising, in
      the order of AllFiles. */
  method ProcessDirectory(cc: CharClasses, p: Processor, directoryPresent: bool,
                          pdfFiles: seq<FileEntry>, docxFiles: seq<FileEntry>, docGlobbed: seq<FileEntry>)
    returns (r: Result<seq<Chunk>>)
    requires WellFormed(cc) && ValidConfig(p.cfg)
    ensures !directoryPresent ==> r == Failure(FileNotFoundError)
    ensures directoryPresent ==> r == Success(Collected(Outcomes(Process(cc, p), AllFiles(pdfFiles, docxFiles, docGlobbed))))
  {
    if !directoryPresent {
      return Failure(FileNotFoundError);
    }
    var docFiles := DocOnly(docGlobbed);
    var files := pdfFiles + docxFiles + docFiles;
    if files == [] {
      return Success([]);
    }
    ghost var outcomes := Outcomes(Process(cc, p), files);
    var allChunks: seq<Chunk> := [];
    var i := 0;
    while i < |files|
      invariant 0 <= i <= |files|
      invariant allChunks == Collected(outcomes[..i])
    {
      var outcome := ProcessOne(cc, p, files[i]);
      assert outcome == outcomes[i];
      CollectedStep(outcomes, i);
      if outcome.Success? {
        allChunks := allChunks + outcome.value;
      }
      i := i + 1;
    }
    assert outcomes[..i] == outcomes;
    r := Success(allChunks);
  }

  /** The directory's chunks are those of its PDFs, then of its DOCX
      files, then of its `.doc` files. */
  lemma DirectoryOrder(cc: CharClasses, p: Processor, pdfFiles: seq<FileEntry>, docxFiles: seq<FileEntry>, docGlobbed: seq<FileEntry>)
    requires WellFormed(cc) && ValidConfig(p.cfg)
    ensures Collected(Outcomes(Process(cc, p), AllFiles(pdfFiles, docxFiles, docGlobbed)))
         == Collected(Outcomes(Process(cc, p), pdfFiles)) + Collected(Outcomes(Process(cc, p), docxFiles)) + Collected(Outcomes(Process(cc, p), DocOnly(docGlobbed)))
  {
    var a := Outcomes(Process(cc, p), pdfFiles);
    var b := Outcomes(Process(cc, p), docxFiles);
    var c := Outcomes(Process(cc, p), DocOnly(docGlobbed));
    OutcomesAppend(Process(cc, p), pdfFiles, docxFiles);
    OutcomesAppend(Process(cc, p), pdfFiles + docxFiles, DocOnly(docGlobbed));
    CollectedAppend(a + b, c);
    CollectedAppend(a, b);
  }
}

/** The legacy Word processor (`LegacyDocProcessor` of
    `document_processor_DOC.py`): the probe for `.doc` extractors, the
    choice of one extractor per file, its `clean_text` with the
    control-character filter, `chunk_text`, and the directory walk that
    records the files that fail. */
module DocProcessor {
  import opened Text
  import opened Cleaning
  import opened Chunking
  import opened Extraction

  /** The punctuation the allow-list of `clean_text` keeps. */
  const Punct := ".,;:()[]-/#|"

  /** The LibreOffice binaries probed for, in order. */
  const OfficeBinaries: seq<string> := ["libreoffice", "soffice", "openoffice"]

  /** The extractors `_detect_available_methods` lists. */
  function AvailableMethods(env: Environment): seq<DocMethod>
  {
    ProbedDocMethods(env) + (if exists b :: b in OfficeBinaries && b in env.runnable then [LibreOffice] else [])
  }

  /** Each extractor is listed exactly when its probe succeeds (LibreOffice
      when any of its three binaries runs), at most once, and in the order
      antiword, textract, win32com, libreoffice. */
  lemma AvailableMethodsSpec(env: Environment)
    ensures var ms := AvailableMethods(env);
      && (Antiword in ms <==> "antiword" in env.runnable)
      && (Textract in ms <==> "textract" in env.importable)
      && (Win32com in ms <==> env.win32 && "win32com.client" in env.importable)
      && (LibreOffice in ms <==> exists b :: b in OfficeBinaries && b in env.runnable)
      && (forall i, j :: 0 <= i < j < |ms| ==> Rank(ms[i]) < Rank(ms[j]))
  {
    ProbedDocMethodsSpec(env);
    var probed := ProbedDocMethods(env);
    if exists b :: b in OfficeBinaries && b in env.runnable {
      var ms := probed + [LibreOffice];
      assert AvailableMethods(env) == ms;
      forall i, j | 0 <= i < j < |ms| ensures Rank(ms[i]) < Rank(ms[j]) {
        assert ms[i] == probed[i] && probed[i] in probed;
        if j == |probed| {
          assert ms[j] == LibreOffice;
        } else {
          assert ms[j] == probed[j];
        }
      }
    } else {
      assert AvailableMethods(env) == probed;
    }
  }

  /** `_detect_available_methods`: the three fixed probes, then the
      LibreOffice binaries until one of them runs. */
  method DetectAvailableMethods(env: Environment) returns (methods: seq<DocMethod>)
    ensures methods == AvailableMethods(env)
  {
    methods := [];
    if "antiword" in env.runnable {
      methods := methods + [Antiword];
    }
    if "textract" in env.importable {
      methods := methods + [Textract];
    }
    if env.win32 && "win32com.client" in env.importable {
      methods := methods + [Win32com];
    }
    ghost var probed := methods;
    var i := 0;
    while i < |OfficeBinaries|
      invariant 0 <= i <= |OfficeBinaries|
      invariant methods == probed
      invariant forall j :: 0 <= j < i ==> OfficeBinaries[j] !in env.runnable
    {
      if OfficeBinaries[i] in env.runnable {
        methods := methods + [LibreOffice];
        break;
      }
      i := i + 1;
    }
  }

  /** The processor: its chunking parameters, the requested extraction
      method (`"auto"` or a method name) and the extractors found when it
      was built. */
  datatype Processor = Processor(cfg: Config, requested: string, win32: bool, available: seq<DocMethod>)

  /** The constructor, with the parameter check the source lacks (see
      StuckCursor). */
  method New(env: Environment, chunkSize: int, chunkOverlap: int, minChunkSize: int, extractionMethod: string)
    returns (r: Result<Processor>)
    ensures r.Success? <==> ValidConfig(Config(chunkSize, chunkOverlap, minChunkSize))
    ensures r.Failure? ==> r.error == ValueError
    ensures r.Success? ==> r.value == Processor(Config(chunkSize, chunkOverlap, minChunkSize), extractionMethod, env.win32, AvailableMethods(env))
  {
    var cfg := NewConfig(chunkSize, chunkOverlap, minChunkSize);
    if cfg.None? {
      return Failure(ValueError);
    }
    var available := DetectAvailableMethods(env);
    r := Success(Processor(cfg.value, extractionMethod, env.win32, available));
  }

  /** The extractor a method name names, if any. */
  function Named(name: string): (m: Option<DocMethod>)
    ensures m.Some? ==> MethodName(m.value) == name
    ensures m.None? ==> forall d :: MethodName(d) != name
  {
    if name == "antiword" then Some(Antiword)
    else if name == "textract" then Some(Textract)
    else if name == "win32com" then Some(Win32com)
    else if name == "libreoffice" then Some(LibreOffice)
    else None
  }

  /** The choice `load_doc` makes before extracting: in `"auto"` mode
      win32com on Windows when it is available, otherwise the first
      available of antiword, textract and libreoffice; an explicit request
      must name an available extractor. */
  function SelectMethod(p: Processor): Result<DocMethod>
  {
    if p.requested == "auto" then
      if p.win32 && Win32com in p.available then Success(Win32com)
      else if Antiword in p.available then Success(Antiword)
      else if Textract in p.available then Success(Textract)
      else if LibreOffice in p.available then Success(LibreOffice)
      else Failure(RuntimeError)
    else match Named(p.requested)
      case Some(m) => if m in p.available then Success(m) else Failure(RuntimeError)
      case None => Failure(RuntimeError)
  }

  /** The choice is available; in auto mode it fails only when nothing is
      available (win32com is listed only on Windows), prefers win32com on
      Windows and otherwise takes the first available of antiword,
      textract, libreoffice; an explicit request is honoured exactly when
      it names an available extractor. */
  lemma SelectMethodSpec(p: Processor)
    requires forall m :: m in p.available && m == Win32com ==> p.win32
    ensures var r := SelectMethod(p);
      && (r.Success? ==> r.value in p.available)
      && (p.requested == "auto" ==> (r.Failure? <==> |p.available| == 0))
      && (p.requested == "auto" && r.Success? && r.value != Win32com ==>
            forall m :: m in p.available && m != Win32com ==> Rank(r.value) <= Rank(m))
      && (p.requested == "auto" && p.win32 && Win32com in p.available ==> r == Success(Win32com))
      && (p.requested != "auto" ==>
            (r.Success? <==> exists m :: m in p.available && MethodName(m) == p.requested)
            && (r.Success? ==> MethodName(r.value) == p.requested))
  {
    if p.requested == "auto" && |p.available| > 0 {
      var m := p.available[0];
      assert m in p.available;
    }
    if p.requested != "auto" {
      if exists m :: m in p.available && MethodName(m) == p.requested {
        var m :| m in p.available && MethodName(m) == p.requested;
        MethodNameInjective(m, Named(p.requested).value);
      }
    }
  }

  /** The metadata an extractor returns; win32com adds the document's
      title, author and subject. */
  function DocMetadata(f: FileEntry, m: DocMethod): (md: Metadata)
    ensures "source" in md && md["source"] == Str(f.name) && "format" in md && md["format"] == Str("doc (legacy)")
    ensures "extraction_method" in md && md["extraction_method"] == Str(MethodName(m))
  {
    var base := map["source" := Str(f.name), "file_path" := Str(f.path),
                    "format" := Str("doc (legacy)"), "extraction_method" := Str(MethodName(m))];
    if m == Win32com then
      base["title" := Str(f.props.title)]["author" := Str(f.props.author)]["subject" := Str(f.props.subject)]
    else base
  }

  /** `load_doc`: FileNotFoundError for a missing file, ValueError for a
      suffix other than `.doc`, RuntimeError when no extractor is chosen
      and when the chosen one fails; there is no second attempt. */
  function LoadDoc(p: Processor, f: FileEntry): (r: Result<Loaded>)
  {
    if !f.present then Failure(FileNotFoundError)
    else if LowerSuffix(f) != ".doc" then Failure(ValueError)
    else match SelectMethod(p)
      case Failure(e) => Failure(e)
      case Success(m) =>
        if m in f.doc then Success(Loaded(f.doc[m], DocMetadata(f, m))) else Failure(RuntimeError)
  }

  /** The checks come in order (existence, suffix, choice), exactly the
      chosen extractor is used, and its metadata names the file, the
      format and the extractor. */
  lemma LoadDocSpec(p: Processor, f: FileEntry)
    ensures var r := LoadDoc(p, f);
      && (!f.present ==> r == Failure(FileNotFoundError))
      && (f.present && LowerSuffix(f) != ".doc" ==> r == Failure(ValueError))
      && (f.present && LowerSuffix(f) == ".doc" && SelectMethod(p).Failure? ==> r == Failure(RuntimeError))
      && (f.present && LowerSuffix(f) == ".doc" && SelectMethod(p).Success? ==>
            (r.Success? <==> SelectMethod(p).value in f.doc))
      && (r.Success? ==>
            && SelectMethod(p).Success?
            && r.value.text == f.doc[SelectMethod(p).value]
            && r.value.metadata["source"] == Str(f.name)
            && r.value.metadata["format"] == Str("doc (legacy)")
            && r.value.metadata["extraction_method"] == Str(MethodName(SelectMethod(p).value)))
      && (r.Failure? && f.present && LowerSuffix(f) == ".doc" ==> r.error == RuntimeError)
  {
    var r := LoadDoc(p, f);
    if f.present && LowerSuffix(f) == ".doc" && SelectMethod(p).Success? {
      var m := SelectMethod(p).value;
      assert r == if m in f.doc then Success(Loaded(f.doc[m], DocMetadata(f, m))) else Failure(RuntimeError);
    }
  }

  /** A collapsed string holds no newline. */
  lemma CollapsedHasNoNewline(cc: CharClasses, text: string)
    requires WellFormed(cc)
    ensures '\n' !in CollapseSpaces(cc, text)
  {
    CollapseSpec(cc, text);
  }

  /** The string the control-character filter receives. */
  function Allowed(cc: CharClasses, text: string): string
    requires WellFormed(cc)
  {
    var collapsed := CollapseSpaces(cc, text);
    CollapsedHasNoNewline(cc, text);
    KeepAllowed(cc, Punct, DropDigitLine(cc, collapsed))
  }

  /** `clean_text`: collapse whitespace, empty a text that is a lone
      number, apply the allow-list, drop control characters (keeping
      newline and tab), strip. */
  function CleanText(cc: CharClasses, text: string): string
    requires WellFormed(cc)
  {
    Strip(cc, DropControl(Allowed(cc, text)))
  }

  /** The control-character filter finds nothing to drop: the allow-list
      has already removed every control character. */
  lemma ControlFilterKeeps(cc: CharClasses, text: string)
    requires WellFormed(cc)
    ensures DropControl(Allowed(cc, text)) == Allowed(cc, text)
    ensures Prepared(cc, Punct, Allowed(cc, text))
  {
    var x := Allowed(cc, text);
    CollapsedAllowed(cc, Punct, text);
    forall c | c in x ensures NotControl(c) {
      if c in Punct {
        var i :| 0 <= i < |Punct| && Punct[i] == c;
      }
    }
    DropControlKeeps(x);
  }

  /** The cleaned text is in clean form, holds no control character, and
      unless the collapsed text is a lone number keeps, in order, every
      non-whitespace character of the input the allow-list keeps; a lone
      number cleans to nothing. */
  lemma CleanTextSpec(cc: CharClasses, text: string)
    requires WellFormed(cc)
    ensures CleanForm(cc, Punct, CleanText(cc, text))
    ensures forall c :: c in CleanText(cc, text) ==> NotControl(c)
    ensures !DigitLine(cc, CollapseSpaces(cc, text)) ==>
      NonSpace(cc, CleanText(cc, text)) == KeepAllowed(cc, Punct, NonSpace(cc, text))
    ensures DigitLine(cc, text) ==> CleanText(cc, text) == ""
  {
    var x := Allowed(cc, text);
    ControlFilterKeeps(cc, text);
    StripPrepared(cc, Punct, x);
    StripSpec(cc, x);
    CollapsedAllowed(cc, Punct, text);
    NonSpaceStrip(cc, x);
    if DigitLine(cc, text) {
      CollapseDigitLine(cc, text);
    }
  }

  /** `chunk_text`: clean, then run the chunking loop. */
  method ChunkText(cc: CharClasses, cfg: Config, text: string, metadata: Metadata) returns (chunks: seq<Chunk>)
    requires WellFormed(cc) && ValidConfig(cfg)
    ensures chunks == Chunks(cc, cfg, CleanText(cc, text), metadata)
  {
    var cleaned := CleanText(cc, text);
    chunks := ChunkCleaned(cc, cfg, cleaned, metadata);
  }

  /** `process_document`: load, then chunk. */
  function ProcessDocument(cc: CharClasses, p: Processor, f: FileEntry): Result<seq<Chunk>>
    requires WellFormed(cc) && ValidConfig(p.cfg)
  {
    match LoadDoc(p, f)
    case Failure(e) => Failure(e)
    case Success(l) => Success(Chunks(cc, p.cfg, CleanText(cc, l.text), l.metadata))
  }

  /** Every chunk of a processed file names the file as its source and
      the extractor that read it. */
  lemma ProcessDocumentSource(cc: CharClasses, p: Processor, f: FileEntry)
    requires WellFormed(cc) && ValidConfig(p.cfg)
    ensures ProcessDocument(cc, p, f).Failure? <==> LoadDoc(p, f).Failure?
    ensures ProcessDocument(cc, p, f).Success? ==>
      forall c :: c in ProcessDocument(cc, p, f).value ==>
        && "source" in c.Metadata() && c.Metadata()["source"] == Str(f.name)
        && "extraction_method" in c.Metadata() && c.Metadata()["extraction_method"] == Str(MethodName(SelectMethod(p).value))
  {
    if LoadDoc(p, f).Success? {
      var l := LoadDoc(p, f).value;
      LoadDocSpec(p, f);
      ChunksInherit(cc, p.cfg, CleanText(cc, l.text), l.metadata, "source");
      ChunksInherit(cc, p.cfg, CleanText(cc, l.text), l.metadata, "extraction_method");
    }
  }

  /** The per-file step of `process_directory`. */
  function Process(cc: CharClasses, p: Processor): (process: FileEntry --> Result<seq<Chunk>>)
    requires WellFormed(cc) && ValidConfig(p.cfg)
    ensures forall f :: process.requires(f) && process(f) == ProcessDocument(cc, p, f)
  {
    f requires WellFormed(cc) && ValidConfig(p.cfg) => ProcessDocument(cc, p, f)
  }

  /** The names of the files whose outcome is a failure, in order. */
  function FailedNames(files: seq<FileEntry>, outcomes: seq<Result<seq<Chunk>>>): seq<string>
    requires |files| == |outcomes|
  {
    if files == [] then []
    else
      var k := |files| - 1;
      FailedNames(files[..k], outcomes[..k]) + (if outcomes[k].Failure? then [files[k].name] else [])
  }

  /** `process_directory` over the files `glob("*.doc")` lists: a missing
      directory raises FileNotFoundError; otherwise only the files whose
      lower-cased suffix is `.doc` are processed, the chunks of those that
      do not raise are concatenated in order, and the names of those that
      raise are recorded. */
  method ProcessDirectory(cc: CharClasses, p: Processor, directoryPresent: bool, globbed: seq<FileEntry>)
    returns (r: Result<seq<Chunk>>, failedFiles: seq<string>)
    requires WellFormed(cc) && ValidConfig(p.cfg)
    ensures !directoryPresent ==> r == Failure(FileNotFoundError) && failedFiles == []
    ensures directoryPresent ==>
      var files := DocOnly(globbed);
      var outcomes := Outcomes(Process(cc, p), files);
      r == Success(Collected(outcomes)) && failedFiles == FailedNames(files, outcomes)
  {
    failedFiles := [];
    if !directoryPresent {
      return Failure(FileNotFoundError), [];
    }
    var files := DocOnly(globbed);
    if files == [] {
      return Success([]), [];
    }
    ghost var outcomes := Outcomes(Process(cc, p), files);
    var allChunks: seq<Chunk> := [];
    var i := 0;
    while i < |files|
      invariant 0 <= i <= |files|
      invariant allChunks == Collected(outcomes[..i])
      invariant failedFiles == FailedNames(files[..i], outcomes[..i])
    {
      var outcome := ProcessOne(cc, p, files[i]);
      assert outcome == outcomes[i];
      CollectedStep(outcomes, i);
      FailedNamesStep(files, outcomes, i);
      if outcome.Success? {
        allChunks := allChunks + outcome.value;
      } else {
        failedFiles := failedFiles + [files[i].name];
      }
      i := i + 1;
    }
    assert outcomes[..i] == outcomes;
    assert files[..i] == files;
    r := Success(allChunks);
  }

  /** `process_document` inside the directory loop's `try`. */
  method ProcessOne(cc: CharClasses, p: Processor, f: FileEntry) returns (r: Result<seq<Chunk>>)
    requires WellFormed(cc) && ValidConfig(p.cfg)
    ensures r == ProcessDocument(cc, p, f)
  {
    var loaded := LoadDoc(p, f);
    if loaded.Failure? {
      return Failure(loaded.error);
    }
    var chunks := ChunkText(cc, p.cfg, loaded.value.text, loaded.value.metadata);
    r := Success(chunks);
  }

  /** One more file's outcome. */
  lemma FailedNamesStep(files: seq<FileEntry>, outcomes: seq<Result<seq<Chunk>>>, i: nat)
    requires |files| == |outcomes| && i < |files|
    ensures FailedNames(files[..i + 1], outcomes[..i + 1])
         == FailedNames(files[..i], outcomes[..i]) + (if outcomes[i].Failure? then [files[i].name] else [])
  {
    assert files[..i + 1][..i] == files[..i] && outcomes[..i + 1][..i] == outcomes[..i];
  }

  /** The recorded names are exactly those of the files whose outcome is
      a failure, and there are as many as failing outcomes. */
  lemma {:induction false} FailedNamesSpec(files: seq<FileEntry>, outcomes: seq<Result<seq<Chunk>>>)
    requires |files| == |outcomes|
    ensures forall n :: n in FailedNames(files, outcomes) ==>
      exists i :: 0 <= i < |files| && files[i].name == n && outcomes[i].Failure?
    ensures forall i :: 0 <= i < |files| && outcomes[i].Failure? ==> files[i].name in FailedNames(files, outcomes)
    ensures |FailedNames(files, outcomes)| <= |files|
  {
    if files != [] {
      var k := |files| - 1;
      FailedNamesSpec(files[..k], outcomes[..k]);
      assert forall i :: 0 <= i < k ==> files[..k][i] == files[i] && outcomes[..k][i] == outcomes[i];
    }
  }
}

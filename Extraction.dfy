/** What the loaders of the four processors share: the inputs that stand
    for a file and for what the parsing backends make of it, the errors a
    load can end in, the assembly of PDF page text and of DOCX paragraph
    and table text, and the skip-on-failure concatenation of
    `process_directory`. */
module Extraction {
  import opened Text
  import opened Chunking

  /** The exceptions a processor raises: `FileNotFoundError`,
      `ValueError`, `RuntimeError`, `ImportError` (a required library is
      missing when the processor is built), or an exception raised inside a
      parsing backend and passed on unchanged. */
  datatype Error = FileNotFoundError | ValueError | RuntimeError | ImportError | ExtractorError

  datatype Result<T> = Success(value: T) | Failure(error: Error)

  /** A loader's `(text, metadata)` pair. */
  datatype Loaded = Loaded(text: string, metadata: Metadata)

  /** A PDF as pypdf reads it: per page, the text `extract_text()` returns,
      or None when that call raises; and the document information
      dictionary, empty when the file has none. */
  datatype PdfSource = PdfSource(pages: seq<Option<string>>, info: map<string, string>)

  /** A paragraph as python-docx reads it: its text and style name. */
  datatype Paragraph = Paragraph(text: string, style: string)

  /** A table is a list of rows, a row a list of cell texts. */
  type Table = seq<seq<string>>

  /** The core properties of a Word document; an absent title, author or
      subject is the empty string, an absent date None. */
  datatype DocProps = DocProps(title: string, author: string, subject: string, created: Option<string>, modified: Option<string>)

  datatype DocxSource = DocxSource(paragraphs: seq<Paragraph>, tables: seq<Table>, props: DocProps)

  /** The four ways of extracting text from a legacy `.doc` file. */
  datatype DocMethod = Antiword | Textract | Win32com | LibreOffice

  function MethodName(m: DocMethod): string
  {
    match m
    case Antiword => "antiword"
    case Textract => "textract"
    case Win32com => "win32com"
    case LibreOffice => "libreoffice"
  }

  lemma MethodNameInjective(m: DocMethod, n: DocMethod)
    ensures MethodName(m) == MethodName(n) <==> m == n
  {
  }

  /** What the availability probes of the processors find: the
      programs that run successfully with a version flag (`antiword -v`,
      `libreoffice --version`, ...), the Python modules that import, and
      whether `sys.platform` is `'win32'`. */
  datatype Environment = Environment(runnable: set<string>, importable: set<string>, win32: bool)

  /** The `.doc` extractors both the legacy and the unified processor
      probe for, in their order: antiword, textract, and win32com on
      Windows only. */
  function ProbedDocMethods(env: Environment): (ms: seq<DocMethod>)
  {
    (if "antiword" in env.runnable then [Antiword] else [])
    + (if "textract" in env.importable then [Textract] else [])
    + (if env.win32 && "win32com.client" in env.importable then [Win32com] else [])
  }

  /** Each probed extractor is listed exactly when its probe succeeds,
      never twice, never LibreOffice, and in the order antiword, textract,
      win32com. */
  lemma ProbedDocMethodsSpec(env: Environment)
    ensures var ms := ProbedDocMethods(env);
      && (Antiword in ms <==> "antiword" in env.runnable)
      && (Textract in ms <==> "textract" in env.importable)
      && (Win32com in ms <==> env.win32 && "win32com.client" in env.importable)
      && LibreOffice !in ms
      && (forall i, j :: 0 <= i < j < |ms| ==> Rank(ms[i]) < Rank(ms[j]))
  {
  }

  /** The position of an extractor in the probing order. */
  function Rank(m: DocMethod): nat
  {
    match m
    case Antiword => 0
    case Textract => 1
    case Win32com => 2
    case LibreOffice => 3
  }

  /** One file as the loaders see it: its name (`file_path.name`), its
      path (`str(file_path)`), whether it exists, and what each backend
      makes of it. `pdf` and `docx` are None when pypdf or python-docx
      raise on it; `doc` maps each `.doc` extractor that succeeds on it to
      the text it returns; `props` are the properties Word reports. */
  datatype FileEntry = FileEntry(
    name: string, path: string, present: bool,
    pdf: Option<PdfSource>, docx: Option<DocxSource>, doc: map<DocMethod, string>, props: DocProps)

  /** `file_path.suffix.lower()`. */
  function LowerSuffix(f: FileEntry): string
  {
    Lower(Suffix(f.name))
  }

  // ---------------------------------------------------------------------
  // PDF pages

  /** The text part of page number `n` (counted from 1). */
  function PageMarker(n: nat, text: string): string
  {
    "\n[Page " + NatToString(n) + "]\n" + text
  }

  /** Whether page text is kept: Python's `if page_text:`. */
  predicate KeptPage(p: Option<string>)
  {
    p.Some? && p.value != ""
  }

  /** The parts the page loop collects from `pages`: one marker per page
      with non-empty text, numbered by the page's position from 1, so that
      skipped pages still count. */
  function PageParts(pages: seq<Option<string>>): seq<string>
  {
    if pages == [] then []
    else
      var n := |pages|;
      PageParts(pages[..n - 1]) + (if KeptPage(pages[n - 1]) then [PageMarker(n, pages[n - 1].value)] else [])
  }

  /** Every part is the marker of a kept page, and every kept page has its
      marker among the parts. */
  lemma {:induction false} PagePartsSpec(pages: seq<Option<string>>)
    ensures forall part :: part in PageParts(pages) ==>
      exists i :: 0 <= i < |pages| && KeptPage(pages[i]) && part == PageMarker(i + 1, pages[i].value)
    ensures forall i :: 0 <= i < |pages| && KeptPage(pages[i]) ==> PageMarker(i + 1, pages[i].value) in PageParts(pages)
  {
    if pages != [] {
      var m := |pages| - 1;
      PagePartsSpec(pages[..m]);
      assert forall i :: 0 <= i < m ==> pages[..m][i] == pages[i];
    }
  }

  /** Markers of different pages differ, as their page numbers do. */
  lemma PageMarkersDistinct(n: nat, m: nat, s: string, t: string)
    requires PageMarker(n, s) == PageMarker(m, t)
    ensures n == m && s == t
  {
    var pre := "\n[Page ";
    var x, y := NatToString(n) + "]\n" + s, NatToString(m) + "]\n" + t;
    assert PageMarker(n, s) == pre + x && PageMarker(m, t) == pre + y;
    assert x == (pre + x)[|pre|..] && y == (pre + y)[|pre|..];
    assert x == NatToString(n) + "]" + ("\n" + s) && y == NatToString(m) + "]" + ("\n" + t);
    DigitsThenBracket(NatToString(n), "\n" + s, NatToString(m), "\n" + t);
    NatToStringInjective(n, m);
    assert s == ("\n" + s)[1..] && t == ("\n" + t)[1..];
  }

  /** The page loop: collect the parts of the pages in order and join them
      with newlines. When `skipFailed` is true a page whose extraction
      raises is skipped (the loop of `load_pdf`); otherwise the exception
      propagates and the load fails (the loop of `_load_pdf`). */
  method AssemblePages(pages: seq<Option<string>>, skipFailed: bool) returns (r: Result<string>)
    ensures (skipFailed || forall i :: 0 <= i < |pages| ==> pages[i].Some?) ==> r == Success(Join("\n", PageParts(pages)))
    ensures !skipFailed && (exists i :: 0 <= i < |pages| && pages[i].None?) ==> r == Failure(ExtractorError)
  {
    var textParts: seq<string> := [];
    var i := 0;
    while i < |pages|
      invariant 0 <= i <= |pages|
      invariant textParts == PageParts(pages[..i])
      invariant !skipFailed ==> forall j :: 0 <= j < i ==> pages[j].Some?
    {
      assert pages[..i + 1][..i] == pages[..i];
      if pages[i].None? {
        if !skipFailed {
          return Failure(ExtractorError);
        }
      } else if pages[i].value != "" {
        textParts := textParts + [PageMarker(i + 1, pages[i].value)];
      }
      i := i + 1;
    }
    assert pages[..i] == pages;
    r := Success(Join("\n", textParts));
  }

  // ---------------------------------------------------------------------
  // DOCX paragraphs and tables

  /** The part a paragraph contributes: none when its text is blank, the
      text set off as a `##` heading when its style name starts with
      "Heading", the text itself otherwise. */
  function ParagraphPart(cc: CharClasses, p: Paragraph): seq<string>
  {
    if Strip(cc, p.text) == [] then []
    else if StartsWith(p.style, "Heading") then ["\n## " + p.text + "\n"]
    else [p.text]
  }

  function ParagraphParts(cc: CharClasses, ps: seq<Paragraph>): seq<string>
  {
    if ps == [] then [] else ParagraphParts(cc, ps[..|ps| - 1]) + ParagraphPart(cc, ps[|ps| - 1])
  }

  /** A row's text: its stripped cell texts joined by `" | "`. */
  function RowText(cc: CharClasses, cells: seq<string>): string
  {
    Join(" | ", seq(|cells|, i requires 0 <= i < |cells| => Strip(cc, cells[i])))
  }

  /** The part a row contributes: its text unless that is blank. */
  function RowPart(cc: CharClasses, cells: seq<string>): seq<string>
  {
    if Strip(cc, RowText(cc, cells)) == [] then [] else [RowText(cc, cells)]
  }

  function RowParts(cc: CharClasses, rows: seq<seq<string>>): seq<string>
  {
    if rows == [] then [] else RowParts(cc, rows[..|rows| - 1]) + RowPart(cc, rows[|rows| - 1])
  }

  function TableParts(cc: CharClasses, tables: seq<Table>): seq<string>
  {
    if tables == [] then [] else TableParts(cc, tables[..|tables| - 1]) + RowParts(cc, tables[|tables| - 1])
  }

  /** A paragraph contributes exactly when its text is not blank, and a
      heading carries its text between the `##` marker and a newline. */
  lemma ParagraphPartSpec(cc: CharClasses, p: Paragraph)
    ensures ParagraphPart(cc, p) != [] <==> !Blank(cc, p.text)
    ensures ParagraphPart(cc, p) != [] ==> ParagraphPart(cc, p) == [if StartsWith(p.style, "Heading") then "\n## " + p.text + "\n" else p.text]
  {
    StripSpec(cc, p.text);
  }

  /** A row is dropped only when it has no cell, or one blank cell: with
      two cells or more the joined text holds a `|`, which is not
      whitespace, so even a row of empty cells is kept. */
  lemma RowPartSpec(cc: CharClasses, cells: seq<string>)
    requires WellFormed(cc)
    ensures RowPart(cc, cells) == [] <==> |cells| == 0 || (|cells| == 1 && Blank(cc, cells[0]))
  {
    var stripped := seq(|cells|, i requires 0 <= i < |cells| => Strip(cc, cells[i]));
    var t := RowText(cc, cells);
    StripSpec(cc, t);
    if |cells| == 1 {
      StripSpec(cc, cells[0]);
      StripSpec(cc, stripped[0]);
      if Blank(cc, stripped[0]) {
        assert stripped[0] == [];
      }
    } else if |cells| >= 2 {
      assert t == stripped[0] + " | " + Join(" | ", stripped[1..]);
      assert '|' in t by {
        assert t[|stripped[0]| + 1] == '|';
      }
      assert !Blank(cc, t);
    }
  }

  /** The DOCX text loops: the parts of the non-blank paragraphs in
      order, then those of the non-blank rows of every table in order,
      joined with newlines. */
  method AssembleDocx(cc: CharClasses, paragraphs: seq<Paragraph>, tables: seq<Table>) returns (text: string)
    ensures text == Join("\n", ParagraphParts(cc, paragraphs) + TableParts(cc, tables))
  {
    var paragraphParts := CollectParagraphs(cc, paragraphs);
    var tableParts := CollectTables(cc, tables);
    text := Join("\n", paragraphParts + tableParts);
  }

  /** The paragraph loop of the DOCX loaders. */
  method CollectParagraphs(cc: CharClasses, paragraphs: seq<Paragraph>) returns (textParts: seq<string>)
    ensures textParts == ParagraphParts(cc, paragraphs)
  {
    textParts := [];
    var i := 0;
    while i < |paragraphs|
      invariant 0 <= i <= |paragraphs|
      invariant textParts == ParagraphParts(cc, paragraphs[..i])
    {
      assert paragraphs[..i + 1][..i] == paragraphs[..i];
      var paragraph := paragraphs[i];
      if Strip(cc, paragraph.text) != [] {
        if StartsWith(paragraph.style, "Heading") {
          textParts := textParts + ["\n## " + paragraph.text + "\n"];
        } else {
          textParts := textParts + [paragraph.text];
        }
      }
      i := i + 1;
    }
    assert paragraphs[..i] == paragraphs;
  }

  /** The table loop of the DOCX loaders: table by table, the rows of
      each (the inner loop is CollectRows). */
  method CollectTables(cc: CharClasses, tables: seq<Table>) returns (textParts: seq<string>)
    ensures textParts == TableParts(cc, tables)
  {
    textParts := [];
    var t := 0;
    while t < |tables|
      invariant 0 <= t <= |tables|
      invariant textParts == TableParts(cc, tables[..t])
    {
      assert tables[..t + 1][..t] == tables[..t];
      assert TableParts(cc, tables[..t + 1]) == TableParts(cc, tables[..t]) + RowParts(cc, tables[t]);
      var rowParts := CollectRows(cc, tables[t]);
      textParts := textParts + rowParts;
      t := t + 1;
    }
    assert tables[..t] == tables;
  }

  /** The row loop of one table: the text of every non-blank row. */
  method CollectRows(cc: CharClasses, rows: Table) returns (textParts: seq<string>)
    ensures textParts == RowParts(cc, rows)
  {
    textParts := [];
    var j := 0;
    while j < |rows|
      invariant 0 <= j <= |rows|
      invariant textParts == RowParts(cc, rows[..j])
    {
      assert rows[..j + 1][..j] == rows[..j];
      var rowText := RowText(cc, rows[j]);
      if Strip(cc, rowText) != [] {
        textParts := textParts + [rowText];
      }
      j := j + 1;
    }
    assert rows[..j] == rows;
  }

  // ---------------------------------------------------------------------
  // Directory processing

  /** `[f for f in files if f.suffix.lower() == '.doc']`: the filter the
      `.doc` directory walks apply to what `glob("*.doc")` lists. */
  function DocOnly(files: seq<FileEntry>): (r: seq<FileEntry>)
    ensures forall f :: f in r <==> f in files && LowerSuffix(f) == ".doc"
  {
    if files == [] then []
    else
      var rest := DocOnly(files[1..]);
      assert forall f :: f in files <==> f == files[0] || f in files[1..];
      if LowerSuffix(files[0]) == ".doc" then [files[0]] + rest else rest
  }

  /** The chunks `process_directory` collects from the per-file outcomes,
      in file order: a file that raised contributes nothing. */
  function Collected(outcomes: seq<Result<seq<Chunk>>>): seq<Chunk>
  {
    if outcomes == [] then []
    else
      var last := outcomes[|outcomes| - 1];
      Collected(outcomes[..|outcomes| - 1]) + (if last.Success? then last.value else [])
  }

  /** The outcome of `process` on each file, in file order. */
  function Outcomes(process: FileEntry --> Result<seq<Chunk>>, files: seq<FileEntry>): (o: seq<Result<seq<Chunk>>>)
    requires forall f :: process.requires(f)
    ensures |o| == |files| && forall i :: 0 <= i < |files| ==> o[i] == process(files[i])
  {
    seq(|files|, i requires 0 <= i < |files| => process(files[i]))
  }

  /** The outcomes of two lists of files, one after the other. */
  lemma OutcomesAppend(process: FileEntry --> Result<seq<Chunk>>, u: seq<FileEntry>, v: seq<FileEntry>)
    requires forall f :: process.requires(f)
    ensures Outcomes(process, u + v) == Outcomes(process, u) + Outcomes(process, v)
  {
    var o := Outcomes(process, u + v);
    var ou := Outcomes(process, u);
    var ov := Outcomes(process, v);
    forall i | 0 <= i < |u| + |v|
      ensures o[i] == (ou + ov)[i]
    {
      if i < |u| {
        assert (u + v)[i] == u[i];
      } else {
        assert (u + v)[i] == v[i - |u|];
      }
    }
  }

  /** One more file's outcome. */
  lemma CollectedStep(outcomes: seq<Result<seq<Chunk>>>, i: nat)
    requires i < |outcomes|
    ensures Collected(outcomes[..i + 1]) == Collected(outcomes[..i]) + (if outcomes[i].Success? then outcomes[i].value else [])
  {
    assert outcomes[..i + 1][..i] == outcomes[..i];
  }

  /** Collecting from two lists of files, one after the other, gives the
      two collections one after the other. */
  lemma {:induction false} CollectedAppend(a: seq<Result<seq<Chunk>>>, b: seq<Result<seq<Chunk>>>)
    ensures Collected(a + b) == Collected(a) + Collected(b)
    decreases |b|
  {
    if b == [] {
      assert a + b == a;
    } else {
      var n := |b| - 1;
      assert (a + b)[..|a + b| - 1] == a + b[..n];
      CollectedAppend(a, b[..n]);
    }
  }

  /** A file that failed adds nothing; one that succeeded adds its chunks
      at its place. */
  lemma CollectedAround(a: seq<Result<seq<Chunk>>>, o: Result<seq<Chunk>>, b: seq<Result<seq<Chunk>>>)
    ensures Collected(a + [o] + b) == Collected(a) + (if o.Success? then o.value else []) + Collected(b)
  {
    CollectedAppend(a + [o], b);
    assert (a + [o])[..|a|] == a;
  }

  /** When every file fails, nothing is collected. */
  lemma {:induction false} CollectedAllFail(outcomes: seq<Result<seq<Chunk>>>)
    requires forall i :: 0 <= i < |outcomes| ==> outcomes[i].Failure?
    ensures Collected(outcomes) == []
  {
    if outcomes != [] {
      CollectedAllFail(outcomes[..|outcomes| - 1]);
    }
  }
}

/** The overlapping, sentence-snapping chunker shared by the four document
    processors: the loop of `chunk_text` that runs after its call to
    `clean_text`. The loop itself is the method ChunkCleaned; Run and Pass
    define, by recursion on the cursor, the chunks it returns, and the
    lemmas below state what those chunks satisfy. */
module Chunking {
  import opened Text

  /** A metadata value: the processors store strings and integers. */
  datatype Value = Str(s: string) | Int(i: int)

  type Metadata = map<string, Value>

  /** `DocumentChunk`: the text, the document metadata it inherits, its
      number and the character range of the slice it was cut from. */
  datatype Chunk = Chunk(text: string, inherited: Metadata, chunkId: nat, startChar: nat, endChar: nat)
  {
    /** `metadata.copy()` updated with `chunk_index`, `start_char`,
        `end_char` and `chunk_size`: the four numbers are those of the
        chunk and every other key keeps the document's value. */
    function Metadata(): (m: Metadata)
      ensures m.Keys == inherited.Keys + {"chunk_index", "start_char", "end_char", "chunk_size"}
      ensures m["chunk_index"] == Int(chunkId) && m["start_char"] == Int(startChar)
      ensures m["end_char"] == Int(endChar) && m["chunk_size"] == Int(|text|)
      ensures forall k :: k in inherited && k != "chunk_index" && k != "start_char" && k != "end_char" && k != "chunk_size"
                ==> m[k] == inherited[k]
    {
      inherited["chunk_index" := Int(chunkId)]["start_char" := Int(startChar)]["end_char" := Int(endChar)]["chunk_size" := Int(|text|)]
    }
  }

  /** The three constructor parameters of a processor (defaults 1000, 200
      and 100). */
  datatype Config = Config(chunkSize: int, chunkOverlap: int, minChunkSize: int)

  /** The parameters for which the chunking loop provably terminates: the
      cursor moves forward after a plain cut (`chunkOverlap < chunkSize`)
      and after a cut snapped to the earliest possible sentence end, which
      lies at least two characters past the search window's start. The
      defaults 1000/200/100 satisfy it. */
  predicate ValidConfig(cfg: Config)
  {
    && 0 < cfg.chunkSize
    && cfg.chunkOverlap < cfg.chunkSize
    && cfg.chunkOverlap < Max(cfg.chunkSize - 100, 0) + 2
  }

  /** Checking the parameters when a processor is built, the remedy for
      the loop that never ends (see StuckCursor): only configurations for
      which CursorAdvances holds are accepted. */
  function NewConfig(chunkSize: int, chunkOverlap: int, minChunkSize: int): (r: Option<Config>)
    ensures r.Some? <==> ValidConfig(Config(chunkSize, chunkOverlap, minChunkSize))
    ensures r.Some? ==> r.value == Config(chunkSize, chunkOverlap, minChunkSize)
  {
    var cfg := Config(chunkSize, chunkOverlap, minChunkSize);
    if ValidConfig(cfg) then Some(cfg) else None
  }

  // ---------------------------------------------------------------------
  // Sentence ends in a search window: the matches of `[.!?]\s+`

  predicate Terminator(c: char)
  {
    c == '.' || c == '!' || c == '?'
  }

  /** A match of `[.!?]\s+` can start at position `p` of `w`. */
  predicate BreakAt(cc: CharClasses, w: string, p: int)
  {
    0 <= p && p + 1 < |w| && Terminator(w[p]) && w[p + 1] in cc.space
  }

  /** Where the match starting at a break ends: `\s+` is greedy. */
  function RunEnd(cc: CharClasses, w: string, p: nat): (e: nat)
    requires BreakAt(cc, w, p)
    ensures p + 2 <= e <= |w|
  {
    SkipSpaces(cc, w, p + 1)
  }

  /** The ends of the matches `re.finditer(r'[.!?]\s+', w)` reports when
      scanning from position `i`: left to right, each search resuming where
      the previous match ended. */
  function MatchEnds(cc: CharClasses, w: string, i: nat): seq<nat>
    decreases |w| - i
  {
    if i + 1 >= |w| then []
    else if BreakAt(cc, w, i) then [RunEnd(cc, w, i)] + MatchEnds(cc, w, RunEnd(cc, w, i))
    else MatchEnds(cc, w, i + 1)
  }

  /** The last break before `hi`. */
  function LastBreak(cc: CharClasses, w: string, hi: nat): (r: Option<nat>)
    ensures r.Some? ==> r.value < hi && BreakAt(cc, w, r.value)
  {
    if hi == 0 then None
    else if BreakAt(cc, w, hi - 1) then Some(hi - 1)
    else LastBreak(cc, w, hi - 1)
  }

  /** LastBreak finds the last break: there is none after it, and none at
      all when it finds nothing. */
  lemma {:induction false} LastBreakIsLast(cc: CharClasses, w: string, hi: nat)
    ensures LastBreak(cc, w, hi).None? ==> forall q :: 0 <= q < hi ==> !BreakAt(cc, w, q)
    ensures LastBreak(cc, w, hi).Some? ==> forall q :: LastBreak(cc, w, hi).value < q < hi ==> !BreakAt(cc, w, q)
  {
    if hi > 0 && !BreakAt(cc, w, hi - 1) {
      LastBreakIsLast(cc, w, hi - 1);
    }
  }

  /** A break with no break after it below `hi` is the one LastBreak finds. */
  lemma {:induction false} LastBreakFound(cc: CharClasses, w: string, hi: nat, p: nat)
    requires p < hi && BreakAt(cc, w, p)
    requires forall q :: p < q < hi ==> !BreakAt(cc, w, q)
    ensures LastBreak(cc, w, hi) == Some(p)
  {
    if hi - 1 != p {
      LastBreakFound(cc, w, hi - 1, p);
    }
  }

  /** The end of the last sentence ending in `w`, in closed form: the
      whitespace run after the last terminator that is followed by
      whitespace. */
  function LastSentenceEnd(cc: CharClasses, w: string): (r: Option<nat>)
    ensures r.Some? ==> 2 <= r.value <= |w|
  {
    match LastBreak(cc, w, |w|)
    case None => None
    case Some(p) => Some(RunEnd(cc, w, p))
  }

  /** A sentence end follows whitespace and is not followed by more, and
      there is none exactly when `w` holds no terminator followed by
      whitespace. */
  lemma SentenceEndShape(cc: CharClasses, w: string)
    ensures LastSentenceEnd(cc, w).None? <==> forall q :: 0 <= q < |w| ==> !BreakAt(cc, w, q)
    ensures LastSentenceEnd(cc, w).Some? ==>
      var e := LastSentenceEnd(cc, w).value;
      w[e - 1] in cc.space && (e == |w| || w[e] !in cc.space)
  {
    LastBreakIsLast(cc, w, |w|);
    match LastBreak(cc, w, |w|)
    case None =>
    case Some(p) =>
      SkipSpacesRun(cc, w, p + 1);
  }

  /** The scan finds every break from `i` on: a break never lies inside an
      earlier match, because a match continues only over whitespace and a
      terminator is not whitespace. So the last match the scan reports ends
      where LastSentenceEnd says. */
  lemma {:induction false} MatchEndsLast(cc: CharClasses, w: string, i: nat)
    requires WellFormed(cc)
    ensures var ends := MatchEnds(cc, w, i);
      && (ends == [] <==> forall q :: i <= q < |w| ==> !BreakAt(cc, w, q))
      && (ends != [] ==> LastBreak(cc, w, |w|).Some? && ends[|ends| - 1] == RunEnd(cc, w, LastBreak(cc, w, |w|).value))
    decreases |w| - i
  {
    var ends := MatchEnds(cc, w, i);
    if i + 1 >= |w| {
    } else if BreakAt(cc, w, i) {
      var e := RunEnd(cc, w, i);
      NoBreakInRun(cc, w, i);
      MatchEndsLast(cc, w, e);
      var rest := MatchEnds(cc, w, e);
      assert ends == [e] + rest;
      if rest == [] {
        assert forall q :: i < q < |w| ==> !BreakAt(cc, w, q);
        LastBreakFound(cc, w, |w|, i);
      }
    } else {
      MatchEndsLast(cc, w, i + 1);
    }
  }

  /** No break starts inside the whitespace run of a match. */
  lemma NoBreakInRun(cc: CharClasses, w: string, p: nat)
    requires WellFormed(cc) && BreakAt(cc, w, p)
    ensures forall q :: p < q < RunEnd(cc, w, p) ==> !BreakAt(cc, w, q)
  {
    SkipSpacesRun(cc, w, p + 1);
  }

  /** What `re.finditer` reports, reduced to what the loop uses: the end of
      the last match is LastSentenceEnd, and there is a match exactly when
      LastSentenceEnd finds one. */
  lemma LastMatchIsLastSentenceEnd(cc: CharClasses, w: string)
    requires WellFormed(cc)
    ensures var ends := MatchEnds(cc, w, 0);
      (ends == [] <==> LastSentenceEnd(cc, w).None?)
      && (ends != [] ==> LastSentenceEnd(cc, w) == Some(ends[|ends| - 1]))
  {
    MatchEndsLast(cc, w, 0);
    LastBreakIsLast(cc, w, |w|);
  }

  // ---------------------------------------------------------------------
  // One pass of the loop

  /** Python's `t[a:b]` for non-negative bounds. */
  function PySlice(t: string, a: nat, b: nat): (r: string)
    ensures a <= b <= |t| ==> r == t[a..b]
    ensures |r| <= |t|
  {
    var lo := Min(a, |t|);
    var hi := Max(Min(b, |t|), lo);
    t[lo..hi]
  }

  /** Where the slice that starts at `start` ends: `start + chunk_size`,
      moved, when that is inside the text, to the end of the last sentence
      ending in `text[max(start, end - 100) : end + 100]`. */
  function SliceEnd(cc: CharClasses, cfg: Config, t: string, start: nat): nat
    requires 0 < cfg.chunkSize
  {
    var end := start + cfg.chunkSize;
    if end < |t| then
      var searchStart := Max(start, end - 100);
      match LastSentenceEnd(cc, t[searchStart..Min(end + 100, |t|)])
      case Some(e) => searchStart + e
      case None => end
    else end
  }

  /** A cut inside the text is either `start + chunk_size` or a sentence
      end, which lies between two characters past the search window's
      start and the window's end, right after whitespace. */
  lemma SliceEndSnapped(cc: CharClasses, cfg: Config, t: string, start: nat)
    requires 0 < cfg.chunkSize && start + cfg.chunkSize < |t|
    ensures var end := SliceEnd(cc, cfg, t, start);
      || end == start + cfg.chunkSize
      || (&& Max(start, start + cfg.chunkSize - 100) + 2 <= end <= Min(start + cfg.chunkSize + 100, |t|)
          && t[end - 1] in cc.space)
  {
    var searchStart := Max(start, start + cfg.chunkSize - 100);
    WindowSentenceEnd(cc, t, searchStart, Min(start + cfg.chunkSize + 100, |t|));
  }

  /** A sentence end found in the window `t[lo..hi]` lies right after
      whitespace of `t`. */
  lemma WindowSentenceEnd(cc: CharClasses, t: string, lo: nat, hi: nat)
    requires lo <= hi <= |t|
    ensures var r := LastSentenceEnd(cc, t[lo..hi]);
      r.Some? ==> lo + r.value <= hi && t[lo + r.value - 1] in cc.space
  {
    var w := t[lo..hi];
    SentenceEndShape(cc, w);
    match LastSentenceEnd(cc, w)
    case None =>
    case Some(e) =>
      assert w[e - 1] == t[lo + e - 1];
  }

  /** Under ValidConfig the cursor strictly advances: `end -
      chunk_overlap` is past `start`, so it is also positive and the guard
      that resets the cursor to 1 never fires. */
  lemma CursorAdvances(cc: CharClasses, cfg: Config, t: string, start: nat)
    requires ValidConfig(cfg)
    ensures SliceEnd(cc, cfg, t, start) - cfg.chunkOverlap > start
  {
    if start + cfg.chunkSize < |t| {
      SliceEndSnapped(cc, cfg, t, start);
    }
  }

  /** One iteration's cut: `start + chunk_size`, snapped back to the last
      sentence end that `re.finditer` reports in the window around it, and
      the stripped text of the slice. */
  method NextCut(cc: CharClasses, cfg: Config, text: string, start: nat) returns (end: nat, chunkText: string)
    requires WellFormed(cc) && 0 < cfg.chunkSize
    ensures end == SliceEnd(cc, cfg, text, start)
    ensures chunkText == Strip(cc, PySlice(text, start, end))
  {
    end := start + cfg.chunkSize;
    if end < |text| {
      var searchStart := Max(start, end - 100);
      var searchText := text[searchStart..Min(end + 100, |text|)];
      var sentenceEndings := MatchEnds(cc, searchText, 0);
      LastMatchIsLastSentenceEnd(cc, searchText);
      if sentenceEndings != [] {
        end := searchStart + sentenceEndings[|sentenceEndings| - 1];
      }
    }
    chunkText := Strip(cc, PySlice(text, start, end));
  }

  // ---------------------------------------------------------------------
  // The whole loop

  /** The chunks the loop holds when it stops, from a state with cursor
      `start`, next chunk number `id` and chunks `acc` so far. */
  function Run(cc: CharClasses, cfg: Config, t: string, meta: Metadata, start: nat, id: nat, acc: seq<Chunk>): seq<Chunk>
    requires ValidConfig(cfg)
    decreases |t| - start, 1
  {
    if start >= |t| then acc else Pass(cc, cfg, t, meta, start, id, acc)
  }

  /** One pass of the loop body at a cursor inside the text, then the rest
      of the loop: the slice is cut, kept when its stripped text is long
      enough, and the cursor moves to `end - chunk_overlap`. */
  function Pass(cc: CharClasses, cfg: Config, t: string, meta: Metadata, start: nat, id: nat, acc: seq<Chunk>): seq<Chunk>
    requires ValidConfig(cfg) && start < |t|
    decreases |t| - start, 0
  {
    var end := SliceEnd(cc, cfg, t, start);
    CursorAdvances(cc, cfg, t, start);
    var text := Strip(cc, PySlice(t, start, end));
    if |text| >= cfg.minChunkSize then Run(cc, cfg, t, meta, end - cfg.chunkOverlap, id + 1, acc + [Chunk(text, meta, id, start, end)])
    else Run(cc, cfg, t, meta, end - cfg.chunkOverlap, id, acc)
  }

  /** The chunks of an already cleaned text. */
  function Chunks(cc: CharClasses, cfg: Config, t: string, meta: Metadata): seq<Chunk>
    requires ValidConfig(cfg)
  {
    Run(cc, cfg, t, meta, 0, 0, [])
  }

  /** The loop of `chunk_text`, run on text that is already cleaned. */
  method ChunkCleaned(cc: CharClasses, cfg: Config, text: string, metadata: Metadata) returns (chunks: seq<Chunk>)
    requires WellFormed(cc) && ValidConfig(cfg)
    ensures chunks == Chunks(cc, cfg, text, metadata)
  {
    chunks := [];
    var chunkId: nat := 0;
    var start: nat := 0;
    while start < |text|
      invariant Run(cc, cfg, text, metadata, start, chunkId, chunks) == Chunks(cc, cfg, text, metadata)
      decreases |text| - start
    {
      var end, chunkText := NextCut(cc, cfg, text, start);
      CursorAdvances(cc, cfg, text, start);
      if |chunkText| >= cfg.minChunkSize {
        chunks := chunks + [Chunk(chunkText, metadata, chunkId, start, end)];
        chunkId := chunkId + 1;
      }
      var next := end - cfg.chunkOverlap;
      if next <= 0 {
        next := 1;
      }
      start := next;
    }
  }

  // ---------------------------------------------------------------------
  // What the returned chunks satisfy

  /** A chunk the loop may emit from text `t`: it carries the document's
      metadata, its slice starts inside the text and is non-empty, its text
      is that slice stripped, and it is at least `min_chunk_size` long. */
  predicate Emitted(cc: CharClasses, cfg: Config, t: string, meta: Metadata, c: Chunk)
  {
    && c.inherited == meta
    && c.startChar < |t| && c.startChar < c.endChar
    && |c.text| >= cfg.minChunkSize
    && c.text == Strip(cc, PySlice(t, c.startChar, c.endChar))
  }

  /** Chunk numbers are the positions in the list: 0, 1, 2, ... */
  predicate Numbered(cs: seq<Chunk>)
  {
    forall i :: 0 <= i < |cs| ==> cs[i].chunkId == i
  }

  /** Start offsets strictly increase along the list. */
  predicate Increasing(cs: seq<Chunk>)
  {
    forall i, j :: 0 <= i < j < |cs| ==> cs[i].startChar < cs[j].startChar
  }

  /** What the loop keeps true of its state. */
  predicate RunState(cc: CharClasses, cfg: Config, t: string, meta: Metadata, start: nat, id: nat, acc: seq<Chunk>)
  {
    && id == |acc| && Numbered(acc) && Increasing(acc)
    && (forall i :: 0 <= i < |acc| ==> acc[i].startChar < start && Emitted(cc, cfg, t, meta, acc[i]))
  }

  lemma {:induction false} RunKeeps(cc: CharClasses, cfg: Config, t: string, meta: Metadata, start: nat, id: nat, acc: seq<Chunk>)
    requires ValidConfig(cfg) && RunState(cc, cfg, t, meta, start, id, acc)
    ensures var r := Run(cc, cfg, t, meta, start, id, acc);
      |acc| <= |r| && r[..|acc|] == acc && RunState(cc, cfg, t, meta, |t|, |r|, r)
    decreases |t| - start, 1
  {
    if start < |t| {
      PassKeeps(cc, cfg, t, meta, start, id, acc);
    } else {
      assert acc[..|acc|] == acc;
    }
  }

  lemma {:induction false} PassKeeps(cc: CharClasses, cfg: Config, t: string, meta: Metadata, start: nat, id: nat, acc: seq<Chunk>)
    requires ValidConfig(cfg) && start < |t| && RunState(cc, cfg, t, meta, start, id, acc)
    ensures var r := Pass(cc, cfg, t, meta, start, id, acc);
      |acc| <= |r| && r[..|acc|] == acc && RunState(cc, cfg, t, meta, |t|, |r|, r)
    decreases |t| - start, 0
  {
    var end := SliceEnd(cc, cfg, t, start);
    CursorAdvances(cc, cfg, t, start);
    var next := end - cfg.chunkOverlap;
    var text := Strip(cc, PySlice(t, start, end));
    if |text| >= cfg.minChunkSize {
      var c := Chunk(text, meta, id, start, end);
      EmitKeeps(cc, cfg, t, meta, start, next, id, acc, c);
      RunKeeps(cc, cfg, t, meta, next, id + 1, acc + [c]);
      var r := Run(cc, cfg, t, meta, next, id + 1, acc + [c]);
      assert Pass(cc, cfg, t, meta, start, id, acc) == r;
      PrefixOfPrefix(r, acc, c);
    } else {
      RunKeeps(cc, cfg, t, meta, next, id, acc);
      assert Pass(cc, cfg, t, meta, start, id, acc) == Run(cc, cfg, t, meta, next, id, acc);
    }
  }

  /** Appending an emitted chunk at the cursor keeps the loop's state. */
  lemma EmitKeeps(cc: CharClasses, cfg: Config, t: string, meta: Metadata, start: nat, next: nat, id: nat, acc: seq<Chunk>, c: Chunk)
    requires RunState(cc, cfg, t, meta, start, id, acc) && start < next
    requires Emitted(cc, cfg, t, meta, c) && c.startChar == start && c.chunkId == id
    ensures RunState(cc, cfg, t, meta, next, id + 1, acc + [c])
  {
  }

  lemma PrefixOfPrefix(r: seq<Chunk>, acc: seq<Chunk>, c: Chunk)
    requires |acc + [c]| <= |r| && r[..|acc + [c]|] == acc + [c]
    ensures |acc| <= |r| && r[..|acc|] == acc
  {
    assert r[..|acc|] == r[..|acc + [c]|][..|acc|];
  }

  /** The chunks of a cleaned text are numbered from 0 in order, start at
      strictly increasing offsets inside the text, carry the document's
      metadata, and each is its slice stripped and at least
      `min_chunk_size` long. */
  lemma ChunksProperties(cc: CharClasses, cfg: Config, t: string, meta: Metadata)
    requires ValidConfig(cfg)
    ensures var cs := Chunks(cc, cfg, t, meta);
      && Numbered(cs) && Increasing(cs)
      && forall i :: 0 <= i < |cs| ==> Emitted(cc, cfg, t, meta, cs[i])
  {
    RunKeeps(cc, cfg, t, meta, 0, 0, []);
  }

  /** Each chunk ends where its slice was cut, and the next chunk starts
      no earlier than `chunk_overlap` characters before that end: exactly
      there when every slice is kept, later when slices in between were
      dropped as too short. */
  predicate Overlapping(cc: CharClasses, cfg: Config, t: string, cs: seq<Chunk>)
    requires 0 < cfg.chunkSize
  {
    && (forall i :: 0 <= i < |cs| ==> cs[i].endChar == SliceEnd(cc, cfg, t, cs[i].startChar))
    && (forall i :: 0 <= i < |cs| - 1 ==>
          && cs[i + 1].startChar >= cs[i].endChar - cfg.chunkOverlap
          && (cfg.minChunkSize <= 0 ==> cs[i + 1].startChar == cs[i].endChar - cfg.chunkOverlap))
  }

  /** The cursor stands where the next chunk may start after the last one. */
  predicate CursorAfter(cfg: Config, cs: seq<Chunk>, start: int)
  {
    cs != [] ==>
      && start >= cs[|cs| - 1].endChar - cfg.chunkOverlap
      && (cfg.minChunkSize <= 0 ==> start == cs[|cs| - 1].endChar - cfg.chunkOverlap)
  }

  lemma {:induction false} RunOverlaps(cc: CharClasses, cfg: Config, t: string, meta: Metadata, start: nat, id: nat, acc: seq<Chunk>)
    requires ValidConfig(cfg) && Overlapping(cc, cfg, t, acc) && CursorAfter(cfg, acc, start)
    ensures Overlapping(cc, cfg, t, Run(cc, cfg, t, meta, start, id, acc))
    decreases |t| - start, 1
  {
    if start < |t| {
      PassOverlaps(cc, cfg, t, meta, start, id, acc);
    }
  }

  lemma {:induction false} PassOverlaps(cc: CharClasses, cfg: Config, t: string, meta: Metadata, start: nat, id: nat, acc: seq<Chunk>)
    requires ValidConfig(cfg) && start < |t| && Overlapping(cc, cfg, t, acc) && CursorAfter(cfg, acc, start)
    ensures Overlapping(cc, cfg, t, Pass(cc, cfg, t, meta, start, id, acc))
    decreases |t| - start, 0
  {
    var end := SliceEnd(cc, cfg, t, start);
    CursorAdvances(cc, cfg, t, start);
    var next := end - cfg.chunkOverlap;
    var text := Strip(cc, PySlice(t, start, end));
    if |text| >= cfg.minChunkSize {
      var c := Chunk(text, meta, id, start, end);
      AppendOverlaps(cc, cfg, t, acc, c, start);
      RunOverlaps(cc, cfg, t, meta, next, id + 1, acc + [c]);
      assert Pass(cc, cfg, t, meta, start, id, acc) == Run(cc, cfg, t, meta, next, id + 1, acc + [c]);
    } else {
      RunOverlaps(cc, cfg, t, meta, next, id, acc);
      assert Pass(cc, cfg, t, meta, start, id, acc) == Run(cc, cfg, t, meta, next, id, acc);
    }
  }

  /** Appending the chunk cut at the cursor keeps the chunks overlapping. */
  lemma AppendOverlaps(cc: CharClasses, cfg: Config, t: string, acc: seq<Chunk>, c: Chunk, start: nat)
    requires 0 < cfg.chunkSize && Overlapping(cc, cfg, t, acc) && CursorAfter(cfg, acc, start)
    requires c.startChar == start && c.endChar == SliceEnd(cc, cfg, t, start)
    ensures Overlapping(cc, cfg, t, acc + [c]) && CursorAfter(cfg, acc + [c], c.endChar - cfg.chunkOverlap)
  {
    var cs := acc + [c];
    forall i | 0 <= i < |cs| - 1
      ensures cs[i + 1].startChar >= cs[i].endChar - cfg.chunkOverlap
      ensures cfg.minChunkSize <= 0 ==> cs[i + 1].startChar == cs[i].endChar - cfg.chunkOverlap
    {
      if i + 1 == |acc| {
        assert cs[i] == acc[|acc| - 1];
      } else {
        assert cs[i] == acc[i] && cs[i + 1] == acc[i + 1];
      }
    }
  }

  /** The chunker's overlap: each chunk ends at the cut of its slice, and
      the next chunk starts at least `chunk_overlap` characters before that
      end is passed (at `end_char - chunk_overlap` or later), exactly there
      when no slice can be dropped (`min_chunk_size <= 0`). */
  lemma ChunksOverlap(cc: CharClasses, cfg: Config, t: string, meta: Metadata)
    requires ValidConfig(cfg)
    ensures var cs := Chunks(cc, cfg, t, meta);
      && (forall i :: 0 <= i < |cs| ==> cs[i].endChar == SliceEnd(cc, cfg, t, cs[i].startChar))
      && (forall i :: 0 <= i < |cs| - 1 ==> cs[i + 1].startChar >= cs[i].endChar - cfg.chunkOverlap)
      && (cfg.minChunkSize <= 0 ==>
            forall i :: 0 <= i < |cs| - 1 ==> cs[i + 1].startChar == cs[i].endChar - cfg.chunkOverlap)
  {
    RunOverlaps(cc, cfg, t, meta, 0, 0, []);
  }

  /** Every chunk carries each document key other than the four chunk
      fields with the document's value. */
  lemma ChunksInherit(cc: CharClasses, cfg: Config, t: string, meta: Metadata, key: string)
    requires ValidConfig(cfg) && key in meta
    requires key != "chunk_index" && key != "start_char" && key != "end_char" && key != "chunk_size"
    ensures forall c :: c in Chunks(cc, cfg, t, meta) ==> key in c.Metadata() && c.Metadata()[key] == meta[key]
  {
    var cs := Chunks(cc, cfg, t, meta);
    ChunksProperties(cc, cfg, t, meta);
    forall c | c in cs
      ensures key in c.Metadata() && c.Metadata()[key] == meta[key]
    {
      var i :| 0 <= i < |cs| && cs[i] == c;
      assert Emitted(cc, cfg, t, meta, cs[i]);
    }
  }

  /** An emitted chunk's text is a piece of the cleaned text lying inside
      its slice, without whitespace at either end. */
  lemma EmittedIsSlice(cc: CharClasses, cfg: Config, t: string, meta: Metadata, c: Chunk)
    requires Emitted(cc, cfg, t, meta, c)
    ensures var hi := Min(c.endChar, |t|);
      var ab := StripBounds(cc, t[c.startChar..hi]);
      && c.startChar + ab.1 <= hi
      && c.text == t[c.startChar + ab.0..c.startChar + ab.1]
      && (c.text != [] ==> c.text[0] !in cc.space && c.text[|c.text| - 1] !in cc.space)
  {
    var hi := Min(c.endChar, |t|);
    assert PySlice(t, c.startChar, c.endChar) == t[c.startChar..hi];
    StripOfSlice(cc, t, c.startChar, hi);
    StripSpec(cc, t[c.startChar..hi]);
  }

  /** The loop adds nothing when every slice is shorter than
      `min_chunk_size`. */
  lemma {:induction false} RunShort(cc: CharClasses, cfg: Config, t: string, meta: Metadata, start: nat, id: nat, acc: seq<Chunk>)
    requires ValidConfig(cfg) && |t| < cfg.minChunkSize
    ensures Run(cc, cfg, t, meta, start, id, acc) == acc
    decreases |t| - start
  {
    if start < |t| {
      var end := SliceEnd(cc, cfg, t, start);
      CursorAdvances(cc, cfg, t, start);
      StripSpec(cc, PySlice(t, start, end));
      RunShort(cc, cfg, t, meta, end - cfg.chunkOverlap, id, acc);
    }
  }

  /** A cleaned text shorter than `min_chunk_size` yields no chunks. */
  lemma ShortTextNoChunks(cc: CharClasses, cfg: Config, t: string, meta: Metadata)
    requires ValidConfig(cfg) && |t| < cfg.minChunkSize
    ensures Chunks(cc, cfg, t, meta) == []
  {
    RunShort(cc, cfg, t, meta, 0, 0, []);
  }

  /** A text no longer than `chunk_size` and `chunk_size - chunk_overlap` is cut once: one
      chunk holding the whole stripped text when that is long enough, none
      otherwise. Its `end_char` is `chunk_size`, which may lie past the
      end of the text. */
  lemma ShortTextOneChunk(cc: CharClasses, cfg: Config, t: string, meta: Metadata)
    requires ValidConfig(cfg) && 0 < |t| <= cfg.chunkSize && |t| <= cfg.chunkSize - cfg.chunkOverlap
    ensures Chunks(cc, cfg, t, meta) ==
      if |Strip(cc, t)| >= cfg.minChunkSize then [Chunk(Strip(cc, t), meta, 0, 0, cfg.chunkSize)] else []
  {
    assert SliceEnd(cc, cfg, t, 0) == cfg.chunkSize;
    assert t[0..|t|] == t;
    assert PySlice(t, 0, cfg.chunkSize) == t;
    var text := Strip(cc, t);
    var next := cfg.chunkSize - cfg.chunkOverlap;
    assert Chunks(cc, cfg, t, meta) == Pass(cc, cfg, t, meta, 0, 0, []);
    if |text| >= cfg.minChunkSize {
      assert [] + [Chunk(text, meta, 0, 0, cfg.chunkSize)] == [Chunk(text, meta, 0, 0, cfg.chunkSize)];
      assert Chunks(cc, cfg, t, meta) == Run(cc, cfg, t, meta, next, 1, [Chunk(text, meta, 0, 0, cfg.chunkSize)]);
    } else {
      assert Chunks(cc, cfg, t, meta) == Run(cc, cfg, t, meta, next, 0, []);
    }
  }

  // ---------------------------------------------------------------------
  // The cursor update as written

  /** The cursor update as the source writes it, for any parameters:
      `end - chunk_overlap`, reset to 1 when not positive. */
  function AsWrittenNext(cc: CharClasses, cfg: Config, t: string, start: nat): (next: nat)
    requires 0 < cfg.chunkSize
    ensures next >= 1
    ensures next == Max(SliceEnd(cc, cfg, t, start) - cfg.chunkOverlap, 1)
  {
    var n := SliceEnd(cc, cfg, t, start) - cfg.chunkOverlap;
    if n <= 0 then 1 else n
  }

  /** The reset to 1 does not make the loop end: with a chunk size of at
      most 100 and an overlap of 2 or more, a text starting with "x. "
      followed by more than `chunk_size` letters sends the cursor from 0
      to 1 and from 1 back to 1, so the loop runs forever. */
  lemma StuckCursor(cc: CharClasses, cfg: Config, n: nat)
    requires WellFormed(cc) && 'x' !in cc.space && 'y' !in cc.space
    requires 0 < cfg.chunkSize <= 100 && 2 <= cfg.chunkOverlap && cfg.chunkSize <= n
    ensures var t := "x. " + seq(n, _ => 'y');
      AsWrittenNext(cc, cfg, t, 0) == 1 && AsWrittenNext(cc, cfg, t, 1) == 1 && 1 < |t|
  {
    var t := "x. " + seq(n, _ => 'y');
    StuckFrom(cc, cfg, t, 0);
    StuckFrom(cc, cfg, t, 1);
  }

  /** At cursor 0 or 1 of such a text the cut is snapped back to 3, just
      past "x. ". */
  lemma StuckFrom(cc: CharClasses, cfg: Config, t: string, start: nat)
    requires WellFormed(cc) && 'y' !in cc.space && start <= 1
    requires 0 < cfg.chunkSize <= 100 && cfg.chunkSize + 3 <= |t|
    requires t[1] == '.' && t[2] == ' ' && forall k :: 3 <= k < |t| ==> t[k] == 'y'
    ensures SliceEnd(cc, cfg, t, start) == 3
  {
    var w := t[start..Min(start + cfg.chunkSize + 100, |t|)];
    var p := 1 - start;
    assert BreakAt(cc, w, p);
    assert forall q :: p < q < |w| ==> !BreakAt(cc, w, q) by {
      forall q | p < q < |w| ensures !BreakAt(cc, w, q) {
        assert w[q] == t[start + q];
      }
    }
    LastBreakFound(cc, w, |w|, p);
    assert w[p + 2] == t[3];
    assert SkipSpaces(cc, w, p + 2) == p + 2;
  }
}

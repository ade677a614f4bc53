/** The retriever (`DocumentRetriever` of `retriever.py`): the choice of
    `k`, the over-fetch when a source filter is given, the filter, the
    similarity score and the early stop of `retrieve`, and the prompt
    context `format_context` builds. The embedding of the query and the
    vector index are outside the model: the index is a function from the
    number of results asked for to its answer. */
module Retriever {
  import opened Text

  /** The two metadata entries the retriever reads of a stored chunk;
      None when the key is absent. */
  datatype StoredMeta = StoredMeta(source: Option<string>, chunkIndex: Option<int>)

  /** What the index returns for one query: parallel lists of chunk
      texts, metadata and distances, nearest first. */
  datatype Response = Response(documents: seq<string>, metadatas: seq<StoredMeta>, distances: seq<real>)

  /** One entry of `zip(documents, metadatas, distances)`. */
  datatype Candidate = Candidate(text: string, meta: StoredMeta, distance: real)

  /** One retrieved document: the dictionary `retrieve` appends. */
  datatype Retrieved = Retrieved(text: string, source: string, chunkIndex: int, similarity: real)

  /** The retriever's one setting that matters here: its default `top_k`. */
  datatype DocumentRetriever = DocumentRetriever(topK: int)

  /** `top_k or self.top_k`: an absent or zero argument falls back to the
      default. */
  function ChooseK(topK: Option<int>, default: int): (k: int)
    ensures topK.Some? && topK.value != 0 ==> k == topK.value
    ensures topK.None? || topK.value == 0 ==> k == default
  {
    if topK.Some? && topK.value != 0 then topK.value else default
  }

  /** Python truthiness of the optional filter string. */
  predicate Truthy(sourceFilter: Option<string>)
  {
    sourceFilter.Some? && sourceFilter.value != ""
  }

  /** `n_results`: twice `k` when a filter is given, so that enough
      candidates remain after filtering. */
  function QuerySize(k: int, sourceFilter: Option<string>): (n: int)
    ensures Truthy(sourceFilter) ==> n == 2 * k
    ensures !Truthy(sourceFilter) ==> n == k
  {
    if Truthy(sourceFilter) then k * 2 else k
  }

  /** `zip` of the three lists: as long as the shortest. */
  function Candidates(resp: Response): (cs: seq<Candidate>)
    ensures |cs| == Min(|resp.documents|, Min(|resp.metadatas|, |resp.distances|))
    ensures forall i :: 0 <= i < |cs| ==>
      cs[i] == Candidate(resp.documents[i], resp.metadatas[i], resp.distances[i])
  {
    var n := Min(|resp.documents|, Min(|resp.metadatas|, |resp.distances|));
    seq(n, i requires 0 <= i < n => Candidate(resp.documents[i], resp.metadatas[i], resp.distances[i]))
  }

  /** Whether a candidate survives `source_filter not in
      metadata.get('source', '')`. */
  predicate Passes(sourceFilter: Option<string>, c: Candidate)
  {
    !Truthy(sourceFilter) || Contains(if c.meta.source.Some? then c.meta.source.value else "", sourceFilter.value)
  }

  /** The dictionary built for an accepted candidate. */
  function Render(c: Candidate): (d: Retrieved)
    ensures d.text == c.text && d.similarity == 1.0 - c.distance
    ensures d.source == (if c.meta.source.Some? then c.meta.source.value else "unknown")
    ensures d.chunkIndex == (if c.meta.chunkIndex.Some? then c.meta.chunkIndex.value else 0)
  {
    Retrieved(c.text,
      if c.meta.source.Some? then c.meta.source.value else "unknown",
      if c.meta.chunkIndex.Some? then c.meta.chunkIndex.value else 0,
      1.0 - c.distance)
  }

  /** Every candidate that passes the filter, rendered, in index order. */
  function Accepted(sourceFilter: Option<string>, cs: seq<Candidate>): seq<Retrieved>
  {
    if cs == [] then []
    else
      var last := cs[|cs| - 1];
      Accepted(sourceFilter, cs[..|cs| - 1]) + (if Passes(sourceFilter, last) then [Render(last)] else [])
  }

  /** The accepted documents of a prefix of the candidates start the
      accepted documents of all of them. */
  lemma {:induction false} AcceptedPrefix(sourceFilter: Option<string>, cs: seq<Candidate>, i: nat)
    requires i <= |cs|
    ensures var a := Accepted(sourceFilter, cs[..i]);
      |a| <= |Accepted(sourceFilter, cs)| && Accepted(sourceFilter, cs)[..|a|] == a
    decreases |cs| - i
  {
    if i < |cs| {
      AcceptedPrefix(sourceFilter, cs, i + 1);
      assert cs[..i + 1][..i] == cs[..i];
      var a := Accepted(sourceFilter, cs[..i]);
      var b := Accepted(sourceFilter, cs[..i + 1]);
      assert b[..|a|] == a;
    } else {
      assert cs[..i] == cs;
    }
  }

  /** Each accepted document is the rendering of a candidate that passes
      the filter, and there are no more of them than candidates; with no
      filter every candidate is accepted. */
  lemma {:induction false} AcceptedSpec(sourceFilter: Option<string>, cs: seq<Candidate>)
    ensures |Accepted(sourceFilter, cs)| <= |cs|
    ensures forall d :: d in Accepted(sourceFilter, cs) ==>
      exists i :: 0 <= i < |cs| && Passes(sourceFilter, cs[i]) && d == Render(cs[i])
    ensures !Truthy(sourceFilter) ==> |Accepted(sourceFilter, cs)| == |cs|
  {
    if cs != [] {
      var m := |cs| - 1;
      AcceptedSpec(sourceFilter, cs[..m]);
      assert forall i :: 0 <= i < m ==> cs[..m][i] == cs[i];
    }
  }

  /** With a filter, every accepted document's source contains it, and a
      candidate without a source is never accepted. */
  lemma AcceptedSources(sourceFilter: Option<string>, cs: seq<Candidate>)
    requires Truthy(sourceFilter)
    ensures forall d :: d in Accepted(sourceFilter, cs) ==> Contains(d.source, sourceFilter.value)
    ensures forall c: Candidate :: c.meta.source.None? ==> !Passes(sourceFilter, c)
  {
    EmptyContainsOnlyEmpty(sourceFilter.value);
    AcceptedSpec(sourceFilter, cs);
    forall d | d in Accepted(sourceFilter, cs) ensures Contains(d.source, sourceFilter.value) {
      var i :| 0 <= i < |cs| && Passes(sourceFilter, cs[i]) && d == Render(cs[i]);
      if cs[i].meta.source.None? {
        EmptyContainsOnlyEmpty(sourceFilter.value);
      }
    }
  }

  /** Only the empty string is a substring of the empty string. */
  lemma EmptyContainsOnlyEmpty(needle: string)
    requires needle != ""
    ensures !Contains("", needle)
  {
  }

  /** Candidates no farther than `x` give documents at least `1 - x`
      similar. */
  lemma SimilarityAtLeast(sourceFilter: Option<string>, cs: seq<Candidate>, x: real)
    requires forall i :: 0 <= i < |cs| ==> cs[i].distance <= x
    ensures forall d :: d in Accepted(sourceFilter, cs) ==> d.similarity >= 1.0 - x
  {
    AcceptedSpec(sourceFilter, cs);
  }

  /** Most similar first. */
  predicate BySimilarity(a: seq<Retrieved>)
  {
    forall i, j :: 0 <= i < j < |a| ==> a[i].similarity >= a[j].similarity
  }

  /** Nearest-first candidates give most-similar-first documents. */
  lemma {:induction false} AcceptedBySimilarity(sourceFilter: Option<string>, cs: seq<Candidate>)
    requires forall i, j :: 0 <= i < j < |cs| ==> cs[i].distance <= cs[j].distance
    ensures BySimilarity(Accepted(sourceFilter, cs))
  {
    if cs != [] {
      var m := |cs| - 1;
      var prev := Accepted(sourceFilter, cs[..m]);
      AcceptedBySimilarity(sourceFilter, cs[..m]);
      SimilarityAtLeast(sourceFilter, cs[..m], cs[m].distance);
      var a := Accepted(sourceFilter, cs);
      assert a == prev + (if Passes(sourceFilter, cs[m]) then [Render(cs[m])] else []);
      forall i, j | 0 <= i < j < |a| ensures a[i].similarity >= a[j].similarity {
        assert a[i] == prev[i] && a[i] in prev;
        if j < |prev| {
          assert a[j] == prev[j];
          assert prev[i].similarity >= prev[j].similarity;
        } else {
          assert a[j] == Render(cs[m]);
          assert a[i].similarity >= 1.0 - cs[m].distance;
        }
      }
    }
  }

  /** The first `n` elements, or all when there are fewer. */
  function Take<T>(s: seq<T>, n: int): (r: seq<T>)
    ensures |r| == Min(Max(n, 0), |s|)
    ensures forall i :: 0 <= i < |r| ==> r[i] == s[i]
  {
    s[..Min(Max(n, 0), |s|)]
  }

  /** What `retrieve` returns: the first accepted candidates, as many as
      `k` (one when `k` is not positive, since the check that stops the
      loop follows the append). */
  function Retrieval(k: int, sourceFilter: Option<string>, resp: Response): seq<Retrieved>
  {
    Take(Accepted(sourceFilter, Candidates(resp)), Max(k, 1))
  }

  /** `retrieve`: ask the index for QuerySize results, then walk the
      zipped candidates, skip those the filter rejects, render the rest,
      and stop once `k` are collected. */
  method Retrieve(r: DocumentRetriever, topK: Option<int>, sourceFilter: Option<string>, index: int -> Response)
    returns (docs: seq<Retrieved>)
    ensures var k := ChooseK(topK, r.topK);
      docs == Retrieval(k, sourceFilter, index(QuerySize(k, sourceFilter)))
  {
    var k := ChooseK(topK, r.topK);
    var results := index(QuerySize(k, sourceFilter));
    var cs := Candidates(results);
    ghost var m := Max(k, 1);
    docs := [];
    var i := 0;
    while i < |cs|
      invariant 0 <= i <= |cs|
      invariant docs == Accepted(sourceFilter, cs[..i])
      invariant |docs| < m
    {
      AcceptedStep(sourceFilter, cs, i);
      var c := cs[i];
      if Passes(sourceFilter, c) {
        docs := docs + [Render(c)];
        if |docs| >= k {
          StopEarly(sourceFilter, cs, i, m);
          return;
        }
      }
      i := i + 1;
    }
    assert cs[..i] == cs;
  }

  /** One more candidate adds its rendering when it passes the filter. */
  lemma AcceptedStep(sourceFilter: Option<string>, cs: seq<Candidate>, i: nat)
    requires i < |cs|
    ensures Accepted(sourceFilter, cs[..i + 1])
      == Accepted(sourceFilter, cs[..i]) + (if Passes(sourceFilter, cs[i]) then [Render(cs[i])] else [])
  {
    assert cs[..i + 1][..i] == cs[..i];
  }

  /** Once the first `i + 1` candidates yield `n` accepted documents,
      those are the first `n` of all. */
  lemma StopEarly(sourceFilter: Option<string>, cs: seq<Candidate>, i: nat, n: int)
    requires i < |cs| && |Accepted(sourceFilter, cs[..i + 1])| == n
    ensures Take(Accepted(sourceFilter, cs), n) == Accepted(sourceFilter, cs[..i + 1])
  {
    AcceptedPrefix(sourceFilter, cs, i + 1);
  }

  /** The result holds at most `k` documents (one when `k` is not
      positive), all accepted, in index order, most similar first when the
      index answers nearest first; with a filter each source contains it;
      an empty answer gives no documents. */
  lemma RetrievalSpec(k: int, sourceFilter: Option<string>, resp: Response)
    ensures var docs := Retrieval(k, sourceFilter, resp);
      && |docs| <= Max(k, 1)
      && (k >= 1 ==> |docs| <= k)
      && |docs| <= |Candidates(resp)|
      && docs == Accepted(sourceFilter, Candidates(resp))[..|docs|]
      && (Truthy(sourceFilter) ==> forall d :: d in docs ==> Contains(d.source, sourceFilter.value))
      && ((forall i, j :: 0 <= i < j < |resp.distances| ==> resp.distances[i] <= resp.distances[j]) ==>
            BySimilarity(docs))
      && (|resp.documents| == 0 || |resp.metadatas| == 0 || |resp.distances| == 0 ==> docs == [])
  {
    var cs := Candidates(resp);
    var a := Accepted(sourceFilter, cs);
    var docs := Retrieval(k, sourceFilter, resp);
    AcceptedSpec(sourceFilter, cs);
    if Truthy(sourceFilter) {
      AcceptedSources(sourceFilter, cs);
      forall d | d in docs ensures d in a {
        var i :| 0 <= i < |docs| && docs[i] == d;
      }
    }
    if forall i, j :: 0 <= i < j < |resp.distances| ==> resp.distances[i] <= resp.distances[j] {
      AcceptedBySimilarity(sourceFilter, cs);
    }
  }

  /** One block of the context: a numbered header naming the source and
      the similarity (as `format` renders it to three decimals), then the
      text. */
  function Block(n: nat, d: Retrieved, format: real -> string): string
  {
    "[Document " + NatToString(n) + "]" + BlockBody(d, format)
  }

  /** What follows the number in a block header. */
  function BlockBody(d: Retrieved, format: real -> string): string
  {
    " (Source: " + d.source + ", Similarity: " + format(d.similarity) + ")\n" + d.text + "\n"
  }

  /** The blocks of the documents, numbered from 1. */
  function Blocks(docs: seq<Retrieved>, format: real -> string): (bs: seq<string>)
    ensures |bs| == |docs| && forall i :: 0 <= i < |docs| ==> bs[i] == Block(i + 1, docs[i], format)
  {
    seq(|docs|, i requires 0 <= i < |docs| => Block(i + 1, docs[i], format))
  }

  /** `format_context`: the blocks joined with newlines. */
  method FormatContext(docs: seq<Retrieved>, format: real -> string) returns (context: string)
    ensures context == Join("\n", Blocks(docs, format))
  {
    var contextParts: seq<string> := [];
    var i := 0;
    while i < |docs|
      invariant 0 <= i <= |docs|
      invariant contextParts == Blocks(docs[..i], format)
    {
      assert docs[..i + 1][..i] == docs[..i];
      contextParts := contextParts + [Block(i + 1, docs[i], format)];
      i := i + 1;
    }
    assert docs[..i] == docs;
    context := Join("\n", contextParts);
  }

  /** A context grows by a newline and the next numbered block, and an
      empty list of documents gives the empty context. */
  lemma ContextSnoc(docs: seq<Retrieved>, d: Retrieved, format: real -> string)
    ensures Join("\n", Blocks([], format)) == ""
    ensures Join("\n", Blocks(docs + [d], format))
      == (if docs == [] then "" else Join("\n", Blocks(docs, format)) + "\n") + Block(|docs| + 1, d, format)
  {
    assert Blocks(docs + [d], format) == Blocks(docs, format) + [Block(|docs| + 1, d, format)];
    JoinSnoc("\n", Blocks(docs, format), Block(|docs| + 1, d, format));
  }

  /** Blocks are told apart by their numbers: equal blocks have the same
      number. */
  lemma BlockNumbersDistinct(n: nat, m: nat, d: Retrieved, e: Retrieved, format: real -> string)
    requires Block(n, d, format) == Block(m, e, format)
    ensures n == m
  {
    NumberedDistinct("[Document ", n, BlockBody(d, format), m, BlockBody(e, format));
  }
}

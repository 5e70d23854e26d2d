/** The document store behind retrieval (`FileRAG`): an ordered, growing list
    of (filename, text) pairs and a flat nearest-neighbour index that is
    rebuilt from the whole list on every addition. The sentence embedder and
    the index's nearest-neighbour search are library code; here they are
    functions fixed when the store is created. */
module FileRetrieval {
  import opened Wrappers
  import opened Text
  import opened CallTrace

  /** One uploaded file. */
  datatype Doc = Doc(filename: string, text: string)

  /** An embedding vector. */
  type Vector = seq<real>

  /** A flat (exact) index: one vector per indexed text, in insertion order;
      vector `i` has label `i`. */
  datatype FlatIndex = FlatIndex(vectors: seq<Vector>)

  /** A label returned by the index. A search pads with -1 when it has fewer
      than `k` vectors; the other labels are positions. */
  type Label = i: int | -1 <= i

  /** Texts of retrieved documents are joined with a blank line. */
  const Separator := "\n\n"

  /** The top-k used when answering queries. */
  const DefaultTopK := 2

  /** The index `_rebuild_index` builds: none for an empty store, otherwise
      the embeddings of all texts in store order. */
  function BuildIndex(embed: string -> Vector, docs: seq<Doc>): Option<FlatIndex> {
    if docs == [] then None
    else Some(FlatIndex(seq(|docs|, i requires 0 <= i < |docs| => embed(docs[i].text))))
  }

  /** The index is aligned with the store: with documents, one vector per
      document, vector `i` the embedding of document `i`; without, no index. */
  lemma IndexAlignedWithDocs(embed: string -> Vector, docs: seq<Doc>)
    ensures docs == [] <==> BuildIndex(embed, docs).None?
    ensures docs != [] ==> |BuildIndex(embed, docs).value.vectors| == |docs|
    ensures forall i :: 0 <= i < |docs| ==> BuildIndex(embed, docs).value.vectors[i] == embed(docs[i].text)
  {
  }

  /** Python's `docs[idx]` position for a label below `len(docs)`: -1 reads
      the last document. */
  function Position(n: int, idx: Label): (p: int)
    requires 0 < n && idx < n
    ensures 0 <= p < n
    ensures idx >= 0 ==> p == idx
    ensures idx == -1 ==> p == n - 1
  {
    if idx < 0 then n + idx else idx
  }

  /** What one label contributes to the results: the text at that position,
      or nothing when the label is not below `len(docs)`. */
  function Kept(docs: seq<Doc>, idx: Label): seq<string>
    requires docs != []
  {
    if idx < |docs| then [docs[Position(|docs|, idx)].text] else []
  }

  /** The texts `search` collects for the labels, in label order. */
  function KeptTexts(docs: seq<Doc>, labels: seq<Label>): seq<string>
    requires docs != []
  {
    if labels == [] then []
    else KeptTexts(docs, labels[..|labels| - 1]) + Kept(docs, labels[|labels| - 1])
  }

  /** The context text `search` returns for a non-empty store. */
  function Context(docs: seq<Doc>, labels: seq<Label>): string
    requires docs != []
  {
    Join(KeptTexts(docs, labels), Separator)
  }

  /** With every label below `len(docs)` (the padding label `-1` included),
      the results are exactly the texts at the labels' positions, one per
      label, in label order. */
  lemma {:induction false} KeptTextsOfPositions(docs: seq<Doc>, labels: seq<Label>)
    requires docs != []
    requires forall i :: 0 <= i < |labels| ==> labels[i] < |docs|
    ensures |KeptTexts(docs, labels)| == |labels|
    ensures forall i :: 0 <= i < |labels| ==>
      KeptTexts(docs, labels)[i] == docs[Position(|docs|, labels[i])].text
  {
    if labels != [] {
      var init, last := labels[..|labels| - 1], labels[|labels| - 1];
      KeptTextsOfPositions(docs, init);
      var text := docs[Position(|docs|, last)].text;
      assert KeptTexts(docs, labels) == KeptTexts(docs, init) + [text];
      forall i | 0 <= i < |labels|
        ensures KeptTexts(docs, labels)[i] == docs[Position(|docs|, labels[i])].text
      {
        if i < |init| {
          assert init[i] == labels[i];
        }
      }
    }
  }

  /** Every collected text is the text of some stored document, and no more
      texts are collected than labels were returned. */
  lemma {:induction false} KeptTextsComeFromDocs(docs: seq<Doc>, labels: seq<Label>)
    requires docs != []
    ensures |KeptTexts(docs, labels)| <= |labels|
    ensures forall t :: t in KeptTexts(docs, labels) ==> exists j :: 0 <= j < |docs| && docs[j].text == t
  {
    if labels != [] {
      KeptTextsComeFromDocs(docs, labels[..|labels| - 1]);
    }
  }

  /** Labels at or beyond `len(docs)` are skipped. */
  lemma {:induction false} LabelsBeyondStoreSkipped(docs: seq<Doc>, labels: seq<Label>)
    requires docs != []
    requires forall i :: 0 <= i < |labels| ==> labels[i] >= |docs|
    ensures KeptTexts(docs, labels) == []
  {
    if labels != [] {
      LabelsBeyondStoreSkipped(docs, labels[..|labels| - 1]);
    }
  }

  /** With a single document and the default top-2, the index answers
      [0, -1]; -1 passes the `idx < len(docs)` filter and reads the last
      document, so the context holds that document's text twice. */
  lemma PaddingRepeatsLastDocument(d: Doc)
    ensures Context([d], [0, -1]) == d.text + Separator + d.text
  {
    var labels: seq<Label> := [0, -1];
    assert labels[..1] == [0];
    assert [0][..0] == [];
    assert KeptTexts([d], [0]) == [d.text];
    assert Kept([d], -1) == [d.text];
    assert KeptTexts([d], labels) == [d.text, d.text];
    assert [d.text, d.text][1..] == [d.text];
    assert Join([d.text, d.text], Separator) == d.text + Separator + d.text;
    assert Context([d], labels) == d.text + Separator + d.text;
  }

  /** The context is empty exactly when nothing was collected or the only
      collected text is empty. */
  lemma ContextEmptyIff(docs: seq<Doc>, labels: seq<Label>)
    requires docs != []
    ensures Context(docs, labels) == "" <==> KeptTexts(docs, labels) == [] || KeptTexts(docs, labels) == [""]
  {
    JoinEmptyIff(KeptTexts(docs, labels), Separator);
  }

  /** Every collected text appears verbatim in the context. */
  lemma ContextContainsKeptText(docs: seq<Doc>, labels: seq<Label>, i: int)
    requires docs != [] && 0 <= i < |KeptTexts(docs, labels)|
    ensures Contains(Context(docs, labels), KeptTexts(docs, labels)[i])
  {
    JoinContainsPart(KeptTexts(docs, labels), Separator, i);
  }

  class FileRag {
    /** The sentence embedder, applied text by text. */
    const embed: string -> Vector
    /** The index's k-nearest-neighbour search for one query vector. */
    const nearest: (FlatIndex, Vector, int) -> seq<Label>
    /** Where searches are recorded. */
    const trace: CallLog

    var docs: seq<Doc>
    var index: Option<FlatIndex>

    /** The index is always the one built from the current documents. */
    ghost predicate Valid()
      reads this
    {
      index == BuildIndex(embed, docs)
    }

    constructor (embed: string -> Vector, nearest: (FlatIndex, Vector, int) -> seq<Label>, trace: CallLog)
      ensures this.embed == embed && this.nearest == nearest && this.trace == trace
      ensures docs == [] && index == None
      ensures Valid()
    {
      this.embed := embed;
      this.nearest := nearest;
      this.trace := trace;
      docs := [];
      index := None;
    }

    /** `add_file(text, filename)`: appends the pair and rebuilds the index
        from the whole list. */
    method AddFile(text: string, filename: string)
      modifies this
      ensures docs == old(docs) + [Doc(filename, text)]
      ensures Valid()
      ensures index.Some? && |index.value.vectors| == |docs|
    {
      docs := docs + [Doc(filename, text)];
      RebuildIndex();
      IndexAlignedWithDocs(embed, docs);
    }

    /** `_rebuild_index`: discards the index and builds a fresh one over
        every document's text, or none when there are no documents. */
    method RebuildIndex()
      modifies this`index
      ensures Valid()
    {
      if docs == [] {
        index := None;
        return;
      }
      var stored, encode := docs, embed;
      var texts := seq(|stored|, i requires 0 <= i < |stored| => stored[i].text);
      var embeddings := seq(|texts|, i requires 0 <= i < |texts| => encode(texts[i]));
      index := Some(FlatIndex(embeddings));
      assert embeddings == BuildIndex(embed, docs).value.vectors;
    }

    /** What `search(query, topK)` returns: nothing without an index or
        documents, otherwise the context for the labels the index gives for
        the query's embedding. */
    function Retrieve(query: string, topK: int): string
      reads this
    {
      if index.None? || docs == [] then ""
      else Context(docs, nearest(index.value, embed(query), topK))
    }

    /** `search(query, topK)`. */
    method Search(query: string, topK: int) returns (ctx: string)
      modifies trace
      ensures ctx == Retrieve(query, topK)
      ensures docs == [] ==> ctx == ""
      ensures trace.calls == old(trace.calls) + [Retrieval(query, topK)]
    {
      trace.calls := trace.calls + [Retrieval(query, topK)];
      if index.None? || docs == [] {
        return "";
      }
      var qEmb := embed(query);
      var labels := nearest(index.value, qEmb, topK);
      var results: seq<string> := [];
      for i := 0 to |labels|
        invariant results == KeptTexts(docs, labels[..i])
      {
        var idx := labels[i];
        if idx < |docs| {
          results := results + [docs[Position(|docs|, idx)].text];
        }
        assert labels[..i + 1][..i] == labels[..i];
      }
      assert labels[..|labels|] == labels;
      ctx := Join(results, Separator);
    }
  }
}

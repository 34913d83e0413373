/**
 * The greedy chunker: whole documents are gathered into chunks by a running
 * word count. Once the count has reached the chunk size, the NEXT document
 * flushes the chunk and is itself dropped; documents are joined with no
 * separator; the size stored in a chunk is the number of `" "`-separated
 * pieces of its text, which can differ from the running count.
 */
module TextChunker {
  import opened PyStr
  import opened PyValue
  import opened BaseChunker

  const DefaultChunkSize: int := 200

  /** What the running counter adds for one document: `len(doc.strip().split(" "))`. */
  function WordsIn(doc: string): (n: nat)
    ensures n >= 1
  {
    |Split(Strip(doc), ' ')|
  }

  /** The size recorded in a chunk: `len(text.split(" "))`. */
  function SplitSize(text: string): (n: nat)
    ensures n >= 1
  {
    |Split(text, ' ')|
  }

  /** Plain concatenation, `"".join(docs)`. */
  function Concat(docs: seq<string>): string {
    Join(docs, "")
  }

  lemma ConcatCons(d: string, rest: seq<string>)
    ensures Concat([d] + rest) == d + Concat(rest)
  {
    if rest == [] {
      assert [d] + rest == [d];
    } else {
      assert ([d] + rest)[1..] == rest;
    }
  }

  // ---------------------------------------------------------------------------
  // The loop, one document at a time

  /** The loop's state: the chunk texts flushed so far, the open text and its running count. */
  datatype Accumulator = Accumulator(flushed: seq<string>, current: string, counter: int)

  const Start := Accumulator([], "", 0)

  /**
   * One iteration of the loop over the documents. It emits at most one chunk
   * and keeps those already emitted; a document met below the threshold
   * emits nothing and raises the count.
   */
  function Step(acc: Accumulator, doc: string, chunkSize: int): (r: Accumulator)
    ensures |acc.flushed| <= |r.flushed| <= |acc.flushed| + 1 && r.flushed[..|acc.flushed|] == acc.flushed
    ensures |Close(r)| <= |Close(acc)| + 1
    ensures acc.counter < chunkSize ==> r.flushed == acc.flushed && r.counter > acc.counter
    ensures acc.counter < chunkSize ==> r.current == acc.current + doc && r.counter == acc.counter + WordsIn(doc)
    ensures acc.counter >= chunkSize ==> r.flushed == acc.flushed + [acc.current] && r.current == "" && r.counter == 0
  {
    if acc.counter >= chunkSize then Accumulator(acc.flushed + [acc.current], "", 0)
    else Accumulator(acc.flushed, acc.current + doc, acc.counter + WordsIn(doc))
  }

  /** The loop over `docs` from state `acc`: each document adds at most one chunk to the output. */
  function Feed(acc: Accumulator, docs: seq<string>, chunkSize: int): (r: Accumulator)
    ensures |Close(r)| <= |Close(acc)| + |docs|
    decreases |docs|
  {
    if docs == [] then acc else Feed(Step(acc, docs[0], chunkSize), docs[1..], chunkSize)
  }

  /** The texts emitted: those flushed in the loop, then the open text when it is non-empty. */
  function Close(acc: Accumulator): (r: seq<string>)
    ensures |acc.flushed| <= |r| <= |acc.flushed| + 1 && r[..|acc.flushed|] == acc.flushed
    ensures forall t <- r[|acc.flushed|..] :: t != ""
  {
    acc.flushed + (if acc.current != "" then [acc.current] else [])
  }

  /** The texts `chunk_text` emits: never more chunks than documents. */
  function ChunkTexts(docs: seq<string>, chunkSize: int): (r: seq<string>)
    ensures |r| <= |docs|
  {
    Close(Feed(Start, docs, chunkSize))
  }

  /** The k-th emitted text becomes a chunk with the k-th fresh id and its split size. */
  function Label(texts: seq<string>, uuids: nat -> Uuid): (r: seq<DataChunk>)
    ensures |r| == |texts|
    ensures forall k :: 0 <= k < |r| ==>
      r[k].id == uuids(k) && r[k].text == texts[k] && r[k].size == |Split(texts[k], ' ')|
  {
    seq(|texts|, k requires 0 <= k < |texts| => DataChunk(uuids(k), texts[k], SplitSize(texts[k])))
  }

  /** Labelling one more text adds one chunk at the end and leaves the others alone. */
  lemma LabelAppend(texts: seq<string>, t: string, uuids: nat -> Uuid)
    ensures Label(texts + [t], uuids) == Label(texts, uuids) + [DataChunk(uuids(|texts|), t, |Split(t, ' ')|)]
  {
  }

  /** What `chunk_text` returns for the documents, the chunk size and a supply of fresh ids. */
  function ChunksOf(docs: seq<string>, chunkSize: int, uuids: nat -> Uuid): seq<DataChunk> {
    Label(ChunkTexts(docs, chunkSize), uuids)
  }

  /** Chunks are only ever appended: the loop never changes what it flushed before. */
  lemma {:induction false} FeedOnlyAppends(acc: Accumulator, docs: seq<string>, chunkSize: int)
    ensures |acc.flushed| <= |Feed(acc, docs, chunkSize).flushed|
    ensures Feed(acc, docs, chunkSize).flushed[..|acc.flushed|] == acc.flushed
    decreases |docs|
  {
    if docs != [] {
      var next := Step(acc, docs[0], chunkSize);
      FeedOnlyAppends(next, docs[1..], chunkSize);
      assert next.flushed[..|acc.flushed|] == acc.flushed;
    }
  }

  // ---------------------------------------------------------------------------
  // The same result described by groups of documents

  /**
   * How many documents from the front of `docs` join an open chunk whose
   * running count is `counter`: documents join while the count is below the
   * chunk size.
   */
  function Joined(docs: seq<string>, chunkSize: int, counter: int): (n: nat)
    ensures n <= |docs|
  {
    if docs == [] || counter >= chunkSize then 0
    else 1 + Joined(docs[1..], chunkSize, counter + WordsIn(docs[0]))
  }

  /**
   * The chunk texts by groups: the first `n` documents form the first chunk;
   * if documents remain, the next one is dropped and chunking starts afresh
   * after it; a final group is emitted only when its text is non-empty.
   */
  function Grouped(docs: seq<string>, chunkSize: int): seq<string>
    decreases |docs|
  {
    var n := Joined(docs, chunkSize, 0);
    if n < |docs| then [Concat(docs[..n])] + Grouped(docs[n + 1..], chunkSize)
    else if Concat(docs) != "" then [Concat(docs)] else []
  }

  /** The grouped description continued from a loop state. */
  function Resume(acc: Accumulator, docs: seq<string>, chunkSize: int): seq<string> {
    var n := Joined(docs, chunkSize, acc.counter);
    if n < |docs| then
      acc.flushed + [acc.current + Concat(docs[..n])] + Grouped(docs[n + 1..], chunkSize)
    else
      acc.flushed + (if acc.current + Concat(docs) != "" then [acc.current + Concat(docs)] else [])
  }

  /** A flush step: the triggering document is dropped and grouping starts afresh. */
  lemma ResumeAfterFlush(acc: Accumulator, docs: seq<string>, chunkSize: int)
    requires docs != [] && acc.counter >= chunkSize
    ensures Resume(Step(acc, docs[0], chunkSize), docs[1..], chunkSize) == Resume(acc, docs, chunkSize)
  {
    var rest := docs[1..];
    assert Joined(docs, chunkSize, acc.counter) == 0;
    assert docs[..0] == [] && acc.current + Concat([]) == acc.current;
    assert Resume(acc, docs, chunkSize) == acc.flushed + [acc.current] + Grouped(rest, chunkSize);
    ResumeFresh(Step(acc, docs[0], chunkSize), rest, chunkSize);
  }

  /** Resuming from a fresh open chunk is grouping from scratch. */
  lemma ResumeFresh(acc: Accumulator, docs: seq<string>, chunkSize: int)
    requires acc.current == "" && acc.counter == 0
    ensures Resume(acc, docs, chunkSize) == acc.flushed + Grouped(docs, chunkSize)
  {
    var m := Joined(docs, chunkSize, 0);
    if m < |docs| {
      var head, tail := Concat(docs[..m]), Grouped(docs[m + 1..], chunkSize);
      ResumeSplits(acc, docs, chunkSize);
      GroupedSplits(docs, chunkSize);
      Regroup(acc.flushed, acc.current + head, head, tail);
    } else {
      ResumeWhole(acc, docs, chunkSize);
      GroupedWhole(docs, chunkSize);
      assert acc.current + Concat(docs) == Concat(docs);
    }
  }

  lemma ResumeSplits(acc: Accumulator, docs: seq<string>, chunkSize: int)
    requires Joined(docs, chunkSize, acc.counter) < |docs|
    ensures var n := Joined(docs, chunkSize, acc.counter);
      Resume(acc, docs, chunkSize)
        == acc.flushed + [acc.current + Concat(docs[..n])] + Grouped(docs[n + 1..], chunkSize)
  {
  }

  lemma ResumeWhole(acc: Accumulator, docs: seq<string>, chunkSize: int)
    requires Joined(docs, chunkSize, acc.counter) == |docs|
    ensures Resume(acc, docs, chunkSize)
         == acc.flushed + (if acc.current + Concat(docs) != "" then [acc.current + Concat(docs)] else [])
  {
  }

  lemma Regroup(flushed: seq<string>, x: string, head: string, tail: seq<string>)
    requires x == head
    ensures flushed + [x] + tail == flushed + ([head] + tail)
  {
  }

  lemma GroupedSplits(docs: seq<string>, chunkSize: int)
    requires Joined(docs, chunkSize, 0) < |docs|
    ensures var m := Joined(docs, chunkSize, 0);
      Grouped(docs, chunkSize) == [Concat(docs[..m])] + Grouped(docs[m + 1..], chunkSize)
  {
  }

  lemma GroupedWhole(docs: seq<string>, chunkSize: int)
    requires Joined(docs, chunkSize, 0) == |docs|
    ensures Grouped(docs, chunkSize) == if Concat(docs) != "" then [Concat(docs)] else []
  {
  }

  /** An appending step: the document joins the open text. */
  lemma ResumeAfterAppend(acc: Accumulator, docs: seq<string>, chunkSize: int)
    requires docs != [] && acc.counter < chunkSize
    ensures Resume(Step(acc, docs[0], chunkSize), docs[1..], chunkSize) == Resume(acc, docs, chunkSize)
  {
    var d, rest := docs[0], docs[1..];
    var next := Step(acc, d, chunkSize);
    var m := Joined(rest, chunkSize, next.counter);
    assert next.current == acc.current + d && next.flushed == acc.flushed;
    assert Joined(docs, chunkSize, acc.counter) == m + 1;
    assert docs == [d] + rest;
    if m < |rest| {
      ResumeSplits(next, rest, chunkSize);
      ResumeSplits(acc, docs, chunkSize);
      AppendInside(acc.current, d, rest, m);
      assert docs[m + 2..] == rest[m + 1..];
    } else {
      ResumeWhole(next, rest, chunkSize);
      ResumeWhole(acc, docs, chunkSize);
      AppendInside(acc.current, d, rest, |rest|);
      assert docs[..|rest| + 1] == docs && rest[..|rest|] == rest;
    }
  }

  lemma AppendInside(current: string, d: string, rest: seq<string>, m: nat)
    requires m <= |rest|
    ensures current + Concat(([d] + rest)[..m + 1]) == (current + d) + Concat(rest[..m])
  {
    assert ([d] + rest)[..m + 1] == [d] + rest[..m];
    ConcatCons(d, rest[..m]);
  }

  /** The loop from any state equals the grouped description continued from that state. */
  lemma {:induction false} FeedIsGrouped(acc: Accumulator, docs: seq<string>, chunkSize: int)
    ensures Close(Feed(acc, docs, chunkSize)) == Resume(acc, docs, chunkSize)
    decreases |docs|
  {
    if docs == [] {
      assert acc.current + Concat(docs) == acc.current;
    } else {
      FeedIsGrouped(Step(acc, docs[0], chunkSize), docs[1..], chunkSize);
      if acc.counter >= chunkSize {
        ResumeAfterFlush(acc, docs, chunkSize);
      } else {
        ResumeAfterAppend(acc, docs, chunkSize);
      }
    }
  }

  /** The loop emits exactly the grouped texts. */
  lemma ChunkTextsAreGrouped(docs: seq<string>, chunkSize: int)
    ensures ChunkTexts(docs, chunkSize) == Grouped(docs, chunkSize)
  {
    FeedIsGrouped(Start, docs, chunkSize);
    ResumeFresh(Start, docs, chunkSize);
    assert [] + Grouped(docs, chunkSize) == Grouped(docs, chunkSize);
  }

  lemma ConcatVisible(docs: seq<string>)
    requires docs != [] && docs[0] != ""
    ensures Concat(docs) != ""
  {
    ConcatCons(docs[0], docs[1..]);
    assert docs == [docs[0]] + docs[1..];
  }

  /** With a positive chunk size and non-empty documents, no emitted chunk is empty. */
  lemma {:induction false} GroupsAreNonEmpty(docs: seq<string>, chunkSize: int)
    requires chunkSize >= 1
    requires forall i :: 0 <= i < |docs| ==> docs[i] != ""
    ensures forall t <- Grouped(docs, chunkSize) :: t != ""
    decreases |docs|
  {
    var n := Joined(docs, chunkSize, 0);
    if n < |docs| {
      assert n >= 1;
      assert docs[..n][0] == docs[0];
      ConcatVisible(docs[..n]);
      var tail := docs[n + 1..];
      assert forall j :: 0 <= j < |tail| ==> tail[j] == docs[n + 1 + j];
      GroupsAreNonEmpty(docs[n + 1..], chunkSize);
    } else if n == |docs| > 0 {
      ConcatVisible(docs);
    }
  }

  /**
   * With a positive chunk size and the filtered documents, every chunk the
   * chunker emits has visible text.
   */
  lemma ChunksAreNonEmpty(docs: seq<string>, chunkSize: int)
    requires chunkSize >= 1
    requires forall d <- docs :: d != ""
    ensures forall t <- ChunkTexts(docs, chunkSize) :: t != ""
  {
    assert forall i :: 0 <= i < |docs| ==> docs[i] in docs;
    GroupsAreNonEmpty(docs, chunkSize);
    ChunkTextsAreGrouped(docs, chunkSize);
  }

  /**
   * With a chunk size of zero or less, every document triggers a flush of an
   * empty chunk and is dropped: one empty chunk per document, each of size 1
   * (`"".split(" ") == [""]`).
   */
  lemma {:induction false} NonPositiveSizeDropsEverything(docs: seq<string>, chunkSize: int, uuids: nat -> Uuid)
    requires chunkSize <= 0
    ensures ChunkTexts(docs, chunkSize) == seq(|docs|, _ => "")
    ensures forall c <- ChunksOf(docs, chunkSize, uuids) :: c.text == "" && c.size == 1
    decreases |docs|
  {
    ChunkTextsAreGrouped(docs, chunkSize);
    if docs != [] {
      NonPositiveSizeDropsEverything(docs[1..], chunkSize, uuids);
      ChunkTextsAreGrouped(docs[1..], chunkSize);
      assert Concat(docs[..0]) == "";
      assert Grouped(docs, chunkSize) == [""] + Grouped(docs[1..], chunkSize);
    }
    assert Split("", ' ') == [""];
  }

  /** The running count of a document that is its own stripped form and splits into `words`. */
  lemma CountOf(doc: string, words: seq<string>)
    requires doc != [] && !IsSpace(doc[0]) && !IsSpace(doc[|doc| - 1])
    requires words != [] && forall w <- words :: ' ' !in w
    requires Join(words, " ") == doc
    ensures Strip(doc) == doc && WordsIn(doc) == SplitSize(doc) == |words|
  {
    assert TrimStart(doc) == doc;
    assert TrimEnd(doc) == doc;
    SplitJoin(words, ' ');
  }

  /**
   * The document met once the threshold is reached is lost: when the first
   * document alone reaches the chunk size, the second one flushes it and is
   * dropped, and the third one opens the next chunk.
   */
  lemma TriggerDocumentIsLost(d1: string, d2: string, d3: string, chunkSize: int)
    requires 0 < chunkSize <= WordsIn(d1) && d3 != ""
    ensures ChunkTexts([d1, d2, d3], chunkSize) == [d1, d3]
  {
    var s1 := Accumulator([], d1, WordsIn(d1));
    var s2 := Accumulator([d1], "", 0);
    var s3 := Accumulator([d1], d3, WordsIn(d3));
    assert Step(Start, d1, chunkSize) == s1 by {
      assert "" + d1 == d1;
    }
    assert Step(s1, d2, chunkSize) == s2;
    assert Step(s2, d3, chunkSize) == s3 by {
      assert "" + d3 == d3;
    }
    calc {
      Feed(Start, [d1, d2, d3], chunkSize);
      { assert [d1, d2, d3][1..] == [d2, d3]; }
      Feed(s1, [d2, d3], chunkSize);
      { assert [d2, d3][1..] == [d3]; }
      Feed(s2, [d3], chunkSize);
      Feed(s3, [], chunkSize);
      s3;
    }
  }

  /** With a chunk size of 2, `["a b", "c", "d"]` gives the chunks `"a b"` and `"d"`. */
  lemma TriggerExample()
    ensures ChunkTexts(["a b", "c", "d"], 2) == ["a b", "d"]
  {
    CountOf("a b", ["a", "b"]);
    TriggerDocumentIsLost("a b", "c", "d", 2);
  }

  /**
   * The stored size counts `" "`-separated pieces of the joined text, not the
   * documents' words: two stripped documents that stay below the chunk size
   * make one chunk whose stored size is one less than the running count, as
   * the last word of the first and the first word of the second run together
   * (`"A cat chased a mouse."` and `"The mouse escaped."` count 5 + 3 = 8, and
   * their chunk stores 7).
   */
  lemma SizeDiffersFromCounter(d1: string, d2: string, chunkSize: int, uuids: nat -> Uuid)
    requires d1 != "" && Strip(d1) == d1 && Strip(d2) == d2
    requires WordsIn(d1) + WordsIn(d2) < chunkSize
    ensures var counter := Feed(Start, [d1, d2], chunkSize).counter;
      && counter == WordsIn(d1) + WordsIn(d2)
      && ChunksOf([d1, d2], chunkSize, uuids) == [DataChunk(uuids(0), d1 + d2, counter - 1)]
  {
    assert WordsIn(d1) == SplitSize(d1) && WordsIn(d2) == SplitSize(d2);
    TwoDocsOneChunk(d1, d2, chunkSize);
    SplitLengthConcat(d1, d2, ' ');
    var chunks := ChunksOf([d1, d2], chunkSize, uuids);
    assert |chunks| == 1 && chunks[0] == DataChunk(uuids(0), d1 + d2, WordsIn(d1) + WordsIn(d2) - 1);
  }

  /** Two documents whose running count stays below the chunk size make a single chunk. */
  lemma TwoDocsOneChunk(d1: string, d2: string, chunkSize: int)
    requires d1 != "" && WordsIn(d1) + WordsIn(d2) < chunkSize
    ensures Feed(Start, [d1, d2], chunkSize) == Accumulator([], d1 + d2, WordsIn(d1) + WordsIn(d2))
    ensures ChunkTexts([d1, d2], chunkSize) == [d1 + d2]
  {
    var s1 := Accumulator([], d1, WordsIn(d1));
    assert Step(Start, d1, chunkSize) == s1;
    calc {
      Feed(Start, [d1, d2], chunkSize);
      { assert [d1, d2][1..] == [d2]; }
      Feed(s1, [d2], chunkSize);
      Feed(Step(s1, d2, chunkSize), [], chunkSize);
      Accumulator([], d1 + d2, WordsIn(d1) + WordsIn(d2));
    }
    assert (d1 + d2)[0] == d1[0];
  }

  // ---------------------------------------------------------------------------
  // The chunker object

  /**
   * A simple chunker. It is built from raw inputs (the base chunker's
   * constructor) and `GetOutput` stores and returns the chunks.
   */
  class SimpleChunker {
    const docs: seq<string>
    var chunks: seq<DataChunk>

    /** Every document has visible text, so its last stripped character exists. */
    ghost predicate Valid() {
      forall d <- docs :: Strip(d) != ""
    }

    /** `str()` of every input, placeholders dropped; no chunks yet. */
    constructor (inputs: seq<Value>)
      ensures docs == InputDocs(inputs) && chunks == []
      ensures Valid()
    {
      docs := FilterDocs(ToStrings(inputs));
      chunks := [];
      new;
      KeptDocsAreVisible(ToStrings(inputs));
    }

    /**
     * The greedy loop. `punctuations` stands for the set of closing punctuation
     * marks; the check against it has no effect, because the text with a period
     * appended is discarded. `uuids(k)` is the fresh id of the k-th chunk.
     */
    method ChunkText(punctuations: set<char>, uuids: nat -> Uuid, chunkSize: int := DefaultChunkSize)
      returns (result: seq<DataChunk>)
      requires Valid()
      ensures result == ChunksOf(docs, chunkSize, uuids)
    {
      result := [];
      var currentChunkSize, currentChunk := 0, "";
      ghost var acc := Start;
      for i := 0 to |docs|
        invariant acc.current == currentChunk && acc.counter == currentChunkSize
        invariant result == Label(acc.flushed, uuids)
        invariant Feed(acc, docs[i..], chunkSize) == Feed(Start, docs, chunkSize)
      {
        var doc := docs[i];
        assert docs[i..][0] == doc && docs[i..][1..] == docs[i + 1..];
        if currentChunkSize >= chunkSize {
          LabelAppend(acc.flushed, currentChunk, uuids);
          result := result + [DataChunk(uuids(|result|), currentChunk, |Split(currentChunk, ' ')|)];
          currentChunk := "";
          currentChunkSize := 0;
        } else {
          var stripped := Strip(doc);
          if stripped[|stripped| - 1] !in punctuations {
            var _ := doc + ". ";
          }
          currentChunk := currentChunk + doc;
          currentChunkSize := currentChunkSize + |Split(Strip(doc), ' ')|;
        }
        acc := Step(acc, doc, chunkSize);
      }
      if currentChunk != "" {
        LabelAppend(acc.flushed, currentChunk, uuids);
        result := result + [DataChunk(uuids(|result|), currentChunk, |Split(currentChunk, ' ')|)];
      }
      assert Feed(acc, [], chunkSize) == acc;
    }

    /** Chunks the documents, keeps the chunks and returns them. */
    method GetOutput(punctuations: set<char>, uuids: nat -> Uuid, chunkSize: int := DefaultChunkSize)
      returns (result: seq<DataChunk>)
      requires Valid()
      modifies this`chunks
      ensures chunks == result
      ensures result == ChunksOf(docs, chunkSize, uuids)
    {
      chunks := ChunkText(punctuations, uuids, chunkSize);
      result := chunks;
    }
  }
}

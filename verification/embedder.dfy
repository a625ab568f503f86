/** `OpenAIEmbedder`: texts are sent to the embeddings API in consecutive
    batches and the answers are concatenated, or zipped back onto copies of
    the chunks they came from. The API call is an oracle. */
module Embeddings {
  import opened Base
  import opened Models
  import opened Batching

  /** One call of the embeddings endpoint: the vectors of `response.data`
      in order, or the exception the client raises. */
  type EmbeddingApi = seq<string> -> Result<seq<Embedding>>

  /** The embedder's only state that matters: the API and the batch size. */
  datatype Embedder = Embedder(api: EmbeddingApi, batchSize: int)

  /** `batch_size or config.embedding_batch_size`: an absent or zero batch
      size falls back to the configured one. */
  function EffectiveBatchSize(given: Option<int>, configured: int): (n: int)
    ensures given.Some? && given.value != 0 ==> n == given.value
    ensures given.None? || given.value == 0 ==> n == configured
  {
    match given
    case Some(b) => if b != 0 then b else configured
    case None => configured
  }

  /** An API that answers every successful call with one vector per input. */
  ghost predicate OnePerInput(api: EmbeddingApi)
  {
    forall ts :: api(ts).Ok? ==> |api(ts).value| == |ts|
  }

  /** The loop of `embed_texts` over the given batches: call the API on each
      batch in turn and extend the result; the first failure propagates. */
  function EmbedBatches(api: EmbeddingApi, batches: seq<seq<string>>): (r: Result<seq<Embedding>>)
    decreases |batches|
  {
    if |batches| == 0 then Ok([])
    else
      match api(batches[0])
      case Err(e) => Err(e)
      case Ok(first) =>
        match EmbedBatches(api, batches[1..])
        case Err(e) => Err(e)
        case Ok(rest) => Ok(first + rest)
  }

  /** `embed_texts`. `range(0, n, 0)` raises `ValueError`; a negative batch
      size makes the range empty, so nothing is sent. */
  function EmbedTexts(e: Embedder, texts: seq<string>): (r: Result<seq<Embedding>>)
    ensures e.batchSize == 0 ==> r == Err(ValueError)
    ensures e.batchSize < 0 ==> r == Ok([])
  {
    if e.batchSize == 0 then Err(ValueError)
    else if e.batchSize < 0 then Ok([])
    else EmbedBatches(e.api, Batches(texts, e.batchSize))
  }

  /** The batched loop succeeds exactly when every call does, and then
      returns the answers concatenated in batch order. */
  lemma {:induction false} EmbedBatchesConcat(api: EmbeddingApi, batches: seq<seq<string>>)
    ensures EmbedBatches(api, batches).Ok? <==> forall i :: 0 <= i < |batches| ==> api(batches[i]).Ok?
    ensures EmbedBatches(api, batches).Ok? ==>
      EmbedBatches(api, batches).value == Flatten(seq(|batches|, i requires 0 <= i < |batches| => api(batches[i]).value))
    decreases |batches|
  {
    if |batches| > 0 {
      var tail := batches[1..];
      EmbedBatchesConcat(api, tail);
      assert forall i :: 1 <= i < |batches| ==> batches[i] == tail[i - 1];
      if EmbedBatches(api, batches).Ok? {
        var answers := seq(|batches|, i requires 0 <= i < |batches| => api(batches[i]).value);
        var tailAnswers := seq(|tail|, i requires 0 <= i < |tail| => api(tail[i]).value);
        assert answers[1..] == tailAnswers;
        assert Flatten(answers) == answers[0] + Flatten(answers[1..]);
      }
    }
  }

  /** With a one-per-input API, the batched loop returns one vector per text. */
  lemma {:induction false} EmbedBatchesLength(api: EmbeddingApi, batches: seq<seq<string>>)
    requires OnePerInput(api)
    requires EmbedBatches(api, batches).Ok?
    ensures |EmbedBatches(api, batches).value| == |Flatten(batches)|
    decreases |batches|
  {
    if |batches| > 0 {
      EmbedBatchesLength(api, batches[1..]);
    }
  }

  /** `embed_texts` with a one-per-input API and a positive batch size
      returns exactly one vector per text. */
  lemma EmbedTextsLength(e: Embedder, texts: seq<string>)
    requires e.batchSize > 0 && OnePerInput(e.api)
    requires EmbedTexts(e, texts).Ok?
    ensures |EmbedTexts(e, texts).value| == |texts|
  {
    EmbedBatchesLength(e.api, Batches(texts, e.batchSize));
    FlattenBatches(texts, e.batchSize);
  }

  /** Empty input sends nothing: the answer does not depend on the API. */
  lemma EmbedTextsEmpty(api1: EmbeddingApi, api2: EmbeddingApi, batchSize: int)
    requires batchSize != 0
    ensures EmbedTexts(Embedder(api1, batchSize), []) == EmbedTexts(Embedder(api2, batchSize), []) == Ok([])
  {
  }

  /** `[chunk.content for chunk in chunks]`. */
  function Contents(chunks: seq<DocumentChunk>): (ts: seq<string>)
    ensures |ts| == |chunks|
    ensures forall k :: 0 <= k < |chunks| ==> ts[k] == chunks[k].content
  {
    seq(|chunks|, k requires 0 <= k < |chunks| => chunks[k].content)
  }

  /** The text batches are the contents of the chunk batches, batch by batch. */
  lemma {:induction false} BatchesOfContents(chunks: seq<DocumentChunk>, size: nat)
    requires size > 0
    ensures |Batches(Contents(chunks), size)| == |Batches(chunks, size)|
    ensures forall i :: 0 <= i < |Batches(chunks, size)| ==>
      Batches(Contents(chunks), size)[i] == Contents(Batches(chunks, size)[i])
    decreases |chunks|
  {
    if |chunks| > size {
      BatchesOfContents(chunks[size..], size);
      assert Contents(chunks)[size..] == Contents(chunks[size..]);
      assert Contents(chunks)[..size] == Contents(chunks[..size]);
    } else if |chunks| > 0 {
      assert Batches(Contents(chunks), size) == [Contents(chunks)];
    }
  }

  /** The inner loop of `embed_chunks`: for each vector of the answer, a copy
      of the chunk at the same position with that vector set. A longer
      answer than batch overruns the batch and raises `IndexError`; a
      shorter one silently leaves the remaining chunks out. */
  function ZipBatch(batch: seq<DocumentChunk>, vectors: seq<Embedding>): (r: Result<seq<DocumentChunk>>)
    ensures r.Err? <==> |vectors| > |batch|
    ensures r.Ok? ==> |r.value| == |vectors|
    ensures r.Ok? ==> forall j :: 0 <= j < |vectors| ==> r.value[j] == batch[j].(embedding := Some(vectors[j]))
  {
    if |vectors| > |batch| then Err(IndexError)
    else Ok(seq(|vectors|, j requires 0 <= j < |vectors| => batch[j].(embedding := Some(vectors[j]))))
  }

  /** The outer loop of `embed_chunks` over aligned text and chunk batches. */
  function EmbedChunkBatches(api: EmbeddingApi, textBatches: seq<seq<string>>,
                             chunkBatches: seq<seq<DocumentChunk>>): (r: Result<seq<DocumentChunk>>)
    requires |textBatches| == |chunkBatches|
    decreases |textBatches|
  {
    if |textBatches| == 0 then Ok([])
    else
      match api(textBatches[0])
      case Err(e) => Err(e)
      case Ok(vectors) =>
        match ZipBatch(chunkBatches[0], vectors)
        case Err(e) => Err(e)
        case Ok(first) =>
          match EmbedChunkBatches(api, textBatches[1..], chunkBatches[1..])
          case Err(e) => Err(e)
          case Ok(rest) => Ok(first + rest)
  }

  /** Every chunk the batch loop returns carries an embedding, whatever the
      API answers. */
  lemma {:induction false} EmbedChunkBatchesEmbedded(api: EmbeddingApi, textBatches: seq<seq<string>>,
                                                    chunkBatches: seq<seq<DocumentChunk>>)
    requires |textBatches| == |chunkBatches|
    ensures var r := EmbedChunkBatches(api, textBatches, chunkBatches);
      r.Ok? ==> forall k :: 0 <= k < |r.value| ==> r.value[k].embedding.Some?
    decreases |textBatches|
  {
    if |textBatches| > 0 {
      EmbedChunkBatchesEmbedded(api, textBatches[1..], chunkBatches[1..]);
    }
  }

  /** `embed_chunks`: slice the contents and the chunks with the same
      stride, then embed batch by batch. */
  function EmbedChunks(e: Embedder, chunks: seq<DocumentChunk>): (r: Result<seq<DocumentChunk>>)
    ensures e.batchSize == 0 ==> r == Err(ValueError)
    ensures e.batchSize < 0 ==> r == Ok([])
    ensures r.Ok? ==> forall k :: 0 <= k < |r.value| ==> r.value[k].embedding.Some?
  {
    if e.batchSize == 0 then Err(ValueError)
    else if e.batchSize < 0 then Ok([])
    else
      var size: nat := e.batchSize;
      BatchesOfContents(chunks, size);
      EmbedChunkBatchesEmbedded(e.api, Batches(Contents(chunks), size), Batches(chunks, size));
      EmbedChunkBatches(e.api, Batches(Contents(chunks), size), Batches(chunks, size))
  }

  /** With a one-per-input API the chunk loop keeps every chunk of every
      batch, in order, replacing only the embedding. */
  lemma {:induction false} EmbedChunkBatchesPositional(api: EmbeddingApi, textBatches: seq<seq<string>>,
                                                      chunkBatches: seq<seq<DocumentChunk>>)
    requires |textBatches| == |chunkBatches|
    requires forall i :: 0 <= i < |textBatches| ==> |textBatches[i]| == |chunkBatches[i]|
    requires OnePerInput(api)
    requires EmbedChunkBatches(api, textBatches, chunkBatches).Ok?
    ensures var out := EmbedChunkBatches(api, textBatches, chunkBatches).value;
      && |out| == |Flatten(chunkBatches)|
      && forall k :: 0 <= k < |out| ==>
           out[k].embedding.Some? && out[k] == Flatten(chunkBatches)[k].(embedding := out[k].embedding)
    decreases |textBatches|
  {
    if |textBatches| > 0 {
      EmbedChunkBatchesPositional(api, textBatches[1..], chunkBatches[1..]);
      var vectors := api(textBatches[0]).value;
      var first := ZipBatch(chunkBatches[0], vectors).value;
      var rest := EmbedChunkBatches(api, textBatches[1..], chunkBatches[1..]).value;
      var out := EmbedChunkBatches(api, textBatches, chunkBatches).value;
      assert out == first + rest;
      var flat := Flatten(chunkBatches);
      assert flat == chunkBatches[0] + Flatten(chunkBatches[1..]);
      assert |first| == |chunkBatches[0]|;
      forall k | 0 <= k < |out|
        ensures out[k].embedding.Some? && out[k] == flat[k].(embedding := out[k].embedding)
      {
        if k < |first| {
          assert out[k] == first[k] && flat[k] == chunkBatches[0][k];
        } else {
          assert out[k] == rest[k - |first|] && flat[k] == Flatten(chunkBatches[1..])[k - |first|];
        }
      }
    }
  }

  /** `embed_chunks` with a one-per-input API and a positive batch size: the
      k-th output is the k-th input chunk with only its embedding set. */
  lemma EmbedChunksPositional(e: Embedder, chunks: seq<DocumentChunk>)
    requires e.batchSize > 0 && OnePerInput(e.api)
    requires EmbedChunks(e, chunks).Ok?
    ensures |EmbedChunks(e, chunks).value| == |chunks|
    ensures forall k :: 0 <= k < |chunks| ==>
      && EmbedChunks(e, chunks).value[k].embedding.Some?
      && EmbedChunks(e, chunks).value[k] == chunks[k].(embedding := EmbedChunks(e, chunks).value[k].embedding)
  {
    var size: nat := e.batchSize;
    BatchesOfContents(chunks, size);
    var tbs := Batches(Contents(chunks), size);
    var cbs := Batches(chunks, size);
    forall i | 0 <= i < |tbs| ensures |tbs[i]| == |cbs[i]| {
      assert tbs[i] == Contents(cbs[i]);
    }
    EmbedChunkBatchesPositional(e.api, tbs, cbs);
    FlattenBatches(chunks, size);
  }

  /** Empty input sends nothing and returns nothing. */
  lemma EmbedChunksEmpty(api1: EmbeddingApi, api2: EmbeddingApi, batchSize: int)
    requires batchSize != 0
    ensures EmbedChunks(Embedder(api1, batchSize), []) == EmbedChunks(Embedder(api2, batchSize), []) == Ok([])
  {
  }
}

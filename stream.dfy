/**
 * The response body as the blob store reads it: a sequence of chunks handed
 * out by the body reader, accumulated into one byte sequence, with one
 * progress report per chunk (index.js:57-87).
 */
module Stream {
  import opened Wrappers

  /** One octet of a response body. */
  type byte = bv8

  /** One value delivered by the body reader (a `Uint8Array`). */
  type Chunk = seq<byte>

  /** How the body ends once every chunk has been delivered. */
  datatype StreamEnd =
    | Complete                 // `read()` reports `done`
    | Broken(message: string)  // `read()` rejects, e.g. the connection drops

  /** A response body: the chunks it delivers, in order, and how it ends. */
  datatype Body = Body(chunks: seq<Chunk>, end: StreamEnd)

  /** What one `read()` on the body reader yields. */
  datatype ReadResult = Value(chunk: Chunk) | Done | Failed(message: string)

  /** The result of the `read()` call made after `index` chunks were taken. */
  function Read(body: Body, index: nat): ReadResult
  {
    if index < |body.chunks| then Value(body.chunks[index])
    else match body.end
      case Complete => Done
      case Broken(message) => Failed(message)
  }

  /** The number of bytes in `chunks` altogether: the sum of their lengths. */
  function TotalLength(chunks: seq<Chunk>): (total: nat)
    ensures total == 0 <==> forall k :: 0 <= k < |chunks| ==> chunks[k] == []
    ensures forall k :: 0 <= k < |chunks| ==> |chunks[k]| <= total
  {
    if chunks == [] then 0
    else TotalLength(chunks[..|chunks| - 1]) + |chunks[|chunks| - 1]|
  }

  /** The chunks laid end to end, in the order they were read. */
  function Concat(chunks: seq<Chunk>): (data: seq<byte>)
    ensures |data| == TotalLength(chunks)
  {
    if chunks == [] then []
    else Concat(chunks[..|chunks| - 1]) + chunks[|chunks| - 1]
  }

  /**
   * One call of the progress callback. The source passes the quotient
   * `bytesReceived / contentLength`, where `contentLength` is the header's
   * text; the model keeps the numerator and the header text instead.
   */
  datatype Progress = Progress(received: nat, contentLength: string)

  /** The progress reports made while reading `chunks`, one per chunk. */
  function ProgressTrace(chunks: seq<Chunk>, contentLength: string): (trace: seq<Progress>)
    ensures |trace| == |chunks|
  {
    if chunks == [] then []
    else ProgressTrace(chunks[..|chunks| - 1], contentLength) + [Progress(TotalLength(chunks), contentLength)]
  }

  /** Report `i` carries the bytes of every chunk up to and including chunk `i`. */
  lemma {:induction false} ProgressTraceAt(chunks: seq<Chunk>, contentLength: string, i: nat)
    requires i < |chunks|
    ensures ProgressTrace(chunks, contentLength)[i] == Progress(TotalLength(chunks[..i]) + |chunks[i]|, contentLength)
    decreases |chunks|
  {
    var prefix := chunks[..|chunks| - 1];
    if i < |prefix| {
      ProgressTraceAt(prefix, contentLength, i);
      assert prefix[..i] == chunks[..i];
    } else {
      assert chunks[..i] == prefix;
    }
  }

  /**
   * The read loop of the stream's `start` callback: read until the reader
   * reports `done`, enqueue each chunk, add its length to `bytesReceived` and,
   * when a callback is supplied, report progress. A rejected `read()` ends the
   * loop with `failure`. The loop runs while `read()` yields a value, which is
   * the source's `while (true)` with its `break` on `done`.
   */
  method ReadStream(body: Body, contentLength: string, onProgress: bool)
    returns (data: seq<byte>, bytesReceived: nat, reports: seq<Progress>, failure: Option<string>)
    ensures data == Concat(body.chunks)
    ensures bytesReceived == TotalLength(body.chunks)
    ensures reports == if onProgress then ProgressTrace(body.chunks, contentLength) else []
    ensures failure.Some? <==> body.end.Broken?
    ensures body.end.Broken? ==> failure == Some(body.end.message)
  {
    data, bytesReceived, reports, failure := [], 0, [], None;
    var index := 0;
    var next := Read(body, index);
    while next.Value?
      invariant index <= |body.chunks|
      invariant next == Read(body, index)
      invariant data == Concat(body.chunks[..index])
      invariant bytesReceived == TotalLength(body.chunks[..index])
      invariant reports == if onProgress then ProgressTrace(body.chunks[..index], contentLength) else []
      decreases |body.chunks| - index
    {
      PrefixStep(body.chunks, contentLength, index);
      data := data + next.chunk;
      bytesReceived := bytesReceived + |next.chunk|;
      if onProgress {
        reports := reports + [Progress(bytesReceived, contentLength)];
      }
      index := index + 1;
      next := Read(body, index);
    }
    assert body.chunks[..index] == body.chunks;
    if next.Failed? {
      failure := Some(next.message);
    }
  }

  /** Reading one more chunk extends the bytes, the count and the reports by that chunk. */
  lemma PrefixStep(chunks: seq<Chunk>, contentLength: string, n: nat)
    requires n < |chunks|
    ensures Concat(chunks[..n + 1]) == Concat(chunks[..n]) + chunks[n]
    ensures TotalLength(chunks[..n + 1]) == TotalLength(chunks[..n]) + |chunks[n]|
    ensures ProgressTrace(chunks[..n + 1], contentLength) ==
            ProgressTrace(chunks[..n], contentLength) + [Progress(TotalLength(chunks[..n + 1]), contentLength)]
  {
    assert chunks[..n + 1][..n] == chunks[..n];
  }

  /** Lengths add up over a split of the chunk sequence. */
  lemma {:induction false} TotalLengthAppend(front: seq<Chunk>, back: seq<Chunk>)
    ensures TotalLength(front + back) == TotalLength(front) + TotalLength(back)
    decreases |back|
  {
    if back != [] {
      var last := |back| - 1;
      assert (front + back)[..|front + back| - 1] == front + back[..last];
      TotalLengthAppend(front, back[..last]);
    } else {
      assert front + back == front;
    }
  }

  /** Concatenation distributes over a split of the chunk sequence. */
  lemma {:induction false} ConcatAppend(front: seq<Chunk>, back: seq<Chunk>)
    ensures Concat(front + back) == Concat(front) + Concat(back)
    decreases |back|
  {
    if back != [] {
      var last := |back| - 1;
      assert (front + back)[..|front + back| - 1] == front + back[..last];
      ConcatAppend(front, back[..last]);
    } else {
      assert front + back == front;
    }
  }

  /**
   * The stored bytes keep the chunks in read order: chunk `i` sits right after
   * the bytes of the chunks before it.
   */
  lemma ConcatChunkAt(chunks: seq<Chunk>, i: nat)
    requires i < |chunks|
    ensures TotalLength(chunks[..i]) + |chunks[i]| == TotalLength(chunks[..i + 1]) <= |Concat(chunks)|
    ensures Concat(chunks)[TotalLength(chunks[..i])..TotalLength(chunks[..i + 1])] == chunks[i]
  {
    assert chunks[..i + 1][..i] == chunks[..i];
    assert chunks == chunks[..i + 1] + chunks[i + 1..];
    ConcatAppend(chunks[..i + 1], chunks[i + 1..]);
  }

  /** Each report adds exactly the length of its own chunk to the one before. */
  lemma ProgressStep(chunks: seq<Chunk>, contentLength: string, i: nat)
    requires i < |chunks|
    ensures ProgressTrace(chunks, contentLength)[i].received ==
            (if i == 0 then 0 else ProgressTrace(chunks, contentLength)[i - 1].received) + |chunks[i]|
  {
    ProgressTraceAt(chunks, contentLength, i);
    if i > 0 {
      ProgressTraceAt(chunks, contentLength, i - 1);
      PrefixStep(chunks, contentLength, i - 1);
    }
  }

  /** `bytesReceived` never decreases from one report to the next. */
  lemma ProgressNondecreasing(chunks: seq<Chunk>, contentLength: string, i: nat, j: nat)
    requires i <= j < |chunks|
    ensures ProgressTrace(chunks, contentLength)[i].received <= ProgressTrace(chunks, contentLength)[j].received
  {
    ProgressTraceAt(chunks, contentLength, i);
    ProgressTraceAt(chunks, contentLength, j);
    if i < j {
      assert chunks[..j] == chunks[..i + 1] + chunks[i + 1..j];
      TotalLengthAppend(chunks[..i + 1], chunks[i + 1..j]);
      PrefixStep(chunks, contentLength, i);
    }
  }

  /** With no empty chunk, the reports increase strictly. */
  lemma ProgressIncreasing(chunks: seq<Chunk>, contentLength: string, i: nat, j: nat)
    requires forall k :: 0 <= k < |chunks| ==> |chunks[k]| > 0
    requires i < j < |chunks|
    ensures ProgressTrace(chunks, contentLength)[i].received < ProgressTrace(chunks, contentLength)[j].received
  {
    ProgressNondecreasing(chunks, contentLength, i, j - 1);
    ProgressStep(chunks, contentLength, j);
  }

  /** The last report counts every byte of the body. */
  lemma ProgressEndsAtTotal(chunks: seq<Chunk>, contentLength: string)
    requires chunks != []
    ensures ProgressTrace(chunks, contentLength)[|chunks| - 1].received == |Concat(chunks)|
  {
  }
}

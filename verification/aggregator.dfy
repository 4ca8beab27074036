/**
 * The frame aggregator of the FFT worker (src/fft_worker.rs lines 13-16,
 * inlined again in src/main.rs lines 75-79): every incoming chunk is appended
 * to a pending buffer, and while that buffer holds at least FFT_SIZE samples
 * exactly FFT_SIZE samples are drained from its front as one analysis window.
 */
module Aggregator {
  import opened Constants
  import opened Seqs
  import Arith

  /** The windows drained by one aggregation step, in order, and what is left pending. */
  datatype Drained<T> = Drained(windows: seq<seq<T>>, pending: seq<T>)

  /**
   * The `while buffer.len() >= FFT_SIZE { buffer.drain(..FFT_SIZE) }` loop
   * run over `buffer`.
   */
  function Drain<T>(buffer: seq<T>): (r: Drained<T>)
    ensures AllOfLength(r.windows, FFT_SIZE)
    ensures |r.pending| < FFT_SIZE
    ensures Flatten(r.windows) + r.pending == buffer
    decreases |buffer|
  {
    if |buffer| < FFT_SIZE then Drained([], buffer)
    else
      var rest := Drain(buffer[FFT_SIZE..]);
      var windows := [buffer[..FFT_SIZE]] + rest.windows;
      assert windows[0] == buffer[..FFT_SIZE] && windows[1..] == rest.windows;
      assert buffer == buffer[..FFT_SIZE] + buffer[FFT_SIZE..];
      Drained(windows, rest.pending)
  }

  /** The drain yields exactly `|buffer| / FFT_SIZE` windows. */
  lemma DrainCount<T>(buffer: seq<T>)
    ensures |Drain(buffer).windows| == |buffer| / FFT_SIZE
  {
    var r := Drain(buffer);
    FlattenLength(r.windows, FFT_SIZE);
    BlockStartIsProduct(|r.windows|, FFT_SIZE);
    Arith.DivOf(|buffer|, FFT_SIZE, |r.windows|, |r.pending|);
  }

  /** `buffer.extend(chunk)` followed by the drain loop: one iteration of `for chunk in rx`. */
  function Ingest<T>(pending: seq<T>, chunk: seq<T>): (r: Drained<T>)
    ensures AllOfLength(r.windows, FFT_SIZE)
    ensures |r.pending| < FFT_SIZE
    ensures Flatten(r.windows) + r.pending == pending + chunk
    ensures |r.windows| == (|pending| + |chunk|) / FFT_SIZE
    ensures |chunk| == 0 && |pending| < FFT_SIZE ==> r == Drained([], pending)
  {
    DrainCount(pending + chunk);
    Drain(pending + chunk)
  }

  /** The `for chunk in rx` loop over a finite run of chunks, collecting every window. */
  function IngestAll<T>(pending: seq<T>, chunks: seq<seq<T>>): (r: Drained<T>)
    ensures AllOfLength(r.windows, FFT_SIZE)
    ensures Flatten(r.windows) + r.pending == pending + Flatten(chunks)
    ensures |pending| < FFT_SIZE ==> |r.pending| < FFT_SIZE
    decreases |chunks|
  {
    if |chunks| == 0 then Drained([], pending)
    else
      var first := Ingest(pending, chunks[0]);
      var rest := IngestAll(first.pending, chunks[1..]);
      JoinSteps(pending, chunks, first.windows, first.pending, rest.windows, rest.pending);
      Drained(first.windows + rest.windows, rest.pending)
  }

  /** Gluing the windows of the first chunk to those of the remaining chunks. */
  lemma JoinSteps<T>(pending: seq<T>, chunks: seq<seq<T>>,
                     firstWindows: seq<seq<T>>, firstPending: seq<T>,
                     restWindows: seq<seq<T>>, restPending: seq<T>)
    requires |chunks| > 0
    requires AllOfLength(firstWindows, FFT_SIZE) && AllOfLength(restWindows, FFT_SIZE)
    requires Flatten(firstWindows) + firstPending == pending + chunks[0]
    requires Flatten(restWindows) + restPending == firstPending + Flatten(chunks[1..])
    ensures AllOfLength(firstWindows + restWindows, FFT_SIZE)
    ensures Flatten(firstWindows + restWindows) + restPending == pending + Flatten(chunks)
  {
    AllOfLengthAppend(firstWindows, restWindows, FFT_SIZE);
    FlattenAppend(firstWindows, restWindows);
    assert Flatten(chunks) == chunks[0] + Flatten(chunks[1..]);
    Regroup(Flatten(firstWindows), firstPending, Flatten(restWindows), restPending,
            pending, chunks[0], Flatten(chunks[1..]));
  }

  /**
   * A split of `buffer` into whole windows followed by a remainder shorter
   * than one window is unique: it is the one the drain loop produces.
   */
  lemma {:induction false} DrainUnique<T>(buffer: seq<T>, windows: seq<seq<T>>, rest: seq<T>)
    requires AllOfLength(windows, FFT_SIZE)
    requires |rest| < FFT_SIZE
    requires Flatten(windows) + rest == buffer
    ensures Drain(buffer) == Drained(windows, rest)
    decreases |windows|
  {
    if |windows| == 0 {
      assert buffer == rest;
    } else {
      var tail := Flatten(windows[1..]) + rest;
      assert buffer == windows[0] + tail;
      assert buffer[..FFT_SIZE] == windows[0];
      assert buffer[FFT_SIZE..] == tail;
      DrainUnique(tail, windows[1..], rest);
      assert [windows[0]] + windows[1..] == windows;
    }
  }

  /**
   * Window i of the drain is samples [i*FFT_SIZE, (i+1)*FFT_SIZE) of the
   * buffer and the remainder is everything after the last whole window.
   */
  lemma DrainSlices<T>(buffer: seq<T>)
    ensures var r := Drain(buffer);
      && BlockStart(|r.windows|, FFT_SIZE) + |r.pending| == |buffer|
      && (forall i {:trigger r.windows[i]} :: 0 <= i < |r.windows| ==>
            r.windows[i] == buffer[BlockStart(i, FFT_SIZE) .. BlockStart(i + 1, FFT_SIZE)])
      && r.pending == buffer[BlockStart(|r.windows|, FFT_SIZE)..]
  {
    var r := Drain(buffer);
    var whole := Flatten(r.windows);
    FlattenBlocks(r.windows, FFT_SIZE);
    assert whole == buffer[..|whole|];
    assert r.pending == buffer[|whole|..];
    forall i | 0 <= i < |r.windows|
      ensures r.windows[i] == buffer[BlockStart(i, FFT_SIZE) .. BlockStart(i + 1, FFT_SIZE)]
    {
      SliceOfPrefix(buffer, |whole|, BlockStart(i, FFT_SIZE), BlockStart(i + 1, FFT_SIZE));
    }
  }

  /**
   * Contiguity across a stream: feeding the chunks one at a time yields the
   * same windows and remainder as draining their concatenation at once, so
   * chunk boundaries never lose, duplicate or reorder a sample.
   */
  lemma ChunkingInvariant<T>(pending: seq<T>, chunks: seq<seq<T>>)
    requires |pending| < FFT_SIZE
    ensures IngestAll(pending, chunks) == Drain(pending + Flatten(chunks))
  {
    var r := IngestAll(pending, chunks);
    DrainUnique(pending + Flatten(chunks), r.windows, r.pending);
  }
}

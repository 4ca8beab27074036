/**
 * The FFT worker thread (src/fft_worker.rs lines 7-34, inlined again in
 * src/main.rs lines 69-98): for each chunk received it runs the aggregator,
 * turns every drained window into a spectral frame and pushes that frame
 * into the rolling history. The lock around the history is left out: each
 * push is one atomic step on a sequence value.
 */
module Pipeline {
  import opened Constants
  import opened Seqs
  import Aggregator
  import Transform
  import Store

  /** The worker's state: its pending sample buffer and the shared history. */
  datatype Worker = Worker(buffer: seq<real>, history: seq<seq<real>>)

  /** The worker as created: an empty buffer and the zero-filled history. */
  function Start(): (w: Worker)
    ensures w.buffer == []
    ensures Store.WellFormed(w.history)
  {
    Worker([], Store.Initial())
  }

  /**
   * One window through the transform. `fft` stands for the planned forward
   * FFT followed by `norm() / FFT_SIZE` and `log10()` on every output.
   */
  function Analyze(fft: seq<real> -> Transform.Spectrum, window: seq<real>): (f: seq<real>)
    ensures |f| == BINS
    ensures forall k :: 0 <= k < BINS ==> f[k] >= 0.0
  {
    Transform.Frame(fft(window))
  }

  /** Bin k of a window's frame is the compressed FFT output k of that window. */
  lemma AnalyzeBins(fft: seq<real> -> Transform.Spectrum, window: seq<real>)
    ensures var f := Analyze(fft, window);
      forall k :: 0 <= k < BINS ==> f[k] == Transform.Compress(fft(window)[k])
  {
  }

  /** The frames of a run of windows, in the same order. */
  function AnalyzeAll(fft: seq<real> -> Transform.Spectrum, windows: seq<seq<real>>): (frames: seq<seq<real>>)
    ensures |frames| == |windows|
    ensures forall i :: 0 <= i < |windows| ==> frames[i] == Analyze(fft, windows[i])
    decreases |windows|
  {
    if |windows| == 0 then [] else [Analyze(fft, windows[0])] + AnalyzeAll(fft, windows[1..])
  }

  lemma AnalyzeAllAppend(fft: seq<real> -> Transform.Spectrum, a: seq<seq<real>>, b: seq<seq<real>>)
    ensures AnalyzeAll(fft, a + b) == AnalyzeAll(fft, a) + AnalyzeAll(fft, b)
  {
    var l := AnalyzeAll(fft, a + b);
    var r := AnalyzeAll(fft, a) + AnalyzeAll(fft, b);
    assert |l| == |r|;
    forall i | 0 <= i < |l|
      ensures l[i] == r[i]
    {
      if i < |a| {
        assert (a + b)[i] == a[i];
      } else {
        assert (a + b)[i] == b[i - |a|];
      }
    }
  }

  /**
   * One iteration of `for chunk in rx`: extend the buffer, drain whole
   * windows, and push one frame per window, oldest window first.
   */
  function OnChunk(fft: seq<real> -> Transform.Spectrum, w: Worker, chunk: seq<real>): (w': Worker)
    ensures |w'.buffer| < FFT_SIZE
    ensures |w.history| > 0 ==> |w'.history| == |w.history|
    ensures Store.WellFormed(w.history) ==> Store.WellFormed(w'.history)
    ensures var k := (|w.buffer| + |chunk|) / FFT_SIZE;
      && BlockStart(k, FFT_SIZE) <= |w.buffer| + |chunk|
      && w'.buffer == (w.buffer + chunk)[BlockStart(k, FFT_SIZE)..]
      && (|w.history| > 0 && k > 0 ==>
            w'.history[0] == Analyze(fft, (w.buffer + chunk)[BlockStart(k - 1, FFT_SIZE) .. BlockStart(k, FFT_SIZE)]))
    ensures |w.buffer| + |chunk| < FFT_SIZE ==> w'.history == w.history
  {
    var d := Aggregator.Ingest(w.buffer, chunk);
    DrainAndPush(fft, w.history, w.buffer + chunk);
    Worker(d.pending, Store.PushAll(w.history, AnalyzeAll(fft, d.windows)))
  }

  /** The facts `OnChunk` promises, for the concatenated samples `s`. */
  lemma DrainAndPush(fft: seq<real> -> Transform.Spectrum, history: seq<seq<real>>, s: seq<real>)
    ensures var d := Aggregator.Drain(s);
      var h := Store.PushAll(history, AnalyzeAll(fft, d.windows));
      var k := |s| / FFT_SIZE;
      && BlockStart(k, FFT_SIZE) <= |s|
      && d.pending == s[BlockStart(k, FFT_SIZE)..]
      && (|history| > 0 ==> |h| == |history|)
      && (Store.WellFormed(history) ==> Store.WellFormed(h))
      && (|history| > 0 && k > 0 ==> h[0] == Analyze(fft, s[BlockStart(k - 1, FFT_SIZE) .. BlockStart(k, FFT_SIZE)]))
      && (|s| < FFT_SIZE ==> h == history)
  {
    var d := Aggregator.Drain(s);
    var frames := AnalyzeAll(fft, d.windows);
    var k := |s| / FFT_SIZE;
    Aggregator.DrainCount(s);
    Aggregator.DrainSlices(s);
    PushFrames(history, frames);
    if k > 0 {
      assert d.windows[k - 1] == s[BlockStart(k - 1, FFT_SIZE) .. BlockStart(k, FFT_SIZE)];
      assert frames[k - 1] == Analyze(fft, d.windows[k - 1]);
    }
  }

  /** What pushing a run of analysed frames does to a history, in either case. */
  lemma PushFrames(history: seq<seq<real>>, frames: seq<seq<real>>)
    requires forall i :: 0 <= i < |frames| ==> |frames[i]| == BINS
    ensures var h := Store.PushAll(history, frames);
      && (|history| > 0 ==> |h| == |history|)
      && (|history| > 0 && |frames| > 0 ==> h[0] == frames[|frames| - 1])
      && (Store.WellFormed(history) ==> Store.WellFormed(h))
  {
    if |history| > 0 {
      Store.PushAllOrder(history, frames);
    }
    if Store.WellFormed(history) {
      Store.PushAllPreservesWellFormed(history, frames);
    }
  }

  /**
   * The worker loop body as the source writes it: a `while` loop that drains
   * one window, analyses it, pops the oldest frame and inserts the new one
   * at index 0, until fewer than FFT_SIZE samples are pending.
   */
  method ProcessChunk(fft: seq<real> -> Transform.Spectrum, buffer: seq<real>,
                      history: seq<seq<real>>, chunk: seq<real>)
    returns (buffer': seq<real>, history': seq<seq<real>>)
    ensures |buffer'| < FFT_SIZE
    ensures Worker(buffer', history') == OnChunk(fft, Worker(buffer, history), chunk)
  {
    buffer' := buffer + chunk;
    history' := history;
    ghost var windows: seq<seq<real>> := [];
    while |buffer'| >= FFT_SIZE
      invariant AllOfLength(windows, FFT_SIZE)
      invariant Flatten(windows) + buffer' == buffer + chunk
      invariant history' == Store.PushAll(history, AnalyzeAll(fft, windows))
      decreases |buffer'|
    {
      var window := buffer'[..FFT_SIZE];
      var frame := Analyze(fft, window);
      DrainStep(windows, buffer');
      PushStep(fft, history, windows, window);
      buffer' := buffer'[FFT_SIZE..];
      history' := Store.Push(history', frame);
      windows := windows + [window];
    }
    Aggregator.DrainUnique(buffer + chunk, windows, buffer');
  }

  /** Moving one window from the front of the buffer to the end of the drained windows. */
  lemma DrainStep(windows: seq<seq<real>>, buffer: seq<real>)
    requires |buffer| >= FFT_SIZE
    ensures Flatten(windows + [buffer[..FFT_SIZE]]) + buffer[FFT_SIZE..] == Flatten(windows) + buffer
  {
    var window, rest := buffer[..FFT_SIZE], buffer[FFT_SIZE..];
    FlattenAppend(windows, [window]);
    FlattenOne(window);
    assert buffer == window + rest;
    assert (Flatten(windows) + window) + rest == Flatten(windows) + (window + rest);
  }

  /** Pushing the frame of one more window extends the history of the earlier windows. */
  lemma PushStep(fft: seq<real> -> Transform.Spectrum, history: seq<seq<real>>,
                 windows: seq<seq<real>>, window: seq<real>)
    ensures Store.PushAll(history, AnalyzeAll(fft, windows + [window]))
         == Store.Push(Store.PushAll(history, AnalyzeAll(fft, windows)), Analyze(fft, window))
  {
    var frames := AnalyzeAll(fft, windows);
    var all := AnalyzeAll(fft, windows + [window]);
    AnalyzeAllAppend(fft, windows, [window]);
    assert AnalyzeAll(fft, [window]) == [Analyze(fft, window)];
    assert all[..|all| - 1] == frames;
    assert all[|all| - 1] == Analyze(fft, window);
  }

  /** The worker loop over a finite run of chunks, in arrival order. */
  function Run(fft: seq<real> -> Transform.Spectrum, w: Worker, chunks: seq<seq<real>>): (w': Worker)
    ensures Store.WellFormed(w.history) ==> Store.WellFormed(w'.history)
    decreases |chunks|
  {
    if |chunks| == 0 then w else Run(fft, OnChunk(fft, w, chunks[0]), chunks[1..])
  }

  /**
   * Running the worker chunk by chunk is the same as draining all the
   * chunks' samples at once and pushing one frame per window.
   */
  lemma {:induction false} RunIsBatch(fft: seq<real> -> Transform.Spectrum, w: Worker, chunks: seq<seq<real>>)
    ensures var d := Aggregator.IngestAll(w.buffer, chunks);
      Run(fft, w, chunks) == Worker(d.pending, Store.PushAll(w.history, AnalyzeAll(fft, d.windows)))
    decreases |chunks|
  {
    if |chunks| > 0 {
      var first := Aggregator.Ingest(w.buffer, chunks[0]);
      var w1 := OnChunk(fft, w, chunks[0]);
      assert w1 == Worker(first.pending, Store.PushAll(w.history, AnalyzeAll(fft, first.windows)));
      RunIsBatch(fft, w1, chunks[1..]);
      var rest := Aggregator.IngestAll(first.pending, chunks[1..]);
      AnalyzeAllAppend(fft, first.windows, rest.windows);
      Store.PushAllAppend(w.history, AnalyzeAll(fft, first.windows), AnalyzeAll(fft, rest.windows));
    }
  }

  /**
   * End to end: after any run of chunks fed to a fresh worker, with s the
   * concatenated samples and k = |s| / FFT_SIZE the number of whole windows,
   * the buffer holds the samples after the last whole window, the history
   * is still SPEC_WIDTH frames of BINS values, index i holds the frame of the
   * (i+1)-th most recent window, and the slots not yet reached still hold
   * the initial zero frames.
   */
  lemma RunFromStart(fft: seq<real> -> Transform.Spectrum, chunks: seq<seq<real>>)
    ensures var s := Flatten(chunks);
      var k := |s| / FFT_SIZE;
      var w := Run(fft, Start(), chunks);
      && BlockStart(k, FFT_SIZE) <= |s|
      && w.buffer == s[BlockStart(k, FFT_SIZE)..]
      && Store.WellFormed(w.history)
      && HoldsRecent(fft, s, k, w.history)
      && (forall i :: k <= i < SPEC_WIDTH ==> w.history[i] == Transform.Zeros(BINS))
  {
    var s := Flatten(chunks);
    var d := Aggregator.Drain(s);
    RunFromStartIsBatch(fft, chunks);
    Aggregator.DrainCount(s);
    Aggregator.DrainSlices(s);
    FreshWorkerAfter(fft, s, d.windows, d.pending);
  }

  /**
   * Slot i of the history `h` holds the frame of the (i+1)-th most recent of
   * the first k whole windows of the samples `s`.
   */
  ghost predicate HoldsRecent(fft: seq<real> -> Transform.Spectrum, s: seq<real>, k: nat, h: seq<seq<real>>)
  {
    && BlockStart(k, FFT_SIZE) <= |s|
    && |h| == SPEC_WIDTH
    && forall i :: 0 <= i < SPEC_WIDTH && i < k ==>
         h[i] == Analyze(fft, s[BlockStart(k - 1 - i, FFT_SIZE) .. BlockStart(k - i, FFT_SIZE)])
  }

  /**
   * `RunFromStart`'s slot layout with the window offsets written as
   * products: slot i < k holds the frame of samples
   * [(k-1-i)·FFT_SIZE, (k-i)·FFT_SIZE).
   */
  lemma RunFromStartOffsets(fft: seq<real> -> Transform.Spectrum, chunks: seq<seq<real>>)
    ensures var s := Flatten(chunks);
      var k := |s| / FFT_SIZE;
      var h := Run(fft, Start(), chunks).history;
      && k * FFT_SIZE <= |s|
      && forall i {:trigger h[i]} :: 0 <= i < SPEC_WIDTH && i < k ==>
        (k - i) * FFT_SIZE <= |s| && h[i] == Analyze(fft, s[(k - 1 - i) * FFT_SIZE .. (k - i) * FFT_SIZE])
  {
    var s := Flatten(chunks);
    var k := |s| / FFT_SIZE;
    var h := Run(fft, Start(), chunks).history;
    RunFromStart(fft, chunks);
    assert HoldsRecent(fft, s, k, h);
    RecentAsProducts(fft, s, k, h);
  }

  /** `HoldsRecent` with the window offsets written as products. */
  lemma RecentAsProducts(fft: seq<real> -> Transform.Spectrum, s: seq<real>, k: nat, h: seq<seq<real>>)
    requires HoldsRecent(fft, s, k, h)
    ensures k * FFT_SIZE <= |s|
    ensures forall i {:trigger h[i]} :: 0 <= i < SPEC_WIDTH && i < k ==>
      (k - i) * FFT_SIZE <= |s| && h[i] == Analyze(fft, s[(k - 1 - i) * FFT_SIZE .. (k - i) * FFT_SIZE])
  {
    BlockStartIsProduct(k, FFT_SIZE);
    forall i {:trigger h[i]} | 0 <= i < SPEC_WIDTH && i < k
      ensures (k - i) * FFT_SIZE <= |s| && h[i] == Analyze(fft, s[(k - 1 - i) * FFT_SIZE .. (k - i) * FFT_SIZE])
    {
      SlotAsProduct(fft, s, k, h, i);
    }
  }

  /** One slot of `RecentAsProducts`. */
  lemma SlotAsProduct(fft: seq<real> -> Transform.Spectrum, s: seq<real>, k: nat, h: seq<seq<real>>, i: nat)
    requires HoldsRecent(fft, s, k, h)
    requires i < SPEC_WIDTH && i < k
    ensures (k - i) * FFT_SIZE <= |s| && h[i] == Analyze(fft, s[(k - 1 - i) * FFT_SIZE .. (k - i) * FFT_SIZE])
  {
    BlockStartIsProduct(k - 1 - i, FFT_SIZE);
    BlockStartIsProduct(k - i, FFT_SIZE);
    assert h[i] == Analyze(fft, s[BlockStart(k - 1 - i, FFT_SIZE) .. BlockStart(k - i, FFT_SIZE)]);
  }

  /** A fresh worker after pushing the frames of consecutive windows of `s`, `pending` left over. */
  lemma FreshWorkerAfter(fft: seq<real> -> Transform.Spectrum, s: seq<real>, windows: seq<seq<real>>, pending: seq<real>)
    requires BlockStart(|windows|, FFT_SIZE) + |pending| == |s|
    requires forall i {:trigger windows[i]} :: 0 <= i < |windows| ==>
      windows[i] == s[BlockStart(i, FFT_SIZE) .. BlockStart(i + 1, FFT_SIZE)]
    requires pending == s[BlockStart(|windows|, FFT_SIZE)..]
    ensures var k := |windows|;
      var w := Worker(pending, Store.PushAll(Start().history, AnalyzeAll(fft, windows)));
      && BlockStart(k, FFT_SIZE) <= |s|
      && w.buffer == s[BlockStart(k, FFT_SIZE)..]
      && Store.WellFormed(w.history)
      && HoldsRecent(fft, s, k, w.history)
      && (forall i :: k <= i < SPEC_WIDTH ==> w.history[i] == Transform.Zeros(BINS))
  {
    HistoryFromStart(fft, windows);
    LayoutOfWindows(fft, s, windows, Store.PushAll(Start().history, AnalyzeAll(fft, windows)));
  }

  /** Slot i of the history `h` holds the frame of the (i+1)-th most recent of `windows`. */
  ghost predicate HoldsLatest(fft: seq<real> -> Transform.Spectrum, windows: seq<seq<real>>, h: seq<seq<real>>)
  {
    forall i :: 0 <= i < |h| && i < |windows| ==> h[i] == Analyze(fft, windows[|windows| - 1 - i])
  }

  /** Restating a history laid out window by window in terms of the samples the windows were cut from. */
  lemma LayoutOfWindows(fft: seq<real> -> Transform.Spectrum, s: seq<real>, windows: seq<seq<real>>, h: seq<seq<real>>)
    requires BlockStart(|windows|, FFT_SIZE) <= |s|
    requires forall i {:trigger windows[i]} :: 0 <= i < |windows| ==>
      windows[i] == s[BlockStart(i, FFT_SIZE) .. BlockStart(i + 1, FFT_SIZE)]
    requires |h| == SPEC_WIDTH
    requires HoldsLatest(fft, windows, h)
    ensures HoldsRecent(fft, s, |windows|, h)
  {
    var k := |windows|;
    forall i | 0 <= i < SPEC_WIDTH && i < k
      ensures h[i] == Analyze(fft, s[BlockStart(k - 1 - i, FFT_SIZE) .. BlockStart(k - i, FFT_SIZE)])
    {
      SlotFromLatest(fft, s, windows, h, i);
    }
  }

  /** Slot i of a history laid out window by window, located in the samples by its offsets. */
  lemma SlotFromLatest(fft: seq<real> -> Transform.Spectrum, s: seq<real>, windows: seq<seq<real>>, h: seq<seq<real>>, i: nat)
    requires BlockStart(|windows|, FFT_SIZE) <= |s|
    requires forall i {:trigger windows[i]} :: 0 <= i < |windows| ==>
      windows[i] == s[BlockStart(i, FFT_SIZE) .. BlockStart(i + 1, FFT_SIZE)]
    requires HoldsLatest(fft, windows, h)
    requires i < |h| && i < |windows|
    ensures var k := |windows|;
      h[i] == Analyze(fft, s[BlockStart(k - 1 - i, FFT_SIZE) .. BlockStart(k - i, FFT_SIZE)])
  {
    WindowFromLatest(s, windows, i);
  }

  /** The (i+1)-th most recent window of `s`, located by its offsets. */
  lemma WindowFromLatest(s: seq<real>, windows: seq<seq<real>>, i: nat)
    requires BlockStart(|windows|, FFT_SIZE) <= |s|
    requires forall i {:trigger windows[i]} :: 0 <= i < |windows| ==>
      windows[i] == s[BlockStart(i, FFT_SIZE) .. BlockStart(i + 1, FFT_SIZE)]
    requires i < |windows|
    ensures var k := |windows|;
      windows[k - 1 - i] == s[BlockStart(k - 1 - i, FFT_SIZE) .. BlockStart(k - i, FFT_SIZE)]
  {
    var j := |windows| - 1 - i;
    assert windows[j] == s[BlockStart(j, FFT_SIZE) .. BlockStart(j + 1, FFT_SIZE)];
    assert j + 1 == |windows| - i;
  }

  /**
   * The initial history after pushing the frames of a run of windows: slot
   * i holds the frame of the (i+1)-th most recent window, the slots not yet
   * reached the initial zero frames.
   */
  lemma HistoryFromStart(fft: seq<real> -> Transform.Spectrum, windows: seq<seq<real>>)
    ensures var h := Store.PushAll(Start().history, AnalyzeAll(fft, windows));
      var k := |windows|;
      && Store.WellFormed(h)
      && HoldsLatest(fft, windows, h)
      && (forall i :: k <= i < SPEC_WIDTH ==> h[i] == Transform.Zeros(BINS))
  {
    var frames := AnalyzeAll(fft, windows);
    HistoryOfWindows(fft, Start().history, windows);
    Store.PushAllPreservesWellFormed(Start().history, frames);
    ZeroSlots(frames);
  }

  /** Slots the pushed frames have not reached still hold the initial zero frames. */
  lemma ZeroSlots(frames: seq<seq<real>>)
    ensures var h := Store.PushAll(Store.Initial(), frames);
      forall i :: |frames| <= i < |h| ==> h[i] == Transform.Zeros(BINS)
  {
    var h := Store.PushAll(Store.Initial(), frames);
    Store.PushAllOrder(Store.Initial(), frames);
    forall i | |frames| <= i < |h|
      ensures h[i] == Transform.Zeros(BINS)
    {
      assert h[i] == Store.Initial()[i - |frames|];
    }
  }

  /** A fresh worker run over some chunks ends as if all their samples had been drained at once. */
  lemma RunFromStartIsBatch(fft: seq<real> -> Transform.Spectrum, chunks: seq<seq<real>>)
    ensures var d := Aggregator.Drain(Flatten(chunks));
      Run(fft, Start(), chunks) == Worker(d.pending, Store.PushAll(Start().history, AnalyzeAll(fft, d.windows)))
  {
    RunIsBatch(fft, Start(), chunks);
    Aggregator.ChunkingInvariant([], chunks);
    assert [] + Flatten(chunks) == Flatten(chunks);
  }

  /** Pushing the frames of a run of windows: slot i holds the frame of the (i+1)-th most recent window. */
  lemma HistoryOfWindows(fft: seq<real> -> Transform.Spectrum, history: seq<seq<real>>, windows: seq<seq<real>>)
    requires |history| > 0
    ensures var h := Store.PushAll(history, AnalyzeAll(fft, windows));
      var k := |windows|;
      && |h| == |history|
      && HoldsLatest(fft, windows, h)
  {
    Store.PushAllOrder(history, AnalyzeAll(fft, windows));
  }
}

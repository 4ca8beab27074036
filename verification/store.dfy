/**
 * The rolling spectrogram history: a `Vec<Vec<f32>>` pre-filled with
 * SPEC_WIDTH zero frames (src/main.rs line 64) and updated by `pop()`
 * followed by `insert(0, frame)` (src/fft_worker.rs lines 28-30,
 * src/main.rs lines 93-95). Index 0 is the newest frame.
 */
module Store {
  import opened Constants
  import Transform

  /** A history the renderers can rely on: SPEC_WIDTH frames of BINS values. */
  predicate WellFormed(history: seq<seq<real>>)
  {
    && |history| == SPEC_WIDTH
    && forall i :: 0 <= i < |history| ==> |history[i]| == BINS
  }

  /** `vec![vec![0.0; FFT_SIZE / 2]; SPEC_WIDTH]`. */
  function Initial(): (h: seq<seq<real>>)
    ensures WellFormed(h)
    ensures forall i, k :: 0 <= i < |h| && 0 <= k < |h[i]| ==> h[i][k] == 0.0
  {
    seq(SPEC_WIDTH, _ => Transform.Zeros(BINS))
  }

  /**
   * `spec.pop(); spec.insert(0, frame)`. Popping an empty vector does nothing,
   * so an empty history grows to one frame.
   */
  function Push(history: seq<seq<real>>, frame: seq<real>): (h: seq<seq<real>>)
    ensures |history| > 0 ==> |h| == |history|
    ensures |history| == 0 ==> h == [frame]
    ensures h[0] == frame
    ensures forall i :: 0 <= i < |history| - 1 ==> h[i + 1] == history[i]
  {
    var popped := if |history| == 0 then history else history[..|history| - 1];
    [frame] + popped
  }

  /** A push trades exactly the oldest frame for the new one: nothing else is lost or duplicated. */
  lemma PushTradesOldestForNew(history: seq<seq<real>>, frame: seq<real>)
    requires |history| > 0
    ensures multiset(Push(history, frame)) + multiset{history[|history| - 1]}
         == multiset(history) + multiset{frame}
  {
    var popped := history[..|history| - 1];
    assert history == popped + [history[|history| - 1]];
    assert Push(history, frame) == [frame] + popped;
  }

  /** Pushing well-formed frames keeps the history well-formed. */
  lemma PushPreservesWellFormed(history: seq<seq<real>>, frame: seq<real>)
    requires WellFormed(history)
    requires |frame| == BINS
    ensures WellFormed(Push(history, frame))
  {
    var h := Push(history, frame);
    forall i | 0 <= i < |h|
      ensures |h[i]| == BINS
    {
      if i > 0 {
        assert h[i] == history[i - 1];
      }
    }
  }

  /** Pushing `frames` one after the other, first to last. */
  function PushAll(history: seq<seq<real>>, frames: seq<seq<real>>): (h: seq<seq<real>>)
    ensures |history| > 0 ==> |h| == |history|
    decreases |frames|
  {
    if |frames| == 0 then history
    else Push(PushAll(history, frames[..|frames| - 1]), frames[|frames| - 1])
  }

  lemma {:induction false} PushAllAppend(history: seq<seq<real>>, a: seq<seq<real>>, b: seq<seq<real>>)
    ensures PushAll(history, a + b) == PushAll(PushAll(history, a), b)
    decreases |b|
  {
    if |b| == 0 {
      assert a + b == a;
    } else {
      var ab := a + b;
      var b' := b[..|b| - 1];
      assert ab[..|ab| - 1] == a + b';
      assert ab[|ab| - 1] == b[|b| - 1];
      PushAllAppend(history, a, b');
      calc {
        PushAll(history, ab);
        Push(PushAll(history, a + b'), b[|b| - 1]);
        Push(PushAll(PushAll(history, a), b'), b[|b| - 1]);
        PushAll(PushAll(history, a), b);
      }
    }
  }

  /**
   * After k pushes onto a non-empty history the newest frame is at index 0,
   * the i-th most recent push is at index i, and the old frames sit k places
   * further back; once k reaches the history length no old frame remains.
   */
  lemma {:induction false} PushAllOrder(history: seq<seq<real>>, frames: seq<seq<real>>)
    requires |history| > 0
    ensures var h := PushAll(history, frames);
      && |h| == |history|
      && (forall i :: 0 <= i < |h| && i < |frames| ==> h[i] == frames[|frames| - 1 - i])
      && (forall i :: |frames| <= i < |h| ==> h[i] == history[i - |frames|])
    decreases |frames|
  {
    if |frames| > 0 {
      var init := frames[..|frames| - 1];
      PushAllOrder(history, init);
      var p := PushAll(history, init);
      var h := Push(p, frames[|frames| - 1]);
      forall i | 0 <= i < |h| && i < |frames|
        ensures h[i] == frames[|frames| - 1 - i]
      {
        if i > 0 {
          assert h[i] == p[i - 1];
          assert p[i - 1] == init[|init| - 1 - (i - 1)];
        }
      }
      forall i | |frames| <= i < |h|
        ensures h[i] == history[i - |frames|]
      {
        assert h[i] == p[i - 1];
      }
    }
  }

  /** Any number of well-formed pushes keeps the history well-formed. */
  lemma {:induction false} PushAllPreservesWellFormed(history: seq<seq<real>>, frames: seq<seq<real>>)
    requires WellFormed(history)
    requires forall i :: 0 <= i < |frames| ==> |frames[i]| == BINS
    ensures WellFormed(PushAll(history, frames))
    decreases |frames|
  {
    if |frames| > 0 {
      PushAllPreservesWellFormed(history, frames[..|frames| - 1]);
      PushPreservesWellFormed(PushAll(history, frames[..|frames| - 1]), frames[|frames| - 1]);
    }
  }
}

/**
 * The pure part of the input-stream callback (src/audio.rs lines 20-26,
 * duplicated in src/main.rs lines 225-234): convert every device sample to
 * f32, then keep the first sample of each interleaved frame (mono downmix).
 */
module Audio {
  import opened Seqs
  import opened Options
  import Arith

  /**
   * `data.iter().map(|s| s.to_f32().unwrap_or(0.0))`: `toF32` is the
   * sample type's conversion, which may fail.
   */
  function Convert<S>(data: seq<S>, toF32: S -> Option<real>): (buffer: seq<real>)
    ensures |buffer| == |data|
    ensures forall i :: 0 <= i < |data| && toF32(data[i]).Some? ==> buffer[i] == toF32(data[i]).value
    ensures forall i :: 0 <= i < |data| && toF32(data[i]).None? ==> buffer[i] == 0.0
    decreases |data|
  {
    if |data| == 0 then [] else [toF32(data[0]).GetOr(0.0)] + Convert(data[1..], toF32)
  }

  /**
   * `slice.chunks(n)`: consecutive pieces of `n` elements, the last one
   * possibly shorter. (`chunks(0)` panics, hence `n > 0`.)
   */
  function Chunks<T>(s: seq<T>, n: nat): (cs: seq<seq<T>>)
    requires n > 0
    ensures Flatten(cs) == s
    ensures forall j :: 0 <= j < |cs| ==> 0 < |cs[j]| <= n
    ensures forall j :: 0 <= j < |cs| - 1 ==> |cs[j]| == n
    ensures |cs| == (|s| + n - 1) / n
    ensures forall j :: 0 <= j < |cs| ==> BlockStart(j, n) < |s| && cs[j][0] == s[BlockStart(j, n)]
    decreases |s|
  {
    if |s| == 0 then
      Arith.DivOf(n - 1, n, 0, n - 1);
      []
    else if |s| <= n then
      ChunksLast(s, n);
      [s]
    else
      var rest := Chunks(s[n..], n);
      ChunksStep(s, n, rest);
      [s[..n]] + rest
  }

  /** A non-empty run of at most `n` elements is a single chunk. */
  lemma ChunksLast<T>(s: seq<T>, n: nat)
    requires 0 < |s| <= n
    ensures Flatten([s]) == s
    ensures (|s| + n - 1) / n == 1
  {
    assert [s][1..] == [];
    Arith.DivOf(|s| + n - 1, n, 1, |s| - 1);
  }

  /** Prepending the first full chunk to the chunks of the rest. */
  lemma ChunksStep<T>(s: seq<T>, n: nat, rest: seq<seq<T>>)
    requires 0 < n < |s|
    requires Flatten(rest) == s[n..]
    requires forall j :: 0 <= j < |rest| ==> 0 < |rest[j]| <= n
    requires forall j :: 0 <= j < |rest| - 1 ==> |rest[j]| == n
    requires |rest| == (|s| - n + n - 1) / n
    requires forall j :: 0 <= j < |rest| ==> BlockStart(j, n) < |s| - n && rest[j][0] == s[n..][BlockStart(j, n)]
    ensures var cs := [s[..n]] + rest;
      && Flatten(cs) == s
      && (forall j :: 0 <= j < |cs| ==> 0 < |cs[j]| <= n)
      && (forall j :: 0 <= j < |cs| - 1 ==> |cs[j]| == n)
      && |cs| == (|s| + n - 1) / n
      && (forall j :: 0 <= j < |cs| ==> BlockStart(j, n) < |s| && cs[j][0] == s[BlockStart(j, n)])
  {
    var cs := [s[..n]] + rest;
    assert cs[0] == s[..n] && cs[1..] == rest;
    assert s == s[..n] + s[n..];
    Arith.DivShift(|s| - 1, n);
    forall j | 1 <= j < |cs|
      ensures BlockStart(j, n) < |s| && cs[j][0] == s[BlockStart(j, n)]
    {
      assert cs[j] == rest[j - 1];
      assert BlockStart(j, n) == BlockStart(j - 1, n) + n;
    }
  }

  /** `.map(|c| c[0])` over chunks that are never empty. */
  function Firsts<T>(cs: seq<seq<T>>): (r: seq<T>)
    requires forall j :: 0 <= j < |cs| ==> |cs[j]| > 0
    ensures |r| == |cs|
    ensures forall j :: 0 <= j < |cs| ==> r[j] == cs[j][0]
    decreases |cs|
  {
    if |cs| == 0 then [] else [cs[0][0]] + Firsts(cs[1..])
  }

  /**
   * `buffer.chunks(channels).map(|c| c[0]).collect()`: None stands for the
   * panic of `chunks(0)` when the device reports zero channels.
   */
  function Mono(buffer: seq<real>, channels: nat): (mono: Option<seq<real>>)
    ensures mono.None? <==> channels == 0
    ensures mono.Some? ==> |mono.value| == (|buffer| + channels - 1) / channels
    ensures mono.Some? ==> forall i :: 0 <= i < |mono.value| ==>
      BlockStart(i, channels) < |buffer| && mono.value[i] == buffer[BlockStart(i, channels)]
  {
    if channels == 0 then None else Some(Firsts(Chunks(buffer, channels)))
  }

  /** A single-channel stream passes through unchanged. */
  lemma MonoSingleChannel(buffer: seq<real>)
    ensures Mono(buffer, 1) == Some(buffer)
  {
    var m := Mono(buffer, 1).value;
    Arith.DivOf(|buffer|, 1, |buffer|, 0);
    forall i | 0 <= i < |m|
      ensures m[i] == buffer[i]
    {
      BlockStartOne(i);
    }
    assert m == buffer;
  }

  /** Mono sample i is the first sample of interleaved frame i, at offset i·channels. */
  lemma MonoOffsets(buffer: seq<real>, channels: nat)
    requires channels > 0
    ensures var m := Mono(buffer, channels).value;
      forall i :: 0 <= i < |m| ==> i * channels < |buffer| && m[i] == buffer[i * channels]
  {
    var m := Mono(buffer, channels).value;
    forall i | 0 <= i < |m|
      ensures i * channels < |buffer| && m[i] == buffer[i * channels]
    {
      BlockStartIsProduct(i, channels);
    }
  }

  /** A trailing partial frame still contributes its first sample, as the last mono sample. */
  lemma MonoKeepsPartialFrame(buffer: seq<real>, channels: nat)
    requires channels > 0
    requires |buffer| % channels != 0
    ensures var m := Mono(buffer, channels).value;
      && |m| == |buffer| / channels + 1
      && m[|m| - 1] == buffer[BlockStart(|buffer| / channels, channels)]
  {
    Arith.CeilDivWithRemainder(|buffer|, channels);
  }

  lemma ConvertThenMono<S>(data: seq<S>, toF32: S -> Option<real>, channels: nat)
    ensures var mono := Mono(Convert(data, toF32), channels);
      && (mono.None? <==> channels == 0)
      && (mono.Some? ==> |mono.value| == (|data| + channels - 1) / channels)
      && (mono.Some? ==> forall i :: 0 <= i < |mono.value| ==>
            BlockStart(i, channels) < |data| && mono.value[i] == toF32(data[BlockStart(i, channels)]).GetOr(0.0))
  {
    var buffer := Convert(data, toF32);
    var mono := Mono(buffer, channels);
    if mono.Some? {
      var m := mono.value;
      forall i | 0 <= i < |m|
        ensures BlockStart(i, channels) < |data| && m[i] == toF32(data[BlockStart(i, channels)]).GetOr(0.0)
      {
        var j := BlockStart(i, channels);
        assert j < |buffer| && m[i] == buffer[j];
      }
    }
  }

  /**
   * The whole callback body of `build_input_stream` / `build_stream`:
   * mono sample i is the converted first sample of interleaved frame i.
   */
  function Callback<S>(data: seq<S>, toF32: S -> Option<real>, channels: nat): (mono: Option<seq<real>>)
    ensures mono.None? <==> channels == 0
    ensures mono.Some? ==> |mono.value| == (|data| + channels - 1) / channels
    ensures mono.Some? ==> forall i :: 0 <= i < |mono.value| ==>
      BlockStart(i, channels) < |data| && mono.value[i] == toF32(data[BlockStart(i, channels)]).GetOr(0.0)
  {
    ConvertThenMono(data, toF32, channels);
    Mono(Convert(data, toF32), channels)
  }
}

# Realtime spectrogram: a Dafny model of the streaming pipeline

This project models the core of `realtime_spectrogram`, a Rust program that
reads a live microphone stream and shows a scrolling spectrogram.

- **Audio callback.** Every device buffer is converted to `f32` and reduced
  to mono by keeping the first sample of each interleaved frame.
- **FFT worker.** The mono chunks are appended to a pending buffer. While the
  buffer holds at least `FFT_SIZE` (512) samples, one analysis window is
  drained from its front. Each window becomes a frame of `FFT_SIZE / 2` (256)
  log-compressed magnitudes, `max(log10(|X_k| / FFT_SIZE), -2) + 2`.
- **Rolling history.** A `Vec<Vec<f32>>` of `SPEC_WIDTH` (200) frames,
  pre-filled with zero frames. Each new frame goes in through `pop()`
  followed by `insert(0, frame)`, so index 0 is always the newest frame.
- **Renderers.** The terminal renderer and the GUI renderer read a snapshot of
  the history. They map each display row to a frequency bin and draw a glyph
  or a pixel for it.

Modules follow the program's components:

| module | file | models |
|---|---|---|
| `Constants` | constants.dfy | `FFT_SIZE`, `SPEC_WIDTH` and `FFT_SIZE / 2` (src/main.rs:37-38) |
| `Aggregator` | aggregator.dfy | the drain loop (src/fft_worker.rs:13-16, src/main.rs:75-79) |
| `Transform` | transform.dfy | first-half slicing and log compression (src/fft_worker.rs:23-26) |
| `Store` | store.dfy | initial history and the pop/insert rotation |
| `Pipeline` | pipeline.dfy | the worker loop that ties these together |
| `Audio` | audio.dfy | sample conversion and mono downmix (src/audio.rs:22-24, src/main.rs:227-230) |
| `Util` | util.dfy | `intensity_color` |
| `Ui` | ui.dfy | index logic of the terminal renderer |
| `Gui` | gui.dfy | index logic of the GUI renderer |
| `Casts` | casts.dfy | Rust's saturating `f32 as u8` |
| `Options`, `Seqs`, `Arith` | | Rust's `Option`, sequence helpers, facts about division |

Samples and magnitudes are Dafny `real`s. The FFT is a parameter
`fft: seq<real> -> Spectrum`. A `Spectrum` is the `FFT_SIZE` values
`log10(|X_k| / FFT_SIZE)` that the in-place transform leaves behind. Only the
slicing and the clamp are modelled. The renderers' bin index for a row and the
formatted label text come from `log10`, `powf`, `round` and `format!`. They are
parameters (`fftIndexOf`, `labelOf`) that give any natural number or any
string for a row.

The main results:

- `Aggregator.ChunkingInvariant`: feeding chunks one at a time gives the same
  windows and remainder as draining their concatenation in one go.
  `Aggregator.DrainUnique` and `Aggregator.DrainSlices` pin those windows down
  as consecutive `FFT_SIZE` slices of the stream.
- `Pipeline.RunFromStart` is the end-to-end statement. Take a fresh worker and
  any chunks, with `s` the concatenated samples and `k = |s| / FFT_SIZE`. Then
  the buffer holds the samples after the last whole window, the history is
  still well formed, slot `i` holds the frame of the (i+1)-th most recent
  window, and slots at or beyond `k` still hold zero frames.
- `Pipeline.ProcessChunk` is the source's imperative `while` loop, proved
  equal to the functional `Pipeline.OnChunk`.

Behaviour of the source worth knowing:

- The history is rotated by physically shifting the vector (`pop` then
  `insert(0, …)`).
- There is no upper clamp in the transform. The GUI clamps to [0, 2]. The
  terminal renderer only saturates its glyph index at 9.
- `Vec::pop` on an empty history does nothing, so `Store.Push` on an empty
  history gives a single frame.
- The GUI draws display row `y` (whose frequency falls as `y` grows) at image
  row `height - 1 - y`. So it puts the highest frequency at the bottom of the
  image, the reverse of the terminal renderer. `Gui.Paint` states this.
- Under exact arithmetic the top display row's frequency is `sample_rate / 2`,
  which rounds to bin index `FFT_SIZE / 2`. A frame has no such bin, so that
  row is drawn blank (`Ui.NyquistBinIsBlank`).
- The terminal renderer draws `spec.iter().rev().take(width)`. When the
  terminal is narrower than the history, that keeps the oldest frames, so the
  newest frame `spec[0]` is not on screen (`Ui.NarrowShowsOldest`).

## Model

| member | source | states |
|---|---|---|
| `Aggregator.Drain` | src/fft_worker.rs:15-16 | every drained window has exactly FFT_SIZE samples; fewer than FFT_SIZE samples remain; windows followed by the remainder re-form the buffer |
| `Aggregator.DrainCount` | src/fft_worker.rs:15-16 | the loop drains exactly ⌊len / FFT_SIZE⌋ windows from a buffer of len samples |
| `Aggregator.Ingest` | src/fft_worker.rs:13-16 | after a chunk is appended and drained, the remainder is below FFT_SIZE; the windows and remainder re-form old buffer ++ chunk; (|buffer| + |chunk|) / FFT_SIZE windows come out; an empty chunk on a short buffer changes nothing and emits nothing |
| `Aggregator.IngestAll` | src/main.rs:75-79 | over any run of chunks, the inlined loop's windows are all FFT_SIZE long; they re-form buffer ++ all chunks with the remainder; the remainder stays below FFT_SIZE |
| `Aggregator.DrainUnique` | src/fft_worker.rs:14-16 | splitting a buffer into whole windows plus a remainder shorter than a window can be done only one way, and the drain loop finds it |
| `Aggregator.DrainSlices` | src/fft_worker.rs:16 | window i is samples [i·FFT_SIZE, (i+1)·FFT_SIZE) of the buffer, taken from the front in order; the remainder is everything after the last window |
| `Aggregator.ChunkingInvariant` | src/main.rs:75-79 | chunk boundaries do not matter: the loop produces the same windows and remainder as draining the concatenated input at once, so no sample is lost, duplicated or reordered |
| `Transform.Compress` | src/fft_worker.rs:25 | the compressed value is at least 0; it is 0 exactly when the log magnitude is at or below -2; otherwise it is the log magnitude plus 2 |
| `Transform.CompressMonotone` | src/main.rs:89 | compression preserves the order of magnitudes |
| `Transform.Frame` | src/fft_worker.rs:23-26 | a frame has exactly FFT_SIZE/2 values; value k is the compressed magnitude of FFT output k; every value is at least 0 |
| `Transform.FrameIgnoresUpperHalf` | src/main.rs:87 | the frame depends only on the first FFT_SIZE/2 transform outputs |
| `Transform.SilenceFloor` | src/fft_worker.rs:25 | when every kept bin is at or below the -2 floor, the frame is all zeros, like the pre-filled frames |
| `Store.Initial` | src/main.rs:64 | the history starts with exactly SPEC_WIDTH frames, each of FFT_SIZE/2 zeros |
| `Store.Push` | src/fft_worker.rs:29-30 | the length is kept; the new frame is at index 0; old index i moves to i+1 for i < len-1; an empty history becomes the single new frame |
| `Store.PushTradesOldestForNew` | src/main.rs:94-95 | as multisets, a push removes exactly the old last frame and adds exactly the new one |
| `Store.PushPreservesWellFormed` | src/fft_worker.rs:28-30 | pushing a frame of FFT_SIZE/2 values keeps SPEC_WIDTH frames of FFT_SIZE/2 values |
| `Store.PushAll` | src/main.rs:93-95 | any number of pushes keeps a non-empty history's length |
| `Store.PushAllOrder` | src/main.rs:93-95 | after k pushes, index i < k holds the i-th most recent frame and index i >= k holds old frame i-k; once k reaches the length, no old frame remains |
| `Store.PushAllPreservesWellFormed` | src/main.rs:64 | every sequence of well-formed pushes keeps exactly SPEC_WIDTH frames of FFT_SIZE/2 values |
| `Pipeline.Start` | src/main.rs:64-72 | the worker starts with an empty buffer and a well-formed history |
| `Pipeline.Analyze` | src/fft_worker.rs:17-26 | one window gives one frame of FFT_SIZE/2 non-negative values |
| `Pipeline.AnalyzeBins` | src/fft_worker.rs:23-25 | bin k of a window's frame is the compressed FFT output k of that window |
| `Pipeline.AnalyzeAll` | src/main.rs:77-90 | one frame per window, in window order |
| `Pipeline.OnChunk` | src/fft_worker.rs:13-31 | after a chunk, the buffer is below FFT_SIZE and is what follows the last whole window; a well-formed history stays well formed; if any window was drained, index 0 holds the frame of the last one; a chunk that completes no window leaves the history unchanged |
| `Pipeline.ProcessChunk` | src/main.rs:76-96 | the source's drain/analyse/pop/insert while-loop gives the same buffer and history as `OnChunk` |
| `Pipeline.Run` | src/fft_worker.rs:13 | the worker loop keeps the history well formed over any run of chunks |
| `Pipeline.RunIsBatch` | src/main.rs:75-96 | running chunk by chunk equals draining all the samples and then pushing one frame per window, oldest first |
| `Pipeline.HistoryFromStart` | src/main.rs:64-95 | after one push per window into the initial history, the history is well formed, slot i holds the frame of the (i+1)-th most recent window, and the slots no push has reached still hold zero frames |
| `Pipeline.LayoutOfWindows` | src/fft_worker.rs:15-16 | when the windows are consecutive FFT_SIZE slices of the samples, the frame of the (i+1)-th most recent window is the frame of samples [(k-1-i)·FFT_SIZE, (k-i)·FFT_SIZE) |
| `Pipeline.RunFromStart` | src/main.rs:64-96 | end to end from a fresh worker over any chunks with k = ⌊total samples / FFT_SIZE⌋: the buffer is the samples after the k-th window; the history is well formed; slot i < k holds the frame of samples [(k-1-i)·FFT_SIZE, (k-i)·FFT_SIZE); slots at or beyond k are still zero frames |
| `Pipeline.RunFromStartOffsets` | src/main.rs:75-95 | the same layout with the offsets as products: k·FFT_SIZE samples were consumed, and slot i < k holds the frame of samples [(k-1-i)·FFT_SIZE, (k-i)·FFT_SIZE) |
| `Audio.Convert` | src/audio.rs:22 | conversion keeps the length; a sample that converts keeps its value; one that fails becomes 0.0 |
| `Audio.Chunks` | src/audio.rs:24 | the chunks re-form the buffer; each chunk is non-empty and at most `channels` long; all but the last are full; there are ⌈n / channels⌉ of them; chunk j starts at sample j·channels |
| `Audio.Firsts` | src/audio.rs:24 | the map that keeps each chunk's first sample gives one sample per chunk, in chunk order |
| `Audio.Mono` | src/audio.rs:24 | zero channels is the `chunks(0)` panic (None), and only then; otherwise the output has ⌈n / channels⌉ samples and sample i is buffer[i·channels] |
| `Audio.MonoOffsets` | src/audio.rs:24 | mono sample i is buffer[i·channels], and that offset is inside the buffer |
| `Audio.MonoSingleChannel` | src/audio.rs:24 | with one channel, the mono output is the converted buffer |
| `Audio.MonoKeepsPartialFrame` | src/audio.rs:24 | a trailing partial frame contributes its first sample as the last mono sample |
| `Audio.Callback` | src/main.rs:227-230 | the whole `build_stream` callback fails only with zero channels; mono sample i is the converted data[i·channels], or 0.0 if conversion fails |
| `Casts.SaturatingU8` | src/ui/gui.rs:52 | a float cast to u8 lies in [0, 255]; on [0, 256) it is the floor; below 1 it is 0; from 255 up it is 255 |
| `Util.IntensityColor` | src/util.rs:4-16 | the colour's rank on Blue < Cyan < Green < Yellow < Red equals the number of thresholds 0.3, 0.4, 0.6, 0.8 that the value reaches |
| `Util.IntensityColorBands` | src/util.rs:5-14 | Blue iff val < 0.3, Cyan iff 0.3 <= val < 0.4, Green iff 0.4 <= val < 0.6, Yellow iff 0.6 <= val < 0.8, Red iff val >= 0.8 |
| `Util.IntensityColorMonotone` | src/main.rs:141-153 | a larger value never gets a lower-ranked colour |
| `Seqs.Reverse` | src/ui.rs:68 | `iter().rev()` keeps the length and puts element len-1-i at position i |
| `Ui.DrawnColumns` | src/ui.rs:48-68 | min(min(inner width, SPEC_WIDTH), spec length) columns are drawn; column j is spec[len-1-j], i.e. the history reversed |
| `Ui.LabelDivisor` | src/ui.rs:61 | the divisor is at least 1, so the modulo never divides by zero; it is 1 below 16 rows; otherwise it is the largest d with 8·d <= height |
| `Ui.LabelCadence` | src/main.rs:163 | row 0 is always labelled; every row is labelled below 16 rows; a display of at least 8 rows gets between 8 and 15 labels |
| `Ui.LabelCountFormula` | src/ui.rs:61 | among the first n rows, ⌈n / divisor⌉ are labelled |
| `Ui.GlyphIndex` | src/ui.rs:72 | the glyph index is below 10, the palette length; it is 0 below 0.1 and 9 from 0.9 up; on [0, 1) it is the first decimal digit |
| `Ui.Nth` | src/ui.rs:73 | `chars().nth(i)` yields a character exactly when i is below the length, and then it is character i |
| `Ui.Glyph` | src/main.rs:180-181 | the palette lookup always succeeds, so the `' '` fallback never fires and the glyph is palette[index] |
| `Ui.Cell` | src/ui.rs:70-80 | an out-of-range bin index gives a raw `" "` span and is never used to index the frame; otherwise the single glyph palette[GlyphIndex(val)] styled with the value's intensity colour |
| `Ui.NyquistBinIsBlank` | src/ui.rs:69-79 | on a well-formed history, bin index FFT_SIZE/2 is blank in every column |
| `Ui.DrawCells` | src/ui.rs:68-81 | the span loop emits one cell per drawn column, in column order, each the cell of that column at the row's bin |
| `Ui.DrawRow` | src/ui.rs:61-82 | one line is the label span (the frequency label exactly on labelled rows, else the blank label) followed by the row's cells |
| `Ui.NarrowShowsOldest` | src/ui.rs:48-68 | with more frames than the drawn width, every drawn column comes from the oldest `width` frames and none is the newest frame spec[0] |
| `Ui.Draw` | src/ui.rs:57-82 | exactly `height` lines; each has one label span (the frequency label on labelled rows, the blank label elsewhere) and then one cell per drawn column |
| `Gui.Flip` | src/ui/gui.rs:40 | `width - 1 - x` lies in [0, width) and mirrors x |
| `Gui.FlipBijective` | src/ui/gui.rs:39-41 | mirroring is an involution, so x ↦ width-1-x is a bijection |
| `Gui.ClampIntensity` | src/ui/gui.rs:47 | the clamp lies in [0, 2], keeps values already there, and sends values below to 0 and above to 2 |
| `Gui.Sample` | src/ui/gui.rs:46-50 | the value lies in [0, 2]; an in-range bin gives its value clamped to [0, 2], unchanged when already there; a bin index outside that frame's own length gives 0.0 |
| `Gui.PixelColor` | src/ui/gui.rs:52-53 | red <= 255, green = red / 2 <= red, blue = 0; red is the floor of val/2·255 on [0, 2]; 0 gives black; 2 and up give (255, 127, 0) |
| `Gui.PixelColorMonotone` | src/ui/gui.rs:52 | a larger value never gives a darker pixel |
| `Gui.Blank` | src/ui/gui.rs:31 | the image starts as height rows of width black pixels |
| `Gui.Paint` | src/ui/gui.rs:26-55 | an empty snapshot is the `spec[0]` panic (None), and only then; otherwise the image is spec.len() wide and spec[0].len() high, and pixel (x, y) shows frame width-1-x at the bin of display row height-1-y |

## Left out

- The FFT, `norm()`, the division by `FFT_SIZE` and `log10` (src/fft_worker.rs:9-10, 21, 25): floating-point library code. They are the parameter `fft`. The model therefore cannot derive facts about particular signals, such as an all-zero window giving an all-zero frame or a sine tone peaking at its bin. `Transform.SilenceFloor` states the conditional form.
- `log10`, `powf`, `round() as usize` and `format!` on the frequency axis (src/ui.rs:51-59, 62, 69; src/ui/gui.rs:34-44; src/main.rs:134-176): floating point. The bin index and label of each row are parameters.
- f32 rounding, NaN and infinities: samples are exact reals. In particular `log10(0)` is negative infinity, and NaN falls through every comparison to `Color::Red`; neither is modelled.
- `Arc<Mutex<…>>`, `lock().unwrap()` poisoning, `thread::spawn` and the crossbeam channel (src/fft_worker.rs:8, 28; src/main.rs:49, 69, 93, 120): concurrency. A push is one atomic step on a sequence value. A snapshot (`lock().unwrap().clone()`) is that value itself, so it has no member of its own.
- Channel closure ending the worker: the worker runs over a finite sequence of chunks, and whatever is pending at the end is simply left in the buffer.
- cpal device and stream setup and the sample-format dispatch (src/main.rs:42-59, 209-238; src/audio.rs:7-32 apart from lines 22-24): device I/O. The per-format `to_f32` is the parameter `toF32`.
- The audio.rs tests (src/audio.rs:38-96): they need audio hardware and assert nothing about the logic.
- Terminal and window setup, key polling, the egui texture and panel (src/ui.rs:22-46, 85-92; src/ui/gui.rs:6-16, 57-83; src/main.rs:101-128, 194-204): UI I/O. Glyphs and spans are values.
- The `u16` type of `inner.width`: the width is any natural number. It only takes part in a `min` with `SPEC_WIDTH`.
- egui stores the image as one flat vector of `width * height` pixels. The model uses `height` rows of `width` pixels; `image[y][x]` is egui's pixel `(x, y)`.
- src/list_devices.rs: it only prints device names.
- The `constants` module that src/fft_worker.rs, src/ui.rs and src/ui/gui.rs import is not part of this model. Its values are taken from src/main.rs:37-38.

/**
 * The integer logic of the terminal renderer (src/ui.rs lines 48-82, the
 * same code inlined in src/main.rs lines 131-192). The frequency axis
 * (`log10`, `powf`, `round`) and the `format!` of the label are floating
 * point: the bin index and the label text of each row are parameters.
 */
module Ui {
  import opened Constants
  import opened Options
  import opened Seqs
  import Casts
  import Arith
  import opened Util

  /** The intensity glyphs, quiet to loud. */
  const PALETTE: string := " .:-=+*#%@"

  /** The label drawn on rows that carry no frequency label. */
  const BLANK_LABEL: string := "         | "

  /** A ratatui span: raw text, or text with a foreground colour. */
  datatype Span = Raw(text: string) | Styled(text: string, fg: Color)

  /**
   * `inner.width.min(SPEC_WIDTH as u16)` columns of `spec.iter().rev().take(width)`:
   * the oldest frame is drawn first.
   */
  function DrawnColumns(spec: seq<seq<real>>, innerWidth: nat): (cols: seq<seq<real>>)
    ensures |cols| == Min(Min(innerWidth, SPEC_WIDTH), |spec|)
    ensures forall j :: 0 <= j < |cols| ==> cols[j] == spec[|spec| - 1 - j]
  {
    var width := Min(innerWidth, SPEC_WIDTH);
    var reversed := Reverse(spec);
    if width < |reversed| then reversed[..width] else reversed
  }

  /**
   * When the snapshot holds more frames than fit, `rev().take(width)` keeps
   * the oldest ones: every drawn column comes from the last `width` frames,
   * so the newest frame, spec[0], is not drawn.
   */
  lemma NarrowShowsOldest(spec: seq<seq<real>>, innerWidth: nat)
    requires Min(innerWidth, SPEC_WIDTH) < |spec|
    ensures var cols := DrawnColumns(spec, innerWidth);
      && |cols| == Min(innerWidth, SPEC_WIDTH)
      && forall j :: 0 <= j < |cols| ==>
           |spec| - |cols| <= |spec| - 1 - j && cols[j] == spec[|spec| - 1 - j] && 0 < |spec| - 1 - j
  {
  }

  /** `(height / 8).max(1)`: every how many rows a frequency label is drawn. */
  function LabelDivisor(height: nat): (d: nat)
    ensures d >= 1
    ensures height < 16 ==> d == 1
    ensures height >= 8 ==> 8 * d <= height < 8 * d + 8
  {
    var d := height / 8;
    if d < 1 then 1 else d
  }

  /** `row % (height / 8).max(1) == 0`: the row carries a frequency label. */
  predicate Labelled(row: nat, height: nat)
  {
    row % LabelDivisor(height) == 0
  }

  /** The number of labelled rows among rows 0 .. n-1 for a display of `height` rows. */
  function LabelCount(n: nat, height: nat): nat
  {
    if n == 0 then 0 else LabelCount(n - 1, height) + (if Labelled(n - 1, height) then 1 else 0)
  }

  /**
   * Label cadence: row 0 is always labelled, every row is labelled on
   * displays under 16 rows, and a display of at least 8 rows gets between 8
   * and 15 labels.
   */
  lemma {:induction false} LabelCadence(height: nat)
    ensures Labelled(0, height)
    ensures height < 16 ==> forall row :: 0 <= row < height ==> Labelled(row, height)
    ensures height >= 8 ==> 8 <= LabelCount(height, height) <= 15
  {
    var d := LabelDivisor(height);
    LabelCountFormula(height, height);
    if height >= 8 {
      var q := (height + d - 1) / d;
      var r := (height + d - 1) % d;
      assert height + d - 1 == q * d + r;
      if q <= 7 {
        Arith.MulMonotone(q, 7, d);
        assert false;
      }
      if q >= 16 {
        Arith.MulMonotone(16, q, d);
        assert false;
      }
    }
  }

  /** Labelled rows among 0 .. n-1 number ceil(n / d). */
  lemma {:induction false} LabelCountFormula(n: nat, height: nat)
    ensures var d := LabelDivisor(height);
      LabelCount(n, height) == (n + d - 1) / d
    decreases n
  {
    var d := LabelDivisor(height);
    if n == 0 {
      Arith.DivOf(d - 1, d, 0, d - 1);
    } else {
      LabelCountFormula(n - 1, height);
      var q, r := (n - 1) / d, (n - 1) % d;
      assert n - 1 == q * d + r;
      if r == 0 {
        Arith.DivOf(n - 1 + d - 1, d, q, d - 1);
        Arith.DivOf(n + d - 1, d, q + 1, 0);
      } else {
        Arith.DivOf(n - 1 + d - 1, d, q + 1, r - 1);
        Arith.DivOf(n + d - 1, d, q + 1, r);
      }
    }
  }

  /**
   * `((val * 10.0) as u8).min(9)`: the palette position of a value, its
   * first decimal digit on [0, 1), 0 below 0.1 and 9 from 0.9 up.
   */
  function GlyphIndex(val: real): (i: nat)
    ensures i < |PALETTE|
    ensures val < 0.1 ==> i == 0
    ensures val >= 0.9 ==> i == 9
    ensures 0.0 <= val < 1.0 ==> i as real <= val * 10.0 < i as real + 1.0
  {
    var b := Casts.SaturatingU8(val * 10.0);
    if b < 9 then b else 9
  }

  /** `chars().nth(i)`: the i-th character, if there is one. */
  function Nth(s: string, i: nat): (c: Option<char>)
    ensures c.Some? <==> i < |s|
    ensures i < |s| ==> c.value == s[i]
    decreases |s|
  {
    if |s| == 0 then None
    else if i == 0 then Some(s[0])
    else Nth(s[1..], i - 1)
  }

  /**
   * `" .:-=+*#%@".chars().nth(intensity).unwrap_or(' ')`: the index is
   * always inside the palette, so the `' '` fallback never fires.
   */
  function Glyph(val: real): (ch: char)
    ensures Nth(PALETTE, GlyphIndex(val)).Some?
    ensures ch == PALETTE[GlyphIndex(val)]
  {
    Nth(PALETTE, GlyphIndex(val)).GetOr(' ')
  }

  /**
   * One column of one row: a coloured glyph for the value at `fftIndex`,
   * or a blank when the frame is too short (the frame is then not indexed).
   */
  function Cell(column: seq<real>, fftIndex: nat): (span: Span)
    ensures span.Raw? <==> fftIndex >= |column|
    ensures span.Raw? ==> span.text == " "
    ensures span.Styled? ==> |span.text| == 1 && span.text[0] in PALETTE
    ensures span.Styled? ==> span.text == [PALETTE[GlyphIndex(column[fftIndex])]]
    ensures span.Styled? ==> span.fg == IntensityColor(column[fftIndex])
  {
    if fftIndex < |column| then
      var val := column[fftIndex];
      Styled([Glyph(val)], IntensityColor(val))
    else
      Raw(" ")
  }

  /**
   * The Nyquist bin is not in a frame: a row whose bin index is BINS (the
   * index the top row's frequency, sample_rate / 2, rounds to) is blank in
   * every column of a well-formed history.
   */
  lemma NyquistBinIsBlank(history: seq<seq<real>>, j: nat)
    requires |history| == SPEC_WIDTH
    requires forall i :: 0 <= i < |history| ==> |history[i]| == BINS
    requires j < |history|
    ensures Cell(history[j], BINS) == Raw(" ")
  {
  }

  /** What row `row` of the drawing must be: a label span, then one cell per drawn column. */
  predicate IsRow(line: seq<Span>, cols: seq<seq<real>>, height: nat, row: nat, fftIndex: nat, labelText: string)
  {
    && |line| == 1 + |cols|
    && line[0] == (if Labelled(row, height) then Raw(labelText) else Raw(BLANK_LABEL))
    && line[1..] == Cells(cols, fftIndex)
  }

  /** The cells of one row: column j's cell at bin `fftIndex`. */
  function Cells(cols: seq<seq<real>>, fftIndex: nat): (cells: seq<Span>)
    ensures |cells| == |cols|
  {
    seq(|cols|, j requires 0 <= j < |cols| => Cell(cols[j], fftIndex))
  }

  /** The inner `for` loop of one row: one cell per drawn column at bin `fftIndex`. */
  method DrawCells(cols: seq<seq<real>>, fftIndex: nat) returns (cells: seq<Span>)
    ensures cells == Cells(cols, fftIndex)
  {
    cells := [];
    var j := 0;
    while j < |cols|
      invariant j <= |cols|
      invariant |cells| == j
      invariant forall k :: 0 <= k < j ==> cells[k] == Cell(cols[k], fftIndex)
    {
      cells := cells + [Cell(cols[j], fftIndex)];
      j := j + 1;
    }
    assert |cells| == |cols|;
  }

  /** One pass of the drawing closure's row loop: the label span, then the row's cells. */
  method DrawRow(cols: seq<seq<real>>, height: nat, row: nat, fftIndex: nat, labelText: string)
    returns (line: seq<Span>)
    ensures IsRow(line, cols, height, row, fftIndex, labelText)
  {
    var cells := DrawCells(cols, fftIndex);
    var shown := if row % LabelDivisor(height) == 0 then labelText else BLANK_LABEL;
    line := [Raw(shown)] + cells;
    assert line[1..] == cells;
  }

  /**
   * The `for row in 0..height` loop of the drawing closure: `fftIndexOf(row)`
   * is the row's bin index and `labelOf(row)` its formatted frequency label.
   */
  method Draw(spec: seq<seq<real>>, innerWidth: nat, height: nat,
              fftIndexOf: nat -> nat, labelOf: nat -> string)
    returns (lines: seq<seq<Span>>)
    ensures |lines| == height
    ensures forall row :: 0 <= row < height ==>
      IsRow(lines[row], DrawnColumns(spec, innerWidth), height, row, fftIndexOf(row), labelOf(row))
  {
    var cols := DrawnColumns(spec, innerWidth);
    lines := [];
    var row := 0;
    while row < height
      invariant row <= height
      invariant |lines| == row
      invariant forall r :: 0 <= r < row ==> IsRow(lines[r], cols, height, r, fftIndexOf(r), labelOf(r))
    {
      var line := DrawRow(cols, height, row, fftIndexOf(row), labelOf(row));
      lines := lines + [line];
      row := row + 1;
    }
  }
}

/**
 * The iteration contract of `process_image` (src/image_converter.rs): which
 * calls an output stream receives, and in which order, when an image is
 * converted. The image is taken as the grid of pixels the image library yields
 * after decoding, resizing and grayscale conversion.
 *
 * The pixels are first mapped to their characters (`CharRows`); the calls are
 * then defined over those character lines, so that the layout of the outputs
 * can be reasoned about without the pixel arithmetic.
 */
module Pipeline {

  import opened Arithmetic
  import opened Converter

  /** A decoded image: `height` rows of `width` pixels each, top row first. */
  datatype Image = Image(width: nat, height: nat, rows: seq<seq<Pixel>>) {
    predicate WellFormed() {
      |rows| == height && forall y :: 0 <= y < |rows| ==> |rows[y]| == width
    }
  }

  /** A call the pipeline makes on an output stream (`on_start`, `add(h, w, pixel)`, `on_end`). */
  datatype Call = OnStart | Add(h: nat, w: nat, ch: char) | OnEnd

  /** The characters the converter gives the pixels of one row, left to right. */
  function RowChars(row: seq<Pixel>, palette: seq<char>): (chars: seq<char>)
    requires |palette| > 0
    ensures |chars| == |row|
  {
    if |row| == 0 then []
    else RowChars(row[..|row| - 1], palette) + [Convert(palette, row[|row| - 1])]
  }

  /** The character lines of a grid of pixels, one per row. */
  function CharRows(rows: seq<seq<Pixel>>, palette: seq<char>): (lines: seq<seq<char>>)
    requires |palette| > 0
    ensures |lines| == |rows|
  {
    if |rows| == 0 then []
    else CharRows(rows[..|rows| - 1], palette) + [RowChars(rows[|rows| - 1], palette)]
  }

  /** Character `x` of a row is the converted pixel `x`. */
  lemma {:induction false} RowCharsAt(row: seq<Pixel>, palette: seq<char>, x: nat)
    requires |palette| > 0 && x < |row|
    ensures RowChars(row, palette)[x] == Convert(palette, row[x])
  {
    if x < |row| - 1 {
      RowCharsAt(row[..|row| - 1], palette, x);
    }
  }

  /** Line `y` of a grid is the characters of row `y`. */
  lemma {:induction false} CharRowsRow(rows: seq<seq<Pixel>>, palette: seq<char>, y: nat)
    requires |palette| > 0 && y < |rows|
    ensures CharRows(rows, palette)[y] == RowChars(rows[y], palette)
  {
    if y < |rows| - 1 {
      CharRowsRow(rows[..|rows| - 1], palette, y);
    }
  }

  /** Whether every line has `width` characters. */
  predicate LinesOfWidth(lines: seq<seq<char>>, width: nat) {
    forall y :: 0 <= y < |lines| ==> |lines[y]| == width
  }

  /**
   * The `add` calls for line `y`: one per character, left column first, each
   * carrying the row, the column and the character.
   */
  function RowAdds(y: nat, line: seq<char>): (calls: seq<Call>)
    ensures |calls| == |line|
  {
    if |line| == 0 then []
    else RowAdds(y, line[..|line| - 1]) + [Add(y, |line| - 1, line[|line| - 1])]
  }

  /** Call `x` of line `y` is the `add` of character `x` at row `y`, column `x`. */
  lemma {:induction false} RowAddsAt(y: nat, line: seq<char>, x: nat)
    requires x < |line|
    ensures RowAdds(y, line)[x] == Add(y, x, line[x])
  {
    if x < |line| - 1 {
      RowAddsAt(y, line[..|line| - 1], x);
    }
  }

  /** The `add` calls for the lines `lines`, top line first. */
  function GridAdds(lines: seq<seq<char>>): seq<Call>
  {
    if |lines| == 0 then []
    else GridAdds(lines[..|lines| - 1]) + RowAdds(|lines| - 1, lines[|lines| - 1])
  }

  /** The `add` calls `process_image` makes for the whole image. */
  function Adds(img: Image, palette: seq<char>): seq<Call>
    requires img.WellFormed() && |palette| > 0
  {
    GridAdds(CharRows(img.rows, palette))
  }

  /** Every call `process_image` makes on a stream: `on_start`, the `add` calls, `on_end`. */
  function Trace(img: Image, palette: seq<char>): seq<Call>
    requires img.WellFormed() && |palette| > 0
  {
    [OnStart] + Adds(img, palette) + [OnEnd]
  }

  /** Calls logged after `before`: `on_start`, the `add` calls, `on_end` extend `before` by the trace. */
  lemma TraceAppend(before: seq<Call>, img: Image, palette: seq<char>)
    requires img.WellFormed() && |palette| > 0
    ensures before + [OnStart] + Adds(img, palette) + [OnEnd] == before + Trace(img, palette)
  {
  }

  /** A zero-area image gets only the two hooks. */
  lemma ZeroAreaTrace(img: Image, palette: seq<char>)
    requires img.WellFormed() && |palette| > 0
    requires img.width == 0 || img.height == 0
    ensures Trace(img, palette) == [OnStart, OnEnd]
  {
    AddsLength(img, palette);
  }

  /** Whether every call is an `add`. */
  predicate OnlyAdds(calls: seq<Call>)
  {
    forall i :: 0 <= i < |calls| ==> calls[i].Add?
  }

  /** The calls of the lines `lines` are all `add` calls. */
  lemma {:induction false} GridAddsOnlyAdds(lines: seq<seq<char>>)
    ensures OnlyAdds(GridAdds(lines))
  {
    var n := |lines|;
    if n > 0 {
      var front, last := GridAdds(lines[..n - 1]), RowAdds(n - 1, lines[n - 1]);
      GridAddsOnlyAdds(lines[..n - 1]);
      forall i | 0 <= i < |last|
        ensures last[i].Add?
      {
        RowAddsAt(n - 1, lines[n - 1], i);
      }
      assert GridAdds(lines) == front + last;
    }
  }

  /**
   * The trace calls `on_start` exactly once, first, and `on_end` exactly
   * once, last; every call between them is an `add`.
   */
  lemma TraceHooks(img: Image, palette: seq<char>)
    requires img.WellFormed() && |palette| > 0
    ensures var t := Trace(img, palette);
      |t| >= 2 && t[0] == OnStart && t[|t| - 1] == OnEnd &&
      forall i :: 0 < i < |t| - 1 ==> t[i].Add?
  {
    var t, adds := Trace(img, palette), Adds(img, palette);
    GridAddsOnlyAdds(CharRows(img.rows, palette));
    forall i | 0 < i < |t| - 1
      ensures t[i].Add?
    {
      assert t[i] == adds[i - 1];
    }
  }

  /** The character lines of a well-formed image have the image's shape. */
  lemma CharRowsShape(img: Image, palette: seq<char>)
    requires img.WellFormed() && |palette| > 0
    ensures |CharRows(img.rows, palette)| == img.height
    ensures LinesOfWidth(CharRows(img.rows, palette), img.width)
  {
    forall y | 0 <= y < img.height
      ensures |CharRows(img.rows, palette)[y]| == img.width
    {
      CharRowsRow(img.rows, palette, y);
    }
  }

  /** The character of the pixel in row `y`, column `x`. */
  lemma CharRowsAt(img: Image, palette: seq<char>, y: nat, x: nat)
    requires img.WellFormed() && |palette| > 0
    requires y < img.height && x < img.width
    ensures y < |CharRows(img.rows, palette)| && x < |CharRows(img.rows, palette)[y]|
    ensures CharRows(img.rows, palette)[y][x] == Convert(palette, img.rows[y][x])
  {
    CharRowsRow(img.rows, palette, y);
    RowCharsAt(img.rows[y], palette, x);
  }

  /** Lines of `width` characters each yield exactly `width` calls per line. */
  lemma {:induction false} GridAddsLength(lines: seq<seq<char>>, width: nat)
    requires LinesOfWidth(lines, width)
    ensures |GridAdds(lines)| == Offset(|lines|, width)
  {
    if |lines| > 0 {
      GridAddsLength(lines[..|lines| - 1], width);
    }
  }

  /**
   * The call at position `Offset(y, width) + x` of a grid is the `add` of the
   * character in line `y`, column `x`: row-major order, with the row as first
   * argument and the column as second.
   */
  lemma {:induction false} GridAddsAt(lines: seq<seq<char>>, width: nat, y: nat, x: nat)
    requires LinesOfWidth(lines, width)
    requires y < |lines| && x < width
    ensures Offset(y, width) + x < |GridAdds(lines)|
    ensures GridAdds(lines)[Offset(y, width) + x] == Add(y, x, lines[y][x])
  {
    var n := |lines|;
    var front := lines[..n - 1];
    GridAddsLength(lines, width);
    GridAddsLength(front, width);
    if y < n - 1 {
      OffsetMonotone(y, n - 1, width);
      GridAddsAt(front, width, y, x);
      assert front[y] == lines[y];
    } else {
      RowAddsAt(y, lines[y], x);
    }
  }

  /**
   * `process_image` on a W×H image makes exactly H·W `add` calls; a
   * zero-area image makes none.
   */
  lemma AddsLength(img: Image, palette: seq<char>)
    requires img.WellFormed() && |palette| > 0
    ensures |Adds(img, palette)| == img.height * img.width
    ensures img.width == 0 || img.height == 0 ==> Adds(img, palette) == []
  {
    CharRowsShape(img, palette);
    GridAddsLength(CharRows(img.rows, palette), img.width);
    OffsetIsProduct(img.height, img.width);
  }

  /**
   * The `add` call at position Offset(y, W) + x (that is y·W + x by
   * `OffsetIsProduct`) is the one for row `y` and column `x`, and carries the
   * converted pixel: the calls come in row-major order, the row as first
   * argument and the column as second.
   */
  lemma AddsInRowMajorOrder(img: Image, palette: seq<char>, y: nat, x: nat)
    requires img.WellFormed() && |palette| > 0
    requires y < img.height && x < img.width
    ensures Offset(y, img.width) + x < |Adds(img, palette)|
    ensures Adds(img, palette)[Offset(y, img.width) + x] == Add(y, x, Convert(palette, img.rows[y][x]))
  {
    CharRowsShape(img, palette);
    CharRowsAt(img, palette, y, x);
    GridAddsAt(CharRows(img.rows, palette), img.width, y, x);
  }

  // ----- progress of the pixel loop --------------------------------------

  /** The `add` calls made before the pixel in line `y`, column `x`: every earlier line, then the start of line `y`. */
  function AddsBefore(lines: seq<seq<char>>, y: nat, x: nat): seq<Call>
    requires y < |lines| && x <= |lines[y]|
  {
    GridAdds(lines[..y]) + RowAdds(y, lines[y][..x])
  }

  /** Before the first pixel of a line come the calls of the lines above it. */
  lemma AddsBeforeRowStart(lines: seq<seq<char>>, y: nat)
    requires y < |lines|
    ensures AddsBefore(lines, y, 0) == GridAdds(lines[..y])
  {
    assert lines[y][..0] == [];
  }

  /** One pixel further, the calls have grown by that pixel's `add`. */
  lemma AddsBeforeNext(lines: seq<seq<char>>, y: nat, x: nat)
    requires y < |lines| && x < |lines[y]|
    ensures AddsBefore(lines, y, x + 1) == AddsBefore(lines, y, x) + [Add(y, x, lines[y][x])]
  {
    var line := lines[y];
    assert line[..x + 1][..x] == line[..x];
  }

  /** A log of calls that ends with the `add` calls before pixel (y, x) grows by that pixel's `add`. */
  lemma LogNext(log: seq<Call>, lines: seq<seq<char>>, y: nat, x: nat)
    requires y < |lines| && x < |lines[y]|
    ensures log + AddsBefore(lines, y, x) + [Add(y, x, lines[y][x])] == log + AddsBefore(lines, y, x + 1)
  {
    AddsBeforeNext(lines, y, x);
  }

  /** After the last pixel of line `y` the calls are those of lines 0 to y. */
  lemma AddsBeforeRowEnd(lines: seq<seq<char>>, y: nat)
    requires y < |lines|
    ensures AddsBefore(lines, y, |lines[y]|) == GridAdds(lines[..y + 1])
  {
    assert lines[y][..|lines[y]|] == lines[y];
    assert lines[..y + 1][..y] == lines[..y];
  }
}

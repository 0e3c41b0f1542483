/**
 * What the two output streams of src/image_converter.rs make of a sequence of
 * calls: the buffer of `ImageFileStream` and the text `ConsoleStream` prints.
 * Each `add` is a step function; a run is the fold of those steps over the
 * calls `process_image` makes. The lemmas here state the row and newline
 * structure that results from a whole image.
 */
module Rendering {

  import opened Arithmetic
  import opened Converter
  import opened Pipeline
  import opened Blocks

  /** `ImageFileStream::add` on the buffer `line`. */
  function FileStep(line: seq<char>, w: nat, ch: char): seq<char>
  {
    if w == 0 && |line| > 0 then line + ['\n', ch] else line + [ch]
  }

  /**
   * `ImageFileStream::add` keeps the old buffer as a prefix and ends it with
   * the character; it puts a newline before the character exactly when the
   * column is 0 and the buffer was not empty, and grows the buffer by one
   * character otherwise.
   */
  lemma FileStepShape(line: seq<char>, w: nat, ch: char)
    ensures var r := FileStep(line, w, ch);
      line <= r && r[|r| - 1] == ch &&
      (if w == 0 && |line| > 0 then |r| == |line| + 2 && r[|line|] == '\n' else |r| == |line| + 1)
  {
  }

  /** `ConsoleStream::add` on what has been printed so far, `out`. */
  function ConsoleStep(out: seq<char>, w: nat, ch: char): seq<char>
  {
    if w == 0 then out + [ch, '\n'] else out + [ch]
  }

  /**
   * `ConsoleStream::add` keeps what was printed and prints the character
   * next; a newline follows it exactly when the column is 0, whether or not
   * anything was printed before.
   */
  lemma ConsoleStepShape(out: seq<char>, w: nat, ch: char)
    ensures var r := ConsoleStep(out, w, ch);
      out <= r && r[|out|] == ch &&
      (if w == 0 then |r| == |out| + 2 && r[|out| + 1] == '\n' else |r| == |out| + 1)
  {
  }

  /** The file buffer after `calls`, starting from `line`; `on_start` and `on_end` leave it alone. */
  function FileReplay(line: seq<char>, calls: seq<Call>): seq<char>
  {
    if |calls| == 0 then line
    else
      var before := FileReplay(line, calls[..|calls| - 1]);
      match calls[|calls| - 1]
      case Add(_, w, ch) => FileStep(before, w, ch)
      case _ => before
  }

  /** The console text after `calls`, starting from `out`; `on_start` and `on_end` print nothing. */
  function ConsoleReplay(out: seq<char>, calls: seq<Call>): seq<char>
  {
    if |calls| == 0 then out
    else
      var before := ConsoleReplay(out, calls[..|calls| - 1]);
      match calls[|calls| - 1]
      case Add(_, w, ch) => ConsoleStep(before, w, ch)
      case _ => before
  }

  /** Replaying two batches of calls is replaying the first, then the second. */
  lemma {:induction false} FileReplayConcat(line: seq<char>, a: seq<Call>, b: seq<Call>)
    ensures FileReplay(line, a + b) == FileReplay(FileReplay(line, a), b)
  {
    if |b| > 0 {
      assert (a + b)[..|a + b| - 1] == a + b[..|b| - 1];
      FileReplayConcat(line, a, b[..|b| - 1]);
    } else {
      assert a + b == a;
    }
  }

  /** Replaying two batches of calls is replaying the first, then the second. */
  lemma {:induction false} ConsoleReplayConcat(out: seq<char>, a: seq<Call>, b: seq<Call>)
    ensures ConsoleReplay(out, a + b) == ConsoleReplay(ConsoleReplay(out, a), b)
  {
    if |b| > 0 {
      assert (a + b)[..|a + b| - 1] == a + b[..|b| - 1];
      ConsoleReplayConcat(out, a, b[..|b| - 1]);
    } else {
      assert a + b == a;
    }
  }

  /** Replaying one more `add` is one more step. */
  lemma FileReplayAdd(line: seq<char>, calls: seq<Call>, h: nat, w: nat, ch: char)
    ensures FileReplay(line, calls + [Add(h, w, ch)]) == FileStep(FileReplay(line, calls), w, ch)
  {
    assert (calls + [Add(h, w, ch)])[..|calls|] == calls;
  }

  /** Replaying one more `add` is one more step. */
  lemma ConsoleReplayAdd(out: seq<char>, calls: seq<Call>, h: nat, w: nat, ch: char)
    ensures ConsoleReplay(out, calls + [Add(h, w, ch)]) == ConsoleStep(ConsoleReplay(out, calls), w, ch)
  {
    assert (calls + [Add(h, w, ch)])[..|calls|] == calls;
  }

  /** The hooks print nothing: replaying the whole trace of an image is replaying its `add` calls. */
  lemma TraceReplay(start: seq<char>, img: Image, palette: seq<char>)
    requires img.WellFormed() && |palette| > 0
    ensures FileReplay(start, Trace(img, palette)) == FileReplay(start, Adds(img, palette))
    ensures ConsoleReplay(start, Trace(img, palette)) == ConsoleReplay(start, Adds(img, palette))
  {
    var adds := Adds(img, palette);
    var t := Trace(img, palette);
    assert t[..|t| - 1] == [OnStart] + adds;
    FileReplayConcat(start, [OnStart], adds);
    ConsoleReplayConcat(start, [OnStart], adds);
    assert [OnStart][..0] == [];
  }

  // ----- reference layouts -------------------------------------------------

  /**
   * What a file stream holds after the lines `lines`: each line, a newline
   * between two lines and none after the last.
   */
  function FileText(lines: seq<seq<char>>): seq<char>
  {
    if |lines| == 0 then []
    else if |lines| == 1 then lines[0]
    else FileText(lines[..|lines| - 1]) + ['\n'] + lines[|lines| - 1]
  }

  /** A line as the console prints it: its first character, a newline, the rest. */
  function ConsoleRow(line: seq<char>): seq<char>
  {
    if |line| == 0 then [] else [line[0], '\n'] + line[1..]
  }

  /** What a console shows after the lines `lines`: every line printed as `ConsoleRow`. */
  function ConsoleText(lines: seq<seq<char>>): seq<char>
  {
    if |lines| == 0 then []
    else ConsoleText(lines[..|lines| - 1]) + ConsoleRow(lines[|lines| - 1])
  }

  /** No line holds a newline. */
  predicate NoNewlines(lines: seq<seq<char>>)
  {
    forall y, x :: 0 <= y < |lines| && 0 <= x < |lines[y]| ==> lines[y][x] != '\n'
  }

  /** A line of lines without newlines holds no newline. */
  lemma NoNewlineIn(lines: seq<seq<char>>, y: nat)
    requires NoNewlines(lines) && y < |lines|
    ensures '\n' !in lines[y]
  {
    assert forall x :: 0 <= x < |lines[y]| ==> lines[y][x] != '\n';
  }

  /** The number of occurrences of `c` in `s`. */
  function Count(c: char, s: seq<char>): nat
  {
    if |s| == 0 then 0 else Count(c, s[..|s| - 1]) + (if s[|s| - 1] == c then 1 else 0)
  }

  // ----- a line at a time --------------------------------------------------

  /**
   * The `add` calls of a non-empty line append a newline when the buffer was
   * not empty, then the line's characters.
   */
  lemma {:induction false} FileRow(buf: seq<char>, y: nat, line: seq<char>)
    requires |line| > 0
    ensures FileReplay(buf, RowAdds(y, line)) == (if |buf| > 0 then buf + ['\n'] else buf) + line
  {
    var n := |line|;
    var calls := RowAdds(y, line);
    assert calls[..n - 1] == RowAdds(y, line[..n - 1]);
    var c := line[n - 1];
    var head := if |buf| > 0 then buf + ['\n'] else buf;
    assert line == line[..n - 1] + [c];
    var before := FileReplay(buf, calls[..n - 1]);
    assert FileReplay(buf, calls) == FileStep(before, n - 1, c);
    if n > 1 {
      FileRow(buf, y, line[..n - 1]);
      assert FileStep(before, n - 1, c) == before + [c];
      assert before + [c] == head + (line[..n - 1] + [c]);
    } else {
      assert line == [c];
    }
  }

  /**
   * The `add` calls of a line print the line's first character, a newline,
   * then the rest of the line; an empty line prints nothing.
   */
  lemma {:induction false} ConsoleRowReplay(out: seq<char>, y: nat, line: seq<char>)
    ensures ConsoleReplay(out, RowAdds(y, line)) == out + ConsoleRow(line)
  {
    var n := |line|;
    if n > 0 {
      var calls := RowAdds(y, line);
      assert calls[..n - 1] == RowAdds(y, line[..n - 1]);
      assert line == line[..n - 1] + [line[n - 1]];
      ConsoleRowReplay(out, y, line[..n - 1]);
    } else {
      assert out + [] == out;
    }
  }

  // ----- a whole grid ------------------------------------------------------

  /** A file stream that starts empty ends up holding `FileText` of the lines. */
  lemma {:induction false} FileGrid(lines: seq<seq<char>>, width: nat)
    requires width > 0 && LinesOfWidth(lines, width)
    ensures FileReplay([], GridAdds(lines)) == FileText(lines)
  {
    var n := |lines|;
    if n > 0 {
      var front := lines[..n - 1];
      FileGrid(front, width);
      FileReplayConcat([], GridAdds(front), RowAdds(n - 1, lines[n - 1]));
      var before := FileReplay([], GridAdds(front));
      FileRow(before, n - 1, lines[n - 1]);
      if n > 1 {
        FileTextLength(front, width);
        OffsetMonotone(0, n - 1, width + 1);
      }
    }
  }

  /** A console that starts empty ends up showing `ConsoleText` of the lines, whatever their widths. */
  lemma {:induction false} ConsoleGrid(lines: seq<seq<char>>)
    ensures ConsoleReplay([], GridAdds(lines)) == ConsoleText(lines)
  {
    var n := |lines|;
    if n > 0 {
      var front := lines[..n - 1];
      ConsoleGrid(front);
      ConsoleReplayConcat([], GridAdds(front), RowAdds(n - 1, lines[n - 1]));
      ConsoleRowReplay(ConsoleReplay([], GridAdds(front)), n - 1, lines[n - 1]);
    }
  }

  // ----- the layout of the reference texts ---------------------------------

  /** Lines of `width` characters joined by newlines: n blocks of width + 1 characters less the final newline. */
  lemma {:induction false} FileTextLength(lines: seq<seq<char>>, width: nat)
    requires LinesOfWidth(lines, width) && |lines| > 0
    ensures |FileText(lines)| + 1 == Offset(|lines|, width + 1)
  {
    if |lines| > 1 {
      FileTextLength(lines[..|lines| - 1], width);
    }
  }

  /** Every line with a newline after it, the last included. */
  function FileBlocks(lines: seq<seq<char>>): (blocks: seq<seq<char>>)
    ensures |blocks| == |lines|
  {
    seq(|lines|, y requires 0 <= y < |lines| => lines[y] + ['\n'])
  }

  /** Block y of `FileBlocks` is line y and its newline. */
  lemma FileBlockAt(lines: seq<seq<char>>, y: nat)
    requires y < |lines|
    ensures FileBlocks(lines)[y] == lines[y] + ['\n']
  {
  }

  /** The file text followed by one more newline is every line with its newline, one after the other. */
  lemma {:induction false} FileTextBlocks(lines: seq<seq<char>>)
    requires |lines| > 0
    ensures FileText(lines) + ['\n'] == Flatten(FileBlocks(lines))
  {
    var n := |lines|;
    if n > 1 {
      assert FileBlocks(lines)[..n - 1] == FileBlocks(lines[..n - 1]);
      FileTextBlocks(lines[..n - 1]);
    }
  }

  /** Lines of `width` characters make blocks of width + 1. */
  lemma FileBlocksOfWidth(lines: seq<seq<char>>, width: nat)
    requires LinesOfWidth(lines, width)
    ensures BlocksOf(FileBlocks(lines), width + 1)
  {
    forall y | 0 <= y < |lines|
      ensures |FileBlocks(lines)[y]| == width + 1
    {
      FileBlockAt(lines, y);
    }
  }

  /** Below its length, the file text agrees with its blocks one after the other. */
  lemma FileTextBlocksAt(lines: seq<seq<char>>, i: nat)
    requires |lines| > 0 && i < |FileText(lines)|
    ensures i < |Flatten(FileBlocks(lines))| && FileText(lines)[i] == Flatten(FileBlocks(lines))[i]
  {
    FileTextBlocks(lines);
    var text := FileText(lines);
    assert (text + ['\n'])[i] == text[i];
  }

  /** In the file text, character x of line y sits at the start of block y plus x. */
  lemma FileTextAt(lines: seq<seq<char>>, width: nat, y: nat, x: nat)
    requires LinesOfWidth(lines, width)
    requires y < |lines| && x < width
    ensures Offset(y, width + 1) + x < |FileText(lines)|
    ensures FileText(lines)[Offset(y, width + 1) + x] == lines[y][x]
  {
    var blocks, text, i := FileBlocks(lines), FileText(lines), Offset(y, width + 1) + x;
    FileTextLength(lines, width);
    OffsetMonotone(y, |lines|, width + 1);
    assert i < |text|;
    FileTextBlocksAt(lines, i);
    FileBlocksOfWidth(lines, width);
    FlattenAt(blocks, width + 1, y, x);
    FileBlockAt(lines, y);
  }

  /** In the file text, every line but the last is followed by a newline at the end of its block. */
  lemma FileTextNewlineAt(lines: seq<seq<char>>, width: nat, y: nat)
    requires LinesOfWidth(lines, width)
    requires y + 1 < |lines|
    ensures Offset(y, width + 1) + width < |FileText(lines)|
    ensures FileText(lines)[Offset(y, width + 1) + width] == '\n'
  {
    var blocks, text, i := FileBlocks(lines), FileText(lines), Offset(y, width + 1) + width;
    FileTextLength(lines, width);
    OffsetMonotone(y + 1, |lines|, width + 1);
    assert i < |text|;
    FileTextBlocksAt(lines, i);
    FileBlocksOfWidth(lines, width);
    FlattenAt(blocks, width + 1, y, width);
    FileBlockAt(lines, y);
  }

  /** With no newline in the lines, the file text holds one newline fewer than lines. */
  lemma {:induction false} FileTextCount(lines: seq<seq<char>>)
    requires NoNewlines(lines) && |lines| > 0
    ensures Count('\n', FileText(lines)) == |lines| - 1
  {
    var n := |lines|;
    NoNewlineIn(lines, n - 1);
    CountAbsent('\n', lines[n - 1]);
    if n > 1 {
      var before := FileText(lines[..n - 1]);
      FileTextCount(lines[..n - 1]);
      CountConcat('\n', before + ['\n'], lines[n - 1]);
      CountConcat('\n', before, ['\n']);
      assert ['\n'][..0] == [];
    }
  }

  /** Lines of `width` ≥ 1 characters as the console prints them: n blocks of width + 1 characters. */
  lemma {:induction false} ConsoleTextLength(lines: seq<seq<char>>, width: nat)
    requires width > 0 && LinesOfWidth(lines, width)
    ensures |ConsoleText(lines)| == Offset(|lines|, width + 1)
  {
    if |lines| > 0 {
      ConsoleTextLength(lines[..|lines| - 1], width);
    }
  }

  /** Every line as `ConsoleRow` prints it. */
  function ConsoleBlocks(lines: seq<seq<char>>): (blocks: seq<seq<char>>)
    ensures |blocks| == |lines|
  {
    if |lines| == 0 then []
    else ConsoleBlocks(lines[..|lines| - 1]) + [ConsoleRow(lines[|lines| - 1])]
  }

  /** Block y of `ConsoleBlocks` is line y as the console prints it. */
  lemma {:induction false} ConsoleBlockAt(lines: seq<seq<char>>, y: nat)
    requires y < |lines|
    ensures ConsoleBlocks(lines)[y] == ConsoleRow(lines[y])
  {
    if y < |lines| - 1 {
      ConsoleBlockAt(lines[..|lines| - 1], y);
    }
  }

  /** The console text is the printed lines one after the other. */
  lemma {:induction false} ConsoleTextBlocks(lines: seq<seq<char>>)
    ensures ConsoleText(lines) == Flatten(ConsoleBlocks(lines))
  {
    if |lines| > 0 {
      ConsoleTextBlocks(lines[..|lines| - 1]);
    }
  }

  /** Block y of the console text is line y as `ConsoleRow` prints it. */
  lemma ConsoleTextAt(lines: seq<seq<char>>, width: nat, y: nat, k: nat)
    requires width > 0 && LinesOfWidth(lines, width)
    requires y < |lines| && k <= width
    ensures Offset(y, width + 1) + k < |ConsoleText(lines)|
    ensures ConsoleText(lines)[Offset(y, width + 1) + k] == ConsoleRow(lines[y])[k]
  {
    var blocks := ConsoleBlocks(lines);
    ConsoleTextBlocks(lines);
    forall z | 0 <= z < |blocks|
      ensures |blocks[z]| == width + 1
    {
      ConsoleBlockAt(lines, z);
      ConsoleRowAt(lines[z], 0);
    }
    FlattenAt(blocks, width + 1, y, k);
    ConsoleBlockAt(lines, y);
  }

  /** Where the characters of a non-empty line go when the console prints it. */
  lemma ConsoleRowAt(line: seq<char>, x: nat)
    requires x < |line|
    ensures |ConsoleRow(line)| == |line| + 1
    ensures ConsoleRow(line)[0] == line[0] && ConsoleRow(line)[1] == '\n'
    ensures x > 0 ==> ConsoleRow(line)[x + 1] == line[x]
  {
  }

  /** A non-empty line without a newline brings exactly one newline when the console prints it. */
  lemma ConsoleRowCount(line: seq<char>)
    requires |line| > 0 && '\n' !in line
    ensures Count('\n', ConsoleRow(line)) == 1
  {
    assert ConsoleRow(line) == [line[0]] + (['\n'] + line[1..]);
    CountAbsent('\n', line[1..]);
    CountConcat('\n', ['\n'], line[1..]);
    CountConcat('\n', [line[0]], ['\n'] + line[1..]);
    assert [line[0]][..0] == [];
    assert ['\n'][..0] == [];
  }

  /** With no newline in the lines, the console text holds one newline per non-empty line. */
  lemma {:induction false} ConsoleTextCount(lines: seq<seq<char>>, width: nat)
    requires NoNewlines(lines) && width > 0 && LinesOfWidth(lines, width)
    ensures Count('\n', ConsoleText(lines)) == |lines|
  {
    var n := |lines|;
    if n > 0 {
      ConsoleTextCount(lines[..n - 1], width);
      NoNewlineIn(lines, n - 1);
      ConsoleRowCount(lines[n - 1]);
      CountConcat('\n', ConsoleText(lines[..n - 1]), ConsoleRow(lines[n - 1]));
    } else {
      assert ConsoleText(lines) == [];
    }
  }

  // ----- lemmas about Count ------------------------------------------------

  /** Counting over a concatenation adds the counts. */
  lemma {:induction false} CountConcat(c: char, a: seq<char>, b: seq<char>)
    ensures Count(c, a + b) == Count(c, a) + Count(c, b)
  {
    if |b| > 0 {
      assert (a + b)[..|a + b| - 1] == a + b[..|b| - 1];
      CountConcat(c, a, b[..|b| - 1]);
    } else {
      assert a + b == a;
    }
  }

  /** A character that does not occur is counted zero times. */
  lemma {:induction false} CountAbsent(c: char, s: seq<char>)
    requires c !in s
    ensures Count(c, s) == 0
  {
    if |s| > 0 {
      CountAbsent(c, s[..|s| - 1]);
    }
  }

  // ----- the output of a grid of lines -------------------------------------

  /**
   * `FileLayout` for lines: H ≥ 1 lines of W ≥ 1 characters without newlines
   * leave H − 1 newlines and H·(W + 1) − 1 characters, none at either end a
   * newline.
   */
  lemma FileLinesLayout(lines: seq<seq<char>>, width: nat, out: seq<char>)
    requires width > 0 && |lines| > 0 && LinesOfWidth(lines, width) && NoNewlines(lines)
    requires out == FileReplay([], GridAdds(lines))
    ensures Count('\n', out) == |lines| - 1
    ensures |out| == |lines| * (width + 1) - 1
    ensures out[0] != '\n' && out[|out| - 1] != '\n'
  {
    FileGrid(lines, width);
    assert out == FileText(lines);
    FileTextCount(lines);
    FileTextLength(lines, width);
    OffsetIsProduct(|lines|, width + 1);
    FileTextAt(lines, width, 0, 0);
    FileTextAt(lines, width, |lines| - 1, width - 1);
    NoNewlineIn(lines, 0);
    NoNewlineIn(lines, |lines| - 1);
  }

  /** `FileCharAt` for lines. */
  lemma FileLinesCharAt(lines: seq<seq<char>>, width: nat, out: seq<char>, y: nat, x: nat, c: char)
    requires LinesOfWidth(lines, width) && out == FileReplay([], GridAdds(lines))
    requires y < |lines| && x < width && lines[y][x] == c
    ensures Offset(y, width + 1) + x < |out|
    ensures out[Offset(y, width + 1) + x] == c
  {
    FileGrid(lines, width);
    assert out == FileText(lines);
    FileTextAt(lines, width, y, x);
  }

  /** `FileNewlineAt` for lines. */
  lemma FileLinesNewlineAt(lines: seq<seq<char>>, width: nat, out: seq<char>, y: nat)
    requires width > 0 && LinesOfWidth(lines, width) && out == FileReplay([], GridAdds(lines))
    requires y + 1 < |lines|
    ensures Offset(y, width + 1) + width < |out|
    ensures out[Offset(y, width + 1) + width] == '\n'
  {
    FileGrid(lines, width);
    assert out == FileText(lines);
    FileTextNewlineAt(lines, width, y);
  }

  /** `ConsoleLayout` for lines. */
  lemma ConsoleLinesLayout(lines: seq<seq<char>>, width: nat, out: seq<char>)
    requires width > 0 && LinesOfWidth(lines, width) && NoNewlines(lines)
    requires out == ConsoleReplay([], GridAdds(lines))
    ensures Count('\n', out) == |lines|
    ensures |out| == |lines| * (width + 1)
  {
    ConsoleGrid(lines);
    assert out == ConsoleText(lines);
    ConsoleTextCount(lines, width);
    ConsoleTextLength(lines, width);
    OffsetIsProduct(|lines|, width + 1);
  }

  /** `ConsoleRowStart` for lines. */
  lemma ConsoleLinesRowStart(lines: seq<seq<char>>, width: nat, out: seq<char>, y: nat, c: char)
    requires width > 0 && LinesOfWidth(lines, width) && out == ConsoleReplay([], GridAdds(lines))
    requires y < |lines| && lines[y][0] == c
    ensures Offset(y, width + 1) + width < |out|
    ensures out[Offset(y, width + 1)] == c
  {
    ConsoleGrid(lines);
    assert out == ConsoleText(lines);
    ConsoleTextRowStart(lines, width, y);
  }

  /** `ConsoleNewlineAt` for lines. */
  lemma ConsoleLinesNewlineAt(lines: seq<seq<char>>, width: nat, out: seq<char>, y: nat)
    requires width > 0 && LinesOfWidth(lines, width) && out == ConsoleReplay([], GridAdds(lines))
    requires y < |lines|
    ensures Offset(y, width + 1) + 1 < |out|
    ensures out[Offset(y, width + 1) + 1] == '\n'
  {
    ConsoleGrid(lines);
    assert out == ConsoleText(lines);
    ConsoleTextNewlineAt(lines, width, y);
  }

  /** `ConsoleCharAt` for lines. */
  lemma ConsoleLinesCharAt(lines: seq<seq<char>>, width: nat, out: seq<char>, y: nat, x: nat, c: char)
    requires LinesOfWidth(lines, width) && out == ConsoleReplay([], GridAdds(lines))
    requires y < |lines| && 0 < x < width && lines[y][x] == c
    ensures Offset(y, width + 1) + (x + 1) < |out|
    ensures out[Offset(y, width + 1) + (x + 1)] == c
  {
    ConsoleGrid(lines);
    assert out == ConsoleText(lines);
    ConsoleTextCharAt(lines, width, y, x);
  }

  /** Row y of the console text starts with the line's first character. */
  lemma ConsoleTextRowStart(lines: seq<seq<char>>, width: nat, y: nat)
    requires width > 0 && LinesOfWidth(lines, width) && y < |lines|
    ensures Offset(y, width + 1) + width < |ConsoleText(lines)|
    ensures ConsoleText(lines)[Offset(y, width + 1)] == lines[y][0]
  {
    ConsoleTextAt(lines, width, y, 0);
    ConsoleTextAt(lines, width, y, width);
    ConsoleRowAt(lines[y], 0);
    var start := Offset(y, width + 1);
    assert ConsoleText(lines)[start + 0] == lines[y][0];
  }

  /** The newline of row y of the console text follows the line's first character. */
  lemma ConsoleTextNewlineAt(lines: seq<seq<char>>, width: nat, y: nat)
    requires width > 0 && LinesOfWidth(lines, width) && y < |lines|
    ensures Offset(y, width + 1) + 1 < |ConsoleText(lines)|
    ensures ConsoleText(lines)[Offset(y, width + 1) + 1] == '\n'
  {
    ConsoleTextAt(lines, width, y, 1);
    ConsoleRowAt(lines[y], 0);
  }

  /** Character x ≥ 1 of line y sits one place further right than in the file text. */
  lemma ConsoleTextCharAt(lines: seq<seq<char>>, width: nat, y: nat, x: nat)
    requires LinesOfWidth(lines, width) && y < |lines| && 0 < x < width
    ensures Offset(y, width + 1) + (x + 1) < |ConsoleText(lines)|
    ensures ConsoleText(lines)[Offset(y, width + 1) + (x + 1)] == lines[y][x]
  {
    ConsoleTextAt(lines, width, y, x + 1);
    ConsoleRowAt(lines[y], x);
  }

  // ----- the output of a whole image ---------------------------------------

  /** Characters drawn from a palette without a newline leave every line of an image without one. */
  lemma CharRowsAvoidNewline(img: Image, palette: seq<char>)
    requires img.WellFormed() && |palette| > 0 && '\n' !in palette
    ensures NoNewlines(CharRows(img.rows, palette))
  {
    var lines := CharRows(img.rows, palette);
    CharRowsShape(img, palette);
    forall y, x | 0 <= y < |lines| && 0 <= x < |lines[y]|
      ensures lines[y][x] != '\n'
    {
      CharRowsAt(img, palette, y, x);
    }
  }

  /** A zero-area image leaves both outputs empty. */
  lemma ZeroAreaOutputsNothing(img: Image, palette: seq<char>)
    requires img.WellFormed() && |palette| > 0
    requires img.width == 0 || img.height == 0
    ensures FileReplay([], Adds(img, palette)) == []
    ensures ConsoleReplay([], Adds(img, palette)) == []
  {
    AddsLength(img, palette);
  }

  /**
   * A file stream that starts empty and receives every `add` of a W×H image
   * (W ≥ 1, H ≥ 1, no newline in the palette) holds H − 1 newlines,
   * H·(W + 1) − 1 characters in all, and neither starts nor ends with a
   * newline.
   */
  lemma FileLayout(img: Image, palette: seq<char>, out: seq<char>)
    requires img.WellFormed() && |palette| > 0 && '\n' !in palette && out == FileReplay([], Adds(img, palette))
    requires img.width > 0 && img.height > 0
    ensures Count('\n', out) == img.height - 1
    ensures |out| == img.height * (img.width + 1) - 1
    ensures out[0] != '\n' && out[|out| - 1] != '\n'
  {
    CharRowsShape(img, palette);
    CharRowsAvoidNewline(img, palette);
    var lines := CharRows(img.rows, palette);
    assert out == FileReplay([], GridAdds(lines));
    FileLinesLayout(lines, img.width, out);
  }

  /**
   * In the file output `out` of a W×H image the character of pixel (y, x)
   * sits at Offset(y, W + 1) + x, that is y·(W + 1) + x by `OffsetIsProduct`.
   */
  lemma FileCharAt(img: Image, palette: seq<char>, out: seq<char>, y: nat, x: nat)
    requires img.WellFormed() && |palette| > 0 && out == FileReplay([], Adds(img, palette))
    requires y < img.height && x < img.width
    ensures Offset(y, img.width + 1) + x < |out|
    ensures out[Offset(y, img.width + 1) + x] == Convert(palette, img.rows[y][x])
  {
    CharRowsShape(img, palette);
    CharRowsAt(img, palette, y, x);
    var lines := CharRows(img.rows, palette);
    assert out == FileReplay([], GridAdds(lines));
    FileLinesCharAt(lines, img.width, out, y, x, Convert(palette, img.rows[y][x]));
  }

  /**
   * In the file output `out` of a W×H image every row but the last is
   * followed by a newline at Offset(y, W + 1) + W: the rows hold exactly W
   * characters.
   */
  lemma FileNewlineAt(img: Image, palette: seq<char>, out: seq<char>, y: nat)
    requires img.WellFormed() && |palette| > 0 && out == FileReplay([], Adds(img, palette))
    requires y + 1 < img.height && img.width > 0
    ensures Offset(y, img.width + 1) + img.width < |out|
    ensures out[Offset(y, img.width + 1) + img.width] == '\n'
  {
    CharRowsShape(img, palette);
    var lines := CharRows(img.rows, palette);
    assert out == FileReplay([], GridAdds(lines));
    FileLinesNewlineAt(lines, img.width, out, y);
  }

  /**
   * A console that starts empty and receives every `add` of a W×H image
   * (W ≥ 1, no newline in the palette) shows H newlines and H·(W + 1)
   * characters: every row, the last included, brings one newline.
   */
  lemma ConsoleLayout(img: Image, palette: seq<char>, out: seq<char>)
    requires img.WellFormed() && |palette| > 0 && '\n' !in palette && out == ConsoleReplay([], Adds(img, palette))
    requires img.width > 0
    ensures Count('\n', out) == img.height
    ensures |out| == img.height * (img.width + 1)
  {
    CharRowsShape(img, palette);
    CharRowsAvoidNewline(img, palette);
    var lines := CharRows(img.rows, palette);
    assert out == ConsoleReplay([], GridAdds(lines));
    ConsoleLinesLayout(lines, img.width, out);
  }

  /**
   * In the console output `out` of a W×H image (W ≥ 1) row y starts at
   * Offset(y, W + 1), that is y·(W + 1) by `OffsetIsProduct`, with the
   * character of pixel (y, 0); the block of row y ends before the output does.
   */
  lemma ConsoleRowStart(img: Image, palette: seq<char>, out: seq<char>, y: nat)
    requires img.WellFormed() && |palette| > 0 && out == ConsoleReplay([], Adds(img, palette))
    requires y < img.height && img.width > 0
    ensures Offset(y, img.width + 1) + img.width < |out|
    ensures out[Offset(y, img.width + 1)] == Convert(palette, img.rows[y][0])
  {
    CharRowsShape(img, palette);
    CharRowsAt(img, palette, y, 0);
    var lines := CharRows(img.rows, palette);
    assert out == ConsoleReplay([], GridAdds(lines));
    ConsoleLinesRowStart(lines, img.width, out, y, Convert(palette, img.rows[y][0]));
  }

  /**
   * In the console output `out` of a W×H image (W ≥ 1) the newline of row y
   * comes right after its first character, in row 0 too.
   */
  lemma ConsoleNewlineAt(img: Image, palette: seq<char>, out: seq<char>, y: nat)
    requires img.WellFormed() && |palette| > 0 && out == ConsoleReplay([], Adds(img, palette))
    requires y < img.height && img.width > 0
    ensures Offset(y, img.width + 1) + 1 < |out|
    ensures out[Offset(y, img.width + 1) + 1] == '\n'
  {
    CharRowsShape(img, palette);
    var lines := CharRows(img.rows, palette);
    assert out == ConsoleReplay([], GridAdds(lines));
    ConsoleLinesNewlineAt(lines, img.width, out, y);
  }

  /**
   * In the console output `out` of a W×H image the character of pixel (y, x)
   * for x ≥ 1 sits at Offset(y, W + 1) + x + 1: one place to the right of
   * where the file output has it, behind the newline of the row.
   */
  lemma ConsoleCharAt(img: Image, palette: seq<char>, out: seq<char>, y: nat, x: nat)
    requires img.WellFormed() && |palette| > 0 && out == ConsoleReplay([], Adds(img, palette))
    requires y < img.height && 0 < x < img.width
    ensures Offset(y, img.width + 1) + (x + 1) < |out|
    ensures out[Offset(y, img.width + 1) + (x + 1)] == Convert(palette, img.rows[y][x])
  {
    CharRowsShape(img, palette);
    CharRowsAt(img, palette, y, x);
    var lines := CharRows(img.rows, palette);
    assert out == ConsoleReplay([], GridAdds(lines));
    ConsoleLinesCharAt(lines, img.width, out, y, x, Convert(palette, img.rows[y][x]));
  }

  /** A 2×2 checkerboard: white and black in the top row, black and white below, all opaque. */
  function Checkerboard(): (img: Image)
    ensures img.WellFormed() && img.width == 2 && img.height == 2
  {
    var white: Pixel, black: Pixel := [255, 255, 255, 255], [0, 0, 0, 255];
    Image(2, 2, [[white, black], [black, white]])
  }

  /** With the palette "#.", white (intensity 255, odd) becomes '.' and black '#'. */
  lemma CheckerboardLines()
    ensures CharRows(Checkerboard().rows, "#.") == [".#", "#."]
  {
    var img, palette := Checkerboard(), "#.";
    IntensityOfGray(255, 255);
    IntensityOfGray(0, 255);
    assert SafeExtract(palette, 255) == palette[1] == '.';
    assert Convert(palette, img.rows[0][0]) == '.' && Convert(palette, img.rows[0][1]) == '#';
    assert img.rows[1][0] == img.rows[0][1] && img.rows[1][1] == img.rows[0][0];
    var lines := CharRows(img.rows, palette);
    CharRowsShape(img, palette);
    CharRowsAt(img, palette, 0, 0);
    CharRowsAt(img, palette, 0, 1);
    CharRowsAt(img, palette, 1, 0);
    CharRowsAt(img, palette, 1, 1);
    assert |lines| == 2 && |lines[0]| == 2 && |lines[1]| == 2;
    assert lines[0] == ".#" && lines[1] == "#.";
  }

  /**
   * A worked run of both streams on the checkerboard with the palette "#.".
   * The file gets the two rows joined by a newline; the console puts its
   * newlines after the first character of each row.
   */
  lemma CheckerboardExample()
    ensures FileReplay([], Adds(Checkerboard(), "#.")) == ".#\n#."
    ensures ConsoleReplay([], Adds(Checkerboard(), "#.")) == ".\n##\n."
  {
    CheckerboardLines();
    var lines: seq<seq<char>> := [".#", "#."];
    assert Adds(Checkerboard(), "#.") == GridAdds(lines);
    FileGrid(lines, 2);
    ConsoleGrid(lines);
    assert lines[..1] == [".#"];
    assert FileText(lines[..1]) == ".#";
    assert ConsoleText(lines[..1][..0]) == [];
    assert ConsoleText(lines[..1]) == ".\n#";
  }
}

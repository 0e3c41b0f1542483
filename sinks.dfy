/**
 * The two output streams of src/image_converter.rs and the pixel loop that
 * drives them (`process_image`), as objects whose methods update their state
 * in place. Each method is proved against the pure step and replay functions
 * of `Rendering`, so the layout lemmas proved there apply to what the streams
 * hold after a run.
 */
module Sinks {

  import opened Wrappers
  import opened Converter
  import opened Pipeline
  import opened Rendering

  /** An I/O error as `std::io::Error` reports it: its message. */
  datatype IoError = IoError(message: string)

  /** An open file: where it was created and what has been written to it. */
  datatype FileState = FileState(path: string, contents: seq<char>)

  /** What the operating system answers to `File::create`. */
  datatype CreateOutcome = Created | CreateFailed(error: IoError)

  /** Why a run panicked. */
  datatype Panic =
    | RemainderByZero  // `safe_extract` takes `idx % data.len()` of an empty palette
    | MissingFile      // `on_end` of a file stream that has no file

  /** How a run of `process_image` ends. */
  datatype Outcome = Completed | Panicked(reason: Panic)

  /** The console after the `add` of pixel (y, x) is the replay of the calls up to and including it. */
  lemma ConsolePixelStep(start: seq<char>, lines: seq<seq<char>>, y: nat, x: nat)
    requires y < |lines| && x < |lines[y]|
    ensures ConsoleStep(ConsoleReplay(start, AddsBefore(lines, y, x)), x, lines[y][x])
      == ConsoleReplay(start, AddsBefore(lines, y, x + 1))
  {
    ConsoleReplayAdd(start, AddsBefore(lines, y, x), y, x, lines[y][x]);
    AddsBeforeNext(lines, y, x);
  }

  /** The file buffer after the `add` of pixel (y, x) is the replay of the calls up to and including it. */
  lemma FilePixelStep(start: seq<char>, lines: seq<seq<char>>, y: nat, x: nat)
    requires y < |lines| && x < |lines[y]|
    ensures FileStep(FileReplay(start, AddsBefore(lines, y, x)), x, lines[y][x])
      == FileReplay(start, AddsBefore(lines, y, x + 1))
  {
    FileReplayAdd(start, AddsBefore(lines, y, x), y, x, lines[y][x]);
    AddsBeforeNext(lines, y, x);
  }

  /**
   * `ConsoleStream`: it holds no data of its own and prints every character
   * to standard output; `printed` is what it has printed there.
   */
  class ConsoleStream {
    var printed: seq<char>
    /** The calls this stream has received, oldest first. */
    ghost var calls: seq<Call>

    /** `ConsoleStream::new`: the requested size is ignored. */
    constructor (width: nat, height: nat)
      ensures printed == [] && calls == []
    {
      printed := [];
      calls := [];
    }

    /** The default `on_start` hook, which does nothing. */
    method OnStart()
      modifies this
      ensures printed == old(printed) && calls == old(calls) + [Call.OnStart]
    {
      calls := calls + [Call.OnStart];
    }

    /**
     * `ConsoleStream::add`: prints the character, then a newline when the
     * column is 0. The row is not looked at.
     */
    method Add(h: nat, w: nat, pixel: char)
      modifies this
      ensures printed == ConsoleStep(old(printed), w, pixel) && calls == old(calls) + [Call.Add(h, w, pixel)]
    {
      calls := calls + [Call.Add(h, w, pixel)];
      printed := printed + [pixel];
      if w == 0 {
        printed := printed + ['\n'];
      }
    }

    /** The default `on_end` hook, which does nothing. */
    method OnEnd()
      modifies this
      ensures printed == old(printed) && calls == old(calls) + [Call.OnEnd]
    {
      calls := calls + [Call.OnEnd];
    }

    /**
     * `process_image` on a console: `on_start`, an `add` per pixel in
     * row-major order, `on_end`. What gets printed is the replay of
     * `Adds(img, palette)`, and the calls received are `Trace(img, palette)`.
     * With an empty palette the first pixel's conversion panics before
     * anything is printed, after `on_start` only; an image without pixels
     * converts nothing and so completes even then.
     */
    method ProcessImage(img: Image, palette: seq<char>) returns (outcome: Outcome)
      requires img.WellFormed()
      modifies this
      ensures |palette| > 0 ==> outcome == Completed && printed == ConsoleReplay(old(printed), Adds(img, palette))
      ensures |palette| == 0 ==> printed == old(printed)
      ensures |palette| == 0 ==>
        outcome == (if img.height == 0 || img.width == 0 then Completed else Panicked(RemainderByZero))
      ensures |palette| > 0 ==> calls == old(calls) + Trace(img, palette)
      ensures |palette| == 0 && img.height > 0 && img.width > 0 ==> calls == old(calls) + [Call.OnStart]
      ensures img.height == 0 || img.width == 0 ==> calls == old(calls) + [Call.OnStart, Call.OnEnd]
    {
      ghost var start, before := printed, calls;
      ghost var lines: seq<seq<char>> := [];
      if |palette| > 0 {
        lines := CharRows(img.rows, palette);
        CharRowsShape(img, palette);
      }
      OnStart();
      var y := 0;
      while y < img.height
        invariant y <= img.height
        invariant |palette| > 0 ==> |lines| == img.height && LinesOfWidth(lines, img.width)
        invariant |palette| > 0 ==> calls == before + [Call.OnStart] + GridAdds(lines[..y])
        invariant |palette| == 0 ==> calls == before + [Call.OnStart]
        invariant |palette| > 0 ==> printed == ConsoleReplay(start, GridAdds(lines[..y]))
        invariant |palette| == 0 ==> printed == start && (y == 0 || img.width == 0)
      {
        if |palette| > 0 {
          AddsBeforeRowStart(lines, y);
        }
        var x := 0;
        while x < img.width
          invariant x <= img.width
          invariant |palette| > 0 ==> printed == ConsoleReplay(start, AddsBefore(lines, y, x))
          invariant |palette| == 0 ==> printed == start && x == 0
          invariant |palette| > 0 ==> calls == before + [Call.OnStart] + AddsBefore(lines, y, x)
          invariant |palette| == 0 ==> calls == before + [Call.OnStart]
        {
          if |palette| == 0 {
            return Panicked(RemainderByZero);
          }
          var ch := Convert(palette, img.rows[y][x]);
          CharRowsAt(img, palette, y, x);
          ConsolePixelStep(start, lines, y, x);
          LogNext(before + [Call.OnStart], lines, y, x);
          Add(y, x, ch);
          x := x + 1;
        }
        if |palette| > 0 {
          AddsBeforeRowEnd(lines, y);
        }
        y := y + 1;
      }
      OnEnd();
      if |palette| > 0 {
        assert lines[..img.height] == lines;
        assert printed == ConsoleReplay(start, Adds(img, palette));
        TraceAppend(before, img, palette);
        if img.height == 0 || img.width == 0 {
          ZeroAreaTrace(img, palette);
        }
      } else {
        assert calls == before + [Call.OnStart, Call.OnEnd];
      }
      return Completed;
    }
  }

  /**
   * `ImageFileStream`: the text is built up in `line` and written to `file`
   * at the end.
   */
  class ImageFileStream {
    var file: Option<FileState>
    var line: seq<char>
    /** The calls of the stream trait this stream has received, oldest first. */
    ghost var calls: seq<Call>

    /**
     * `ImageFileStream::new`: no file yet and an empty buffer. The size only
     * reserves capacity for the buffer.
     */
    constructor (width: nat, height: nat)
      ensures file == None && line == [] && calls == []
    {
      file := None;
      line := [];
      calls := [];
    }

    /**
     * `create_file`: on success the new, empty file is kept and no error is
     * returned; on failure the error is returned and the stream is left as it
     * was.
     */
    method CreateFile(path: string, os: CreateOutcome) returns (err: Option<IoError>)
      modifies this
      ensures os.Created? ==> err == None && file == Some(FileState(path, [])) && line == old(line)
      ensures os.CreateFailed? ==> err == Some(os.error) && file == old(file) && line == old(line)
      ensures calls == old(calls)
    {
      match os
      case Created =>
        file := Some(FileState(path, []));
        return None;
      case CreateFailed(e) =>
        return Some(e);
    }

    /** The default `on_start` hook, which does nothing. */
    method OnStart()
      modifies this
      ensures file == old(file) && line == old(line) && calls == old(calls) + [Call.OnStart]
    {
      calls := calls + [Call.OnStart];
    }

    /**
     * `ImageFileStream::add`: a newline first when the column is 0 and the
     * buffer is not empty, then the character.
     */
    method Add(h: nat, w: nat, pixel: char)
      modifies this
      ensures line == FileStep(old(line), w, pixel) && file == old(file)
      ensures calls == old(calls) + [Call.Add(h, w, pixel)]
    {
      calls := calls + [Call.Add(h, w, pixel)];
      if w == 0 && |line| > 0 {
        line := line + ['\n'];
      }
      line := line + [pixel];
    }

    /**
     * `ImageFileStream::on_end`: the whole buffer is written to the file; the
     * result of the write is discarded. Without a file it panics.
     */
    method OnEnd() returns (outcome: Outcome)
      modifies this
      ensures old(file).Some? ==>
        outcome == Completed && file == Some(old(file).value.(contents := old(file).value.contents + line))
      ensures old(file).None? ==> outcome == Panicked(MissingFile) && file == None
      ensures line == old(line) && calls == old(calls) + [Call.OnEnd]
    {
      calls := calls + [Call.OnEnd];
      match file
      case Some(f) =>
        file := Some(f.(contents := f.contents + line));
        return Completed;
      case None =>
        return Panicked(MissingFile);
    }

    /**
     * `process_image` on a file stream: the buffer ends as the replay of
     * `Adds(img, palette)` and, if a file was created, the buffer is appended
     * to it; otherwise `on_end` panics. The calls received are
     * `Trace(img, palette)`. With an empty palette the first pixel's
     * conversion panics first, after `on_start` only.
     */
    method ProcessImage(img: Image, palette: seq<char>) returns (outcome: Outcome)
      requires img.WellFormed()
      modifies this
      ensures |palette| > 0 ==> line == FileReplay(old(line), Adds(img, palette))
      ensures |palette| == 0 ==> line == old(line)
      ensures |palette| == 0 && img.height > 0 && img.width > 0 ==>
        outcome == Panicked(RemainderByZero) && file == old(file)
      ensures |palette| > 0 || img.height == 0 || img.width == 0 ==>
        if old(file).Some? then
          outcome == Completed && file == Some(old(file).value.(contents := old(file).value.contents + line))
        else
          outcome == Panicked(MissingFile) && file == None
      ensures |palette| > 0 ==> calls == old(calls) + Trace(img, palette)
      ensures |palette| == 0 && img.height > 0 && img.width > 0 ==> calls == old(calls) + [Call.OnStart]
      ensures img.height == 0 || img.width == 0 ==> calls == old(calls) + [Call.OnStart, Call.OnEnd]
    {
      ghost var start, before := line, calls;
      ghost var lines: seq<seq<char>> := [];
      if |palette| > 0 {
        lines := CharRows(img.rows, palette);
        CharRowsShape(img, palette);
      }
      OnStart();
      var y := 0;
      while y < img.height
        invariant y <= img.height && file == old(file)
        invariant |palette| > 0 ==> |lines| == img.height && LinesOfWidth(lines, img.width)
        invariant |palette| > 0 ==> calls == before + [Call.OnStart] + GridAdds(lines[..y])
        invariant |palette| == 0 ==> calls == before + [Call.OnStart]
        invariant |palette| > 0 ==> line == FileReplay(start, GridAdds(lines[..y]))
        invariant |palette| == 0 ==> line == start && (y == 0 || img.width == 0)
      {
        if |palette| > 0 {
          AddsBeforeRowStart(lines, y);
        }
        var x := 0;
        while x < img.width
          invariant x <= img.width && file == old(file)
          invariant |palette| > 0 ==> line == FileReplay(start, AddsBefore(lines, y, x))
          invariant |palette| == 0 ==> line == start && x == 0
          invariant |palette| > 0 ==> calls == before + [Call.OnStart] + AddsBefore(lines, y, x)
          invariant |palette| == 0 ==> calls == before + [Call.OnStart]
        {
          if |palette| == 0 {
            return Panicked(RemainderByZero);
          }
          var ch := Convert(palette, img.rows[y][x]);
          CharRowsAt(img, palette, y, x);
          FilePixelStep(start, lines, y, x);
          LogNext(before + [Call.OnStart], lines, y, x);
          Add(y, x, ch);
          x := x + 1;
        }
        if |palette| > 0 {
          AddsBeforeRowEnd(lines, y);
        }
        y := y + 1;
      }
      if |palette| > 0 {
        assert lines[..img.height] == lines;
        assert line == FileReplay(start, Adds(img, palette));
      } else {
        assert line == start;
      }
      outcome := OnEnd();
      if |palette| > 0 {
        TraceAppend(before, img, palette);
        if img.height == 0 || img.width == 0 {
          ZeroAreaTrace(img, palette);
        }
      } else {
        assert calls == before + [Call.OnStart, Call.OnEnd];
      }
    }
  }
}

/**
 * The part of `main` (src/main.rs) that prepares the converter's inputs and
 * picks the output stream: the palette, the requested size, and the early
 * exits. Argument parsing, image decoding and resizing are given as inputs.
 */
module App {

  import opened Wrappers
  import opened Pipeline
  import opened Rendering
  import opened Sinks

  /** An unsigned 32-bit integer (`u32`). */
  type U32 = x: int | 0 <= x < 0x1_0000_0000

  /** A well-formed pixel grid, as the image library yields it. */
  type Grid = img: Image | img.WellFormed() witness Image(0, 0, [])

  /**
   * A `--width` or `--height` option after `parse::<u32>`: not given (or
   * given without a value), a number, or text that is not a `u32`.
   */
  datatype DimArg = Absent | Parsed(value: U32) | Malformed

  /**
   * A decoded image: its native size and the grid that resizing it to a
   * requested size and converting it to grayscale yields.
   */
  datatype Decoded = Decoded(width: U32, height: U32, resize: (U32, U32) -> Grid)

  /** How `main` ends. */
  datatype Exit = InvalidWidth | InvalidHeight | OpenFailed | NotCreated | Processed(outcome: Outcome)

  /** The palette used when no characters are given, in this order. */
  function DefaultPalette(): (p: seq<char>)
    ensures |p| == 29
    ensures '\n' !in p
  {
    ['#', '@', '!', '&', '?', '=', '+', '-', '.', ' ', '*', '%', ',', '/', ':', '~',
     '0', '1', '2', '3', '4', '5', '6', '7', '8', '9', '{', '}', '|']
  }

  /** The first character of every non-empty token, in token order. */
  function FirstChars(tokens: seq<string>): (p: seq<char>)
    ensures |p| <= |tokens|
  {
    if |tokens| == 0 then []
    else
      var last := tokens[|tokens| - 1];
      FirstChars(tokens[..|tokens| - 1]) + (if |last| > 0 then [last[0]] else [])
  }

  /**
   * Taking first characters distributes over concatenation: the tokens are
   * handled one by one and their order is kept.
   */
  lemma {:induction false} FirstCharsConcat(a: seq<string>, b: seq<string>)
    ensures FirstChars(a + b) == FirstChars(a) + FirstChars(b)
  {
    if |b| == 0 {
      assert a + b == a;
    } else {
      assert (a + b)[..|a + b| - 1] == a + b[..|b| - 1];
      FirstCharsConcat(a, b[..|b| - 1]);
    }
  }

  /** A single token gives its first character, or nothing when it is empty. */
  lemma FirstCharsSingle(t: string)
    ensures FirstChars([t]) == if |t| > 0 then [t[0]] else []
  {
    assert [t][..0] == [];
  }

  /** Every character taken is the first character of a non-empty token. */
  lemma {:induction false} FirstCharsFromTokens(tokens: seq<string>, k: nat)
    requires k < |FirstChars(tokens)|
    ensures exists i :: 0 <= i < |tokens| && |tokens[i]| > 0 && tokens[i][0] == FirstChars(tokens)[k]
  {
    var n := |tokens|;
    var front := tokens[..n - 1];
    if k < |FirstChars(front)| {
      FirstCharsFromTokens(front, k);
      var i :| 0 <= i < |front| && |front[i]| > 0 && front[i][0] == FirstChars(front)[k];
      assert tokens[i] == front[i];
    } else {
      assert tokens[n - 1][0] == FirstChars(tokens)[k];
    }
  }

  /** No character is taken exactly when every token is empty; and with no empty token, one per token. */
  lemma {:induction false} FirstCharsCount(tokens: seq<string>)
    ensures |FirstChars(tokens)| == 0 <==> forall i :: 0 <= i < |tokens| ==> |tokens[i]| == 0
    ensures (forall i :: 0 <= i < |tokens| ==> |tokens[i]| > 0) ==> |FirstChars(tokens)| == |tokens|
  {
    if |tokens| > 0 {
      var front := tokens[..|tokens| - 1];
      FirstCharsCount(front);
      assert forall i :: 0 <= i < |front| ==> front[i] == tokens[i];
    }
  }

  /**
   * The palette: the default when no characters are given, otherwise the
   * first characters of the non-empty tokens. It is empty exactly when
   * characters are given and every token is empty; nothing in `main` rejects
   * that case.
   */
  function BuildPalette(characters: Option<seq<string>>): (p: seq<char>)
    ensures characters.None? ==> p == DefaultPalette() && |p| == 29 && '\n' !in p
    ensures characters.Some? ==> p == FirstChars(characters.value)
    ensures characters.Some? ==> |p| <= |characters.value|
    ensures |p| == 0 <==>
      characters.Some? && forall i :: 0 <= i < |characters.value| ==> |characters.value[i]| == 0
  {
    match characters
    case None => DefaultPalette()
    case Some(tokens) =>
      FirstCharsCount(tokens);
      FirstChars(tokens)
  }

  /**
   * The size asked for: 0 when the option is absent, the number when it
   * parses, nothing when it does not.
   */
  function Requested(arg: DimArg): (r: Option<U32>)
    ensures r.None? <==> arg.Malformed?
    ensures arg.Absent? ==> r == Some(0)
    ensures arg.Parsed? ==> r == Some(arg.value)
  {
    match arg
    case Absent => Some(0)
    case Parsed(n) => Some(n)
    case Malformed => None
  }

  /**
   * The size the image is resized to: a request of 0 means the native size,
   * any other request is kept. The result is 0 only when both are.
   */
  function ResolveDim(requested: U32, native: U32): (d: U32)
    ensures d == 0 <==> requested == 0 && native == 0
    ensures d == requested || (requested == 0 && d == native)
  {
    if requested == 0 then native else requested
  }

  /** The grid that is converted: the decoded image resized to the resolved size. */
  function Target(d: Decoded, width: U32, height: U32): Grid
  {
    d.resize(ResolveDim(width, d.width), ResolveDim(height, d.height))
  }

  /** Whether a grid has no pixel. */
  predicate Empty(img: Image)
  {
    img.height == 0 || img.width == 0
  }

  /**
   * `main` after argument parsing: it returns what was printed to standard
   * output, the file written (if any) and how it ended. A bad width or
   * height prints a message and stops before the image is opened; an image
   * that cannot be opened, or a file that cannot be created, prints the
   * error and stops; otherwise the chosen stream converts the image. The
   * file stream always has its file when it runs, so `on_end` never panics;
   * only an empty palette can make the run panic, at the first pixel.
   */
  method Run(width: DimArg, height: DimArg, characters: Option<seq<string>>, savePath: Option<string>,
             image: Result<Decoded, string>, os: CreateOutcome)
    returns (stdout: string, file: Option<FileState>, exit: Exit)
    ensures width.Malformed? ==>
      exit == InvalidWidth && stdout == "Invalid width param value\n" && file == None
    ensures !width.Malformed? && height.Malformed? ==>
      exit == InvalidHeight && stdout == "Invalid height param value\n" && file == None
    ensures !width.Malformed? && !height.Malformed? && image.Err? ==>
      exit == OpenFailed && stdout == "Error: " + image.error + "\n" && file == None
    ensures !width.Malformed? && !height.Malformed? && image.Ok? && savePath.Some? && os.CreateFailed? ==>
      exit == NotCreated && stdout == "Error: " + os.error.message + "\n" && file == None
    ensures !width.Malformed? && !height.Malformed? && image.Ok? && savePath.Some? && os.Created? ==>
      var img, palette := Target(image.value, Requested(width).value, Requested(height).value), BuildPalette(characters);
      stdout == [] &&
      (|palette| > 0 ==>
         exit == Processed(Completed) && file == Some(FileState(savePath.value, FileReplay([], Adds(img, palette))))) &&
      (|palette| == 0 ==>
         file == Some(FileState(savePath.value, [])) &&
         exit == Processed(if Empty(img) then Completed else Panicked(RemainderByZero)))
    ensures !width.Malformed? && !height.Malformed? && image.Ok? && savePath.None? ==>
      var img, palette := Target(image.value, Requested(width).value, Requested(height).value), BuildPalette(characters);
      file == None &&
      (|palette| > 0 ==>
         exit == Processed(Completed) && stdout == ConsoleReplay([], Adds(img, palette))) &&
      (|palette| == 0 ==>
         stdout == [] && exit == Processed(if Empty(img) then Completed else Panicked(RemainderByZero)))
    ensures exit != Processed(Panicked(MissingFile))
  {
    var w := Requested(width);
    if w.None? {
      return "Invalid width param value\n", None, InvalidWidth;
    }
    var h := Requested(height);
    if h.None? {
      return "Invalid height param value\n", None, InvalidHeight;
    }
    var palette := BuildPalette(characters);
    match image
    case Err(message) =>
      return "Error: " + message + "\n", None, OpenFailed;
    case Ok(decoded) =>
      var targetWidth := ResolveDim(w.value, decoded.width);
      var targetHeight := ResolveDim(h.value, decoded.height);
      var img := decoded.resize(targetWidth, targetHeight);
      match savePath
      case Some(path) =>
        var stream := new ImageFileStream(targetWidth, targetHeight);
        var err := stream.CreateFile(path, os);
        if err.Some? {
          return "Error: " + err.value.message + "\n", None, NotCreated;
        }
        var outcome := stream.ProcessImage(img, palette);
        assert [] + stream.line == stream.line;
        return [], stream.file, Processed(outcome);
      case None =>
        var stream := new ConsoleStream(targetWidth, targetHeight);
        var outcome := stream.ProcessImage(img, palette);
        return stream.printed, None, Processed(outcome);
  }
}

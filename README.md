# image_to_ascii — a Dafny model of the converter core

image_to_ascii turns a picture into text. Every pixel of the decoded, resized,
grayscale image gets a character: the mean of its red, green and blue
channels, truncated, indexes a palette, wrapping around the palette length.
The characters go to one of two output streams, in row-major order:

- the **console stream** prints each character at once, plus a newline after
  the character in column 0;
- the **file stream** builds the text in a buffer, with a newline before each
  row but the first, and writes the buffer to a file created beforehand.

`main` reads the width and height options, builds the palette from the
`--CH` characters (or the 29-character default), opens the image, resolves a
requested size of 0 to the image's own size, and picks the stream.

The model is split into modules:

- `Converter` (converter.dfy) models `AsciiPixelConverter::convert` and
  `safe_extract`. A pixel is four `u8` channels.
- `Pipeline` (pipeline.dfy) defines the sequence of `add(h, w, ch)` calls
  that `process_image` makes for an image. The image is given as a
  well-formed grid of pixels.
- `Rendering` (rendering.dfy) defines each stream's `add` as a step
  function and a run as a fold of those steps (a *replay*). It proves what
  both streams hold after a whole image: length, newline count, and where
  each pixel's character and each newline sit.
- `Sinks` (sinks.dfy) has `ConsoleStream` and `ImageFileStream` as classes
  whose methods update their fields. Each has its own `ProcessImage` pixel
  loop, proved against the replays of `Rendering`. A ghost field `calls`
  logs the trait calls each stream receives, so the order `on_start`, the
  `add` calls, `on_end` is stated of the loop itself.
- `App` (app.dfy) models `main` after argument parsing: the palette, the
  size defaulting, the early exits and the choice of stream.
- `Arithmetic`, `Blocks` and `Wrappers` hold helpers: repeated addition as
  a position, flattening of equal-width blocks, and `Option`/`Result`.

Positions in the outputs are written `Offset(y, W + 1) + x`, where
`Offset(y, n)` is y blocks of n characters added up. `OffsetIsProduct` proves
this equals y·(W + 1) + x.

Two behaviours of the code are easy to miss:

- **An empty palette is not rejected.** Nothing in `main` checks it. The
  first pixel converted faults in `idx % data.len()`; the model returns this
  as the outcome `Panicked(RemainderByZero)`. An image without pixels never
  reaches the conversion, so it completes. With a save path, the file has
  already been created, and it stays empty.
- **The console newline follows the first character of each row**, row 0
  included, not the last. Take a W×H image with W ≥ 1 and a palette
  without a newline (a `--CH` token may start with one). The console then
  shows H newlines, and pixel (y, x) with x ≥ 1 sits one place to the right
  of its file position. When H ≥ 1 as well, the file text has H − 1
  newlines and no trailing one.

## Model

| member | source | states |
|---|---|---|
| Converter.Intensity | src/image_converter.rs:113 | the intensity is at most 255 and is the channel sum of R, G, B divided by 3 with truncation (3i ≤ sum < 3i + 3) |
| Converter.IntensityIgnoresAlpha | src/image_converter.rs:113 | changing the alpha channel never changes the intensity (only `x[0..3]` is summed) |
| Converter.IntensityOfGray | src/image_converter.rs:29-30 | a gray pixel (R = G = B = v), as the grayscale image yields, has intensity v |
| Converter.SafeExtract | src/image_converter.rs:118-120 | on a non-empty palette the result is a palette entry, and an in-range index is returned unchanged |
| Converter.SafeExtractPeriodic | src/image_converter.rs:119 | indices differing by the palette length select the same entry (wrap-around, not saturation) |
| Converter.Convert | src/image_converter.rs:112-115 | the character is in the palette; a one-character palette maps every pixel to it; an intensity below the palette length selects that position directly |
| Converter.ConvertIgnoresAlpha | src/image_converter.rs:112-115 | the character of a pixel does not depend on its alpha channel |
| Converter.ConvertWraps | src/image_converter.rs:113-119 | pixels whose intensities differ by the palette length get the same character |
| Pipeline.CharRowsAt | src/image_converter.rs:29-30 | the character given to pixel (y, x) is `Convert` of that pixel |
| Pipeline.AddsLength | src/image_converter.rs:27-36 | `process_image` on a W×H image makes exactly H·W `add` calls, and none for a zero-area image |
| Pipeline.AddsInRowMajorOrder | src/image_converter.rs:29-32 | call number y·W + x is `add(y, x, c)` with c the converted pixel (y, x): row-major order, row first, column second |
| Pipeline.ZeroAreaTrace | src/image_converter.rs:27-36 | a zero-width or zero-height image gets only `on_start` and `on_end` |
| Pipeline.TraceHooks | src/image_converter.rs:27-36 | the calls of a run: `on_start` exactly once and first, `on_end` exactly once and last, only `add` calls between them |
| Rendering.FileStepShape | src/image_converter.rs:80-86 | file `add` keeps the buffer as a prefix and ends it with the character; a newline comes before it exactly when the column is 0 and the buffer is non-empty |
| Rendering.ConsoleStepShape | src/image_converter.rs:46-51 | console `add` keeps what was printed and prints the character next; a newline follows it exactly when the column is 0, whatever was printed before |
| Rendering.FileReplayConcat | src/image_converter.rs:27-36 | replaying two batches of calls on the file buffer is replaying one after the other |
| Rendering.ConsoleReplayConcat | src/image_converter.rs:27-36 | replaying two batches of calls on the console is replaying one after the other |
| Rendering.TraceReplay | src/image_converter.rs:17-19 | the default hooks leave both outputs alone: replaying the whole trace gives the same file buffer and console text as replaying the `add` calls |
| Rendering.FileGrid | src/image_converter.rs:80-86 | lines of equal width ≥ 1 leave the file buffer as the lines joined by newlines, with no trailing newline |
| Rendering.ConsoleGrid | src/image_converter.rs:46-51 | any lines leave the console showing each line as first character, newline, rest |
| Rendering.CharRowsAvoidNewline | src/image_converter.rs:112-119 | a palette without a newline gives an image's lines without a newline |
| Rendering.ZeroAreaOutputsNothing | src/image_converter.rs:27-36 | a zero-width or zero-height image leaves both outputs empty |
| Rendering.FileLayout | src/image_converter.rs:80-86 | the file text of a W×H image (W, H ≥ 1, newline-free palette) has H − 1 newlines, H·(W + 1) − 1 characters, and no newline at either end |
| Rendering.FileCharAt | src/image_converter.rs:80-86 | in the file text, pixel (y, x)'s character sits at y·(W + 1) + x |
| Rendering.FileNewlineAt | src/image_converter.rs:81-83 | in the file text, every row but the last is followed by a newline at y·(W + 1) + W |
| Rendering.ConsoleLayout | src/image_converter.rs:46-51 | the console text of a W×H image (W ≥ 1, newline-free palette) has H newlines and H·(W + 1) characters |
| Rendering.ConsoleRowStart | src/image_converter.rs:47 | console row y starts at y·(W + 1) with pixel (y, 0)'s character, and its block lies inside the output |
| Rendering.ConsoleNewlineAt | src/image_converter.rs:48-50 | the console newline of row y sits right after the row's first character, in row 0 too |
| Rendering.ConsoleCharAt | src/image_converter.rs:46-51 | on the console, pixel (y, x) with x ≥ 1 sits at y·(W + 1) + x + 1, one place right of its file position |
| Rendering.CheckerboardLines | src/image_converter.rs:112-119 | with palette "#.", the 2×2 white/black checkerboard converts to the lines ".#" and "#." |
| Rendering.CheckerboardExample | src/image_converter.rs:27-96 | on that checkerboard the file holds ".#\n#." and the console shows ".\n##\n." |
| Sinks.ConsoleStream.constructor | src/image_converter.rs:42-44 | a new console stream has printed nothing and received no call, whatever size is requested |
| Sinks.ConsoleStream.OnStart | src/image_converter.rs:17 | the default `on_start` prints nothing; the call is logged |
| Sinks.ConsoleStream.Add | src/image_converter.rs:46-51 | what is printed becomes `ConsoleStep` of what was printed before (the character, then a newline when the column is 0); the call is logged |
| Sinks.ConsoleStream.OnEnd | src/image_converter.rs:19 | the default `on_end` prints nothing; the call is logged |
| Sinks.ConsoleStream.ProcessImage | src/image_converter.rs:27-36 | with a palette, the stream receives exactly `Trace` (`on_start`, every `add` in row-major order, `on_end`), completes and prints the replay of the `add` calls; with an empty palette it prints nothing, and it panics after `on_start` unless the image has no pixel, when it gets just the two hooks |
| Sinks.ImageFileStream.constructor | src/image_converter.rs:73-78 | a new file stream has no file, an empty buffer and no call received |
| Sinks.ImageFileStream.CreateFile | src/image_converter.rs:60-69 | on success the new empty file is kept and no error is returned; on failure the error is returned and the stream is unchanged |
| Sinks.ImageFileStream.OnStart | src/image_converter.rs:17 | the default `on_start` changes neither file nor buffer; the call is logged |
| Sinks.ImageFileStream.Add | src/image_converter.rs:80-86 | the buffer becomes `FileStep` of the old buffer and the file is untouched; the call is logged |
| Sinks.ImageFileStream.OnEnd | src/image_converter.rs:88-96 | with a file, the whole buffer is appended to it; without one, it panics; the call is logged |
| Sinks.ImageFileStream.ProcessImage | src/image_converter.rs:27-36 | with a palette, the stream receives exactly `Trace`, the buffer ends as the replay of the `add` calls and is written to the file, or `on_end` panics without a file; an empty palette panics at the first pixel, after `on_start` only, leaving buffer and file unchanged; a zero-area image gets just the two hooks |
| App.DefaultPalette | src/main.rs:77 | the default palette has 29 characters, none a newline |
| App.FirstCharsConcat | src/main.rs:71-75 | taking first characters distributes over concatenating tokens, keeping token order |
| App.FirstCharsSingle | src/main.rs:73-74 | one token gives its first character, or nothing when it is empty |
| App.FirstCharsFromTokens | src/main.rs:73-74 | every palette character is the first character of some non-empty token |
| App.FirstCharsCount | src/main.rs:73-75 | no character is taken exactly when every token is empty; with no empty token, exactly one per token |
| App.BuildPalette | src/main.rs:69-78 | no characters gives exactly `DefaultPalette` (29 characters, no newline); otherwise exactly `FirstChars` of the tokens, so at most one character per token, and the palette is empty exactly when every given token is empty |
| App.Requested | src/main.rs:50-66 | an absent option means 0, a parsed number is kept, and only text that is not a `u32` is rejected |
| App.ResolveDim | src/main.rs:83-84 | a requested 0 becomes the native size and any other request is kept; the result is 0 only when both are |
| App.Run | src/main.rs:50-106 | a bad width or height prints its message and stops; an image that cannot be opened, or a file that cannot be created, prints "Error: " and the message; otherwise the file gets the file replay or the console shows the console replay; an empty palette panics only on a non-empty image; `on_end` never panics for lack of a file |

## Left out

- Argument parsing by `clap` (src/main.rs:15-47) is not modelled. `Run` takes each size option as already parsed: absent, a `u32`, or malformed.
- Decoding the image file, resizing it with the Gaussian filter and converting it to grayscale are library code and are not modelled. The decoded image's native size and its resize-and-grayscale result are inputs to `Run`.
- `process_image` takes the grid of pixels as input. Pixels are four `u8` channels, as the grayscale image hands them over.
- Real I/O is not modelled. Standard output is the `printed` field of `ConsoleStream`, and the string `Run` returns. A file is its path plus the characters written to it. The result of `File::create` is an input.
- Sinks.ImageFileStream.OnEnd: the result of `write_all` is discarded by the code, so a failed or partial write is not modelled; the text is always appended.
- Characters are Unicode scalar values. The file bytes (UTF-8) and `String::len` counting bytes are not modelled. The file stream tests only whether the buffer is empty, which is the same in both.
- Sinks.ImageFileStream.constructor: `String::with_capacity` only reserves memory, so the `width * height + height` capacity is not modelled.
- `process_image` is generic over the stream trait. The model writes the pixel loop once per stream class.
- App.DefaultPalette: it does not state that the 29 characters are distinct; its body lists them in the code's order.

# termshot in Dafny

termshot takes screenshots of command-line programs. It runs a command in a
pseudo-terminal and feeds the captured bytes to a terminal emulator (pyte). It then
paints the emulator's grid of character cells onto a canvas with a window title bar.
The canvas can be saved as a PNG.

This project models the logic of that pipeline and proves properties about it:

- `themes.dfy` (module `Themes`): the `Theme` record, `get_color`, `hex_to_rgb` and the
  registry of the four built-in themes.
  - `hex_to_rgb` strips every leading `#`, cuts three two-character slices and parses
    each slice with Python's `int(text, 16)`. For ASCII text that parse accepts
    surrounding whitespace and a sign, and anything else raises `ValueError`. A raised
    `ValueError` is `None` throughout the model.
- `emulator.dfy` (module `Emulator`): the `Cell` record, colour-name normalisation
  (`_convert_color`) and `get_buffer`.
  - The escape-sequence interpreter is abstract. The `TerminalEmulator` class keeps the
    chunks fed to it since its last reset, and the screen buffer is an input to
    `GetBuffer`.
- `renderer.dfy` (module `Renderer`): colour resolution (`_get_color_rgb`), the
  cell-size clamp, the window chrome, and `render`.
  - Rendering produces an image value: the canvas size, the background colour, and the
    ordered list of drawing calls (`Rect`, `Text` with a regular or bold font, `Line`,
    `Ellipse`).
- `runner.dfy` (module `Runner`): `PTYRunner.run` and `get_output`. This covers:
  - the child environment;
  - command normalisation;
  - the read loop, over a finite trace of loop iterations (`Tick`s). Elapsed time is an
    integer.
  - The operating-system calls (open the pseudo-terminal, set its size, disable echo,
    spawn, close descriptors, signal the process group) are recorded in a ghost action log.
- `screenshotter.dfy` (module `Screenshots`): the `Screenshotter` session. It covers
  construction, `run`, `to_image`, `save`, the raw and text output, and the `theme`
  property and its setter.
- `strings.dfy` and `wrappers.dfy`: the string helpers the source uses, and `Option` and
  `Result`.
  - String helpers: ASCII lower-casing, decimal digits, `str(n)`, join and split, UTF-8
    encoding.

Where the code and its documentation disagree, the model follows the code:

- A cell's background rectangle is drawn when the cell's background *descriptor* is not
  `"default"` or the cell is reversed (`termshot/renderer.py:249`). It does not depend on
  the resolved colour.
- When the child process cannot be started, the slave descriptor is never closed: the close
  at `termshot/runner.py:99` comes after `Popen`. The master descriptor is always closed.
  The action log records exactly that.

## Model

| member | source | states |
|---|---|---|
| Themes.GetColor | termshot/themes.py:24-28 | a palette entry for an index inside the palette; the foreground for any other index, negative ones included |
| Themes.LeadingHashes | termshot/themes.py:32 | the count of leading `#` characters: all of them are `#`, and the next character is not |
| Themes.StripHashes | termshot/themes.py:32 | `lstrip('#')`: what remains is the text after the leading hashes, and it does not start with `#` |
| Themes.TrimSpace | termshot/themes.py:33 | the surrounding whitespace `int()` ignores is removed: the result is the piece `t[i..j]` of the input with only such whitespace outside it, and it neither starts nor ends with whitespace, so that piece is unique; text already trimmed is returned unchanged |
| Themes.ParseHexField | termshot/themes.py:33 | `int(field, 16)` on a slice of at most two characters: two hex digits give their pair value; an empty slice fails; any success lies in -15..255 |
| Themes.ParseHexFieldPadded | termshot/themes.py:33 | a hex digit with a space before it or a tab after it reads as that digit: `int(" f", 16)` is 15 |
| Themes.HexToRgb | termshot/themes.py:30-33 | `#rrggbb` decodes to the three pair values; every decoded channel lies in -15..255 |
| Themes.Decode | termshot/themes.py:33 | the three two-character slices parsed as hex, failing when any slice fails; `HexToRgb` states its value on `#rrggbb` |
| Themes.HashIgnored | termshot/themes.py:32 | any number of leading `#` characters is ignored: `hex_to_rgb("#" + s) == hex_to_rgb(s)` for every `s` |
| Themes.GetTheme | termshot/themes.py:157-159 | a registered name (after lower-casing) gives its theme, whose `name` is that key; an unknown name gives the default theme; the result is always a registered theme |
| Themes.GetThemeIgnoresCase | termshot/themes.py:157-159 | two names that differ only in letter case give the same theme |
| Themes.RegistryNamesMatch | termshot/themes.py:149-154 | each registry key equals the `name` of the theme it maps to |
| Themes.BuiltinThemesWellFormed | termshot/themes.py:37-146 | every built-in theme has well-formed `#rrggbb` background, foreground and cursor colours and exactly 16 well-formed palette entries |
| Themes.DefaultThemeWellFormed | termshot/themes.py:37-62 | the default theme is well formed |
| Themes.DraculaThemeWellFormed | termshot/themes.py:65-90 | the Dracula theme is well formed |
| Themes.MonokaiThemeWellFormed | termshot/themes.py:93-118 | the Monokai theme is well formed |
| Themes.NordThemeWellFormed | termshot/themes.py:121-146 | the Nord theme is well formed |
| Themes.GetThemePaletteTotal | termshot/themes.py:24-28 | for any theme name and any index 0..15, `get_color` never falls back: it returns the palette entry, which is well-formed hex |
| Strings.Lower | termshot/themes.py:159 | lower-casing keeps the length and maps each character through ASCII lower-casing |
| Strings.LowerIdempotent | termshot/themes.py:159 | lower-casing twice is lower-casing once |
| Strings.LowerAppend | termshot/emulator.py:132 | lower-casing works piece by piece |
| Strings.ParseDecimal | termshot/emulator.py:137-138 | `int(s)` on an ASCII digit string (leading zeros allowed), its value digit by digit; `ParseNatToString` is its round trip with `str` |
| Strings.NatToString | termshot/runner.py:60-61 | `str(n)` is a non-empty digit string without a leading zero |
| Strings.ParseNatToString | termshot/runner.py:60-61 | parsing `str(n)` back as a decimal gives `n` |
| Strings.Join | termshot/screenshotter.py:169 | joining no parts gives `""`, joining one part gives that part; without separators in the parts, the result holds one separator fewer than there are parts |
| Strings.SplitJoin | termshot/screenshotter.py:169 | splitting a join at the separator gives back the parts, when no part contains the separator |
| Strings.EncodeUtf8 | termshot/screenshotter.py:114-115 | `str.encode("utf-8")`: empty text gives no bytes, one character gives its `EncodeChar` bytes, and there is at least one byte per character. `EncodeUtf8Append` extends this to every text, in order |
| Strings.EncodeChar | termshot/screenshotter.py:115 | the UTF-8 form of RFC 3629: ASCII encodes to itself. Code points 0x80..0x7FF take 2 bytes and 0x800..0xFFFF take 3; the rest take 4. The lead byte lies in C0..DF, E0..EF or F0..F7 by length, and continuation bytes lie in 80..BF. The code point is the lead byte's payload followed by six bits from each continuation byte |
| Strings.EncodeExamples | termshot/screenshotter.py:115 | `"é"` encodes to C3 A9 and `"€"` to E2 82 AC |
| Strings.DecodeUtf8 | termshot/emulator.py:51 | strict `bytes.decode("utf-8")`: the lead byte gives the sequence length. An overlong form, a surrogate, a value above U+10FFFF or a missing continuation byte fails; `DecodeRefusesIllFormed` shows three such inputs failing |
| Strings.DecodeEncode | termshot/emulator.py:51 | decoding the encoding of any text gives the text back, so the banner `run` encodes (`termshot/screenshotter.py:115`) is decoded by `feed` with nothing replaced |
| Strings.DecodeRefusesIllFormed | termshot/emulator.py:51 | a stray continuation byte, the overlong form C0 80 and the encoded surrogate ED A0 80 are refused |
| Strings.EncodeUtf8Append | termshot/screenshotter.py:114-115 | encoding a concatenation is concatenating the encodings |
| Strings.EncodeAscii | termshot/screenshotter.py:114-115 | an ASCII string encodes to its own code points, one byte each |
| Emulator.ColorNamesInPalette | termshot/emulator.py:112-130 | every named colour is a palette index in 0..15, and brown is yellow (3) |
| Emulator.Squeeze | termshot/emulator.py:132 | removing spaces and underscores leaves none, adds no character and never lengthens |
| Emulator.SqueezeAppend | termshot/emulator.py:132 | the removal works piece by piece: `Squeeze(a + b) == Squeeze(a) + Squeeze(b)` |
| Emulator.SqueezeDrops | termshot/emulator.py:132 | a space or underscore anywhere is dropped |
| Emulator.SqueezeKeepsOthers | termshot/emulator.py:132 | every other character is kept, in its place between what remains before and after it |
| Emulator.NormalizeColorName | termshot/emulator.py:132 | a normalised name has no spaces, no underscores and no upper-case ASCII letters |
| Emulator.NormalizeIdempotent | termshot/emulator.py:132 | normalising a normalised name changes nothing |
| Emulator.NormalizeIgnoresSeparators | termshot/emulator.py:132 | inserting a space or an underscore anywhere in a name leaves its normal form unchanged |
| Emulator.NormalizeIgnoresCase | termshot/emulator.py:132 | names equal after lower-casing have the same normal form |
| Emulator.ConvertColor | termshot/emulator.py:97-141 | `"default"` gives the supplied default; a name that normalises to a table key gives its index in 0..15; otherwise a digit string gives its decimal value; any other string is returned unchanged |
| Emulator.ConvertColorIgnoresSpelling | termshot/emulator.py:132-134 | two spellings of a colour name that normalise alike give the same palette index |
| Emulator.ColorNamesNormalized | termshot/emulator.py:112-134 | every table key is already normal, so each name converts to its own index |
| Emulator.ConvertColorIgnoresSeparator | termshot/emulator.py:108-134 | a colour name with a space or underscore inserted converts to the same palette index as without it |
| Emulator.BrightRedSpelling | termshot/emulator.py:132-134 | `"Bright_Red "` normalises to `brightred` and converts to index 9 |
| Emulator.ToCell | termshot/emulator.py:71-90 | empty data becomes a space and other data is kept; both colours are converted with `"default"`; bold, italics, underscore, strikethrough and reverse are copied one to one |
| Emulator.Snapshot | termshot/emulator.py:64-95 | the grid has exactly `rows` rows of exactly `cols` cells, and cell (y, x) is the conversion of screen position (y, x) |
| Emulator.TerminalEmulator.constructor | termshot/emulator.py:29-40 | a new emulator has the given size and has been fed nothing |
| Emulator.TerminalEmulator.Feed | termshot/emulator.py:42-55 | `feed` appends one chunk to what the interpreter has received |
| Emulator.TerminalEmulator.Reset | termshot/emulator.py:143-145 | `reset` clears the screen: the log of chunks that make up the screen starts empty again |
| Emulator.TerminalEmulator.GetRow | termshot/emulator.py:67-91 | the inner loop builds exactly line `y` of the grid `Snapshot` describes |
| Emulator.TerminalEmulator.GetBuffer | termshot/emulator.py:57-95 | the nested loops build exactly the grid `Snapshot` describes |
| Renderer.NewRenderer | termshot/renderer.py:22-51 | a missing theme means the default theme; configuration is stored as given; the measured cell width is raised to at least 8 and its height to at least 16, and otherwise kept |
| Renderer.GetColorRgb | termshot/renderer.py:107-155 | these use the theme's foreground (or background for the background role): `"default"`, an index outside 0..255 and a string without `#`. Indices 0..15 use `hex_to_rgb(get_color(i))`. Indices 16..231 give cube levels in {0, 95, 135, 175, 215, 255}. Indices 232..255 give three equal channels 8 + 10·(i − 232) in 8..238. A `#` string is decoded by `hex_to_rgb` |
| Renderer.LevelRoundTrip | termshot/renderer.py:135-137 | the cube level of each component 0..5 determines the component |
| Renderer.CubeRoundTrip | termshot/renderer.py:128-138 | the cube rule is injective: from the colour of index 16..231 the index is recovered as 16 + 36r + 6g + b |
| Renderer.GrayRampIncreasing | termshot/renderer.py:139-142 | the grayscale ramp is strictly increasing in the index |
| Renderer.ResolveTotal | termshot/renderer.py:119-155 | with a well-formed theme, every colour value resolves without error, except a malformed `#` string; indices 0..15 take the palette entry |
| Renderer.CellColors | termshot/renderer.py:241-246 | the resolved foreground and background, swapped when the cell is reversed; it fails exactly when either resolution fails |
| Renderer.ReverseSwaps | termshot/renderer.py:244-246 | reversing a cell exchanges its two resolved colours and nothing else |
| Renderer.CellCommands | termshot/renderer.py:240-276 | a cell's drawing fails exactly when one of its colours fails to resolve |
| Renderer.CellPainting | termshot/renderer.py:248-276 | a cell emits at most four calls, all within its box. A rectangle in the background colour comes first, exactly when the bg descriptor is not `"default"` or the cell is reversed. A glyph comes exactly when the character is non-empty and not a space, in the bold font iff bold and the foreground colour. The underline at y + ch − 2 comes iff underline is set and the strike line at y + ch // 2 iff strikethrough is set; both are one pixel wide in the foreground colour |
| Renderer.Painted | termshot/renderer.py:248-276 | the drawing calls of one cell in source order: background, glyph, underline, strikethrough; `PaintedRect`, `PaintedText`, `PaintedLines` and `PaintedWithin` state what each holds |
| Renderer.PaintedRect | termshot/renderer.py:248-253 | at most four calls; the background rectangle comes first, exactly when the bg descriptor is not `"default"` or the cell is reversed |
| Renderer.PaintedText | termshot/renderer.py:255-258 | a glyph is drawn exactly for visible characters, at the cell origin, in the foreground colour and the font the bold flag selects |
| Renderer.OnlyGlyphIsText | termshot/renderer.py:255-258 | no drawing call of a cell other than its glyph is text |
| Renderer.PaintedLines | termshot/renderer.py:260-276 | the underline and strike lines are drawn exactly when their flags are set, at their heights, one pixel wide in the foreground colour |
| Renderer.PaintedWithin | termshot/renderer.py:248-276 | every drawing call of a cell stays within the cell's box |
| Renderer.Lighten | termshot/renderer.py:175 | `min(255, c + 30)`: never above 255, never below a channel of at most 255, and exactly c + 30 up to 225 |
| Renderer.TitleBarColor | termshot/renderer.py:175 | `min(255, c + 30)` on each channel of the background; `TitleBarLighter` bounds it |
| Renderer.TitleBarLighter | termshot/renderer.py:174-176 | each title-bar channel lies between the background channel and 255 |
| Renderer.Buttons | termshot/renderer.py:179-191 | the three button ellipses, red, yellow and green, in loop order; `ChromeCommands` states their geometry |
| Renderer.ChromeCommands | termshot/renderer.py:168-191 | four calls: the full-width title bar 36 high in the lightened background, then the red, yellow and green buttons of radius 6 centred at (padding + 20·i, 18) |
| Renderer.DrawButtons | termshot/renderer.py:179-191 | the button loop issues the three ellipses in order |
| Renderer.DrawWindowChrome | termshot/renderer.py:157-193 | the chrome is drawn exactly when the background decodes; it returns the chrome height 36 |
| Renderer.EmitCell | termshot/renderer.py:248-276 | the four conditional drawing steps of a cell, in order |
| Renderer.PaintCell | termshot/renderer.py:240-276 | resolving the colours and drawing the cell gives the cell's drawing calls, or fails with its colours |
| Renderer.ConcatAll | termshot/renderer.py:233-276 | the drawing calls of all parts in order, or failure as soon as one part fails; `ConcatAllFails` and `ConcatAllSucceeds` state both |
| Renderer.CellParts | termshot/renderer.py:237-276 | the drawing calls of each cell of a row, at the cell's origin (padding + col·cw, padding + chrome + row·ch) |
| Renderer.RowParts | termshot/renderer.py:233-236 | the drawing calls of each row, top to bottom |
| Renderer.ConcatAllFails | termshot/renderer.py:233-276 | rendering the cells fails exactly when some cell fails: a `ValueError` in any cell aborts the whole render |
| Renderer.ConcatAllSucceeds | termshot/renderer.py:233-276 | when the cells succeed, each cell's calls appear as one contiguous block of the whole list |
| Renderer.PaintRow | termshot/renderer.py:237-276 | the inner loop draws a row's cells left to right, each at origin (padding + col·cw, padding + chrome + row·ch) |
| Renderer.PaintRows | termshot/renderer.py:233-276 | the outer loop draws the rows top to bottom |
| Renderer.Rendered | termshot/renderer.py:195-278 | an empty grid or an empty first row gives a 100 × 100 image in the background colour. Otherwise the image is (cols·cw + 2·padding) × (rows·ch + 2·padding + 36 if chrome else 0), filled with the background, with the chrome calls first and then every cell's calls. It fails exactly when the background or some cell colour does not decode |
| Renderer.Render | termshot/renderer.py:195-278 | the method computes the image `Rendered` describes |
| Renderer.CellInsideCanvas | termshot/renderer.py:213-238 | in a rectangular grid every cell box lies inside the canvas, within the padding and below the chrome |
| Runner.ForcedValues | termshot/runner.py:59-64 | TERM, COLUMNS, LINES, CLICOLOR_FORCE and FORCE_COLOR are forced; TERM is xterm-256color and the two colour switches are "1"; COLUMNS and LINES are decimal strings that parse to cols and rows |
| Runner.ChildEnvLayers | termshot/runner.py:58-66 | the child environment is the union of inherited, forced and caller keys. Caller keys win, forced keys beat inherited ones, and any other inherited key passes through unchanged |
| Runner.ChildEnv | termshot/runner.py:58-66 | the inherited environment overlaid by the forced variables and then by a non-empty caller environment; `ChildEnvLayers` states the layering |
| Runner.ForcedByUpdates | termshot/runner.py:58-64 | the five in-place assignments overlay the forced variables on the inherited ones |
| Runner.NothingExtra | termshot/runner.py:65-66 | a missing or empty caller environment adds nothing |
| Runner.ShellLine | termshot/runner.py:50-55 | a string command is kept; a one-element list is its element |
| Runner.ArgsRecoverable | termshot/runner.py:54 | a list of space-free arguments is recovered by splitting the joined line at spaces |
| Runner.PrepareCommand | termshot/runner.py:50-55 | both command forms become the shell line and run with the shell |
| Runner.StepAppends | termshot/runner.py:130-152 | an iteration appends the chunk read, or, after the child ended, the bytes of the final read, and nothing otherwise; a chunk read ends the loop only when it is empty and the child had exited |
| Runner.Step | termshot/runner.py:104-152 | one iteration. It stops with a timeout exactly when a timeout is set and has elapsed, and then reads nothing. Otherwise it stops only when select fails, a read fails, or the child had exited |
| Runner.Collect | termshot/runner.py:104-152 | without a timeout the loop never ends by timing out; an empty trace captures nothing |
| Runner.CollectAdvance | termshot/runner.py:104-152 | one more iteration adds its bytes to those collected so far and either ends the loop or hands on to the rest of the trace |
| Runner.CollectPrefix | termshot/runner.py:130-152 | output only grows: what a prefix of the trace collected is a prefix of what the whole trace collects. Once the loop has stopped, later iterations change nothing |
| Runner.TimeoutCutoff | termshot/runner.py:106-114 | at the first iteration whose elapsed time reaches the timeout, the loop ends with what was read before it and reads nothing more |
| Runner.DrainFailureIgnored | termshot/runner.py:141-152 | when the child has exited and the final drain reads nothing or fails, the loop ends normally with no more bytes |
| Runner.RunStep | termshot/runner.py:104-152 | the loop body, branch by branch, computes the iteration `Step` describes |
| Runner.RunLog | termshot/runner.py:69-159 | the operating-system calls of one run in order, the master descriptor closed in the `finally`; `RunLogShape` states its shape |
| Runner.RunLogFailed | termshot/runner.py:69-96 | when the child cannot be started, the pseudo-terminal is opened, sized and echo disabled, then only the master descriptor is closed |
| Runner.RunLogSpawned | termshot/runner.py:69-159 | a started child: open, size, no echo, spawn, close the slave, signal the group only on timeout, close the master |
| Runner.RunLogShape | termshot/runner.py:69-159 | the pseudo-terminal is opened first and the master closed last and exactly once; spawning and the slave close happen iff the child started; the signal is sent iff the child started and the time ran out |
| Runner.PTYRunner.constructor | termshot/runner.py:20-30 | a new runner has the given size and no output |
| Runner.PTYRunner.Run | termshot/runner.py:32-161 | the output is reset, then becomes everything the loop collected. The result is that output, or the spawn error. The actions are the run log for the shell line and the child environment |
| Runner.PTYRunner.Session | termshot/runner.py:68-161 | the pseudo-terminal session for a prepared request: its actions and output, as in `Run` |
| Runner.PTYRunner.BuildEnv | termshot/runner.py:58-66 | the in-place updates build exactly the layered child environment |
| Runner.PTYRunner.ReadLoop | termshot/runner.py:102-152 | the `while True` loop appends exactly the collected bytes, in order, and signals the process group iff it timed out |
| Runner.PTYRunner.GetOutput | termshot/runner.py:163-165 | returns the output of the last run |
| Screenshots.ResolveTheme | termshot/screenshotter.py:57-61 | a theme name goes through the case-insensitive lookup with the default as fallback; a theme value is taken as is |
| Screenshots.DisplayText | termshot/screenshotter.py:109-112 | a non-empty title is shown; otherwise the command string, or the list joined with spaces |
| Screenshots.RunFeed | termshot/screenshotter.py:104-119 | after the reset, the emulator receives three chunks with the command shown and two without: the UTF-8 prompt line, then a carriage return, then the output |
| Screenshots.BannerLayout | termshot/screenshotter.py:114-115 | the prompt line's bytes are the prompt's, then the display text's, then a line feed |
| Screenshots.ShownCommandFirst | termshot/screenshotter.py:107-115 | with the command shown, the first chunk fed is the encoded prompt, display text and line feed |
| Screenshots.Screenshotter.constructor | termshot/screenshotter.py:28-79 | the configuration is stored and the theme resolved. The renderer is built from them, and runner and emulator share the terminal size. Nothing has run and the output is empty |
| Screenshots.Screenshotter.Run | termshot/screenshotter.py:81-122 | on success the output is the runner's bytes and the session has run; it returns itself; the emulator has been fed exactly the run's chunks. A spawn error propagates and leaves the session's output, run flag and emulator as they were. In both cases the runner's action log grows by exactly the run's system calls, `RunLog`: the master descriptor is closed last, and the process group is signalled only on timeout |
| Screenshots.Screenshotter.ReplayOutput | termshot/screenshotter.py:103-119 | the emulator is reset and then fed the banner, the carriage return and the output |
| Screenshots.Screenshotter.ToImage | termshot/screenshotter.py:124-138 | before any run it is refused; afterwards it is the rendering of the emulator's grid |
| Screenshots.Screenshotter.Save | termshot/screenshotter.py:140-158 | before any run it is refused. Afterwards the image written is the one `to_image` gives, and the session is returned for chaining |
| Screenshots.Screenshotter.GetRawOutput | termshot/screenshotter.py:160-162 | returns the bytes captured by the last successful run |
| Screenshots.Screenshotter.GetTextOutput | termshot/screenshotter.py:164-169 | `""` before any run; afterwards the display lines joined by line feeds |
| Screenshots.Screenshotter.CurrentTheme | termshot/screenshotter.py:171-174 | returns the current theme |
| Screenshots.Screenshotter.SetTheme | termshot/screenshotter.py:176-190 | the theme is resolved as in the constructor; the renderer is rebuilt with it and keeps the font size, padding and chrome setting; output and run flag are unchanged |
| Screenshots.RenderedScreen | termshot/screenshotter.py:137-138 | what `to_image` gives: the rendering of the grid of the screen, or a colour error |
| Screenshots.TextOutputLines | termshot/screenshotter.py:168-169 | when no display line contains a line feed, the text output splits back into the lines |

## Left out

- The escape-sequence interpreter (pyte) behind `feed`, `reset`, `get_cursor_position` and `get_display_lines` is not part of this model. The screen buffer and the display lines are inputs, and the emulator keeps only the chunks it was fed.
- `get_cursor_position` is not modelled: it only reads the interpreter's cursor.
- Emulator.TerminalEmulator.Reset: `reset` resets only the screen (`termshot/emulator.py:145`); the escape-sequence parser created at `termshot/emulator.py:40` keeps its state, so a sequence cut off at the end of one run carries into the next run's banner. The model's log of chunks since the last reset does not capture that carried-over parser state.
- `feed` decodes bytes as UTF-8 with replacement before interpreting them (`termshot/emulator.py:49-53`). The model records the bytes. `DecodeUtf8` is Python's strict decoder, and `DecodeEncode` shows that encoded text, such as the banner, decodes back with nothing replaced. The replacement characters inserted for ill-formed bytes, and the unreachable latin-1 fallback, are not modelled.
- Screenshots.Screenshotter.Run: a Python `str` may hold lone surrogates, for example a command decoded from argv with `surrogateescape`; Dafny's `char` cannot. For such a command `prompt_line.encode("utf-8")` (`termshot/screenshotter.py:115`) raises `UnicodeEncodeError` after `_output` was replaced (line 101) and the emulator reset (line 104), with `_has_run` unchanged, leaving the session half-updated. The model's run always encodes the banner and completes.
- Themes.GetTheme: `Theme` is a mutable dataclass (`termshot/themes.py:10-11`) shared by reference between the `THEMES` registry, the session (`termshot/screenshotter.py:59-61`) and the renderer (`termshot/screenshotter.py:70-71`, `185-186`). Mutating a session's theme therefore changes later renders and the registry entry itself. The model's `Theme` is an immutable value, so that aliasing is not captured.
- Pixel rasterisation, PNG encoding, directory creation and file writes (`renderer.save`, `Image.new`, the Pillow drawing calls) are not modelled. Rendering gives the list of drawing calls instead, and `Save` returns the image it would write as a ghost value.
- Font discovery and loading (`_load_font`) are left out, because they probe the file system and call a foreign library.
- Glyph measurement with `textbbox` is left out. The measured cell box, after the `line_height` multiplication, is an input to the renderer.
- The floating-point `line_height` multiplication is left out; its integer result is part of the input box.
- Fonts are the two names `Regular` and `Bold`, not font objects.
- Opening the pseudo-terminal, `ioctl` and `termios` are not modelled. Their failure is not modelled either: they are log entries that always succeed.
- `subprocess.Popen`, `select`, `os.read` and `killpg` are not modelled. Whether the child starts is an input, and each loop iteration's observations are a `Tick`.
- Wall-clock time is not modelled. The elapsed time is an integer in each `Tick`, and the timeout is an integer.
- The select wait duration and the `remaining` computation are not modelled, because they only affect how long an iteration blocks.
- `os.read`'s 4096-byte chunk bound is not modelled; a read yields whatever bytes the `Tick` carries.
- An `OSError` raised by `select` in the main loop would propagate out of `run`. It is not modelled: a select failure is modelled only as the `ValueError` break.
- A `ProcessLookupError` from `killpg` is ignored in the source; the model records the signal either way.
- Runner.Collect: a trace that runs out before the loop stops ends with the reason `TraceEnded`, which has no counterpart in the source, whose loop would keep running.
- Runner.PTYRunner.Run: rows and cols are unbounded `nat`s. The source packs them as unsigned 16-bit values (`termshot/runner.py:76`), so a size above 65535 raises `struct.error` after the pseudo-terminal is opened, outside the `try`: both descriptors leak, the output is not reset and `run` raises. The model's run proceeds for every size.
- Unicode lower-casing and Unicode digits are not modelled. `str.lower`, `str.isdigit` and `int()` act on ASCII only in this model; in particular `int(text, 16)` in `hex_to_rgb` also strips non-ASCII whitespace and accepts non-ASCII digits, which the model rejects.
- The `capture` and `run_command` convenience functions are not modelled, because they only construct an object and call its methods.
- `cli.py`, `__init__.py` and the example script are not modelled: they are argument parsing, re-exports and calls only.

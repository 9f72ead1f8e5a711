/**
 * The `Screenshotter` session: it runs a command in the pseudo-terminal, feeds the prompt
 * banner and the captured bytes to the terminal emulator, and renders the emulator's
 * screen.
 *
 * The terminal interpreter is abstract. The emulator records the chunks fed to it, and
 * the screen snapshot and the display lines it reaches are parameters of the methods
 * that read them. The font's measured cell box is a parameter of the constructor.
 */
module Screenshots {
  import opened Wrappers
  import opened Strings
  import opened Themes
  import opened Emulator
  import opened Renderer
  import opened Runner

  /** A theme is given by name or as a theme value. */
  datatype ThemeChoice = ByName(name: string) | Given(theme: Theme)

  /** Names go through the case-insensitive registry lookup; theme values are taken as they are. */
  function ResolveTheme(choice: ThemeChoice): (t: Theme)
    ensures choice.Given? ==> t == choice.theme
    ensures choice.ByName? && Lower(choice.name) in Registry ==> t == Registry[Lower(choice.name)]
    ensures choice.ByName? && Lower(choice.name) !in Registry ==> t == DefaultTheme
  {
    match choice
    case ByName(name) => GetTheme(name)
    case Given(theme) => theme
  }

  /** The text shown after the prompt: the title when it is non-empty, otherwise the
      command as the shell receives it. */
  function DisplayText(command: Command, title: Option<string>): (s: string)
    ensures title.Some? && title.value != "" ==> s == title.value
    ensures (title.None? || title.value == "") ==> s == ShellLine(command)
  {
    if title.Some? && title.value != "" then title.value else ShellLine(command)
  }

  /** The chunks fed to the emulator by a successful `run`: the UTF-8 prompt line when the
      command is shown, then a carriage return, then the captured bytes. */
  function RunFeed(showCommand: bool, prompt: string, command: Command, title: Option<string>, output: seq<byte>)
    : (chunks: seq<seq<byte>>)
    ensures |chunks| == if showCommand then 3 else 2
    ensures chunks[|chunks| - 2] == [13] && chunks[|chunks| - 1] == output
    ensures showCommand ==> chunks[0] == EncodeUtf8(prompt + DisplayText(command, title) + "\n")
  {
    (if showCommand then [EncodeUtf8(prompt + DisplayText(command, title) + "\n")] else []) + [[13], output]
  }

  /** The banner is the prompt's bytes, the display text's bytes and a line feed, in that order. */
  lemma BannerLayout(prompt: string, display: string)
    ensures EncodeUtf8(prompt + display + "\n") == EncodeUtf8(prompt) + EncodeUtf8(display) + [10]
  {
    EncodeUtf8Append(prompt + display, "\n");
    EncodeUtf8Append(prompt, display);
    EncodeAscii("\n");
  }

  datatype ShotError = NotRun | BadColor

  class Screenshotter {
    const rows: nat
    const cols: nat
    const showCommand: bool
    const prompt: string
    const fontSize: int
    const padding: int
    const showChrome: bool
    /** The cell box measured for the configured font. */
    const glyph: GlyphBox
    const runner: PTYRunner
    const emulator: TerminalEmulator
    var theme: Theme
    var renderer: TerminalRenderer
    var output: seq<byte>
    var hasRun: bool

    /** The renderer always reflects the current theme and the fixed configuration, and the
        runner and the emulator share the session's terminal size. */
    ghost predicate Valid()
      reads this
    {
      && renderer == NewRenderer(Some(theme), fontSize, padding, showChrome, glyph)
      && runner.rows == rows && runner.cols == cols
      && emulator.rows == rows && emulator.cols == cols
    }

    constructor(rows: nat, cols: nat, theme: ThemeChoice, fontSize: int, padding: int,
                showChrome: bool, showCommand: bool, prompt: string, glyph: GlyphBox)
      ensures Valid()
      ensures this.rows == rows && this.cols == cols && this.showCommand == showCommand && this.prompt == prompt
      ensures this.fontSize == fontSize && this.padding == padding && this.showChrome == showChrome
      ensures this.glyph == glyph
      ensures this.theme == ResolveTheme(theme)
      ensures output == [] && !hasRun
      ensures fresh(runner) && fresh(emulator)
      ensures runner.output == [] && runner.actions == [] && emulator.fed == []
    {
      this.rows := rows;
      this.cols := cols;
      this.showCommand := showCommand;
      this.prompt := prompt;
      var resolved: Theme;
      if theme.ByName? {
        resolved := GetTheme(theme.name);
      } else {
        resolved := theme.theme;
      }
      this.theme := resolved;
      this.fontSize := fontSize;
      this.padding := padding;
      this.showChrome := showChrome;
      this.glyph := glyph;
      runner := new PTYRunner(rows, cols);
      emulator := new TerminalEmulator(rows, cols);
      renderer := NewRenderer(Some(resolved), fontSize, padding, showChrome, glyph);
      output := [];
      hasRun := false;
    }

    /** `run`: the runner's bytes become the session output and the emulator is reset and
        fed the banner, a carriage return and the output. When the child cannot be started
        the error propagates and the session itself is left as it was. */
    method Run(command: Command, timeout: Option<int>, env: Option<map<string, string>>, title: Option<string>,
               inherited: map<string, string>, spawned: bool, trace: seq<Tick>)
      returns (res: Result<Screenshotter, RunError>)
      requires Valid()
      modifies this, runner, emulator
      ensures Valid()
      ensures theme == old(theme) && renderer == old(renderer)
      ensures runner.output == if spawned then Collect(trace, timeout).bytes else []
      ensures runner.actions == old(runner.actions) +
                RunLog(rows, cols, SpawnRequest(ShellLine(command), true, ChildEnv(inherited, rows, cols, env)),
                       spawned, Collect(trace, timeout).reason)
      ensures !spawned ==> res == Err(SpawnFailed) && output == old(output) && hasRun == old(hasRun)
      ensures !spawned ==> emulator.fed == old(emulator.fed)
      ensures spawned ==> res == Ok(this) && hasRun
      ensures spawned ==> output == runner.output && output == Collect(trace, timeout).bytes
      ensures spawned ==> emulator.fed == RunFeed(showCommand, prompt, command, title, output)
    {
      var captured := runner.Run(command, timeout, env, inherited, spawned, trace);
      if captured.Err? {
        return Err(captured.error);
      }
      output := captured.value;

      ReplayOutput(command, title);
      hasRun := true;
      res := Ok(this);
    }

    /** The emulator half of `run`: reset, then the banner, a carriage return and the output. */
    method ReplayOutput(command: Command, title: Option<string>)
      modifies emulator
      ensures emulator.fed == RunFeed(showCommand, prompt, command, title, output)
    {
      emulator.Reset();
      if showCommand {
        var displayText: string;
        if title.Some? && title.value != "" {
          displayText := title.value;
        } else if command.Line? {
          displayText := command.line;
        } else {
          displayText := Join(command.argv, ' ');
        }
        var promptLine := prompt + displayText + "\n";
        emulator.Feed(EncodeUtf8(promptLine));
      }
      emulator.Feed([13]);
      emulator.Feed(output);
    }

    /** `to_image`: refused before the first run; afterwards the rendering of the emulator's
        grid, which fails only when a theme colour is malformed. */
    method ToImage(screen: Screen) returns (res: Result<Image, ShotError>)
      requires Valid()
      ensures !hasRun ==> res == Err(NotRun)
      ensures hasRun ==> res == RenderedScreen(renderer, screen, rows, cols)
    {
      if !hasRun {
        return Err(NotRun);
      }
      var buffer := emulator.GetBuffer(screen);
      var img := Render(renderer, buffer);
      if img.None? {
        return Err(BadColor);
      }
      res := Ok(img.value);
    }

    /** `save`: refused before the first run; afterwards the same image as `to_image`, to be
        written out, and the session itself for chaining. */
    method Save(screen: Screen) returns (res: Result<Screenshotter, ShotError>, ghost written: Option<Image>)
      requires Valid()
      ensures !hasRun ==> res == Err(NotRun) && written.None?
      ensures hasRun && RenderedScreen(renderer, screen, rows, cols).Ok? ==>
                res == Ok(this) && written == Some(RenderedScreen(renderer, screen, rows, cols).value)
      ensures hasRun && RenderedScreen(renderer, screen, rows, cols).Err? ==> res == Err(BadColor) && written.None?
    {
      written := None;
      if !hasRun {
        return Err(NotRun), written;
      }
      var buffer := emulator.GetBuffer(screen);
      var img := Render(renderer, buffer);
      if img.None? {
        return Err(BadColor), written;
      }
      written := Some(img.value);
      res := Ok(this);
    }

    /** `get_raw_output`: the bytes captured by the last successful run. */
    method GetRawOutput() returns (o: seq<byte>)
      ensures o == output
    {
      o := output;
    }

    /** `get_text_output`: empty before the first run, otherwise the display lines joined
        with line feeds. */
    method GetTextOutput(lines: seq<string>) returns (text: string)
      ensures !hasRun ==> text == ""
      ensures hasRun ==> text == Join(lines, '\n')
    {
      if !hasRun {
        return "";
      }
      text := Join(lines, '\n');
    }

    /** The `theme` property. */
    method CurrentTheme() returns (t: Theme)
      ensures t == theme
    {
      t := theme;
    }

    /** The `theme` setter: the theme is resolved and the renderer rebuilt with the same
        font size, padding and chrome setting; nothing else changes. */
    method SetTheme(value: ThemeChoice)
      requires Valid()
      modifies this
      ensures Valid()
      ensures theme == ResolveTheme(value)
      ensures renderer.fontSize == fontSize && renderer.padding == padding && renderer.showChrome == showChrome
      ensures renderer.theme == theme
      ensures output == old(output) && hasRun == old(hasRun)
    {
      if value.ByName? {
        theme := GetTheme(value.name);
      } else {
        theme := value.theme;
      }
      renderer := NewRenderer(Some(theme), fontSize, padding, showChrome, glyph);
    }
  }

  /** What `to_image` yields for a screen: the renderer's picture of the emulator's grid. */
  function RenderedScreen(r: TerminalRenderer, screen: Screen, rows: nat, cols: nat): Result<Image, ShotError> {
    match Rendered(r, Snapshot(screen, rows, cols))
    case None => Err(BadColor)
    case Some(img) => Ok(img)
  }

  /** A run with the command shown puts the prompt line first, so the line the text output
      starts with is the prompt and the display text. */
  lemma ShownCommandFirst(prompt: string, command: Command, title: Option<string>, output: seq<byte>)
    ensures RunFeed(true, prompt, command, title, output)[0] ==
              EncodeUtf8(prompt) + EncodeUtf8(DisplayText(command, title)) + [10]
  {
    BannerLayout(prompt, DisplayText(command, title));
  }

  /** The text output splits back into the display lines when none of them contains a line feed. */
  lemma {:induction false} TextOutputLines(lines: seq<string>)
    requires |lines| >= 1
    requires forall i :: 0 <= i < |lines| ==> '\n' !in lines[i]
    ensures Split(Join(lines, '\n'), '\n') == lines
  {
    SplitJoin(lines, '\n');
  }
}

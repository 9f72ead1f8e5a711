/** The compositing renderer (termshot/renderer.py). Pixels are not modelled: rendering
    produces the canvas size, its fill colour and the ordered list of drawing calls the
    renderer issues on it. */
module Renderer {
  import opened Wrappers
  import opened Themes
  import opened Emulator

  datatype Font = Regular | Bold

  /** Two corner points, as the drawing calls take them. */
  datatype Box = Box(x0: int, y0: int, x1: int, y1: int)

  /** One drawing call on the canvas. */
  datatype DrawCmd =
    | Rect(box: Box, fill: RGB)
    | Text(x: int, y: int, glyph: string, font: Font, fill: RGB)
    | Line(box: Box, fill: RGB, width: int)
    | Ellipse(box: Box, color: string)

  /** A canvas of the given size filled with `background`, then drawn on in order. */
  datatype Image = Image(width: int, height: int, background: RGB, commands: seq<DrawCmd>)

  /** The measured size of the reference glyph "M", its height already scaled by the line height. */
  datatype GlyphBox = GlyphBox(width: int, height: int)

  const MinCharWidth := 8
  const MinCharHeight := 16
  const ChromeHeight := 36
  const ButtonRadius := 6
  const ButtonSpacing := 20
  const ButtonColors: seq<string> := ["#ff5f56", "#ffbd2e", "#27c93f"]
  const PlaceholderSize := 100

  /** A `TerminalRenderer` after construction: its settings and the cached cell size. */
  datatype TerminalRenderer = TerminalRenderer(
    theme: Theme,
    fontSize: int,
    padding: int,
    showChrome: bool,
    charWidth: int,
    charHeight: int)

  predicate ValidRenderer(r: TerminalRenderer) {
    r.charWidth >= MinCharWidth && r.charHeight >= MinCharHeight
  }

  function Max(a: int, b: int): int { if a < b then b else a }

  /** `TerminalRenderer.__init__` with `_calculate_char_size`: a missing theme means the
      default theme, and the measured cell is clamped to at least 8 x 16. */
  function NewRenderer(theme: Option<Theme>, fontSize: int, padding: int, showChrome: bool, glyph: GlyphBox)
    : (r: TerminalRenderer)
    ensures ValidRenderer(r)
    ensures r.theme == (if theme.Some? then theme.value else DefaultTheme)
    ensures r.fontSize == fontSize && r.padding == padding && r.showChrome == showChrome
    ensures glyph.width >= MinCharWidth ==> r.charWidth == glyph.width
    ensures glyph.width < MinCharWidth ==> r.charWidth == MinCharWidth
    ensures glyph.height >= MinCharHeight ==> r.charHeight == glyph.height
    ensures glyph.height < MinCharHeight ==> r.charHeight == MinCharHeight
  {
    TerminalRenderer(
      if theme.Some? then theme.value else DefaultTheme,
      fontSize, padding, showChrome,
      Max(glyph.width, MinCharWidth), Max(glyph.height, MinCharHeight))
  }

  // ---------------------------------------------------------------- colour resolution

  function RoleDefault(t: Theme, isForeground: bool): string {
    if isForeground then t.foreground else t.background
  }

  /** The channel value of one 6x6x6 cube component. */
  function CubeLevel(n: int): int { if n == 0 then 0 else 55 + 40 * n }

  predicate IsCubeLevel(v: int) { v == 0 || v == 95 || v == 135 || v == 175 || v == 215 || v == 255 }

  predicate StartsWithHash(s: string) { |s| > 0 && s[0] == '#' }

  /** The colour values that resolve to the theme's colour for their role. */
  predicate FallsBackToRole(color: ColorValue) {
    match color
    case Name(s) => !StartsWithHash(s)
    case Index(i) => i < 0 || 256 <= i
  }

  /** `_get_color_rgb`: `None` when a hex string it decodes is malformed (ValueError). */
  function GetColorRgb(t: Theme, color: ColorValue, isForeground: bool): (rgb: Option<RGB>)
    ensures FallsBackToRole(color) ==> rgb == HexToRgb(RoleDefault(t, isForeground))
    ensures color.Name? && StartsWithHash(color.name) ==> rgb == HexToRgb(color.name)
    ensures color.Index? && 0 <= color.index < 16 ==> rgb == HexToRgb(GetColor(t, color.index))
    ensures color.Index? && 16 <= color.index < 232 ==>
              rgb.Some? && IsCubeLevel(rgb.value.r) && IsCubeLevel(rgb.value.g) && IsCubeLevel(rgb.value.b)
    ensures color.Index? && 232 <= color.index < 256 ==>
              rgb.Some? && rgb.value.r == rgb.value.g == rgb.value.b &&
              8 <= rgb.value.r <= 238 && rgb.value.r == 8 + 10 * (color.index - 232)
  {
    match color
    case Name(s) =>
      if s == "default" then HexToRgb(RoleDefault(t, isForeground))
      else if StartsWithHash(s) then HexToRgb(s)
      else HexToRgb(RoleDefault(t, isForeground))
    case Index(i) =>
      if 0 <= i < 16 then HexToRgb(GetColor(t, i))
      else if 16 <= i < 232 then
        var k := i - 16;
        Some(RGB(CubeLevel((k / 36) % 6), CubeLevel((k / 6) % 6), CubeLevel(k % 6)))
      else if 232 <= i < 256 then
        var gray := 8 + (i - 232) * 10;
        Some(RGB(gray, gray, gray))
      else HexToRgb(RoleDefault(t, isForeground))
  }

  /** The component a cube channel value came from. */
  function LevelIndex(v: int): int { if v == 0 then 0 else (v - 55) / 40 }

  /** The xterm-256 index of a colour of the cube: the inverse of the cube rule. */
  function CubeIndex(c: RGB): int {
    16 + 36 * LevelIndex(c.r) + 6 * LevelIndex(c.g) + LevelIndex(c.b)
  }

  lemma LevelRoundTrip(n: int)
    requires 0 <= n < 6
    ensures LevelIndex(CubeLevel(n)) == n
  {
  }

  /** Base-6 digits of a cube offset put back together give the offset. */
  lemma Base6(k: int)
    requires 0 <= k < 216
    ensures 36 * ((k / 36) % 6) + 6 * ((k / 6) % 6) + k % 6 == k
  {
    var q := k / 6;
    assert k == 6 * q + k % 6;
    assert q == 6 * (q / 6) + q % 6;
    assert 0 <= q < 36;
    assert k == 36 * (q / 6) + (6 * (q % 6) + k % 6);
    assert 0 <= 6 * (q % 6) + k % 6 < 36;
    assert k / 36 == q / 6;
  }

  /** Every index of the cube names a different colour: resolving and reading back the index agree. */
  lemma {:induction false} CubeRoundTrip(t: Theme, i: int, isForeground: bool)
    requires 16 <= i < 232
    ensures GetColorRgb(t, Index(i), isForeground).Some?
    ensures CubeIndex(GetColorRgb(t, Index(i), isForeground).value) == i
  {
    var k := i - 16;
    LevelRoundTrip((k / 36) % 6);
    LevelRoundTrip((k / 6) % 6);
    LevelRoundTrip(k % 6);
    Base6(k);
  }

  /** The grayscale ramp gets strictly brighter with the index. */
  lemma GrayRampIncreasing(t: Theme, i: int, j: int, isForeground: bool)
    requires 232 <= i < j < 256
    ensures GetColorRgb(t, Index(i), isForeground).value.r < GetColorRgb(t, Index(j), isForeground).value.r
  {
  }

  /** Resolution never fails on a well-formed theme unless the value itself is a malformed
      `#` string; palette indices give the palette entry, decoded. */
  lemma ResolveTotal(t: Theme, color: ColorValue, isForeground: bool)
    requires WellFormedTheme(t)
    requires color.Name? && StartsWithHash(color.name) ==> WellFormedHex(color.name)
    ensures GetColorRgb(t, color, isForeground).Some?
    ensures color.Index? && 0 <= color.index < 16 ==>
              GetColorRgb(t, color, isForeground) == HexToRgb(t.palette[color.index])
  {
  }

  // ---------------------------------------------------------------- cells

  /** The colours a cell is painted with, foreground first: both resolved, then swapped under reverse video. */
  function CellColors(t: Theme, cell: Cell): (c: Option<(RGB, RGB)>)
    ensures c.Some? <==> GetColorRgb(t, cell.fg, true).Some? && GetColorRgb(t, cell.bg, false).Some?
    ensures c.Some? && !cell.reverse ==>
              c.value == (GetColorRgb(t, cell.fg, true).value, GetColorRgb(t, cell.bg, false).value)
    ensures c.Some? && cell.reverse ==>
              c.value == (GetColorRgb(t, cell.bg, false).value, GetColorRgb(t, cell.fg, true).value)
  {
    match (GetColorRgb(t, cell.fg, true), GetColorRgb(t, cell.bg, false))
    case (Some(fg), Some(bg)) => Some(if cell.reverse then (bg, fg) else (fg, bg))
    case _ => None
  }

  /** Reverse video swaps the two resolved colours and nothing else. */
  lemma ReverseSwaps(t: Theme, cell: Cell)
    ensures CellColors(t, cell.(reverse := false)).Some? == CellColors(t, cell.(reverse := true)).Some?
    ensures CellColors(t, cell.(reverse := true)).Some? ==>
              CellColors(t, cell.(reverse := true)).value.0 == CellColors(t, cell.(reverse := false)).value.1 &&
              CellColors(t, cell.(reverse := true)).value.1 == CellColors(t, cell.(reverse := false)).value.0
  {
  }

  function FontFor(bold: bool): Font { if bold then Bold else Regular }

  /** The cell box with top-left corner (x, y). */
  function CellBox(r: TerminalRenderer, x: int, y: int): Box {
    Box(x, y, x + r.charWidth, y + r.charHeight)
  }

  /** A horizontal stroke across the cell at height `lineY`. */
  function Stroke(r: TerminalRenderer, x: int, lineY: int, fill: RGB): DrawCmd {
    Line(Box(x, lineY, x + r.charWidth, lineY), fill, 1)
  }

  predicate Visible(ch: string) { ch != "" && ch != " " }

  function BackgroundPart(r: TerminalRenderer, cell: Cell, x: int, y: int, bg: RGB): seq<DrawCmd> {
    if cell.bg != Name("default") || cell.reverse then [Rect(CellBox(r, x, y), bg)] else []
  }

  function GlyphPart(cell: Cell, x: int, y: int, fg: RGB): seq<DrawCmd> {
    if Visible(cell.ch) then [Text(x, y, cell.ch, FontFor(cell.bold), fg)] else []
  }

  function UnderlinePart(r: TerminalRenderer, cell: Cell, x: int, y: int, fg: RGB): seq<DrawCmd> {
    if cell.underline then [Stroke(r, x, y + r.charHeight - 2, fg)] else []
  }

  function StrikePart(r: TerminalRenderer, cell: Cell, x: int, y: int, fg: RGB): seq<DrawCmd> {
    if cell.strikethrough then [Stroke(r, x, y + r.charHeight / 2, fg)] else []
  }

  /** The drawing calls for one cell at origin (x, y), in the order the renderer issues them. */
  function CellCommands(r: TerminalRenderer, cell: Cell, x: int, y: int): (cmds: Option<seq<DrawCmd>>)
    ensures cmds.Some? <==> CellColors(r.theme, cell).Some?
  {
    match CellColors(r.theme, cell)
    case None => None
    case Some((fg, bg)) =>
      Some(Painted(r, cell, x, y, fg, bg))
  }

  predicate HasRect(cmds: seq<DrawCmd>) { exists k :: 0 <= k < |cmds| && cmds[k].Rect? }
  predicate HasText(cmds: seq<DrawCmd>) { exists k :: 0 <= k < |cmds| && cmds[k].Text? }
  predicate HasLineAt(cmds: seq<DrawCmd>, lineY: int) {
    exists k :: 0 <= k < |cmds| && cmds[k].Line? && cmds[k].box.y0 == lineY
  }

  /** Whether a drawing call stays inside a box. */
  predicate Within(c: DrawCmd, b: Box) {
    match c
    case Rect(box, _) => b.x0 <= box.x0 <= box.x1 <= b.x1 && b.y0 <= box.y0 <= box.y1 <= b.y1
    case Text(x, y, _, _, _) => b.x0 <= x <= b.x1 && b.y0 <= y <= b.y1
    case Line(box, _, _) => b.x0 <= box.x0 <= box.x1 <= b.x1 && b.y0 <= box.y0 <= box.y1 <= b.y1
    case Ellipse(box, _) => b.x0 <= box.x0 <= box.x1 <= b.x1 && b.y0 <= box.y0 <= box.y1 <= b.y1
  }

  /** The drawing calls of a cell with the given colours. */
  function Painted(r: TerminalRenderer, cell: Cell, x: int, y: int, fg: RGB, bg: RGB): seq<DrawCmd> {
    BackgroundPart(r, cell, x, y, bg) + GlyphPart(cell, x, y, fg) +
    UnderlinePart(r, cell, x, y, fg) + StrikePart(r, cell, x, y, fg)
  }

  /** What painting one cell does: a background box exactly when the cell's background
      descriptor is not "default" or reverse video is on; a glyph exactly for visible
      characters, bold font exactly for bold cells; the underline two pixels above the cell
      bottom and the strikethrough at mid-height, each exactly when its flag is set; all of
      it in the (possibly swapped) cell colours and inside the cell box. */
  lemma CellPainting(r: TerminalRenderer, cell: Cell, x: int, y: int)
    requires ValidRenderer(r)
    requires CellCommands(r, cell, x, y).Some?
    ensures var cmds := CellCommands(r, cell, x, y).value;
            var (fg, bg) := CellColors(r.theme, cell).value;
            && |cmds| <= 4
            && (HasRect(cmds) <==> cell.bg != Name("default") || cell.reverse)
            && (HasRect(cmds) ==> cmds[0] == Rect(CellBox(r, x, y), bg))
            && (HasText(cmds) <==> Visible(cell.ch))
            && (forall k :: 0 <= k < |cmds| && cmds[k].Text? ==>
                  cmds[k] == Text(x, y, cell.ch, if cell.bold then Bold else Regular, fg))
            && (HasLineAt(cmds, y + r.charHeight - 2) <==> cell.underline)
            && (HasLineAt(cmds, y + r.charHeight / 2) <==> cell.strikethrough)
            && (forall k :: 0 <= k < |cmds| && cmds[k].Line? ==> cmds[k].fill == fg && cmds[k].width == 1)
            && (forall k :: 0 <= k < |cmds| ==> Within(cmds[k], CellBox(r, x, y)))
  {
    var (fg, bg) := CellColors(r.theme, cell).value;
    assert CellCommands(r, cell, x, y).value == Painted(r, cell, x, y, fg, bg);
    PaintedRect(r, cell, x, y, fg, bg);
    PaintedText(r, cell, x, y, fg, bg);
    PaintedLines(r, cell, x, y, fg, bg);
    PaintedWithin(r, cell, x, y, fg, bg);
  }

  lemma PaintedRect(r: TerminalRenderer, cell: Cell, x: int, y: int, fg: RGB, bg: RGB)
    ensures var cmds := Painted(r, cell, x, y, fg, bg);
            && |cmds| <= 4
            && (HasRect(cmds) <==> cell.bg != Name("default") || cell.reverse)
            && (HasRect(cmds) ==> cmds[0] == Rect(CellBox(r, x, y), bg))
  {
    var cmds := Painted(r, cell, x, y, fg, bg);
    var rest := GlyphPart(cell, x, y, fg) + UnderlinePart(r, cell, x, y, fg) + StrikePart(r, cell, x, y, fg);
    assert cmds == BackgroundPart(r, cell, x, y, bg) + rest;
    assert forall k :: 0 <= k < |rest| ==> !rest[k].Rect?;
    if cell.bg != Name("default") || cell.reverse {
      assert cmds[0].Rect?;
    } else {
      assert cmds == rest;
    }
  }

  lemma PaintedText(r: TerminalRenderer, cell: Cell, x: int, y: int, fg: RGB, bg: RGB)
    ensures var cmds := Painted(r, cell, x, y, fg, bg);
            && (HasText(cmds) <==> Visible(cell.ch))
            && (forall k :: 0 <= k < |cmds| && cmds[k].Text? ==>
                  cmds[k] == Text(x, y, cell.ch, if cell.bold then Bold else Regular, fg))
  {
    var cmds := Painted(r, cell, x, y, fg, bg);
    OnlyGlyphIsText(r, cell, x, y, fg, bg);
    if Visible(cell.ch) {
      var back := BackgroundPart(r, cell, x, y, bg);
      assert cmds == back + GlyphPart(cell, x, y, fg) + UnderlinePart(r, cell, x, y, fg) + StrikePart(r, cell, x, y, fg);
      assert cmds[|back|].Text?;
    }
  }

  lemma OnlyGlyphIsText(r: TerminalRenderer, cell: Cell, x: int, y: int, fg: RGB, bg: RGB)
    ensures var cmds := Painted(r, cell, x, y, fg, bg);
            forall k :: 0 <= k < |cmds| && cmds[k].Text? ==>
              cmds[k] == Text(x, y, cell.ch, FontFor(cell.bold), fg) && Visible(cell.ch)
  {
    var cmds := Painted(r, cell, x, y, fg, bg);
    var back := BackgroundPart(r, cell, x, y, bg);
    var glyph := GlyphPart(cell, x, y, fg);
    var lines := UnderlinePart(r, cell, x, y, fg) + StrikePart(r, cell, x, y, fg);
    assert cmds == back + glyph + lines;
    forall k | 0 <= k < |cmds|
      ensures cmds[k].Text? ==> cmds[k] == Text(x, y, cell.ch, FontFor(cell.bold), fg) && Visible(cell.ch)
    {
      if k < |back| {
        assert cmds[k] == back[k];
      } else if k < |back| + |glyph| {
        assert cmds[k] == glyph[k - |back|];
      } else {
        assert cmds[k] == lines[k - |back| - |glyph|];
      }
    }
  }

  lemma PaintedLines(r: TerminalRenderer, cell: Cell, x: int, y: int, fg: RGB, bg: RGB)
    requires ValidRenderer(r)
    ensures var cmds := Painted(r, cell, x, y, fg, bg);
            && (HasLineAt(cmds, y + r.charHeight - 2) <==> cell.underline)
            && (HasLineAt(cmds, y + r.charHeight / 2) <==> cell.strikethrough)
            && (forall k :: 0 <= k < |cmds| && cmds[k].Line? ==> cmds[k].fill == fg && cmds[k].width == 1)
  {
    var cmds := Painted(r, cell, x, y, fg, bg);
    var front := BackgroundPart(r, cell, x, y, bg) + GlyphPart(cell, x, y, fg);
    var under := UnderlinePart(r, cell, x, y, fg);
    var strike := StrikePart(r, cell, x, y, fg);
    assert cmds == front + under + strike;
    assert forall k :: 0 <= k < |front| ==> !front[k].Line?;
    assert y + r.charHeight - 2 != y + r.charHeight / 2;
    if cell.underline {
      assert cmds[|front|] == under[0];
    }
    if cell.strikethrough {
      assert cmds[|front| + |under|] == strike[0];
    }
  }

  lemma PaintedWithin(r: TerminalRenderer, cell: Cell, x: int, y: int, fg: RGB, bg: RGB)
    requires ValidRenderer(r)
    ensures var cmds := Painted(r, cell, x, y, fg, bg);
            forall k :: 0 <= k < |cmds| ==> Within(cmds[k], CellBox(r, x, y))
  {
    var cmds := Painted(r, cell, x, y, fg, bg);
    var back := BackgroundPart(r, cell, x, y, bg);
    var glyph := GlyphPart(cell, x, y, fg);
    var under := UnderlinePart(r, cell, x, y, fg);
    var strike := StrikePart(r, cell, x, y, fg);
    assert cmds == back + glyph + under + strike;
    forall k | 0 <= k < |cmds| ensures Within(cmds[k], CellBox(r, x, y)) {
      if k < |back| {
        assert cmds[k] == back[k];
      } else if k < |back| + |glyph| {
        assert cmds[k] == glyph[k - |back|];
      } else if k < |back| + |glyph| + |under| {
        assert cmds[k] == under[k - |back| - |glyph|];
      } else {
        assert cmds[k] == strike[k - |back| - |glyph| - |under|];
      }
    }
  }

  /** `_draw_window_chrome`'s title-bar channel: 30 lighter, capped at 255. */
  function Lighten(c: int): (l: int)
    ensures l <= 255
    ensures c <= 255 ==> c <= l
    ensures c <= 225 ==> l == c + 30
    ensures c >= 225 ==> l == 255
  {
    if c + 30 < 255 then c + 30 else 255
  }

  function TitleBarColor(bg: RGB): RGB {
    RGB(Lighten(bg.r), Lighten(bg.g), Lighten(bg.b))
  }

  /** The bounding box of window button `i`: a circle centred on (padding + 20 i, 18). */
  function ButtonBox(padding: int, i: int): Box {
    var cx := padding + i * ButtonSpacing;
    var cy := ChromeHeight / 2;
    Box(cx - ButtonRadius, cy - ButtonRadius, cx + ButtonRadius, cy + ButtonRadius)
  }

  /** The close, minimise and maximise buttons. */
  function Buttons(padding: int): seq<DrawCmd> {
    [Ellipse(ButtonBox(padding, 0), ButtonColors[0]),
     Ellipse(ButtonBox(padding, 1), ButtonColors[1]),
     Ellipse(ButtonBox(padding, 2), ButtonColors[2])]
  }

  /** The title bar across the full width, then the close, minimise and maximise buttons. */
  function ChromeCommands(bg: RGB, padding: int, width: int): (cmds: seq<DrawCmd>)
    ensures |cmds| == 4
    ensures cmds[0] == Rect(Box(0, 0, width, ChromeHeight), TitleBarColor(bg))
    ensures forall i :: 0 <= i < 3 ==>
              cmds[i + 1].Ellipse? && cmds[i + 1].color == ButtonColors[i] &&
              cmds[i + 1].box.x0 + cmds[i + 1].box.x1 == 2 * (padding + 20 * i) &&
              cmds[i + 1].box.y0 + cmds[i + 1].box.y1 == ChromeHeight &&
              cmds[i + 1].box.x1 - cmds[i + 1].box.x0 == 2 * 6 &&
              cmds[i + 1].box.y1 - cmds[i + 1].box.y0 == 2 * 6
  {
    [Rect(Box(0, 0, width, ChromeHeight), TitleBarColor(bg))] + Buttons(padding)
  }

  /** The title bar is never darker than the background and stays a valid channel value. */
  lemma TitleBarLighter(bg: RGB)
    requires 0 <= bg.r <= 255 && 0 <= bg.g <= 255 && 0 <= bg.b <= 255
    ensures var tb := TitleBarColor(bg);
            bg.r <= tb.r <= 255 && bg.g <= tb.g <= 255 && bg.b <= tb.b <= 255
  {
  }

  /** `_draw_window_chrome`: draws the bar and the buttons one by one, returns the chrome height. */
  method DrawWindowChrome(r: TerminalRenderer, width: int) returns (cmds: Option<seq<DrawCmd>>, height: int)
    ensures cmds.Some? <==> HexToRgb(r.theme.background).Some?
    ensures cmds.Some? ==> cmds.value == ChromeCommands(HexToRgb(r.theme.background).value, r.padding, width)
    ensures height == ChromeHeight
  {
    height := ChromeHeight;
    var bgRgb := HexToRgb(r.theme.background);
    if bgRgb.None? {
      return None, height;
    }
    var bar := Rect(Box(0, 0, width, ChromeHeight), TitleBarColor(bgRgb.value));
    var buttons := DrawButtons(r.padding);
    var drawn := [bar] + buttons;
    cmds := Some(drawn);
  }

  /** The button loop of `_draw_window_chrome`. */
  method DrawButtons(padding: int) returns (drawn: seq<DrawCmd>)
    ensures drawn == Buttons(padding)
  {
    drawn := [];
    for i := 0 to |ButtonColors|
      invariant |drawn| == i
      invariant forall k :: 0 <= k < i ==> drawn[k] == Buttons(padding)[k]
    {
      var x := padding + i * ButtonSpacing;
      drawn := drawn + [Ellipse(Box(x - ButtonRadius, ChromeHeight / 2 - ButtonRadius,
                                    x + ButtonRadius, ChromeHeight / 2 + ButtonRadius), ButtonColors[i])];
    }
  }

  /** The drawing calls of one loop iteration, given the cell's (possibly swapped) colours. */
  method EmitCell(r: TerminalRenderer, cell: Cell, x: int, y: int, fgColor: RGB, bgColor: RGB)
    returns (out: seq<DrawCmd>)
    ensures out == Painted(r, cell, x, y, fgColor, bgColor)
  {
    out := [];
    if cell.bg != Name("default") || cell.reverse {
      out := out + [Rect(Box(x, y, x + r.charWidth, y + r.charHeight), bgColor)];
    }
    assert out == BackgroundPart(r, cell, x, y, bgColor);
    ghost var done := out;
    if cell.ch != "" && cell.ch != " " {
      var font := if cell.bold then Bold else Regular;
      out := out + [Text(x, y, cell.ch, font, fgColor)];
    }
    assert out == done + GlyphPart(cell, x, y, fgColor);
    done := out;
    if cell.underline {
      var underlineY := y + r.charHeight - 2;
      out := out + [Line(Box(x, underlineY, x + r.charWidth, underlineY), fgColor, 1)];
    }
    assert out == done + UnderlinePart(r, cell, x, y, fgColor);
    done := out;
    if cell.strikethrough {
      var strikeY := y + r.charHeight / 2;
      out := out + [Line(Box(x, strikeY, x + r.charWidth, strikeY), fgColor, 1)];
    }
    assert out == done + StrikePart(r, cell, x, y, fgColor);
  }

  /** `_get_color_rgb` for both colours of a cell, then the drawing calls of one loop iteration. */
  method PaintCell(r: TerminalRenderer, cell: Cell, x: int, y: int) returns (cmds: Option<seq<DrawCmd>>)
    ensures cmds == CellCommands(r, cell, x, y)
  {
    var fg := GetColorRgb(r.theme, cell.fg, true);
    var bg := GetColorRgb(r.theme, cell.bg, false);
    if fg.None? || bg.None? {
      return None;
    }
    var fgColor, bgColor := fg.value, bg.value;
    if cell.reverse {
      fgColor, bgColor := bgColor, fgColor;
    }
    assert CellColors(r.theme, cell) == Some((fgColor, bgColor));
    var out := EmitCell(r, cell, x, y, fgColor, bgColor);
    cmds := Some(out);
  }

  // ---------------------------------------------------------------- the whole grid

  /** Both parts present: their concatenation. */
  function Append(a: Option<seq<DrawCmd>>, b: Option<seq<DrawCmd>>): Option<seq<DrawCmd>> {
    if a.Some? && b.Some? then Some(a.value + b.value) else None
  }

  /** The concatenation of all parts, or `None` as soon as one part failed. */
  function ConcatAll(parts: seq<Option<seq<DrawCmd>>>): Option<seq<DrawCmd>>
    decreases |parts|
  {
    if parts == [] then Some([])
    else Append(ConcatAll(parts[..|parts| - 1]), parts[|parts| - 1])
  }

  /** The whole fails exactly when some part fails. */
  lemma {:induction false} ConcatAllFails(parts: seq<Option<seq<DrawCmd>>>)
    ensures ConcatAll(parts).None? <==> exists k :: 0 <= k < |parts| && parts[k].None?
    decreases |parts|
  {
    if parts != [] {
      var init := parts[..|parts| - 1];
      ConcatAllFails(init);
      if ConcatAll(init).None? {
        var k :| 0 <= k < |init| && init[k].None?;
        assert parts[k].None?;
      }
      if exists k :: 0 <= k < |parts| && parts[k].None? {
        var k :| 0 <= k < |parts| && parts[k].None?;
        if k < |init| {
          assert init[k].None?;
        }
      }
    }
  }

  /** The parts' commands follow one another: a success is the concatenation of every part. */
  lemma {:induction false} ConcatAllSucceeds(parts: seq<Option<seq<DrawCmd>>>, k: nat)
    requires ConcatAll(parts).Some? && k < |parts|
    ensures parts[k].Some?
    ensures exists pre, post :: ConcatAll(parts).value == pre + parts[k].value + post
  {
    ConcatAllFails(parts);
    var init := parts[..|parts| - 1];
    if k == |parts| - 1 {
      assert ConcatAll(parts).value == ConcatAll(init).value + parts[k].value + [];
    } else {
      assert init[k] == parts[k];
      ConcatAllSucceeds(init, k);
      var pre, post :| ConcatAll(init).value == pre + init[k].value + post;
      assert ConcatAll(parts).value == pre + parts[k].value + (post + parts[|parts| - 1].value);
    }
  }

  lemma ConcatAllSnoc(parts: seq<Option<seq<DrawCmd>>>, k: nat)
    requires k < |parts|
    ensures ConcatAll(parts[..k + 1]) == Append(ConcatAll(parts[..k]), parts[k])
  {
    assert parts[..k + 1][..k] == parts[..k];
  }

  function CellX(r: TerminalRenderer, col: int): int { r.padding + col * r.charWidth }

  function ChromeOffset(r: TerminalRenderer): int { if r.showChrome then ChromeHeight else 0 }

  function CellY(r: TerminalRenderer, row: int): int { r.padding + ChromeOffset(r) + row * r.charHeight }

  /** The per-cell drawing calls of one row, cell `col` at its origin (CellX(col), CellY(row)). */
  function CellParts(r: TerminalRenderer, row: seq<Cell>, rowIdx: int): seq<Option<seq<DrawCmd>>>
  {
    seq(|row|, j requires 0 <= j < |row| => CellCommands(r, row[j], CellX(r, j), CellY(r, rowIdx)))
  }

  /** The drawing calls of each row, in order. */
  function RowParts(r: TerminalRenderer, buffer: seq<seq<Cell>>): seq<Option<seq<DrawCmd>>>
  {
    seq(|buffer|, i requires 0 <= i < |buffer| => ConcatAll(CellParts(r, buffer[i], i)))
  }

  predicate EmptyGrid(buffer: seq<seq<Cell>>) { |buffer| == 0 || |buffer[0]| == 0 }

  function CanvasWidth(r: TerminalRenderer, buffer: seq<seq<Cell>>): int
    requires !EmptyGrid(buffer)
  {
    |buffer[0]| * r.charWidth + 2 * r.padding
  }

  function CanvasHeight(r: TerminalRenderer, buffer: seq<seq<Cell>>): int {
    |buffer| * r.charHeight + 2 * r.padding + ChromeOffset(r)
  }

  /** `render`: the placeholder for an empty grid; otherwise a canvas sized by the first
      row and the row count, the chrome, then every cell in row-major order. */
  function Rendered(r: TerminalRenderer, buffer: seq<seq<Cell>>): (img: Option<Image>)
    ensures img.Some? ==> HexToRgb(r.theme.background) == Some(img.value.background)
    ensures HexToRgb(r.theme.background).None? ==> img.None?
    ensures EmptyGrid(buffer) ==>
              img == if HexToRgb(r.theme.background).Some?
                     then Some(Image(100, 100, HexToRgb(r.theme.background).value, []))
                     else None
    ensures !EmptyGrid(buffer) && HexToRgb(r.theme.background).Some? ==>
              (img.Some? <==> ConcatAll(RowParts(r, buffer)).Some?)
    ensures !EmptyGrid(buffer) && img.Some? ==>
              img.value.width == CanvasWidth(r, buffer) && img.value.height == CanvasHeight(r, buffer) &&
              img.value.commands ==
                (if r.showChrome then ChromeCommands(img.value.background, r.padding, img.value.width) else []) +
                ConcatAll(RowParts(r, buffer)).value
  {
    match HexToRgb(r.theme.background)
    case None => None
    case Some(bg) =>
      if EmptyGrid(buffer) then Some(Image(PlaceholderSize, PlaceholderSize, bg, []))
      else
        var width := CanvasWidth(r, buffer);
        var chrome := if r.showChrome then ChromeCommands(bg, r.padding, width) else [];
        match ConcatAll(RowParts(r, buffer))
        case None => None
        case Some(cells) => Some(Image(width, CanvasHeight(r, buffer), bg, chrome + cells))
  }

  /** One pass of `render`'s outer loop: the cells of row `rowIdx`, left to right. */
  method PaintRow(r: TerminalRenderer, row: seq<Cell>, rowIdx: int) returns (cmds: Option<seq<DrawCmd>>)
    ensures cmds == ConcatAll(CellParts(r, row, rowIdx))
  {
    var xOffset := r.padding;
    var y := r.padding + ChromeOffset(r) + rowIdx * r.charHeight;
    ghost var cellParts := CellParts(r, row, rowIdx);
    var out: seq<DrawCmd> := [];
    var colIdx := 0;
    while colIdx < |row|
      invariant 0 <= colIdx <= |row|
      invariant ConcatAll(cellParts[..colIdx]) == Some(out)
    {
      var x := xOffset + colIdx * r.charWidth;
      var cellCmds := PaintCell(r, row[colIdx], x, y);
      assert x == CellX(r, colIdx) && y == CellY(r, rowIdx);
      assert cellParts[colIdx] == cellCmds;
      ConcatAllSnoc(cellParts, colIdx);
      if cellCmds.None? {
        ConcatAllFails(cellParts);
        return None;
      }
      out := out + cellCmds.value;
      colIdx := colIdx + 1;
    }
    assert cellParts[..|row|] == cellParts;
    cmds := Some(out);
  }

  /** `render`'s outer loop: the rows top to bottom. */
  method PaintRows(r: TerminalRenderer, buffer: seq<seq<Cell>>) returns (cmds: Option<seq<DrawCmd>>)
    ensures cmds == ConcatAll(RowParts(r, buffer))
  {
    ghost var rowParts := RowParts(r, buffer);
    var out: seq<DrawCmd> := [];
    var rowIdx := 0;
    while rowIdx < |buffer|
      invariant 0 <= rowIdx <= |buffer|
      invariant ConcatAll(rowParts[..rowIdx]) == Some(out)
    {
      var rowCmds := PaintRow(r, buffer[rowIdx], rowIdx);
      assert rowParts[rowIdx] == rowCmds;
      ConcatAllSnoc(rowParts, rowIdx);
      if rowCmds.None? {
        ConcatAllFails(rowParts);
        return None;
      }
      out := out + rowCmds.value;
      rowIdx := rowIdx + 1;
    }
    assert rowParts[..|buffer|] == rowParts;
    cmds := Some(out);
  }

  /** `render`: the result is `Rendered`. */
  method Render(r: TerminalRenderer, buffer: seq<seq<Cell>>) returns (img: Option<Image>)
    ensures img == Rendered(r, buffer)
  {
    var bg := HexToRgb(r.theme.background);
    if |buffer| == 0 || |buffer[0]| == 0 {
      if bg.None? {
        return None;
      }
      return Some(Image(PlaceholderSize, PlaceholderSize, bg.value, []));
    }
    var rows := |buffer|;
    var cols := |buffer[0]|;
    var contentWidth := cols * r.charWidth;
    var contentHeight := rows * r.charHeight;
    var chromeHeight := if r.showChrome then ChromeHeight else 0;
    var imgWidth := contentWidth + 2 * r.padding;
    var imgHeight := contentHeight + 2 * r.padding + chromeHeight;
    assert imgWidth == CanvasWidth(r, buffer) && imgHeight == CanvasHeight(r, buffer);
    if bg.None? {
      return None;
    }
    var commands: seq<DrawCmd> := [];
    if r.showChrome {
      var chrome, _ := DrawWindowChrome(r, imgWidth);
      commands := chrome.value;
    }
    var cells := PaintRows(r, buffer);
    if cells.None? {
      return None;
    }
    img := Some(Image(imgWidth, imgHeight, bg.value, commands + cells.value));
  }

  /** On a rectangular grid every cell box lies inside the canvas, within the padding and below the chrome. */
  lemma CellInsideCanvas(r: TerminalRenderer, buffer: seq<seq<Cell>>, i: int, j: int)
    requires ValidRenderer(r) && r.padding >= 0
    requires !EmptyGrid(buffer)
    requires forall k :: 0 <= k < |buffer| ==> |buffer[k]| == |buffer[0]|
    requires 0 <= i < |buffer| && 0 <= j < |buffer[i]|
    ensures r.padding <= CellX(r, j) && CellX(r, j) + r.charWidth <= CanvasWidth(r, buffer) - r.padding
    ensures r.padding + ChromeOffset(r) <= CellY(r, i) && CellY(r, i) + r.charHeight <= CanvasHeight(r, buffer) - r.padding
  {
    var cols := |buffer[0]|;
    assert j + 1 <= cols;
    assert (j + 1) * r.charWidth <= cols * r.charWidth;
    assert (i + 1) * r.charHeight <= |buffer| * r.charHeight;
  }
}

/** The terminal grid as the renderer sees it (termshot/emulator.py). The escape-sequence
    interpreter behind it (pyte) is not part of this model: the emulator keeps only the
    log of chunks it was fed, and a screen snapshot is an input. */
module Emulator {
  import opened Strings

  /** A colour as `_convert_color` hands it on: a string (name or hex) or a palette index. */
  datatype ColorValue = Name(name: string) | Index(index: int)

  /** The `Cell` dataclass. */
  datatype Cell = Cell(
    ch: string,
    fg: ColorValue,
    bg: ColorValue,
    bold: bool,
    italic: bool,
    underline: bool,
    strikethrough: bool,
    reverse: bool)

  /** One character of the interpreter's screen buffer, with its attribute names. */
  datatype ScreenChar = ScreenChar(
    data: string,
    fg: string,
    bg: string,
    bold: bool,
    italics: bool,
    underscore: bool,
    strikethrough: bool,
    reverse: bool)

  /** What the screen buffer holds where nothing was written. */
  const BlankChar := ScreenChar(" ", "default", "default", false, false, false, false, false)

  /** A screen snapshot: lines of characters, missing positions read as `BlankChar`. */
  type Screen = seq<seq<ScreenChar>>

  function CharAt(screen: Screen, y: nat, x: nat): ScreenChar {
    if y < |screen| && x < |screen[y]| then screen[y][x] else BlankChar
  }

  // ---------------------------------------------------------------- colour names

  /** The named-colour table of `_convert_color`. */
  const ColorNames: map<string, int> := map[
    "black" := 0, "red" := 1, "green" := 2, "yellow" := 3, "brown" := 3,
    "blue" := 4, "magenta" := 5, "cyan" := 6, "white" := 7,
    "brightblack" := 8, "brightred" := 9, "brightgreen" := 10, "brightyellow" := 11,
    "brightblue" := 12, "brightmagenta" := 13, "brightcyan" := 14, "brightwhite" := 15]

  /** Every named colour is one of the 16 palette indices; brown is yellow. */
  lemma ColorNamesInPalette()
    ensures forall k :: k in ColorNames ==> 0 <= ColorNames[k] < 16
    ensures ColorNames["brown"] == ColorNames["yellow"] == 3
  {
  }

  /** Removes spaces and underscores. */
  function Squeeze(s: string): (r: string)
    ensures |r| <= |s|
    ensures ' ' !in r && '_' !in r
    ensures forall c :: c in r ==> c in s
    decreases |s|
  {
    if s == [] then []
    else if s[0] == ' ' || s[0] == '_' then Squeeze(s[1..])
    else [s[0]] + Squeeze(s[1..])
  }

  /** Removing spaces and underscores works piece by piece. */
  lemma {:induction false} SqueezeAppend(a: string, b: string)
    ensures Squeeze(a + b) == Squeeze(a) + Squeeze(b)
    decreases |a|
  {
    if a == [] {
      assert a + b == b;
    } else {
      assert (a + b)[0] == a[0];
      assert (a + b)[1..] == a[1..] + b;
      SqueezeAppend(a[1..], b);
    }
  }

  /** A space or an underscore anywhere is dropped. */
  lemma SqueezeDrops(a: string, c: char, b: string)
    requires c == ' ' || c == '_'
    ensures Squeeze(a + [c] + b) == Squeeze(a + b)
  {
    SqueezeAppend(a + [c], b);
    SqueezeAppend(a, [c]);
    SqueezeAppend(a, b);
  }

  /** Every other character is kept, in its place among the rest. */
  lemma SqueezeKeepsOthers(a: string, c: char, b: string)
    requires c != ' ' && c != '_'
    ensures Squeeze(a + [c] + b) == Squeeze(a) + [c] + Squeeze(b)
  {
    SqueezeAppend(a + [c], b);
    SqueezeAppend(a, [c]);
    assert [c][1..] == [];
  }

  /** `color.lower().replace(" ", "").replace("_", "")`. */
  function NormalizeColorName(s: string): (r: string)
    ensures ' ' !in r && '_' !in r
    ensures forall c :: c in r ==> !IsAsciiUpper(c)
  {
    Squeeze(Lower(s))
  }

  lemma {:induction false} SqueezeKeeps(s: string)
    requires ' ' !in s && '_' !in s
    ensures Squeeze(s) == s
    decreases |s|
  {
    if s != [] {
      SqueezeKeeps(s[1..]);
      assert [s[0]] + s[1..] == s;
    }
  }

  lemma {:induction false} LowerKeeps(s: string)
    requires forall c :: c in s ==> !IsAsciiUpper(c)
    ensures Lower(s) == s
  {
  }

  /** Normalising a normalised name changes nothing. */
  lemma NormalizeIdempotent(s: string)
    ensures NormalizeColorName(NormalizeColorName(s)) == NormalizeColorName(s)
  {
    var n := NormalizeColorName(s);
    LowerKeeps(n);
    SqueezeKeeps(n);
  }

  /** A space or an underscore anywhere in a name does not change its normal form. */
  lemma NormalizeIgnoresSeparators(a: string, c: char, b: string)
    requires c == ' ' || c == '_'
    ensures NormalizeColorName(a + [c] + b) == NormalizeColorName(a + b)
  {
    LowerAppend(a + [c], b);
    LowerAppend(a, [c]);
    LowerAppend(a, b);
    assert Lower([c]) == [c];
    SqueezeDrops(Lower(a), c, Lower(b));
  }

  /** Names that differ only in letter case have the same normal form. */
  lemma NormalizeIgnoresCase(a: string, b: string)
    requires Lower(a) == Lower(b)
    ensures NormalizeColorName(a) == NormalizeColorName(b)
  {
  }

  /** `_convert_color`: the default marker, a named colour, a decimal index, or the string itself. */
  function ConvertColor(color: string, default: string): (r: ColorValue)
    ensures color == "default" ==> r == Name(default)
    ensures color != "default" && NormalizeColorName(color) in ColorNames ==>
              r == Index(ColorNames[NormalizeColorName(color)]) && 0 <= r.index < 16
    ensures color != "default" && NormalizeColorName(color) !in ColorNames && IsDigitString(color) ==>
              r == Index(ParseDecimal(color)) && r.index >= 0
    ensures color != "default" && NormalizeColorName(color) !in ColorNames && !IsDigitString(color) ==>
              r == Name(color)
  {
    if color == "default" then Name(default)
    else
      var key := NormalizeColorName(color);
      if key in ColorNames then
        ColorNamesInPalette();
        Index(ColorNames[key])
      else if IsDigitString(color) then Index(ParseDecimal(color))
      else Name(color)
  }

  /** Two spellings of a colour name that differ only in case, spaces or underscores
      convert to the same palette index. */
  lemma ConvertColorIgnoresSpelling(a: string, b: string, default: string)
    requires a != "default" && b != "default"
    requires NormalizeColorName(a) == NormalizeColorName(b)
    requires NormalizeColorName(a) in ColorNames
    ensures ConvertColor(a, default) == ConvertColor(b, default)
    ensures ConvertColor(a, default).Index?
  {
  }

  /** Inserting a space or an underscore into a colour name still gives its palette index. */
  lemma ConvertColorIgnoresSeparator(a: string, c: char, b: string, default: string)
    requires c == ' ' || c == '_'
    requires NormalizeColorName(a + b) in ColorNames
    ensures ConvertColor(a + [c] + b, default) == ConvertColor(a + b, default)
    ensures ConvertColor(a + b, default) == Index(ColorNames[NormalizeColorName(a + b)])
  {
    NormalizeIgnoresSeparators(a, c, b);
    NamedIsNotDefault(a + b);
    NamedIsNotDefault(a + [c] + b);
  }

  /** A string that normalises to a colour name is not the default marker. */
  lemma NamedIsNotDefault(s: string)
    requires NormalizeColorName(s) in ColorNames
    ensures s != "default"
  {
    if s == "default" {
      LowerKeeps("default");
      SqueezeKeeps("default");
      DefaultNotAColorName();
    }
  }

  /** An example spelling: mixed case, an underscore and a trailing space. */
  lemma BrightRedSpelling()
    ensures NormalizeColorName("Bright_Red ") == "brightred"
    ensures ConvertColor("Bright_Red ", "default") == Index(9)
  {
    BrightRedNormal();
    BrightRedIndex();
    assert "Bright_Red "[6] == '_';
    assert "Bright_Red " != "default";
  }

  lemma BrightRedNormal()
    ensures NormalizeColorName("Bright_Red ") == "brightred"
  {
    BrightRedPieces();
    NormalizeIgnoresSeparators("Bright", '_', "Red ");
    NormalizeIgnoresSeparators("BrightRed", ' ', "");
    BrightRedLower();
    SqueezeKeeps("brightred");
  }

  lemma BrightRedIndex()
    ensures "brightred" in ColorNames && ColorNames["brightred"] == 9
  {
  }

  lemma BrightRedPieces()
    ensures "Bright" + ['_'] + "Red " == "Bright_Red "
    ensures "Bright" + "Red " == "BrightRed" + [' '] + ""
    ensures "BrightRed" + "" == "BrightRed"
  {
  }

  lemma BrightRedLower()
    ensures Lower("BrightRed") == "brightred"
  {
    var l := Lower("BrightRed");
    assert l[0] == 'b' && l[1] == 'r' && l[2] == 'i' && l[3] == 'g' && l[4] == 'h';
    assert l[5] == 't' && l[6] == 'r' && l[7] == 'e' && l[8] == 'd';
  }

  predicate LowerAlpha(s: string) {
    forall i :: 0 <= i < |s| ==> 'a' <= s[i] <= 'z'
  }

  /** The table's keys are plain lower-case words. */
  lemma ColorNameKeysPlain()
    ensures forall k :: k in ColorNames ==> LowerAlpha(k)
  {
    BasicNamesPlain();
    BrightNamesPlain();
  }

  lemma BasicNamesPlain()
    ensures LowerAlpha("black") && LowerAlpha("red") && LowerAlpha("green") && LowerAlpha("yellow")
    ensures LowerAlpha("brown") && LowerAlpha("blue") && LowerAlpha("magenta") && LowerAlpha("cyan")
    ensures LowerAlpha("white")
  {
  }

  lemma BrightNamesPlain()
    ensures LowerAlpha("brightblack") && LowerAlpha("brightred") && LowerAlpha("brightgreen")
    ensures LowerAlpha("brightyellow") && LowerAlpha("brightblue") && LowerAlpha("brightmagenta")
    ensures LowerAlpha("brightcyan") && LowerAlpha("brightwhite")
  {
  }

  lemma DefaultNotAColorName()
    ensures "default" !in ColorNames
  {
  }

  /** Every key of the table is already in normal form, so each name is reachable. */
  lemma ColorNamesNormalized(k: string)
    requires k in ColorNames
    ensures NormalizeColorName(k) == k
    ensures ConvertColor(k, "default") == Index(ColorNames[k])
  {
    ColorNameKeysPlain();
    DefaultNotAColorName();
    assert forall c :: c in k ==> !IsAsciiUpper(c) && c != ' ' && c != '_';
    LowerKeeps(k);
    SqueezeKeeps(k);
  }

  // ---------------------------------------------------------------- the grid

  /** One screen character as a `Cell`: blank data becomes a space, colours are converted
      with "default" as the default, attribute flags are copied one to one. */
  function ToCell(c: ScreenChar): (cell: Cell)
    ensures cell.ch == (if c.data == "" then " " else c.data)
    ensures cell.ch != ""
    ensures cell.fg == ConvertColor(c.fg, "default") && cell.bg == ConvertColor(c.bg, "default")
    ensures cell.bold == c.bold && cell.italic == c.italics && cell.underline == c.underscore
    ensures cell.strikethrough == c.strikethrough && cell.reverse == c.reverse
  {
    Cell(if c.data != "" then c.data else " ",
         ConvertColor(c.fg, "default"), ConvertColor(c.bg, "default"),
         c.bold, c.italics, c.underscore, c.strikethrough, c.reverse)
  }

  /** The grid `get_buffer` builds: exactly rows x cols cells, each converted from its screen position. */
  function Snapshot(screen: Screen, rows: nat, cols: nat): (buffer: seq<seq<Cell>>)
    ensures |buffer| == rows
    ensures forall y :: 0 <= y < rows ==> |buffer[y]| == cols
    ensures forall y, x :: 0 <= y < rows && 0 <= x < cols ==> buffer[y][x] == ToCell(CharAt(screen, y, x))
  {
    seq(rows, y requires 0 <= y < rows => seq(cols, x requires 0 <= x < cols => ToCell(CharAt(screen, y, x))))
  }

  /** The `TerminalEmulator`: a fixed-size terminal and the chunks fed to it since the last reset. */
  class TerminalEmulator {
    const rows: nat
    const cols: nat
    /** The byte chunks fed since the last reset, in order. */
    ghost var fed: seq<seq<byte>>

    constructor(rows: nat, cols: nat)
      ensures this.rows == rows && this.cols == cols
      ensures fed == []
    {
      this.rows := rows;
      this.cols := cols;
      fed := [];
    }

    /** `feed`: hands one chunk to the interpreter. */
    method Feed(data: seq<byte>)
      modifies this
      ensures fed == old(fed) + [data]
    {
      fed := fed + [data];
    }

    /** `reset`: the interpreter returns to a blank screen. */
    method Reset()
      modifies this
      ensures fed == []
    {
      fed := [];
    }

    /** `get_buffer`: row by row, cell by cell, over the given screen snapshot. */
    method GetBuffer(screen: Screen) returns (buffer: seq<seq<Cell>>)
      ensures buffer == Snapshot(screen, rows, cols)
    {
      buffer := [];
      var y := 0;
      while y < rows
        invariant 0 <= y <= rows
        invariant |buffer| == y
        invariant forall i :: 0 <= i < y ==> buffer[i] == Snapshot(screen, rows, cols)[i]
      {
        var row := GetRow(screen, y);
        buffer := buffer + [row];
        y := y + 1;
      }
    }

    /** The inner loop of `get_buffer`: the cells of line `y`. */
    method GetRow(screen: Screen, y: nat) returns (row: seq<Cell>)
      requires y < rows
      ensures row == Snapshot(screen, rows, cols)[y]
    {
      row := [];
      var x := 0;
      while x < cols
        invariant 0 <= x <= cols
        invariant |row| == x
        invariant forall j :: 0 <= j < x ==> row[j] == ToCell(CharAt(screen, y, j))
      {
        row := row + [ToCell(CharAt(screen, y, x))];
        x := x + 1;
      }
    }
  }
}

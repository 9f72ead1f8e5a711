/** Colour themes: the `Theme` record, its two colour helpers and the registry of
    built-in themes (termshot/themes.py). */
module Themes {
  import opened Wrappers
  import opened Strings

  /** An RGB triple as `hex_to_rgb` returns it. Channels are Python ints: a
      well-formed `#rrggbb` gives 0..255, a signed pair such as `-f` a negative one. */
  datatype RGB = RGB(r: int, g: int, b: int)

  /** The `Theme` dataclass: colours are hex strings, `palette` the 16 ANSI colours. */
  datatype Theme = Theme(name: string, background: string, foreground: string, cursor: string, palette: seq<string>)

  /** `Theme.get_color`: the palette entry when the index is in range, the foreground otherwise. */
  function GetColor(t: Theme, index: int): (hex: string)
    ensures 0 <= index < |t.palette| ==> hex == t.palette[index]
    ensures index < 0 || |t.palette| <= index ==> hex == t.foreground
  {
    if 0 <= index < |t.palette| then t.palette[index] else t.foreground
  }

  // ---------------------------------------------------------------- hex decoding

  predicate IsHexDigit(c: char) {
    '0' <= c <= '9' || 'a' <= c <= 'f' || 'A' <= c <= 'F'
  }

  function HexDigitValue(c: char): (v: nat)
    requires IsHexDigit(c)
    ensures v < 16
  {
    if '0' <= c <= '9' then c as int - '0' as int
    else if 'a' <= c <= 'f' then c as int - 'a' as int + 10
    else c as int - 'A' as int + 10
  }

  /** The value of a two-digit hex pair. */
  function PairValue(hi: char, lo: char): (v: nat)
    requires IsHexDigit(hi) && IsHexDigit(lo)
    ensures v <= 255
  {
    16 * HexDigitValue(hi) + HexDigitValue(lo)
  }

  /** `#rrggbb`: a hash followed by exactly six hex digits. */
  predicate WellFormedHex(s: string) {
    |s| == 7 && s[0] == '#' &&
    IsHexDigit(s[1]) && IsHexDigit(s[2]) && IsHexDigit(s[3]) &&
    IsHexDigit(s[4]) && IsHexDigit(s[5]) && IsHexDigit(s[6])
  }

  /** The ASCII characters Python's `int()` strips around its argument. */
  predicate IsIntSpace(c: char) {
    c == ' ' || 9 <= c as int <= 13 || 28 <= c as int <= 31
  }

  /** The number of leading `#` characters of `s`. */
  function LeadingHashes(s: string): (n: nat)
    ensures n <= |s|
    ensures forall i :: 0 <= i < n ==> s[i] == '#'
    ensures n == |s| || s[n] != '#'
    decreases |s|
  {
    if s != [] && s[0] == '#' then 1 + LeadingHashes(s[1..]) else 0
  }

  /** `str.lstrip('#')`: drops every leading `#`. */
  function StripHashes(s: string): (r: string)
    ensures r == [] || r[0] != '#'
    ensures r == s[LeadingHashes(s)..]
  {
    s[LeadingHashes(s)..]
  }

  /** Python slice `s[i:j]` for 0 <= i <= j: clamped to the string. */
  function Slice(s: string, i: nat, j: nat): (r: string)
    requires i <= j
    ensures |r| <= j - i
  {
    var lo := if i < |s| then i else |s|;
    var hi := if j < |s| then j else |s|;
    s[lo..hi]
  }

  /** Every character of `t` outside `t[i..j]` is whitespace `int()` ignores. */
  predicate SpaceAround(t: string, i: nat, j: nat)
    requires i <= j <= |t|
  {
    (forall k :: 0 <= k < i ==> IsIntSpace(t[k])) && (forall k :: j <= k < |t| ==> IsIntSpace(t[k]))
  }

  /** The whitespace `int()` ignores around its argument, removed from both ends: the
      result is the piece of `t` between a leading and a trailing run of whitespace, and
      it neither starts nor ends with whitespace, which makes that piece unique. */
  function TrimSpace(t: string): (u: string)
    ensures |u| <= |t|
    ensures u == [] || (!IsIntSpace(u[0]) && !IsIntSpace(u[|u| - 1]))
    ensures (t == [] || (!IsIntSpace(t[0]) && !IsIntSpace(t[|t| - 1]))) ==> u == t
    ensures exists i, j :: 0 <= i <= j <= |t| && u == t[i..j] && SpaceAround(t, i, j)
    decreases |t|
  {
    if t != [] && IsIntSpace(t[0]) then
      var u := TrimSpace(t[1..]);
      AroundFront(t, u);
      u
    else if t != [] && IsIntSpace(t[|t| - 1]) then
      var u := TrimSpace(t[..|t| - 1]);
      AroundBack(t, t[..|t| - 1], u);
      u
    else
      assert SpaceAround(t, 0, |t|);
      t
  }

  /** A piece of `t[1..]` with whitespace around it is one of `t` when `t` starts with
      whitespace. */
  lemma AroundFront(t: string, u: string)
    requires t != [] && IsIntSpace(t[0])
    requires exists i, j :: 0 <= i <= j <= |t| - 1 && u == t[1..][i..j] && SpaceAround(t[1..], i, j)
    ensures exists i, j :: 0 <= i <= j <= |t| && u == t[i..j] && SpaceAround(t, i, j)
  {
    var i, j :| 0 <= i <= j <= |t| - 1 && u == t[1..][i..j] && SpaceAround(t[1..], i, j);
    assert u == t[i + 1..j + 1];
    assert forall k :: 1 <= k < |t| ==> t[k] == t[1..][k - 1];
    assert SpaceAround(t, i + 1, j + 1);
  }

  /** A piece of `t`'s prefix `init` (all but the last character) with whitespace around
      it is one of `t` when `t` ends with whitespace. */
  lemma AroundBack(t: string, init: string, u: string)
    requires t != [] && IsIntSpace(t[|t| - 1]) && init == t[..|t| - 1]
    requires exists i, j :: 0 <= i <= j <= |init| && u == init[i..j] && SpaceAround(init, i, j)
    ensures exists i, j :: 0 <= i <= j <= |t| && u == t[i..j] && SpaceAround(t, i, j)
  {
    var i, j :| 0 <= i <= j <= |init| && u == init[i..j] && SpaceAround(init, i, j);
    assert u == t[i..j];
    assert forall k :: 0 <= k < |init| ==> t[k] == init[k];
    assert SpaceAround(t, i, j);
  }

  /** `int(t, 16)` for the at most two characters one slice of `hex_to_rgb` holds:
      surrounding whitespace is ignored, one sign is allowed, `None` is the ValueError. */
  function ParseHexField(t: string): (v: Option<int>)
    requires |t| <= 2
    ensures v.Some? ==> -15 <= v.value <= 255
    ensures |t| == 2 && IsHexDigit(t[0]) && IsHexDigit(t[1]) ==> v == Some(PairValue(t[0], t[1]))
    ensures t == [] ==> v == None
  {
    var u := TrimSpace(t);
    if |u| == 1 && IsHexDigit(u[0]) then Some(HexDigitValue(u[0]))
    else if |u| == 2 && IsHexDigit(u[0]) && IsHexDigit(u[1]) then Some(PairValue(u[0], u[1]))
    else if |u| == 2 && u[0] == '+' && IsHexDigit(u[1]) then Some(HexDigitValue(u[1]))
    else if |u| == 2 && u[0] == '-' && IsHexDigit(u[1]) then Some(-(HexDigitValue(u[1]) as int))
    else None
  }

  /** A single hex digit beside a space reads as that digit: `int(" f", 16)` is 15. */
  lemma ParseHexFieldPadded()
    ensures TrimSpace(" f") == "f" && ParseHexField(" f") == Some(15)
    ensures TrimSpace("f\t") == "f" && ParseHexField("f\t") == Some(15)
  {
  }

  /** `Theme.hex_to_rgb`: strip leading hashes, then read the slices [0:2], [2:4], [4:6]
      as base-16 integers; `None` when one of them is not a number (ValueError). */
  function HexToRgb(hex: string): (rgb: Option<RGB>)
    ensures WellFormedHex(hex) ==>
              rgb == Some(RGB(PairValue(hex[1], hex[2]), PairValue(hex[3], hex[4]), PairValue(hex[5], hex[6])))
    ensures rgb.Some? ==> -15 <= rgb.value.r <= 255 && -15 <= rgb.value.g <= 255 && -15 <= rgb.value.b <= 255
  {
    var h := StripHashes(hex);
    if WellFormedHex(hex) then
      assert h == hex[1..];
      assert Slice(h, 0, 2) == hex[1..3] && Slice(h, 2, 4) == hex[3..5] && Slice(h, 4, 6) == hex[5..7];
      Decode(h)
    else
      Decode(h)
  }

  function Decode(h: string): Option<RGB> {
    match (ParseHexField(Slice(h, 0, 2)), ParseHexField(Slice(h, 2, 4)), ParseHexField(Slice(h, 4, 6)))
    case (Some(r), Some(g), Some(b)) => Some(RGB(r, g, b))
    case _ => None
  }

  /** Leading hashes are stripped, so one more makes no difference. */
  lemma HashIgnored(s: string)
    ensures HexToRgb("#" + s) == HexToRgb(s)
  {
    assert ("#" + s)[1..] == s;
  }

  // ---------------------------------------------------------------- built-in themes

  const DefaultTheme := Theme("default", "#1e1e1e", "#d4d4d4", "#ffffff",
    ["#000000", "#cd3131", "#0dbc79", "#e5e510", "#2472c8", "#bc3fbc", "#11a8cd", "#e5e5e5",
     "#666666", "#f14c4c", "#23d18b", "#f5f543", "#3b8eea", "#d670d6", "#29b8db", "#ffffff"])

  const DraculaTheme := Theme("dracula", "#282a36", "#f8f8f2", "#f8f8f2",
    ["#21222c", "#ff5555", "#50fa7b", "#f1fa8c", "#bd93f9", "#ff79c6", "#8be9fd", "#f8f8f2",
     "#6272a4", "#ff6e6e", "#69ff94", "#ffffa5", "#d6acff", "#ff92df", "#a4ffff", "#ffffff"])

  const MonokaiTheme := Theme("monokai", "#272822", "#f8f8f2", "#f8f8f0",
    ["#272822", "#f92672", "#a6e22e", "#f4bf75", "#66d9ef", "#ae81ff", "#a1efe4", "#f8f8f2",
     "#75715e", "#f92672", "#a6e22e", "#f4bf75", "#66d9ef", "#ae81ff", "#a1efe4", "#f9f8f5"])

  const NordTheme := Theme("nord", "#2e3440", "#d8dee9", "#d8dee9",
    ["#3b4252", "#bf616a", "#a3be8c", "#ebcb8b", "#81a1c1", "#b48ead", "#88c0d0", "#e5e9f0",
     "#4c566a", "#bf616a", "#a3be8c", "#ebcb8b", "#81a1c1", "#b48ead", "#8fbcbb", "#eceff4"])

  /** The `THEMES` registry. */
  const Registry: map<string, Theme> :=
    map["default" := DefaultTheme, "dracula" := DraculaTheme, "monokai" := MonokaiTheme, "nord" := NordTheme]

  /** Every colour of the theme is a `#rrggbb` string and the palette has the 16 ANSI colours. */
  predicate WellFormedTheme(t: Theme) {
    WellFormedHex(t.background) && WellFormedHex(t.foreground) && WellFormedHex(t.cursor) &&
    |t.palette| == 16 && forall i :: 0 <= i < 16 ==> WellFormedHex(t.palette[i])
  }

  /** `get_theme`: case-insensitive registry lookup, the default theme for unknown names. */
  function GetTheme(name: string): (t: Theme)
    ensures Lower(name) in Registry ==> t == Registry[Lower(name)] && t.name == Lower(name)
    ensures Lower(name) !in Registry ==> t == DefaultTheme
    ensures t in Registry.Values
  {
    RegistryNamesMatch();
    var key := Lower(name);
    if key in Registry then Registry[key] else assert Registry["default"] == DefaultTheme; DefaultTheme
  }

  /** Each registry key is the name of the theme it maps to. */
  lemma RegistryNamesMatch()
    ensures forall k :: k in Registry ==> Registry[k].name == k
  {
  }

  /** Every built-in theme is well formed, so `get_color` on 0..15 never falls back. */
  lemma BuiltinThemesWellFormed()
    ensures forall k :: k in Registry ==> WellFormedTheme(Registry[k])
  {
    DefaultThemeWellFormed();
    DraculaThemeWellFormed();
    MonokaiThemeWellFormed();
    NordThemeWellFormed();
  }

  lemma DefaultThemeWellFormed()
    ensures WellFormedTheme(DefaultTheme)
  {
    DefaultPaletteWellFormed();
    assert WellFormedHex(DefaultTheme.background);
    assert WellFormedHex(DefaultTheme.foreground);
    assert WellFormedHex(DefaultTheme.cursor);
  }

  lemma DefaultPaletteWellFormed()
    ensures |DefaultTheme.palette| == 16
    ensures forall i :: 0 <= i < 16 ==> WellFormedHex(DefaultTheme.palette[i])
  {
    DefaultPaletteA();
    DefaultPaletteB();
    DefaultPaletteC();
    DefaultPaletteD();
  }

  lemma DefaultPaletteA()
    ensures |DefaultTheme.palette| == 16
    ensures forall i :: 0 <= i < 4 ==> WellFormedHex(DefaultTheme.palette[i])
  {
    var p := DefaultTheme.palette;
    assert WellFormedHex(p[0]);
    assert WellFormedHex(p[1]);
    assert WellFormedHex(p[2]);
    assert WellFormedHex(p[3]);
  }

  lemma DefaultPaletteB()
    ensures |DefaultTheme.palette| == 16
    ensures forall i :: 4 <= i < 8 ==> WellFormedHex(DefaultTheme.palette[i])
  {
    var p := DefaultTheme.palette;
    assert WellFormedHex(p[4]);
    assert WellFormedHex(p[5]);
    assert WellFormedHex(p[6]);
    assert WellFormedHex(p[7]);
  }

  lemma DefaultPaletteC()
    ensures |DefaultTheme.palette| == 16
    ensures forall i :: 8 <= i < 12 ==> WellFormedHex(DefaultTheme.palette[i])
  {
    var p := DefaultTheme.palette;
    assert WellFormedHex(p[8]);
    assert WellFormedHex(p[9]);
    assert WellFormedHex(p[10]);
    assert WellFormedHex(p[11]);
  }

  lemma DefaultPaletteD()
    ensures |DefaultTheme.palette| == 16
    ensures forall i :: 12 <= i < 16 ==> WellFormedHex(DefaultTheme.palette[i])
  {
    var p := DefaultTheme.palette;
    assert WellFormedHex(p[12]);
    assert WellFormedHex(p[13]);
    assert WellFormedHex(p[14]);
    assert WellFormedHex(p[15]);
  }

  lemma DraculaThemeWellFormed()
    ensures WellFormedTheme(DraculaTheme)
  {
    DraculaPaletteWellFormed();
    assert WellFormedHex(DraculaTheme.background);
    assert WellFormedHex(DraculaTheme.foreground);
    assert WellFormedHex(DraculaTheme.cursor);
  }

  lemma DraculaPaletteWellFormed()
    ensures |DraculaTheme.palette| == 16
    ensures forall i :: 0 <= i < 16 ==> WellFormedHex(DraculaTheme.palette[i])
  {
    DraculaPaletteA();
    DraculaPaletteB();
    DraculaPaletteC();
    DraculaPaletteD();
  }

  lemma DraculaPaletteA()
    ensures |DraculaTheme.palette| == 16
    ensures forall i :: 0 <= i < 4 ==> WellFormedHex(DraculaTheme.palette[i])
  {
    var p := DraculaTheme.palette;
    assert WellFormedHex(p[0]);
    assert WellFormedHex(p[1]);
    assert WellFormedHex(p[2]);
    assert WellFormedHex(p[3]);
  }

  lemma DraculaPaletteB()
    ensures |DraculaTheme.palette| == 16
    ensures forall i :: 4 <= i < 8 ==> WellFormedHex(DraculaTheme.palette[i])
  {
    var p := DraculaTheme.palette;
    assert WellFormedHex(p[4]);
    assert WellFormedHex(p[5]);
    assert WellFormedHex(p[6]);
    assert WellFormedHex(p[7]);
  }

  lemma DraculaPaletteC()
    ensures |DraculaTheme.palette| == 16
    ensures forall i :: 8 <= i < 12 ==> WellFormedHex(DraculaTheme.palette[i])
  {
    var p := DraculaTheme.palette;
    assert WellFormedHex(p[8]);
    assert WellFormedHex(p[9]);
    assert WellFormedHex(p[10]);
    assert WellFormedHex(p[11]);
  }

  lemma DraculaPaletteD()
    ensures |DraculaTheme.palette| == 16
    ensures forall i :: 12 <= i < 16 ==> WellFormedHex(DraculaTheme.palette[i])
  {
    var p := DraculaTheme.palette;
    assert WellFormedHex(p[12]);
    assert WellFormedHex(p[13]);
    assert WellFormedHex(p[14]);
    assert WellFormedHex(p[15]);
  }

  lemma MonokaiThemeWellFormed()
    ensures WellFormedTheme(MonokaiTheme)
  {
    MonokaiPaletteWellFormed();
    assert WellFormedHex(MonokaiTheme.background);
    assert WellFormedHex(MonokaiTheme.foreground);
    assert WellFormedHex(MonokaiTheme.cursor);
  }

  lemma MonokaiPaletteWellFormed()
    ensures |MonokaiTheme.palette| == 16
    ensures forall i :: 0 <= i < 16 ==> WellFormedHex(MonokaiTheme.palette[i])
  {
    MonokaiPaletteA();
    MonokaiPaletteB();
    MonokaiPaletteC();
    MonokaiPaletteD();
  }

  lemma MonokaiPaletteA()
    ensures |MonokaiTheme.palette| == 16
    ensures forall i :: 0 <= i < 4 ==> WellFormedHex(MonokaiTheme.palette[i])
  {
    var p := MonokaiTheme.palette;
    assert WellFormedHex(p[0]);
    assert WellFormedHex(p[1]);
    assert WellFormedHex(p[2]);
    assert WellFormedHex(p[3]);
  }

  lemma MonokaiPaletteB()
    ensures |MonokaiTheme.palette| == 16
    ensures forall i :: 4 <= i < 8 ==> WellFormedHex(MonokaiTheme.palette[i])
  {
    var p := MonokaiTheme.palette;
    assert WellFormedHex(p[4]);
    assert WellFormedHex(p[5]);
    assert WellFormedHex(p[6]);
    assert WellFormedHex(p[7]);
  }

  lemma MonokaiPaletteC()
    ensures |MonokaiTheme.palette| == 16
    ensures forall i :: 8 <= i < 12 ==> WellFormedHex(MonokaiTheme.palette[i])
  {
    var p := MonokaiTheme.palette;
    assert WellFormedHex(p[8]);
    assert WellFormedHex(p[9]);
    assert WellFormedHex(p[10]);
    assert WellFormedHex(p[11]);
  }

  lemma MonokaiPaletteD()
    ensures |MonokaiTheme.palette| == 16
    ensures forall i :: 12 <= i < 16 ==> WellFormedHex(MonokaiTheme.palette[i])
  {
    var p := MonokaiTheme.palette;
    assert WellFormedHex(p[12]);
    assert WellFormedHex(p[13]);
    assert WellFormedHex(p[14]);
    assert WellFormedHex(p[15]);
  }

  lemma NordThemeWellFormed()
    ensures WellFormedTheme(NordTheme)
  {
    NordPaletteWellFormed();
    assert WellFormedHex(NordTheme.background);
    assert WellFormedHex(NordTheme.foreground);
    assert WellFormedHex(NordTheme.cursor);
  }

  lemma NordPaletteWellFormed()
    ensures |NordTheme.palette| == 16
    ensures forall i :: 0 <= i < 16 ==> WellFormedHex(NordTheme.palette[i])
  {
    NordPaletteA();
    NordPaletteB();
    NordPaletteC();
    NordPaletteD();
  }

  lemma NordPaletteA()
    ensures |NordTheme.palette| == 16
    ensures forall i :: 0 <= i < 4 ==> WellFormedHex(NordTheme.palette[i])
  {
    var p := NordTheme.palette;
    assert WellFormedHex(p[0]);
    assert WellFormedHex(p[1]);
    assert WellFormedHex(p[2]);
    assert WellFormedHex(p[3]);
  }

  lemma NordPaletteB()
    ensures |NordTheme.palette| == 16
    ensures forall i :: 4 <= i < 8 ==> WellFormedHex(NordTheme.palette[i])
  {
    var p := NordTheme.palette;
    assert WellFormedHex(p[4]);
    assert WellFormedHex(p[5]);
    assert WellFormedHex(p[6]);
    assert WellFormedHex(p[7]);
  }

  lemma NordPaletteC()
    ensures |NordTheme.palette| == 16
    ensures forall i :: 8 <= i < 12 ==> WellFormedHex(NordTheme.palette[i])
  {
    var p := NordTheme.palette;
    assert WellFormedHex(p[8]);
    assert WellFormedHex(p[9]);
    assert WellFormedHex(p[10]);
    assert WellFormedHex(p[11]);
  }

  lemma NordPaletteD()
    ensures |NordTheme.palette| == 16
    ensures forall i :: 12 <= i < 16 ==> WellFormedHex(NordTheme.palette[i])
  {
    var p := NordTheme.palette;
    assert WellFormedHex(p[12]);
    assert WellFormedHex(p[13]);
    assert WellFormedHex(p[14]);
    assert WellFormedHex(p[15]);
  }

  /** Names that differ only in ASCII case select the same theme. */
  lemma GetThemeIgnoresCase(a: string, b: string)
    requires Lower(a) == Lower(b)
    ensures GetTheme(a) == GetTheme(b)
  {
  }

  /** A theme from `get_theme` resolves every palette index 0..15 to its own entry. */
  lemma GetThemePaletteTotal(name: string, i: int)
    requires 0 <= i < 16
    ensures WellFormedHex(GetColor(GetTheme(name), i))
    ensures GetColor(GetTheme(name), i) == GetTheme(name).palette[i]
  {
    BuiltinThemesWellFormed();
  }
}

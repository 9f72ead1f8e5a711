/** Text and byte helpers that stand for the Python built-ins the core uses:
    `str.lower`, `str.isdigit`/`int`, `str`, `str.join`, `str.encode("utf-8")` and `bytes.decode("utf-8")`. */
module Strings {
  import opened Wrappers

  /** One byte of a Python `bytes` object. */
  type byte = b: int | 0 <= b < 256

  // ---------------------------------------------------------------- case

  predicate IsAsciiUpper(c: char) { 'A' <= c <= 'Z' }

  /** `str.lower` on one character (ASCII letters only). */
  function LowerChar(c: char): (r: char)
    ensures !IsAsciiUpper(r)
    ensures IsAsciiUpper(c) ==> r as int == c as int + 32
    ensures !IsAsciiUpper(c) ==> r == c
  {
    if IsAsciiUpper(c) then (c as int + 32) as char else c
  }

  /** `str.lower`, character by character. */
  function Lower(s: string): (r: string)
    ensures |r| == |s|
    ensures forall i :: 0 <= i < |s| ==> r[i] == LowerChar(s[i])
  {
    seq(|s|, i requires 0 <= i < |s| => LowerChar(s[i]))
  }

  /** Lower-casing twice is lower-casing once. */
  lemma LowerIdempotent(s: string)
    ensures Lower(Lower(s)) == Lower(s)
  {
  }

  /** Lower-casing works piece by piece. */
  lemma LowerAppend(a: string, b: string)
    ensures Lower(a + b) == Lower(a) + Lower(b)
  {
    assert forall i :: 0 <= i < |a + b| ==> Lower(a + b)[i] == (Lower(a) + Lower(b))[i];
  }

  // ---------------------------------------------------------------- decimal numbers

  predicate IsDigit(c: char) { '0' <= c <= '9' }

  /** `str.isdigit` on an ASCII string: non-empty and all digits. */
  predicate IsDigitString(s: string) {
    |s| > 0 && forall i :: 0 <= i < |s| ==> IsDigit(s[i])
  }

  function DigitValue(c: char): (v: nat)
    requires IsDigit(c)
    ensures v < 10
  {
    c as int - '0' as int
  }

  function DigitChar(d: nat): (c: char)
    requires d < 10
    ensures IsDigit(c) && DigitValue(c) == d
  {
    ('0' as int + d) as char
  }

  /** `int(s)` for a string of ASCII digits (leading zeros allowed). */
  function ParseDecimal(s: string): (n: nat)
    requires forall i :: 0 <= i < |s| ==> IsDigit(s[i])
    decreases |s|
  {
    if s == [] then 0 else 10 * ParseDecimal(s[..|s| - 1]) + DigitValue(s[|s| - 1])
  }

  /** `str(n)` for a natural number: its shortest decimal spelling. */
  function NatToString(n: nat): (s: string)
    ensures IsDigitString(s)
    ensures |s| > 1 ==> s[0] != '0'
    decreases n
  {
    if n < 10 then [DigitChar(n)] else NatToString(n / 10) + [DigitChar(n % 10)]
  }

  /** Reading back what `str` wrote gives the number again. */
  lemma {:induction false} ParseNatToString(n: nat)
    ensures ParseDecimal(NatToString(n)) == n
    decreases n
  {
    var s := NatToString(n);
    if n >= 10 {
      ParseNatToString(n / 10);
      assert s[..|s| - 1] == NatToString(n / 10);
    }
  }

  // ---------------------------------------------------------------- join and split

  /** `sep.join(parts)` for a one-character separator. */
  function Join(parts: seq<string>, sep: char): (r: string)
    ensures |parts| == 0 ==> r == ""
    ensures |parts| == 1 ==> r == parts[0]
    ensures (forall i :: 0 <= i < |parts| ==> sep !in parts[i]) ==>
              multiset(r)[sep] == if |parts| == 0 then 0 else |parts| - 1
    decreases |parts|
  {
    if |parts| == 0 then ""
    else if |parts| == 1 then parts[0]
    else parts[0] + [sep] + Join(parts[1..], sep)
  }

  /** The pieces of `s` between occurrences of `sep` (Python `s.split(sep)`). */
  function Split(s: string, sep: char): (r: seq<string>)
    ensures |r| >= 1
    decreases |s|
  {
    if s == [] then [""]
    else if s[0] == sep then [""] + Split(s[1..], sep)
    else var rest := Split(s[1..], sep); [[s[0]] + rest[0]] + rest[1..]
  }

  lemma {:induction false} SplitNoSep(p: string, sep: char)
    requires sep !in p
    ensures Split(p, sep) == [p]
    decreases |p|
  {
    if p != [] {
      assert sep !in p[1..];
      SplitNoSep(p[1..], sep);
      assert [p[0]] + p[1..] == p;
    }
  }

  lemma {:induction false} SplitAfterPiece(p: string, sep: char, rest: string)
    requires sep !in p
    ensures Split(p + [sep] + rest, sep) == [p] + Split(rest, sep)
    decreases |p|
  {
    if p == [] {
      assert p + [sep] + rest == [sep] + rest;
      assert ([sep] + rest)[1..] == rest;
    } else {
      var whole := p + [sep] + rest;
      assert whole[0] == p[0] && whole[1..] == p[1..] + [sep] + rest;
      assert sep !in p[1..];
      SplitAfterPiece(p[1..], sep, rest);
      assert [p[0]] + p[1..] == p;
    }
  }

  /** Splitting a joined list gives the list back when no piece holds the separator. */
  lemma {:induction false} SplitJoin(parts: seq<string>, sep: char)
    requires |parts| >= 1
    requires forall i :: 0 <= i < |parts| ==> sep !in parts[i]
    ensures Split(Join(parts, sep), sep) == parts
    decreases |parts|
  {
    if |parts| == 1 {
      SplitNoSep(parts[0], sep);
    } else {
      SplitJoin(parts[1..], sep);
      SplitAfterPiece(parts[0], sep, Join(parts[1..], sep));
      assert [parts[0]] + parts[1..] == parts;
    }
  }

  // ---------------------------------------------------------------- UTF-8

  /** The UTF-8 encoding of one Unicode scalar value. */
  function EncodeChar(c: char): (bs: seq<byte>)
    ensures 1 <= |bs| <= 4
    ensures c as int < 0x80 <==> |bs| == 1
    ensures c as int < 0x80 ==> bs == [c as int]
    ensures |bs| > 1 ==> bs[0] >= 0xC0 && forall k :: 1 <= k < |bs| ==> 0x80 <= bs[k] < 0xC0
    ensures |bs| == 2 <==> 0x80 <= c as int < 0x800
    ensures |bs| == 3 <==> 0x800 <= c as int < 0x10000
    ensures |bs| == 2 ==> bs[0] < 0xE0 && c as int == (bs[0] as int - 0xC0) * 64 + (bs[1] as int - 0x80)
    ensures |bs| == 3 ==>
              0xE0 <= bs[0] < 0xF0 &&
              c as int == (bs[0] as int - 0xE0) * 4096 + (bs[1] as int - 0x80) * 64 + (bs[2] as int - 0x80)
    ensures |bs| == 4 ==>
              0xF0 <= bs[0] < 0xF8 &&
              c as int == (bs[0] as int - 0xF0) * 262144 + (bs[1] as int - 0x80) * 4096
                          + (bs[2] as int - 0x80) * 64 + (bs[3] as int - 0x80)
  {
    var v := c as int;
    SixBits(v);
    SixBits(v / 64);
    SixBits(v / 64 / 64);
    if v < 0x80 then [v]
    else if v < 0x800 then [0xC0 + v / 64, 0x80 + v % 64]
    else if v < 0x10000 then [0xE0 + v / 64 / 64, 0x80 + (v / 64) % 64, 0x80 + v % 64]
    else [0xF0 + v / 64 / 64 / 64, 0x80 + (v / 64 / 64) % 64, 0x80 + (v / 64) % 64, 0x80 + v % 64]
  }

  /** Splitting off the low six bits of a number, as each UTF-8 continuation byte does. */
  lemma SixBits(x: nat)
    ensures x == x / 64 * 64 + x % 64 && x % 64 < 64
    ensures x < 0x110000 ==> x / 64 < 0x4400
    ensures x < 0x4400 ==> x / 64 < 0x110
    ensures x < 0x110 ==> x / 64 < 8
    ensures x < 0x10000 ==> x / 64 < 0x400
    ensures x < 0x400 ==> x / 64 < 16
    ensures x < 0x800 ==> x / 64 < 32
  {
  }

  /** `s.encode("utf-8")`. */
  function EncodeUtf8(s: string): (bs: seq<byte>)
    ensures |bs| >= |s|
    ensures s == [] ==> bs == []
    ensures |s| == 1 ==> bs == EncodeChar(s[0])
    decreases |s|
  {
    if s == [] then [] else EncodeChar(s[0]) + EncodeUtf8(s[1..])
  }

  /** Encoding distributes over concatenation. */
  lemma {:induction false} EncodeUtf8Append(a: string, b: string)
    ensures EncodeUtf8(a + b) == EncodeUtf8(a) + EncodeUtf8(b)
    decreases |a|
  {
    if a != [] {
      assert (a + b)[0] == a[0] && (a + b)[1..] == a[1..] + b;
      EncodeUtf8Append(a[1..], b);
    } else {
      assert a + b == b;
    }
  }

  /** A string of ASCII characters encodes byte for byte. */
  lemma {:induction false} EncodeAscii(s: string)
    requires forall i :: 0 <= i < |s| ==> s[i] as int < 0x80
    ensures |EncodeUtf8(s)| == |s|
    ensures forall i :: 0 <= i < |s| ==> EncodeUtf8(s)[i] == s[i] as int
    decreases |s|
  {
    if s != [] {
      EncodeAscii(s[1..]);
    }
  }

  /** The number of bytes of the UTF-8 sequence that byte `b` starts; 0 when `b` is a
      continuation byte or can never occur. */
  function SequenceLength(b: byte): nat
  {
    if b < 0x80 then 1
    else if b < 0xC0 then 0
    else if b < 0xE0 then 2
    else if b < 0xF0 then 3
    else if b < 0xF8 then 4
    else 0
  }

  predicate IsContinuation(b: byte) { 0x80 <= b < 0xC0 }

  /** The scalar value one complete sequence spells, refused when it is overlong, a
      surrogate or beyond U+10FFFF, as Python's strict decoder refuses it. */
  function DecodeScalar(bs: seq<byte>): (r: Option<char>)
    requires 1 <= |bs| <= 4 && SequenceLength(bs[0]) == |bs|
    ensures r.Some? ==> forall k :: 1 <= k < |bs| ==> IsContinuation(bs[k])
  {
    if exists k :: 1 <= k < |bs| && !IsContinuation(bs[k]) then None
    else
      var v :=
        if |bs| == 1 then bs[0] as int
        else if |bs| == 2 then (bs[0] as int - 0xC0) * 64 + (bs[1] as int - 0x80)
        else if |bs| == 3 then (bs[0] as int - 0xE0) * 4096 + (bs[1] as int - 0x80) * 64 + (bs[2] as int - 0x80)
        else (bs[0] as int - 0xF0) * 262144 + (bs[1] as int - 0x80) * 4096
             + (bs[2] as int - 0x80) * 64 + (bs[3] as int - 0x80);
      var least := if |bs| == 1 then 0 else if |bs| == 2 then 0x80 else if |bs| == 3 then 0x800 else 0x10000;
      if v < least || v >= 0x110000 || 0xD800 <= v < 0xE000 then None
      else Some(v as char)
  }

  /** `bytes.decode("utf-8")` in strict mode: `None` for ill-formed input. */
  function DecodeUtf8(bs: seq<byte>): (r: Option<string>)
    ensures bs == [] ==> r == Some([])
    ensures r.Some? ==> |r.value| <= |bs|
    decreases |bs|
  {
    if bs == [] then Some([])
    else
      var n := SequenceLength(bs[0]);
      if n == 0 || n > |bs| then None
      else match DecodeScalar(bs[..n])
        case None => None
        case Some(c) =>
          match DecodeUtf8(bs[n..])
          case None => None
          case Some(rest) => Some([c] + rest)
  }

  /** Decoding undoes encoding one character at a time. */
  lemma DecodeEncodeChar(c: char, rest: seq<byte>)
    ensures var e := EncodeChar(c);
      SequenceLength(e[0]) == |e| && (e + rest)[..|e|] == e && (e + rest)[|e|..] == rest
      && DecodeScalar(e) == Some(c)
  {
  }

  /** Decoding the encoding of any text gives the text back: what `str.encode("utf-8")`
      produces is well formed, so `decode("utf-8", errors="replace")` replaces nothing. */
  lemma {:induction false} DecodeEncode(s: string)
    ensures DecodeUtf8(EncodeUtf8(s)) == Some(s)
    decreases |s|
  {
    if s != [] {
      var e := EncodeChar(s[0]);
      DecodeEncodeChar(s[0], EncodeUtf8(s[1..]));
      DecodeEncode(s[1..]);
      assert EncodeUtf8(s) == e + EncodeUtf8(s[1..]);
      assert [s[0]] + s[1..] == s;
    }
  }

  /** Two- and three-byte encodings, as RFC 3629 gives them. */
  lemma EncodeExamples()
    ensures EncodeUtf8("\U{e9}") == [0xC3, 0xA9]
    ensures EncodeUtf8("\U{20ac}") == [0xE2, 0x82, 0xAC]
  {
  }

  /** The strict decoder refuses a stray continuation byte, an overlong form and an
      encoded surrogate. */
  lemma DecodeRefusesIllFormed()
    ensures DecodeUtf8([0x80]) == None
    ensures DecodeUtf8([0xC0, 0x80]) == None
    ensures DecodeUtf8([0xED, 0xA0, 0x80]) == None
  {
  }
}

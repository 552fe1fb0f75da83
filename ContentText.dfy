/** Text as it enters a generated content stream: the appended fragments of the
    stream, the escaping of bytes inside a string literal, and the narrowing of
    UTF-16BE field values to Latin-1. */
module ContentText {
  import opened PdfObjects

  /** One fragment appended to a content stream: a number printed with `decimals`
      fractional digits, literal text, or an operator whose operands are printed with
      `decimals` fractional digits and separated by spaces, followed by `op`. */
  datatype Piece = Num(value: real, decimals: nat) | Txt(s: string) | Nums(values: seq<real>, decimals: nat, op: string)

  /** A number printed with the "{0:.4f}" format. */
  function N4(v: real): Piece
  {
    Num(v, 4)
  }

  /** A number printed with the "{0:.2f}" format. */
  function N2(v: real): Piece
  {
    Num(v, 2)
  }

  //----- string-literal escaping

  predicate IsOctalDigit(c: char)
  {
    '0' <= c <= '7'
  }

  function OctalDigit(d: int): (c: char)
    requires 0 <= d < 8
    ensures IsOctalDigit(c) && c as int - '0' as int == d
  {
    ('0' as int + d) as char
  }

  /** True for the bytes written as a three-digit octal escape: control bytes and
      bytes with the high bit set. */
  predicate NeedsOctal(c: Byte)
  {
    c as int < 0x20 || c as int >= 0x80
  }

  /** True for the bytes written with a backslash prefix. */
  predicate NeedsBackslash(c: Byte)
  {
    c == '(' || c == ')' || c == '\\'
  }

  /** How one byte of a string is written inside a "( ... )" literal. */
  function EscapeByte(c: Byte): string
  {
    if NeedsBackslash(c) then ['\\', c]
    else if NeedsOctal(c) then
      ['\\', OctalDigit(c as int / 64), OctalDigit(c as int / 8 % 8), OctalDigit(c as int % 8)]
    else [c]
  }

  /** A string escaped byte by byte. */
  function Escape(s: PdfString): string
  {
    if s == [] then [] else Escape(s[..|s| - 1]) + EscapeByte(s[|s| - 1])
  }

  /** The string-showing operator for `s`: "(" escaped bytes ") Tj". */
  function ShowText(s: PdfString): Piece
  {
    Txt("(" + Escape(s) + ") Tj\n")
  }

  lemma EscapeAppend(s: PdfString, c: Byte)
    ensures Escape(s + [c]) == Escape(s) + EscapeByte(c)
  {
    assert (s + [c])[..|s|] == s;
  }

  lemma {:induction false} EscapeCons(c: Byte, s: PdfString)
    ensures Escape([c] + s) == EscapeByte(c) + Escape(s)
    decreases |s|
  {
    if s == [] {
      assert [c] + s == [] + [c];
      EscapeAppend([], c);
    } else {
      var init, last := s[..|s| - 1], s[|s| - 1];
      assert s == init + [last];
      assert [c] + s == ([c] + init) + [last];
      calc {
        Escape([c] + s);
        == { EscapeAppend([c] + init, last); }
        Escape([c] + init) + EscapeByte(last);
        == { EscapeCons(c, init); }
        (EscapeByte(c) + Escape(init)) + EscapeByte(last);
        == { Associative(EscapeByte(c), Escape(init), EscapeByte(last)); }
        EscapeByte(c) + (Escape(init) + EscapeByte(last));
        == { EscapeAppend(init, last); }
        EscapeByte(c) + Escape(s);
      }
    }
  }

  /** Value of a run of one to three octal digits. */
  function OctalValue(d: string): int
    requires forall k :: 0 <= k < |d| ==> IsOctalDigit(d[k])
  {
    if d == [] then 0 else OctalValue(d[..|d| - 1]) * 8 + (d[|d| - 1] as int - '0' as int)
  }

  /** Number of octal digits (at most three) at the start of `e`. */
  function OctalRun(e: string): (n: nat)
    ensures n <= 3 && n <= |e|
    ensures forall k :: 0 <= k < n ==> IsOctalDigit(e[k])
  {
    if |e| >= 1 && IsOctalDigit(e[0]) then
      if |e| >= 2 && IsOctalDigit(e[1]) then
        if |e| >= 3 && IsOctalDigit(e[2]) then 3 else 2
      else 1
    else 0
  }

  function Prepend(c: Byte, r: Option<PdfString>): Option<PdfString>
  {
    if r.Some? then Some([c] + r.value) else None
  }

  /** How a PDF reader decodes the inside of a string literal: "\(", "\)" and "\\"
      stand for the character, a backslash with one to three octal digits for the
      byte of that value (modulo 256); any other byte stands for itself.  None for
      text that is not a valid literal body (a stray backslash, a non-byte character). */
  function Unescape(e: string): Option<PdfString>
    decreases |e|
  {
    if e == [] then Some([])
    else if e[0] == '\\' then
      if |e| >= 2 && (e[1] == '(' || e[1] == ')' || e[1] == '\\') then
        Prepend(e[1], Unescape(e[2..]))
      else
        var n := OctalRun(e[1..]);
        if n == 0 then None
        else Prepend((OctalValue(e[1..1 + n]) % 256) as char, Unescape(e[1 + n..]))
    else if e[0] as int < 256 then Prepend(e[0], Unescape(e[1..]))
    else None
  }

  lemma OctalThreeDigits(c: Byte)
    requires NeedsOctal(c)
    ensures var d := [OctalDigit(c as int / 64), OctalDigit(c as int / 8 % 8), OctalDigit(c as int % 8)];
      OctalValue(d) == c as int
  {
    var n := c as int;
    var d := [OctalDigit(n / 64), OctalDigit(n / 8 % 8), OctalDigit(n % 8)];
    assert d[..2][..1] == [d[0]];
    assert OctalValue(d[..2][..1]) == n / 64;
    assert OctalValue(d[..2]) == (n / 64) * 8 + n / 8 % 8;
    assert OctalValue(d) == ((n / 64) * 8 + n / 8 % 8) * 8 + n % 8;
  }

  /** Decoding the escape of one byte followed by more text yields that byte first. */
  lemma UnescapeEscapeByte(c: Byte, t: string)
    ensures Unescape(EscapeByte(c) + t) == Prepend(c, Unescape(t))
  {
    var e := EscapeByte(c) + t;
    if NeedsBackslash(c) {
      assert e[2..] == t;
    } else if NeedsOctal(c) {
      UnescapeOctal(c, t);
    } else {
      assert e[1..] == t;
    }
  }

  lemma UnescapeOctal(c: Byte, t: string)
    requires !NeedsBackslash(c) && NeedsOctal(c)
    ensures Unescape(EscapeByte(c) + t) == Prepend(c, Unescape(t))
  {
    var d := EscapeByte(c)[1..];
    OctalThreeDigits(c);
    var e := EscapeByte(c) + t;
    assert e[1..] == d + t;
    assert OctalRun(d + t) == 3;
    assert e[1..1 + 3] == d;
    assert e[1 + 3..] == t;
  }

  /** Escaping round-trips: a reader decoding the escaped bytes gets the original string. */
  lemma {:induction false} EscapeRoundTrip(s: PdfString)
    ensures Unescape(Escape(s)) == Some(s)
    decreases |s|
  {
    if s != [] {
      var c, rest := s[0], s[1..];
      assert s == [c] + rest;
      EscapeCons(c, rest);
      EscapeRoundTrip(rest);
      UnescapeEscapeByte(c, Escape(rest));
    }
  }

  /** The three escape forms, on the bytes "(", TAB and 0xC0. */
  lemma EscapeExamples()
    ensures EscapeByte('(') == "\\("
    ensures EscapeByte(9 as char) == "\\011"
    ensures EscapeByte(0xC0 as char) == "\\300"
  {
  }

  //----- UTF-16BE narrowing

  /** The byte a UTF-16 code unit is narrowed to: itself when it is Latin-1, else '?'. */
  function CodeByte(code: int): Byte
  {
    if 0 <= code <= 0xFF then code as char else '?'
  }

  /** Narrowing of the bytes after the FE FF marker, two bytes per character; an odd
      trailing byte is dropped. */
  function NarrowPairs(u: PdfString): (r: PdfString)
    ensures |r| == |u| / 2
    ensures forall k :: 0 <= k < |r| ==> r[k] == CodeByte(u[2 * k] as int * 256 + u[2 * k + 1] as int)
  {
    if |u| < 2 then [] else [CodeByte(u[0] as int * 256 + u[1] as int)] + NarrowPairs(u[2..])
  }

  /** True when the text starts with the UTF-16BE marker FE FF. */
  predicate HasUnicodeMarker(t: PdfString)
  {
    |t| >= 2 && t[0] as int == 0xFE && t[1] as int == 0xFF
  }

  /** The text drawn for a field value: UTF-16BE text narrowed to Latin-1, any other
      text unchanged. */
  function Narrow(t: PdfString): (r: PdfString)
    ensures !HasUnicodeMarker(t) ==> r == t
    ensures HasUnicodeMarker(t) ==> |r| == (|t| - 2) / 2
  {
    if HasUnicodeMarker(t) then NarrowPairs(t[2..]) else t
  }

  /** Latin-1 text written as UTF-16BE with its marker. */
  function Widen(s: PdfString): (u: PdfString)
    ensures |u| == 2 + 2 * |s|
    ensures u[0] as int == 0xFE && u[1] as int == 0xFF
    ensures forall k :: 0 <= k < |s| ==> u[2 + 2 * k] as int == 0 && u[3 + 2 * k] == s[k]
  {
    if s == [] then [0xFE as char, 0xFF as char]
    else
      var w := Widen(s[..|s| - 1]);
      w + [0 as char, s[|s| - 1]]
  }

  /** Narrowing undoes widening: Latin-1 text survives the UTF-16BE round trip. */
  lemma NarrowWidenRoundTrip(s: PdfString)
    ensures Narrow(Widen(s)) == s
  {
    var u := Widen(s);
    var r := Narrow(u);
    assert |r| == |s|;
    forall k | 0 <= k < |s|
      ensures r[k] == s[k]
    {
      assert u[2..][2 * k] == u[2 + 2 * k];
      assert u[2..][2 * k + 1] == u[3 + 2 * k];
    }
  }
}

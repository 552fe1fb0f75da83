/** The default-appearance ("DA") string of a variable-text field: its tokens, the
    positions of the font-setting ("Tf") and text-matrix ("Tm") operators, and the
    numbers read from it. */
module DefaultAppearance {
  import opened PdfObjects

  /** The PDF white-space bytes: NUL, TAB, LF, FF, CR and SPACE. */
  predicate IsSpace(c: Byte)
  {
    c as int == 0 || c as int == 9 || c as int == 10 || c as int == 12 || c as int == 13 || c as int == 32
  }

  /** Length of the run of non-white-space bytes at the start of `s`. */
  function RunLength(s: PdfString): (n: nat)
    ensures n <= |s|
    ensures forall k :: 0 <= k < n ==> !IsSpace(s[k])
    ensures n < |s| ==> IsSpace(s[n])
  {
    if s == [] || IsSpace(s[0]) then 0 else 1 + RunLength(s[1..])
  }

  /** RunLength is the only length with its two properties. */
  lemma {:induction false} RunLengthIs(s: PdfString, n: nat)
    requires n <= |s|
    requires forall k :: 0 <= k < n ==> !IsSpace(s[k])
    requires n < |s| ==> IsSpace(s[n])
    ensures RunLength(s) == n
    decreases n
  {
    if n > 0 {
      RunLengthIs(s[1..], n - 1);
    }
  }

  /** A token list as the tokenizer produces it: non-empty tokens free of white space. */
  predicate WellFormed(toks: seq<PdfString>)
  {
    forall i :: 0 <= i < |toks| ==> |toks[i]| > 0 && forall k :: 0 <= k < |toks[i]| ==> !IsSpace(toks[i][k])
  }

  /** The DA tokens: the maximal runs of non-white-space bytes, in order. */
  function Tokens(s: PdfString): (toks: seq<PdfString>)
    ensures WellFormed(toks)
    decreases |s|
  {
    if s == [] then []
    else if IsSpace(s[0]) then Tokens(s[1..])
    else
      var n := RunLength(s);
      [s[..n]] + Tokens(s[n..])
  }

  /** Tokens written back with one space after each, as the appearance stream does. */
  function Joined(toks: seq<PdfString>): PdfString
  {
    if toks == [] then [] else toks[0] + [' '] + Joined(toks[1..])
  }

  /** A token followed by a space and more text tokenizes as that token, then the rest. */
  lemma TokensOfToken(t: PdfString, r: PdfString)
    requires |t| > 0 && forall k :: 0 <= k < |t| ==> !IsSpace(t[k])
    ensures Tokens(t + ([' '] + r)) == [t] + Tokens(r)
  {
    var s := t + ([' '] + r);
    RunLengthIs(s, |t|);
    assert s[..|t|] == t;
    var after := s[|t|..];
    assert after == [' '] + r;
    assert after[1..] == r;
  }

  /** Dropping the first token keeps a token list well formed. */
  lemma WellFormedTail(toks: seq<PdfString>)
    requires WellFormed(toks) && toks != []
    ensures WellFormed(toks[1..])
  {
    forall i | 0 <= i < |toks| - 1
      ensures |toks[1..][i]| > 0 && forall k :: 0 <= k < |toks[1..][i]| ==> !IsSpace(toks[1..][i][k])
    {
      assert toks[1..][i] == toks[i + 1];
    }
  }

  /** Re-tokenizing the written-back tokens gives the same tokens. */
  lemma {:induction false} TokensOfJoined(toks: seq<PdfString>)
    requires WellFormed(toks)
    ensures Tokens(Joined(toks)) == toks
  {
    if toks != [] {
      var t, rest := toks[0], toks[1..];
      assert Joined(toks) == t + ([' '] + Joined(rest));
      TokensOfToken(t, Joined(rest));
      WellFormedTail(toks);
      TokensOfJoined(rest);
      assert toks == [t] + rest;
    }
  }

  /** The non-white-space bytes of `s`, in order. */
  function NonSpace(s: PdfString): PdfString
  {
    if s == [] then [] else (if IsSpace(s[0]) then [] else [s[0]]) + NonSpace(s[1..])
  }

  function Flatten(toks: seq<PdfString>): PdfString
  {
    if toks == [] then [] else toks[0] + Flatten(toks[1..])
  }

  lemma {:induction false} NonSpaceSplit(a: PdfString, b: PdfString)
    ensures NonSpace(a + b) == NonSpace(a) + NonSpace(b)
    decreases |a|
  {
    if a != [] {
      assert (a + b)[1..] == a[1..] + b;
      NonSpaceSplit(a[1..], b);
    } else {
      assert a + b == b;
    }
  }

  lemma {:induction false} NonSpaceOfRun(s: PdfString)
    requires forall k :: 0 <= k < |s| ==> !IsSpace(s[k])
    ensures NonSpace(s) == s
    decreases |s|
  {
    if s != [] {
      NonSpaceOfRun(s[1..]);
    }
  }

  /** Tokenizing loses exactly the white space: the tokens, concatenated, are the
      non-white-space bytes of the DA string. */
  lemma {:induction false} TokensKeepNonSpace(s: PdfString)
    ensures Flatten(Tokens(s)) == NonSpace(s)
    decreases |s|
  {
    if s != [] {
      if IsSpace(s[0]) {
        TokensKeepNonSpace(s[1..]);
      } else {
        var n := RunLength(s);
        assert s == s[..n] + s[n..];
        NonSpaceSplit(s[..n], s[n..]);
        NonSpaceOfRun(s[..n]);
        TokensKeepNonSpace(s[n..]);
        assert Tokens(s) == [s[..n]] + Tokens(s[n..]);
      }
    }
  }

  /** Index of the last token equal to `op` at position `lo` or later, or -1. */
  function LastIndex(toks: seq<PdfString>, op: PdfString, lo: nat): (r: int)
    ensures r == -1 <==> forall i :: lo <= i < |toks| ==> toks[i] != op
    ensures r != -1 ==> lo <= r < |toks| && toks[r] == op && forall i :: r < i < |toks| ==> toks[i] != op
  {
    if |toks| <= lo then -1
    else if toks[|toks| - 1] == op then |toks| - 1
    else LastIndex(toks[..|toks| - 1], op, lo)
  }

  /** Position of the font-name operand of the last "Tf" operator with two operands
      before it, or -1. */
  function TfPos(toks: seq<PdfString>): (p: int)
    ensures p == -1 || (0 <= p && p + 2 < |toks| && toks[p + 2] == "Tf")
    ensures p == -1 <==> forall i :: 2 <= i < |toks| ==> toks[i] != "Tf"
    ensures p != -1 ==> forall i :: p + 2 < i < |toks| ==> toks[i] != "Tf"
  {
    var k := LastIndex(toks, "Tf", 2);
    if k < 0 then -1 else k - 2
  }

  /** Position of the first operand of the last "Tm" operator with six operands
      before it, or -1. */
  function TmPos(toks: seq<PdfString>): (p: int)
    ensures p == -1 || (0 <= p && p + 6 < |toks| && toks[p + 6] == "Tm")
    ensures p == -1 <==> forall i :: 6 <= i < |toks| ==> toks[i] != "Tm"
    ensures p != -1 ==> forall i :: p + 6 < i < |toks| ==> toks[i] != "Tm"
  {
    var k := LastIndex(toks, "Tm", 6);
    if k < 0 then -1 else k - 6
  }

  //----- atof

  predicate IsDigit(c: Byte)
  {
    '0' <= c <= '9'
  }

  function DigitValue(c: Byte): int
  {
    c as int - '0' as int
  }

  /** Number of decimal digits at the start of `s`. */
  function DigitRun(s: PdfString): (n: nat)
    ensures n <= |s|
    ensures forall k :: 0 <= k < n ==> IsDigit(s[k])
  {
    if s != [] && IsDigit(s[0]) then 1 + DigitRun(s[1..]) else 0
  }

  /** Value of a run of digits read as an integer. */
  function WholeValue(d: PdfString): real
  {
    if d == [] then 0.0 else WholeValue(d[..|d| - 1]) * 10.0 + DigitValue(d[|d| - 1]) as real
  }

  /** Value of a run of digits read after a decimal point. */
  function FractionValue(d: PdfString): real
  {
    if d == [] then 0.0 else (DigitValue(d[0]) as real + FractionValue(d[1..])) / 10.0
  }

  function UnsignedValue(s: PdfString): real
  {
    var n := DigitRun(s);
    var whole := WholeValue(s[..n]);
    if n < |s| && s[n] == '.' then
      var f := s[n + 1..];
      whole + FractionValue(f[..DigitRun(f)])
    else whole
  }

  /** atof on a DA operand: an optional sign, digits, and an optional fraction; the
      value of the longest such prefix, 0 when there is none. */
  function Atof(s: PdfString): real
  {
    if |s| > 0 && s[0] == '-' then -UnsignedValue(s[1..])
    else if |s| > 0 && s[0] == '+' then UnsignedValue(s[1..])
    else UnsignedValue(s)
  }

  /** The usual DA string "/Helv 0 Tf 0 g " splits back into its five tokens. */
  lemma DaExampleTokens()
    ensures var toks: seq<PdfString> := ["/Helv", "0", "Tf", "0", "g"];
      Tokens(Joined(toks)) == toks
  {
    var toks: seq<PdfString> := ["/Helv", "0", "Tf", "0", "g"];
    TokensOfJoined(toks);
  }

  /** Its tokens name font resource Helv at size 0, which asks for auto-sizing, and
      no text matrix. */
  lemma DaExampleOperators()
    ensures var toks: seq<PdfString> := ["/Helv", "0", "Tf", "0", "g"];
      TfPos(toks) == 0 && TmPos(toks) == -1 && Atof(toks[1]) == 0.0
  {
    var toks: seq<PdfString> := ["/Helv", "0", "Tf", "0", "g"];
    // the last "Tf" is token 2
    assert toks[2] == "Tf" && toks[3] != "Tf" && toks[4] != "Tf";
    // "0" is one digit of value 0
    var zero: PdfString := "0";
    assert zero[1..] == [] && zero[..1] == zero && zero[..0] == [];
    assert DigitRun(zero) == 1;
  }
}

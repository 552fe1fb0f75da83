/** The content stream of a regenerated field appearance, as a function of the field,
    the annotation and the document: background, border, and the field contents drawn
    by drawText or drawListBox. */
module AppearanceSpec {
  import opened PdfObjects
  import opened FieldTypes
  import opened ContentText
  import opened DefaultAppearance
  import opened TextLayout
  import opened Colors
  import opened FormSpec

  const QuadLeft: int := 0
  const QuadCenter: int := 1
  const QuadRight: int := 2

  /** The distance of a Bezier control point from the centre of a quarter circle
      of radius v (the factor 0.55228475 per unit of radius). */
  function Bezier(v: real): real
  {
    0.55228475 * v
  }

  /** v / sqrt(2), with 1 / sqrt(2) to the precision of a double. */
  function DivSqrt2(v: real): real
  {
    0.7071067811865476 * v
  }

  //----- operator helpers

  /** "x y" followed by an operator such as " m\n" or " l\n". */
  function Point(x: real, y: real, op: string): seq<Piece>
  {
    [Nums([x, y], 4, op)]
  }

  /** A Bezier curve segment ("c") through three points. */
  function Curve(x1: real, y1: real, x2: real, y2: real, x3: real, y3: real): seq<Piece>
  {
    [Nums([x1, y1, x2, y2, x3, y3], 4, " c\n")]
  }

  /** drawCircle: four Bezier quarter-circles around (cx, cy), then the painting
      operator `cmd`. */
  function CircleOps(cx: real, cy: real, r: real, cmd: string): seq<Piece>
  {
    var k := Bezier(r);
    Point(cx + r, cy, " m\n") +
    Curve(cx + r, cy + k, cx + k, cy + r, cx, cy + r) +
    Curve(cx - k, cy + r, cx - r, cy + k, cx - r, cy) +
    Curve(cx - r, cy - k, cx - k, cy - r, cx, cy - r) +
    Curve(cx + k, cy - r, cx + r, cy - k, cx + r, cy) +
    [Txt(cmd + "\n")]
  }

  /** drawCircleTopLeft: the upper-left half circle, stroked. */
  function TopLeftOps(cx: real, cy: real, r: real): seq<Piece>
  {
    var r2 := DivSqrt2(r);
    Point(cx + r2, cy + r2, " m\n") +
    Curve(cx + (r2 - Bezier(r2)), cy + (r2 + Bezier(r2)),
          cx - (r2 - Bezier(r2)), cy + (r2 + Bezier(r2)), cx - r2, cy + r2) +
    Curve(cx - (r2 + Bezier(r2)), cy + (r2 - Bezier(r2)),
          cx - (r2 + Bezier(r2)), cy - (r2 - Bezier(r2)), cx - r2, cy - r2) +
    [Txt("S\n")]
  }

  /** drawCircleBottomRight: the lower-right half circle, stroked. */
  function BottomRightOps(cx: real, cy: real, r: real): seq<Piece>
  {
    var r2 := DivSqrt2(r);
    Point(cx - r2, cy - r2, " m\n") +
    Curve(cx - (r2 - Bezier(r2)), cy - (r2 + Bezier(r2)),
          cx + (r2 - Bezier(r2)), cy - (r2 + Bezier(r2)), cx + r2, cy - r2) +
    Curve(cx + (r2 + Bezier(r2)), cy - (r2 - Bezier(r2)),
          cx + (r2 + Bezier(r2)), cy + (r2 - Bezier(r2)), cx + r2, cy + r2) +
    [Txt("S\n")]
  }

  /** The two half circles of a bevelled border meet where the full circle starts and
      ends: the top-left half ends where the bottom-right half starts, and the other
      way round, and both are stroked. */
  lemma HalfCirclesMeet(cx: real, cy: real, r: real)
    ensures var tl := TopLeftOps(cx, cy, r);
      var br := BottomRightOps(cx, cy, r);
      |tl| == 4 && |br| == 4 &&
      tl[2].Nums? && br[2].Nums? && tl[0].Nums? && br[0].Nums? &&
      tl[2].values[4..] == br[0].values && br[2].values[4..] == tl[0].values &&
      tl[3] == Txt("S\n") && br[3] == Txt("S\n")
  {
  }

  //----- default appearance

  /** The DA tokens; none when the field has no DA string. */
  function DaTokenList(da: Option<PdfString>): seq<PdfString>
  {
    if da.Some? then Tokens(da.value) else []
  }

  /** Tokens as output fragments. */
  function AsPieces(toks: seq<PdfString>): (r: seq<Piece>)
    ensures |r| == |toks|
    ensures forall i :: 0 <= i < |r| ==> r[i] == Txt(toks[i])
  {
    if toks == [] then [] else AsPieces(toks[..|toks| - 1]) + [Txt(toks[|toks| - 1])]
  }

  /** The DA string written back: each token followed by a space. */
  function DaOps(toks: seq<Piece>): (r: seq<Piece>)
    ensures |r| == 2 * |toks|
  {
    if toks == [] then [] else DaOps(toks[..|toks| - 1]) + [toks[|toks| - 1], Txt(" ")]
  }

  /** Token i of the DA string is written at position 2i, followed by a space. */
  lemma {:induction false} DaOpsAt(toks: seq<Piece>)
    ensures var r := DaOps(toks);
      forall i :: 0 <= i < |toks| ==> r[2 * i] == toks[i] && r[2 * i + 1] == Txt(" ")
  {
    if toks != [] {
      DaOpsAt(toks[..|toks| - 1]);
    }
  }

  /** What drawText and drawListBox read from the DA string: its tokens (with the font
      name replaced by ZapfDingbats when forced), the operand positions of the last Tf
      and Tm, the font named by Tf and the size given to it (0 without a Tf). */
  datatype DaInfo = DaInfo(toks: seq<Piece>, tfPos: int, tmPos: int, font: Font, fontSize: real)

  predicate DaPositions(d: DaInfo)
  {
    (d.tfPos == -1 || (0 <= d.tfPos && d.tfPos + 2 < |d.toks|)) &&
    (d.tmPos == -1 || (0 <= d.tmPos && d.tmPos + 6 < |d.toks|))
  }

  /** The font a "/Name" token names in the form's font dictionary. */
  function FontNamed(doc: Doc, fontDict: Option<seq<Entry>>, tok: Piece): Font
  {
    if tok.Txt? && |tok.s| >= 1 && tok.s[0] == '/' && fontDict.Some? then doc.fontOf(fontDict.value, tok.s[1..])
    else NoFont
  }

  function ParseDa(doc: Doc, fontDict: Option<seq<Entry>>, da: Option<PdfString>, forceZapf: bool): (d: DaInfo)
    ensures DaPositions(d) && |d.toks| == |DaTokenList(da)|
    ensures d.tfPos == TfPos(DaTokenList(da)) && d.tmPos == TmPos(DaTokenList(da))
    ensures d.tfPos < 0 ==> d.font == NoFont && d.fontSize == 0.0
  {
    var raw := DaTokenList(da);
    var tf := TfPos(raw);
    var tm := TmPos(raw);
    var toks0 := AsPieces(raw);
    var toks := if forceZapf && tf >= 0 then toks0[tf := Txt("/ZaDb")] else toks0;
    DaInfo(toks, tf, tm,
      if tf >= 0 then FontNamed(doc, fontDict, toks[tf]) else NoFont,
      if tf >= 0 then Atof(raw[tf + 1]) else 0.0)
  }

  /** The parsed DA keeps every token of the string, except that a forced
      ZapfDingbats replaces the Tf font name. */
  lemma ParseDaTokens(doc: Doc, fontDict: Option<seq<Entry>>, da: Option<PdfString>, forceZapf: bool)
    ensures var d := ParseDa(doc, fontDict, da, forceZapf);
      (forall i :: 0 <= i < |d.toks| && !(forceZapf && i == d.tfPos) ==> d.toks[i] == Txt(DaTokenList(da)[i])) &&
      (forceZapf && d.tfPos >= 0 ==> d.toks[d.tfPos] == Txt("/ZaDb"))
  {
  }

  /** The Tf size operand replaced by the automatic size, when one was computed. */
  function SetSize(toks: seq<Piece>, tfPos: int, autosized: bool, size: Piece): (r: seq<Piece>)
    requires tfPos == -1 || (0 <= tfPos && tfPos + 2 < |toks|)
    ensures |r| == |toks|
  {
    if autosized && tfPos >= 0 then toks[tfPos + 1 := size] else toks
  }

  /** The Tm translation operands replaced by the text position. */
  function SetTm(toks: seq<Piece>, tmPos: int, x: Piece, y: Piece): (r: seq<Piece>)
    requires tmPos == -1 || (0 <= tmPos && tmPos + 6 < |toks|)
    ensures |r| == |toks|
  {
    if tmPos >= 0 then toks[tmPos + 4 := x][tmPos + 5 := y] else toks
  }

  /** The text matrix written after the DA string when it has no Tm of its own. */
  function TmOps(tmPos: int, x: Piece, y: real): seq<Piece>
  {
    if tmPos < 0 then [Txt("1 0 0 1 "), x, Txt(" "), N4(y), Txt(" Tm\n")] else []
  }

  //----- drawText

  /** How drawText lays its text out. */
  datatype TextStyle = TextStyle(multiline: bool, comb: int, quadding: int, txField: bool, forceZapf: bool, rot: int)

  /** The rotation for MK/R of 90, 180 or 270 degrees. */
  function RotOps(rot: int, b: Box): seq<Piece>
  {
    if rot == 90 then [Txt("0 1 -1 0 "), N4(Width(b)), Txt(" 0 cm\n")]
    else if rot == 180 then [Txt("-1 0 0 -1 "), N4(Width(b)), Txt(" "), N4(Height(b)), Txt(" cm\n")]
    else if rot == 270 then [Txt("0 -1 1 0 0 "), N4(Height(b)), Txt(" cm\n")]
    else []
  }

  function TextHeader(txField: bool, rot: int, b: Box): seq<Piece>
  {
    (if txField then [Txt("/Tx BMC\n")] else []) + [Txt("q\n")] + RotOps(rot, b) + [Txt("BT\n")]
  }

  function TextTrailer(txField: bool): seq<Piece>
  {
    [Txt("ET\n"), Txt("Q\n")] + (if txField then [Txt("EMC\n")] else [])
  }

  /** One line of multi-line text: move to its start and show it. */
  function LineOps(x: real, xPrev: real, size: real, line: PdfString): seq<Piece>
  {
    [Nums([x - xPrev, -size], 4, " Td\n"), ShowText(line)]
  }

  /** The lines of multi-line text from index i, each positioned relative to the
      previous line's start. */
  function LinesOps(text: PdfString, i: nat, font: Font, size: real, wMax: real, quadding: int, dx: real, border: real, xPrev: real): seq<Piece>
    requires i <= |text|
    decreases |text| - i
  {
    if i == |text| then []
    else
      var l := NextLine(text, i, font, size, wMax);
      var x := QuadX(quadding, dx, border, l.width);
      LineOps(x, xPrev, size, text[i..l.end]) + LinesOps(text, l.next, font, size, wMax, quadding, dx, border, x)
  }

  /** The width multi-line text is broken to: the box less the border and 2 units of
      padding on each side. */
  function LineWidthMax(dx: real, border: real): real
  {
    dx - 2.0 * border - 4.0
  }

  function MultilineBody(d: DaInfo, text: PdfString, quadding: int, dx: real, dy: real, border: real): seq<Piece>
    requires DaPositions(d)
  {
    var wMax := LineWidthMax(dx, border);
    var size := if d.fontSize == 0.0 then MultilineAutoSize(text, d.font, wMax, dy) as real else d.fontSize;
    var y := dy - 3.0;
    var toks := SetTm(SetSize(d.toks, d.tfPos, d.fontSize == 0.0, N2(size)), d.tmPos, Txt("0"), N4(y));
    DaOps(toks) + TmOps(d.tmPos, Txt("0"), y) + LinesOps(text, 0, d.font, size, wMax, quadding, dx, border, 0.0)
  }

  /** One comb cell.  A control or high byte is not octal-escaped here: the step to the
      next cell is written inside the string literal instead. */
  function CombCell(c: Byte, w: real): seq<Piece>
  {
    if NeedsBackslash(c) then [Txt("(" + ['\\', c] + ") Tj\n")]
    else if NeedsOctal(c) then [Txt("("), N4(w), Txt(" 0 Td\n"), Txt(") Tj\n")]
    else [Txt("(" + [c] + ") Tj\n")]
  }

  /** The comb cells of `s`, each after the first preceded by a step of w. */
  function CombCells(s: PdfString, w: real): seq<Piece>
  {
    if s == [] then []
    else CombCells(s[..|s| - 1], w) + (if |s| > 1 then [N4(w), Txt(" 0 Td\n")] else []) + CombCell(s[|s| - 1], w)
  }

  function CombBody(d: DaInfo, text: PdfString, comb: int, quadding: int, dx: real, dy: real, border: real): seq<Piece>
    requires DaPositions(d) && comb > 0
  {
    var w := CombCellWidth(dx, border, comb);
    var size := if d.fontSize == 0.0 then Floor(Min(InnerHeight(dy, border), w)) else d.fontSize;
    var x := CombX(quadding, border, comb, |text|, w);
    var y := Baseline(dy, size);
    var toks := SetTm(SetSize(d.toks, d.tfPos, d.fontSize == 0.0, N4(size)), d.tmPos, N4(x), N4(y));
    DaOps(toks) + TmOps(d.tmPos, N4(x), y) + CombCells(text, w)
  }

  /** The automatic size of single-line text. */
  function PlainSize(d: DaInfo, text: PdfString, dx: real, dy: real, border: real): real
  {
    if d.fontSize == 0.0 then AutoSize(InnerHeight(dy, border), InnerWidth(dx, border), StringWidth(d.font, text))
    else d.fontSize
  }

  function PlainBody(d: DaInfo, text: PdfString, quadding: int, dx: real, dy: real, border: real): seq<Piece>
    requires DaPositions(d)
  {
    var size := PlainSize(d, text, dx, dy, border);
    var x := QuadX(quadding, dx, border, WidthAt(StringWidth(d.font, text), size));
    var y := Baseline(dy, size);
    var toks := SetTm(SetSize(d.toks, d.tfPos, d.fontSize == 0.0, N4(size)), d.tmPos, N4(x), N4(y));
    DaOps(toks) + TmOps(d.tmPos, N4(x), y) + [ShowText(text)]
  }

  /** The text itself, laid out by the style: multi-line, comb, or single-line. */
  function TextBody(d: DaInfo, t: PdfString, style: TextStyle, b: Box, border: real): seq<Piece>
    requires DaPositions(d)
  {
    var e := Extent(style.rot, b);
    if style.multiline then MultilineBody(d, t, style.quadding, e.0, e.1, border)
    else if style.comb > 0 then CombBody(d, t, style.comb, style.quadding, e.0, e.1, border)
    else PlainBody(d, t, style.quadding, e.0, e.1, border)
  }

  /** drawText: the operators that draw `text` (narrowed to Latin-1) in the box. */
  function DrawTextOps(doc: Doc, fontDict: Option<seq<Entry>>, text: PdfString, da: Option<PdfString>, style: TextStyle, b: Box, border: real): seq<Piece>
  {
    TextHeader(style.txField, style.rot, b) +
    TextBody(ParseDa(doc, fontDict, da, style.forceZapf), Narrow(text), style, b, border) +
    TextTrailer(style.txField)
  }

  /** The literal shown by a show-text piece, without its delimiters. */
  function Literal(p: Piece): string
  {
    if p.Txt? && |p.s| >= 6 then p.s[1..|p.s| - 5] else []
  }

  /** A show-text piece decodes back to the string it shows. */
  lemma ShowTextDecodes(t: PdfString)
    ensures Unescape(Literal(ShowText(t))) == Some(t)
  {
    var lit := "(" + Escape(t) + ") Tj\n";
    assert lit[1..|lit| - 5] == Escape(t);
    EscapeRoundTrip(t);
  }

  lemma PlainBodyEndsWithShow(d: DaInfo, t: PdfString, quadding: int, dx: real, dy: real, border: real)
    requires DaPositions(d)
    ensures var body := PlainBody(d, t, quadding, dx, dy, border); |body| >= 1 && body[|body| - 1] == ShowText(t)
  {
  }

  lemma BeforeTrailer(h: seq<Piece>, body: seq<Piece>, t: seq<Piece>)
    requires |body| >= 1
    ensures var ops := h + body + t; |ops| > |t| && ops[|ops| - |t| - 1] == body[|body| - 1]
  {
  }

  /** Single-line text is shown as one string literal, just before the trailer, that a
      reader decodes back to the (narrowed) field value. */
  lemma PlainTextShown(doc: Doc, fontDict: Option<seq<Entry>>, text: PdfString, da: Option<PdfString>, style: TextStyle, b: Box, border: real)
    requires !style.multiline && style.comb <= 0
    ensures var ops := DrawTextOps(doc, fontDict, text, da, style, b, border);
      var n := |TextTrailer(style.txField)|;
      |ops| > n && ops[|ops| - n - 1] == ShowText(Narrow(text)) &&
      Unescape(Literal(ops[|ops| - n - 1])) == Some(Narrow(text))
  {
    var t := Narrow(text);
    var d := ParseDa(doc, fontDict, da, style.forceZapf);
    var body := TextBody(d, t, style, b, border);
    var e := Extent(style.rot, b);
    assert body == PlainBody(d, t, style.quadding, e.0, e.1, border);
    PlainBodyEndsWithShow(d, t, style.quadding, e.0, e.1, border);
    var h := TextHeader(style.txField, style.rot, b);
    var tr := TextTrailer(style.txField);
    assert DrawTextOps(doc, fontDict, text, da, style, b, border) == h + body + tr;
    BeforeTrailer(h, body, tr);
    ShowTextDecodes(t);
  }

  /** With a zero size in the DA string, the size written into the Tf operand of
      single-line text is the automatic size (unless a Tm operand shares its place). */
  lemma PlainAutoSizeWritten(d: DaInfo, text: PdfString, quadding: int, dx: real, dy: real, border: real)
    requires DaPositions(d) && d.fontSize == 0.0 && d.tfPos >= 0
    requires d.tmPos < 0 || (d.tfPos + 1 != d.tmPos + 4 && d.tfPos + 1 != d.tmPos + 5)
    ensures PlainBody(d, text, quadding, dx, dy, border)[2 * (d.tfPos + 1)] ==
      N4(AutoSize(InnerHeight(dy, border), InnerWidth(dx, border), StringWidth(d.font, text)))
  {
    var size := PlainSize(d, text, dx, dy, border);
    var x := QuadX(quadding, dx, border, WidthAt(StringWidth(d.font, text), size));
    var y := Baseline(dy, size);
    var sized := SetSize(d.toks, d.tfPos, true, N4(size));
    assert sized[d.tfPos + 1] == N4(size);
    var toks := SetTm(sized, d.tmPos, N4(x), N4(y));
    assert toks[d.tfPos + 1] == N4(size);
    DaOpsAt(toks);
    var ops := DaOps(toks) + TmOps(d.tmPos, N4(x), y) + [ShowText(text)];
    assert ops[2 * (d.tfPos + 1)] == DaOps(toks)[2 * (d.tfPos + 1)];
  }

  /** Marked content is balanced for text fields: the text starts with "/Tx BMC" and
      ends with "EMC"; inside that (or alone, for other fields) the graphics state is
      saved first and restored last. */
  predicate MarkedText(ops: seq<Piece>, txField: bool)
  {
    |ops| >= 4 &&
    (txField ==> ops[0] == Txt("/Tx BMC\n") && ops[1] == Txt("q\n") &&
                 ops[|ops| - 1] == Txt("EMC\n") && ops[|ops| - 2] == Txt("Q\n")) &&
    (!txField ==> ops[0] == Txt("q\n") && ops[|ops| - 1] == Txt("Q\n"))
  }

  lemma HeaderTrailerMark(txField: bool, rot: int, b: Box, body: seq<Piece>)
    ensures MarkedText(TextHeader(txField, rot, b) + body + TextTrailer(txField), txField)
  {
  }

  lemma TextFieldMarked(doc: Doc, fontDict: Option<seq<Entry>>, text: PdfString, da: Option<PdfString>, style: TextStyle, b: Box, border: real)
    ensures MarkedText(DrawTextOps(doc, fontDict, text, da, style, b, border), style.txField)
  {
    HeaderTrailerMark(style.txField, style.rot, b, TextBody(ParseDa(doc, fontDict, da, style.forceZapf), Narrow(text), style, b, border));
  }

  lemma {:induction false} LinesOpsLength(text: PdfString, i: nat, font: Font, size: real, wMax: real, quadding: int, dx: real, border: real, xPrev: real)
    requires i <= |text|
    ensures |LinesOps(text, i, font, size, wMax, quadding, dx, border, xPrev)| == 2 * LineCount(text, i, font, size, wMax)
    decreases |text| - i
  {
    if i < |text| {
      var l := NextLine(text, i, font, size, wMax);
      LinesOpsLength(text, l.next, font, size, wMax, quadding, dx, border, QuadX(quadding, dx, border, l.width));
    }
  }

  /** Multi-line text draws exactly the lines the automatic size was chosen for: two
      fragments (a move and a show) per line of LineCount. */
  lemma MultilineDrawsCountedLines(d: DaInfo, text: PdfString, quadding: int, dx: real, dy: real, border: real)
    requires DaPositions(d)
    ensures var wMax := LineWidthMax(dx, border);
      var size := if d.fontSize == 0.0 then MultilineAutoSize(text, d.font, wMax, dy) as real else d.fontSize;
      |MultilineBody(d, text, quadding, dx, dy, border)| ==
        2 * |d.toks| + (if d.tmPos < 0 then 5 else 0) + 2 * LineCount(text, 0, d.font, size, wMax)
  {
    var wMax := LineWidthMax(dx, border);
    var size := if d.fontSize == 0.0 then MultilineAutoSize(text, d.font, wMax, dy) as real else d.fontSize;
    var toks := SetTm(SetSize(d.toks, d.tfPos, d.fontSize == 0.0, N2(size)), d.tmPos, Txt("0"), N4(dy - 3.0));
    var lines := LinesOps(text, 0, d.font, size, wMax, quadding, dx, border, 0.0);
    var matrix := TmOps(d.tmPos, Txt("0"), dy - 3.0);
    assert MultilineBody(d, text, quadding, dx, dy, border) == DaOps(toks) + matrix + lines;
    assert |DaOps(toks)| == 2 * |d.toks|;
    assert |matrix| == if d.tmPos < 0 then 5 else 0;
    LinesOpsLength(text, 0, d.font, size, wMax, quadding, dx, border, 0.0);
  }

  /** In comb mode a printable byte (including an escaped "(", ")" or "\") fills its
      cell exactly as it would be shown on its own; a control or high byte instead puts
      the cell step inside the literal, so a reader sees the text of a Td operator
      rather than the byte. */
  lemma CombCellByByte(c: Byte, w: real)
    ensures !NeedsOctal(c) ==> CombCell(c, w) == [ShowText([c])]
    ensures NeedsOctal(c) ==> |CombCell(c, w)| == 4 && CombCell(c, w)[1] == N4(w) && ShowText([c]) !in CombCell(c, w)
  {
    assert [c][..0] == [];
    assert Escape([c]) == EscapeByte(c);
  }

  //----- drawListBox

  /** The first option drawn.  Negative top indexes are clamped to 0. */
  function RowStart(topIdx: int): (start: nat)
    ensures topIdx >= 0 ==> start == topIdx
  {
    if topIdx < 0 then 0 else topIdx
  }

  /** The option indexes drawListBox visits as written: topIdx .. n-1. */
  function RowIndicesAsWritten(topIdx: int, n: int): (r: seq<int>)
    decreases n - topIdx
  {
    if topIdx >= n then [] else [topIdx] + RowIndicesAsWritten(topIdx + 1, n)
  }

  /** As written, a negative top index visits option -1, outside the option arrays. */
  lemma NegativeTopIndexReadsOutside()
    ensures RowIndicesAsWritten(-1, 1) == [-1, 0]
    ensures exists k :: k in RowIndicesAsWritten(-1, 1) && !(0 <= k < 1)
  {
    assert RowIndicesAsWritten(-1, 1)[0] == -1;
    assert -1 in RowIndicesAsWritten(-1, 1);
  }

  lemma {:induction false} RowIndicesBetween(lo: int, n: int)
    ensures forall k :: k in RowIndicesAsWritten(lo, n) ==> lo <= k < n
    decreases n - lo
  {
    if lo < n {
      RowIndicesBetween(lo + 1, n);
    }
  }

  /** With the clamp, only options that exist are visited, and a non-negative top
      index visits what it did as written. */
  lemma ClampedRowsInRange(topIdx: int, n: nat)
    ensures forall k :: k in RowIndicesAsWritten(RowStart(topIdx), n) ==> 0 <= k < n
    ensures topIdx >= 0 ==> RowIndicesAsWritten(RowStart(topIdx), n) == RowIndicesAsWritten(topIdx, n)
  {
    RowIndicesBetween(RowStart(topIdx), n);
  }

  /** The highlight of a selected row: a black rectangle behind the text. */
  function Highlight(border: real, y: real, dx: real, size: real): seq<Piece>
  {
    [Txt("0 g f\n"), Nums([border, y - 0.2 * size, dx - 2.0 * border, 1.1 * size], 4, " re f\n")]
  }

  /** One list-box row at baseline y. */
  function RowOps(font: Font, toks: seq<Piece>, tmPos: int, text: PdfString, selected: bool, quadding: int, dx: real, border: real, size: real, y: real): seq<Piece>
    requires tmPos == -1 || (0 <= tmPos && tmPos + 6 < |toks|)
  {
    RowOpen(selected, border, y, dx, size) + RowBody(font, toks, tmPos, text, selected, quadding, dx, border, size, y) + [Txt("Q\n")]
  }

  /** The start of a row: "q" and, for a selected row, the highlight. */
  function RowOpen(selected: bool, border: real, y: real, dx: real, size: real): seq<Piece>
  {
    [Txt("q\n")] + (if selected then Highlight(border, y, dx, size) else [])
  }

  /** The text object of a row: the setup with the row's start x, then the string. */
  function RowBody(font: Font, toks: seq<Piece>, tmPos: int, text: PdfString, selected: bool, quadding: int, dx: real, border: real, size: real, y: real): seq<Piece>
    requires tmPos == -1 || (0 <= tmPos && tmPos + 6 < |toks|)
  {
    var x := QuadX(quadding, dx, border, WidthAt(StringWidth(font, text), size));
    RowSetup(SetTm(toks, tmPos, N4(x), N4(y)), tmPos, x, y) + RowShow(text, selected)
  }

  /** "BT", the DA string and, without a Tm operator in it, the text matrix. */
  function RowSetup(toks: seq<Piece>, tmPos: int, x: real, y: real): seq<Piece>
  {
    [Txt("BT\n")] + DaOps(toks) + TmOps(tmPos, N4(x), y)
  }

  /** The string, in white on a selected row, then "ET". */
  function RowShow(text: PdfString, selected: bool): seq<Piece>
  {
    (if selected then [Txt("1 g\n")] else []) + [ShowText(text), Txt("ET\n")]
  }

  /** The rows from option i on, the first at baseline y, each 1.1 sizes lower. */
  function ListRows(font: Font, toks: seq<Piece>, tmPos: int, texts: seq<PdfString>, selection: seq<bool>, i: nat, quadding: int, dx: real, border: real, size: real, y: real): seq<Piece>
    requires tmPos == -1 || (0 <= tmPos && tmPos + 6 < |toks|)
    requires |selection| == |texts|
    decreases |texts| - i
  {
    if i >= |texts| then []
    else RowOps(font, toks, tmPos, texts[i], selection[i], quadding, dx, border, size, y) +
         ListRows(font, toks, tmPos, texts, selection, i + 1, quadding, dx, border, size, NextRowY(y, size))
  }

  /** The baseline one row down: rows are 1.1 times the size apart. */
  function NextRowY(y: real, size: real): real
  {
    y - 1.1 * size
  }

  /** The automatic size of a list box: the whole size that fits the widest option. */
  function ListBoxSize(d: DaInfo, texts: seq<PdfString>, b: Box, border: real): real
  {
    if d.fontSize == 0.0 then
      AutoSize(InnerHeight(Height(b), border), InnerWidth(Width(b), border), MaxWidth(d.font, texts))
    else d.fontSize
  }

  /** drawListBox: every option from the top index on, one row each. */
  function ListBoxOps(doc: Doc, fontDict: Option<seq<Entry>>, texts: seq<PdfString>, selection: seq<bool>, topIdx: int, da: Option<PdfString>, quadding: int, b: Box, border: real): seq<Piece>
    requires |selection| == |texts|
  {
    ListBoxRows(ParseDa(doc, fontDict, da, false), texts, selection, topIdx, quadding, b, border)
  }

  /** The rows of a list box with DA string `d`: the size set in the token list, the
      first row one line below the top. */
  function ListBoxRows(d: DaInfo, texts: seq<PdfString>, selection: seq<bool>, topIdx: int, quadding: int, b: Box, border: real): seq<Piece>
    requires |selection| == |texts| && DaPositions(d)
  {
    var size := ListBoxSize(d, texts, b, border);
    var toks := SetSize(d.toks, d.tfPos, d.fontSize == 0.0, N4(size));
    ListRows(d.font, toks, d.tmPos, texts, selection, RowStart(topIdx), quadding, Width(b), border, size, NextRowY(Height(b), size))
  }

  /** The baseline of the row for option k when option `first` is at y0. */
  function RowY(y0: real, first: int, k: int, size: real): real
  {
    y0 - (k - first) as real * (1.1 * size)
  }

  lemma RowYStep(y0: real, first: int, k: int, size: real)
    ensures NextRowY(RowY(y0, first, k, size), size) == RowY(y0, first, k + 1, size)
    ensures RowY(y0, first, first, size) == y0
  {
    var step := 1.1 * size;
    assert (k + 1 - first) as real * step == (k - first) as real * step + step;
  }

  /** Reference definition of the rows: rows lo .. hi-1, row k at baseline
      RowY(y0, first, k, size). */
  function RowsBetween(font: Font, toks: seq<Piece>, tmPos: int, texts: seq<PdfString>, selection: seq<bool>, first: nat, lo: nat, hi: nat, quadding: int, dx: real, border: real, size: real, y0: real): seq<Piece>
    requires tmPos == -1 || (0 <= tmPos && tmPos + 6 < |toks|)
    requires |selection| == |texts| && lo <= hi <= |texts|
    decreases hi - lo
  {
    if lo == hi then []
    else
      RowOps(font, toks, tmPos, texts[lo], selection[lo], quadding, dx, border, size, RowY(y0, first, lo, size)) +
      RowsBetween(font, toks, tmPos, texts, selection, first, lo + 1, hi, quadding, dx, border, size, y0)
  }

  /** Every option from the first row to the last is drawn, in order, the row for
      option k at baseline y0 - (k - first) * 1.1 * size. */
  lemma {:induction false} ListRowsStepDown(font: Font, toks: seq<Piece>, tmPos: int, texts: seq<PdfString>, selection: seq<bool>, first: nat, i: nat, quadding: int, dx: real, border: real, size: real, y0: real)
    requires tmPos == -1 || (0 <= tmPos && tmPos + 6 < |toks|)
    requires |selection| == |texts| && first <= i <= |texts|
    ensures ListRows(font, toks, tmPos, texts, selection, i, quadding, dx, border, size, RowY(y0, first, i, size)) ==
      RowsBetween(font, toks, tmPos, texts, selection, first, i, |texts|, quadding, dx, border, size, y0)
    decreases |texts| - i
  {
    if i < |texts| {
      var y := RowY(y0, first, i, size);
      RowYStep(y0, first, i, size);
      ListRowsStepDown(font, toks, tmPos, texts, selection, first, i + 1, quadding, dx, border, size, y0);
      ListRowsFirst(font, toks, tmPos, texts, selection, i, quadding, dx, border, size, y);
      RowsBetweenFirst(font, toks, tmPos, texts, selection, first, i, quadding, dx, border, size, y0);
    }
  }

  lemma ListRowsFirst(font: Font, toks: seq<Piece>, tmPos: int, texts: seq<PdfString>, selection: seq<bool>, i: nat, quadding: int, dx: real, border: real, size: real, y: real)
    requires tmPos == -1 || (0 <= tmPos && tmPos + 6 < |toks|)
    requires |selection| == |texts| && i < |texts|
    ensures ListRows(font, toks, tmPos, texts, selection, i, quadding, dx, border, size, y) ==
      RowOps(font, toks, tmPos, texts[i], selection[i], quadding, dx, border, size, y) +
      ListRows(font, toks, tmPos, texts, selection, i + 1, quadding, dx, border, size, NextRowY(y, size))
  {
  }

  lemma RowsBetweenFirst(font: Font, toks: seq<Piece>, tmPos: int, texts: seq<PdfString>, selection: seq<bool>, first: nat, i: nat, quadding: int, dx: real, border: real, size: real, y0: real)
    requires tmPos == -1 || (0 <= tmPos && tmPos + 6 < |toks|)
    requires |selection| == |texts| && i < |texts|
    ensures RowsBetween(font, toks, tmPos, texts, selection, first, i, |texts|, quadding, dx, border, size, y0) ==
      RowOps(font, toks, tmPos, texts[i], selection[i], quadding, dx, border, size, RowY(y0, first, i, size)) +
      RowsBetween(font, toks, tmPos, texts, selection, first, i + 1, |texts|, quadding, dx, border, size, y0)
  {
  }

  lemma InsertAround(q: seq<Piece>, h: seq<Piece>, mid: seq<Piece>, g: seq<Piece>, tail: seq<Piece>)
    requires |q| == 1 && |tail| == 3
    ensures var plain := q + [] + mid + [] + tail;
      plain == q + mid + tail &&
      q + h + mid + g + tail == plain[..1] + h + plain[1..|plain| - 3] + g + plain[|plain| - 3..]
  {
    var plain := q + mid + tail;
    assert plain[..1] == q;
    assert plain[1..|plain| - 3] == mid;
    assert plain[|plain| - 3..] == tail;
  }

  /** A row split into "q", the highlight, the text setup, the colour change and the
      string with the cleanup. */
  lemma RowOpsSplit(font: Font, toks: seq<Piece>, tmPos: int, text: PdfString, selected: bool, quadding: int, dx: real, border: real, size: real, y: real)
    requires tmPos == -1 || (0 <= tmPos && tmPos + 6 < |toks|)
    ensures var x := QuadX(quadding, dx, border, WidthAt(StringWidth(font, text), size));
      RowOps(font, toks, tmPos, text, selected, quadding, dx, border, size, y) ==
      [Txt("q\n")] + (if selected then Highlight(border, y, dx, size) else []) + RowSetup(SetTm(toks, tmPos, N4(x), N4(y)), tmPos, x, y) +
      (if selected then [Txt("1 g\n")] else []) + [ShowText(text), Txt("ET\n"), Txt("Q\n")]
  {
  }

  /** A selected row is the unselected row with the highlight put after "q" and the
      white text colour put just before the string. */
  lemma SelectedRowAddsHighlight(font: Font, toks: seq<Piece>, tmPos: int, text: PdfString, quadding: int, dx: real, border: real, size: real, y: real)
    requires tmPos == -1 || (0 <= tmPos && tmPos + 6 < |toks|)
    ensures var plain := RowOps(font, toks, tmPos, text, false, quadding, dx, border, size, y);
      var sel := RowOps(font, toks, tmPos, text, true, quadding, dx, border, size, y);
      |plain| >= 4 &&
      sel == plain[..1] + Highlight(border, y, dx, size) + plain[1..|plain| - 3] + [Txt("1 g\n")] + plain[|plain| - 3..]
  {
    var x := QuadX(quadding, dx, border, WidthAt(StringWidth(font, text), size));
    var mid := RowSetup(SetTm(toks, tmPos, N4(x), N4(y)), tmPos, x, y);
    var tail := [ShowText(text), Txt("ET\n"), Txt("Q\n")];
    RowOpsSplit(font, toks, tmPos, text, false, quadding, dx, border, size, y);
    RowOpsSplit(font, toks, tmPos, text, true, quadding, dx, border, size, y);
    InsertAround([Txt("q\n")], Highlight(border, y, dx, size), mid, [Txt("1 g\n")], tail);
  }

  //----- list-box options

  /** An option's text: the string itself, or the second element of a two-element
      array when that is a string, else empty. */
  function OptionText(xref: XRef, opt: Obj): PdfString
  {
    if opt.Str? then opt.s
    else if opt.Array? && |opt.elems| == 2 && Fetch(xref, opt.elems[1]).Str? then Fetch(xref, opt.elems[1]).s
    else []
  }

  function OptionTexts(xref: XRef, opts: seq<Obj>): (r: seq<PdfString>)
    ensures |r| == |opts|
    ensures forall i :: 0 <= i < |r| ==> r[i] == OptionText(xref, Fetch(xref, opts[i]))
  {
    if opts == [] then [] else OptionTexts(xref, opts[..|opts| - 1]) + [OptionText(xref, Fetch(xref, opts[|opts| - 1]))]
  }

  /** An option is selected when V is a string equal to its text, or an array with a
      string element equal to it. */
  predicate Selected(xref: XRef, v: Obj, text: PdfString)
  {
    (v.Str? && v.s == text) ||
    (v.Array? && exists j :: 0 <= j < |v.elems| && Fetch(xref, v.elems[j]) == Str(text))
  }

  function Selection(xref: XRef, v: Obj, texts: seq<PdfString>): (r: seq<bool>)
    ensures |r| == |texts|
  {
    if texts == [] then [] else Selection(xref, v, texts[..|texts| - 1]) + [Selected(xref, v, texts[|texts| - 1])]
  }

  /** Option i is marked selected exactly when it is Selected. */
  lemma {:induction false} SelectionAt(xref: XRef, v: Obj, texts: seq<PdfString>, i: nat)
    requires i < |texts|
    ensures Selection(xref, v, texts)[i] <==> Selected(xref, v, texts[i])
    decreases |texts|
  {
    var init := texts[..|texts| - 1];
    if i < |init| {
      SelectionAt(xref, v, init, i);
    }
  }

  /** Options with equal text are selected together. */
  lemma EqualOptionsSelectedTogether(xref: XRef, v: Obj, texts: seq<PdfString>, i: nat, j: nat)
    requires i < |texts| && j < |texts| && texts[i] == texts[j]
    ensures Selection(xref, v, texts)[i] == Selection(xref, v, texts)[j]
  {
    SelectionAt(xref, v, texts, i);
    SelectionAt(xref, v, texts, j);
  }

  //----- background and border

  /** A non-empty colour array under `key` of the MK dictionary. */
  function MkColor(xref: XRef, mk: seq<Entry>, key: string): Option<seq<Obj>>
  {
    var c := Lookup(xref, mk, key);
    if c.Array? && |c.elems| > 0 then Some(c.elems) else None
  }

  function BackgroundOps(xref: XRef, mk: Option<seq<Entry>>, dx: real, dy: real): seq<Piece>
  {
    if mk.Some? && MkColor(xref, mk.value, "BG").Some? then
      SetColorOps(xref, MkColor(xref, mk.value, "BG").value, true, 0) + [Txt("0 0 "), N4(dx), Txt(" "), N4(dy), Txt(" re f\n")]
    else []
  }

  /** The border colour: BC, else BG. */
  function BorderColor(xref: XRef, mk: seq<Entry>): Option<seq<Obj>>
  {
    if MkColor(xref, mk, "BC").Some? then MkColor(xref, mk, "BC") else MkColor(xref, mk, "BG")
  }

  function DashNums(dash: seq<real>): (r: seq<Piece>)
    ensures |r| == 2 * |dash|
  {
    if dash == [] then [] else DashNums(dash[..|dash| - 1]) + [Txt(" "), N4(dash[|dash| - 1])]
  }

  function DashOps(dash: seq<real>): seq<Piece>
  {
    [Txt("[")] + DashNums(dash) + [Txt("] 0 d\n")]
  }

  function LineWidthOps(w: real): seq<Piece>
  {
    [N4(w), Txt(" w\n")]
  }

  /** The dash pattern of a dashed border; nothing for other styles. */
  function DashIfDashed(border: Border): seq<Piece>
  {
    if border.style == Dashed then DashOps(border.dash) else []
  }

  /** A bevelled or inset round border of radius r: a circle, then the upper-left half
      in the `lighter` direction and the lower-right half the other way. */
  function BevelCircleOps(xref: XRef, color: seq<Obj>, bw: real, dx: real, dy: real, r: real, lighter: int): seq<Piece>
    requires |color| > 0
  {
    RingOps(xref, color, Half(bw), Half(dx), Half(dy), r - 0.25 * bw) +
    LitTopLeftOps(xref, color, lighter, Half(dx), Half(dy), r - 0.75 * bw) +
    LitBottomRightOps(xref, color, -lighter, Half(dx), Half(dy), r - 0.75 * bw)
  }

  /** The upper-left half circle in the border colour adjusted by `adjust`. */
  function LitTopLeftOps(xref: XRef, color: seq<Obj>, adjust: int, cx: real, cy: real, r: real): seq<Piece>
    requires |color| > 0
  {
    SetColorOps(xref, color, false, adjust) + TopLeftOps(cx, cy, r)
  }

  /** The lower-right half circle in the border colour adjusted by `adjust`. */
  function LitBottomRightOps(xref: XRef, color: seq<Obj>, adjust: int, cx: real, cy: real, r: real): seq<Piece>
    requires |color| > 0
  {
    SetColorOps(xref, color, false, adjust) + BottomRightOps(cx, cy, r)
  }

  /** A stroked circle of line width w in the border colour. */
  function RingOps(xref: XRef, color: seq<Obj>, w: real, cx: real, cy: real, r: real): seq<Piece>
    requires |color| > 0
  {
    LineWidthOps(w) + SetColorOps(xref, color, false, 0) + CircleOps(cx, cy, r, "s")
  }

  /** Half of a length: the centre of a side, or half a line width. */
  function Half(x: real): real
  {
    0.5 * x
  }

  /** The radius of a round border: half the smaller side. */
  function Radius(dx: real, dy: real): real
  {
    Half(Min(dx, dy))
  }

  /** The direction the upper-left half of a bevelled or inset border is adjusted. */
  function BevelDirection(style: BorderStyle): int
  {
    if style == Beveled then 1 else -1
  }

  /** The round border of a radio button without a caption. */
  function RoundBorderOps(xref: XRef, color: seq<Obj>, border: Border, dx: real, dy: real): seq<Piece>
    requires |color| > 0
  {
    match border.style
    case Beveled | Inset => BevelCircleOps(xref, color, border.width, dx, dy, Radius(dx, dy), BevelDirection(border.style))
    case _ => SolidCircleOps(xref, color, border, dx, dy, Radius(dx, dy))
  }

  /** A solid or dashed round border of radius r. */
  function SolidCircleOps(xref: XRef, color: seq<Obj>, border: Border, dx: real, dy: real, r: real): seq<Piece>
    requires |color| > 0
  {
    DashIfDashed(border) + RingOps(xref, color, border.width, Half(dx), Half(dy), r - Half(border.width))
  }

  /** A bevelled or inset rectangular border: the upper-left band filled in the
      `lighter` direction, the lower-right band the other way. */
  function BevelRectOps(xref: XRef, color: seq<Obj>, bw: real, dx: real, dy: real, lighter: int): seq<Piece>
    requires |color| > 0
  {
    SetColorOps(xref, color, true, lighter) + UpperBandPath(bw, dx, dy) +
    SetColorOps(xref, color, true, -lighter) + LowerBandPath(bw, dx, dy)
  }

  /** The filled band of width bw along the left and top edges. */
  function UpperBandPath(bw: real, dx: real, dy: real): seq<Piece>
  {
    [Txt("0 0 m\n"), Txt("0 "), N4(dy), Txt(" l\n")] + Point(dx, dy, " l\n") + Point(dx - bw, dy - bw, " l\n") +
    Point(bw, dy - bw, " l\n") + Point(bw, bw, " l\n") + [Txt("f\n")]
  }

  /** The filled band of width bw along the bottom and right edges. */
  function LowerBandPath(bw: real, dx: real, dy: real): seq<Piece>
  {
    [Txt("0 0 m\n"), N4(dx), Txt(" 0 l\n")] + Point(dx, dy, " l\n") + Point(dx - bw, dy - bw, " l\n") +
    Point(dx - bw, bw, " l\n") + Point(bw, bw, " l\n") + [Txt("f\n")]
  }

  /** The rectangular border, followed by the clip to its inside. */
  function RectBorderOps(xref: XRef, color: seq<Obj>, border: Border, dx: real, dy: real): seq<Piece>
    requires |color| > 0
  {
    var bw := border.width;
    var edge :=
      match border.style
      case Beveled => BevelRectOps(xref, color, bw, dx, dy, 1)
      case Inset => BevelRectOps(xref, color, bw, dx, dy, -1)
      case Underlined => UnderlineOps(xref, color, bw, dx)
      case _ => SolidRectOps(xref, color, border, dx, dy);
    edge + ClipOps(bw, dx, dy)
  }

  /** An underlined border: a line along the bottom edge. */
  function UnderlineOps(xref: XRef, color: seq<Obj>, bw: real, dx: real): seq<Piece>
    requires |color| > 0
  {
    LineWidthOps(bw) + SetColorOps(xref, color, false, 0) + [Txt("0 0 m "), N4(dx), Txt(" 0 l s\n")]
  }

  /** A solid or dashed rectangular border, stroked half a border width inside the box. */
  function SolidRectOps(xref: XRef, color: seq<Obj>, border: Border, dx: real, dy: real): seq<Piece>
    requires |color| > 0
  {
    var bw := border.width;
    DashIfDashed(border) + LineWidthOps(bw) + SetColorOps(xref, color, false, 0) +
    [Nums([0.5 * bw, 0.5 * bw, dx - bw, dy - bw], 4, " re s\n")]
  }

  /** The clip to the inside of the border. */
  function ClipOps(bw: real, dx: real, dy: real): seq<Piece>
  {
    [Nums([bw, bw, dx - 2.0 * bw, dy - 2.0 * bw], 4, " re W n\n")]
  }

  /** The border: drawn only with an MK dictionary, a positive width and a colour;
      round for a radio button without a caption. */
  function BorderOps(xref: XRef, mk: Option<seq<Entry>>, ft: Obj, flags: int, border: Border, dx: real, dy: real): seq<Piece>
  {
    if mk.Some? && border.width > 0.0 && BorderColor(xref, mk.value).Some? then
      var color := BorderColor(xref, mk.value).value;
      if IsName(ft, "Btn") && TestFlag(flags, FlagRadio) && !Lookup(xref, mk.value, "CA").Str? then
        RoundBorderOps(xref, color, border, dx, dy)
      else RectBorderOps(xref, color, border, dx, dy)
    else []
  }

  /** Without a positive width nothing of the border is drawn, and the clip to the
      inside of a rectangular border is always its last operator. */
  lemma BorderNeedsWidth(xref: XRef, mk: Option<seq<Entry>>, ft: Obj, flags: int, border: Border, dx: real, dy: real)
    ensures border.width <= 0.0 || mk.None? ==> BorderOps(xref, mk, ft, flags, border, dx, dy) == []
    ensures mk.Some? && border.width > 0.0 && BorderColor(xref, mk.value).Some? && !IsName(ft, "Btn") ==>
      var ops := BorderOps(xref, mk, ft, flags, border, dx, dy);
      |ops| >= 1 && ops[|ops| - 1..] == ClipOps(border.width, dx, dy)
  {
  }

  //----- drawNewAppearance

  /** The field's inheritable entry `key`. */
  function Inheritable(env: Env, field: FieldInfo, key: string): Obj
  {
    FieldLookup(env.doc.xref, env.formDict, field.fieldObj, key, env.maxDepth)
  }

  /** Everything drawNewAppearance reads before it draws the contents. */
  datatype Setting = Setting(
    mk: Option<seq<Entry>>, ft: Obj, border: Border, fontDict: Option<seq<Entry>>,
    da: Option<PdfString>, rot: int, state: string, box: Box)

  function SettingOf(env: Env, field: FieldInfo, annot: seq<Entry>, b: Box): Setting
  {
    var xref := env.doc.xref;
    var mkObj := Lookup(xref, annot, "MK");
    var mk := if mkObj.Dict? then Some(mkObj.entries) else None;
    var dr := Inheritable(env, field, "DR");
    var fonts := if dr.Dict? then Lookup(xref, dr.entries, "Font") else Null;
    var daObj := Inheritable(env, field, "DA");
    var rObj := if mk.Some? then Lookup(xref, mk.value, "R") else Null;
    Setting(mk, Inheritable(env, field, "FT"), BorderOf(xref, annot),
      if fonts.Dict? then Some(fonts.entries) else None,
      if daObj.Str? then Some(daObj.s) else None,
      if rObj.Int? then rObj.i else 0,
      AppearanceState(xref, annot), b)
  }

  /** drawText with the field's DA string, font dictionary, rotation and border. */
  function TextOps(env: Env, s: Setting, text: PdfString, multiline: bool, comb: int, quadding: int, txField: bool, forceZapf: bool): seq<Piece>
  {
    DrawTextOps(env.doc, s.fontDict, text, s.da, TextStyle(multiline, comb, quadding, txField, forceZapf, s.rot), s.box, s.border.width)
  }

  /** The MK caption, when it is a string. */
  function Caption(xref: XRef, mk: Option<seq<Entry>>): Option<PdfString>
  {
    if mk.Some? && Lookup(xref, mk.value, "CA").Str? then Some(Lookup(xref, mk.value, "CA").s) else None
  }

  /** A radio button without a caption: a dot filled in the MK border color, a fifth
      of the smaller side in radius, centred in the box; nothing without a BC color. */
  function RadioDotOps(xref: XRef, s: Setting): seq<Piece>
  {
    if s.mk.Some? && MkColor(xref, s.mk.value, "BC").Some? then
      var dx := Width(s.box);
      var dy := Height(s.box);
      SetColorOps(xref, MkColor(xref, s.mk.value, "BC").value, true, 0) + CircleOps(Half(dx), Half(dy), 0.2 * Min(dx, dy), "f")
    else []
  }

  /** A button's contents: radio button, pushbutton or check box by the field flags. */
  function ButtonOps(env: Env, field: FieldInfo, s: Setting): seq<Piece>
  {
    var xref := env.doc.xref;
    var caption := Caption(xref, s.mk);
    var v := Inheritable(env, field, "V");
    if TestFlag(field.flags, FlagRadio) then
      if IsName(v, s.state) then
        if caption.Some? then TextOps(env, s, caption.value, false, 0, QuadCenter, false, true)
        else RadioDotOps(xref, s)
      else []
    else if TestFlag(field.flags, FlagPushbutton) then
      if caption.Some? then TextOps(env, s, caption.value, false, 0, QuadCenter, false, false) else []
    else if v.Name? && v.name != "Off" then
      TextOps(env, s, if caption.Some? then caption.value else "3", false, 0, QuadCenter, false, true)
    else []
  }

  /** The quadding: the inheritable Q when it is an integer, else left. */
  function Quadding(env: Env, field: FieldInfo): int
  {
    var q := Inheritable(env, field, "Q");
    if q.Int? then q.i else QuadLeft
  }

  /** A text field's contents: V, or DV when V is not a string, as field text. */
  function TextFieldOps(env: Env, field: FieldInfo, s: Setting): seq<Piece>
  {
    var v0 := Inheritable(env, field, "V");
    var v := if v0.Str? then v0 else Inheritable(env, field, "DV");
    if v.Str? then
      var maxLen := Inheritable(env, field, "MaxLen");
      var comb := if TestFlag(field.flags, FlagComb) && maxLen.Int? then maxLen.i else 0;
      TextOps(env, s, v.s, TestFlag(field.flags, FlagMultiline), comb, Quadding(env, field), true, false)
    else []
  }

  /** The top index: the field's own TI when it is an integer, else 0. */
  function TopIndex(xref: XRef, field: FieldInfo): int
  {
    var ti := Lookup(xref, field.fieldObj, "TI");
    if ti.Int? then ti.i else 0
  }

  /** A choice field's contents: the combo box value, or the list box rows. */
  function ChoiceOps(env: Env, field: FieldInfo, s: Setting): seq<Piece>
  {
    var xref := env.doc.xref;
    var q := Quadding(env, field);
    if TestFlag(field.flags, FlagCombo) then
      var v := Inheritable(env, field, "V");
      if v.Str? then TextOps(env, s, v.s, false, 0, q, true, false) else []
    else
      var opt := Lookup(xref, field.fieldObj, "Opt");
      if opt.Array? then
        var texts := OptionTexts(xref, opt.elems);
        ListBoxOps(env.doc, s.fontDict, texts, Selection(xref, Inheritable(env, field, "V"), texts),
          TopIndex(xref, field), s.da, q, s.box, s.border.width)
      else []
  }

  /** The field contents, by the inherited FT name. */
  function ContentOps(env: Env, field: FieldInfo, s: Setting): seq<Piece>
  {
    if IsName(s.ft, "Btn") then ButtonOps(env, field, s)
    else if IsName(s.ft, "Tx") then TextFieldOps(env, field, s)
    else if IsName(s.ft, "Ch") then ChoiceOps(env, field, s)
    else []
  }

  /** A generated appearance: its content stream, its bounding box [0 0 width height]
      and its resources (the DR dictionary, when there is one). */
  datatype Appearance = Appearance(content: seq<Piece>, width: real, height: real, resources: Option<Obj>)

  /** The content stream drawNewAppearance builds: background, border, contents. */
  function NewAppearanceOps(env: Env, field: FieldInfo, s: Setting): seq<Piece>
  {
    BackgroundOps(env.doc.xref, s.mk, Width(s.box), Height(s.box)) +
    BorderOps(env.doc.xref, s.mk, s.ft, field.flags, s.border, Width(s.box), Height(s.box)) +
    ContentOps(env, field, s)
  }

  /** drawNewAppearance: the appearance regenerated for one annotation of the field. */
  function NewAppearance(env: Env, field: FieldInfo, annot: seq<Entry>, b: Box): (a: Appearance)
    ensures a.width == Width(b) && a.height == Height(b)
    ensures a.resources.Some? <==> Inheritable(env, field, "DR").Dict?
  {
    var s := SettingOf(env, field, annot, b);
    var dr := Inheritable(env, field, "DR");
    Appearance(NewAppearanceOps(env, field, s), Width(b), Height(b), if dr.Dict? then Some(dr) else None)
  }

  /** A check box shows its glyph whenever V is a name other than "Off", whatever the
      appearance state; without a caption the glyph is ZapfDingbats "3". */
  lemma CheckboxGlyph(env: Env, field: FieldInfo, s: Setting)
    requires IsName(s.ft, "Btn") && !TestFlag(field.flags, FlagRadio) && !TestFlag(field.flags, FlagPushbutton)
    ensures var v := Inheritable(env, field, "V");
      ContentOps(env, field, s) ==
        if v.Name? && v.name != "Off" then
          TextOps(env, s, if Caption(env.doc.xref, s.mk).Some? then Caption(env.doc.xref, s.mk).value else "3", false, 0, QuadCenter, false, true)
        else []
  {
  }

  /** A radio button draws its contents only when V names the appearance state. */
  lemma RadioDrawsOnlyInState(env: Env, field: FieldInfo, s: Setting)
    requires IsName(s.ft, "Btn") && TestFlag(field.flags, FlagRadio)
    requires ContentOps(env, field, s) != []
    ensures IsName(Inheritable(env, field, "V"), s.state)
  {
  }

  /** A signature field, and a field whose inherited FT is none of the four, get no
      contents: its generated appearance is only a background and a border. */
  lemma NoContentWithoutKnownType(env: Env, field: FieldInfo, s: Setting)
    requires !IsName(s.ft, "Btn") && !IsName(s.ft, "Tx") && !IsName(s.ft, "Ch")
    ensures ContentOps(env, field, s) == []
  {
  }

  //----- drawAnnot and draw

  /** What is drawn for one annotation: its existing appearance stream (unresolved, as
      found) or a regenerated appearance, in its box. */
  datatype Drawing = Existing(stream: Obj, box: Box) | Generated(appearance: Appearance, box: Box)

  /** drawAnnot. */
  function AnnotDrawing(env: Env, needAppearances: bool, annotPages: seq<AnnotPage>, field: FieldInfo, pageNum: int, printing: bool, annotRef: Obj, annotObj: Obj): (r: Option<Drawing>)
    ensures r.Some? ==> DrawBox(env.doc, annotPages, pageNum, printing, annotRef, annotObj) == Some(r.value.box)
    ensures DrawBox(env.doc, annotPages, pageNum, printing, annotRef, annotObj).Some? && needAppearances ==> r.Some? && r.value.Generated?
    ensures !needAppearances && r.Some? ==> r.value.Existing? && ExistingAppearance(env.doc.xref, annotObj.entries) == Some(r.value.stream)
    ensures var box := DrawBox(env.doc, annotPages, pageNum, printing, annotRef, annotObj);
      box.Some? && needAppearances ==> r == Some(Generated(NewAppearance(env, field, annotObj.entries, box.value), box.value))
    ensures var box := DrawBox(env.doc, annotPages, pageNum, printing, annotRef, annotObj);
      box.Some? && !needAppearances ==>
        var stream := ExistingAppearance(env.doc.xref, annotObj.entries);
        stream.Some? ==> r == Some(Existing(stream.value, box.value))
  {
    match DrawBox(env.doc, annotPages, pageNum, printing, annotRef, annotObj)
    case None => None
    case Some(b) =>
      if needAppearances then Some(Generated(NewAppearance(env, field, annotObj.entries, b), b))
      else match ExistingAppearance(env.doc.xref, annotObj.entries)
        case None => None
        case Some(a) => Some(Existing(a, b))
  }

  /** The drawings of a sequence of annotations, in order; those not drawn are skipped. */
  function KidDrawings(env: Env, needAppearances: bool, annotPages: seq<AnnotPage>, field: FieldInfo, pageNum: int, printing: bool, kids: seq<Obj>): (r: seq<Drawing>)
    ensures |r| <= |kids|
  {
    if kids == [] then []
    else
      var last := kids[|kids| - 1];
      var d := AnnotDrawing(env, needAppearances, annotPages, field, pageNum, printing, last, Fetch(env.doc.xref, last));
      KidDrawings(env, needAppearances, annotPages, field, pageNum, printing, kids[..|kids| - 1]) + (if d.Some? then [d.value] else [])
  }

  /** The drawings of a list of annotations are exactly the drawings of its members
      that are drawn. */
  lemma {:induction false} KidDrawingsMembers(env: Env, needAppearances: bool, annotPages: seq<AnnotPage>, field: FieldInfo, pageNum: int, printing: bool, kids: seq<Obj>)
    ensures forall d :: d in KidDrawings(env, needAppearances, annotPages, field, pageNum, printing, kids) <==>
      exists i :: 0 <= i < |kids| && AnnotDrawing(env, needAppearances, annotPages, field, pageNum, printing, kids[i], Fetch(env.doc.xref, kids[i])) == Some(d)
    decreases |kids|
  {
    if kids != [] {
      var n := |kids| - 1;
      var init := kids[..n];
      var last := AnnotDrawing(env, needAppearances, annotPages, field, pageNum, printing, kids[n], Fetch(env.doc.xref, kids[n]));
      var before := KidDrawings(env, needAppearances, annotPages, field, pageNum, printing, init);
      assert KidDrawings(env, needAppearances, annotPages, field, pageNum, printing, kids) == before + (if last.Some? then [last.value] else []);
      KidDrawingsMembers(env, needAppearances, annotPages, field, pageNum, printing, init);
      forall d | d in before
        ensures exists i :: 0 <= i < |kids| && AnnotDrawing(env, needAppearances, annotPages, field, pageNum, printing, kids[i], Fetch(env.doc.xref, kids[i])) == Some(d)
      {
        var i :| 0 <= i < |init| && AnnotDrawing(env, needAppearances, annotPages, field, pageNum, printing, init[i], Fetch(env.doc.xref, init[i])) == Some(d);
        assert init[i] == kids[i];
      }
      forall d, i | 0 <= i < n && AnnotDrawing(env, needAppearances, annotPages, field, pageNum, printing, kids[i], Fetch(env.doc.xref, kids[i])) == Some(d)
        ensures d in before
      {
        assert init[i] == kids[i];
      }
    }
  }

  /** AcroFormField::draw: the field's widget annotations are its Kids when it has a
      Kids array, else the field dictionary itself. */
  function FieldDrawings(env: Env, needAppearances: bool, annotPages: seq<AnnotPage>, field: FieldInfo, pageNum: int, printing: bool): seq<Drawing>
  {
    var kids := Lookup(env.doc.xref, field.fieldObj, "Kids");
    if kids.Array? then KidDrawings(env, needAppearances, annotPages, field, pageNum, printing, kids.elems)
    else
      var d := AnnotDrawing(env, needAppearances, annotPages, field, pageNum, printing, field.fieldRef, Dict(field.fieldObj));
      if d.Some? then [d.value] else []
  }

  /** Nothing is drawn for a field on a page none of its annotations is listed on. */
  lemma {:induction false} NothingOffPage(env: Env, needAppearances: bool, annotPages: seq<AnnotPage>, field: FieldInfo, pageNum: int, printing: bool, kids: seq<Obj>)
    requires forall k :: 0 <= k < |kids| ==> LookupAnnotPage(annotPages, kids[k]) != pageNum
    ensures KidDrawings(env, needAppearances, annotPages, field, pageNum, printing, kids) == []
  {
    if kids != [] {
      var init := kids[..|kids| - 1];
      assert forall k :: 0 <= k < |init| ==> init[k] == kids[k];
      NothingOffPage(env, needAppearances, annotPages, field, pageNum, printing, init);
    }
  }

  /** AcroForm::draw: the drawings of every field, field by field, in order. */
  function FormDrawings(env: Env, needAppearances: bool, annotPages: seq<AnnotPage>, fields: seq<FieldInfo>, pageNum: int, printing: bool): seq<Drawing>
  {
    if fields == [] then []
    else
      FormDrawings(env, needAppearances, annotPages, fields[..|fields| - 1], pageNum, printing) +
      FieldDrawings(env, needAppearances, annotPages, fields[|fields| - 1], pageNum, printing)
  }
}

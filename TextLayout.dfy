/** Placement of variable text in an annotation box: glyph widths, line breaking,
    automatic font sizing, horizontal alignment, and the rotated box extent. */
module TextLayout {
  import opened PdfObjects

  /** An annotation rectangle, normalised so that xMin <= xMax and yMin <= yMax. */
  datatype Box = Box(xMin: real, yMin: real, xMax: real, yMax: real)

  function Width(b: Box): real
  {
    b.xMax - b.xMin
  }

  function Height(b: Box): real
  {
    b.yMax - b.yMin
  }

  /** The font a DA string names, as far as layout needs it: none found, a CID font,
      or an 8-bit font with its glyph widths (in text-space units at size 1). */
  datatype Font = NoFont | CidFont | SimpleFont(widthOf: Byte -> real)

  /** Width of one byte at size 1: the 8-bit font's glyph width, otherwise the crude
      estimate 0.5. */
  function GlyphWidth(font: Font, c: Byte): real
  {
    if font.SimpleFont? then font.widthOf(c) else 0.5
  }

  /** Width of a string at size 1; 0.5 per byte when there is no 8-bit font. */
  function StringWidth(font: Font, s: PdfString): (w: real)
    ensures !font.SimpleFont? ==> w == |s| as real * 0.5
  {
    if s == [] then 0.0 else StringWidth(font, s[..|s| - 1]) + GlyphWidth(font, s[|s| - 1])
  }

  /** Width of a string at `size`, summed glyph by glyph as line breaking does it. */
  function ScaledWidth(font: Font, s: PdfString, size: real): real
  {
    if s == [] then 0.0 else ScaledWidth(font, s[..|s| - 1], size) + GlyphWidth(font, s[|s| - 1]) * size
  }

  /** The width at `size` of text that is w wide at size 1. */
  function WidthAt(w: real, size: real): real
  {
    w * size
  }

  /** Summing scaled glyph widths is scaling the summed width. */
  lemma {:induction false} ScaledWidthIsScaled(font: Font, s: PdfString, size: real)
    ensures ScaledWidth(font, s, size) == StringWidth(font, s) * size
    decreases |s|
  {
    if s != [] {
      ScaledWidthIsScaled(font, s[..|s| - 1], size);
    }
  }

  const CR: Byte := 13 as char
  const LF: Byte := 10 as char

  predicate IsLineBreak(c: Byte)
  {
    c == CR || c == LF
  }

  //----- getNextLine

  /** Where the fitting scan of a line starting at `start` stops, scanning on from `j`:
      at the end of the text, at a line break, or once the text from `start` is wider
      than wMax. */
  function FitEnd(text: PdfString, start: nat, j: nat, font: Font, size: real, wMax: real): (r: nat)
    requires start <= j <= |text|
    ensures j <= r <= |text|
    decreases |text| - j
  {
    if j < |text| && ScaledWidth(font, text[start..j], size) <= wMax && !IsLineBreak(text[j]) then
      FitEnd(text, start, j + 1, font, size, wMax)
    else j
  }

  /** The fitting scan passes no line break, and stops at the end of the text, at a line
      break, or where the text from `start` has become wider than wMax; when it runs to
      the end, all but the last byte fitted. */
  lemma {:induction false} FitEndStops(text: PdfString, start: nat, j: nat, font: Font, size: real, wMax: real)
    requires start <= j <= |text|
    ensures var r := FitEnd(text, start, j, font, size, wMax);
      (forall k :: j <= k < r ==> !IsLineBreak(text[k])) &&
      (r < |text| ==> IsLineBreak(text[r]) || ScaledWidth(font, text[start..r], size) > wMax) &&
      (r == |text| && j < r ==> ScaledWidth(font, text[start..r - 1], size) <= wMax)
    decreases |text| - j
  {
    if j < |text| && ScaledWidth(font, text[start..j], size) <= wMax && !IsLineBreak(text[j]) {
      FitEndStops(text, start, j + 1, font, size, wMax);
    }
  }

  /** The fitting scan goes on past position k: the text before k still fits and k
      is not a line break. */
  predicate ScanContinues(text: PdfString, start: nat, k: nat, font: Font, size: real, wMax: real)
    requires start <= k < |text|
  {
    ScaledWidth(font, text[start..k], size) <= wMax && !IsLineBreak(text[k])
  }

  /** A scan that goes on at every position from i up to j stops where the scan from j does. */
  lemma {:induction false} FitEndSkip(text: PdfString, start: nat, i: nat, j: nat, font: Font, size: real, wMax: real)
    requires start <= i <= j <= |text|
    requires forall k :: i <= k < j ==> ScanContinues(text, start, k, font, size, wMax)
    ensures FitEnd(text, start, i, font, size, wMax) == FitEnd(text, start, j, font, size, wMax)
    decreases j - i
  {
    if i < j {
      assert ScanContinues(text, start, i, font, size, wMax);
      FitEndSkip(text, start, i + 1, j, font, size, wMax);
    }
  }

  /** From `k`, step back over non-space bytes, but not before `start`. */
  function BackOverWord(text: PdfString, start: nat, k: nat): (r: nat)
    requires start <= k <= |text|
    ensures start <= r <= k
    decreases k
  {
    if k > start && text[k - 1] != ' ' then BackOverWord(text, start, k - 1) else k
  }

  /** From `k`, step back over space bytes, but not before `start`. */
  function BackOverSpaces(text: PdfString, start: nat, k: nat): (r: nat)
    requires start <= k <= |text|
    ensures start <= r <= k
    decreases k
  {
    if k > start && text[k - 1] == ' ' then BackOverSpaces(text, start, k - 1) else k
  }

  /** Stepping back over a word stops after a space (or at `start`); stepping back over
      spaces passes only spaces and stops after a non-space (or at `start`). */
  lemma {:induction false} BackOverStops(text: PdfString, start: nat, k: nat)
    requires start <= k <= |text|
    ensures var w := BackOverWord(text, start, k); w > start ==> text[w - 1] == ' '
    ensures var r := BackOverSpaces(text, start, k);
      (r > start ==> text[r - 1] != ' ') && forall i :: r <= i < k ==> text[i] == ' '
    decreases k
  {
    if k > start {
      BackOverStops(text, start, k - 1);
    }
  }

  /** The end of an over-wide line: before the last space-separated word, or where the
      width ran out when the line is a single word, and at least one byte. */
  function WrapPoint(text: PdfString, start: nat, j: nat): (e: nat)
    requires start < |text| && start <= j <= |text|
    ensures start < e <= |text|
  {
    var k := BackOverSpaces(text, start, BackOverWord(text, start, j));
    var j1 := if k > start then k else j;
    if j1 == start then start + 1 else j1
  }

  /** An over-wide line ends after one byte, where the width ran out, or between a
      non-space and the space that starts the gap before the last word. */
  lemma WrapPointAtWord(text: PdfString, start: nat, j: nat)
    requires start < |text| && start <= j <= |text|
    ensures var e := WrapPoint(text, start, j);
      e == start + 1 || e == j || (e < j && text[e] == ' ' && text[e - 1] != ' ')
  {
    var w := BackOverWord(text, start, j);
    BackOverStops(text, start, j);
    BackOverStops(text, start, w);
  }

  /** From `j`, skip spaces. */
  function SkipSpaces(text: PdfString, j: nat): (r: nat)
    requires j <= |text|
    ensures j <= r <= |text|
    decreases |text| - j
  {
    if j < |text| && text[j] == ' ' then SkipSpaces(text, j + 1) else j
  }

  /** Skipping spaces passes only spaces and stops at the end or at a non-space. */
  lemma {:induction false} SkipSpacesStops(text: PdfString, j: nat)
    requires j <= |text|
    ensures var r := SkipSpaces(text, j);
      (forall k :: j <= k < r ==> text[k] == ' ') && (r < |text| ==> text[r] != ' ')
    decreases |text| - j
  {
    if j < |text| && text[j] == ' ' {
      SkipSpacesStops(text, j + 1);
    }
  }

  /** The start of the next line: after the spaces that follow the line, then at most one
      CR, then at most one LF. */
  function SkipBreak(text: PdfString, j: nat): (r: nat)
    requires j <= |text|
    ensures j <= r <= |text|
  {
    var s := SkipSpaces(text, j);
    var c := if s < |text| && text[s] == CR then s + 1 else s;
    if c < |text| && text[c] == LF then c + 1 else c
  }

  /** What SkipBreak passes after the spaces: CR LF, a single CR or LF, or nothing, in
      which case it stops before a byte that is not a line break. */
  lemma SkipBreakShape(text: PdfString, j: nat)
    requires j <= |text|
    ensures var s := SkipSpaces(text, j); var r := SkipBreak(text, j);
      s <= r <= s + 2 &&
      (r == s + 2 ==> text[s] == CR && text[s + 1] == LF) &&
      (r == s + 1 ==> IsLineBreak(text[s])) &&
      (r < |text| && r == s ==> !IsLineBreak(text[r])) &&
      (r < |text| && r == s + 1 && text[s] == CR ==> text[r] != LF)
  {
  }

  /** One line of multi-line text: the bytes [start, end) are drawn, `width` is their
      width, and the next line starts at `next`. */
  datatype LineBreak = LineBreak(end: nat, width: real, next: nat)

  /** getNextLine: the next line of `text` from `start` at `size`, broken to fit wMax. */
  function NextLine(text: PdfString, start: nat, font: Font, size: real, wMax: real): (r: LineBreak)
    requires start < |text|
    ensures start <= r.end <= r.next <= |text| && start < r.next
  {
    var j0 := FitEnd(text, start, start, font, size, wMax);
    FitEndStops(text, start, start, font, size, wMax);
    var e := if ScaledWidth(font, text[start..j0], size) > wMax then WrapPoint(text, start, j0) else j0;
    LineBreak(e, ScaledWidth(font, text[start..e], size), SkipBreak(text, e))
  }

  /** A line is never empty: the next line starts after it; it holds no line break
      unless wMax is negative; its width is its scaled width; the next line starts
      after the spaces and the line break that follow it; and it ends before a byte
      other than a line break only when the text from its start became too wide. */
  lemma NextLineShape(text: PdfString, start: nat, font: Font, size: real, wMax: real)
    requires start < |text|
    ensures var r := NextLine(text, start, font, size, wMax);
      r.width == ScaledWidth(font, text[start..r.end], size) &&
      r.next == SkipBreak(text, r.end) &&
      (wMax >= 0.0 ==> forall k :: start <= k < r.end ==> !IsLineBreak(text[k])) &&
      (r.end < |text| && !IsLineBreak(text[r.end]) ==>
        exists j :: start <= j <= |text| && ScaledWidth(font, text[start..j], size) > wMax)
  {
    FitEndStops(text, start, start, font, size, wMax);
  }

  /** Number of lines the text from `i` is broken into. */
  function LineCount(text: PdfString, i: nat, font: Font, size: real, wMax: real): nat
    requires i <= |text|
    decreases |text| - i
  {
    if i == |text| then 0 else 1 + LineCount(text, NextLine(text, i, font, size, wMax).next, font, size, wMax)
  }

  /** No line starts at the end of the text. */
  lemma NoLineAtEnd(text: PdfString, font: Font, size: real, wMax: real)
    ensures LineCount(text, |text|, font, size, wMax) == 0
  {
  }

  /** Whether broken text at `size` fits a box of height dy: the baseline below the last
      line, starting 3 units below the top and one size per line, stays above 0.33 size. */
  predicate FitsAt(text: PdfString, font: Font, size: real, wMax: real, dy: real)
  {
    LinesFit(LineCount(text, 0, font, size, wMax), size, dy)
  }

  /** n lines at `size` fit a box of height dy: the top lowered by one size per line
      stays above 0.33 size. */
  predicate LinesFit(n: nat, size: real, dy: real)
  {
    Lowered(dy - 3.0, size, n) >= 0.33 * size
  }

  /** A height lowered by `size` n times. */
  function Lowered(top: real, size: real, n: nat): real
  {
    if n == 0 then top else Lowered(top, size, n - 1) - size
  }

  /** Lowering n times by `size` is lowering by n times `size`, so n lines fit when
      dy - 3 - n size >= 0.33 size. */
  lemma {:induction false} LoweredIsProduct(top: real, size: real, n: nat)
    ensures Lowered(top, size, n) == top - size * n as real
  {
    if n > 0 {
      LoweredIsProduct(top, size, n - 1);
      assert size * n as real == size * (n - 1) as real + size;
    }
  }

  /** FitsAt for a whole-number size. */
  predicate FitsAtSize(text: PdfString, font: Font, size: int, wMax: real, dy: real)
  {
    FitsAt(text, font, size as real, wMax, dy)
  }

  /** The downward search for a multi-line font size: the first size from `s` down to 2
      that fits, or 1. */
  function SearchSize(text: PdfString, font: Font, wMax: real, dy: real, s: int): (r: int)
    ensures 1 <= r && (s >= 1 ==> r <= s)
    decreases s
  {
    if s <= 1 then 1
    else if FitsAtSize(text, font, s, wMax, dy) then s
    else SearchSize(text, font, wMax, dy, s - 1)
  }

  /** The search finds a size that fits, unless it gives up at 1. */
  lemma {:induction false} SearchSizeFits(text: PdfString, font: Font, wMax: real, dy: real, s: int)
    ensures SearchSize(text, font, wMax, dy, s) >= 2 ==> FitsAtSize(text, font, SearchSize(text, font, wMax, dy, s), wMax, dy)
    decreases s
  {
    if s > 1 && !FitsAtSize(text, font, s, wMax, dy) {
      SearchSizeFits(text, font, wMax, dy, s - 1);
    }
  }

  /** No size above the one the search finds, up to `s`, fits. */
  lemma {:induction false} SearchSizeIsLargest(text: PdfString, font: Font, wMax: real, dy: real, s: int)
    ensures forall t :: SearchSize(text, font, wMax, dy, s) < t <= s ==> !FitsAtSize(text, font, t, wMax, dy)
    decreases s
  {
    var r := SearchSize(text, font, wMax, dy, s);
    if s > 1 && !FitsAtSize(text, font, s, wMax, dy) {
      SearchSizeIsLargest(text, font, wMax, dy, s - 1);
      assert r == SearchSize(text, font, wMax, dy, s - 1);
    }
  }

  /** The automatic font size of multi-line text: the largest whole size from 20 down
      to 2 at which the broken text fits the box, else 1. */
  function MultilineAutoSize(text: PdfString, font: Font, wMax: real, dy: real): (r: int)
    ensures 1 <= r <= 20
  {
    SearchSize(text, font, wMax, dy, 20)
  }

  /** The multi-line automatic size fits, unless it is the fallback 1, and is the
      largest whole size up to 20 that does. */
  lemma MultilineAutoSizeIsLargestFit(text: PdfString, font: Font, wMax: real, dy: real)
    ensures var r := MultilineAutoSize(text, font, wMax, dy);
      (r >= 2 ==> FitsAt(text, font, r as real, wMax, dy)) &&
      (r == 1 ==> forall t :: 2 <= t <= 20 ==> !FitsAtSize(text, font, t, wMax, dy)) &&
      forall t :: r < t <= 20 ==> !FitsAtSize(text, font, t, wMax, dy)
  {
    SearchSizeFits(text, font, wMax, dy, 20);
    SearchSizeIsLargest(text, font, wMax, dy, 20);
  }

  //----- single-line sizes and alignment

  function Floor(x: real): (r: real)
    ensures r <= x < r + 1.0
  {
    x.Floor as real
  }

  function Min(a: real, b: real): real
  {
    if b < a then b else a
  }

  /** The automatic font size of one line of text whose width at size 1 is w: the whole
      part of the smaller of the height bound and the width bound; a zero width leaves
      only the height bound. */
  function AutoSize(hAvail: real, wAvail: real, w: real): real
  {
    if w == 0.0 then Floor(hAvail) else Floor(Min(hAvail, wAvail / w))
  }

  /** The auto size is a whole size within both bounds, and one size larger would
      break one of them. */
  lemma AutoSizeIsLargestFit(hAvail: real, wAvail: real, w: real)
    requires w > 0.0
    ensures var s := AutoSize(hAvail, wAvail, w);
      s == s.Floor as real && s <= hAvail && s * w <= wAvail &&
      (s + 1.0 > hAvail || s + 1.0 > wAvail / w)
  {
    var b := wAvail / w;
    var s := Floor(Min(hAvail, b));
    assert b * w == wAvail;
    assert s * w <= b * w;
  }

  /** The height available to single-line text inside the border. */
  function InnerHeight(dy: real, border: real): real
  {
    dy - 2.0 * border
  }

  /** The width available to single-line text inside the border and its padding. */
  function InnerWidth(dx: real, border: real): real
  {
    dx - 4.0 - 2.0 * border
  }

  /** The baseline of single-line text of the given size, centred vertically. */
  function Baseline(dy: real, size: real): real
  {
    0.5 * dy - 0.4 * size
  }

  /** The width of one comb cell. */
  function CombCellWidth(dx: real, border: real, comb: nat): real
    requires comb > 0
  {
    (dx - 2.0 * border) / comb as real
  }

  /** A comb field of 5 cells in a 100-unit box with a 5-unit border has 18-unit cells,
      which cap the automatic size at 18. */
  lemma CombCellExample(dy: real)
    requires dy >= 28.0
    ensures CombCellWidth(100.0, 5.0, 5) == 18.0
    ensures Floor(Min(dy - 2.0 * 5.0, CombCellWidth(100.0, 5.0, 5))) == 18.0
  {
  }

  /** Horizontal start of a line of width w (already scaled) in a box dx wide: left
      aligned 2 units inside the border, centred, or right aligned 2 units inside it. */
  function QuadX(quadding: int, dx: real, border: real, w: real): (x: real)
    ensures quadding == 1 ==> x == dx - (x + w)
    ensures quadding == 2 ==> x + w == dx - border - 2.0
    ensures quadding != 1 && quadding != 2 ==> x == border + 2.0
  {
    if quadding == 1 then (dx - w) / 2.0
    else if quadding == 2 then dx - border - 2.0 - w
    else border + 2.0
  }

  /** Horizontal start of comb text of n bytes in `comb` cells of width w. */
  function CombX(quadding: int, border: real, comb: int, n: int, w: real): (x: real)
    ensures quadding == 2 ==> x + n as real * w == border + 2.0 + comb as real * w
    ensures quadding == 1 ==> (x - (border + 2.0)) * 2.0 == (comb - n) as real * w
    ensures quadding != 1 && quadding != 2 ==> x == border + 2.0
  {
    if quadding == 1 then border + 2.0 + 0.5 * (comb - n) as real * w
    else if quadding == 2 then border + 2.0 + (comb - n) as real * w
    else border + 2.0
  }

  /** The width and height of the box the text is laid out in, after rotation by
      `rot` degrees. */
  function Extent(rot: int, b: Box): (e: (real, real))
    ensures rot == 90 || rot == 270 ==> e == (Height(b), Width(b))
    ensures rot != 90 && rot != 180 && rot != 270 ==> e == (Width(b), Height(b))
  {
    if rot == 90 then (Height(b), Width(b))
    else if rot == 180 then (b.xMax - b.yMax, Height(b))
    else if rot == 270 then (Height(b), Width(b))
    else (Width(b), Height(b))
  }

  /** Under a 180-degree rotation the layout width is xMax - yMax rather than the box
      width; the two agree only when yMax equals xMin. */
  lemma Rotate180Width(b: Box)
    ensures Extent(180, b).0 == Width(b) <==> b.yMax == b.xMin
    ensures Extent(180, b).1 == Height(b)
  {
  }

  /** Largest width at size 1 among the texts, and 0 when there are none or all are
      narrower than 0. */
  function MaxWidth(font: Font, texts: seq<PdfString>): (m: real)
    ensures m >= 0.0
    ensures forall i :: 0 <= i < |texts| ==> StringWidth(font, texts[i]) <= m
    ensures m == 0.0 || exists i :: 0 <= i < |texts| && m == StringWidth(font, texts[i])
  {
    if texts == [] then 0.0
    else
      var m := MaxWidth(font, texts[..|texts| - 1]);
      var w := StringWidth(font, texts[|texts| - 1]);
      if w > m then w else m
  }
}

/** The interactive form and its fields as objects: AcroForm owns the annotation-page
    list and the loaded fields; AcroFormField holds one field and the content buffer its
    regenerated appearance is written into.  Every method is proved against the
    specification functions of FormSpec and AppearanceSpec. */
module AcroForms {
  import opened PdfObjects
  import opened FieldTypes
  import opened ContentText
  import opened DefaultAppearance
  import opened TextLayout
  import opened Colors
  import opened FormSpec
  import opened AppearanceSpec

  /** The field records of a list of loaded fields. */
  function Infos(fs: seq<AcroFormField>): (r: seq<FieldInfo>)
    ensures |r| == |fs|
    ensures forall i :: 0 <= i < |fs| ==> r[i] == fs[i].Info()
  {
    if fs == [] then [] else Infos(fs[..|fs| - 1]) + [fs[|fs| - 1].Info()]
  }

  lemma InfosSnoc(fs: seq<AcroFormField>, f: AcroFormField)
    ensures Infos(fs + [f]) == Infos(fs) + [f.Info()]
  {
    assert (fs + [f])[..|fs|] == fs;
  }

  lemma PageEntriesSnoc(annots: seq<Obj>, i: nat, pageNum: int)
    requires i < |annots|
    ensures PageEntries(annots[..i + 1], pageNum) ==
      PageEntries(annots[..i], pageNum) + (if annots[i].Ref? then [AnnotPage(annots[i].num, annots[i].gen, pageNum)] else [])
  {
    assert annots[..i + 1][..i] == annots[..i];
  }

  lemma AnnotPageListSnoc(xref: XRef, pages: seq<Obj>, p: nat)
    requires 1 <= p <= |pages|
    ensures AnnotPageList(xref, pages[..p]) == AnnotPageList(xref, pages[..p - 1]) + PageEntries(AnnotsOf(xref, pages[p - 1]), p)
  {
    assert pages[..p][..p - 1] == pages[..p - 1];
  }

  lemma ScaledWidthSnoc(font: Font, text: PdfString, start: nat, k: nat, size: real)
    requires start <= k < |text|
    ensures ScaledWidth(font, text[start..k + 1], size) == ScaledWidth(font, text[start..k], size) + GlyphWidth(font, text[k]) * size
  {
    assert text[start..k + 1][..k - start] == text[start..k];
  }

  lemma KidDrawingsSnoc(env: Env, needAppearances: bool, annotPages: seq<AnnotPage>, field: FieldInfo, pageNum: int, printing: bool,
                        kids: seq<Obj>, i: nat)
    requires i < |kids|
    ensures var d := AnnotDrawing(env, needAppearances, annotPages, field, pageNum, printing, kids[i], Fetch(env.doc.xref, kids[i]));
      KidDrawings(env, needAppearances, annotPages, field, pageNum, printing, kids[..i + 1]) ==
      KidDrawings(env, needAppearances, annotPages, field, pageNum, printing, kids[..i]) + (if d.Some? then [d.value] else [])
  {
    assert kids[..i + 1][..i] == kids[..i];
  }

  lemma FormDrawingsSnoc(env: Env, needAppearances: bool, annotPages: seq<AnnotPage>, fs: seq<AcroFormField>,
                          i: nat, pageNum: int, printing: bool)
    requires i < |fs|
    ensures FormDrawings(env, needAppearances, annotPages, Infos(fs[..i + 1]), pageNum, printing) ==
      FormDrawings(env, needAppearances, annotPages, Infos(fs[..i]), pageNum, printing) +
      FieldDrawings(env, needAppearances, annotPages, fs[i].Info(), pageNum, printing)
  {
    assert fs[..i + 1] == fs[..i] + [fs[i]];
    InfosSnoc(fs[..i], fs[i]);
    assert Infos(fs[..i + 1])[..i] == Infos(fs[..i]);
  }

  /** The variables of the inheritance loop of load hold the attributes `acc`: the
      name, the type name, and the flags as a 32-bit word once found. */
  predicate Tracks(acc: Inherited, nameA: seq<Unicode>, typeStr: Option<string>, flagsA: int, haveFlags: bool)
  {
    acc.name == nameA && acc.ft == typeStr && (haveFlags <==> acc.flags.Some?) &&
    flagsA == if haveFlags then ToUint32(acc.flags.value) else 0
  }

  lemma TokensSkipSpace(da: PdfString, i: nat)
    requires i < |da| && IsSpace(da[i])
    ensures Tokens(da[i..]) == Tokens(da[i + 1..])
  {
    assert da[i..][1..] == da[i + 1..];
  }

  lemma TokensTakeRun(da: PdfString, i: nat, j: nat)
    requires i < j <= |da|
    requires forall k :: i <= k < j ==> !IsSpace(da[k])
    requires j < |da| ==> IsSpace(da[j])
    ensures Tokens(da[i..]) == [da[i..j]] + Tokens(da[j..])
  {
    var s := da[i..];
    RunLengthIs(s, j - i);
    assert s[..j - i] == da[i..j];
    assert s[j - i..] == da[j..];
  }

  lemma LastIndexSnoc(toks: seq<PdfString>, op: PdfString, lo: nat, i: nat)
    requires i < |toks|
    ensures LastIndex(toks[..i + 1], op, lo) ==
      if i >= lo && toks[i] == op then i else LastIndex(toks[..i], op, lo)
  {
    assert toks[..i + 1][..i] == toks[..i];
  }

  lemma DaOpsSnoc(toks: seq<Piece>, i: nat)
    requires i < |toks|
    ensures DaOps(toks[..i + 1]) == DaOps(toks[..i]) + [toks[i], Txt(" ")]
  {
    assert toks[..i + 1][..i] == toks[..i];
  }

  lemma EscapeSnoc(s: PdfString, i: nat)
    requires i < |s|
    ensures Escape(s[..i + 1]) == Escape(s[..i]) + EscapeByte(s[i])
  {
    assert s[..i + 1][..i] == s[..i];
  }

  lemma StringWidthSnoc(font: Font, s: PdfString, i: nat)
    requires i < |s|
    ensures StringWidth(font, s[..i + 1]) == StringWidth(font, s[..i]) + GlyphWidth(font, s[i])
  {
    assert s[..i + 1][..i] == s[..i];
  }

  lemma CombCellsSnoc(b: seq<Piece>, s: PdfString, i: nat, w: real)
    requires i < |s|
    ensures b + CombCells(s[..i + 1], w) ==
      if i > 0 then b + CombCells(s[..i], w) + [N4(w), Txt(" 0 Td\n")] + CombCell(s[i], w)
      else b + CombCells(s[..i], w) + CombCell(s[i], w)
  {
    assert s[..i + 1][..i] == s[..i];
  }

  lemma MaxWidthSnoc(font: Font, texts: seq<PdfString>, i: nat)
    requires i < |texts|
    ensures MaxWidth(font, texts[..i + 1]) ==
      if StringWidth(font, texts[i]) > MaxWidth(font, texts[..i]) then StringWidth(font, texts[i]) else MaxWidth(font, texts[..i])
  {
    assert texts[..i + 1][..i] == texts[..i];
  }

  /** Two token lists that differ at most in the translation operands of the Tm
      operator at tmPos. */
  predicate SameOutsideTm(t1: seq<Piece>, t2: seq<Piece>, tmPos: int)
  {
    |t1| == |t2| && forall k :: 0 <= k < |t1| && (tmPos < 0 || (k != tmPos + 4 && k != tmPos + 5)) ==> t1[k] == t2[k]
  }

  /** Rewriting the Tm translation operands makes earlier values of those two operands
      irrelevant. */
  lemma SetTmOverwrites(t1: seq<Piece>, t2: seq<Piece>, tmPos: int, x: Piece, y: Piece)
    requires tmPos == -1 || (0 <= tmPos && tmPos + 6 < |t1|)
    requires SameOutsideTm(t1, t2, tmPos)
    ensures SetTm(t1, tmPos, x, y) == SetTm(t2, tmPos, x, y)
  {
    if tmPos < 0 {
      assert t1 == t2;
    }
  }

  /** The lines from i are the line that starts there followed by the lines after it. */
  lemma LinesOpsStep(text: PdfString, i: nat, font: Font, size: real, wMax: real, quadding: int, dx: real, border: real,
                     xPrev: real, end: nat, w: real, next: nat, x: real)
    requires i < |text|
    requires LineBreak(end, w, next) == NextLine(text, i, font, size, wMax)
    requires x == QuadX(quadding, dx, border, w)
    ensures LinesOps(text, i, font, size, wMax, quadding, dx, border, xPrev) ==
      LineOps(x, xPrev, size, text[i..end]) + LinesOps(text, next, font, size, wMax, quadding, dx, border, x)
  {
  }

  /** A line is its move followed by its show-text piece. */
  lemma LineOpsParts(x: real, xPrev: real, size: real, line: PdfString)
    ensures LineOps(x, xPrev, size, line) == [Nums([x - xPrev, -size], 4, " Td\n")] + [ShowText(line)]
  {
  }

  /** Multi-line text is the DA string with its size and matrix set, the text matrix,
      and the lines. */
  lemma MultilineBodyParts(d: DaInfo, text: PdfString, quadding: int, dx: real, dy: real, border: real,
                           wMax: real, size: real, y: real, toks: seq<Piece>)
    requires DaPositions(d)
    requires wMax == LineWidthMax(dx, border) && y == dy - 3.0
    requires size == if d.fontSize == 0.0 then MultilineAutoSize(text, d.font, wMax, dy) as real else d.fontSize
    requires toks == SetTm(SetSize(d.toks, d.tfPos, d.fontSize == 0.0, N2(size)), d.tmPos, Txt("0"), N4(y))
    ensures MultilineBody(d, text, quadding, dx, dy, border) ==
      DaOps(toks) + TmOps(d.tmPos, Txt("0"), y) + LinesOps(text, 0, d.font, size, wMax, quadding, dx, border, 0.0)
  {
  }

  /** Comb text is the DA string with its size and matrix set, the text matrix, and the
      cells. */
  lemma CombBodyParts(d: DaInfo, text: PdfString, comb: int, quadding: int, dx: real, dy: real, border: real,
                      w: real, size: real, x: real, y: real, toks: seq<Piece>)
    requires DaPositions(d) && comb > 0
    requires w == CombCellWidth(dx, border, comb)
    requires size == if d.fontSize == 0.0 then Floor(Min(InnerHeight(dy, border), w)) else d.fontSize
    requires x == CombX(quadding, border, comb, |text|, w) && y == Baseline(dy, size)
    requires toks == SetTm(SetSize(d.toks, d.tfPos, d.fontSize == 0.0, N4(size)), d.tmPos, N4(x), N4(y))
    ensures CombBody(d, text, comb, quadding, dx, dy, border) == DaOps(toks) + TmOps(d.tmPos, N4(x), y) + CombCells(text, w)
  {
  }

  /** Single-line text is the DA string with its size and matrix set, the text matrix,
      and the string. */
  lemma PlainBodyParts(d: DaInfo, text: PdfString, quadding: int, dx: real, dy: real, border: real,
                       size: real, x: real, y: real, toks: seq<Piece>)
    requires DaPositions(d)
    requires size == PlainSize(d, text, dx, dy, border)
    requires x == QuadX(quadding, dx, border, WidthAt(StringWidth(d.font, text), size)) && y == Baseline(dy, size)
    requires toks == SetTm(SetSize(d.toks, d.tfPos, d.fontSize == 0.0, N4(size)), d.tmPos, N4(x), N4(y))
    ensures PlainBody(d, text, quadding, dx, dy, border) == DaOps(toks) + TmOps(d.tmPos, N4(x), y) + [ShowText(text)]
  {
  }

  // The lemmas below only regroup `+` on sequences and model nothing of the form.
  // They are called where a method has appended several pieces to its buffer, so
  // that the proof of its postcondition does not have to find the regrouping itself.

  /** Appending a part and then the rest is appending the whole. */
  lemma AppendThenRest<T>(before: seq<T>, after: seq<T>, part: seq<T>, rest: seq<T>)
    requires after == before + part
    ensures after + rest == before + (part + rest)
  {
  }

  /** Two appends in turn are one append of the two parts. */
  lemma AppendTwo<T>(b: seq<T>, p: seq<T>, q: seq<T>)
    ensures b + p + q == b + (p + q)
  {
  }

  /** Three appends in turn are one append of the three parts. */
  lemma AppendThree<T>(b: seq<T>, p: seq<T>, q: seq<T>, r: seq<T>)
    ensures b + p + q + r == b + (p + q + r)
  {
  }

  lemma AppendFour<T>(b: seq<T>, p1: seq<T>, p2: seq<T>, p3: seq<T>, p4: seq<T>)
    ensures b + p1 + p2 + p3 + p4 == b + (p1 + p2 + p3 + p4)
  {
  }


  /** A list-box row depends on the token list only outside the Tm translation
      operands, which it overwrites. */
  lemma RowOpsOverwrites(font: Font, t1: seq<Piece>, t2: seq<Piece>, tmPos: int, text: PdfString, selected: bool,
                         quadding: int, dx: real, border: real, size: real, y: real)
    requires tmPos == -1 || (0 <= tmPos && tmPos + 6 < |t1|)
    requires SameOutsideTm(t1, t2, tmPos)
    ensures RowOps(font, t1, tmPos, text, selected, quadding, dx, border, size, y) ==
      RowOps(font, t2, tmPos, text, selected, quadding, dx, border, size, y)
  {
    var x := QuadX(quadding, dx, border, WidthAt(StringWidth(font, text), size));
    SetTmOverwrites(t1, t2, tmPos, N4(x), N4(y));
  }

  class AcroForm {
    const env: Env
    var needAppearances: bool
    var annotPages: seq<AnnotPage>
    var fields: seq<AcroFormField>

    /** Every loaded field belongs to this form. */
    predicate Valid()
      reads this
    {
      forall f :: f in fields ==> f.acroForm == this
    }

    constructor (env: Env)
      ensures this.env == env && !needAppearances && annotPages == [] && fields == []
      ensures Valid()
    {
      this.env := env;
      needAppearances := false;
      annotPages := [];
      fields := [];
    }

    /** AcroForm::load: the form, or null when the Fields entry is not an array. */
    static method Load(env: Env) returns (form: AcroForm?)
      ensures var fieldsObj := Lookup(env.doc.xref, env.formDict, "Fields");
        (form == null <==> !fieldsObj.Array?) &&
        (form != null ==>
          fresh(form) && form.Valid() && form.env == env &&
          form.needAppearances == NeedAppearances(env.doc.xref, env.formDict) &&
          form.annotPages == AnnotPageList(env.doc.xref, env.doc.pageAnnots) &&
          Infos(form.fields) == FormSpec.ScanKids(env.doc.xref, env.doc.decodeText, env.maxDepth, fieldsObj.elems, env.maxDepth))
    {
      var xref := env.doc.xref;
      form := new AcroForm(env);
      var obj1 := Lookup(xref, env.formDict, "NeedAppearances");
      if obj1.Bool? {
        form.needAppearances := obj1.b;
      }
      form.BuildAnnotPageList();
      var fieldsObj := Lookup(xref, env.formDict, "Fields");
      if !fieldsObj.Array? {
        return null;
      }
      form.ScanKids(fieldsObj.elems, env.maxDepth);
    }

    /** buildAnnotPageList: one entry per reference in each page's Annots array, pages
        in order. */
    method BuildAnnotPageList()
      modifies this
      ensures annotPages == old(annotPages) + AnnotPageList(env.doc.xref, env.doc.pageAnnots)
      ensures fields == old(fields) && needAppearances == old(needAppearances)
    {
      var xref := env.doc.xref;
      var pages := env.doc.pageAnnots;
      var pageNum := 1;
      while pageNum <= |pages|
        invariant 1 <= pageNum <= |pages| + 1
        invariant annotPages == old(annotPages) + AnnotPageList(xref, pages[..pageNum - 1])
        invariant fields == old(fields) && needAppearances == old(needAppearances)
      {
        var annotsObj := Fetch(xref, pages[pageNum - 1]);
        if annotsObj.Array? {
          AddPageEntries(annotsObj.elems, pageNum);
        }
        AnnotPageListSnoc(xref, pages, pageNum);
        AppendTwo(old(annotPages), AnnotPageList(xref, pages[..pageNum - 1]), PageEntries(AnnotsOf(xref, pages[pageNum - 1]), pageNum));
        pageNum := pageNum + 1;
      }
      assert pages[..pageNum - 1] == pages;
    }

    /** The inner loop of buildAnnotPageList: an entry for each reference element of
        one page's Annots array. */
    method AddPageEntries(annots: seq<Obj>, pageNum: int)
      modifies this
      ensures annotPages == old(annotPages) + PageEntries(annots, pageNum)
      ensures fields == old(fields) && needAppearances == old(needAppearances)
    {
      var i := 0;
      while i < |annots|
        invariant 0 <= i <= |annots|
        invariant annotPages == old(annotPages) + PageEntries(annots[..i], pageNum)
        invariant fields == old(fields) && needAppearances == old(needAppearances)
      {
        var annotObj := annots[i];
        PageEntriesSnoc(annots, i, pageNum);
        if annotObj.Ref? {
          annotPages := annotPages + [AnnotPage(annotObj.num, annotObj.gen, pageNum)];
        }
        i := i + 1;
      }
      assert annots[..i] == annots;
    }

    /** lookupAnnotPage: the page of the first list entry for the reference, else 0. */
    method LookupAnnotPage(annotRef: Obj) returns (page: int)
      ensures page == FormSpec.LookupAnnotPage(annotPages, annotRef)
    {
      if !annotRef.Ref? {
        return 0;
      }
      var i := 0;
      while i < |annotPages|
        invariant 0 <= i <= |annotPages|
        invariant FormSpec.LookupAnnotPage(annotPages, annotRef) == FormSpec.LookupAnnotPage(annotPages[i..], annotRef)
      {
        var annotPage := annotPages[i];
        if annotPage.annotNum == annotRef.num && annotPage.annotGen == annotRef.gen {
          return annotPage.pageNum;
        }
        assert annotPages[i..][1..] == annotPages[i + 1..];
        i := i + 1;
      }
      return 0;
    }

    /** The checks drawAnnot makes before drawing: the annotation is a dictionary listed
        on this page, its flags show it, its optional content is not hidden, and its
        rectangle is well formed. */
    method AnnotBox(pageNum: int, printing: bool, annotRef: Obj, annotObj: Obj) returns (box: Option<Box>)
      ensures box == DrawBox(env.doc, annotPages, pageNum, printing, annotRef, annotObj)
    {
      var doc := env.doc;
      if !annotObj.Dict? {
        return None;
      }
      // get the page number
      var page := LookupAnnotPage(annotRef);
      if page != pageNum {
        return None;
      }
      // check annotation flags
      var obj1 := Lookup(doc.xref, annotObj.entries, "F");
      var annotFlags := if obj1.Int? then obj1.i else 0;
      if TestFlag(annotFlags, AnnotHidden) || (printing && !TestFlag(annotFlags, AnnotPrint)) ||
         (!printing && TestFlag(annotFlags, AnnotNoView)) {
        return None;
      }
      // check the optional content entry
      if doc.ocVisible(LookupNF(annotObj.entries, "OC")) == Some(false) {
        return None;
      }
      // get the bounding box
      box := AcroFormField.ReadRect(doc.xref, annotObj.entries);
    }

    /** scanField: loads the terminal fields under `fieldRef` and appends them to the
        field list; a non-terminal node is descended at most `fuel` more levels. */
    method ScanField(fieldRef: Obj, fuel: nat)
      requires Valid()
      modifies this
      ensures Valid()
      ensures Infos(fields) == Infos(old(fields)) + FormSpec.ScanField(env.doc.xref, env.doc.decodeText, env.maxDepth, fieldRef, fuel)
      ensures needAppearances == old(needAppearances) && annotPages == old(annotPages)
      decreases fuel, 1
    {
      var xref := env.doc.xref;
      var fieldObj := Fetch(xref, fieldRef);
      if !fieldObj.Dict? {
        return;
      }
      var isTerminal := true;
      var kidsObj := Lookup(xref, fieldObj.entries, "Kids");
      if kidsObj.Array? {
        isTerminal := HasWidgetKid(xref, kidsObj.elems);
        if !isTerminal && fuel > 0 {
          ScanKids(kidsObj.elems, fuel - 1);
        }
      }
      assert isTerminal == IsTerminal(xref, fieldObj.entries);
      if isTerminal {
        AddField(fieldRef);
      }
    }

    /** A terminal field is loaded and appended to the field list, unless it fails to
        load. */
    method AddField(fieldRef: Obj)
      requires Valid() && Fetch(env.doc.xref, fieldRef).Dict?
      modifies this
      ensures Valid()
      ensures var r := LoadField(env.doc.xref, env.doc.decodeText, env.maxDepth, fieldRef);
        Infos(fields) == Infos(old(fields)) + (if r.Some? then [r.value] else [])
      ensures needAppearances == old(needAppearances) && annotPages == old(annotPages)
    {
      var field := AcroFormField.Load(this, fieldRef);
      if field != null {
        InfosSnoc(fields, field);
        fields := fields + [field];
      }
    }

    /** The first kids loop of scanField: whether some kid is a widget annotation (a
        dictionary without a Parent entry), which makes the node a terminal field. */
    static method HasWidgetKid(xref: XRef, kids: seq<Obj>) returns (isTerminal: bool)
      ensures isTerminal <==> exists j :: 0 <= j < |kids| && IsWidgetKid(xref, kids[j])
    {
      isTerminal := false;
      var i := 0;
      while !isTerminal && i < |kids|
        invariant 0 <= i <= |kids|
        invariant isTerminal <==> exists j :: 0 <= j < i && IsWidgetKid(xref, kids[j])
      {
        var kidObj := Fetch(xref, kids[i]);
        if kidObj.Dict? {
          if Lookup(xref, kidObj.entries, "Parent") == Null {
            isTerminal := true;
          }
        }
        i := i + 1;
      }
    }

    /** The second kids loop of scanField: scan each kid, in order. */
    method ScanKids(kids: seq<Obj>, fuel: nat)
      requires Valid()
      modifies this
      ensures Valid()
      ensures Infos(fields) == Infos(old(fields)) + FormSpec.ScanKids(env.doc.xref, env.doc.decodeText, env.maxDepth, kids, fuel)
      ensures needAppearances == old(needAppearances) && annotPages == old(annotPages)
      decreases fuel, 2
    {
      var i := 0;
      while i < |kids|
        invariant 0 <= i <= |kids|
        invariant Valid()
        invariant Infos(fields) == Infos(old(fields)) + FormSpec.ScanKids(env.doc.xref, env.doc.decodeText, env.maxDepth, kids[..i], fuel)
        invariant needAppearances == old(needAppearances) && annotPages == old(annotPages)
      {
        ScanField(kids[i], fuel);
        assert kids[..i + 1][..i] == kids[..i];
        AppendTwo(Infos(old(fields)), FormSpec.ScanKids(env.doc.xref, env.doc.decodeText, env.maxDepth, kids[..i], fuel),
          FormSpec.ScanField(env.doc.xref, env.doc.decodeText, env.maxDepth, kids[i], fuel));
        i := i + 1;
      }
      assert kids[..i] == kids;
    }

    /** AcroForm::draw: every field draws its annotations on the page. */
    method Draw(pageNum: int, printing: bool) returns (drawings: seq<Drawing>)
      requires Valid()
      modifies fields
      ensures drawings == FormDrawings(env, needAppearances, annotPages, Infos(fields), pageNum, printing)
    {
      drawings := [];
      var i := 0;
      while i < |fields|
        invariant 0 <= i <= |fields|
        invariant drawings == FormDrawings(env, needAppearances, annotPages, Infos(fields[..i]), pageNum, printing)
      {
        var field := fields[i];
        assert field in fields;
        assert field.acroForm == this;
        var d := field.Draw(pageNum, printing);
        assert d == FieldDrawings(env, needAppearances, annotPages, field.Info(), pageNum, printing);
        FormDrawingsSnoc(env, needAppearances, annotPages, fields, i, pageNum, printing);
        drawings := drawings + d;
        i := i + 1;
      }
      assert fields[..i] == fields;
    }
  }

  class AcroFormField {
    const acroForm: AcroForm
    const fieldRef: Obj
    const fieldObj: seq<Entry>
    const fieldType: FieldType
    const name: seq<Unicode>
    const value: seq<Unicode>
    const altText: seq<Unicode>
    const flags: int
    /** The content stream being generated by drawNewAppearance. */
    var appearBuf: seq<Piece>

    /** The field as a value. */
    function Info(): FieldInfo
    {
      FieldInfo(fieldRef, fieldObj, fieldType, name, value, altText, flags)
    }

    constructor (acroForm: AcroForm, fieldRef: Obj, fieldObj: seq<Entry>, fieldType: FieldType,
                 name: seq<Unicode>, value: seq<Unicode>, altText: seq<Unicode>, flags: int)
      ensures this.acroForm == acroForm && appearBuf == []
      ensures Info() == FieldInfo(fieldRef, fieldObj, fieldType, name, value, altText, flags)
    {
      this.acroForm := acroForm;
      this.fieldRef := fieldRef;
      this.fieldObj := fieldObj;
      this.fieldType := fieldType;
      this.name := name;
      this.value := value;
      this.altText := altText;
      this.flags := flags;
      appearBuf := [];
    }

    /** AcroFormField::load: the field at `fieldRef` with the name, type and flags it
        inherits from its Parent chain; null when it has no known type. */
    static method Load(acroForm: AcroForm, fieldRef: Obj) returns (field: AcroFormField?)
      requires Fetch(acroForm.env.doc.xref, fieldRef).Dict?
      ensures var r := LoadField(acroForm.env.doc.xref, acroForm.env.doc.decodeText, acroForm.env.maxDepth, fieldRef);
        (field == null <==> r.None?) &&
        (field != null ==> fresh(field) && field.acroForm == acroForm && field.Info() == r.value && field.appearBuf == [])
    {
      var xref := acroForm.env.doc.xref;
      var dec := acroForm.env.doc.decodeText;
      var fieldObjA := Fetch(xref, fieldRef).entries;
      var obj1 := Lookup(xref, fieldObjA, "V");
      var valueA: seq<Unicode> := if obj1.Str? then dec(obj1.s) else [];
      obj1 := Lookup(xref, fieldObjA, "TU");
      var textA: seq<Unicode> := if obj1.Str? then dec(obj1.s) else [];
      var nameA, typeStr, flagsA := InheritedAttributes(xref, dec, fieldObjA, acroForm.env.maxDepth);

      var typeA := FieldTypeOf(typeStr, flagsA);
      if typeA.None? {
        return null;
      }
      field := new AcroFormField(acroForm, fieldRef, fieldObjA, typeA.value, nameA, valueA, textA, flagsA);
    }

    /** The type decision of load: the family from the type name, the kind within it
        from the flags; no type for a missing or unknown type name. */
    static method FieldTypeOf(typeStr: Option<string>, flagsA: int) returns (typeA: Option<FieldType>)
      ensures typeA == Classify(typeStr, flagsA)
    {
      if typeStr.None? {
        return None;
      } else if typeStr.value == "Btn" {
        if TestFlag(flagsA, FlagPushbutton) {
          typeA := Some(Pushbutton);
        } else if TestFlag(flagsA, FlagRadio) {
          typeA := Some(RadioButton);
        } else {
          typeA := Some(Checkbox);
        }
      } else if typeStr.value == "Tx" {
        if TestFlag(flagsA, FlagFileSelect) {
          typeA := Some(FileSelect);
        } else if TestFlag(flagsA, FlagMultiline) {
          typeA := Some(MultilineText);
        } else {
          typeA := Some(Text);
        }
      } else if typeStr.value == "Ch" {
        if TestFlag(flagsA, FlagCombo) {
          typeA := Some(ComboBox);
        } else {
          typeA := Some(ListBox);
        }
      } else if typeStr.value == "Sig" {
        typeA := Some(Signature);
      } else {
        typeA := None;
      }
    }

    /** The name, type name and flags a field inherits: its own T, FT and Ff entries,
        then those of its Parent chain, followed for at most maxDepth ancestors.  The
        flags are read as a 32-bit word. */
    static method InheritedAttributes(xref: XRef, dec: TextDecoder, d: seq<Entry>, maxDepth: nat)
      returns (nameA: seq<Unicode>, typeStr: Option<string>, flagsA: int)
      ensures var inh := WalkParents(xref, dec, OwnAttributes(xref, dec, d), Lookup(xref, d, "Parent"), maxDepth);
        nameA == inh.name && typeStr == inh.ft && flagsA == (if inh.flags.Some? then ToUint32(inh.flags.value) else 0)
    {
      var obj1 := Lookup(xref, d, "T");
      nameA := if obj1.Str? then dec(obj1.s) else [];
      obj1 := Lookup(xref, d, "FT");
      typeStr := if obj1.Name? then Some(obj1.name) else None;
      flagsA := 0;
      var haveFlags := false;
      obj1 := Lookup(xref, d, "Ff");
      if obj1.Int? {
        flagsA := ToUint32(obj1.i);
        haveFlags := true;
      }

      var parentObj := Lookup(xref, d, "Parent");
      var depth := maxDepth;
      ghost var acc := OwnAttributes(xref, dec, d);
      ghost var walk := WalkParents(xref, dec, acc, parentObj, depth);
      while parentObj.Dict? && depth > 0
        invariant Tracks(acc, nameA, typeStr, flagsA, haveFlags)
        invariant WalkParents(xref, dec, acc, parentObj, depth) == walk
        decreases depth
      {
        var parent := parentObj.entries;
        nameA, typeStr, flagsA, haveFlags := InheritStep(xref, dec, parent, acc, nameA, typeStr, flagsA, haveFlags);
        acc := InheritFrom(xref, dec, acc, parent);
        parentObj := Lookup(xref, parent, "Parent");
        depth := depth - 1;
      }
    }

    /** One step up the Parent chain in load: the parent's partial name goes in front,
        and its type name and flags are read when still missing. */
    static method InheritStep(xref: XRef, dec: TextDecoder, parent: seq<Entry>, ghost acc: Inherited,
                              nameA: seq<Unicode>, typeStr: Option<string>, flagsA: int, haveFlags: bool)
      returns (name': seq<Unicode>, type': Option<string>, flags': int, have': bool)
      requires Tracks(acc, nameA, typeStr, flagsA, haveFlags)
      ensures Tracks(InheritFrom(xref, dec, acc, parent), name', type', flags', have')
    {
      name', type', flags', have' := nameA, typeStr, flagsA, haveFlags;
      var obj1 := Lookup(xref, parent, "T");
      if obj1.Str? {
        if |name'| > 0 {
          name' := [Dot] + name';
        }
        name' := dec(obj1.s) + name';
      }
      if type'.None? {
        obj1 := Lookup(xref, parent, "FT");
        if obj1.Name? {
          type' := Some(obj1.name);
        }
      }
      if !have' {
        obj1 := Lookup(xref, parent, "Ff");
        if obj1.Int? {
          flags' := ToUint32(obj1.i);
          have' := true;
        }
      }
    }

    /** setColor: the colour operator for the (at most four) components of `a`,
        brightened or darkened by `adjust`. */
    method SetColor(a: seq<Obj>, fill: bool, adjust: int)
      requires |a| > 0
      modifies this
      ensures appearBuf == old(appearBuf) + SetColorOps(acroForm.env.doc.xref, a, fill, adjust)
    {
      var color := new real[4];
      var nComps := |a|;
      if nComps > 4 {
        nComps := 4;
      }
      ReadComponents(acroForm.env.doc.xref, a, color, nComps);
      AdjustComponents(color, nComps, adjust);
      if nComps == 4 {
        assert color[..nComps] == [color[0], color[1], color[2], color[3]];
        appearBuf := appearBuf + [Nums([color[0], color[1], color[2], color[3]], 2, if fill then " k\n" else " K\n")];
      } else if nComps == 3 {
        assert color[..nComps] == [color[0], color[1], color[2]];
        appearBuf := appearBuf + [Nums([color[0], color[1], color[2]], 2, if fill then " rg\n" else " RG\n")];
      } else {
        assert color[..nComps][..1] == [color[0]];
        appearBuf := appearBuf + [Nums([color[0]], 2, if fill then " g\n" else " G\n")];
      }
    }

    /** The reading loop of setColor: the first nComps elements of `a` as numbers, a
        non-number read as 0. */
    static method ReadComponents(xref: XRef, a: seq<Obj>, color: array<real>, nComps: nat)
      requires nComps == ComponentCount(a) && color.Length == 4
      modifies color
      ensures color[..nComps] == Components(xref, a)
    {
      var i := 0;
      while i < nComps && i < 4
        invariant 0 <= i <= nComps
        invariant forall k :: 0 <= k < i ==> color[k] == NumOr(Fetch(xref, a[k]), 0.0)
      {
        var obj1 := Fetch(xref, a[i]);
        color[i] := if IsNum(obj1) then NumOf(obj1) else 0.0;
        i := i + 1;
      }
    }

    /** The adjusting loops of setColor: components moved halfway to 1 or to 0, the
        other way round for four (CMYK) components. */
    static method AdjustComponents(color: array<real>, nComps: nat, adjust: int)
      requires nComps <= color.Length
      modifies color
      ensures color[..nComps] == Adjusted(old(color[..nComps]), adjust)
    {
      ghost var c0 := color[..nComps];
      var adj := adjust;
      if nComps == 4 {
        adj := -adj;
      }
      var i := 0;
      if adj > 0 {
        while i < nComps
          invariant 0 <= i <= nComps
          invariant forall k :: 0 <= k < i ==> color[k] == 0.5 * c0[k] + 0.5
          invariant forall k :: i <= k < nComps ==> color[k] == c0[k]
        {
          color[i] := 0.5 * color[i] + 0.5;
          i := i + 1;
        }
      } else if adj < 0 {
        while i < nComps
          invariant 0 <= i <= nComps
          invariant forall k :: 0 <= k < i ==> color[k] == 0.5 * c0[k]
          invariant forall k :: i <= k < nComps ==> color[k] == c0[k]
        {
          color[i] := 0.5 * color[i];
          i := i + 1;
        }
      }
    }

    /** The first loop of getNextLine: scan until the text from `start` is wider than
        wMax or a line break is reached; `w` is the width scanned. */
    static method FitScan(text: PdfString, start: nat, font: Font, fontSize: real, wMax: real)
      returns (j: nat, w: real)
      requires start < |text|
      ensures j == FitEnd(text, start, start, font, fontSize, wMax)
      ensures w == ScaledWidth(font, text[start..j], fontSize)
    {
      w := 0.0;
      j := start;
      while j < |text| && w <= wMax
        invariant start <= j <= |text|
        invariant w == ScaledWidth(font, text[start..j], fontSize)
        invariant forall k :: start <= k < j ==> ScanContinues(text, start, k, font, fontSize, wMax)
        decreases |text| - j
      {
        var c := text[j];
        if c == LF || c == CR {
          break;
        }
        var dw := if font.SimpleFont? then font.widthOf(c) * fontSize else 0.5 * fontSize;
        ScaledWidthSnoc(font, text, start, j, fontSize);
        w := w + dw;
        j := j + 1;
      }
      FitEndSkip(text, start, start, j, font, fontSize, wMax);
    }

    /** The width loop of getNextLine: the width of text[start..end] at `fontSize`. */
    static method MeasureLine(text: PdfString, start: nat, end: nat, font: Font, fontSize: real)
      returns (w: real)
      requires start <= end <= |text|
      ensures w == ScaledWidth(font, text[start..end], fontSize)
    {
      w := 0.0;
      var k := start;
      while k < end
        invariant start <= k <= end
        invariant w == ScaledWidth(font, text[start..k], fontSize)
      {
        var dw := if font.SimpleFont? then font.widthOf(text[k]) * fontSize else 0.5 * fontSize;
        ScaledWidthSnoc(font, text, start, k, fontSize);
        w := w + dw;
        k := k + 1;
      }
    }

    /** The back-up step of getNextLine for an over-wide line ending at `j`: back over
        the last word and the spaces before it. */
    static method BackUpToWord(text: PdfString, start: nat, j: nat) returns (e: nat)
      requires start < |text| && start <= j <= |text|
      ensures e == WrapPoint(text, start, j)
    {
      var k := j;
      while k > start && text[k - 1] != ' '
        invariant start <= k <= j
        invariant BackOverWord(text, start, j) == BackOverWord(text, start, k)
      {
        k := k - 1;
      }
      ghost var word := k;
      while k > start && text[k - 1] == ' '
        invariant start <= k <= word
        invariant BackOverSpaces(text, start, word) == BackOverSpaces(text, start, k)
      {
        k := k - 1;
      }
      e := j;
      if k > start {
        e := k;
      }
      if e == start {
        // the pathological case where the first character is too wide
        e := start + 1;
      }
    }

    /** The last step of getNextLine: skip the spaces after the line, then one CR, then
        one LF. */
    static method SkipLineEnd(text: PdfString, end: nat) returns (next: nat)
      requires end <= |text|
      ensures next == SkipBreak(text, end)
    {
      var j := end;
      while j < |text| && text[j] == ' '
        invariant end <= j <= |text|
        invariant SkipSpaces(text, end) == SkipSpaces(text, j)
      {
        j := j + 1;
      }
      if j < |text| && text[j] == CR {
        j := j + 1;
      }
      if j < |text| && text[j] == LF {
        j := j + 1;
      }
      next := j;
    }

    /** getNextLine: the end of the line of `text` that starts at `start`, its width at
        `fontSize`, and where the next line starts. */
    static method GetNextLine(text: PdfString, start: nat, font: Font, fontSize: real, wMax: real)
      returns (end: nat, width: real, next: nat)
      requires start < |text|
      ensures LineBreak(end, width, next) == NextLine(text, start, font, fontSize, wMax)
    {
      // find the first character that goes past the box
      var j, w := FitScan(text, start, font, fontSize, wMax);
      // back up to the last word boundary, if the line is too wide
      if w > wMax {
        j := BackUpToWord(text, start, j);
      }
      end := j;
      // compute the width
      width := MeasureLine(text, start, end, font, fontSize);
      next := SkipLineEnd(text, end);
    }

    //----- drawText

    /** The narrowing loop of drawText: a UTF-16BE value (marked FE FF) is read two
        bytes at a time, a code above 0xFF becoming '?'; other text is used as is. */
    static method NarrowText(text: PdfString) returns (text2: PdfString)
      ensures text2 == Narrow(text)
    {
      if |text| >= 2 && text[0] as int == 0xFE && text[1] as int == 0xFF {
        ghost var u := text[2..];
        text2 := [];
        var i := 2;
        while i + 1 < |text|
          invariant 2 <= i <= |text| && i == 2 + 2 * |text2|
          invariant forall k :: 0 <= k < |text2| ==> text2[k] == CodeByte(u[2 * k] as int * 256 + u[2 * k + 1] as int)
        {
          var c := text[i] as int * 256 + text[i + 1] as int;
          assert text[i] == u[2 * |text2|] && text[i + 1] == u[2 * |text2| + 1];
          if c <= 0xFF {
            text2 := text2 + [c as char];
          } else {
            text2 := text2 + ['?'];
          }
          i := i + 2;
        }
        assert |text2| == |NarrowPairs(u)|;
      } else {
        text2 := text;
      }
    }

    /** The DA tokenizer of drawText and drawListBox: skip white space, then take the
        run of bytes up to the next white space as one token. */
    static method Tokenize(da: PdfString) returns (toks: seq<PdfString>)
      ensures toks == Tokens(da)
    {
      toks := [];
      var i := 0;
      while i < |da|
        invariant 0 <= i <= |da|
        invariant toks + Tokens(da[i..]) == Tokens(da)
        decreases |da| - i
      {
        while i < |da| && IsSpace(da[i])
          invariant 0 <= i <= |da|
          invariant toks + Tokens(da[i..]) == Tokens(da)
        {
          TokensSkipSpace(da, i);
          i := i + 1;
        }
        if i < |da| {
          var j := TokenEnd(da, i);
          TokensTakeRun(da, i, j);
          Associative(toks, [da[i..j]], Tokens(da[j..]));
          toks := toks + [da[i..j]];
          i := j;
        }
      }
      assert da[i..] == [];
    }

    /** The end of the token starting at i: the next white space, or the end. */
    static method TokenEnd(da: PdfString, i: nat) returns (j: nat)
      requires i < |da| && !IsSpace(da[i])
      ensures i < j <= |da|
      ensures forall k :: i <= k < j ==> !IsSpace(da[k])
      ensures j < |da| ==> IsSpace(da[j])
    {
      j := i + 1;
      while j < |da| && !IsSpace(da[j])
        invariant i < j <= |da|
        invariant forall k :: i <= k < j ==> !IsSpace(da[k])
      {
        j := j + 1;
      }
    }

    /** The operator search of drawText and drawListBox: the operand positions of the
        last "Tf" (two operands) and the last "Tm" (six operands). */
    static method FindOperators(toks: seq<PdfString>) returns (tfPos: int, tmPos: int)
      ensures tfPos == TfPos(toks) && tmPos == TmPos(toks)
    {
      tfPos, tmPos := -1, -1;
      if |toks| < 2 {
        return;
      }
      var i := 2;
      while i < |toks|
        invariant 2 <= i <= |toks|
        invariant var k := LastIndex(toks[..i], "Tf", 2); tfPos == if k < 0 then -1 else k - 2
        invariant var k := LastIndex(toks[..i], "Tm", 6); tmPos == if k < 0 then -1 else k - 6
      {
        LastIndexSnoc(toks, "Tf", 2, i);
        LastIndexSnoc(toks, "Tm", 6, i);
        if toks[i] == "Tf" {
          tfPos := i - 2;
        } else if i >= 6 && toks[i] == "Tm" {
          tmPos := i - 6;
        }
        i := i + 1;
      }
      assert toks[..i] == toks;
    }

    /** The DA parsing of drawText and drawListBox: the tokens, the Tf and Tm positions,
        the font name forced to ZapfDingbats when asked, and the font and size the Tf
        operator gives. */
    static method ReadDa(doc: Doc, fontDict: Option<seq<Entry>>, da: Option<PdfString>, forceZapf: bool)
      returns (d: DaInfo)
      ensures d == ParseDa(doc, fontDict, da, forceZapf)
    {
      var daToks: seq<PdfString> := [];
      var tfPos, tmPos := -1, -1;
      if da.Some? {
        daToks := Tokenize(da.value);
        tfPos, tmPos := FindOperators(daToks);
      }
      var toks := ForceZapf(AsPieces(daToks), tfPos, forceZapf);
      // get the font and font size
      var font := NoFont;
      var fontSize := 0.0;
      if tfPos >= 0 {
        font := FontNamed(doc, fontDict, toks[tfPos]);
        fontSize := Atof(daToks[tfPos + 1]);
      }
      d := DaInfo(toks, tfPos, tmPos, font, fontSize);
    }

    /** The font name replaced by ZapfDingbats, when that font is forced. */
    static method ForceZapf(toks0: seq<Piece>, tfPos: int, forceZapf: bool) returns (toks: seq<Piece>)
      requires tfPos < |toks0|
      ensures toks == if forceZapf && tfPos >= 0 then toks0[tfPos := Txt("/ZaDb")] else toks0
    {
      toks := toks0;
      if forceZapf && tfPos >= 0 && toks[tfPos] != Txt("/ZaDb") {
        toks := toks[tfPos := Txt("/ZaDb")];
      }
    }

    /** Writes the DA tokens, each followed by a space. */
    method WriteDa(toks: seq<Piece>)
      modifies this
      ensures appearBuf == old(appearBuf) + DaOps(toks)
    {
      var i := 0;
      while i < |toks|
        invariant 0 <= i <= |toks|
        invariant appearBuf == old(appearBuf) + DaOps(toks[..i])
      {
        DaOpsSnoc(toks, i);
        appearBuf := appearBuf + [toks[i], Txt(" ")];
        i := i + 1;
      }
      assert toks[..i] == toks;
    }

    /** The escaping loop: "(", ")" and "\" get a backslash, control and high bytes a
        three-digit octal escape. */
    static method EscapeText(s: PdfString) returns (e: string)
      ensures e == Escape(s)
    {
      e := [];
      var i := 0;
      while i < |s|
        invariant 0 <= i <= |s|
        invariant e == Escape(s[..i])
      {
        var c := s[i];
        EscapeSnoc(s, i);
        if c == '(' || c == ')' || c == '\\' {
          e := e + ['\\', c];
        } else if c as int < 0x20 || c as int >= 0x80 {
          e := e + ['\\', OctalDigit(c as int / 64), OctalDigit(c as int / 8 % 8), OctalDigit(c as int % 8)];
        } else {
          e := e + [c];
        }
        i := i + 1;
      }
      assert s[..i] == s;
    }

    /** Shows a string: "(", the escaped bytes, ") Tj". */
    method ShowString(s: PdfString)
      modifies this
      ensures appearBuf == old(appearBuf) + [ShowText(s)]
    {
      var e := EscapeText(s);
      appearBuf := appearBuf + [Txt("(" + e + ") Tj\n")];
    }

    /** Writes the text matrix after the DA string when the DA string has none. */
    method WriteTm(tmPos: int, x: Piece, y: real)
      modifies this
      ensures appearBuf == old(appearBuf) + TmOps(tmPos, x, y)
    {
      if tmPos < 0 {
        appearBuf := appearBuf + [Txt("1 0 0 1 "), x, Txt(" "), N4(y), Txt(" Tm\n")];
      }
    }

    /** The baseline below the last line of multi-line text broken at `fontSize`, the
        first line's baseline being `top`; `lines` is the number of lines. */
    static method LinesBottom(text: PdfString, font: Font, fontSize: real, wMax: real, top: real)
      returns (y: real, ghost lines: nat)
      ensures lines == LineCount(text, 0, font, fontSize, wMax)
      ensures y == Lowered(top, fontSize, lines)
    {
      y := top;
      var i := 0;
      lines := 0;
      while i < |text|
        invariant 0 <= i <= |text|
        invariant y == Lowered(top, fontSize, lines)
        invariant lines + LineCount(text, i, font, fontSize, wMax) == LineCount(text, 0, font, fontSize, wMax)
        decreases |text| - i
      {
        i := SkipLine(text, i, font, fontSize, wMax);
        y := y - fontSize;
        lines := lines + 1;
      }
      NoLineAtEnd(text, font, fontSize, wMax);
    }

    /** One step of the line loop of the multi-line autosize: break the next line and
        move to the start of the one after it. */
    static method SkipLine(text: PdfString, i: nat, font: Font, fontSize: real, wMax: real) returns (next: nat)
      requires i < |text|
      ensures i < next <= |text|
      ensures LineCount(text, i, font, fontSize, wMax) == 1 + LineCount(text, next, font, fontSize, wMax)
    {
      var end, w;
      end, w, next := GetNextLine(text, i, font, fontSize, wMax);
    }

    /** The autosize loop of multi-line text: from size 20 down, the first size at
        which the broken text fits, else 1. */
    static method MultilineFontSize(text: PdfString, font: Font, wMax: real, dy: real)
      returns (fontSize: int)
      ensures fontSize == MultilineAutoSize(text, font, wMax, dy)
    {
      fontSize := 20;
      while fontSize > 1
        invariant 1 <= fontSize <= 20
        invariant SearchSize(text, font, wMax, dy, fontSize) == MultilineAutoSize(text, font, wMax, dy)
      {
        var y, lines := LinesBottom(text, font, fontSize as real, wMax, dy - 3.0);
        // approximate the descender for the last line
        if y >= 0.33 * fontSize as real {
          break;
        }
        fontSize := fontSize - 1;
      }
    }

    /** The line loop of multi-line text: each line moved to its start, relative to the
        previous line's start and one size down, and shown. */
    method DrawLines(text: PdfString, font: Font, fontSize: real, wMax: real, quadding: int, dx: real, border: real)
      modifies this
      ensures appearBuf == old(appearBuf) + LinesOps(text, 0, font, fontSize, wMax, quadding, dx, border, 0.0)
    {
      var i := 0;
      var xPrev := 0.0;
      while i < |text|
        invariant 0 <= i <= |text|
        invariant appearBuf + LinesOps(text, i, font, fontSize, wMax, quadding, dx, border, xPrev) ==
          old(appearBuf) + LinesOps(text, 0, font, fontSize, wMax, quadding, dx, border, 0.0)
        decreases |text| - i
      {
        i, xPrev := DrawLine(text, i, font, fontSize, wMax, quadding, dx, border, xPrev);
      }
    }

    /** One pass of the line loop: the line starting at i is positioned and shown, and
        the next line starts at `next`, relative to x. */
    method DrawLine(text: PdfString, i: nat, font: Font, fontSize: real, wMax: real, quadding: int, dx: real, border: real, xPrev: real)
      returns (next: nat, x: real)
      requires i < |text|
      modifies this
      ensures i < next <= |text|
      ensures appearBuf + LinesOps(text, next, font, fontSize, wMax, quadding, dx, border, x) ==
        old(appearBuf) + LinesOps(text, i, font, fontSize, wMax, quadding, dx, border, xPrev)
    {
      var j;
      j, next, x := PlaceLine(text, i, font, fontSize, wMax, quadding, dx, border, xPrev);
      ghost var before := appearBuf;
      // draw the line
      appearBuf := appearBuf + [Nums([x - xPrev, -fontSize], 4, " Td\n")];
      ShowString(text[i..j]);
      LineOpsParts(x, xPrev, fontSize, text[i..j]);
      AppendThenRest(before, appearBuf, LineOps(x, xPrev, fontSize, text[i..j]),
        LinesOps(text, next, font, fontSize, wMax, quadding, dx, border, x));
    }

    /** The line starting at i ends at j, starts at x, and is followed by the line
        starting at `next`. */
    static method PlaceLine(text: PdfString, i: nat, font: Font, fontSize: real, wMax: real, quadding: int, dx: real, border: real, xPrev: real)
      returns (j: nat, next: nat, x: real)
      requires i < |text|
      ensures i <= j <= next <= |text| && i < next
      ensures LinesOps(text, i, font, fontSize, wMax, quadding, dx, border, xPrev) ==
        LineOps(x, xPrev, fontSize, text[i..j]) + LinesOps(text, next, font, fontSize, wMax, quadding, dx, border, x)
    {
      var w;
      j, w, next := GetNextLine(text, i, font, fontSize, wMax);
      // compute text start position
      x := LineStart(quadding, dx, border, w);
      LinesOpsStep(text, i, font, fontSize, wMax, quadding, dx, border, xPrev, j, w, next, x);
    }

    /** Multi-line text: size, DA string and text matrix, then the lines. */
    method DrawMultiline(d: DaInfo, text: PdfString, quadding: int, dx: real, dy: real, border: real)
      requires DaPositions(d)
      modifies this
      ensures appearBuf == old(appearBuf) + MultilineBody(d, text, quadding, dx, dy, border)
    {
      var wMax := LineWidthMax(dx, border);
      var toks := d.toks;
      var fontSize := d.fontSize;
      // compute font autosize
      if fontSize == 0.0 {
        var s := MultilineFontSize(text, d.font, wMax, dy);
        fontSize := s as real;
        if d.tfPos >= 0 {
          toks := toks[d.tfPos + 1 := N2(fontSize)];
        }
      }
      assert toks == SetSize(d.toks, d.tfPos, d.fontSize == 0.0, N2(fontSize));
      // starting y coordinate
      var y := dy - 3.0;
      // set the font matrix
      if d.tmPos >= 0 {
        toks := toks[d.tmPos + 4 := Txt("0")][d.tmPos + 5 := N4(y)];
      }
      WriteDa(toks);
      WriteTm(d.tmPos, Txt("0"), y);
      DrawLines(text, d.font, fontSize, wMax, quadding, dx, border);
      MultilineBodyParts(d, text, quadding, dx, dy, border, wMax, fontSize, y, toks);
      AppendThree(old(appearBuf), DaOps(toks), TmOps(d.tmPos, Txt("0"), y),
        LinesOps(text, 0, d.font, fontSize, wMax, quadding, dx, border, 0.0));
    }

    /** The cell loop of comb text: one byte per cell, each after the first preceded by
        a step of one cell width. */
    method DrawCombCells(text: PdfString, w: real)
      modifies this
      ensures appearBuf == old(appearBuf) + CombCells(text, w)
    {
      var i := 0;
      while i < |text|
        invariant 0 <= i <= |text|
        invariant appearBuf == old(appearBuf) + CombCells(text[..i], w)
      {
        CombCellsSnoc(old(appearBuf), text, i, w);
        if i > 0 {
          appearBuf := appearBuf + [N4(w), Txt(" 0 Td\n")];
        }
        DrawCombCell(text[i], w);
        i := i + 1;
      }
      assert text[..i] == text;
    }

    /** One comb cell: the byte as a string, or the step to the next cell inside the
        string for a control or high byte. */
    method DrawCombCell(c: Byte, w: real)
      modifies this
      ensures appearBuf == old(appearBuf) + CombCell(c, w)
    {
      if c == '(' || c == ')' || c == '\\' {
        appearBuf := appearBuf + [Txt("(" + ['\\', c] + ") Tj\n")];
      } else if c as int < 0x20 || c as int >= 0x80 {
        appearBuf := appearBuf + [Txt("("), N4(w), Txt(" 0 Td\n"), Txt(") Tj\n")];
      } else {
        appearBuf := appearBuf + [Txt("(" + [c] + ") Tj\n")];
      }
    }

    /** Comb text: cell width, size, start position, DA string and text matrix, then
        the cells. */
    method DrawComb(d: DaInfo, text: PdfString, comb: int, quadding: int, dx: real, dy: real, border: real)
      requires DaPositions(d) && comb > 0
      modifies this
      ensures appearBuf == old(appearBuf) + CombBody(d, text, comb, quadding, dx, dy, border)
    {
      var toks := d.toks;
      // compute comb spacing
      var w := CombSpacing(dx, border, comb);
      // compute font autosize
      var fontSize := d.fontSize;
      if fontSize == 0.0 {
        fontSize := SmallerWhole(InnerHeight(dy, border), w);
        if d.tfPos >= 0 {
          toks := toks[d.tfPos + 1 := N4(fontSize)];
        }
      }
      assert toks == SetSize(d.toks, d.tfPos, d.fontSize == 0.0, N4(fontSize));
      // compute text start position
      var x := CombStart(quadding, border, comb, |text|, w);
      var y := Baseline(dy, fontSize);
      // set the font matrix
      if d.tmPos >= 0 {
        toks := toks[d.tmPos + 4 := N4(x)][d.tmPos + 5 := N4(y)];
      }
      WriteDa(toks);
      WriteTm(d.tmPos, N4(x), y);
      DrawCombCells(text, w);
      CombBodyParts(d, text, comb, quadding, dx, dy, border, w, fontSize, x, y, toks);
      AppendThree(old(appearBuf), DaOps(toks), TmOps(d.tmPos, N4(x), y), CombCells(text, w));
    }

    /** The width of one comb cell. */
    static method CombSpacing(dx: real, border: real, comb: int) returns (w: real)
      requires comb > 0
      ensures w == CombCellWidth(dx, border, comb)
    {
      w := (dx - 2.0 * border) / comb as real;
    }

    /** The whole part of the smaller of a and b. */
    static method SmallerWhole(a: real, b: real) returns (r: real)
      ensures r == Floor(Min(a, b))
    {
      r := a;
      if b < r {
        r := b;
      }
      r := Floor(r);
    }

    /** The start of the first comb cell of n characters in comb cells of width w. */
    static method CombStart(quadding: int, border: real, comb: int, n: int, w: real) returns (x: real)
      ensures x == CombX(quadding, border, comb, n, w)
    {
      if quadding == QuadCenter {
        x := border + 2.0 + 0.5 * (comb - n) as real * w;
      } else if quadding == QuadRight {
        x := border + 2.0 + (comb - n) as real * w;
      } else {
        x := border + 2.0;
      }
    }

    /** The width of a string at size 1: summed glyph widths with an 8-bit font, else
        the estimate of half a unit per byte. */
    static method TextWidth(font: Font, text: PdfString) returns (w: real)
      ensures w == StringWidth(font, text)
    {
      if font.SimpleFont? {
        w := 0.0;
        var i := 0;
        while i < |text|
          invariant 0 <= i <= |text|
          invariant w == StringWidth(font, text[..i])
        {
          StringWidthSnoc(font, text, i);
          w := w + font.widthOf(text[i]);
          i := i + 1;
        }
        assert text[..i] == text;
      } else {
        // otherwise, make a crude estimate
        w := |text| as real * 0.5;
      }
    }

    /** Single-line text: width, size, start position, DA string and text matrix, then
        the string. */
    method DrawPlain(d: DaInfo, text: PdfString, quadding: int, dx: real, dy: real, border: real)
      requires DaPositions(d)
      modifies this
      ensures appearBuf == old(appearBuf) + PlainBody(d, text, quadding, dx, dy, border)
    {
      var toks := d.toks;
      // compute string width
      var w := TextWidth(d.font, text);
      // compute font autosize
      var fontSize := d.fontSize;
      if fontSize == 0.0 {
        fontSize := AutoFontSize(InnerHeight(dy, border), InnerWidth(dx, border), w);
        if d.tfPos >= 0 {
          toks := toks[d.tfPos + 1 := N4(fontSize)];
        }
      }
      assert toks == SetSize(d.toks, d.tfPos, d.fontSize == 0.0, N4(fontSize));
      // compute text start position
      w := ScaleWidth(w, fontSize);
      var x := LineStart(quadding, dx, border, w);
      var y := Baseline(dy, fontSize);
      // set the font matrix
      if d.tmPos >= 0 {
        toks := toks[d.tmPos + 4 := N4(x)][d.tmPos + 5 := N4(y)];
      }
      WriteDa(toks);
      WriteTm(d.tmPos, N4(x), y);
      ShowString(text);
      PlainBodyParts(d, text, quadding, dx, dy, border, fontSize, x, y, toks);
      AppendThree(old(appearBuf), DaOps(toks), TmOps(d.tmPos, N4(x), y), [ShowText(text)]);
    }

    /** The automatic font size: the whole part of the smaller of the height available
        and the size at which text w wide at size 1 fills the width available. */
    static method AutoFontSize(hAvail: real, wAvail: real, w: real) returns (fontSize: real)
      ensures fontSize == AutoSize(hAvail, wAvail, w)
    {
      fontSize := hAvail;
      if w != 0.0 {
        var fontSize2 := wAvail / w;
        if fontSize2 < fontSize {
          fontSize := fontSize2;
        }
      }
      fontSize := Floor(fontSize);
    }

    /** The width at fontSize of text w wide at size 1. */
    static method ScaleWidth(w: real, fontSize: real) returns (sw: real)
      ensures sw == WidthAt(w, fontSize)
    {
      sw := w * fontSize;
    }

    /** The horizontal start of a line of width w: centred, right aligned or left
        aligned, 2 units inside the border. */
    static method LineStart(quadding: int, dx: real, border: real, w: real) returns (x: real)
      ensures x == QuadX(quadding, dx, border, w)
    {
      if quadding == QuadCenter {
        x := (dx - w) / 2.0;
      } else if quadding == QuadRight {
        x := dx - border - 2.0 - w;
      } else {
        x := border + 2.0;
      }
    }

    /** drawText: the marked-content and graphics-state bracket, the rotation, and the
        text laid out as multi-line, comb or single-line text. */
    method DrawText(text: PdfString, da: Option<PdfString>, fontDict: Option<seq<Entry>>, multiline: bool,
                    comb: int, quadding: int, txField: bool, forceZapf: bool, rot: int, b: Box, border: real)
      modifies this
      ensures appearBuf == old(appearBuf) +
        DrawTextOps(acroForm.env.doc, fontDict, text, da, TextStyle(multiline, comb, quadding, txField, forceZapf, rot), b, border)
    {
      // check for a Unicode string
      var text2 := NarrowText(text);
      // parse the default appearance string
      var d := ReadDa(acroForm.env.doc, fontDict, da, forceZapf);
      var style := TextStyle(multiline, comb, quadding, txField, forceZapf, rot);
      // setup
      var dx, dy := BeginText(txField, rot, b);
      DrawTextBody(d, text2, style, b, border, dx, dy);
      // cleanup
      EndText(txField);
      AppendThree(old(appearBuf), TextHeader(txField, rot, b), TextBody(d, text2, style, b, border), TextTrailer(txField));
    }

    /** The start of drawn text: the marked-content tag of a text field, the saved
        state, the rotation and BT; returns the box's extent in the rotated frame. */
    method BeginText(txField: bool, rot: int, b: Box) returns (dx: real, dy: real)
      modifies this
      ensures appearBuf == old(appearBuf) + TextHeader(txField, rot, b)
      ensures (dx, dy) == Extent(rot, b)
    {
      if txField {
        appearBuf := appearBuf + [Txt("/Tx BMC\n")];
      }
      appearBuf := appearBuf + [Txt("q\n")];
      if rot == 90 {
        appearBuf := appearBuf + [Txt("0 1 -1 0 "), N4(Width(b)), Txt(" 0 cm\n")];
        dx, dy := Height(b), Width(b);
      } else if rot == 180 {
        appearBuf := appearBuf + [Txt("-1 0 0 -1 "), N4(Width(b)), Txt(" "), N4(Height(b)), Txt(" cm\n")];
        dx, dy := b.xMax - b.yMax, Height(b);
      } else if rot == 270 {
        appearBuf := appearBuf + [Txt("0 -1 1 0 0 "), N4(Height(b)), Txt(" cm\n")];
        dx, dy := Height(b), Width(b);
      } else {
        dx, dy := Width(b), Height(b);
      }
      appearBuf := appearBuf + [Txt("BT\n")];
    }

    /** The text itself: multi-line, comb or single-line layout. */
    method DrawTextBody(d: DaInfo, text: PdfString, style: TextStyle, b: Box, border: real, dx: real, dy: real)
      requires DaPositions(d) && (dx, dy) == Extent(style.rot, b)
      modifies this
      ensures appearBuf == old(appearBuf) + TextBody(d, text, style, b, border)
    {
      if style.multiline {
        DrawMultiline(d, text, style.quadding, dx, dy, border);
      } else if style.comb > 0 {
        DrawComb(d, text, style.comb, style.quadding, dx, dy, border);
      } else {
        DrawPlain(d, text, style.quadding, dx, dy, border);
      }
    }

    /** The end of drawn text: ET, the restored state and the end of the tag. */
    method EndText(txField: bool)
      modifies this
      ensures appearBuf == old(appearBuf) + TextTrailer(txField)
    {
      appearBuf := appearBuf + [Txt("ET\n"), Txt("Q\n")];
      if txField {
        appearBuf := appearBuf + [Txt("EMC\n")];
      }
    }

    //----- circles

    /** drawCircle: four Bezier quarter circles around (cx, cy), painted by cmd. */
    method DrawCircle(cx: real, cy: real, r: real, cmd: string)
      modifies this
      ensures appearBuf == old(appearBuf) + CircleOps(cx, cy, r, cmd)
    {
      var k := Bezier(r);
      appearBuf := appearBuf + Point(cx + r, cy, " m\n");
      appearBuf := appearBuf + Curve(cx + r, cy + k, cx + k, cy + r, cx, cy + r);
      appearBuf := appearBuf + Curve(cx - k, cy + r, cx - r, cy + k, cx - r, cy);
      appearBuf := appearBuf + Curve(cx - r, cy - k, cx - k, cy - r, cx, cy - r);
      appearBuf := appearBuf + Curve(cx + k, cy - r, cx + r, cy - k, cx + r, cy);
      appearBuf := appearBuf + [Txt(cmd + "\n")];
    }

    /** drawCircleTopLeft: the stroked upper-left half circle. */
    method DrawCircleTopLeft(cx: real, cy: real, r: real)
      modifies this
      ensures appearBuf == old(appearBuf) + TopLeftOps(cx, cy, r)
    {
      var r2 := DivSqrt2(r);
      appearBuf := appearBuf + Point(cx + r2, cy + r2, " m\n");
      appearBuf := appearBuf + Curve(cx + (r2 - Bezier(r2)), cy + (r2 + Bezier(r2)),
                                     cx - (r2 - Bezier(r2)), cy + (r2 + Bezier(r2)), cx - r2, cy + r2);
      appearBuf := appearBuf + Curve(cx - (r2 + Bezier(r2)), cy + (r2 - Bezier(r2)),
                                     cx - (r2 + Bezier(r2)), cy - (r2 - Bezier(r2)), cx - r2, cy - r2);
      appearBuf := appearBuf + [Txt("S\n")];
    }

    /** drawCircleBottomRight: the stroked lower-right half circle. */
    method DrawCircleBottomRight(cx: real, cy: real, r: real)
      modifies this
      ensures appearBuf == old(appearBuf) + BottomRightOps(cx, cy, r)
    {
      var r2 := DivSqrt2(r);
      appearBuf := appearBuf + Point(cx - r2, cy - r2, " m\n");
      appearBuf := appearBuf + Curve(cx - (r2 - Bezier(r2)), cy - (r2 + Bezier(r2)),
                                     cx + (r2 - Bezier(r2)), cy - (r2 + Bezier(r2)), cx + r2, cy - r2);
      appearBuf := appearBuf + Curve(cx + (r2 + Bezier(r2)), cy - (r2 - Bezier(r2)),
                                     cx + (r2 + Bezier(r2)), cy + (r2 - Bezier(r2)), cx + r2, cy + r2);
      appearBuf := appearBuf + [Txt("S\n")];
    }

    //----- background and border

    /** The background: the MK BG colour filling the whole box. */
    method DrawBackground(mk: Option<seq<Entry>>, dx: real, dy: real)
      modifies this
      ensures appearBuf == old(appearBuf) + BackgroundOps(acroForm.env.doc.xref, mk, dx, dy)
    {
      if mk.Some? {
        var obj1 := Lookup(acroForm.env.doc.xref, mk.value, "BG");
        if obj1.Array? && |obj1.elems| > 0 {
          SetColor(obj1.elems, true, 0);
          appearBuf := appearBuf + [Txt("0 0 "), N4(dx), Txt(" "), N4(dy), Txt(" re f\n")];
        }
      }
    }

    /** A dash array read into a buffer: numbers as they are, anything else as 1. */
    static method ReadDash(xref: XRef, elems: seq<Obj>) returns (dash: seq<real>)
      ensures dash == DashArray(xref, elems)
    {
      var borderDash := new real[|elems|];
      var i := 0;
      while i < |elems|
        invariant 0 <= i <= |elems|
        invariant forall k :: 0 <= k < i ==> borderDash[k] == NumOr(Fetch(xref, elems[k]), 1.0)
      {
        var obj3 := Fetch(xref, elems[i]);
        if IsNum(obj3) {
          borderDash[i] := NumOf(obj3);
        } else {
          borderDash[i] := 1.0;
        }
        i := i + 1;
      }
      dash := borderDash[..];
    }

    /** The border of an annotation, from its BS dictionary or its Border array. */
    static method ReadBorder(xref: XRef, annot: seq<Entry>) returns (border: Border)
      ensures border == BorderOf(xref, annot)
    {
      var borderType := Solid;
      var borderWidth := 1.0;
      var borderDash: seq<real> := [];
      var obj1 := Lookup(xref, annot, "BS");
      if obj1.Dict? {
        var obj2 := Lookup(xref, obj1.entries, "S");
        if obj2.Name? {
          borderType := StyleNamed(obj2.name);
        }
        obj2 := Lookup(xref, obj1.entries, "W");
        if IsNum(obj2) {
          borderWidth := NumOf(obj2);
        }
        obj2 := Lookup(xref, obj1.entries, "D");
        if obj2.Array? {
          borderDash := ReadDash(xref, obj2.elems);
        }
      } else {
        obj1 := Lookup(xref, annot, "Border");
        if obj1.Array? && |obj1.elems| >= 3 {
          var obj2 := Fetch(xref, obj1.elems[2]);
          if IsNum(obj2) {
            borderWidth := NumOf(obj2);
          }
          if |obj1.elems| >= 4 {
            obj2 := Fetch(xref, obj1.elems[3]);
            if obj2.Array? {
              borderType := Dashed;
              borderDash := ReadDash(xref, obj2.elems);
            } else {
              // no border at all when the last element has the wrong type
              borderWidth := 0.0;
            }
          }
        }
      }
      border := Border(borderType, borderWidth, borderDash);
    }

    /** The dash pattern operator. */
    method WriteDash(dash: seq<real>)
      modifies this
      ensures appearBuf == old(appearBuf) + DashOps(dash)
    {
      appearBuf := appearBuf + [Txt("[")];
      var i := 0;
      while i < |dash|
        invariant 0 <= i <= |dash|
        invariant appearBuf == old(appearBuf) + [Txt("[")] + DashNums(dash[..i])
      {
        assert dash[..i + 1][..i] == dash[..i];
        appearBuf := appearBuf + [Txt(" "), N4(dash[i])];
        i := i + 1;
      }
      assert dash[..i] == dash;
      appearBuf := appearBuf + [Txt("] 0 d\n")];
    }

    /** The border: only with an MK dictionary, a positive width and a BC (else BG)
        colour; round for a radio button without a caption. */
    method DrawBorder(mk: Option<seq<Entry>>, ft: Obj, border: Border, dx: real, dy: real)
      modifies this
      ensures appearBuf == old(appearBuf) + BorderOps(acroForm.env.doc.xref, mk, ft, flags, border, dx, dy)
    {
      var xref := acroForm.env.doc.xref;
      if mk.Some? && border.width > 0.0 {
        var obj1 := Lookup(xref, mk.value, "BC");
        if !(obj1.Array? && |obj1.elems| > 0) {
          obj1 := Lookup(xref, mk.value, "BG");
        }
        if obj1.Array? && |obj1.elems| > 0 {
          assert BorderColor(xref, mk.value) == Some(obj1.elems);
          // radio buttons with no caption have a round border
          var hasCaption := Lookup(xref, mk.value, "CA").Str?;
          if IsName(ft, "Btn") && TestFlag(flags, FlagRadio) && !hasCaption {
            DrawRoundBorder(obj1.elems, border, dx, dy);
          } else {
            DrawRectBorder(obj1.elems, border, dx, dy);
          }
        }
      }
    }

    /** The round border of a radio button. */
    method DrawRoundBorder(color: seq<Obj>, border: Border, dx: real, dy: real)
      requires |color| > 0
      modifies this
      ensures appearBuf == old(appearBuf) + RoundBorderOps(acroForm.env.doc.xref, color, border, dx, dy)
    {
      var r := Radius(dx, dy);
      if border.style == Beveled || border.style == Inset {
        DrawBevelCircle(color, border.width, dx, dy, r, BevelDirection(border.style));
      } else {
        DrawSolidCircle(color, border, dx, dy, r);
      }
    }

    /** The solid and dashed cases of the round border. */
    method DrawSolidCircle(color: seq<Obj>, border: Border, dx: real, dy: real, r: real)
      requires |color| > 0
      modifies this
      ensures appearBuf == old(appearBuf) + SolidCircleOps(acroForm.env.doc.xref, color, border, dx, dy, r)
    {
      var bw := border.width;
      if border.style == Dashed {
        WriteDash(border.dash);
      }
      assert appearBuf == old(appearBuf) + DashIfDashed(border);
      DrawRing(color, bw, Half(dx), Half(dy), r - Half(bw));
      AppendTwo(old(appearBuf), DashIfDashed(border), RingOps(acroForm.env.doc.xref, color, bw, Half(dx), Half(dy), r - Half(bw)));
    }

    /** The bevelled and inset cases of the round border. */
    method DrawBevelCircle(color: seq<Obj>, bw: real, dx: real, dy: real, r: real, lighter: int)
      requires |color| > 0
      modifies this
      ensures appearBuf == old(appearBuf) + BevelCircleOps(acroForm.env.doc.xref, color, bw, dx, dy, r, lighter)
    {
      DrawRing(color, Half(bw), Half(dx), Half(dy), r - 0.25 * bw);
      DrawLitTopLeft(color, lighter, Half(dx), Half(dy), r - 0.75 * bw);
      DrawLitBottomRight(color, -lighter, Half(dx), Half(dy), r - 0.75 * bw);
      ghost var xref := acroForm.env.doc.xref;
      AppendThree(old(appearBuf), RingOps(xref, color, Half(bw), Half(dx), Half(dy), r - 0.25 * bw),
        LitTopLeftOps(xref, color, lighter, Half(dx), Half(dy), r - 0.75 * bw),
        LitBottomRightOps(xref, color, -lighter, Half(dx), Half(dy), r - 0.75 * bw));
    }

    /** The upper-left half circle in the border colour adjusted by `adjust`. */
    method DrawLitTopLeft(color: seq<Obj>, adjust: int, cx: real, cy: real, r: real)
      requires |color| > 0
      modifies this
      ensures appearBuf == old(appearBuf) + LitTopLeftOps(acroForm.env.doc.xref, color, adjust, cx, cy, r)
    {
      SetColor(color, false, adjust);
      DrawCircleTopLeft(cx, cy, r);
    }

    /** The lower-right half circle in the border colour adjusted by `adjust`. */
    method DrawLitBottomRight(color: seq<Obj>, adjust: int, cx: real, cy: real, r: real)
      requires |color| > 0
      modifies this
      ensures appearBuf == old(appearBuf) + LitBottomRightOps(acroForm.env.doc.xref, color, adjust, cx, cy, r)
    {
      SetColor(color, false, adjust);
      DrawCircleBottomRight(cx, cy, r);
    }

    /** A stroked circle of line width w in the border colour. */
    method DrawRing(color: seq<Obj>, w: real, cx: real, cy: real, r: real)
      requires |color| > 0
      modifies this
      ensures appearBuf == old(appearBuf) + RingOps(acroForm.env.doc.xref, color, w, cx, cy, r)
    {
      appearBuf := appearBuf + LineWidthOps(w);
      SetColor(color, false, 0);
      DrawCircle(cx, cy, r, "s");
    }

    /** The rectangular border and the clip to its inside. */
    method DrawRectBorder(color: seq<Obj>, border: Border, dx: real, dy: real)
      requires |color| > 0
      modifies this
      ensures appearBuf == old(appearBuf) + RectBorderOps(acroForm.env.doc.xref, color, border, dx, dy)
    {
      if border.style == Beveled {
        DrawBevelRect(color, border.width, dx, dy, 1);
      } else if border.style == Inset {
        DrawBevelRect(color, border.width, dx, dy, -1);
      } else if border.style == Underlined {
        DrawUnderline(color, border.width, dx);
      } else {
        DrawSolidRect(color, border, dx, dy);
      }
      // clip to the inside of the border
      appearBuf := appearBuf + ClipOps(border.width, dx, dy);
    }

    /** The underlined case of the rectangular border. */
    method DrawUnderline(color: seq<Obj>, bw: real, dx: real)
      requires |color| > 0
      modifies this
      ensures appearBuf == old(appearBuf) + UnderlineOps(acroForm.env.doc.xref, color, bw, dx)
    {
      appearBuf := appearBuf + LineWidthOps(bw);
      SetColor(color, false, 0);
      appearBuf := appearBuf + [Txt("0 0 m "), N4(dx), Txt(" 0 l s\n")];
    }

    /** The solid and dashed cases of the rectangular border. */
    method DrawSolidRect(color: seq<Obj>, border: Border, dx: real, dy: real)
      requires |color| > 0
      modifies this
      ensures appearBuf == old(appearBuf) + SolidRectOps(acroForm.env.doc.xref, color, border, dx, dy)
    {
      ghost var xref := acroForm.env.doc.xref;
      var bw := border.width;
      if border.style == Dashed {
        WriteDash(border.dash);
      }
      assert appearBuf == old(appearBuf) + DashIfDashed(border);
      appearBuf := appearBuf + LineWidthOps(bw);
      SetColor(color, false, 0);
      appearBuf := appearBuf + [Nums([0.5 * bw, 0.5 * bw, dx - bw, dy - bw], 4, " re s\n")];
      AppendFour(old(appearBuf), DashIfDashed(border), LineWidthOps(bw), SetColorOps(xref, color, false, 0),
        [Nums([0.5 * bw, 0.5 * bw, dx - bw, dy - bw], 4, " re s\n")]);
    }

    /** The bevelled and inset cases of the rectangular border. */
    method DrawBevelRect(color: seq<Obj>, bw: real, dx: real, dy: real, lighter: int)
      requires |color| > 0
      modifies this
      ensures appearBuf == old(appearBuf) + BevelRectOps(acroForm.env.doc.xref, color, bw, dx, dy, lighter)
    {
      ghost var xref := acroForm.env.doc.xref;
      SetColor(color, true, lighter);
      DrawUpperBand(bw, dx, dy);
      SetColor(color, true, -lighter);
      DrawLowerBand(bw, dx, dy);
      AppendFour(old(appearBuf), SetColorOps(xref, color, true, lighter), UpperBandPath(bw, dx, dy),
        SetColorOps(xref, color, true, -lighter), LowerBandPath(bw, dx, dy));
    }

    /** The upper-left band of a bevelled border. */
    method DrawUpperBand(bw: real, dx: real, dy: real)
      modifies this
      ensures appearBuf == old(appearBuf) + UpperBandPath(bw, dx, dy)
    {
      appearBuf := appearBuf + [Txt("0 0 m\n"), Txt("0 "), N4(dy), Txt(" l\n")];
      appearBuf := appearBuf + Point(dx, dy, " l\n");
      appearBuf := appearBuf + Point(dx - bw, dy - bw, " l\n");
      appearBuf := appearBuf + Point(bw, dy - bw, " l\n");
      appearBuf := appearBuf + Point(bw, bw, " l\n");
      appearBuf := appearBuf + [Txt("f\n")];
    }

    /** The lower-right band of a bevelled border. */
    method DrawLowerBand(bw: real, dx: real, dy: real)
      modifies this
      ensures appearBuf == old(appearBuf) + LowerBandPath(bw, dx, dy)
    {
      appearBuf := appearBuf + [Txt("0 0 m\n"), N4(dx), Txt(" 0 l\n")];
      appearBuf := appearBuf + Point(dx, dy, " l\n");
      appearBuf := appearBuf + Point(dx - bw, dy - bw, " l\n");
      appearBuf := appearBuf + Point(dx - bw, bw, " l\n");
      appearBuf := appearBuf + Point(bw, bw, " l\n");
      appearBuf := appearBuf + [Txt("f\n")];
    }

    //----- list box

    /** The widest option at size 1. */
    static method WidestOption(font: Font, texts: seq<PdfString>) returns (wMax: real)
      ensures wMax == MaxWidth(font, texts)
    {
      wMax := 0.0;
      var i := 0;
      while i < |texts|
        invariant 0 <= i <= |texts|
        invariant wMax == MaxWidth(font, texts[..i])
      {
        var w := TextWidth(font, texts[i]);
        MaxWidthSnoc(font, texts, i);
        if w > wMax {
          wMax := w;
        }
        i := i + 1;
      }
      assert texts[..i] == texts;
    }

    /** drawListBox: the options from the top index on, one row each, 1.1 sizes apart
        from the top of the box down; selected rows highlighted. */
    method DrawListBox(texts: seq<PdfString>, selection: seq<bool>, topIdx: int, da: Option<PdfString>,
                       fontDict: Option<seq<Entry>>, quadding: int, b: Box, border: real)
      requires |selection| == |texts|
      modifies this
      ensures appearBuf == old(appearBuf) +
        ListBoxOps(acroForm.env.doc, fontDict, texts, selection, topIdx, da, quadding, b, border)
    {
      // parse the default appearance string
      var d := ReadDa(acroForm.env.doc, fontDict, da, false);
      DrawListBoxRows(d, texts, selection, topIdx, quadding, b, border);
    }

    /** The rows of a list box, after the font size is known. */
    method DrawListBoxRows(d: DaInfo, texts: seq<PdfString>, selection: seq<bool>, topIdx: int, quadding: int, b: Box, border: real)
      requires |selection| == |texts| && DaPositions(d)
      modifies this
      ensures appearBuf == old(appearBuf) + ListBoxRows(d, texts, selection, topIdx, quadding, b, border)
    {
      var fontSize, toks := ListBoxFont(d, texts, b, border);
      // draw the text
      DrawRows(d.font, toks, d.tmPos, texts, selection, RowStart(topIdx), quadding, Width(b), border, fontSize,
               NextRowY(Height(b), fontSize));
    }

    /** The font size of a list box: the DA size, or the automatic size for the widest
        option, which is then written into the Tf operand. */
    static method ListBoxFont(d: DaInfo, texts: seq<PdfString>, b: Box, border: real) returns (fontSize: real, toks: seq<Piece>)
      requires DaPositions(d)
      ensures fontSize == ListBoxSize(d, texts, b, border)
      ensures toks == SetSize(d.toks, d.tfPos, d.fontSize == 0.0, N4(fontSize))
    {
      toks := d.toks;
      // compute font autosize
      fontSize := d.fontSize;
      if fontSize == 0.0 {
        var wMax := WidestOption(d.font, texts);
        fontSize := AutoFontSize(InnerHeight(Height(b), border), InnerWidth(Width(b), border), wMax);
        if d.tfPos >= 0 {
          toks := toks[d.tfPos + 1 := N4(fontSize)];
        }
      }
    }

    /** The row loop of drawListBox: rows `first` .. end, the first at baseline y0.  The
        Tm operands of the token list are rewritten for every row. */
    method DrawRows(font: Font, toks: seq<Piece>, tmPos: int, texts: seq<PdfString>, selection: seq<bool>, first: nat,
                    quadding: int, dx: real, border: real, fontSize: real, y0: real)
      requires tmPos == -1 || (0 <= tmPos && tmPos + 6 < |toks|)
      requires |selection| == |texts|
      modifies this
      ensures appearBuf == old(appearBuf) + ListRows(font, toks, tmPos, texts, selection, first, quadding, dx, border, fontSize, y0)
    {
      var daToks := toks;
      var y := y0;
      var i := first;
      while i < |texts|
        invariant SameOutsideTm(daToks, toks, tmPos)
        invariant appearBuf + ListRows(font, toks, tmPos, texts, selection, i, quadding, dx, border, fontSize, y) ==
          old(appearBuf) + ListRows(font, toks, tmPos, texts, selection, first, quadding, dx, border, fontSize, y0)
        decreases |texts| - i
      {
        ghost var before := appearBuf;
        RowOpsOverwrites(font, daToks, toks, tmPos, texts[i], selection[i], quadding, dx, border, fontSize, y);
        daToks := DrawRow(font, daToks, tmPos, texts[i], selection[i], quadding, dx, border, fontSize, y);
        AppendThenRest(before, appearBuf, RowOps(font, toks, tmPos, texts[i], selection[i], quadding, dx, border, fontSize, y),
          ListRows(font, toks, tmPos, texts, selection, i + 1, quadding, dx, border, fontSize, NextRowY(y, fontSize)));
        // next line
        y := NextRowY(y, fontSize);
        i := i + 1;
      }
    }

    /** One row of a list box; returns the token list with its Tm operands set to the
        row's start. */
    method DrawRow(font: Font, daToks: seq<Piece>, tmPos: int, text: PdfString, selected: bool,
                   quadding: int, dx: real, border: real, fontSize: real, y: real) returns (newToks: seq<Piece>)
      requires tmPos == -1 || (0 <= tmPos && tmPos + 6 < |daToks|)
      modifies this
      ensures appearBuf == old(appearBuf) + RowOps(font, daToks, tmPos, text, selected, quadding, dx, border, fontSize, y)
      ensures SameOutsideTm(newToks, daToks, tmPos)
    {
      // setup, and the background if selected
      OpenRow(selected, border, y, dx, fontSize);
      newToks := DrawRowBody(font, daToks, tmPos, text, selected, quadding, dx, border, fontSize, y);
      // cleanup
      appearBuf := appearBuf + [Txt("Q\n")];
      AppendThree(old(appearBuf), RowOpen(selected, border, y, dx, fontSize),
        RowBody(font, daToks, tmPos, text, selected, quadding, dx, border, fontSize, y), [Txt("Q\n")]);
    }

    /** "q" and, for a selected row, the highlight. */
    method OpenRow(selected: bool, border: real, y: real, dx: real, fontSize: real)
      modifies this
      ensures appearBuf == old(appearBuf) + RowOpen(selected, border, y, dx, fontSize)
    {
      appearBuf := appearBuf + [Txt("q\n")];
      if selected {
        appearBuf := appearBuf + Highlight(border, y, dx, fontSize);
      }
    }

    /** The text object of a row: the start position from the string width and the
        quadding, the token list with its Tm operands set to it, then the string. */
    method DrawRowBody(font: Font, daToks: seq<Piece>, tmPos: int, text: PdfString, selected: bool,
                       quadding: int, dx: real, border: real, fontSize: real, y: real) returns (newToks: seq<Piece>)
      requires tmPos == -1 || (0 <= tmPos && tmPos + 6 < |daToks|)
      modifies this
      ensures appearBuf == old(appearBuf) + RowBody(font, daToks, tmPos, text, selected, quadding, dx, border, fontSize, y)
      ensures newToks == SetTm(daToks, tmPos, N4(QuadX(quadding, dx, border, WidthAt(StringWidth(font, text), fontSize))), N4(y))
    {
      // compute string width
      var w := TextWidth(font, text);
      // compute text start position
      w := ScaleWidth(w, fontSize);
      var x := LineStart(quadding, dx, border, w);
      // set the font matrix
      newToks := daToks;
      if tmPos >= 0 {
        newToks := newToks[tmPos + 4 := N4(x)][tmPos + 5 := N4(y)];
      }
      SetupRow(newToks, tmPos, x, y);
      ShowRow(text, selected);
    }

    /** "BT", the DA string and, without a Tm operator in it, the text matrix. */
    method SetupRow(toks: seq<Piece>, tmPos: int, x: real, y: real)
      modifies this
      ensures appearBuf == old(appearBuf) + RowSetup(toks, tmPos, x, y)
    {
      appearBuf := appearBuf + [Txt("BT\n")];
      // write the DA string
      WriteDa(toks);
      // write the font matrix (if not part of the DA string)
      WriteTm(tmPos, N4(x), y);
    }

    /** The string, in white on a selected row, then "ET". */
    method ShowRow(text: PdfString, selected: bool)
      modifies this
      ensures appearBuf == old(appearBuf) + RowShow(text, selected)
    {
      // change the text color if selected
      if selected {
        appearBuf := appearBuf + [Txt("1 g\n")];
      }
      // write the text string
      ShowString(text);
      appearBuf := appearBuf + [Txt("ET\n")];
    }

    //----- options

    /** The option texts of an Opt array. */
    static method ReadOptions(xref: XRef, opts: seq<Obj>) returns (texts: seq<PdfString>)
      ensures texts == OptionTexts(xref, opts)
    {
      texts := [];
      var i := 0;
      while i < |opts|
        invariant 0 <= i <= |opts|
        invariant texts == OptionTexts(xref, opts[..i])
      {
        var text: PdfString := [];
        var obj2 := Fetch(xref, opts[i]);
        if obj2.Str? {
          text := obj2.s;
        } else if obj2.Array? && |obj2.elems| == 2 {
          var obj3 := Fetch(xref, obj2.elems[1]);
          if obj3.Str? {
            text := obj3.s;
          }
        }
        assert opts[..i + 1][..i] == opts[..i];
        texts := texts + [text];
        i := i + 1;
      }
      assert opts[..i] == opts;
    }

    /** Whether an array value lists `text` among its string elements. */
    static method ListsText(xref: XRef, elems: seq<Obj>, text: PdfString) returns (found: bool)
      ensures found <==> exists j :: 0 <= j < |elems| && Fetch(xref, elems[j]) == Str(text)
    {
      found := false;
      var j := 0;
      while j < |elems|
        invariant 0 <= j <= |elems|
        invariant found <==> exists k :: 0 <= k < j && Fetch(xref, elems[k]) == Str(text)
      {
        var obj3 := Fetch(xref, elems[j]);
        if obj3.Str? && obj3.s == text {
          found := true;
        }
        j := j + 1;
      }
    }

    /** The selected options: those equal to a string V, or listed in an array V. */
    static method ReadSelection(xref: XRef, v: Obj, texts: seq<PdfString>) returns (selection: seq<bool>)
      ensures selection == Selection(xref, v, texts)
    {
      selection := [];
      var i := 0;
      while i < |texts|
        invariant 0 <= i <= |texts|
        invariant selection == Selection(xref, v, texts[..i])
      {
        var selected := false;
        if v.Str? {
          if v.s == texts[i] {
            selected := true;
          }
        } else if v.Array? {
          selected := ListsText(xref, v.elems, texts[i]);
        }
        assert texts[..i + 1][..i] == texts[..i];
        selection := selection + [selected];
        i := i + 1;
      }
      assert texts[..i] == texts;
    }

    //----- field contents

    /** The contents of a button: a radio button's caption or dot when V names its
        state, a pushbutton's caption, a check box's glyph when V is not Off. */
    method DrawButton(s: Setting)
      modifies this
      ensures appearBuf == old(appearBuf) + ButtonOps(acroForm.env, Info(), s)
    {
      var xref := acroForm.env.doc.xref;
      var caption: Option<PdfString> := None;
      if s.mk.Some? {
        var obj1 := Lookup(xref, s.mk.value, "CA");
        if obj1.Str? {
          caption := Some(obj1.s);
        }
      }
      assert caption == Caption(xref, s.mk);
      var v := Inheritable(acroForm.env, Info(), "V");
      if TestFlag(flags, FlagRadio) {
        // radio button
        if IsName(v, s.state) {
          if caption.Some? {
            DrawText(caption.value, s.da, s.fontDict, false, 0, QuadCenter, false, true, s.rot, s.box, s.border.width);
          } else {
            DrawRadioDot(s);
          }
        }
      } else if TestFlag(flags, FlagPushbutton) {
        // pushbutton
        if caption.Some? {
          DrawText(caption.value, s.da, s.fontDict, false, 0, QuadCenter, false, false, s.rot, s.box, s.border.width);
        }
      } else {
        // checkbox
        if v.Name? && v.name != "Off" {
          var glyph := if caption.Some? then caption.value else "3";
          DrawText(glyph, s.da, s.fontDict, false, 0, QuadCenter, false, true, s.rot, s.box, s.border.width);
        }
      }
    }

    /** A radio button in its state with no caption: a filled circle in the BC color. */
    method DrawRadioDot(s: Setting)
      modifies this
      ensures appearBuf == old(appearBuf) + RadioDotOps(acroForm.env.doc.xref, s)
    {
      if s.mk.Some? {
        var obj2 := Lookup(acroForm.env.doc.xref, s.mk.value, "BC");
        if obj2.Array? && |obj2.elems| > 0 {
          var dx := Width(s.box);
          var dy := Height(s.box);
          SetColor(obj2.elems, true, 0);
          DrawCircle(Half(dx), Half(dy), 0.2 * Min(dx, dy), "f");
        }
      }
    }

    /** The contents of a text field: V, else DV, when it is a string. */
    method DrawTextField(s: Setting)
      modifies this
      ensures appearBuf == old(appearBuf) + TextFieldOps(acroForm.env, Info(), s)
    {
      var env := acroForm.env;
      var obj1 := Inheritable(env, Info(), "V");
      if !obj1.Str? {
        obj1 := Inheritable(env, Info(), "DV");
      }
      if obj1.Str? {
        var obj2 := Inheritable(env, Info(), "Q");
        var quadding := if obj2.Int? then obj2.i else QuadLeft;
        var comb := 0;
        if TestFlag(flags, FlagComb) {
          obj2 := Inheritable(env, Info(), "MaxLen");
          if obj2.Int? {
            comb := obj2.i;
          }
        }
        DrawText(obj1.s, s.da, s.fontDict, TestFlag(flags, FlagMultiline), comb, quadding, true, false, s.rot, s.box, s.border.width);
      }
    }

    /** The contents of a choice field: a combo box's string V, or a list box of the
        Opt array. */
    method DrawChoice(s: Setting)
      modifies this
      ensures appearBuf == old(appearBuf) + ChoiceOps(acroForm.env, Info(), s)
    {
      var env := acroForm.env;
      var xref := env.doc.xref;
      var obj1 := Inheritable(env, Info(), "Q");
      var quadding := if obj1.Int? then obj1.i else QuadLeft;
      if TestFlag(flags, FlagCombo) {
        // combo box
        obj1 := Inheritable(env, Info(), "V");
        if obj1.Str? {
          DrawText(obj1.s, s.da, s.fontDict, false, 0, quadding, true, false, s.rot, s.box, s.border.width);
        }
      } else {
        // list box
        obj1 := Lookup(xref, fieldObj, "Opt");
        if obj1.Array? {
          // get the option text
          var text := ReadOptions(xref, obj1.elems);
          // get the selected option(s)
          var selection := ReadSelection(xref, Inheritable(env, Info(), "V"), text);
          // get the top index
          var obj2 := Lookup(xref, fieldObj, "TI");
          var topIdx := if obj2.Int? then obj2.i else 0;
          DrawListBox(text, selection, topIdx, s.da, s.fontDict, quadding, s.box, s.border.width);
        }
      }
    }

    /** The field contents, by the inherited field type. */
    method DrawContents(s: Setting)
      modifies this
      ensures appearBuf == old(appearBuf) + ContentOps(acroForm.env, Info(), s)
    {
      if IsName(s.ft, "Btn") {
        DrawButton(s);
      } else if IsName(s.ft, "Tx") {
        DrawTextField(s);
      } else if IsName(s.ft, "Ch") {
        DrawChoice(s);
      }
    }

    //----- drawNewAppearance, drawAnnot, draw

    /** drawNewAppearance: the regenerated appearance of one annotation of the field;
        the content buffer is emptied afterwards. */
    method DrawNewAppearance(annot: seq<Entry>, b: Box) returns (appearance: Appearance)
      modifies this
      ensures appearance == NewAppearance(acroForm.env, Info(), annot, b)
      ensures appearBuf == []
    {
      var s := ReadSetting(annot, b);
      DrawSetting(s);
      // build the appearance stream
      var drObj := Inheritable(acroForm.env, Info(), "DR");
      appearance := Appearance(appearBuf, Width(b), Height(b), if drObj.Dict? then Some(drObj) else None);
      appearBuf := [];
    }

    /** The drawing part of drawNewAppearance: the emptied buffer receives the
        background, the border, then the contents. */
    method DrawSetting(s: Setting)
      modifies this
      ensures appearBuf == NewAppearanceOps(acroForm.env, Info(), s)
    {
      var dx, dy := Width(s.box), Height(s.box);
      appearBuf := [];
      DrawBackground(s.mk, dx, dy);
      DrawBorder(s.mk, s.ft, s.border, dx, dy);
      DrawContents(s);
      AppendThree([], BackgroundOps(acroForm.env.doc.xref, s.mk, dx, dy),
        BorderOps(acroForm.env.doc.xref, s.mk, s.ft, flags, s.border, dx, dy), ContentOps(acroForm.env, Info(), s));
    }

    /** What drawNewAppearance reads from the annotation and the field before drawing:
        the MK dictionary, the inherited FT, the border, the DR font dictionary, the
        inherited DA string, the MK rotation and the appearance state. */
    method ReadSetting(annot: seq<Entry>, b: Box) returns (s: Setting)
      ensures s == SettingOf(acroForm.env, Info(), annot, b)
    {
      var env := acroForm.env;
      var xref := env.doc.xref;
      // get the appearance characteristics (MK) dictionary
      var mkObj := Lookup(xref, annot, "MK");
      var mkDict := if mkObj.Dict? then Some(mkObj.entries) else None;
      // get the field type
      var ftObj := Inheritable(env, Info(), "FT");
      var border := ReadBorder(xref, annot);
      // get the resource dictionary and build the font dictionary
      var drObj := Inheritable(env, Info(), "DR");
      var fontsObj := if drObj.Dict? then Lookup(xref, drObj.entries, "Font") else Null;
      var fontDict := if fontsObj.Dict? then Some(fontsObj.entries) else None;
      // get the default appearance string
      var daObj := Inheritable(env, Info(), "DA");
      var da := if daObj.Str? then Some(daObj.s) else None;
      // get the rotation value
      var rot := 0;
      if mkDict.Some? {
        var obj1 := Lookup(xref, mkDict.value, "R");
        if obj1.Int? {
          rot := obj1.i;
        }
      }
      // get the appearance state
      var appearanceState := AppearanceState(xref, annot);
      s := Setting(mkDict, ftObj, border, fontDict, da, rot, appearanceState, b);
    }

    /** The annotation rectangle, corners ordered; None unless Rect is a four-element
        array. */
    static method ReadRect(xref: XRef, annot: seq<Entry>) returns (box: Option<Box>)
      ensures box == RectBox(xref, annot)
    {
      var obj1 := Lookup(xref, annot, "Rect");
      if !(obj1.Array? && |obj1.elems| == 4) {
        return None;
      }
      var xMin, yMin, xMax, yMax := 0.0, 0.0, 0.0, 0.0;
      var obj2 := Fetch(xref, obj1.elems[0]);
      if IsNum(obj2) {
        xMin := NumOf(obj2);
      }
      obj2 := Fetch(xref, obj1.elems[1]);
      if IsNum(obj2) {
        yMin := NumOf(obj2);
      }
      obj2 := Fetch(xref, obj1.elems[2]);
      if IsNum(obj2) {
        xMax := NumOf(obj2);
      }
      obj2 := Fetch(xref, obj1.elems[3]);
      if IsNum(obj2) {
        yMax := NumOf(obj2);
      }
      if xMin > xMax {
        xMin, xMax := xMax, xMin;
      }
      if yMin > yMax {
        yMin, yMax := yMax, yMin;
      }
      box := Some(Box(xMin, yMin, xMax, yMax));
    }

    /** getRectangle: the rectangle, truncated to integers, of an annotation listed on
        this page. */
    method GetRectangle(pageNum: int, annotRef: Obj, annotObj: Obj) returns (rect: Option<IntRect>)
      ensures rect == FormSpec.GetRectangle(acroForm.env.doc.xref, acroForm.annotPages, pageNum, annotRef, annotObj)
    {
      if !annotObj.Dict? {
        return None;
      }
      // get the page number
      var page := acroForm.LookupAnnotPage(annotRef);
      if page != pageNum {
        return None;
      }
      // get the bounding box
      var box := ReadRect(acroForm.env.doc.xref, annotObj.entries);
      if box.None? {
        return None;
      }
      var b := box.value;
      rect := Some(IntRect(Trunc(b.xMin), Trunc(b.yMin), Trunc(b.xMax), Trunc(b.yMax)));
    }

    /** drawAnnot: what is drawn for one annotation of the field. */
    method DrawAnnot(pageNum: int, printing: bool, annotRef: Obj, annotObj: Obj) returns (drawing: Option<Drawing>)
      modifies this
      ensures drawing == AnnotDrawing(acroForm.env, acroForm.needAppearances, acroForm.annotPages, Info(), pageNum, printing, annotRef, annotObj)
    {
      var box := acroForm.AnnotBox(pageNum, printing, annotRef, annotObj);
      if box.None? {
        return None;
      }
      // draw it
      if acroForm.needAppearances {
        var appearance := DrawNewAppearance(annotObj.entries, box.value);
        drawing := Some(Generated(appearance, box.value));
      } else {
        var appearance := ExistingAppearance(acroForm.env.doc.xref, annotObj.entries);
        drawing := if appearance.Some? then Some(Existing(appearance.value, box.value)) else None;
      }
    }

    /** The loop of draw over the Kids array: each kid drawn in turn. */
    method DrawKids(pageNum: int, printing: bool, kids: seq<Obj>) returns (drawings: seq<Drawing>)
      modifies this
      ensures drawings == KidDrawings(acroForm.env, acroForm.needAppearances, acroForm.annotPages, Info(), pageNum, printing, kids)
    {
      drawings := [];
      var i := 0;
      while i < |kids|
        invariant 0 <= i <= |kids|
        invariant drawings == KidDrawings(acroForm.env, acroForm.needAppearances, acroForm.annotPages, Info(), pageNum, printing, kids[..i])
      {
        drawings := DrawKid(pageNum, printing, kids, i, drawings);
        i := i + 1;
      }
      assert kids[..i] == kids;
    }

    /** One step of the Kids loop of draw: kid i is drawn, and its drawing, if any,
        follows those of the kids before it. */
    method DrawKid(pageNum: int, printing: bool, kids: seq<Obj>, i: nat, drawings: seq<Drawing>) returns (next: seq<Drawing>)
      requires i < |kids|
      requires drawings == KidDrawings(acroForm.env, acroForm.needAppearances, acroForm.annotPages, Info(), pageNum, printing, kids[..i])
      modifies this
      ensures next == KidDrawings(acroForm.env, acroForm.needAppearances, acroForm.annotPages, Info(), pageNum, printing, kids[..i + 1])
    {
      var annotRef := kids[i];
      var annotObj := Fetch(acroForm.env.doc.xref, annotRef);
      var d := DrawAnnot(pageNum, printing, annotRef, annotObj);
      KidDrawingsSnoc(acroForm.env, acroForm.needAppearances, acroForm.annotPages, Info(), pageNum, printing, kids, i);
      next := if d.Some? then drawings + [d.value] else drawings;
    }

    /** AcroFormField::draw: each annotation of the Kids array, or the field dictionary
        itself when there is no Kids array. */
    method Draw(pageNum: int, printing: bool) returns (drawings: seq<Drawing>)
      modifies this
      ensures drawings == FieldDrawings(acroForm.env, acroForm.needAppearances, acroForm.annotPages, Info(), pageNum, printing)
    {
      var xref := acroForm.env.doc.xref;
      drawings := [];
      // find the annotation object(s)
      var kidsObj := Lookup(xref, fieldObj, "Kids");
      if kidsObj.Array? {
        drawings := DrawKids(pageNum, printing, kidsObj.elems);
      } else {
        var d := DrawAnnot(pageNum, printing, fieldRef, Dict(fieldObj));
        if d.Some? {
          drawings := [d.value];
        }
      }
    }
  }
}

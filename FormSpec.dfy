/** The interactive form as a structure: the annotation-to-page list, the scan of the
    field tree, the loading of a terminal field with its inherited attributes, the
    inheritable-entry lookup, and the per-annotation choices made before drawing
    (visibility, rectangle, existing appearance, border). */
module FormSpec {
  import opened PdfObjects
  import opened FieldTypes
  import opened TextLayout

  /** A Unicode code point, as TextString stores it. */
  type Unicode = nat

  /** The conversion TextString applies to a PDF text string (UTF-16BE after an FE FF
      marker, otherwise PDFDocEncoding).  TextString is not part of this model, so the
      conversion is a parameter of the document. */
  type TextDecoder = PdfString -> seq<Unicode>

  /** The separator load inserts between partial names. */
  const Dot: Unicode := 46

  /** The document as the form code sees it: the cross-reference table, the text-string
      decoder, each page's Annots entry (pages 1..n in order), the font loader for a
      font resource dictionary, and the optional-content evaluator (None when it cannot
      decide). */
  datatype Doc = Doc(
    xref: XRef,
    decodeText: TextDecoder,
    pageAnnots: seq<Obj>,
    fontOf: (seq<Entry>, string) -> Font,
    ocVisible: Obj -> Option<bool>)

  /** What inheritable lookups need: the document, the AcroForm dictionary, and the
      bound on the length of a Parent chain that is followed. */
  datatype Env = Env(doc: Doc, formDict: seq<Entry>, maxDepth: nat)

  //----- annotation pages

  /** An annotation reference and the page whose Annots array lists it. */
  datatype AnnotPage = AnnotPage(annotNum: int, annotGen: int, pageNum: int)

  /** The elements of a page's Annots entry, when it resolves to an array. */
  function AnnotsOf(xref: XRef, annotsEntry: Obj): seq<Obj>
  {
    var a := Fetch(xref, annotsEntry);
    if a.Array? then a.elems else []
  }

  /** The list entries recorded for one page: one per reference element, in order. */
  function PageEntries(annots: seq<Obj>, pageNum: int): (r: seq<AnnotPage>)
    ensures |r| <= |annots|
  {
    if annots == [] then []
    else
      var init := PageEntries(annots[..|annots| - 1], pageNum);
      var last := annots[|annots| - 1];
      if last.Ref? then init + [AnnotPage(last.num, last.gen, pageNum)] else init
  }

  /** A page's entries all carry its number, and there is one for exactly the
      references in its Annots array. */
  lemma {:induction false} PageEntriesMembers(annots: seq<Obj>, pageNum: int)
    ensures forall i :: 0 <= i < |PageEntries(annots, pageNum)| ==> PageEntries(annots, pageNum)[i].pageNum == pageNum
    ensures forall n, g, p :: AnnotPage(n, g, p) in PageEntries(annots, pageNum) <==> p == pageNum && Ref(n, g) in annots
    decreases |annots|
  {
    if annots != [] {
      var init := annots[..|annots| - 1];
      PageEntriesMembers(init, pageNum);
      assert annots == init + [annots[|annots| - 1]];
    }
  }

  /** The NeedAppearances entry of the AcroForm dictionary: its value when it is a
      boolean, else false. */
  function NeedAppearances(xref: XRef, formDict: seq<Entry>): bool
  {
    var n := Lookup(xref, formDict, "NeedAppearances");
    n.Bool? && n.b
  }

  /** The annotation-page list for pages 1..|pages|. */
  function AnnotPageList(xref: XRef, pages: seq<Obj>): (r: seq<AnnotPage>)
  {
    if pages == [] then []
    else AnnotPageList(xref, pages[..|pages| - 1]) + PageEntries(AnnotsOf(xref, pages[|pages| - 1]), |pages|)
  }

  /** The list names pages 1..|pages| only, in non-decreasing page order. */
  lemma {:induction false} AnnotPageListOrdered(xref: XRef, pages: seq<Obj>)
    ensures forall i :: 0 <= i < |AnnotPageList(xref, pages)| ==> 1 <= AnnotPageList(xref, pages)[i].pageNum <= |pages|
    ensures forall i, j :: 0 <= i < j < |AnnotPageList(xref, pages)| ==>
      AnnotPageList(xref, pages)[i].pageNum <= AnnotPageList(xref, pages)[j].pageNum
    decreases |pages|
  {
    if pages != [] {
      var init := pages[..|pages| - 1];
      AnnotPageListOrdered(xref, init);
      PageEntriesMembers(AnnotsOf(xref, pages[|pages| - 1]), |pages|);
    }
  }

  /** The list has an entry (n, g, p) exactly when page p's Annots array holds the
      reference n g R. */
  lemma {:induction false} AnnotPageListMembers(xref: XRef, pages: seq<Obj>)
    ensures forall n, g, p :: AnnotPage(n, g, p) in AnnotPageList(xref, pages) <==>
      1 <= p <= |pages| && Ref(n, g) in AnnotsOf(xref, pages[p - 1])
    decreases |pages|
  {
    if pages != [] {
      var init := pages[..|pages| - 1];
      AnnotPageListMembers(xref, init);
      PageEntriesMembers(AnnotsOf(xref, pages[|pages| - 1]), |pages|);
      assert forall p :: 0 <= p < |pages| - 1 ==> init[p] == pages[p];
    }
  }

  /** True when list entry `e` is for the annotation `annotRef` refers to. */
  predicate RefersTo(e: AnnotPage, annotRef: Obj)
  {
    annotRef.Ref? && e.annotNum == annotRef.num && e.annotGen == annotRef.gen
  }

  /** lookupAnnotPage: the page of the first entry for the reference, 0 for a
      reference that is not listed and for an object that is not a reference. */
  function LookupAnnotPage(list: seq<AnnotPage>, annotRef: Obj): (page: int)
    ensures (forall i :: 0 <= i < |list| ==> !RefersTo(list[i], annotRef)) ==> page == 0
    ensures (exists i :: 0 <= i < |list| && RefersTo(list[i], annotRef)) ==>
      exists i :: 0 <= i < |list| && RefersTo(list[i], annotRef) && page == list[i].pageNum &&
        forall j :: 0 <= j < i ==> !RefersTo(list[j], annotRef)
  {
    if list == [] then 0
    else if RefersTo(list[0], annotRef) then list[0].pageNum
    else
      var r := LookupAnnotPage(list[1..], annotRef);
      assert forall i :: 1 <= i < |list| ==> list[1..][i - 1] == list[i];
      r
  }

  /** An annotation is found on the first page whose Annots array refers to it. */
  lemma PageOfAnnotation(xref: XRef, pages: seq<Obj>, n: int, g: int, k: int)
    requires 1 <= k <= |pages| && Ref(n, g) in AnnotsOf(xref, pages[k - 1])
    requires forall p :: 0 <= p < k - 1 ==> Ref(n, g) !in AnnotsOf(xref, pages[p])
    ensures LookupAnnotPage(AnnotPageList(xref, pages), Ref(n, g)) == k
  {
    var list := AnnotPageList(xref, pages);
    var ref := Ref(n, g);
    ListedEntry(xref, pages, n, g, k);
    var listed := FindEntry(list, AnnotPage(n, g, k));
    var page := LookupAnnotPage(list, ref);
    var i := FirstMatch(list, ref, listed);
    assert list[i] == AnnotPage(n, g, page);
    // no later in the list than the entry for page k, so no later page
    OrderedAt(xref, pages, i, listed);
    // and page k is the first page listing the annotation
    EntryListed(xref, pages, list[i]);
  }

  /** Page k's Annots array referring to n g R puts (n, g, k) in the list. */
  lemma ListedEntry(xref: XRef, pages: seq<Obj>, n: int, g: int, k: int)
    requires 1 <= k <= |pages| && Ref(n, g) in AnnotsOf(xref, pages[k - 1])
    ensures AnnotPage(n, g, k) in AnnotPageList(xref, pages)
  {
    AnnotPageListMembers(xref, pages);
  }

  /** An entry of the list comes from its page's Annots array. */
  lemma EntryListed(xref: XRef, pages: seq<Obj>, e: AnnotPage)
    requires e in AnnotPageList(xref, pages)
    ensures 1 <= e.pageNum <= |pages| && Ref(e.annotNum, e.annotGen) in AnnotsOf(xref, pages[e.pageNum - 1])
  {
    AnnotPageListMembers(xref, pages);
  }

  /** Entries earlier in the list are for no later pages. */
  lemma OrderedAt(xref: XRef, pages: seq<Obj>, i: nat, j: nat)
    requires i <= j < |AnnotPageList(xref, pages)|
    ensures AnnotPageList(xref, pages)[i].pageNum <= AnnotPageList(xref, pages)[j].pageNum
  {
    AnnotPageListOrdered(xref, pages);
  }

  /** An index of an element known to be in the list. */
  lemma FindEntry(list: seq<AnnotPage>, e: AnnotPage) returns (i: nat)
    requires e in list
    ensures i < |list| && list[i] == e
  {
    i :| 0 <= i < |list| && list[i] == e;
  }

  /** The index whose page LookupAnnotPage reports: a match no later than any other. */
  lemma FirstMatch(list: seq<AnnotPage>, ref: Obj, known: nat) returns (i: nat)
    requires known < |list| && RefersTo(list[known], ref)
    ensures i <= known && RefersTo(list[i], ref) && LookupAnnotPage(list, ref) == list[i].pageNum
  {
    var page := LookupAnnotPage(list, ref);
    i :| 0 <= i < |list| && RefersTo(list[i], ref) && page == list[i].pageNum &&
      forall j :: 0 <= j < i ==> !RefersTo(list[j], ref);
  }

  //----- field tree scan and field loading

  /** A kid that resolves to a dictionary with no (or a null) Parent entry: a widget
      annotation rather than a child field. */
  predicate IsWidgetKid(xref: XRef, kid: Obj)
  {
    var k := Fetch(xref, kid);
    k.Dict? && Lookup(xref, k.entries, "Parent") == Null
  }

  /** A field node is terminal unless it has a Kids array and every dictionary among
      its kids names a Parent; kids that are not dictionaries are ignored. */
  predicate IsTerminal(xref: XRef, d: seq<Entry>)
  {
    var kids := Lookup(xref, d, "Kids");
    !kids.Array? || exists i :: 0 <= i < |kids.elems| && IsWidgetKid(xref, kids.elems[i])
  }

  /** A loaded field: its reference and dictionary, its type, its fully qualified name,
      its own value and alternate text, and its (32-bit) flag word. */
  datatype FieldInfo = FieldInfo(
    fieldRef: Obj,
    fieldObj: seq<Entry>,
    fieldType: FieldType,
    name: seq<Unicode>,
    value: seq<Unicode>,
    altText: seq<Unicode>,
    flags: int)

  /** The attributes gathered while walking up the Parent chain: the qualified name so
      far, and the type name and flags once found. */
  datatype Inherited = Inherited(name: seq<Unicode>, ft: Option<string>, flags: Option<int>)

  /** The TextString load makes of an entry: the decoded string, or empty when the
      entry is not a string. */
  function TextOf(dec: TextDecoder, o: Obj): seq<Unicode>
  {
    if o.Str? then dec(o.s) else []
  }

  function NameOpt(o: Obj): Option<string>
  {
    if o.Name? then Some(o.name) else None
  }

  function IntOpt(o: Obj): Option<int>
  {
    if o.Int? then Some(o.i) else None
  }

  /** The field's own partial name, type name and flags. */
  function OwnAttributes(xref: XRef, dec: TextDecoder, d: seq<Entry>): Inherited
  {
    Inherited(TextOf(dec, Lookup(xref, d, "T")), NameOpt(Lookup(xref, d, "FT")), IntOpt(Lookup(xref, d, "Ff")))
  }

  /** One step up the Parent chain: the ancestor's decoded partial name is put in front
      (with a '.' when the decoded name so far is not empty); type name and flags are
      taken only while still missing. */
  function InheritFrom(xref: XRef, dec: TextDecoder, acc: Inherited, parent: seq<Entry>): Inherited
  {
    var t := Lookup(xref, parent, "T");
    Inherited(
      if t.Str? then dec(t.s) + (if |acc.name| > 0 then [Dot] else []) + acc.name else acc.name,
      if acc.ft.None? then NameOpt(Lookup(xref, parent, "FT")) else acc.ft,
      if acc.flags.None? then IntOpt(Lookup(xref, parent, "Ff")) else acc.flags)
  }

  /** The walk up the Parent chain from `parent`, for at most `fuel` ancestors. */
  function WalkParents(xref: XRef, dec: TextDecoder, acc: Inherited, parent: Obj, fuel: nat): Inherited
    decreases fuel
  {
    if parent.Dict? && fuel > 0 then
      WalkParents(xref, dec, InheritFrom(xref, dec, acc, parent.entries), Lookup(xref, parent.entries, "Parent"), fuel - 1)
    else acc
  }

  /** AcroFormField::load: the field at `fieldRef` with its inherited attributes, or
      None when no type name is found or it is not Btn, Tx, Ch or Sig. */
  function LoadField(xref: XRef, dec: TextDecoder, maxDepth: nat, fieldRef: Obj): (r: Option<FieldInfo>)
    requires Fetch(xref, fieldRef).Dict?
  {
    var d := Fetch(xref, fieldRef).entries;
    var inh := WalkParents(xref, dec, OwnAttributes(xref, dec, d), Lookup(xref, d, "Parent"), maxDepth);
    var flags := if inh.flags.Some? then ToUint32(inh.flags.value) else 0;
    match Classify(inh.ft, flags)
    case None => None
    case Some(t) =>
      Some(FieldInfo(fieldRef, d, t, inh.name, TextOf(dec, Lookup(xref, d, "V")), TextOf(dec, Lookup(xref, d, "TU")), flags))
  }

  /** scanField: the fields found under `fieldRef`; `fuel` bounds how many levels of
      non-terminal nodes are descended. */
  function ScanField(xref: XRef, dec: TextDecoder, maxDepth: nat, fieldRef: Obj, fuel: nat): seq<FieldInfo>
    decreases fuel, 0
  {
    var f := Fetch(xref, fieldRef);
    if !f.Dict? then []
    else if IsTerminal(xref, f.entries) then
      match LoadField(xref, dec, maxDepth, fieldRef)
      case None => []
      case Some(info) => [info]
    else if fuel == 0 then []
    else ScanKids(xref, dec, maxDepth, Lookup(xref, f.entries, "Kids").elems, fuel - 1)
  }

  /** The fields found under each of `kids`, in order. */
  function ScanKids(xref: XRef, dec: TextDecoder, maxDepth: nat, kids: seq<Obj>, fuel: nat): seq<FieldInfo>
    decreases fuel, 1, |kids|
  {
    if kids == [] then []
    else ScanKids(xref, dec, maxDepth, kids[..|kids| - 1], fuel) + ScanField(xref, dec, maxDepth, kids[|kids| - 1], fuel)
  }

  /** True when `f` is what loading the terminal field it refers to yields. */
  predicate LoadedTerminal(xref: XRef, dec: TextDecoder, maxDepth: nat, f: FieldInfo)
  {
    Fetch(xref, f.fieldRef).Dict? && IsTerminal(xref, Fetch(xref, f.fieldRef).entries) &&
    LoadField(xref, dec, maxDepth, f.fieldRef) == Some(f)
  }

  /** Every field the scan finds is a terminal field, loaded from its own reference. */
  lemma {:induction false} ScanFieldLoaded(xref: XRef, dec: TextDecoder, maxDepth: nat, fieldRef: Obj, fuel: nat)
    ensures forall f :: f in ScanField(xref, dec, maxDepth, fieldRef, fuel) ==> LoadedTerminal(xref, dec, maxDepth, f)
    decreases fuel, 0
  {
    var d := Fetch(xref, fieldRef);
    if d.Dict? && !IsTerminal(xref, d.entries) && fuel > 0 {
      ScanKidsLoaded(xref, dec, maxDepth, Lookup(xref, d.entries, "Kids").elems, fuel - 1);
    }
  }

  lemma {:induction false} ScanKidsLoaded(xref: XRef, dec: TextDecoder, maxDepth: nat, kids: seq<Obj>, fuel: nat)
    ensures forall f :: f in ScanKids(xref, dec, maxDepth, kids, fuel) ==> LoadedTerminal(xref, dec, maxDepth, f)
    decreases fuel, 1, |kids|
  {
    if kids != [] {
      ScanKidsLoaded(xref, dec, maxDepth, kids[..|kids| - 1], fuel);
      ScanFieldLoaded(xref, dec, maxDepth, kids[|kids| - 1], fuel);
    }
  }

  /** The terminal nodes under `fieldRef`, in order: the node itself when it is a
      terminal dictionary, else the terminal nodes under each of its kids; at most
      `fuel` levels of non-terminal nodes are descended. */
  function Leaves(xref: XRef, fieldRef: Obj, fuel: nat): seq<Obj>
    decreases fuel, 0
  {
    var f := Fetch(xref, fieldRef);
    if !f.Dict? then []
    else if IsTerminal(xref, f.entries) then [fieldRef]
    else if fuel == 0 then []
    else KidLeaves(xref, Lookup(xref, f.entries, "Kids").elems, fuel - 1)
  }

  function KidLeaves(xref: XRef, kids: seq<Obj>, fuel: nat): seq<Obj>
    decreases fuel, 1, |kids|
  {
    if kids == [] then []
    else KidLeaves(xref, kids[..|kids| - 1], fuel) + Leaves(xref, kids[|kids| - 1], fuel)
  }

  /** True when `l` refers to a dictionary that loads as a field. */
  predicate Loads(xref: XRef, dec: TextDecoder, maxDepth: nat, l: Obj)
  {
    Fetch(xref, l).Dict? && LoadField(xref, dec, maxDepth, l).Some?
  }

  /** The fields loaded from `refs`, in order; a reference that does not load adds
      nothing. */
  function Loaded(xref: XRef, dec: TextDecoder, maxDepth: nat, refs: seq<Obj>): seq<FieldInfo>
  {
    if refs == [] then []
    else
      var l := refs[|refs| - 1];
      Loaded(xref, dec, maxDepth, refs[..|refs| - 1]) +
        (if Loads(xref, dec, maxDepth, l) then [LoadField(xref, dec, maxDepth, l).value] else [])
  }

  lemma {:induction false} LoadedAppend(xref: XRef, dec: TextDecoder, maxDepth: nat, a: seq<Obj>, b: seq<Obj>)
    ensures Loaded(xref, dec, maxDepth, a + b) == Loaded(xref, dec, maxDepth, a) + Loaded(xref, dec, maxDepth, b)
    decreases |b|
  {
    if b != [] {
      var b' := b[..|b| - 1];
      assert (a + b)[..|a + b| - 1] == a + b';
      LoadedAppend(xref, dec, maxDepth, a, b');
    } else {
      assert a + b == a;
    }
  }

  /** Every leaf is a terminal field dictionary. */
  lemma {:induction false} LeavesAreTerminal(xref: XRef, fieldRef: Obj, fuel: nat)
    ensures forall l :: l in Leaves(xref, fieldRef, fuel) ==> Fetch(xref, l).Dict? && IsTerminal(xref, Fetch(xref, l).entries)
    decreases fuel, 0
  {
    var f := Fetch(xref, fieldRef);
    if f.Dict? && !IsTerminal(xref, f.entries) && fuel > 0 {
      KidLeavesAreTerminal(xref, Lookup(xref, f.entries, "Kids").elems, fuel - 1);
    }
  }

  lemma {:induction false} KidLeavesAreTerminal(xref: XRef, kids: seq<Obj>, fuel: nat)
    ensures forall l :: l in KidLeaves(xref, kids, fuel) ==> Fetch(xref, l).Dict? && IsTerminal(xref, Fetch(xref, l).entries)
    decreases fuel, 1, |kids|
  {
    if kids != [] {
      KidLeavesAreTerminal(xref, kids[..|kids| - 1], fuel);
      LeavesAreTerminal(xref, kids[|kids| - 1], fuel);
    }
  }

  /** scanField collects exactly the fields loaded from the terminal nodes under
      `fieldRef`, in tree order: a non-terminal node adds nothing of its own. */
  lemma {:induction false} ScanFieldIsLoadedLeaves(xref: XRef, dec: TextDecoder, maxDepth: nat, fieldRef: Obj, fuel: nat)
    ensures ScanField(xref, dec, maxDepth, fieldRef, fuel) == Loaded(xref, dec, maxDepth, Leaves(xref, fieldRef, fuel))
    decreases fuel, 0
  {
    var f := Fetch(xref, fieldRef);
    if f.Dict? && !IsTerminal(xref, f.entries) && fuel > 0 {
      ScanKidsIsLoadedLeaves(xref, dec, maxDepth, Lookup(xref, f.entries, "Kids").elems, fuel - 1);
    }
  }

  lemma {:induction false} ScanKidsIsLoadedLeaves(xref: XRef, dec: TextDecoder, maxDepth: nat, kids: seq<Obj>, fuel: nat)
    ensures ScanKids(xref, dec, maxDepth, kids, fuel) == Loaded(xref, dec, maxDepth, KidLeaves(xref, kids, fuel))
    decreases fuel, 1, |kids|
  {
    if kids != [] {
      var init := kids[..|kids| - 1];
      var last := kids[|kids| - 1];
      ScanKidsIsLoadedLeaves(xref, dec, maxDepth, init, fuel);
      ScanFieldIsLoadedLeaves(xref, dec, maxDepth, last, fuel);
      LoadedAppend(xref, dec, maxDepth, KidLeaves(xref, init, fuel), Leaves(xref, last, fuel));
    }
  }

  lemma {:induction false} LoadedHas(xref: XRef, dec: TextDecoder, maxDepth: nat, refs: seq<Obj>, l: Obj)
    requires l in refs && Loads(xref, dec, maxDepth, l)
    ensures LoadField(xref, dec, maxDepth, l).value in Loaded(xref, dec, maxDepth, refs)
    decreases |refs|
  {
    if refs[|refs| - 1] != l {
      assert l in refs[..|refs| - 1];
      LoadedHas(xref, dec, maxDepth, refs[..|refs| - 1], l);
    }
  }

  lemma {:induction false} LoadedLength(xref: XRef, dec: TextDecoder, maxDepth: nat, refs: seq<Obj>)
    requires forall l :: l in refs ==> Loads(xref, dec, maxDepth, l)
    ensures |Loaded(xref, dec, maxDepth, refs)| == |refs|
    decreases |refs|
  {
    if refs != [] {
      assert forall l :: l in refs[..|refs| - 1] ==> l in refs;
      LoadedLength(xref, dec, maxDepth, refs[..|refs| - 1]);
    }
  }

  /** Every terminal node under `fieldRef` that loads is collected by the scan. */
  lemma LeafFieldScanned(xref: XRef, dec: TextDecoder, maxDepth: nat, fieldRef: Obj, fuel: nat, l: Obj)
    requires l in Leaves(xref, fieldRef, fuel) && Loads(xref, dec, maxDepth, l)
    ensures LoadField(xref, dec, maxDepth, l).value in ScanField(xref, dec, maxDepth, fieldRef, fuel)
  {
    ScanFieldIsLoadedLeaves(xref, dec, maxDepth, fieldRef, fuel);
    LoadedHas(xref, dec, maxDepth, Leaves(xref, fieldRef, fuel), l);
  }

  /** When every terminal node loads, the scan yields one field per terminal node. */
  lemma ScanCountsLeaves(xref: XRef, dec: TextDecoder, maxDepth: nat, fieldRef: Obj, fuel: nat)
    requires forall l :: l in Leaves(xref, fieldRef, fuel) ==> Loads(xref, dec, maxDepth, l)
    ensures |ScanField(xref, dec, maxDepth, fieldRef, fuel)| == |Leaves(xref, fieldRef, fuel)|
  {
    ScanFieldIsLoadedLeaves(xref, dec, maxDepth, fieldRef, fuel);
    LoadedLength(xref, dec, maxDepth, Leaves(xref, fieldRef, fuel));
  }

  //----- reference definitions for inheritance

  /** The ancestor dictionaries reached from `parent`, nearest first, at most fuel. */
  function Ancestors(xref: XRef, parent: Obj, fuel: nat): seq<seq<Entry>>
    decreases fuel
  {
    if parent.Dict? && fuel > 0 then [parent.entries] + Ancestors(xref, Lookup(xref, parent.entries, "Parent"), fuel - 1)
    else []
  }

  /** The `key` entry of the first dictionary in `chain` where it is a name. */
  function NearestName(xref: XRef, chain: seq<seq<Entry>>, key: string): Option<string>
  {
    if chain == [] then None
    else if Lookup(xref, chain[0], key).Name? then Some(Lookup(xref, chain[0], key).name)
    else NearestName(xref, chain[1..], key)
  }

  /** The `key` entry of the first dictionary in `chain` where it is an integer. */
  function NearestInt(xref: XRef, chain: seq<seq<Entry>>, key: string): Option<int>
  {
    if chain == [] then None
    else if Lookup(xref, chain[0], key).Int? then Some(Lookup(xref, chain[0], key).i)
    else NearestInt(xref, chain[1..], key)
  }

  lemma {:induction false} WalkFindsNearest(xref: XRef, dec: TextDecoder, acc: Inherited, parent: Obj, fuel: nat)
    ensures var w := WalkParents(xref, dec, acc, parent, fuel);
      var chain := Ancestors(xref, parent, fuel);
      w.ft == (if acc.ft.Some? then acc.ft else NearestName(xref, chain, "FT")) &&
      w.flags == (if acc.flags.Some? then acc.flags else NearestInt(xref, chain, "Ff"))
    decreases fuel
  {
    if parent.Dict? && fuel > 0 {
      var next := InheritFrom(xref, dec, acc, parent.entries);
      var grand := Lookup(xref, parent.entries, "Parent");
      WalkFindsNearest(xref, dec, next, grand, fuel - 1);
      var chain := Ancestors(xref, parent, fuel);
      assert chain[1..] == Ancestors(xref, grand, fuel - 1);
    }
  }

  /** A field's type name and flags are those of the nearest dictionary on its Parent
      chain (itself first) that has them. */
  lemma InheritedTypeIsNearest(xref: XRef, dec: TextDecoder, d: seq<Entry>, maxDepth: nat)
    ensures var w := WalkParents(xref, dec, OwnAttributes(xref, dec, d), Lookup(xref, d, "Parent"), maxDepth);
      var chain := [d] + Ancestors(xref, Lookup(xref, d, "Parent"), maxDepth);
      w.ft == NearestName(xref, chain, "FT") && w.flags == NearestInt(xref, chain, "Ff")
  {
    var parent := Lookup(xref, d, "Parent");
    WalkFindsNearest(xref, dec, OwnAttributes(xref, dec, d), parent, maxDepth);
    var chain := [d] + Ancestors(xref, parent, maxDepth);
    assert chain[1..] == Ancestors(xref, parent, maxDepth);
  }

  /** Decoded partial names joined with '.', root first. */
  function JoinDotted(segs: seq<seq<Unicode>>): seq<Unicode>
  {
    if segs == [] then [] else if |segs| == 1 then segs[0] else segs[0] + [Dot] + JoinDotted(segs[1..])
  }

  predicate AllNonEmpty(segs: seq<seq<Unicode>>)
  {
    forall i :: 0 <= i < |segs| ==> |segs[i]| > 0
  }

  /** The decoded string partial names on the Parent chain from `parent`, root first. */
  function RootFirstNames(xref: XRef, dec: TextDecoder, parent: Obj, fuel: nat): seq<seq<Unicode>>
    decreases fuel
  {
    if parent.Dict? && fuel > 0 then
      RootFirstNames(xref, dec, Lookup(xref, parent.entries, "Parent"), fuel - 1) + OwnSegment(xref, dec, parent.entries)
    else []
  }

  lemma JoinDottedNonEmpty(segs: seq<seq<Unicode>>)
    requires AllNonEmpty(segs)
    ensures |JoinDotted(segs)| > 0 <==> segs != []
  {
  }

  /** Putting a non-empty partial name in front of a dotted name. */
  lemma JoinDottedCons(t: seq<Unicode>, s: seq<seq<Unicode>>)
    requires |t| > 0 && AllNonEmpty(s)
    ensures t + (if |JoinDotted(s)| > 0 then [Dot] else []) + JoinDotted(s) == JoinDotted([t] + s)
  {
    JoinDottedNonEmpty(s);
    assert ([t] + s)[1..] == s;
  }

  lemma AllNonEmptyPrefix(a: seq<seq<Unicode>>, b: seq<seq<Unicode>>)
    requires AllNonEmpty(a + b)
    ensures AllNonEmpty(a) && AllNonEmpty(b)
  {
    forall i | 0 <= i < |a| ensures |a[i]| > 0 {
      assert a[i] == (a + b)[i];
    }
    forall i | 0 <= i < |b| ensures |b[i]| > 0 {
      assert b[i] == (a + b)[|a| + i];
    }
  }

  /** The decoded partial name an ancestor contributes, as zero or one segments. */
  function OwnSegment(xref: XRef, dec: TextDecoder, parent: seq<Entry>): seq<seq<Unicode>>
  {
    var t := Lookup(xref, parent, "T");
    if t.Str? then [dec(t.s)] else []
  }

  lemma InheritNameStep(xref: XRef, dec: TextDecoder, acc: Inherited, s: seq<seq<Unicode>>, parent: seq<Entry>)
    requires AllNonEmpty(s) && acc.name == JoinDotted(s)
    requires AllNonEmpty(OwnSegment(xref, dec, parent))
    ensures InheritFrom(xref, dec, acc, parent).name == JoinDotted(OwnSegment(xref, dec, parent) + s)
  {
    var t := Lookup(xref, parent, "T");
    if t.Str? {
      assert OwnSegment(xref, dec, parent)[0] == dec(t.s);
      JoinDottedCons(dec(t.s), s);
    } else {
      assert OwnSegment(xref, dec, parent) + s == s;
    }
  }

  lemma {:induction false} WalkBuildsDottedName(xref: XRef, dec: TextDecoder, acc: Inherited, s: seq<seq<Unicode>>, parent: Obj, fuel: nat)
    requires AllNonEmpty(s) && acc.name == JoinDotted(s)
    requires AllNonEmpty(RootFirstNames(xref, dec, parent, fuel))
    ensures WalkParents(xref, dec, acc, parent, fuel).name == JoinDotted(RootFirstNames(xref, dec, parent, fuel) + s)
    decreases fuel
  {
    if parent.Dict? && fuel > 0 {
      var grand := Lookup(xref, parent.entries, "Parent");
      var upper := RootFirstNames(xref, dec, grand, fuel - 1);
      var mine := OwnSegment(xref, dec, parent.entries);
      assert RootFirstNames(xref, dec, parent, fuel) == upper + mine;
      AllNonEmptyPrefix(upper, mine);
      AllNonEmptyJoin(mine, s);
      var next := InheritFrom(xref, dec, acc, parent.entries);
      InheritNameStep(xref, dec, acc, s, parent.entries);
      WalkBuildsDottedName(xref, dec, next, mine + s, grand, fuel - 1);
      assert WalkParents(xref, dec, acc, parent, fuel) == WalkParents(xref, dec, next, grand, fuel - 1);
      Associative(upper, mine, s);
    } else {
      assert RootFirstNames(xref, dec, parent, fuel) + s == s;
    }
  }

  lemma AllNonEmptyJoin(a: seq<seq<Unicode>>, b: seq<seq<Unicode>>)
    requires AllNonEmpty(a) && AllNonEmpty(b)
    ensures AllNonEmpty(a + b)
  {
  }

  /** The fully qualified name is the decoded partial names from the root down to the
      field joined with '.', provided no ancestor's partial name decodes to the empty
      string. */
  lemma FullNameIsDottedPath(xref: XRef, dec: TextDecoder, d: seq<Entry>, maxDepth: nat)
    requires AllNonEmpty(RootFirstNames(xref, dec, Lookup(xref, d, "Parent"), maxDepth))
    ensures var own := TextOf(dec, Lookup(xref, d, "T"));
      WalkParents(xref, dec, OwnAttributes(xref, dec, d), Lookup(xref, d, "Parent"), maxDepth).name ==
      JoinDotted(RootFirstNames(xref, dec, Lookup(xref, d, "Parent"), maxDepth) + (if |own| > 0 then [own] else []))
  {
    var own := TextOf(dec, Lookup(xref, d, "T"));
    var s: seq<seq<Unicode>> := if |own| > 0 then [own] else [];
    WalkBuildsDottedName(xref, dec, OwnAttributes(xref, dec, d), s, Lookup(xref, d, "Parent"), maxDepth);
  }

  /** A field named `t` with one parent named `p`, as a dictionary. */
  function ChildOf(p: PdfString, t: PdfString): seq<Entry>
  {
    [Entry("T", Str(t)), Entry("Parent", Dict([Entry("T", Str(p))]))]
  }

  /** The qualified name load gives the field of ChildOf(p, t). */
  function ChildName(dec: TextDecoder, p: PdfString, t: PdfString): seq<Unicode>
  {
    var d := ChildOf(p, t);
    WalkParents(map[], dec, OwnAttributes(map[], dec, d), Lookup(map[], d, "Parent"), 1).name
  }

  /** With one parent, the name is the parent's decoded name, a '.' when the field's
      own decoded name is not empty, and that name. */
  lemma ChildNameIs(dec: TextDecoder, p: PdfString, t: PdfString)
    ensures ChildName(dec, p, t) == dec(p) + (if |dec(t)| > 0 then [Dot] else []) + dec(t)
  {
    var d := ChildOf(p, t);
    var parent := Dict([Entry("T", Str(p))]);
    assert Lookup(map[], d, "Parent") == parent;
    assert d[..1] == [d[0]];
    assert LookupNF(d, "T") == LookupNF(d[..1], "T");
    assert Lookup(map[], d, "T") == Str(t);
    assert Lookup(map[], parent.entries, "T") == Str(p);
  }

  /** An ancestor whose partial name is the empty string still adds a '.': field "b"
      under a parent named "" is called ".b". */
  lemma EmptyParentNameAddsDot(dec: TextDecoder)
    requires dec([]) == [] && dec("b") == ['b' as Unicode]
    ensures ChildName(dec, [], "b") == [Dot, 'b' as Unicode]
  {
    ChildNameIs(dec, [], "b");
  }

  /** The '.' depends on the decoded name: a field whose own name is the bytes FE FF
      (an empty UTF-16BE string) under a parent named "a" is called "a". */
  lemma EmptyUnicodeNameAddsNoDot(dec: TextDecoder)
    requires dec([0xFE as char, 0xFF as char]) == []
    ensures ChildName(dec, "a", [0xFE as char, 0xFF as char]) == dec("a")
  {
    ChildNameIs(dec, "a", [0xFE as char, 0xFF as char]);
  }

  //----- inheritable lookup

  /** fieldLookup: the nearest non-null `key` entry on the Parent chain; when the chain
      ends (Parent not a dictionary) without one, the AcroForm dictionary's entry;
      null when `fuel` runs out first. */
  function FieldLookup(xref: XRef, formDict: seq<Entry>, d: seq<Entry>, key: string, fuel: nat): Obj
    decreases fuel
  {
    var own := Lookup(xref, d, key);
    if own != Null then own
    else
      var parent := Lookup(xref, d, "Parent");
      if parent.Dict? then
        if fuel == 0 then Null else FieldLookup(xref, formDict, parent.entries, key, fuel - 1)
      else Lookup(xref, formDict, key)
  }

  /** The chain fieldLookup searches: the dictionary, then its ancestors. */
  function LookupChain(xref: XRef, d: seq<Entry>, fuel: nat): seq<seq<Entry>>
  {
    [d] + Ancestors(xref, Lookup(xref, d, "Parent"), fuel)
  }

  /** The value found is that of the nearest dictionary on the chain defining `key`. */
  lemma {:induction false} FieldLookupNearest(xref: XRef, formDict: seq<Entry>, d: seq<Entry>, key: string, fuel: nat, k: nat)
    requires k < |LookupChain(xref, d, fuel)|
    requires Lookup(xref, LookupChain(xref, d, fuel)[k], key) != Null
    requires forall j :: 0 <= j < k ==> Lookup(xref, LookupChain(xref, d, fuel)[j], key) == Null
    ensures FieldLookup(xref, formDict, d, key, fuel) == Lookup(xref, LookupChain(xref, d, fuel)[k], key)
    decreases k
  {
    var chain := LookupChain(xref, d, fuel);
    if k > 0 {
      assert Lookup(xref, chain[0], key) == Null;
      var parent := Lookup(xref, d, "Parent");
      assert parent.Dict? && fuel > 0;
      var sub := LookupChain(xref, parent.entries, fuel - 1);
      assert chain[1..] == sub;
      forall j | 0 <= j < k - 1 ensures Lookup(xref, sub[j], key) == Null {
        assert sub[j] == chain[j + 1];
      }
      FieldLookupNearest(xref, formDict, parent.entries, key, fuel - 1, k - 1);
    }
  }

  /** True when following Parent links from `parent` reaches a non-dictionary within
      `fuel` steps. */
  predicate ReachesRoot(xref: XRef, parent: Obj, fuel: nat)
    decreases fuel
  {
    !parent.Dict? || (fuel > 0 && ReachesRoot(xref, Lookup(xref, parent.entries, "Parent"), fuel - 1))
  }

  /** When no dictionary on a complete chain defines `key`, the AcroForm dictionary's
      entry is used. */
  lemma {:induction false} FieldLookupFallsBackToForm(xref: XRef, formDict: seq<Entry>, d: seq<Entry>, key: string, fuel: nat)
    requires ReachesRoot(xref, Lookup(xref, d, "Parent"), fuel)
    requires forall j :: 0 <= j < |LookupChain(xref, d, fuel)| ==> Lookup(xref, LookupChain(xref, d, fuel)[j], key) == Null
    ensures FieldLookup(xref, formDict, d, key, fuel) == Lookup(xref, formDict, key)
    decreases fuel
  {
    var chain := LookupChain(xref, d, fuel);
    assert Lookup(xref, chain[0], key) == Null;
    var parent := Lookup(xref, d, "Parent");
    if parent.Dict? {
      var sub := LookupChain(xref, parent.entries, fuel - 1);
      assert chain[1..] == sub;
      forall j | 0 <= j < |sub| ensures Lookup(xref, sub[j], key) == Null {
        assert sub[j] == chain[j + 1];
      }
      FieldLookupFallsBackToForm(xref, formDict, parent.entries, key, fuel - 1);
    }
  }

  //----- annotation visibility and rectangle

  const AnnotHidden: int := 0x2
  const AnnotPrint: int := 0x4
  const AnnotNoView: int := 0x20

  /** The annotation flags: the F entry when it is an integer, else 0. */
  function AnnotFlags(xref: XRef, annot: seq<Entry>): int
  {
    var f := Lookup(xref, annot, "F");
    if f.Int? then f.i else 0
  }

  /** Whether flags let the annotation be drawn on screen or, when printing, on paper. */
  predicate ShownWith(flags: int, printing: bool)
  {
    !TestFlag(flags, AnnotHidden) &&
    !(printing && !TestFlag(flags, AnnotPrint)) &&
    !(!printing && TestFlag(flags, AnnotNoView))
  }

  /** The annotation rectangle: a four-element Rect array, non-numbers counting as 0,
      with the corners ordered; None when Rect is not a four-element array. */
  function RectBox(xref: XRef, annot: seq<Entry>): (r: Option<Box>)
    ensures r.Some? <==> Lookup(xref, annot, "Rect").Array? && |Lookup(xref, annot, "Rect").elems| == 4
    ensures r.Some? ==> r.value.xMin <= r.value.xMax && r.value.yMin <= r.value.yMax
  {
    var rect := Lookup(xref, annot, "Rect");
    if rect.Array? && |rect.elems| == 4 then
      var x0 := NumOr(Fetch(xref, rect.elems[0]), 0.0);
      var y0 := NumOr(Fetch(xref, rect.elems[1]), 0.0);
      var x1 := NumOr(Fetch(xref, rect.elems[2]), 0.0);
      var y1 := NumOr(Fetch(xref, rect.elems[3]), 0.0);
      Some(Box(Min(x0, x1), Min(y0, y1), if x0 > x1 then x0 else x1, if y0 > y1 then y0 else y1))
    else None
  }

  /** The rectangle does not depend on which corner pair is written first. */
  lemma RectCornerOrderIrrelevant(xref: XRef, a: Obj, b: Obj, c: Obj, d: Obj)
    ensures RectBox(xref, [Entry("Rect", Array([a, b, c, d]))]) == RectBox(xref, [Entry("Rect", Array([c, d, a, b]))])
    ensures RectBox(xref, [Entry("Rect", Array([a, b, c, d]))]) == RectBox(xref, [Entry("Rect", Array([c, b, a, d]))])
  {
  }

  /** The box an annotation is drawn in, when drawAnnot draws it at all: a dictionary
      listed on this page, shown under its flags, not hidden by optional content, with
      a well-formed rectangle. */
  function DrawBox(doc: Doc, annotPages: seq<AnnotPage>, pageNum: int, printing: bool, annotRef: Obj, annotObj: Obj): (r: Option<Box>)
    ensures r.Some? ==> annotObj.Dict? && LookupAnnotPage(annotPages, annotRef) == pageNum
    ensures annotObj.Dict? && TestFlag(AnnotFlags(doc.xref, annotObj.entries), AnnotHidden) ==> r.None?
    ensures annotObj.Dict? && printing && !TestFlag(AnnotFlags(doc.xref, annotObj.entries), AnnotPrint) ==> r.None?
    ensures annotObj.Dict? && !printing && TestFlag(AnnotFlags(doc.xref, annotObj.entries), AnnotNoView) ==> r.None?
    ensures annotObj.Dict? && doc.ocVisible(LookupNF(annotObj.entries, "OC")) == Some(false) ==> r.None?
    ensures r.Some? ==> r == RectBox(doc.xref, annotObj.entries)
    ensures (annotObj.Dict? && LookupAnnotPage(annotPages, annotRef) == pageNum &&
             !TestFlag(AnnotFlags(doc.xref, annotObj.entries), AnnotHidden) &&
             (printing ==> TestFlag(AnnotFlags(doc.xref, annotObj.entries), AnnotPrint)) &&
             (!printing ==> !TestFlag(AnnotFlags(doc.xref, annotObj.entries), AnnotNoView)) &&
             doc.ocVisible(LookupNF(annotObj.entries, "OC")) != Some(false))
      ==> r == RectBox(doc.xref, annotObj.entries)
  {
    if !annotObj.Dict? then None
    else if LookupAnnotPage(annotPages, annotRef) != pageNum then None
    else if !ShownWith(AnnotFlags(doc.xref, annotObj.entries), printing) then None
    else if doc.ocVisible(LookupNF(annotObj.entries, "OC")) == Some(false) then None
    else RectBox(doc.xref, annotObj.entries)
  }

  /** C's conversion of a double to int: truncation toward zero. */
  function Trunc(x: real): (i: int)
    ensures x >= 0.0 ==> i as real <= x < i as real + 1.0
    ensures x < 0.0 ==> i as real - 1.0 < x <= i as real
  {
    if x >= 0.0 then x.Floor else -((-x).Floor)
  }

  datatype IntRect = IntRect(xMin: int, yMin: int, xMax: int, yMax: int)

  /** getRectangle: the truncated rectangle of an annotation listed on this page. */
  function GetRectangle(xref: XRef, annotPages: seq<AnnotPage>, pageNum: int, annotRef: Obj, annotObj: Obj): (r: Option<IntRect>)
    ensures r.Some? ==> r.value.xMin <= r.value.xMax && r.value.yMin <= r.value.yMax
  {
    if !annotObj.Dict? || LookupAnnotPage(annotPages, annotRef) != pageNum then None
    else match RectBox(xref, annotObj.entries)
      case None => None
      case Some(b) => Some(IntRect(Trunc(b.xMin), Trunc(b.yMin), Trunc(b.xMax), Trunc(b.yMax)))
  }

  /** Every drawn annotation has a rectangle, the drawn box truncated; getRectangle
      ignores the flags and optional content. */
  lemma DrawnBoxHasRectangle(doc: Doc, annotPages: seq<AnnotPage>, pageNum: int, printing: bool, annotRef: Obj, annotObj: Obj)
    requires DrawBox(doc, annotPages, pageNum, printing, annotRef, annotObj).Some?
    ensures var b := DrawBox(doc, annotPages, pageNum, printing, annotRef, annotObj).value;
      GetRectangle(doc.xref, annotPages, pageNum, annotRef, annotObj) ==
        Some(IntRect(Trunc(b.xMin), Trunc(b.yMin), Trunc(b.xMax), Trunc(b.yMax)))
  {
  }

  //----- existing appearance

  /** The appearance stream drawExistingAppearance draws (unresolved): with a normal
      appearance dictionary, the state named by AS, else its only entry, else "Off";
      otherwise the N entry itself.  None when there is no AP dictionary. */
  function ExistingAppearance(xref: XRef, annot: seq<Entry>): Option<Obj>
  {
    var ap := Lookup(xref, annot, "AP");
    if !ap.Dict? then None
    else
      var n := Lookup(xref, ap.entries, "N");
      if n.Dict? then
        var st := Lookup(xref, annot, "AS");
        if st.Name? then Some(LookupNF(n.entries, st.name))
        else if |n.entries| == 1 then Some(n.entries[0].val)
        else Some(LookupNF(n.entries, "Off"))
      else Some(LookupNF(ap.entries, "N"))
  }

  /** The appearance state drawNewAppearance works with: AS when it is a name, else the
      only key of a one-entry normal appearance dictionary, else "Off". */
  function AppearanceState(xref: XRef, annot: seq<Entry>): string
  {
    var st := Lookup(xref, annot, "AS");
    if st.Name? then st.name
    else
      var ap := Lookup(xref, annot, "AP");
      if ap.Dict? && Lookup(xref, ap.entries, "N").Dict? && |Lookup(xref, ap.entries, "N").entries| == 1 then
        Lookup(xref, ap.entries, "N").entries[0].key
      else "Off"
  }

  /** With a normal appearance dictionary, the existing appearance drawn is the one for
      the state a regenerated appearance is drawn for. */
  lemma ExistingAppearanceMatchesState(xref: XRef, annot: seq<Entry>)
    requires Lookup(xref, annot, "AP").Dict?
    requires Lookup(xref, Lookup(xref, annot, "AP").entries, "N").Dict?
    ensures var n := Lookup(xref, Lookup(xref, annot, "AP").entries, "N");
      ExistingAppearance(xref, annot) == Some(LookupNF(n.entries, AppearanceState(xref, annot)))
  {
  }

  /** getAnnotResources: the Resources entry of the chosen appearance when it is a
      stream, else null; entries are resolved as they are read. */
  function AnnotResources(xref: XRef, annot: seq<Entry>): Obj
  {
    var ap := Lookup(xref, annot, "AP");
    var appearance :=
      if !ap.Dict? then Null
      else
        var n := Lookup(xref, ap.entries, "N");
        if n.Dict? then
          var st := Lookup(xref, annot, "AS");
          if st.Name? then Lookup(xref, n.entries, st.name)
          else if |n.entries| == 1 then Fetch(xref, n.entries[0].val)
          else Lookup(xref, n.entries, "Off")
        else n;
    if appearance.Stream? then Lookup(xref, appearance.streamDict, "Resources") else Null
  }

  /** The resources reported for an annotation are those of the stream its existing
      appearance draws. */
  lemma ResourcesOfExistingAppearance(xref: XRef, annot: seq<Entry>)
    ensures var e := ExistingAppearance(xref, annot);
      AnnotResources(xref, annot) ==
        (if e.Some? && Fetch(xref, e.value).Stream? then Lookup(xref, Fetch(xref, e.value).streamDict, "Resources") else Null)
  {
  }

  //----- border

  datatype BorderStyle = Solid | Dashed | Beveled | Inset | Underlined

  /** The border: style, width and dash pattern. */
  datatype Border = Border(style: BorderStyle, width: real, dash: seq<real>)

  /** A border style name; an unknown name leaves the style solid. */
  function StyleNamed(n: string): BorderStyle
  {
    if n == "D" then Dashed
    else if n == "B" then Beveled
    else if n == "I" then Inset
    else if n == "U" then Underlined
    else Solid
  }

  /** A dash array: numbers as they are, anything else as 1. */
  function DashArray(xref: XRef, elems: seq<Obj>): (d: seq<real>)
    ensures |d| == |elems|
    ensures forall i :: 0 <= i < |d| ==> d[i] == NumOr(Fetch(xref, elems[i]), 1.0)
  {
    if elems == [] then [] else DashArray(xref, elems[..|elems| - 1]) + [NumOr(Fetch(xref, elems[|elems| - 1]), 1.0)]
  }

  /** The border of an annotation: from the BS dictionary when there is one, else from
      the Border array (width at index 2, an array at index 3 making it dashed, any
      other index-3 element removing the border), else solid with width 1. */
  function BorderOf(xref: XRef, annot: seq<Entry>): (b: Border)
  {
    var bs := Lookup(xref, annot, "BS");
    if bs.Dict? then
      var s := Lookup(xref, bs.entries, "S");
      var d := Lookup(xref, bs.entries, "D");
      Border(if s.Name? then StyleNamed(s.name) else Solid,
             NumOr(Lookup(xref, bs.entries, "W"), 1.0),
             if d.Array? then DashArray(xref, d.elems) else [])
    else
      var br := Lookup(xref, annot, "Border");
      if br.Array? && |br.elems| >= 3 then
        var w := NumOr(Fetch(xref, br.elems[2]), 1.0);
        if |br.elems| >= 4 then
          var d := Fetch(xref, br.elems[3]);
          if d.Array? then Border(Dashed, w, DashArray(xref, d.elems)) else Border(Solid, 0.0, [])
        else Border(Solid, w, [])
      else Border(Solid, 1.0, [])
  }

  /** A BS dictionary decides the border alone: the Border array is then ignored. */
  lemma BorderStyleDictionaryWins(xref: XRef, a1: seq<Entry>, a2: seq<Entry>)
    requires Lookup(xref, a1, "BS") == Lookup(xref, a2, "BS") && Lookup(xref, a1, "BS").Dict?
    ensures BorderOf(xref, a1) == BorderOf(xref, a2)
  {
  }

  /** Without BS, a Border array whose fourth element is not an array draws no border,
      and one of length three keeps a solid border of the given width. */
  lemma BorderArrayCases(xref: XRef, annot: seq<Entry>)
    requires !Lookup(xref, annot, "BS").Dict?
    ensures var br := Lookup(xref, annot, "Border");
      (br.Array? && |br.elems| >= 4 && !Fetch(xref, br.elems[3]).Array? ==> BorderOf(xref, annot).width == 0.0) &&
      (br.Array? && |br.elems| == 3 ==> BorderOf(xref, annot) == Border(Solid, NumOr(Fetch(xref, br.elems[2]), 1.0), []))
  {
  }
}

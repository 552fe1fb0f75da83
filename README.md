# AcroForm fields and generated appearances, in Dafny

This project models the interactive-form ("AcroForm") part of the xpdf PDF renderer. It covers `xpdf/AcroForm.cc` in two parts.

**Loading the form.**
- Building the list that maps an annotation to its page, and looking an annotation up in it.
- Scanning the field tree for terminal fields.
- Loading a field: its fully qualified name, field type and flag word, inherited along the `Parent` chain.
- Classifying the field into one of nine variants.
- Looking up inheritable entries.

**Drawing.**
- For each widget annotation on the page being drawn: the visibility checks, the rectangle, and either the existing appearance stream or a regenerated one.
- The regenerated content stream:
  - background and border: solid, dashed, bevelled, inset and underlined, and round for radio buttons;
  - colour setting;
  - parsing of the default-appearance (DA) string;
  - variable text: multi-line with line breaking, comb cells, or a single line, with automatic font sizing, quadding and rotation;
  - list boxes with their selection highlight;
  - circle drawing;
  - escaping of string literals.

## How the model is organised

**Modules.**
- `PdfObjects`: the PDF objects the form code reads.
- `FieldTypes`: field types and flags.
- `ContentText`: content-stream fragments, string escaping and UTF-16BE narrowing.
- `DefaultAppearance`: DA tokens, the positions of the `Tf` and `Tm` operators, and the `atof` conversion.
- `TextLayout`: glyph widths, `getNextLine`, automatic sizes, quadding and the rotated extent.
- `Colors`: `setColor`.
- `FormSpec` and `AppearanceSpec`: functions that state what each operation computes.
  - `FormSpec` covers the annotation-page list, the scan, load, `fieldLookup`, the drawing filter, the existing appearance and the border.
  - `AppearanceSpec` covers the operator stream of `drawNewAppearance`, `drawText` and `drawListBox`.
- `AcroForms`: the classes `AcroForm` and `AcroFormField`. Their fields and methods follow the C++ classes.
  - Each loop of the source is a method with loop invariants.
  - Each method is proved to equal the matching specification function.

**The appearance buffer.** `appearBuf` is a `seq<Piece>`. A piece is one of:
- a number with its number of printed decimals;
- a literal text;
- an operator with its numeric operands.

Formatting the numbers as characters is not modelled.

**Strings.** PDF strings are byte strings (`Byte` is a `char` below 256). The field name, value and alternate text that load keeps are TextStrings: sequences of Unicode code points, decoded from the bytes by the document's text decoder (`FormSpec.Doc.decodeText`). The qualified name is joined from decoded parts, and its '.' depends on the decoded length.

**The document around the form** is a value of type `FormSpec.Doc`:
- the cross-reference table;
- each page's `Annots` entry;
- the font loader;
- the optional-content evaluator.

**What drawing returns.** `Gfx::drawAnnot` is not modelled. Drawing returns the list of `Drawing` values that would be handed to it: an existing stream or a generated `Appearance`, each with its box.

**Behaviour taken from the code.** The model follows `AcroForm.cc` as written, including these quirks:
- **Rotation by 180 degrees.** The layout width is `xMax - yMax`, not the box width (`AcroForm.cc:1404-1408`, `TextLayout.Rotate180Width`).
- **Comb cells.** A control or high byte in a comb cell is not octal-escaped. The cell step `w 0 Td` is written inside the string literal instead (`AcroForm.cc:1581-1598`, `AppearanceSpec.CombCellByByte`).
- **Check boxes** draw their glyph whenever `V` is a name other than `Off`, whatever the appearance state (`AppearanceSpec.CheckboxGlyph`).
- **Radio buttons** draw only when `V` names the appearance state (`AppearanceSpec.RadioDrawsOnlyInState`).
- **Forced ZapfDingbats.** A forced font replaces the font name of the DA string's `Tf` operator whenever there is such an operator, whatever font it named (`AcroForm.cc:1364-1373`). It is not applied only when no font is selected.
- **Empty parent names.** An ancestor whose partial name is the empty string still adds a `.` to the qualified name (`FormSpec.EmptyParentNameAddsDot`).

## Model

| member | source | states |
|---|---|---|
| PdfObjects.Fetch | xpdf/AcroForm.cc:557-558 | A reference becomes the object it names, or null when the table has no such object; any other object is returned unchanged |
| PdfObjects.ToUint32 | xpdf/AcroForm.cc:282-284 | The flag word read as an unsigned 32-bit value lies in [0, 2^32) and equals the integer when it is already in range |
| FieldTypes.Classify | xpdf/AcroForm.cc:325-355 | A variant exists exactly when FT is Btn, Tx, Ch or Sig, and it belongs to that FT. For Btn it is a push button iff the pushbutton bit is set, and a radio button iff that bit is clear and the radio bit is set. For Tx it is a file select iff its bit is set, and multi-line iff that bit is clear and the multiline bit is set. For Ch it is a combo box iff the combo bit is set |
| FieldTypes.ClassifyReachesEveryType | xpdf/AcroForm.cc:325-355 | Every one of the nine variants is produced by its FT name with its selecting flag |
| FieldTypes.TypeName | xpdf/AcroForm.cc:392-405 | getType gives a non-empty name for every variant |
| FieldTypes.TypeNameInjective | xpdf/AcroForm.cc:392-405 | Equal names mean equal variants: the name identifies the type |
| ContentText.OctalDigit | xpdf/AcroForm.cc:1677-1678 | The digit character of a value below 8 is an octal digit with that value |
| ContentText.EscapeAppend | xpdf/AcroForm.cc:1669-1681 | Escaping one more byte appends that byte's escape |
| ContentText.EscapeCons | xpdf/AcroForm.cc:1669-1681 | Escaping a byte followed by a string is the byte's escape followed by the string's |
| ContentText.OctalRun | xpdf/AcroForm.cc:1677-1678 | A reader takes at most three digits after a backslash, and all of them are octal digits |
| ContentText.OctalThreeDigits | xpdf/AcroForm.cc:1677-1678 | The three digits written for a control or high byte have that byte's value |
| ContentText.UnescapeEscapeByte | xpdf/AcroForm.cc:1671-1680 | A reader decoding one escaped byte followed by more text gets that byte first, whichever escape form was used |
| ContentText.UnescapeOctal | xpdf/AcroForm.cc:1676-1678 | The octal form of an escape decodes back to its byte |
| ContentText.Escape | xpdf/AcroForm.cc:1669-1681 | The bytes of a string as written inside a "( )" literal, byte by byte: "(", ")" and "\\" get a backslash, control and high bytes a backslash and three octal digits, the rest stay as they are |
| ContentText.EscapeRoundTrip | xpdf/AcroForm.cc:1669-1681 | Escaping round-trips: decoding the escaped literal gives the original string, for every string |
| ContentText.EscapeExamples | xpdf/AcroForm.cc:1671-1680 | "(" gets a backslash, TAB becomes \011, and 0xC0 becomes \300 |
| ContentText.NarrowPairs | xpdf/AcroForm.cc:1323-1330 | UTF-16BE text after the marker becomes one byte per code unit: the code itself when it is at most 0xFF, else '?'. An odd trailing byte is dropped |
| ContentText.Narrow | xpdf/AcroForm.cc:1321-1334 | Text without the FE FF marker is used unchanged; marked text has (n - 2) / 2 bytes |
| ContentText.Widen | xpdf/AcroForm.cc:1321-1330 | Inverse partner of Narrow: Latin-1 text written as UTF-16BE with the FE FF marker, each byte as the code unit 00 b |
| ContentText.NarrowWidenRoundTrip | xpdf/AcroForm.cc:1321-1334 | Narrowing undoes widening for every Latin-1 string |
| DefaultAppearance.RunLength | xpdf/AcroForm.cc:1345-1347 | The token scan stops at the first white-space byte: no white space before it, and white space at it unless the string ended |
| DefaultAppearance.RunLengthIs | xpdf/AcroForm.cc:1345-1347 | Any length with those two properties is the run length |
| DefaultAppearance.Tokens | xpdf/AcroForm.cc:1337-1350 | The DA tokens are non-empty and free of white space |
| DefaultAppearance.TokensOfToken | xpdf/AcroForm.cc:1337-1350 | A token followed by a space and more text tokenizes as that token, then the tokens of the rest |
| DefaultAppearance.TokensOfJoined | xpdf/AcroForm.cc:1466-1471 | Re-tokenizing the tokens as they are written back (each followed by a space) gives the same tokens |
| DefaultAppearance.TokensKeepNonSpace | xpdf/AcroForm.cc:1337-1350 | The tokens, concatenated, are exactly the non-white-space bytes of the DA string, in order |
| DefaultAppearance.LastIndex | xpdf/AcroForm.cc:1351-1357 | -1 iff no token from lo on equals op; otherwise the index of a match with no later match |
| DefaultAppearance.TfPos | xpdf/AcroForm.cc:1351-1357 | Either -1 or the operand position p of the last "Tf" at index 2 or later: token p + 2 is "Tf" and no later token is; -1 iff there is no such "Tf" |
| DefaultAppearance.TmPos | xpdf/AcroForm.cc:1351-1357 | Either -1 or the first-operand position p of the last "Tm" at index 6 or later: token p + 6 is "Tm" and no later token is; -1 iff there is no such "Tm" |
| DefaultAppearance.Atof | xpdf/AcroForm.cc:1390 | atof of a DA operand: an optional sign, then the value of the longest run of digits with an optional fraction; 0 when there is none |
| DefaultAppearance.DigitRun | xpdf/AcroForm.cc:1390 | The digits atof reads are a prefix of decimal digits |
| DefaultAppearance.DaExampleTokens | xpdf/AcroForm.cc:1337-1350 | "/Helv 0 Tf 0 g " splits back into its five tokens |
| DefaultAppearance.DaExampleOperators | xpdf/AcroForm.cc:1351-1390 | Those tokens give Tf at operand position 0, no Tm, and size 0, which asks for automatic sizing |
| TextLayout.StringWidth | xpdf/AcroForm.cc:1604-1613 | Without an 8-bit font the width is the crude estimate of 0.5 per byte |
| TextLayout.ScaledWidthIsScaled | xpdf/AcroForm.cc:1914-1920 | Summing glyph widths times the size, as getNextLine does, is the string width times the size |
| TextLayout.FitEnd | xpdf/AcroForm.cc:1908-1921 | The fitting scan stops between its start and the end of the text |
| TextLayout.FitEndStops | xpdf/AcroForm.cc:1908-1921 | The scan passes no line break. It stops at the end, at a CR or LF, or once the text scanned is wider than wMax. Running to the end means everything but the last byte fitted |
| TextLayout.FitEndSkip | xpdf/AcroForm.cc:1908-1921 | A scan that continues at every position from i to j stops where the scan from j stops |
| TextLayout.BackOverWord | xpdf/AcroForm.cc:1923 | Backing up over a word stays between the line start and where it started |
| TextLayout.BackOverSpaces | xpdf/AcroForm.cc:1924 | Backing up over spaces stays between the line start and where it started |
| TextLayout.BackOverStops | xpdf/AcroForm.cc:1923-1924 | Backing over a word stops just after a space or at the start. Backing over spaces passes only spaces and stops after a non-space or at the start |
| TextLayout.WrapPoint | xpdf/AcroForm.cc:1922-1933 | An over-wide line keeps at least one byte and ends within the text |
| TextLayout.WrapPointAtWord | xpdf/AcroForm.cc:1922-1933 | An over-wide line ends after one byte, where the width ran out, or between the last word's preceding non-space and the gap of spaces before that word |
| TextLayout.SkipSpaces | xpdf/AcroForm.cc:1949-1951 | Skipping spaces moves forward within the text |
| TextLayout.SkipSpacesStops | xpdf/AcroForm.cc:1949-1951 | It passes only spaces and stops at the end or at a non-space |
| TextLayout.SkipBreak | xpdf/AcroForm.cc:1949-1958 | The next line starts at or after the end of the line |
| TextLayout.SkipBreakShape | xpdf/AcroForm.cc:1949-1958 | After the spaces the next-line step passes CR LF, a single CR or LF, or nothing. When it passes nothing it stops before a byte that is not a line break, and after a lone CR it stops before a byte that is not LF |
| TextLayout.NextLine | xpdf/AcroForm.cc:1898-1960 | start <= end <= next and start < next: every line advances |
| TextLayout.NextLineShape | xpdf/AcroForm.cc:1898-1960 | The width is the scaled width of bytes [start, end), and the next line starts after the following spaces and line break. With wMax >= 0 a line holds no line break. A line ends before an ordinary byte only when the text from its start grew wider than wMax |
| TextLayout.NoLineAtEnd | xpdf/AcroForm.cc:1431 | No line starts at the end of the text |
| TextLayout.LoweredIsProduct | xpdf/AcroForm.cc:1428-1438 | Lowering the baseline once per line is lowering it by lines times size |
| TextLayout.SearchSize | xpdf/AcroForm.cc:1427-1443 | The downward size search ends at a size between 1 and its start |
| TextLayout.SearchSizeFits | xpdf/AcroForm.cc:1427-1443 | A size of 2 or more found by the search fits the box |
| TextLayout.SearchSizeIsLargest | xpdf/AcroForm.cc:1427-1443 | No larger size up to the start of the search fits |
| TextLayout.MultilineAutoSize | xpdf/AcroForm.cc:1426-1443 | The multi-line automatic size is a whole size from 1 to 20 |
| TextLayout.MultilineAutoSizeIsLargestFit | xpdf/AcroForm.cc:1426-1443 | It fits (baseline below the last line at least 0.33 size above the bottom) unless it is the fallback 1, and no larger whole size up to 20 fits |
| TextLayout.Floor | xpdf/AcroForm.cc:1615-1628 | floor(x) <= x < floor(x) + 1 |
| TextLayout.AutoSize | xpdf/AcroForm.cc:1615-1628 | The automatic single-line size: the whole part of the smaller of the height available and the width available divided by the text width at size 1; the height bound alone when the text width is 0 |
| TextLayout.AutoSizeIsLargestFit | xpdf/AcroForm.cc:1615-1628 | The single-line automatic size is whole, fits the height and the width available, and one size more would exceed one of them |
| TextLayout.CombCellExample | xpdf/AcroForm.cc:1527-1537 | 5 cells in a 100-unit box with a 5-unit border are 18 units wide, which caps the automatic size at 18 |
| TextLayout.QuadX | xpdf/AcroForm.cc:1486-1497 | Quadding 1 leaves equal margins, quadding 2 ends the text 2 units inside the border, and any other value starts it 2 units inside the border |
| TextLayout.CombX | xpdf/AcroForm.cc:1544-1556 | Quadding 2 ends n cells where comb cells would end, quadding 1 starts half the unused cells in, and any other value starts 2 units inside the border |
| TextLayout.Extent | xpdf/AcroForm.cc:1400-1417 | Rotations by 90 and 270 degrees swap width and height; rotations other than 90, 180 and 270 keep them |
| TextLayout.Rotate180Width | xpdf/AcroForm.cc:1404-1408 | Under a 180-degree rotation the layout width equals the box width only when yMax = xMin; the height is kept |
| TextLayout.MaxWidth | xpdf/AcroForm.cc:1764-1779 | The widest option width is at least 0, at least every option's width, and either 0 or some option's width |
| Colors.Components | xpdf/AcroForm.cc:1263-1273 | One component per array element, at most four |
| Colors.Adjusted | xpdf/AcroForm.cc:1274-1286 | Adjusting keeps the number of components |
| Colors.AdjustDirection | xpdf/AcroForm.cc:1274-1286 | Brightening lightens and darkening darkens in every colour space (CMYK adjusted the other way), and both keep components in [0, 1] |
| Colors.AdjustFixedPoints | xpdf/AcroForm.cc:1277-1286 | For gray and RGB, brightening leaves a component unchanged iff it is 1, and darkening iff it is 0 |
| Colors.SetColorOps | xpdf/AcroForm.cc:1257-1300 | setColor: the colour operator of the array's components after the lighten/darken adjustment, fill or stroke |
| Colors.ColorOperatorByCount | xpdf/AcroForm.cc:1257-1300 | One operator: k/K for four or more elements, rg/RG for three, and g/G from the first component for one or two. It takes the adjusted components and two decimals, with lower case for fill and upper case for stroke |
| FormSpec.AnnotPageList | xpdf/AcroForm.cc:126-144 | buildAnnotPageList: for pages 1 to n in order, one entry (annotation reference, page number) per reference in the page's Annots array |
| FormSpec.PageEntries | xpdf/AcroForm.cc:132-139 | A page contributes at most one entry per Annots element |
| FormSpec.PageEntriesMembers | xpdf/AcroForm.cc:132-139 | Every entry of a page carries its number, and (n, g, p) is an entry iff p is the page and n g R is in its Annots array |
| FormSpec.AnnotPageListOrdered | xpdf/AcroForm.cc:126-144 | The list names pages 1..n only, in non-decreasing page order |
| FormSpec.AnnotPageListMembers | xpdf/AcroForm.cc:126-144 | (n, g, p) is in the list iff 1 <= p <= n and page p's Annots array holds the reference n g R |
| FormSpec.LookupAnnotPage | xpdf/AcroForm.cc:146-163 | 0 when no entry refers to the object (including any non-reference); otherwise the page of the first entry that does |
| FormSpec.PageOfAnnotation | xpdf/AcroForm.cc:126-163 | An annotation is found on the first page whose Annots array refers to it |
| FormSpec.ListedEntry | xpdf/AcroForm.cc:130-137 | A reference in page k's Annots array puts (n, g, k) in the list |
| FormSpec.EntryListed | xpdf/AcroForm.cc:130-137 | Every entry comes from its page's Annots array |
| FormSpec.OrderedAt | xpdf/AcroForm.cc:130 | Earlier entries are for no later pages |
| FormSpec.FirstMatch | xpdf/AcroForm.cc:156-161 | Given a matching entry, the page lookupAnnotPage reports belongs to a match no later than it |
| FormSpec.LoadField | xpdf/AcroForm.cc:234-370 | AcroFormField::load: the field with its type from the inherited FT and Ff, its flags as an unsigned 32-bit value, its qualified name, and its decoded V and TU; none when the type is missing or is not Btn, Tx, Ch or Sig |
| FormSpec.ScanField | xpdf/AcroForm.cc:165-211 | scanField: a field loaded from a terminal node (nothing when load fails); the fields under each kid of a non-terminal node, in order; nothing for a non-dictionary |
| FormSpec.ScanKids | xpdf/AcroForm.cc:195-201 | The fields under each of a list of kids, concatenated in order |
| FormSpec.ScanFieldLoaded | xpdf/AcroForm.cc:165-211 | Every field the scan collects is a terminal field loaded from its own reference |
| FormSpec.ScanKidsLoaded | xpdf/AcroForm.cc:195-201 | The same for the fields collected from a list of kids |
| FormSpec.LeavesAreTerminal | xpdf/AcroForm.cc:182-201 | The leaves enumerated under a node (itself when terminal, else the leaves under each kid) are all terminal field dictionaries |
| FormSpec.KidLeavesAreTerminal | xpdf/AcroForm.cc:195-201 | The same for the leaves under a list of kids |
| FormSpec.ScanFieldIsLoadedLeaves | xpdf/AcroForm.cc:165-211 | Completeness and order: the scan collects exactly the fields loaded from the terminal nodes under the node, in tree order, skipping those that fail to load; a non-terminal node adds nothing of its own |
| FormSpec.ScanKidsIsLoadedLeaves | xpdf/AcroForm.cc:195-201 | The scan of a list of kids is the loaded leaves under the kids, in order |
| FormSpec.LeafFieldScanned | xpdf/AcroForm.cc:165-211 | Every terminal node under the node that loads yields a field in the scan |
| FormSpec.ScanCountsLeaves | xpdf/AcroForm.cc:165-211 | When every terminal node loads, the scan yields one field per terminal node |
| FormSpec.WalkFindsNearest | xpdf/AcroForm.cc:293-323 | The walk up the Parent chain keeps a type name or flag word already found, else takes the nearest ancestor's |
| FormSpec.InheritedTypeIsNearest | xpdf/AcroForm.cc:275-323 | A field's type name and flags are those of the nearest dictionary on its Parent chain, itself first, that has them |
| FormSpec.JoinDottedNonEmpty | xpdf/AcroForm.cc:296-301 | A dotted name of non-empty parts is empty iff it has no parts |
| FormSpec.JoinDottedCons | xpdf/AcroForm.cc:296-301 | Putting a partial name and a '.' (when the rest is not empty) in front is adding a first part |
| FormSpec.InheritNameStep | xpdf/AcroForm.cc:296-301 | One step up the chain puts the ancestor's decoded partial name in front of the dotted name, with the '.' decided on the decoded length |
| FormSpec.WalkBuildsDottedName | xpdf/AcroForm.cc:293-323 | The walk builds the dotted path of the ancestors' decoded partial names, root first, in front of the name so far |
| FormSpec.FullNameIsDottedPath | xpdf/AcroForm.cc:247-323 | The fully qualified name is the decoded partial names from the root down to the field joined with '.', provided no ancestor's partial name decodes to the empty string |
| FormSpec.EmptyParentNameAddsDot | xpdf/AcroForm.cc:296-301 | Field "b" under a parent named "" is called ".b" |
| FormSpec.ChildNameIs | xpdf/AcroForm.cc:247-301 | With one parent, the name is the parent's decoded name, then '.' only when the field's own decoded name is not empty, then that name |
| FormSpec.EmptyUnicodeNameAddsNoDot | xpdf/AcroForm.cc:296-301 | A field whose own T is FE FF (an empty UTF-16BE string) under a parent "a" is called "a": the '.' test is on the decoded length, not the bytes |
| FormSpec.FieldLookup | xpdf/AcroForm.cc:2102-2122 | fieldLookup: the entry of the field dictionary when not null; otherwise the lookup in its Parent; the AcroForm dictionary's entry when there is no Parent dictionary |
| FormSpec.FieldLookupNearest | xpdf/AcroForm.cc:2102-2122 | fieldLookup returns the value of the nearest dictionary on the Parent chain that defines the key |
| FormSpec.FieldLookupFallsBackToForm | xpdf/AcroForm.cc:2114-2119 | When no dictionary on a complete chain defines the key, the AcroForm dictionary's entry is returned |
| FormSpec.RectBox | xpdf/AcroForm.cc:711-741 | A box exists iff Rect is a four-element array, and its corners are ordered |
| FormSpec.RectCornerOrderIrrelevant | xpdf/AcroForm.cc:731-736 | Swapping the corners, or the x coordinates only, gives the same box |
| FormSpec.AnnotFlags | xpdf/AcroForm.cc:689-694 | The annotation flags: the F entry when it is an integer, otherwise 0 |
| FormSpec.ShownWith | xpdf/AcroForm.cc:695-699 | The flag test of drawAnnot: not Hidden, Print set when printing, NoView clear on screen |
| FormSpec.DrawBox | xpdf/AcroForm.cc:675-741 | Both directions: drawn with the Rect box exactly when the annotation is a dictionary listed on this page, not Hidden, with Print when printing, without NoView on screen, and not hidden by optional content (and Rect is a four-element array) |
| FormSpec.Trunc | xpdf/AcroForm.cc:659-662 | (int) truncates toward zero |
| FormSpec.GetRectangle | xpdf/AcroForm.cc:597-666 | The rectangle returned has ordered corners |
| FormSpec.DrawnBoxHasRectangle | xpdf/AcroForm.cc:597-741 | Every drawn annotation has a rectangle, its drawn box truncated; getRectangle ignores the flags |
| FormSpec.ExistingAppearance | xpdf/AcroForm.cc:757-789 | The stream drawExistingAppearance draws: from a normal-appearance dictionary the AS entry, else its only entry, else Off; otherwise the N entry itself; nothing without an AP dictionary |
| FormSpec.AppearanceState | xpdf/AcroForm.cc:1032-1048 | The appearance state of drawNewAppearance: AS when it is a name, else the only key of a one-entry normal-appearance dictionary, else "Off" |
| FormSpec.ExistingAppearanceMatchesState | xpdf/AcroForm.cc:764-780 | With a dictionary of normal appearances, the stream drawn is the one for the appearance state that a regenerated appearance uses |
| FormSpec.AnnotResources | xpdf/AcroForm.cc:2069-2100 | getAnnotResources: the Resources entry of the chosen appearance when it is a stream, otherwise null |
| FormSpec.ResourcesOfExistingAppearance | xpdf/AcroForm.cc:2069-2100 | getAnnotResources reports the Resources of the stream the existing appearance draws, else null |
| FormSpec.DashArray | xpdf/AcroForm.cc:857-866 | One dash length per element: a number as it is, anything else 1 |
| FormSpec.BorderOf | xpdf/AcroForm.cc:833-901 | The border of drawNewAppearance: style, width and dash from BS when it is a dictionary; otherwise from the Border array (width at index 2, a dash array at index 3, no border for any other element there); otherwise solid with width 1 |
| FormSpec.BorderStyleDictionaryWins | xpdf/AcroForm.cc:838-868 | A BS dictionary alone decides the border: the Border array is then ignored |
| FormSpec.BorderArrayCases | xpdf/AcroForm.cc:870-898 | Without BS, a Border array whose fourth element is not a dash array gives width 0 (no border), and a three-element array gives a solid border of its third element's width |
| AppearanceSpec.HalfCirclesMeet | xpdf/AcroForm.cc:1987-2033 | The two half circles of a bevelled ring meet end to end and are both stroked |
| AppearanceSpec.DaOps | xpdf/AcroForm.cc:1466-1471 | Writing the DA tokens emits two pieces per token |
| AppearanceSpec.DaOpsAt | xpdf/AcroForm.cc:1466-1471 | Token i is written at position 2i, followed by a space |
| AppearanceSpec.ParseDa | xpdf/AcroForm.cc:1336-1392 | The parsed DA has one piece per token and Tf and Tm at the positions the search finds. Without Tf there is no font and the size is 0 |
| AppearanceSpec.ParseDaTokens | xpdf/AcroForm.cc:1336-1373 | Every token is kept as it is, except that a forced ZapfDingbats replaces the Tf font name |
| AppearanceSpec.SetSize | xpdf/AcroForm.cc:1444-1449 | Writing the automatic size keeps the token count |
| AppearanceSpec.SetTm | xpdf/AcroForm.cc:1456-1465 | Writing the text position into Tm keeps the token count |
| AppearanceSpec.ShowTextDecodes | xpdf/AcroForm.cc:1668-1682 | A shown string decodes back to the bytes it shows |
| AppearanceSpec.PlainBodyEndsWithShow | xpdf/AcroForm.cc:1668-1682 | Single-line text ends with the show operator of the text |
| AppearanceSpec.DrawTextOps | xpdf/AcroForm.cc:1302-1699 | drawText: the text narrowed to single bytes, drawn as the marked-content header with the rotation matrix, then the multi-line, comb or single-line body, then the trailer |
| AppearanceSpec.PlainTextShown | xpdf/AcroForm.cc:1302-1691 | Single-line text is shown as one string literal just before the trailer, and a reader decodes it back to the narrowed field value |
| AppearanceSpec.PlainAutoSizeWritten | xpdf/AcroForm.cc:1615-1661 | With DA size 0 the automatic size is written into the Tf size operand of the DA string |
| AppearanceSpec.HeaderTrailerMark | xpdf/AcroForm.cc:1394-1398 | The header and trailer bracket any text: "/Tx BMC" to "EMC" for text fields, with "q" to "Q" inside |
| AppearanceSpec.TextFieldMarked | xpdf/AcroForm.cc:1302-1691 | Every drawText output is bracketed that way |
| AppearanceSpec.LinesOpsLength | xpdf/AcroForm.cc:1478-1517 | Two pieces are drawn per line |
| AppearanceSpec.MultilineDrawsCountedLines | xpdf/AcroForm.cc:1419-1517 | Multi-line text draws exactly the lines the automatic size was chosen for |
| AppearanceSpec.CombCellByByte | xpdf/AcroForm.cc:1581-1598 | A printable byte fills its cell as it would be shown alone. A control or high byte writes the cell step inside the literal, so the byte is not shown |
| AppearanceSpec.RowStart | xpdf/AcroForm.cc:1795 | The first row is the top index when that is not negative (corrected: negative clamps to 0) |
| AppearanceSpec.NegativeTopIndexReadsOutside | xpdf/AcroForm.cc:1795-1800 | As written, a top index of -1 visits option -1, outside the option arrays |
| AppearanceSpec.RowIndicesBetween | xpdf/AcroForm.cc:1795 | The rows visited lie between the top index and the option count |
| AppearanceSpec.ClampedRowsInRange | xpdf/AcroForm.cc:1795 | With the clamp only existing options are visited, and a non-negative top index visits the same rows as written |
| AppearanceSpec.RowYStep | xpdf/AcroForm.cc:1793-1886 | Each row's baseline is 1.1 sizes below the previous one, starting at the first row |
| AppearanceSpec.ListBoxOps | xpdf/AcroForm.cc:1701-1892 | drawListBox: the DA string parsed once, then one row per option from the top index on |
| AppearanceSpec.ListRowsStepDown | xpdf/AcroForm.cc:1793-1887 | Every option from the first row to the last is drawn in order, option k at baseline y0 - (k - first) * 1.1 * size |
| AppearanceSpec.SelectedRowAddsHighlight | xpdf/AcroForm.cc:1800-1864 | A selected row is the plain row with the black highlight after "q" and the white text colour just before the string |
| AppearanceSpec.OptionTexts | xpdf/AcroForm.cc:1149-1165 | One text per Opt element: the string, the second element of a two-element array, else empty |
| AppearanceSpec.Selection | xpdf/AcroForm.cc:1167-1186 | One selection flag per option |
| AppearanceSpec.SelectionAt | xpdf/AcroForm.cc:1167-1186 | Option i is selected iff V is a string equal to its text, or an array with a string element equal to it |
| AppearanceSpec.EqualOptionsSelectedTogether | xpdf/AcroForm.cc:1167-1186 | Options with equal text are selected together |
| AppearanceSpec.DashNums | xpdf/AcroForm.cc:947-953 | The dash operands: a space and a number per dash length |
| AppearanceSpec.BorderOps | xpdf/AcroForm.cc:900-1001 | The border: nothing without MK, a positive width and a BC colour; the round border for a radio button without a caption; otherwise the rectangular border of its style |
| AppearanceSpec.BackgroundOps | xpdf/AcroForm.cc:819-828 | The background: a rectangle filled with the MK BG colour when there is one |
| AppearanceSpec.BorderNeedsWidth | xpdf/AcroForm.cc:899-1001 | Without a positive width or an MK dictionary no border is drawn. A drawn rectangular border ends with the clip to its inside |
| AppearanceSpec.NewAppearance | xpdf/AcroForm.cc:1217-1233 | The bounding box is the annotation box's width and height; resources are present iff the inherited DR is a dictionary |
| AppearanceSpec.ButtonOps | xpdf/AcroForm.cc:1052-1102 | A button: a radio button draws its caption or its dot when V names its state; a pushbutton draws its caption; a check box draws its caption or "3" when V is a name other than Off |
| AppearanceSpec.RadioDotOps | xpdf/AcroForm.cc:1069-1078 | The radio dot: a circle filled in the BC colour at the centre, radius a fifth of the smaller side; nothing without a BC colour |
| AppearanceSpec.TextFieldOps | xpdf/AcroForm.cc:1103-1127 | A text field: V, or DV when V is not a string, drawn with Q, the Multiline flag and MaxLen as the comb count when the Comb flag is set; nothing when neither is a string |
| AppearanceSpec.ChoiceOps | xpdf/AcroForm.cc:1128-1205 | A choice field: a combo box draws V as single-line text; a list box draws the Opt texts with their selection from V, from the top index TI |
| AppearanceSpec.ContentOps | xpdf/AcroForm.cc:1051-1210 | The field contents by the inherited FT: Btn, Tx or Ch; nothing for Sig or another name |
| AppearanceSpec.NewAppearanceOps | xpdf/AcroForm.cc:811-1210 | The content stream of drawNewAppearance: the background, then the border, then the contents |
| AppearanceSpec.CheckboxGlyph | xpdf/AcroForm.cc:1088-1101 | A check box draws its caption, or ZapfDingbats "3" without one, iff V is a name other than Off; the appearance state plays no part |
| AppearanceSpec.RadioDrawsOnlyInState | xpdf/AcroForm.cc:1060-1081 | A radio button draws contents only when V is the name of the appearance state |
| AppearanceSpec.NoContentWithoutKnownType | xpdf/AcroForm.cc:1206-1210 | A signature field, or an unknown FT, gets only background and border |
| AppearanceSpec.AnnotDrawing | xpdf/AcroForm.cc:668-788 | Something is drawn only in the DrawBox box. With NeedAppearances an annotation that passes the checks gets exactly the generated NewAppearance in that box. Otherwise it gets exactly its existing appearance stream, when there is one, and nothing else |
| AppearanceSpec.FieldDrawings | xpdf/AcroForm.cc:550-566 | AcroFormField::draw: the drawings of the kids when the field has a Kids array, otherwise that of the field dictionary itself |
| AppearanceSpec.KidDrawings | xpdf/AcroForm.cc:555-562 | At most one drawing per kid |
| AppearanceSpec.KidDrawingsMembers | xpdf/AcroForm.cc:555-562 | The drawings of the kids are exactly the drawings drawAnnot makes for some kid |
| AppearanceSpec.FormDrawings | xpdf/AcroForm.cc:214-220 | AcroForm::draw: the drawings of every field, field by field in order |
| AppearanceSpec.NothingOffPage | xpdf/AcroForm.cc:555-562 | Nothing is drawn for kids none of which is listed on the page |
| AcroForms.AcroForm.constructor | xpdf/AcroForm.cc:113-118 | An empty form: no annotation pages, no fields, NeedAppearances false |
| AcroForms.AcroForm.Load | xpdf/AcroForm.cc:81-111 | null iff Fields is not an array. Otherwise the form has the NeedAppearances value, the annotation-page list of all pages, and the fields the scan of every Fields element finds |
| AcroForms.AcroForm.BuildAnnotPageList | xpdf/AcroForm.cc:126-144 | The list grows by AnnotPageList of the document's pages; the fields are untouched |
| AcroForms.AcroForm.AddPageEntries | xpdf/AcroForm.cc:132-139 | The list grows by the page's entries |
| AcroForms.AcroForm.LookupAnnotPage | xpdf/AcroForm.cc:146-163 | The loop returns FormSpec.LookupAnnotPage of the list |
| AcroForms.AcroForm.AnnotBox | xpdf/AcroForm.cc:675-741 | The checks of drawAnnot give FormSpec.DrawBox |
| AcroForms.AcroForm.ScanField | xpdf/AcroForm.cc:165-211 | The fields grow by FormSpec.ScanField of the reference, keeping the form valid |
| AcroForms.AcroForm.AddField | xpdf/AcroForm.cc:205-209 | A field that loads is appended; one that fails adds nothing |
| AcroForms.AcroForm.HasWidgetKid | xpdf/AcroForm.cc:182-194 | The node is terminal iff some kid is a dictionary with a null Parent |
| AcroForms.AcroForm.ScanKids | xpdf/AcroForm.cc:195-201 | The fields grow by the scans of the kids, in order |
| AcroForms.AcroForm.Draw | xpdf/AcroForm.cc:214-220 | The drawings of every field, field by field |
| AcroForms.AcroFormField.constructor | xpdf/AcroForm.cc:372-384 | A field with the given reference, dictionary, type, name, value, alternate text and flags |
| AcroForms.AcroFormField.Load | xpdf/AcroForm.cc:234-370 | null iff FormSpec.LoadField gives none; otherwise a fresh field equal to it, with name, value and alternate text as decoded text strings |
| AcroForms.AcroFormField.FieldTypeOf | xpdf/AcroForm.cc:325-355 | The if-chain of load computes Classify |
| AcroForms.AcroFormField.InheritedAttributes | xpdf/AcroForm.cc:247-323 | Name, type name and flags are those of the walk up the Parent chain; the flags are 0 when none was found |
| AcroForms.AcroFormField.InheritStep | xpdf/AcroForm.cc:296-321 | One loop pass keeps its variables in step with FormSpec.InheritFrom |
| AcroForms.AcroFormField.SetColor | xpdf/AcroForm.cc:1257-1300 | appearBuf grows by Colors.SetColorOps |
| AcroForms.AcroFormField.ReadComponents | xpdf/AcroForm.cc:1263-1273 | The colour array holds Colors.Components |
| AcroForms.AcroFormField.AdjustComponents | xpdf/AcroForm.cc:1274-1286 | The components become Colors.Adjusted of the old ones |
| AcroForms.AcroFormField.FitScan | xpdf/AcroForm.cc:1908-1921 | The scan loop stops at FitEnd with the scaled width of what it passed |
| AcroForms.AcroFormField.MeasureLine | xpdf/AcroForm.cc:1936-1946 | The width loop computes the scaled width of the line |
| AcroForms.AcroFormField.BackUpToWord | xpdf/AcroForm.cc:1922-1933 | The back-up loops compute WrapPoint |
| AcroForms.AcroFormField.SkipLineEnd | xpdf/AcroForm.cc:1949-1958 | The last loop computes SkipBreak |
| AcroForms.AcroFormField.GetNextLine | xpdf/AcroForm.cc:1898-1960 | (end, width, next) is NextLine |
| AcroForms.AcroFormField.NarrowText | xpdf/AcroForm.cc:1321-1334 | The narrowing loop computes Narrow |
| AcroForms.AcroFormField.Tokenize | xpdf/AcroForm.cc:1337-1350 | The tokenizing loop computes Tokens |
| AcroForms.AcroFormField.TokenEnd | xpdf/AcroForm.cc:1345-1347 | A token runs up to the next white space or the end |
| AcroForms.AcroFormField.FindOperators | xpdf/AcroForm.cc:1351-1357 | The search loop computes TfPos and TmPos |
| AcroForms.AcroFormField.ReadDa | xpdf/AcroForm.cc:1336-1392 | The DA parsing computes ParseDa |
| AcroForms.AcroFormField.ForceZapf | xpdf/AcroForm.cc:1364-1373 | The Tf font name becomes /ZaDb when forced and present |
| AcroForms.AcroFormField.EscapeText | xpdf/AcroForm.cc:1669-1681 | The escaping loop computes Escape |
| AcroForms.AcroFormField.LinesBottom | xpdf/AcroForm.cc:1428-1438 | The line loop of the autosize counts LineCount lines and lowers the baseline once per line |
| AcroForms.AcroFormField.SkipLine | xpdf/AcroForm.cc:1432-1437 | One line is broken off, so the remaining count drops by one |
| AcroForms.AcroFormField.MultilineFontSize | xpdf/AcroForm.cc:1426-1443 | The size loop computes MultilineAutoSize |
| AcroForms.AcroFormField.DrawLines | xpdf/AcroForm.cc:1478-1517 | appearBuf grows by the lines of the text |
| AcroForms.AcroFormField.DrawMultiline | xpdf/AcroForm.cc:1419-1517 | appearBuf grows by MultilineBody |
| AcroForms.AcroFormField.DrawCombCells | xpdf/AcroForm.cc:1581-1598 | appearBuf grows by the comb cells |
| AcroForms.AcroFormField.DrawComb | xpdf/AcroForm.cc:1524-1598 | appearBuf grows by CombBody |
| AcroForms.AcroFormField.TextWidth | xpdf/AcroForm.cc:1604-1613 | The width loop computes StringWidth |
| AcroForms.AcroFormField.DrawPlain | xpdf/AcroForm.cc:1601-1683 | appearBuf grows by PlainBody |
| AcroForms.AcroFormField.AutoFontSize | xpdf/AcroForm.cc:1615-1622 | The size is AutoSize |
| AcroForms.AcroFormField.DrawText | xpdf/AcroForm.cc:1302-1699 | appearBuf grows by DrawTextOps |
| AcroForms.AcroFormField.BeginText | xpdf/AcroForm.cc:1394-1418 | The header is written and (dx, dy) is the rotated Extent |
| AcroForms.AcroFormField.DrawCircle | xpdf/AcroForm.cc:1962-1985 | appearBuf grows by CircleOps |
| AcroForms.AcroFormField.DrawCircleTopLeft | xpdf/AcroForm.cc:1987-2010 | appearBuf grows by TopLeftOps |
| AcroForms.AcroFormField.DrawCircleBottomRight | xpdf/AcroForm.cc:2012-2033 | appearBuf grows by BottomRightOps |
| AcroForms.AcroFormField.DrawBackground | xpdf/AcroForm.cc:819-828 | appearBuf grows by the BG fill |
| AcroForms.AcroFormField.ReadDash | xpdf/AcroForm.cc:857-866 | The dash loop computes DashArray |
| AcroForms.AcroFormField.ReadBorder | xpdf/AcroForm.cc:833-899 | The border read is BorderOf |
| AcroForms.AcroFormField.DrawBorder | xpdf/AcroForm.cc:900-1001 | appearBuf grows by BorderOps |
| AcroForms.AcroFormField.DrawRoundBorder | xpdf/AcroForm.cc:915-943 | appearBuf grows by the round border |
| AcroForms.AcroFormField.DrawRectBorder | xpdf/AcroForm.cc:944-998 | appearBuf grows by the rectangular border and its clip |
| AcroForms.AcroFormField.WidestOption | xpdf/AcroForm.cc:1764-1779 | The width loop computes MaxWidth |
| AcroForms.AcroFormField.DrawListBox | xpdf/AcroForm.cc:1701-1892 | appearBuf grows by ListBoxOps |
| AcroForms.AcroFormField.ListBoxFont | xpdf/AcroForm.cc:1763-1791 | The size is ListBoxSize, written into Tf when automatic |
| AcroForms.AcroFormField.DrawRows | xpdf/AcroForm.cc:1793-1887 | The row loop writes ListRows, though it rewrites the Tm operands for every row |
| AcroForms.AcroFormField.DrawRow | xpdf/AcroForm.cc:1797-1883 | One row is RowOps, and the tokens change only in the Tm operands |
| AcroForms.AcroFormField.ReadOptions | xpdf/AcroForm.cc:1149-1165 | The option loop computes OptionTexts |
| AcroForms.AcroFormField.ListsText | xpdf/AcroForm.cc:1175-1182 | True iff some element of the V array is the option text |
| AcroForms.AcroFormField.ReadSelection | xpdf/AcroForm.cc:1167-1186 | The selection loop computes Selection |
| AcroForms.AcroFormField.DrawButton | xpdf/AcroForm.cc:1052-1102 | appearBuf grows by ButtonOps |
| AcroForms.AcroFormField.DrawTextField | xpdf/AcroForm.cc:1103-1127 | appearBuf grows by TextFieldOps |
| AcroForms.AcroFormField.DrawChoice | xpdf/AcroForm.cc:1128-1205 | appearBuf grows by ChoiceOps |
| AcroForms.AcroFormField.DrawRadioDot | xpdf/AcroForm.cc:1069-1078 | appearBuf grows by RadioDotOps: the BC colour and the filled circle |
| AcroForms.AcroFormField.DrawContents | xpdf/AcroForm.cc:1051-1210 | appearBuf grows by ContentOps, the contents by field type |
| AcroForms.AcroFormField.DrawSetting | xpdf/AcroForm.cc:811-1210 | appearBuf becomes NewAppearanceOps: emptied, then background, border and contents |
| AcroForms.AcroFormField.DrawNewAppearance | xpdf/AcroForm.cc:791-1251 | The appearance is NewAppearance, and the buffer is emptied afterwards |
| AcroForms.AcroFormField.ReadSetting | xpdf/AcroForm.cc:812-1049 | What is read before drawing is SettingOf |
| AcroForms.AcroFormField.ReadRect | xpdf/AcroForm.cc:711-741 | The Rect reading computes RectBox |
| AcroForms.AcroFormField.GetRectangle | xpdf/AcroForm.cc:597-666 | getRectangle computes FormSpec.GetRectangle |
| AcroForms.AcroFormField.DrawAnnot | xpdf/AcroForm.cc:668-753 | drawAnnot computes AnnotDrawing |
| AcroForms.AcroFormField.DrawKids | xpdf/AcroForm.cc:555-562 | The Kids loop computes KidDrawings |
| AcroForms.AcroFormField.Draw | xpdf/AcroForm.cc:550-566 | draw computes FieldDrawings: the Kids, or the field itself |

## Left out

- **Number formatting.** The `{0:.4f}` and `{0:.2f}` formats are kept as the number and its decimal count in a `Piece`, not as characters.
- **Arithmetic.** Doubles are modelled as exact reals.
  - `r / sqrt(2.0)` in the half circles (`AcroForm.cc:1990`, `AcroForm.cc:2015`) is `r` times the constant 0.7071067811865476, which is 1 / sqrt(2) rounded to a double (`AppearanceSpec.DivSqrt2`).
  - The Bezier factor 0.55228475 is exact.
- **Drawing output.** `Gfx::drawAnnot`, `MemStream` and the appearance stream dictionary are not modelled. Drawing returns `Drawing` values: the existing stream as found, or an `Appearance` with its content, bounding box and resources.
- **Text-string decoding.** TextString's conversion of PDF text strings to Unicode (UTF-16BE after the FE FF marker, otherwise PDFDocEncoding) is not part of this model. It is a parameter of the document, `decodeText`.
- **Fonts.** Loading fonts from the DR font dictionary (`GfxFontDict`) is a parameter of the document: a `Font` value with an 8-bit width table, or a CID font, or none.
- **Optional content.** `evalOCObject` is a parameter of the document.
- **Error messages.** The diagnostics reported by `error()` are not modelled; the control flow around them is.
- **Recursion bounds.** The Parent walk of load, the recursion of scanField and the recursion of fieldLookup are bounded by `Env.maxDepth`. The source has no bound, so a cyclic Parent or Kids chain does not terminate there. In the model, the walk stops after maxDepth ancestors.
- **Option arrays.** The `text` and `selection` arrays of drawNewAppearance are `seq` values, and the list-box rows are drawn from them.
- AcroForms.AcroFormField.SetColor: requires a non-empty array. The source's callers check this (`AcroForm.cc:822,906-908,1073`); with an empty array the source would print an uninitialised component.
- TextLayout.AutoSize: when the text width is 0 the division by zero is modelled as "no width bound". This matches the source when the width available is positive (+inf) or zero (NaN compares false). It does not model the -inf bound of a box narrower than 4 + 2 * border.
- FormSpec.Trunc: does not model the overflow of `(int)` for rectangles beyond the int range.
- DefaultAppearance.Atof: reads an optional sign, digits and a fraction. The exponent and hexadecimal forms of C `atof` are not modelled.
- **Accessors.** `getNameGString`, `getValueGString`, `getName`, the `TextString` accessors, `getAltText`, `getNumFields` and `getField` are not part of this model. They only read the loaded state.
- **getRect** (`AcroForm.cc:407-426`) is not modelled. It walks the Kids array, fetches each kid and calls `getRectangle` on it, and its result is that of the last kid (or of the field itself when there is no Kids array). Only `getRectangle` is modelled (`FormSpec.GetRectangle`, `AcroForms.AcroFormField.GetRectangle`).
- **getResources** (`AcroForm.cc:2035-2065`) is not modelled. It returns `fieldLookup("DR")` when NeedAppearances is set, and otherwise walks the Kids array and collects the resources of each kid's appearance stream. The model covers only the per-annotation part, `getAnnotResources`, as `FormSpec.AnnotResources` with `FormSpec.ResourcesOfExistingAppearance`.
- **The destructors** and `free()` calls are not modelled.

## Findings

| source | as written | input that shows it | evidently intended | confidence | as-written member | corrected member |
|---|---|---|---|---|---|---|
| xpdf/AcroForm.cc:1795-1800 | The list-box row loop starts at the field's TI value unchanged, so a negative TI reads `selection[-1]` and `text[-1]` | a list box whose TI entry is -1 | rows start at 0 for a negative top index | not executed | AppearanceSpec.NegativeTopIndexReadsOutside | AppearanceSpec.ClampedRowsInRange |

/** Form-field type variants, the field-flag bits that select among them, and the
    classification of a field from its inherited type name and flags. */
module FieldTypes {
  import opened PdfObjects

  // Field-flag bits (the value of 1 << n for flag bit n).
  const FlagMultiline: int := 0x1000        // bit 12, text
  const FlagRadio: int := 0x8000            // bit 15, button
  const FlagPushbutton: int := 0x1_0000     // bit 16, button
  const FlagCombo: int := 0x2_0000          // bit 17, choice
  const FlagFileSelect: int := 0x10_0000    // bit 20, text
  const FlagComb: int := 0x100_0000         // bit 24, text

  datatype FieldType =
    | Pushbutton
    | RadioButton
    | Checkbox
    | FileSelect
    | MultilineText
    | Text
    | ComboBox
    | ListBox
    | Signature

  /** The field-type name ("FT") that a variant belongs to. */
  function Family(t: FieldType): string
  {
    match t
    case Pushbutton | RadioButton | Checkbox => "Btn"
    case FileSelect | MultilineText | Text => "Tx"
    case ComboBox | ListBox => "Ch"
    case Signature => "Sig"
  }

  /** The type-resolution table: a field-type name and the inherited flags give the
      variant; a missing or unrecognised type name gives none (the field is dropped). */
  function Classify(ft: Option<string>, flags: int): (t: Option<FieldType>)
    ensures t.Some? <==> ft.Some? && ft.value in {"Btn", "Tx", "Ch", "Sig"}
    ensures t.Some? ==> ft == Some(Family(t.value))
    ensures ft == Some("Btn") ==>
      (t == Some(Pushbutton) <==> TestFlag(flags, FlagPushbutton)) &&
      (t == Some(RadioButton) <==> !TestFlag(flags, FlagPushbutton) && TestFlag(flags, FlagRadio))
    ensures ft == Some("Tx") ==>
      (t == Some(FileSelect) <==> TestFlag(flags, FlagFileSelect)) &&
      (t == Some(MultilineText) <==> !TestFlag(flags, FlagFileSelect) && TestFlag(flags, FlagMultiline))
    ensures ft == Some("Ch") ==> (t == Some(ComboBox) <==> TestFlag(flags, FlagCombo))
  {
    match ft
    case None => None
    case Some(s) =>
      if s == "Btn" then
        if TestFlag(flags, FlagPushbutton) then Some(Pushbutton)
        else if TestFlag(flags, FlagRadio) then Some(RadioButton)
        else Some(Checkbox)
      else if s == "Tx" then
        if TestFlag(flags, FlagFileSelect) then Some(FileSelect)
        else if TestFlag(flags, FlagMultiline) then Some(MultilineText)
        else Some(Text)
      else if s == "Ch" then
        if TestFlag(flags, FlagCombo) then Some(ComboBox) else Some(ListBox)
      else if s == "Sig" then Some(Signature)
      else None
  }

  /** A flag word that selects variant `t` within its family. */
  function SelectingFlags(t: FieldType): int
  {
    match t
    case Pushbutton => FlagPushbutton
    case RadioButton => FlagRadio
    case FileSelect => FlagFileSelect
    case MultilineText => FlagMultiline
    case ComboBox => FlagCombo
    case _ => 0
  }

  /** Every variant is reachable: its family name with its selecting flag classifies to it. */
  lemma ClassifyReachesEveryType(t: FieldType)
    ensures Classify(Some(Family(t)), SelectingFlags(t)) == Some(t)
  {
  }

  /** getType: the variant's display name. */
  function TypeName(t: FieldType): (s: string)
    ensures |s| > 0
  {
    match t
    case Pushbutton => "PushButton"
    case RadioButton => "RadioButton"
    case Checkbox => "Checkbox"
    case FileSelect => "FileSelect"
    case MultilineText => "MultilineText"
    case Text => "Text"
    case ComboBox => "ComboBox"
    case ListBox => "ListBox"
    case Signature => "Signature"
  }

  /** Distinct variants have distinct names, so the name identifies the variant. */
  lemma TypeNameInjective(a: FieldType, b: FieldType)
    requires TypeName(a) == TypeName(b)
    ensures a == b
  {
  }
}

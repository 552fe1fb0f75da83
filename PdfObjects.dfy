/** The PDF object model as the form code consumes it: a tagged object, dictionaries
    as ordered key/value entries, and indirect references resolved through a
    cross-reference map.  This is a collaborator of the form code, reduced to the
    accessors it calls (dictLookup, dictLookupNF, arrayGet, arrayGetNF, fetch). */
module PdfObjects {

  /** One byte of a PDF string, written as the character with that code. */
  type Byte = c: char | c as int < 256 witness 'A'

  /** A PDF string: a sequence of bytes. */
  type PdfString = seq<Byte>

  datatype Option<T> = None | Some(value: T)

  datatype Obj =
    | Null
    | Bool(b: bool)
    | Int(i: int)
    | Real(r: real)
    | Str(s: PdfString)
    | Name(name: string)
    | Array(elems: seq<Obj>)
    | Dict(entries: seq<Entry>)
    | Stream(streamDict: seq<Entry>)
    | Ref(num: int, gen: int)

  datatype Entry = Entry(key: string, val: Obj)

  /** The cross-reference table: object number and generation to the stored object. */
  type XRef = map<(int, int), Obj>

  /** Object::fetch: a reference is replaced by the object it names (null when the
      table has no such object); any other object is returned unchanged. */
  function Fetch(xref: XRef, o: Obj): (r: Obj)
    ensures !o.Ref? ==> r == o
    ensures o.Ref? && (o.num, o.gen) !in xref ==> r == Null
  {
    if o.Ref? then (if (o.num, o.gen) in xref then xref[(o.num, o.gen)] else Null) else o
  }

  /** Dict::lookupNF: the raw value stored under `key`; a repeated key resolves to its
      last occurrence; a missing key gives null. */
  function LookupNF(d: seq<Entry>, key: string): Obj
  {
    if d == [] then Null
    else if d[|d| - 1].key == key then d[|d| - 1].val
    else LookupNF(d[..|d| - 1], key)
  }

  /** The lookup finds the last entry with the key, and null exactly when the key is
      absent or stored with a null value. */
  lemma {:induction false} LookupNFLast(d: seq<Entry>, key: string)
    ensures LookupNF(d, key) != Null ==>
      exists i :: 0 <= i < |d| && d[i].key == key && d[i].val == LookupNF(d, key) &&
        forall j :: i < j < |d| ==> d[j].key != key
    ensures (forall i :: 0 <= i < |d| ==> d[i].key != key) ==> LookupNF(d, key) == Null
    decreases |d|
  {
    if d != [] && d[|d| - 1].key != key {
      var init := d[..|d| - 1];
      LookupNFLast(init, key);
      assert forall i :: 0 <= i < |init| ==> init[i] == d[i];
    }
  }

  /** Dict::lookup: the value under `key`, with a reference resolved. */
  function Lookup(xref: XRef, d: seq<Entry>, key: string): Obj
  {
    Fetch(xref, LookupNF(d, key))
  }

  predicate IsNum(o: Obj)
  {
    o.Int? || o.Real?
  }

  function NumOf(o: Obj): real
    requires IsNum(o)
  {
    if o.Int? then o.i as real else o.r
  }

  /** The numeric value of `o`, or `dflt` when `o` is not a number. */
  function NumOr(o: Obj, dflt: real): real
  {
    if IsNum(o) then NumOf(o) else dflt
  }

  /** True when `o` is the name `n` (Object::isName(const char *)). */
  predicate IsName(o: Obj, n: string)
  {
    o.Name? && o.name == n
  }

  /** True when `o` is an array with at least one element. */
  predicate NonEmptyArray(o: Obj)
  {
    o.Array? && |o.elems| > 0
  }

  const TwoTo32: int := 0x1_0000_0000

  /** The C conversion of a signed int to a 32-bit unsigned int (two's complement). */
  function ToUint32(i: int): (u: int)
    ensures 0 <= u < TwoTo32
    ensures 0 <= i < TwoTo32 ==> u == i
  {
    i % TwoTo32
  }

  /** `flags & mask` is non-zero, for a one-bit `mask`, on the 32-bit value of `flags`. */
  predicate TestFlag(flags: int, mask: int)
    requires mask > 0
  {
    (ToUint32(flags) / mask) % 2 == 1
  }

  /** Concatenation is associative. */
  lemma Associative<T>(a: seq<T>, b: seq<T>, c: seq<T>)
    ensures a + b + c == a + (b + c)
  {
  }
}

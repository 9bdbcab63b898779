/** Dynamic Go values and the few static types the helpers inspect by
    reflection, replaced by explicit datatypes.  Shared by every package. */
module Values {

  datatype Option<+T> = None | Some(value: T)

  /** The three families of Go's numeric kinds beyond `int`: the integer
      kinds (int8 to int64, uint to uint64, uintptr), float32 and float64,
      and complex64 and complex128. */
  datatype NumKind = Integer | Float | Complex

  /** The static types that the helpers tell apart. */
  datatype GoType =
    | TBool
    | TInt                                    // Go's `int` only
    | TString
    | TNumber(name: string, kind: NumKind)    // every other numeric kind: int64, uint, float64, complex128, ...
    | TAny                                    // interface{}
    | TMapAny                                 // map[string]interface{}
    | TSliceAny                               // []interface{}
    | TPtr(elem: GoType)
    | TOther(name: string, comparable: bool)  // structs, typed maps and slices, ...

  /** A value as it sits inside an `interface{}`. */
  datatype Val =
    | VBool(b: bool)
    | VInt(i: int)
    | VStr(s: string)
    | VNil                                 // the nil interface
    | VMap(entries: map<string, Val>)      // a map[string]interface{}
    | VList(items: seq<Val>)               // a []interface{}
      /** A pointer of type *elem; `target` is None for a nil pointer.  When
          elem is TAny the pointee is an interface and `target` holds what
          that interface holds (VNil for a nil interface). */
    | VPtr(elem: GoType, target: Option<Val>)
      /** Any other value of type `typ` (a TNumber or a TOther); the payload
          is opaque and 0 stands for the type's zero value. */
    | VOther(typ: GoType, payload: int)

  /** The dynamic type of a value.  A nil interface has none; it is mapped to
      TAny, which no concrete value has. */
  function TypeOf(v: Val): GoType {
    match v
    case VBool(_) => TBool
    case VInt(_) => TInt
    case VStr(_) => TString
    case VNil => TAny
    case VMap(_) => TMapAny
    case VList(_) => TSliceAny
    case VPtr(e, _) => TPtr(e)
    case VOther(t, _) => t
  }

  /** A field of static type `t` may hold `v`. */
  predicate HasType(v: Val, t: GoType) {
    t == TAny || (v != VNil && TypeOf(v) == t)
  }

  /** The zero value of each type (reflect.Zero). */
  function Zero(t: GoType): (z: Val)
    ensures HasType(z, t)
  {
    match t
    case TBool => VBool(false)
    case TInt => VInt(0)
    case TString => VStr("")
    case TNumber(_, _) => VOther(t, 0)
    case TAny => VNil
    case TMapAny => VMap(map[])
    case TSliceAny => VList([])
    case TPtr(e) => VPtr(e, None)
    case TOther(_, _) => VOther(t, 0)
  }

  /** Whether `==` on values of this static type is defined; Go panics when
      it compares two slices, two maps or two uncomparable structs. */
  predicate Comparable(t: GoType) {
    !(t.TMapAny? || t.TSliceAny? || (t.TOther? && !t.comparable))
  }

  /** A struct field declaration. */
  datatype Field = Field(name: string, typ: GoType)

  /** unicode.IsUpper: the upper-case letters (general category Lu) of
      Unicode 15.0, as ranges of code points; a range with a parity test
      holds every other code point. Title-case letters such as U+01C5 are
      not upper case. */
  predicate IsUpper(c: char) {
    var x := c as int;
    if x < 0x01A2 then
      (0x0041 <= x <= 0x005A) || (0x00C0 <= x <= 0x00D6) || (0x00D8 <= x <= 0x00DE) ||
      (0x0100 <= x <= 0x0136 && x % 2 == 0) || (0x0139 <= x <= 0x0147 && x % 2 == 1) ||
      (0x014A <= x <= 0x0178 && x % 2 == 0) || (0x0179 <= x <= 0x017D && x % 2 == 1) ||
      (0x0181 <= x <= 0x0182) || (0x0184 <= x <= 0x0186 && x % 2 == 0) ||
      (0x0187 <= x <= 0x0189 && x % 2 == 1) || (0x018A <= x <= 0x018B) ||
      (0x018E <= x <= 0x0191) || (0x0193 <= x <= 0x0194) || (0x0196 <= x <= 0x0198) ||
      (0x019C <= x <= 0x019D) || (0x019F <= x <= 0x01A0)
    else if x < 0x01FA then
      (0x01A2 <= x <= 0x01A6 && x % 2 == 0) || (0x01A7 <= x <= 0x01A9 && x % 2 == 1) ||
      (0x01AC <= x <= 0x01AE && x % 2 == 0) || (0x01AF <= x <= 0x01B1 && x % 2 == 1) ||
      (0x01B2 <= x <= 0x01B3) || (0x01B5 <= x <= 0x01B7 && x % 2 == 1) || x == 0x01B8 ||
      x == 0x01BC || x == 0x01C4 || x == 0x01C7 || x == 0x01CA ||
      (0x01CD <= x <= 0x01DB && x % 2 == 1) || (0x01DE <= x <= 0x01EE && x % 2 == 0) ||
      x == 0x01F1 || (0x01F4 <= x <= 0x01F6 && x % 2 == 0) || (0x01F7 <= x <= 0x01F8)
    else if x < 0x03D2 then
      (0x01FA <= x <= 0x0232 && x % 2 == 0) || (0x023A <= x <= 0x023B) ||
      (0x023D <= x <= 0x023E) || (0x0241 <= x <= 0x0243 && x % 2 == 1) ||
      (0x0244 <= x <= 0x0246) || (0x0248 <= x <= 0x024E && x % 2 == 0) ||
      (0x0370 <= x <= 0x0372 && x % 2 == 0) || x == 0x0376 || x == 0x037F ||
      (0x0386 <= x <= 0x0388 && x % 2 == 0) || (0x0389 <= x <= 0x038A) ||
      (0x038C <= x <= 0x038E && x % 2 == 0) || (0x038F <= x <= 0x0391 && x % 2 == 1) ||
      (0x0392 <= x <= 0x03A1) || (0x03A3 <= x <= 0x03AB) || x == 0x03CF
    else if x < 0x1CBD then
      (0x03D2 <= x <= 0x03D4) || (0x03D8 <= x <= 0x03EE && x % 2 == 0) || x == 0x03F4 ||
      (0x03F7 <= x <= 0x03F9 && x % 2 == 1) || x == 0x03FA || (0x03FD <= x <= 0x042F) ||
      (0x0460 <= x <= 0x0480 && x % 2 == 0) || (0x048A <= x <= 0x04C0 && x % 2 == 0) ||
      (0x04C1 <= x <= 0x04CD && x % 2 == 1) || (0x04D0 <= x <= 0x052E && x % 2 == 0) ||
      (0x0531 <= x <= 0x0556) || (0x10A0 <= x <= 0x10C5) || x == 0x10C7 || x == 0x10CD ||
      (0x13A0 <= x <= 0x13F5) || (0x1C90 <= x <= 0x1CBA)
    else if x < 0x2107 then
      (0x1CBD <= x <= 0x1CBF) || (0x1E00 <= x <= 0x1E94 && x % 2 == 0) ||
      (0x1E9E <= x <= 0x1EFE && x % 2 == 0) || (0x1F08 <= x <= 0x1F0F) ||
      (0x1F18 <= x <= 0x1F1D) || (0x1F28 <= x <= 0x1F2F) || (0x1F38 <= x <= 0x1F3F) ||
      (0x1F48 <= x <= 0x1F4D) || (0x1F59 <= x <= 0x1F5F && x % 2 == 1) ||
      (0x1F68 <= x <= 0x1F6F) || (0x1FB8 <= x <= 0x1FBB) || (0x1FC8 <= x <= 0x1FCB) ||
      (0x1FD8 <= x <= 0x1FDB) || (0x1FE8 <= x <= 0x1FEC) || (0x1FF8 <= x <= 0x1FFB) ||
      x == 0x2102
    else if x < 0x2C72 then
      x == 0x2107 || (0x210B <= x <= 0x210D) || (0x2110 <= x <= 0x2112) || x == 0x2115 ||
      (0x2119 <= x <= 0x211D) || (0x2124 <= x <= 0x212A && x % 2 == 0) ||
      (0x212B <= x <= 0x212D) || (0x2130 <= x <= 0x2133) || (0x213E <= x <= 0x213F) ||
      x == 0x2145 || x == 0x2183 || (0x2C00 <= x <= 0x2C2F) ||
      (0x2C60 <= x <= 0x2C62 && x % 2 == 0) || (0x2C63 <= x <= 0x2C64) ||
      (0x2C67 <= x <= 0x2C6D && x % 2 == 1) || (0x2C6E <= x <= 0x2C70)
    else if x < 0xA7B0 then
      x == 0x2C72 || x == 0x2C75 || (0x2C7E <= x <= 0x2C80) ||
      (0x2C82 <= x <= 0x2CE2 && x % 2 == 0) || (0x2CEB <= x <= 0x2CED && x % 2 == 1) ||
      x == 0x2CF2 || (0xA640 <= x <= 0xA66C && x % 2 == 0) ||
      (0xA680 <= x <= 0xA69A && x % 2 == 0) || (0xA722 <= x <= 0xA72E && x % 2 == 0) ||
      (0xA732 <= x <= 0xA76E && x % 2 == 0) || (0xA779 <= x <= 0xA77D && x % 2 == 1) ||
      (0xA77E <= x <= 0xA786 && x % 2 == 0) || (0xA78B <= x <= 0xA78D && x % 2 == 1) ||
      (0xA790 <= x <= 0xA792 && x % 2 == 0) || (0xA796 <= x <= 0xA7AA && x % 2 == 0) ||
      (0xA7AB <= x <= 0xA7AE)
    else if x < 0x16E40 then
      (0xA7B0 <= x <= 0xA7B4) || (0xA7B6 <= x <= 0xA7C4 && x % 2 == 0) ||
      (0xA7C5 <= x <= 0xA7C7) || x == 0xA7C9 || x == 0xA7D0 ||
      (0xA7D6 <= x <= 0xA7D8 && x % 2 == 0) || x == 0xA7F5 || (0xFF21 <= x <= 0xFF3A) ||
      (0x10400 <= x <= 0x10427) || (0x104B0 <= x <= 0x104D3) || (0x10570 <= x <= 0x1057A) ||
      (0x1057C <= x <= 0x1058A) || (0x1058C <= x <= 0x10592) || (0x10594 <= x <= 0x10595) ||
      (0x10C80 <= x <= 0x10CB2) || (0x118A0 <= x <= 0x118BF)
    else if x < 0x1D53B then
      (0x16E40 <= x <= 0x16E5F) || (0x1D400 <= x <= 0x1D419) || (0x1D434 <= x <= 0x1D44D) ||
      (0x1D468 <= x <= 0x1D481) || (0x1D49C <= x <= 0x1D49E && x % 2 == 0) || x == 0x1D49F ||
      x == 0x1D4A2 || (0x1D4A5 <= x <= 0x1D4A6) || (0x1D4A9 <= x <= 0x1D4AC) ||
      (0x1D4AE <= x <= 0x1D4B5) || (0x1D4D0 <= x <= 0x1D4E9) || (0x1D504 <= x <= 0x1D505) ||
      (0x1D507 <= x <= 0x1D50A) || (0x1D50D <= x <= 0x1D514) || (0x1D516 <= x <= 0x1D51C) ||
      (0x1D538 <= x <= 0x1D539)
    else if x < 0x1E900 then
      (0x1D53B <= x <= 0x1D53E) || (0x1D540 <= x <= 0x1D544) || x == 0x1D546 ||
      (0x1D54A <= x <= 0x1D550) || (0x1D56C <= x <= 0x1D585) || (0x1D5A0 <= x <= 0x1D5B9) ||
      (0x1D5D4 <= x <= 0x1D5ED) || (0x1D608 <= x <= 0x1D621) || (0x1D63C <= x <= 0x1D655) ||
      (0x1D670 <= x <= 0x1D689) || (0x1D6A8 <= x <= 0x1D6C0) || (0x1D6E2 <= x <= 0x1D6FA) ||
      (0x1D71C <= x <= 0x1D734) || (0x1D756 <= x <= 0x1D76E) || (0x1D790 <= x <= 0x1D7A8) ||
      x == 0x1D7CA
    else
      (0x1E900 <= x <= 0x1E921)
  }

  /** Go exports a field whose name starts with an upper-case letter. */
  predicate Exported(name: string) {
    |name| > 0 && IsUpper(name[0])
  }

  /** Capitals outside ASCII export a name, as ASCII capitals do. */
  lemma ExportedCapitals()
    ensures Exported("Name") && Exported("\U{00C4}rger") && Exported("\U{03A9}mega")
    ensures Exported("\U{0416}uk") && Exported("\U{1D400}x")
  {
  }

  /** Lower-case and title-case letters, digits, `_` and the empty name do
      not export. */
  lemma UnexportedNames()
    ensures !Exported("") && !Exported("name") && !Exported("_id") && !Exported("9lives")
    ensures !Exported("\U{00E4}rger") && !Exported("\U{01C5}x")
  {
  }

  /** Position of the first field called `name` (reflect's FieldByName on a
      struct without embedded fields). */
  function FieldIndex(layout: seq<Field>, name: string): (r: Option<nat>)
    ensures r.Some? ==> r.value < |layout| && layout[r.value].name == name
    ensures r.Some? ==> forall j :: 0 <= j < r.value ==> layout[j].name != name
    ensures r.None? ==> forall j :: 0 <= j < |layout| ==> layout[j].name != name
  {
    if |layout| == 0 then None
    else if layout[0].name == name then Some(0)
    else match FieldIndex(layout[1..], name)
      case None => None
      case Some(j) => Some(j + 1)
  }

  /** Every field value fits its declared type. */
  predicate WellTyped(layout: seq<Field>, values: seq<Val>) {
    |values| == |layout| &&
    forall i :: 0 <= i < |values| ==> HasType(values[i], layout[i].typ)
  }

  /** A struct reached through a pointer: its fields are updated in place. */
  class Struct {
    const layout: seq<Field>
    var values: seq<Val>

    ghost predicate Valid()
      reads this
    {
      WellTyped(layout, values)
    }

    /** A fresh struct with every field at its zero value (`&T{}`). */
    constructor (layout: seq<Field>)
      ensures this.layout == layout
      ensures |values| == |layout|
      ensures forall i :: 0 <= i < |layout| ==> values[i] == Zero(layout[i].typ)
      ensures Valid()
    {
      this.layout := layout;
      values := seq(|layout|, i requires 0 <= i < |layout| => Zero(layout[i].typ));
    }
  }
}

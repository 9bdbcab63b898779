/** Truthiness of an arbitrary value (package boolable). */
module Boolable {
  import opened Values

  /** The strings that, once lower-cased, read as false. */
  const FalseStrings: set<string> := {"", "0", "f", "false", "off", "n", "no"}

  /** Lower-casing of ASCII letters.  For deciding membership in
      FalseStrings this agrees with Unicode lower-casing: no non-ASCII
      character lower-cases to one of the characters those strings use. */
  function ToLower(s: string): (r: string)
    ensures |r| == |s|
    ensures forall i :: 0 <= i < |s| ==>
              r[i] == if 'A' <= s[i] <= 'Z' then (s[i] as int + 32) as char else s[i]
  {
    if s == [] then []
    else [if 'A' <= s[0] <= 'Z' then (s[0] as int + 32) as char else s[0]] + ToLower(s[1..])
  }

  /** `!falseValues[strings.ToLower(s)]` */
  predicate StringTruth(s: string) {
    ToLower(s) !in FalseStrings
  }

  /** What a reflect.Value passed to fromPointer can be: a pointer, or the
      interface that a pointer to an interface pointed at. */
  datatype Indirect = PointerTo(elem: GoType, target: Option<Val>) | InterfaceOf(content: Val)

  /** The switch on the pointee's kind shared by fromPointer and From. */
  predicate KindTruth(v: Val) {
    match v
    case VBool(b) => b
    case VInt(n) => n != 0
    case VStr(s) => StringTruth(s)
    case _ => true
  }

  /** fromPointer: a nil pointer or nil interface is false; otherwise the
      referenced value is judged, an interface once more through fromPointer. */
  predicate FromPointer(r: Indirect)
    decreases if r.PointerTo? then 1 else 0
    ensures r.PointerTo? && r.target.None? ==> !FromPointer(r)
    ensures r.InterfaceOf? && r.content == VNil ==> !FromPointer(r)
    ensures FromPointer(r) && r.InterfaceOf? ==> r.content !in {VBool(false), VInt(0), VStr("")}
  {
    match r
    case PointerTo(elem, target) =>
      if target.None? then false
      else if elem == TAny then FromPointer(InterfaceOf(target.value))
      else KindTruth(target.value)
    case InterfaceOf(content) =>
      if content == VNil then false
      else KindTruth(content)
  }

  /** From: `dereference` is the variadic flag; only its first element is read. */
  predicate From(value: Val, dereference: seq<bool>)
    ensures From(value, dereference) ==> value !in {VNil, VBool(false), VInt(0), VStr("")}
    ensures !From(value, dereference) ==>
              value.VBool? || value.VInt? || value.VStr? || value.VNil? || value.VPtr?
  {
    if value.VPtr? && (|dereference| == 0 || dereference[0]) then
      FromPointer(PointerTo(value.elem, value.target))
    else
      match value
      case VBool(b) => b
      case VInt(n) => n != 0
      case VStr(s) => StringTruth(s)
      case VNil => false
      case _ => true
  }

  /** A bool is its own truth, whatever the flag. */
  lemma FromBool(b: bool, d: seq<bool>)
    ensures From(VBool(b), d) == b
  {
  }

  /** An `int` is true exactly when it is non-zero. */
  lemma FromInt(n: int, d: seq<bool>)
    ensures From(VInt(n), d) <==> n != 0
  {
  }

  /** Every other numeric kind (int64, uint, float64, complex128, ...)
      reaches the default case and is true, zero included. */
  lemma FromOtherNumber(name: string, kind: NumKind, payload: int, d: seq<bool>)
    ensures From(VOther(TNumber(name, kind), payload), d)
  {
  }

  /** A string is false exactly when its ASCII-lower-cased form is one of the
      seven false strings, spelt out here character by character. */
  lemma {:induction false} FromString(s: string, d: seq<bool>)
    ensures !From(VStr(s), d) <==>
              (|s| == 0 ||
               (|s| == 1 && (s[0] == '0' || s[0] in "fF" || s[0] in "nN")) ||
               (|s| == 2 && s[0] in "nN" && s[1] in "oO") ||
               (|s| == 3 && s[0] in "oO" && s[1] in "fF" && s[2] in "fF") ||
               (|s| == 5 && s[0] in "fF" && s[1] in "aA" && s[2] in "lL" && s[3] in "sS" && s[4] in "eE"))
  {
    var l := ToLower(s);
    assert |l| == |s|;
    if |s| == 1 {
      assert l == [l[0]];
    } else if |s| == 2 {
      assert l == [l[0], l[1]];
    } else if |s| == 3 {
      assert l == [l[0], l[1], l[2]];
    } else if |s| == 5 {
      assert l == [l[0], l[1], l[2], l[3], l[4]];
    }
  }

  /** No trimming: a false string with a space before or after it is true. */
  lemma {:induction false} PaddedFalseStringIsTrue(t: string, d: seq<bool>)
    requires t in FalseStrings
    ensures From(VStr(t + " "), d) && From(VStr(" " + t), d)
  {
    var a, b := t + " ", " " + t;
    var la, lb := ToLower(a), ToLower(b);
    assert la[|t|] == ' ' by { assert a[|t|] == ' '; }
    assert lb[0] == ' ' by { assert b[0] == ' '; }
    if la in FalseStrings {
      FalseStringShape(la);
    }
    if lb in FalseStrings {
      FalseStringShape(lb);
    }
  }

  /** The false strings by length: none holds a space, every one of them
      starts with '0', 'f', 'n' or 'o', and only "off" starts with 'o' and
      only "false" with 'f' among the longer ones. */
  lemma FalseStringShape(t: string)
    requires t in FalseStrings
    ensures |t| in {0, 1, 2, 3, 5}
    ensures ' ' !in t
    ensures |t| == 1 ==> t[0] in {'0', 'f', 'n'}
    ensures |t| == 2 ==> t[0] == 'n' && t[1] == 'o'
    ensures |t| == 3 ==> t[0] == 'o'
    ensures |t| == 5 ==> t[0] == 'f'
  {
  }

  /** A false string followed by another non-empty false string is true ("nono"). */
  lemma {:induction false} DoubledFalseStringIsTrue(t: string, u: string, d: seq<bool>)
    requires t in FalseStrings && u in FalseStrings && t != "" && u != ""
    ensures From(VStr(t + u), d)
  {
    FalseStringShape(t);
    FalseStringShape(u);
    var s := t + u;
    var l := ToLower(s);
    assert l[0] == t[0] by { assert s[0] == t[0]; }
    if |s| == 2 {
      assert l[1] == u[0] by { assert s[1] == u[0]; }
    }
    if l in FalseStrings {
      FalseStringShape(l);
    }
  }

  /** A false string with a suffix can still be false: "n" extended by "o"
      is "no". */
  lemma ExtendedFalseStringCanBeFalse(d: seq<bool>)
    ensures "n" in FalseStrings && !From(VStr("n" + "o"), d)
    ensures "of" !in FalseStrings && !From(VStr("of" + "f"), d)
  {
    FromString("n" + "o", d);
    FromString("of" + "f", d);
  }

  /** nil is false. */
  lemma FromNil(d: seq<bool>)
    ensures !From(VNil, d)
  {
  }

  /** Structs, slices and maps are true, even when empty. */
  lemma FromComposite(v: Val, d: seq<bool>)
    requires v.VMap? || v.VList? || (v.VOther? && v.typ.TOther?)
    ensures From(v, d)
  {
  }

  /** With the flag absent or true, a nil pointer is false. */
  lemma FromNilPointer(elem: GoType, d: seq<bool>)
    requires |d| == 0 || d[0]
    ensures !From(VPtr(elem, None), d)
  {
  }

  /** With the flag absent or true, a non-nil pointer to a bool, int or
      string is judged like the pointee itself. */
  lemma FromPointerToScalar(v: Val, d: seq<bool>)
    requires |d| == 0 || d[0]
    requires v.VBool? || v.VInt? || v.VStr?
    ensures From(VPtr(TypeOf(v), Some(v)), d) == From(v, d)
  {
  }

  /** A pointer to an interface looks through the interface: a nil
      interface is false, a held bool, int or string is judged as such, and
      anything else (a further pointer included) is true. */
  lemma FromPointerToInterface(v: Val, d: seq<bool>)
    requires |d| == 0 || d[0]
    ensures From(VPtr(TAny, Some(v)), d) ==
              (if v.VBool? || v.VInt? || v.VStr? || v.VNil? then From(v, d) else true)
  {
    assert From(VPtr(TAny, Some(v)), d) == FromPointer(InterfaceOf(v));
  }

  /** A pointer to anything else (a slice, a map, a struct, another
      pointer) is true. */
  lemma FromPointerToOther(elem: GoType, v: Val, d: seq<bool>)
    requires |d| == 0 || d[0]
    requires elem != TAny && !(v.VBool? || v.VInt? || v.VStr?)
    ensures From(VPtr(elem, Some(v)), d)
  {
  }

  /** With dereference=false every pointer is true, nil pointers included. */
  lemma FromPointerNoDereference(elem: GoType, target: Option<Val>, d: seq<bool>)
    requires |d| > 0 && !d[0]
    ensures From(VPtr(elem, target), d)
  {
  }

  /** For a value that is not a pointer the flag changes nothing. */
  lemma FlagIgnoredForNonPointers(v: Val, d1: seq<bool>, d2: seq<bool>)
    requires !v.VPtr?
    ensures From(v, d1) == From(v, d2)
  {
  }
}

/** Path navigation, field assignment and a set type (package container). */
module Container {
  import opened Values

  // ---------------------------------------------------------------------
  // strconv.Atoi, as Dig uses it for string list indices
  // ---------------------------------------------------------------------

  const MinInt64: int := -0x8000_0000_0000_0000
  const MaxInt64: int := 0x7FFF_FFFF_FFFF_FFFF

  predicate IsDigit(c: char) {
    '0' <= c <= '9'
  }

  predicate AllDigits(s: string) {
    forall i :: 0 <= i < |s| ==> IsDigit(s[i])
  }

  /** The number a string of decimal digits spells, leading zeros allowed. */
  function DigitsValue(s: string): nat
    requires AllDigits(s)
  {
    if s == [] then 0
    else DigitsValue(s[..|s| - 1]) * 10 + (s[|s| - 1] as int - '0' as int)
  }

  /** strconv.Atoi on a 64-bit platform: an optional sign, then one or more
      decimal digits, with the value inside the int64 range. */
  function Atoi(s: string): (r: Option<int>)
    ensures r.Some? ==> MinInt64 <= r.value <= MaxInt64
    ensures r.Some? ==> |s| > 0 && IsDigit(s[|s| - 1])
    ensures r.Some? && r.value < 0 ==> s[0] == '-'
  {
    var neg := |s| > 0 && s[0] == '-';
    var digits := if |s| > 0 && (s[0] == '-' || s[0] == '+') then s[1..] else s;
    if |digits| == 0 || !AllDigits(digits) then None
    else
      var v: int := DigitsValue(digits);
      var n := if neg then -v else v;
      if MinInt64 <= n <= MaxInt64 then Some(n) else None
  }

  /** The decimal rendering of a natural number (strconv.Itoa). */
  function Decimal(n: nat): (r: string)
    ensures |r| > 0 && AllDigits(r)
  {
    if n < 10 then [('0' as int + n) as char]
    else Decimal(n / 10) + [('0' as int + n % 10) as char]
  }

  lemma {:induction false} DigitsOfDecimal(n: nat)
    ensures DigitsValue(Decimal(n)) == n
  {
    var r := Decimal(n);
    if n >= 10 {
      DigitsOfDecimal(n / 10);
      assert r[..|r| - 1] == Decimal(n / 10);
    }
  }

  /** A non-empty digit string reads as its value when that value fits. */
  lemma AtoiDigits(d: string)
    requires |d| > 0 && AllDigits(d) && DigitsValue(d) <= MaxInt64
    ensures Atoi(d) == Some(DigitsValue(d))
  {
  }

  /** ... and so does the same string after a `+`. */
  lemma AtoiPlusDigits(d: string)
    requires |d| > 0 && AllDigits(d) && DigitsValue(d) <= MaxInt64
    ensures Atoi("+" + d) == Some(DigitsValue(d))
  {
    assert ("+" + d)[1..] == d;
  }

  /** After a `-` it reads as the negated value, down to MinInt64. */
  lemma AtoiMinusDigits(d: string)
    requires |d| > 0 && AllDigits(d) && DigitsValue(d) <= -MinInt64
    ensures Atoi("-" + d) == Some(-(DigitsValue(d) as int))
  {
    assert ("-" + d)[1..] == d;
  }

  /** Atoi reads back what Itoa writes, signs included, over the int64 range. */
  lemma {:induction false} AtoiOfDecimal(n: int)
    requires MinInt64 <= n <= MaxInt64
    ensures n >= 0 ==> Atoi(Decimal(n)) == Some(n)
    ensures n >= 0 ==> Atoi("+" + Decimal(n)) == Some(n)
    ensures Atoi("-" + Decimal(if n >= 0 then n else -n)) == Some(if n > 0 then -n else n)
  {
    var m: nat := if n >= 0 then n else -n;
    DigitsOfDecimal(m);
    if n >= 0 {
      AtoiDigits(Decimal(m));
      AtoiPlusDigits(Decimal(m));
    }
    AtoiMinusDigits(Decimal(m));
  }

  /** Atoi refuses the empty string, a lone sign and a non-digit anywhere
      but in the place of a leading sign. */
  lemma AtoiRejects(s: string)
    requires s == "" || s == "-" || s == "+" ||
             exists i :: 0 <= i < |s| && !IsDigit(s[i]) && (i > 0 || (s[0] != '-' && s[0] != '+'))
    ensures Atoi(s).None?
  {
    if s != "" && s != "-" && s != "+" {
      var i :| 0 <= i < |s| && !IsDigit(s[i]) && (i > 0 || (s[0] != '-' && s[0] != '+'));
      if s[0] == '-' || s[0] == '+' {
        assert s[1..][i - 1] == s[i];
      }
    }
  }

  // ---------------------------------------------------------------------
  // Dig
  // ---------------------------------------------------------------------

  /** The index a path segment names at a list node: an `int`, or a string
      that Atoi accepts. */
  function SegmentIndex(key: Val): Option<int> {
    match key
    case VInt(i) => Some(i)
    case VStr(s) => Atoi(s)
    case _ => None
  }

  /** One step of the walk: only map[string]interface{} and []interface{}
      nodes can be entered. */
  function Step(node: Val, key: Val): Option<Val> {
    match node
    case VMap(m) =>
      if key.VStr? && key.s in m then Some(m[key.s]) else None
    case VList(items) =>
      (match SegmentIndex(key)
       case None => None
       case Some(i) => if 0 <= i < |items| then Some(items[i]) else None)
    case _ => None
  }

  /** The walk that Dig performs; None is the nil that Dig returns, Some(v)
      the pointer to v.  A walk that gets anywhere took only string and int
      segments, and entered containers only. */
  function DigPath(data: Val, path: seq<Val>): (r: Option<Val>)
    ensures r.Some? ==> forall k :: 0 <= k < |path| ==> path[k].VStr? || path[k].VInt?
    ensures r.Some? && path != [] ==> data.VMap? || data.VList?
    decreases |path|
  {
    if path == [] then Some(data)
    else match Step(data, path[0])
      case None => None
      case Some(c) =>
        assert forall k :: 1 <= k < |path| ==> path[k] == path[1..][k - 1];
        DigPath(c, path[1..])
  }

  /** Dig walks the path segment by segment. */
  method Dig(data: Val, path: seq<Val>) returns (found: Option<Val>)
    ensures found == DigPath(data, path)
  {
    var current := data;
    var i := 0;
    while i < |path|
      invariant 0 <= i <= |path|
      invariant DigPath(data, path) == DigPath(current, path[i..])
    {
      assert path[i..][1..] == path[i + 1..];
      var next := Step(current, path[i]);
      if next.None? {
        return None;
      }
      current := next.value;
      i := i + 1;
    }
    return Some(current);
  }

  /** An empty path yields the data itself, whatever it is. */
  lemma DigEmptyPath(data: Val)
    ensures DigPath(data, []) == Some(data)
  {
  }

  /** A map node: a non-string segment or a missing key is absent; a present
      key is found, also when it holds nil. */
  lemma DigMapStep(m: map<string, Val>, key: Val, rest: seq<Val>)
    ensures !key.VStr? ==> DigPath(VMap(m), [key] + rest).None?
    ensures key.VStr? && key.s !in m ==> DigPath(VMap(m), [key] + rest).None?
    ensures key.VStr? && key.s in m ==> DigPath(VMap(m), [key] + rest) == DigPath(m[key.s], rest)
  {
    assert ([key] + rest)[1..] == rest;
  }

  /** A list node: the segment must name an index inside the list, as an
      `int` or as an Atoi string; anything else, a negative index or one at
      or beyond the length, is absent. */
  lemma DigListStep(items: seq<Val>, key: Val, rest: seq<Val>)
    ensures SegmentIndex(key).None? ==> DigPath(VList(items), [key] + rest).None?
    ensures SegmentIndex(key).Some? && !(0 <= SegmentIndex(key).value < |items|) ==>
              DigPath(VList(items), [key] + rest).None?
    ensures SegmentIndex(key).Some? && 0 <= SegmentIndex(key).value < |items| ==>
              DigPath(VList(items), [key] + rest) == DigPath(items[SegmentIndex(key).value], rest)
  {
    assert ([key] + rest)[1..] == rest;
  }

  /** Decimal strings address list elements just like ints. */
  lemma DigListDecimalIndex(items: seq<Val>, i: nat, rest: seq<Val>)
    requires i < |items| && i <= MaxInt64
    ensures DigPath(VList(items), [VStr(Decimal(i))] + rest) == DigPath(items[i], rest)
    ensures DigPath(VList(items), [VInt(i)] + rest) == DigPath(items[i], rest)
  {
    AtoiOfDecimal(i);
    DigListStep(items, VStr(Decimal(i)), rest);
    DigListStep(items, VInt(i), rest);
  }

  /** With segments left, every node other than the two container kinds
      (scalars, nil, pointers, typed maps and slices) is absent. */
  lemma DigThroughScalar(node: Val, path: seq<Val>)
    requires !node.VMap? && !node.VList? && path != []
    ensures DigPath(node, path).None?
  {
  }

  /** Walking p then q is walking p + q; an absent prefix stays absent. */
  lemma {:induction false} DigAppend(data: Val, p: seq<Val>, q: seq<Val>)
    ensures DigPath(data, p + q) ==
              match DigPath(data, p)
              case None => None
              case Some(v) => DigPath(v, q)
    decreases |p|
  {
    if p == [] {
      assert p + q == q;
    } else {
      assert (p + q)[0] == p[0];
      assert (p + q)[1..] == p[1..] + q;
      match Step(data, p[0])
      case None =>
      case Some(c) => DigAppend(c, p[1..], q);
    }
  }

  // ---------------------------------------------------------------------
  // DigAssign
  // ---------------------------------------------------------------------

  /** A reflect.Value as the unwrapping loop sees it. */
  datatype RValue = Invalid | Iface(content: Val) | Concrete(v: Val)

  /** The loop condition: an interface, or a non-nil pointer. */
  predicate Unwrappable(r: RValue) {
    r.Iface? || (r.Concrete? && r.v.VPtr? && r.v.target.Some?)
  }

  /** `val = val.Elem()` */
  function Elem(r: RValue): RValue
    requires Unwrappable(r)
  {
    match r
    case Iface(x) => if x == VNil then Invalid else Concrete(x)
    case Concrete(p) => if p.elem == TAny then Iface(p.target.value) else Concrete(p.target.value)
  }

  /** Layers still to peel: two per pointer, one per interface. */
  function Layers(r: RValue): nat {
    match r
    case Invalid => 0
    case Iface(x) => 2 * PtrDepth(x) + 1
    case Concrete(x) => 2 * PtrDepth(x)
  }

  function PtrDepth(v: Val): nat {
    if v.VPtr? && v.target.Some? then 1 + PtrDepth(v.target.value) else 0
  }

  lemma ElemShrinks(r: RValue)
    requires Unwrappable(r)
    ensures Layers(Elem(r)) < Layers(r)
  {
  }

  /** The value the unwrapping loop ends with, as a function. */
  function Peel(r: RValue): (p: RValue)
    ensures !Unwrappable(p)
    decreases Layers(r)
  {
    if Unwrappable(r) then ElemShrinks(r); Peel(Elem(r)) else r
  }

  /** The unwrapping loop. */
  method Unwrap(r: RValue) returns (p: RValue)
    ensures p == Peel(r)
  {
    p := r;
    while Unwrappable(p)
      invariant Peel(p) == Peel(r)
      decreases Layers(p)
    {
      ElemShrinks(p);
      p := Elem(p);
    }
  }

  /** reflect's AssignableTo, restricted to the modelled types. */
  predicate Assignable(from: GoType, to: GoType) {
    from == to || to == TAny
  }

  predicate IsNumeric(t: GoType) {
    t == TInt || t.TNumber?
  }

  predicate IsInteger(t: GoType) {
    t == TInt || (t.TNumber? && t.kind == Integer)
  }

  predicate IsComplex(t: GoType) {
    t.TNumber? && t.kind == Complex
  }

  /** reflect's ConvertibleTo, restricted to the modelled types: among the
      integer and float kinds, between the two complex kinds, and from an
      integer kind to string.  A complex number never converts to or from
      an integer or a float. */
  predicate Convertible(from: GoType, to: GoType) {
    Assignable(from, to) ||
    (IsNumeric(from) && IsNumeric(to) && IsComplex(from) == IsComplex(to)) ||
    (IsInteger(from) && to == TString)
  }

  function NumericPayload(v: Val): int {
    match v
    case VInt(n) => n
    case VOther(_, p) => p
    case _ => 0
  }

  /** string(rune(n)): a Unicode scalar value, otherwise U+FFFD. */
  function RuneString(n: int): string {
    if 0 <= n < 0xD800 || 0xE000 <= n < 0x11_0000 then [n as char] else "�"
  }

  /** `val.Convert(t)`; the payload of a numeric value carries over unchanged
      (rounding, truncation and wrap-around are not modelled). */
  function Convert(v: Val, to: GoType): (r: Val)
    requires Convertible(TypeOf(v), to)
    ensures HasType(r, to)
  {
    if Assignable(TypeOf(v), to) then v
    else if to == TString then VStr(RuneString(NumericPayload(v)))
    else if to == TInt then VInt(NumericPayload(v))
    else VOther(to, NumericPayload(v))
  }

  /** What happens to the destination: a panic, or its new field values. */
  datatype Outcome = Completed(values: seq<Val>) | Panicked(reason: string)

  /** The destination argument, as reflect.ValueOf(result).Elem() reads it. */
  datatype Dest = NilDest | NonStructDest | StructDest(record: Struct)

  /** Storing the peeled value `val` into the field named `key` of a struct
      with fields `layout` holding `values`: no such field leaves the struct
      as it is, an invalid value panics on Type(), an inconvertible value is
      skipped, storing into an unexported field panics, and otherwise the
      value is stored, converted when its type is not the field's. */
  function AssignField(layout: seq<Field>, values: seq<Val>, key: string, val: RValue): Outcome
    requires |values| == |layout| && !Unwrappable(val)
  {
    match FieldIndex(layout, key)
    case None => Completed(values)
    case Some(i) =>
      if val.Invalid? then Panicked("reflect: call of reflect.Value.Type on zero Value")
      else
        var ft := layout[i].typ;
        var vt := TypeOf(val.v);
        if !Convertible(vt, ft) then Completed(values)
        else if !Exported(key) then Panicked("reflect: reflect.Value.Set using value obtained using unexported field")
        else if Assignable(vt, ft) then Completed(values[i := val.v])
        else Completed(values[i := Convert(val.v, ft)])
  }

  /** The whole of DigAssign on a struct destination. */
  function DigAssignValues(layout: seq<Field>, values: seq<Val>, key: string, data: Val, path: seq<Val>): Outcome
    requires |values| == |layout|
  {
    match DigPath(data, path)
    case None => Completed(values)
    case Some(v) => AssignField(layout, values, key, Peel(Concrete(VPtr(TAny, Some(v)))))
  }

  /** DigAssign: digs, peels pointers and interfaces, then stores into the
      named field if the value is assignable or convertible; a destination
      that is nil or not a struct panics once something is found. */
  method DigAssign(result: Dest, key: string, data: Val, path: seq<Val>) returns (outcome: Outcome)
    requires result.StructDest? ==> result.record.Valid()
    modifies if result.StructDest? then {result.record} else {}
    ensures DigPath(data, path).None? ==> outcome.Completed?
    ensures !result.StructDest? ==> (outcome.Panicked? <==> DigPath(data, path).Some?)
    ensures result.StructDest? ==>
              outcome == DigAssignValues(result.record.layout, old(result.record.values), key, data, path)
    ensures result.StructDest? ==>
              result.record.values == if outcome.Completed? then outcome.values else old(result.record.values)
    ensures result.StructDest? ==> result.record.Valid()
  {
    var found := Dig(data, path);
    if found.None? {
      return Completed(if result.StructDest? then result.record.values else []);
    }
    // `value` is the *interface{} that Dig returns: valid and non-nil.
    var val := Unwrap(Concrete(VPtr(TAny, Some(found.value))));
    if !result.StructDest? {
      return Panicked("reflect: call of reflect.Value.FieldByName on zero Value or non-struct");
    }
    var record := result.record;
    AssignFieldWellTyped(record.layout, record.values, key, val);
    outcome := AssignField(record.layout, record.values, key, val);
    if outcome.Completed? {
      record.values := outcome.values;
    }
  }

  /** Only the named field can change. */
  lemma OnlyNamedFieldChanges(layout: seq<Field>, values: seq<Val>, key: string, data: Val, path: seq<Val>)
    requires |values| == |layout|
    ensures match DigAssignValues(layout, values, key, data, path)
            case Panicked(_) => true
            case Completed(vs) =>
              |vs| == |values| &&
              forall j :: 0 <= j < |vs| && layout[j].name != key ==> vs[j] == values[j]
  {
  }

  /** Nothing found, or no field of that name: the struct is unchanged. */
  lemma UnchangedWhenAbsent(layout: seq<Field>, values: seq<Val>, key: string, data: Val, path: seq<Val>)
    requires |values| == |layout|
    requires DigPath(data, path).None? || FieldIndex(layout, key).None?
    ensures DigAssignValues(layout, values, key, data, path) == Completed(values)
  {
  }

  /** Storing keeps every field at its declared type. */
  lemma AssignFieldWellTyped(layout: seq<Field>, values: seq<Val>, key: string, val: RValue)
    requires WellTyped(layout, values) && !Unwrappable(val)
    ensures match AssignField(layout, values, key, val)
            case Panicked(_) => true
            case Completed(vs) => WellTyped(layout, vs)
  {
    match FieldIndex(layout, key)
    case None =>
    case Some(i) =>
      if val.Concrete? && Convertible(TypeOf(val.v), layout[i].typ) {
        if Assignable(TypeOf(val.v), layout[i].typ) {
          assert HasType(val.v, layout[i].typ);
        }
      }
  }

  /** Peeling one non-nil pointer, and the interface behind it when it
      points to an interface, down to a value that is neither nil nor a
      non-nil pointer leaves that value. */
  lemma {:induction false} PeelPointerTo(elem: GoType, v: Val)
    requires !v.VNil? && !(v.VPtr? && v.target.Some?)
    ensures Peel(Concrete(VPtr(elem, Some(v)))) == Concrete(v)
  {
    var r := Concrete(VPtr(elem, Some(v)));
    ElemShrinks(r);
    assert Peel(Concrete(v)) == Concrete(v);
    if elem == TAny {
      assert Elem(r) == Iface(v);
      ElemShrinks(Iface(v));
      assert Elem(Iface(v)) == Concrete(v);
      assert Peel(Iface(v)) == Peel(Concrete(v));
    } else {
      assert Elem(r) == Concrete(v);
    }
  }

  /** A found value that is neither nil nor a non-nil pointer is stored as
      it is when its type is the field's, and converted when it is only
      convertible (an int into a float64 field, say). */
  lemma {:induction false} DigAssignStores(layout: seq<Field>, values: seq<Val>, key: string, data: Val, path: seq<Val>, i: nat, v: Val)
    requires |values| == |layout|
    requires DigPath(data, path) == Some(v) && !v.VNil? && !(v.VPtr? && v.target.Some?)
    requires FieldIndex(layout, key) == Some(i) && Exported(key)
    ensures TypeOf(v) == layout[i].typ ==>
              DigAssignValues(layout, values, key, data, path) == Completed(values[i := v])
    ensures Convertible(TypeOf(v), layout[i].typ) ==>
              DigAssignValues(layout, values, key, data, path) == Completed(values[i := Convert(v, layout[i].typ)])
    ensures !Convertible(TypeOf(v), layout[i].typ) ==>
              DigAssignValues(layout, values, key, data, path) == Completed(values)
  {
    PeelPointerTo(TAny, v);
  }

  /** A storable value found for an unexported field panics: field.Set
      refuses a field obtained through an unexported name. */
  lemma {:induction false} DigAssignUnexportedPanics(layout: seq<Field>, values: seq<Val>, key: string, data: Val, path: seq<Val>, i: nat, v: Val)
    requires |values| == |layout|
    requires DigPath(data, path) == Some(v) && !v.VNil? && !(v.VPtr? && v.target.Some?)
    requires FieldIndex(layout, key) == Some(i) && !Exported(key)
    requires Convertible(TypeOf(v), layout[i].typ)
    ensures DigAssignValues(layout, values, key, data, path).Panicked?
  {
    PeelPointerTo(TAny, v);
  }

  /** An `int` found for a float64 field is stored converted. */
  lemma DigAssignIntToFloat(layout: seq<Field>, values: seq<Val>, key: string, data: Val, path: seq<Val>, i: nat, n: int)
    requires |values| == |layout|
    requires DigPath(data, path) == Some(VInt(n))
    requires FieldIndex(layout, key) == Some(i) && Exported(key)
    requires layout[i].typ == TNumber("float64", Float)
    ensures DigAssignValues(layout, values, key, data, path) ==
              Completed(values[i := VOther(TNumber("float64", Float), n)])
  {
    DigAssignStores(layout, values, key, data, path, i, VInt(n));
  }

  /** An `int` or a float found for a complex field is not stored: Go
      converts a complex number only to and from the other complex kind. */
  lemma DigAssignRealIntoComplex(layout: seq<Field>, values: seq<Val>, key: string, data: Val, path: seq<Val>, i: nat, v: Val)
    requires |values| == |layout|
    requires DigPath(data, path) == Some(v)
    requires v.VInt? || (v.VOther? && v.typ.TNumber? && v.typ.kind != Complex)
    requires FieldIndex(layout, key) == Some(i) && IsComplex(layout[i].typ)
    ensures DigAssignValues(layout, values, key, data, path) == Completed(values)
  {
    PeelPointerTo(TAny, v);
    assert !Convertible(TypeOf(v), layout[i].typ);
  }

  /** A complex64 value found for a complex128 field is stored converted. */
  lemma DigAssignComplexToComplex(layout: seq<Field>, values: seq<Val>, key: string, data: Val, path: seq<Val>, i: nat, p: int)
    requires |values| == |layout|
    requires DigPath(data, path) == Some(VOther(TNumber("complex64", Complex), p))
    requires FieldIndex(layout, key) == Some(i) && Exported(key)
    requires layout[i].typ == TNumber("complex128", Complex)
    ensures DigAssignValues(layout, values, key, data, path) ==
              Completed(values[i := VOther(TNumber("complex128", Complex), p)])
  {
    DigAssignStores(layout, values, key, data, path, i, VOther(TNumber("complex64", Complex), p));
  }

  /** A map found for a string field is not stored. */
  lemma DigAssignMapIntoString(layout: seq<Field>, values: seq<Val>, key: string, data: Val, path: seq<Val>, i: nat, m: map<string, Val>)
    requires |values| == |layout|
    requires DigPath(data, path) == Some(VMap(m))
    requires FieldIndex(layout, key) == Some(i) && layout[i].typ == TString
    ensures DigAssignValues(layout, values, key, data, path) == Completed(values)
  {
    PeelPointerTo(TAny, VMap(m));
    assert !Convertible(TypeOf(VMap(m)), TString);
    assert AssignField(layout, values, key, Concrete(VMap(m))) == Completed(values);
  }

  /** A found JSON null with a field of that name panics at val.Type(). */
  lemma DigAssignNullPanics(layout: seq<Field>, values: seq<Val>, key: string, data: Val, path: seq<Val>)
    requires |values| == |layout|
    requires DigPath(data, path) == Some(VNil) && FieldIndex(layout, key).Some?
    ensures DigAssignValues(layout, values, key, data, path).Panicked?
  {
    var r := Concrete(VPtr(TAny, Some(VNil)));
    ElemShrinks(r);
    ElemShrinks(Iface(VNil));
    assert Peel(r) == Invalid;
  }

  // ---------------------------------------------------------------------
  // Set
  // ---------------------------------------------------------------------

  /** A set backed by a Go map with empty-struct values; the values carry
      nothing, so the map is its key set. */
  class Set<T(==)> {
    var elems: set<T>

    /** `Set{}` */
    constructor ()
      ensures elems == {}
    {
      elems := {};
    }

    predicate Has(value: T)
      reads this
    {
      value in elems
    }

    method Add(value: T)
      modifies this
      ensures elems == old(elems) + {value}
      ensures Has(value)
      ensures value in old(elems) ==> elems == old(elems)
      ensures forall y :: y != value ==> (Has(y) <==> y in old(elems))
    {
      elems := elems + {value};
    }

    method Remove(value: T)
      modifies this
      ensures elems == old(elems) - {value}
      ensures !Has(value)
      ensures value !in old(elems) ==> elems == old(elems)
      ensures forall y :: y != value ==> (Has(y) <==> y in old(elems))
    {
      elems := elems - {value};
    }

    /** Every member once, in no particular order. */
    method Values() returns (keys: seq<T>)
      ensures forall x :: x in keys <==> Has(x)
      ensures forall i, j :: 0 <= i < j < |keys| ==> keys[i] != keys[j]
      ensures |keys| == |elems|
    {
      keys := [];
      var rest := elems;
      while rest != {}
        invariant rest <= elems
        invariant forall x :: x in keys <==> x in elems && x !in rest
        invariant forall i, j :: 0 <= i < j < |keys| ==> keys[i] != keys[j]
        invariant |keys| + |rest| == |elems|
        decreases |rest|
      {
        var x :| x in rest;
        keys := keys + [x];
        rest := rest - {x};
      }
    }
  }
}

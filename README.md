# sampson-golang/utilities, modelled in Dafny

This project models the behavioural helpers of the Go library
`sampson-golang/utilities` and proves what they promise. Each Go package
is one Dafny module, with one module of shared value types:

- `Values` (values.dfy). Go reflection is replaced by explicit data:
  - `GoType` lists the static types the helpers tell apart;
  - `Val` is a dynamic value held in an `interface{}`: bool, Go `int`,
    string, untyped nil, `map[string]interface{}`, `[]interface{}`, a typed
    pointer, or an opaque value of another type;
  - `Field` declares a struct field;
  - the class `Struct` is a struct reached through a pointer, with a fixed
    `layout` and field `values` that the helpers update in place.
- `Boolable` (boolable.dfy): `From`, `fromPointer` and `falseValues`. Truthiness
  of any value, with the optional dereference flag.
- `Container` (container.dfy):
  - `Dig` walks nested maps and slices, using `strconv.Atoi` for string
    indices;
  - `DigAssign` digs a value, peels pointers and interfaces, then stores it
    into a named struct field, converting it if needed;
  - `Set` is a set over a Go map.
- `Merge` (merge.dfy): `Structs` merges non-empty fields position by position
  (`isEmpty` is the zero-value test). `Params` overwrites map entries.
- `Env` (env.dfy): `Lookup` and `LookupPresent`. Both walk a fallback chain
  over the environment, which is passed in as a map.
- `Strutil` (strutil.dfy): `Squish`. It applies `strings.TrimSpace` (Unicode
  white space), then replaces every run of the regular-expression class `\s`
  (`[\t\n\f\r ]`) with one space.
- `Httputil` (httputil.dfy): `QueryOrBody` harvests request parameters from
  the query string, a JSON body or a form.
- `Networking` (networking.dfy): `AppContext`, `ContextToken` and the
  request-scoped values stored under a token.

Where the Go code loops and updates state, the model is a method with a loop:
- `Dig`;
- the unwrapping loop of `DigAssign`;
- the two merges, whose methods update a `Struct` or `StringMap` in place;
- `Set.Values`;
- the key loops of `QueryOrBody`.

Each such method except `Set.Values` is proved against a specification
function (`DigPath`, `Peel`, `MergeAll`, `MergeParams`, `Chosen`).
`Set.Values` is proved against the set's own contents, the field `elems`.
The Go code that is expressions and recursion becomes functions, with lemmas
about them.

Panics are part of the model. `DigAssign` returns an `Outcome` that is
either the new field values or `Panicked`, in these cases:
- the destination is nil or is not a struct;
- a found JSON null meets an existing field (`val.Type()` on a zero
  `reflect.Value`);
- a value would be stored into an unexported field. A field is exported
  when its name starts with an upper-case letter (`unicode.IsUpper`: the
  letters of Unicode 15.0 in category Lu, `Ä`, `Ω` and `Ж` included).

A source passed to `Structs` or `Params` may be the destination itself.
Merging a value into itself changes nothing, and the contracts account for
that.

Three behaviours of the code differ from what a reader might expect, and the model follows the code:
- `DigAssign` on a found JSON null with a matching field panics. It is not
  a no-op (`DigAssignNullPanics`).
- Appending a non-empty suffix to a false string does not always make it
  true: "n" + "o" is "no" (`ExtendedFalseStringCanBeFalse`).
- With the dereference flag, `From` looks through one pointer, and through
  interfaces behind a pointer to an interface. A pointer to a pointer, even
  a nil one, is true (`FromPointerToOther`). Nested references are not
  followed.

## Model

| member | source | states |
|---|---|---|
| `Boolable.From` | boolable/From.go:38-57 | a true value is never nil, false, 0 or ""; a false value is always a bool, an int, a string, nil or a pointer, so maps, slices, structs and other numbers are never false |
| `Boolable.FromPointer` | boolable/From.go:18-36 | a nil pointer and a nil interface are false; an interface judged true holds neither false, 0 nor "" |
| `Boolable.ToLower` | boolable/From.go:30 | lower-casing keeps the length and maps exactly the ASCII capitals to small letters, character by character |
| `Boolable.FromBool` | boolable/From.go:46-47 | a bool is its own truth, with or without the flag |
| `Boolable.FromInt` | boolable/From.go:48-49 | a Go `int` is true exactly when it is non-zero |
| `Boolable.FromOtherNumber` | boolable/From.go:45-56 | every other numeric kind (int64, uint, float64, complex128, ...) falls to the default case and is true, zero included |
| `Boolable.FromString` | boolable/From.go:50-51 | a string is false exactly when it is one of "", "0", "f", "false", "off", "n", "no" in any mix of letter cases |
| `Boolable.PaddedFalseStringIsTrue` | boolable/From.go:50-51 | there is no trimming: a false string with a space before or after it is true |
| `Boolable.DoubledFalseStringIsTrue` | boolable/From.go:50-51 | two non-empty false strings run together ("nono") are true |
| `Boolable.ExtendedFalseStringCanBeFalse` | boolable/From.go:8-16 | a false string with a suffix can spell another false string ("n" + "o") |
| `Boolable.FromNil` | boolable/From.go:52-53 | nil is false |
| `Boolable.FromComposite` | boolable/From.go:54-55 | maps, slices and other structs are true, even when empty |
| `Boolable.FromNilPointer` | boolable/From.go:18-21 | with the flag absent or true, a nil pointer is false |
| `Boolable.FromPointerToScalar` | boolable/From.go:23-30 | with the flag absent or true, a pointer to a bool, int or string is judged like its pointee |
| `Boolable.FromPointerToInterface` | boolable/From.go:31-32 | a pointer to an interface looks through it: a nil interface is false, a held bool, int or string is judged as such, anything else is true |
| `Boolable.FromPointerToOther` | boolable/From.go:33-34 | a pointer to any other kind (a map, a slice, another pointer) is true |
| `Boolable.FromPointerNoDereference` | boolable/From.go:41-55 | with dereference=false every pointer is true, nil pointers included |
| `Boolable.FlagIgnoredForNonPointers` | boolable/From.go:41-43 | for a value that is not a pointer the flag changes nothing |
| `Container.Atoi` | container/Dig.go:29 | an accepted string has a value within the int64 range, ends in a digit, and starts with '-' when the value is negative |
| `Container.AtoiDigits` | container/Dig.go:29-33 | a non-empty string of digits reads as the number it spells, when that fits in an int64 |
| `Container.AtoiPlusDigits` | container/Dig.go:29-33 | the same digits after a '+' read as the same number |
| `Container.AtoiMinusDigits` | container/Dig.go:29-33 | the same digits after a '-' read as the negated number, down to the least int64 |
| `Container.AtoiOfDecimal` | container/Dig.go:29-33 | Atoi reads back the decimal rendering of every int64, with no sign, with "+" and with "-" |
| `Container.AtoiRejects` | container/Dig.go:29-32 | Atoi refuses the empty string, a lone sign, and every string with a non-digit anywhere other than in the place of a leading sign, one-character strings included |
| `Container.DigPath` | container/Dig.go:11-44 | a walk that reaches a value used only string and int segments, and a walk with segments left only ever enters a map or a list |
| `Container.Dig` | container/Dig.go:9-46 | the loop returns exactly the walk `DigPath` of the whole path: absent as soon as a step fails, otherwise the value reached |
| `Container.DigEmptyPath` | container/Dig.go:45 | an empty path finds the data itself, whatever it is |
| `Container.DigMapStep` | container/Dig.go:13-22 | at a map, a non-string segment or a missing key is absent; a present key (even one holding nil) continues from its value |
| `Container.DigListStep` | container/Dig.go:23-40 | at a list, the segment must be an int or an Atoi string naming an index in range; anything else is absent |
| `Container.DigListDecimalIndex` | container/Dig.go:26-33 | a decimal string addresses the same element as the int it spells |
| `Container.DigThroughScalar` | container/Dig.go:41-42 | with segments left, any node other than a map or list is absent |
| `Container.DigAppend` | container/Dig.go:11-44 | walking p + q is walking p, then q from the value found; an absent prefix stays absent |
| `Container.Peel` | container/DigAssign.go:18-20 | the unwrapped value is neither an interface nor a non-nil pointer |
| `Container.Unwrap` | container/DigAssign.go:18-20 | the unwrapping loop ends with `Peel` of its input |
| `Container.PeelPointerTo` | container/DigAssign.go:18-20 | a non-nil pointer, or a pointer to an interface, around a concrete value peels to that value |
| `Container.Convert` | container/DigAssign.go:30 | a converted value has the field's type |
| `Container.DigAssign` | container/DigAssign.go:10-33 | nothing found: no change and no panic; nil or non-struct destination: panics exactly when something is found; struct destination: the outcome is `DigAssignValues`, whose field values become the struct's, which stays well typed |
| `Container.OnlyNamedFieldChanges` | container/DigAssign.go:22-31 | no field other than the named one ever changes |
| `Container.UnchangedWhenAbsent` | container/DigAssign.go:11-25 | nothing found, or no field of that name: the struct is unchanged |
| `Container.AssignFieldWellTyped` | container/DigAssign.go:27-31 | storing keeps every field at its declared type |
| `Container.DigAssignStores` | container/DigAssign.go:27-31 | a found concrete value is stored as is when its type is the field's, converted when it is only convertible, and not at all otherwise |
| `Container.DigAssignIntToFloat` | container/DigAssign.go:29-30 | an int found for a float64 field is stored converted |
| `Container.DigAssignUnexportedPanics` | container/DigAssign.go:27-30 | a storable value found for a field whose name does not start with an upper-case letter panics on `field.Set` |
| `Container.DigAssignRealIntoComplex` | container/DigAssign.go:27-31 | an int or a float found for a complex64 or complex128 field is not stored, since `ConvertibleTo` refuses it |
| `Container.DigAssignComplexToComplex` | container/DigAssign.go:29-30 | a complex64 value found for a complex128 field is stored converted |
| `Container.DigAssignMapIntoString` | container/DigAssign.go:27-31 | a map found for a string field is not stored |
| `Container.DigAssignNullPanics` | container/DigAssign.go:18-27 | a found JSON null with a field of that name panics |
| `Values.FieldIndex` | container/DigAssign.go:22-25 | the field looked up is the first one of that name; none means no field has it |
| `Values.ExportedCapitals` | container/DigAssign.go:27-30 | a name starting with an ASCII or a non-ASCII capital (`Ärger`, `Ωmega`, `Жuk`, a mathematical bold capital) is exported |
| `Values.UnexportedNames` | container/DigAssign.go:27-30 | the empty name and names starting with a small letter, `_`, a digit or a title-case letter (U+01C5) are not exported |
| `Values.Zero` | container/merge/Structs.go:26 | the zero value of every type is a value of that type |
| `Container.Set.constructor` | container/Set.go:3 | a new set is empty |
| `Container.Set.Add` | container/Set.go:6-8 | afterwards the element is a member; adding a member changes nothing; membership of every other value is unchanged |
| `Container.Set.Remove` | container/Set.go:11-13 | afterwards the element is not a member; removing a non-member changes nothing; membership of every other value is unchanged |
| `Container.Set.Has` | container/Set.go:16-19 | membership of the value in the map's key set; it carries no contract of its own, and the ensures of `Add`, `Remove` and `Values` are stated through it |
| `Container.Set.Values` | container/Set.go:22-28 | lists exactly the members, each once, as many as the set holds |
| `Merge.IsEmpty` | container/merge/Structs.go:25-27 | an empty value has the field's type; an empty bool is false, an empty int 0, an empty string "", an empty interface only nil and an empty pointer only the nil pointer of that type |
| `Merge.MergeAll` | container/merge/Structs.go:8-21 | merging any number of sources keeps one value per field |
| `Merge.MergeSelf` | container/merge/Structs.go:17-19 | merging a struct into itself changes nothing |
| `Merge.MergeZeroSource` | container/merge/Structs.go:17-19 | a source whose fields all hold zero values changes nothing |
| `Merge.MergeAllLastWriter` | container/merge/Structs.go:8-21 | each final field is the value of the last source that is not empty there, or the original value when every source is empty there |
| `Merge.MergeAllIdempotent` | container/merge/Structs.go:8-21 | merging the same sources a second time changes nothing |
| `Merge.MergeAllWellTyped` | container/merge/Structs.go:18 | merging well-typed sources keeps the destination well typed |
| `Merge.MergeStep` | container/merge/Structs.go:8-20 | one turn of the outer loop extends the merge of the earlier sources by the next one; merging the destination into itself leaves the merge as it was |
| `Merge.MergeStruct` | container/merge/Structs.go:12-20 | one source is merged field by field: every non-empty source field overwrites, every empty one leaves the destination field |
| `Merge.Structs` | container/merge/Structs.go:7-22 | the destination ends as `MergeAll` of its old fields and the sources in order (the destination itself left out as a source); with no sources it is unchanged; only the destination is written; it stays well typed |
| `Merge.MergeParams` | container/merge/Params.go:7-11 | no key of the destination or of any source is lost, and every entry of the last source survives unchanged |
| `Merge.MergeParamsLookup` | container/merge/Params.go:7-11 | a key ends up present exactly when it was in the destination or in some source; its value is that of the last source holding it, "" included, or the old value when no source holds it |
| `Merge.MergeParamsOverlay` | container/merge/Params.go:7-11 | the sources act as one right-biased union laid over the destination |
| `Merge.MergeParamsIdempotent` | container/merge/Params.go:7-11 | merging the same sources a second time changes nothing |
| `Merge.MergeParamsEmptySources` | container/merge/Params.go:7-11 | with no sources, or only empty ones, the destination is unchanged |
| `Merge.MergeMap` | container/merge/Params.go:8-10 | one source's entries are all written over the destination |
| `Merge.Params` | container/merge/Params.go:6-12 | the destination ends as `MergeParams` of its old entries and the sources in order (the destination itself left out as a source) |
| `Env.Lookup` | env/Lookup.go:7-23 | a set key, even one set to "", is returned with true; a true flag comes with the value of some variable; a false flag comes with the last fallback, or "" without fallbacks |
| `Env.LookupPresent` | env/LookupPresent.go:3-19 | a key set to a non-empty value is returned with true; a true flag comes with the value of some variable; a false flag comes with the last fallback, or "" without fallbacks |
| `Env.LookupChain` | env/Lookup.go:7-23 | the result is the value of the first set name among the key and every fallback but the last, with true; otherwise the last fallback (or "") with false |
| `Env.LookupFound` | env/Lookup.go:7-23 | found is true exactly when some candidate is set, and the value is then a set candidate's value; otherwise the value is the default |
| `Env.LastFallbackIsLiteral` | env/Lookup.go:22 | a single fallback is returned as a literal with false, even when a variable of that name is set |
| `Env.LookupPresentIsLookup` | env/LookupPresent.go:3-19 | LookupPresent is Lookup over the environment without its empty variables |
| `Env.LookupPresentNotEmpty` | env/LookupPresent.go:6-8 | a value reported present is never empty |
| `Strutil.TrimSpace` | strutil/Squish.go:12 | the result is no longer than the input, has no white space at either end, and is empty exactly when the input is white space throughout |
| `Strutil.Collapse` | strutil/Squish.go:14-15 | replacing runs by one space never lengthens the string |
| `Strutil.Squish` | strutil/Squish.go:10-16 | the result is no longer than the input, and empty exactly when the input is white space throughout |
| `Strutil.TrimLeft` | strutil/Squish.go:12 | removes exactly the leading white space: a suffix of the input, every removed character is white space, the rest starts with a non-space |
| `Strutil.TrimRight` | strutil/Squish.go:12 | removes exactly the trailing white space: a prefix of the input, every removed character is white space, the rest ends with a non-space |
| `Strutil.TrimSpaceFixes` | strutil/Squish.go:12 | a string with no white space at either end is left as it is |
| `Strutil.VisibleTrimSpace` | strutil/Squish.go:12 | trimming removes white space only |
| `Strutil.VisibleCollapse` | strutil/Squish.go:14-15 | collapsing replaces white space by white space only |
| `Strutil.CollapseFirst` | strutil/Squish.go:14-15 | the result is empty only for the empty string, and starts with the input's first character, or a space for a run |
| `Strutil.CollapseLast` | strutil/Squish.go:14-15 | a last character outside `\s` stays last |
| `Strutil.CollapseCollapsed` | strutil/Squish.go:14-15 | in the result every `\s` character is a plain space and no two are adjacent |
| `Strutil.CollapseFixesCollapsed` | strutil/Squish.go:14-15 | a string already in that form is left as it is |
| `Strutil.CollapseRun` | strutil/Squish.go:14-15 | a maximal run of `\s` characters of any length and mixture becomes one space, and the text on each side is collapsed on its own |
| `Strutil.SquishEnds` | strutil/Squish.go:12-15 | the result has no white space at either end |
| `Strutil.SquishCollapsed` | strutil/Squish.go:14-15 | the result has its `\s` characters as single plain spaces, never two adjacent |
| `Strutil.SquishVisible` | strutil/Squish.go:10-16 | every non-white-space character is kept, in order, and none is added |
| `Strutil.SquishIdempotent` | strutil/Squish.go:10-16 | squishing twice is squishing once |
| `Strutil.SquishAllSpace` | strutil/Squish.go:10-16 | empty or all-white-space input gives "" |
| `Strutil.SquishVerticalTab` | strutil/Squish.go:12-15 | a vertical tab is trimmed at the ends but kept inside the text: VT x VT y VT squishes to x VT y for any non-space x, y |
| `Httputil.MediaType` | httputil/QueryOrBody.go:23 | the media type is the longest prefix of the header without ';' |
| `Httputil.MediaTypeNoSeparator` | httputil/QueryOrBody.go:23 | a header without ';' is its own media type |
| `Httputil.MediaTypeParameters` | httputil/QueryOrBody.go:23 | parameters after ';' do not change the media type |
| `Httputil.JsonWithParameters` | httputil/QueryOrBody.go:23-26 | "application/json" followed by ';' and any parameters (a charset, say) is a JSON body |
| `Httputil.JsonMatchIsCaseSensitive` | httputil/QueryOrBody.go:23-26 | the media type is compared as written: "Application/JSON" is not "application/json", so such a body is read as a form |
| `Httputil.Chosen` | httputil/QueryOrBody.go:14-47 | the value reported for a key is its query value or its body value; with no body to read (a GET request, an undecodable JSON body) it is the query value |
| `Httputil.Overlay` | httputil/QueryOrBody.go:13-17 | one loop over the keys writes every requested key whose value is not empty, and keeps every other entry |
| `Httputil.QueryOrBody` | httputil/QueryOrBody.go:11-50 | the error is "invalid JSON" exactly for an undecodable JSON body; the result holds exactly the requested keys whose chosen value is not empty, with that value; the chosen value is the body's when not empty, else the query's, and only the query's on the error path |
| `Httputil.ChosenNonEmpty` | httputil/QueryOrBody.go:14-47 | a key has a value exactly when its query or body value is not empty |
| `Httputil.GetReadsQueryOnly` | httputil/QueryOrBody.go:19-21 | a GET request reads the query string only and never fails |
| `Httputil.BodyOverridesQuery` | httputil/QueryOrBody.go:35-47 | for any other method a non-empty body or form value overrides the query value |
| `Networking.Value` | networking/AppContext.go:21 | a key never bound reads nil, and a non-nil value read was stored somewhere in the chain |
| `Networking.ValueOfNewBinding` | networking/AppContext.go:24-26 | a key reads the value just bound to it |
| `Networking.ValueOfOtherKey` | networking/AppContext.go:24-26 | a binding changes no other key |
| `Networking.ValueShadowed` | networking/AppContext.go:24-26 | a later binding of a key overrides an earlier one, whatever lies between |
| `Networking.ValueUnbound` | networking/AppContext.go:20-22 | a key none of the bindings uses reads nil |
| `Networking.CopyWithContext` | networking/AppContext.go:25 | the copy is a new request with the same head and the new context |
| `Networking.AppContext.GetContext` | networking/AppContext.go:20-22 | a request with an empty context reads nil |
| `Networking.AppContext.SetContext` | networking/AppContext.go:24-26 | a new request with the same head whose context binds the token to the value; the token reads the value, every other token reads what it read before |
| `Networking.AppContext.WithContext` | networking/AppContext.go:12-18 | when the token reads nil, a new request with the token bound; otherwise the very same request; in both cases the context is `BindIfUnset` |
| `Networking.BindIfUnset` | networking/AppContext.go:12-18 | the context is either unchanged or extended by one binding of the token; a non-nil offered value leaves the token reading non-nil; the bound keys grow by the token at most |
| `Networking.BindIfUnsetValue` | networking/AppContext.go:12-18 | afterwards the token reads its old value, or the offered value when it read nil; other tokens are unchanged |
| `Networking.BindIfUnsetKeepsFirst` | networking/AppContext.go:12-18 | once a non-nil value is stored, a second WithContext changes nothing |
| `Networking.BindIfUnsetNil` | networking/AppContext.go:14 | a stored nil counts as absent: a later WithContext still stores its value |
| `Networking.ContextToken.String` | networking/AppContext.go:32-34 | the token's name; it carries no contract of its own, and the ensures of `NewContextToken` are stated through it |
| `Networking.NewContextToken` | networking/AppContext.go:36-38 | a new token whose String() is the given name, "" included |
| `Networking.NewAppContext` | networking/AppContext.go:40-42 | a new handle on a new token of that name, so distinct from every token made before |

## Left out

- `PortInUse` (socket bind, listen and close, plus a process-wide mutex), `Prettify` and `PrettyPrint` (wrappers over `json.MarshalIndent`), and `UnmarshalResponse` (a wrapper over `json.Unmarshal`) are not part of this model. They are I/O, concurrency or library calls.
- The alias table in functions.go is not part of this model. It holds no behaviour.
- JSON decoding: `QueryOrBody` takes the decoded body as an input, or None when decoding fails. `Dig` takes already decoded data.
- Logging: the `log.Println` calls in `QueryOrBody` are dropped.
- Form parsing: `QueryOrBody` takes the first value of each key of the parsed `request.Form` as an input map. `ParseForm` / `ParseMultipartForm` are not modelled.
- The process environment: `os.LookupEnv` is replaced by a map parameter.
- Networking.AppContext: the zero value `AppContext{}` holds a nil token, so every zero handle shares one key, the nil `*ContextToken`, and `String()` on that token panics. The model's handles always come from `NewAppContext`, with a token of their own.
- Context internals: a `Context` is the chain of `context.WithValue` bindings. Deadlines and cancellation are not modelled.
- Reflection itself is replaced by the `GoType`/`Val` datatypes. Named types whose underlying type matches another type are not distinguished.
- Container.Convert: the payload of a numeric value carries over unchanged. Float rounding, integer truncation and wrap-around in `reflect.Value.Convert` are not modelled; float payloads are opaque.
- Container.Convert: convertibility is limited to identical types, interface targets, conversions among the integer and float kinds, conversions between the two complex kinds, and integer-to-string. Other Go conversions (slices to arrays, one named struct type to another, ...) are not modelled.
- Boolable.ToLower: only ASCII letters are lower-cased. For membership in the false strings this is exact, since no other character lower-cases to a letter those strings use. For other strings the result differs from `strings.ToLower`.
- Container.Set.Add, Container.Set.Has and Container.Set.Remove: a key of an unhashable dynamic type (a slice, a map) panics in Go ("hash of unhashable type"). The model takes keys of any equality type.
- Container.Set.Add: keys whose Go equality is not reflexive (NaN, or an interface, struct or array holding a NaN) are not modelled. In Go each Add of such a key makes a new entry, Has never finds it, Remove cannot delete it, and Values lists it once per Add. The model's keys always equal themselves.
- Container.Set.Add: the zero value of `Set` is a nil map, on which `Add` panics. The model's sets are always made by the constructor.
- Merge.Structs: the model requires the destination and every source to be pointers to structs of the same layout, with exported, comparable fields whenever there is a source. Go itself works by field position: it also merges a source of another struct type whose fields line up, or one with extra trailing fields, and the model does not cover those inputs. Go panics on an unexported field (`Interface()`), on an uncomparable value (`==`), on a source with fewer fields, on a source that is not a pointer, and on a non-empty source field whose type cannot be assigned to the destination field's type, possibly after some fields were merged.
- Container.DigAssign: a cyclic pointer or interface value (an `any` variable holding a pointer to itself), on which Go's unwrapping loop never ends, cannot be expressed: a `Val` is finite, so `Peel` always terminates.
- Values.FieldIndex: `FieldByName` also finds fields promoted from embedded structs. The model's flat `Field` layout has no embedded structs, so promoted fields are not modelled.
- Values.IsUpper: the upper-case letters are those of Unicode 15.0, the table of Go 1.21 and later. Older Go releases ship older tables, which differ for recently added capitals.
- Merge.Structs: values are compared and copied as values. Pointer identity (a pointer field copied by reference, and aliasing between distinct field pointers) is not modelled.
- Merge.Params: a nil destination map panics in Go on its first write. The model's destination is always a map.
- Go's `int` is treated as unbounded in `Dig` indices and `From`. Only `strconv.Atoi` is bounded to the int64 range.
- Strings are sequences of Unicode scalar values. Invalid UTF-8 byte sequences are not modelled.

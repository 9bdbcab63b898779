/** In-place merges of structs and of string maps (package merge). */
module Merge {
  import opened Values

  // ---------------------------------------------------------------------
  // Structs
  // ---------------------------------------------------------------------

  /** What isEmpty needs of every field: reading a field through
      Interface() panics when it is unexported, and `==` panics when its
      type is not comparable. */
  predicate Mergeable(layout: seq<Field>) {
    forall i :: 0 <= i < |layout| ==> Exported(layout[i].name) && Comparable(layout[i].typ)
  }

  /** isEmpty: the field holds its type's zero value.  For an interface
      field only the nil interface is empty. */
  predicate IsEmpty(v: Val, f: Field)
    requires Exported(f.name) && Comparable(f.typ)
    ensures IsEmpty(v, f) ==> HasType(v, f.typ)
    ensures f.typ == TBool ==> (IsEmpty(v, f) <==> v == VBool(false))
    ensures f.typ == TInt ==> (IsEmpty(v, f) <==> v == VInt(0))
    ensures f.typ == TString ==> (IsEmpty(v, f) <==> v == VStr(""))
    ensures f.typ == TAny ==> (IsEmpty(v, f) <==> v == VNil)
    ensures f.typ.TPtr? ==> (IsEmpty(v, f) <==> v == VPtr(f.typ.elem, None))
  {
    v == Zero(f.typ)
  }

  /** Every sequence of field values has one value per field. */
  predicate Shaped(layout: seq<Field>, srcs: seq<seq<Val>>) {
    forall k :: 0 <= k < |srcs| ==> |srcs[k]| == |layout|
  }

  /** One source applied to the destination: every non-empty source field
      overwrites the destination field at the same position. */
  function MergeFields(layout: seq<Field>, dest: seq<Val>, src: seq<Val>): (r: seq<Val>)
    requires Mergeable(layout) && |dest| == |layout| && |src| == |layout|
    ensures |r| == |layout|
  {
    seq(|layout|, i requires 0 <= i < |layout| => if IsEmpty(src[i], layout[i]) then dest[i] else src[i])
  }

  /** The sources applied left to right. */
  function MergeAll(layout: seq<Field>, dest: seq<Val>, srcs: seq<seq<Val>>): (r: seq<Val>)
    requires srcs == [] || Mergeable(layout)
    requires |dest| == |layout| && Shaped(layout, srcs)
    ensures |r| == |layout|
    decreases |srcs|
  {
    if srcs == [] then dest
    else MergeAll(layout, MergeFields(layout, dest, srcs[0]), srcs[1..])
  }

  /** Reference definition: the last source whose field `i` is not empty. */
  function LastNonEmpty(layout: seq<Field>, srcs: seq<seq<Val>>, i: nat): (r: Option<nat>)
    requires Mergeable(layout) && Shaped(layout, srcs) && i < |layout|
    ensures r.None? ==> forall k :: 0 <= k < |srcs| ==> IsEmpty(srcs[k][i], layout[i])
    ensures r.Some? ==> r.value < |srcs| && !IsEmpty(srcs[r.value][i], layout[i])
    ensures r.Some? ==> forall l :: r.value < l < |srcs| ==> IsEmpty(srcs[l][i], layout[i])
    decreases |srcs|
  {
    if srcs == [] then None
    else if !IsEmpty(srcs[|srcs| - 1][i], layout[i]) then Some(|srcs| - 1)
    else LastNonEmpty(layout, srcs[..|srcs| - 1], i)
  }

  /** Merging a struct into itself changes nothing. */
  lemma MergeSelf(layout: seq<Field>, dest: seq<Val>)
    requires Mergeable(layout) && |dest| == |layout|
    ensures MergeFields(layout, dest, dest) == dest
  {
  }

  lemma {:induction false} MergeAllSnoc(layout: seq<Field>, dest: seq<Val>, srcs: seq<seq<Val>>, last: seq<Val>)
    requires Mergeable(layout) && |dest| == |layout| && |last| == |layout| && Shaped(layout, srcs)
    ensures MergeAll(layout, dest, srcs + [last]) == MergeFields(layout, MergeAll(layout, dest, srcs), last)
    decreases |srcs|
  {
    if srcs == [] {
      assert [] + [last] == [last];
    } else {
      assert (srcs + [last])[1..] == srcs[1..] + [last];
      MergeAllSnoc(layout, MergeFields(layout, dest, srcs[0]), srcs[1..], last);
    }
  }

  /** Each final field is the value of the last source that is not empty
      there, or the original value when every source is empty there. */
  lemma {:induction false} MergeAllLastWriter(layout: seq<Field>, dest: seq<Val>, srcs: seq<seq<Val>>, i: nat)
    requires Mergeable(layout) && |dest| == |layout| && Shaped(layout, srcs) && i < |layout|
    ensures MergeAll(layout, dest, srcs)[i] ==
              match LastNonEmpty(layout, srcs, i)
              case None => dest[i]
              case Some(k) => srcs[k][i]
    decreases |srcs|
  {
    if srcs != [] {
      var front := srcs[..|srcs| - 1];
      var last := srcs[|srcs| - 1];
      assert srcs == front + [last];
      MergeAllSnoc(layout, dest, front, last);
      MergeAllLastWriter(layout, dest, front, i);
    }
  }

  /** Merging the same sources a second time changes nothing. */
  lemma MergeAllIdempotent(layout: seq<Field>, dest: seq<Val>, srcs: seq<seq<Val>>)
    requires Mergeable(layout) && |dest| == |layout| && Shaped(layout, srcs)
    ensures MergeAll(layout, MergeAll(layout, dest, srcs), srcs) == MergeAll(layout, dest, srcs)
  {
    var once := MergeAll(layout, dest, srcs);
    forall i | 0 <= i < |layout|
      ensures MergeAll(layout, once, srcs)[i] == once[i]
    {
      MergeAllLastWriter(layout, dest, srcs, i);
      MergeAllLastWriter(layout, once, srcs, i);
    }
  }

  /** A source whose fields are all zero values leaves the destination as it was. */
  lemma MergeZeroSource(layout: seq<Field>, dest: seq<Val>, src: seq<Val>)
    requires Mergeable(layout) && |dest| == |layout| && |src| == |layout|
    requires forall i :: 0 <= i < |layout| ==> src[i] == Zero(layout[i].typ)
    ensures MergeFields(layout, dest, src) == dest
  {
  }

  /** Merging well-typed sources keeps the destination well-typed. */
  lemma {:induction false} MergeAllWellTyped(layout: seq<Field>, dest: seq<Val>, srcs: seq<seq<Val>>)
    requires Mergeable(layout) && WellTyped(layout, dest) && Shaped(layout, srcs)
    requires forall k :: 0 <= k < |srcs| ==> WellTyped(layout, srcs[k])
    ensures WellTyped(layout, MergeAll(layout, dest, srcs))
    decreases |srcs|
  {
    if srcs != [] {
      MergeAllWellTyped(layout, MergeFields(layout, dest, srcs[0]), srcs[1..]);
    }
  }

  /** The field values of the sources in order, leaving out every source that
      is the destination itself: merging a struct into itself is a no-op
      (MergeSelf), whatever the destination holds by then. */
  ghost function SourceValues(layout: seq<Field>, from: seq<Struct>, into: Struct): (r: seq<seq<Val>>)
    requires forall k :: 0 <= k < |from| ==> from[k].layout == layout && from[k].Valid()
    reads set k | 0 <= k < |from| :: from[k]
    ensures |r| <= |from|
    ensures Shaped(layout, r)
    ensures forall k :: 0 <= k < |r| ==> WellTyped(layout, r[k])
  {
    if from == [] then []
    else
      var front := SourceValues(layout, from[..|from| - 1], into);
      var last := from[|from| - 1];
      assert last.Valid();
      if last == into then front
      else
        var r := front + [last.values];
        assert forall k :: 0 <= k < |r| ==> r[k] == if k < |front| then front[k] else last.values;
        r
  }

  /** The inner loop of Structs: merge one source, field by field. */
  method MergeStruct(into: Struct, src: Struct)
    requires into.Valid() && src.layout == into.layout && src.Valid() && Mergeable(into.layout)
    modifies into
    ensures into.values == MergeFields(into.layout, old(into.values), old(src.values))
    ensures into.Valid()
  {
    ghost var acc := into.values;
    ghost var snap := src.values;
    var i := 0;
    while i < |into.layout|
      invariant 0 <= i <= |into.layout|
      invariant |into.values| == |into.layout|
      invariant src == into ==> snap == acc
      invariant src != into ==> src.values == snap
      invariant forall j :: 0 <= j < |into.layout| ==>
                  into.values[j] == if j < i && !IsEmpty(snap[j], into.layout[j]) then snap[j] else acc[j]
    {
      if !IsEmpty(src.values[i], into.layout[i]) {
        into.values := into.values[i := src.values[i]];
      }
      i := i + 1;
    }
    assert into.values == MergeFields(into.layout, acc, snap);
    if src == into {
      MergeSelf(into.layout, acc);
    }
    MergeAllWellTyped(into.layout, acc, [snap]);
  }

  /** One turn of the Structs loop: merging the next source, or the
      destination into itself, extends the merge of the earlier sources. */
  lemma MergeStep(layout: seq<Field>, dest: seq<Val>, before: seq<seq<Val>>, acc: seq<Val>,
                  src: seq<Val>, after: seq<Val>, isSelf: bool)
    requires Mergeable(layout) && |dest| == |layout| && |src| == |layout| && Shaped(layout, before)
    requires acc == MergeAll(layout, dest, before)
    requires after == MergeFields(layout, acc, if isSelf then acc else src)
    ensures after == MergeAll(layout, dest, if isSelf then before else before + [src])
  {
    if isSelf {
      MergeSelf(layout, acc);
    } else {
      MergeAllSnoc(layout, dest, before, src);
    }
  }

  /** Structs: for each source in turn, copy each non-empty field. */
  method Structs(into: Struct, from: seq<Struct>)
    requires into.Valid()
    requires forall k :: 0 <= k < |from| ==> from[k].layout == into.layout && from[k].Valid()
    requires |from| > 0 ==> Mergeable(into.layout)
    modifies into
    ensures into.values == MergeAll(into.layout, old(into.values), old(SourceValues(into.layout, from, into)))
    ensures into.Valid()
  {
    var k := 0;
    ghost var done: seq<seq<Val>> := [];
    while k < |from|
      invariant 0 <= k <= |from|
      invariant into.Valid()
      invariant done == old(SourceValues(into.layout, from[..k], into))
      invariant into.values == MergeAll(into.layout, old(into.values), done)
    {
      var src := from[k];
      assert from[..k + 1][..k] == from[..k];
      ghost var next := if src == into then done else done + [old(src.values)];
      assert next == old(SourceValues(into.layout, from[..k + 1], into));
      ghost var acc := into.values;
      MergeStruct(into, src);
      MergeStep(into.layout, old(into.values), done, acc, old(src.values), into.values, src == into);
      done := next;
      k := k + 1;
    }
    assert from[..|from|] == from;
  }

  // ---------------------------------------------------------------------
  // Params
  // ---------------------------------------------------------------------

  /** A Go map[string]string: a reference, updated in place. */
  class StringMap {
    var entries: map<string, string>

    constructor (entries: map<string, string>)
      ensures this.entries == entries
    {
      this.entries := entries;
    }
  }

  /** The sources applied left to right, each entry unconditionally: no
      key is lost, and the last source's entries all survive. */
  function MergeParams(dest: map<string, string>, srcs: seq<map<string, string>>): (r: map<string, string>)
    ensures dest.Keys <= r.Keys
    ensures forall k :: 0 <= k < |srcs| ==> srcs[k].Keys <= r.Keys
    ensures srcs != [] ==> forall key :: key in srcs[|srcs| - 1] ==> r[key] == srcs[|srcs| - 1][key]
    decreases |srcs|
  {
    if srcs == [] then dest
    else
      assert forall k :: 1 <= k < |srcs| ==> srcs[k] == srcs[1..][k - 1];
      MergeParams(dest + srcs[0], srcs[1..])
  }

  /** Reference definition: the last source holding `key`. */
  function LastHolder(srcs: seq<map<string, string>>, key: string): (r: Option<nat>)
    ensures r.None? ==> forall k :: 0 <= k < |srcs| ==> key !in srcs[k]
    ensures r.Some? ==> r.value < |srcs| && key in srcs[r.value]
    ensures r.Some? ==> forall l :: r.value < l < |srcs| ==> key !in srcs[l]
    decreases |srcs|
  {
    if srcs == [] then None
    else if key in srcs[|srcs| - 1] then Some(|srcs| - 1)
    else LastHolder(srcs[..|srcs| - 1], key)
  }

  lemma {:induction false} MergeParamsSnoc(dest: map<string, string>, srcs: seq<map<string, string>>, last: map<string, string>)
    ensures MergeParams(dest, srcs + [last]) == MergeParams(dest, srcs) + last
    decreases |srcs|
  {
    if srcs == [] {
      assert [] + [last] == [last];
    } else {
      assert (srcs + [last])[1..] == srcs[1..] + [last];
      MergeParamsSnoc(dest + srcs[0], srcs[1..], last);
    }
  }

  /** A key is in the result exactly when it was in the destination or in
      some source; its value is the last source's holding it, or the old
      value when no source holds it. */
  lemma {:induction false} MergeParamsLookup(dest: map<string, string>, srcs: seq<map<string, string>>, key: string)
    ensures key in MergeParams(dest, srcs) <==> key in dest || LastHolder(srcs, key).Some?
    ensures key in MergeParams(dest, srcs) ==>
              MergeParams(dest, srcs)[key] ==
                match LastHolder(srcs, key)
                case None => dest[key]
                case Some(k) => srcs[k][key]
    decreases |srcs|
  {
    if srcs != [] {
      var front := srcs[..|srcs| - 1];
      var last := srcs[|srcs| - 1];
      assert srcs == front + [last];
      MergeParamsSnoc(dest, front, last);
      MergeParamsLookup(dest, front, key);
    }
  }

  /** Map override is associative. */
  lemma OverrideAssoc(a: map<string, string>, b: map<string, string>, c: map<string, string>)
    ensures (a + b) + c == a + (b + c)
  {
  }

  /** The sources act as one map, their right-biased union, laid over the
      destination. */
  lemma {:induction false} MergeParamsOverlay(dest: map<string, string>, srcs: seq<map<string, string>>)
    ensures MergeParams(dest, srcs) == dest + MergeParams(map[], srcs)
    decreases |srcs|
  {
    if srcs == [] {
      assert dest + map[] == dest;
    } else {
      MergeParamsOverlay(dest + srcs[0], srcs[1..]);
      MergeParamsOverlay(map[] + srcs[0], srcs[1..]);
      assert map[] + srcs[0] == srcs[0];
      OverrideAssoc(dest, srcs[0], MergeParams(map[], srcs[1..]));
    }
  }

  /** Merging the same sources a second time changes nothing. */
  lemma MergeParamsIdempotent(dest: map<string, string>, srcs: seq<map<string, string>>)
    ensures MergeParams(MergeParams(dest, srcs), srcs) == MergeParams(dest, srcs)
  {
    var u := MergeParams(map[], srcs);
    MergeParamsOverlay(dest, srcs);
    MergeParamsOverlay(dest + u, srcs);
    OverrideAssoc(dest, u, u);
    assert u + u == u;
  }

  /** No sources, or only empty ones: the destination is unchanged. */
  lemma {:induction false} MergeParamsEmptySources(dest: map<string, string>, srcs: seq<map<string, string>>)
    requires forall k :: 0 <= k < |srcs| ==> srcs[k] == map[]
    ensures MergeParams(dest, srcs) == dest
    decreases |srcs|
  {
    if srcs != [] {
      assert dest + srcs[0] == dest;
      MergeParamsEmptySources(dest, srcs[1..]);
    }
  }

  /** The entries of the sources in order, leaving out every source that is
      the destination itself: writing a map's entries into itself is a no-op. */
  ghost function SourceEntries(from: seq<StringMap>, into: StringMap): (r: seq<map<string, string>>)
    reads set k | 0 <= k < |from| :: from[k]
    ensures |r| <= |from|
  {
    if from == [] then []
    else
      var front := SourceEntries(from[..|from| - 1], into);
      var last := from[|from| - 1];
      if last == into then front else front + [last.entries]
  }

  /** The entries of `m` whose keys are in `ks`. */
  function Restrict(m: map<string, string>, ks: set<string>): (r: map<string, string>)
    ensures r.Keys == m.Keys * ks
    ensures forall k :: k in r ==> r[k] == m[k]
  {
    map k | k in m && k in ks :: m[k]
  }

  /** Writing the entry of one more key of `data` (taken out of the keys
      still to write) extends the restriction by that key. */
  lemma RestrictStep(acc: map<string, string>, data: map<string, string>, keys: set<string>, key: string)
    requires key in keys && keys <= data.Keys
    ensures (acc + Restrict(data, data.Keys - keys))[key := data[key]] == acc + Restrict(data, data.Keys - (keys - {key}))
  {
    assert data.Keys - (keys - {key}) == data.Keys - keys + {key};
  }

  /** The inner loop of Params: write every entry of one source. */
  method MergeMap(into: StringMap, src: StringMap)
    modifies into
    ensures into.entries == old(into.entries) + old(src.entries)
  {
    ghost var acc := into.entries;
    var data := src.entries;
    var keys := data.Keys;
    while keys != {}
      invariant keys <= data.Keys
      invariant into.entries == acc + Restrict(data, data.Keys - keys)
      decreases |keys|
    {
      var key :| key in keys;
      RestrictStep(acc, data, keys, key);
      into.entries := into.entries[key := data[key]];
      keys := keys - {key};
    }
    assert Restrict(data, data.Keys) == data;
  }

  /** Params: for each source in turn, write all of its entries into the
      destination. */
  method Params(into: StringMap, from: seq<StringMap>)
    modifies into
    ensures into.entries == MergeParams(old(into.entries), old(SourceEntries(from, into)))
  {
    var k := 0;
    while k < |from|
      invariant 0 <= k <= |from|
      invariant into.entries == MergeParams(old(into.entries), old(SourceEntries(from[..k], into)))
    {
      var src := from[k];
      ghost var acc := into.entries;
      MergeMap(into, src);
      assert from[..k + 1][..k] == from[..k];
      if src == into {
        assert acc + acc == acc;
      } else {
        MergeParamsSnoc(old(into.entries), old(SourceEntries(from[..k], into)), old(src.entries));
      }
      k := k + 1;
    }
    assert from[..|from|] == from;
  }
}

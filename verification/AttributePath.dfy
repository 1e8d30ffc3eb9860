/** Writing an attribute with its type and reading it back as an attribute report is read:
    by field id, shifting an epoch at the top only. */
module AttributePath {
  import opened Wrappers
  import opened Json
  import opened Idl
  import opened Decimal
  import opened TlvDecode
  import opened TlvEncode
  import opened Spelling
  import opened ReadById
  import opened ReadByName
  import opened Reports

  /** The value with its known fields keyed by id, at every depth. */
  ghost function Numbered(v: Value, hint: Option<TypeHint>): Value
    decreases v, 2
  {
    if hint.None? then RespellUntyped(v)
    else
      var h := hint.value;
      if h.isList then if v.Arr? then Arr(NumberedItems(v.items, h.(isList := false))) else v
      else if BaseType(h.ty).Some? then v
      else if StructOf(h).Some? && v.Obj? then
        NumberedStruct(v, NestedKeys(v.fields, StructOf(h).value, h.cluster.value))
      else RespellUntyped(v)
  }

  ghost function NumberedItems(vs: seq<Value>, h: TypeHint): (r: seq<Value>)
    ensures |r| == |vs|
    decreases vs, 0
  {
    if vs == [] then [] else NumberedItems(vs[..|vs| - 1], h) + [Numbered(vs[|vs| - 1], Some(h))]
  }

  ghost function NumberedStruct(v: Value, keys: Keys): Value
    requires v.Obj?
    decreases v, 1
  {
    if Resolves(keys, v.fields) then Obj(NumberedMembers(v, keys, 256)) else v
  }

  ghost function NumberedMembers(v: Value, keys: Keys, n: nat): map<string, Value>
    requires v.Obj? && n <= 256 && Resolves(keys, v.fields)
    decreases v, 0, n
  {
    if n == 0 then map[]
    else
      var done := NumberedMembers(v, keys, n - 1);
      match EntryAt(v, keys, n - 1)
      case None => done
      case Some(en) => done[Show(n - 1) := Numbered(en.value, en.hint)]
  }

  /** No slot of an epoch type, at any depth, holds anything but null. */
  ghost predicate EpochFree(v: Value, hint: Option<TypeHint>)
    decreases v, 2
  {
    hint.Some? ==>
      var h := hint.value;
      if h.isList then v.Arr? ==> EpochFreeItems(v.items, h.(isList := false))
      else if BaseType(h.ty).Some? then EpochOffset(h.ty) == 0 || v.Null?
      else StructOf(h).Some? && v.Obj? ==> EpochFreeStruct(v, NestedKeys(v.fields, StructOf(h).value, h.cluster.value))
  }

  ghost predicate EpochFreeItems(vs: seq<Value>, h: TypeHint)
    decreases vs, 0
  {
    vs == [] || (EpochFreeItems(vs[..|vs| - 1], h) && EpochFree(vs[|vs| - 1], Some(h)))
  }

  ghost predicate EpochFreeStruct(v: Value, keys: Keys)
    requires v.Obj?
    decreases v, 1
  {
    Resolves(keys, v.fields) ==> EpochFreeBelow(v, keys, 256)
  }

  ghost predicate EpochFreeBelow(v: Value, keys: Keys, n: nat)
    requires v.Obj? && Resolves(keys, v.fields) && n <= 256
    decreases v, 0, n
  {
    n == 0 ||
    (EpochFreeBelow(v, keys, n - 1) &&
     match EntryAt(v, keys, n - 1)
     case None => true
     case Some(en) => EpochFree(en.value, en.hint))
  }

  /** `r` is what was read of `v`: something exactly when it nests within `levels`, and then
      the value itself by ids exactly when nothing in it is an epoch. */
  ghost predicate ReadOf(r: Option<Value>, v: Value, hint: Option<TypeHint>, levels: int) {
    (r.Some? <==> Within(v, levels)) && (r.Some? ==> (r.value == Numbered(v, hint) <==> EpochFree(v, hint)))
  }

  lemma {:induction false} ReadBack(v: Value, hint: Option<TypeHint>, d: nat)
    requires Encode(v, hint).Some?
    ensures ReadOf(Decode(Encode(v, hint).value, d), v, hint, MAX_DEPTH - d)
    decreases v, 3
  {
    hide *;
    if hint.None? {
      UntypedReadBack(v, d);
    } else {
      var h := hint.value;
      if h.isList {
        ListReadBack(v, h, d);
      } else if BaseType(h.ty).Some? {
        BaseReadBack(v, h, d);
      } else if StructOf(h).Some? {
        StructReadBack(v, h, d);
      } else {
        ShapeReadBack(v, h, d);
      }
    }
  }

  lemma {:induction false} UntypedReadBack(v: Value, d: nat)
    requires Encode(v, None).Some?
    ensures ReadOf(Decode(Encode(v, None).value, d), v, None, MAX_DEPTH - d)
  {
    hide EncodeUntyped, Decode, RespellUntyped, Within;
    DecodeUntyped(v, d);
  }

  lemma {:induction false} ShapeReadBack(v: Value, h: TypeHint, d: nat)
    requires !h.isList && BaseType(h.ty).None? && StructOf(h).None?
    requires Encode(v, Some(h)).Some?
    ensures ReadOf(Decode(Encode(v, Some(h)).value, d), v, Some(h), MAX_DEPTH - d)
  {
    hide BaseType, StructOf, EncodeTyped, EncodeUntyped, Decode, RespellTyped, RespellUntyped, Within;
    WrittenByShape(v, h);
    DecodeUntyped(v, d);
  }

  lemma {:induction false} BaseReadBack(v: Value, h: TypeHint, d: nat)
    requires !h.isList && BaseType(h.ty).Some?
    requires Encode(v, Some(h)).Some?
    ensures ReadOf(Decode(Encode(v, Some(h)).value, d), v, Some(h), MAX_DEPTH - d)
  {
    hide FindBase, EncodeBase;
    assert Encode(v, Some(h)) == EncodeTyped(v, h);
    if !v.Null? {
      BaseIsFlat(v, BaseType(h.ty).value);
      if d <= MAX_DEPTH {
        BaseBack(v, h.ty, d);
      } else {
        TooDeep(v, BaseType(h.ty).value, d);
      }
    }
  }

  lemma {:induction false} ListReadBack(v: Value, h: TypeHint, d: nat)
    requires h.isList && Encode(v, Some(h)).Some?
    ensures ReadOf(Decode(Encode(v, Some(h)).value, d), v, Some(h), MAX_DEPTH - d)
    decreases v, 2
  {
    hide BaseType, StructOf, EncodeTyped, NumberedItems, EpochFreeItems, EncodeItems, DecodeItems, AllWithin;
    if v.Arr? {
      hide Within;
      ArrayWithin(v.items, MAX_DEPTH - d);
      ItemsReadBack(v.items, h.(isList := false), d + 1);
    }
  }

  lemma {:induction false} ItemsReadBack(vs: seq<Value>, h: TypeHint, d: nat)
    requires EncodeItems(vs, Some(h)).Some?
    ensures var r := DecodeItems(EncodeItems(vs, Some(h)).value, d);
            && (r.Some? <==> AllWithin(vs, MAX_DEPTH - d))
            && (r.Some? ==> (r.value == NumberedItems(vs, h) <==> EpochFreeItems(vs, h)))
    decreases vs, 0
  {
    hide Within, Encode, Decode, Numbered, EpochFree;
    if vs != [] {
      var front, last := vs[..|vs| - 1], vs[|vs| - 1];
      ItemsReadBack(front, h, d);
      ReadBack(last, Some(h), d);
      assert EncodeItems(vs, Some(h)).value[..|vs| - 1] == EncodeItems(front, Some(h)).value;
      assert NumberedItems(vs, h)[..|vs| - 1] == NumberedItems(front, h);
    }
  }

  lemma {:induction false} StructReadBack(v: Value, h: TypeHint, d: nat)
    requires !h.isList && BaseType(h.ty).None? && StructOf(h).Some?
    requires Encode(v, Some(h)).Some?
    ensures ReadOf(Decode(Encode(v, Some(h)).value, d), v, Some(h), MAX_DEPTH - d)
    decreases v, 2
  {
    hide BaseType, FindStruct, EncodeStruct, NumberedStruct, EpochFreeStruct, NestedKeys;
    if !v.Null? {
      hide Within;
      ObjectReadBack(v, NestedKeys(v.fields, StructOf(h).value, h.cluster.value), d);
    }
  }

  lemma {:induction false} ObjectReadBack(v: Value, keys: Keys, d: nat)
    requires v.Obj? && EncodeStruct(v, keys).Some?
    ensures var r := Decode(EncodeStruct(v, keys).value, d);
            && (r.Some? <==> Within(v, MAX_DEPTH - d))
            && (r.Some? ==> (r.value == NumberedStruct(v, keys) <==> EpochFreeStruct(v, keys)))
    decreases v, 1
  {
    hide EncodeMembers, DecodeMembers, NumberedMembers, EpochFreeBelow, WithinBelow, EntryAt, Resolves;
    if d <= MAX_DEPTH {
      WithinAll(v, keys, MAX_DEPTH - d - 1);
      MembersReadBack(v, keys, 256, d + 1);
    }
  }

  lemma {:induction false} MembersReadBack(v: Value, keys: Keys, n: nat, d: nat)
    requires v.Obj? && n <= 256 && Resolves(keys, v.fields)
    requires EncodeMembers(v, keys, n).Some?
    ensures var r, p := DecodeMembers(EncodeMembers(v, keys, n).value, d), NumberedMembers(v, keys, n);
            && (r.Some? <==> WithinBelow(v, keys, n, MAX_DEPTH - d))
            && (r.Some? ==> r.value.Keys == p.Keys && (r.value == p <==> EpochFreeBelow(v, keys, n)))
            && forall i: nat :: i >= n ==> Show(i) !in p
    decreases v, 0, n
  {
    hide Encode, Decode, Numbered, EpochFree, Resolve, Within, Show;
    if n > 0 {
      MembersReadBack(v, keys, n - 1, d);
      var last: Byte := n - 1;
      var en := EntryAt(v, keys, last);
      if en.Some? {
        var ms := EncodeMembers(v, keys, n).value;
        assert ms[..|ms| - 1] == EncodeMembers(v, keys, n - 1).value;
        ReadBack(en.value.value, en.value.hint, d);
        var r, x := DecodeMembers(ms[..|ms| - 1], d), Decode(ms[|ms| - 1].value, d);
        if r.Some? && x.Some? {
          UpdatedMapsEqual(r.value, NumberedMembers(v, keys, n - 1), Show(last), x.value,
                           Numbered(en.value.value, en.value.hint));
        }
        forall i: nat | i >= n ensures Show(i) != Show(last) {
          if Show(i) == Show(last) {
            ShowInjective(i, last);
          }
        }
      }
    }
  }

  /** An attribute written with its type is read back as it was, its known fields keyed by
      id, exactly when it nests within the reader's limit and is a scalar of a base type, an
      epoch included, or holds no epoch at all: one below the top comes back unshifted. */
  lemma {:induction false} AttributeRoundTrip(types: AttrTypes, cluster: nat, attr: nat, v: Value, h: TypeHint)
    requires types(cluster, attr) == h.ty && Encode(v, Some(h)).Some?
    ensures AttrValueToJson(types, cluster, attr, Encode(v, Some(h)).value) == Some(Numbered(v, Some(h))) <==>
            Within(v, 32) && ((!h.isList && BaseType(h.ty).Some?) || EpochFree(v, Some(h)))
  {
    hide *;
    DepthCap();
    ReadBack(v, Some(h), 0);
    if !h.isList && BaseType(h.ty).Some? {
      ScalarAttribute(types, cluster, attr, v, h);
    } else {
      ShapedAttribute(types, cluster, attr, v, h);
    }
  }

  lemma {:induction false} ScalarAttribute(types: AttrTypes, cluster: nat, attr: nat, v: Value, h: TypeHint)
    requires types(cluster, attr) == h.ty && !h.isList && BaseType(h.ty).Some? && Encode(v, Some(h)).Some?
    ensures AttrValueToJson(types, cluster, attr, Encode(v, Some(h)).value) == Some(v) == Some(Numbered(v, Some(h)))
    ensures Within(v, MAX_DEPTH)
  {
    hide FindBase, EncodeBase;
    assert Encode(v, Some(h)) == EncodeTyped(v, h);
    if !v.Null? {
      BaseIsFlat(v, BaseType(h.ty).value);
      BaseBack(v, h.ty, 0);
    }
  }

  /** The top of anything else is no epoch, so nothing is shifted. */
  lemma {:induction false} ShapedAttribute(types: AttrTypes, cluster: nat, attr: nat, v: Value, h: TypeHint)
    requires types(cluster, attr) == h.ty && Encode(v, Some(h)).Some?
    requires h.isList || BaseType(h.ty).None?
    requires ReadOf(Decode(Encode(v, Some(h)).value, 0), v, Some(h), MAX_DEPTH)
    ensures AttrValueToJson(types, cluster, attr, Encode(v, Some(h)).value) == Some(Numbered(v, Some(h))) <==>
            Within(v, MAX_DEPTH) && EpochFree(v, Some(h))
  {
    hide BaseType, EncodeItems, DecodeItems, Numbered, EpochFree, EncodeTyped, Within;
    if h.isList {
      assert v.Arr? || v.Null?;
    }
  }
}

/** Writing a name-keyed payload with its table's hints and reading it back by name. */
module ReadByName {
  import opened Wrappers
  import opened Json
  import opened Idl
  import opened Tlv
  import opened TlvDecode
  import opened TlvEncode
  import opened Spelling
  import opened ReadById
  import Base64

  /** No list of epochs holds anything but nulls. The writer shifts the elements of
      such a list; the reader shifts scalars only. */
  ghost predicate NoListedEpochs(v: Value, hint: Option<TypeHint>)
    decreases v, 2
  {
    hint.Some? ==>
      var h := hint.value;
      if h.isList then
        v.Arr? ==> NoEpochsInItems(v.items, h.(isList := false))
      else
        BaseType(h.ty).None? && StructOf(h).Some? && v.Obj? ==>
          NoEpochsInStruct(v, NestedKeys(v.fields, StructOf(h).value, h.cluster.value))
  }

  ghost predicate ItemHasNoEpoch(v: Value, h: TypeHint)
    decreases v, 3
  {
    && (EpochOffset(h.ty) == 0 || v.Null?)
    && NoListedEpochs(v, Some(h))
  }

  ghost predicate NoEpochsInItems(vs: seq<Value>, h: TypeHint)
    decreases vs, 0
  {
    vs == [] || (NoEpochsInItems(vs[..|vs| - 1], h) && ItemHasNoEpoch(vs[|vs| - 1], h))
  }

  ghost predicate NoEpochsInStruct(v: Value, keys: Keys)
    requires v.Obj?
    decreases v, 1
  {
    Resolves(keys, v.fields) ==> NoEpochsBelow(v, keys, 256)
  }

  ghost predicate NoEpochsBelow(v: Value, keys: Keys, n: nat)
    requires v.Obj? && Resolves(keys, v.fields) && n <= 256
    decreases v, 0, n
  {
    n == 0 ||
    (NoEpochsBelow(v, keys, n - 1) &&
     match EntryAt(v, keys, n - 1)
     case None => true
     case Some(en) => NoListedEpochs(en.value, en.hint))
  }

  /** The reader by name gets through `v` with `levels` left. Text is read at any depth; a
      list of structs is not itself checked, only what is in it. */
  ghost predicate Readable(v: Value, hint: Option<TypeHint>, levels: int)
    decreases v, 3
  {
    if hint.None? then Within(v, levels)
    else
      var h := hint.value;
      if v.Str? && BaseType(h.ty) != Some(Base.Octets) then true
      else if BaseType(h.ty).Some? || StructOf(h).None? then Within(v, levels)
      else if h.isList && v.Arr? then ReadableItems(v.items, h.(isList := false), levels - 1)
      else ReadableOne(v, h, levels)
  }

  ghost predicate ReadableOne(v: Value, h: TypeHint, levels: int)
    requires StructOf(h).Some?
    decreases v, 2
  {
    0 <= levels && (v.Obj? ==> ReadableStruct(v, NestedKeys(v.fields, StructOf(h).value, h.cluster.value), levels - 1))
  }

  ghost predicate ReadableItems(vs: seq<Value>, h: TypeHint, levels: int)
    requires StructOf(h).Some?
    decreases vs, 0
  {
    vs == [] || (ReadableItems(vs[..|vs| - 1], h, levels) && ReadableOne(vs[|vs| - 1], h, levels))
  }

  ghost predicate ReadableStruct(v: Value, keys: Keys, levels: int)
    requires v.Obj?
    decreases v, 1
  {
    Resolves(keys, v.fields) ==> ReadableBelow(v, keys, 256, levels)
  }

  ghost predicate ReadableBelow(v: Value, keys: Keys, n: nat, levels: int)
    requires v.Obj? && Resolves(keys, v.fields) && n <= 256
    decreases v, 0, n
  {
    n == 0 ||
    (ReadableBelow(v, keys, n - 1, levels) &&
     match EntryAt(v, keys, n - 1)
     case None => true
     case Some(en) => Readable(en.value, en.hint, levels))
  }

  /** `r` is what came back of `v`: something exactly when it `fits`, and then the payload
      itself in the table's spelling exactly when no list of epochs is in it. */
  ghost predicate Back(r: Option<Value>, v: Value, hint: Option<TypeHint>, fits: bool) {
    (r.Some? <==> fits) && (r.Some? ==> (r.value == Respell(v, hint) <==> NoListedEpochs(v, hint)))
  }

  // ------------------------------------------------------------------ leaves

  lemma {:induction false} BaseBack(v: Value, ty: string, d: nat)
    requires BaseType(ty).Some? && EncodeBase(v, BaseType(ty).value).Some? && d <= MAX_DEPTH
    ensures var e := EncodeBase(v, BaseType(ty).value).value;
            && IsLeaf(e)
            && (EpochOffset(ty) == 0 ==> Decode(e, d) == Some(v))
            && (EpochOffset(ty) != 0 ==>
                  v.Num? && v.n >= EpochOffset(ty) && Decode(e, d) == Some(Num(v.n - EpochOffset(ty))))
            && (e.Utf8? ==> v == Str(e.s))
  {
    hide BaseType, Base64.Encode, Base64.Decode;
    if BaseType(ty) == Some(Base.Octets) {
      Base64.EncodeDecode(v.s);
    }
  }

  lemma {:induction false} TooDeep(v: Value, base: Base, d: nat)
    requires EncodeBase(v, base).Some? && d > MAX_DEPTH
    ensures var e := EncodeBase(v, base).value; Decode(e, d) == None && IsLeaf(e) && (e.Utf8? <==> base == Base.Utf8)
    ensures base == Base.Utf8 ==> v.Str? && EncodeBase(v, base).value == Elem.Utf8(v.s)
    ensures v.Str? ==> base == Base.Utf8 || base == Base.Octets
  {
    hide Base64.Decode;
  }

  /** A scalar of a base type comes back as it was, epochs included. */
  lemma {:induction false} ScalarBack(v: Value, f: Field, c: Cluster, d: nat)
    requires WellFormed(c) && BaseType(f.ty).Some? && !f.isList
    requires EncodeTyped(v, HintOf(f, c)).Some?
    ensures DecodeField(EncodeTyped(v, HintOf(f, c)).value, f, c, d) ==
            if Readable(v, Some(HintOf(f, c)), MAX_DEPTH - d) then Some(v) else None
  {
    hide EncodeBase, FindBase;
    assert FindStruct(c, f.ty).None?;
    if !v.Null? {
      BaseIsFlat(v, BaseType(f.ty).value);
      if d <= MAX_DEPTH {
        BaseBack(v, f.ty, d);
      } else {
        TooDeep(v, BaseType(f.ty).value, d);
      }
    }
  }

  lemma BaseIsFlat(v: Value, base: Base)
    requires EncodeBase(v, base).Some?
    ensures !v.Arr? && !v.Obj?
  {
  }

  /** An element of a list of a base type comes back unless it is an epoch. */
  lemma {:induction false} BaseItemBack(v: Value, h: TypeHint, d: nat)
    requires BaseType(h.ty).Some? && !h.isList
    requires Encode(v, Some(h)).Some?
    ensures var r := Decode(Encode(v, Some(h)).value, d);
            && (r.Some? <==> Within(v, MAX_DEPTH - d))
            && (r.Some? ==> (r.value == Respell(v, Some(h)) <==> ItemHasNoEpoch(v, h)))
  {
    hide EncodeBase, FindBase;
    assert Encode(v, Some(h)) == EncodeTyped(v, h);
    if !v.Null? {
      BaseIsFlat(v, BaseType(h.ty).value);
      if d <= MAX_DEPTH {
        BaseBack(v, h.ty, d);
      } else {
        TooDeep(v, BaseType(h.ty).value, d);
      }
    }
  }

  lemma {:induction false} BaseItemsBack(vs: seq<Value>, h: TypeHint, d: nat)
    requires BaseType(h.ty).Some? && !h.isList
    requires EncodeItems(vs, Some(h)).Some?
    ensures var r := DecodeItems(EncodeItems(vs, Some(h)).value, d);
            && (r.Some? <==> AllWithin(vs, MAX_DEPTH - d))
            && (r.Some? ==> (r.value == RespellItems(vs, Some(h)) <==> NoEpochsInItems(vs, h)))
  {
    hide BaseType, Encode, Decode, Respell, ItemHasNoEpoch, Within;
    if vs != [] {
      var front, last := vs[..|vs| - 1], vs[|vs| - 1];
      BaseItemsBack(front, h, d);
      BaseItemBack(last, h, d);
      assert EncodeItems(vs, Some(h)).value[..|vs| - 1] == EncodeItems(front, Some(h)).value;
      assert RespellItems(vs, Some(h))[..|vs| - 1] == RespellItems(front, Some(h));
    }
  }

  // ----------------------------------------------------------------- structs

  /** The hint of a slot is the one of the field with the slot's id. */
  lemma {:induction false} SlotHint(keys: Keys, fields: seq<Field>, c: Cluster, k: string)
    requires keys == ByName(fields, c) || keys == ById(Some((fields, c)))
    requires WellFormedFields(fields) && Resolve(keys, k).Some?
    ensures var slot, f := Resolve(keys, k).value, FieldByCode(fields, Resolve(keys, k).value.tag);
            slot.hint == if f.Some? then Some(HintOf(f.value, c)) else None
  {
    if keys.ByName? {
      LookupsAgree(fields, FieldByName(fields, k).value);
    }
  }

  /** A field of a table, and a member the table does not know. */
  lemma {:induction false} MemberBack(v: Value, f: Option<Field>, c: Cluster, d: nat)
    requires WellFormed(c)
    requires var hint := if f.Some? then Some(HintOf(f.value, c)) else None; Encode(v, hint).Some?
    ensures var hint := if f.Some? then Some(HintOf(f.value, c)) else None;
            Back(DecodeMember(Encode(v, hint).value, f, c, d), v, hint, Readable(v, hint, MAX_DEPTH - d))
    decreases v, 4
  {
    hide BaseType, EncodeTyped, RespellTyped, DecodeField;
    if f.None? {
      DecodeUntyped(v, d);
    } else {
      FieldBack(v, f.value, c, d);
    }
  }

  lemma {:induction false} FieldBack(v: Value, f: Field, c: Cluster, d: nat)
    requires WellFormed(c)
    requires Encode(v, Some(HintOf(f, c))).Some?
    ensures Back(DecodeField(Encode(v, Some(HintOf(f, c))).value, f, c, d), v, Some(HintOf(f, c)),
                 Readable(v, Some(HintOf(f, c)), MAX_DEPTH - d))
    decreases v, 3
  {
    hide *;
    if BaseType(f.ty).Some? {
      BaseFieldBack(v, f, c, d);
    } else if StructOf(HintOf(f, c)).None? {
      NamedTypeBack(v, f, c, d);
    } else if f.isList {
      StructListBack(v, f, c, d);
    } else {
      StructFieldBack(v, f, c, d);
    }
  }

  lemma {:induction false} BaseFieldBack(v: Value, f: Field, c: Cluster, d: nat)
    requires WellFormed(c) && BaseType(f.ty).Some?
    requires Encode(v, Some(HintOf(f, c))).Some?
    ensures Back(DecodeField(Encode(v, Some(HintOf(f, c))).value, f, c, d), v, Some(HintOf(f, c)),
                 Readable(v, Some(HintOf(f, c)), MAX_DEPTH - d))
  {
    hide FindBase, EncodeBase, EncodeTyped, ItemHasNoEpoch, Readable;
    if f.isList {
      BaseListBack(v, f, c, d);
    } else {
      assert Encode(v, Some(HintOf(f, c))) == EncodeTyped(v, HintOf(f, c));
      assert Respell(v, Some(HintOf(f, c))) == RespellTyped(v, HintOf(f, c)) == v;
      ScalarBack(v, f, c, d);
    }
  }

  lemma {:induction false} BaseListBack(v: Value, f: Field, c: Cluster, d: nat)
    requires WellFormed(c) && BaseType(f.ty).Some? && f.isList
    requires Encode(v, Some(HintOf(f, c))).Some?
    ensures Back(DecodeField(Encode(v, Some(HintOf(f, c))).value, f, c, d), v, Some(HintOf(f, c)),
                 Readable(v, Some(HintOf(f, c)), MAX_DEPTH - d))
  {
    hide FindBase, EncodeTyped, ItemHasNoEpoch, EncodeItems, DecodeItems, RespellItems, NoEpochsInItems;
    assert FindStruct(c, f.ty).None?;
    if v.Arr? {
      hide Within;
      ArrayWithin(v.items, MAX_DEPTH - d);
      BaseItemsBack(v.items, HintOf(f, c).(isList := false), d + 1);
    }
  }

  lemma WrittenByShape(v: Value, h: TypeHint)
    requires BaseType(h.ty).None? && StructOf(h).None?
    ensures EncodeTyped(v, h) == EncodeUntyped(v) && RespellTyped(v, h) == RespellUntyped(v)
  {
  }

  /** An enum or bitmap: neither a base type nor a struct, so written by shape. */
  lemma {:induction false} NamedTypeBack(v: Value, f: Field, c: Cluster, d: nat)
    requires WellFormed(c)
    requires BaseType(f.ty).None? && StructOf(HintOf(f, c)).None?
    requires Encode(v, Some(HintOf(f, c))).Some?
    ensures Back(DecodeField(Encode(v, Some(HintOf(f, c))).value, f, c, d), v, Some(HintOf(f, c)),
                 Readable(v, Some(HintOf(f, c)), MAX_DEPTH - d))
  {
    hide BaseType, EncodeTyped, RespellTyped, ItemHasNoEpoch, EncodeItems, DecodeItems, RespellItems, NoEpochsInItems;
    if !f.isList {
      WrittenByShape(v, HintOf(f, c));
      DecodeUntyped(v, d);
    } else if v.Arr? {
      hide Within;
      ArrayWithin(v.items, MAX_DEPTH - d);
      NamedTypeItemsBack(v.items, HintOf(f, c).(isList := false), d + 1);
    }
  }

  lemma {:induction false} NamedTypeItemBack(v: Value, h: TypeHint, d: nat)
    requires BaseType(h.ty).None? && StructOf(h).None? && !h.isList
    requires Encode(v, Some(h)).Some?
    ensures Decode(Encode(v, Some(h)).value, d) == if Within(v, MAX_DEPTH - d) then Some(Respell(v, Some(h))) else None
    ensures ItemHasNoEpoch(v, h)
  {
    hide BaseType, StructOf, EncodeTyped, EncodeUntyped, RespellTyped, RespellUntyped, Decode;
    WrittenByShape(v, h);
    DecodeUntyped(v, d);
  }

  lemma {:induction false} NamedTypeItemsBack(vs: seq<Value>, h: TypeHint, d: nat)
    requires BaseType(h.ty).None? && StructOf(h).None? && !h.isList
    requires EncodeItems(vs, Some(h)).Some?
    ensures DecodeItems(EncodeItems(vs, Some(h)).value, d) ==
            if AllWithin(vs, MAX_DEPTH - d) then Some(RespellItems(vs, Some(h))) else None
    ensures NoEpochsInItems(vs, h)
  {
    hide BaseType, StructOf, Within, Encode, Respell, Decode, ItemHasNoEpoch;
    if vs != [] {
      var front, last := vs[..|vs| - 1], vs[|vs| - 1];
      NamedTypeItemsBack(front, h, d);
      NamedTypeItemBack(last, h, d);
      assert EncodeItems(vs, Some(h)).value[..|vs| - 1] == EncodeItems(front, Some(h)).value;
    }
  }

  lemma {:induction false} StructFieldBack(v: Value, f: Field, c: Cluster, d: nat)
    requires WellFormed(c) && !f.isList && StructOf(HintOf(f, c)).Some?
    requires Encode(v, Some(HintOf(f, c))).Some?
    ensures Back(DecodeField(Encode(v, Some(HintOf(f, c))).value, f, c, d), v, Some(HintOf(f, c)),
                 Readable(v, Some(HintOf(f, c)), MAX_DEPTH - d))
    decreases v, 2
  {
    hide BaseType, EncodeStruct, DecodeNamed, RespellStruct, NoEpochsInStruct, NestedKeys, EncodeUntyped;
    StructBackOrNull(v, HintOf(f, c), d);
  }

  lemma {:induction false} StructListBack(v: Value, f: Field, c: Cluster, d: nat)
    requires WellFormed(c) && f.isList && StructOf(HintOf(f, c)).Some?
    requires Encode(v, Some(HintOf(f, c))).Some?
    ensures Back(DecodeField(Encode(v, Some(HintOf(f, c))).value, f, c, d), v, Some(HintOf(f, c)),
                 Readable(v, Some(HintOf(f, c)), MAX_DEPTH - d))
    decreases v, 2
  {
    hide BaseType, EncodeTyped, DecodeNamed, RespellTyped, ItemHasNoEpoch;
    if v.Arr? {
      StructItemsBack(v.items, HintOf(f, c).(isList := false), d + 1);
    }
  }

  lemma {:induction false} StructItemsBack(vs: seq<Value>, h: TypeHint, d: nat)
    requires StructOf(h).Some? && !h.isList && WellFormed(h.cluster.value)
    requires EncodeItems(vs, Some(h)).Some?
    ensures var r := DecodeNamedItems(EncodeItems(vs, Some(h)).value, StructOf(h).value.fields, h.cluster.value, d);
            && (r.Some? <==> ReadableItems(vs, h, MAX_DEPTH - d))
            && (r.Some? ==> (r.value == RespellItems(vs, Some(h)) <==> NoEpochsInItems(vs, h)))
    decreases vs, 0
  {
    hide BaseType, StructOf, Within, Encode, Respell, ItemHasNoEpoch, DecodeNamed;
    if vs != [] {
      var front, last := vs[..|vs| - 1], vs[|vs| - 1];
      StructItemsBack(front, h, d);
      StructBackOrNull(last, h, d);
      assert EncodeItems(vs, Some(h)).value[..|vs| - 1] == EncodeItems(front, Some(h)).value;
      assert RespellItems(vs, Some(h))[..|vs| - 1] == RespellItems(front, Some(h));
    }
  }

  /** A struct-typed value, or the null the writer lets stand for one. */
  lemma {:induction false} StructBackOrNull(v: Value, h: TypeHint, d: nat)
    requires StructOf(h).Some? && !h.isList && WellFormed(h.cluster.value)
    requires Encode(v, Some(h)).Some?
    ensures var e, c := Encode(v, Some(h)).value, h.cluster.value;
            var r := DecodeNamed(e, StructOf(h).value.fields, c, d);
            && (r.Some? <==> ReadableOne(v, h, MAX_DEPTH - d))
            && ((e.Struct? && v.Obj?) || (e.NullElem? && v.Null?))
            && (r.Some? ==> (r.value == Respell(v, Some(h)) <==> NoListedEpochs(v, Some(h))))
            && (r.Some? ==> (r.value == Respell(v, Some(h)) <==> ItemHasNoEpoch(v, h)))
    decreases v, 1
  {
    hide FindBase, EncodeStruct, RespellStruct, NoEpochsInStruct, DecodeNamedMembers, NestedKeys, Within;
    var nested, c := StructOf(h).value, h.cluster.value;
    assert EpochOffset(h.ty) == 0;
    if !v.Null? {
      var keys := NestedKeys(v.fields, nested, c);
      NestedKeysOf(v.fields, nested, c);
      StructBack(v, keys, nested.fields, c, d);
    }
  }

  lemma NestedKeysOf(obj: map<string, Value>, nested: StructDef, c: Cluster)
    ensures var keys := NestedKeys(obj, nested, c);
            keys == ByName(nested.fields, c) || keys == ById(Some((nested.fields, c)))
  {
  }

  lemma {:induction false} StructBack(v: Value, keys: Keys, fields: seq<Field>, c: Cluster, d: nat)
    requires keys == ByName(fields, c) || keys == ById(Some((fields, c)))
    requires WellFormedFields(fields) && WellFormed(c)
    requires v.Obj? && EncodeStruct(v, keys).Some?
    ensures var r := DecodeNamed(EncodeStruct(v, keys).value, fields, c, d);
            && EncodeStruct(v, keys).value.Struct?
            && (r.Some? <==> d <= MAX_DEPTH && ReadableStruct(v, keys, MAX_DEPTH - d - 1))
            && (r.Some? ==> (r.value == RespellStruct(v, keys) <==> NoEpochsInStruct(v, keys)))
    decreases v, 0, 257
  {
    hide WellFormedFields, WellFormed, EncodeMembers, DecodeNamedMembers, RespellMembers, NoEpochsBelow, ReadableBelow;
    MembersBack(v, keys, fields, c, 256, d + 1);
  }

  lemma {:induction false} MembersBack(v: Value, keys: Keys, fields: seq<Field>, c: Cluster, n: nat, d: nat)
    requires keys == ByName(fields, c) || keys == ById(Some((fields, c)))
    requires WellFormedFields(fields) && WellFormed(c)
    requires v.Obj? && n <= 256 && Resolves(keys, v.fields)
    requires EncodeMembers(v, keys, n).Some?
    ensures var r, p := DecodeNamedMembers(EncodeMembers(v, keys, n).value, fields, c, d), RespellMembers(v, keys, n);
            && (r.Some? <==> ReadableBelow(v, keys, n, MAX_DEPTH - d))
            && (r.Some? ==> r.value.Keys == p.Keys && (r.value == p <==> NoEpochsBelow(v, keys, n)))
    decreases v, 0, n
  {
    hide BaseType, Encode, Decode, Respell, NoListedEpochs, WellFormedFields, WellFormed, Resolve,
      DecodeMember, Readable, Back, EntryAt;
    if n > 0 {
      MembersBack(v, keys, fields, c, n - 1, d);
      var last: Byte := n - 1;
      if EntryAt(v, keys, last).Some? {
        LastMemberBack(v, keys, fields, c, last, d);
      }
    }
  }

  /** The member with the highest tag, after those before it. */
  lemma {:induction false} LastMemberBack(v: Value, keys: Keys, fields: seq<Field>, c: Cluster, last: Byte, d: nat)
    requires keys == ByName(fields, c) || keys == ById(Some((fields, c)))
    requires WellFormedFields(fields) && WellFormed(c)
    requires v.Obj? && Resolves(keys, v.fields)
    requires EncodeMembers(v, keys, last + 1).Some? && EntryAt(v, keys, last).Some?
    requires var r := DecodeNamedMembers(EncodeMembers(v, keys, last).value, fields, c, d);
             var p := RespellMembers(v, keys, last);
             && (r.Some? <==> ReadableBelow(v, keys, last, MAX_DEPTH - d))
             && (r.Some? ==> r.value.Keys == p.Keys && (r.value == p <==> NoEpochsBelow(v, keys, last)))
    ensures var r := DecodeNamedMembers(EncodeMembers(v, keys, last + 1).value, fields, c, d);
            var p := RespellMembers(v, keys, last + 1);
            && (r.Some? <==> ReadableBelow(v, keys, last + 1, MAX_DEPTH - d))
            && (r.Some? ==> r.value.Keys == p.Keys && (r.value == p <==> NoEpochsBelow(v, keys, last + 1)))
    decreases v, 0, last, 1
  {
    hide BaseType, Encode, Decode, Respell, NoListedEpochs, WellFormedFields, WellFormed, Resolve,
      DecodeMember, Readable, EntryAt;
    var en := EntryAt(v, keys, last);
    RespelledAt(v, keys, last, last);
    EntryBack(v, keys, fields, c, last, d);
    var ms := EncodeMembers(v, keys, last + 1).value;
    assert ms[..|ms| - 1] == EncodeMembers(v, keys, last).value;
    var r := DecodeNamedMembers(ms[..|ms| - 1], fields, c, d);
    var x := DecodeMember(ms[|ms| - 1].value, FieldByCode(fields, last), c, d);
    if r.Some? && x.Some? {
      UpdatedMapsEqual(r.value, RespellMembers(v, keys, last), OutKey(keys, last), x.value,
                       Respell(en.value.value, en.value.hint));
    }
  }

  lemma {:induction false} UpdatedMapsEqual<K, V>(a: map<K, V>, b: map<K, V>, k: K, x: V, y: V)
    requires k !in a && k !in b
    ensures a[k := x] == b[k := y] <==> a == b && x == y
  {
    if a[k := x] == b[k := y] {
      assert a[k := x][k] == b[k := y][k];
      assert a == a[k := x] - {k} && b == b[k := y] - {k};
    }
  }

  /** One entry of a struct, read back as the field its tag names. */
  lemma {:induction false} EntryBack(v: Value, keys: Keys, fields: seq<Field>, c: Cluster, n: Byte, d: nat)
    requires keys == ByName(fields, c) || keys == ById(Some((fields, c)))
    requires WellFormedFields(fields) && WellFormed(c)
    requires v.Obj? && Resolves(keys, v.fields) && EntryAt(v, keys, n).Some?
    requires var en := EntryAt(v, keys, n).value; Encode(en.value, en.hint).Some?
    ensures var en := EntryAt(v, keys, n).value;
            && OutKey(keys, n) == NamedKey(fields, n)
            && Back(DecodeMember(Encode(en.value, en.hint).value, FieldByCode(fields, n), c, d), en.value, en.hint,
                    Readable(en.value, en.hint, MAX_DEPTH - d))
    decreases v, 0, n, 0
  {
    hide BaseType, Encode, Respell, NoListedEpochs, WellFormed, Resolve, DecodeMember, Readable, EntryAt, Back;
    var en := EntryAt(v, keys, n).value;
    var k :| k in v.fields && IsEntry(v, keys, n, k, en);
    SlotHint(keys, fields, c, k);
    MemberBack(en.value, FieldByCode(fields, n), c, d);
  }
}

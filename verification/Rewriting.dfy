/** Writing back what was read: a payload in the table's spelling encodes as the
    original did, unless a nested struct mixes ids the table knows with ids it does not.
    Such a struct comes back half named and half numbered, and the writer takes either
    all names or all numbers. */
module Rewriting {
  import opened Wrappers
  import opened Ascii
  import opened Json
  import opened Idl
  import opened Tlv
  import opened Decimal
  import opened TlvEncode
  import opened Spelling
  import opened ReadByName
  import opened RoundTrip
  import opened Canonical

  /** All ids of `v` are known to the table of `keys`, or none is. */
  ghost predicate OneKind(v: Value, keys: Keys)
    requires v.Obj? && Resolves(keys, v.fields)
  {
    keys.ById? && keys.table.Some? ==>
      (forall i: Byte :: EntryAt(v, keys, i).Some? ==> FieldByCode(keys.table.value.0, i).Some?) ||
      (forall i: Byte :: EntryAt(v, keys, i).Some? ==> FieldByCode(keys.table.value.0, i).None?)
  }

  ghost predicate Unmixed(v: Value, hint: Option<TypeHint>)
    decreases v, 2
  {
    hint.Some? ==>
      var h := hint.value;
      if h.isList then v.Arr? ==> UnmixedItems(v.items, h.(isList := false))
      else
        BaseType(h.ty).None? && StructOf(h).Some? && v.Obj? ==>
          UnmixedStruct(v, NestedKeys(v.fields, StructOf(h).value, h.cluster.value))
  }

  ghost predicate UnmixedItems(vs: seq<Value>, h: TypeHint)
    decreases vs, 0
  {
    vs == [] || (UnmixedItems(vs[..|vs| - 1], h) && Unmixed(vs[|vs| - 1], Some(h)))
  }

  ghost predicate UnmixedStruct(v: Value, keys: Keys)
    requires v.Obj?
    decreases v, 1
  {
    Resolves(keys, v.fields) ==> OneKind(v, keys) && UnmixedBelow(v, keys, 256)
  }

  ghost predicate UnmixedBelow(v: Value, keys: Keys, n: nat)
    requires v.Obj? && Resolves(keys, v.fields) && n <= 256
    decreases v, 0, n
  {
    n == 0 ||
    (UnmixedBelow(v, keys, n - 1) &&
     match EntryAt(v, keys, n - 1)
     case None => true
     case Some(en) => Unmixed(en.value, en.hint))
  }

  // -------------------------------------------------- the keys of a respelling

  /** `again` reads the respelled object `w` of `v`: every tag is there under a key
      that names it, with the same hint. */
  ghost predicate ReadsRespelled(v: Value, keys: Keys, w: Value, again: Keys)
    requires v.Obj? && w.Obj? && Resolves(keys, v.fields) && Resolves(again, w.fields)
  {
    forall i: Byte ::
      EntryAt(w, again, i) ==
      match EntryAt(v, keys, i)
      case None => None
      case Some(en) => Some(Entry(Respell(en.value, en.hint), en.hint))
  }

  /** If the key of each tag of `v` names that tag and its hint under `again`, then
      `again` reads the respelling. */
  lemma {:induction false} KeysRead(v: Value, keys: Keys, again: Keys)
    requires v.Obj? && Resolves(keys, v.fields) && WellFormedKeys(keys)
    requires forall i: Byte :: EntryAt(v, keys, i).Some? ==>
               Resolve(again, OutKey(keys, i)) == Some(Slot(i, EntryAt(v, keys, i).value.hint))
    ensures var w := RespellStruct(v, keys);
            && w.Obj? && Resolves(again, w.fields) && ReadsRespelled(v, keys, w, again)
  {
    hide Resolve, OutKey, Respell, WellFormedKeys, EntryAt, RespellMembers;
    var w := RespellStruct(v, keys);
    forall key | key in w.fields
      ensures exists i: Byte :: EntryAt(v, keys, i).Some? && key == OutKey(keys, i)
    {
      var i := RespelledKey(v, keys, 256, key);
    }
    forall i: Byte
      ensures EntryAt(w, again, i) ==
              match EntryAt(v, keys, i)
              case None => None
              case Some(en) => Some(Entry(Respell(en.value, en.hint), en.hint))
    {
      RespelledAt(v, keys, 256, i);
      if EntryAt(v, keys, i).Some? {
        EntryOfKey(w, again, OutKey(keys, i));
      }
    }
  }

  /** How the writer reads the keys of a respelled nested struct. */
  lemma {:induction false} NestedKeysAgain(v: Value, keys: Keys, nested: StructDef, c: Cluster)
    requires v.Obj? && Resolves(keys, v.fields) && WellFormedKeys(keys)
    requires keys == ByName(nested.fields, c) || keys == ById(Some((nested.fields, c)))
    ensures var w := RespellStruct(v, keys);
            var again := NestedKeys(w.fields, nested, c);
            && (Resolves(again, w.fields) <==> OneKind(v, keys))
            && (OneKind(v, keys) ==> ReadsRespelled(v, keys, w, again))
  {
    hide WellFormed, Respell, EntryAt, RespellMembers, WellFormedFields, Resolve, OneKind;
    if forall i: Byte :: EntryAt(v, keys, i).Some? ==> FieldByCode(nested.fields, i).None? {
      UnknownKeysRead(v, keys, nested, c);
    } else if forall i: Byte :: EntryAt(v, keys, i).Some? ==> FieldByCode(nested.fields, i).Some? {
      KnownKeysRead(v, keys, nested, c);
    } else {
      MixedKeysClash(v, keys, nested, c);
    }
  }

  lemma {:induction false} KnownAreOneKind(v: Value, keys: Keys, nested: StructDef, c: Cluster)
    requires v.Obj? && Resolves(keys, v.fields)
    requires keys == ByName(nested.fields, c) || keys == ById(Some((nested.fields, c)))
    requires || (forall i: Byte :: EntryAt(v, keys, i).Some? ==> FieldByCode(nested.fields, i).Some?)
             || (forall i: Byte :: EntryAt(v, keys, i).Some? ==> FieldByCode(nested.fields, i).None?)
    ensures OneKind(v, keys)
  {
    hide EntryAt, Resolve;
  }

  lemma {:induction false} SlotOfEntry(v: Value, keys: Keys, fields: seq<Field>, c: Cluster, i: Byte)
    requires v.Obj? && Resolves(keys, v.fields) && WellFormedFields(fields) && EntryAt(v, keys, i).Some?
    requires keys == ByName(fields, c) || keys == ById(Some((fields, c)))
    ensures var f := FieldByCode(fields, i);
            EntryAt(v, keys, i).value.hint == if f.Some? then Some(HintOf(f.value, c)) else None
  {
    hide EntryAt, Resolve, WellFormedFields;
    var key :| key in v.fields && IsEntry(v, keys, i, key, EntryAt(v, keys, i).value);
    SlotHint(keys, fields, c, key);
  }

  lemma {:induction false} UnknownKeysRead(v: Value, keys: Keys, nested: StructDef, c: Cluster)
    requires v.Obj? && Resolves(keys, v.fields) && WellFormedKeys(keys)
    requires keys == ByName(nested.fields, c) || keys == ById(Some((nested.fields, c)))
    requires forall i: Byte :: EntryAt(v, keys, i).Some? ==> FieldByCode(nested.fields, i).None?
    ensures var w := RespellStruct(v, keys);
            var again := NestedKeys(w.fields, nested, c);
            Resolves(again, w.fields) && OneKind(v, keys) && ReadsRespelled(v, keys, w, again)
  {
    hide WellFormed, Respell, EntryAt, RespellMembers, WellFormedFields, OneKind, Resolves;
    var w := RespellStruct(v, keys);
    KnownAreOneKind(v, keys, nested, c);
    forall key | key in w.fields ensures ParseU8(key).Some? {
      var i := RespelledKey(v, keys, 256, key);
      ParseShow(i);
    }
    forall i: Byte | EntryAt(v, keys, i).Some?
      ensures Resolve(ById(Some((nested.fields, c))), OutKey(keys, i)) == Some(Slot(i, EntryAt(v, keys, i).value.hint))
    {
      ParseShow(i);
      SlotOfEntry(v, keys, nested.fields, c, i);
    }
    KeysRead(v, keys, ById(Some((nested.fields, c))));
  }

  lemma {:induction false} KnownKeysRead(v: Value, keys: Keys, nested: StructDef, c: Cluster)
    requires v.Obj? && Resolves(keys, v.fields) && WellFormedKeys(keys)
    requires keys == ByName(nested.fields, c) || keys == ById(Some((nested.fields, c)))
    requires forall i: Byte :: EntryAt(v, keys, i).Some? ==> FieldByCode(nested.fields, i).Some?
    requires exists i: Byte :: EntryAt(v, keys, i).Some?
    ensures var w := RespellStruct(v, keys);
            var again := NestedKeys(w.fields, nested, c);
            Resolves(again, w.fields) && OneKind(v, keys) && ReadsRespelled(v, keys, w, again)
  {
    hide WellFormed, Respell, EntryAt, RespellMembers, OneKind, Resolves, ParseU8, SameIgnoringCase, BaseType;
    var w := RespellStruct(v, keys);
    KnownAreOneKind(v, keys, nested, c);
    var j: Byte :| EntryAt(v, keys, j).Some?;
    RespelledAt(v, keys, 256, j);
    assert OutKey(keys, j) in w.fields && ParseU8(OutKey(keys, j)).None?;
    forall i: Byte | EntryAt(v, keys, i).Some?
      ensures Resolve(ByName(nested.fields, c), OutKey(keys, i)) == Some(Slot(i, EntryAt(v, keys, i).value.hint))
    {
      LookupsAgree(nested.fields, FieldByCode(nested.fields, i).value);
      SlotOfEntry(v, keys, nested.fields, c, i);
    }
    KeysRead(v, keys, ByName(nested.fields, c));
  }

  lemma {:induction false} MixedKeysClash(v: Value, keys: Keys, nested: StructDef, c: Cluster)
    requires v.Obj? && Resolves(keys, v.fields) && WellFormedKeys(keys)
    requires keys == ByName(nested.fields, c) || keys == ById(Some((nested.fields, c)))
    requires exists i: Byte :: EntryAt(v, keys, i).Some? && FieldByCode(nested.fields, i).Some?
    requires exists i: Byte :: EntryAt(v, keys, i).Some? && FieldByCode(nested.fields, i).None?
    ensures var w := RespellStruct(v, keys);
            !Resolves(NestedKeys(w.fields, nested, c), w.fields) && !OneKind(v, keys)
  {
    hide WellFormed, Respell, EntryAt, RespellMembers, ParseU8;
    var w := RespellStruct(v, keys);
    var i: Byte :| EntryAt(v, keys, i).Some? && FieldByCode(nested.fields, i).Some?;
    var j: Byte :| EntryAt(v, keys, j).Some? && FieldByCode(nested.fields, j).None?;
    assert keys.ById? by {
      if keys.ByName? {
        NamedIsKnown(v, keys, j);
      }
    }
    RespelledAt(v, keys, 256, i);
    RespelledAt(v, keys, 256, j);
    assert ParseU8(OutKey(keys, i)).None?;
    assert Resolve(ByName(nested.fields, c), OutKey(keys, j)).None? by {
      DecimalIsNoName(nested.fields, j);
    }
  }

  lemma {:induction false} NamedIsKnown(v: Value, keys: Keys, i: Byte)
    requires v.Obj? && Resolves(keys, v.fields) && keys.ByName? && WellFormedFields(keys.fields)
    requires EntryAt(v, keys, i).Some?
    ensures FieldByCode(keys.fields, i).Some?
  {
    hide EntryAt, WellFormedFields, BaseType;
    var key :| key in v.fields && IsEntry(v, keys, i, key, EntryAt(v, keys, i).value);
    LookupsAgree(keys.fields, FieldByName(keys.fields, key).value);
  }

  lemma {:induction false} DecimalIsNoName(fields: seq<Field>, n: Byte)
    requires WellFormedFields(fields)
    ensures FieldByName(fields, Show(n)).None?
  {
    ParseShow(n);
    ShowIsDigits(n);
    if FieldByName(fields, Show(n)).Some? {
      DigitsHaveNoCase(Show(n), FieldByName(fields, Show(n)).value.name);
    }
  }

  // ---------------------------------------------------------- writing it back

  lemma {:induction false} RespelledEncoding(v: Value, hint: Option<TypeHint>)
    requires WellFormedHint(hint) && Encode(v, hint).Some?
    ensures Encode(Respell(v, hint), hint) == Encode(v, hint) <==> Unmixed(v, hint)
    decreases v, 3
  {
    hide FindBase, EncodeBase, EncodeStruct, RespellStruct, UnmixedStruct, NestedKeys, WellFormed;
    if hint.Some? && hint.value.isList {
      if v.Arr? {
        var h := hint.value.(isList := false);
        RespelledItemEncodings(v.items, Some(h));
      }
    } else if hint.None? {
      RespelledUntypedEncoding(v);
    } else if BaseType(hint.value.ty).None? {
      var h := hint.value;
      if StructOf(h).None? {
        WrittenByShape(v, h);
        WrittenByShape(Respell(v, hint), h);
        RespelledUntypedEncoding(v);
        RespelledNull(v);
      } else if v.Obj? {
        var nested, c := StructOf(h).value, h.cluster.value;
        NestedKeysWellFormed(v.fields, nested, c);
        NestedKeysOf(v.fields, nested, c);
        RespelledNestedEncoding(v, NestedKeys(v.fields, nested, c), nested, c);
      }
    }
  }

  lemma {:induction false} RespelledNull(v: Value)
    ensures RespellUntyped(v).Null? <==> v.Null?
  {
    hide RespellStruct, Resolves;
    if v.Obj? {
      EncodedStructIsStruct(v, ById(None));
    }
  }

  lemma {:induction false} RespelledUntypedEncoding(v: Value)
    requires EncodeUntyped(v).Some?
    ensures EncodeUntyped(RespellUntyped(v)) == EncodeUntyped(v)
    decreases v, 2
  {
    hide EncodeStruct, RespellStruct;
    if v.Arr? {
      RespelledItemEncodings(v.items, None);
    } else if v.Obj? {
      RespelledPlainEncoding(v);
      EncodedStructIsStruct(v, ById(None));
    }
  }

  lemma {:induction false} RespelledItemEncodings(vs: seq<Value>, hint: Option<TypeHint>)
    requires WellFormedHint(hint) && EncodeItems(vs, hint).Some?
    ensures EncodeItems(RespellItems(vs, hint), hint) == EncodeItems(vs, hint) <==>
            (hint.Some? ==> UnmixedItems(vs, hint.value))
    decreases vs, 0
  {
    hide Encode, Respell, Unmixed, WellFormedHint;
    if vs != [] {
      var front, last := vs[..|vs| - 1], vs[|vs| - 1];
      RespelledItemEncodings(front, hint);
      RespelledEncoding(last, hint);
      UntypedIsUnmixed(last);
      var ws := RespellItems(vs, hint);
      assert ws[..|ws| - 1] == RespellItems(front, hint);
      if EncodeItems(ws, hint).Some? {
        SnocsEqual(EncodeItems(RespellItems(front, hint), hint).value, EncodeItems(front, hint).value,
                   Encode(Respell(last, hint), hint).value, Encode(last, hint).value);
      }
    }
  }

  lemma UntypedIsUnmixed(v: Value)
    ensures Unmixed(v, None)
  {
  }

  /** An object written without a table. */
  lemma {:induction false} RespelledPlainEncoding(v: Value)
    requires v.Obj? && EncodeStruct(v, ById(None)).Some?
    ensures RespellStruct(v, ById(None)).Obj?
    ensures EncodeStruct(RespellStruct(v, ById(None)), ById(None)) == EncodeStruct(v, ById(None))
    decreases v, 1
  {
    hide EncodeMembers, Respell, EntryAt, RespellMembers;
    forall i: Byte | EntryAt(v, ById(None), i).Some?
      ensures Resolve(ById(None), OutKey(ById(None), i)) == Some(Slot(i, EntryAt(v, ById(None), i).value.hint))
    {
      ParseShow(i);
      var key :| key in v.fields && IsEntry(v, ById(None), i, key, EntryAt(v, ById(None), i).value);
    }
    KeysRead(v, ById(None), ById(None));
    RespelledMemberEncodings(v, ById(None), ById(None), 256);
    PlainIsUnmixed(v, 256);
  }

  lemma {:induction false} PlainIsUnmixed(v: Value, n: nat)
    requires v.Obj? && Resolves(ById(None), v.fields) && n <= 256
    ensures UnmixedBelow(v, ById(None), n)
  {
    if n > 0 {
      PlainIsUnmixed(v, n - 1);
    }
  }

  lemma {:induction false} RespelledNestedEncoding(v: Value, keys: Keys, nested: StructDef, c: Cluster)
    requires v.Obj? && WellFormedKeys(keys) && EncodeStruct(v, keys).Some?
    requires keys == ByName(nested.fields, c) || keys == ById(Some((nested.fields, c)))
    ensures var w := RespellStruct(v, keys);
            && w.Obj?
            && (EncodeStruct(w, NestedKeys(w.fields, nested, c)) == EncodeStruct(v, keys) <==> UnmixedStruct(v, keys))
    decreases v, 1
  {
    hide EncodeMembers, NestedKeys, Resolves, ReadsRespelled, RespellMembers, UnmixedBelow, OneKind, WellFormedKeys;
    NestedKeysAgain(v, keys, nested, c);
    if OneKind(v, keys) {
      RespelledMemberEncodings(v, keys, NestedKeys(RespellStruct(v, keys).fields, nested, c), 256);
    }
  }

  lemma {:induction false} RespelledMemberEncodings(v: Value, keys: Keys, again: Keys, n: nat)
    requires v.Obj? && Resolves(keys, v.fields) && WellFormedKeys(keys) && n <= 256
    requires EncodeMembers(v, keys, n).Some?
    requires var w := RespellStruct(v, keys); w.Obj? && Resolves(again, w.fields) && ReadsRespelled(v, keys, w, again)
    ensures EncodeMembers(RespellStruct(v, keys), again, n) == EncodeMembers(v, keys, n) <==> UnmixedBelow(v, keys, n)
    decreases v, 0, n
  {
    hide Encode, Respell, Unmixed, EntryAt, Resolves, RespellStruct, WellFormedKeys;
    if n > 0 {
      var i: Byte, w := n - 1, RespellStruct(v, keys);
      RespelledMemberEncodings(v, keys, again, i);
      var en := EntryAt(v, keys, i);
      if en.Some? {
        EntryHintWellFormed(v, keys, i);
        RespelledEncoding(en.value.value, en.value.hint);
        if EncodeMembers(w, again, n).Some? {
          SnocsEqual(EncodeMembers(w, again, i).value, EncodeMembers(v, keys, i).value,
                     Member(Context(i), Encode(Respell(en.value.value, en.value.hint), en.value.hint).value),
                     Member(Context(i), Encode(en.value.value, en.value.hint).value));
        }
      }
    }
  }

  lemma {:induction false} EntryHintWellFormed(v: Value, keys: Keys, i: Byte)
    requires v.Obj? && Resolves(keys, v.fields) && WellFormedKeys(keys) && EntryAt(v, keys, i).Some?
    ensures WellFormedHint(EntryAt(v, keys, i).value.hint)
  {
    hide EntryAt, WellFormedKeys, WellFormedHint, Resolve;
    var key :| key in v.fields && IsEntry(v, keys, i, key, EntryAt(v, keys, i).value);
    SlotHintWellFormed(keys, key);
  }
}

/** The round trips of the codec, stated for whole payloads. */
module RoundTrip {
  import opened Wrappers
  import opened Ascii
  import opened Json
  import opened Idl
  import opened Tlv
  import opened Decimal
  import opened TlvDecode
  import opened TlvEncode
  import opened Spelling
  import opened ReadById
  import opened ReadByName
  import Base64
  import TlvFraming

  // ---------------------------------------- when respelling changes nothing

  lemma {:induction false} DigitsHaveNoCase(digits: string, s: string)
    requires AllDigits(digits) && SameIgnoringCase(s, digits)
    ensures s == digits
  {
    forall i | 0 <= i < |s| ensures s[i] == digits[i] {
      assert IsDigit(digits[i]);
      assert Lower(s[i]) == Lower(digits[i]);
    }
  }

  /** A payload key that is the key of tag `i` names tag `i`. */
  lemma {:induction false} OutKeyResolves(keys: Keys, key: string, i: Byte)
    requires WellFormedKeys(keys) && Resolve(keys, key).Some? && key == OutKey(keys, i)
    ensures Resolve(keys, key).value.tag == i
  {
    hide BaseType;
    ParseShow(i);
    ShowIsDigits(i);
    if keys.ByName? {
      var g := FieldByName(keys.fields, key).value;
      if FieldByCode(keys.fields, i).None? {
        DigitsHaveNoCase(key, g.name);
      } else {
        LookupsAgree(keys.fields, FieldByCode(keys.fields, i).value);
      }
    }
  }

  lemma {:induction false} RespellIsIdentity(v: Value, hint: Option<TypeHint>)
    requires WellFormedHint(hint) && Encode(v, hint).Some?
    ensures Respell(v, hint) == v <==> Spelled(v, hint)
    decreases v, 3
  {
    hide FindBase, EncodeBase, EncodeStruct, RespellStruct, SpelledStruct, WellFormed, NestedKeys;
    if hint.Some? && hint.value.isList {
      if v.Arr? {
        RespellItemsIsIdentity(v.items, Some(hint.value.(isList := false)));
      }
    } else if hint.None? {
      RespellUntypedIsIdentity(v);
    } else if BaseType(hint.value.ty).None? {
      if StructOf(hint.value).None? {
        WrittenByShape(v, hint.value);
        RespellUntypedIsIdentity(v);
      } else if v.Obj? {
        var nested, c := StructOf(hint.value).value, hint.value.cluster.value;
        NestedKeysWellFormed(v.fields, nested, c);
        RespellStructIsIdentity(v, NestedKeys(v.fields, nested, c));
      }
    }
  }

  lemma {:induction false} RespellUntypedIsIdentity(v: Value)
    requires EncodeUntyped(v).Some?
    ensures RespellUntyped(v) == v <==> SpelledUntyped(v)
    decreases v, 2
  {
    hide EncodeStruct, RespellStruct, SpelledStruct;
    if v.Arr? {
      RespellItemsIsIdentity(v.items, None);
    } else if v.Obj? {
      RespellStructIsIdentity(v, ById(None));
    }
  }

  lemma NestedKeysWellFormed(obj: map<string, Value>, nested: StructDef, c: Cluster)
    requires WellFormed(c) && nested in c.structs
    ensures WellFormedKeys(NestedKeys(obj, nested, c))
  {
  }

  lemma {:induction false} RespellItemsIsIdentity(vs: seq<Value>, hint: Option<TypeHint>)
    requires WellFormedHint(hint) && EncodeItems(vs, hint).Some?
    ensures RespellItems(vs, hint) == vs <==> SpelledItems(vs, hint)
    decreases vs, 0
  {
    hide Encode, Respell, Spelled, WellFormedHint;
    if vs != [] {
      var front, last := vs[..|vs| - 1], vs[|vs| - 1];
      RespellItemsIsIdentity(front, hint);
      RespellIsIdentity(last, hint);
      assert vs == front + [last];
      assert RespellItems(vs, hint)[..|vs| - 1] == RespellItems(front, hint);
    }
  }

  /** What encodes as a whole encodes entry by entry. */
  lemma {:induction false} EntryEncodes(v: Value, keys: Keys, n: nat, i: Byte)
    requires v.Obj? && n <= 256 && Resolves(keys, v.fields) && EncodeMembers(v, keys, n).Some?
    requires i < n && EntryAt(v, keys, i).Some?
    ensures var en := EntryAt(v, keys, i).value; Encode(en.value, en.hint).Some?
  {
    hide Encode, EntryAt;
    if i < n - 1 {
      EntryEncodes(v, keys, n - 1, i);
    }
  }

  lemma {:induction false} SlotHintWellFormed(keys: Keys, key: string)
    requires WellFormedKeys(keys) && Resolve(keys, key).Some?
    ensures WellFormedHint(Resolve(keys, key).value.hint)
  {
    hide WellFormed, WellFormedFields;
  }

  lemma {:induction false} RespellStructIsIdentity(v: Value, keys: Keys)
    requires v.Obj? && WellFormedKeys(keys) && EncodeStruct(v, keys).Some?
    ensures RespellStruct(v, keys) == v <==> SpelledStruct(v, keys)
    decreases v, 1
  {
    hide WellFormedKeys, WellFormedHint, Encode, Respell, Spelled, EntryAt, OutKey, Resolve,
      EncodeMembers, RespellMembers;
    var p := RespellMembers(v, keys, 256);
    forall k | k in v.fields
      ensures var slot := Resolve(keys, k).value;
              && (OutKey(keys, slot.tag) in p && p[OutKey(keys, slot.tag)] == Respell(v.fields[k], slot.hint))
              && (Respell(v.fields[k], slot.hint) == v.fields[k] <==> Spelled(v.fields[k], slot.hint))
    {
      var slot := Resolve(keys, k).value;
      EntryOfKey(v, keys, k);
      EntryEncodes(v, keys, 256, slot.tag);
      RespelledAt(v, keys, 256, slot.tag);
      SlotHintWellFormed(keys, k);
      RespellIsIdentity(v.fields[k], slot.hint);
    }
    if SpelledStruct(v, keys) {
      forall key | key in p ensures key in v.fields {
        var i := RespelledKey(v, keys, 256, key);
        var k :| k in v.fields && IsEntry(v, keys, i, k, EntryAt(v, keys, i).value);
      }
      assert p == v.fields;
    } else if p == v.fields {
      forall k | k in v.fields ensures OutKey(keys, Resolve(keys, k).value.tag) == k {
        var i := RespelledKey(v, keys, 256, k);
        OutKeyResolves(keys, k, i);
      }
    }
  }

  // --------------------------------------------------- what the writer takes

  function Pow256(w: nat): nat { if w == 0 then 1 else 256 * Pow256(w - 1) }

  /** A value fits a base type: the declared width, a Unix time the wire can carry,
      text that is the base64 of some bytes. */
  ghost predicate FitsBase(v: Value, base: Base) {
    match base
    case Bool => v.Bool?
    case Utf8 => v.Str?
    case Octets => v.Str? && exists raw :: Base64.Encode(raw) == v.s
    case EpochS => v.Num? && 946_684_800 <= v.n < 946_684_800 + 0x1_0000_0000
    case EpochUs => v.Num? && 946_684_800_000_000 <= v.n
    case Unsigned(width) => v.Num? && 0 <= v.n < Pow256(width)
    case Signed(width) => v.Num? && -(Pow256(width) as int) <= 2 * v.n < Pow256(width)
    case Float => false
  }

  lemma {:induction false} LimitIsPow256(w: Width)
    ensures UnsignedLimit(w) == Pow256(w) == 2 * (UnsignedLimit(w) / 2) <= U64_MAX + 1
  {
    assert Pow256(1) == 0x100 && Pow256(2) == 0x1_0000 && Pow256(3) == 0x100_0000;
    assert Pow256(4) == 0x1_0000_0000 && Pow256(5) == 0x100_0000_0000;
    assert Pow256(6) == 0x1_0000_0000_0000 && Pow256(7) == 0x100_0000_0000_0000;
  }

  /** A base-typed value is written exactly when it fits its declared type. */
  lemma {:induction false} BaseFits(v: Value, base: Base)
    ensures EncodeBase(v, base).Some? <==> FitsBase(v, base)
  {
    hide Base64.Encode, Base64.Decode, UnsignedLimit;
    match base {
      case Octets =>
        if FitsBase(v, base) {
          var raw :| Base64.Encode(raw) == v.s;
          Base64.DecodeEncode(raw);
        } else if v.Str? && Base64.Decode(v.s).Some? {
          Base64.EncodeDecode(v.s);
        }
      case Unsigned(w) => LimitIsPow256(w);
      case Signed(w) => LimitIsPow256(w);
      case _ =>
    }
  }

  /** A payload fits its slot: every key names a slot of its own and every value fits. */
  ghost predicate Fits(v: Value, hint: Option<TypeHint>)
    decreases v, 3
  {
    match hint
    case None => FitsUntyped(v)
    case Some(h) =>
      if h.isList then v.Null? || (v.Arr? && FitItems(v.items, Some(h.(isList := false))))
      else if v.Null? then true
      else if BaseType(h.ty).Some? then FitsBase(v, BaseType(h.ty).value)
      else if StructOf(h).Some? then
        v.Obj? && FitsStruct(v, NestedKeys(v.fields, StructOf(h).value, h.cluster.value))
      else FitsUntyped(v)
  }

  ghost predicate FitsUntyped(v: Value)
    decreases v, 2
  {
    && (v.Arr? ==> FitItems(v.items, None))
    && (v.Obj? ==> FitsStruct(v, ById(None)))
  }

  ghost predicate FitItems(vs: seq<Value>, hint: Option<TypeHint>)
    decreases vs, 0
  {
    vs == [] || (FitItems(vs[..|vs| - 1], hint) && Fits(vs[|vs| - 1], hint))
  }

  ghost predicate FitsStruct(v: Value, keys: Keys)
    requires v.Obj?
    decreases v, 1
  {
    Resolves(keys, v.fields) && forall k :: k in v.fields ==> Fits(v.fields[k], Resolve(keys, k).value.hint)
  }

  lemma {:induction false} WriterTakesWhatFits(v: Value, hint: Option<TypeHint>)
    ensures Encode(v, hint).Some? <==> Fits(v, hint)
    decreases v, 3
  {
    hide FindBase, EncodeBase, FitsBase, EncodeStruct, FitsStruct, NestedKeys;
    if hint.Some? && hint.value.isList {
      if v.Arr? {
        WriterTakesItems(v.items, Some(hint.value.(isList := false)));
      }
    } else if hint.None? {
      WriterTakesUntyped(v);
    } else if !v.Null? {
      var h := hint.value;
      if BaseType(h.ty).Some? {
        BaseFits(v, BaseType(h.ty).value);
      } else if StructOf(h).None? {
        WriterTakesUntyped(v);
      } else if v.Obj? {
        WriterTakesStruct(v, NestedKeys(v.fields, StructOf(h).value, h.cluster.value));
      }
    }
  }

  lemma {:induction false} WriterTakesUntyped(v: Value)
    ensures EncodeUntyped(v).Some? <==> FitsUntyped(v)
    decreases v, 2
  {
    hide EncodeStruct, FitsStruct;
    if v.Arr? {
      WriterTakesItems(v.items, None);
    } else if v.Obj? {
      WriterTakesStruct(v, ById(None));
    }
  }

  lemma {:induction false} WriterTakesItems(vs: seq<Value>, hint: Option<TypeHint>)
    ensures EncodeItems(vs, hint).Some? <==> FitItems(vs, hint)
    decreases vs, 0
  {
    hide Encode, Fits;
    if vs != [] {
      WriterTakesItems(vs[..|vs| - 1], hint);
      WriterTakesWhatFits(vs[|vs| - 1], hint);
    }
  }

  lemma {:induction false} MembersEncode(v: Value, keys: Keys, n: nat)
    requires v.Obj? && n <= 256 && Resolves(keys, v.fields)
    requires forall i: Byte :: i < n && EntryAt(v, keys, i).Some? ==>
               Encode(EntryAt(v, keys, i).value.value, EntryAt(v, keys, i).value.hint).Some?
    ensures EncodeMembers(v, keys, n).Some?
  {
    hide Encode, EntryAt;
    if n > 0 {
      MembersEncode(v, keys, n - 1);
    }
  }

  lemma {:induction false} WriterTakesStruct(v: Value, keys: Keys)
    requires v.Obj?
    ensures EncodeStruct(v, keys).Some? <==> FitsStruct(v, keys)
    decreases v, 1
  {
    hide Encode, Fits, Resolve, EntryAt, EncodeMembers;
    if Resolves(keys, v.fields) {
      forall k | k in v.fields
        ensures Encode(v.fields[k], Resolve(keys, k).value.hint).Some? <==>
                Fits(v.fields[k], Resolve(keys, k).value.hint)
        ensures EncodeMembers(v, keys, 256).Some? ==> Encode(v.fields[k], Resolve(keys, k).value.hint).Some?
      {
        var slot := Resolve(keys, k).value;
        WriterTakesWhatFits(v.fields[k], slot.hint);
        EntryOfKey(v, keys, k);
        if EncodeMembers(v, keys, 256).Some? {
          EntryEncodes(v, keys, 256, slot.tag);
        }
      }
      if FitsStruct(v, keys) {
        forall i: Byte | EntryAt(v, keys, i).Some?
          ensures Encode(EntryAt(v, keys, i).value.value, EntryAt(v, keys, i).value.hint).Some?
        {
          var k :| k in v.fields && IsEntry(v, keys, i, k, EntryAt(v, keys, i).value);
        }
        MembersEncode(v, keys, 256);
      }
    }
  }

  // -------------------------------------------------------------- round trips

  lemma {:induction false} CanonicalFits(v: Value)
    requires SpelledUntyped(v)
    ensures FitsUntyped(v)
    decreases v, 1
  {
    if v.Arr? {
      CanonicalItemsFit(v.items);
    } else if v.Obj? {
      forall k | k in v.fields ensures Resolve(ById(None), k).value.hint == None && Fits(v.fields[k], None) {
        assert Spelled(v.fields[k], Resolve(ById(None), k).value.hint);
        CanonicalFits(v.fields[k]);
      }
    }
  }

  lemma {:induction false} CanonicalItemsFit(vs: seq<Value>)
    requires SpelledItems(vs, None)
    ensures FitItems(vs, None)
    decreases vs, 0
  {
    if vs != [] {
      CanonicalItemsFit(vs[..|vs| - 1]);
      CanonicalFits(vs[|vs| - 1]);
    }
  }

  /** The untyped round trip holds for exactly the values that nest no deeper than the
      reader's limit and whose object keys are canonical decimals up to 255. */
  lemma {:induction false} UntypedRoundTrip(v: Value)
    ensures Encode(v, None).Some? && Decode(Encode(v, None).value, 0) == Some(v) <==>
            Spelled(v, None) && Within(v, 32)
  {
    hide EncodeUntyped, RespellUntyped, SpelledUntyped, FitsUntyped, Decode, Within;
    if SpelledUntyped(v) {
      CanonicalFits(v);
      WriterTakesUntyped(v);
    }
    if EncodeUntyped(v).Some? {
      DecodeUntyped(v, 0);
      RespellUntypedIsIdentity(v);
    }
  }

  // Nesting within the cap is enough to be read by name, at any depth of the table.

  lemma {:induction false} ShallowIsReadable(v: Value, hint: Option<TypeHint>, levels: int)
    requires Within(v, levels)
    ensures Readable(v, hint, levels)
    decreases v, 3
  {
    hide BaseType, NestedKeys, ReadableStruct, ReadableItems;
    if hint.Some? && BaseType(hint.value.ty).None? && StructOf(hint.value).Some? {
      if hint.value.isList && v.Arr? {
        ArrayWithin(v.items, levels);
        ShallowItemsAreReadable(v.items, hint.value.(isList := false), levels - 1);
      } else {
        ShallowOneIsReadable(v, hint.value, levels);
      }
    }
  }

  lemma {:induction false} ShallowOneIsReadable(v: Value, h: TypeHint, levels: int)
    requires StructOf(h).Some? && Within(v, levels)
    ensures ReadableOne(v, h, levels)
    decreases v, 2
  {
    hide BaseType, NestedKeys, ReadableStruct;
    if v.Obj? {
      ShallowStructIsReadable(v, NestedKeys(v.fields, StructOf(h).value, h.cluster.value), levels);
    }
  }

  lemma {:induction false} ShallowItemsAreReadable(vs: seq<Value>, h: TypeHint, levels: int)
    requires StructOf(h).Some? && AllWithin(vs, levels)
    ensures ReadableItems(vs, h, levels)
    decreases vs, 0
  {
    hide StructOf, Within, ReadableOne;
    if vs != [] {
      ShallowItemsAreReadable(vs[..|vs| - 1], h, levels);
      ShallowOneIsReadable(vs[|vs| - 1], h, levels);
    }
  }

  lemma {:induction false} ShallowStructIsReadable(v: Value, keys: Keys, levels: int)
    requires v.Obj? && Within(v, levels)
    ensures ReadableStruct(v, keys, levels - 1)
    decreases v, 1
  {
    hide ReadableBelow;
    if Resolves(keys, v.fields) {
      ShallowMembersAreReadable(v, keys, 256, levels);
    }
  }

  lemma {:induction false} ShallowMembersAreReadable(v: Value, keys: Keys, n: nat, levels: int)
    requires v.Obj? && Within(v, levels) && Resolves(keys, v.fields) && n <= 256
    ensures ReadableBelow(v, keys, n, levels - 1)
    decreases v, 0, n
  {
    hide Readable, EntryAt, Resolve;
    if n > 0 {
      ShallowMembersAreReadable(v, keys, n - 1, levels);
      var en := EntryAt(v, keys, n - 1);
      if en.Some? {
        var k :| k in v.fields && IsEntry(v, keys, n - 1, k, en.value);
        ShallowIsReadable(v.fields[k], en.value.hint, levels - 1);
      }
    }
  }

  /** The typed round trip: a name-keyed payload that fits its table is written; it comes
      back exactly when the reader gets to the bottom of it, as every payload nested within
      the cap does; and it comes back as the payload in the table's spelling exactly when it
      holds no list of epochs. */
  lemma {:induction false} TypedRoundTrip(v: Value, fields: seq<Field>, c: Cluster)
    requires WellFormedFields(fields) && WellFormed(c)
    requires v.Obj? && FitsStruct(v, ByName(fields, c))
    ensures EncodeStruct(v, ByName(fields, c)).Some?
    ensures var r := DecodeNamed(EncodeStruct(v, ByName(fields, c)).value, fields, c, 0);
            && (r.Some? <==> ReadableStruct(v, ByName(fields, c), 31))
            && (r.Some? ==>
                  (r.value == RespellStruct(v, ByName(fields, c)) <==> NoEpochsInStruct(v, ByName(fields, c))))
    ensures Within(v, 32) ==> ReadableStruct(v, ByName(fields, c), 31)
  {
    hide WellFormedFields, WellFormed, EncodeStruct, DecodeNamed, RespellStruct, NoEpochsInStruct, FitsStruct, Within,
      ReadableStruct;
    WriterTakesStruct(v, ByName(fields, c));
    StructBack(v, ByName(fields, c), fields, c, 0);
    if Within(v, 32) {
      ShallowStructIsReadable(v, ByName(fields, c), 32);
    }
  }

  /** ... so a payload without a list of epochs comes back as it was exactly when it is in
      the table's spelling and the reader gets to the bottom of it. */
  lemma {:induction false} TypedRoundTripSpelled(v: Value, fields: seq<Field>, c: Cluster)
    requires WellFormedFields(fields) && WellFormed(c)
    requires v.Obj? && FitsStruct(v, ByName(fields, c))
    requires NoEpochsInStruct(v, ByName(fields, c))
    ensures EncodeStruct(v, ByName(fields, c)).Some?
    ensures DecodeNamed(EncodeStruct(v, ByName(fields, c)).value, fields, c, 0) == Some(v) <==>
            SpelledStruct(v, ByName(fields, c)) && ReadableStruct(v, ByName(fields, c), 31)
  {
    hide WellFormedFields, WellFormed, EncodeStruct, DecodeNamed, RespellStruct, NoEpochsInStruct, FitsStruct, Within,
      SpelledStruct, ReadableStruct;
    WriterTakesStruct(v, ByName(fields, c));
    TypedRoundTrip(v, fields, c);
    RespellStructIsIdentity(v, ByName(fields, c));
  }

  /** ... through the wire too: the calls that emit it, with anything after them, parse back
      to the one element, which decodes to the payload under the same condition. */
  lemma {:induction false} TypedRoundTripOnTheWire(v: Value, fields: seq<Field>, c: Cluster, tag: Tag,
      rest: seq<Token>)
    requires WellFormedFields(fields) && WellFormed(c)
    requires v.Obj? && FitsStruct(v, ByName(fields, c))
    requires NoEpochsInStruct(v, ByName(fields, c))
    ensures EncodeStruct(v, ByName(fields, c)).Some?
    ensures var parsed := TlvFraming.Read(Tokens(tag, EncodeStruct(v, ByName(fields, c)).value) + rest);
            && parsed.Some? && parsed.value.1 == rest
            && (DecodeNamed(parsed.value.0.value, fields, c, 0) == Some(v) <==>
                SpelledStruct(v, ByName(fields, c)) && ReadableStruct(v, ByName(fields, c), 31))
  {
    hide *;
    TypedRoundTripSpelled(v, fields, c);
    TlvFraming.ReadTokens(tag, EncodeStruct(v, ByName(fields, c)).value, rest);
  }
}

/** The encoding is canonical: it depends on the fields of a payload and not on how
    their keys are spelled, and every struct is in ascending order of tag. */
module Canonical {
  import opened Wrappers
  import opened Json
  import opened Idl
  import opened Tlv
  import opened TlvEncode
  import opened Spelling
  import opened ReadByName
  import opened RoundTrip
  import Base64

  // ------------------------------------------------------------ order of tags

  /** Every struct in `e` has context tags only, in strictly ascending order. */
  ghost predicate Ascending(e: Elem)
    decreases e, 1
  {
    match e
    case Struct(ms) => AscendingMembers(ms, 256)
    case Array(items) => AscendingItems(items)
    case List(items) => AscendingItems(items)
    case _ => true
  }

  ghost predicate AscendingItems(items: seq<Elem>)
    decreases items, 0
  {
    items == [] || (AscendingItems(items[..|items| - 1]) && Ascending(items[|items| - 1]))
  }

  /** ... with all tags below `bound`. */
  ghost predicate AscendingMembers(ms: seq<Member>, bound: nat)
    decreases ms, 0
  {
    ms == [] ||
    var m := ms[|ms| - 1];
    assert m.value < m;
    m.tag.Context? && m.tag.n < bound && AscendingMembers(ms[..|ms| - 1], m.tag.n) && Ascending(m.value)
  }

  lemma BoundGrows(ms: seq<Member>, low: nat, high: nat)
    requires AscendingMembers(ms, low) && low <= high
    ensures AscendingMembers(ms, high)
  {
  }

  lemma {:induction false} EncodingAscends(v: Value, hint: Option<TypeHint>)
    requires Encode(v, hint).Some?
    ensures Ascending(Encode(v, hint).value)
    decreases v, 3
  {
    hide FindBase, EncodeBase, EncodeStruct, NestedKeys;
    if hint.Some? && hint.value.isList {
      if v.Arr? {
        ItemEncodingsAscend(v.items, Some(hint.value.(isList := false)));
      }
    } else if hint.None? {
      UntypedEncodingAscends(v);
    } else if !v.Null? {
      var h := hint.value;
      if BaseType(h.ty).Some? {
        BaseIsLeaf(v, BaseType(h.ty).value);
      } else if StructOf(h).None? {
        UntypedEncodingAscends(v);
      } else {
        StructEncodingAscends(v, NestedKeys(v.fields, StructOf(h).value, h.cluster.value));
      }
    }
  }

  lemma {:induction false} BaseIsLeaf(v: Value, base: Base)
    requires EncodeBase(v, base).Some?
    ensures IsLeaf(EncodeBase(v, base).value)
  {
    hide Base64.Decode;
  }

  lemma {:induction false} UntypedEncodingAscends(v: Value)
    requires EncodeUntyped(v).Some?
    ensures Ascending(EncodeUntyped(v).value)
    decreases v, 2
  {
    hide EncodeStruct;
    if v.Arr? {
      ItemEncodingsAscend(v.items, None);
    } else if v.Obj? {
      StructEncodingAscends(v, ById(None));
    }
  }

  lemma {:induction false} ItemEncodingsAscend(vs: seq<Value>, hint: Option<TypeHint>)
    requires EncodeItems(vs, hint).Some?
    ensures AscendingItems(EncodeItems(vs, hint).value)
    decreases vs, 0
  {
    hide Encode, Ascending;
    if vs != [] {
      ItemEncodingsAscend(vs[..|vs| - 1], hint);
      EncodingAscends(vs[|vs| - 1], hint);
      var items := EncodeItems(vs, hint).value;
      assert items[..|items| - 1] == EncodeItems(vs[..|vs| - 1], hint).value;
    }
  }

  lemma {:induction false} StructEncodingAscends(v: Value, keys: Keys)
    requires v.Obj? && EncodeStruct(v, keys).Some?
    ensures Ascending(EncodeStruct(v, keys).value)
    decreases v, 1
  {
    hide Resolves, EncodeMembers, AscendingMembers;
    MemberEncodingsAscend(v, keys, 256);
  }

  lemma {:induction false} MemberEncodingsAscend(v: Value, keys: Keys, n: nat)
    requires v.Obj? && n <= 256 && Resolves(keys, v.fields) && EncodeMembers(v, keys, n).Some?
    ensures AscendingMembers(EncodeMembers(v, keys, n).value, n)
    decreases v, 0, n
  {
    hide Encode, EntryAt, Resolves, Ascending;
    if n > 0 {
      MemberEncodingsAscend(v, keys, n - 1);
      var front := EncodeMembers(v, keys, n - 1).value;
      var en := EntryAt(v, keys, n - 1);
      if en.None? {
        BoundGrows(front, n - 1, n);
      } else {
        EncodingAscends(en.value.value, en.value.hint);
        var ms := EncodeMembers(v, keys, n).value;
        assert ms[..|ms| - 1] == front;
      }
    }
  }

  // ------------------------------------------------- one encoding per payload

  /** Two payloads that both encode into a slot encode alike exactly when they are the
      same payload up to the spelling of keys. */
  lemma {:induction false} SameEncoding(a: Value, b: Value, hint: Option<TypeHint>)
    requires WellFormedHint(hint) && Encode(a, hint).Some? && Encode(b, hint).Some?
    ensures Encode(a, hint) == Encode(b, hint) <==> Respell(a, hint) == Respell(b, hint)
    decreases a, 4
  {
    hide FindBase, EncodeBase, EncodeStruct, RespellStruct, NestedKeys, WellFormed;
    if hint.None? {
      SameUntypedEncoding(a, b);
    } else if hint.value.isList {
      if a.Arr? && b.Arr? {
        SameItemEncodings(a.items, b.items, Some(hint.value.(isList := false)));
      }
    } else if BaseType(hint.value.ty).Some? {
      SameBaseEncodingOrNull(a, b, hint.value);
    } else if StructOf(hint.value).None? {
      WrittenByShape(a, hint.value);
      WrittenByShape(b, hint.value);
      SameUntypedEncodingOrNull(a, b, hint.value);
    } else {
      SameStructEncodingOrNull(a, b, hint.value);
    }
  }

  lemma {:induction false} SameStructEncodingOrNull(a: Value, b: Value, h: TypeHint)
    requires BaseType(h.ty).None? && StructOf(h).Some? && WellFormed(h.cluster.value)
    requires EncodeTyped(a, h).Some? && EncodeTyped(b, h).Some?
    ensures EncodeTyped(a, h) == EncodeTyped(b, h) <==> RespellTyped(a, h) == RespellTyped(b, h)
    decreases a, 2
  {
    hide BaseType, EncodeStruct, RespellStruct, NestedKeys, WellFormed;
    var s, c := StructOf(h).value, h.cluster.value;
    if a.Obj? {
      EncodedStructIsStruct(a, NestedKeys(a.fields, s, c));
    }
    if b.Obj? {
      EncodedStructIsStruct(b, NestedKeys(b.fields, s, c));
    }
    if a.Obj? && b.Obj? {
      NestedKeysOf(a.fields, s, c);
      NestedKeysOf(b.fields, s, c);
      NestedKeysWellFormed(a.fields, s, c);
      SameStructEncoding(a, b, NestedKeys(a.fields, s, c), NestedKeys(b.fields, s, c));
    }
  }

  lemma {:induction false} SameBaseEncodingOrNull(a: Value, b: Value, h: TypeHint)
    requires BaseType(h.ty).Some? && EncodeTyped(a, h).Some? && EncodeTyped(b, h).Some?
    ensures EncodeTyped(a, h) == EncodeTyped(b, h) <==> a == b
  {
    hide BaseType, EncodeBase;
    if !a.Null? {
      BaseIsNotNull(a, BaseType(h.ty).value);
    }
    if !b.Null? {
      BaseIsNotNull(b, BaseType(h.ty).value);
    }
    if !a.Null? && !b.Null? {
      SameBaseEncoding(a, b, BaseType(h.ty).value);
    }
  }

  lemma {:induction false} BaseIsNotNull(v: Value, base: Base)
    requires EncodeBase(v, base).Some?
    ensures !EncodeBase(v, base).value.NullElem?
  {
    hide Base64.Decode;
  }

  lemma {:induction false} SameBaseEncoding(a: Value, b: Value, base: Base)
    requires EncodeBase(a, base).Some? && EncodeBase(b, base).Some?
    ensures EncodeBase(a, base) == EncodeBase(b, base) <==> a == b
  {
    hide Base64.Decode, Base64.Encode, UnsignedLimit;
    if base.Octets? {
      Base64.EncodeDecode(a.s);
      Base64.EncodeDecode(b.s);
    }
  }

  lemma {:induction false} SameUntypedEncodingOrNull(a: Value, b: Value, h: TypeHint)
    requires BaseType(h.ty).None? && StructOf(h).None?
    requires EncodeTyped(a, h).Some? && EncodeTyped(b, h).Some?
    ensures EncodeTyped(a, h) == EncodeTyped(b, h) <==> RespellTyped(a, h) == RespellTyped(b, h)
    decreases a, 3
  {
    hide BaseType, StructOf, EncodeTyped, RespellTyped, EncodeUntyped, RespellUntyped;
    WrittenByShape(a, h);
    WrittenByShape(b, h);
    SameUntypedEncoding(a, b);
  }

  lemma {:induction false} SameUntypedEncoding(a: Value, b: Value)
    requires EncodeUntyped(a).Some? && EncodeUntyped(b).Some?
    ensures EncodeUntyped(a) == EncodeUntyped(b) <==> RespellUntyped(a) == RespellUntyped(b)
    decreases a, 2
  {
    hide EncodeStruct, RespellStruct;
    if a.Obj? {
      EncodedStructIsStruct(a, ById(None));
    }
    if b.Obj? {
      EncodedStructIsStruct(b, ById(None));
    }
    if a.Arr? && b.Arr? {
      SameItemEncodings(a.items, b.items, None);
    } else if a.Obj? && b.Obj? {
      SameStructEncoding(a, b, ById(None), ById(None));
    }
  }

  lemma {:induction false} EncodedStructIsStruct(v: Value, keys: Keys)
    requires v.Obj?
    ensures RespellStruct(v, keys).Obj?
    ensures EncodeStruct(v, keys).Some? ==> EncodeStruct(v, keys).value.Struct?
  {
    hide Resolves;
  }

  lemma {:induction false} SameItemEncodings(a: seq<Value>, b: seq<Value>, hint: Option<TypeHint>)
    requires WellFormedHint(hint) && EncodeItems(a, hint).Some? && EncodeItems(b, hint).Some?
    ensures EncodeItems(a, hint) == EncodeItems(b, hint) <==> RespellItems(a, hint) == RespellItems(b, hint)
    decreases a, 0
  {
    hide Encode, Respell, WellFormedHint;
    if a != [] && b != [] {
      var x, y := a[..|a| - 1], b[..|b| - 1];
      SameItemEncodings(x, y, hint);
      SameEncoding(a[|a| - 1], b[|b| - 1], hint);
      SnocsEqual(EncodeItems(x, hint).value, EncodeItems(y, hint).value,
                 Encode(a[|a| - 1], hint).value, Encode(b[|b| - 1], hint).value);
      SnocsEqual(RespellItems(x, hint), RespellItems(y, hint), Respell(a[|a| - 1], hint), Respell(b[|b| - 1], hint));
    }
  }

  lemma {:induction false} SnocsEqual<T>(a: seq<T>, b: seq<T>, x: T, y: T)
    ensures a + [x] == b + [y] <==> a == b && x == y
  {
    if a + [x] == b + [y] {
      assert a == (a + [x])[..|a|] && b == (b + [y])[..|b|];
      assert x == (a + [x])[|a|] && y == (b + [y])[|b|];
    }
  }

  /** The two ways to key a struct of one table, or of none. */
  predicate SameTable(k: Keys, l: Keys) {
    k == l || (k.ByName? && l == ById(Some((k.fields, k.cluster)))) ||
    (l.ByName? && k == ById(Some((l.fields, l.cluster))))
  }

  lemma {:induction false} SameStructEncoding(a: Value, b: Value, k: Keys, l: Keys)
    requires a.Obj? && b.Obj? && SameTable(k, l) && WellFormedKeys(k)
    requires EncodeStruct(a, k).Some? && EncodeStruct(b, l).Some?
    ensures EncodeStruct(a, k) == EncodeStruct(b, l) <==> RespellStruct(a, k) == RespellStruct(b, l)
    decreases a, 1
  {
    hide Resolves, EncodeMembers, RespellMembers, WellFormedKeys;
    SameMemberEncodings(a, b, k, l, 256);
  }

  lemma {:induction false} SameMemberEncodings(a: Value, b: Value, k: Keys, l: Keys, n: nat)
    requires a.Obj? && b.Obj? && SameTable(k, l) && WellFormedKeys(k) && n <= 256
    requires Resolves(k, a.fields) && Resolves(l, b.fields)
    requires EncodeMembers(a, k, n).Some? && EncodeMembers(b, l, n).Some?
    ensures EncodeMembers(a, k, n) == EncodeMembers(b, l, n) <==> RespellMembers(a, k, n) == RespellMembers(b, l, n)
    decreases a, 0, n
  {
    hide Encode, Respell, EntryAt, Resolve, Resolves, WellFormedKeys, SameTable, OutKey, AscendingMembers;
    if n > 0 {
      var i: Byte := n - 1;
      SameMemberEncodings(a, b, k, l, i);
      var ms, ns := EncodeMembers(a, k, i).value, EncodeMembers(b, l, i).value;
      var x, y := EntryAt(a, k, i), EntryAt(b, l, i);
      SameTableSameKey(k, l, i);
      RespelledAt(a, k, i, i);
      RespelledAt(b, l, i, i);
      LastTagIsBelow(a, k, i);
      LastTagIsBelow(b, l, i);
      if x.Some? && y.Some? {
        SameSlot(a, b, k, l, i);
        SameEncoding(x.value.value, y.value.value, x.value.hint);
        var e, f := Encode(x.value.value, x.value.hint).value, Encode(y.value.value, y.value.hint).value;
        SnocsEqual(ms, ns, Member(Context(i), e), Member(Context(i), f));
        UpdatedMapsEqual(RespellMembers(a, k, i), RespellMembers(b, l, i), OutKey(k, i),
                         Respell(x.value.value, x.value.hint), Respell(y.value.value, y.value.hint));
      }
    }
  }

  lemma {:induction false} LastTagIsBelow(v: Value, keys: Keys, n: nat)
    requires v.Obj? && n <= 256 && Resolves(keys, v.fields) && EncodeMembers(v, keys, n).Some?
    ensures var ms := EncodeMembers(v, keys, n).value;
            ms != [] ==> ms[|ms| - 1].tag.Context? && ms[|ms| - 1].tag.n < n
  {
    hide EncodeMembers;
    MemberEncodingsAscend(v, keys, n);
  }

  lemma {:induction false} SameTableSameKey(k: Keys, l: Keys, i: Byte)
    requires SameTable(k, l) && WellFormedKeys(k)
    ensures OutKey(k, i) == OutKey(l, i) && WellFormedKeys(l)
  {
    hide WellFormed, WellFormedFields;
  }

  /** A tag of one table carries one hint, whichever key named it. */
  lemma {:induction false} SameSlot(a: Value, b: Value, k: Keys, l: Keys, i: Byte)
    requires a.Obj? && b.Obj? && SameTable(k, l) && WellFormedKeys(k)
    requires Resolves(k, a.fields) && Resolves(l, b.fields)
    requires EntryAt(a, k, i).Some? && EntryAt(b, l, i).Some?
    ensures EntryAt(a, k, i).value.hint == EntryAt(b, l, i).value.hint && WellFormedHint(EntryAt(a, k, i).value.hint)
  {
    hide EntryAt, BaseType, WellFormed, WellFormedFields, WellFormedHint;
    var key :| key in a.fields && IsEntry(a, k, i, key, EntryAt(a, k, i).value);
    var other :| other in b.fields && IsEntry(b, l, i, other, EntryAt(b, l, i).value);
    SlotHintWellFormed(k, key);
    if k != ById(None) {
      var fields := if k.ByName? then k.fields else k.table.value.0;
      var c := if k.ByName? then k.cluster else k.table.value.1;
      SlotHint(k, fields, c, key);
      SlotHint(l, fields, c, other);
    }
  }
}

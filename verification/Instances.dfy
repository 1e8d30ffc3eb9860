/** Inputs at which the codec's round trips fail, and the reasons the theorems give; and what
    leaves and keys look like. */
module Instances {
  import opened Wrappers
  import opened Ascii
  import opened Json
  import opened Idl
  import Base64
  import Base64Standard
  import BaseTypes
  import opened Tlv
  import opened Decimal
  import opened TlvDecode
  import opened TlvEncode
  import opened Spelling
  import opened ReadByName
  import opened RoundTrip
  import opened Reports
  import opened Chunking

  lemma {:induction false} EpochSeconds()
    ensures BaseType("epoch_s") == Some(EpochS) && EpochOffset("epoch_s") == EPOCH_OFFSET_S
  {
    hide BaseType;
    BaseTypes.PlainTypes();
  }

  lemma {:induction false} OneItem(v: Value, h: TypeHint, d: nat)
    requires Encode(v, Some(h)).Some?
    ensures var e := Encode(v, Some(h)).value;
            && EncodeItems([v], Some(h)) == Some([e])
            && (Decode(e, d).Some? ==> DecodeItems([e], d) == Some([Decode(e, d).value]))
            && (NoEpochsInItems([v], h) ==> ItemHasNoEpoch(v, h))
  {
    hide Encode, Decode, ItemHasNoEpoch;
    var e := Encode(v, Some(h)).value;
    var none: seq<Value>, nothing: seq<Elem> := [], [];
    assert [v][..0] == none && [e][..0] == nothing;
    assert EncodeItems(none, Some(h)) == Some([]) && DecodeItems(nothing, d) == Some([]);
    assert nothing + [e] == [e];
    if Decode(e, d).Some? {
      assert none + [Decode(e, d).value] == [Decode(e, d).value];
    }
  }

  /** A list of epochs is written shifted and read back unshifted. */
  lemma {:induction false} ListedEpochIsLost(c: Cluster, types: AttrTypes, cluster: nat, attr: nat)
    requires types(cluster, attr) == "epoch_s"
    ensures var v, h := Arr([Num(EPOCH_OFFSET_S + 5)]), TypeHint("epoch_s", true, Some(c));
            && Encode(v, Some(h)).Some? && !NoListedEpochs(v, Some(h))
            && AttrValueToJson(types, cluster, attr, Encode(v, Some(h)).value) == Some(Arr([Num(5)]))
  {
    hide BaseType, EncodeItems, DecodeItems, NoEpochsInItems;
    EpochSeconds();
    var item, h := Num(EPOCH_OFFSET_S + 5), TypeHint("epoch_s", true, Some(c));
    var one := h.(isList := false);
    assert Encode(item, Some(one)) == EncodeTyped(item, one) == Some(Elem.Unsigned(5));
    OneItem(item, one, 1);
  }

  // ------------------------------------------------------------------- what stands

  /** The leaves of TLV and what they are in JSON, at any depth down to 32 and no deeper. */
  lemma {:induction false} LeavesRead(b: bool, u: U64, i: I64, s: string, bytes: seq<Byte>, d: nat)
    ensures d <= 32 ==>
              && Decode(NullElem, d) == Some(Null) && Decode(BoolElem(b), d) == Some(Value.Bool(b))
              && Decode(Elem.Unsigned(u), d) == Some(Num(u)) && Decode(Elem.Signed(i), d) == Some(Num(i))
              && Decode(Elem.Utf8(s), d) == Some(Str(s))
              && Decode(Elem.Octets(bytes), d) == Some(Str(Base64Standard.Standard(bytes)))
    ensures d > 32 ==> Decode(NullElem, d) == None && Decode(Elem.Utf8(s), d) == None
  {
    hide Base64.Encode, Base64Standard.Standard;
    Base64Standard.EncodingIsStandard(bytes);
  }

  /** The key of the On/Off attribute of endpoint 1. */
  lemma LightKey()
    ensures PathKey(1, 6, 0) == "1/6/0" && PathKey(10, 1029, 65533) == "10/1029/65533"
  {
  }

  // ------------------------------------------------------------------ in chunks

  lemma ConvertedScalar(types: AttrTypes, cl: nat, a: nat)
    requires EpochOffset(types(cl, a)) == EPOCH_OFFSET_S
    ensures AttrValueToJson(types, cl, a, Elem.Unsigned(5)) == Some(Num(EPOCH_OFFSET_S + 5))
  {
  }

  lemma {:induction false} ConvertedLists(types: AttrTypes, cl: nat, a: nat)
    ensures AttrValueToJson(types, cl, a, Array([])) == Some(Arr([]))
    ensures AttrValueToJson(types, cl, a, Array([Elem.Unsigned(5)])) == Some(Arr([Num(5)]))
  {
    hide EpochOffset;
    var none: seq<Elem>, nothing: seq<Value> := [], [];
    assert DecodeItems(none, 1) == Some([]);
    assert [Elem.Unsigned(5)][..0] == none && nothing + [Num(5)] == [Num(5)];
    assert DecodeItems([Elem.Unsigned(5)], 1) == Some([Num(5)]);
  }

  lemma {:induction false} ChangesOfTwo(types: AttrTypes, r: AttrReport, s: AttrReport)
    requires ChangeOf(types, r).Some? && ChangeOf(types, s).Some?
    ensures Changes(types, [r]) == [ChangeOf(types, r).value]
    ensures Changes(types, [r, s]) == [ChangeOf(types, r).value, ChangeOf(types, s).value]
  {
    hide ChangeOf;
    var none: seq<AttrReport>, nothing: seq<Change> := [], [];
    assert [r][..0] == none && [r, s][..1] == [r] && Changes(types, none) == nothing;
    assert nothing + [ChangeOf(types, r).value] == [ChangeOf(types, r).value];
  }

  lemma {:induction false} ApplyTwo(ch: Change, dh: Change)
    ensures ApplyAll([], [ch]) == Apply([], ch)
    ensures ApplyAll([], [ch, dh]) == Apply(Apply([], ch), dh)
  {
    hide Apply;
    var none: seq<Change> := [];
    assert [ch][..0] == none && [ch, dh][..1] == [ch] && ApplyAll([], none) == [];
  }

  lemma {:induction false} OpenThenAppend(key: string, v: Value)
    ensures Apply(Apply([], Change(key, Replace, Arr([]))), Change(key, Append, v)) == [(key, Arr([v]))]
  {
    var none: seq<Value> := [];
    assert none + [v] == [v];
    var one := Apply([], Change(key, Replace, Arr([])));
    assert one == [(key, Arr([]))];
    assert Find(one, key) == Some(0);
  }

  /** A list of one epoch in chunks and whole: the append is shifted, the list is not. */
  lemma {:induction false} ChunkedEpochIsShifted(types: AttrTypes, e: nat, cl: nat, a: nat)
    requires types(cl, a) == "epoch_s"
    ensures var path, items := AttrPath(Some(e), Some(cl), Some(a), Absent), [Elem.Unsigned(5)];
            && ApplyAll([], Changes(types, [Chunk(e, cl, a, items, 0, 0), Chunk(e, cl, a, items, 0, 1)])) ==
                 [(PathKey(e, cl, a), Arr([Num(EPOCH_OFFSET_S + 5)]))]
            && ApplyAll([], Changes(types, [Data(path, Array(items))])) == [(PathKey(e, cl, a), Arr([Num(5)]))]
  {
    hide BaseType, AttrValueToJson, PathKey, Changes, ApplyAll;
    EpochSeconds();
    ConvertedScalar(types, cl, a);
    ConvertedLists(types, cl, a);
    var items := [Elem.Unsigned(5)];
    var opening, append := Chunk(e, cl, a, items, 0, 0), Chunk(e, cl, a, items, 0, 1);
    var whole := Data(AttrPath(Some(e), Some(cl), Some(a), Absent), Array(items));
    assert items[..0] == [];
    ChangesOfTwo(types, opening, append);
    ChangesOfTwo(types, whole, whole);
    ApplyTwo(ChangeOf(types, opening).value, ChangeOf(types, append).value);
    OpenThenAppend(PathKey(e, cl, a), Num(EPOCH_OFFSET_S + 5));
    ApplyTwo(ChangeOf(types, whole).value, ChangeOf(types, whole).value);
  }

  // --------------------------------------------------------------- mixed structs

  /** One known member, under id 0, and one the table does not know. */
  const MIXED: map<string, Value> := map["0" := Null, "9" := Null]

  lemma {:induction false} MixedKeys(nested: StructDef, c: Cluster, ty: string)
    requires nested.fields == [Field(0, "a", ty, false)]
    ensures WellFormedFields(nested.fields)
    ensures var keys := NestedKeys(MIXED, nested, c);
            && keys == ById(Some((nested.fields, c))) && Resolves(keys, MIXED)
            && Resolve(keys, "0") == Some(Slot(0, Some(TypeHint(ty, false, Some(c)))))
            && Resolve(keys, "9") == Some(Slot(9, None))
            && OutKey(keys, 0) == "a" && OutKey(keys, 9) == "9"
    ensures Resolve(ByName(nested.fields, c), "9") == None && ParseU8("a") == None
  {
    hide ParseU8, Show;
    ParsedKeys();
    var keys := NestedKeys(MIXED, nested, c);
    assert keys == ById(Some((nested.fields, c)));
    assert FieldByCode(nested.fields, 0) == Some(nested.fields[0]);
    assert FieldByCode(nested.fields, 9) == None;
    assert !SameIgnoringCase("a", "9") by { assert Lower("a"[0]) != Lower("9"[0]); }
  }

  lemma {:induction false} ParsedKeys()
    ensures ParseU8("0") == Some(0) && ParseU8("9") == Some(9) && ParseU8("a") == None
    ensures Show(9) == "9"
  {
    assert ValueOf("0") == 0 && ValueOf("9") == 9;
    assert !IsDigit("a"[0]);
  }

  /** A payload with a known and an unknown member is written and read back; what is read
      cannot be written again, because its keys are neither all ids nor all names. */
  lemma {:induction false} MixedStructIsRefused(nested: StructDef, c: Cluster, ty: string)
    requires nested.fields == [Field(0, "a", ty, false)] && WellFormed(c)
    ensures var keys := NestedKeys(MIXED, nested, c);
            var w := RespellStruct(Obj(MIXED), keys);
            && EncodeStruct(Obj(MIXED), keys).Some?
            && w == Obj(map["a" := Null, "9" := Null])
            && EncodeStruct(w, NestedKeys(w.fields, nested, c)).None?
  {
    hide Resolve, OutKey, EncodeMembers, RespellMembers, BaseType, WellFormed, WellFormedFields, EntryAt, NestedKeys;
    MixedKeys(nested, c, ty);
    var v, keys := Obj(MIXED), NestedKeys(MIXED, nested, c);
    EntryOfKey(v, keys, "0");
    EntryOfKey(v, keys, "9");
    forall i: Byte | EntryAt(v, keys, i).Some?
      ensures (i == 0 || i == 9) && Encode(EntryAt(v, keys, i).value.value, EntryAt(v, keys, i).value.hint).Some?
    {
      var k :| k in MIXED && IsEntry(v, keys, i, k, EntryAt(v, keys, i).value);
      assert k == "0" || k == "9";
    }
    MembersEncode(v, keys, 256);
    RespelledAt(v, keys, 256, 0);
    RespelledAt(v, keys, 256, 9);
    var p := RespellMembers(v, keys, 256);
    forall key | key in p ensures key == "a" || key == "9" {
      var i := RespelledKey(v, keys, 256, key);
    }
    assert p == map["a" := Null, "9" := Null];
    RespelledIsByName(p, nested, c);
  }

  lemma {:induction false} RespelledIsByName(p: map<string, Value>, nested: StructDef, c: Cluster)
    requires p == map["a" := Null, "9" := Null] && ParseU8("a") == None
    requires Resolve(ByName(nested.fields, c), "9") == None
    ensures NestedKeys(p, nested, c) == ByName(nested.fields, c)
    ensures EncodeStruct(Obj(p), ByName(nested.fields, c)).None?
  {
    assert "a" in p && "9" in p;
  }
}

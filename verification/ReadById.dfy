/** Writing without a hint and reading back by field id. */
module ReadById {
  import opened Wrappers
  import opened Json
  import opened TlvDecode
  import opened TlvEncode
  import opened Spelling

  /** The members of `v` with a tag below `n` nest no deeper than `levels`. */
  ghost predicate WithinBelow(v: Value, keys: Keys, n: nat, levels: int)
    requires v.Obj? && Resolves(keys, v.fields)
  {
    forall i: Byte :: i < n && EntryAt(v, keys, i).Some? ==> Within(EntryAt(v, keys, i).value.value, levels)
  }

  lemma {:induction false} WithinAll(v: Value, keys: Keys, levels: int)
    requires v.Obj? && Resolves(keys, v.fields)
    ensures WithinBelow(v, keys, 256, levels) <==> forall k :: k in v.fields ==> Within(v.fields[k], levels)
  {
    if WithinBelow(v, keys, 256, levels) {
      forall k | k in v.fields ensures Within(v.fields[k], levels) {
        EntryOfKey(v, keys, k);
      }
    }
  }

  /** What the reader makes of an untyped encoding, at any starting depth. */
  lemma {:induction false} DecodeUntyped(v: Value, d: nat)
    requires EncodeUntyped(v).Some?
    ensures Decode(EncodeUntyped(v).value, d) == if Within(v, MAX_DEPTH - d) then Some(RespellUntyped(v)) else None
    decreases v, 2
  {
    hide EncodeStruct, RespellStruct, EncodeItems, RespellItems, DecodeItems, DecodeMembers, Base64.Encode;
    if d <= MAX_DEPTH {
      if v.Arr? {
        DecodeUntypedItems(v.items, d + 1);
      } else if v.Obj? {
        DecodeUntypedObject(v, d);
      }
    }
  }

  lemma {:induction false} DecodeUntypedObject(v: Value, d: nat)
    requires v.Obj? && EncodeStruct(v, ById(None)).Some? && d <= MAX_DEPTH
    ensures Decode(EncodeStruct(v, ById(None)).value, d) ==
            if Within(v, MAX_DEPTH - d) then Some(RespellStruct(v, ById(None))) else None
    decreases v, 1
  {
    hide EncodeMembers, RespellMembers, DecodeMembers, EntryAt, Resolves, WithinBelow;
    DecodeUntypedMembers(v, 256, d + 1);
    WithinAll(v, ById(None), MAX_DEPTH - d - 1);
  }

  lemma {:induction false} DecodeUntypedItems(vs: seq<Value>, d: nat)
    requires EncodeItems(vs, None).Some?
    ensures DecodeItems(EncodeItems(vs, None).value, d) ==
            if forall i :: 0 <= i < |vs| ==> Within(vs[i], MAX_DEPTH - d) then Some(RespellItems(vs, None)) else None
    decreases vs, 0
  {
    if vs != [] {
      var front, last := vs[..|vs| - 1], vs[|vs| - 1];
      DecodeUntypedItems(front, d);
      DecodeUntyped(last, d);
      assert EncodeItems(vs, None).value[..|vs| - 1] == EncodeItems(front, None).value;
      assert (forall i :: 0 <= i < |vs| ==> Within(vs[i], MAX_DEPTH - d)) <==>
        (forall i :: 0 <= i < |front| ==> Within(front[i], MAX_DEPTH - d)) && Within(last, MAX_DEPTH - d);
    }
  }

  lemma NoHint(v: Value, n: Byte)
    requires v.Obj? && Resolves(ById(None), v.fields) && EntryAt(v, ById(None), n).Some?
    ensures EntryAt(v, ById(None), n).value.hint == None
  {
  }

  lemma {:induction false} DecodeUntypedEntry(v: Value, d: nat)
    requires Encode(v, None).Some?
    ensures Decode(Encode(v, None).value, d) == if Within(v, MAX_DEPTH - d) then Some(Respell(v, None)) else None
    decreases v, 3
  {
    hide EncodeUntyped, RespellUntyped, Decode, Within;
    DecodeUntyped(v, d);
  }

  lemma {:induction false} DecodeUntypedMembers(v: Value, n: nat, d: nat)
    requires v.Obj? && n <= 256 && Resolves(ById(None), v.fields)
    requires EncodeMembers(v, ById(None), n).Some?
    ensures DecodeMembers(EncodeMembers(v, ById(None), n).value, d) ==
            if WithinBelow(v, ById(None), n, MAX_DEPTH - d) then Some(RespellMembers(v, ById(None), n)) else None
    decreases v, 0, n
  {
    hide Within, Resolve, Encode, Respell;
    if n > 0 {
      DecodeUntypedMembers(v, n - 1, d);
      var last: Byte := n - 1;
      var en := EntryAt(v, ById(None), last);
      if en.Some? {
        NoHint(v, last);
        DecodeUntypedEntry(en.value.value, d);
        var ms := EncodeMembers(v, ById(None), n).value;
        assert ms[..|ms| - 1] == EncodeMembers(v, ById(None), n - 1).value;
      }
    }
  }
}

/** The writers as they run: each emits its calls on a writer, and what it has emitted
    when it succeeds is the encoding of its value. */
module TlvWriter {
  import opened Wrappers
  import opened Json
  import opened Idl
  import opened Tlv
  import opened Decimal
  import opened TlvEncode
  import opened TlvDecode
  import Base64

  /** `TLVWrite`: the calls made so far. */
  class Writer {
    var out: seq<Token>

    constructor ()
      ensures out == []
    {
      out := [];
    }

    method Emit(t: Token)
      modifies this
      ensures out == old(out) + [t]
    {
      out := out + [t];
    }
  }

  /** What a writer promises: success exactly when `e` is an element, whose calls have
      then been appended. */
  ghost predicate Emitted(before: seq<Token>, after: seq<Token>, tag: Tag, e: Option<Elem>, ok: bool) {
    && ok == e.Some?
    && (ok ==> after == before + Tokens(tag, e.value))
  }

  /** `write_json` */
  method WriteJson(w: Writer, tag: Tag, v: Value, hint: Option<TypeHint>) returns (ok: bool)
    modifies w
    ensures Emitted(old(w.out), w.out, tag, Encode(v, hint), ok)
    decreases v, 4
  {
    hide EncodeTyped, EncodeUntyped, EncodeItems;
    if hint.None? {
      ok := WriteHeuristic(w, tag, v);
    } else if !hint.value.isList {
      ok := WriteHinted(w, tag, v, hint.value);
    } else if v.Null? {
      w.Emit(Leaf(tag, NullElem));
      return true;
    } else if v.Arr? {
      ok := WriteArray(w, tag, v.items, Some(hint.value.(isList := false)));
    } else {
      return false;
    }
  }

  /** The array loop of `write_json` and of `write_heuristic`. */
  method WriteArray(w: Writer, tag: Tag, items: seq<Value>, hint: Option<TypeHint>) returns (ok: bool)
    modifies w
    ensures ok == EncodeItems(items, hint).Some?
    ensures ok ==> w.out == old(w.out) + Tokens(tag, Array(EncodeItems(items, hint).value))
    decreases items, 0
  {
    hide Encode, EncodeItems, ItemTokens;
    NoItems(hint);
    w.Emit(StartArray(tag));
    ghost var start := w.out;
    ghost var done: seq<Elem> := [];
    for i := 0 to |items|
      invariant EncodeItems(items[..i], hint) == Some(done)
      invariant w.out == start + ItemTokens(done)
    {
      OneItemMore(items, i, hint);
      var written := WriteJson(w, Anonymous, items[i], hint);
      if !written {
        ItemsFail(items, i, hint);
        return false;
      }
      ghost var e := Encode(items[i], hint).value;
      ItemTokensSnoc(done, e);
      done := done + [e];
    }
    assert items[..|items|] == items;
    w.Emit(EndContainer);
    return true;
  }

  lemma NoItems(hint: Option<TypeHint>)
    ensures EncodeItems([], hint) == Some([]) && ItemTokens([]) == []
  {
  }

  lemma {:induction false} OneItemMore(items: seq<Value>, i: nat, hint: Option<TypeHint>)
    requires i < |items|
    ensures var done, e := EncodeItems(items[..i], hint), Encode(items[i], hint);
            EncodeItems(items[..i + 1], hint) ==
            if done.Some? && e.Some? then Some(done.value + [e.value]) else None
  {
    hide Encode;
    assert items[..i + 1][..i] == items[..i];
  }

  lemma {:induction false} ItemsFail(items: seq<Value>, i: nat, hint: Option<TypeHint>)
    requires i < |items| && EncodeItems(items[..i + 1], hint).None?
    ensures EncodeItems(items, hint).None?
  {
    hide Encode;
    if i + 1 < |items| {
      assert items[..|items| - 1][..i + 1] == items[..i + 1];
      ItemsFail(items[..|items| - 1], i, hint);
    } else {
      assert items[..i + 1] == items;
    }
  }

  /** `write_hinted` and `write_hinted_struct` */
  method WriteHinted(w: Writer, tag: Tag, v: Value, h: TypeHint) returns (ok: bool)
    modifies w
    ensures Emitted(old(w.out), w.out, tag, EncodeTyped(v, h), ok)
    decreases v, 3
  {
    hide FindBase, EncodeBase, EncodeUntyped, EncodeStruct;
    if v.Null? {
      w.Emit(Leaf(tag, NullElem));
      return true;
    }
    var base := BaseType(h.ty);
    if base.Some? {
      ok := WriteBase(w, tag, v, base.value);
      return;
    }
    var nested := StructOf(h);
    if nested.None? {
      ok := WriteHeuristic(w, tag, v);
      return;
    }
    if !v.Obj? {
      return false;
    }
    var byId := forall k :: k in v.fields ==> ParseU8(k).Some?;
    if byId {
      ok := EmitStruct(w, tag, v, ById(Some((nested.value.fields, h.cluster.value))));
    } else {
      ok := EmitStruct(w, tag, v, ByName(nested.value.fields, h.cluster.value));
    }
  }

  /** `write_base`, with `write_unsigned` and `write_signed` */
  method WriteBase(w: Writer, tag: Tag, v: Value, base: Base) returns (ok: bool)
    modifies w
    ensures Emitted(old(w.out), w.out, tag, EncodeBase(v, base), ok)
  {
    match base {
      case Bool =>
        if !v.Bool? {
          return false;
        }
        w.Emit(Leaf(tag, BoolElem(v.b)));
      case Float =>
        return false;
      case Utf8 =>
        if !v.Str? {
          return false;
        }
        w.Emit(Leaf(tag, Elem.Utf8(v.s)));
      case Octets =>
        var raw := if v.Str? then Base64.Decode(v.s) else None;
        if raw.None? {
          return false;
        }
        w.Emit(Leaf(tag, Elem.Octets(raw.value)));
      case EpochS =>
        var matter := ToMatterEpoch(v, EPOCH_OFFSET_S);
        if matter.None? || matter.value > 0xffff_ffff {
          return false;
        }
        w.Emit(Leaf(tag, Elem.Unsigned(matter.value)));
      case EpochUs =>
        var matter := ToMatterEpoch(v, EPOCH_OFFSET_US);
        if matter.None? {
          return false;
        }
        w.Emit(Leaf(tag, Elem.Unsigned(matter.value)));
      case Unsigned(width) =>
        var n := v.AsU64();
        if n.None? || n.value >= UnsignedLimit(width) {
          return false;
        }
        w.Emit(Leaf(tag, Elem.Unsigned(n.value)));
      case Signed(width) =>
        var n := v.AsI64();
        var limit := UnsignedLimit(width) / 2;
        if n.None? || !(-limit <= n.value < limit) {
          return false;
        }
        w.Emit(Leaf(tag, Elem.Signed(n.value)));
    }
    return true;
  }

  /** Inverse of `ApplyEpoch`: a Unix time before the Matter epoch is none. */
  function ToMatterEpoch(v: Value, offset: nat): (r: Option<U64>)
    ensures r.Some? ==> v.Num? && r.value + offset == v.n
  {
    var n :- v.AsU64();
    if n < offset then None else Some(n - offset)
  }

  /** `write_heuristic` */
  method WriteHeuristic(w: Writer, tag: Tag, v: Value) returns (ok: bool)
    modifies w
    ensures Emitted(old(w.out), w.out, tag, EncodeUntyped(v), ok)
    decreases v, 2
  {
    hide EncodeItems, EncodeStruct;
    match v {
      case Null => w.Emit(Leaf(tag, NullElem));
      case Bool(b) => w.Emit(Leaf(tag, BoolElem(b)));
      case Num(n) =>
        if n >= 0 {
          w.Emit(Leaf(tag, Elem.Unsigned(n)));
        } else {
          w.Emit(Leaf(tag, Elem.Signed(n)));
        }
      case Str(s) => w.Emit(Leaf(tag, Elem.Utf8(s)));
      case Arr(items) =>
        ok := WriteArray(w, tag, items, None);
        return;
      case Obj(_) =>
        ok := EmitStruct(w, tag, v, ById(None));
        return;
    }
    return true;
  }

  /** The entries of the keys in `seen`, by tag. */
  ghost predicate Collected(v: Value, keys: Keys, seen: set<string>, sorted: map<Byte, Entry>)
    requires v.Obj?
  {
    && (forall k :: k in seen ==> k in v.fields && Resolve(keys, k).Some?)
    && (forall k, l :: k in seen && l in seen && Resolve(keys, k).value.tag == Resolve(keys, l).value.tag ==> k == l)
    && (forall k :: k in seen ==>
          var slot := Resolve(keys, k).value;
          slot.tag in sorted && sorted[slot.tag] == Entry(v.fields[k], slot.hint))
    && (forall n :: n in sorted ==> exists k :: k in seen && Resolve(keys, k).value.tag == n)
  }

  /** `emit_struct`, and with it `write_json_named` and `write_tag_based_struct`: the
      members are collected by tag, in whatever order the keys come, then written in
      ascending order. A key that names no slot, or a tag named twice, is an error. */
  method EmitStruct(w: Writer, tag: Tag, v: Value, keys: Keys) returns (ok: bool)
    requires v.Obj?
    modifies w
    ensures Emitted(old(w.out), w.out, tag, EncodeStruct(v, keys), ok)
    decreases v, 1
  {
    hide EncodeMembers;
    var sorted := CollectByTag(v, keys);
    if sorted.None? {
      return false;
    }
    w.Emit(StartStruct(tag));
    var written := EmitMembers(w, v, keys, sorted.value);
    if !written {
      return false;
    }
    w.Emit(EndContainer);
    return true;
  }

  method CollectByTag(v: Value, keys: Keys) returns (r: Option<map<Byte, Entry>>)
    requires v.Obj?
    ensures r.Some? <==> Resolves(keys, v.fields)
    ensures r.Some? ==> forall n: Byte :: n in r.value <==> EntryAt(v, keys, n).Some?
    ensures r.Some? ==> forall n: Byte :: n in r.value ==> EntryAt(v, keys, n) == Some(r.value[n])
  {
    hide Resolve, EntryAt;
    var sorted: map<Byte, Entry> := map[];
    var rest := v.fields.Keys;
    ghost var seen: set<string> := {};
    while rest != {}
      invariant seen + rest == v.fields.Keys && seen !! rest
      invariant Collected(v, keys, seen, sorted)
      decreases rest
    {
      var key :| key in rest;
      var slot := Resolve(keys, key);
      if slot.None? || slot.value.tag in sorted {
        return None;
      }
      sorted := sorted[slot.value.tag := Entry(v.fields[key], slot.value.hint)];
      rest := rest - {key};
      seen := seen + {key};
    }
    forall n: Byte
      ensures n in sorted <==> EntryAt(v, keys, n).Some?
      ensures n in sorted ==> EntryAt(v, keys, n) == Some(sorted[n])
    {
      CollectedEntry(v, keys, sorted, n);
    }
    return Some(sorted);
  }

  lemma {:induction false} CollectedEntry(v: Value, keys: Keys, sorted: map<Byte, Entry>, n: Byte)
    requires v.Obj? && Resolves(keys, v.fields) && Collected(v, keys, v.fields.Keys, sorted)
    ensures n in sorted <==> EntryAt(v, keys, n).Some?
    ensures n in sorted ==> EntryAt(v, keys, n) == Some(sorted[n])
  {
    hide Resolve, EntryAt;
    if n in sorted {
      var k :| k in v.fields.Keys && Resolve(keys, k).value.tag == n;
      EntryOfKey(v, keys, k);
    }
  }

  method EmitMembers(w: Writer, v: Value, keys: Keys, sorted: map<Byte, Entry>) returns (ok: bool)
    requires v.Obj? && Resolves(keys, v.fields)
    requires forall n: Byte :: n in sorted <==> EntryAt(v, keys, n).Some?
    requires forall n: Byte :: n in sorted ==> EntryAt(v, keys, n) == Some(sorted[n])
    modifies w
    ensures ok == EncodeMembers(v, keys, 256).Some?
    ensures ok ==> w.out == old(w.out) + MemberTokens(EncodeMembers(v, keys, 256).value)
    decreases v, 0
  {
    hide Resolve, EntryAt, Encode;
    ghost var start := w.out;
    ghost var done: seq<Member> := [];
    for n := 0 to 256
      invariant EncodeMembers(v, keys, n) == Some(done)
      invariant w.out == start + MemberTokens(done)
    {
      if n in sorted {
        var en := sorted[n];
        assert EntryAt(v, keys, n) == Some(en);
        var written := WriteJson(w, Context(n), en.value, en.hint);
        if !written {
          MembersFail(v, keys, n);
          return false;
        }
        ghost var m := Member(Context(n), Encode(en.value, en.hint).value);
        MemberTokensSnoc(done, m);
        done := done + [m];
      }
    }
    return true;
  }

  lemma {:induction false} MembersFail(v: Value, keys: Keys, n: nat)
    requires v.Obj? && Resolves(keys, v.fields) && n < 256 && EncodeMembers(v, keys, n + 1).None?
    ensures EncodeMembers(v, keys, 256).None?
    decreases 256 - n
  {
    hide Resolve, EntryAt, Encode;
    if n + 1 < 256 {
      MembersFail(v, keys, n + 1);
    }
  }
}

/** Decoding by name refines decoding by field id: the same members, known ones renamed
    and scalar epochs shifted. */
module NamedDecode {
  import opened Wrappers
  import opened Json
  import opened Idl
  import opened Tlv
  import opened Decimal
  import opened TlvDecode
  import opened Spelling

  /** `j` is the value `k` with the ids of a struct of `fields` renamed. */
  ghost predicate Renamed(k: Value, j: Value, fields: seq<Field>, c: Cluster)
    decreases k, 2
  {
    if k.Obj? then j.Obj? && RenamedFields(k, j.fields, fields, c) else j == k
  }

  predicate IsId(key: string, n: Byte) { key == Show(n) }

  predicate IsKey(fields: seq<Field>, key: string, n: Byte) { key == NamedKey(fields, n) }

  /** `obj` has one member for each of `k`, under its name when the table knows the id,
      and nothing else. */
  ghost predicate RenamedFields(k: Value, obj: map<string, Value>, fields: seq<Field>, c: Cluster)
    requires k.Obj?
    decreases k, 1
  {
    && (forall key :: key in k.fields ==> exists n: Byte :: IsId(key, n))
    && (forall key :: key in obj ==> exists n: Byte :: IsKey(fields, key, n))
    && (forall n: Byte :: RenamedAt(k, obj, fields, c, n))
  }

  ghost predicate RenamedAt(k: Value, obj: map<string, Value>, fields: seq<Field>, c: Cluster, n: Byte)
    requires k.Obj?
    decreases k, 0
  {
    && (Show(n) in k.fields <==> NamedKey(fields, n) in obj)
    && (Show(n) in k.fields ==>
         RenamedMember(k.fields[Show(n)], obj[NamedKey(fields, n)], FieldByCode(fields, n), c))
  }

  ghost predicate RenamedMember(k: Value, j: Value, f: Option<Field>, c: Cluster)
    decreases k, 4
  {
    if f.Some? then RenamedField(k, j, f.value, c) else j == k
  }

  /** A field whose type is a struct is renamed in turn, through one list; any other is
      kept, shifted to Unix time if it is a scalar epoch. */
  ghost predicate RenamedField(k: Value, j: Value, f: Field, c: Cluster)
    decreases k, 3
  {
    match FindStruct(c, f.ty)
    case None => ApplyEpoch(f.ty, k) == Some(j)
    case Some(nested) =>
      if k.Arr? then
        j.Arr? && |j.items| == |k.items| &&
        forall i :: 0 <= i < |k.items| ==> Renamed(k.items[i], j.items[i], nested.fields, c)
      else Renamed(k, j, nested.fields, c)
  }

  lemma {:induction false} NamedRefines(e: Elem, fields: seq<Field>, c: Cluster, d: nat)
    requires WellFormedFields(fields) && WellFormed(c)
    requires Decode(e, d).Some? && DecodeNamed(e, fields, c, d).Some?
    ensures Renamed(Decode(e, d).value, DecodeNamed(e, fields, c, d).value, fields, c)
    decreases e, 1
  {
    hide WellFormedFields, WellFormed, DecodeMembers, DecodeNamedMembers, RenamedFields;
    if e.Struct? {
      NamedMembersRefine(e.members, fields, c, d + 1);
    } else {
      OnlyStructsAreObjects(e, d);
    }
  }

  lemma OnlyStructsAreObjects(e: Elem, d: nat)
    requires Decode(e, d).Some?
    ensures Decode(e, d).value.Obj? <==> e.Struct?
    ensures Decode(e, d).value.Arr? <==> e.Array? || e.List?
  {
  }

  /** The relation holds of the members decoded so far; `Obj` only wraps them. */
  lemma {:induction false} NamedMembersRefine(ms: seq<Member>, fields: seq<Field>, c: Cluster, d: nat)
    requires WellFormedFields(fields) && WellFormed(c)
    requires DecodeMembers(ms, d).Some? && DecodeNamedMembers(ms, fields, c, d).Some?
    ensures RenamedFields(Obj(DecodeMembers(ms, d).value), DecodeNamedMembers(ms, fields, c, d).value, fields, c)
    decreases ms, 0
  {
    hide WellFormedFields, WellFormed, Decode, DecodeMember, RenamedMember, RenamedFields, NamedKey, Show;
    if ms == [] {
      NothingRenamed(fields, c);
    } else {
      var m := ms[|ms| - 1];
      assert m.value < m;
      NamedMembersRefine(ms[..|ms| - 1], fields, c, d);
      if m.tag.Context? {
        NamedMemberRefines(m.value, FieldByCode(fields, m.tag.n), c, d);
        OneMoreRenamed(DecodeMembers(ms[..|ms| - 1], d).value, DecodeNamedMembers(ms[..|ms| - 1], fields, c, d).value,
                       fields, c, m.tag.n, Decode(m.value, d).value,
                       DecodeMember(m.value, FieldByCode(fields, m.tag.n), c, d).value);
      }
    }
  }

  lemma NothingRenamed(fields: seq<Field>, c: Cluster)
    ensures RenamedFields(Obj(map[]), map[], fields, c)
  {
  }

  lemma {:induction false} OneMoreRenamed(ks: map<string, Value>, js: map<string, Value>, fields: seq<Field>,
      c: Cluster,
                       n: Byte, k: Value, j: Value)
    requires WellFormedFields(fields) && WellFormed(c)
    requires RenamedFields(Obj(ks), js, fields, c) && RenamedMember(k, j, FieldByCode(fields, n), c)
    ensures RenamedFields(Obj(ks[Show(n) := k]), js[NamedKey(fields, n) := j], fields, c)
  {
    hide RenamedAt, NamedKey, Show;
    var more, named := ks[Show(n) := k], js[NamedKey(fields, n) := j];
    assert IsId(Show(n), n) && IsKey(fields, NamedKey(fields, n), n);
    hide IsId, IsKey, RenamedMember;
    forall key | key in more ensures exists m: Byte :: IsId(key, m) {
      assert key == Show(n) || key in ks;
    }
    forall key | key in named ensures exists m: Byte :: IsKey(fields, key, m) {
      assert key == NamedKey(fields, n) || key in js;
    }
    forall m: Byte ensures RenamedAt(Obj(more), named, fields, c, m) {
      assert RenamedAt(Obj(ks), js, fields, c, m);
      KeysApart(fields, m, n);
      StillRenamed(ks, js, fields, c, n, k, j, m);
    }
  }

  lemma {:induction false} KeysApart(fields: seq<Field>, m: Byte, n: Byte)
    requires WellFormedFields(fields)
    ensures m != n ==> Show(m) != Show(n) && NamedKey(fields, m) != NamedKey(fields, n)
  {
    hide WellFormedFields, Show, NamedKey;
    if Show(m) == Show(n) {
      ShowInjective(m, n);
    }
    if NamedKey(fields, m) == NamedKey(fields, n) {
      NamedKeyInjective(fields, m, n);
    }
  }

  lemma {:induction false} StillRenamed(ks: map<string, Value>, js: map<string, Value>, fields: seq<Field>,
      c: Cluster,
                     n: Byte, k: Value, j: Value, m: Byte)
    requires RenamedAt(Obj(ks), js, fields, c, m) && RenamedMember(k, j, FieldByCode(fields, n), c)
    requires m != n ==> Show(m) != Show(n) && NamedKey(fields, m) != NamedKey(fields, n)
    ensures RenamedAt(Obj(ks[Show(n) := k]), js[NamedKey(fields, n) := j], fields, c, m)
  {
    hide RenamedMember, NamedKey, Show;
  }

  lemma {:induction false} NamedMemberRefines(e: Elem, f: Option<Field>, c: Cluster, d: nat)
    requires WellFormed(c) && Decode(e, d).Some? && DecodeMember(e, f, c, d).Some?
    ensures RenamedMember(Decode(e, d).value, DecodeMember(e, f, c, d).value, f, c)
    decreases e, 3
  {
    hide WellFormed, Decode, DecodeField, RenamedField;
    if f.Some? {
      NamedFieldRefines(e, f.value, c, d);
    }
  }

  lemma {:induction false} NamedFieldRefines(e: Elem, f: Field, c: Cluster, d: nat)
    requires WellFormed(c) && Decode(e, d).Some? && DecodeField(e, f, c, d).Some?
    ensures RenamedField(Decode(e, d).value, DecodeField(e, f, c, d).value, f, c)
    decreases e, 2
  {
    hide BaseType, RenamedFields, DecodeMembers, DecodeNamedMembers;
    OnlyStructsAreObjects(e, d);
    var nested := FindStruct(c, f.ty);
    if nested.Some? {
      if e.Struct? {
        NamedRefines(e, nested.value.fields, c, d);
      } else if e.Array? || e.List? {
        NamedItemsRefine(e.items, nested.value.fields, c, d + 1);
      }
    }
  }

  lemma {:induction false} NamedItemsRefine(items: seq<Elem>, fields: seq<Field>, c: Cluster, d: nat)
    requires WellFormedFields(fields) && WellFormed(c)
    requires DecodeItems(items, d).Some? && DecodeNamedItems(items, fields, c, d).Some?
    ensures forall i :: 0 <= i < |items| ==>
              Renamed(DecodeItems(items, d).value[i], DecodeNamedItems(items, fields, c, d).value[i], fields, c)
    decreases items, 0
  {
    hide WellFormedFields, WellFormed, Decode, DecodeNamed, Renamed;
    if items != [] {
      NamedItemsRefine(items[..|items| - 1], fields, c, d);
      NamedRefines(items[|items| - 1], fields, c, d);
    }
  }
}

/** JSON to TLV (`write_json`, `write_json_named`): what the writers emit, as a tree. */
module TlvEncode {
  import opened Wrappers
  import opened Ascii
  import opened Json
  import opened Idl
  import opened Tlv
  import opened Decimal
  import opened TlvDecode
  import Base64

  /** What the tables say of the slot a value is written into. */
  datatype TypeHint = TypeHint(ty: string, isList: bool, cluster: Option<Cluster>)

  /** How the keys of an object name context tags: by field name, or by field id with
      the hints of a table when there is one. */
  datatype Keys =
    | ByName(fields: seq<Field>, cluster: Cluster)
    | ById(table: Option<(seq<Field>, Cluster)>)

  datatype Slot = Slot(tag: Byte, hint: Option<TypeHint>)

  function HintOf(f: Field, c: Cluster): TypeHint {
    TypeHint(f.ty, f.isList, Some(c))
  }

  /** The slot a key names, or None for a key that names none. */
  function Resolve(keys: Keys, key: string): Option<Slot> {
    match keys
    case ByName(fields, c) =>
      var f :- FieldByName(fields, key);
      if f.code > 255 then None else Some(Slot(f.code, Some(HintOf(f, c))))
    case ById(table) =>
      var n :- ParseU8(key);
      if table.None? then Some(Slot(n, None))
      else
        match FieldByCode(table.value.0, n)
        case Some(f) => Some(Slot(n, Some(HintOf(f, table.value.1))))
        case None => Some(Slot(n, None))
  }

  /** By name a key names the field that is spelled like it, in any letters, with the field's
      own tag and type; a key like no name, and a field whose id is no tag, name nothing. */
  lemma {:induction false} KeysOfNames(fields: seq<Field>, c: Cluster, key: string)
    requires WellFormedFields(fields)
    ensures forall f :: f in fields && SameLetters(f.name, key) ==>
              Resolve(ByName(fields, c), key) ==
              if f.code <= 255 then Some(Slot(f.code, Some(TypeHint(f.ty, f.isList, Some(c))))) else None
    ensures (forall f :: f in fields ==> !SameLetters(f.name, key)) ==> Resolve(ByName(fields, c), key) == None
  {
    hide SameLetters, SameIgnoringCase, WellFormedFields;
    forall f | f in fields
      ensures FieldByName(fields, key) == Some(f) <==> SameLetters(f.name, key)
    {
      FoundInAnyCase(fields, f, key);
    }
  }

  /** By id a key names the tag it is the number of, with the type of the field that has it. */
  lemma {:induction false} KeysOfIds(fields: seq<Field>, c: Cluster, key: string, n: Byte)
    requires WellFormedFields(fields) && Names(key, n)
    ensures Resolve(ById(None), key) == Some(Slot(n, None))
    ensures forall f :: f in fields && f.code == n ==>
              Resolve(ById(Some((fields, c))), key) == Some(Slot(n, Some(TypeHint(f.ty, f.isList, Some(c)))))
    ensures (forall f :: f in fields ==> f.code != n) ==> Resolve(ById(Some((fields, c))), key) == Some(Slot(n, None))
  {
    hide Names, Show, SameIgnoringCase;
    UsualIsShow(key, n);
    ParseShow(n);
  }

  /** Every key names a slot and no two name the same tag. */
  ghost predicate Resolves(keys: Keys, obj: map<string, Value>) {
    && (forall k :: k in obj ==> Resolve(keys, k).Some?)
    && (forall k, l :: k in obj && l in obj && Resolve(keys, k).value.tag == Resolve(keys, l).value.tag ==> k == l)
  }

  /** A member as it will be written: the value and what the tables say of its slot. */
  datatype Entry = Entry(value: Value, hint: Option<TypeHint>)

  /** The entry of `v` under tag `n`. */
  ghost function EntryAt(v: Value, keys: Keys, n: Byte): (r: Option<Entry>)
    requires v.Obj? && Resolves(keys, v.fields)
    ensures r.Some? ==> r.value.value < v
    ensures r.Some? ==> exists k :: k in v.fields && IsEntry(v, keys, n, k, r.value)
    ensures r.None? ==> forall k :: k in v.fields ==> Resolve(keys, k).value.tag != n
  {
    if exists k :: k in v.fields && Resolve(keys, k).value.tag == n then
      var k :| k in v.fields && Resolve(keys, k).value.tag == n;
      var en := Entry(v.fields[k], Resolve(keys, k).value.hint);
      assert IsEntry(v, keys, n, k, en);
      Some(en)
    else None
  }

  ghost predicate IsEntry(v: Value, keys: Keys, n: Byte, k: string, en: Entry)
    requires v.Obj? && k in v.fields
  {
    Resolve(keys, k) == Some(Slot(n, en.hint)) && en.value == v.fields[k]
  }

  /** A key's entry stands under the tag the key names. */
  lemma EntryOfKey(v: Value, keys: Keys, k: string)
    requires v.Obj? && Resolves(keys, v.fields) && k in v.fields
    ensures var slot := Resolve(keys, k).value;
            EntryAt(v, keys, slot.tag) == Some(Entry(v.fields[k], slot.hint))
  {
  }

  // ------------------------------------------------------------------ leaves

  function UnsignedLimit(width: Width): nat {
    if width == 1 then 0x100
    else if width == 2 then 0x1_0000
    else if width == 3 then 0x100_0000
    else if width == 4 then 0x1_0000_0000
    else if width == 5 then 0x100_0000_0000
    else if width == 6 then 0x1_0000_0000_0000
    else if width == 7 then 0x100_0000_0000_0000
    else 0x1_0000_0000_0000_0000
  }

  /** A base-typed value. An epoch is written relative to 2000-01-01, and a Unix time
      below that offset is an error; every integer is checked against its width. */
  function EncodeBase(v: Value, base: Base): Option<Elem> {
    match base
    case Bool => if v.Bool? then Some(BoolElem(v.b)) else None
    case Utf8 => if v.Str? then Some(Elem.Utf8(v.s)) else None
    case Octets =>
      if !v.Str? then None
      else var raw :- Base64.Decode(v.s); Some(Elem.Octets(raw))
    case EpochS =>
      var n :- v.AsU64();
      if n < EPOCH_OFFSET_S || n - EPOCH_OFFSET_S > 0xffff_ffff then None
      else Some(Elem.Unsigned(n - EPOCH_OFFSET_S))
    case EpochUs =>
      var n :- v.AsU64();
      if n < EPOCH_OFFSET_US then None else Some(Elem.Unsigned(n - EPOCH_OFFSET_US))
    case Unsigned(width) =>
      var n :- v.AsU64();
      if n >= UnsignedLimit(width) then None else Some(Elem.Unsigned(n))
    case Signed(width) =>
      var n :- v.AsI64();
      var limit := UnsignedLimit(width) / 2;
      if n < -limit || n >= limit then None else Some(Elem.Signed(n))
    case Float => None
  }

  // ------------------------------------------------------------------- trees

  /** How `write_hinted_struct` reads the keys of a nested payload. */
  ghost function NestedKeys(obj: map<string, Value>, nested: StructDef, c: Cluster): Keys {
    if forall k :: k in obj ==> ParseU8(k).Some? then ById(Some((nested.fields, c)))
    else ByName(nested.fields, c)
  }

  function StructOf(h: TypeHint): Option<StructDef> {
    if BaseType(h.ty).Some? || h.cluster.None? then None else FindStruct(h.cluster.value, h.ty)
  }

  ghost function Encode(v: Value, hint: Option<TypeHint>): Option<Elem>
    decreases v, 4
  {
    match hint
    case None => EncodeUntyped(v)
    case Some(h) =>
      if !h.isList then EncodeTyped(v, h)
      else if v.Null? then Some(NullElem)
      else if v.Arr? then
        var items :- EncodeItems(v.items, Some(h.(isList := false)));
        Some(Array(items))
      else None
  }

  ghost function EncodeTyped(v: Value, h: TypeHint): Option<Elem>
    decreases v, 3
  {
    if v.Null? then Some(NullElem)
    else if BaseType(h.ty).Some? then EncodeBase(v, BaseType(h.ty).value)
    else if StructOf(h).Some? then
      if v.Obj? then EncodeStruct(v, NestedKeys(v.fields, StructOf(h).value, h.cluster.value)) else None
    else EncodeUntyped(v)
  }

  ghost function EncodeUntyped(v: Value): Option<Elem>
    decreases v, 2
  {
    match v
    case Null => Some(NullElem)
    case Bool(b) => Some(BoolElem(b))
    case Num(n) => if n >= 0 then Some(Elem.Unsigned(n)) else Some(Elem.Signed(n))
    case Str(s) => Some(Elem.Utf8(s))
    case Arr(vs) => var items :- EncodeItems(vs, None); Some(Array(items))
    case Obj(_) => EncodeStruct(v, ById(None))
  }

  ghost function EncodeItems(vs: seq<Value>, hint: Option<TypeHint>): (r: Option<seq<Elem>>)
    ensures r.Some? ==> |r.value| == |vs|
    decreases vs, 0
  {
    if vs == [] then Some([])
    else
      var done :- EncodeItems(vs[..|vs| - 1], hint);
      var e :- Encode(vs[|vs| - 1], hint);
      Some(done + [e])
  }

  ghost function EncodeStruct(v: Value, keys: Keys): Option<Elem>
    requires v.Obj?
    decreases v, 1
  {
    if !Resolves(keys, v.fields) then None
    else
      var ms :- EncodeMembers(v, keys, 256);
      Some(Struct(ms))
  }

  /** The members with a tag below `n`, in ascending order of tag. */
  ghost function EncodeMembers(v: Value, keys: Keys, n: nat): Option<seq<Member>>
    requires v.Obj? && n <= 256 && Resolves(keys, v.fields)
    decreases v, 0, n
  {
    if n == 0 then Some([])
    else
      var done :- EncodeMembers(v, keys, n - 1);
      match EntryAt(v, keys, n - 1)
      case None => Some(done)
      case Some(en) =>
        var e :- Encode(en.value, en.hint);
        Some(done + [Member(Context(n - 1), e)])
  }
}

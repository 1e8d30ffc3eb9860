/** The spelling a payload comes back in: known fields by the table's name, everything
    else by decimal id. */
module Spelling {
  import opened Wrappers
  import opened Json
  import opened Idl
  import opened Decimal
  import opened TlvDecode
  import opened TlvEncode

  /** The key under which the decoder returns tag `n`. */
  function OutKey(keys: Keys, n: Byte): string {
    match keys
    case ByName(fields, _) => NamedKey(fields, n)
    case ById(Some(table)) => NamedKey(table.0, n)
    case ById(None) => Show(n)
  }

  predicate WellFormedKeys(keys: Keys) {
    match keys
    case ByName(fields, c) => WellFormedFields(fields) && WellFormed(c)
    case ById(Some(table)) => WellFormedFields(table.0) && WellFormed(table.1)
    case ById(None) => true
  }

  predicate WellFormedHint(hint: Option<TypeHint>) {
    hint.Some? && hint.value.cluster.Some? ==> WellFormed(hint.value.cluster.value)
  }

  ghost function Respell(v: Value, hint: Option<TypeHint>): Value
    decreases v, 4
  {
    match hint
    case None => RespellUntyped(v)
    case Some(h) =>
      if h.isList then if v.Arr? then Arr(RespellItems(v.items, Some(h.(isList := false)))) else v
      else RespellTyped(v, h)
  }

  ghost function RespellTyped(v: Value, h: TypeHint): Value
    decreases v, 3
  {
    if BaseType(h.ty).Some? then v
    else if StructOf(h).Some? && v.Obj? then
      RespellStruct(v, NestedKeys(v.fields, StructOf(h).value, h.cluster.value))
    else RespellUntyped(v)
  }

  ghost function RespellUntyped(v: Value): Value
    decreases v, 2
  {
    match v
    case Arr(vs) => Arr(RespellItems(vs, None))
    case Obj(_) => RespellStruct(v, ById(None))
    case _ => v
  }

  ghost function RespellItems(vs: seq<Value>, hint: Option<TypeHint>): (r: seq<Value>)
    ensures |r| == |vs|
    decreases vs, 0
  {
    if vs == [] then []
    else RespellItems(vs[..|vs| - 1], hint) + [Respell(vs[|vs| - 1], hint)]
  }

  ghost function RespellStruct(v: Value, keys: Keys): Value
    requires v.Obj?
    decreases v, 1
  {
    if Resolves(keys, v.fields) then Obj(RespellMembers(v, keys, 256)) else v
  }

  ghost function RespellMembers(v: Value, keys: Keys, n: nat): map<string, Value>
    requires v.Obj? && n <= 256 && Resolves(keys, v.fields)
    decreases v, 0, n
  {
    if n == 0 then map[]
    else
      var done := RespellMembers(v, keys, n - 1);
      match EntryAt(v, keys, n - 1)
      case None => done
      case Some(en) => done[OutKey(keys, n - 1) := Respell(en.value, en.hint)]
  }

  /** A payload whose keys are already the table's own. */
  ghost predicate Spelled(v: Value, hint: Option<TypeHint>)
    decreases v, 2
  {
    match hint
    case None => SpelledUntyped(v)
    case Some(h) =>
      if h.isList then
        v.Arr? ==> SpelledItems(v.items, Some(h.(isList := false)))
      else if BaseType(h.ty).Some? then true
      else if StructOf(h).Some? && v.Obj? then
        SpelledStruct(v, NestedKeys(v.fields, StructOf(h).value, h.cluster.value))
      else SpelledUntyped(v)
  }

  ghost predicate SpelledItems(vs: seq<Value>, hint: Option<TypeHint>)
    decreases vs, 0
  {
    vs == [] || (SpelledItems(vs[..|vs| - 1], hint) && Spelled(vs[|vs| - 1], hint))
  }

  ghost predicate SpelledUntyped(v: Value)
    decreases v, 1
  {
    && (v.Arr? ==> SpelledItems(v.items, None))
    && (v.Obj? ==> SpelledStruct(v, ById(None)))
  }

  ghost predicate SpelledStruct(v: Value, keys: Keys)
    requires v.Obj?
    decreases v, 0
  {
    forall k :: k in v.fields ==>
      && Resolve(keys, k).Some?
      && OutKey(keys, Resolve(keys, k).value.tag) == k
      && Spelled(v.fields[k], Resolve(keys, k).value.hint)
  }

  /** Distinct tags come back under distinct keys. */
  lemma {:induction false} OutKeyInjective(keys: Keys, m: Byte, n: Byte)
    requires WellFormedKeys(keys) && OutKey(keys, m) == OutKey(keys, n)
    ensures m == n
  {
    ParseShow(m);
    ParseShow(n);
    match keys {
      case ByName(fields, _) => NamedKeyInjective(fields, m, n);
      case ById(Some(table)) => NamedKeyInjective(table.0, m, n);
      case ById(None) =>
    }
  }

  lemma {:induction false} NamedKeyInjective(fields: seq<Field>, m: Byte, n: Byte)
    requires WellFormedFields(fields) && NamedKey(fields, m) == NamedKey(fields, n)
    ensures m == n
  {
    ParseShow(m);
    ParseShow(n);
  }

  /** What the respelled object holds under the key of tag `i`. */
  lemma {:induction false} RespelledAt(v: Value, keys: Keys, n: nat, i: Byte)
    requires v.Obj? && n <= 256 && Resolves(keys, v.fields) && WellFormedKeys(keys)
    ensures var obj, en := RespellMembers(v, keys, n), EntryAt(v, keys, i);
            && (OutKey(keys, i) in obj <==> i < n && en.Some?)
            && (i < n && en.Some? ==> obj[OutKey(keys, i)] == Respell(en.value.value, en.value.hint))
  {
    hide BaseType, Respell, Resolve, OutKey;
    if n > 0 {
      RespelledAt(v, keys, n - 1, i);
      if OutKey(keys, n - 1) == OutKey(keys, i) {
        OutKeyInjective(keys, n - 1, i);
      }
    }
  }

  /** Every key of the respelled object is the key of one of its tags. */
  lemma {:induction false} RespelledKey(v: Value, keys: Keys, n: nat, key: string) returns (i: Byte)
    requires v.Obj? && n <= 256 && Resolves(keys, v.fields)
    requires key in RespellMembers(v, keys, n)
    ensures i < n && EntryAt(v, keys, i).Some? && key == OutKey(keys, i)
  {
    hide BaseType, Respell, Resolve, OutKey;
    i := n - 1;
    if EntryAt(v, keys, i).None? || key != OutKey(keys, i) {
      i := RespelledKey(v, keys, n - 1, key);
    }
  }
}

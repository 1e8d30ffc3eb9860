/** TLV to JSON, keyed by field id (`tlv_to_json`) and by name (`tlv_to_json_named`). */
module TlvDecode {
  import opened Wrappers
  import opened Json
  import opened Idl
  import opened Tlv
  import opened Decimal
  import Base64

  const EPOCH_OFFSET_S := 946_684_800
  const EPOCH_OFFSET_US := 946_684_800_000_000
  const MAX_DEPTH := 32

  lemma DepthCap()
    ensures MAX_DEPTH == 32
  {
  }

  // ---------------------------------------------------------- keyed by field id

  function Decode(e: Elem, depth: nat): Option<Value>
    decreases e, 1
  {
    if depth > MAX_DEPTH then None
    else
      match e
      case NullElem => Some(Null)
      case BoolElem(b) => Some(Value.Bool(b))
      case Unsigned(u) => Some(Num(u))
      case Signed(i) => Some(Num(i))
      case Utf8(s) => Some(Str(s))
      case Octets(bytes) => Some(Str(Base64.Encode(bytes)))
      case Struct(ms) => var fields :- DecodeMembers(ms, depth + 1); Some(Obj(fields))
      case Array(items) => var vs :- DecodeItems(items, depth + 1); Some(Arr(vs))
      case List(items) => var vs :- DecodeItems(items, depth + 1); Some(Arr(vs))
  }

  /** A member without a context tag is skipped; a repeated id keeps the last value. */
  function DecodeMembers(ms: seq<Member>, depth: nat): Option<map<string, Value>>
    decreases ms, 0
  {
    if ms == [] then Some(map[])
    else
      var m := ms[|ms| - 1];
      assert m.value < m;
      var done :- DecodeMembers(ms[..|ms| - 1], depth);
      if m.tag.Context? then
        var v :- Decode(m.value, depth);
        Some(done[Show(m.tag.n) := v])
      else Some(done)
  }

  function DecodeItems(items: seq<Elem>, depth: nat): (r: Option<seq<Value>>)
    ensures r.Some? ==> |r.value| == |items|
    decreases items, 0
  {
    if items == [] then Some([])
    else
      var done :- DecodeItems(items[..|items| - 1], depth);
      var v :- Decode(items[|items| - 1], depth);
      Some(done + [v])
  }

  // -------------------------------------------------------------- keyed by name

  function EpochOffset(ty: string): nat {
    match BaseType(ty)
    case Some(EpochS) => EPOCH_OFFSET_S
    case Some(EpochUs) => EPOCH_OFFSET_US
    case _ => 0
  }

  /** Matter epochs count from 2000-01-01, JSON from 1970-01-01. Anything but an
      unsigned integer passes; a sum beyond u64 is an error. */
  function ApplyEpoch(ty: string, v: Value): Option<Value> {
    if EpochOffset(ty) == 0 || v.AsU64().None? then Some(v)
    else if v.n + EpochOffset(ty) > U64_MAX then None
    else Some(Num(v.n + EpochOffset(ty)))
  }

  /** The key of member `n`: its name when the table knows it, else its decimal id. */
  function NamedKey(fields: seq<Field>, n: Byte): string {
    match FieldByCode(fields, n)
    case Some(f) => f.name
    case None => Show(n)
  }

  function DecodeNamed(e: Elem, fields: seq<Field>, c: Cluster, depth: nat): Option<Value>
    decreases e, 2
  {
    if depth > MAX_DEPTH then None
    else if e.Struct? then
      var obj :- DecodeNamedMembers(e.members, fields, c, depth + 1);
      Some(Obj(obj))
    else Decode(e, depth)
  }

  function DecodeNamedMembers(ms: seq<Member>, fields: seq<Field>, c: Cluster, depth: nat)
      : Option<map<string, Value>>
    decreases ms, 0
  {
    if ms == [] then Some(map[])
    else
      var m := ms[|ms| - 1];
      assert m.value < m;
      var done :- DecodeNamedMembers(ms[..|ms| - 1], fields, c, depth);
      if m.tag.Context? then
        var v :- DecodeMember(m.value, FieldByCode(fields, m.tag.n), c, depth);
        Some(done[NamedKey(fields, m.tag.n) := v])
      else Some(done)
  }

  /** A member of a named struct: by its field when the table knows the id. */
  function DecodeMember(e: Elem, f: Option<Field>, c: Cluster, depth: nat): Option<Value>
    decreases e, 4
  {
    if f.Some? then DecodeField(e, f.value, c, depth) else Decode(e, depth)
  }

  function DecodeField(e: Elem, f: Field, c: Cluster, depth: nat): Option<Value>
    decreases e, 3
  {
    if e.Utf8? then Some(Str(e.s))
    else
      match FindStruct(c, f.ty)
      case None => var v :- Decode(e, depth); ApplyEpoch(f.ty, v)
      case Some(nested) =>
        if e.Struct? then DecodeNamed(e, nested.fields, c, depth)
        else if e.Array? || e.List? then
          var vs :- DecodeNamedItems(e.items, nested.fields, c, depth + 1);
          Some(Arr(vs))
        else Decode(e, depth)
  }

  function DecodeNamedItems(items: seq<Elem>, fields: seq<Field>, c: Cluster, depth: nat)
      : (r: Option<seq<Value>>)
    ensures r.Some? ==> |r.value| == |items|
    decreases items, 0
  {
    if items == [] then Some([])
    else
      var done :- DecodeNamedItems(items[..|items| - 1], fields, c, depth);
      var v :- DecodeNamed(items[|items| - 1], fields, c, depth);
      Some(done + [v])
  }

  // ------------------------------------------------- the decoders as they run

  /** `tlv_to_json_at` */
  method TlvToJsonAt(e: Elem, depth: nat) returns (r: Option<Value>)
    ensures r == Decode(e, depth)
    decreases e
  {
    hide Base64.Encode, Show;
    if depth > MAX_DEPTH {
      return None;
    }
    match e {
      case NullElem => return Some(Null);
      case BoolElem(b) => return Some(Value.Bool(b));
      case Unsigned(u) => return Some(Num(u));
      case Signed(i) => return Some(Num(i));
      case Utf8(s) => return Some(Str(s));
      case Octets(bytes) => return Some(Str(Base64.Encode(bytes)));
      case Struct(ms) =>
        var obj: map<string, Value> := map[];
        for i := 0 to |ms|
          invariant DecodeMembers(ms[..i], depth + 1) == Some(obj)
        {
          assert ms[..i + 1][..i] == ms[..i];
          var m := ms[i];
          if m.tag.Context? {
            assert m.value < m;
            var v := TlvToJsonAt(m.value, depth + 1);
            if v.None? {
              MembersFail(ms, i, depth + 1);
              return None;
            }
            obj := obj[Show(m.tag.n) := v.value];
          }
        }
        assert ms[..|ms|] == ms;
        return Some(Obj(obj));
      case Array(_) =>
      case List(_) =>
    }
    var items := e.items;
    var arr: seq<Value> := [];
    for i := 0 to |items|
      invariant DecodeItems(items[..i], depth + 1) == Some(arr)
    {
      assert items[..i + 1][..i] == items[..i];
      var v := TlvToJsonAt(items[i], depth + 1);
      if v.None? {
        ItemsFail(items, i, depth + 1);
        return None;
      }
      arr := arr + [v.value];
    }
    assert items[..|items|] == items;
    return Some(Arr(arr));
  }

  /** `tlv_to_json_named_at` */
  method TlvToJsonNamedAt(e: Elem, fields: seq<Field>, c: Cluster, depth: nat) returns (r: Option<Value>)
    ensures r == DecodeNamed(e, fields, c, depth)
    decreases e, 1
  {
    if depth > MAX_DEPTH {
      return None;
    }
    if !e.Struct? {
      r := TlvToJsonAt(e, depth);
      return;
    }
    var ms := e.members;
    var obj: map<string, Value> := map[];
    for i := 0 to |ms|
      invariant DecodeNamedMembers(ms[..i], fields, c, depth + 1) == Some(obj)
    {
      assert ms[..i + 1][..i] == ms[..i];
      var m := ms[i];
      if m.tag.Context? {
        assert m.value < m;
        var v: Option<Value>;
        match FieldByCode(fields, m.tag.n) {
          case Some(f) => v := NamedFieldToJson(m.value, f, c, depth + 1);
          case None => v := TlvToJsonAt(m.value, depth + 1);
        }
        if v.None? {
          NamedMembersFail(ms, i, fields, c, depth + 1);
          return None;
        }
        obj := obj[NamedKey(fields, m.tag.n) := v.value];
      }
    }
    assert ms[..|ms|] == ms;
    return Some(Obj(obj));
  }

  /** `named_field_to_json` */
  method NamedFieldToJson(e: Elem, f: Field, c: Cluster, depth: nat) returns (r: Option<Value>)
    ensures r == DecodeField(e, f, c, depth)
    decreases e, 2
  {
    if e.Utf8? {
      return Some(Str(e.s));
    }
    var found := FindStruct(c, f.ty);
    if found.None? {
      var v := TlvToJsonAt(e, depth);
      return if v.None? then None else ApplyEpoch(f.ty, v.value);
    }
    var nested := found.value.fields;
    if e.Struct? {
      r := TlvToJsonNamedAt(e, nested, c, depth);
    } else if e.Array? || e.List? {
      var items := e.items;
      var arr: seq<Value> := [];
      for i := 0 to |items|
        invariant DecodeNamedItems(items[..i], nested, c, depth + 1) == Some(arr)
      {
        assert items[..i + 1][..i] == items[..i];
        var v := TlvToJsonNamedAt(items[i], nested, c, depth + 1);
        if v.None? {
          NamedItemsFail(items, i, nested, c, depth + 1);
          return None;
        }
        arr := arr + [v.value];
      }
      assert items[..|items|] == items;
      return Some(Arr(arr));
    } else {
      r := TlvToJsonAt(e, depth);
    }
  }

  lemma {:induction false} MembersFail(ms: seq<Member>, i: nat, depth: nat)
    requires i < |ms| && DecodeMembers(ms[..i + 1], depth).None?
    ensures DecodeMembers(ms, depth).None?
  {
    if i + 1 < |ms| {
      assert ms[..|ms| - 1][..i + 1] == ms[..i + 1];
      MembersFail(ms[..|ms| - 1], i, depth);
    } else {
      assert ms[..i + 1] == ms;
    }
  }

  lemma {:induction false} ItemsFail(items: seq<Elem>, i: nat, depth: nat)
    requires i < |items| && DecodeItems(items[..i + 1], depth).None?
    ensures DecodeItems(items, depth).None?
  {
    if i + 1 < |items| {
      assert items[..|items| - 1][..i + 1] == items[..i + 1];
      ItemsFail(items[..|items| - 1], i, depth);
    } else {
      assert items[..i + 1] == items;
    }
  }

  lemma {:induction false} NamedMembersFail(ms: seq<Member>, i: nat, fields: seq<Field>, c: Cluster, depth: nat)
    requires i < |ms| && DecodeNamedMembers(ms[..i + 1], fields, c, depth).None?
    ensures DecodeNamedMembers(ms, fields, c, depth).None?
  {
    if i + 1 < |ms| {
      assert ms[..|ms| - 1][..i + 1] == ms[..i + 1];
      NamedMembersFail(ms[..|ms| - 1], i, fields, c, depth);
    } else {
      assert ms[..i + 1] == ms;
    }
  }

  lemma {:induction false} NamedItemsFail(items: seq<Elem>, i: nat, fields: seq<Field>, c: Cluster, depth: nat)
    requires i < |items| && DecodeNamedItems(items[..i + 1], fields, c, depth).None?
    ensures DecodeNamedItems(items, fields, c, depth).None?
  {
    if i + 1 < |items| {
      assert items[..|items| - 1][..i + 1] == items[..i + 1];
      NamedItemsFail(items[..|items| - 1], i, fields, c, depth);
    } else {
      assert items[..i + 1] == items;
    }
  }
}

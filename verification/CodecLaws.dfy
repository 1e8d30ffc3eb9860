/** What the reader makes of a struct and of a time, and what the writer makes of a leaf. */
module CodecLaws {
  import opened Wrappers
  import opened Json
  import opened Idl
  import opened Tlv
  import opened Decimal
  import opened TlvDecode
  import opened TlvEncode
  import Base64
  import Base64Standard

  // ------------------------------------------------------------------ structs, read

  /** The last member under context tag `n` is at `i`. */
  predicate IsLast(ms: seq<Member>, i: nat, n: Byte) {
    i < |ms| && ms[i].tag == Context(n) && forall j :: i < j < |ms| ==> ms[j].tag != Context(n)
  }

  /** A struct is read when each member under a context tag is; members without one are passed
      over, whatever they are. */
  lemma {:induction false} MembersRead(ms: seq<Member>, d: nat)
    ensures DecodeMembers(ms, d).Some? <==>
            forall i :: 0 <= i < |ms| && ms[i].tag.Context? ==> Decode(ms[i].value, d).Some?
  {
    hide Decode, Show;
    if ms != [] {
      MembersRead(ms[..|ms| - 1], d);
      assert forall i :: 0 <= i < |ms| - 1 ==> ms[..|ms| - 1][i] == ms[i];
    }
  }

  /** Its keys are the tags in decimal; of members under one tag the last counts. */
  lemma {:induction false} LastMemberRead(ms: seq<Member>, d: nat, i: nat, n: Byte, key: string)
    requires DecodeMembers(ms, d).Some? && IsLast(ms, i, n) && Names(key, n)
    ensures var fields := DecodeMembers(ms, d).value;
            key in fields && Some(fields[key]) == Decode(ms[i].value, d)
  {
    hide Decode, Show, Names;
    UsualIsShow(key, n);
    var front, last := ms[..|ms| - 1], ms[|ms| - 1];
    if i < |front| {
      assert front[i] == ms[i] && forall j :: i < j < |front| ==> front[j] == ms[j];
      LastMemberRead(front, d, i, n, key);
      if last.tag.Context? && Show(last.tag.n) == Show(n) {
        ShowInjective(last.tag.n, n);
      }
    }
  }

  lemma {:induction false} NoOtherKeys(ms: seq<Member>, d: nat, key: string)
    requires DecodeMembers(ms, d).Some? && key in DecodeMembers(ms, d).value
    ensures exists i :: 0 <= i < |ms| && ms[i].tag.Context? && Names(key, ms[i].tag.n)
  {
    hide Decode, Show, Names;
    var front, last := ms[..|ms| - 1], ms[|ms| - 1];
    if last.tag.Context? && key == Show(last.tag.n) {
      ShowIsUsual(last.tag.n);
      assert ms[|ms| - 1] == last;
    } else {
      NoOtherKeys(front, d, key);
      var i :| 0 <= i < |front| && front[i].tag.Context? && Names(key, front[i].tag.n);
      assert ms[i] == front[i];
    }
  }

  /** By name a struct is read when each member under a context tag is, as the field its tag
      names. */
  lemma {:induction false} NamedMembersRead(ms: seq<Member>, fields: seq<Field>, c: Cluster, d: nat)
    ensures DecodeNamedMembers(ms, fields, c, d).Some? <==>
            forall i :: 0 <= i < |ms| && ms[i].tag.Context? ==>
              DecodeMember(ms[i].value, FieldByCode(fields, ms[i].tag.n), c, d).Some?
  {
    hide DecodeMember, NamedKey;
    if ms != [] {
      NamedMembersRead(ms[..|ms| - 1], fields, c, d);
      assert forall i :: 0 <= i < |ms| - 1 ==> ms[..|ms| - 1][i] == ms[i];
    }
  }

  // -------------------------------------------------------------------- times, read

  /** A number in a slot of an epoch type is read as a Unix time: seconds or microseconds from
      the year 2000 on are moved by the 946684800 seconds before it, and refused when that does
      not fit; everything else is read as it is. */
  lemma EpochsRead(ty: string, v: Value)
    ensures BaseType(ty) == Some(EpochS) && v.Num? && v.n >= 0 ==>
              ApplyEpoch(ty, v) ==
              if v.n + 946_684_800 < 0x1_0000_0000_0000_0000 then Some(Num(v.n + 946_684_800)) else None
    ensures BaseType(ty) == Some(EpochUs) && v.Num? && v.n >= 0 ==>
              ApplyEpoch(ty, v) ==
              if v.n + 946_684_800_000_000 < 0x1_0000_0000_0000_0000
              then Some(Num(v.n + 946_684_800_000_000)) else None
    ensures !v.Num? || v.n < 0 ==> ApplyEpoch(ty, v) == Some(v)
    ensures BaseType(ty) != Some(EpochS) && BaseType(ty) != Some(EpochUs) ==> ApplyEpoch(ty, v) == Some(v)
  {
  }

  // ----------------------------------------------------------------- leaves, written

  /** A value of a base type is written as an element of that type, a null as a null. */
  lemma {:induction false} TypedLeaves(v: Value, h: TypeHint)
    requires !h.isList && BaseType(h.ty).Some? && Encode(v, Some(h)).Some?
    ensures var e := Encode(v, Some(h)).value;
            if v.Null? then e == NullElem
            else
              match BaseType(h.ty).value
              case Bool => v.Bool? && e == BoolElem(v.b)
              case Utf8 => v.Str? && e == Elem.Utf8(v.s)
              case Octets => v.Str? && e.Octets? && Base64Standard.Standard(e.bytes) == v.s
              case EpochS => v.Num? && e.Unsigned? && e.u == v.n - 946_684_800
              case EpochUs => v.Num? && e.Unsigned? && e.u == v.n - 946_684_800_000_000
              case Unsigned(_) => v.Num? && e.Unsigned? && e.u == v.n
              case Signed(_) => v.Num? && e.Signed? && e.i == v.n
              case Float => false
  {
    hide BaseType, Base64.Encode, Base64.Decode, Base64Standard.Standard, UnsignedLimit;
    if BaseType(h.ty) == Some(Base.Octets) && v.Str? {
      Base64.EncodeDecode(v.s);
      Base64Standard.EncodingIsStandard(Base64.Decode(v.s).value);
    }
  }

  /** A value without a type is written by its shape: a number as unsigned unless it is
      negative, a list as an array, an object as a struct. */
  lemma {:induction false} UntypedShapes(v: Value)
    requires Encode(v, None).Some?
    ensures var e := Encode(v, None).value;
            match v
            case Null => e == NullElem
            case Bool(b) => e == BoolElem(b)
            case Num(n) => if n >= 0 then e.Unsigned? && e.u == n else e.Signed? && e.i == n
            case Str(s) => e == Elem.Utf8(s)
            case Arr(vs) => e.Array? && |e.items| == |vs|
            case Obj(_) => e.Struct?
  {
    hide EncodeItems, EncodeStruct;
    if v.Obj? {
      StructsWritten(v, ById(None));
    }
  }

  /** A list is written as an array of as many, a value of a struct type as a struct. */
  lemma {:induction false} TypedShapes(v: Value, h: TypeHint)
    requires Encode(v, Some(h)).Some? && !v.Null?
    ensures var e := Encode(v, Some(h)).value;
            && (h.isList ==> v.Arr? && e.Array? && |e.items| == |v.items|)
            && (!h.isList && StructOf(h).Some? ==> v.Obj? && e.Struct?)
  {
    hide BaseType, EncodeItems, EncodeStruct, NestedKeys, EncodeUntyped;
    if !h.isList && StructOf(h).Some? {
      StructsWritten(v, NestedKeys(v.fields, StructOf(h).value, h.cluster.value));
    }
  }

  lemma StructsWritten(v: Value, keys: Keys)
    requires v.Obj? && EncodeStruct(v, keys).Some?
    ensures EncodeStruct(v, keys).value.Struct?
  {
  }
}

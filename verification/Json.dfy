/** JSON values as `serde_json` holds them, without floats: an integer is an i64 or
    a u64 and 5 is one value however it was written, and an object is a map (the
    crate's default object is a `BTreeMap`, so the order of keys is not part of it). */
module Json {
  import opened Wrappers

  const I64_MIN := -0x8000_0000_0000_0000
  const I64_MAX := 0x7fff_ffff_ffff_ffff
  const U64_MAX := 0xffff_ffff_ffff_ffff

  type Byte = n: int | 0 <= n < 256
  type U64 = n: int | 0 <= n <= U64_MAX
  type I64 = n: int | I64_MIN <= n <= I64_MAX
  type Integer = n: int | I64_MIN <= n <= U64_MAX

  datatype Value =
    | Null
    | Bool(b: bool)
    | Num(n: Integer)
    | Str(s: string)
    | Arr(items: seq<Value>)
    | Obj(fields: map<string, Value>)
  {
    function AsU64(): Option<U64> {
      if Num? && n >= 0 then Some(n) else None
    }

    function AsI64(): Option<I64> {
      if Num? && n <= I64_MAX then Some(n) else None
    }
  }

  /** `v` is a tree of at most `levels` nested containers. */
  ghost predicate Within(v: Value, levels: int)
    decreases v
  {
    && 0 <= levels
    && (v.Arr? ==> forall i :: 0 <= i < |v.items| ==> Within(v.items[i], levels - 1))
    && (v.Obj? ==> forall k :: k in v.fields ==> Within(v.fields[k], levels - 1))
  }

  ghost predicate AllWithin(vs: seq<Value>, levels: int) {
    vs == [] || (AllWithin(vs[..|vs| - 1], levels) && Within(vs[|vs| - 1], levels))
  }

  lemma {:induction false} AllWithinEach(vs: seq<Value>, levels: int)
    ensures AllWithin(vs, levels) <==> forall i :: 0 <= i < |vs| ==> Within(vs[i], levels)
  {
    hide Within;
    if vs != [] {
      AllWithinEach(vs[..|vs| - 1], levels);
      assert forall i :: 0 <= i < |vs| - 1 ==> vs[..|vs| - 1][i] == vs[i];
    }
  }

  lemma {:induction false} ArrayWithin(vs: seq<Value>, levels: int)
    ensures Within(Arr(vs), levels) <==> 0 <= levels && AllWithin(vs, levels - 1)
  {
    AllWithinEach(vs, levels - 1);
  }
}

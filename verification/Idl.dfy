/** The field tables generated from the cluster IDL, and the base types of the IDL. */
module Idl {
  import opened Wrappers
  import opened Ascii
  import opened Decimal

  datatype Field = Field(code: nat, name: string, ty: string, isList: bool)

  datatype StructDef = StructDef(name: string, fields: seq<Field>)

  datatype Cluster = Cluster(structs: seq<StructDef>)

  type Width = w: int | 1 <= w <= 8 witness 1

  /** One of the IDL's base types, with the width in bytes of an integer. A float has
      no value in this model (see `Json`). */
  datatype Base =
    | Bool | Unsigned(width: Width) | Signed(width: Width) | Float | Utf8 | Octets | EpochS | EpochUs

  // The table of base types, in the order of the alphabet: no two names are the same, so the
  // order in which they are tried makes no difference.

  const TYPES_A: seq<(string, Base)> := [
    ("action_id", Unsigned(1)), ("amperage_ma", Signed(8)), ("attrib_id", Unsigned(4))
  ]

  const TYPES_B: seq<(string, Base)> := [
    ("bitmap16", Unsigned(2)), ("bitmap32", Unsigned(4)), ("bitmap64", Unsigned(8)),
    ("bitmap8", Unsigned(1)), ("boolean", Bool)
  ]

  const TYPES_C_TO_D: seq<(string, Base)> := [
    ("char_string", Utf8), ("cluster_id", Unsigned(4)), ("command_id", Unsigned(4)),
    ("data_ver", Unsigned(4)), ("devtype_id", Unsigned(4)), ("double", Float)
  ]

  const TYPES_EL_TO_EN: seq<(string, Base)> := [
    ("elapsed_s", Unsigned(4)), ("endpoint_no", Unsigned(2)), ("energy_mvah", Signed(8)),
    ("energy_mvarh", Signed(8)), ("energy_mwh", Signed(8))
  ]

  const TYPES_EN_TO_EV: seq<(string, Base)> := [
    ("entry_idx", Unsigned(2)), ("enum16", Unsigned(2)), ("enum8", Unsigned(1)), ("epoch_s", EpochS),
    ("epoch_us", EpochUs), ("event_id", Unsigned(4)), ("event_no", Unsigned(8))
  ]

  const TYPES_F_TO_G: seq<(string, Base)> := [
    ("fabric_id", Unsigned(8)), ("fabric_idx", Unsigned(1)), ("field_id", Unsigned(4)),
    ("group_id", Unsigned(2))
  ]

  const TYPES_INT_16_TO_32: seq<(string, Base)> := [
    ("int16s", Signed(2)), ("int16u", Unsigned(2)), ("int24s", Signed(3)), ("int24u", Unsigned(3)),
    ("int32s", Signed(4)), ("int32u", Unsigned(4))
  ]

  const TYPES_INT_40_TO_56: seq<(string, Base)> := [
    ("int40s", Signed(5)), ("int40u", Unsigned(5)), ("int48s", Signed(6)), ("int48u", Unsigned(6)),
    ("int56s", Signed(7)), ("int56u", Unsigned(7))
  ]

  const TYPES_INT_64_TO_8: seq<(string, Base)> := [
    ("int64s", Signed(8)), ("int64u", Unsigned(8)), ("int8s", Signed(1)), ("int8u", Unsigned(1))
  ]

  const TYPES_L_TO_M: seq<(string, Base)> := [
    ("long_char_string", Utf8), ("long_octet_string", Octets), ("money", Unsigned(8))
  ]

  const TYPES_N_TO_O: seq<(string, Base)> := [
    ("node_id", Unsigned(8)), ("octet_string", Octets)
  ]

  const TYPES_PE_TO_PO: seq<(string, Base)> := [
    ("percent", Unsigned(1)), ("percent100ths", Unsigned(2)), ("posix_ms", Unsigned(8))
  ]

  const TYPES_PO_TO_PR: seq<(string, Base)> := [
    ("power_mva", Signed(8)), ("power_mvar", Signed(8)), ("power_mw", Signed(8)),
    ("priority", Unsigned(1))
  ]

  const TYPES_S: seq<(string, Base)> := [
    ("single", Float), ("status", Unsigned(1)), ("subject_id", Unsigned(8)),
    ("systime_ms", Unsigned(8)), ("systime_us", Unsigned(8))
  ]

  const TYPES_T_TO_V: seq<(string, Base)> := [
    ("temperature", Signed(2)), ("trans_id", Unsigned(4)), ("vendor_id", Unsigned(2)),
    ("voltage_mv", Signed(8))
  ]

  const BASE_TYPES: seq<(string, Base)> :=
    TYPES_A + TYPES_B + TYPES_C_TO_D + TYPES_EL_TO_EN + TYPES_EN_TO_EV + TYPES_F_TO_G + TYPES_INT_16_TO_32 +
    TYPES_INT_40_TO_56 + TYPES_INT_64_TO_8 + TYPES_L_TO_M + TYPES_N_TO_O + TYPES_PE_TO_PO + TYPES_PO_TO_PR +
    TYPES_S + TYPES_T_TO_V

  function FindBase(table: seq<(string, Base)>, ty: string): Option<Base> {
    if table == [] then None
    else if SameIgnoringCase(table[0].0, ty) then Some(table[0].1)
    else FindBase(table[1..], ty)
  }

  function BaseType(ty: string): Option<Base> {
    FindBase(BASE_TYPES, ty)
  }

  function FindStructIn(structs: seq<StructDef>, name: string): (r: Option<StructDef>)
    ensures r.Some? ==> r.value in structs && r.value.name == name
    ensures r.None? ==> forall s :: s in structs ==> s.name != name
  {
    if structs == [] then None
    else if structs[0].name == name then Some(structs[0])
    else FindStructIn(structs[1..], name)
  }

  function FindStruct(c: Cluster, name: string): (r: Option<StructDef>)
    ensures r.Some? ==> r.value in c.structs && r.value.name == name
    ensures r.None? ==> forall s :: s in c.structs ==> s.name != name
  {
    FindStructIn(c.structs, name)
  }

  function FieldByCode(fields: seq<Field>, code: nat): (r: Option<Field>)
    ensures r.Some? ==> r.value in fields && r.value.code == code
    ensures r.None? ==> forall f :: f in fields ==> f.code != code
  {
    if fields == [] then None
    else if fields[0].code == code then Some(fields[0])
    else FieldByCode(fields[1..], code)
  }

  /** The field a payload key names, ignoring ASCII case. */
  function FieldByName(fields: seq<Field>, key: string): (r: Option<Field>)
    ensures r.Some? ==> r.value in fields && SameIgnoringCase(r.value.name, key)
    ensures r.None? ==> forall f :: f in fields ==> !SameIgnoringCase(f.name, key)
  {
    if fields == [] then None
    else if SameIgnoringCase(fields[0].name, key) then Some(fields[0])
    else FieldByName(fields[1..], key)
  }

  /** What the generated tables guarantee of one struct: ids are distinct, names are
      distinct ignoring case, and no name reads as a field id. */
  predicate WellFormedFields(fields: seq<Field>) {
    && (forall f, g :: f in fields && g in fields && f.code == g.code ==> f == g)
    && (forall f, g :: f in fields && g in fields && SameIgnoringCase(f.name, g.name) ==> f == g)
    && (forall f :: f in fields ==> ParseU8(f.name).None?)
  }

  /** ... and of a cluster: no struct is called like a base type. */
  predicate WellFormed(c: Cluster) {
    forall s :: s in c.structs ==> WellFormedFields(s.fields) && BaseType(s.name).None?
  }

  /** In a well-formed table the two lookups agree: a field is found by its own id,
      and by its name in any case. */
  lemma LookupsAgree(fields: seq<Field>, f: Field)
    requires WellFormedFields(fields) && f in fields
    ensures FieldByCode(fields, f.code) == Some(f) && FieldByName(fields, f.name) == Some(f)
    ensures forall key :: SameIgnoringCase(f.name, key) ==> FieldByName(fields, key) == Some(f)
  {
  }

  /** In a well-formed table a field is found under exactly the spellings of its name. */
  lemma {:induction false} FoundInAnyCase(fields: seq<Field>, f: Field, key: string)
    requires WellFormedFields(fields) && f in fields
    ensures FieldByName(fields, key) == Some(f) <==> SameLetters(f.name, key)
  {
    hide SameIgnoringCase, SameLetters;
    IgnoringCaseIs(f.name, key);
    if SameIgnoringCase(f.name, key) {
      LookupsAgree(fields, f);
    }
  }

  /** Only the lookup of a base type folds case: the five spellings in capitals that
      the IDL carries are base types. */
  lemma {:induction false} CapitalsAreBaseTypes(a: string, b: string)
    requires SameIgnoringCase(a, b)
    ensures BaseType(a) == BaseType(b)
  {
    FindBaseIgnoresCase(BASE_TYPES, a, b);
  }

  lemma {:induction false} FindBaseIgnoresCase(table: seq<(string, Base)>, a: string, b: string)
    requires SameIgnoringCase(a, b)
    ensures FindBase(table, a) == FindBase(table, b)
  {
    if table != [] {
      FindBaseIgnoresCase(table[1..], a, b);
    }
  }
}

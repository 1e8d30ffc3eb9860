/** What the table of base types says: every name of it is found in any case, with the base
    the standard gives it. */
module BaseTypes {
  import opened Wrappers
  import opened Ascii
  import opened Decimal
  import opened Idl

  // ------------------------------------------------------------ names are distinct

  /** `a` stands before `b` in the alphabet, ignoring case. */
  predicate Less(a: string, b: string) {
    if |a| == 0 || |b| == 0 then |a| < |b|
    else Lower(a[0]) < Lower(b[0]) || (Lower(a[0]) == Lower(b[0]) && Less(a[1..], b[1..]))
  }

  predicate Ascends(table: seq<(string, Base)>) {
    |table| < 2 || (Less(table[0].0, table[1].0) && Ascends(table[1..]))
  }

  lemma {:induction false} LessIsTransitive(a: string, b: string, c: string)
    requires Less(a, b) && Less(b, c)
    ensures Less(a, c)
  {
    hide Lower;
    if |a| > 0 && Lower(a[0]) == Lower(b[0]) == Lower(c[0]) {
      LessIsTransitive(a[1..], b[1..], c[1..]);
    }
  }

  lemma {:induction false} LessIsNotSame(a: string, b: string, ty: string)
    requires Less(a, b) && SameIgnoringCase(b, ty)
    ensures !SameIgnoringCase(a, ty)
  {
    hide Lower;
    if SameIgnoringCase(a, ty) && |a| > 0 {
      LessIsNotSame(a[1..], b[1..], ty[1..]);
    }
  }

  lemma {:induction false} FirstIsLeast(table: seq<(string, Base)>, i: nat)
    requires Ascends(table) && 0 < i < |table|
    ensures Less(table[0].0, table[i].0)
  {
    hide Less;
    if i > 1 {
      FirstIsLeast(table[1..], i - 1);
      LessIsTransitive(table[0].0, table[1].0, table[i].0);
    }
  }

  lemma {:induction false} BothAscend(a: seq<(string, Base)>, b: seq<(string, Base)>)
    requires Ascends(a) && Ascends(b) && a != [] && b != [] && Less(a[|a| - 1].0, b[0].0)
    ensures Ascends(a + b)
  {
    hide Less;
    if |a| == 1 {
      assert (a + b)[1..] == b;
    } else {
      BothAscend(a[1..], b);
      assert (a + b)[1..] == a[1..] + b;
    }
  }

  lemma {:induction false} EntryFound(table: seq<(string, Base)>, i: nat, ty: string)
    requires Ascends(table) && i < |table| && SameIgnoringCase(table[i].0, ty)
    ensures FindBase(table, ty) == Some(table[i].1)
  {
    hide Less, SameIgnoringCase;
    if i > 0 {
      FirstIsLeast(table, i);
      LessIsNotSame(table[0].0, table[i].0, ty);
      EntryFound(table[1..], i - 1, ty);
    }
  }

  // Each part of the table ascends ...

  lemma AAscends()
    ensures Ascends(TYPES_A)
  {
  }

  lemma {:induction false} BAscends()
    ensures Ascends(TYPES_B)
  {
    assert Less("bitmap16", "bitmap32") && Less("bitmap32", "bitmap64");
    assert Less("bitmap64", "bitmap8") && Less("bitmap8", "boolean");
  }

  lemma CToDAscends()
    ensures Ascends(TYPES_C_TO_D)
  {
  }

  lemma ElToEnAscends()
    ensures Ascends(TYPES_EL_TO_EN)
  {
  }

  lemma EnToEvAscends()
    ensures Ascends(TYPES_EN_TO_EV)
  {
  }

  lemma FToGAscends()
    ensures Ascends(TYPES_F_TO_G)
  {
  }

  lemma Int16To32Ascends()
    ensures Ascends(TYPES_INT_16_TO_32)
  {
  }

  lemma Int40To56Ascends()
    ensures Ascends(TYPES_INT_40_TO_56)
  {
  }

  lemma Int64To8Ascends()
    ensures Ascends(TYPES_INT_64_TO_8)
  {
  }

  lemma LToMAscends()
    ensures Ascends(TYPES_L_TO_M)
  {
  }

  lemma NToOAscends()
    ensures Ascends(TYPES_N_TO_O)
  {
  }

  lemma PeToPoAscends()
    ensures Ascends(TYPES_PE_TO_PO)
  {
  }

  lemma PoToPrAscends()
    ensures Ascends(TYPES_PO_TO_PR)
  {
  }

  lemma SAscends()
    ensures Ascends(TYPES_S)
  {
  }

  lemma TToVAscends()
    ensures Ascends(TYPES_T_TO_V)
  {
  }

  /** ... and ends before the next begins. */
  lemma Seams()
    ensures Less(TYPES_A[|TYPES_A| - 1].0, TYPES_B[0].0)
    ensures Less(TYPES_B[|TYPES_B| - 1].0, TYPES_C_TO_D[0].0)
    ensures Less(TYPES_C_TO_D[|TYPES_C_TO_D| - 1].0, TYPES_EL_TO_EN[0].0)
    ensures Less(TYPES_EL_TO_EN[|TYPES_EL_TO_EN| - 1].0, TYPES_EN_TO_EV[0].0)
    ensures Less(TYPES_EN_TO_EV[|TYPES_EN_TO_EV| - 1].0, TYPES_F_TO_G[0].0)
    ensures Less(TYPES_F_TO_G[|TYPES_F_TO_G| - 1].0, TYPES_INT_16_TO_32[0].0)
    ensures Less(TYPES_INT_16_TO_32[|TYPES_INT_16_TO_32| - 1].0, TYPES_INT_40_TO_56[0].0)
    ensures Less(TYPES_INT_40_TO_56[|TYPES_INT_40_TO_56| - 1].0, TYPES_INT_64_TO_8[0].0)
    ensures Less(TYPES_INT_64_TO_8[|TYPES_INT_64_TO_8| - 1].0, TYPES_L_TO_M[0].0)
    ensures Less(TYPES_L_TO_M[|TYPES_L_TO_M| - 1].0, TYPES_N_TO_O[0].0)
    ensures Less(TYPES_N_TO_O[|TYPES_N_TO_O| - 1].0, TYPES_PE_TO_PO[0].0)
    ensures Less(TYPES_PE_TO_PO[|TYPES_PE_TO_PO| - 1].0, TYPES_PO_TO_PR[0].0)
    ensures Less(TYPES_PO_TO_PR[|TYPES_PO_TO_PR| - 1].0, TYPES_S[0].0)
    ensures Less(TYPES_S[|TYPES_S| - 1].0, TYPES_T_TO_V[0].0)
  {
  }

  lemma {:induction false} TableAscends()
    ensures Ascends(BASE_TYPES)
  {
    hide Ascends, Less;
    AAscends();
    BAscends();
    CToDAscends();
    ElToEnAscends();
    EnToEvAscends();
    FToGAscends();
    Int16To32Ascends();
    Int40To56Ascends();
    Int64To8Ascends();
    LToMAscends();
    NToOAscends();
    PeToPoAscends();
    PoToPrAscends();
    SAscends();
    TToVAscends();
    Seams();
    var t0 := TYPES_A;
    var t1 := t0 + TYPES_B;
    BothAscend(t0, TYPES_B);
    var t2 := t1 + TYPES_C_TO_D;
    BothAscend(t1, TYPES_C_TO_D);
    var t3 := t2 + TYPES_EL_TO_EN;
    BothAscend(t2, TYPES_EL_TO_EN);
    var t4 := t3 + TYPES_EN_TO_EV;
    BothAscend(t3, TYPES_EN_TO_EV);
    var t5 := t4 + TYPES_F_TO_G;
    BothAscend(t4, TYPES_F_TO_G);
    var t6 := t5 + TYPES_INT_16_TO_32;
    BothAscend(t5, TYPES_INT_16_TO_32);
    var t7 := t6 + TYPES_INT_40_TO_56;
    BothAscend(t6, TYPES_INT_40_TO_56);
    var t8 := t7 + TYPES_INT_64_TO_8;
    BothAscend(t7, TYPES_INT_64_TO_8);
    var t9 := t8 + TYPES_L_TO_M;
    BothAscend(t8, TYPES_L_TO_M);
    var t10 := t9 + TYPES_N_TO_O;
    BothAscend(t9, TYPES_N_TO_O);
    var t11 := t10 + TYPES_PE_TO_PO;
    BothAscend(t10, TYPES_PE_TO_PO);
    var t12 := t11 + TYPES_PO_TO_PR;
    BothAscend(t11, TYPES_PO_TO_PR);
    var t13 := t12 + TYPES_S;
    BothAscend(t12, TYPES_S);
    var t14 := t13 + TYPES_T_TO_V;
    BothAscend(t13, TYPES_T_TO_V);
  }

  /** A base type is found under any spelling of its name. */
  lemma {:induction false} EntryInAnyCase(entry: (string, Base), ty: string)
    requires entry in BASE_TYPES && SameLetters(entry.0, ty)
    ensures BaseType(ty) == Some(entry.1)
  {
    hide Ascends, SameIgnoringCase, SameLetters, FindBase;
    var i :| 0 <= i < |BASE_TYPES| && BASE_TYPES[i] == entry;
    TableAscends();
    IgnoringCaseIs(entry.0, ty);
    EntryFound(BASE_TYPES, i, ty);
  }

  /** ... and nothing else is one. */
  lemma {:induction false} NoOthers(table: seq<(string, Base)>, ty: string)
    ensures FindBase(table, ty).Some? <==> exists i :: 0 <= i < |table| && SameLetters(table[i].0, ty)
  {
    hide SameLetters, SameIgnoringCase;
    if table != [] {
      IgnoringCaseIs(table[0].0, ty);
      NoOthers(table[1..], ty);
      if i :| 0 < i < |table| && SameLetters(table[i].0, ty) {
        assert table[1..][i - 1] == table[i];
      }
      if i :| 0 <= i < |table[1..]| && SameLetters(table[1..][i].0, ty) {
        assert table[i + 1] == table[1..][i];
      }
    }
  }

  lemma {:induction false} Known(part: seq<(string, Base)>, i: nat, name: string, base: Base)
    requires i < |part| && part[i] == (name, base) && forall entry :: entry in part ==> entry in BASE_TYPES
    ensures BaseType(name) == Some(base)
  {
    hide BaseType;
    assert part[i] in part;
    EntryInAnyCase((name, base), name);
  }

  lemma PartsOfTable()
    ensures forall entry :: entry in TYPES_A ==> entry in BASE_TYPES
    ensures forall entry :: entry in TYPES_B ==> entry in BASE_TYPES
    ensures forall entry :: entry in TYPES_C_TO_D ==> entry in BASE_TYPES
    ensures forall entry :: entry in TYPES_EL_TO_EN ==> entry in BASE_TYPES
    ensures forall entry :: entry in TYPES_EN_TO_EV ==> entry in BASE_TYPES
    ensures forall entry :: entry in TYPES_F_TO_G ==> entry in BASE_TYPES
    ensures forall entry :: entry in TYPES_INT_16_TO_32 ==> entry in BASE_TYPES
    ensures forall entry :: entry in TYPES_INT_40_TO_56 ==> entry in BASE_TYPES
    ensures forall entry :: entry in TYPES_INT_64_TO_8 ==> entry in BASE_TYPES
    ensures forall entry :: entry in TYPES_L_TO_M ==> entry in BASE_TYPES
    ensures forall entry :: entry in TYPES_N_TO_O ==> entry in BASE_TYPES
    ensures forall entry :: entry in TYPES_PE_TO_PO ==> entry in BASE_TYPES
    ensures forall entry :: entry in TYPES_PO_TO_PR ==> entry in BASE_TYPES
    ensures forall entry :: entry in TYPES_S ==> entry in BASE_TYPES
    ensures forall entry :: entry in TYPES_T_TO_V ==> entry in BASE_TYPES
  {
  }

  /** The integers, by their bits. */
  lemma {:induction false} IntegerLiterals()
    ensures BaseType("int8u") == Some(Unsigned(1))
    ensures BaseType("int16u") == Some(Unsigned(2))
    ensures BaseType("int24u") == Some(Unsigned(3))
    ensures BaseType("int32u") == Some(Unsigned(4))
    ensures BaseType("int40u") == Some(Unsigned(5))
    ensures BaseType("int48u") == Some(Unsigned(6))
    ensures BaseType("int56u") == Some(Unsigned(7))
    ensures BaseType("int64u") == Some(Unsigned(8))
    ensures BaseType("int8s") == Some(Signed(1))
    ensures BaseType("int16s") == Some(Signed(2))
    ensures BaseType("int24s") == Some(Signed(3))
    ensures BaseType("int32s") == Some(Signed(4))
    ensures BaseType("int40s") == Some(Signed(5))
    ensures BaseType("int48s") == Some(Signed(6))
    ensures BaseType("int56s") == Some(Signed(7))
    ensures BaseType("int64s") == Some(Signed(8))
  {
    hide BaseType;
    PartsOfTable();
    Known(TYPES_INT_64_TO_8, 3, "int8u", Unsigned(1));
    Known(TYPES_INT_16_TO_32, 1, "int16u", Unsigned(2));
    Known(TYPES_INT_16_TO_32, 3, "int24u", Unsigned(3));
    Known(TYPES_INT_16_TO_32, 5, "int32u", Unsigned(4));
    Known(TYPES_INT_40_TO_56, 1, "int40u", Unsigned(5));
    Known(TYPES_INT_40_TO_56, 3, "int48u", Unsigned(6));
    Known(TYPES_INT_40_TO_56, 5, "int56u", Unsigned(7));
    Known(TYPES_INT_64_TO_8, 1, "int64u", Unsigned(8));
    Known(TYPES_INT_64_TO_8, 2, "int8s", Signed(1));
    Known(TYPES_INT_16_TO_32, 0, "int16s", Signed(2));
    Known(TYPES_INT_16_TO_32, 2, "int24s", Signed(3));
    Known(TYPES_INT_16_TO_32, 4, "int32s", Signed(4));
    Known(TYPES_INT_40_TO_56, 0, "int40s", Signed(5));
    Known(TYPES_INT_40_TO_56, 2, "int48s", Signed(6));
    Known(TYPES_INT_40_TO_56, 4, "int56s", Signed(7));
    Known(TYPES_INT_64_TO_8, 0, "int64s", Signed(8));
  }

  /** What is no integer. */
  lemma {:induction false} PlainTypes()
    ensures BaseType("boolean") == Some(Bool)
    ensures BaseType("single") == BaseType("double") == Some(Float)
    ensures BaseType("char_string") == BaseType("long_char_string") == Some(Utf8)
    ensures BaseType("octet_string") == BaseType("long_octet_string") == Some(Octets)
    ensures BaseType("epoch_s") == Some(EpochS)
    ensures BaseType("epoch_us") == Some(EpochUs)
  {
    hide BaseType;
    PartsOfTable();
    Known(TYPES_B, 4, "boolean", Bool);
    Known(TYPES_S, 0, "single", Float);
    Known(TYPES_C_TO_D, 5, "double", Float);
    Known(TYPES_C_TO_D, 0, "char_string", Utf8);
    Known(TYPES_L_TO_M, 0, "long_char_string", Utf8);
    Known(TYPES_N_TO_O, 1, "octet_string", Octets);
    Known(TYPES_L_TO_M, 1, "long_octet_string", Octets);
    Known(TYPES_EN_TO_EV, 3, "epoch_s", EpochS);
    Known(TYPES_EN_TO_EV, 4, "epoch_us", EpochUs);
  }

  /** The derived types of one and two bytes ... */
  lemma {:induction false} SmallTypes()
    ensures BaseType("action_id") == BaseType("bitmap8") == BaseType("enum8") == BaseType("fabric_idx") ==
            BaseType("percent") == BaseType("priority") == BaseType("status") == Some(Unsigned(1))
    ensures BaseType("bitmap16") == BaseType("endpoint_no") == BaseType("entry_idx") == BaseType("enum16") ==
            BaseType("group_id") == BaseType("percent100ths") == BaseType("vendor_id") == Some(Unsigned(2))
  {
    hide BaseType;
    PartsOfTable();
    Known(TYPES_A, 0, "action_id", Unsigned(1));
    Known(TYPES_B, 0, "bitmap16", Unsigned(2));
    Known(TYPES_B, 3, "bitmap8", Unsigned(1));
    Known(TYPES_EL_TO_EN, 1, "endpoint_no", Unsigned(2));
    Known(TYPES_EN_TO_EV, 0, "entry_idx", Unsigned(2));
    Known(TYPES_EN_TO_EV, 1, "enum16", Unsigned(2));
    Known(TYPES_EN_TO_EV, 2, "enum8", Unsigned(1));
    Known(TYPES_F_TO_G, 1, "fabric_idx", Unsigned(1));
    Known(TYPES_F_TO_G, 3, "group_id", Unsigned(2));
    Known(TYPES_PE_TO_PO, 0, "percent", Unsigned(1));
    Known(TYPES_PE_TO_PO, 1, "percent100ths", Unsigned(2));
    Known(TYPES_PO_TO_PR, 3, "priority", Unsigned(1));
    Known(TYPES_S, 1, "status", Unsigned(1));
    Known(TYPES_T_TO_V, 2, "vendor_id", Unsigned(2));
  }

  /** ... of four ... */
  lemma {:induction false} FourByteTypes()
    ensures BaseType("attrib_id") == BaseType("bitmap32") == BaseType("cluster_id") == BaseType("command_id") ==
            BaseType("data_ver") == BaseType("devtype_id") == BaseType("elapsed_s") == BaseType("event_id") ==
            BaseType("field_id") == BaseType("trans_id") == Some(Unsigned(4))
  {
    hide BaseType;
    PartsOfTable();
    Known(TYPES_A, 2, "attrib_id", Unsigned(4));
    Known(TYPES_B, 1, "bitmap32", Unsigned(4));
    Known(TYPES_C_TO_D, 1, "cluster_id", Unsigned(4));
    Known(TYPES_C_TO_D, 2, "command_id", Unsigned(4));
    Known(TYPES_C_TO_D, 3, "data_ver", Unsigned(4));
    Known(TYPES_C_TO_D, 4, "devtype_id", Unsigned(4));
    Known(TYPES_EL_TO_EN, 0, "elapsed_s", Unsigned(4));
    Known(TYPES_EN_TO_EV, 5, "event_id", Unsigned(4));
    Known(TYPES_F_TO_G, 2, "field_id", Unsigned(4));
    Known(TYPES_T_TO_V, 1, "trans_id", Unsigned(4));
  }

  /** ... of eight ... */
  lemma {:induction false} EightByteTypes()
    ensures BaseType("bitmap64") == BaseType("event_no") == BaseType("fabric_id") == BaseType("money") ==
            BaseType("node_id") == BaseType("posix_ms") == BaseType("subject_id") == BaseType("systime_ms") ==
            BaseType("systime_us") == Some(Unsigned(8))
  {
    hide BaseType;
    PartsOfTable();
    Known(TYPES_B, 2, "bitmap64", Unsigned(8));
    Known(TYPES_EN_TO_EV, 6, "event_no", Unsigned(8));
    Known(TYPES_F_TO_G, 0, "fabric_id", Unsigned(8));
    Known(TYPES_L_TO_M, 2, "money", Unsigned(8));
    Known(TYPES_N_TO_O, 0, "node_id", Unsigned(8));
    Known(TYPES_PE_TO_PO, 2, "posix_ms", Unsigned(8));
    Known(TYPES_S, 2, "subject_id", Unsigned(8));
    Known(TYPES_S, 3, "systime_ms", Unsigned(8));
    Known(TYPES_S, 4, "systime_us", Unsigned(8));
  }

  /** ... and the signed ones. */
  lemma {:induction false} SignedTypes()
    ensures BaseType("amperage_ma") == BaseType("energy_mvah") == BaseType("energy_mvarh") ==
            BaseType("energy_mwh") == BaseType("power_mva") == BaseType("power_mvar") == BaseType("power_mw") ==
            BaseType("voltage_mv") == Some(Signed(8))
    ensures BaseType("temperature") == Some(Signed(2))
  {
    hide BaseType;
    PartsOfTable();
    Known(TYPES_A, 1, "amperage_ma", Signed(8));
    Known(TYPES_EL_TO_EN, 2, "energy_mvah", Signed(8));
    Known(TYPES_EL_TO_EN, 3, "energy_mvarh", Signed(8));
    Known(TYPES_EL_TO_EN, 4, "energy_mwh", Signed(8));
    Known(TYPES_PO_TO_PR, 0, "power_mva", Signed(8));
    Known(TYPES_PO_TO_PR, 1, "power_mvar", Signed(8));
    Known(TYPES_PO_TO_PR, 2, "power_mw", Signed(8));
    Known(TYPES_T_TO_V, 0, "temperature", Signed(2));
    Known(TYPES_T_TO_V, 3, "voltage_mv", Signed(8));
  }

  lemma BitsOf(w: Width)
    ensures Show(8 * w) ==
            ["8", "16", "24", "32", "40", "48", "56", "64"][w - 1]
  {
  }

  /** An integer type takes the bytes its name says, in any spelling. */
  lemma {:induction false} IntegerTypes(w: Width, ty: string)
    ensures SameLetters("int" + Show(8 * w) + "u", ty) ==> BaseType(ty) == Some(Unsigned(w))
    ensures SameLetters("int" + Show(8 * w) + "s", ty) ==> BaseType(ty) == Some(Signed(w))
  {
    hide BaseType, SameIgnoringCase, SameLetters, Show;
    BitsOf(w);
    IntegerLiterals();
    var unsigned, signed := "int" + Show(8 * w) + "u", "int" + Show(8 * w) + "s";
    IgnoringCaseIs(unsigned, ty);
    IgnoringCaseIs(signed, ty);
    match w {
      case 1 => assert unsigned == "int8u" && signed == "int8s";
      case 2 => assert unsigned == "int16u" && signed == "int16s";
      case 3 => assert unsigned == "int24u" && signed == "int24s";
      case 4 => assert unsigned == "int32u" && signed == "int32s";
      case 5 => assert unsigned == "int40u" && signed == "int40s";
      case 6 => assert unsigned == "int48u" && signed == "int48s";
      case 7 => assert unsigned == "int56u" && signed == "int56s";
      case 8 => assert unsigned == "int64u" && signed == "int64s";
    }
    if SameIgnoringCase(unsigned, ty) {
      CapitalsAreBaseTypes(unsigned, ty);
    }
    if SameIgnoringCase(signed, ty) {
      CapitalsAreBaseTypes(signed, ty);
    }
  }

  lemma {:induction false} CapitalText()
    ensures BaseType("EPOCH_US") == Some(EpochUs) && BaseType("CHAR_STRING") == Some(Utf8)
  {
    hide BaseType;
    PlainTypes();
    CapitalsAreBaseTypes("EPOCH_US", "epoch_us");
    CapitalsAreBaseTypes("CHAR_STRING", "char_string");
  }

  lemma {:induction false} CapitalOctets()
    ensures BaseType("OCTET_STRING") == Some(Octets)
  {
    hide BaseType;
    PlainTypes();
    CapitalsAreBaseTypes("OCTET_STRING", "octet_string");
  }

  lemma {:induction false} CapitalIntegers()
    ensures BaseType("INT64U") == Some(Unsigned(8)) && BaseType("INT8U") == Some(Unsigned(1))
  {
    hide BaseType;
    IntegerLiterals();
    CapitalsAreBaseTypes("INT64U", "int64u");
    CapitalsAreBaseTypes("INT8U", "int8u");
  }

  /** The five names the IDL spells in capitals. */
  lemma {:induction false} FiveInCapitals()
    ensures BaseType("EPOCH_US") == Some(EpochUs) && BaseType("CHAR_STRING") == Some(Utf8)
    ensures BaseType("OCTET_STRING") == Some(Octets)
    ensures BaseType("INT64U") == Some(Unsigned(8)) && BaseType("INT8U") == Some(Unsigned(1))
  {
    hide *;
    CapitalText();
    CapitalOctets();
    CapitalIntegers();
  }
}

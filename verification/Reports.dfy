/** Attribute reports and what they add up to (`AttrAccumulator`). */
module Reports {
  import opened Wrappers
  import opened Json
  import opened Tlv
  import opened Decimal
  import opened TlvDecode

  /** The `ListIndex` of an attribute path: absent, null, or a number. */
  datatype ListIndex = Absent | NullIndex | Concrete(i: nat)

  datatype AttrPath = AttrPath(endpoint: Option<nat>, cluster: Option<nat>, attr: Option<nat>, listIndex: ListIndex)

  datatype AttrReport = Unparseable | Status | Data(path: AttrPath, value: Elem)

  datatype Report = Report(attrs: Option<seq<AttrReport>>, events: seq<nat>, moreChunks: Option<bool>)

  /** Type names of the attributes, by cluster and attribute id; "" when unknown. */
  type AttrTypes = (nat, nat) -> string

  datatype ListOp = Replace | Append | SetIndex(i: nat)

  type Pair = (string, Value)

  /** A report that made it: a path's key, what to do there, and with what. */
  datatype Change = Change(key: string, op: ListOp, json: Value)

  function ListOpOf(i: ListIndex): ListOp {
    match i
    case Absent => Replace
    case NullIndex => Append
    case Concrete(n) => SetIndex(n)
  }

  /** `attr_value_to_json`: by field id, with the epoch shift at the top only. */
  function AttrValueToJson(types: AttrTypes, cluster: nat, attr: nat, e: Elem): Option<Value> {
    var v :- Decode(e, 0);
    ApplyEpoch(types(cluster, attr), v)
  }

  function PathKey(endpoint: nat, cluster: nat, attr: nat): string {
    Show(endpoint) + "/" + Show(cluster) + "/" + Show(attr)
  }

  /** `key` is three ids in their usual form, divided by its only two slashes, at `i` and `j`. */
  predicate Divides(key: string, i: nat, j: nat, endpoint: nat, cluster: nat, attr: nat) {
    && i < j < |key| && key[i] == '/' && key[j] == '/'
    && (forall k :: 0 <= k < |key| && k != i && k != j ==> key[k] != '/')
    && Names(key[..i], endpoint) && Names(key[i + 1..j], cluster) && Names(key[j + 1..], attr)
  }

  ghost predicate ReadsAs(key: string, endpoint: nat, cluster: nat, attr: nat) {
    exists i: nat, j: nat :: Divides(key, i, j, endpoint, cluster, attr)
  }

  /** A path's key reads back to the path, and nothing else does. */
  lemma {:induction false} KeyReadsBack(key: string, endpoint: nat, cluster: nat, attr: nat)
    ensures key == PathKey(endpoint, cluster, attr) <==> ReadsAs(key, endpoint, cluster, attr)
  {
    hide Divides, Show;
    if ReadsAs(key, endpoint, cluster, attr) {
      var i: nat, j: nat :| Divides(key, i, j, endpoint, cluster, attr);
      DividedIsKey(key, i, j, endpoint, cluster, attr);
    }
    KeyDivides(Show(endpoint), Show(cluster), Show(attr), endpoint, cluster, attr);
  }

  lemma {:induction false} DividedIsKey(key: string, i: nat, j: nat, endpoint: nat, cluster: nat, attr: nat)
    requires Divides(key, i, j, endpoint, cluster, attr)
    ensures key == PathKey(endpoint, cluster, attr)
  {
    hide Names, Show;
    UsualIsShow(key[..i], endpoint);
    UsualIsShow(key[i + 1..j], cluster);
    UsualIsShow(key[j + 1..], attr);
    assert key == key[..i] + "/" + key[i + 1..j] + "/" + key[j + 1..];
  }

  lemma {:induction false} KeyDivides(a: string, b: string, c: string, endpoint: nat, cluster: nat, attr: nat)
    requires a == Show(endpoint) && b == Show(cluster) && c == Show(attr)
    ensures Divides(a + "/" + b + "/" + c, |a|, |a| + 1 + |b|, endpoint, cluster, attr)
  {
    hide Show, ValueOf;
    ShowIsUsual(endpoint);
    ShowIsUsual(cluster);
    ShowIsUsual(attr);
    var key, i, j := a + "/" + b + "/" + c, |a|, |a| + 1 + |b|;
    assert key[..i] == a && key[i + 1..j] == b && key[j + 1..] == c && key[i] == '/' && key[j] == '/';
    forall k | 0 <= k < |key| && k != i && k != j ensures key[k] != '/' {
      if k < i {
        assert IsDigit(a[k]);
      } else if k < j {
        assert IsDigit(b[k - i - 1]);
      } else {
        assert IsDigit(c[k - j - 1]);
      }
    }
  }

  /** What a report asks for, if its path is concrete and its value converts. */
  function ChangeOf(types: AttrTypes, r: AttrReport): Option<Change> {
    if !r.Data? || r.path.endpoint.None? || r.path.cluster.None? || r.path.attr.None? then None
    else
      var json :- AttrValueToJson(types, r.path.cluster.value, r.path.attr.value, r.value);
      Some(Change(PathKey(r.path.endpoint.value, r.path.cluster.value, r.path.attr.value),
                  ListOpOf(r.path.listIndex), json))
  }

  /** A report that is logged and skipped; a per-path status is expected and not one. */
  predicate Fails(types: AttrTypes, r: AttrReport) {
    !r.Status? && ChangeOf(types, r).None?
  }

  function Changes(types: AttrTypes, rs: seq<AttrReport>): seq<Change> {
    if rs == [] then []
    else
      var front, last := Changes(types, rs[..|rs| - 1]), ChangeOf(types, rs[|rs| - 1]);
      if last.Some? then front + [last.value] else front
  }

  function Failures(types: AttrTypes, rs: seq<AttrReport>): nat {
    if rs == [] then 0
    else Failures(types, rs[..|rs| - 1]) + if Fails(types, rs[|rs| - 1]) then 1 else 0
  }

  // ---------------------------------------------------- what changes add up to

  /** The position of `key`. */
  function Find(out: seq<Pair>, key: string): (r: Option<nat>)
    ensures r.Some? ==> r.value < |out| && out[r.value].0 == key
    ensures r.None? ==> forall i :: 0 <= i < |out| ==> out[i].0 != key
  {
    if out == [] then None
    else if out[|out| - 1].0 == key then Some(|out| - 1)
    else Find(out[..|out| - 1], key)
  }

  function Lookup(out: seq<Pair>, key: string): Option<Value> {
    match Find(out, key)
    case Some(i) => Some(out[i].1)
    case None => None
  }

  /** `key` holds `v`: in its place when it is there, else at the end. */
  function Upsert(out: seq<Pair>, key: string, v: Value): (r: seq<Pair>)
    ensures |out| <= |r| <= |out| + 1
  {
    match Find(out, key)
    case Some(i) => out[i := (key, v)]
    case None => out + [(key, v)]
  }

  function Nulls(n: nat): (s: seq<Value>)
    ensures |s| == n && forall i :: 0 <= i < n ==> s[i] == Null
  {
    if n == 0 then [] else Nulls(n - 1) + [Null]
  }

  /** The array under a path, or an empty one when there is none to extend. */
  function ArrayOf(prev: Option<Value>): seq<Value> {
    if prev.Some? && prev.value.Arr? then prev.value.items else []
  }

  function SetAt(items: seq<Value>, i: nat, v: Value): seq<Value> {
    if i < |items| then items[i := v] else items + Nulls(i - |items|) + [v]
  }

  /** The value of a path after one change, from its value before, if any. */
  function Next(prev: Option<Value>, op: ListOp, json: Value): Value {
    match op
    case Replace => json
    case Append => Arr(ArrayOf(prev) + [json])
    case SetIndex(i) => Arr(SetAt(ArrayOf(prev), i, json))
  }

  function Apply(out: seq<Pair>, ch: Change): seq<Pair> {
    Upsert(out, ch.key, Next(Lookup(out, ch.key), ch.op, ch.json))
  }

  function ApplyAll(out: seq<Pair>, chs: seq<Change>): seq<Pair> {
    if chs == [] then out else Apply(ApplyAll(out, chs[..|chs| - 1]), chs[|chs| - 1])
  }

  lemma {:induction false} Padded(items: seq<Value>, i: nat, v: Value)
    ensures i < |items| ==> items[i := v] == SetAt(items, i, v)
    ensures i >= |items| ==> (items + Nulls(i + 1 - |items|))[i := v] == SetAt(items, i, v)
  {
  }

  lemma {:induction false} OneMoreReport(types: AttrTypes, rs: seq<AttrReport>, i: nat, out: seq<Pair>)
    requires i < |rs|
    ensures var ch, before := ChangeOf(types, rs[i]), Changes(types, rs[..i]);
            ApplyAll(out, Changes(types, rs[..i + 1])) ==
            if ch.Some? then Apply(ApplyAll(out, before), ch.value) else ApplyAll(out, before)
    ensures Failures(types, rs[..i + 1]) == Failures(types, rs[..i]) + if Fails(types, rs[i]) then 1 else 0
  {
    hide ChangeOf, Fails, Apply;
    assert rs[..i + 1][..i] == rs[..i];
    var ch, before := ChangeOf(types, rs[i]), Changes(types, rs[..i]);
    if ch.Some? {
      assert (before + [ch.value])[..|before|] == before;
    }
  }

  lemma NothingAbsorbed(types: AttrTypes, out: seq<Pair>)
    ensures Changes(types, []) == [] && ApplyAll(out, []) == out && Failures(types, []) == 0
  {
  }

  lemma ReplaceIsUpsert(out: seq<Pair>, key: string, json: Value)
    ensures Apply(out, Change(key, Replace, json)) == Upsert(out, key, json)
  {
  }

  ghost predicate DistinctKeys(out: seq<Pair>) {
    forall i, j :: 0 <= i < |out| && 0 <= j < |out| && out[i].0 == out[j].0 ==> i == j
  }

  lemma FindOnly(out: seq<Pair>, i: nat)
    requires DistinctKeys(out) && i < |out|
    ensures Find(out, out[i].0) == Some(i)
  {
  }

  lemma UpsertKeepsDistinct(out: seq<Pair>, key: string, v: Value)
    requires DistinctKeys(out)
    ensures DistinctKeys(Upsert(out, key, v))
  {
  }

  // -------------------------------------------------- what reports leave, by path

  /** The report has a whole path and its value converts. */
  predicate Converts(types: AttrTypes, r: AttrReport) {
    && r.Data? && r.path.endpoint.Some? && r.path.cluster.Some? && r.path.attr.Some?
    && AttrValueToJson(types, r.path.cluster.value, r.path.attr.value, r.value).Some?
  }

  /** The report converts, and its path is what the key reads as. */
  ghost predicate KeyOf(types: AttrTypes, key: string, r: AttrReport) {
    Converts(types, r) && ReadsAs(key, r.path.endpoint.value, r.path.cluster.value, r.path.attr.value)
  }

  ghost predicate HasReport(types: AttrTypes, key: string, rs: seq<AttrReport>) {
    exists i :: 0 <= i < |rs| && KeyOf(types, key, rs[i])
  }

  ghost predicate HasKey(types: AttrTypes, out: seq<Pair>, r: AttrReport) {
    exists k :: 0 <= k < |out| && KeyOf(types, out[k].0, r)
  }

  /** The keys are those of the reports that convert, and no others. */
  ghost predicate KeyedByPath(types: AttrTypes, out: seq<Pair>, rs: seq<AttrReport>) {
    && (forall k :: 0 <= k < |out| ==> HasReport(types, out[k].0, rs))
    && (forall i :: 0 <= i < |rs| && Converts(types, rs[i]) ==> HasKey(types, out, rs[i]))
  }

  lemma {:induction false} ChangeKey(types: AttrTypes, r: AttrReport)
    ensures ChangeOf(types, r).Some? <==> Converts(types, r)
    ensures Converts(types, r) ==> KeyOf(types, ChangeOf(types, r).value.key, r)
  {
    hide AttrValueToJson, PathKey, ReadsAs;
    if Converts(types, r) {
      KeyReadsBack(ChangeOf(types, r).value.key, r.path.endpoint.value, r.path.cluster.value, r.path.attr.value);
    }
  }

  /** The reports that are logged and skipped: those that say neither a status nor a value that
      converts under a whole path. */
  function Skipped(types: AttrTypes, rs: seq<AttrReport>): set<nat> {
    set i: nat | i < |rs| && !rs[i].Status? && !Converts(types, rs[i])
  }

  lemma {:induction false} FailuresAreSkipped(types: AttrTypes, rs: seq<AttrReport>)
    ensures Failures(types, rs) == |Skipped(types, rs)|
  {
    hide ChangeOf, Converts;
    if rs == [] {
      assert Skipped(types, rs) == {};
    } else {
      var front, last := rs[..|rs| - 1], rs[|rs| - 1];
      FailuresAreSkipped(types, front);
      ChangeKey(types, last);
      var more: set<nat> := if last.Status? || Converts(types, last) then {} else {|front|};
      assert forall i: nat :: i < |front| ==> front[i] == rs[i];
      assert Skipped(types, rs) == Skipped(types, front) + more;
    }
  }

  lemma {:induction false} UpsertKeys(out: seq<Pair>, key: string, v: Value)
    ensures var more := Upsert(out, key, v);
            && (forall k :: 0 <= k < |out| ==> more[k].0 == out[k].0)
            && (exists k :: 0 <= k < |more| && more[k].0 == key)
            && (forall k :: |out| <= k < |more| ==> more[k].0 == key)
  {
    hide Find;
    var more := Upsert(out, key, v);
    var at := Find(out, key).GetOr(|out|);
    assert more[at].0 == key;
  }

  lemma {:induction false} AbsorbedKeys(types: AttrTypes, rs: seq<AttrReport>)
    ensures KeyedByPath(types, ApplyAll([], Changes(types, rs)), rs)
  {
    hide *;
    if rs == [] {
      NothingAbsorbed(types, []);
      NoKeys(types);
    } else {
      var before := ApplyAll([], Changes(types, rs[..|rs| - 1]));
      AbsorbedKeys(types, rs[..|rs| - 1]);
      assert rs[..|rs|] == rs;
      OneMoreReport(types, rs, |rs| - 1, []);
      OneMoreKey(types, rs, before);
    }
  }

  lemma NoKeys(types: AttrTypes)
    ensures KeyedByPath(types, [], [])
  {
  }

  lemma {:induction false} OneMoreKey(types: AttrTypes, rs: seq<AttrReport>, before: seq<Pair>)
    requires rs != [] && KeyedByPath(types, before, rs[..|rs| - 1])
    ensures var ch := ChangeOf(types, rs[|rs| - 1]);
            KeyedByPath(types, if ch.Some? then Apply(before, ch.value) else before, rs)
  {
    hide ChangeOf, Converts, KeyOf, Upsert, Lookup, Next, HasReport, HasKey;
    var front, last := rs[..|rs| - 1], rs[|rs| - 1];
    ChangeKey(types, last);
    var out := before;
    if Converts(types, last) {
      var ch := ChangeOf(types, last).value;
      UpsertKeys(before, ch.key, Next(Lookup(before, ch.key), ch.op, ch.json));
      out := Apply(before, ch);
    }
    forall k | 0 <= k < |out| ensures HasReport(types, out[k].0, rs) {
      if k < |before| {
        assert HasReport(types, before[k].0, front) && out[k].0 == before[k].0;
        MoreReports(types, out[k].0, rs);
      } else {
        LastReport(types, out[k].0, rs);
      }
    }
    forall i | 0 <= i < |rs| && Converts(types, rs[i]) ensures HasKey(types, out, rs[i]) {
      if i < |front| {
        assert front[i] == rs[i];
        KeyStays(types, before, out, rs[i]);
      } else {
        var at :| 0 <= at < |out| && out[at].0 == ChangeOf(types, last).value.key;
        KeyIsThere(types, out, rs[i], at);
      }
    }
  }

  lemma {:induction false} MoreReports(types: AttrTypes, key: string, rs: seq<AttrReport>)
    requires rs != [] && HasReport(types, key, rs[..|rs| - 1])
    ensures HasReport(types, key, rs)
  {
    hide KeyOf;
    var i :| 0 <= i < |rs| - 1 && KeyOf(types, key, rs[..|rs| - 1][i]);
    assert rs[i] == rs[..|rs| - 1][i];
  }

  lemma {:induction false} LastReport(types: AttrTypes, key: string, rs: seq<AttrReport>)
    requires rs != [] && KeyOf(types, key, rs[|rs| - 1])
    ensures HasReport(types, key, rs)
  {
    hide KeyOf;
  }

  lemma {:induction false} KeyStays(types: AttrTypes, before: seq<Pair>, out: seq<Pair>, r: AttrReport)
    requires HasKey(types, before, r)
    requires |before| <= |out| && forall k :: 0 <= k < |before| ==> out[k].0 == before[k].0
    ensures HasKey(types, out, r)
  {
    hide KeyOf;
    var k :| 0 <= k < |before| && KeyOf(types, before[k].0, r);
    assert KeyOf(types, out[k].0, r);
  }

  lemma {:induction false} KeyIsThere(types: AttrTypes, out: seq<Pair>, r: AttrReport, at: nat)
    requires at < |out| && KeyOf(types, out[at].0, r)
    ensures HasKey(types, out, r)
  {
    hide KeyOf;
  }

  // ------------------------------------------------------- what one report leaves

  /** What stands under a path after a report of it: the value itself, or the array that was
      there with the value at its end, or with it at the index the report names and nulls in
      any gap before. */
  predicate Lands(before: Option<Value>, at: ListIndex, json: Value, after: Option<Value>) {
    var was := if before.Some? && before.value.Arr? then before.value.items else [];
    match at
    case Absent => after == Some(json)
    case NullIndex => after == Some(Arr(was + [json]))
    case Concrete(i) =>
      && after.Some? && after.value.Arr?
      && var now := after.value.items;
         && |now| == (if i < |was| then |was| else i + 1) && now[i] == json
         && forall k :: 0 <= k < |now| && k != i ==> now[k] == if k < |was| then was[k] else Null
  }

  lemma {:induction false} LookupUpsert(out: seq<Pair>, key: string, v: Value, other: string)
    ensures Lookup(Upsert(out, key, v), other) == if other == key then Some(v) else Lookup(out, other)
  {
    if out != [] {
      var front, last := out[..|out| - 1], out[|out| - 1];
      var more := Upsert(out, key, v);
      if last.0 == key {
        assert more[..|more| - 1] == front;
      } else if Find(out, key).Some? {
        LookupUpsert(front, key, v, other);
        assert more[..|more| - 1] == Upsert(front, key, v);
      } else {
        assert more[..|more| - 1] == out;
      }
    }
  }

  lemma {:induction false} NextLands(before: Option<Value>, at: ListIndex, json: Value)
    ensures Lands(before, at, json, Some(Next(before, ListOpOf(at), json)))
  {
  }

  /** One report changes what stands under the key that reads as its path, and nothing else. */
  lemma {:induction false} ReportLands(types: AttrTypes, out: seq<Pair>, r: AttrReport, key: string)
    requires Converts(types, r)
    ensures var after := ApplyAll(out, Changes(types, [r]));
            var json := AttrValueToJson(types, r.path.cluster.value, r.path.attr.value, r.value).value;
            if KeyOf(types, key, r) then Lands(Lookup(out, key), r.path.listIndex, json, Lookup(after, key))
            else Lookup(after, key) == Lookup(out, key)
  {
    hide AttrValueToJson, PathKey, ReadsAs, Upsert, Lookup, Lands, Next, ListOpOf;
    var ch := ChangeOf(types, r).value;
    assert [r][..0] == [] && [r][..1] == [r];
    OneMoreReport(types, [r], 0, out);
    NothingAbsorbed(types, out);
    KeyReadsBack(key, r.path.endpoint.value, r.path.cluster.value, r.path.attr.value);
    var before := Lookup(out, ch.key);
    LookupUpsert(out, ch.key, Next(before, ch.op, ch.json), key);
    NextLands(before, r.path.listIndex, ch.json);
  }

  // ------------------------------------------------------------ the accumulator

  class AttrAccumulator {
    var out: seq<Pair>
    var index: map<string, nat>
    var orphanAppends: seq<string>
    var failures: nat

    constructor ()
      ensures Valid() && out == [] && orphanAppends == [] && failures == 0
    {
      out, index, orphanAppends, failures := [], map[], [], 0;
    }

    /** `index` maps exactly the keys of `out`, which are distinct, to their positions. */
    ghost predicate Valid()
      reads this
    {
      && (forall k :: k in index ==> index[k] < |out| && out[index[k]].0 == k)
      && (forall i :: 0 <= i < |out| ==> out[i].0 in index && index[out[i].0] == i)
    }

    lemma IndexFinds(key: string)
      requires Valid()
      ensures Find(out, key) == if key in index then Some(index[key]) else None
    {
    }

    lemma {:induction false} KeysAreDistinct()
      requires Valid()
      ensures DistinctKeys(out)
    {
      forall i, j | 0 <= i < |out| && 0 <= j < |out| && out[i].0 == out[j].0 ensures i == j {
        assert index[out[i].0] == i && index[out[j].0] == j;
      }
    }

    method Put(key: string, json: Value)
      requires Valid()
      modifies this`out, this`index
      ensures Valid() && out == Upsert(old(out), key, json)
    {
      IndexFinds(key);
      hide Find;
      if key in index {
        out := out[index[key] := (key, json)];
      } else {
        index := index[key := |out|];
        out := out + [(key, json)];
      }
    }

    method AppendElement(key: string, json: Value)
      requires Valid()
      modifies this`out, this`index, this`orphanAppends
      ensures Valid() && out == Apply(old(out), Change(key, Append, json))
      ensures orphanAppends == if Lookup(old(out), key).None? then old(orphanAppends) + [key] else old(orphanAppends)
    {
      IndexFinds(key);
      hide Find;
      if key !in index {
        orphanAppends := orphanAppends + [key];
        index := index[key := |out|];
        out := out + [(key, Arr([json]))];
        assert [] + [json] == [json];
        return;
      }
      var at := index[key];
      match out[at].1 {
        case Arr(items) => out := out[at := (key, Arr(items + [json]))];
        case _ =>
          assert [] + [json] == [json];
          out := out[at := (key, Arr([json]))];
      }
    }

    /** The position of `key`, with an empty array put there when it has none. */
    method Slot(key: string) returns (at: nat)
      requires Valid()
      modifies this`out, this`index
      ensures Valid() && at < |out| && out[at].0 == key
      ensures Find(old(out), key) == if key in old(index) then Some(at) else None
      ensures if key in old(index) then out == old(out) else at == |old(out)| && out == old(out) + [(key, Arr([]))]
    {
      IndexFinds(key);
      hide Find;
      if key in index {
        at := index[key];
      } else {
        at := |out|;
        index := index[key := at];
        out := out + [(key, Arr([]))];
      }
    }

    method SetElement(key: string, i: nat, json: Value)
      requires Valid()
      modifies this`out, this`index
      ensures Valid() && out == Apply(old(out), Change(key, SetIndex(i), json))
    {
      hide Find, SetAt;
      var at := Slot(key);
      var items := if out[at].1.Arr? then out[at].1.items else [];
      assert items == ArrayOf(Lookup(old(out), key));
      hide ArrayOf;
      Padded(items, i, json);
      if i >= |items| {
        items := items + Nulls(i + 1 - |items|);
      }
      items := items[i := json];
      out := out[at := (key, Arr(items))];
      assert out == Upsert(old(out), key, Arr(items));
    }

    /** `absorb`: failures are counted and skipped, the rest is applied in order. */
    method Absorb(types: AttrTypes, report: Report)
      requires Valid()
      modifies this
      ensures Valid()
      ensures var rs := report.attrs.GetOr([]);
              && out == ApplyAll(old(out), Changes(types, rs))
              && failures == old(failures) + Failures(types, rs)
      ensures old(out) == [] ==> KeyedByPath(types, out, report.attrs.GetOr([]))
      ensures failures == old(failures) + |Skipped(types, report.attrs.GetOr([]))|
    {
      hide Find, Changes, Failures, ApplyAll, Apply, Upsert, ChangeOf, KeyedByPath;
      NothingAbsorbed(types, out);
      AbsorbedKeys(types, report.attrs.GetOr([]));
      FailuresAreSkipped(types, report.attrs.GetOr([]));
      if report.attrs.None? {
        return;
      }
      var rs := report.attrs.value;
      for i := 0 to |rs|
        invariant Valid()
        invariant out == ApplyAll(old(out), Changes(types, rs[..i]))
        invariant failures == old(failures) + Failures(types, rs[..i])
      {
        OneMoreReport(types, rs, i, old(out));
        var ch := ChangeOf(types, rs[i]);
        if ch.None? {
          if !rs[i].Status? {
            failures := failures + 1;
          }
        } else {
          match ch.value.op {
            case Replace =>
              ReplaceIsUpsert(out, ch.value.key, ch.value.json);
              Put(ch.value.key, ch.value.json);
            case Append => AppendElement(ch.value.key, ch.value.json);
            case SetIndex(n) => SetElement(ch.value.key, n, ch.value.json);
          }
        }
      }
      assert rs[..|rs|] == rs;
    }
  }
}

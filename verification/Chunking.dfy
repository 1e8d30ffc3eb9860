/** What a sequence of reports adds up to, path by path, and why it does not matter
    whether a list arrives whole or in chunks. */
module Chunking {
  import opened Wrappers
  import opened Json
  import opened Tlv
  import opened Decimal
  import opened TlvDecode
  import opened Reports
  import opened Idl

  // ----------------------------------------------------------- messages do not

  /** Absorbing message after message is absorbing the concatenation. */
  lemma {:induction false} ChangesOfBoth(types: AttrTypes, rs: seq<AttrReport>, more: seq<AttrReport>)
    ensures Changes(types, rs + more) == Changes(types, rs) + Changes(types, more)
    ensures Failures(types, rs + more) == Failures(types, rs) + Failures(types, more)
  {
    hide ChangeOf, Fails;
    if more == [] {
      assert rs + more == rs;
    } else {
      var both, front, last := rs + more, more[..|more| - 1], more[|more| - 1];
      ChangesOfBoth(types, rs, front);
      assert both[..|both| - 1] == rs + front && both[|both| - 1] == last;
    }
  }

  lemma {:induction false} ApplyBoth(out: seq<Pair>, a: seq<Change>, b: seq<Change>)
    ensures ApplyAll(out, a + b) == ApplyAll(ApplyAll(out, a), b)
  {
    hide Apply;
    if b == [] {
      assert a + b == a;
    } else {
      ApplyBoth(out, a, b[..|b| - 1]);
      assert (a + b)[..|a + b| - 1] == a + b[..|b| - 1];
    }
  }

  // ------------------------------------------------------------- path by path

  function Keys(out: seq<Pair>): (ks: seq<string>)
    ensures |ks| == |out| && forall i :: 0 <= i < |out| ==> ks[i] == out[i].0
  {
    if out == [] then [] else Keys(out[..|out| - 1]) + [out[|out| - 1].0]
  }

  /** The keys of `ks`, then those the changes add, each where it first appears. */
  function FirstSeen(ks: seq<string>, chs: seq<Change>): seq<string> {
    if chs == [] then ks
    else
      var front := FirstSeen(ks, chs[..|chs| - 1]);
      var key := chs[|chs| - 1].key;
      if key in front then front else front + [key]
  }

  /** The value of one path, from the changes to that path alone. */
  function ValueOfKey(prev: Option<Value>, chs: seq<Change>, key: string): Option<Value> {
    if chs == [] then prev
    else
      var before := ValueOfKey(prev, chs[..|chs| - 1], key);
      var ch := chs[|chs| - 1];
      if ch.key == key then Some(Next(before, ch.op, ch.json)) else before
  }

  lemma {:induction false} KeysUpsert(out: seq<Pair>, key: string, v: Value)
    ensures Keys(Upsert(out, key, v)) == if key in Keys(out) then Keys(out) else Keys(out) + [key]
  {
    hide Find, Keys;
    var i := Find(out, key);
    if i.Some? {
      assert Keys(out)[i.value] == key;
    }
  }

  /** Each path ends with what its own changes make of it, and the paths stand in the
      order in which they first appeared. */
  lemma {:induction false} PathByPath(out: seq<Pair>, chs: seq<Change>, key: string)
    requires DistinctKeys(out)
    ensures DistinctKeys(ApplyAll(out, chs))
    ensures Keys(ApplyAll(out, chs)) == FirstSeen(Keys(out), chs)
    ensures Lookup(ApplyAll(out, chs), key) == ValueOfKey(Lookup(out, key), chs, key)
  {
    hide DistinctKeys, Lookup, Upsert, Next, Keys;
    if chs != [] {
      var front, ch := chs[..|chs| - 1], chs[|chs| - 1];
      PathByPath(out, front, key);
      var before := ApplyAll(out, front);
      var v := Next(Lookup(before, ch.key), ch.op, ch.json);
      UpsertKeepsDistinct(before, ch.key, v);
      LookupUpsert(before, ch.key, v, key);
      KeysUpsert(before, ch.key, v);
    }
  }

  // ------------------------------------------------------------------- chunks

  /** `r` carries data for one concrete path. */
  predicate OnPath(r: AttrReport, e: nat, cl: nat, a: nat) {
    r.Data? && r.path.endpoint == Some(e) && r.path.cluster == Some(cl) && r.path.attr == Some(a)
  }

  function OfPath(rs: seq<AttrReport>, e: nat, cl: nat, a: nat): seq<AttrReport> {
    if rs == [] then []
    else
      var front := OfPath(rs[..|rs| - 1], e, cl, a);
      if OnPath(rs[|rs| - 1], e, cl, a) then front + [rs[|rs| - 1]] else front
  }

  /** Report number `m` of a list of `items` sent in chunks: an opening replace with the
      first `k` of them, then one append for each of the rest. */
  function Chunk(e: nat, cl: nat, a: nat, items: seq<Elem>, k: nat, m: nat): (r: AttrReport)
    requires k + m <= |items|
    ensures r.Data?
  {
    if m == 0 then Data(AttrPath(Some(e), Some(cl), Some(a), Absent), Array(items[..k]))
    else Data(AttrPath(Some(e), Some(cl), Some(a), NullIndex), items[k + m - 1])
  }

  function Chunks(e: nat, cl: nat, a: nat, items: seq<Elem>, k: nat, m: nat): seq<AttrReport>
    requires k + m <= |items| + 1
  {
    if m == 0 then [] else Chunks(e, cl, a, items, k, m - 1) + [Chunk(e, cl, a, items, k, m - 1)]
  }

  /** The same reports with the list whole where it was opened. */
  function Unchunk(rs: seq<AttrReport>, e: nat, cl: nat, a: nat, items: seq<Elem>): seq<AttrReport> {
    if rs == [] then []
    else
      var front, r := Unchunk(rs[..|rs| - 1], e, cl, a, items), rs[|rs| - 1];
      if !OnPath(r, e, cl, a) then front + [r]
      else if r.path.listIndex.Absent? then front + [r.(value := Array(items))]
      else front
  }

  /** The keys of two paths are equal only if the paths are. */
  lemma {:induction false} PathKeyInjective(e: nat, cl: nat, a: nat, e': nat, cl': nat, a': nat)
    requires PathKey(e, cl, a) == PathKey(e', cl', a')
    ensures e == e' && cl == cl' && a == a'
  {
    hide Show;
    ShowIsDigits(e);
    ShowIsDigits(e');
    ShowIsDigits(cl);
    ShowIsDigits(cl');
    var s, s' := Show(cl) + "/" + Show(a), Show(cl') + "/" + Show(a');
    assert PathKey(e, cl, a) == Show(e) + ("/" + s) && PathKey(e', cl', a') == Show(e') + ("/" + s');
    DigitsEndAtSlash(Show(e), Show(e'), s, s');
    assert s == Show(cl) + ("/" + Show(a)) && s' == Show(cl') + ("/" + Show(a'));
    DigitsEndAtSlash(Show(cl), Show(cl'), Show(a), Show(a'));
    ShowInjective(e, e');
    ShowInjective(cl, cl');
    ShowInjective(a, a');
  }

  lemma {:induction false} DigitsEndAtSlash(d: string, d': string, s: string, s': string)
    requires AllDigits(d) && AllDigits(d') && d + ("/" + s) == d' + ("/" + s')
    ensures d == d' && s == s'
  {
    var t, t' := d + ("/" + s), d' + ("/" + s');
    if d == [] || d' == [] {
      assert t[0] == t'[0];
      assert s == t[1..];
      assert s' == t'[1..];
    } else {
      assert t[0] == d[0] && t'[0] == d'[0];
      assert t[1..] == d[1..] + ("/" + s) && t'[1..] == d'[1..] + ("/" + s');
      DigitsEndAtSlash(d[1..], d'[1..], s, s');
      assert d == [d[0]] + d[1..] && d' == [d'[0]] + d'[1..];
    }
  }

  /** A value that converts deep in a tree converts alike nearer the top. */
  lemma {:induction false} ConvertsNearerTheTop(e: Elem, d: nat)
    requires Decode(e, d + 1).Some?
    ensures Decode(e, d) == Decode(e, d + 1)
    decreases e, 1
  {
    match e {
      case Struct(ms) => MembersConvertNearerTheTop(ms, d + 1);
      case Array(items) => ItemsConvertNearerTheTop(items, d + 1);
      case List(items) => ItemsConvertNearerTheTop(items, d + 1);
      case _ =>
    }
  }

  lemma {:induction false} MembersConvertNearerTheTop(ms: seq<Member>, d: nat)
    requires DecodeMembers(ms, d + 1).Some?
    ensures DecodeMembers(ms, d) == DecodeMembers(ms, d + 1)
    decreases ms, 0
  {
    hide Decode;
    if ms != [] {
      var m := ms[|ms| - 1];
      assert m.value < m;
      MembersConvertNearerTheTop(ms[..|ms| - 1], d);
      if m.tag.Context? {
        ConvertsNearerTheTop(m.value, d);
      }
    }
  }

  lemma {:induction false} ItemsConvertNearerTheTop(items: seq<Elem>, d: nat)
    requires DecodeItems(items, d + 1).Some?
    ensures DecodeItems(items, d) == DecodeItems(items, d + 1)
    decreases items, 0
  {
    hide Decode;
    if items != [] {
      ItemsConvertNearerTheTop(items[..|items| - 1], d);
      ConvertsNearerTheTop(items[|items| - 1], d);
    }
  }

  lemma {:induction false} PrefixConverts(items: seq<Elem>, k: nat, d: nat)
    requires k <= |items| && DecodeItems(items, d).Some?
    ensures DecodeItems(items[..k], d) == Some(DecodeItems(items, d).value[..k])
    ensures k < |items| ==> Decode(items[k], d) == Some(DecodeItems(items, d).value[k])
  {
    hide Decode;
    if k == |items| {
      assert items[..k] == items;
      assert DecodeItems(items, d).value[..k] == DecodeItems(items, d).value;
    } else {
      var front := items[..|items| - 1];
      if k < |front| {
        PrefixConverts(front, k, d);
        assert front[..k] == items[..k];
        assert DecodeItems(items, d).value[..k] == DecodeItems(front, d).value[..k];
      } else {
        assert items[..k] == front;
      }
    }
  }

  /** The elements that have landed after `m` appends: the first `k` in the opening
      report, then each appended one as the epoch shift of the type leaves it. */
  function Landed(ty: string, js: seq<Value>, k: nat, m: nat): seq<Value>
    requires k + m <= |js|
  {
    if m == 0 then js[..k]
    else
      var front := Landed(ty, js, k, m - 1);
      match ApplyEpoch(ty, js[k + m - 1])
      case Some(v) => front + [v]
      case None => front
  }

  /** `o` holds at `key` what has landed of a list that `w` holds whole, and agrees with
      `w` on every other path. */
  ghost predicate Chunked(o: seq<Pair>, w: seq<Pair>, key: string, landed: seq<Value>, whole: seq<Value>) {
    && |o| == |w|
    && (forall i :: 0 <= i < |o| ==> o[i].0 == w[i].0 && (o[i].0 != key ==> o[i] == w[i]))
    && var at := Find(o, key);
       at.Some? && Find(w, key) == at && o[at.value].1 == Arr(landed) && w[at.value].1 == Arr(whole)
  }

  lemma {:induction false} SameKeysFind(o: seq<Pair>, w: seq<Pair>, key: string)
    requires |o| == |w| && forall i :: 0 <= i < |o| ==> o[i].0 == w[i].0
    ensures Find(o, key) == Find(w, key)
  {
    if o != [] {
      SameKeysFind(o[..|o| - 1], w[..|w| - 1], key);
    }
  }

  lemma {:induction false} OpeningSplits(out: seq<Pair>, key: string, landed: seq<Value>, whole: seq<Value>)
    requires DistinctKeys(out)
    ensures Chunked(Upsert(out, key, Arr(landed)), Upsert(out, key, Arr(whole)), key, landed, whole)
  {
    var o, w := Upsert(out, key, Arr(landed)), Upsert(out, key, Arr(whole));
    UpsertKeepsDistinct(out, key, Arr(landed));
    UpsertKeepsDistinct(out, key, Arr(whole));
    var at := Find(out, key).GetOr(|out|);
    FindOnly(o, at);
    FindOnly(w, at);
  }

  lemma {:induction false} AppendLands(o: seq<Pair>, w: seq<Pair>, key: string, landed: seq<Value>,
      whole: seq<Value>, v: Value)
    requires Chunked(o, w, key, landed, whole) && DistinctKeys(o)
    ensures Chunked(Apply(o, Change(key, Append, v)), w, key, landed + [v], whole)
  {
    hide Find, DistinctKeys;
    var at := Find(o, key).value;
    var more := Apply(o, Change(key, Append, v));
    assert more == o[at := (key, Arr(landed + [v]))];
    UpsertKeepsDistinct(o, key, Arr(landed + [v]));
    FindOnly(more, at);
  }

  lemma {:induction false} OthersAgree(o: seq<Pair>, w: seq<Pair>, key: string, landed: seq<Value>,
      whole: seq<Value>, ch: Change)
    requires Chunked(o, w, key, landed, whole) && ch.key != key && DistinctKeys(o) && DistinctKeys(w)
    ensures Chunked(Apply(o, ch), Apply(w, ch), key, landed, whole)
  {
    hide Find, DistinctKeys, Next;
    SameKeysFind(o, w, ch.key);
    var at := Find(o, key).value;
    var v := Next(Lookup(o, ch.key), ch.op, ch.json);
    assert Lookup(w, ch.key) == Lookup(o, ch.key);
    UpsertKeepsDistinct(o, ch.key, v);
    UpsertKeepsDistinct(w, ch.key, v);
    assert Upsert(o, ch.key, v)[at] == o[at] && Upsert(w, ch.key, v)[at] == w[at];
    FindOnly(Upsert(o, ch.key, v), at);
    FindOnly(Upsert(w, ch.key, v), at);
  }

  /** The list converts whole, to `js`. */
  ghost predicate ListConverts(items: seq<Elem>, js: seq<Value>) {
    Decode(Array(items), 0) == Some(Arr(js))
  }

  /** ... and then so does each prefix and each element. */
  lemma {:induction false} PiecesConvert(items: seq<Elem>, js: seq<Value>, k: nat)
    requires ListConverts(items, js) && k <= |items|
    ensures |js| == |items| && Decode(Array(items[..k]), 0) == Some(Arr(js[..k]))
    ensures k > 0 ==> Decode(items[k - 1], 0) == Some(js[k - 1])
  {
    PrefixConverts(items, k, 1);
    assert DecodeItems(items, 1) == Some(js);
    if k > 0 {
      PrefixConverts(items, k - 1, 1);
      ConvertsNearerTheTop(items[k - 1], 0);
    }
  }

  /** What the chunks ask for. */
  lemma {:induction false} ChunkChange(types: AttrTypes, e: nat, cl: nat, a: nat, items: seq<Elem>,
      js: seq<Value>, k: nat, m: nat)
    requires ListConverts(items, js) && k + m <= |items|
    ensures |js| == |items|
    ensures m == 0 ==> ChangeOf(types, Chunk(e, cl, a, items, k, m)) ==
                       Some(Change(PathKey(e, cl, a), Replace, Arr(js[..k])))
    ensures m > 0 ==> ChangeOf(types, Chunk(e, cl, a, items, k, m)) ==
                      match ApplyEpoch(types(cl, a), js[k + m - 1])
                      case Some(v) => Some(Change(PathKey(e, cl, a), Append, v))
                      case None => None
  {
    hide PathKey, ApplyEpoch, Decode, ListConverts;
    PiecesConvert(items, js, k + m);
    if m == 0 {
      ArraysPassEpochs(types(cl, a), js[..k]);
    }
  }

  lemma ArraysPassEpochs(ty: string, js: seq<Value>)
    ensures ApplyEpoch(ty, Arr(js)) == Some(Arr(js))
  {
  }

  lemma {:induction false} UnchunkedChange(types: AttrTypes, e: nat, cl: nat, a: nat, items: seq<Elem>,
      js: seq<Value>, k: nat)
    requires ListConverts(items, js) && k <= |items|
    ensures var r := Chunk(e, cl, a, items, k, 0);
            r.Data? && ChangeOf(types, r.(value := Array(items))) ==
            Some(Change(PathKey(e, cl, a), Replace, Arr(js)))
  {
    hide PathKey, ApplyEpoch, Decode;
    ArraysPassEpochs(types(cl, a), js);
  }

  /** One more report. */
  function After(types: AttrTypes, out: seq<Pair>, r: AttrReport): seq<Pair> {
    match ChangeOf(types, r)
    case Some(ch) => Apply(out, ch)
    case None => out
  }

  function Absorbed(types: AttrTypes, out: seq<Pair>, rs: seq<AttrReport>): seq<Pair> {
    ApplyAll(out, Changes(types, rs))
  }

  lemma {:induction false} AbsorbedSnoc(types: AttrTypes, out: seq<Pair>, rs: seq<AttrReport>, r: AttrReport)
    ensures Absorbed(types, out, rs + [r]) == After(types, Absorbed(types, out, rs), r)
  {
    hide ChangeOf, Apply;
    assert (rs + [r])[..|rs|] == rs;
    var chs := Changes(types, rs);
    if ChangeOf(types, r).Some? {
      assert (chs + [ChangeOf(types, r).value])[..|chs|] == chs;
    }
  }

  lemma {:induction false} AfterKeepsDistinct(types: AttrTypes, out: seq<Pair>, r: AttrReport)
    requires DistinctKeys(out)
    ensures DistinctKeys(After(types, out, r))
  {
    hide DistinctKeys, ChangeOf, Upsert, Next;
    var ch := ChangeOf(types, r);
    if ch.Some? {
      UpsertKeepsDistinct(out, ch.value.key, Next(Lookup(out, ch.value.key), ch.value.op, ch.value.json));
    }
  }

  lemma {:induction false} OtherLands(types: AttrTypes, o: seq<Pair>, w: seq<Pair>, r: AttrReport,
                   e: nat, cl: nat, a: nat, landed: seq<Value>, js: seq<Value>)
    requires DistinctKeys(o) && DistinctKeys(w) && !OnPath(r, e, cl, a)
    requires Chunked(o, w, PathKey(e, cl, a), landed, js)
    ensures Chunked(After(types, o, r), After(types, w, r), PathKey(e, cl, a), landed, js)
  {
    hide DistinctKeys, Chunked, PathKey, Apply;
    var ch := ChangeOf(types, r);
    if ch.Some? {
      if ch.value.key == PathKey(e, cl, a) {
        PathKeyInjective(r.path.endpoint.value, r.path.cluster.value, r.path.attr.value, e, cl, a);
      }
      OthersAgree(o, w, PathKey(e, cl, a), landed, js, ch.value);
    }
  }

  /** After `m` chunks the two accumulations are equal, or, once the list is open, differ
      in that list only. */
  lemma {:induction false} ChunksLand(types: AttrTypes, out: seq<Pair>, rs: seq<AttrReport>,
                                     e: nat, cl: nat, a: nat, items: seq<Elem>, js: seq<Value>, k: nat, m: nat)
    requires DistinctKeys(out) && ListConverts(items, js) && |js| == |items| && k <= |items| && k + m <= |items| + 1
    requires OfPath(rs, e, cl, a) == Chunks(e, cl, a, items, k, m)
    ensures var o, w := Absorbed(types, out, rs), Absorbed(types, out, Unchunk(rs, e, cl, a, items));
            && DistinctKeys(o) && DistinctKeys(w)
            && (m == 0 ==> o == w)
            && (m > 0 ==> Chunked(o, w, PathKey(e, cl, a), Landed(types(cl, a), js, k, m - 1), js))
  {
    hide DistinctKeys, Chunked, After, PathKey, ListConverts, Landed, Chunk, ApplyEpoch, Absorbed, OnPath;
    if rs == [] {
      assert Absorbed(types, out, rs) == out by { NothingAbsorbed(types, out); }
    } else {
      var front, r := rs[..|rs| - 1], rs[|rs| - 1];
      var before := Unchunk(front, e, cl, a, items);
      var o, w := Absorbed(types, out, front), Absorbed(types, out, before);
      assert rs == front + [r];
      AbsorbedSnoc(types, out, front, r);
      if !OnPath(r, e, cl, a) {
        ChunksLand(types, out, front, e, cl, a, items, js, k, m);
        AbsorbedSnoc(types, out, before, r);
        AfterKeepsDistinct(types, o, r);
        AfterKeepsDistinct(types, w, r);
        if m > 0 {
          OtherLands(types, o, w, r, e, cl, a, Landed(types(cl, a), js, k, m - 1), js);
        }
      } else {
        LastChunk(OfPath(front, e, cl, a), r, e, cl, a, items, k, m);
        ChunksLand(types, out, front, e, cl, a, items, js, k, m - 1);
        AfterKeepsDistinct(types, o, r);
        if m == 1 {
          var whole := r.(value := Array(items));
          AbsorbedSnoc(types, out, before, whole);
          AfterKeepsDistinct(types, w, whole);
          FirstChunkLands(types, o, e, cl, a, items, js, k);
        } else {
          NextChunkLands(types, o, w, e, cl, a, items, js, k, m - 1);
        }
      }
    }
  }

  lemma NothingAbsorbed(types: AttrTypes, out: seq<Pair>)
    ensures Absorbed(types, out, []) == out
  {
  }

  lemma {:induction false} LastChunk(front: seq<AttrReport>, r: AttrReport, e: nat, cl: nat, a: nat,
      items: seq<Elem>, k: nat, m: nat)
    requires k <= |items| && k + m <= |items| + 1 && front + [r] == Chunks(e, cl, a, items, k, m)
    ensures m > 0 && front == Chunks(e, cl, a, items, k, m - 1) && r == Chunk(e, cl, a, items, k, m - 1)
    ensures r.Data? && (r.path.listIndex.Absent? <==> m == 1)
  {
    hide Chunks;
    ChunksSnoc(e, cl, a, items, k, m);
    assert front == (front + [r])[..|front|] && r == (front + [r])[|front|];
    if m > 0 {
      var before := Chunks(e, cl, a, items, k, m - 1);
      assert before == (before + [Chunk(e, cl, a, items, k, m - 1)])[..|before|];
    }
  }

  lemma ChunksSnoc(e: nat, cl: nat, a: nat, items: seq<Elem>, k: nat, m: nat)
    requires k <= |items| && k + m <= |items| + 1
    ensures m == 0 ==> Chunks(e, cl, a, items, k, m) == []
    ensures m > 0 ==> Chunks(e, cl, a, items, k, m) ==
                      Chunks(e, cl, a, items, k, m - 1) + [Chunk(e, cl, a, items, k, m - 1)]
  {
  }

  lemma {:induction false} FirstChunkLands(types: AttrTypes, o: seq<Pair>, e: nat, cl: nat, a: nat,
                        items: seq<Elem>, js: seq<Value>, k: nat)
    requires DistinctKeys(o) && ListConverts(items, js) && |js| == |items| && k <= |items|
    ensures var r := Chunk(e, cl, a, items, k, 0);
            Chunked(After(types, o, r), After(types, o, r.(value := Array(items))), PathKey(e, cl, a),
                    Landed(types(cl, a), js, k, 0), js)
  {
    hide DistinctKeys, Chunked, PathKey, ListConverts, Chunk, Upsert, ChangeOf;
    ChunkChange(types, e, cl, a, items, js, k, 0);
    UnchunkedChange(types, e, cl, a, items, js, k);
    OpeningSplits(o, PathKey(e, cl, a), js[..k], js);
  }

  lemma {:induction false} NextChunkLands(types: AttrTypes, o: seq<Pair>, w: seq<Pair>, e: nat, cl: nat, a: nat,
                       items: seq<Elem>, js: seq<Value>, k: nat, m: nat)
    requires DistinctKeys(o) && ListConverts(items, js) && |js| == |items| && 0 < m && k + m <= |items|
    requires Chunked(o, w, PathKey(e, cl, a), Landed(types(cl, a), js, k, m - 1), js)
    ensures Chunked(After(types, o, Chunk(e, cl, a, items, k, m)), w, PathKey(e, cl, a),
                    Landed(types(cl, a), js, k, m), js)
  {
    hide DistinctKeys, Chunked, PathKey, ListConverts, Chunk, Apply, ChangeOf, ApplyEpoch;
    ChunkChange(types, e, cl, a, items, js, k, m);
    if ApplyEpoch(types(cl, a), js[k + m - 1]).Some? {
      AppendLands(o, w, PathKey(e, cl, a), Landed(types(cl, a), js, k, m - 1), js,
                  ApplyEpoch(types(cl, a), js[k + m - 1]).value);
    }
  }

  /** All of a list has landed as it is exactly when no appended element is an epoch. */
  lemma {:induction false} LandsWhole(ty: string, js: seq<Value>, k: nat, m: nat)
    requires k + m <= |js|
    ensures |Landed(ty, js, k, m)| <= k + m
    ensures Landed(ty, js, k, m) == js[..k + m] <==>
            forall i :: k <= i < k + m ==> EpochOffset(ty) == 0 || js[i].AsU64().None?
  {
    hide BaseType;
    if m > 0 {
      LandsWhole(ty, js, k, m - 1);
      assert js[..k + m] == js[..k + m - 1] + [js[k + m - 1]];
      var front := Landed(ty, js, k, m - 1);
      var v := ApplyEpoch(ty, js[k + m - 1]);
      if v.Some? && front + [v.value] == js[..k + m] {
        assert front == (front + [v.value])[..|front|];
      }
    }
  }

  /** Chunking is transparent. A list that converts whole, sent as an opening replace
      with any prefix and one append for each remaining element, in any messages and
      among reports for any other paths, accumulates to the same pairs in the same order
      as the list sent whole. This holds exactly when no appended element is an unsigned
      integer of an epoch type: those are shifted one by one, but not inside a list. */
  lemma {:induction false} ChunkingIsTransparent(types: AttrTypes, out: seq<Pair>, rs: seq<AttrReport>,
                              e: nat, cl: nat, a: nat, items: seq<Elem>, js: seq<Value>, k: nat)
    requires DistinctKeys(out) && Decode(Array(items), 0) == Some(Arr(js)) && k <= |items|
    requires OfPath(rs, e, cl, a) == Chunks(e, cl, a, items, k, |items| - k + 1)
    ensures |js| == |items|
    ensures ApplyAll(out, Changes(types, rs)) == ApplyAll(out, Changes(types, Unchunk(rs, e, cl, a, items))) <==>
            forall i :: k <= i < |js| ==> EpochOffset(types(cl, a)) == 0 || js[i].AsU64().None?
  {
    hide DistinctKeys, PathKey, OfPath, Chunks, Changes, Unchunk, ApplyAll, BaseType;
    assert DecodeItems(items, 1) == Some(js);
    var m := |items| - k;
    ChunksLand(types, out, rs, e, cl, a, items, js, k, m + 1);
    LandsWhole(types(cl, a), js, k, m);
    assert js[..k + m] == js;
    var o, w := Absorbed(types, out, rs), Absorbed(types, out, Unchunk(rs, e, cl, a, items));
    var at, landed := Find(o, PathKey(e, cl, a)).value, Landed(types(cl, a), js, k, m);
    if landed == js {
      forall i | 0 <= i < |o| ensures o[i] == w[i] {
        if o[i].0 == PathKey(e, cl, a) {
          OnlyOnePlace(o, PathKey(e, cl, a), i);
        }
      }
      assert o == w;
    }
  }

  lemma OnlyOnePlace(o: seq<Pair>, key: string, i: nat)
    requires DistinctKeys(o) && i < |o| && o[i].0 == key
    ensures Find(o, key) == Some(i)
  {
  }
}

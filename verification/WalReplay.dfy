/** The reader of a matter.js write-ahead log: a snapshot, then the log's commits. */
module WalReplay {
  import opened Wrappers
  import opened Json

  /** Context name to its fields. */
  type Data = map<string, map<string, Value>>

  datatype Op =
    | Upd(key: string, values: map<string, Value>)
    | DelFields(key: string, fields: seq<string>)
    | DelTree(key: string)

  /** One line of a segment: only white space, text that is no JSON, or a JSON value. */
  datatype Line = Blank | Unparseable | Parsed(value: Value)

  datatype CommitId = CommitId(segment: nat, offset: nat)

  predicate Above(a: CommitId, b: CommitId) {
    a.segment > b.segment || (a.segment == b.segment && a.offset > b.offset)
  }

  type Segment = seq<Line>

  // ------------------------------------------------------------------ reading ops

  function StringAt(fields: map<string, Value>, name: string): Option<string> {
    if name in fields && fields[name].Str? then Some(fields[name].s) else None
  }

  function Strings(items: seq<Value>): Option<seq<string>> {
    if items == [] then Some([])
    else
      var front :- Strings(items[..|items| - 1]);
      if items[|items| - 1].Str? then Some(front + [items[|items| - 1].s]) else None
  }

  /** The op a JSON value stands for; none when `apply_op` refuses it. */
  function ParseOp(v: Value): Option<Op> {
    if !v.Obj? then None
    else
      var kind :- StringAt(v.fields, "op");
      var key :- StringAt(v.fields, "key");
      if kind == "upd" then
        if "values" in v.fields && v.fields["values"].Obj? then Some(Upd(key, v.fields["values"].fields)) else None
      else if kind == "del" then
        if "values" !in v.fields then Some(DelTree(key))
        else if v.fields["values"].Arr? then
          var names :- Strings(v.fields["values"].items);
          Some(DelFields(key, names))
        else None
      else None
  }

  function OpValues(v: Value): Option<seq<Value>> {
    if v.Arr? then Some(v.items)
    else if v.Obj? && "ops" in v.fields && v.fields["ops"].Arr? then Some(v.fields["ops"].items)
    else None
  }

  function ParseOps(vs: seq<Value>): Option<seq<Op>> {
    if vs == [] then Some([])
    else
      var front :- ParseOps(vs[..|vs| - 1]);
      var last :- ParseOp(vs[|vs| - 1]);
      Some(front + [last])
  }

  /** The ops of a line; a blank line has none, a line that is no commit is an error. */
  function LineOps(line: Line): Option<seq<Op>> {
    match line
    case Blank => Some([])
    case Unparseable => None
    case Parsed(v) =>
      var vs :- OpValues(v);
      ParseOps(vs)
  }

  // --------------------------------------------------------------- what an op does

  /** `c` is `k` or lies under it; everything lies under the empty key. */
  predicate InTree(k: string, c: string) {
    k == "" || c == k || k + "." <= c
  }

  function FieldsOf(d: Data, c: string): map<string, Value> {
    if c in d then d[c] else map[]
  }

  function Apply(d: Data, op: Op): Data {
    match op
    case Upd(k, values) => d[k := FieldsOf(d, k) + values]
    case DelFields(k, fields) => if k in d then d[k := d[k] - set f | f in fields] else d
    case DelTree(k) => map c | c in d && !InTree(k, c) :: d[c]
  }

  function ApplyOps(d: Data, ops: seq<Op>): Data {
    if ops == [] then d else Apply(ApplyOps(d, ops[..|ops| - 1]), ops[|ops| - 1])
  }

  // ------------------------------------------------------------- names of contexts

  /** The components of a context's name, divided by its dots. */
  function Parts(name: string): (parts: seq<string>)
    ensures parts != []
  {
    if name == "" then [""]
    else
      var rest := Parts(name[1..]);
      if name[0] == '.' then [""] + rest else [[name[0]] + rest[0]] + rest[1..]
  }

  /** What lies under a key has the key's components before its own. */
  lemma {:induction false} UnderIsPrefix(key: string, c: string)
    ensures Parts(key) <= Parts(c) <==> c == key || key + "." <= c
  {
    if key == "" {
      assert Parts(key) <= Parts(c) <==> Parts(c)[0] == "";
    } else if c == "" {
      assert Parts(key)[0] == "" ==> |Parts(key)| > 1;
    } else {
      UnderIsPrefix(key[1..], c[1..]);
      assert key == [key[0]] + key[1..] && c == [c[0]] + c[1..];
      assert key + "." == [key[0]] + (key[1..] + ".");
      PrefixOf(key[0], key[1..] + ".", c[0], c[1..]);
      PartsPrefix(key, c);
    }
  }

  lemma {:induction false} PrefixOf(x: char, a: string, y: char, b: string)
    ensures [x] + a <= [y] + b <==> x == y && a <= b
  {
    if x == y && a <= b {
      assert b == a + b[|a|..];
      assert [y] + b == ([x] + a) + b[|a|..];
    }
    if [x] + a <= [y] + b {
      assert ([x] + a)[0] == ([y] + b)[0];
      assert a == ([x] + a)[1..] && b[..|a|] == ([y] + b)[1..][..|a|];
    }
  }

  lemma {:induction false} PartsPrefix(key: string, c: string)
    requires key != "" && c != ""
    ensures Parts(key) <= Parts(c) <==> key[0] == c[0] && Parts(key[1..]) <= Parts(c[1..])
  {
    var k, l := Parts(key[1..]), Parts(c[1..]);
    if key[0] == c[0] && k <= l {
      if key[0] == '.' {
        assert [""] + k <= [""] + l;
      } else {
        assert k[0] == l[0] && k[1..] <= l[1..];
      }
    }
    if Parts(key) <= Parts(c) {
      assert Parts(key)[0] == Parts(c)[0];
      if key[0] == '.' {
        assert k == Parts(key)[1..] && l == Parts(c)[1..];
      } else {
        assert Parts(key)[0][0] == key[0] && Parts(key)[0][1..] == k[0];
        assert Parts(c)[0][1..] == l[0];
        assert k == [k[0]] + Parts(key)[1..] && l == [l[0]] + Parts(c)[1..];
      }
    }
  }

  /** A subtree delete takes the contexts whose names begin with the key's components, and all
      of them under the empty key; the others keep their fields. */
  lemma {:induction false} SubtreeDelete(d: Data, key: string)
    ensures var after := Apply(d, DelTree(key));
            && (forall c :: c in after <==> c in d && key != "" && !(Parts(key) <= Parts(c)))
            && (forall c :: c in after ==> after[c] == d[c])
  {
    forall c ensures Parts(key) <= Parts(c) <==> c == key || key + "." <= c {
      UnderIsPrefix(key, c);
    }
  }

  /** A deletion of a key and all that lies under it: one that names no fields. */
  predicate IsSubtreeDelete(op: Value, key: string) {
    && op.Obj? && "values" !in op.fields
    && "op" in op.fields && op.fields["op"] == Str("del")
    && "key" in op.fields && op.fields["key"] == Str(key)
  }

  ghost predicate TakesSubtree(d: Data, after: Data, key: string) {
    forall c :: c in after <==> c in d && key != "" && !(Parts(key) <= Parts(c))
  }

  // ----------------------------------------------------------- the log as a whole

  datatype Commit = Commit(id: CommitId, line: Line)

  /** A segment of the log; no lines when its file cannot be read. */
  datatype Numbered = Numbered(number: nat, lines: Option<Segment>)

  function LinesOf(segment: Numbered): Segment {
    segment.lines.GetOr([])
  }

  /** Every file that is read can be: a segment below the snapshot's is not even opened. */
  predicate AllRead(log: seq<Numbered>, after: Option<CommitId>) {
    forall i :: 0 <= i < |log| ==>
      log[i].lines.Some? || (after.Some? && log[i].number < after.value.segment)
  }

  /** The segments come in ascending order of their numbers. */

  predicate AscendingNumbers(log: seq<Numbered>) {
    forall i, j :: 0 <= i < j < |log| ==> log[i].number < log[j].number
  }

  /** A segment's lines with their offsets; blank lines count. */
  function CommitsOf(number: nat, lines: Segment): (cs: seq<Commit>)
    ensures |cs| == |lines|
    ensures forall i :: 0 <= i < |cs| ==> cs[i] == Commit(CommitId(number, i), lines[i])
  {
    if lines == [] then []
    else CommitsOf(number, lines[..|lines| - 1]) + [Commit(CommitId(number, |lines| - 1), lines[|lines| - 1])]
  }

  function Commits(log: seq<Numbered>): seq<Commit> {
    if log == [] then []
    else Commits(log[..|log| - 1]) + CommitsOf(log[|log| - 1].number, LinesOf(log[|log| - 1]))
  }

  /** The state after a list of commits; none when one of them is an error. */
  function Replay(d: Data, commits: seq<Commit>): Option<Data> {
    if commits == [] then Some(d)
    else
      var before :- Replay(d, commits[..|commits| - 1]);
      var ops :- LineOps(commits[|commits| - 1].line);
      Some(ApplyOps(before, ops))
  }

  /** The commits not included in a snapshot taken at `after`. */
  function Later(commits: seq<Commit>, after: Option<CommitId>): seq<Commit> {
    if commits == [] then []
    else
      var front, c := Later(commits[..|commits| - 1], after), commits[|commits| - 1];
      if after.None? || Above(c.id, after.value) then front + [c] else front
  }

  /** The commits a snapshot taken at `upTo` includes. */
  function Included(commits: seq<Commit>, upTo: CommitId): seq<Commit> {
    if commits == [] then []
    else
      var front, c := Included(commits[..|commits| - 1], upTo), commits[|commits| - 1];
      if Above(c.id, upTo) then front else front + [c]
  }

  // ------------------------------------------------------- lists, step by step

  lemma {:induction false} StringsPrefix(items: seq<Value>, i: nat)
    requires i <= |items| && Strings(items[..i]).None?
    ensures Strings(items).None?
  {
    if i == |items| {
      assert items[..i] == items;
    } else {
      assert items[..|items| - 1][..i] == items[..i];
      StringsPrefix(items[..|items| - 1], i);
    }
  }

  lemma {:induction false} OpsPrefix(vs: seq<Value>, i: nat)
    requires i <= |vs| && ParseOps(vs[..i]).None?
    ensures ParseOps(vs).None?
  {
    hide ParseOp;
    if i == |vs| {
      assert vs[..i] == vs;
    } else {
      assert vs[..|vs| - 1][..i] == vs[..i];
      OpsPrefix(vs[..|vs| - 1], i);
    }
  }

  lemma {:induction false} ReplayBoth(d: Data, a: seq<Commit>, b: seq<Commit>)
    ensures Replay(d, a + b) == if Replay(d, a).None? then None else Replay(Replay(d, a).value, b)
  {
    hide LineOps, ApplyOps;
    if b == [] {
      assert a + b == a;
    } else {
      assert (a + b)[..|a + b| - 1] == a + b[..|b| - 1];
      ReplayBoth(d, a, b[..|b| - 1]);
    }
  }

  lemma {:induction false} LaterBoth(a: seq<Commit>, b: seq<Commit>, after: Option<CommitId>)
    ensures Later(a + b, after) == Later(a, after) + Later(b, after)
  {
    hide Above;
    if b == [] {
      assert a + b == a;
    } else {
      assert (a + b)[..|a + b| - 1] == a + b[..|b| - 1];
      LaterBoth(a, b[..|b| - 1], after);
    }
  }

  lemma NothingToReplay(d: Data, after: Option<CommitId>)
    ensures Replay(d, []) == Some(d) && Commits([]) == [] && Later([], after) == []
  {
  }

  lemma {:induction false} NextLine(d: Data, number: nat, lines: Segment, k: nat, after: Option<CommitId>)
    requires k < |lines|
    ensures var before := Replay(d, Later(CommitsOf(number, lines[..k]), after));
            Replay(d, Later(CommitsOf(number, lines[..k + 1]), after)) ==
              if before.None? || lines[k].Blank? ||
                 (after.Some? && !Above(CommitId(number, k), after.value)) then before
              else if LineOps(lines[k]).None? then None
              else Some(ApplyOps(before.value, LineOps(lines[k]).value))
  {
    hide Above;
    assert lines[..k + 1][..k] == lines[..k];
    var c := Commit(CommitId(number, k), lines[k]);
    var found := Later(CommitsOf(number, lines[..k]), after);
    assert (CommitsOf(number, lines[..k]) + [c])[..k] == CommitsOf(number, lines[..k]);
    assert (found + [c])[..|found|] == found;
  }

  lemma {:induction false} SegmentPrefix(d: Data, number: nat, lines: Segment, k: nat, after: Option<CommitId>)
    requires k <= |lines| && Replay(d, Later(CommitsOf(number, lines[..k]), after)).None?
    ensures Replay(d, Later(CommitsOf(number, lines), after)).None?
  {
    hide Replay, Later;
    var all := CommitsOf(number, lines);
    assert all[..k] == CommitsOf(number, lines[..k]);
    assert all == all[..k] + all[k..];
    LaterBoth(all[..k], all[k..], after);
    ReplayBoth(d, Later(all[..k], after), Later(all[k..], after));
  }

  lemma {:induction false} NextSegment(d: Data, log: seq<Numbered>, i: nat, after: Option<CommitId>)
    requires i < |log|
    ensures var before := Replay(d, Later(Commits(log[..i]), after));
            Replay(d, Later(Commits(log[..i + 1]), after)) ==
              if before.None? then None
              else Replay(before.value, Later(CommitsOf(log[i].number, LinesOf(log[i])), after))
  {
    hide Replay, Later, CommitsOf;
    assert log[..i + 1][..i] == log[..i];
    var these := CommitsOf(log[i].number, LinesOf(log[i]));
    LaterBoth(Commits(log[..i]), these, after);
    ReplayBoth(d, Later(Commits(log[..i]), after), Later(these, after));
  }

  lemma {:induction false} LogPrefix(d: Data, log: seq<Numbered>, k: nat, after: Option<CommitId>)
    requires k <= |log| && Replay(d, Later(Commits(log[..k]), after)).None?
    ensures Replay(d, Later(Commits(log), after)).None?
    decreases |log| - k
  {
    hide Replay, Later, CommitsOf, Commits;
    if k == |log| {
      assert log[..k] == log;
    } else {
      NextSegment(d, log, k, after);
      LogPrefix(d, log, k + 1, after);
    }
  }

  /** A whole segment below the snapshot's holds nothing later. */
  lemma {:induction false} SkippedSegment(number: nat, lines: Segment, after: CommitId)
    requires number < after.segment
    ensures Later(CommitsOf(number, lines), Some(after)) == []
  {
    if lines != [] {
      SkippedSegment(number, lines[..|lines| - 1], after);
    }
  }

  // ----------------------------------------------------------------- the reader

  class JsDb {
    var data: Data

    constructor (data: Data)
      ensures this.data == data
    {
      this.data := data;
    }

    /** `apply_op` */
    method ApplyOp(op: Value) returns (ok: bool)
      modifies this
      ensures ok == ParseOp(op).Some?
      ensures data == if ok then Apply(old(data), ParseOp(op).value) else old(data)
      ensures forall key :: IsSubtreeDelete(op, key) ==>
                ok && TakesSubtree(old(data), data, key)
    {
      hide Parts;
      forall key ensures IsSubtreeDelete(op, key) ==> TakesSubtree(data, Apply(data, DelTree(key)), key) {
        SubtreeDelete(data, key);
      }
      if !op.Obj? {
        return false;
      }
      var kind, key := StringAt(op.fields, "op"), StringAt(op.fields, "key");
      if kind.None? || key.None? {
        return false;
      }
      if kind.value == "upd" {
        if "values" !in op.fields || !op.fields["values"].Obj? {
          return false;
        }
        Update(key.value, op.fields["values"].fields);
        return true;
      }
      if kind.value == "del" {
        if "values" in op.fields {
          if !op.fields["values"].Arr? {
            return false;
          }
          ok := DeleteFields(key.value, op.fields["values"].items);
          return;
        }
        DeleteTree(key.value);
        return true;
      }
      return false;
    }

    method Update(key: string, values: map<string, Value>)
      modifies this
      ensures data == Apply(old(data), Upd(key, values))
    {
      ghost var before := FieldsOf(data, key);
      var context := FieldsOf(data, key);
      var names := values.Keys;
      while names != {}
        invariant names <= values.Keys
        invariant context.Keys == before.Keys + (values.Keys - names)
        invariant forall f :: f in context ==>
                    context[f] == if f in values && f !in names then values[f] else before[f]
      {
        var f :| f in names;
        context := context[f := values[f]];
        names := names - {f};
      }
      assert context == before + values;
      data := data[key := context];
    }

    /** Every name is read before any field is removed. */
    method DeleteFields(key: string, items: seq<Value>) returns (ok: bool)
      modifies this
      ensures ok == Strings(items).Some?
      ensures data == if ok then Apply(old(data), DelFields(key, Strings(items).value)) else old(data)
    {
      var names := [];
      for i := 0 to |items|
        invariant Strings(items[..i]) == Some(names)
        invariant data == old(data)
      {
        assert items[..i + 1][..i] == items[..i];
        if !items[i].Str? {
          StringsPrefix(items, i + 1);
          return false;
        }
        names := names + [items[i].s];
      }
      assert items[..|items|] == items;
      if key in data {
        RemoveFields(key, names);
      }
      return true;
    }

    method RemoveFields(key: string, names: seq<string>)
      requires key in data
      modifies this
      ensures data == Apply(old(data), DelFields(key, names))
    {
      for i := 0 to |names|
        invariant data.Keys == old(data).Keys
        invariant forall c :: c in data && c != key ==> data[c] == old(data)[c]
        invariant data[key] == old(data)[key] - set f | f in names[..i]
      {
        assert names[..i + 1] == names[..i] + [names[i]];
        data := data[key := data[key] - {names[i]}];
      }
      assert names[..|names|] == names;
    }

    method DeleteTree(key: string)
      modifies this
      ensures data == Apply(old(data), DelTree(key))
    {
      if key == "" {
        data := map[];
      } else {
        data := data - {key};
        data := map c | c in data && !(key + "." <= c) :: data[c];
      }
    }

    /** `apply_line`, for a line that is not blank. When it fails the caller gives the
        whole store up. */
    method ApplyLine(line: Line) returns (ok: bool)
      requires !line.Blank?
      modifies this
      ensures ok == LineOps(line).Some?
      ensures ok ==> data == ApplyOps(old(data), LineOps(line).value)
    {
      hide ParseOp, Apply;
      if line.Unparseable? {
        return false;
      }
      var values := OpValues(line.value);
      if values.None? {
        return false;
      }
      var vs := values.value;
      ghost var done := [];
      for i := 0 to |vs|
        invariant ParseOps(vs[..i]) == Some(done) && data == ApplyOps(old(data), done)
      {
        assert vs[..i + 1][..i] == vs[..i];
        var fine := ApplyOp(vs[i]);
        if !fine {
          OpsPrefix(vs, i + 1);
          return false;
        }
        done := done + [ParseOp(vs[i]).value];
      }
      assert vs[..|vs|] == vs;
      return true;
    }

    /** `replay_segment` */
    method ReplaySegment(number: nat, lines: Segment, after: Option<CommitId>) returns (ok: bool)
      modifies this
      ensures ok == Replay(old(data), Later(CommitsOf(number, lines), after)).Some?
      ensures ok ==> data == Replay(old(data), Later(CommitsOf(number, lines), after)).value
    {
      hide LineOps, ApplyOps;
      for offset := 0 to |lines|
        invariant Replay(old(data), Later(CommitsOf(number, lines[..offset]), after)) == Some(data)
      {
        NextLine(old(data), number, lines, offset, after);
        var id := CommitId(number, offset);
        if lines[offset].Blank? || (after.Some? && !Above(id, after.value)) {
          continue;
        }
        var fine := ApplyLine(lines[offset]);
        if !fine {
          SegmentPrefix(old(data), number, lines, offset + 1, after);
          return false;
        }
      }
      assert lines[..|lines|] == lines;
      return true;
    }

    /** `replay_wal`, over the listed segments in ascending order. */
    method ReplayWal(log: seq<Numbered>, after: Option<CommitId>) returns (ok: bool)
      modifies this
      ensures ok == (AllRead(log, after) && Replay(old(data), Later(Commits(log), after)).Some?)
      ensures ok ==> data == Replay(old(data), Later(Commits(log), after)).value
    {
      hide CommitsOf, Replay, Later;
      assert Replay(old(data), Later(Commits(log[..0]), after)) == Some(data) by { NothingToReplay(data, after); }
      for i := 0 to |log|
        invariant AllRead(log[..i], after)
        invariant Replay(old(data), Later(Commits(log[..i]), after)) == Some(data)
      {
        NextSegment(old(data), log, i, after);
        if after.Some? && log[i].number < after.value.segment {
          SkippedSegment(log[i].number, LinesOf(log[i]), after.value);
          NothingToReplay(data, after);
          continue;
        }
        if log[i].lines.None? {
          return false;
        }
        var fine := ReplaySegment(log[i].number, log[i].lines.value, after);
        if !fine {
          LogPrefix(old(data), log, i + 1, after);
          return false;
        }
      }
      assert log[..|log|] == log;
      return true;
    }
  }
}

/** What a line of a write-ahead log may say, in terms of its JSON, and which lines count. */
module WalOps {
  import opened Wrappers
  import opened Json
  import opened WalReplay
  import opened WalLaws

  // ------------------------------------------------------------------ which ops are read

  predicate HasText(fields: map<string, Value>, name: string) {
    name in fields && fields[name].Str?
  }

  predicate AllText(items: seq<Value>) {
    forall i :: 0 <= i < |items| ==> items[i].Str?
  }

  /** An update with an object of values, or a deletion with no values or a list of names. */
  predicate WellSpelled(op: Value) {
    && op.Obj? && HasText(op.fields, "op") && HasText(op.fields, "key")
    && (op.fields["op"].s == "upd" || op.fields["op"].s == "del")
    && (op.fields["op"].s == "upd" ==> "values" in op.fields && op.fields["values"].Obj?)
    && (op.fields["op"].s == "del" && "values" in op.fields ==>
          op.fields["values"].Arr? && AllText(op.fields["values"].items))
  }

  lemma {:induction false} NamesAreText(items: seq<Value>)
    ensures Strings(items).Some? <==> AllText(items)
    ensures AllText(items) ==>
              var names := Strings(items).value;
              |names| == |items| && forall i :: 0 <= i < |items| ==> names[i] == items[i].s
  {
    if items != [] {
      NamesAreText(items[..|items| - 1]);
      assert forall i :: 0 <= i < |items| - 1 ==> items[..|items| - 1][i] == items[i];
    }
  }

  /** Exactly those ops are read. */
  lemma {:induction false} OpsThatAreRead(op: Value)
    ensures ParseOp(op).Some? <==> WellSpelled(op)
  {
    hide Strings;
    if op.Obj? && "values" in op.fields && op.fields["values"].Arr? {
      NamesAreText(op.fields["values"].items);
    }
  }

  // ---------------------------------------------------------------- what they do

  /** An update writes its values over the fields of its context, and of no other. */
  lemma {:induction false} UpdateWrites(d: Data, op: Value, c: string, f: string)
    requires WellSpelled(op) && op.fields["op"].s == "upd"
    ensures ParseOp(op).Some?
    ensures var key, values := op.fields["key"].s, op.fields["values"].fields;
            var after := Apply(d, ParseOp(op).value);
            && (c in after <==> c in d || c == key)
            && FieldAt(after, c, f) == if c == key && f in values then Some(values[f]) else FieldAt(d, c, f)
  {
    hide Strings;
  }

  /** A deletion with names removes the fields so named from its context, if there is one. */
  lemma {:induction false} NamedDelete(d: Data, op: Value, c: string, f: string)
    requires WellSpelled(op) && op.fields["op"].s == "del" && "values" in op.fields
    ensures ParseOp(op).Some?
    ensures var key, names := op.fields["key"].s, op.fields["values"].items;
            var after := Apply(d, ParseOp(op).value);
            && (c in after <==> c in d)
            && FieldAt(after, c, f) == if c == key && Str(f) in names then None else FieldAt(d, c, f)
  {
    hide Strings;
    var items := op.fields["values"].items;
    NamesAreText(items);
    var names := Strings(items).value;
    assert f in names <==> Str(f) in items by {
      if Str(f) in items {
        var i :| 0 <= i < |items| && items[i] == Str(f);
        assert names[i] == f;
      }
      if f in names {
        var i :| 0 <= i < |names| && names[i] == f;
        assert items[i] == Str(f);
      }
    }
  }

  /** A peer is deleted without the one whose number begins with its own. */
  lemma {:induction false} PeerTenStays(one: map<string, Value>, ten: map<string, Value>)
    ensures var op := Obj(map["op" := Str("del"), "key" := Str("nodes.peer1")]);
            var d := map["nodes.peer1" := one, "nodes.peer10" := ten];
            ParseOp(op).Some? && Apply(d, ParseOp(op).value) == map["nodes.peer10" := ten]
  {
    var op := Obj(map["op" := Str("del"), "key" := Str("nodes.peer1")]);
    assert op.fields["op"] == Str("del") && op.fields["key"] == Str("nodes.peer1");
    assert ParseOp(op) == Some(DelTree("nodes.peer1"));
    assert "nodes.peer10"[|"nodes.peer1"|] != '.';
    assert ("nodes.peer1" + ".")[|"nodes.peer1"|] == '.';
  }

  // ---------------------------------------------------------------- lines and commits

  /** A commit is a list of ops, or an object that has one under "ops"; nothing else is. */
  lemma {:induction false} CommitForms(v: Value)
    ensures LineOps(Parsed(v)).Some? ==>
              v.Arr? || (v.Obj? && "ops" in v.fields && v.fields["ops"].Arr?)
    ensures v.Arr? ==> LineOps(Parsed(v)) == ParseOps(v.items)
    ensures v.Obj? && "ops" in v.fields && v.fields["ops"].Arr? ==>
              LineOps(Parsed(v)) == LineOps(Parsed(v.fields["ops"]))
  {
    hide ParseOps;
  }

  /** After a snapshot there remain the commits of a later segment, and those of its own with
      a higher offset. */
  lemma {:induction false} LaterExactly(commits: seq<Commit>, at: CommitId, c: Commit)
    ensures c in Later(commits, Some(at)) <==>
            && c in commits
            && (at.segment < c.id.segment || (at.segment == c.id.segment && at.offset < c.id.offset))
  {
    if commits != [] {
      var front, last := commits[..|commits| - 1], commits[|commits| - 1];
      LaterExactly(front, at, c);
      assert c in commits <==> c in front || c == last by {
        assert commits == front + [last];
      }
    }
  }
}

/** What replaying a write-ahead log amounts to. */
module WalLaws {
  import opened Wrappers
  import opened Json
  import opened WalReplay

  // --------------------------------------------------------------- the last writer

  function FieldAt(d: Data, c: string, f: string): Option<Value> {
    if c in d && f in d[c] then Some(d[c][f]) else None
  }

  /** The context is the key's or lies under it, by the components of their names; under the
      empty key lies everything. */
  predicate Under(k: string, c: string) {
    k == "" || Parts(k) <= Parts(c)
  }

  /** What an op writes to a field: nothing, or a value, or its absence. */
  function WritesField(op: Op, c: string, f: string): Option<Option<Value>> {
    match op
    case Upd(k, values) => if k == c && f in values then Some(Some(values[f])) else None
    case DelFields(k, fields) => if k == c && f in fields then Some(None) else None
    case DelTree(k) => if Under(k, c) then Some(None) else None
  }

  /** What an op writes to a context's existence. */
  function WritesContext(op: Op, c: string): Option<bool> {
    match op
    case Upd(k, _) => if k == c then Some(true) else None
    case DelFields(_, _) => None
    case DelTree(k) => if Under(k, c) then Some(false) else None
  }

  function LastToField(ops: seq<Op>, c: string, f: string): Option<Option<Value>> {
    if ops == [] then None
    else if WritesField(ops[|ops| - 1], c, f).Some? then WritesField(ops[|ops| - 1], c, f)
    else LastToField(ops[..|ops| - 1], c, f)
  }

  function LastToContext(ops: seq<Op>, c: string): Option<bool> {
    if ops == [] then None
    else if WritesContext(ops[|ops| - 1], c).Some? then WritesContext(ops[|ops| - 1], c)
    else LastToContext(ops[..|ops| - 1], c)
  }

  lemma {:induction false} OneWriter(d: Data, op: Op, c: string, f: string)
    ensures FieldAt(Apply(d, op), c, f) == WritesField(op, c, f).GetOr(FieldAt(d, c, f))
    ensures c in Apply(d, op) <==> WritesContext(op, c).GetOr(c in d)
  {
    hide InTree, Parts;
    if op.DelTree? {
      SubtreeDelete(d, op.key);
    }
  }

  /** The final value of every field, and whether a context exists, is what the last op
      that writes it wrote, or what was there before when none does. */
  lemma {:induction false} LastWriterWins(d: Data, ops: seq<Op>, c: string, f: string)
    ensures FieldAt(ApplyOps(d, ops), c, f) == LastToField(ops, c, f).GetOr(FieldAt(d, c, f))
    ensures c in ApplyOps(d, ops) <==> LastToContext(ops, c).GetOr(c in d)
  {
    hide Apply, WritesField, WritesContext;
    if ops != [] {
      var front := ops[..|ops| - 1];
      LastWriterWins(d, front, c, f);
      OneWriter(ApplyOps(d, front), ops[|ops| - 1], c, f);
    }
  }

  ghost predicate SameData(a: Data, b: Data) {
    forall c, f :: (c in a <==> c in b) && FieldAt(a, c, f) == FieldAt(b, c, f)
  }

  lemma {:induction false} SameDataIsEqual(a: Data, b: Data)
    requires SameData(a, b)
    ensures a == b
  {
    assert forall c :: c in a <==> FieldAt(a, c, "") == FieldAt(b, c, "") && c in b;
    forall c | c in a ensures a[c] == b[c] {
      assert forall f :: f in a[c] <==> f in b[c] by {
        forall f ensures f in a[c] <==> f in b[c] {
          assert FieldAt(a, c, f) == FieldAt(b, c, f);
        }
      }
      forall f | f in a[c] ensures a[c][f] == b[c][f] {
        assert FieldAt(a, c, f) == FieldAt(b, c, f);
      }
    }
  }

  /** Applying a list of ops twice is applying it once. */
  lemma {:induction false} OpsTwice(d: Data, ops: seq<Op>)
    ensures ApplyOps(ApplyOps(d, ops), ops) == ApplyOps(d, ops)
  {
    hide ApplyOps, LastToField, LastToContext, FieldAt;
    var once := ApplyOps(d, ops);
    forall c, f ensures (c in ApplyOps(once, ops) <==> c in once) &&
                   FieldAt(ApplyOps(once, ops), c, f) == FieldAt(once, c, f) {
      LastWriterWins(d, ops, c, f);
      LastWriterWins(once, ops, c, f);
    }
    SameDataIsEqual(ApplyOps(once, ops), once);
  }

  // --------------------------------------------------------------- whole logs

  /** The ops of a list of commits, when all of them can be read. */
  function AllOps(commits: seq<Commit>): Option<seq<Op>> {
    if commits == [] then Some([])
    else
      var front :- AllOps(commits[..|commits| - 1]);
      var last :- LineOps(commits[|commits| - 1].line);
      Some(front + last)
  }

  lemma {:induction false} OpsBoth(d: Data, a: seq<Op>, b: seq<Op>)
    ensures ApplyOps(d, a + b) == ApplyOps(ApplyOps(d, a), b)
  {
    if b == [] {
      assert a + b == a;
    } else {
      assert (a + b)[..|a + b| - 1] == a + b[..|b| - 1];
      OpsBoth(d, a, b[..|b| - 1]);
    }
  }

  lemma {:induction false} ReplayIsOps(d: Data, commits: seq<Commit>)
    ensures Replay(d, commits) == if AllOps(commits).None? then None else Some(ApplyOps(d, AllOps(commits).value))
  {
    hide LineOps, ApplyOps;
    if commits == [] {
      NoOps(d);
    } else {
      var front := commits[..|commits| - 1];
      ReplayIsOps(d, front);
      if AllOps(commits).Some? {
        OpsBoth(d, AllOps(front).value, LineOps(commits[|commits| - 1].line).value);
      }
    }
  }

  lemma NoOps(d: Data)
    ensures ApplyOps(d, []) == d
  {
  }

  /** Replaying any log twice gives what replaying it once gives. */
  lemma {:induction false} ReplayTwice(d: Data, commits: seq<Commit>)
    requires Replay(d, commits).Some?
    ensures Replay(Replay(d, commits).value, commits) == Replay(d, commits)
  {
    ReplayIsOps(d, commits);
    ReplayIsOps(Replay(d, commits).value, commits);
    OpsTwice(d, AllOps(commits).value);
  }

  // ------------------------------------------------------------ snapshots

  ghost predicate Ascending(commits: seq<Commit>) {
    forall i, j :: 0 <= i < j < |commits| ==> Above(commits[j].id, commits[i].id)
  }

  ghost predicate Listed(log: seq<Numbered>, number: nat) {
    exists k :: 0 <= k < |log| && log[k].number == number
  }

  lemma {:induction false} CommitNumbers(log: seq<Numbered>, i: nat)
    requires i < |Commits(log)|
    ensures Listed(log, Commits(log)[i].id.segment)
  {
    if log != [] {
      var front, last := log[..|log| - 1], log[|log| - 1];
      var before := Commits(front);
      if i < |before| {
        CommitNumbers(front, i);
        var k :| 0 <= k < |front| && front[k].number == before[i].id.segment;
        assert log[k].number == front[k].number;
      } else {
        assert Commits(log)[i] == CommitsOf(last.number, LinesOf(last))[i - |before|];
        assert log[|log| - 1].number == last.number;
      }
    }
  }

  /** The commits of a log come in strictly ascending order of segment, then offset. */
  lemma {:induction false} CommitsAscend(log: seq<Numbered>)
    requires AscendingNumbers(log)
    ensures Ascending(Commits(log))
  {
    if log != [] {
      var front, last := log[..|log| - 1], log[|log| - 1];
      CommitsAscend(front);
      forall i, j | 0 <= i < j < |Commits(log)| ensures Above(Commits(log)[j].id, Commits(log)[i].id) {
        var n := |Commits(front)|;
        if i < n <= j {
          CommitNumbers(front, i);
          var k :| 0 <= k < |front| && Commits(front)[i].id.segment == front[k].number;
          assert log[k].number < log[|log| - 1].number;
        }
      }
    }
  }

  /** The commits a snapshot includes come first, those it does not come after. */
  lemma {:induction false} SnapshotSplits(commits: seq<Commit>, at: CommitId)
    requires Ascending(commits)
    ensures Included(commits, at) + Later(commits, Some(at)) == commits
  {
    if commits != [] {
      var front, last := commits[..|commits| - 1], commits[|commits| - 1];
      SnapshotSplits(front, at);
      if !Above(last.id, at) {
        NoneLater(front, last.id, at);
      }
    }
  }

  lemma {:induction false} NoneLater(commits: seq<Commit>, top: CommitId, at: CommitId)
    requires !Above(top, at) && forall i :: 0 <= i < |commits| ==> Above(top, commits[i].id)
    ensures Later(commits, Some(at)) == []
  {
    if commits != [] {
      NoneLater(commits[..|commits| - 1], top, at);
    }
  }

  lemma {:induction false} LaterThanNothing(commits: seq<Commit>)
    ensures Later(commits, None) == commits
  {
    if commits != [] {
      LaterThanNothing(commits[..|commits| - 1]);
    }
  }

  lemma {:induction false} LaterAscends(commits: seq<Commit>, at: CommitId)
    requires Ascending(commits)
    ensures Ascending(Later(commits, Some(at)))
    ensures forall i :: 0 <= i < |Later(commits, Some(at))| ==> Later(commits, Some(at))[i] in commits
  {
    if commits != [] {
      var front := commits[..|commits| - 1];
      assert forall c :: c in front ==> c in commits;
      LaterAscends(front, at);
    }
  }

  /** Applying the commits lexicographically above a snapshot's id to the snapshot gives
      what the whole log gives from nothing, errors included, whenever the snapshot is the
      replay of the commits up to that id. */
  lemma {:induction false} SnapshotIndependence(log: seq<Numbered>, at: CommitId, snapshot: Data)
    requires AscendingNumbers(log) && Replay(map[], Included(Commits(log), at)) == Some(snapshot)
    ensures Replay(snapshot, Later(Commits(log), Some(at))) == Replay(map[], Later(Commits(log), None))
  {
    var commits := Commits(log);
    CommitsAscend(log);
    SnapshotSplits(commits, at);
    LaterThanNothing(commits);
    ReplayBoth(map[], Included(commits, at), Later(commits, Some(at)));
  }

  lemma {:induction false} LaterOfLater(commits: seq<Commit>, early: CommitId, at: CommitId)
    requires !Above(early, at)
    ensures Later(Later(commits, Some(early)), Some(at)) == Later(commits, Some(at))
    ensures Included(Later(commits, Some(early)), at) == Later(Included(commits, at), Some(early))
  {
    if commits != [] {
      LaterOfLater(commits[..|commits| - 1], early, at);
      var c, l, i := commits[|commits| - 1], Later(commits[..|commits| - 1], Some(early)),
        Included(commits[..|commits| - 1], at);
      assert (l + [c])[..|l|] == l && (i + [c])[..|i|] == i;
    }
  }

  /** A snapshot that holds more than its id says is no harm: restarting from any earlier
      commit replays some ops again and ends in the same state. */
  lemma {:induction false} RestartFromEarlier(log: seq<Numbered>, early: CommitId, at: CommitId, snapshot: Data)
    requires AscendingNumbers(log) && Replay(map[], Included(Commits(log), at)) == Some(snapshot)
    requires !Above(early, at)
    ensures Replay(snapshot, Later(Commits(log), Some(early))) == Replay(map[], Later(Commits(log), None))
  {
    hide Replay, Later, Included, Commits, Ascending;
    var commits := Commits(log);
    CommitsAscend(log);
    var later, included := Later(commits, Some(early)), Included(commits, at);
    LaterAscends(commits, early);
    SnapshotSplits(later, at);
    LaterOfLater(commits, early, at);
    var between := Later(included, Some(early));
    ReplayBoth(snapshot, between, Later(commits, Some(at)));
    IncludedAscends(commits, at);
    SnapshotSplits(included, early);
    ReplayBoth(map[], Included(included, early), between);
    ReplayTwice(Replay(map[], Included(included, early)).value, between);
    SnapshotIndependence(log, at, snapshot);
  }

  lemma {:induction false} IncludedAscends(commits: seq<Commit>, at: CommitId)
    requires Ascending(commits)
    ensures Ascending(Included(commits, at))
  {
    SnapshotSplits(commits, at);
    var all := Included(commits, at) + Later(commits, Some(at));
    forall i, j | 0 <= i < j < |Included(commits, at)|
      ensures Above(Included(commits, at)[j].id, Included(commits, at)[i].id)
    {
      assert all[i] == Included(commits, at)[i] && all[j] == Included(commits, at)[j];
    }
  }
}

/** Writing documents through temporary files: every interleaving of the steps of any
    number of writers, failures and restarts included, in one directory. */
module AtomicWrite {
  import opened Wrappers
  import opened Decimal

  /** A call of `write_json_atomic`: where it writes, what, and how far it got. */
  datatype Writer = Writer(name: string, doc: string, isOpen: bool, written: nat)

  /** The directory, the writers of this process by their sequence numbers, and, as
      history, what was last put in place under each name. */
  datatype Disk = Disk(
    files: map<string, string>,
    pid: nat,
    nextSeq: nat,
    writers: map<nat, Writer>,
    published: map<string, string>)

  datatype Step =
    | Begin(name: string, doc: string)
    | Open(seqNo: nat)
    | Write(seqNo: nat, count: nat)
    | Rename(seqNo: nat)
    | GiveUp(seqNo: nat)
    | Delete(name: string)
    | Restart(pid: nat)

  /** The names written to never begin with a dot; temporary names always do. */
  predicate IsTarget(name: string) {
    name != "" && name[0] != '.'
  }

  function TmpName(name: string, pid: nat, seqNo: nat): string {
    "." + name + ".tmp-" + Show(pid) + "-" + Show(seqNo)
  }

  function TmpOf(d: Disk, q: nat): string
    requires q in d.writers
  {
    TmpName(d.writers[q].name, d.pid, q)
  }

  /** Writing at a position of a file, whatever the file holds by then. */
  function WriteAt(content: string, at: nat, chunk: string): string {
    var base := if |content| < at then content + seq(at - |content|, _ => '\0') else content;
    base[..at] + chunk + if at + |chunk| < |base| then base[at + |chunk|..] else ""
  }

  predicate Enabled(d: Disk, step: Step) {
    match step
    case Begin(name, _) => IsTarget(name)
    case Open(q) => q in d.writers && !d.writers[q].isOpen
    case Write(q, count) => q in d.writers && d.writers[q].isOpen && d.writers[q].written + count <= |d.writers[q].doc|
    case Rename(q) => q in d.writers && d.writers[q].isOpen && d.writers[q].written == |d.writers[q].doc|
            && TmpOf(d, q) in d.files
    case GiveUp(q) => q in d.writers
    case Delete(name) => IsTarget(name)
    case Restart(_) => true
  }

  function Next(d: Disk, step: Step): Disk
    requires Enabled(d, step)
  {
    match step
    case Begin(name, doc) =>
      d.(writers := d.writers[d.nextSeq := Writer(name, doc, false, 0)], nextSeq := d.nextSeq + 1)
    case Open(q) => d.(files := d.files[TmpOf(d, q) := ""], writers := d.writers[q := d.writers[q].(isOpen := true)])
    case Write(q, count) =>
      var w, tmp := d.writers[q], TmpOf(d, q);
      var chunk := w.doc[w.written..w.written + count];
      d.(files := if tmp in d.files then d.files[tmp := WriteAt(d.files[tmp], w.written, chunk)] else d.files,
         writers := d.writers[q := w.(written := w.written + count)])
    case Rename(q) =>
      var w, tmp := d.writers[q], TmpOf(d, q);
      d.(files := (d.files - {tmp})[w.name := d.files[tmp]],
         writers := d.writers - {q},
         published := d.published[w.name := w.doc])
    case GiveUp(q) => d.(files := d.files - {TmpOf(d, q)}, writers := d.writers - {q})
    case Delete(name) => d.(files := d.files - {name}, published := d.published - {name})
    case Restart(pid) => d.(writers := map[], nextSeq := 0, pid := pid)
  }

  // ------------------------------------------------------------- temporary names

  lemma {:induction false} TmpParts(name: string, pid: nat, q: nat)
    ensures var s, n := TmpName(name, pid, q), |TmpName(name, pid, q)| - |Show(q)|;
            && 0 < n < |s| && s[n..] == Show(q) && s[n - 1] == '-' && AllDigits(s[n..])
            && s[0] == '.'
  {
    ShowIsDigits(q);
    var head := "." + name + ".tmp-" + Show(pid) + "-";
    assert TmpName(name, pid, q) == head + Show(q);
  }

  /** Text that ends in a dash and a number has one number and one text before it. */
  lemma {:induction false} LastNumber(a: string, m: nat, b: string, n: nat)
    ensures a + "-" + Show(m) == b + "-" + Show(n) <==> a == b && m == n
  {
    ShowIsDigits(m);
    ShowIsDigits(n);
    var s := a + "-" + Show(m);
    if s == b + "-" + Show(n) {
      assert s[|a|] == '-' && s[|a| + 1..] == Show(m);
      assert s[|b|] == '-' && s[|b| + 1..] == Show(n);
      SameTail(s, |a| + 1, |b| + 1);
      ShowInjective(m, n);
      assert a == s[..|a|] && b == s[..|b|];
    }
  }

  /** Temporary names are the same only for one target, one process and one writer of it: no
      two writers share one, whatever they write to, before a restart or after. */
  lemma {:induction false} TmpNamesDiffer(a: string, pid: nat, p: nat, b: string, other: nat, q: nat)
    ensures TmpName(a, pid, p) == TmpName(b, other, q) <==> a == b && pid == other && p == q
    ensures TmpName("config.json", 7, 12) == ".config.json.tmp-7-12"
  {
    var x, y := "." + a + ".tmp", "." + b + ".tmp";
    assert "." + a + ".tmp-" == x + "-" && "." + b + ".tmp-" == y + "-";
    LastNumber(x + "-" + Show(pid), p, y + "-" + Show(other), q);
    LastNumber(x, pid, y, other);
    assert x == y ==> a == x[1..|x| - 4] && b == y[1..|y| - 4];
    assert Show(7) == "7" && Show(12) == "12";
  }

  lemma SameTail(s: string, m: nat, n: nat)
    requires 0 < m <= |s| && 0 < n <= |s|
    requires s[m - 1] == '-' && AllDigits(s[m..]) && s[n - 1] == '-' && AllDigits(s[n..])
    ensures m == n
  {
  }

  lemma {:induction false} TmpIsNoTarget(name: string, pid: nat, q: nat)
    ensures !IsTarget(TmpName(name, pid, q))
  {
    TmpParts(name, pid, q);
  }

  // ------------------------------------------------------------ every interleaving

  predicate WriterFine(d: Disk, q: nat)
    requires q in d.writers
  {
    var w := d.writers[q];
    && q < d.nextSeq && IsTarget(w.name) && w.written <= |w.doc|
    && (w.isOpen ==> TmpOf(d, q) in d.files && d.files[TmpOf(d, q)] == w.doc[..w.written])
    && (!w.isOpen ==> w.written == 0)
  }

  ghost predicate WritersFine(d: Disk) {
    forall q :: q in d.writers ==> WriterFine(d, q)
  }

  /** Under every name written to lies exactly the document last put in place there. */
  ghost predicate OnlyPublished(d: Disk) {
    forall name :: IsTarget(name) ==>
      && (name in d.files <==> name in d.published)
      && (name in d.files ==> d.files[name] == d.published[name])
  }

  lemma AppendAt(doc: string, written: nat, count: nat)
    requires written + count <= |doc|
    ensures WriteAt(doc[..written], written, doc[written..written + count]) == doc[..written + count]
  {
  }

  lemma {:induction false} OtherWriterKept(d: Disk, step: Step, q: nat)
    requires Enabled(d, step) && q in d.writers && WriterFine(d, q) && !step.Restart?
    requires (step.Open? || step.Write? || step.Rename? || step.GiveUp?) ==>
            step.seqNo != q && WriterFine(d, step.seqNo)
    requires q < d.nextSeq
    ensures q in Next(d, step).writers && WriterFine(Next(d, step), q)
  {
    hide TmpName, WriteAt;
    TmpIsNoTarget(d.writers[q].name, d.pid, q);
    if step.Open? || step.Write? || step.Rename? || step.GiveUp? {
      TmpNamesDiffer(d.writers[q].name, d.pid, q, d.writers[step.seqNo].name, d.pid, step.seqNo);
    }
  }

  lemma {:induction false} OwnWriterKept(d: Disk, step: Step)
    requires Enabled(d, step) && (step.Open? || step.Write?) && WriterFine(d, step.seqNo)
    ensures WriterFine(Next(d, step), step.seqNo)
  {
    hide TmpName, WriteAt;
    if step.Write? {
      AppendAt(d.writers[step.seqNo].doc, d.writers[step.seqNo].written, step.count);
    }
  }

  lemma {:induction false} WritersKept(d: Disk, step: Step)
    requires WritersFine(d) && Enabled(d, step)
    ensures WritersFine(Next(d, step))
  {
    hide WriterFine, TmpName, WriteAt;
    var after := Next(d, step);
    forall q | q in after.writers ensures WriterFine(after, q) {
      if step.Begin? && q == d.nextSeq {
        NewWriterFine(d, step);
      } else if (step.Open? || step.Write?) && q == step.seqNo {
        OwnWriterKept(d, step);
      } else {
        BelowNext(d, q);
        OtherWriterKept(d, step, q);
      }
    }
  }

  lemma BelowNext(d: Disk, q: nat)
    requires q in d.writers && WriterFine(d, q)
    ensures q < d.nextSeq
  {
  }

  lemma NewWriterFine(d: Disk, step: Step)
    requires Enabled(d, step) && step.Begin?
    ensures WriterFine(Next(d, step), d.nextSeq)
  {
  }

  lemma {:induction false} PublishedKept(d: Disk, step: Step)
    requires WritersFine(d) && OnlyPublished(d) && Enabled(d, step)
    ensures OnlyPublished(Next(d, step))
  {
    hide TmpName, WriteAt;
    if step.Open? || step.Write? || step.Rename? || step.GiveUp? {
      var w := d.writers[step.seqNo];
      assert WriterFine(d, step.seqNo);
      TmpIsNoTarget(w.name, d.pid, step.seqNo);
      assert w.doc[..|w.doc|] == w.doc;
    }
  }

  /** The state after `steps`, if each was enabled in its turn. */
  function After(start: Disk, steps: seq<Step>): Option<Disk> {
    if steps == [] then Some(start)
    else
      var d :- After(start, steps[..|steps| - 1]);
      if Enabled(d, steps[|steps| - 1]) then Some(Next(d, steps[|steps| - 1])) else None
  }

  /** A process starting on what earlier ones left, temporary files and all. */
  predicate Fresh(start: Disk) {
    && start.writers == map[]
    && start.published == map name | name in start.files && IsTarget(name) :: start.files[name]
  }

  /** Whatever the interleaving, and wherever it stops, each file is one complete document,
      the one whose writer last renamed into place: never a part of one or a mix of two. */
  lemma {:induction false} FilesAreWhole(start: Disk, steps: seq<Step>)
    requires Fresh(start) && After(start, steps).Some?
    ensures WritersFine(After(start, steps).value) && OnlyPublished(After(start, steps).value)
  {
    hide Next, WritersFine, OnlyPublished;
    if steps == [] {
      FreshIsFine(start);
    } else {
      var front, step := steps[..|steps| - 1], steps[|steps| - 1];
      FilesAreWhole(start, front);
      WritersKept(After(start, front).value, step);
      PublishedKept(After(start, front).value, step);
    }
  }

  lemma FreshIsFine(start: Disk)
    requires Fresh(start)
    ensures WritersFine(start) && OnlyPublished(start)
  {
  }

  /** A rename shows the writer's whole document under its target, and the temporary file is gone. */
  lemma {:induction false} RenameShows(start: Disk, steps: seq<Step>, q: nat)
    requires Fresh(start) && After(start, steps).Some? && Enabled(After(start, steps).value, Rename(q))
    ensures var d := After(start, steps).value;
            var w, after := d.writers[q], Next(d, Rename(q));
            && w.name in after.files && after.files[w.name] == w.doc
            && TmpName(w.name, d.pid, q) !in after.files
  {
    hide TmpName, WriteAt, After;
    FilesAreWhole(start, steps);
    var d := After(start, steps).value;
    var w := d.writers[q];
    assert WriterFine(d, q);
    TmpIsNoTarget(w.name, d.pid, q);
    assert w.doc[..|w.doc|] == w.doc;
  }

  /** Only a rename and a delete change a file that is written to, and a file once there
      stays unless it is deleted. */
  lemma {:induction false} OnlyRenamesShow(start: Disk, steps: seq<Step>, step: Step, name: string)
    requires Fresh(start) && After(start, steps).Some? && Enabled(After(start, steps).value, step) && IsTarget(name)
    ensures var d := After(start, steps).value;
            var after := Next(d, step);
            && (name in d.files && step != Delete(name) ==> name in after.files)
            && (name in after.files ==>
                 || (name in d.files && after.files[name] == d.files[name])
                 || (step.Rename? && d.writers[step.seqNo].name == name &&
                     after.files[name] == d.writers[step.seqNo].doc))
  {
    hide TmpName, WriteAt, After;
    FilesAreWhole(start, steps);
    var d := After(start, steps).value;
    if step.Open? || step.Write? || step.Rename? || step.GiveUp? {
      assert WriterFine(d, step.seqNo);
      var w := d.writers[step.seqNo];
      TmpIsNoTarget(w.name, d.pid, step.seqNo);
      assert w.doc[..|w.doc|] == w.doc;
    }
  }
}

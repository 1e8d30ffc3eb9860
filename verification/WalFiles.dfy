/** Which files of a log directory are its segments, and opening a store from them. */
module WalFiles {
  import opened Wrappers
  import opened Ascii
  import opened WalReplay
  import opened WalLaws

  /** `to_ascii_lowercase` */
  function Lowered(name: string): (lower: string)
    ensures |lower| == |name| && forall i :: 0 <= i < |name| ==> lower[i] == Lower(name[i])
  {
    seq(|name|, i requires 0 <= i < |name| => Lower(name[i]))
  }

  predicate EndsWith(s: string, suffix: string) {
    |s| >= |suffix| && s[|s| - |suffix|..] == suffix
  }

  function Stem(s: string, suffix: string): string
    requires EndsWith(s, suffix)
  {
    s[..|s| - |suffix|]
  }

  function HexDigit(c: char): Option<nat> {
    if '0' <= c <= '9' then Some((c - '0') as nat)
    else if 'a' <= c <= 'f' then Some((c - 'a') as nat + 10)
    else None
  }

  function HexValue(digits: string): Option<nat> {
    if digits == "" then Some(0)
    else
      var high :- HexValue(digits[..|digits| - 1]);
      var low :- HexDigit(digits[|digits| - 1]);
      Some(16 * high + low)
  }

  const PLAIN := ".jsonl"
  const PACKED := ".jsonl.gz"

  /** `parse_segment_filename` */
  function SegmentNumber(name: string): Option<nat> {
    var lower := Lowered(name);
    if EndsWith(lower, PACKED) then NumberOf(Stem(lower, PACKED))
    else if EndsWith(lower, PLAIN) then NumberOf(Stem(lower, PLAIN))
    else None
  }

  function NumberOf(stem: string): Option<nat> {
    if |stem| == 8 then HexValue(stem) else None
  }

  predicate IsPacked(name: string) {
    EndsWith(Lowered(name), ".gz")
  }

  /** `list_wal_segments`, over the directory's entries in the order it gives them. */
  method ListWalSegments(names: seq<string>) returns (segments: map<nat, string>)
    ensures segments == Listing(names)
  {
    segments := map[];
    for i := 0 to |names|
      invariant segments == Listing(names[..i])
    {
      assert names[..i + 1][..i] == names[..i];
      var number := SegmentNumber(names[i]);
      if number.Some? {
        if IsPacked(names[i]) {
          segments := segments[number.value := names[i]];
        } else if number.value !in segments {
          segments := segments[number.value := names[i]];
        }
      }
    }
    assert names[..|names|] == names;
  }

  function Listing(names: seq<string>): map<nat, string> {
    if names == [] then map[]
    else
      var before, name := Listing(names[..|names| - 1]), names[|names| - 1];
      var number := SegmentNumber(name);
      if number.None? || (!IsPacked(name) && number.value in before) then before
      else before[number.value := name]
  }

  // ------------------------------------------------------------- the names of a segment

  function Sixteenth(v: nat): char
    requires v < 16
  {
    "0123456789abcdef"[v]
  }

  /** The last `w` digits of a number in base sixteen. */
  function HexText(n: nat, w: nat): (digits: string)
    ensures |digits| == w
  {
    if w == 0 then "" else HexText(n / 16, w - 1) + [Sixteenth(n % 16)]
  }

  function Power16(w: nat): nat { if w == 0 then 1 else 16 * Power16(w - 1) }

  lemma HexDigitIs(c: char, v: nat)
    ensures HexDigit(c) == Some(v) <==> v < 16 && c == Sixteenth(v)
  {
  }

  lemma {:induction false} HexTextReads(digits: string, n: nat)
    ensures HexValue(digits) == Some(n) <==> n < Power16(|digits|) && digits == HexText(n, |digits|)
  {
    hide HexDigit, Sixteenth;
    if digits != "" {
      var front, last := digits[..|digits| - 1], digits[|digits| - 1];
      HexTextReads(front, n / 16);
      HexDigitIs(last, n % 16);
      HexDigitIs(last, HexDigit(last).GetOr(0));
      assert digits == HexText(n, |digits|) <==> front == HexText(n / 16, |front|) && last == Sixteenth(n % 16) by {
        assert digits == front + [last];
        assert HexText(n, |digits|)[..|front|] == HexText(n / 16, |front|);
      }
      HexStep(HexValue(front), HexDigit(last), n);
    }
  }

  lemma HexStep(high: Option<nat>, low: Option<nat>, n: nat)
    requires low.Some? ==> low.value < 16
    ensures high.Some? && low.Some? && 16 * high.value + low.value == n <==>
            high == Some(n / 16) && low == Some(n % 16)
  {
  }

  predicate NoCapitals(s: string) {
    forall i :: 0 <= i < |s| ==> !('A' <= s[i] <= 'Z')
  }

  lemma {:induction false} LoweredIs(name: string, small: string)
    requires NoCapitals(small)
    ensures Lowered(name) == small <==> SameLetters(name, small)
  {
    if |name| == |small| {
      assert Lowered(name) == small <==> forall i :: 0 <= i < |name| ==> Lower(name[i]) == small[i];
    }
  }

  lemma {:induction false} HexTextIsSmall(n: nat, w: nat)
    ensures NoCapitals(HexText(n, w))
  {
    if w > 0 {
      HexTextIsSmall(n / 16, w - 1);
    }
  }

  lemma {:induction false} NumberIs(stem: string, n: nat)
    ensures NumberOf(stem) == Some(n) <==> n < 0x1_0000_0000 && stem == HexText(n, 8)
  {
    hide HexValue, HexText;
    HexTextReads(stem, n);
    assert Power16(1) == 0x10 && Power16(2) == 0x100 && Power16(3) == 0x1000 && Power16(4) == 0x1_0000;
    assert Power16(5) == 0x10_0000 && Power16(6) == 0x100_0000 && Power16(7) == 0x1000_0000;
  }

  lemma {:induction false} StemIs(s: string, suffix: string, stem: string)
    ensures EndsWith(s, suffix) && Stem(s, suffix) == stem <==> s == stem + suffix
  {
    if EndsWith(s, suffix) {
      assert s == s[..|s| - |suffix|] + s[|s| - |suffix|..];
    }
  }

  /** A file is segment `n` exactly when its name is, in any letters, eight digits of base
      sixteen that make `n`, and then one of the two endings; the ending says whether it is
      packed. */
  lemma {:induction false} NamesOfSegment(name: string, n: nat)
    ensures SegmentNumber(name) == Some(n) <==>
              && n < 0x1_0000_0000
              && (SameLetters(name, HexText(n, 8) + ".jsonl") || SameLetters(name, HexText(n, 8) + ".jsonl.gz"))
    ensures SegmentNumber(name) == Some(n) ==>
              (IsPacked(name) <==> SameLetters(name, HexText(n, 8) + ".jsonl.gz"))
  {
    hide HexText, NumberOf, Lowered, SameLetters, EndsWith;
    var lower, digits := Lowered(name), HexText(n, 8);
    HexTextIsSmall(n, 8);
    LoweredIs(name, digits + PLAIN);
    LoweredIs(name, digits + PACKED);
    StemIs(lower, PLAIN, digits);
    StemIs(lower, PACKED, digits);
    EndingsDiffer(lower);
    if EndsWith(lower, PACKED) {
      NumberIs(Stem(lower, PACKED), n);
      PackedByEnding(lower);
    } else if EndsWith(lower, PLAIN) {
      NumberIs(Stem(lower, PLAIN), n);
      PackedByEnding(lower);
    }
  }

  lemma {:induction false} EndingsDiffer(s: string)
    ensures !(EndsWith(s, PACKED) && EndsWith(s, PLAIN))
  {
    assert EndsWith(s, PACKED) ==> s[|s| - 9..][8] == 'z';
    assert EndsWith(s, PLAIN) ==> s[|s| - 6..][5] == 'l';
  }

  // ----------------------------------------------------- the order of the directory

  /** No two names differ only in the case of their letters. */
  ghost predicate DistinctIgnoringCase(names: seq<string>) {
    forall i, j :: 0 <= i < j < |names| ==> Lowered(names[i]) != Lowered(names[j])
  }

  lemma DigitInjective(a: char, b: char)
    ensures HexDigit(a).Some? ==> HexDigit(a).value < 16
    ensures HexDigit(b).Some? ==> HexDigit(b).value < 16
    ensures HexDigit(a).Some? && HexDigit(a) == HexDigit(b) ==> a == b
  {
  }

  lemma {:induction false} HexInjective(a: string, b: string)
    requires |a| == |b| && HexValue(a).Some? && HexValue(a) == HexValue(b)
    ensures a == b
  {
    hide HexDigit;
    if a != "" {
      DigitInjective(a[|a| - 1], b[|b| - 1]);
      HexInjective(a[..|a| - 1], b[..|b| - 1]);
      assert a == a[..|a| - 1] + [a[|a| - 1]] && b == b[..|b| - 1] + [b[|b| - 1]];
    }
  }

  /** A segment has one name of each kind, up to the case of its letters. */
  lemma {:induction false} OneNameEach(a: string, b: string)
    requires SegmentNumber(a).Some? && SegmentNumber(a) == SegmentNumber(b) && IsPacked(a) == IsPacked(b)
    ensures Lowered(a) == Lowered(b)
  {
    hide HexValue;
    var x, y := Lowered(a), Lowered(b);
    PackedByEnding(x);
    PackedByEnding(y);
    var suffix := if IsPacked(a) then PACKED else PLAIN;
    assert EndsWith(x, suffix) && EndsWith(y, suffix);
    HexInjective(Stem(x, suffix), Stem(y, suffix));
    assert x == Stem(x, suffix) + suffix && y == Stem(y, suffix) + suffix;
  }

  lemma {:induction false} PackedByEnding(s: string)
    requires EndsWith(s, PACKED) || EndsWith(s, PLAIN)
    ensures EndsWith(s, PACKED) <==> EndsWith(s, ".gz")
  {
    if EndsWith(s, PACKED) {
      assert s[|s| - 3..] == s[|s| - 9..][6..];
    } else {
      assert s[|s| - 1] == s[|s| - 6..][5];
    }
  }

  /** `name` stands for segment `n`: its packed file, or its plain one if it has no packed
      file. */
  ghost predicate StandsFor(names: seq<string>, n: nat, name: string) {
    && name in names && SegmentNumber(name) == Some(n)
    && (IsPacked(name) || forall other :: other in names && SegmentNumber(other) == Some(n) ==> !IsPacked(other))
  }

  /** Every segment that has a file is listed, under a name that stands for it. */
  lemma {:induction false} ListedStandsFor(names: seq<string>, n: nat)
    ensures n in Listing(names) ==> StandsFor(names, n, Listing(names)[n])
    ensures n !in Listing(names) ==> forall name :: name in names ==> SegmentNumber(name) != Some(n)
  {
    hide SegmentNumber, IsPacked;
    if names != [] {
      ListedStandsFor(names[..|names| - 1], n);
      assert forall name :: name in names <==> name in names[..|names| - 1] || name == names[|names| - 1];
    }
  }

  /** At most one name stands for each segment: no two packed files of one segment, and no
      two plain ones of a segment that has no packed file. */
  ghost predicate OneStandsForEach(names: seq<string>) {
    forall n, a, b :: StandsFor(names, n, a) && StandsFor(names, n, b) ==> a == b
  }

  ghost predicate SameInAnyOrder(names: seq<string>) {
    forall other :: multiset(other) == multiset(names) ==> Listing(other) == Listing(names)
  }

  /** What stands for a segment does not depend on the order in which the directory gives
      its names exactly when there is at most one name that can stand for it. */
  lemma {:induction false} ListingIgnoresOrder(names: seq<string>)
    ensures SameInAnyOrder(names) <==> OneStandsForEach(names)
  {
    hide Listing, StandsFor, OneStandsForEach;
    if OneStandsForEach(names) {
      forall other | multiset(other) == multiset(names) ensures Listing(other) == Listing(names) {
        assert forall name :: name in names <==> name in multiset(names);
        assert forall name :: name in other <==> name in multiset(other);
        SameElementsListAlike(names, other);
      }
    }
    if SameInAnyOrder(names) {
      assert OneStandsForEach(names) by {
        forall n, a, b | StandsFor(names, n, a) && StandsFor(names, n, b) ensures a == b {
          var _ := AnyCanBeListed(names, n, a);
          var _ := AnyCanBeListed(names, n, b);
        }
        ByEach(names);
      }
    }
  }

  lemma ByEach(names: seq<string>)
    requires forall n, a, b :: StandsFor(names, n, a) && StandsFor(names, n, b) ==> a == b
    ensures OneStandsForEach(names)
  {
  }

  lemma {:induction false} SameElementsListAlike(names: seq<string>, other: seq<string>)
    requires OneStandsForEach(names) && forall name :: name in names <==> name in other
    ensures Listing(other) == Listing(names)
  {
    hide SegmentNumber, IsPacked, Listing;
    forall n ensures (n in Listing(names) <==> n in Listing(other))
                  && (n in Listing(names) ==> Listing(names)[n] == Listing(other)[n]) {
      ListedStandsFor(names, n);
      ListedStandsFor(other, n);
      if n in Listing(names) && n in Listing(other) {
        assert StandsFor(names, n, Listing(other)[n]);
      }
    }
  }

  /** Some order of the directory lists any name that stands for its segment: a packed file
      given last, or a plain one given first. */
  lemma {:induction false} AnyCanBeListed(names: seq<string>, n: nat, name: string) returns (other: seq<string>)
    requires StandsFor(names, n, name)
    ensures multiset(other) == multiset(names) && n in Listing(other) && Listing(other)[n] == name
  {
    hide SegmentNumber, IsPacked;
    var i :| 0 <= i < |names| && names[i] == name;
    var rest := names[..i] + names[i + 1..];
    assert names == names[..i] + [name] + names[i + 1..];
    if IsPacked(name) {
      other := rest + [name];
      assert other[..|rest|] == rest;
    } else {
      other := [name] + rest;
      assert forall x :: x in rest ==> x in names;
      FirstPlainStays(name, rest, n);
    }
  }

  lemma {:induction false} FirstPlainStays(name: string, rest: seq<string>, n: nat)
    requires SegmentNumber(name) == Some(n) && !IsPacked(name)
    requires forall other :: other in rest && SegmentNumber(other) == Some(n) ==> !IsPacked(other)
    ensures n in Listing([name] + rest) && Listing([name] + rest)[n] == name
  {
    hide SegmentNumber, IsPacked;
    var all := [name] + rest;
    if rest == [] {
      assert all[..0] == [] && all[0] == name && |all| == 1;
    } else {
      var front := rest[..|rest| - 1];
      FirstPlainStays(name, front, n);
      assert all[..|all| - 1] == [name] + front && all[|all| - 1] == rest[|rest| - 1];
    }
  }

  /** ... so in particular when no two names differ only in the case of their letters. */
  lemma {:induction false} DistinctNamesAreEnough(names: seq<string>)
    requires DistinctIgnoringCase(names)
    ensures OneStandsForEach(names)
  {
    hide SegmentNumber, IsPacked;
    forall n, a, b | StandsFor(names, n, a) && StandsFor(names, n, b) ensures a == b {
      OneNameEach(a, b);
      SameNames(names, a, b);
    }
  }

  lemma {:induction false} SameNames(names: seq<string>, a: string, b: string)
    requires DistinctIgnoringCase(names) && a in names && b in names && Lowered(a) == Lowered(b)
    ensures a == b
  {
    var i :| 0 <= i < |names| && names[i] == a;
    var j :| 0 <= j < |names| && names[j] == b;
    assert i == j;
  }

  /** ... and with two plain files whose names differ in case it does depend on it. */
  lemma {:induction false} CaseTwinsMatter()
    ensures var a, b := "0000000a.jsonl", "0000000A.jsonl";
            Listing([a, b]) != Listing([b, a])
  {
    var a, b := "0000000a.jsonl", "0000000A.jsonl";
    assert Lowered(a) == a && Lowered(b) == a;
    PlainTen(a);
    PlainTen(b);
    assert [a, b][..1] == [a] && [b, a][..1] == [b];
    var none: seq<string> := [];
    assert [a][..0] == none && [b][..0] == none && Listing(none) == map[];
    assert Listing([a]) == map[10 := a] && Listing([b]) == map[10 := b];
    assert Listing([a, b]) == map[10 := a] && Listing([b, a]) == map[10 := b];
    assert a[7] != b[7];
  }

  lemma {:induction false} PlainTen(name: string)
    requires Lowered(name) == "0000000a.jsonl"
    ensures SegmentNumber(name) == Some(10) && !IsPacked(name)
  {
    var lower := Lowered(name);
    assert lower[|lower| - 6..] == PLAIN;
    assert EndsWith(lower, PLAIN) && lower[|lower| - 1] == 'l';
    PackedByEnding(lower);
    assert Stem(lower, PLAIN) == "0000000a";
    Ten();
  }

  lemma {:induction false} Ten()
    ensures HexValue("0000000a") == Some(10)
  {
    var z := "0000000";
    assert HexValue("") == Some(0);
    assert HexValue(z[..1]) == Some(0) by { assert z[..1][..0] == ""; }
    assert HexValue(z[..2]) == Some(0) by { assert z[..2][..1] == z[..1]; }
    assert HexValue(z[..3]) == Some(0) by { assert z[..3][..2] == z[..2]; }
    assert HexValue(z[..4]) == Some(0) by { assert z[..4][..3] == z[..3]; }
    assert HexValue(z[..5]) == Some(0) by { assert z[..5][..4] == z[..4]; }
    assert HexValue(z[..6]) == Some(0) by { assert z[..6][..5] == z[..5]; }
    assert HexValue(z) == Some(0) by { assert z[..6] == "000000"; }
    assert "0000000a"[..7] == z;
  }

  // --------------------------------------------------------------- opening a store

  lemma {:induction false} HasHighest(numbers: set<nat>) returns (top: nat)
    requires numbers != {}
    ensures top in numbers && forall n :: n in numbers ==> n <= top
    decreases |numbers|
  {
    var some :| some in numbers;
    if numbers == {some} {
      return some;
    }
    assert numbers == (numbers - {some}) + {some};
    var rest := HasHighest(numbers - {some});
    assert forall n :: n in numbers ==> n == some || n in numbers - {some};
    top := if rest < some then some else rest;
  }

  function Highest(numbers: set<nat>): (top: nat)
    requires numbers != {}
    ensures top in numbers && forall n :: n in numbers ==> n <= top
  {
    assert exists top :: top in numbers && forall n :: n in numbers ==> n <= top by {
      var top := HasHighest(numbers);
    }
    var top :| top in numbers && forall n :: n in numbers ==> n <= top;
    top
  }

  /** The listed segments in the order of the map (a `BTreeMap`), with what their files
      hold; a file not in `contents` cannot be read. */
  function InOrder(segments: map<nat, string>, contents: map<string, Segment>): (log: seq<Numbered>)
    ensures AscendingNumbers(log)
    ensures |log| == |segments|
    ensures forall i :: 0 <= i < |log| ==>
              log[i].number in segments && log[i].lines == ContentOf(contents, segments[log[i].number])
    decreases |segments|
  {
    if segments == map[] then []
    else
      var top := Highest(segments.Keys);
      var rest := segments - {top};
      assert |rest| < |segments| by { assert rest.Keys == segments.Keys - {top}; }
      InOrder(rest, contents) + [Numbered(top, ContentOf(contents, segments[top]))]
  }

  function ContentOf(contents: map<string, Segment>, name: string): Option<Segment> {
    if name in contents then Some(contents[name]) else None
  }

  /** The log of a directory. */
  function LogOf(names: seq<string>, contents: map<string, Segment>): seq<Numbered> {
    InOrder(Listing(names), contents)
  }

  /** `open_namespace`, from what the snapshot and the directory hold: a store, or none when
      a file that has to be read cannot be, or a line that has to be applied is bad. */
  method OpenNamespace(snapshot: Option<(Data, CommitId)>, names: seq<string>, contents: map<string, Segment>)
      returns (store: Option<Data>)
    ensures var data := if snapshot.Some? then snapshot.value.0 else map[];
            var after := if snapshot.Some? then Some(snapshot.value.1) else None;
            var log := LogOf(names, contents);
            store == if AllRead(log, after) then Replay(data, Later(Commits(log), after)) else None
  {
    var data := if snapshot.Some? then snapshot.value.0 else map[];
    var after := if snapshot.Some? then Some(snapshot.value.1) else None;
    var segments := ListWalSegments(names);
    var db := new JsDb(data);
    var ok := db.ReplayWal(InOrder(segments, contents), after);
    store := if ok then Some(db.data) else None;
  }

  /** Opening a store gives the replay of its whole log from nothing, however old the
      snapshot is, as long as the snapshot was itself the replay of the log up to its id. */
  lemma {:induction false} StoreIsItsLog(snapshot: (Data, CommitId), names: seq<string>,
      contents: map<string, Segment>)
    requires Replay(map[], Included(Commits(LogOf(names, contents)), snapshot.1)) == Some(snapshot.0)
    ensures var commits := Commits(LogOf(names, contents));
            Replay(snapshot.0, Later(commits, Some(snapshot.1))) ==
            Replay(map[], Later(commits, None)) == Replay(map[], commits)
    ensures AllRead(LogOf(names, contents), None) ==> AllRead(LogOf(names, contents), Some(snapshot.1))
  {
    hide Commits, Replay, Later, Included, InOrder, Listing;
    var log := LogOf(names, contents);
    SnapshotIndependence(log, snapshot.1, snapshot.0);
    LaterThanNothing(Commits(log));
  }
}

/** When the watchdog gives a subscription up, and how long a supervisor waits between
    attempts. The clock is ideal: a timer fires exactly when it is due. */
module Liveness {
  import opened Wrappers
  import opened StackContext

  /** Clock ticks in a second. */
  const SECOND: nat := 1_000_000
  const SLACK: nat := 15 * SECOND
  const POLL: nat := 5 * SECOND
  const BACKOFF_SCHEDULE := [2, 5, 10, 30, 60]
  const USIZE_MAX: nat := 0xFFFF_FFFF_FFFF_FFFF

  function Deadline(maxInterval: nat): nat {
    maxInterval * SECOND + SLACK
  }

  function SaturatingSince(now: Time, earlier: Time): nat {
    if now < earlier then 0 else now - earlier
  }

  /** `liveness_expired`: a missing entry counts from establishment. */
  predicate Expired(last: Option<Time>, establishedAt: Time, now: Time, deadline: nat) {
    SaturatingSince(now, last.GetOr(establishedAt)) >= deadline
  }

  /** What happens to the node's entry over time: a report stamps it, or something else
      removes it. */
  datatype Write = Write(at: Time, entry: Option<Time>)

  /** The entry at `now`, written at establishment and by each later write. */
  function EntryAt(establishedAt: Time, writes: seq<Write>, now: Time): Option<Time> {
    if writes == [] then Some(establishedAt)
    else if writes[|writes| - 1].at <= now then writes[|writes| - 1].entry
    else EntryAt(establishedAt, writes[..|writes| - 1], now)
  }

  function Max(a: nat, b: nat): nat { if a < b then b else a }

  /** No entry is ever stamped later than this. */
  function Horizon(establishedAt: Time, writes: seq<Write>): Time {
    if writes == [] then establishedAt
    else Max(Horizon(establishedAt, writes[..|writes| - 1]), writes[|writes| - 1].entry.GetOr(0))
  }

  lemma {:induction false} EntryBelowHorizon(establishedAt: Time, writes: seq<Write>, now: Time)
    ensures EntryAt(establishedAt, writes, now).GetOr(establishedAt) <= Horizon(establishedAt, writes)
    ensures establishedAt <= Horizon(establishedAt, writes)
  {
    if writes != [] {
      EntryBelowHorizon(establishedAt, writes[..|writes| - 1], now);
    }
  }

  /** When the node was last heard of, as far as its entry tells at `now`. */
  function HeardAt(establishedAt: Time, writes: seq<Write>, now: Time): Time {
    EntryAt(establishedAt, writes, now).GetOr(establishedAt)
  }

  /** `watch_liveness`, over everything that is ever written to the entry: it looks every five
      seconds and ends at the first look that finds the node silent for the interval it was
      granted and 15 seconds more. */
  method WatchLiveness(establishedAt: Time, writes: seq<Write>, maxInterval: nat) returns (polls: nat, now: Time)
    ensures polls >= 1 && now == establishedAt + polls * 5 * SECOND
    ensures HeardAt(establishedAt, writes, now) + (maxInterval + 15) * SECOND <= now
    ensures forall k: nat :: 1 <= k < polls ==>
              var look := establishedAt + k * 5 * SECOND;
              look < HeardAt(establishedAt, writes, look) + (maxInterval + 15) * SECOND
  {
    var deadline := Deadline(maxInterval);
    polls, now := 0, establishedAt;
    EntryBelowHorizon(establishedAt, writes, now);
    while true
      invariant now == establishedAt + polls * 5 * SECOND
      invariant now < Horizon(establishedAt, writes) + deadline + POLL
      invariant forall k: nat :: 1 <= k <= polls ==>
                  var look := establishedAt + k * 5 * SECOND;
                  look < HeardAt(establishedAt, writes, look) + (maxInterval + 15) * SECOND
      decreases Horizon(establishedAt, writes) + deadline + POLL - now
    {
      polls, now := polls + 1, now + POLL;
      var last := EntryAt(establishedAt, writes, now);
      EntryBelowHorizon(establishedAt, writes, now);
      if Expired(last, establishedAt, now, deadline) {
        return;
      }
    }
  }

  // ----------------------------------------------------------------- reports only

  /** One write for each report, stamped with its own time, in order after `establishedAt`. */
  predicate OnlyReports(establishedAt: Time, writes: seq<Write>) {
    writes != [] ==>
      var front, last := writes[..|writes| - 1], writes[|writes| - 1];
      && OnlyReports(establishedAt, front)
      && last.entry == Some(last.at) && last.at >= LastReport(establishedAt, front)
  }

  function LastReport(establishedAt: Time, writes: seq<Write>): Time {
    if writes == [] then establishedAt else writes[|writes| - 1].at
  }

  /** Every silence between two reports, and before the first, is at most the interval granted
      and 15 seconds more. */
  predicate NeverSilent(establishedAt: Time, writes: seq<Write>, maxInterval: nat) {
    writes != [] ==>
      var front := writes[..|writes| - 1];
      && NeverSilent(establishedAt, front, maxInterval)
      && writes[|writes| - 1].at <= LastReport(establishedAt, front) + (maxInterval + 15) * SECOND
  }

  /** The entry is the time of the last report so far. */
  lemma {:induction false} EntryIsAReport(establishedAt: Time, writes: seq<Write>, now: Time)
    requires OnlyReports(establishedAt, writes) && establishedAt <= now
    ensures EntryAt(establishedAt, writes, now).Some?
    ensures establishedAt <= EntryAt(establishedAt, writes, now).value <= now
    ensures EntryAt(establishedAt, writes, now).value <= LastReport(establishedAt, writes)
    ensures LastReport(establishedAt, writes) <= now ==>
            EntryAt(establishedAt, writes, now).value == LastReport(establishedAt, writes)
  {
    if writes != [] {
      EntryIsAReport(establishedAt, writes[..|writes| - 1], now);
    }
  }

  lemma {:induction false} EntryGrows(establishedAt: Time, writes: seq<Write>, a: Time, b: Time)
    requires OnlyReports(establishedAt, writes) && establishedAt <= a <= b
    ensures EntryAt(establishedAt, writes, a).GetOr(0) <= EntryAt(establishedAt, writes, b).GetOr(0)
  {
    if writes != [] {
      EntryIsAReport(establishedAt, writes[..|writes| - 1], a);
      EntryGrows(establishedAt, writes[..|writes| - 1], a, b);
    }
  }

  /** A device that is heard of at least as often as it agreed to, however often 15 seconds
      late, is at no time found silent. */
  lemma {:induction false} ReportsKeepItAlive(establishedAt: Time, writes: seq<Write>, maxInterval: nat, now: Time)
    requires OnlyReports(establishedAt, writes) && NeverSilent(establishedAt, writes, maxInterval)
    requires establishedAt <= now < LastReport(establishedAt, writes) + (maxInterval + 15) * SECOND
    ensures !Expired(EntryAt(establishedAt, writes, now), establishedAt, now, Deadline(maxInterval))
    ensures now < HeardAt(establishedAt, writes, now) + (maxInterval + 15) * SECOND
  {
    EntryIsAReport(establishedAt, writes, now);
    if writes != [] && now < writes[|writes| - 1].at {
      ReportsKeepItAlive(establishedAt, writes[..|writes| - 1], maxInterval, now);
    }
  }

  /** A watch that ended as `WatchLiveness` does ended less than one poll after the interval
      granted and 15 seconds more had passed in silence; and while no silence is longer than
      that, only after the very last report. */
  lemma {:induction false} WatchTiming(establishedAt: Time, writes: seq<Write>, maxInterval: nat, polls: nat)
    requires OnlyReports(establishedAt, writes) && polls >= 1
    requires var end := establishedAt + polls * 5 * SECOND;
             HeardAt(establishedAt, writes, end) + (maxInterval + 15) * SECOND <= end
    requires forall k: nat :: 1 <= k < polls ==>
               var look := establishedAt + k * 5 * SECOND;
               look < HeardAt(establishedAt, writes, look) + (maxInterval + 15) * SECOND
    ensures var end := establishedAt + polls * 5 * SECOND;
            var heard := HeardAt(establishedAt, writes, end);
            && heard <= LastReport(establishedAt, writes)
            && heard + (maxInterval + 15) * SECOND <= end < heard + (maxInterval + 15 + 5) * SECOND
            && (NeverSilent(establishedAt, writes, maxInterval) ==> heard == LastReport(establishedAt, writes))
  {
    hide NeverSilent;
    var end := establishedAt + polls * 5 * SECOND;
    EntryIsAReport(establishedAt, writes, end);
    if polls > 1 {
      var before := establishedAt + (polls - 1) * 5 * SECOND;
      EntryIsAReport(establishedAt, writes, before);
      EntryGrows(establishedAt, writes, before, end);
      assert before < HeardAt(establishedAt, writes, before) + (maxInterval + 15) * SECOND;
    }
    if NeverSilent(establishedAt, writes, maxInterval) &&
       end < LastReport(establishedAt, writes) + (maxInterval + 15) * SECOND {
      ReportsKeepItAlive(establishedAt, writes, maxInterval, end);
    }
  }

  /** A removed entry is silence since establishment, and an entry stamped ahead of the
      clock is no silence at all. */
  lemma OddEntries(establishedAt: Time, now: Time, ahead: Time, maxInterval: nat)
    requires establishedAt <= now < ahead
    ensures Expired(None, establishedAt, now, Deadline(maxInterval)) <==>
            establishedAt + (maxInterval + 15) * SECOND <= now
    ensures !Expired(Some(ahead), establishedAt, now, Deadline(maxInterval))
  {
  }

  // ------------------------------------------------------------------------ backoff

  /** `backoff_delay` */
  function BackoffDelay(idx: nat): (seconds: nat) {
    BACKOFF_SCHEDULE[if idx < 4 then idx else 4]
  }

  function SaturatingNext(idx: nat): nat {
    if idx < USIZE_MAX then idx + 1 else idx
  }

  /** The failures since the last attempt that succeeded. */
  function FailuresInARow(outcomes: seq<bool>): nat {
    if outcomes == [] || outcomes[|outcomes| - 1] then 0 else FailuresInARow(outcomes[..|outcomes| - 1]) + 1
  }

  lemma NoFailures(outcomes: seq<bool>)
    ensures FailuresInARow(outcomes[..0]) == 0
  {
  }

  lemma {:induction false} NextFailures(outcomes: seq<bool>, k: nat)
    requires k < |outcomes|
    ensures FailuresInARow(outcomes[..k + 1]) == if outcomes[k] then 0 else FailuresInARow(outcomes[..k]) + 1
  {
    assert outcomes[..k + 1][..k] == outcomes[..k];
  }

  /** The loop of `supervise` as far as its delays go: one outcome of `establish` each turn,
      and for each the seconds waited before the next. */
  method Delays(outcomes: seq<bool>) returns (delays: seq<nat>)
    ensures |delays| == |outcomes|
    ensures forall k :: 0 <= k < |outcomes| ==>
              var failures := FailuresInARow(outcomes[..k]);
              delays[k] == if outcomes[k] then 0 else if failures < 4 then [2, 5, 10, 30][failures] else 60
  {
    hide FailuresInARow;
    delays := [];
    var idx := 0;
    assert FailuresInARow(outcomes[..0]) == 0 by { NoFailures(outcomes); }
    for k := 0 to |outcomes|
      invariant |delays| == k
      invariant idx <= USIZE_MAX
      invariant idx == FailuresInARow(outcomes[..k]) || (idx == USIZE_MAX <= FailuresInARow(outcomes[..k]))
      invariant forall i :: 0 <= i < k ==>
                  delays[i] == if outcomes[i] then 0 else BackoffDelay(FailuresInARow(outcomes[..i]))
    {
      NextFailures(outcomes, k);
      if outcomes[k] {
        idx := 0;
        delays := delays + [0];
      } else {
        delays := delays + [BackoffDelay(idx)];
        idx := SaturatingNext(idx);
      }
    }
  }

  /** Waiting grows with the failures in a row and is held at a minute. */
  lemma BackoffGrows(a: nat, b: nat)
    requires a <= b
    ensures 2 <= BackoffDelay(a) <= BackoffDelay(b) <= 60
    ensures b >= 4 <==> BackoffDelay(b) == 60
  {
  }
}

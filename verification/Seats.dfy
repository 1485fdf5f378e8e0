/** Seat usage of one license: the stored overage start against the history of reports. */
module Seats {
  import opened Options

  datatype Status = WithinLimit | OverLimitMonitor | OverageGrace | Blocked

  datatype Usage = Usage(deployment: string, activeSeats: int, seatLimit: int, status: Status,
                         overageStartedAt: Option<int>, graceExpiresAt: Option<int>, lastReportedAt: int)

  /** Reports carry the terms in force when they were made; transfer and rebinding delete the row. */
  datatype Event =
    | Report(deployment: string, activeSeats: int, seatLimit: int, gracePeriod: int, enforce: bool, at: int)
    | Reset

  predicate EnforcedOver(e: Event) {
    e.Report? && e.activeSeats > e.seatLimit && e.enforce
  }

  /** What one stored report makes of the row before it. */
  function Recorded(previous: Option<Usage>, e: Event): Usage
    requires e.Report?
  {
    var overLimit := e.activeSeats > e.seatLimit;
    var started :=
      if !(overLimit && e.enforce) then None
      else if previous.Some? && previous.value.overageStartedAt.Some? then previous.value.overageStartedAt
      else Some(e.at);
    var graceExpires := if started.None? then None else Some(started.value + e.gracePeriod);
    var status :=
      if !overLimit then WithinLimit
      else if !e.enforce then OverLimitMonitor
      else if graceExpires.Some? && e.at >= graceExpires.value then Blocked
      else OverageGrace;
    Usage(e.deployment, e.activeSeats, e.seatLimit, status, started, graceExpires, e.at)
  }

  function Next(row: Option<Usage>, e: Event): Option<Usage> {
    if e.Reset? then None else Some(Recorded(row, e))
  }

  function Row(history: seq<Event>): Option<Usage> {
    if |history| == 0 then None else Next(Row(history[..|history| - 1]), history[|history| - 1])
  }

  /* ---- The history's own account of the overage ---- */

  /** The current unbroken run of enforced over-limit reports is the history from `from` on. */
  ghost predicate UnbrokenRun(history: seq<Event>, from: int) {
    && 0 <= from <= |history|
    && (forall i | from <= i < |history| :: EnforcedOver(history[i]))
    && (from > 0 ==> !EnforcedOver(history[from - 1]))
  }

  lemma {:induction false} RunExists(history: seq<Event>) returns (from: int)
    ensures UnbrokenRun(history, from)
  {
    if |history| == 0 || !EnforcedOver(history[|history| - 1]) {
      from := |history|;
    } else {
      from := RunExists(history[..|history| - 1]);
    }
  }

  /** The stored start is the time of the first report of the current unbroken run, and there is one
      exactly when that run is not empty. */
  lemma {:induction false} StartIsFirstOfRun(history: seq<Event>, from: int)
    requires UnbrokenRun(history, from)
    ensures from == |history| ==> Row(history).None? || Row(history).value.overageStartedAt.None?
    ensures from < |history| ==> Row(history).Some? && Row(history).value.overageStartedAt == Some(history[from].at)
  {
    if from < |history| {
      var before := history[..|history| - 1];
      assert UnbrokenRun(before, from);
      StartIsFirstOfRun(before, from);
    }
  }

  /** After any history that ends in a report, the row says what the history says: the last report's
      numbers, the start of the current run, and `Blocked` exactly when the last report came at or
      after that start plus the grace it was reported under. */
  lemma {:induction false} UsageTellsHistory(history: seq<Event>, from: int)
    requires |history| > 0 && history[|history| - 1].Report? && UnbrokenRun(history, from)
    ensures Row(history).Some?
    ensures var (last, row) := (history[|history| - 1], Row(history).value);
      && row.activeSeats == last.activeSeats && row.seatLimit == last.seatLimit && row.deployment == last.deployment
      && row.lastReportedAt == last.at
      && (row.status == WithinLimit <==> last.activeSeats <= last.seatLimit)
      && (row.status == OverLimitMonitor <==> last.activeSeats > last.seatLimit && !last.enforce)
      && (row.status == Blocked <==> from < |history| && last.at >= history[from].at + last.gracePeriod)
      && (row.status == OverageGrace <==> from < |history| && last.at < history[from].at + last.gracePeriod)
      && row.overageStartedAt == (if from < |history| then Some(history[from].at) else None)
      && row.graceExpiresAt == (if from < |history| then Some(history[from].at + last.gracePeriod) else None)
  {
    StartIsFirstOfRun(history, from);
    assert from == |history| <==> !EnforcedOver(history[|history| - 1]);
  }

  /** The overage a row tells of began no later than the latest reading any report carried. */
  lemma {:induction false} StartNotAfter(history: seq<Event>, latest: int)
    requires forall e | e in history && e.Report? :: e.at <= latest
    ensures Row(history).Some? && Row(history).value.overageStartedAt.Some? ==> Row(history).value.overageStartedAt.value <= latest
  {
    var from := RunExists(history);
    StartIsFirstOfRun(history, from);
    if from < |history| { assert history[from] in history && EnforcedOver(history[from]); }
  }

  /** Once a run is blocked, it stays blocked while reports keep coming over the limit under the same
      or a shorter grace. */
  lemma {:induction false} BlockedStaysBlocked(history: seq<Event>, e: Event)
    requires Row(history).Some? && Row(history).value.status == Blocked
    requires EnforcedOver(e) && e.at >= Row(history).value.lastReportedAt
    requires e.gracePeriod <= history[|history| - 1].gracePeriod
    ensures Row(history + [e]).Some? && Row(history + [e]).value.status == Blocked
  {
    assert (history + [e])[..|history|] == history;
  }
}

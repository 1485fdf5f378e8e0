/** The leased outbox that alerts, audit anchors and witness evidence each have a copy of.

    A world is one such table, the clock, and one ticket for every claim a worker ever made, with
    how far that worker has got. Workers may stop at any point: a stopped worker is one whose ticket
    never moves again. */
module Outbox {
  import opened Options
  import opened Powers

  type Id = string

  /** `Delivering` is `storing` for evidence, `Delivered` is `stored`. */
  datatype Status = Pending | Delivering | Retrying | Delivered | Failed

  datatype Row = Row(id: Id, fingerprint: Id, status: Status, attempts: nat, nextAttemptAt: int,
                     leaseUntil: Option<int>, updatedAt: int)

  /** Working on the delivery; reporting a failure, after a report of success that was refused or
      whose answer was lost; or finished with the row. */
  datatype Phase = Working | Reporting | Done

  datatype Ticket = Ticket(id: Id, leaseUntil: int, attempts: nat, phase: Phase, commits: nat)

  datatype World = World(clock: int, rows: map<Id, Row>, used: set<Id>, tickets: seq<Ticket>)

  datatype Settings = Settings(baseDelayMs: nat, maxDelayMs: nat, batchSize: nat, maxAttempts: nat)

  const LEASE_MS: int := 120_000

  const ALERTS: Settings := Settings(30_000, 3_600_000, 20, 8)
  const ANCHORS: Settings := Settings(30_000, 3_600_000, 10, 8)
  const EVIDENCE: Settings := Settings(10_000, 21_600_000, 10, 20)

  /** `min(cap, base * 2 ** max(0, attempt - 1))` */
  function RetryDelay(c: Settings, attempt: nat): nat {
    var delay := c.baseDelayMs * Pow2(if attempt > 0 then attempt - 1 else 0);
    if delay < c.maxDelayMs then delay else c.maxDelayMs
  }

  /** Backing off: never shorter for a later attempt, never past the cap, never none at all. */
  lemma {:induction false} RetryDelayGrows(c: Settings, a: nat, b: nat)
    requires a <= b && 0 < c.baseDelayMs <= c.maxDelayMs
    ensures c.baseDelayMs <= RetryDelay(c, a) <= RetryDelay(c, b) <= c.maxDelayMs
  {
    var m, n := if a > 0 then a - 1 else 0, if b > 0 then b - 1 else 0;
    Pow2Grows(m, n);
    Pow2Grows(0, m);
    assert Pow2(0) == 1;
    var base, x, y := c.baseDelayMs, Pow2(m), Pow2(n);
    hide Pow2;
    MulGrows(base, 1, x);
    MulGrows(base, x, y);
  }

  /** At the three services' settings: alerts and anchors never wait the full hour before they give
      up; evidence waits its six hours from the thirteenth attempt on. */
  lemma ServiceDelays(a: nat)
    ensures a < ALERTS.maxAttempts ==> RetryDelay(ALERTS, a) == RetryDelay(ANCHORS, a) < ALERTS.maxDelayMs
    ensures RetryDelay(EVIDENCE, a) == EVIDENCE.maxDelayMs <==> a >= 13
    ensures 30_000 <= RetryDelay(ALERTS, a) <= 3_600_000 && 10_000 <= RetryDelay(EVIDENCE, a) <= 21_600_000
  {
    assert Pow2(0) == 1 && Pow2(6) == 64 && Pow2(11) == 2048 && Pow2(12) == 4096;
    if a < ALERTS.maxAttempts { Pow2Grows(if a > 0 then a - 1 else 0, 6); }
    if a >= 13 { Pow2Grows(12, a - 1); } else { Pow2Grows(if a > 0 then a - 1 else 0, 11); }
    RetryDelayGrows(ALERTS, 0, a);
    RetryDelayGrows(EVIDENCE, 0, a);
  }

  lemma MulGrows(base: nat, x: nat, y: nat)
    requires x <= y
    ensures base * x <= base * y
  {
    assert base * y - base * x == base * (y - x);
  }

  /* ---- Steps ---- */

  /** How a worker reports: the delivery succeeded, or it did not. */
  datatype Report = Success | Failure

  datatype Step =
    | Enqueue(id: Id, fingerprint: Id, now: int)
    | Claim(picked: Id, now: int)
    | Finish(ticket: nat, report: Report, now: int, reaches: bool, answered: bool)
    | Retry(id: Id, now: int)
    | Prune(before: int, now: int)

  predicate Due(r: Row, now: int) {
    || ((r.status == Pending || r.status == Retrying) && r.nextAttemptAt <= now)
    || (r.status == Delivering && r.leaseUntil.Some? && r.leaseUntil.value <= now)
  }

  /** The compare-and-set of every finish. */
  predicate Holds(w: World, t: Ticket) {
    && t.id in w.rows && w.rows[t.id].status == Delivering && w.rows[t.id].leaseUntil == Some(t.leaseUntil)
  }

  predicate Duplicate(w: World, fingerprint: Id) {
    exists id | id in w.rows :: w.rows[id].fingerprint == fingerprint
  }

  /** Time does not run backwards, row ids are random and never drawn twice, a claim takes some due
      row, and a worker reports success before failure and nothing after. */
  predicate Enabled(w: World, s: Step) {
    && w.clock <= s.now
    && match s
       case Enqueue(id, _, _) => id !in w.used
       case Claim(picked, now) => picked in w.rows && Due(w.rows[picked], now)
       case Finish(i, report, _, _, _) =>
         && i < |w.tickets| && w.tickets[i].phase != Done && (report == Success ==> w.tickets[i].phase == Working)
       case _ => true
  }

  function Closed(c: Settings, r: Row, report: Report, attempts: nat, now: int): Row {
    if report == Success then r.(status := Delivered, leaseUntil := None, nextAttemptAt := now, updatedAt := now)
    else if attempts >= c.maxAttempts then r.(status := Failed, leaseUntil := None, nextAttemptAt := now, updatedAt := now)
    else r.(status := Retrying, leaseUntil := None, nextAttemptAt := now + RetryDelay(c, attempts), updatedAt := now)
  }

  function Claimed(r: Row, now: int): Row {
    r.(status := Delivering, attempts := r.attempts + 1, leaseUntil := Some(now + LEASE_MS), updatedAt := now)
  }

  function Reopened(r: Row, now: int): Row {
    r.(status := Pending, attempts := 0, nextAttemptAt := now, leaseUntil := None, updatedAt := now)
  }

  predicate Stale(r: Row, before: int) {
    (r.status == Delivered || r.status == Failed) && r.updatedAt < before
  }

  function Apply(c: Settings, w: World, s: Step): World
    requires Enabled(w, s)
  {
    match s
    case Enqueue(id, fingerprint, now) =>
      if Duplicate(w, fingerprint) then w.(clock := now, used := w.used + {id})
      else w.(clock := now, used := w.used + {id}, rows := w.rows[id := Row(id, fingerprint, Pending, 0, now, None, now)])
    case Claim(picked, now) =>
      var row := Claimed(w.rows[picked], now);
      w.(clock := now, rows := w.rows[picked := row],
         tickets := w.tickets + [Ticket(picked, now + LEASE_MS, row.attempts, Working, 0)])
    case Finish(i, report, now, reaches, answered) =>
      var t := w.tickets[i];
      var commits := reaches && Holds(w, t);
      var phase := if report == Failure || (commits && answered) then Done else Reporting;
      var moved := w.(clock := now, tickets := w.tickets[i := t.(phase := phase, commits := t.commits + if commits then 1 else 0)]);
      if commits then moved.(rows := w.rows[t.id := Closed(c, w.rows[t.id], report, t.attempts, now)]) else moved
    case Retry(id, now) =>
      if id in w.rows && w.rows[id].status == Failed
      then w.(clock := now, rows := w.rows[id := Reopened(w.rows[id], now)])
      else w.(clock := now)
    case Prune(before, now) =>
      w.(clock := now,
         rows := map id | id in w.rows && !Stale(w.rows[id], before) :: w.rows[id])
  }

  /* ---- The invariant ---- */

  predicate Outstanding(t: Ticket) { t.phase != Done && t.commits == 0 }

  ghost predicate LeaseWhileDelivering(w: World) {
    forall id | id in w.rows :: w.rows[id].id == id && (w.rows[id].status == Delivering <==> w.rows[id].leaseUntil.Some?)
  }

  ghost predicate IdsUsed(w: World) {
    && w.rows.Keys <= w.used
    && forall i | 0 <= i < |w.tickets| :: w.tickets[i].id in w.used
  }

  /** An outstanding ticket either holds its row, as the last claim on it, or its lease is over. */
  ghost predicate Superseded(w: World) {
    forall i | 0 <= i < |w.tickets| && Outstanding(w.tickets[i]) ::
      if Holds(w, w.tickets[i]) then forall j | i < j < |w.tickets| :: w.tickets[j].id != w.tickets[i].id
      else w.tickets[i].leaseUntil <= w.clock
  }

  /** A ticket that committed and may still report failure has delivered its row for good. */
  ghost predicate DeliveredForGood(w: World) {
    forall i | 0 <= i < |w.tickets| && w.tickets[i].phase != Done && w.tickets[i].commits > 0 ::
      w.tickets[i].id in w.rows ==> w.rows[w.tickets[i].id].status == Delivered
  }

  ghost predicate OneCommitEach(w: World) {
    forall i | 0 <= i < |w.tickets| :: w.tickets[i].commits <= 1
  }

  ghost predicate Inv(w: World) {
    LeaseWhileDelivering(w) && IdsUsed(w) && Superseded(w) && DeliveredForGood(w) && OneCommitEach(w)
  }

  /** The key step: whatever a claim takes over, its lease is later than every outstanding one on
      the row. */
  lemma ClaimOutlastsOthers(c: Settings, w: World, picked: Id, now: int, i: nat)
    requires Inv(w) && Enabled(w, Claim(picked, now))
    requires i < |w.tickets| && Outstanding(w.tickets[i]) && w.tickets[i].id == picked
    ensures w.tickets[i].leaseUntil <= now < now + LEASE_MS == Apply(c, w, Claim(picked, now)).rows[picked].leaseUntil.value
  {
  }

  /* ---- Every step keeps it ---- */

  lemma StepKeepsRows(c: Settings, w: World, s: Step)
    requires LeaseWhileDelivering(w) && IdsUsed(w) && Enabled(w, s)
    ensures LeaseWhileDelivering(Apply(c, w, s)) && IdsUsed(Apply(c, w, s))
  {
    hide RetryDelay, Duplicate;
  }

  lemma {:induction false} ClaimKeepsSuperseded(c: Settings, w: World, picked: Id, now: int)
    requires Inv(w) && Enabled(w, Claim(picked, now))
    ensures Superseded(Apply(c, w, Claim(picked, now))) && DeliveredForGood(Apply(c, w, Claim(picked, now)))
  {
    var w' := Apply(c, w, Claim(picked, now));
    forall i | 0 <= i < |w'.tickets| && Outstanding(w'.tickets[i])
      ensures if Holds(w', w'.tickets[i]) then forall j | i < j < |w'.tickets| :: w'.tickets[j].id != w'.tickets[i].id
              else w'.tickets[i].leaseUntil <= w'.clock
    {
      if i < |w.tickets| {
        assert w'.tickets[i] == w.tickets[i];
        if w.tickets[i].id == picked { ClaimOutlastsOthers(c, w, picked, now, i); }
      }
    }
  }

  lemma {:induction false} FinishKeepsSuperseded(c: Settings, w: World, s: Step)
    requires Inv(w) && Enabled(w, s) && s.Finish?
    ensures Superseded(Apply(c, w, s)) && DeliveredForGood(Apply(c, w, s)) && OneCommitEach(Apply(c, w, s))
  {
    hide RetryDelay;
    var w', t := Apply(c, w, s), w.tickets[s.ticket];
    if s.reaches && Holds(w, t) { HolderIsOutstanding(w, s.ticket); }
    forall i | 0 <= i < |w.tickets| && Outstanding(w.tickets[i]) && w.tickets[i].id == t.id && Outstanding(t) && Holds(w, t)
               && Holds(w, w.tickets[i])
      ensures i == s.ticket
    {
      BothHold(w, i, s.ticket);
    }
    forall i | 0 <= i < |w'.tickets| && Outstanding(w'.tickets[i])
      ensures if Holds(w', w'.tickets[i]) then forall j | i < j < |w'.tickets| :: w'.tickets[j].id != w'.tickets[i].id
              else w'.tickets[i].leaseUntil <= w'.clock
    {
      assert Outstanding(w.tickets[i]) && w'.tickets[i].id == w.tickets[i].id && w'.tickets[i].leaseUntil == w.tickets[i].leaseUntil;
    }
  }

  /** A worker that may still report and whose lease is the row's has not committed before. */
  lemma HolderIsOutstanding(w: World, i: nat)
    requires Inv(w) && i < |w.tickets| && w.tickets[i].phase != Done && Holds(w, w.tickets[i])
    ensures Outstanding(w.tickets[i])
  {
  }

  lemma BothHold(w: World, i: nat, j: nat)
    requires Inv(w) && i < |w.tickets| && j < |w.tickets| && Outstanding(w.tickets[i]) && Outstanding(w.tickets[j])
    requires Holds(w, w.tickets[i]) && Holds(w, w.tickets[j]) && w.tickets[i].id == w.tickets[j].id
    ensures i == j
  {
  }

  lemma OthersKeepSuperseded(c: Settings, w: World, s: Step)
    requires Inv(w) && Enabled(w, s) && (s.Enqueue? || s.Retry? || s.Prune?)
    ensures Superseded(Apply(c, w, s)) && DeliveredForGood(Apply(c, w, s)) && OneCommitEach(Apply(c, w, s))
  {
    hide Duplicate;
    var w' := Apply(c, w, s);
    assert w'.tickets == w.tickets;
    forall i | 0 <= i < |w.tickets| ensures Holds(w', w.tickets[i]) <==> Holds(w, w.tickets[i]) {
      assert w.tickets[i].id in w.used;
    }
  }

  lemma {:induction false} StepKeepsInv(c: Settings, w: World, s: Step)
    requires Inv(w) && Enabled(w, s)
    ensures Inv(Apply(c, w, s))
  {
    StepKeepsRows(c, w, s);
    match s
    case Claim(picked, now) => ClaimKeepsSuperseded(c, w, picked, now);
    case Finish(_, _, _, _, _) => FinishKeepsSuperseded(c, w, s);
    case _ => OthersKeepSuperseded(c, w, s);
  }

  /* ---- Attempts ---- */

  /** The row still says how it got here: waiting rows have attempts left and wait out the back-off,
      failed rows have used theirs up, and the holder of a lease knows the row's count. */
  ghost predicate AttemptsTell(c: Settings, w: World) {
    && (forall id | id in w.rows :: RowTells(c, w.rows[id]))
    && (forall i | 0 <= i < |w.tickets| && Outstanding(w.tickets[i]) && Holds(w, w.tickets[i]) ::
          w.tickets[i].attempts == w.rows[w.tickets[i].id].attempts)
  }

  predicate RowTells(c: Settings, r: Row) {
    match r.status
    case Pending => r.attempts == 0 && r.nextAttemptAt == r.updatedAt
    case Delivering => r.attempts > 0 && r.leaseUntil == Some(r.updatedAt + LEASE_MS)
    case Retrying => 0 < r.attempts < c.maxAttempts && r.nextAttemptAt == r.updatedAt + RetryDelay(c, r.attempts)
    case Delivered => r.attempts > 0
    case Failed => r.attempts > 0 && r.attempts >= c.maxAttempts
  }

  lemma {:induction false} StepKeepsAttempts(c: Settings, w: World, s: Step)
    requires Inv(w) && AttemptsTell(c, w) && Enabled(w, s)
    ensures AttemptsTell(c, Apply(c, w, s))
  {
    hide RetryDelay, Duplicate;
    var w' := Apply(c, w, s);
    if s.Finish? && s.reaches && Holds(w, w.tickets[s.ticket]) { HolderIsOutstanding(w, s.ticket); }
    forall i | 0 <= i < |w'.tickets| && Outstanding(w'.tickets[i]) && Holds(w', w'.tickets[i])
      ensures w'.tickets[i].attempts == w'.rows[w'.tickets[i].id].attempts
    {
      if i < |w.tickets| {
        assert Outstanding(w.tickets[i]) && w'.tickets[i].id == w.tickets[i].id;
        assert w.tickets[i].id in w.used;
        if s.Claim? && w.tickets[i].id == s.picked { ClaimOutlastsOthers(c, w, s.picked, s.now, i); }
      }
    }
  }

  /* ---- Runs ---- */

  function Start(clock: int): World { World(clock, map[], {}, []) }

  /** A run whose every step was possible when it came. */
  predicate Possible(c: Settings, w: World, steps: seq<Step>)
    decreases |steps|, 0
  {
    |steps| > 0 ==>
      var last := |steps| - 1;
      Possible(c, w, steps[..last]) && Enabled(Run(c, w, steps[..last]), steps[last])
  }

  function Run(c: Settings, w: World, steps: seq<Step>): World
    requires Possible(c, w, steps)
    decreases |steps|, 1
  {
    if |steps| == 0 then w else Apply(c, Run(c, w, steps[..|steps| - 1]), steps[|steps| - 1])
  }

  lemma {:induction false} RunKeepsInv(c: Settings, w: World, steps: seq<Step>)
    requires Inv(w) && Possible(c, w, steps)
    ensures Inv(Run(c, w, steps))
  {
    hide Inv, Apply, Enabled;
    if |steps| > 0 {
      RunKeepsInv(c, w, steps[..|steps| - 1]);
      StepKeepsInv(c, Run(c, w, steps[..|steps| - 1]), steps[|steps| - 1]);
    }
  }

  lemma {:induction false} RunKeepsAttempts(c: Settings, w: World, steps: seq<Step>)
    requires Inv(w) && AttemptsTell(c, w) && Possible(c, w, steps)
    ensures AttemptsTell(c, Run(c, w, steps))
  {
    hide Inv, Apply, Enabled, AttemptsTell;
    if |steps| > 0 {
      var before := steps[..|steps| - 1];
      RunKeepsInv(c, w, before);
      RunKeepsAttempts(c, w, before);
      StepKeepsAttempts(c, Run(c, w, before), steps[|steps| - 1]);
    }
  }

  /** A row is given up exactly after its last attempt: one that waits for a retry has attempts left
      and waits out the back-off of the attempts it has had; a failed one has none left. */
  lemma {:induction false} FailsAfterLastAttempt(c: Settings, clock: int, steps: seq<Step>, id: Id)
    requires Possible(c, Start(clock), steps) && id in Run(c, Start(clock), steps).rows
    ensures var r := Run(c, Start(clock), steps).rows[id];
      && (r.status == Retrying ==> 0 < r.attempts < c.maxAttempts && r.nextAttemptAt == r.updatedAt + RetryDelay(c, r.attempts))
      && (r.status == Failed ==> r.attempts >= c.maxAttempts)
      && (r.status == Pending ==> r.attempts == 0)
      && (r.status == Delivering ==> r.attempts > 0 && r.leaseUntil == Some(r.updatedAt + LEASE_MS))
  {
    hide Apply, Enabled, RetryDelay;
    StartInv(clock);
    RunKeepsAttempts(c, Start(clock), steps);
  }

  lemma StartInv(clock: int)
    ensures Inv(Start(clock))
  {
  }

  /** For any interleaving of workers, stops, re-claims, manual retries and pruning: a row has a
      lease exactly while it is being delivered, and no claim ever commits more than one finish. */
  lemma EachClaimFinishesOnce(c: Settings, clock: int, steps: seq<Step>)
    requires Possible(c, Start(clock), steps)
    ensures var w := Run(c, Start(clock), steps);
      && (forall i | 0 <= i < |w.tickets| :: w.tickets[i].commits <= 1)
      && (forall id | id in w.rows :: w.rows[id].status == Delivering <==> w.rows[id].leaseUntil.Some?)
  {
    hide Apply, Enabled;
    StartInv(clock);
    RunKeepsInv(c, Start(clock), steps);
  }

  /** A worker whose row was claimed again can never change the row: neither of its reports does. */
  lemma StaleWorkerIsPowerless(c: Settings, clock: int, steps: seq<Step>, i: nat, j: nat, s: Step)
    requires Possible(c, Start(clock), steps)
    requires var w := Run(c, Start(clock), steps);
      i < j < |w.tickets| && w.tickets[i].id == w.tickets[j].id && s.Finish? && s.ticket == i && Enabled(w, s)
    ensures var w := Run(c, Start(clock), steps);
      Apply(c, w, s).rows == w.rows && Apply(c, w, s).tickets[i].commits == w.tickets[i].commits
  {
    hide Run, Possible;
    StartInv(clock);
    RunKeepsInv(c, Start(clock), steps);
    var w := Run(c, Start(clock), steps);
    if Holds(w, w.tickets[i]) { HolderIsOutstanding(w, i); }
  }

  /** A claim's lease is later than that of every worker that could still report on the row. */
  lemma ReclaimOutlastsAll(c: Settings, clock: int, steps: seq<Step>, picked: Id, now: int, i: nat)
    requires Possible(c, Start(clock), steps)
    requires var w := Run(c, Start(clock), steps);
      && Enabled(w, Claim(picked, now)) && i < |w.tickets| && Outstanding(w.tickets[i]) && w.tickets[i].id == picked
    ensures Run(c, Start(clock), steps).tickets[i].leaseUntil < now + LEASE_MS
  {
    hide Run, Possible;
    StartInv(clock);
    RunKeepsInv(c, Start(clock), steps);
    ClaimOutlastsOthers(c, Run(c, Start(clock), steps), picked, now, i);
  }

  lemma RunAppend(c: Settings, w: World, steps: seq<Step>, s: Step)
    requires Possible(c, w, steps) && Enabled(Run(c, w, steps), s)
    ensures Possible(c, w, steps + [s]) && Run(c, w, steps + [s]) == Apply(c, Run(c, w, steps), s)
  {
    hide Apply, Enabled;
    assert (steps + [s])[..|steps|] == steps;
  }

  /** Tickets are only added, and their commits only counted up. */
  lemma StepKeepsTickets(c: Settings, w: World, s: Step, i: nat)
    requires Enabled(w, s) && i < |w.tickets|
    ensures var w' := Apply(c, w, s);
      && i < |w'.tickets| && w'.tickets[i].id == w.tickets[i].id && w'.tickets[i].leaseUntil == w.tickets[i].leaseUntil
      && w'.tickets[i].attempts == w.tickets[i].attempts
    ensures |Apply(c, w, s).tickets| >= |w.tickets| && Apply(c, w, s).tickets[i].commits >= w.tickets[i].commits
    ensures !(s.Finish? && s.ticket == i) ==> Apply(c, w, s).tickets[i] == w.tickets[i]
  {
    hide RetryDelay, Duplicate;
  }
}

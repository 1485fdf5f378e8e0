/** The store methods of an outbox and the poll loop that drives them. */
module OutboxWorker {
  import opened Options
  import opened Outbox

  class Store {
    const settings: Settings
    var clock: int
    var rows: map<Id, Row>
    var used: set<Id>
    var tickets: seq<Ticket>

    function State(): World
      reads this
    {
      World(clock, rows, used, tickets)
    }

    constructor (settings: Settings, clock: int)
      ensures State() == Start(clock) && this.settings == settings
    {
      this.settings, this.clock, rows, used, tickets := settings, clock, map[], {}, [];
    }

    /** `INSERT ... ON CONFLICT DO NOTHING` */
    method EnqueueRow(id: Id, fingerprint: Id, now: int) returns (created: bool)
      requires Enabled(State(), Enqueue(id, fingerprint, now))
      modifies this
      ensures State() == Apply(settings, old(State()), Enqueue(id, fingerprint, now))
      ensures created <==> !Duplicate(old(State()), fingerprint)
    {
      created := !Duplicate(State(), fingerprint);
      clock, used := now, used + {id};
      if created { rows := rows[id := Row(id, fingerprint, Pending, 0, now, None, now)]; }
    }

    /** Locks one due row, `picked`, and leases it. */
    method ClaimRow(picked: Id, now: int) returns (ticket: nat)
      requires Enabled(State(), Claim(picked, now))
      modifies this
      ensures State() == Apply(settings, old(State()), Claim(picked, now))
      ensures ticket == |old(tickets)| == |tickets| - 1
      ensures tickets[ticket].phase == Working && tickets[ticket].commits == 0
    {
      ticket := |tickets|;
      var row := rows[picked];
      var leaseUntil := now + LEASE_MS;
      rows := rows[picked := row.(status := Delivering, attempts := row.attempts + 1, leaseUntil := Some(leaseUntil), updatedAt := now)];
      tickets := tickets + [Ticket(picked, leaseUntil, row.attempts + 1, Working, 0)];
      clock := now;
    }

    /** `UPDATE ... WHERE id = $1 AND status = 'delivering' AND lease_until = $n`; the worker sees a
        row come back only when the statement reached the database and the answer reached it. */
    method FinishRow(ticket: nat, report: Report, now: int, reaches: bool, answered: bool) returns (finished: bool)
      requires Enabled(State(), Finish(ticket, report, now, reaches, answered))
      modifies this
      ensures State() == Apply(settings, old(State()), Finish(ticket, report, now, reaches, answered))
      ensures finished <==> answered && tickets[ticket].commits == old(tickets)[ticket].commits + 1
      ensures report == Success && !finished ==> tickets[ticket].phase == Reporting
    {
      hide RetryDelay;
      var t := tickets[ticket];
      var commits := reaches && Holds(State(), t);
      finished := commits && answered;
      clock := now;
      if commits { rows := rows[t.id := Closed(settings, rows[t.id], report, t.attempts, now)]; }
      tickets := tickets[ticket := t.(phase := if report == Failure || finished then Done else Reporting,
                                      commits := t.commits + if commits then 1 else 0)];
    }

    method RetryRow(id: Id, now: int) returns (retried: bool)
      requires Enabled(State(), Retry(id, now))
      modifies this
      ensures State() == Apply(settings, old(State()), Retry(id, now))
      ensures retried <==> id in old(rows) && old(rows)[id].status == Failed
    {
      retried := id in rows && rows[id].status == Failed;
      if retried {
        rows := rows[id := rows[id].(status := Pending, attempts := 0, nextAttemptAt := now, leaseUntil := None, updatedAt := now)];
      }
      clock := now;
    }

    method PruneRows(before: int, now: int)
      requires Enabled(State(), Prune(before, now))
      modifies this
      ensures State() == Apply(settings, old(State()), Prune(before, now))
    {
      rows := map id | id in rows && !Stale(rows[id], before) :: rows[id];
      clock := now;
    }

    method Execute(s: Step)
      requires Enabled(State(), s)
      modifies this
      ensures State() == Apply(settings, old(State()), s)
    {
      hide Apply;
      match s
      case Enqueue(id, fingerprint, now) => var _ := EnqueueRow(id, fingerprint, now);
      case Claim(picked, now) => var _ := ClaimRow(picked, now);
      case Finish(ticket, report, now, reaches, answered) => var _ := FinishRow(ticket, report, now, reaches, answered);
      case Retry(id, now) => var _ := RetryRow(id, now);
      case Prune(before, now) => PruneRows(before, now);
    }
  }

  /** What the surroundings do to one round of the loop: which due row, if any, the claim gets; what
      everyone else commits meanwhile; whether the delivery succeeds; whether each report reaches
      the database and is answered; and the times. */
  datatype Round = Round(picked: Option<Id>, claimedAt: int, others: seq<Step>, delivers: bool,
                         successAt: int, successReaches: bool, successAnswered: bool, othersAgain: seq<Step>,
                         failureAt: int, failureReaches: bool, failureAnswered: bool)

  function Later(a: int, b: int): int { if a < b then b else a }

  /** The counter a claim is counted under. */
  datatype Tally = AsDelivered | AsRetrying | AsFailed

  type Tallies = map<nat, Tally>

  function Of(counted: Tallies, tally: Tally): set<nat> { set i | i in counted && counted[i] == tally }

  /** Step `k` of the trace is the finish of claim `i` that changed the table, with this report. */
  ghost predicate CommitsAt(c: Settings, begin: World, trace: seq<Step>, k: int, i: nat, report: Report)
    requires Possible(c, begin, trace)
  {
    && 0 <= k < |trace| && Possible(c, begin, trace[..k]) && Possible(c, begin, trace[..k + 1])
    && trace[k].Finish? && trace[k].ticket == i && trace[k].report == report
    && i < |Run(c, begin, trace[..k]).tickets| && i < |Run(c, begin, trace[..k + 1]).tickets|
    && Run(c, begin, trace[..k + 1]).tickets[i].commits == Run(c, begin, trace[..k]).tickets[i].commits + 1
  }

  ghost predicate CommittedAs(c: Settings, begin: World, trace: seq<Step>, i: nat, report: Report)
    requires Possible(c, begin, trace)
  {
    exists k :: CommitsAt(c, begin, trace, k, i, report)
  }

  function ReportOf(tally: Tally): Report { if tally == AsDelivered then Success else Failure }

  /** The claim's one committed finish is of its kind: a success; or a failure, with attempts left or not. */
  ghost predicate TalliedRight(c: Settings, begin: World, trace: seq<Step>, i: nat, tally: Tally)
    requires Possible(c, begin, trace)
  {
    && i < |Run(c, begin, trace).tickets| && Run(c, begin, trace).tickets[i].commits == 1
    && CommittedAs(c, begin, trace, i, ReportOf(tally))
    && (tally == AsFailed ==> Run(c, begin, trace).tickets[i].attempts >= c.maxAttempts)
    && (tally == AsRetrying ==> Run(c, begin, trace).tickets[i].attempts < c.maxAttempts)
  }

  /** A poll so far: everything in `trace`, with `counted` the claims its counters speak of. */
  ghost predicate Polled(store: Store, begin: World, trace: seq<Step>, counted: Tallies)
    reads store
  {
    && Inv(begin) && Possible(store.settings, begin, trace) && store.State() == Run(store.settings, begin, trace)
    && forall i | i in counted :: TalliedRight(store.settings, begin, trace, i, counted[i])
  }

  lemma StaysTallied(c: Settings, begin: World, trace: seq<Step>, s: Step, i: nat, tally: Tally)
    requires Inv(begin) && Possible(c, begin, trace) && Enabled(Run(c, begin, trace), s) && TalliedRight(c, begin, trace, i, tally)
    ensures Possible(c, begin, trace + [s]) && TalliedRight(c, begin, trace + [s], i, tally)
  {
    RunAppend(c, begin, trace, s);
    RunKeepsInv(c, begin, trace + [s]);
    StepKeepsTickets(c, Run(c, begin, trace), s, i);
    StaysCommitted(c, begin, trace, s, i, ReportOf(tally));
    hide Run, Possible, Enabled, Apply, CommittedAs, Inv;
    InvOneCommit(Apply(c, Run(c, begin, trace), s));
  }

  lemma InvOneCommit(w: World)
    requires Inv(w)
    ensures OneCommitEach(w)
  {
    hide Superseded, LeaseWhileDelivering, IdsUsed, DeliveredForGood, OneCommitEach;
  }

  lemma StaysCommitted(c: Settings, begin: World, trace: seq<Step>, s: Step, i: nat, report: Report)
    requires Possible(c, begin, trace) && Possible(c, begin, trace + [s]) && CommittedAs(c, begin, trace, i, report)
    ensures CommittedAs(c, begin, trace + [s], i, report)
  {
    hide Run, Possible;
    var k :| CommitsAt(c, begin, trace, k, i, report);
    assert (trace + [s])[..k] == trace[..k] && (trace + [s])[..k + 1] == trace[..k + 1] && (trace + [s])[k] == trace[k];
    assert CommitsAt(c, begin, trace + [s], k, i, report);
  }

  lemma OneMoreStep(c: Settings, begin: World, trace: seq<Step>, counted: Tallies, s: Step)
    requires Inv(begin) && Possible(c, begin, trace) && Enabled(Run(c, begin, trace), s)
    requires forall i | i in counted :: TalliedRight(c, begin, trace, i, counted[i])
    ensures Possible(c, begin, trace + [s]) && Run(c, begin, trace + [s]) == Apply(c, Run(c, begin, trace), s)
    ensures OneCommitEach(Run(c, begin, trace + [s]))
    ensures forall i | i in counted :: TalliedRight(c, begin, trace + [s], i, counted[i])
  {
    hide Enabled, Apply;
    RunAppend(c, begin, trace, s);
    RunKeepsInv(c, begin, trace + [s]);
    hide Run, Possible, TalliedRight;
    forall i | i in counted ensures TalliedRight(c, begin, trace + [s], i, counted[i]) {
      StaysTallied(c, begin, trace, s, i, counted[i]);
    }
  }

  /** A finish that changed the table is counted by its report and the attempts of its claim. */
  lemma CountsAs(c: Settings, begin: World, trace: seq<Step>, s: Step, tally: Tally)
    requires Inv(begin) && Possible(c, begin, trace) && s.Finish? && Enabled(Run(c, begin, trace), s)
    requires s.report == ReportOf(tally)
    requires tally == AsFailed ==> Run(c, begin, trace).tickets[s.ticket].attempts >= c.maxAttempts
    requires tally == AsRetrying ==> Run(c, begin, trace).tickets[s.ticket].attempts < c.maxAttempts
    requires Apply(c, Run(c, begin, trace), s).tickets[s.ticket].commits == Run(c, begin, trace).tickets[s.ticket].commits + 1
    ensures Possible(c, begin, trace + [s]) && TalliedRight(c, begin, trace + [s], s.ticket, tally)
    ensures Run(c, begin, trace).tickets[s.ticket].commits == 0
  {
    RunAppend(c, begin, trace, s);
    RunKeepsInv(c, begin, trace + [s]);
    StepKeepsTickets(c, Run(c, begin, trace), s, s.ticket);
    var longer := trace + [s];
    assert longer[..|trace|] == trace && longer[..|trace| + 1] == longer && longer[|trace|] == s;
    hide Run, Possible, Apply, Inv, Enabled;
    InvOneCommit(Apply(c, Run(c, begin, trace), s));
    assert CommitsAt(c, begin, longer, |trace|, s.ticket, s.report);
  }

  /** Other processes' steps, each taken if it is possible when its turn comes. */
  method Interfere(store: Store, steps: seq<Step>, own: nat, ghost begin: World, ghost trace: seq<Step>, ghost counted: Tallies)
    returns (ghost longer: seq<Step>)
    requires Polled(store, begin, trace, counted) && own < |store.tickets|
    modifies store
    ensures Polled(store, begin, longer, counted) && |store.tickets| >= |old(store.tickets)|
    ensures store.tickets[own] == old(store.tickets)[own]
  {
    hide Apply, Enabled, Inv;
    longer := trace;
    for i := 0 to |steps|
      invariant Polled(store, begin, longer, counted) && |store.tickets| >= |old(store.tickets)|
      invariant store.tickets[own] == old(store.tickets)[own]
    {
      if Enabled(store.State(), steps[i]) && !(steps[i].Finish? && steps[i].ticket == own) {
        OneMoreStep(store.settings, begin, longer, counted, steps[i]);
        StepKeepsTickets(store.settings, store.State(), steps[i], own);
        store.Execute(steps[i]);
        longer := longer + [steps[i]];
      }
    }
  }

  /** One report of a worker, and one more step of the run. */
  method ReportBack(store: Store, ticket: nat, report: Report, at: int, reaches: bool, answered: bool, ghost tally: Tally,
                    ghost begin: World, ghost trace: seq<Step>, ghost counted: Tallies)
    returns (finished: bool, ghost longer: seq<Step>)
    requires Polled(store, begin, trace, counted) && ticket < |store.tickets| && store.tickets[ticket].phase != Done
    requires report == Success ==> store.tickets[ticket].phase == Working
    requires tally == if report == Success then AsDelivered else if store.tickets[ticket].attempts >= store.settings.maxAttempts then AsFailed else AsRetrying
    modifies store
    ensures Polled(store, begin, longer, if finished then counted[ticket := tally] else counted)
    ensures |store.tickets| == |old(store.tickets)| && (finished ==> ticket !in counted)
    ensures report == Success && !finished ==>
      store.tickets[ticket] == old(store.tickets)[ticket].(phase := Reporting, commits := store.tickets[ticket].commits)
  {
    hide Inv, RetryDelay, TalliedRight;
    var now := Later(store.clock, at);
    var s := Finish(ticket, report, now, reaches, answered);
    assert Enabled(store.State(), s);
    OneMoreStep(store.settings, begin, trace, counted, s);
    ghost var before := store.State();
    if Apply(store.settings, before, s).tickets[ticket].commits == before.tickets[ticket].commits + 1 {
      CountsAs(store.settings, begin, trace, s, tally);
      NotCounted(store.settings, begin, trace, ticket, counted);
    }
    finished := store.FinishRow(ticket, report, now, reaches, answered);
    longer := trace + [s];
    hide Run, Possible, Apply, Enabled;
  }

  lemma NotCounted(c: Settings, begin: World, trace: seq<Step>, ticket: nat, counted: Tallies)
    requires Possible(c, begin, trace) && ticket < |Run(c, begin, trace).tickets| && Run(c, begin, trace).tickets[ticket].commits == 0
    requires forall i | i in counted :: TalliedRight(c, begin, trace, i, counted[i])
    ensures ticket !in counted
  {
    hide Run, Possible;
  }

  /** The claim finds no row: the database picks none, or the one it picks cannot be claimed then. */
  predicate NothingFor(w: World, picked: Option<Id>, at: int) {
    picked.None? || !(picked.value in w.rows && Due(w.rows[picked.value], Later(w.clock, at)))
  }

  /** Claims the row the database picks for this worker, if it picks one that is due. */
  method TakeNext(store: Store, picked: Option<Id>, at: int, ghost begin: World, ghost trace: seq<Step>, ghost counted: Tallies)
    returns (ticket: Option<nat>, ghost longer: seq<Step>)
    requires Polled(store, begin, trace, counted)
    modifies store
    ensures Polled(store, begin, longer, counted)
    ensures |store.tickets| == |old(store.tickets)| + if ticket.Some? then 1 else 0
    ensures ticket.Some? ==> ticket.value == |old(store.tickets)| && ticket.value !in counted
    ensures ticket.Some? ==> store.tickets[ticket.value].phase == Working && picked == Some(store.tickets[ticket.value].id)
    ensures ticket.None? ==> store.State() == old(store.State()) && NothingFor(store.State(), picked, at)
  {
    hide Inv;
    var now := Later(store.clock, at);
    if picked.None? || !Enabled(store.State(), Claim(picked.value, now)) { return None, trace; }
    OneMoreStep(store.settings, begin, trace, counted, Claim(picked.value, now));
    var claimed := store.ClaimRow(picked.value, now);
    ticket, longer := Some(claimed), trace + [Claim(picked.value, now)];
  }

  /** The poll loop is a run of the protocol, whatever happens around it; and each delivery it counts, as
      delivered, retrying or failed, is a claim of its own whose one committed finish was of that kind. */
  method Poll(store: Store, rounds: seq<Round>)
    returns (threw: bool, processed: nat, delivered: nat, retrying: nat, failed: nat, ghost trace: seq<Step>, ghost counted: Tallies)
    requires Inv(store.State())
    modifies store
    ensures Possible(store.settings, old(store.State()), trace) && store.State() == Run(store.settings, old(store.State()), trace)
    ensures processed <= store.settings.batchSize
    ensures processed == delivered + retrying + failed + if threw then 1 else 0
    ensures delivered == |Of(counted, AsDelivered)| && retrying == |Of(counted, AsRetrying)| && failed == |Of(counted, AsFailed)|
    ensures !threw && processed < store.settings.batchSize && processed < |rounds| ==>
      NothingFor(store.State(), rounds[processed].picked, rounds[processed].claimedAt)
    ensures forall i | i in counted ::
      |old(store.tickets)| <= i && TalliedRight(store.settings, old(store.State()), trace, i, counted[i])
  {
    hide Apply, Inv, Enabled, TalliedRight;
    ghost var begin := store.State();
    threw, processed, delivered, retrying, failed, trace, counted := false, 0, 0, 0, 0, [], map[];
    assert Polled(store, begin, trace, counted);
    var n := 0;
    while processed < store.settings.batchSize && n < |rounds|
      invariant Polled(store, begin, trace, counted) && |store.tickets| >= |begin.tickets| && n <= |rounds|
      invariant n == processed == delivered + retrying + failed <= store.settings.batchSize
      invariant Counted(counted, delivered, retrying, failed)
      invariant forall i | i in counted :: |begin.tickets| <= i
    {
      hide Polled, Counted;
      var round := rounds[n];
      n := n + 1;
      var claim;
      claim, trace := TakeNext(store, round.picked, round.claimedAt, begin, trace, counted);
      if claim.None? { break; }
      var ticket := claim.value;
      processed := processed + 1;
      trace := Interfere(store, round.others, ticket, begin, trace, counted);
      var finished := false;
      if round.delivers {
        finished, trace := ReportBack(store, ticket, Success, round.successAt, round.successReaches, round.successAnswered,
                                      AsDelivered, begin, trace, counted);
        if finished {
          OneMoreCounted(counted, ticket, AsDelivered, delivered, retrying, failed);
          counted := counted[ticket := AsDelivered];
          delivered := delivered + 1;
          continue;
        }
        trace := Interfere(store, round.othersAgain, ticket, begin, trace, counted);
      }
      var terminal := store.tickets[ticket].attempts >= store.settings.maxAttempts;
      ghost var tally := if terminal then AsFailed else AsRetrying;
      finished, trace := ReportBack(store, ticket, Failure, round.failureAt, round.failureReaches, round.failureAnswered,
                                    tally, begin, trace, counted);
      if !finished { threw := true; break; }
      OneMoreCounted(counted, ticket, tally, delivered, retrying, failed);
      counted := counted[ticket := tally];
      if terminal { failed := failed + 1; } else { retrying := retrying + 1; }
    }
  }

  ghost predicate Counted(counted: Tallies, delivered: nat, retrying: nat, failed: nat) {
    delivered == |Of(counted, AsDelivered)| && retrying == |Of(counted, AsRetrying)| && failed == |Of(counted, AsFailed)|
  }

  lemma OneMoreCounted(counted: Tallies, i: nat, tally: Tally, delivered: nat, retrying: nat, failed: nat)
    requires i !in counted && Counted(counted, delivered, retrying, failed)
    ensures Counted(counted[i := tally], if tally == AsDelivered then delivered + 1 else delivered,
                    if tally == AsRetrying then retrying + 1 else retrying, if tally == AsFailed then failed + 1 else failed)
  {
    OfMore(counted, i, tally, AsDelivered);
    OfMore(counted, i, tally, AsRetrying);
    OfMore(counted, i, tally, AsFailed);
    hide Of;
  }

  lemma OfMore(counted: Tallies, i: nat, tally: Tally, t: Tally)
    requires i !in counted
    ensures i !in Of(counted, t) && Of(counted[i := tally], t) == if t == tally then Of(counted, t) + {i} else Of(counted, t)
  {
  }
}

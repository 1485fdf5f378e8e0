/** The outbox told by its history: what each row is, and when it can be claimed, follow from what was
    last done to it. */
module OutboxStories {
  import opened Options
  import opened Outbox
  import Powers

  /** What was last done to a row: made or reopened, claimed under a ticket, or finished by its report. */
  datatype Last = Fresh(at: int) | Taken(at: int, ticket: nat) | Ended(report: Report, at: int)

  /** And how many claims it has had since it was made or last reopened. */
  datatype Story = Story(last: Last, claims: nat)

  predicate GaveUp(c: Settings, st: Story) { st.last.Ended? && st.last.report == Failure && st.claims >= c.maxAttempts }

  predicate Waits(c: Settings, st: Story) { st.last.Ended? && st.last.report == Failure && st.claims < c.maxAttempts }

  predicate Through(st: Story) { st.last.Ended? && st.last.report == Success }

  /** One step's part in the story of a row. A finish counts if it reaches the table and its ticket is
      that of the row's last claim, not finished before. */
  function Told(c: Settings, w: World, before: Option<Story>, id: Id, s: Step): Option<Story> {
    match s
    case Enqueue(x, fingerprint, now) =>
      if x == id && before.None? && (forall k | k in w.rows :: w.rows[k].fingerprint != fingerprint)
      then Some(Story(Fresh(now), 0)) else before
    case Claim(x, now) =>
      if x == id && before.Some? then Some(Story(Taken(now, |w.tickets|), before.value.claims + 1)) else before
    case Finish(i, report, now, reaches, _) =>
      if reaches && before.Some? && before.value.last.Taken? && before.value.last.ticket == i
      then Some(before.value.(last := Ended(report, now))) else before
    case Retry(x, now) =>
      if x == id && before.Some? && GaveUp(c, before.value) then Some(Story(Fresh(now), 0)) else before
    case Prune(limit, _) =>
      if before.Some? && (GaveUp(c, before.value) || Through(before.value)) && before.value.last.at < limit then None else before
  }

  function StoryOf(c: Settings, clock: int, steps: seq<Step>, id: Id): Option<Story>
    requires Possible(c, Start(clock), steps)
  {
    if |steps| == 0 then None
    else
      var before := steps[..|steps| - 1];
      Told(c, Run(c, Start(clock), before), StoryOf(c, clock, before, id), id, steps[|steps| - 1])
  }

  /** What the table shows of a row with this story. */
  predicate Shows(c: Settings, id: Id, r: Row, st: Story) {
    && r.id == id && r.attempts == st.claims
    && (r.status == Pending <==> st.last.Fresh?)
    && (r.status == Delivering <==> st.last.Taken?)
    && (r.status == Delivered <==> Through(st))
    && (r.status == Retrying <==> Waits(c, st))
    && (r.status == Failed <==> GaveUp(c, st))
    && r.updatedAt == st.last.at
    && r.leaseUntil == (if st.last.Taken? then Some(st.last.at + LEASE_MS) else None)
    && (st.last.Fresh? ==> r.nextAttemptAt == st.last.at)
    && (Waits(c, st) ==> r.nextAttemptAt == st.last.at + RetryDelay(c, st.claims))
  }

  /** The ticket of a row's last claim is the last ticket on the row, and knows its attempts. */
  ghost predicate Ticketed(w: World, id: Id, st: Story) {
    st.last.Taken? ==>
      && st.last.ticket < |w.tickets| && w.tickets[st.last.ticket].id == id
      && w.tickets[st.last.ticket].leaseUntil == st.last.at + LEASE_MS && w.tickets[st.last.ticket].attempts == st.claims
      && forall j | st.last.ticket < j < |w.tickets| :: w.tickets[j].id != id
  }

  ghost predicate Matches(c: Settings, w: World, id: Id, st: Option<Story>) {
    && (id in w.rows <==> st.Some?)
    && (st.Some? && id in w.rows ==> Shows(c, id, w.rows[id], st.value) && Ticketed(w, id, st.value))
  }

  lemma StepMatches(c: Settings, w: World, id: Id, st: Option<Story>, s: Step)
    requires Inv(w) && Enabled(w, s) && Matches(c, w, id, st)
    ensures Matches(c, Apply(c, w, s), id, Told(c, w, st, id, s))
  {
    hide RetryDelay;
    match s
    case Enqueue(_, _, _) => assert w.rows.Keys <= w.used;
    case Claim(_, _) =>
    case Finish(_, _, _, _, _) => FinishMatches(c, w, id, st, s);
    case Retry(_, _) =>
    case Prune(_, _) =>
  }

  lemma FinishMatches(c: Settings, w: World, id: Id, st: Option<Story>, s: Step)
    requires Inv(w) && Enabled(w, s) && Matches(c, w, id, st) && s.Finish?
    ensures Matches(c, Apply(c, w, s), id, Told(c, w, st, id, s))
  {
    if id in w.rows && w.tickets[s.ticket].id == id { HolderIsLast(c, w, id, st.value, s.ticket); }
    hide RetryDelay, Inv;
  }

  /** A ticket whose worker may still report holds its row exactly when it is the row's last claim. */
  lemma HolderIsLast(c: Settings, w: World, id: Id, st: Story, i: nat)
    requires Inv(w) && id in w.rows && Matches(c, w, id, Some(st))
    requires i < |w.tickets| && w.tickets[i].phase != Done && w.tickets[i].id == id
    ensures Holds(w, w.tickets[i]) <==> st.last.Taken? && st.last.ticket == i
  {
    hide RetryDelay;
    if Holds(w, w.tickets[i]) {
      HolderIsOutstanding(w, i);
    }
  }

  lemma {:induction false} RunMatches(c: Settings, clock: int, steps: seq<Step>, id: Id)
    requires Possible(c, Start(clock), steps)
    ensures Matches(c, Run(c, Start(clock), steps), id, StoryOf(c, clock, steps, id))
  {
    hide Inv, Apply, Enabled, Matches, Told;
    StartInv(clock);
    if |steps| == 0 {
      NothingTold(c, clock, id);
    } else {
      var before := steps[..|steps| - 1];
      RunKeepsInv(c, Start(clock), before);
      RunMatches(c, clock, before, id);
      StepMatches(c, Run(c, Start(clock), before), id, StoryOf(c, clock, before, id), steps[|steps| - 1]);
    }
  }

  lemma NothingTold(c: Settings, clock: int, id: Id)
    ensures Matches(c, Start(clock), id, None)
  {
  }

  /** After every run: a row is there exactly when its story says so. It is delivered exactly when the
      last finish that counted reported success, failed exactly when that reported failure with no
      attempts left, waiting exactly when it reported failure with attempts left, and then for the
      back-off of the claims it has had. */
  lemma RowTellsStory(c: Settings, clock: int, steps: seq<Step>, id: Id)
    requires Possible(c, Start(clock), steps)
    ensures var (w, st) := (Run(c, Start(clock), steps), StoryOf(c, clock, steps, id));
      && (id in w.rows <==> st.Some?)
      && (st.Some? && id in w.rows ==> Shows(c, id, w.rows[id], st.value))
  {
    hide Run, Possible, StoryOf, Shows, Ticketed;
    RunMatches(c, clock, steps, id);
  }

  /** When a row with this story can be claimed next, if ever. */
  function ReadyAt(c: Settings, st: Story): Option<int> {
    match st.last
    case Fresh(at) => Some(at)
    case Taken(at, _) => Some(at + LEASE_MS)
    case Ended(report, at) =>
      if report == Failure && st.claims < c.maxAttempts then Some(at + RetryDelay(c, st.claims)) else None
  }

  /** A row can be claimed exactly from then on: a new or reopened one at once, a waiting one when its
      back-off is over, one being delivered when its lease is over, and a finished one never. No
      unfinished row is ever stuck. */
  lemma ClaimableIff(c: Settings, clock: int, steps: seq<Step>, id: Id, now: int)
    requires Possible(c, Start(clock), steps) && Run(c, Start(clock), steps).clock <= now
    ensures var (w, st) := (Run(c, Start(clock), steps), StoryOf(c, clock, steps, id));
      Enabled(w, Claim(id, now)) <==> st.Some? && ReadyAt(c, st.value).Some? && ReadyAt(c, st.value).value <= now
  {
    hide Run, Possible, StoryOf, RetryDelay, Ticketed;
    RunMatches(c, clock, steps, id);
  }

  /** A report that reaches the table changes it exactly when its worker made the row's last claim and
      nothing has finished that claim yet. */
  lemma FinishCommitsIff(c: Settings, clock: int, steps: seq<Step>, s: Step)
    requires Possible(c, Start(clock), steps) && s.Finish? && Enabled(Run(c, Start(clock), steps), s)
    ensures var w := Run(c, Start(clock), steps);
      var (t, st) := (w.tickets[s.ticket], StoryOf(c, clock, steps, w.tickets[s.ticket].id));
      var counts := s.reaches && st.Some? && st.value.last.Taken? && st.value.last.ticket == s.ticket;
      && Apply(c, w, s).tickets[s.ticket].commits == t.commits + (if counts then 1 else 0)
      && (Apply(c, w, s).rows != w.rows <==> counts)
  {
    hide Run, Possible, StoryOf, RetryDelay;
    var w := Run(c, Start(clock), steps);
    var t := w.tickets[s.ticket];
    StartInv(clock);
    RunKeepsInv(c, Start(clock), steps);
    RunMatches(c, clock, steps, t.id);
    if t.id in w.rows { HolderIsLast(c, w, t.id, StoryOf(c, clock, steps, t.id).value, s.ticket); }
    if s.reaches && Holds(w, t) { assert Apply(c, w, s).rows[t.id].status != w.rows[t.id].status; }
  }

  /** A worker may report failure after anything but a failure already reported or a success it was told
      went through; so a success whose answer is lost is followed by a report of failure. */
  lemma MayStillReport(c: Settings, w: World, s: Step, now: int)
    requires s.Finish? && Enabled(w, s) && s.now <= now
    ensures var after := Apply(c, w, s);
      (forall reaches, answered :: Enabled(after, Finish(s.ticket, Failure, now, reaches, answered)))
      <==> s.report == Success && !(s.answered && after.tickets[s.ticket].commits > w.tickets[s.ticket].commits)
  {
    hide RetryDelay;
    if Enabled(Apply(c, w, s), Finish(s.ticket, Failure, now, true, true)) {}
  }

  /** The back-off starts at the base and doubles with every claim until it meets the cap. */
  lemma RetryDelayDoubles(c: Settings, a: nat)
    requires 0 < c.baseDelayMs <= c.maxDelayMs
    ensures RetryDelay(c, 0) == RetryDelay(c, 1) == c.baseDelayMs
    ensures a > 0 ==> RetryDelay(c, a + 1) == if 2 * RetryDelay(c, a) < c.maxDelayMs then 2 * RetryDelay(c, a) else c.maxDelayMs
  {
    DoublePow(c.baseDelayMs, a);
  }

  lemma DoublePow(base: nat, a: nat)
    ensures Powers.Pow2(0) == 1
    ensures a > 0 ==> base * Powers.Pow2(a) == 2 * (base * Powers.Pow2(a - 1))
  {
    if a > 0 { assert Powers.Pow2(a) == 2 * Powers.Pow2(a - 1); }
  }
}

/** Lease requests as they interleave: each reads the license, then the clock, then spends its nonce,
    then records its seats and is answered, and others commit between any two of these. */
module LeaseRuns {
  import opened Options
  import Licenses
  import opened Seats
  import opened Lease

  type License = Licenses.License

  type NonceKey = (string, string)

  datatype Phase = LicenseRead | Checked | NonceSpent | Answered(outcome: Outcome)

  /** A request in flight: the license it read and, once checked, the clock reading it carries. */
  datatype Flight = Flight(request: Request, license: License, now: int, phase: Phase)

  datatype World = World(clock: int, license: Option<License>, history: seq<Event>, nonces: map<NonceKey, int>,
                         flights: seq<Flight>)

  /** `at` is the clock when the step happens; only `Check` carries it further. `SetLicense` is whatever
      a license change or revocation leaves, and `OtherReport` what a resize records after its change. */
  datatype Step =
    | Read(request: Request, at: int)
    | Check(flight: nat, tokenMatches: bool, keyUsable: bool, at: int)
    | Spend(flight: nat, at: int)
    | ReportSeats(flight: nat, at: int)
    | OtherReport(event: Event, at: int)
    | SetLicense(license: Option<License>, resets: bool, at: int)

  /* ---- Nonces ---- */

  function Lapsed(nonces: map<NonceKey, int>, now: int): map<NonceKey, int> {
    map k | k in nonces && nonces[k] >= now :: nonces[k]
  }

  /** Drops lapsed nonces, then inserts this one unless it is still there. */
  function SpendNonce(nonces: map<NonceKey, int>, key: NonceKey, now: int): (map<NonceKey, int>, bool) {
    var kept := Lapsed(nonces, now);
    if key in kept then (kept, false) else (kept[key := now + NONCE_TTL_MS], true)
  }

  function KeyOf(f: Flight): NonceKey { (f.license.deploymentId, f.request.nonce) }

  /* ---- Steps ---- */

  predicate InPhase(w: World, i: nat, phase: Phase) { i < |w.flights| && w.flights[i].phase == phase }

  predicate LicenseOk(l: Option<License>) { l.Some? ==> Licenses.WholeDays(l.value.gracePeriod) }

  /** The service refuses to start with any other lease duration. */
  predicate DurationOk(duration: int) { MIN_LEASE_MS <= duration <= MAX_LEASE_MS }

  predicate Enabled(w: World, s: Step) {
    match s
    case Read(_, _) => true
    case Check(i, _, _, _) => InPhase(w, i, LicenseRead)
    case Spend(i, _) => InPhase(w, i, Checked)
    case ReportSeats(i, _) => InPhase(w, i, NonceSpent)
    case OtherReport(event, at) => event.Report? && event.at <= at && Licenses.WholeDays(event.gracePeriod)
    case SetLicense(license, _, _) => LicenseOk(license)
  }

  function Moved(w: World, i: nat, f: Flight): World
    requires i < |w.flights|
  {
    w.(flights := w.flights[i := f])
  }

  function ReportOf(f: Flight): seq<Event> {
    var report := SeatReport(f.license, f.request, f.now);
    if report.Some? then [report.value] else []
  }

  function Apply(w0: World, s: Step, duration: int): World
    requires Enabled(w0, s)
  {
    var w := w0.(clock := s.at);
    match s
    case Read(r, at) =>
      if w.license.None? then w else w.(flights := w.flights + [Flight(r, w.license.value, at, LicenseRead)])
    case Check(i, tokenMatches, keyUsable, at) =>
      var f := w.flights[i];
      var refusal := Refusal(Some(f.license), f.request, tokenMatches, keyUsable, at);
      Moved(w, i, f.(now := at, phase := if refusal.Some? then Answered(Refused(refusal.value)) else Checked))
    case Spend(i, _) =>
      var f := w.flights[i];
      var (nonces, accepted) := SpendNonce(w.nonces, KeyOf(f), f.now);
      Moved(w, i, f.(phase := if accepted then NonceSpent else Answered(Refused(Replay)))).(nonces := nonces)
    case ReportSeats(i, _) =>
      var f := w.flights[i];
      Moved(w, i, f.(phase := Answered(Decision(f.license, f.request, Row(w.history), f.now, duration))))
        .(history := w.history + ReportOf(f))
    case OtherReport(event, _) => w.(history := w.history + [event])
    case SetLicense(license, resets, _) =>
      w.(license := license, history := w.history + if resets then [Event.Reset] else [])
  }

  predicate Possible(w: World, steps: seq<Step>, duration: int)
    decreases |steps|, 0
  {
    |steps| > 0 ==>
      var last := |steps| - 1;
      Possible(w, steps[..last], duration) && Enabled(Run(w, steps[..last], duration), steps[last])
  }

  function Run(w: World, steps: seq<Step>, duration: int): World
    requires Possible(w, steps, duration)
    decreases |steps|, 1
  {
    if |steps| == 0 then w else Apply(Run(w, steps[..|steps| - 1], duration), steps[|steps| - 1], duration)
  }

  /** The clock never goes back from one step to the next. */
  predicate Forward(clock: int, steps: seq<Step>) {
    |steps| > 0 ==>
      var (before, last) := (steps[..|steps| - 1], steps[|steps| - 1]);
      Forward(clock, before) && (if |before| == 0 then clock else before[|before| - 1].at) <= last.at
  }

  function Start(clock: int, license: License): World { World(clock, Some(license), [], map[], []) }

  /* ---- What every run keeps ---- */

  /** Where every request stands: checked ones may still get a lease, and every lease given runs. */
  ghost predicate FlightOk(f: Flight, duration: int) {
    && Licenses.WholeDays(f.license.gracePeriod)
    && (f.phase == Checked || f.phase == NonceSpent ==>
          Leasable(f.license, f.now, duration) && MatchesLicense(f.request, f.license) && f.license.revokedAt.None?)
    && (f.phase.Answered? && f.phase.outcome.Issued? ==>
          var lease := f.phase.outcome.lease;
          && lease.issuedAt == f.now < lease.expiresAt <= f.now + duration
          && (lease.graceExpiresAt.Some? ==> lease.expiresAt <= lease.graceExpiresAt.value)
          && (lease.graceExpiresAt.None? ==> lease.expiresAt <= f.license.expiresAt)
          && (f.license.gracePeriod > 0 ==> lease.expiresAt <= f.license.expiresAt + f.license.gracePeriod))
  }

  ghost predicate Inv(w: World, duration: int) {
    LicenseOk(w.license) && forall i | 0 <= i < |w.flights| :: FlightOk(w.flights[i], duration)
  }

  lemma StepKeepsInv(w: World, s: Step, duration: int)
    requires Inv(w, duration) && Enabled(w, s) && DurationOk(duration)
    ensures Inv(Apply(w, s, duration), duration)
  {
    hide MatchesLicense, Decision, Row, SpendNonce, ReportOf;
    if s.ReportSeats? {
      var f := w.flights[s.flight];
      if Decision(f.license, f.request, Row(w.history), f.now, duration).Issued? {
        LeaseRuns(f.license, f.request, Row(w.history), f.now, duration);
        if f.license.gracePeriod > 0 { DayOfGraceHolds(f.license, f.request, Row(w.history), f.now, duration); }
      }
    }
  }

  lemma {:induction false} RunKeepsInv(w: World, steps: seq<Step>, duration: int)
    requires Inv(w, duration) && Possible(w, steps, duration) && DurationOk(duration)
    ensures Inv(Run(w, steps, duration), duration)
  {
    hide Inv, Apply, Enabled;
    if |steps| > 0 {
      RunKeepsInv(w, steps[..|steps| - 1], duration);
      StepKeepsInv(Run(w, steps[..|steps| - 1], duration), steps[|steps| - 1], duration);
    }
  }

  /** In every run, with any clock and whatever changes to the license, every lease given ends after it
      starts, within the lease duration, and never past the grace it is given under; and if its license
      has a day of grace or more, never past license expiry plus grace. */
  lemma EveryLeaseRuns(clock: int, l: License, steps: seq<Step>, duration: int, i: nat)
    requires Licenses.WholeDays(l.gracePeriod) && DurationOk(duration) && Possible(Start(clock, l), steps, duration)
    requires i < |Run(Start(clock, l), steps, duration).flights|
    ensures FlightOk(Run(Start(clock, l), steps, duration).flights[i], duration)
  {
    hide Run, Possible, FlightOk;
    RunKeepsInv(Start(clock, l), steps, duration);
  }

  /* ---- The end of a license's terms ---- */

  /** The terms in force along the run end by then, and no resize records seats later. */
  predicate TermsEndBy(steps: seq<Step>, end: int) {
    forall s | s in steps ::
      && (s.SetLicense? && s.license.Some? ==> s.license.value.expiresAt + s.license.value.gracePeriod <= end)
      && (s.OtherReport? && s.event.Report? ==> s.event.at <= end)
  }

  ghost predicate EndsBy(w: World, end: int) {
    && (w.license.Some? ==> w.license.value.expiresAt + w.license.value.gracePeriod <= end)
    && (forall e | e in w.history && e.Report? :: e.at <= end)
    && forall i | 0 <= i < |w.flights| ::
         && w.flights[i].license.expiresAt + w.flights[i].license.gracePeriod <= end
         && (w.flights[i].phase.Answered? && w.flights[i].phase.outcome.Issued? ==>
               w.flights[i].phase.outcome.lease.expiresAt <= end)
  }

  lemma StepKeepsEnd(w: World, s: Step, duration: int, end: int)
    requires Inv(w, duration) && EndsBy(w, end) && Enabled(w, s) && DurationOk(duration) && TermsEndBy([s], end)
    ensures EndsBy(Apply(w, s, duration), end)
  {
    hide MatchesLicense, Decision, Row, SpendNonce, Refusal;
    assert s in [s];
    if s.ReportSeats? {
      var f := w.flights[s.flight];
      StartNotAfter(w.history, end);
      if Decision(f.license, f.request, Row(w.history), f.now, duration).Issued? {
        LeaseEndsBy(f.license, f.request, Row(w.history), f.now, duration, end);
      }
    }
  }

  lemma {:induction false} RunKeepsEnd(w: World, steps: seq<Step>, duration: int, end: int)
    requires Inv(w, duration) && EndsBy(w, end) && DurationOk(duration) && Possible(w, steps, duration) && TermsEndBy(steps, end)
    ensures EndsBy(Run(w, steps, duration), end)
  {
    hide Inv, EndsBy, Enabled, Apply;
    if |steps| > 0 {
      var before, last := steps[..|steps| - 1], steps[|steps| - 1];
      assert last in steps && forall s | s in before :: s in steps;
      RunKeepsEnd(w, before, duration, end);
      RunKeepsInv(w, before, duration);
      StepKeepsEnd(Run(w, before, duration), last, duration, end);
    }
  }

  /** In every run, with any clock: no lease outlasts a time by which all the terms in force, with their
      grace, and all the seats a resize records have come. */
  lemma LeasesEndWithTerms(clock: int, l: License, steps: seq<Step>, duration: int, end: int, i: nat)
    requires Licenses.WholeDays(l.gracePeriod) && DurationOk(duration) && Possible(Start(clock, l), steps, duration)
    requires l.expiresAt + l.gracePeriod <= end && TermsEndBy(steps, end)
    requires i < |Run(Start(clock, l), steps, duration).flights|
    ensures var phase := Run(Start(clock, l), steps, duration).flights[i].phase;
      phase.Answered? && phase.outcome.Issued? ==> phase.outcome.lease.expiresAt <= end
  {
    hide Run, Possible, TermsEndBy;
    RunKeepsEnd(Start(clock, l), steps, duration, end);
  }

  /** So while nobody changes a license, no lease passes its expiry plus grace, with no grace as with
      thirty days of it, however requests interleave and whatever the clock does. */
  lemma UnchangedTermsHold(clock: int, l: License, steps: seq<Step>, duration: int, i: nat)
    requires Licenses.WholeDays(l.gracePeriod) && DurationOk(duration) && Possible(Start(clock, l), steps, duration)
    requires forall s | s in steps :: !s.SetLicense? && !s.OtherReport?
    requires i < |Run(Start(clock, l), steps, duration).flights|
    ensures var phase := Run(Start(clock, l), steps, duration).flights[i].phase;
      phase.Answered? && phase.outcome.Issued? ==> phase.outcome.lease.expiresAt <= l.expiresAt + l.gracePeriod
  {
    hide Run, Possible;
    LeasesEndWithTerms(clock, l, steps, duration, l.expiresAt + l.gracePeriod, i);
  }

  /* ---- Under a clock that never goes back ---- */

  /** Nothing the tables or the requests carry was read later than now; and no lease given passes the
      later of its license's expiry and now, plus the grace. */
  ghost predicate InPast(w: World) {
    && (forall e | e in w.history && e.Report? :: e.at <= w.clock)
    && forall i | 0 <= i < |w.flights| ::
         && w.flights[i].now <= w.clock
         && (w.flights[i].phase.Answered? && w.flights[i].phase.outcome.Issued? ==>
               w.flights[i].phase.outcome.lease.expiresAt <= GraceEnd(w.flights[i].license, w.clock))
  }

  function GraceEnd(l: License, clock: int): int {
    (if clock < l.expiresAt then l.expiresAt else clock) + l.gracePeriod
  }

  lemma StepKeepsPast(w: World, s: Step, duration: int)
    requires Inv(w, duration) && InPast(w) && Enabled(w, s) && w.clock <= s.at
    ensures InPast(Apply(w, s, duration))
  {
    hide MatchesLicense, Decision, Row, SpendNonce, Refusal;
    if s.ReportSeats? {
      var f := w.flights[s.flight];
      StartNotAfter(w.history, w.clock);
      if Decision(f.license, f.request, Row(w.history), f.now, duration).Issued? {
        LeaseWithinGraceOfStart(f.license, f.request, Row(w.history), f.now, duration, w.clock);
      }
    }
  }

  lemma {:induction false} RunKeepsPast(w: World, steps: seq<Step>, duration: int)
    requires Inv(w, duration) && InPast(w) && DurationOk(duration)
    requires Possible(w, steps, duration) && Forward(w.clock, steps)
    ensures InPast(Run(w, steps, duration))
    ensures Run(w, steps, duration).clock == if |steps| == 0 then w.clock else steps[|steps| - 1].at
  {
    hide Inv, InPast, Enabled;
    if |steps| > 0 {
      var before, last := steps[..|steps| - 1], steps[|steps| - 1];
      RunKeepsPast(w, before, duration);
      RunKeepsInv(w, before, duration);
      StepKeepsPast(Run(w, before, duration), last, duration);
    }
  }

  /** With a clock that never goes back, however requests interleave: no lease passes the later of its
      license's expiry and the time it was answered, plus the grace. */
  lemma LeasesWithinGraceOfAnswer(clock: int, l: License, steps: seq<Step>, duration: int, i: nat)
    requires Licenses.WholeDays(l.gracePeriod) && DurationOk(duration)
    requires Possible(Start(clock, l), steps, duration) && Forward(clock, steps)
    requires var w := Run(Start(clock, l), steps, duration); InPhase(w, i, NonceSpent)
    ensures var w := Run(Start(clock, l), steps, duration);
      forall at | w.clock <= at ::
        var f := Apply(w, ReportSeats(i, at), duration).flights[i];
        f.phase.outcome.Issued? ==> f.phase.outcome.lease.expiresAt <= GraceEnd(f.license, w.clock)
  {
    hide Run, Possible, Decision, Row;
    var w0 := Start(clock, l);
    RunKeepsInv(w0, steps, duration);
    RunKeepsPast(w0, steps, duration);
    var w := Run(w0, steps, duration);
    var f := w.flights[i];
    StartNotAfter(w.history, w.clock);
    if Decision(f.license, f.request, Row(w.history), f.now, duration).Issued? {
      LeaseWithinGraceOfStart(f.license, f.request, Row(w.history), f.now, duration, w.clock);
    }
  }

  /** A request answered before any report with a later clock reading is recorded keeps within license
      expiry plus grace, in any run and with any clock. */
  lemma InOrderLeaseWithinGrace(clock: int, l: License, steps: seq<Step>, duration: int, i: nat, at: int)
    requires Licenses.WholeDays(l.gracePeriod) && DurationOk(duration) && Possible(Start(clock, l), steps, duration)
    requires InPhase(Run(Start(clock, l), steps, duration), i, NonceSpent)
    requires var w := Run(Start(clock, l), steps, duration);
      forall e | e in w.history && e.Report? :: e.at <= w.flights[i].now
    ensures var f := Apply(Run(Start(clock, l), steps, duration), ReportSeats(i, at), duration).flights[i];
      f.phase.outcome.Issued? ==> f.phase.outcome.lease.expiresAt <= f.license.expiresAt + f.license.gracePeriod
  {
    hide Run, Possible, Decision, Row;
    RunKeepsInv(Start(clock, l), steps, duration);
    var w := Run(Start(clock, l), steps, duration);
    var f := w.flights[i];
    StartNotAfter(w.history, f.now);
    if Decision(f.license, f.request, Row(w.history), f.now, duration).Issued? {
      LeaseWithinGraceIff(f.license, f.request, Row(w.history), f.now, duration);
    }
  }

  /** The exact condition for the answer about to be given, on the terms the service stores: it passes
      license expiry plus grace only with no grace at all, for a request that read the clock before the
      expiry and is over an enforced limit, when the overage in the table began after the expiry. */
  lemma AnswerWithinGraceIff(clock: int, l: License, steps: seq<Step>, duration: int, i: nat, at: int)
    requires Licenses.WholeDays(l.gracePeriod) && DurationOk(duration) && Possible(Start(clock, l), steps, duration)
    requires InPhase(Run(Start(clock, l), steps, duration), i, NonceSpent)
    ensures var w := Run(Start(clock, l), steps, duration);
      var (f, phase) := (w.flights[i], Apply(w, ReportSeats(i, at), duration).flights[i].phase);
      phase.outcome.Issued? ==>
        (phase.outcome.lease.expiresAt <= f.license.expiresAt + f.license.gracePeriod <==>
           !(&& f.license.gracePeriod == 0 && f.now < f.license.expiresAt < f.now + duration
             && f.license.enforceSeats && f.request.activeSeatCount.Some?
             && f.request.activeSeatCount.value > f.license.seatLimit && BeganAfter(Row(w.history), f.license.expiresAt)))
  {
    hide Run, Possible, Decision, Row;
    RunKeepsInv(Start(clock, l), steps, duration);
    var w := Run(Start(clock, l), steps, duration);
    var f := w.flights[i];
    if Decision(f.license, f.request, Row(w.history), f.now, duration).Issued? {
      LeaseWithinGraceIff(f.license, f.request, Row(w.history), f.now, duration);
    }
  }

  /* ---- Spent nonces ---- */

  /** The clock readings with which nonces are spent along a run. */
  predicate SpendsBy(w: World, steps: seq<Step>, duration: int, latest: int)
    requires Possible(w, steps, duration)
  {
    |steps| > 0 ==>
      var (before, last) := (steps[..|steps| - 1], steps[|steps| - 1]);
      SpendsBy(w, before, duration, latest)
      && (last.Spend? ==> Run(w, before, duration).flights[last.flight].now <= latest)
  }

  predicate NeverSpends(w: World, steps: seq<Step>, duration: int, key: NonceKey)
    requires Possible(w, steps, duration)
  {
    |steps| > 0 ==>
      var (before, last) := (steps[..|steps| - 1], steps[|steps| - 1]);
      NeverSpends(w, before, duration, key) && (last.Spend? ==> KeyOf(Run(w, before, duration).flights[last.flight]) != key)
  }

  lemma {:induction false} NonceStays(w: World, steps: seq<Step>, duration: int, key: NonceKey)
    requires Possible(w, steps, duration) && key in w.nonces && SpendsBy(w, steps, duration, w.nonces[key])
    ensures key in Run(w, steps, duration).nonces && Run(w, steps, duration).nonces[key] == w.nonces[key]
  {
    if |steps| > 0 { NonceStays(w, steps[..|steps| - 1], duration, key); }
  }

  lemma {:induction false} NonceStaysIff(w: World, steps: seq<Step>, duration: int, key: NonceKey)
    requires Possible(w, steps, duration) && key in w.nonces && NeverSpends(w, steps, duration, key)
    ensures key in Run(w, steps, duration).nonces <==> SpendsBy(w, steps, duration, w.nonces[key])
    ensures key in Run(w, steps, duration).nonces ==> Run(w, steps, duration).nonces[key] == w.nonces[key]
  {
    if |steps| > 0 { NonceStaysIff(w, steps[..|steps| - 1], duration, key); }
  }

  /** A nonce that a request spent with clock reading t is refused to every request of that deployment
      that carries it with a reading up to t plus its lifetime, whatever runs between, as long as no
      nonce is spent meanwhile with a later reading than that. */
  lemma SpentNonceRefused(w: World, i: nat, at: int, steps: seq<Step>, j: nat, duration: int)
    requires Enabled(w, Spend(i, at)) && Apply(w, Spend(i, at), duration).flights[i].phase == NonceSpent
    requires Possible(Apply(w, Spend(i, at), duration), steps, duration)
    requires SpendsBy(Apply(w, Spend(i, at), duration), steps, duration, w.flights[i].now + NONCE_TTL_MS)
    requires var v := Run(Apply(w, Spend(i, at), duration), steps, duration);
      InPhase(v, j, Checked) && KeyOf(v.flights[j]) == KeyOf(w.flights[i]) && v.flights[j].now <= w.flights[i].now + NONCE_TTL_MS
    ensures forall late: int ::
      Apply(Run(Apply(w, Spend(i, at), duration), steps, duration), Spend(j, late), duration).flights[j].phase == Answered(Refused(Replay))
  {
    var w1 := Apply(w, Spend(i, at), duration);
    assert KeyOf(w.flights[i]) in w1.nonces && w1.nonces[KeyOf(w.flights[i])] == w.flights[i].now + NONCE_TTL_MS;
    NonceStays(w1, steps, duration, KeyOf(w.flights[i]));
    hide Run, Possible, SpendsBy;
  }

  /** Between two requests with one nonce and no other, the second is let in exactly when it, or any
      nonce spent between them, carries a reading past the lifetime: a request with an earlier reading
      than one already served can be let in again. */
  lemma NonceReadmittedIff(w: World, i: nat, at: int, steps: seq<Step>, j: nat, late: int, duration: int)
    requires Enabled(w, Spend(i, at)) && Apply(w, Spend(i, at), duration).flights[i].phase == NonceSpent
    requires Possible(Apply(w, Spend(i, at), duration), steps, duration)
    requires NeverSpends(Apply(w, Spend(i, at), duration), steps, duration, KeyOf(w.flights[i]))
    requires var v := Run(Apply(w, Spend(i, at), duration), steps, duration);
      InPhase(v, j, Checked) && KeyOf(v.flights[j]) == KeyOf(w.flights[i])
    ensures var (w1, t) := (Apply(w, Spend(i, at), duration), w.flights[i].now);
      var v := Run(w1, steps, duration);
      Apply(v, Spend(j, late), duration).flights[j].phase == NonceSpent <==>
        v.flights[j].now > t + NONCE_TTL_MS || !SpendsBy(w1, steps, duration, t + NONCE_TTL_MS)
  {
    var w1 := Apply(w, Spend(i, at), duration);
    assert KeyOf(w.flights[i]) in w1.nonces && w1.nonces[KeyOf(w.flights[i])] == w.flights[i].now + NONCE_TTL_MS;
    NonceStaysIff(w1, steps, duration, KeyOf(w.flights[i]));
    hide Run, Possible, SpendsBy, NeverSpends;
  }

  /* ---- Runs that pass the bound ---- */

  lemma OneMore(w: World, steps: seq<Step>, s: Step, duration: int)
    requires Possible(w, steps, duration) && Enabled(Run(w, steps, duration), s)
    ensures Possible(w, steps + [s], duration)
    ensures Run(w, steps + [s], duration) == Apply(Run(w, steps, duration), s, duration)
  {
    hide Apply, Enabled;
    assert (steps + [s])[..|steps|] == steps;
  }

  lemma {:induction false} Onward(w: World, a: seq<Step>, b: seq<Step>, duration: int)
    requires Possible(w, a, duration) && Possible(Run(w, a, duration), b, duration)
    ensures Possible(w, a + b, duration) && Run(w, a + b, duration) == Run(Run(w, a, duration), b, duration)
  {
    hide Apply, Enabled;
    if |b| == 0 {
      assert a + b == a;
    } else {
      var before, last := b[..|b| - 1], b[|b| - 1];
      Onward(w, a, before, duration);
      assert a + b == (a + before) + [last];
      OneMore(w, a + before, last, duration);
    }
  }

  lemma Two(w: World, s: Step, t: Step, duration: int)
    requires Enabled(w, s) && Enabled(Apply(w, s, duration), t)
    ensures Possible(w, [s, t], duration) && Run(w, [s, t], duration) == Apply(Apply(w, s, duration), t, duration)
  {
    hide Apply, Enabled;
    assert Possible(w, [], duration) && Run(w, [], duration) == w;
    assert [] + [s] == [s] && [s] + [t] == [s, t];
    OneMore(w, [], s, duration);
    OneMore(w, [s], t, duration);
  }

  /** A request with a seat count under enforcement, in all else in order. */
  predicate GoodRequest(l: License, r: Request) {
    && !l.offline && l.revokedAt.None? && l.enforceSeats
    && MatchesLicense(r, l) && r.activeSeatCount.Some? && 0 <= r.activeSeatCount.value <= MAX_ACTIVE_SEATS
  }

  /** Reading the license and the clock. */
  function Arrive(w: World, r: Request, at: int): seq<Step> { [Read(r, at), Check(|w.flights|, true, true, at)] }

  lemma Arrives(w: World, l: License, r: Request, at: int, duration: int)
    requires w.license == Some(l) && GoodRequest(l, r) && at < l.expiresAt + l.gracePeriod
    ensures Possible(w, Arrive(w, r, at), duration)
    ensures Run(w, Arrive(w, r, at), duration) == w.(clock := at, flights := w.flights + [Flight(r, l, at, Checked)])
  {
    hide MatchesLicense;
    var n := |w.flights|;
    Two(w, Read(r, at), Check(n, true, true, at), duration);
    hide Run, Possible;
    assert (w.flights + [Flight(r, l, at, LicenseRead)])[n := Flight(r, l, at, Checked)] == w.flights + [Flight(r, l, at, Checked)];
  }

  /** Spending the nonce and recording the seats. */
  function Finish(i: nat, at: int): seq<Step> { [Spend(i, at), ReportSeats(i, at)] }

  lemma Finishes(w: World, i: nat, at: int, duration: int)
    requires InPhase(w, i, Checked) && GoodRequest(w.flights[i].license, w.flights[i].request)
    requires KeyOf(w.flights[i]) !in w.nonces
    ensures Possible(w, Finish(i, at), duration)
    ensures var (v, f) := (Run(w, Finish(i, at), duration), w.flights[i]);
      && v.clock == at && v.license == w.license && |v.flights| == |w.flights|
      && v.history == w.history + [Report(f.license.deploymentId, f.request.activeSeatCount.value, f.license.seatLimit,
                                          f.license.gracePeriod, true, f.now)]
      && (forall k | k in v.nonces :: k in w.nonces || k == KeyOf(f))
      && v.flights[i] == f.(phase := Answered(Decision(f.license, f.request, Row(w.history), f.now, duration)))
      && forall j | 0 <= j < |w.flights| && j != i :: v.flights[j] == w.flights[j]
  {
    hide MatchesLicense, Decision, Row;
    Two(w, Spend(i, at), ReportSeats(i, at), duration);
    hide Run, Possible;
  }

  /* ---- A resize in flight, with no grace ---- */

  /** An over-limit report after one within the limit starts an overage. */
  lemma OverageStarts(a: Event, b: Event)
    requires a.Report? && a.activeSeats <= a.seatLimit && EnforcedOver(b)
    ensures Row([a, b]).Some? && Row([a, b]).value.overageStartedAt == Some(b.at)
  {
    assert [a][..0] == [] && Row([]) == None;
    assert [a, b][..1] == [a];
  }

  lemma LateRowExceeds(l: License, r: Request, row: Option<Usage>, now: int, duration: int)
    requires GoodRequest(l, r) && r.activeSeatCount.value > l.seatLimit && DurationOk(duration)
    requires row.Some? && row.value.overageStartedAt == Some(l.expiresAt + 1)
    requires now == l.expiresAt - 1 && l.gracePeriod == 0
    ensures Decision(l, r, row, now, duration).Issued?
    ensures Decision(l, r, row, now, duration).lease.expiresAt == l.expiresAt + 1
  {
    hide MatchesLicense;
  }

  /** `c` reports seats within the limit and is served. `a`, over the limit, reads the clock a
      millisecond before the expiry. A resize lowers the limit below `c`'s seats, and a millisecond
      after the expiry records them under it. Then `a` is answered. */
  function ResizedInFlight(l: License, c: Request, a: Request, seatLimit: int): seq<Step>
    requires c.activeSeatCount.Some?
  {
    var e := l.expiresAt;
    [Read(c, e - 3), Check(0, true, true, e - 3)] + Finish(0, e - 2) + [Read(a, e - 1), Check(1, true, true, e - 1)]
    + [SetLicense(Some(Licenses.Amended(l, Licenses.Resize(seatLimit, None, None))), false, e)]
    + [OtherReport(Report(l.deploymentId, c.activeSeatCount.value, seatLimit, 0, true, e + 1), e + 1)]
    + Finish(1, e + 2)
  }

  /** Under a forward clock, with any lease duration the service takes: the request in flight gets a
      lease past the expiry of its license, which has no grace. */
  lemma ResizeExceedsGrace(l: License, c: Request, a: Request, seatLimit: int, clock: int, duration: int)
    requires GoodRequest(l, c) && GoodRequest(l, a) && a.nonce != c.nonce && DurationOk(duration)
    requires l.gracePeriod == 0 && clock < l.expiresAt - 3
    requires Licenses.Allowed(l, Licenses.Resize(seatLimit, None, None), l.expiresAt)
    requires seatLimit < c.activeSeatCount.value <= l.seatLimit < a.activeSeatCount.value
    ensures var (w, steps) := (Start(clock, l), ResizedInFlight(l, c, a, seatLimit));
      && Possible(w, steps, duration) && Forward(clock, steps)
      && var f := Run(w, steps, duration).flights[1];
         f.request == a && f.license == l && f.phase.Answered? && f.phase.outcome.Issued? && f.phase.outcome.lease.expiresAt == l.expiresAt + 1
  {
    hide MatchesLicense, Decision, Row, Run, Possible, Apply;
    var w0, e, d := Start(clock, l), l.expiresAt, duration;
    Arrives(w0, l, c, e - 3, d);
    var w1 := Run(w0, Arrive(w0, c, e - 3), d);
    Finishes(w1, 0, e - 2, d);
    var s1 := Arrive(w0, c, e - 3) + Finish(0, e - 2);
    Onward(w0, Arrive(w0, c, e - 3), Finish(0, e - 2), d);
    var w2 := Run(w0, s1, d);
    Arrives(w2, l, a, e - 1, d);
    var s2 := s1 + Arrive(w2, a, e - 1);
    Onward(w0, s1, Arrive(w2, a, e - 1), d);
    var w3 := Run(w0, s2, d);
    var resized := Licenses.Amended(l, Licenses.Resize(seatLimit, None, None));
    var seats := Report(l.deploymentId, c.activeSeatCount.value, seatLimit, 0, true, e + 1);
    Resizes(w3, resized, seats, e, d);
    OneMore(w0, s2, SetLicense(Some(resized), false, e), d);
    var s3 := s2 + [SetLicense(Some(resized), false, e)];
    OneMore(w0, s3, OtherReport(seats, e + 1), d);
    var s4 := s3 + [OtherReport(seats, e + 1)];
    var w5 := Run(w0, s4, d);
    Finishes(w5, 1, e + 2, d);
    Onward(w0, s4, Finish(1, e + 2), d);
    assert ResizedInFlight(l, c, a, seatLimit) == s4 + Finish(1, e + 2);
    var first := Report(l.deploymentId, c.activeSeatCount.value, l.seatLimit, 0, true, e - 3);
    assert w5.history == [first, seats];
    OverageStarts(first, seats);
    LateRowExceeds(l, a, Row(w5.history), e - 1, d);
    AscendingIsForward(clock, ResizedInFlight(l, c, a, seatLimit));
  }

  /** The two transactions of a resize. */
  lemma Resizes(w: World, resized: License, seats: Event, e: int, duration: int)
    requires LicenseOk(Some(resized)) && seats.Report? && seats.at == e + 1 && seats.gracePeriod == 0
    ensures var (s, t) := (SetLicense(Some(resized), false, e), OtherReport(seats, e + 1));
      && Enabled(w, s) && Enabled(Apply(w, s, duration), t)
      && Apply(w, s, duration) == w.(license := Some(resized), clock := e)
      && Apply(Apply(w, s, duration), t, duration) == w.(license := Some(resized), clock := e + 1, history := w.history + [seats])
  {
    assert w.history + [] == w.history;
  }

  lemma {:induction false} AscendingIsForward(clock: int, steps: seq<Step>)
    requires |steps| > 0 ==> clock <= steps[0].at
    requires forall i | 0 < i < |steps| :: steps[i - 1].at <= steps[i].at
    ensures Forward(clock, steps)
  {
    if |steps| > 0 { AscendingIsForward(clock, steps[..|steps| - 1]); }
  }

  /* ---- A nonce let in twice ---- */

  /** `a` is served at time t. A copy of it reads the clock at the very end of the nonce's lifetime, is
      overtaken by `b`, which reads it a millisecond later, and spends its nonce after it. */
  function Readmitting(a: Request, b: Request, t: int): seq<Step> {
    var late := t + NONCE_TTL_MS;
    [Read(a, t), Check(0, true, true, t)] + Finish(0, t)
    + [Read(a, late), Check(1, true, true, late)] + [Read(b, late + 1), Check(2, true, true, late + 1)]
    + Finish(2, late + 1) + [Spend(1, late + 1)]
  }

  /** Under a clock that only goes forward, the copy is let in although its reading is within the
      lifetime. */
  lemma EarlierReadingReadmitted(l: License, a: Request, b: Request, t: int, duration: int)
    requires GoodRequest(l, a) && GoodRequest(l, b) && a.nonce != b.nonce
    requires t + NONCE_TTL_MS + 1 < l.expiresAt + l.gracePeriod
    ensures var (w, steps) := (Start(t, l), Readmitting(a, b, t));
      && Possible(w, steps, duration) && Forward(t, steps)
      && Run(w, steps, duration).flights[1] == Flight(a, l, t + NONCE_TTL_MS, NonceSpent)
  {
    hide MatchesLicense, Decision, Row, Run, Possible, Apply;
    var w0, late, d := Start(t, l), t + NONCE_TTL_MS, duration;
    Arrives(w0, l, a, t, d);
    var w1 := Run(w0, Arrive(w0, a, t), d);
    Finishes(w1, 0, t, d);
    var s1 := Arrive(w0, a, t) + Finish(0, t);
    Onward(w0, Arrive(w0, a, t), Finish(0, t), d);
    var w2 := Run(w0, s1, d);
    Arrives(w2, l, a, late, d);
    var s2 := s1 + Arrive(w2, a, late);
    Onward(w0, s1, Arrive(w2, a, late), d);
    var w3 := Run(w0, s2, d);
    Arrives(w3, l, b, late + 1, d);
    var s3 := s2 + Arrive(w3, b, late + 1);
    Onward(w0, s2, Arrive(w3, b, late + 1), d);
    var w4 := Run(w0, s3, d);
    Finishes(w4, 2, late + 1, d);
    FinishPrunes(w1, 0, t, d);
    FinishPrunes(w4, 2, late + 1, d);
    var s4 := s3 + Finish(2, late + 1);
    Onward(w0, s3, Finish(2, late + 1), d);
    var w5 := Run(w0, s4, d);
    SpendsFresh(w5, 1, late + 1, d);
    OneMore(w0, s4, Spend(1, late + 1), d);
    assert Readmitting(a, b, t) == s4 + [Spend(1, late + 1)];
    AscendingIsForward(t, Readmitting(a, b, t));
  }

  lemma SpendsFresh(w: World, i: nat, at: int, duration: int)
    requires InPhase(w, i, Checked) && KeyOf(w.flights[i]) !in w.nonces
    ensures Enabled(w, Spend(i, at)) && Apply(w, Spend(i, at), duration).flights[i] == w.flights[i].(phase := NonceSpent)
  {
  }

  lemma FinishPrunes(w: World, i: nat, at: int, duration: int)
    requires InPhase(w, i, Checked) && KeyOf(w.flights[i]) !in w.nonces && Possible(w, Finish(i, at), duration)
    ensures Run(w, Finish(i, at), duration).nonces
         == Lapsed(w.nonces, w.flights[i].now)[KeyOf(w.flights[i]) := w.flights[i].now + NONCE_TTL_MS]
  {
    hide Decision, Row, ReportOf;
    Two(w, Spend(i, at), ReportSeats(i, at), duration);
    hide Run, Possible;
  }
}

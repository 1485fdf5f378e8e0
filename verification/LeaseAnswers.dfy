/** What a lease request is answered, read off the request, the license it read and the seat row: every
    refusal and every lease, and which checks a request in flight has passed. */
module LeaseAnswers {
  import opened Options
  import opened Seats
  import opened Lease
  import opened LeaseRuns

  /* ---- The checks before the nonce ---- */

  /** The request names this license, deployment, organization and machine, in this version, with a
      nonce of 16 to 128 letters, digits, dots, underscores, colons and hyphens. */
  ghost predicate NamesLicense(r: Request, l: License) {
    && r.version == 1 && r.licenseId == l.id && r.deploymentId == l.deploymentId
    && r.organizationId == l.organizationId && r.machineFingerprint == l.machineFingerprint
    && 16 <= |r.nonce| <= 128
    && forall i | 0 <= i < |r.nonce| ::
         || 'a' <= r.nonce[i] <= 'z' || 'A' <= r.nonce[i] <= 'Z' || '0' <= r.nonce[i] <= '9'
         || r.nonce[i] == '.' || r.nonce[i] == '_' || r.nonce[i] == ':' || r.nonce[i] == '-'
  }

  ghost predicate InForce(l: License, at: int) {
    !l.offline && l.revokedAt.None? && at < l.expiresAt + l.gracePeriod
  }

  lemma NamesIsMatch(r: Request, l: License)
    ensures NamesLicense(r, l) <==> MatchesLicense(r, l)
  {
    if IsNonce(r.nonce) {
      forall i | 0 <= i < |r.nonce| ensures NonceChar(r.nonce[i]) { assert r.nonce[i] in r.nonce; }
    }
  }

  /** A check lets a request through exactly when the license it read is online, unrevoked and within its
      grace, its token and signing key are good, and it names that license; otherwise it is answered
      with the first check it fails. */
  lemma CheckAnswers(w: World, i: nat, tokenMatches: bool, keyUsable: bool, at: int, duration: int)
    requires Enabled(w, Check(i, tokenMatches, keyUsable, at))
    ensures var (f, g) := (w.flights[i], Apply(w, Check(i, tokenMatches, keyUsable, at), duration).flights[i]);
      var (l, named) := (f.license, NamesLicense(f.request, f.license));
      && g.request == f.request && g.license == l && g.now == at
      && (g.phase == Checked <==> tokenMatches && keyUsable && named && InForce(l, at))
      && (g.phase == Answered(Refused(OfflineLicense)) <==> l.offline)
      && (g.phase == Answered(Refused(TokenInvalid)) <==> !l.offline && !tokenMatches)
      && (g.phase == Answered(Refused(BadRequest)) <==> !l.offline && tokenMatches && !named)
      && (g.phase == Answered(Refused(Revoked)) <==> !l.offline && tokenMatches && named && l.revokedAt.Some?)
      && (g.phase == Answered(Refused(LicenseExpired)) <==>
            !l.offline && tokenMatches && named && l.revokedAt.None? && at >= l.expiresAt + l.gracePeriod)
      && (g.phase == Answered(Refused(SigningKeyUnusable)) <==> tokenMatches && !keyUsable && named && InForce(l, at))
  {
    NamesIsMatch(w.flights[i].request, w.flights[i].license);
    hide MatchesLicense, NamesLicense;
  }

  /* ---- Through whole runs ---- */

  predicate PastChecks(f: Flight) { f.phase == Checked || f.phase == NonceSpent || (f.phase.Answered? && Answerable(f.phase.outcome)) }

  /** The answers only a request that has spent its nonce, or found it spent, can get. */
  predicate Answerable(o: Outcome) {
    o.Issued? || o.error in {Replay, SeatCountRequired, SeatCountInvalid, SeatsBlocked}
  }

  predicate PastNonce(f: Flight) {
    f.phase == NonceSpent || (f.phase.Answered? && (f.phase.outcome.Issued? || f.phase.outcome.error in {SeatCountRequired, SeatCountInvalid, SeatsBlocked}))
  }

  /** Step `k` of the run read the license the flight carries. */
  ghost predicate ReadAt(w0: World, steps: seq<Step>, duration: int, f: Flight, k: nat)
    requires Possible(w0, steps, duration)
  {
    && k < |steps| && steps[k].Read? && steps[k].request == f.request
    && Possible(w0, steps[..k], duration) && Run(w0, steps[..k], duration).license == Some(f.license)
  }

  /** Step `k` of the run let the flight through with its clock reading. */
  ghost predicate LetThroughAt(steps: seq<Step>, i: nat, f: Flight, k: nat) {
    k < |steps| && steps[k] == Check(i, true, true, f.now) && NamesLicense(f.request, f.license) && InForce(f.license, f.now)
  }

  ghost predicate SpentAt(steps: seq<Step>, i: nat, k: nat) { k < |steps| && steps[k].Spend? && steps[k].flight == i }

  ghost predicate WellFounded(w0: World, steps: seq<Step>, duration: int, f: Flight, i: nat)
    requires Possible(w0, steps, duration)
  {
    && (exists k :: ReadAt(w0, steps, duration, f, k))
    && (PastChecks(f) ==> exists k :: LetThroughAt(steps, i, f, k))
    && (PastNonce(f) ==> exists k :: SpentAt(steps, i, k))
  }

  lemma StaysFounded(w0: World, steps: seq<Step>, duration: int, f: Flight, i: nat)
    requires |steps| > 0 && Possible(w0, steps, duration) && WellFounded(w0, steps[..|steps| - 1], duration, f, i)
    ensures WellFounded(w0, steps, duration, f, i)
  {
    var before := steps[..|steps| - 1];
    assert Possible(w0, before, duration);
    hide Run, Possible, NamesLicense, InForce;
    var k: nat :| ReadAt(w0, before, duration, f, k);
    assert steps[..k] == before[..k];
    assert ReadAt(w0, steps, duration, f, k);
    if PastChecks(f) {
      var m :| LetThroughAt(before, i, f, m);
      assert LetThroughAt(steps, i, f, m);
    }
    if PastNonce(f) {
      var n :| SpentAt(before, i, n);
      assert SpentAt(steps, i, n);
    }
  }

  /** What one step makes of a flight. */
  lemma StepMovesFlight(w: World, s: Step, duration: int, i: nat)
    requires Enabled(w, s) && i < |Apply(w, s, duration).flights|
    ensures var g := Apply(w, s, duration).flights[i];
      && (i < |w.flights| ==> g.request == w.flights[i].request && g.license == w.flights[i].license)
      && (i < |w.flights| && g != w.flights[i] ==> (s.Check? || s.Spend? || s.ReportSeats?) && s.flight == i)
      && (i < |w.flights| && s.Spend? && s.flight == i ==> PastChecks(g) && g.now == w.flights[i].now)
      && (i < |w.flights| && s.ReportSeats? && s.flight == i ==> g.now == w.flights[i].now)
      && (i >= |w.flights| ==> s.Read? && g.request == s.request && w.license == Some(g.license) && g.phase == LicenseRead)
  {
    hide MatchesLicense, Decision, Row, SpendNonce, Refusal, ReportOf;
  }

  lemma StepFounds(w0: World, steps: seq<Step>, duration: int, i: nat)
    requires |steps| > 0 && Possible(w0, steps, duration) && i < |Run(w0, steps, duration).flights|
    requires i < |Run(w0, steps[..|steps| - 1], duration).flights| ==>
      WellFounded(w0, steps[..|steps| - 1], duration, Run(w0, steps[..|steps| - 1], duration).flights[i], i)
    ensures WellFounded(w0, steps, duration, Run(w0, steps, duration).flights[i], i)
  {
    var before, s := steps[..|steps| - 1], steps[|steps| - 1];
    var w := Run(w0, before, duration);
    var g := Run(w0, steps, duration).flights[i];
    StepMovesFlight(w, s, duration, i);
    hide Decision, Row, SpendNonce, Refusal, ReportOf, NamesLicense, InForce, MatchesLicense;
    if i >= |w.flights| {
      assert ReadAt(w0, steps, duration, g, |before|);
    } else {
      var f := w.flights[i];
      StaysFounded(w0, steps, duration, f, i);
      if g != f {
        if s.Check? {
          CheckAnswers(w, i, s.tokenMatches, s.keyUsable, s.at, duration);
          var k :| ReadAt(w0, steps, duration, f, k);
          assert ReadAt(w0, steps, duration, g, k);
          CheckNeverAnswers(w, s, duration);
          if g.phase == Checked { assert LetThroughAt(steps, i, g, |before|); }
        } else {
          Carried(w0, steps, duration, f, g, i);
        }
      }
    }
  }

  lemma CheckNeverAnswers(w: World, s: Step, duration: int)
    requires s.Check? && Enabled(w, s)
    ensures var g := Apply(w, s, duration).flights[s.flight]; !PastNonce(g) && (PastChecks(g) <==> g.phase == Checked)
  {
    hide MatchesLicense;
  }

  /** Spending the nonce and answering need the phase before, and keep request, license and reading. */
  lemma Carried(w0: World, steps: seq<Step>, duration: int, f: Flight, g: Flight, i: nat)
    requires |steps| > 0 && Possible(w0, steps, duration) && WellFounded(w0, steps, duration, f, i)
    requires g.request == f.request && g.license == f.license && g.now == f.now
    requires steps[|steps| - 1].Spend? || steps[|steps| - 1].ReportSeats?
    requires steps[|steps| - 1].flight == i && f.phase == if steps[|steps| - 1].Spend? then Checked else NonceSpent
    ensures WellFounded(w0, steps, duration, g, i)
  {
    hide Run, Possible, NamesLicense, InForce;
    var k :| ReadAt(w0, steps, duration, f, k);
    assert ReadAt(w0, steps, duration, g, k);
    var m :| LetThroughAt(steps, i, f, m);
    assert LetThroughAt(steps, i, g, m);
    if steps[|steps| - 1].Spend? {
      assert SpentAt(steps, i, |steps| - 1);
    } else {
      var n :| SpentAt(steps, i, n);
      assert SpentAt(steps, i, n);
    }
  }

  /** In every run each request carries a license that was in force when it was read; one that is past
      the checks was let through with a good token and a usable key while that license was online,
      unrevoked and within its grace; and one that is past its nonce, as every holder of a lease is,
      has spent it. */
  lemma {:induction false} OnlyCheckedGetLeases(clock: int, l: License, steps: seq<Step>, duration: int, i: nat)
    requires Possible(Start(clock, l), steps, duration) && i < |Run(Start(clock, l), steps, duration).flights|
    ensures WellFounded(Start(clock, l), steps, duration, Run(Start(clock, l), steps, duration).flights[i], i)
  {
    hide Apply, Enabled, WellFounded;
    if |steps| > 0 {
      var before := steps[..|steps| - 1];
      if i < |Run(Start(clock, l), before, duration).flights| { OnlyCheckedGetLeases(clock, l, before, duration, i); }
      StepFounds(Start(clock, l), steps, duration, i);
    }
  }

  /* ---- The nonce ---- */

  lemma {:induction false} UnspentIsFree(w: World, steps: seq<Step>, duration: int, key: NonceKey)
    requires Possible(w, steps, duration) && key !in w.nonces && NeverSpends(w, steps, duration, key)
    ensures key !in Run(w, steps, duration).nonces
  {
    if |steps| > 0 { UnspentIsFree(w, steps[..|steps| - 1], duration, key); }
  }

  /** A request past the checks goes on if no request of its deployment has tried its nonce before. */
  lemma NewNonceAccepted(clock: int, l: License, steps: seq<Step>, duration: int, i: nat, at: int)
    requires Possible(Start(clock, l), steps, duration) && InPhase(Run(Start(clock, l), steps, duration), i, Checked)
    requires var f := Run(Start(clock, l), steps, duration).flights[i];
      NeverSpends(Start(clock, l), steps, duration, (f.license.deploymentId, f.request.nonce))
    ensures Apply(Run(Start(clock, l), steps, duration), Spend(i, at), duration).flights[i].phase == NonceSpent
  {
    var f := Run(Start(clock, l), steps, duration).flights[i];
    UnspentIsFree(Start(clock, l), steps, duration, (f.license.deploymentId, f.request.nonce));
    hide Run, Possible, NeverSpends;
  }

  /* ---- The answer ---- */

  predicate CountGiven(r: Request) { r.activeSeatCount.Some? && 0 <= r.activeSeatCount.value <= 10_000_000 }

  /** The request is over a limit that is enforced. */
  predicate OverEnforced(l: License, r: Request) {
    CountGiven(r) && l.enforceSeats && r.activeSeatCount.value > l.seatLimit
  }

  /** When the overage it is over by began: when the row says, or now. */
  function OverSince(row: Option<Usage>, now: int): int {
    if row.Some? && row.value.overageStartedAt.Some? then row.value.overageStartedAt.value else now
  }

  /** The ends of the graces a request runs under. */
  ghost function Graces(l: License, r: Request, row: Option<Usage>, now: int): set<int> {
    (if now >= l.expiresAt then {l.expiresAt + l.gracePeriod} else {})
    + (if OverEnforced(l, r) then {OverSince(row, now) + l.gracePeriod} else {})
  }

  ghost predicate IsEarliest(t: int, ts: set<int>) { t in ts && forall x | x in ts :: t <= x }

  /** A request that spent its nonce gets a lease exactly when it gives the seat count it has to, a count
      the service takes, and is not over an enforced limit for the whole grace. The lease ends at the
      earliest of its duration and the graces it runs under, or at the license's expiry under none. */
  lemma DecisionAnswers(l: License, r: Request, row: Option<Usage>, now: int, duration: int)
    ensures var answer := Decision(l, r, row, now, duration);
      && (answer == Refused(SeatCountRequired) <==> r.activeSeatCount.None? && l.enforceSeats)
      && (answer == Refused(SeatCountInvalid) <==> r.activeSeatCount.Some? && !CountGiven(r))
      && (answer == Refused(SeatsBlocked) <==> OverEnforced(l, r) && now >= OverSince(row, now) + l.gracePeriod)
      && (answer.Issued? <==>
            && (r.activeSeatCount.None? ==> !l.enforceSeats) && (r.activeSeatCount.Some? ==> CountGiven(r))
            && (OverEnforced(l, r) ==> now < OverSince(row, now) + l.gracePeriod))
      && (answer.Issued? ==>
            && (answer.lease.graceExpiresAt.None? <==> Graces(l, r, row, now) == {})
            && (answer.lease.graceExpiresAt.Some? ==> IsEarliest(answer.lease.graceExpiresAt.value, Graces(l, r, row, now)))
            && IsEarliest(answer.lease.expiresAt,
                          {now + duration} + if Graces(l, r, row, now) == {} then {l.expiresAt} else Graces(l, r, row, now)))
  {
  }

  /** What the answer leaves in the seat table: a report exactly when a good count was given, blocked or not. */
  lemma AnswerReports(w: World, i: nat, at: int, duration: int)
    requires Enabled(w, ReportSeats(i, at))
    ensures var (f, v) := (w.flights[i], Apply(w, ReportSeats(i, at), duration));
      && v.flights[i] == f.(phase := Answered(Decision(f.license, f.request, Row(w.history), f.now, duration)))
      && v.history == w.history + (if CountGiven(f.request)
           then [Report(f.license.deploymentId, f.request.activeSeatCount.value, f.license.seatLimit, f.license.gracePeriod, f.license.enforceSeats, f.now)]
           else [])
      && v.nonces == w.nonces && v.license == w.license
  {
    hide Decision, Row;
  }
}

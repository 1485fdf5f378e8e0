/** The license service's store and its lease endpoint, transaction by transaction. */
module LeaseService {
  import opened Options
  import Licenses
  import opened Seats
  import opened Lease
  import opened LeaseRuns

  /** `Stale` is answered as a concurrent change, `BindingTaken` as a conflict with another binding. */
  datatype Written = Stored | Stale | BindingTaken

  class Licensing {
    const leaseDurationMs: int
    var clock: int
    var license: Option<License>
    var machines: Licenses.Machines
    var usage: Option<Usage>
    var nonces: map<NonceKey, int>
    var flights: seq<Flight>
    ghost var history: seq<Event>

    ghost predicate Valid()
      reads this
    {
      usage == Row(history) && MIN_LEASE_MS <= leaseDurationMs <= MAX_LEASE_MS
    }

    ghost function State(): World
      reads this
    {
      World.World(clock, license, history, nonces, flights)
    }

    constructor (license: License, clock: int, leaseDurationMs: int)
      requires MIN_LEASE_MS <= leaseDurationMs <= MAX_LEASE_MS
      ensures Valid() && State() == Start(clock, license) && this.leaseDurationMs == leaseDurationMs
    {
      this.leaseDurationMs, this.clock := leaseDurationMs, clock;
      this.license, usage, nonces, flights, machines, history := Some(license), None, map[], [], map[], [];
    }

    /** Drops expired nonces, then inserts this one unless it is still there. */
    method ConsumeLeaseNonce(key: NonceKey, now: int, expiresAt: int) returns (accepted: bool)
      modifies this`nonces
      ensures accepted <==> !(key in old(nonces) && old(nonces)[key] >= now)
      ensures forall k :: k in nonces <==> (k in old(nonces) && old(nonces)[k] >= now) || k == key
      ensures forall k | k in nonces :: nonces[k] == if accepted && k == key then expiresAt else old(nonces)[k]
    {
      nonces := map k | k in nonces && nonces[k] >= now :: nonces[k];
      accepted := key !in nonces;
      if accepted { nonces := nonces[key := expiresAt]; }
    }

    /** One stored report: the incremental overage start, grace and status. */
    method RecordLicenseSeatUsage(deployment: string, activeSeats: int, seatLimit: int, gracePeriod: int, enforce: bool, at: int)
      returns (row: Usage)
      requires Valid()
      modifies this`usage, this`history
      ensures Valid() && usage == Some(row)
      ensures history == old(history) + [Report(deployment, activeSeats, seatLimit, gracePeriod, enforce, at)]
      ensures row == Recorded(old(usage), Report(deployment, activeSeats, seatLimit, gracePeriod, enforce, at))
    {
      var overLimit := activeSeats > seatLimit;
      var started: Option<int> := None;
      if overLimit && enforce {
        started := if usage.Some? && usage.value.overageStartedAt.Some? then usage.value.overageStartedAt else Some(at);
      }
      var graceExpires: Option<int> := None;
      if started.Some? { graceExpires := Some(started.value + gracePeriod); }
      var status;
      if !overLimit { status := WithinLimit; }
      else if !enforce { status := OverLimitMonitor; }
      else if at >= graceExpires.value { status := Blocked; }
      else { status := OverageGrace; }
      row := Usage(deployment, activeSeats, seatLimit, status, started, graceExpires, at);
      usage := Some(row);
      history := history + [Report(deployment, activeSeats, seatLimit, gracePeriod, enforce, at)];
      assert history[..|history| - 1] == old(history);
    }

    /** A license change that commits: revision and, for a transfer, machine as they were read, and the
        new machine in no other deployment of the organization; otherwise everything is rolled back. A
        transfer or a rebinding deletes the usage row with it. */
    method UpdateLicense(read: License, change: Licenses.Change) returns (written: Written)
      requires Valid()
      modifies this`license, this`machines, this`usage, this`history
      ensures Valid()
      ensures var (current, d) := (old(license).Some? && old(license).value.revision == read.revision, Licenses.Draft(read, change));
        written == if !current || !Licenses.Bound(old(machines), d) then Stale
                   else if !Licenses.Vacant(old(machines), d) then BindingTaken else Stored
      ensures license == if written == Stored then Some(Licenses.Amended(read, change)) else old(license)
      ensures machines == if written == Stored then Licenses.Rebound(old(machines), Licenses.Draft(read, change)) else old(machines)
      ensures history == old(history) + if written == Stored && Licenses.ResetsSeats(change) then [Event.Reset] else []
    {
      hide Licenses.Amended;
      if license.None? || license.value.revision != read.revision { return Stale; }
      if change.TransferMachine? {
        var id := read.deploymentId;
        if id !in machines || machines[id].fingerprint != read.machineFingerprint { return Stale; }
        var moved := machines[id].(fingerprint := change.machineFingerprint);
        if !Licenses.Free(machines, id, moved) { return BindingTaken; }
        machines := machines[id := moved];
      }
      license := Some(Licenses.Amended(read, change));
      if change.TransferMachine? || change.Rebind? {
        usage, history := None, history + [Event.Reset];
        assert history[..|history| - 1] == old(history);
      }
      written := Stored;
    }

    method ReadLicense(r: Request, at: int) returns (flight: Option<nat>)
      requires Valid()
      modifies this`clock, this`flights
      ensures Valid() && State() == Apply(old(State()), Read(r, at), leaseDurationMs)
      ensures flight.Some? <==> license.Some?
      ensures flight.Some? ==> flight.value == |old(flights)| && InPhase(State(), flight.value, LicenseRead)
    {
      clock := at;
      if license.None? { return None; }
      flight := Some(|flights|);
      flights := flights + [Flight(r, license.value, at, LicenseRead)];
    }

    /** Every check up to the signing key's, in the order the endpoint makes them. */
    method CheckRequest(i: nat, tokenMatches: bool, keyUsable: bool, at: int) returns (refusal: Option<Error>)
      requires Valid() && InPhase(State(), i, LicenseRead)
      modifies this`clock, this`flights
      ensures Valid() && State() == Apply(old(State()), Check(i, tokenMatches, keyUsable, at), leaseDurationMs)
      ensures refusal == Refusal(Some(flights[i].license), flights[i].request, tokenMatches, keyUsable, at)
    {
      hide MatchesLicense;
      var f := flights[i];
      var l := f.license;
      clock := at;
      if l.offline { refusal := Some(OfflineLicense); }
      else if !tokenMatches { refusal := Some(TokenInvalid); }
      else if !MatchesLicense(f.request, l) { refusal := Some(BadRequest); }
      else if l.revokedAt.Some? { refusal := Some(Revoked); }
      else if at >= l.expiresAt + l.gracePeriod { refusal := Some(LicenseExpired); }
      else if !keyUsable { refusal := Some(SigningKeyUnusable); }
      else { refusal := None; }
      flights := flights[i := f.(now := at, phase := if refusal.Some? then Answered(Refused(refusal.value)) else Checked)];
    }

    method SpendRequestNonce(i: nat, at: int) returns (accepted: bool)
      requires Valid() && InPhase(State(), i, Checked)
      modifies this`clock, this`flights, this`nonces
      ensures Valid() && State() == Apply(old(State()), Spend(i, at), leaseDurationMs)
      ensures accepted <==> InPhase(State(), i, NonceSpent)
      ensures !accepted ==> InPhase(State(), i, Answered(Refused(Replay)))
    {
      var f := flights[i];
      accepted := ConsumeLeaseNonce(KeyOf(f), f.now, f.now + NONCE_TTL_MS);
      assert nonces == SpendNonce(old(nonces), KeyOf(f), f.now).0;
      clock := at;
      flights := flights[i := f.(phase := if accepted then NonceSpent else Answered(Refused(Replay)))];
    }

    /** Records the seats, if any were reported, and answers; a blocked report is recorded all the same. */
    method RecordAndAnswer(i: nat, at: int) returns (outcome: Outcome)
      requires Valid() && InPhase(State(), i, NonceSpent)
      modifies this`clock, this`flights, this`usage, this`history
      ensures Valid() && State() == Apply(old(State()), ReportSeats(i, at), leaseDurationMs)
      ensures flights[i].phase == Answered(outcome)
    {
      hide Composed, Recorded, MatchesLicense;
      var f := flights[i];
      var l, r := f.license, f.request;
      clock := at;
      var row: Option<Usage> := None;
      if r.activeSeatCount.None? {
        if l.enforceSeats { outcome := Refused(SeatCountRequired); }
        else {
          var lease := ComposeLease(l, r, None, f.now, leaseDurationMs);
          outcome := Issued(lease);
        }
      } else {
        var n := r.activeSeatCount.value;
        if !(0 <= n <= MAX_ACTIVE_SEATS) { outcome := Refused(SeatCountInvalid); }
        else {
          var recorded := RecordLicenseSeatUsage(l.deploymentId, n, l.seatLimit, l.gracePeriod, l.enforceSeats, f.now);
          if recorded.status == Blocked { outcome := Refused(SeatsBlocked); }
          else {
            var lease := ComposeLease(l, r, Some(recorded), f.now, leaseDurationMs);
            outcome := Issued(lease);
          }
        }
      }
      flights := flights[i := f.(phase := Answered(outcome))];
    }

    /** One step of any other request or administrator. */
    method Execute(s: Step)
      requires Valid() && Enabled(State(), s)
      modifies this
      ensures Valid() && State() == Apply(old(State()), s, leaseDurationMs)
    {
      match s
      case Read(r, at) => var _ := ReadLicense(r, at);
      case Check(i, tokenMatches, keyUsable, at) => var _ := CheckRequest(i, tokenMatches, keyUsable, at);
      case Spend(i, at) => var _ := SpendRequestNonce(i, at);
      case ReportSeats(i, at) => var _ := RecordAndAnswer(i, at);
      case OtherReport(e, at) =>
        var _ := RecordLicenseSeatUsage(e.deployment, e.activeSeats, e.seatLimit, e.gracePeriod, e.enforce, e.at);
        clock := at;
      case SetLicense(next, resets, at) =>
        license, clock := next, at;
        if resets {
          usage, history := None, history + [Event.Reset];
          assert history[..|history| - 1] == old(history);
        }
    }
  }

  predicate Touches(s: Step, i: nat) {
    (s.Check? || s.Spend? || s.ReportSeats?) && s.flight == i
  }

  /** The object has got from `begin` by the steps of `trace`. */
  ghost predicate Traced(o: Licensing, begin: World, trace: seq<Step>)
    reads o
  {
    o.Valid() && Possible(begin, trace, o.leaseDurationMs) && o.State() == Run(begin, trace, o.leaseDurationMs)
  }

  lemma StepKeepsFlight(w: World, s: Step, duration: int, i: nat)
    requires Enabled(w, s) && i < |w.flights| && !Touches(s, i)
    ensures i < |Apply(w, s, duration).flights| && Apply(w, s, duration).flights[i] == w.flights[i]
  {
    hide Refusal, Decision, Row, SpendNonce, ReportOf;
  }

  /** What others commit while a request is in flight, each step if it is possible when its turn comes. */
  method Interfere(o: Licensing, steps: seq<Step>, i: nat, ghost begin: World, ghost trace: seq<Step>) returns (ghost longer: seq<Step>)
    requires Traced(o, begin, trace) && i < |o.flights|
    modifies o
    ensures Traced(o, begin, longer) && i < |o.flights| && o.flights[i] == old(o.flights)[i]
  {
    hide Apply, Enabled;
    longer := trace;
    for n := 0 to |steps|
      invariant Traced(o, begin, longer) && i < |o.flights| && o.flights[i] == old(o.flights)[i]
    {
      if CanStep(o, steps[n]) && !Touches(steps[n], i) {
        PossibleIsEnabled(o, steps[n]);
        OneMore(begin, longer, steps[n], o.leaseDurationMs);
        StepKeepsFlight(o.State(), steps[n], o.leaseDurationMs, i);
        o.Execute(steps[n]);
        longer := longer + [steps[n]];
      }
    }
  }

  /** `Enabled`, on the object's own fields. */
  predicate CanStep(o: Licensing, s: Step)
    reads o
  {
    match s
    case Read(_, _) => true
    case Check(i, _, _, _) => i < |o.flights| && o.flights[i].phase == LicenseRead
    case Spend(i, _) => i < |o.flights| && o.flights[i].phase == Checked
    case ReportSeats(i, _) => i < |o.flights| && o.flights[i].phase == NonceSpent
    case OtherReport(event, at) => event.Report? && event.at <= at && Licenses.WholeDays(event.gracePeriod)
    case SetLicense(license, _, _) => LicenseOk(license)
  }

  lemma PossibleIsEnabled(o: Licensing, s: Step)
    ensures CanStep(o, s) <==> Enabled(o.State(), s)
  {
  }

  /** The same license and request, wherever the flight stands. */
  predicate SameFlight(f: Flight, g: Flight) { f.request == g.request && f.license == g.license }

  method CheckStep(o: Licensing, i: nat, tokenMatches: bool, keyUsable: bool, at: int, ghost begin: World, ghost trace: seq<Step>)
    returns (refusal: Option<Error>, ghost longer: seq<Step>)
    requires Traced(o, begin, trace) && i < |o.flights| && o.flights[i].phase == LicenseRead
    modifies o
    ensures Traced(o, begin, longer) && i < |o.flights| && SameFlight(o.flights[i], old(o.flights)[i])
    ensures o.flights[i].phase == if refusal.Some? then Answered(Refused(refusal.value)) else Checked
    ensures refusal == Refusal(Some(o.flights[i].license), o.flights[i].request, tokenMatches, keyUsable, at)
  {
    hide Apply, Enabled, Refusal;
    PhaseEnables(o.State(), i);
    OneMore(begin, trace, Check(i, tokenMatches, keyUsable, at), o.leaseDurationMs);
    CheckKeeps(o.State(), i, tokenMatches, keyUsable, at, o.leaseDurationMs);
    refusal := o.CheckRequest(i, tokenMatches, keyUsable, at);
    longer := trace + [Check(i, tokenMatches, keyUsable, at)];
  }

  method SpendStep(o: Licensing, i: nat, at: int, ghost begin: World, ghost trace: seq<Step>) returns (accepted: bool, ghost longer: seq<Step>)
    requires Traced(o, begin, trace) && i < |o.flights| && o.flights[i].phase == Checked
    modifies o
    ensures Traced(o, begin, longer) && i < |o.flights| && SameFlight(o.flights[i], old(o.flights)[i])
    ensures o.flights[i].phase == if accepted then NonceSpent else Answered(Refused(Replay))
  {
    hide Apply, Enabled;
    PhaseEnables(o.State(), i);
    OneMore(begin, trace, Spend(i, at), o.leaseDurationMs);
    SpendKeeps(o.State(), i, at, o.leaseDurationMs);
    accepted := o.SpendRequestNonce(i, at);
    longer := trace + [Spend(i, at)];
  }

  method AnswerStep(o: Licensing, i: nat, at: int, ghost begin: World, ghost trace: seq<Step>) returns (outcome: Outcome, ghost longer: seq<Step>)
    requires Traced(o, begin, trace) && i < |o.flights| && o.flights[i].phase == NonceSpent
    modifies o
    ensures Traced(o, begin, longer) && i < |o.flights| && SameFlight(o.flights[i], old(o.flights)[i])
    ensures o.flights[i].phase == Answered(outcome)
  {
    hide Apply, Enabled;
    PhaseEnables(o.State(), i);
    OneMore(begin, trace, ReportSeats(i, at), o.leaseDurationMs);
    ReportKeeps(o.State(), i, at, o.leaseDurationMs);
    outcome := o.RecordAndAnswer(i, at);
    longer := trace + [ReportSeats(i, at)];
  }

  method ReadStep(o: Licensing, r: Request, at: int, ghost begin: World, ghost trace: seq<Step>) returns (i: Option<nat>, ghost longer: seq<Step>)
    requires Traced(o, begin, trace)
    modifies o
    ensures Traced(o, begin, longer)
    ensures i.None? <==> old(o.license).None?
    ensures i.Some? ==> i.value < |o.flights| && o.flights[i.value].request == r
                        && Some(o.flights[i.value].license) == old(o.license) && o.flights[i.value].phase == LicenseRead
  {
    hide Apply, Enabled;
    ReadEnabled(o.State(), r, at);
    OneMore(begin, trace, Read(r, at), o.leaseDurationMs);
    if o.license.Some? { ReadGives(o.State(), r, at, o.leaseDurationMs); }
    i := o.ReadLicense(r, at);
    longer := trace + [Read(r, at)];
  }

  /** The endpoint, with other requests' transactions between each two of its own: a run of the
      protocol in which its request is answered with what the endpoint returns. `times` are the clock
      readings and `others` the interruptions. */
  method IssueLease(o: Licensing, r: Request, tokenMatches: bool, keyUsable: bool, times: (int, int, int, int),
                    others: (seq<Step>, seq<Step>, seq<Step>))
    returns (outcome: Outcome, ghost trace: seq<Step>, flight: Option<nat>)
    requires o.Valid()
    modifies o
    ensures Traced(o, old(o.State()), trace)
    ensures flight.None? ==> outcome == Refused(NotFound) && old(o.license).None?
    ensures flight.Some? ==>
      flight.value < |o.flights| && o.flights[flight.value].phase == Answered(outcome) && o.flights[flight.value].request == r
      && Some(o.flights[flight.value].license) == old(o.license)
  {
    hide Apply, Enabled, Refusal;
    ghost var begin := o.State();
    trace := [];
    assert Traced(o, begin, trace);
    hide Traced;
    flight, trace := ReadStep(o, r, times.0, begin, trace);
    if flight.None? { return Refused(NotFound), trace, flight; }
    var own := flight.value;
    trace := Interfere(o, others.0, own, begin, trace);
    var refusal;
    refusal, trace := CheckStep(o, own, tokenMatches, keyUsable, times.1, begin, trace);
    if refusal.Some? { return Refused(refusal.value), trace, flight; }
    trace := Interfere(o, others.1, own, begin, trace);
    var accepted;
    accepted, trace := SpendStep(o, own, times.2, begin, trace);
    if !accepted { return Refused(Replay), trace, flight; }
    trace := Interfere(o, others.2, own, begin, trace);
    outcome, trace := AnswerStep(o, own, times.3, begin, trace);
  }

  lemma ReadEnabled(w: World, r: Request, at: int)
    ensures Enabled(w, Read(r, at))
  {
  }

  lemma ReadGives(w: World, r: Request, at: int, duration: int)
    requires w.license.Some?
    ensures Enabled(w, Read(r, at))
    ensures Apply(w, Read(r, at), duration).flights == w.flights + [Flight(r, w.license.value, at, LicenseRead)]
  {
  }

  lemma PhaseEnables(w: World, i: nat)
    ensures InPhase(w, i, LicenseRead) ==> forall t, k, at :: Enabled(w, Check(i, t, k, at))
    ensures InPhase(w, i, Checked) ==> forall at :: Enabled(w, Spend(i, at))
    ensures InPhase(w, i, NonceSpent) ==> forall at :: Enabled(w, ReportSeats(i, at))
  {
  }

  lemma CheckKeeps(w: World, i: nat, tokenMatches: bool, keyUsable: bool, at: int, duration: int)
    requires Enabled(w, Check(i, tokenMatches, keyUsable, at))
    ensures |Apply(w, Check(i, tokenMatches, keyUsable, at), duration).flights| == |w.flights|
    ensures var (f, g) := (w.flights[i], Apply(w, Check(i, tokenMatches, keyUsable, at), duration).flights[i]);
      && g.request == f.request && g.license == f.license
      && var refusal := Refusal(Some(f.license), f.request, tokenMatches, keyUsable, at);
         g.phase == if refusal.Some? then Answered(Refused(refusal.value)) else Checked
  {
    hide Refusal;
  }

  lemma SpendKeeps(w: World, i: nat, at: int, duration: int)
    requires Enabled(w, Spend(i, at))
    ensures var (f, g) := (w.flights[i], Apply(w, Spend(i, at), duration).flights[i]);
      g.request == f.request && g.license == f.license && (g.phase == NonceSpent || g.phase == Answered(Refused(Replay)))
  {
    hide SpendNonce;
  }

  lemma ReportKeeps(w: World, i: nat, at: int, duration: int)
    requires Enabled(w, ReportSeats(i, at))
    ensures |Apply(w, ReportSeats(i, at), duration).flights| == |w.flights|
    ensures var (f, g) := (w.flights[i], Apply(w, ReportSeats(i, at), duration).flights[i]);
      g.request == f.request && g.license == f.license
  {
    hide Decision, Row, ReportOf;
  }
}

/** What one online lease request is answered: the checks, the deadlines, the lease. */
module Lease {
  import opened Options
  import opened Licenses
  import opened Seats

  const MIN_LEASE_MS: int := 120_000
  const MAX_LEASE_MS: int := 86_400_000
  const NONCE_TTL_MS: int := 1_200_000
  const MAX_ACTIVE_SEATS: int := 10_000_000

  datatype Request = Request(version: int, licenseId: string, deploymentId: string, organizationId: string,
                             machineFingerprint: string, nonce: string, activeSeatCount: Option<int>)

  datatype GraceReason = Expiration | SeatOverage

  /** `status` is none for a request that reports no seats. */
  datatype Lease = Lease(licenseId: string, deploymentId: string, machineFingerprint: string, revision: nat,
                         issuedAt: int, expiresAt: int, seatLimit: int, activeSeats: Option<int>,
                         status: Option<Status>, graceReasons: seq<GraceReason>, graceExpiresAt: Option<int>)

  datatype Error =
    | NotFound | OfflineLicense | TokenInvalid | BadRequest | Revoked | LicenseExpired | SigningKeyUnusable
    | Replay | SeatCountRequired | SeatCountInvalid | SeatsBlocked

  datatype Outcome = Issued(lease: Lease) | Refused(error: Error)

  predicate NonceChar(c: char) {
    'a' <= c <= 'z' || 'A' <= c <= 'Z' || '0' <= c <= '9' || c in "._:-"
  }

  predicate IsNonce(s: string) { 16 <= |s| <= 128 && forall c | c in s :: NonceChar(c) }

  predicate MatchesLicense(r: Request, l: License) {
    && r.version == 1 && r.licenseId == l.id && r.deploymentId == l.deploymentId
    && r.organizationId == l.organizationId && r.machineFingerprint == l.machineFingerprint && IsNonce(r.nonce)
  }

  /** Everything checked before the nonce is spent. */
  function Refusal(l: Option<License>, r: Request, tokenMatches: bool, keyUsable: bool, now: int): Option<Error> {
    if l.None? then Some(NotFound)
    else if l.value.offline then Some(OfflineLicense)
    else if !tokenMatches then Some(TokenInvalid)
    else if !MatchesLicense(r, l.value) then Some(BadRequest)
    else if l.value.revokedAt.Some? then Some(Revoked)
    else if now >= l.value.expiresAt + l.value.gracePeriod then Some(LicenseExpired)
    else if !keyUsable then Some(SigningKeyUnusable)
    else None
  }

  /** The report a lease request makes, if it makes one. */
  function SeatReport(l: License, r: Request, now: int): Option<Event> {
    match r.activeSeatCount
    case None => None
    case Some(n) =>
      if 0 <= n <= MAX_ACTIVE_SEATS
      then Some(Report(l.deploymentId, n, l.seatLimit, l.gracePeriod, l.enforceSeats, now)) else None
  }

  predicate SeatCountRefused(l: License, r: Request) {
    match r.activeSeatCount
    case None => l.enforceSeats
    case Some(n) => !(0 <= n <= MAX_ACTIVE_SEATS)
  }

  /** The earliest of a license's running grace deadlines. */
  function Deadline(l: License, usage: Option<Usage>, now: int): Option<int> {
    var expiration := if now >= l.expiresAt then Some(l.expiresAt + l.gracePeriod) else None;
    var seats := if usage.Some? && usage.value.status == OverageGrace then usage.value.graceExpiresAt else None;
    if expiration.Some? && seats.Some? then (if expiration.value <= seats.value then expiration else seats)
    else if expiration.Some? then expiration else seats
  }

  function Composed(l: License, r: Request, usage: Option<Usage>, now: int, duration: int): Lease {
    var seatGrace := usage.Some? && usage.value.status == OverageGrace && usage.value.graceExpiresAt.Some?;
    var deadline := Deadline(l, usage, now);
    var limit := if deadline.Some? then deadline.value else l.expiresAt;
    Lease(l.id, l.deploymentId, l.machineFingerprint, l.revision, now,
          if now + duration <= limit then now + duration else limit,
          l.seatLimit, if usage.Some? then r.activeSeatCount else None, if usage.Some? then Some(usage.value.status) else None,
          (if now >= l.expiresAt then [Expiration] else []) + (if seatGrace then [SeatOverage] else []), deadline)
  }

  /** The seat usage a request leads to, given the row before it. */
  function UsageAfter(l: License, r: Request, row: Option<Usage>, now: int): Option<Usage> {
    match SeatReport(l, r, now)
    case None => None
    case Some(e) => Some(Recorded(row, e))
  }

  /** `Math.min` over the deadlines, if there are any. */
  method Earliest(deadlines: seq<int>) returns (least: Option<int>)
    ensures least.None? <==> |deadlines| == 0
    ensures least.Some? ==> least.value in deadlines && forall d | d in deadlines :: least.value <= d
    ensures |deadlines| > 0 ==> least == Some(Least(deadlines))
  {
    least := None;
    for i := 0 to |deadlines|
      invariant least == if i == 0 then None else Some(Least(deadlines[..i]))
      invariant least.Some? ==> least.value in deadlines && forall k | 0 <= k < i :: least.value <= deadlines[k]
    {
      assert deadlines[..i + 1][..i] == deadlines[..i];
      if least.None? || deadlines[i] < least.value { least := Some(deadlines[i]); }
    }
    assert deadlines[..|deadlines|] == deadlines;
  }

  lemma LeastOfTwo(a: int, b: int)
    ensures Least([a]) == a && Least([b]) == b && Least([a, b]) == if b < a then b else a
  {
    assert [a, b][..1] == [a];
  }

  /** Collects the grace deadlines that are running and puts the earliest, or the license's own
      expiry, under the lease. */
  method ComposeLease(l: License, r: Request, usage: Option<Usage>, now: int, duration: int) returns (lease: Lease)
    ensures lease == Composed(l, r, usage, now, duration)
  {
    var reasons, deadlines := [], [];
    if now >= l.expiresAt {
      reasons, deadlines := reasons + [Expiration], deadlines + [l.expiresAt + l.gracePeriod];
    }
    if usage.Some? && usage.value.status == OverageGrace && usage.value.graceExpiresAt.Some? {
      reasons, deadlines := reasons + [SeatOverage], deadlines + [usage.value.graceExpiresAt.value];
    }
    var graceExpiresAt := Earliest(deadlines);
    LeastOfTwo(l.expiresAt + l.gracePeriod, if |deadlines| > 0 then deadlines[|deadlines| - 1] else 0);
    var limit := if graceExpiresAt.Some? then graceExpiresAt.value else l.expiresAt;
    lease := Lease(l.id, l.deploymentId, l.machineFingerprint, l.revision, now,
                   if now + duration <= limit then now + duration else limit, l.seatLimit,
                   if usage.Some? then r.activeSeatCount else None, if usage.Some? then Some(usage.value.status) else None,
                   reasons, graceExpiresAt);
  }

  /** `Math.min` of one or more deadlines. */
  function Least(xs: seq<int>): int
    requires |xs| > 0
  {
    if |xs| == 1 then xs[0]
    else
      var rest := Least(xs[..|xs| - 1]);
      if xs[|xs| - 1] < rest then xs[|xs| - 1] else rest
  }

  /** What a request is answered once its nonce is spent, given the usage row before its report. */
  function Decision(l: License, r: Request, row: Option<Usage>, now: int, duration: int): Outcome {
    var usage := UsageAfter(l, r, row, now);
    if SeatCountRefused(l, r) then Refused(if r.activeSeatCount.None? then SeatCountRequired else SeatCountInvalid)
    else if usage.Some? && usage.value.status == Blocked then Refused(SeatsBlocked)
    else Issued(Composed(l, r, usage, now, duration))
  }

  /* ---- Deadlines ---- */

  /** What every refusal before the lease leaves true of a request that gets one. */
  predicate Leasable(l: License, now: int, duration: int) {
    now < l.expiresAt + l.gracePeriod && l.gracePeriod >= 0 && duration >= MIN_LEASE_MS
  }

  predicate BeganAfter(usage: Option<Usage>, time: int) {
    usage.Some? && usage.value.overageStartedAt.Some? && usage.value.overageStartedAt.value > time
  }

  /** Every issued lease runs: it ends after it is issued, within the lease duration, and never past
      the grace it is given under. */
  lemma {:induction false} LeaseRuns(l: License, r: Request, row: Option<Usage>, now: int, duration: int)
    requires Leasable(l, now, duration) && Decision(l, r, row, now, duration).Issued?
    ensures var lease := Decision(l, r, row, now, duration).lease;
      && lease.issuedAt == now < lease.expiresAt <= now + duration
      && (lease.graceExpiresAt.Some? ==> lease.expiresAt <= lease.graceExpiresAt.value)
      && (lease.graceExpiresAt.Some? <==> |lease.graceReasons| > 0)
      && (lease.graceExpiresAt.None? ==> lease.expiresAt <= l.expiresAt)
  {
  }

  /** What a lease tells its deployment is so: the license it is for, the seats reported and what they
      amount to, which graces are running, and the earliest of their ends. */
  lemma {:induction false} LeaseTells(l: License, r: Request, row: Option<Usage>, now: int, duration: int)
    requires Decision(l, r, row, now, duration).Issued?
    ensures var (lease, usage) := (Decision(l, r, row, now, duration).lease, UsageAfter(l, r, row, now));
      && lease.licenseId == l.id && lease.revision == l.revision && lease.deploymentId == l.deploymentId
      && lease.machineFingerprint == l.machineFingerprint && lease.seatLimit == l.seatLimit
      && lease.activeSeats == r.activeSeatCount && (lease.status.Some? <==> r.activeSeatCount.Some?)
      && lease.status != Some(Blocked) && (l.enforceSeats ==> lease.status.Some?)
      && (lease.status.Some? ==> (lease.status == Some(WithinLimit) <==> r.activeSeatCount.value <= l.seatLimit))
      && (Expiration in lease.graceReasons <==> now >= l.expiresAt)
      && (SeatOverage in lease.graceReasons <==> lease.status == Some(OverageGrace))
      && (now >= l.expiresAt ==> lease.graceExpiresAt.Some? && lease.graceExpiresAt.value <= l.expiresAt + l.gracePeriod)
      && (lease.status == Some(OverageGrace) ==> lease.graceExpiresAt.Some? && usage.Some? && usage.value.graceExpiresAt.Some?
                                                 && lease.graceExpiresAt.value <= usage.value.graceExpiresAt.value)
  {
  }

  /** A lease passes license expiry plus grace exactly when it is asked for before the expiry, over an
      enforced seat limit, while the stored overage began after the expiry, by a request whose lease
      duration reaches that far. */
  lemma {:induction false} LeaseWithinGraceIff(l: License, r: Request, row: Option<Usage>, now: int, duration: int)
    requires Leasable(l, now, duration) && Decision(l, r, row, now, duration).Issued?
    ensures Decision(l, r, row, now, duration).lease.expiresAt <= l.expiresAt + l.gracePeriod <==>
      !(&& now < l.expiresAt && now + duration > l.expiresAt + l.gracePeriod
        && l.enforceSeats && r.activeSeatCount.Some? && r.activeSeatCount.value > l.seatLimit
        && BeganAfter(row, l.expiresAt))
  {
  }

  /** Whatever the row, a lease never passes the later of license expiry and the start of the overage
      it is judged by, plus the grace. */
  lemma {:induction false} LeaseWithinGraceOfStart(l: License, r: Request, row: Option<Usage>, now: int, duration: int, latest: int)
    requires Leasable(l, now, duration) && Decision(l, r, row, now, duration).Issued?
    requires now <= latest && !BeganAfter(row, latest)
    ensures Decision(l, r, row, now, duration).lease.expiresAt <= (if latest < l.expiresAt then l.expiresAt else latest) + l.gracePeriod
  {
  }

  /** On stored terms a lease can pass license expiry plus grace only where the grace is zero. */
  lemma {:induction false} DayOfGraceHolds(l: License, r: Request, row: Option<Usage>, now: int, duration: int)
    requires Leasable(l, now, duration) && WholeDays(l.gracePeriod) && duration <= MAX_LEASE_MS
    requires Decision(l, r, row, now, duration).Issued? && l.gracePeriod > 0
    ensures Decision(l, r, row, now, duration).lease.expiresAt <= l.expiresAt + l.gracePeriod
  {
    LeaseWithinGraceIff(l, r, row, now, duration);
    hide Decision;
  }

  /** With whole days of grace, no lease outlasts a time that neither its license's grace nor the start
      of the overage passes. */
  lemma {:induction false} LeaseEndsBy(l: License, r: Request, row: Option<Usage>, now: int, duration: int, end: int)
    requires Leasable(l, now, duration) && WholeDays(l.gracePeriod) && duration <= MAX_LEASE_MS
    requires Decision(l, r, row, now, duration).Issued? && l.expiresAt + l.gracePeriod <= end && !BeganAfter(row, end)
    ensures Decision(l, r, row, now, duration).lease.expiresAt <= end
  {
    if l.gracePeriod > 0 {
      DayOfGraceHolds(l, r, row, now, duration);
    } else {
      LeaseWithinGraceOfStart(l, r, row, now, duration, end);
    }
    hide Decision;
  }
}

/** What each license change needs and writes, column by column, and what holds of the terms ever after. */
module LicenseAnswers {
  import opened Options
  import opened Licenses

  /** The terms no change touches. */
  predicate SameTerms(a: License, b: License) {
    a.id == b.id && a.issuedAt == b.issuedAt && a.offline == b.offline
  }

  function Days(days: Option<int>, otherwise: int): int { if days.Some? then days.value * 24 * 60 * 60 * 1000 else otherwise }

  /** What each kind of change writes over the license it read, and nothing else. */
  lemma ChangeWrites(l: License, change: Change)
    ensures var n := Amended(l, change);
      && SameTerms(n, l) && n.revision == l.revision + 1 && n.revokedAt == l.revokedAt
      && n.tokenVersion == l.tokenVersion + (if change.TransferMachine? || change.Rebind? then 1 else 0)
      && n.expiresAt == (if change.Renew? then change.expiresAt else l.expiresAt)
      && n.gracePeriod == (if change.Renew? || change.Resize? then Days(change.graceDays, l.gracePeriod) else l.gracePeriod)
      && n.seatLimit == (if change.Resize? then change.seatLimit else l.seatLimit)
      && n.enforceSeats == (if change.Resize? && change.enforceSeats.Some? then change.enforceSeats.value else l.enforceSeats)
      && n.machineFingerprint == (if change.TransferMachine? || change.Rebind? then change.machineFingerprint else l.machineFingerprint)
      && n.deploymentId == (if change.Rebind? then change.deploymentId else l.deploymentId)
      && n.organizationId == (if change.Rebind? then change.organizationId else l.organizationId)
  {
  }

  /** A change is taken up exactly when the license is not revoked and: a renewal ends later than now in
      force and within five years; a resize keeps 1 to 100000 seats, changes something and enforces no
      offline license; a transfer or rebinding goes somewhere else; and days of grace are 0 to 30. */
  lemma ChangeAllowedIff(w: World, change: Change, now: int)
    ensures var (l, after) := (w.license, Apply(w, Begin(change, now)));
      var allowed :=
        && l.revokedAt.None?
        && (change.Renew? ==> l.expiresAt < change.expiresAt <= now + 5 * 365 * 86_400_000)
        && (change.Renew? && change.graceDays.Some? ==> 0 <= change.graceDays.value <= 30)
        && (change.Resize? ==> 1 <= change.seatLimit <= 100_000 && (change.enforceSeats.Some? || change.seatLimit != l.seatLimit))
        && (change.Resize? && l.offline ==> change.enforceSeats == Some(false) || (change.enforceSeats.None? && !l.enforceSeats))
        && (change.Resize? && change.graceDays.Some? ==> 0 <= change.graceDays.value <= 30)
        && (change.TransferMachine? ==> change.machineFingerprint != l.machineFingerprint)
        && (change.Rebind? ==> change.deploymentId != l.deploymentId);
      after == if allowed then w.(drafts := w.drafts + [Draft(l, change)]) else w
  {
  }

  /** A change is written exactly when the license still has the revision it read and, for a transfer, the
      deployment still has the machine it leaves and no other deployment of its organization has the new
      one; then the license is the amended copy, and a transfer moves the deployment's machine with it. */
  lemma ChangeCommitsIff(w: World, i: nat)
    requires Enabled(w, Write(i))
    ensures var (d, after) := (w.drafts[i], Apply(w, Write(i)));
      var id := d.read.deploymentId;
      var machine := if id in w.machines then Machine(w.machines[id].organizationId, if d.change.TransferMachine? then d.change.machineFingerprint else "")
                     else Machine("", "");
      var committed :=
        && d.read.revision == w.license.revision
        && (d.change.TransferMachine? ==>
              && id in w.machines && w.machines[id].fingerprint == d.read.machineFingerprint
              && forall k | k in w.machines && w.machines[k] == machine :: k == id);
      && after.license == (if committed then Amended(d.read, d.change) else w.license)
      && after.machines == (if committed && d.change.TransferMachine? then w.machines[id := machine] else w.machines)
      && after.drafts == w.drafts
  {
    hide Amended;
  }

  /** A revocation stamps a license once, and changes nothing else. */
  lemma RevocationWrites(w: World, at: int)
    ensures Apply(w, Revoke(at)) == w.(license := w.license.(revokedAt := Some(if w.license.revokedAt.Some? then w.license.revokedAt.value else at)))
  {
  }

  /* ---- Over whole runs ---- */

  predicate TermsValid(l: License) { 1 <= l.seatLimit <= 100_000 && !(l.offline && l.enforceSeats) }

  /** What a license shows after any changes to it, when it was issued as `l`. */
  ghost predicate Descends(l: License, n: License) {
    SameTerms(n, l) && TermsValid(n) && l.revision <= n.revision && l.tokenVersion <= n.tokenVersion && l.expiresAt <= n.expiresAt
  }

  ghost predicate AllDescend(l: License, w: World) {
    && Descends(l, w.license)
    && forall i | 0 <= i < |w.drafts| :: Descends(l, w.drafts[i].read) && Descends(l, Amended(w.drafts[i].read, w.drafts[i].change))
  }

  lemma StepKeepsTerms(l: License, w: World, s: Step)
    requires AllDescend(l, w) && Enabled(w, s)
    ensures AllDescend(l, Apply(w, s))
  {
    hide Transferable, Rebound;
  }

  /** Through any run a license keeps its id, its issue and its being offline; its seats stay from 1 to
      100000 and unenforced offline; and its revision, its token version and its expiry never go back. */
  lemma {:induction false} TermsNeverGoBack(l: License, machines: Machines, steps: seq<Step>)
    requires TermsValid(l) && Possible(Fresh(l, machines), steps)
    ensures AllDescend(l, Run(Fresh(l, machines), steps))
  {
    hide Apply, Enabled, AllDescend;
    if |steps| == 0 {
      assert AllDescend(l, Fresh(l, machines)) by { FreshDescends(l, machines); }
    } else {
      TermsNeverGoBack(l, machines, steps[..|steps| - 1]);
      StepKeepsTerms(l, Run(Fresh(l, machines), steps[..|steps| - 1]), steps[|steps| - 1]);
    }
  }

  lemma FreshDescends(l: License, machines: Machines)
    requires TermsValid(l)
    ensures AllDescend(l, Fresh(l, machines))
  {
  }
}

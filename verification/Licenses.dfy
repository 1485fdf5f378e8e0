/** License changes under optimistic concurrency: read a license, sign a candidate, write it back if
    the revision is still the one that was read. */
module Licenses {
  import opened Options

  datatype License = License(id: string, revision: nat, deploymentId: string, organizationId: string,
                             machineFingerprint: string, issuedAt: int, expiresAt: int, seatLimit: int,
                             gracePeriod: int, enforceSeats: bool, offline: bool, tokenVersion: nat,
                             revokedAt: Option<int>)

  const DAY_MS: int := 86_400_000
  const MAX_DURATION_MS: int := 5 * 365 * DAY_MS
  const MAX_SEATS: int := 100_000
  const MAX_GRACE_DAYS: int := 30

  datatype Change =
    | Renew(expiresAt: int, graceDays: Option<int>)
    | Resize(seatLimit: int, enforceSeats: Option<bool>, graceDays: Option<int>)
    | TransferMachine(machineFingerprint: string)
    | Rebind(deploymentId: string, organizationId: string, machineFingerprint: string)

  /** Every writer of a license stores whole days, and the column's CHECK bounds them. */
  predicate WholeDays(graceMs: int) { 0 <= graceMs <= MAX_GRACE_DAYS * DAY_MS && graceMs % DAY_MS == 0 }

  predicate GraceOk(days: Option<int>) { days.Some? ==> 0 <= days.value <= MAX_GRACE_DAYS }

  function GraceMs(l: License, days: Option<int>): int {
    if days.Some? then days.value * DAY_MS else l.gracePeriod
  }

  /** What the service checks of a change against the license it has read. */
  predicate Allowed(l: License, change: Change, now: int) {
    && l.revokedAt.None?
    && match change
       case Renew(expiresAt, graceDays) =>
         l.expiresAt < expiresAt && expiresAt - now <= MAX_DURATION_MS && GraceOk(graceDays)
       case Resize(seatLimit, enforceSeats, graceDays) =>
         && 1 <= seatLimit <= MAX_SEATS && (seatLimit != l.seatLimit || enforceSeats.Some?)
         && !(l.offline && enforceSeats.Some? && enforceSeats.value) && !(l.offline && enforceSeats.None? && l.enforceSeats)
         && GraceOk(graceDays)
       case TransferMachine(machineFingerprint) => machineFingerprint != l.machineFingerprint
       case Rebind(deploymentId, _, _) => deploymentId != l.deploymentId
  }

  predicate ResetsSeats(change: Change) { change.TransferMachine? || change.Rebind? }

  function Amended(l: License, change: Change): License {
    var next := l.(revision := l.revision + 1, tokenVersion := l.tokenVersion + if ResetsSeats(change) then 1 else 0);
    match change
    case Renew(expiresAt, graceDays) => next.(expiresAt := expiresAt, gracePeriod := GraceMs(l, graceDays))
    case Resize(seatLimit, enforceSeats, graceDays) =>
      next.(seatLimit := seatLimit, enforceSeats := if enforceSeats.Some? then enforceSeats.value else l.enforceSeats,
            gracePeriod := GraceMs(l, graceDays))
    case TransferMachine(machineFingerprint) => next.(machineFingerprint := machineFingerprint)
    case Rebind(deploymentId, organizationId, machineFingerprint) =>
      next.(deploymentId := deploymentId, organizationId := organizationId, machineFingerprint := machineFingerprint)
  }

  /* ---- Interleaved changes ---- */

  /** A change between its read and its write. */
  datatype Draft = Draft(read: License, change: Change)

  /** A deployment row, as far as a machine transfer reads and writes it. */
  datatype Machine = Machine(organizationId: string, fingerprint: string)

  type Machines = map<string, Machine>

  /** `machines` are the deployment rows, which other licenses share. */
  datatype World = World(license: License, drafts: seq<Draft>, machines: Machines)

  datatype Step =
    | Begin(change: Change, now: int)
    | Write(draft: nat)
    | Revoke(at: int)
    | Rewire(deploymentId: string, machine: Machine)

  predicate Enabled(w: World, s: Step) { s.Write? ==> s.draft < |w.drafts| }

  predicate Commits(w: World, s: Step)
    requires Enabled(w, s)
  {
    s.Write? && w.drafts[s.draft].read.revision == w.license.revision && Transferable(w.machines, w.drafts[s.draft])
  }

  predicate Transferable(machines: Machines, d: Draft) { Bound(machines, d) && Vacant(machines, d) }

  /** A machine transfer also needs the deployment row to name the machine it is leaving. */
  predicate Bound(machines: Machines, d: Draft) {
    d.change.TransferMachine? ==>
      d.read.deploymentId in machines && machines[d.read.deploymentId].fingerprint == d.read.machineFingerprint
  }

  /** UNIQUE (organization_id, machine_fingerprint), for a row about to be written. */
  predicate Free(machines: Machines, deploymentId: string, m: Machine) {
    forall k | k in machines && k != deploymentId :: machines[k] != m
  }

  /** And no other deployment of the organization to name the machine it is moving to. */
  predicate Vacant(machines: Machines, d: Draft) {
    d.change.TransferMachine? && d.read.deploymentId in machines ==>
      Free(machines, d.read.deploymentId, machines[d.read.deploymentId].(fingerprint := d.change.machineFingerprint))
  }

  function Rebound(machines: Machines, d: Draft): Machines {
    if d.change.TransferMachine? && d.read.deploymentId in machines
    then machines[d.read.deploymentId := machines[d.read.deploymentId].(fingerprint := d.change.machineFingerprint)] else machines
  }

  function Apply(w: World, s: Step): World
    requires Enabled(w, s)
  {
    match s
    case Begin(change, now) =>
      if Allowed(w.license, change, now) then w.(drafts := w.drafts + [Draft(w.license, change)]) else w
    case Write(i) =>
      if Commits(w, s)
      then w.(license := Amended(w.drafts[i].read, w.drafts[i].change), machines := Rebound(w.machines, w.drafts[i]))
      else w
    case Revoke(at) =>
      w.(license := w.license.(revokedAt := if w.license.revokedAt.Some? then w.license.revokedAt else Some(at)))
    case Rewire(deploymentId, machine) =>
      if Free(w.machines, deploymentId, machine) then w.(machines := w.machines[deploymentId := machine]) else w
  }

  predicate Possible(w: World, steps: seq<Step>)
    decreases |steps|, 0
  {
    |steps| > 0 ==>
      var last := |steps| - 1;
      Possible(w, steps[..last]) && Enabled(Run(w, steps[..last]), steps[last])
  }

  function Run(w: World, steps: seq<Step>): World
    requires Possible(w, steps)
    decreases |steps|, 1
  {
    if |steps| == 0 then w else Apply(Run(w, steps[..|steps| - 1]), steps[|steps| - 1])
  }

  /** Drafts were read unrevoked, at no later revision; one at the current revision read the current
      row, but for a revocation since. */
  ghost predicate Inv(w: World) {
    forall i | 0 <= i < |w.drafts| ::
      && w.drafts[i].read.revokedAt.None? && w.drafts[i].read.revision <= w.license.revision
      && (w.drafts[i].read.revision == w.license.revision ==> w.drafts[i].read == w.license.(revokedAt := None))
  }

  lemma StepKeepsInv(w: World, s: Step)
    requires Inv(w) && Enabled(w, s)
    ensures Inv(Apply(w, s))
  {
  }

  lemma {:induction false} RunKeepsInv(w: World, steps: seq<Step>)
    requires Inv(w) && Possible(w, steps)
    ensures Inv(Run(w, steps))
  {
    hide Inv, Apply;
    if |steps| > 0 {
      RunKeepsInv(w, steps[..|steps| - 1]);
      StepKeepsInv(Run(w, steps[..|steps| - 1]), steps[|steps| - 1]);
    }
  }

  function Fresh(l: License, machines: Machines): World { World(l, [], machines) }

  /** No update is lost: a write that commits is its change applied to the row as it stands, which
      every other committed change has shaped. Only a revocation made since the read is dropped. */
  lemma WritesAreSerial(l: License, machines: Machines, steps: seq<Step>, s: Step)
    requires Possible(Fresh(l, machines), steps) && Enabled(Run(Fresh(l, machines), steps), s) && Commits(Run(Fresh(l, machines), steps), s)
    ensures var w := Run(Fresh(l, machines), steps);
      Apply(w, s).license == Amended(w.license.(revokedAt := None), w.drafts[s.draft].change)
    ensures Apply(Run(Fresh(l, machines), steps), s).license.revision == Run(Fresh(l, machines), steps).license.revision + 1
    ensures var w := Run(Fresh(l, machines), steps);
      w.drafts[s.draft].change.TransferMachine? ==>
        && w.license.deploymentId in w.machines
        && w.machines[w.license.deploymentId].fingerprint == w.license.machineFingerprint
        && Apply(w, s).machines == w.machines[w.license.deploymentId :=
             w.machines[w.license.deploymentId].(fingerprint := w.drafts[s.draft].change.machineFingerprint)]
  {
    hide Run, Possible;
    assert Inv(Fresh(l, machines));
    RunKeepsInv(Fresh(l, machines), steps);
  }

  /** Of all changes that read one revision, at most one commits. */
  lemma {:induction false} OneWritePerRevision(l: License, machines: Machines, steps: seq<Step>, s: Step, t: Step)
    requires Possible(Fresh(l, machines), steps) && Enabled(Run(Fresh(l, machines), steps), s) && Commits(Run(Fresh(l, machines), steps), s)
    requires t.Write? && Enabled(Apply(Run(Fresh(l, machines), steps), s), t)
    requires var w := Run(Fresh(l, machines), steps); w.drafts[t.draft].read.revision == w.drafts[s.draft].read.revision
    ensures !Commits(Apply(Run(Fresh(l, machines), steps), s), t)
  {
  }

  /** No two deployments of one organization name one machine. */
  ghost predicate UniqueMachines(machines: Machines) {
    forall j, k | j in machines && k in machines && machines[j] == machines[k] :: j == k
  }

  lemma {:induction false} MachinesStayUnique(w: World, steps: seq<Step>)
    requires UniqueMachines(w.machines) && Possible(w, steps)
    ensures UniqueMachines(Run(w, steps).machines)
  {
    if |steps| > 0 {
      MachinesStayUnique(w, steps[..|steps| - 1]);
      hide Run, Possible, Amended;
    }
  }

  /** The grace of a license stays in whole days, from zero to thirty, through any run. */
  lemma {:induction false} GraceStaysWhole(l: License, machines: Machines, steps: seq<Step>)
    requires WholeDays(l.gracePeriod) && Possible(Fresh(l, machines), steps)
    ensures GraceWhole(Run(Fresh(l, machines), steps))
  {
    if |steps| > 0 {
      GraceStaysWhole(l, machines, steps[..|steps| - 1]);
      hide Run, Possible, Amended;
      StepKeepsGrace(Run(Fresh(l, machines), steps[..|steps| - 1]), steps[|steps| - 1]);
    }
  }

  ghost predicate GraceWhole(w: World) {
    && WholeDays(w.license.gracePeriod)
    && forall i | 0 <= i < |w.drafts| :: WholeDays(Amended(w.drafts[i].read, w.drafts[i].change).gracePeriod)
  }

  lemma StepKeepsGrace(w: World, s: Step)
    requires GraceWhole(w) && Enabled(w, s)
    ensures GraceWhole(Apply(w, s))
  {
    hide Bound, Rebound;
  }

  /* ---- Revocation ---- */

  /** A revoked license that no draft can still be written over. */
  ghost predicate RevokedForGood(w: World) {
    w.license.revokedAt.Some? && forall i | 0 <= i < |w.drafts| :: w.drafts[i].read.revision != w.license.revision
  }

  lemma {:induction false} RevokedStays(w: World, steps: seq<Step>)
    requires RevokedForGood(w) && Possible(w, steps)
    ensures RevokedForGood(Run(w, steps)) && Run(w, steps).license == w.license
  {
    if |steps| > 0 { RevokedStays(w, steps[..|steps| - 1]); }
  }

  ghost predicate CanBeUndone(w: World) {
    exists steps :: Possible(w, steps) && Run(w, steps).license.revokedAt.None?
  }

  lemma {:induction false} NewFingerprint(machines: Machines, other: string) returns (name: string)
    ensures |name| > |other| && forall k | k in machines :: |machines[k].fingerprint| < |name|
  {
    if machines == map[] {
      name := other + "x";
    } else {
      var k :| k in machines;
      name := NewFingerprint(machines - {k}, other);
      assert forall j | j in machines && j != k :: j in machines - {k};
      if |name| <= |machines[k].fingerprint| { name := machines[k].fingerprint + "x"; }
    }
  }

  /** Whatever holds a machine can move off it, to one that nothing holds. */
  lemma MakeRoom(w: World, deploymentId: string, m: Machine, kept: Machine) returns (s: Step)
    requires UniqueMachines(w.machines) && Free(w.machines, deploymentId, kept)
    ensures s.Rewire? && Enabled(w, s)
    ensures Free(Apply(w, s).machines, deploymentId, m) && Free(Apply(w, s).machines, deploymentId, kept)
    ensures UniqueMachines(Apply(w, s).machines) && Apply(w, s).license == w.license && Apply(w, s).drafts == w.drafts
    ensures deploymentId in w.machines ==> deploymentId in Apply(w, s).machines && Apply(w, s).machines[deploymentId] == w.machines[deploymentId]
    ensures deploymentId !in w.machines ==> deploymentId !in Apply(w, s).machines || Free(w.machines, deploymentId, m)
  {
    var name := NewFingerprint(w.machines, if |m.fingerprint| < |kept.fingerprint| then kept.fingerprint else m.fingerprint);
    if k :| k in w.machines && k != deploymentId && w.machines[k] == m {
      s := Rewire(k, m.(fingerprint := name));
    } else if deploymentId in w.machines {
      s := Rewire(deploymentId, w.machines[deploymentId]);
    } else {
      s := Rewire(deploymentId, m);
    }
  }

  /** Other licenses of the same deployments can bring a transfer's machines into place. */
  lemma TransferCanCommit(w: World, i: nat) returns (steps: seq<Step>)
    requires UniqueMachines(w.machines) && i < |w.drafts| && w.drafts[i].read.revision == w.license.revision
    ensures Possible(w, steps) && Enabled(Run(w, steps), Write(i)) && Commits(Run(w, steps), Write(i))
    ensures Run(w, steps).license == w.license && Run(w, steps).drafts == w.drafts
  {
    var d := w.drafts[i];
    if !d.change.TransferMachine? { return []; }
    var dep := d.read.deploymentId;
    var org := if dep in w.machines then w.machines[dep].organizationId else d.read.organizationId;
    var from, next := Machine(org, d.read.machineFingerprint), Machine(org, d.change.machineFingerprint);
    var never := NeverHeld(w.machines, dep);
    var s := MakeRoom(w, dep, from, never);
    var w1 := Apply(w, s);
    var t := MakeRoom(w1, dep, next, from);
    var w2 := Apply(w1, t);
    var u := Rewire(dep, from);
    steps := [s, t, u];
    assert steps[..2] == [s, t] && [s, t][..1] == [s] && [s][..0] == [];
    OneStep(w, s);
  }

  lemma NeverHeld(machines: Machines, deploymentId: string) returns (m: Machine)
    ensures Free(machines, deploymentId, m)
  {
    var name := NewFingerprint(machines, "");
    m := Machine("", name);
  }

  /** Revoking takes no new revision, so a change that read the license before still writes its
      unrevoked copy. A revoked license can become unrevoked exactly when such a draft is left. */
  lemma RevocationUndoneIff(l: License, machines: Machines, steps: seq<Step>)
    requires UniqueMachines(machines)
    requires Possible(Fresh(l, machines), steps) && Run(Fresh(l, machines), steps).license.revokedAt.Some?
    ensures CanBeUndone(Run(Fresh(l, machines), steps)) <==>
      exists i | 0 <= i < |Run(Fresh(l, machines), steps).drafts| ::
        Run(Fresh(l, machines), steps).drafts[i].read.revision == Run(Fresh(l, machines), steps).license.revision
  {
    var w := Run(Fresh(l, machines), steps);
    assert Inv(Fresh(l, machines));
    RunKeepsInv(Fresh(l, machines), steps);
    MachinesStayUnique(Fresh(l, machines), steps);
    if i :| 0 <= i < |w.drafts| && w.drafts[i].read.revision == w.license.revision {
      var before := TransferCanCommit(w, i);
      OneMore(w, before, Write(i));
    } else {
      forall more | Possible(w, more) ensures Run(w, more).license.revokedAt.Some? { RevokedStays(w, more); }
    }
  }

  lemma OneMore(w: World, steps: seq<Step>, s: Step)
    requires Possible(w, steps) && Enabled(Run(w, steps), s)
    ensures Possible(w, steps + [s]) && Run(w, steps + [s]) == Apply(Run(w, steps), s)
  {
    hide Apply;
    assert (steps + [s])[..|steps|] == steps;
  }

  lemma OneStep(w: World, s: Step)
    requires Enabled(w, s)
    ensures Possible(w, [s]) && Run(w, [s]) == Apply(w, s)
  {
    assert [s][..0] == [];
    assert Possible(w, []) && Run(w, []) == w;
  }

  /** Such a draft arises: a renewal reads, the license is revoked, the renewal writes. */
  lemma RenewalUndoesRevocation(l: License, machines: Machines, at: int)
    requires l.revokedAt.None? && UniqueMachines(machines)
    ensures var s := [Begin(Renew(l.expiresAt + DAY_MS, None), l.expiresAt), Revoke(at)];
      && Possible(Fresh(l, machines), s) && Run(Fresh(l, machines), s).license.revokedAt == Some(at) && CanBeUndone(Run(Fresh(l, machines), s))
  {
    var b, r := Begin(Renew(l.expiresAt + DAY_MS, None), l.expiresAt), Revoke(at);
    OneStep(Fresh(l, machines), b);
    assert [b, r][..1] == [b];
    var w := Run(Fresh(l, machines), [b, r]);
    assert w == World(l.(revokedAt := Some(at)), [Draft(l, b.change)], machines);
    RevocationUndoneIff(l, machines, [b, r]);
    assert w.drafts[0].read.revision == w.license.revision;
  }
}

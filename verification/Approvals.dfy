/** Dual-control approvals: create, sweep, decide, consume. */
module Approvals {
  import opened Options

  type Id = string

  datatype Status = Pending | Approved | Rejected | Executed | Expired

  datatype Approval = Approval(requester: Id, operation: string, targetType: string, targetId: string, requestHash: string,
                               status: Status, required: nat, expiresAt: int, executedAt: Option<int>)

  datatype Decision = Decision(approvalId: Id, account: Id, approves: bool, at: int)

  /** One successful consumption, as the caller made it. */
  datatype Use = Use(approvalId: Id, requester: Id, operation: string, targetType: string, targetId: string,
                     requestHash: string, at: int)

  /** `uses` is the history of consumptions; the code keeps no such table. */
  datatype World = World(approvals: map<Id, Approval>, decisions: seq<Decision>, uses: seq<Use>)

  const EMPTY: World := World(map[], [], [])

  datatype Step =
    | Create(id: Id, approval: Approval)
    | Sweep(only: Option<Id>, now: int)
    | Decide(approvalId: Id, account: Id, approves: bool, at: int)
    | Consume(use: Use)

  datatype Answer = Done | NotFound | OwnApproval | NotPending | AlreadyDecided | DuplicateId | Declined

  /** `COUNT(*) ... WHERE approval_id = $1 AND decision = 'approve'` */
  function CountApprovals(ds: seq<Decision>, id: Id): nat {
    if |ds| == 0 then 0
    else CountApprovals(ds[..|ds| - 1], id) + if ds[|ds| - 1].approvalId == id && ds[|ds| - 1].approves then 1 else 0
  }

  predicate Decided(ds: seq<Decision>, id: Id, account: Id) {
    exists d | d in ds :: d.approvalId == id && d.account == account
  }

  predicate Lapsed(a: Approval, now: int) {
    (a.status == Pending || a.status == Approved) && a.expiresAt <= now
  }

  function Swept(m: map<Id, Approval>, only: Option<Id>, now: int): map<Id, Approval> {
    map id | id in m :: if (only.None? || only.value == id) && Lapsed(m[id], now) then m[id].(status := Expired) else m[id]
  }

  predicate Matches(a: Approval, u: Use) {
    && a.requester == u.requester && a.operation == u.operation && a.targetType == u.targetType
    && a.targetId == u.targetId && a.requestHash == u.requestHash && a.status == Approved && a.expiresAt > u.at
  }

  function Verdict(w: World, s: Step): Answer {
    match s
    case Create(id, _) => if id in w.approvals then DuplicateId else Done
    case Sweep(_, _) => Done
    case Decide(id, account, _, at) =>
      if id !in w.approvals then NotFound
      else if w.approvals[id].requester == account then OwnApproval
      else if w.approvals[id].expiresAt <= at then Done
      else if w.approvals[id].status != Pending then NotPending
      else if Decided(w.decisions, id, account) then AlreadyDecided
      else Done
    case Consume(u) =>
      if u.approvalId in w.approvals && Matches(w.approvals[u.approvalId], u) then Done else Declined
  }

  /** The row after a decision; an approval past its expiry is relabelled whatever its status. */
  function AfterDecision(w: World, id: Id, account: Id, approves: bool, at: int): World
    requires id in w.approvals
  {
    var a := w.approvals[id];
    if a.expiresAt <= at then w.(approvals := w.approvals[id := a.(status := Expired)])
    else
      var ds := w.decisions + [Decision(id, account, approves, at)];
      var status := if !approves then Rejected else if CountApprovals(ds, id) >= a.required then Approved else Pending;
      w.(decisions := ds, approvals := w.approvals[id := a.(status := status)])
  }

  function Apply(w: World, s: Step): World {
    if Verdict(w, s) != Done then w
    else match s
      case Create(id, a) => w.(approvals := w.approvals[id := a.(status := Pending, executedAt := None)])
      case Sweep(only, now) => w.(approvals := Swept(w.approvals, only, now))
      case Decide(id, account, approves, at) => AfterDecision(w, id, account, approves, at)
      case Consume(u) =>
        var a := w.approvals[u.approvalId];
        w.(approvals := w.approvals[u.approvalId := a.(status := Executed, executedAt := Some(u.at))], uses := w.uses + [u])
  }

  function Run(steps: seq<Step>): World {
    if |steps| == 0 then EMPTY else Apply(Run(steps[..|steps| - 1]), steps[|steps| - 1])
  }

  /* ---- Dual control ---- */

  function Approvers(ds: seq<Decision>, id: Id): set<Id> {
    set d | d in ds && d.approvalId == id && d.approves :: d.account
  }

  /** As many different administrators as required said yes, the requester is none of them, and
      nobody said no. */
  ghost predicate DualControl(a: Approval, ds: seq<Decision>, id: Id) {
    && |Approvers(ds, id)| >= a.required
    && a.requester !in Approvers(ds, id)
    && forall d | d in ds && d.approvalId == id :: d.approves
  }

  ghost predicate OneDecisionEach(ds: seq<Decision>) {
    forall i, j | 0 <= i < j < |ds| :: ds[i].approvalId != ds[j].approvalId || ds[i].account != ds[j].account
  }

  ghost predicate DecisionsSound(w: World) {
    && OneDecisionEach(w.decisions)
    && (forall d | d in w.decisions :: d.approvalId in w.approvals && w.approvals[d.approvalId].requester != d.account)
    && (forall id | id in w.approvals && w.approvals[id].status in {Pending, Approved} ::
          forall d | d in w.decisions && d.approvalId == id :: d.approves)
  }

  ghost predicate ApprovedByEnough(w: World) {
    forall id | id in w.approvals && w.approvals[id].status == Approved :: DualControl(w.approvals[id], w.decisions, id)
  }

  /** Each use was of an approval that is over now, and the rows still show what allowed it. */
  ghost predicate UsesSound(w: World) {
    && (forall i, j | 0 <= i < j < |w.uses| :: w.uses[i].approvalId != w.uses[j].approvalId)
    && forall i | 0 <= i < |w.uses| :: UseAllowed(w, w.uses[i])
  }

  ghost predicate UseAllowed(w: World, u: Use) {
    && u.approvalId in w.approvals
    && var a := w.approvals[u.approvalId];
       && a.requester == u.requester && a.operation == u.operation && a.targetType == u.targetType
       && a.targetId == u.targetId && a.requestHash == u.requestHash && u.at < a.expiresAt
       && a.status !in {Pending, Approved} && DualControl(a, w.decisions, u.approvalId)
  }

  ghost predicate Inv(w: World) {
    DecisionsSound(w) && ApprovedByEnough(w) && UsesSound(w)
  }

  lemma ApproversAppend(ds: seq<Decision>, d: Decision, id: Id)
    ensures Approvers(ds + [d], id) == Approvers(ds, id) + if d.approvalId == id && d.approves then {d.account} else {}
  {
    forall x | x in ds ensures x in ds + [d] {}
    assert d in ds + [d];
  }

  lemma {:induction false} CountIsDistinct(ds: seq<Decision>, id: Id)
    requires OneDecisionEach(ds)
    ensures CountApprovals(ds, id) == |Approvers(ds, id)|
  {
    if |ds| == 0 {
      assert Approvers(ds, id) == {};
    } else {
      var before, last := ds[..|ds| - 1], ds[|ds| - 1];
      CountIsDistinct(before, id);
      assert ds == before + [last];
      ApproversAppend(before, last, id);
      if last.approvalId == id { FirstOf(before, last); }
      hide Approvers, OneDecisionEach;
    }
  }

  lemma FirstOf(before: seq<Decision>, last: Decision)
    requires OneDecisionEach(before + [last])
    ensures last.account !in Approvers(before, last.approvalId)
  {
    var ds := before + [last];
    if last.account in Approvers(before, last.approvalId) {
      var d :| d in before && d.approvalId == last.approvalId && d.approves && d.account == last.account;
      var i :| 0 <= i < |before| && before[i] == d;
      OneEach(ds, i, |before|);
    }
  }

  lemma OneEach(ds: seq<Decision>, i: nat, j: nat)
    requires OneDecisionEach(ds) && i < j < |ds|
    ensures ds[i].approvalId != ds[j].approvalId || ds[i].account != ds[j].account
  {
  }

  lemma OtherDecision(ds: seq<Decision>, d: Decision, a: Approval, id: Id)
    requires d.approvalId != id
    ensures DualControl(a, ds + [d], id) <==> DualControl(a, ds, id)
  {
    assert Approvers(ds + [d], id) == Approvers(ds, id);
    assert forall x | x in ds + [d] && x.approvalId == id :: x in ds;
    assert forall x | x in ds :: x in ds + [d];
  }

  lemma DecideKeepsDecisions(w: World, s: Step)
    requires DecisionsSound(w) && s.Decide? && Verdict(w, s) == Done
    ensures DecisionsSound(Apply(w, s))
  {
    hide CountApprovals;
    var a := w.approvals[s.approvalId];
    if a.expiresAt > s.at {
      var ds := w.decisions + [Decision(s.approvalId, s.account, s.approves, s.at)];
      forall i, j | 0 <= i < j < |ds| ensures ds[i].approvalId != ds[j].approvalId || ds[i].account != ds[j].account {
        if j == |w.decisions| { assert ds[i] in w.decisions; }
      }
    }
  }

  lemma DecideKeepsApproved(w: World, s: Step)
    requires Inv(w) && s.Decide? && Verdict(w, s) == Done
    ensures ApprovedByEnough(Apply(w, s)) && UsesSound(Apply(w, s))
  {
    var w' := Apply(w, s);
    DecideKeepsDecisions(w, s);
    var id, d := s.approvalId, Decision(s.approvalId, s.account, s.approves, s.at);
    hide CountApprovals, DualControl;
    forall x | x in w'.approvals && w'.approvals[x].status == Approved ensures DualControl(w'.approvals[x], w'.decisions, x) {
      if x == id {
        NowApproved(w, s);
      } else if w'.decisions != w.decisions {
        OtherDecision(w.decisions, d, w.approvals[x], x);
      }
    }
    forall i | 0 <= i < |w.uses| ensures UseAllowed(w', w.uses[i]) {
      UseStaysAllowed(w, s, w.uses[i]);
    }
  }

  lemma NowApproved(w: World, s: Step)
    requires Inv(w) && s.Decide? && Verdict(w, s) == Done && s.approvalId in w.approvals
    requires Apply(w, s).approvals[s.approvalId].status == Approved && DecisionsSound(Apply(w, s))
    ensures DualControl(Apply(w, s).approvals[s.approvalId], Apply(w, s).decisions, s.approvalId)
  {
    var w' := Apply(w, s);
    CountIsDistinct(w'.decisions, s.approvalId);
    hide Inv, CountApprovals;
    assert w'.approvals[s.approvalId].requester !in Approvers(w'.decisions, s.approvalId);
  }

  lemma UseStaysAllowed(w: World, s: Step, u: Use)
    requires UseAllowed(w, u) && s.Decide? && Verdict(w, s) == Done
    ensures UseAllowed(Apply(w, s), u)
  {
    hide CountApprovals, DualControl;
    var id, d := s.approvalId, Decision(s.approvalId, s.account, s.approves, s.at);
    if id != u.approvalId && w.approvals[id].expiresAt > s.at {
      OtherDecision(w.decisions, d, w.approvals[u.approvalId], u.approvalId);
    }
    SameTerms(w.approvals[u.approvalId], w.approvals[u.approvalId].(status := Expired), w.decisions, u.approvalId);
  }

  lemma SameTerms(a: Approval, b: Approval, ds: seq<Decision>, id: Id)
    requires a.required == b.required && a.requester == b.requester
    ensures DualControl(a, ds, id) <==> DualControl(b, ds, id)
  {
  }

  lemma OthersKeepInv(w: World, s: Step)
    requires Inv(w) && !s.Decide?
    ensures Inv(Apply(w, s))
  {
    hide CountApprovals, DualControl;
    var w' := Apply(w, s);
    assert w'.decisions == w.decisions;
    forall id | id in w.approvals
      ensures DualControl(w.approvals[id], w.decisions, id) <==> DualControl(w'.approvals[id], w.decisions, id)
    {
      SameTerms(w.approvals[id], w'.approvals[id], w.decisions, id);
    }
  }

  lemma StepKeepsInv(w: World, s: Step)
    requires Inv(w)
    ensures Inv(Apply(w, s))
  {
    if s.Decide? {
      if Verdict(w, s) == Done {
        DecideKeepsDecisions(w, s);
        DecideKeepsApproved(w, s);
      }
    } else {
      OthersKeepInv(w, s);
    }
  }

  lemma {:induction false} RunKeepsInv(steps: seq<Step>)
    ensures Inv(Run(steps))
  {
    hide Inv, Apply;
    if |steps| == 0 {
      assert Inv(EMPTY) by { EmptyInv(); }
    } else {
      RunKeepsInv(steps[..|steps| - 1]);
      StepKeepsInv(Run(steps[..|steps| - 1]), steps[|steps| - 1]);
    }
  }

  lemma EmptyInv()
    ensures Inv(EMPTY)
  {
  }

  /* ---- What holds over every run ---- */

  /** Over any run each approval is consumed at most once, strictly before its expiry, by its
      requester and for the operation, target and digest it was created with; and at that moment
      enough other administrators had approved it and nobody had rejected it. */
  lemma ConsumedOnceUnderDualControl(steps: seq<Step>)
    ensures var w := Run(steps);
      && (forall i, j | 0 <= i < j < |w.uses| :: w.uses[i].approvalId != w.uses[j].approvalId)
      && (forall i | 0 <= i < |w.uses| :: UseAllowed(w, w.uses[i]))
  {
    hide Run, Apply, UseAllowed;
    RunKeepsInv(steps);
  }

  /** The moment itself: the rows a consumption finds. */
  lemma ConsumptionNeedsDualControl(steps: seq<Step>, u: Use)
    requires Verdict(Run(steps), Consume(u)) == Done
    ensures u.approvalId in Run(steps).approvals
    ensures DualControl(Run(steps).approvals[u.approvalId], Run(steps).decisions, u.approvalId)
    ensures forall v | v in Run(steps).uses :: v.approvalId != u.approvalId
  {
    hide Run, Apply;
    RunKeepsInv(steps);
    var w := Run(steps);
    forall v | v in w.uses ensures v.approvalId != u.approvalId {
      var i :| 0 <= i < |w.uses| && w.uses[i] == v;
      assert UseAllowed(w, w.uses[i]);
    }
  }

  predicate Over(w: World, id: Id) {
    id in w.approvals && w.approvals[id].status !in {Pending, Approved}
  }

  /** Once out of pending and approved, an approval never returns, though its label may still change. */
  lemma {:induction false} NeverReturns(steps: seq<Step>, n: nat, id: Id)
    requires n <= |steps| && Over(Run(steps[..n]), id)
    ensures Over(Run(steps), id)
  {
    if n < |steps| {
      var before := steps[..|steps| - 1];
      assert before[..n] == steps[..n];
      NeverReturns(before, n, id);
    } else {
      assert steps[..n] == steps;
    }
  }

  /** Of all steps, the only one that changes the label of an executed or rejected approval is a
      decision by anyone but its requester at or after its expiry, and it makes it expired. */
  lemma RelabelledIff(w: World, id: Id, s: Step)
    requires id in w.approvals && w.approvals[id].status in {Executed, Rejected}
    ensures id in Apply(w, s).approvals
    ensures Apply(w, s).approvals[id].status != w.approvals[id].status <==>
      s.Decide? && s.approvalId == id && s.account != w.approvals[id].requester && w.approvals[id].expiresAt <= s.at
    ensures Apply(w, s).approvals[id].status in {w.approvals[id].status, Expired}
  {
  }

  function Asked(requester: Id, expiresAt: int): Approval {
    Approval(requester, "op", "type", "target", "hash", Pending, 1, expiresAt, None)
  }

  /** Asked for, approved, consumed before the expiry, and decided once more after it. */
  function ExecutedThenLate(id: Id, requester: Id, other: Id, expiresAt: int): seq<Step> {
    [Create(id, Asked(requester, expiresAt)), Decide(id, other, true, expiresAt - 2),
     Consume(Use(id, requester, "op", "type", "target", "hash", expiresAt - 1)), Decide(id, other, true, expiresAt)]
  }

  /** Asked for, rejected, and decided once more after the expiry. */
  function RejectedThenLate(id: Id, requester: Id, other: Id, expiresAt: int): seq<Step> {
    [Create(id, Asked(requester, expiresAt)), Decide(id, other, false, expiresAt - 1), Decide(id, other, true, expiresAt)]
  }

  lemma RunOn(steps: seq<Step>, s: Step)
    ensures Run(steps + [s]) == Apply(Run(steps), s)
  {
    assert (steps + [s])[..|steps|] == steps;
  }

  lemma FirstDecision(id: Id, requester: Id, other: Id, approves: bool, expiresAt: int, at: int)
    requires requester != other && at < expiresAt
    ensures var w := Apply(Apply(EMPTY, Create(id, Asked(requester, expiresAt))), Decide(id, other, approves, at));
      id in w.approvals && w.approvals[id] == Asked(requester, expiresAt).(status := if approves then Approved else Rejected)
  {
    var d := Decision(id, other, approves, at);
    assert [d][..0] == [] && CountApprovals([], id) == 0;
    assert [] + [d] == [d];
  }

  /** An executed approval ends up labelled expired. */
  lemma ExecutedEndsExpired(id: Id, requester: Id, other: Id, expiresAt: int)
    requires requester != other
    ensures var steps := ExecutedThenLate(id, requester, other, expiresAt);
      && Run(steps[..3]).approvals == map[id := Asked(requester, expiresAt).(status := Executed, executedAt := Some(expiresAt - 1))]
      && |Run(steps).uses| == 1 && id in Run(steps).approvals && Run(steps).approvals[id].status == Expired
  {
    var steps := ExecutedThenLate(id, requester, other, expiresAt);
    FirstDecision(id, requester, other, true, expiresAt, expiresAt - 2);
    hide CountApprovals;
    assert Run([]) == EMPTY;
    assert steps[..1] == [] + [steps[0]] && steps[..2] == steps[..1] + [steps[1]];
    assert steps[..3] == steps[..2] + [steps[2]] && steps == steps[..3] + [steps[3]];
    RunOn([], steps[0]);
    RunOn(steps[..1], steps[1]);
    RunOn(steps[..2], steps[2]);
    RunOn(steps[..3], steps[3]);
    RelabelledIff(Run(steps[..3]), id, steps[3]);
    hide Run;
  }

  /** So does a rejected one. */
  lemma RejectedEndsExpired(id: Id, requester: Id, other: Id, expiresAt: int)
    requires requester != other
    ensures var steps := RejectedThenLate(id, requester, other, expiresAt);
      && id in Run(steps[..2]).approvals && Run(steps[..2]).approvals[id].status == Rejected
      && id in Run(steps).approvals && Run(steps).approvals[id].status == Expired
  {
    var steps := RejectedThenLate(id, requester, other, expiresAt);
    FirstDecision(id, requester, other, false, expiresAt, expiresAt - 1);
    hide CountApprovals;
    assert Run([]) == EMPTY;
    assert steps[..1] == [] + [steps[0]] && steps[..2] == steps[..1] + [steps[1]] && steps == steps[..2] + [steps[2]];
    RunOn([], steps[0]);
    RunOn(steps[..1], steps[1]);
    RunOn(steps[..2], steps[2]);
    RelabelledIff(Run(steps[..2]), id, steps[2]);
    hide Run;
  }

  /* ---- The same transactions on tables ---- */

  class Store {
    var approvals: map<Id, Approval>
    var decisions: seq<Decision>
    ghost var uses: seq<Use>

    ghost function State(): World
      reads this
    {
      World(approvals, decisions, uses)
    }

    constructor ()
      ensures State() == EMPTY
    {
      approvals, decisions, uses := map[], [], [];
    }

    method CreateAdminApproval(id: Id, a: Approval) returns (answer: Answer)
      modifies this
      ensures State() == Apply(old(State()), Create(id, a)) && answer == Verdict(old(State()), Create(id, a))
    {
      if id in approvals { return DuplicateId; }
      approvals := approvals[id := a.(status := Pending, executedAt := None)];
      answer := Done;
    }

    /** The sweep every read starts with, on the database's own clock. */
    method ExpireLapsed(only: Option<Id>, now: int)
      modifies this
      ensures State() == Apply(old(State()), Sweep(only, now))
    {
      approvals := map id | id in approvals ::
        if (only.None? || only.value == id) && Lapsed(approvals[id], now) then approvals[id].(status := Expired) else approvals[id];
    }

    method DecideAdminApproval(id: Id, account: Id, approves: bool, at: int) returns (answer: Answer)
      modifies this
      ensures State() == Apply(old(State()), Decide(id, account, approves, at))
      ensures answer == Verdict(old(State()), Decide(id, account, approves, at))
    {
      hide CountApprovals;
      if id !in approvals { return NotFound; }
      var a := approvals[id];
      if a.requester == account { return OwnApproval; }
      if a.expiresAt <= at {
        approvals := approvals[id := a.(status := Expired)];
        return Done;
      }
      if a.status != Pending { return NotPending; }
      if Decided(decisions, id, account) { return AlreadyDecided; }
      decisions := decisions + [Decision(id, account, approves, at)];
      var count := CountApprovals(decisions, id);
      var status := if !approves then Rejected else if count >= a.required then Approved else Pending;
      approvals := approvals[id := a.(status := status)];
      answer := Done;
    }

    method ConsumeAdminApproval(u: Use) returns (consumed: bool)
      modifies this
      ensures State() == Apply(old(State()), Consume(u)) && (consumed <==> Verdict(old(State()), Consume(u)) == Done)
    {
      consumed := u.approvalId in approvals && Matches(approvals[u.approvalId], u);
      if consumed {
        var a := approvals[u.approvalId];
        approvals := approvals[u.approvalId := a.(status := Executed, executedAt := Some(u.at))];
        uses := uses + [u];
      }
    }
  }
}

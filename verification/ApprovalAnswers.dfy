/** What each approval transaction answers and leaves behind, read off the approval and decision rows. */
module ApprovalAnswers {
  import opened Options
  import opened Approvals

  /** The administrator has a decision row for this very approval. */
  ghost predicate HasDecided(w: World, id: Id, account: Id) {
    exists i :: 0 <= i < |w.decisions| && w.decisions[i].approvalId == id && w.decisions[i].account == account
  }

  /** The different administrators with an approving row for it. */
  ghost function InFavour(w: World, id: Id): set<Id> {
    set i | 0 <= i < |w.decisions| && w.decisions[i].approvalId == id && w.decisions[i].approves :: w.decisions[i].account
  }

  /** Someone other than the requester, on an approval that is pending and has not expired. */
  ghost predicate MayDecide(w: World, id: Id, account: Id, at: int) {
    id in w.approvals && w.approvals[id].requester != account && at < w.approvals[id].expiresAt && w.approvals[id].status == Pending
  }

  /** Only one approval's row differs, and only in these two columns. */
  ghost predicate OnlyMoves(before: World, after: World, id: Id, status: Status, executedAt: Option<int>) {
    && after.approvals.Keys == before.approvals.Keys
    && forall k | k in before.approvals ::
         after.approvals[k] == if k == id then before.approvals[k].(status := status, executedAt := executedAt) else before.approvals[k]
  }

  lemma DecidedIs(w: World, id: Id, account: Id)
    ensures Decided(w.decisions, id, account) <==> HasDecided(w, id, account)
  {
    if Decided(w.decisions, id, account) {
      var d :| d in w.decisions && d.approvalId == id && d.account == account;
      var i :| 0 <= i < |w.decisions| && w.decisions[i] == d;
    }
  }

  lemma FavourIs(w: World, id: Id)
    ensures InFavour(w, id) == Approvers(w.decisions, id)
  {
    forall i | 0 <= i < |w.decisions| ensures w.decisions[i] in w.decisions {}
    forall x | x in Approvers(w.decisions, id) ensures x in InFavour(w, id) {
      var d :| d in w.decisions && d.approvalId == id && d.approves && d.account == x;
      var i :| 0 <= i < |w.decisions| && w.decisions[i] == d;
      assert w.decisions[i].account in InFavour(w, id);
    }
  }

  /** The count the store takes after writing the row is of different administrators. */
  lemma CountAfter(w: World, id: Id, account: Id, at: int)
    requires Inv(w) && id in w.approvals && w.approvals[id].requester != account && !HasDecided(w, id, account)
    ensures CountApprovals(w.decisions + [Decision(id, account, true, at)], id) == |InFavour(w, id) + {account}|
  {
    var d := Decision(id, account, true, at);
    var ds := w.decisions + [d];
    forall i, j | 0 <= i < j < |ds| ensures ds[i].approvalId != ds[j].approvalId || ds[i].account != ds[j].account {
      if j == |w.decisions| { assert ds[i] == w.decisions[i]; }
    }
    CountIsDistinct(ds, id);
    ApproversAppend(w.decisions, d, id);
    FavourIs(w, id);
    hide CountApprovals, Approvers, InFavour;
  }

  /** A decision is recorded exactly when its administrator may decide and has no row for this approval
      yet; then the approval is rejected, or approved once enough different administrators are in favour,
      or stays pending. */
  lemma DecisionRecordedIff(steps: seq<Step>, id: Id, account: Id, approves: bool, at: int)
    ensures var (w, s) := (Run(steps), Decide(id, account, approves, at));
      var after := Apply(w, s);
      var recorded := MayDecide(w, id, account, at) && !HasDecided(w, id, account);
      && (after.decisions == w.decisions + [Decision(id, account, approves, at)] <==> recorded)
      && (after.decisions == w.decisions <==> !recorded)
      && (recorded ==> OnlyMoves(w, after, id,
            if !approves then Rejected else if |InFavour(w, id) + {account}| >= w.approvals[id].required then Approved else Pending,
            w.approvals[id].executedAt))
      && after.uses == w.uses
  {
    RunKeepsInv(steps);
    var w := Run(steps);
    hide Run, Inv;
    DecidedIs(w, id, account);
    hide Decided, HasDecided, InFavour;
    if approves && MayDecide(w, id, account, at) && !HasDecided(w, id, account) { CountAfter(w, id, account, at); }
    hide CountApprovals;
    assert w.decisions + [Decision(id, account, approves, at)] != w.decisions by {
      assert |w.decisions + [Decision(id, account, approves, at)]| == |w.decisions| + 1;
    }
  }

  /** Otherwise nothing is recorded; an approval past its expiry is labelled expired, and the answer
      names the first check that fails. */
  lemma DecisionRefusedIff(steps: seq<Step>, id: Id, account: Id, approves: bool, at: int)
    ensures var (w, s) := (Run(steps), Decide(id, account, approves, at));
      var late := id in w.approvals && w.approvals[id].requester != account && w.approvals[id].expiresAt <= at;
      && (Verdict(w, s) == NotFound <==> id !in w.approvals)
      && (Verdict(w, s) == OwnApproval <==> id in w.approvals && w.approvals[id].requester == account)
      && (Verdict(w, s) == NotPending <==>
            && id in w.approvals && w.approvals[id].requester != account && at < w.approvals[id].expiresAt
            && w.approvals[id].status != Pending)
      && (Verdict(w, s) == AlreadyDecided <==> MayDecide(w, id, account, at) && HasDecided(w, id, account))
      && (Verdict(w, s) == Done <==> late || (MayDecide(w, id, account, at) && !HasDecided(w, id, account)))
      && (late ==> OnlyMoves(w, Apply(w, s), id, Expired, w.approvals[id].executedAt))
      && (Verdict(w, s) != Done ==> Apply(w, s) == w)
  {
    var w := Run(steps);
    hide Run;
    DecidedIs(w, id, account);
    hide Decided, HasDecided, CountApprovals;
  }

  /** An approval is made pending under a new id, with the terms asked for. */
  lemma CreationAnswers(w: World, id: Id, a: Approval)
    ensures Verdict(w, Create(id, a)) == Done <==> id !in w.approvals
    ensures var after := Apply(w, Create(id, a));
      if id in w.approvals then after == w
      else after == w.(approvals := w.approvals[id := Approval(a.requester, a.operation, a.targetType, a.targetId, a.requestHash,
                                                              Pending, a.required, a.expiresAt, None)])
  {
  }

  /** A sweep labels expired exactly the pending and approved approvals past their expiry, of all or of one. */
  lemma SweepLeaves(w: World, only: Option<Id>, now: int)
    ensures var after := Apply(w, Sweep(only, now));
      && after.decisions == w.decisions && after.uses == w.uses && after.approvals.Keys == w.approvals.Keys
      && forall k | k in w.approvals ::
           var a := w.approvals[k];
           after.approvals[k] == if (only == None || only == Some(k)) && (a.status == Pending || a.status == Approved) && a.expiresAt <= now
                                 then a.(status := Expired) else a
  {
  }

  /** An approval can be consumed exactly by its requester, while approved and before its expiry, for the
      operation, target and digest it was created with. */
  lemma ConsumptionIff(w: World, u: Use)
    ensures Verdict(w, Consume(u)) == Done <==>
      exists k :: k == u.approvalId && k in w.approvals && w.approvals[k].status == Approved && u.at < w.approvals[k].expiresAt
        && (w.approvals[k].requester, w.approvals[k].operation, w.approvals[k].targetType, w.approvals[k].targetId, w.approvals[k].requestHash)
           == (u.requester, u.operation, u.targetType, u.targetId, u.requestHash)
    ensures var after := Apply(w, Consume(u));
      if Verdict(w, Consume(u)) == Done
      then OnlyMoves(w, after, u.approvalId, Executed, Some(u.at)) && after.uses == w.uses + [u] && after.decisions == w.decisions
      else after == w
  {
  }
}

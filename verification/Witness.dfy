/** The audit witness's two tables: accepting receipts, restoring them from the object store. */
module Witness {
  import opened Options
  import opened Envelope

  /** The index row of a receipt's object; `stored` once the object is written and verified. */
  datatype Evidence = Evidence(receiptId: string, sourceId: string, chainSequence: nat, objectKey: string,
                               contentSha256: string, sizeBytes: nat, stored: bool)

  datatype Tables = Tables(receipts: seq<WitnessReceipt>, evidence: seq<Evidence>)

  const NO_ROWS: Tables := Tables([], [])

  datatype Reason =
    | AnchorReused | SequenceRollback | ConflictingHead | EvidenceMismatch | DuplicateRow
    | ConflictingEvidence | ReceiptIdConflict

  datatype Outcome = Inserted | Replayed | Rejected(reason: Reason)

  /* ---- Queries ---- */

  function FindFingerprint(rs: seq<WitnessReceipt>, sourceId: string, fingerprint: string): (r: Option<WitnessReceipt>)
    ensures r.Some? ==> r.value in rs && r.value.sourceId == sourceId && r.value.fingerprint == fingerprint
    ensures r.None? ==> forall x | x in rs :: x.sourceId != sourceId || x.fingerprint != fingerprint
  {
    if |rs| == 0 then None
    else if rs[0].sourceId == sourceId && rs[0].fingerprint == fingerprint then Some(rs[0])
    else FindFingerprint(rs[1..], sourceId, fingerprint)
  }

  function FindReceipt(rs: seq<WitnessReceipt>, id: string): (r: Option<WitnessReceipt>)
    ensures r.Some? ==> r.value in rs && r.value.id == id
    ensures r.None? ==> forall x | x in rs :: x.id != id
  {
    if |rs| == 0 then None else if rs[0].id == id then Some(rs[0]) else FindReceipt(rs[1..], id)
  }

  /** `ORDER BY chain_sequence DESC, received_at DESC LIMIT 1` over one source's rows. */
  function Latest(rs: seq<WitnessReceipt>, sourceId: string): (r: Option<WitnessReceipt>)
    ensures r.Some? ==> r.value in rs && r.value.sourceId == sourceId
    ensures r.Some? ==> forall x | x in rs && x.sourceId == sourceId :: x.chainSequence <= r.value.chainSequence
    ensures r.None? ==> forall x | x in rs :: x.sourceId != sourceId
  {
    if |rs| == 0 then None
    else
      var rest := Latest(rs[1..], sourceId);
      var first := rs[0];
      if first.sourceId != sourceId then rest
      else if rest.None? || first.chainSequence > rest.value.chainSequence
         || (first.chainSequence == rest.value.chainSequence && first.receivedAt >= rest.value.receivedAt)
      then Some(first)
      else rest
  }

  function FindEvidence(es: seq<Evidence>, sourceId: string, chainSequence: nat): (r: Option<Evidence>)
    ensures r.Some? ==> r.value in es && r.value.sourceId == sourceId && r.value.chainSequence == chainSequence
    ensures r.None? ==> forall x | x in es :: x.sourceId != sourceId || x.chainSequence != chainSequence
  {
    if |es| == 0 then None
    else if es[0].sourceId == sourceId && es[0].chainSequence == chainSequence then Some(es[0])
    else FindEvidence(es[1..], sourceId, chainSequence)
  }

  /** The unique columns of the evidence table. */
  predicate Clashes(x: Evidence, e: Evidence) {
    || x.receiptId == e.receiptId || x.objectKey == e.objectKey
    || (x.sourceId == e.sourceId && x.chainSequence == e.chainSequence)
  }

  predicate EvidenceTaken(es: seq<Evidence>, e: Evidence) {
    exists x | x in es :: Clashes(x, e)
  }

  predicate AnchorTaken(rs: seq<WitnessReceipt>, sourceId: string, anchorId: string) {
    exists x | x in rs :: x.sourceId == sourceId && x.anchorId == anchorId
  }

  predicate Belongs(e: Evidence, r: WitnessReceipt) {
    e.receiptId == r.id && e.sourceId == r.sourceId && e.chainSequence == r.chainSequence
  }

  /* ---- The two transactions ---- */

  function Ingest(t: Tables, r: WitnessReceipt, e: Option<Evidence>): (Tables, Outcome) {
    var latest := Latest(t.receipts, r.sourceId);
    if FindFingerprint(t.receipts, r.sourceId, r.fingerprint).Some? then (t, Replayed)
    else if AnchorTaken(t.receipts, r.sourceId, r.anchorId) then (t, Rejected(AnchorReused))
    else if latest.Some? && r.chainSequence < latest.value.chainSequence then (t, Rejected(SequenceRollback))
    else if latest.Some? && r.chainSequence == latest.value.chainSequence && r.headHash != latest.value.headHash
    then (t, Rejected(ConflictingHead))
    else if FindReceipt(t.receipts, r.id).Some? then (t, Rejected(DuplicateRow))
    else match e
      case None => (t.(receipts := t.receipts + [r]), Inserted)
      case Some(row) =>
        if !Belongs(row, r) then (t, Rejected(EvidenceMismatch))
        else if EvidenceTaken(t.evidence, row) then (t, Rejected(DuplicateRow))
        else (Tables(t.receipts + [r], t.evidence + [row]), Inserted)
  }

  function Restore(t: Tables, r: WitnessReceipt, e: Evidence): (Tables, Outcome) {
    var existing := FindEvidence(t.evidence, r.sourceId, r.chainSequence);
    var owner := if existing.Some? then FindReceipt(t.receipts, existing.value.receiptId) else None;
    if owner.Some? then
      if || owner.value.fingerprint != r.fingerprint || owner.value.headHash != r.headHash
         || existing.value.contentSha256 != e.contentSha256 || existing.value.objectKey != e.objectKey
      then (t, Rejected(ConflictingEvidence)) else (t, Replayed)
    else match FindReceipt(t.receipts, r.id)
      case Some(x) =>
        if x.sourceId != r.sourceId || x.fingerprint != r.fingerprint then (t, Rejected(ReceiptIdConflict))
        else if EvidenceTaken(t.evidence, e) then (t, Rejected(DuplicateRow))
        else (t.(evidence := t.evidence + [e.(stored := true)]), Inserted)
      case None =>
        if || AnchorTaken(t.receipts, r.sourceId, r.anchorId)
           || FindFingerprint(t.receipts, r.sourceId, r.fingerprint).Some?
           || EvidenceTaken(t.evidence, e)
        then (t, Rejected(DuplicateRow))
        else (Tables(t.receipts + [r], t.evidence + [e.(stored := true)]), Inserted)
  }

  datatype Op = IngestOp(receipt: WitnessReceipt, evidence: Option<Evidence>) | RestoreOp(receipt: WitnessReceipt, row: Evidence)

  function Step(t: Tables, op: Op): (Tables, Outcome) {
    match op
    case IngestOp(r, e) => Ingest(t, r, e)
    case RestoreOp(r, e) => Restore(t, r, e)
  }

  function Run(ops: seq<Op>): Tables {
    if |ops| == 0 then NO_ROWS else Step(Run(ops[..|ops| - 1]), ops[|ops| - 1]).0
  }

  /* ---- Sequences of a source only grow ---- */

  /** What signature and fingerprint checks leave of a receipt: its source's issuer, and the
      fingerprint of that issuer, sequence and head. */
  predicate Fits(env: Env, issuers: map<string, string>, r: WitnessReceipt) {
    && r.sourceId in issuers && r.issuer == issuers[r.sourceId]
    && r.fingerprint == Fingerprint(env, r.issuer, r.chainSequence, r.headHash)
  }

  lemma AcceptedFits(env: Env, r: WitnessReceipt, source: Source, issuers: map<string, string>)
    requires Accepted(env, r, source) && source.id in issuers && issuers[source.id] == source.issuer
    ensures Fits(env, issuers, r)
  {
    hide Fingerprint;
  }

  ghost predicate AllFit(env: Env, issuers: map<string, string>, rs: seq<WitnessReceipt>) {
    forall r | r in rs :: Fits(env, issuers, r)
  }

  ghost predicate Increasing(rs: seq<WitnessReceipt>) {
    forall i, j | 0 <= i < j < |rs| && rs[i].sourceId == rs[j].sourceId :: rs[i].chainSequence < rs[j].chainSequence
  }

  lemma SameHeadSameFingerprint(env: Env, issuers: map<string, string>, x: WitnessReceipt, r: WitnessReceipt)
    requires Fits(env, issuers, x) && Fits(env, issuers, r) && x.sourceId == r.sourceId
    requires x.chainSequence == r.chainSequence && x.headHash == r.headHash
    ensures x.fingerprint == r.fingerprint
  {
    hide Fingerprint;
  }

  /** An equal sequence with an equal head has an equal fingerprint and is a replay; so an inserted
      receipt is strictly above every earlier one of its source. */
  lemma {:induction false} InsertedIsAbove(env: Env, issuers: map<string, string>, t: Tables, r: WitnessReceipt, e: Option<Evidence>)
    requires AllFit(env, issuers, t.receipts) && Fits(env, issuers, r)
    requires Ingest(t, r, e).1 == Inserted
    ensures forall x | x in t.receipts && x.sourceId == r.sourceId :: x.chainSequence < r.chainSequence
  {
    hide Fits, EvidenceTaken, AnchorTaken, FindReceipt;
    var latest := Latest(t.receipts, r.sourceId);
    if latest.Some? && r.chainSequence == latest.value.chainSequence && r.headHash == latest.value.headHash {
      SameHeadSameFingerprint(env, issuers, latest.value, r);
    }
  }

  lemma IngestKeepsIncreasing(env: Env, issuers: map<string, string>, t: Tables, r: WitnessReceipt, e: Option<Evidence>)
    requires Increasing(t.receipts) && AllFit(env, issuers, t.receipts) && Fits(env, issuers, r)
    ensures Increasing(Ingest(t, r, e).0.receipts) && AllFit(env, issuers, Ingest(t, r, e).0.receipts)
  {
    if Ingest(t, r, e).1 == Inserted { InsertedIsAbove(env, issuers, t, r, e); }
    hide Fits, FindFingerprint, FindReceipt, Latest, EvidenceTaken, AnchorTaken;
    assert Ingest(t, r, e).0.receipts == if Ingest(t, r, e).1 == Inserted then t.receipts + [r] else t.receipts;
    hide Ingest;
  }

  lemma IncreasingMeansOneHead(t: Tables)
    requires Increasing(t.receipts)
    ensures OneHead(t)
  {
    forall x, y | x in t.receipts && y in t.receipts && x.sourceId == y.sourceId && x.chainSequence == y.chainSequence
      ensures x == y
    {
      var i :| 0 <= i < |t.receipts| && t.receipts[i] == x;
      var j :| 0 <= j < |t.receipts| && t.receipts[j] == y;
    }
  }

  /** Receipts accepted from a source carry strictly increasing chain sequences, so no sequence has
      two heads, for every run of submissions. */
  lemma {:induction false} AcceptedSequencesIncrease(env: Env, issuers: map<string, string>, ops: seq<Op>)
    requires forall i | 0 <= i < |ops| :: ops[i].IngestOp? && Fits(env, issuers, ops[i].receipt)
    ensures Increasing(Run(ops).receipts) && AllFit(env, issuers, Run(ops).receipts) && OneHead(Run(ops))
  {
    hide Fits, Ingest, Increasing, OneHead;
    if |ops| > 0 {
      var before := ops[..|ops| - 1];
      AcceptedSequencesIncrease(env, issuers, before);
      var op := ops[|ops| - 1];
      IngestKeepsIncreasing(env, issuers, Run(before), op.receipt, op.evidence);
    } else {
      assert Increasing(NO_ROWS.receipts) by { EmptyIncreasing(); }
    }
    IncreasingMeansOneHead(Run(ops));
  }

  lemma EmptyIncreasing()
    ensures Increasing(NO_ROWS.receipts)
  {
  }

  /* ---- One head per sequence, with restores interleaved ---- */

  ghost predicate OneHead(t: Tables) {
    forall x, y | x in t.receipts && y in t.receipts && x.sourceId == y.sourceId && x.chainSequence == y.chainSequence ::
      x.headHash == y.headHash
  }

  ghost predicate UniqueReceipts(rs: seq<WitnessReceipt>) {
    forall i, j | 0 <= i < j < |rs| ::
      && rs[i].id != rs[j].id
      && (rs[i].sourceId == rs[j].sourceId ==> rs[i].anchorId != rs[j].anchorId && rs[i].fingerprint != rs[j].fingerprint)
  }

  ghost predicate UniqueEvidence(es: seq<Evidence>) {
    forall i, j | 0 <= i < j < |es| :: !Clashes(es[i], es[j])
  }

  predicate HasEvidence(t: Tables, r: WitnessReceipt) {
    exists e | e in t.evidence :: Belongs(e, r)
  }

  /** Every evidence row belongs to a receipt, as the foreign key and the service have it. */
  ghost predicate Owned(t: Tables) {
    forall e | e in t.evidence :: exists r :: r in t.receipts && Belongs(e, r)
  }

  ghost predicate Covered(t: Tables) {
    forall r | r in t.receipts :: HasEvidence(t, r)
  }

  ghost predicate Sound(t: Tables) {
    UniqueReceipts(t.receipts) && UniqueEvidence(t.evidence) && Owned(t)
  }

  /** The submissions and recoveries the service makes when the object store is configured. */
  predicate WithEvidence(op: Op) {
    match op
    case IngestOp(r, e) => e.Some?
    case RestoreOp(r, e) => Belongs(e, r)
  }

  lemma OwnerOf(t: Tables, e: Evidence)
    requires Sound(t) && e in t.evidence
    ensures FindReceipt(t.receipts, e.receiptId).Some? && Belongs(e, FindReceipt(t.receipts, e.receiptId).value)
  {
    var r :| r in t.receipts && Belongs(e, r);
    var i :| 0 <= i < |t.receipts| && t.receipts[i] == r;
    var x := FindReceipt(t.receipts, e.receiptId).value;
    var j :| 0 <= j < |t.receipts| && t.receipts[j] == x;
    assert i == j;
  }

  lemma AddedPair(t: Tables, r: WitnessReceipt, e: Evidence)
    requires Sound(t) && Belongs(e, r) && !EvidenceTaken(t.evidence, e)
    requires forall x | x in t.receipts ::
      x.id != r.id && (x.sourceId == r.sourceId ==> x.anchorId != r.anchorId && x.fingerprint != r.fingerprint)
    ensures Sound(Tables(t.receipts + [r], t.evidence + [e]))
    ensures Covered(t) ==> Covered(Tables(t.receipts + [r], t.evidence + [e]))
  {
    var t' := Tables(t.receipts + [r], t.evidence + [e]);
    forall x | x in t'.evidence ensures exists y :: y in t'.receipts && Belongs(x, y) {
      if x in t.evidence {
        var y :| y in t.receipts && Belongs(x, y);
        assert y in t'.receipts;
      } else {
        assert r in t'.receipts && Belongs(x, r);
      }
    }
    if Covered(t) {
      forall y | y in t'.receipts ensures HasEvidence(t', y) {
        if y in t.receipts {
          assert HasEvidence(t, y);
          var x :| x in t.evidence && Belongs(x, y);
          assert x in t'.evidence;
        } else {
          assert e in t'.evidence;
        }
      }
    }
  }

  lemma StepKeepsSound(t: Tables, op: Op)
    requires Sound(t) && Covered(t) && WithEvidence(op)
    ensures Sound(Step(t, op).0) && Covered(Step(t, op).0)
  {
    hide Sound, Covered;
    match op
    case IngestOp(r, e) => IngestKeepsSound(t, r, e.value);
    case RestoreOp(r, e) => RestoreKeepsSound(t, r, e);
  }

  lemma IngestKeepsSound(t: Tables, r: WitnessReceipt, e: Evidence)
    requires Sound(t) && Covered(t)
    ensures Sound(Ingest(t, r, Some(e)).0) && Covered(Ingest(t, r, Some(e)).0)
  {
    hide Sound, Covered, Latest, Belongs, EvidenceTaken;
    if Ingest(t, r, Some(e)).1 == Inserted { AddedPair(t, r, e); }
  }

  lemma RestoreKeepsSound(t: Tables, r: WitnessReceipt, e: Evidence)
    requires Sound(t) && Covered(t) && Belongs(e, r)
    ensures Sound(Restore(t, r, e).0) && Covered(Restore(t, r, e).0)
  {
    hide Sound, Covered, FindEvidence, EvidenceTaken;
    var known := FindReceipt(t.receipts, r.id);
    if known.Some? { ReceiptHasEvidence(t, known.value, e); }
    if Restore(t, r, e).1 == Inserted {
      SameRow(t.evidence, e);
      AddedPair(t, r, e.(stored := true));
    }
  }

  lemma SameRow(es: seq<Evidence>, e: Evidence)
    ensures EvidenceTaken(es, e.(stored := true)) <==> EvidenceTaken(es, e)
  {
  }

  lemma ReceiptHasEvidence(t: Tables, x: WitnessReceipt, e: Evidence)
    requires Covered(t) && x in t.receipts && e.receiptId == x.id
    ensures EvidenceTaken(t.evidence, e)
  {
    assert HasEvidence(t, x);
  }

  /** When every submission carries evidence, recoveries may come in any order between them: a
      source's sequence still has one receipt, hence one head. */
  lemma {:induction false} OneReceiptPerSequence(ops: seq<Op>)
    requires forall op | op in ops :: WithEvidence(op)
    ensures Sound(Run(ops)) && Covered(Run(ops)) && OneHead(Run(ops))
    ensures forall i, j | 0 <= i < j < |Run(ops).receipts| && Run(ops).receipts[i].sourceId == Run(ops).receipts[j].sourceId ::
      Run(ops).receipts[i].chainSequence != Run(ops).receipts[j].chainSequence
  {
    hide Step, WithEvidence;
    if |ops| > 0 {
      var before := ops[..|ops| - 1];
      OneReceiptPerSequence(before);
      assert ops[|ops| - 1] in ops;
      StepKeepsSound(Run(before), ops[|ops| - 1]);
    }
    SoundMeansOnePerSequence(Run(ops));
  }

  lemma SameEvidence(es: seq<Evidence>, a: Evidence, b: Evidence)
    requires UniqueEvidence(es) && a in es && b in es && Clashes(a, b)
    ensures a == b
  {
    hide Clashes;
    var m :| 0 <= m < |es| && es[m] == a;
    var n :| 0 <= n < |es| && es[n] == b;
    ClashesEitherWay(a, b);
  }

  lemma ClashesEitherWay(a: Evidence, b: Evidence)
    ensures Clashes(a, b) <==> Clashes(b, a)
  {
  }

  lemma EvidenceOf(t: Tables, r: WitnessReceipt) returns (e: Evidence)
    requires HasEvidence(t, r)
    ensures e in t.evidence && Belongs(e, r)
  {
    e :| e in t.evidence && Belongs(e, r);
  }

  lemma OnePerSequence(t: Tables, i: nat, j: nat)
    requires Sound(t) && Covered(t) && i < |t.receipts| && j < |t.receipts|
    requires t.receipts[i].sourceId == t.receipts[j].sourceId && t.receipts[i].chainSequence == t.receipts[j].chainSequence
    ensures i == j
  {
    hide UniqueEvidence, HasEvidence, Owned;
    var x, y := t.receipts[i], t.receipts[j];
    assert HasEvidence(t, x) && HasEvidence(t, y);
    var a := EvidenceOf(t, x);
    var b := EvidenceOf(t, y);
    SameEvidence(t.evidence, a, b);
    assert x.id == y.id;
    hide Covered;
  }

  lemma SoundMeansOnePerSequence(t: Tables)
    requires Sound(t) && Covered(t)
    ensures OneHead(t)
    ensures forall i, j | 0 <= i < j < |t.receipts| && t.receipts[i].sourceId == t.receipts[j].sourceId ::
      t.receipts[i].chainSequence != t.receipts[j].chainSequence
  {
    hide Sound, Covered;
    forall i: nat, j: nat | i < |t.receipts| && j < |t.receipts| && t.receipts[i].sourceId == t.receipts[j].sourceId
                            && t.receipts[i].chainSequence == t.receipts[j].chainSequence
      ensures i == j
    {
      OnePerSequence(t, i, j);
    }
    forall x, y | x in t.receipts && y in t.receipts && x.sourceId == y.sourceId && x.chainSequence == y.chainSequence
      ensures x == y
    {
      var i :| 0 <= i < |t.receipts| && t.receipts[i] == x;
      var j :| 0 <= j < |t.receipts| && t.receipts[j] == y;
    }
  }

  /* ---- Without evidence, a restore can put a second head at a sequence ---- */

  /** The foreign key of the evidence table. */
  ghost predicate OwnersExist(t: Tables) {
    forall e | e in t.evidence :: exists r :: r in t.receipts && r.id == e.receiptId
  }

  /** What the two tables have to look like for a restore to go through as a new receipt. */
  predicate Unknown(t: Tables, r: WitnessReceipt, e: Evidence) {
    && FindEvidence(t.evidence, r.sourceId, r.chainSequence).None?
    && FindReceipt(t.receipts, r.id).None?
    && FindFingerprint(t.receipts, r.sourceId, r.fingerprint).None?
    && !AnchorTaken(t.receipts, r.sourceId, r.anchorId) && !EvidenceTaken(t.evidence, e)
  }

  /** A receipt of the table at the same place with another head. */
  predicate OtherHead(t: Tables, r: WitnessReceipt) {
    exists x | x in t.receipts :: x.sourceId == r.sourceId && x.chainSequence == r.chainSequence && x.headHash != r.headHash
  }

  lemma OwnerExists(t: Tables, e: Evidence)
    requires OwnersExist(t) && e in t.evidence
    ensures FindReceipt(t.receipts, e.receiptId).Some?
  {
    var r :| r in t.receipts && r.id == e.receiptId;
  }

  lemma RestoreInserts(t: Tables, r: WitnessReceipt, e: Evidence)
    requires OwnersExist(t)
    ensures Unknown(t, r, e) ==> Restore(t, r, e).0.receipts == t.receipts + [r]
    ensures !Unknown(t, r, e) ==> Restore(t, r, e).0.receipts == t.receipts
  {
    var existing := FindEvidence(t.evidence, r.sourceId, r.chainSequence);
    if existing.Some? { OwnerExists(t, existing.value); }
    hide FindEvidence, FindReceipt, FindFingerprint, AnchorTaken, EvidenceTaken, OwnersExist;
  }

  /** A restore looks for conflicts among receipts with evidence only. It breaks the rule exactly when
      no evidence is at its place, its own columns are free in both tables, and a receipt stands there
      with another head, as a receipt accepted without evidence can. */
  lemma RestoreKeepsOneHeadIff(t: Tables, r: WitnessReceipt, e: Evidence)
    requires OwnersExist(t) && OneHead(t)
    ensures OneHead(Restore(t, r, e).0) <==> !(Unknown(t, r, e) && OtherHead(t, r))
  {
    RestoreInserts(t, r, e);
    var t' := Restore(t, r, e).0;
    hide Unknown, OwnersExist, Restore;
    if Unknown(t, r, e) {
      assert r in t'.receipts && forall x | x in t.receipts :: x in t'.receipts;
    }
  }

  /* ---- All restores to come ---- */

  /** Every receipt has an evidence row at its source and sequence, its own or another's. */
  predicate Witnessed(t: Tables) {
    forall r | r in t.receipts :: FindEvidence(t.evidence, r.sourceId, r.chainSequence).Some?
  }

  function Restores(t: Tables, ops: seq<Op>): Tables {
    if |ops| == 0 then t else Step(Restores(t, ops[..|ops| - 1]), ops[|ops| - 1]).0
  }

  /** Restores, one after another, of any receipts. */
  predicate OnlyRestores(ops: seq<Op>) {
    forall op | op in ops :: op.RestoreOp? && Belongs(op.row, op.receipt)
  }

  lemma FoundStays(es: seq<Evidence>, e: Evidence, sourceId: string, chainSequence: nat)
    ensures FindEvidence(es, sourceId, chainSequence).Some? ==> FindEvidence(es + [e], sourceId, chainSequence).Some?
    ensures e.sourceId == sourceId && e.chainSequence == chainSequence ==> FindEvidence(es + [e], sourceId, chainSequence).Some?
  {
    var found := FindEvidence(es, sourceId, chainSequence);
    if found.Some? { assert found.value in es + [e]; }
    assert e in es + [e];
    hide FindEvidence;
  }

  lemma OwnersStay(t: Tables, t': Tables, row: Evidence)
    requires OwnersExist(t) && t.receipts <= t'.receipts && t'.evidence == t.evidence + [row]
    requires exists y :: y in t'.receipts && y.id == row.receiptId
    ensures OwnersExist(t')
  {
    forall x | x in t'.evidence ensures exists y :: y in t'.receipts && y.id == x.receiptId {
      if x in t.evidence {
        var y :| y in t.receipts && y.id == x.receiptId;
        assert y in t'.receipts;
      }
    }
  }

  lemma WitnessedStays(t: Tables, t': Tables, row: Evidence, r: WitnessReceipt)
    requires Witnessed(t) && (t'.receipts == t.receipts || t'.receipts == t.receipts + [r])
    requires t'.evidence == t.evidence + [row] && Belongs(row, r)
    ensures Witnessed(t')
  {
    hide FindEvidence;
    forall x | x in t'.receipts ensures FindEvidence(t'.evidence, x.sourceId, x.chainSequence).Some? {
      FoundStays(t.evidence, row, x.sourceId, x.chainSequence);
    }
  }

  lemma NoOtherHead(t: Tables, r: WitnessReceipt, e: Evidence)
    requires Witnessed(t) && Unknown(t, r, e)
    ensures !OtherHead(t, r)
  {
    hide FindEvidence;
  }

  lemma RestoreKeepsWitnessed(t: Tables, r: WitnessReceipt, e: Evidence)
    requires OwnersExist(t) && Witnessed(t) && OneHead(t) && Belongs(e, r)
    ensures var t' := Restore(t, r, e).0; OwnersExist(t') && Witnessed(t') && OneHead(t')
  {
    var t' := Restore(t, r, e).0;
    RestoreKeepsOneHeadIff(t, r, e);
    if Unknown(t, r, e) { NoOtherHead(t, r, e); }
    RestoreInserts(t, r, e);
    RestoreRows(t, r, e);
    hide OneHead, Restore, Unknown, OtherHead, OwnersExist, Witnessed;
    if t' != t {
      OwnersStay(t, t', e.(stored := true));
      WitnessedStays(t, t', e.(stored := true), r);
    }
  }

  /** The foreign key holds after every run. */
  lemma {:induction false} RunsKeepOwners(ops: seq<Op>)
    requires forall op | op in ops && op.RestoreOp? :: Belongs(op.row, op.receipt)
    ensures OwnersExist(Run(ops))
  {
    hide OwnersExist, Restore, Ingest;
    if |ops| == 0 {
      assert OwnersExist(NO_ROWS) by { NoOwners(); }
    } else {
      var before, op := ops[..|ops| - 1], ops[|ops| - 1];
      assert op in ops;
      RunsKeepOwners(before);
      var t := Run(before);
      match op
      case IngestOp(r, e) => IngestKeepsOwners(t, r, e);
      case RestoreOp(r, e) =>
        RestoreInserts(t, r, e);
        RestoreRows(t, r, e);
        if Restore(t, r, e).0 != t { OwnersStay(t, Restore(t, r, e).0, e.(stored := true)); }
    }
  }

  lemma NoOwners()
    ensures OwnersExist(NO_ROWS)
  {
  }

  lemma IngestKeepsOwners(t: Tables, r: WitnessReceipt, e: Option<Evidence>)
    requires OwnersExist(t)
    ensures OwnersExist(Ingest(t, r, e).0)
  {
    var t' := Ingest(t, r, e).0;
    hide FindFingerprint, FindReceipt, Latest, EvidenceTaken, AnchorTaken;
    if t' != t {
      assert r in t'.receipts;
      if e.Some? {
        hide Ingest, OwnersExist;
        OwnersStay(t, t', e.value);
      } else {
        forall x | x in t'.evidence ensures exists y :: y in t'.receipts && y.id == x.receiptId {
          var y :| y in t.receipts && y.id == x.receiptId;
          assert y in t'.receipts;
        }
      }
    }
  }

  lemma RestoreRows(t: Tables, r: WitnessReceipt, e: Evidence)
    requires OwnersExist(t) && Belongs(e, r)
    ensures var t' := Restore(t, r, e).0;
      t' == t || (t'.evidence == t.evidence + [e.(stored := true)] && exists y :: y in t'.receipts && y.id == e.receiptId)
    ensures Restore(t, r, e).0.evidence == t.evidence ==> Restore(t, r, e).0 == t
  {
    var t' := Restore(t, r, e).0;
    var known := FindReceipt(t.receipts, r.id);
    hide FindEvidence, FindReceipt, FindFingerprint, AnchorTaken, EvidenceTaken, OwnersExist;
    if t' != t {
      assert known.Some? ==> known.value in t'.receipts;
      assert known.None? ==> r in t'.receipts;
    }
  }

  lemma {:induction false} RestoresKeepWitnessed(t: Tables, ops: seq<Op>)
    requires OwnersExist(t) && Witnessed(t) && OneHead(t) && OnlyRestores(ops)
    ensures OwnersExist(Restores(t, ops)) && Witnessed(Restores(t, ops)) && OneHead(Restores(t, ops))
  {
    hide OwnersExist, Witnessed, OneHead, Restore;
    if |ops| > 0 {
      var before := ops[..|ops| - 1];
      assert ops[|ops| - 1] in ops;
      RestoresKeepWitnessed(t, before);
      RestoreKeepsWitnessed(Restores(t, before), ops[|ops| - 1].receipt, ops[|ops| - 1].row);
    }
  }
}

/** What the witness answers, read off its rows: one exact condition for every outcome of a submission
    and of a restore, and what either leaves behind. */
module WitnessAnswers {
  import opened Options
  import opened Envelope
  import opened Witness

  /* ---- Submissions ---- */

  /** The source already has a receipt with this fingerprint. */
  ghost predicate Seen(t: Tables, r: WitnessReceipt) {
    exists x | x in t.receipts :: x.sourceId == r.sourceId && x.fingerprint == r.fingerprint
  }

  ghost predicate NamesSeen(t: Tables, r: WitnessReceipt) {
    exists x | x in t.receipts :: x.sourceId == r.sourceId && x.anchorId == r.anchorId
  }

  ghost predicate HigherSeen(t: Tables, r: WitnessReceipt) {
    exists x | x in t.receipts :: x.sourceId == r.sourceId && x.chainSequence > r.chainSequence
  }

  ghost predicate PlaceSeen(t: Tables, r: WitnessReceipt) {
    exists x | x in t.receipts :: x.sourceId == r.sourceId && x.chainSequence == r.chainSequence
  }

  ghost predicate IdSeen(t: Tables, r: WitnessReceipt) { exists x | x in t.receipts :: x.id == r.id }

  ghost predicate RowTaken(t: Tables, e: Evidence) {
    exists y | y in t.evidence ::
      || y.receiptId == e.receiptId || y.objectKey == e.objectKey
      || (y.sourceId == e.sourceId && y.chainSequence == e.chainSequence)
  }

  ghost predicate OwnRow(e: Evidence, r: WitnessReceipt) {
    e.receiptId == r.id && e.sourceId == r.sourceId && e.chainSequence == r.chainSequence
  }

  /** A source's next receipt: a new fingerprint and anchor, above all it has had. */
  ghost predicate Advances(t: Tables, r: WitnessReceipt) {
    forall x | x in t.receipts && x.sourceId == r.sourceId ::
      x.fingerprint != r.fingerprint && x.anchorId != r.anchorId && x.chainSequence < r.chainSequence
  }

  /** A submission that fits its source is inserted exactly when it advances the source, its id is new,
      and its evidence row, if it brings one, is its own and free in every unique column. */
  lemma {:induction false} IngestInsertsIff(env: Env, issuers: map<string, string>, t: Tables, r: WitnessReceipt, e: Option<Evidence>)
    requires AllFit(env, issuers, t.receipts) && Fits(env, issuers, r)
    ensures Ingest(t, r, e).1 == Inserted <==>
      Advances(t, r) && !IdSeen(t, r) && (e.Some? ==> OwnRow(e.value, r) && !RowTaken(t, e.value))
    ensures Ingest(t, r, e).1 == Inserted ==>
      Ingest(t, r, e).0 == Tables(t.receipts + [r], t.evidence + if e.Some? then [e.value] else [])
    ensures Ingest(t, r, e).1 != Inserted ==> Ingest(t, r, e).0 == t
  {
    SamePlaceOtherHead(env, issuers, t, r);
    hide Fits;
    assert t.evidence + [] == t.evidence;
  }

  /** At one place of one source, another fingerprint is another head. */
  lemma SamePlaceOtherHead(env: Env, issuers: map<string, string>, t: Tables, r: WitnessReceipt)
    requires AllFit(env, issuers, t.receipts) && Fits(env, issuers, r)
    ensures forall x | x in t.receipts && x.sourceId == r.sourceId && x.chainSequence == r.chainSequence && x.headHash == r.headHash ::
      x.fingerprint == r.fingerprint
  {
    hide Fits;
    forall x | x in t.receipts && x.sourceId == r.sourceId && x.chainSequence == r.chainSequence && x.headHash == r.headHash
      ensures x.fingerprint == r.fingerprint
    {
      SameHeadSameFingerprint(env, issuers, x, r);
    }
  }

  /** Each other answer, in the order the checks are made. */
  lemma {:induction false} IngestRefusesIff(env: Env, issuers: map<string, string>, t: Tables, r: WitnessReceipt, e: Option<Evidence>)
    requires AllFit(env, issuers, t.receipts) && Fits(env, issuers, r)
    ensures var answer := Ingest(t, r, e).1;
      && (answer == Replayed <==> Seen(t, r))
      && (answer == Rejected(AnchorReused) <==> !Seen(t, r) && NamesSeen(t, r))
      && (answer == Rejected(SequenceRollback) <==> !Seen(t, r) && !NamesSeen(t, r) && HigherSeen(t, r))
      && (answer == Rejected(ConflictingHead) <==> !Seen(t, r) && !NamesSeen(t, r) && !HigherSeen(t, r) && PlaceSeen(t, r))
      && (answer == Rejected(DuplicateRow) <==>
            Advances(t, r) && (IdSeen(t, r) || (e.Some? && OwnRow(e.value, r) && RowTaken(t, e.value))))
      && (answer == Rejected(EvidenceMismatch) <==> Advances(t, r) && !IdSeen(t, r) && e.Some? && !OwnRow(e.value, r))
      && answer !in {Rejected(ConflictingEvidence), Rejected(ReceiptIdConflict)}
  {
    SamePlaceOtherHead(env, issuers, t, r);
    hide Fits;
  }

  /* ---- Restores ---- */

  /** The evidence at the receipt's place. */
  ghost predicate Standing(t: Tables, r: WitnessReceipt, y: Evidence) {
    y in t.evidence && y.sourceId == r.sourceId && y.chainSequence == r.chainSequence
  }

  ghost predicate NothingStanding(t: Tables, r: WitnessReceipt) {
    forall y | y in t.evidence :: y.sourceId != r.sourceId || y.chainSequence != r.chainSequence
  }

  /** With evidence at its place, a restore changes nothing: it is a replay exactly when that evidence
      and its receipt are of the same fingerprint, head, digest and key, and a conflict otherwise. */
  lemma RestoreOverIff(t: Tables, r: WitnessReceipt, e: Evidence, y: Evidence, x: WitnessReceipt)
    requires Sound(t) && Standing(t, r, y) && x in t.receipts && x.id == y.receiptId
    ensures Restore(t, r, e) ==
      (t, if x.fingerprint == r.fingerprint && x.headHash == r.headHash && y.contentSha256 == e.contentSha256 && y.objectKey == e.objectKey
          then Replayed else Rejected(ConflictingEvidence))
  {
    var found := FindEvidence(t.evidence, r.sourceId, r.chainSequence).value;
    assert found == y by { OnlyStanding(t, r, found, y); }
    var owner := FindReceipt(t.receipts, y.receiptId).value;
    assert owner == x by { OnlyOwner(t, owner, x); }
    hide FindEvidence, FindReceipt, FindFingerprint, AnchorTaken, EvidenceTaken, Sound;
  }

  lemma OnlyStanding(t: Tables, r: WitnessReceipt, a: Evidence, b: Evidence)
    requires Sound(t) && Standing(t, r, a) && Standing(t, r, b)
    ensures a == b
  {
    SameEvidence(t.evidence, a, b);
  }

  lemma OnlyOwner(t: Tables, x: WitnessReceipt, y: WitnessReceipt)
    requires Sound(t) && x in t.receipts && y in t.receipts && x.id == y.id
    ensures x == y
  {
    hide UniqueEvidence, Owned;
    var i :| 0 <= i < |t.receipts| && t.receipts[i] == x;
    var j :| 0 <= j < |t.receipts| && t.receipts[j] == y;
  }

  /** With none there, a receipt whose id is known only gets its evidence back, if it is the same
      receipt and the row is free. */
  lemma RestoreKnownIff(t: Tables, r: WitnessReceipt, e: Evidence, x: WitnessReceipt)
    requires Sound(t) && NothingStanding(t, r) && x in t.receipts && x.id == r.id
    ensures Restore(t, r, e) ==
      if x.sourceId != r.sourceId || x.fingerprint != r.fingerprint then (t, Rejected(ReceiptIdConflict))
      else if RowTaken(t, e) then (t, Rejected(DuplicateRow))
      else (t.(evidence := t.evidence + [e.(stored := true)]), Inserted)
  {
    assert FindEvidence(t.evidence, r.sourceId, r.chainSequence).None?;
    var found := FindReceipt(t.receipts, r.id).value;
    assert found == x by { OnlyOwner(t, found, x); }
    assert EvidenceTaken(t.evidence, e) <==> RowTaken(t, e);
    hide FindEvidence, FindReceipt, FindFingerprint, AnchorTaken, EvidenceTaken, Sound, RowTaken;
  }

  /** And an unknown receipt comes back, with its row, when both are free in every unique column. */
  lemma RestoreUnknownIff(t: Tables, r: WitnessReceipt, e: Evidence)
    requires NothingStanding(t, r) && !IdSeen(t, r)
    ensures Restore(t, r, e) ==
      if Seen(t, r) || NamesSeen(t, r) || RowTaken(t, e) then (t, Rejected(DuplicateRow))
      else (Tables(t.receipts + [r], t.evidence + [e.(stored := true)]), Inserted)
  {
    assert FindEvidence(t.evidence, r.sourceId, r.chainSequence).None? && FindReceipt(t.receipts, r.id).None?;
    assert FindFingerprint(t.receipts, r.sourceId, r.fingerprint).Some? <==> Seen(t, r);
    assert AnchorTaken(t.receipts, r.sourceId, r.anchorId) <==> NamesSeen(t, r);
    assert EvidenceTaken(t.evidence, e) <==> RowTaken(t, e);
    hide FindEvidence, FindReceipt, FindFingerprint, AnchorTaken, EvidenceTaken, RowTaken, Seen, NamesSeen;
  }

  /** These are all the cases there are: evidence that stands at the place has its receipt. */
  lemma StandingHasReceipt(t: Tables, r: WitnessReceipt) returns (y: Evidence, x: WitnessReceipt)
    requires Sound(t) && !NothingStanding(t, r)
    ensures Standing(t, r, y) && x in t.receipts && x.id == y.receiptId
  {
    hide UniqueReceipts, UniqueEvidence;
    y :| y in t.evidence && y.sourceId == r.sourceId && y.chainSequence == r.chainSequence;
    x :| x in t.receipts && Belongs(y, x);
  }
}

/** The witness tables and the object store as the service changes them, step by step. */
module WitnessStore {
  import opened Options
  import opened Envelope
  import opened Witness
  import opened Recovery
  import opened Retention
  import opened CheckedRecovery

  class Store {
    var receipts: seq<WitnessReceipt>
    var evidence: seq<Evidence>
    var objects: Objects

    ghost function State(): Kept
      reads this
    {
      Kept(Tables(receipts, evidence), objects)
    }

    constructor ()
      ensures State() == EMPTY
    {
      receipts, evidence, objects := [], [], map[];
    }

    /** Fingerprint replay, anchor reuse, rollback, fork, then the two inserts or neither. */
    method IngestAuditWitnessReceipt(r: WitnessReceipt, e: Option<Evidence>) returns (outcome: Outcome)
      modifies this`receipts, this`evidence
      ensures (State().tables, outcome) == Ingest(old(State()).tables, r, e)
    {
      hide FindFingerprint, FindReceipt, Latest, EvidenceTaken, AnchorTaken;
      if FindFingerprint(receipts, r.sourceId, r.fingerprint).Some? { return Replayed; }
      if AnchorTaken(receipts, r.sourceId, r.anchorId) { return Rejected(AnchorReused); }
      var latest := Latest(receipts, r.sourceId);
      if latest.Some? {
        var latestSequence := latest.value.chainSequence;
        if r.chainSequence < latestSequence { return Rejected(SequenceRollback); }
        if r.chainSequence == latestSequence && r.headHash != latest.value.headHash { return Rejected(ConflictingHead); }
      }
      if FindReceipt(receipts, r.id).Some? { return Rejected(DuplicateRow); }
      receipts := receipts + [r];
      if e.Some? {
        if !Belongs(e.value, r) {
          receipts := receipts[..|receipts| - 1];
          return Rejected(EvidenceMismatch);
        }
        if EvidenceTaken(evidence, e.value) {
          receipts := receipts[..|receipts| - 1];
          return Rejected(DuplicateRow);
        }
        evidence := evidence + [e.value];
      }
      outcome := Inserted;
    }

    method RestoreAuditWitnessEvidence(r: WitnessReceipt, e: Evidence) returns (outcome: Outcome)
      modifies this`receipts, this`evidence
      ensures (State().tables, outcome) == Witness.Restore(old(State()).tables, r, e)
      ensures |evidence| == |old(evidence)| + if outcome == Inserted then 1 else 0
      ensures outcome != Inserted ==> State() == old(State())
    {
      hide FindFingerprint, FindReceipt, FindEvidence, EvidenceTaken, AnchorTaken;
      var existing := FindEvidence(evidence, r.sourceId, r.chainSequence);
      if existing.Some? {
        var owner := FindReceipt(receipts, existing.value.receiptId);
        if owner.Some? {
          if || owner.value.fingerprint != r.fingerprint || owner.value.headHash != r.headHash
             || existing.value.contentSha256 != e.contentSha256 || existing.value.objectKey != e.objectKey
          {
            return Rejected(ConflictingEvidence);
          }
          return Replayed;
        }
      }
      var known := FindReceipt(receipts, r.id);
      if known.Some? {
        if known.value.sourceId != r.sourceId || known.value.fingerprint != r.fingerprint {
          return Rejected(ReceiptIdConflict);
        }
      } else {
        if AnchorTaken(receipts, r.sourceId, r.anchorId) || FindFingerprint(receipts, r.sourceId, r.fingerprint).Some? {
          return Rejected(DuplicateRow);
        }
        receipts := receipts + [r];
      }
      if EvidenceTaken(evidence, e) {
        if known.None? { receipts := receipts[..|receipts| - 1]; }
        return Rejected(DuplicateRow);
      }
      evidence := evidence + [e.(stored := true)];
      outcome := Inserted;
    }

    /** A conditional put under the settings of the moment; on a conflict the existing object has to have
        the same digest and size, and comes back with its own settings. */
    method PutObject(s: Worm, p: Policy, key: string, content: Content) returns (found: Option<Object>)
      modifies this`objects
      ensures (objects, found) == Retention.Put(s, p, old(objects), key, content)
      ensures forall k | k in old(objects) :: k in objects && objects[k] == old(objects)[k]
    {
      if key in objects {
        var existing := objects[key];
        if s.sha(existing.body) != s.sha(content.body) || |existing.body| != |content.body| { return None; }
        found := Some(existing);
      } else {
        var added := ObjectUnder(s, p, content);
        objects := objects[key := added];
        found := Some(added);
      }
    }

    /** The work of one claimed row: digest check, put, check of what is stored, mark. `finishes` is
        whether its last update still finds the lease. */
    method StoreEvidence(c: Config, s: Worm, p: Policy, id: string, finishes: bool) returns (stored: bool)
      modifies this`evidence, this`objects
      ensures State() == StoreChecked(c, s, p, old(State()), id, finishes)
      ensures stored <==> finishes && Settles(c, s, p, old(State()), id)
      ensures stored ==> forall e | e in evidence && e.receiptId == id :: e.stored
    {
      hide FindReceipt, MarkStored, KeyOf, Body, EvidenceFor, Retention.Put, Verified;
      stored := false;
      var receipt := FindReceipt(receipts, id);
      if receipt.None? || EvidenceFor(c, receipt.value) !in evidence { return; }
      var content := ContentOf(c, receipt.value);
      var found := PutObject(s, p, KeyOf(c, receipt.value), content);
      if found.Some? && Verified(s, p, found.value, content) && finishes {
        evidence := MarkStored(evidence, id);
        stored := true;
      }
    }

    /** One page of the recovery: every listed object is read, checked and restored in turn. */
    method RecoverEvidence(c: Config, s: Worm, q: Policy, keys: seq<string>, now: int)
      returns (ok: bool, processed: nat, restored: nat, replayed: nat)
      modifies this`receipts, this`evidence
      ensures processed == restored + replayed <= |keys| && |evidence| == |old(evidence)| + restored
      ensures RecoverChecked(c, s, q, old(State()).tables, objects, keys[..processed], now) == Some(State().tables)
      ensures ok ==> processed == |keys| && RecoverChecked(c, s, q, old(State()).tables, objects, keys, now) == Some(State().tables)
      ensures !ok ==> processed < |keys| && RecoverChecked(c, s, q, old(State()).tables, objects, keys[..processed + 1], now).None?
    {
      hide ReadObject, Witness.Restore, EvidenceFor, Verified;
      processed, restored, replayed := 0, 0, 0;
      for i := 0 to |keys|
        invariant i == processed == restored + replayed && |evidence| == |old(evidence)| + restored
        invariant RecoverChecked(c, s, q, old(State()).tables, objects, keys[..i], now) == Some(State().tables)
      {
        assert keys[..i + 1][..i] == keys[..i];
        assert RecoverChecked(c, s, q, old(State()).tables, objects, keys[..i + 1], now)
            == if Passes(c, s, q, objects, keys[i], now) then RecoverObject(c, State().tables, Bodies(objects), keys[i], now) else None;
        if keys[i] !in objects { return false, processed, restored, replayed; }
        var listed := objects[keys[i]];
        var receipt := ReadObject(c, keys[i], listed.body, now);
        if receipt.None? || !Verified(s, q, listed, Content(listed.body, receipt.value.receivedAt)) {
          return false, processed, restored, replayed;
        }
        var outcome := RestoreAuditWitnessEvidence(receipt.value, EvidenceFor(c, receipt.value));
        if outcome.Rejected? { return false, processed, restored, replayed; }
        processed := processed + 1;
        if outcome == Replayed { replayed := replayed + 1; } else { restored := restored + 1; }
      }
      assert keys[..|keys|] == keys;
      ok := true;
    }
  }

  /** Where every object meets today's settings, a recovered page leaves nothing for a second pass to
      restore: the counters say so too. */
  method RecoverTwice(store: Store, c: Config, s: Worm, q: Policy, past: Recovery.World, keys: seq<string>, again: seq<string>, now: int)
    returns (restored: nat, second: nat)
    requires Backed(c, past) && IsoExact(c.env) && ReceivedBy(past.tables, now)
    requires (set k | k in keys) == past.bucket.Keys && forall k | k in again :: k in past.bucket
    requires Plain(store.State()) == Recovery.World(NO_ROWS, past.bucket) && AllPass(c, s, q, store.objects, keys, now)
    modifies store`receipts, store`evidence
    ensures forall r :: r in store.receipts <==> r in past.tables.receipts && Recovery.KeyOf(c, r) in past.bucket
    ensures second == 0
  {
    hide Backed, Recover, ReceivedBy, IsoExact, RecoverChecked, Passes, Bodies, AllPass, Recovery.KeyOf;
    ghost var objects := store.objects;
    PlanTwice(c, s, q, past, objects, keys, again, now);
    var ok, processed, replayed;
    ok, processed, restored, replayed := store.RecoverEvidence(c, s, q, keys, now);
    assert ok by { PrefixRecovers(c, s, q, NO_ROWS, objects, keys, processed, now); }
    ghost var after := store.State().tables;
    ok, processed, second, replayed := store.RecoverEvidence(c, s, q, again, now);
    assert ok by { PrefixRecovers(c, s, q, after, objects, again, processed, now); }
  }

  /** What the two passes come to. */
  lemma PlanTwice(c: Config, s: Worm, q: Policy, past: Recovery.World, objects: Objects, keys: seq<string>, again: seq<string>, now: int)
    requires Backed(c, past) && IsoExact(c.env) && ReceivedBy(past.tables, now) && Bodies(objects) == past.bucket
    requires (set k | k in keys) == past.bucket.Keys && forall k | k in again :: k in past.bucket
    requires AllPass(c, s, q, objects, keys, now)
    ensures RecoverChecked(c, s, q, NO_ROWS, objects, keys, now).Some?
    ensures var t := RecoverChecked(c, s, q, NO_ROWS, objects, keys, now).value;
      && (forall r :: r in t.receipts <==> r in past.tables.receipts && Recovery.KeyOf(c, r) in past.bucket)
      && RecoverChecked(c, s, q, t, objects, again, now) == Some(t)
  {
    hide Backed, Recover, ReceivedBy, IsoExact, RecoverChecked, Passes, Bodies, Recovery.KeyOf;
    assert forall k | k in again :: k in set k | k in keys;
    assert AllPass(c, s, q, objects, again, now);
    RecoveryRebuilds(c, past, keys, again, now);
    CheckedIsPlain(c, s, q, NO_ROWS, objects, keys, now);
    CheckedIsPlain(c, s, q, Recover(c, NO_ROWS, past.bucket, keys, now).value, objects, again, now);
  }

  lemma {:induction false} PrefixRecovers(c: Config, s: Worm, q: Policy, t: Tables, objects: Objects, keys: seq<string>, n: nat, now: int)
    requires RecoverChecked(c, s, q, t, objects, keys, now).Some?
    ensures n < |keys| ==> RecoverChecked(c, s, q, t, objects, keys[..n + 1], now).Some?
    decreases |keys|
  {
    hide RecoverObject, Passes;
    if n + 1 < |keys| {
      PrefixRecovers(c, s, q, t, objects, keys[..|keys| - 1], n, now);
      assert keys[..|keys| - 1][..n + 1] == keys[..n + 1];
    } else if n + 1 == |keys| {
      assert keys[..n + 1] == keys;
    }
  }
}

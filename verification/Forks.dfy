/** When a recovery can put a second head at a sequence: over the restores the service makes, and from
    an empty witness. */
module Forks {
  import opened Options
  import opened Envelope
  import opened Witness
  import opened Recovery
  import LiveRecovery
  import Rewrites
  import AuditChain

  /** What the tables have to lack, and to hold, for a restore of the receipt to fork its sequence. */
  ghost predicate CanFork(c: Config, t: Tables, y: WitnessReceipt) {
    Unknown(t, y, EvidenceFor(c, y)) && OtherHead(t, y)
  }

  ghost predicate RestoresOf(c: Config, from: iset<WitnessReceipt>, ops: seq<Op>) {
    forall op | op in ops :: op.RestoreOp? && op.receipt in from && op.row == EvidenceFor(c, op.receipt)
  }

  ghost function GenuineReceipts(c: Config): iset<WitnessReceipt> { iset y | FromSource(c, y) }

  ghost function Stored(c: Config, b: Bucket): iset<WitnessReceipt> { iset x | LiveRecovery.IsObject(c, b, x) }

  lemma OwnEvidence(c: Config, y: WitnessReceipt)
    ensures Belongs(EvidenceFor(c, y), y)
  {
    hide KeyOf, Body;
  }

  /** A restore makes no receipt able to fork that was not before. */
  lemma NoNewForks(c: Config, t: Tables, x: WitnessReceipt, y: WitnessReceipt)
    requires OwnersExist(t) && OneHead(t) && !CanFork(c, t, x) && !CanFork(c, t, y)
    ensures var t' := Restore(t, x, EvidenceFor(c, x)).0; OwnersExist(t') && OneHead(t') && !CanFork(c, t', y)
  {
    OwnEvidence(c, x);
    hide EvidenceFor;
    var e := EvidenceFor(c, x);
    var t' := Restore(t, x, e).0;
    RestoreKeepsOneHeadIff(t, x, e);
    RestoreInserts(t, x, e);
    RestoreRows(t, x, e);
    hide Restore;
    if t' != t {
      OwnersStay(t, t', e.(stored := true));
      if CanFork(c, t', y) { UnknownBefore(t, t', e.(stored := true), x, y, EvidenceFor(c, y)); }
    }
  }

  /** A receipt the larger tables do not know, and whose place the new one does not take. */
  lemma UnknownBefore(t: Tables, t': Tables, row: Evidence, x: WitnessReceipt, y: WitnessReceipt, e: Evidence)
    requires Belongs(row, x) && t'.evidence == t.evidence + [row] && (t'.receipts == t.receipts || t'.receipts == t.receipts + [x])
    requires Unknown(t', y, e) && OtherHead(t', y)
    ensures Unknown(t, y, e) && OtherHead(t, y)
  {
    FoundStays(t.evidence, row, y.sourceId, y.chainSequence);
    hide FindEvidence;
    assert forall z | z in t.receipts :: z in t'.receipts;
    assert forall z | z in t.evidence :: z in t'.evidence;
    FewerUnknown(t.receipts, t'.receipts, y);
    hide FindReceipt, FindFingerprint;
  }

  lemma FewerUnknown(rs: seq<WitnessReceipt>, more: seq<WitnessReceipt>, y: WitnessReceipt)
    requires forall z | z in rs :: z in more
    ensures FindReceipt(more, y.id).None? ==> FindReceipt(rs, y.id).None?
    ensures FindFingerprint(more, y.sourceId, y.fingerprint).None? ==> FindFingerprint(rs, y.sourceId, y.fingerprint).None?
  {
  }

  lemma {:induction false} RestoresKeepOneHead(c: Config, t: Tables, from: iset<WitnessReceipt>, ops: seq<Op>)
    requires OwnersExist(t) && OneHead(t) && RestoresOf(c, from, ops) && forall y | y in from :: !CanFork(c, t, y)
    ensures var t' := Restores(t, ops); OwnersExist(t') && OneHead(t') && forall y | y in from :: !CanFork(c, t', y)
  {
    hide OwnersExist, OneHead, CanFork, Restore;
    if |ops| > 0 {
      var before := ops[..|ops| - 1];
      var op := ops[|ops| - 1];
      assert op in ops;
      RestoresKeepOneHead(c, t, from, before);
      forall y | y in from ensures !CanFork(c, Restores(t, ops), y) { NoNewForks(c, Restores(t, before), op.receipt, y); }
      NoNewForks(c, Restores(t, before), op.receipt, op.receipt);
    }
  }

  lemma OneRestore(c: Config, t: Tables, y: WitnessReceipt)
    requires OwnersExist(t) && OneHead(t) && CanFork(c, t, y)
    ensures !OneHead(Restores(t, [RestoreOp(y, EvidenceFor(c, y))]))
  {
    hide OwnersExist, OneHead, EvidenceFor, Unknown, OtherHead;
    RestoreKeepsOneHeadIff(t, y, EvidenceFor(c, y));
    hide Restore;
    var op := RestoreOp(y, EvidenceFor(c, y));
    assert [op][..0] == [] && Restores(t, []) == t;
  }

  /** From given tables, no run of restores of receipts from a given set can ever fork a sequence
      exactly when none of them is unknown to the tables while another head stands at its place. */
  lemma ForksIff(c: Config, t: Tables, from: iset<WitnessReceipt>)
    requires OwnersExist(t) && OneHead(t)
    ensures (forall ops | RestoresOf(c, from, ops) :: OneHead(Restores(t, ops))) <==> forall y | y in from :: !CanFork(c, t, y)
  {
    hide OwnersExist, OneHead, CanFork, EvidenceFor, Restores;
    if forall y | y in from :: !CanFork(c, t, y) {
      forall ops | RestoresOf(c, from, ops) ensures OneHead(Restores(t, ops)) { RestoresKeepOneHead(c, t, from, ops); }
    } else {
      var y :| y in from && CanFork(c, t, y);
      assert RestoresOf(c, from, [RestoreOp(y, EvidenceFor(c, y))]);
      OneRestore(c, t, y);
    }
  }

  /** Over all genuine receipts, which are those the service lets through to a restore. */
  lemma NoRestoreForksIff(c: Config, t: Tables)
    requires OwnersExist(t) && OneHead(t)
    ensures (forall ops | RestoresOf(c, GenuineReceipts(c), ops) :: OneHead(Restores(t, ops)))
       <==> !exists y :: FromSource(c, y) && CanFork(c, t, y)
  {
    hide OwnersExist, OneHead, CanFork, RestoresOf, Restores, FromSource;
    ForksIff(c, t, GenuineReceipts(c));
  }

  /** Evidence at every receipt's place is enough. */
  lemma WitnessedCannotFork(c: Config, t: Tables, y: WitnessReceipt)
    requires Witnessed(t)
    ensures !CanFork(c, t, y)
  {
    hide EvidenceFor, FindEvidence;
  }

  /* ---- Pages over the store ---- */

  lemma {:induction false} PageRestores(c: Config, t: Tables, b: Bucket, keys: seq<string>, now: int) returns (ops: seq<Op>)
    requires IsoExact(c.env) && LiveRecovery.ObjectsGenuine(c, b) && LiveRecovery.ObjectsBy(c, b, now)
    requires Recover(c, t, b, keys, now).Some?
    ensures RestoresOf(c, Stored(c, b), ops)
    ensures Recover(c, t, b, keys, now).value == Restores(t, ops)
  {
    hide IsoExact, LiveRecovery.ObjectsGenuine, LiveRecovery.ObjectsBy, LiveRecovery.IsObject, RecoverObject, EvidenceFor, Restore, KeyOf;
    if |keys| == 0 {
      ops := [];
    } else {
      var before := PageRestores(c, t, b, keys[..|keys| - 1], now);
      var m := Restores(t, before);
      LiveRecovery.RecoversListed(c, m, b, keys[|keys| - 1], now);
      var x := LiveRecovery.ObjectAt(c, b, keys[|keys| - 1]);
      LiveRecovery.ObjectTimely(c, b, x, now);
      LiveRecovery.RecoverObjectRestores(c, m, b, x, now);
      var op := RestoreOp(x, EvidenceFor(c, x));
      ops := before + [op];
      assert ops[..|ops| - 1] == before;
    }
  }

  lemma {:induction false} PageTablesRestore(c: Config, t: Tables, b: Bucket, keys: seq<string>, now: int) returns (ops: seq<Op>)
    requires IsoExact(c.env) && LiveRecovery.ObjectsGenuine(c, b) && LiveRecovery.ObjectsBy(c, b, now)
    ensures RestoresOf(c, Stored(c, b), ops)
    ensures LiveRecovery.PageTables(c, t, b, keys, now) == Restores(t, ops)
  {
    hide IsoExact, LiveRecovery.ObjectsGenuine, LiveRecovery.ObjectsBy, LiveRecovery.IsObject, Recover, EvidenceFor, Restore;
    if Recover(c, t, b, keys, now).Some? {
      ops := PageRestores(c, t, b, keys, now);
    } else if |keys| == 0 {
      ops := [];
    } else {
      ops := PageTablesRestore(c, t, b, keys[..|keys| - 1], now);
    }
  }

  lemma ForkingPage(c: Config, t: Tables, b: Bucket, x: WitnessReceipt, now: int)
    requires OwnersExist(t) && OneHead(t) && IsoExact(c.env) && LiveRecovery.ObjectsBy(c, b, now)
    requires LiveRecovery.IsObject(c, b, x) && CanFork(c, t, x)
    ensures KeyOf(c, x) in b && !OneHead(LiveRecovery.PageTables(c, t, b, [KeyOf(c, x)], now))
  {
    LiveRecovery.ObjectTimely(c, b, x, now);
    LiveRecovery.ObjectInBucket(c, b, x);
    hide OwnersExist, IsoExact, LiveRecovery.ObjectsBy, LiveRecovery.IsObject, KeyOf, EvidenceFor, RecoverObject;
    LiveRecovery.RecoverObjectRestores(c, t, b, x, now);
    RestoreKeepsOneHeadIff(t, x, EvidenceFor(c, x));
    assert Restore(t, x, EvidenceFor(c, x)).0 != t;
    LiveRecovery.RefusedStays(t, x, EvidenceFor(c, x));
    hide Restore, OneHead, CanFork;
    assert [KeyOf(c, x)][..0] == [] && Recover(c, t, b, [], now) == Some(t);
  }

  /** No recovery of listed objects can fork a sequence exactly when no object of the store is unknown
      to the tables while another head stands at its place. */
  lemma NoRecoveryForksIff(c: Config, t: Tables, b: Bucket, now: int)
    requires OwnersExist(t) && OneHead(t)
    requires IsoExact(c.env) && LiveRecovery.ObjectsGenuine(c, b) && LiveRecovery.ObjectsBy(c, b, now)
    ensures (forall keys: seq<string> :: OneHead(LiveRecovery.PageTables(c, t, b, keys, now)))
       <==> !exists x :: LiveRecovery.IsObject(c, b, x) && CanFork(c, t, x)
  {
    hide OwnersExist, OneHead, CanFork, IsoExact, LiveRecovery.ObjectsGenuine, LiveRecovery.ObjectsBy, LiveRecovery.IsObject;
    hide LiveRecovery.PageTables, RestoresOf, Restores, KeyOf;
    if x :| LiveRecovery.IsObject(c, b, x) && CanFork(c, t, x) {
      ForkingPage(c, t, b, x, now);
    } else {
      forall keys: seq<string> ensures OneHead(LiveRecovery.PageTables(c, t, b, keys, now)) {
        var ops := PageTablesRestore(c, t, b, keys, now);
        RestoresKeepOneHead(c, t, Stored(c, b), ops);
      }
    }
  }

  /* ---- A run that forks ---- */

  lemma StoredThenLost(c: Config, x: WitnessReceipt)
    ensures LiveRecovery.RunFrom(c, EMPTY_WORLD, [LiveRecovery.Submit(x), LiveRecovery.Work(x.id, true), LiveRecovery.Lose])
         == World(NO_ROWS, map[KeyOf(c, x) := Body(c, x)])
  {
    hide KeyOf, Body, EvidenceFor, Ingest, StoreObject;
    assert LiveRecovery.RunFrom(c, EMPTY_WORLD, []) == EMPTY_WORLD;
    LiveRecovery.Replaying(c, EMPTY_WORLD, [], LiveRecovery.Submit(x));
    LiveRecovery.FirstSubmitted(c, map[], x);
    LiveRecovery.Replaying(c, EMPTY_WORLD, [LiveRecovery.Submit(x)], LiveRecovery.Work(x.id, true));
    LiveRecovery.FirstStored(c, x);
    LiveRecovery.Replaying(c, EMPTY_WORLD, [LiveRecovery.Submit(x), LiveRecovery.Work(x.id, true)], LiveRecovery.Lose);
    assert [] + [LiveRecovery.Submit(x)] == [LiveRecovery.Submit(x)];
    assert [LiveRecovery.Submit(x)] + [LiveRecovery.Work(x.id, true)] == [LiveRecovery.Submit(x), LiveRecovery.Work(x.id, true)];
    assert [LiveRecovery.Submit(x), LiveRecovery.Work(x.id, true)] + [LiveRecovery.Lose]
        == [LiveRecovery.Submit(x), LiveRecovery.Work(x.id, true), LiveRecovery.Lose];
  }

  lemma BareSubmit(r: WitnessReceipt)
    ensures Ingest(NO_ROWS, r, None) == (Tables([r], []), Inserted)
  {
    assert [] + [r] == [r];
  }

  lemma AloneCanFork(c: Config, r: WitnessReceipt, x: WitnessReceipt)
    requires r.sourceId == x.sourceId && r.chainSequence == x.chainSequence && r.headHash != x.headHash
    requires r.id != x.id && r.anchorId != x.anchorId && r.fingerprint != x.fingerprint
    ensures CanFork(c, Tables([r], []), x) && OwnersExist(Tables([r], [])) && OneHead(Tables([r], []))
  {
    hide EvidenceFor;
    assert r in [r];
  }

  lemma OtherFingerprint(c: Config, r: WitnessReceipt, x: WitnessReceipt) returns (collision: Option<(string, string)>)
    requires FromSource(c, r) && FromSource(c, x) && r.sourceId == x.sourceId && r.headHash != x.headHash
    ensures match collision
      case Some((a, b)) => AuditChain.Collision(c.env.hashing, a, b)
      case None => r.fingerprint != x.fingerprint
  {
    Rewrites.SourceFits(c, r);
    Rewrites.SourceFits(c, x);
    hide FromSource, Fits, AuditChain.Collision;
    collision := None;
    if r.fingerprint == x.fingerprint { collision := Rewrites.SameFingerprint(c.env, Rewrites.Issuers(c), r, x); }
  }

  /** A source gives two heads for one sequence. The first is stored with its evidence and the tables
      are lost; the second is accepted while no store is configured, so without evidence; and the
      recovery of the first's object puts both heads side by side, unless their fingerprints collide. */
  lemma RecoveryCanFork(c: Config, x: WitnessReceipt, r: WitnessReceipt, now: int) returns (collision: Option<(string, string)>)
    requires FromSource(c, x) && FromSource(c, r) && IsoExact(c.env) && x.receivedAt <= now
    requires r.sourceId == x.sourceId && r.chainSequence == x.chainSequence && r.headHash != x.headHash
    requires r.id != x.id && r.anchorId != x.anchorId
    ensures var w := LiveRecovery.RunFrom(c, EMPTY_WORLD, [LiveRecovery.Submit(x), LiveRecovery.Work(x.id, true), LiveRecovery.Lose]);
      var t := Ingest(w.tables, r, None).0;
      match collision
      case Some((a, b)) => AuditChain.Collision(c.env.hashing, a, b)
      case None =>
        && Recover(c, t, w.bucket, [KeyOf(c, x)], now).Some?
        && Recover(c, t, w.bucket, [KeyOf(c, x)], now).value.receipts == [r, x]
        && !OneHead(Recover(c, t, w.bucket, [KeyOf(c, x)], now).value)
  {
    StoredThenLost(c, x);
    BareSubmit(r);
    collision := OtherFingerprint(c, r, x);
    if collision.None? { ForkedPage(c, map[KeyOf(c, x) := Body(c, x)], r, x, now); }
    hide LiveRecovery.RunFrom, Ingest, Recover, FromSource, IsoExact, KeyOf, Body, OneHead;
  }

  lemma ForkedPage(c: Config, b: Bucket, r: WitnessReceipt, x: WitnessReceipt, now: int)
    requires FromSource(c, x) && IsoExact(c.env) && x.receivedAt <= now && b == map[KeyOf(c, x) := Body(c, x)]
    requires r.sourceId == x.sourceId && r.chainSequence == x.chainSequence && r.headHash != x.headHash
    requires r.id != x.id && r.anchorId != x.anchorId && r.fingerprint != x.fingerprint
    ensures var page := Recover(c, Tables([r], []), b, [KeyOf(c, x)], now);
      page.Some? && page.value.receipts == [r, x] && !OneHead(page.value)
  {
    var t := Tables([r], []);
    AloneCanFork(c, r, x);
    LiveRecovery.NewIsObject(c, b, x);
    hide FromSource, IsoExact, KeyOf, Body, EvidenceFor, LiveRecovery.IsObject, RecoverObject, OwnersExist, OneHead;
    LiveRecovery.RecoverObjectRestores(c, t, b, x, now);
    RestoreInserts(t, x, EvidenceFor(c, x));
    RestoreKeepsOneHeadIff(t, x, EvidenceFor(c, x));
    LiveRecovery.RefusedStays(t, x, EvidenceFor(c, x));
    hide Restore, CanFork;
    assert [KeyOf(c, x)][..0] == [] && Recover(c, t, b, [], now) == Some(t);
    assert [r] + [x] == [r, x];
  }
}

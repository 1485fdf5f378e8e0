/** What an audit chain cannot do once its heads are witnessed: give the same sequence another past. */
module Rewrites {
  import opened Options
  import opened CanonicalJson
  import opened Records
  import opened Envelope
  import opened Witness
  import Recovery
  import LiveRecovery
  import opened AuditChain

  function FingerprintJson(issuer: string, sequence: nat, headHash: string): Json {
    Obj(Record(FINGERPRINT_KEYS, [Str(issuer), Num(sequence), Str(headHash)]))
  }

  lemma FingerprintPinsHead(env: Env, issuer: string, m: nat, a: string, n: nat, b: string)
    returns (collision: Option<(string, string)>)
    requires Fingerprint(env, issuer, m, a) == Fingerprint(env, issuer, n, b)
    ensures match collision
      case Some((x, y)) => Collision(env.hashing, x, y)
      case None => m == n && a == b
  {
    var x, y := Text(env.hashing.le, FingerprintJson(issuer, m, a)), Text(env.hashing.le, FingerprintJson(issuer, n, b));
    if x != y { return Some((x, y)); }
    hide Text, Record;
    var keys, vs, ws := FINGERPRINT_KEYS, [Str(issuer), Num(m), Str(a)], [Str(issuer), Num(n), Str(b)];
    ToldApartDistinct(keys);
    RecordDistinct(keys, vs);
    RecordDistinct(keys, ws);
    SameTextSameValue(env.hashing.le, Obj(Record(keys, vs)), Obj(Record(keys, ws)));
    EquivalentRecords(keys, vs, ws, 1);
    EquivalentRecords(keys, vs, ws, 2);
    collision := None;
  }

  /** A submission at or below a witnessed sequence that is not refused has the sequence and head of a
      witnessed receipt. */
  lemma AcceptedIsWitnessed(env: Env, issuers: map<string, string>, t: Tables, x: WitnessReceipt, y: WitnessReceipt,
                            e: Option<Evidence>) returns (z: WitnessReceipt, collision: Option<(string, string)>)
    requires AllFit(env, issuers, t.receipts) && Fits(env, issuers, y) && x in t.receipts
    requires x.sourceId == y.sourceId && y.chainSequence <= x.chainSequence && !Ingest(t, y, e).1.Rejected?
    ensures match collision
      case Some((a, b)) => Collision(env.hashing, a, b)
      case None => z in t.receipts && z.sourceId == y.sourceId && z.chainSequence == y.chainSequence && z.headHash == y.headHash
  {
    var replayed := FindFingerprint(t.receipts, y.sourceId, y.fingerprint);
    if replayed.Some? {
      z := replayed.value;
      collision := SameFingerprint(env, issuers, z, y);
    } else {
      hide Fits, FindReceipt, AnchorTaken, EvidenceTaken, Belongs;
      z := Latest(t.receipts, y.sourceId).value;
      collision := None;
    }
  }

  lemma SameFingerprint(env: Env, issuers: map<string, string>, z: WitnessReceipt, y: WitnessReceipt)
    returns (collision: Option<(string, string)>)
    requires Fits(env, issuers, z) && Fits(env, issuers, y) && z.sourceId == y.sourceId && z.fingerprint == y.fingerprint
    ensures match collision
      case Some((a, b)) => Collision(env.hashing, a, b)
      case None => z.chainSequence == y.chainSequence && z.headHash == y.headHash
  {
    hide Fingerprint, Collision;
    collision := FingerprintPinsHead(env, z.issuer, z.chainSequence, z.headHash, y.chainSequence, y.headHash);
  }

  /** Every head witnessed for a source so far is one of this history's. */
  ghost predicate HeadsOf(t: Tables, sourceId: string, c: Chain) {
    forall z | z in t.receipts && z.sourceId == sourceId && z.chainSequence <= c.last ::
      z.headHash == HashAt(c.rows, z.chainSequence)
  }

  ghost predicate SameHistory(a: map<int, Event>, b: map<int, Event>, n: nat) {
    forall k | 1 <= k <= n :: k in a && k in b && SameEvent(a[k], b[k])
  }

  lemma RewriteIsCaught(env: Env, issuers: map<string, string>, t: Tables, x: WitnessReceipt, y: WitnessReceipt,
                        e: Option<Evidence>, past: Chain, now: Chain) returns (collision: Option<(string, string)>)
    requires AllFit(env, issuers, t.receipts) && Fits(env, issuers, y) && x in t.receipts && x.sourceId == y.sourceId
    requires ValidChain(env.hashing, past) && ValidChain(env.hashing, now) && HeadsOf(t, y.sourceId, past)
    requires y.chainSequence == now.last <= past.last && y.headHash == now.head && now.last <= x.chainSequence
    requires ObjectDetails(past.rows) && ObjectDetails(now.rows)
    ensures match collision
      case Some((a, b)) => Collision(env.hashing, a, b)
      case None => Ingest(t, y, e).1.Rejected? || SameHistory(past.rows, now.rows, now.last)
  {
    hide Fits, Ingest, LinkOk, Collision, SameEvent, ObjectDetails, AllFit;
    if Ingest(t, y, e).1.Rejected? { return None; }
    var z;
    z, collision := AcceptedIsWitnessed(env, issuers, t, x, y, e);
    if collision.None? { collision := SharedHashSharedPast(env.hashing, past.rows, now.rows, now.last); }
  }

  /* ---- Over whole runs of the witness ---- */

  function Issuers(c: Recovery.Config): map<string, string> {
    map k | k in c.sources :: c.sources[k].issuer
  }

  lemma SourceFits(c: Recovery.Config, r: WitnessReceipt)
    requires Recovery.FromSource(c, r)
    ensures Fits(c.env, Issuers(c), r)
  {
    hide Accepted, Fits;
    AcceptedFits(c.env, r, c.sources[r.sourceId], Issuers(c));
  }

  /** Through any run of submissions, storage work, losses of the tables and recoveries: once a source
      has a head witnessed at or above a sequence, and all its witnessed heads are those of one
      history, a chain of at most that length that verifies is refused or is that history, event by
      event, unless two texts share a hash. */
  lemma WitnessCatchesRewrites(c: Recovery.Config, evs: seq<LiveRecovery.Event>, x: WitnessReceipt, y: WitnessReceipt,
                               past: Chain, now: Chain) returns (collision: Option<(string, string)>)
    requires IsoExact(c.env) && LiveRecovery.AllEnabled(c, Recovery.EMPTY_WORLD, evs) && Recovery.FromSource(c, y)
    requires x in LiveRecovery.RunFrom(c, Recovery.EMPTY_WORLD, evs).tables.receipts && x.sourceId == y.sourceId
    requires HeadsOf(LiveRecovery.RunFrom(c, Recovery.EMPTY_WORLD, evs).tables, y.sourceId, past)
    requires ValidChain(c.env.hashing, past) && ValidChain(c.env.hashing, now)
    requires y.chainSequence == now.last <= past.last && y.headHash == now.head && now.last <= x.chainSequence
    requires ObjectDetails(past.rows) && ObjectDetails(now.rows)
    ensures var t := LiveRecovery.RunFrom(c, Recovery.EMPTY_WORLD, evs).tables;
      match collision
      case Some((a, b)) => Collision(c.env.hashing, a, b)
      case None =>
        Ingest(t, y, Some(Recovery.EvidenceFor(c, y))).1.Rejected? || SameHistory(past.rows, now.rows, now.last)
  {
    hide Ingest, Fits, ValidChain, HeadsOf, ObjectDetails, IsoExact, LiveRecovery.AllEnabled, Recovery.FromSource;
    LiveRecovery.EmptyLive(c);
    LiveRecovery.RunsStayLive(c, Recovery.EMPTY_WORLD, evs);
    hide LiveRecovery.RunFrom, Recovery.EvidenceFor;
    var t := LiveRecovery.RunFrom(c, Recovery.EMPTY_WORLD, evs).tables;
    RunFits(c, LiveRecovery.RunFrom(c, Recovery.EMPTY_WORLD, evs));
    SourceFits(c, y);
    collision := RewriteIsCaught(c.env, Issuers(c), t, x, y, Some(Recovery.EvidenceFor(c, y)), past, now);
  }

  lemma RunFits(c: Recovery.Config, w: Recovery.World)
    requires LiveRecovery.Live(c, w)
    ensures AllFit(c.env, Issuers(c), w.tables.receipts)
  {
    hide Fits;
    forall r | r in w.tables.receipts ensures Fits(c.env, Issuers(c), r) {
      LiveRecovery.ReceiptFromSource(c, w, r);
      SourceFits(c, r);
    }
  }
}

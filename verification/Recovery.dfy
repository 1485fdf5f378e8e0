/** Losing the witness tables and rebuilding them from the write-once object store. */
module Recovery {
  import opened Options
  import opened CanonicalJson
  import opened Envelope
  import opened ObjectKeys
  import opened Witness

  /** What the deployment is configured with: its sources by id, and the store's key prefix. */
  datatype Config = Config(env: Env, sources: map<string, Source>, prefix: string)

  type Bucket = map<string, string>

  datatype World = World(tables: Tables, bucket: Bucket)

  const EMPTY_WORLD: World := World(NO_ROWS, map[])

  function KeyOf(c: Config, r: WitnessReceipt): string { ObjectKey(c.prefix, r.sourceId, r.chainSequence) }

  function Body(c: Config, r: WitnessReceipt): string { EvidenceBody(c.env, r) }

  function EvidenceFor(c: Config, r: WitnessReceipt): Evidence {
    Evidence(r.id, r.sourceId, r.chainSequence, KeyOf(c, r), c.env.hashing.sha(Body(c, r)), |Body(c, r)|, false)
  }

  predicate FromSource(c: Config, r: WitnessReceipt) {
    && r.sourceId in c.sources && c.sources[r.sourceId].id == r.sourceId
    && Accepted(c.env, r, c.sources[r.sourceId])
  }

  /* ---- Writing an object ---- */

  /** A conditional write: it never replaces an object, and accepts one that has the same digest and size. */
  function Put(c: Config, b: Bucket, key: string, body: string): (Bucket, bool) {
    if key !in b then (b[key := body], true)
    else (b, c.env.hashing.sha(b[key]) == c.env.hashing.sha(body) && |b[key]| == |body|)
  }

  function MarkStored(es: seq<Evidence>, id: string): (r: seq<Evidence>)
    ensures |r| == |es|
    ensures forall i | 0 <= i < |es| :: r[i] == if es[i].receiptId == id then es[i].(stored := true) else es[i]
  {
    if |es| == 0 then [] else [if es[0].receiptId == id then es[0].(stored := true) else es[0]] + MarkStored(es[1..], id)
  }

  /** One claimed row of the evidence poll: check the transactional digest, write the object, then
      mark the row, unless the worker stops or loses its lease before that. */
  function StoreObject(c: Config, w: World, id: string, finishes: bool): World {
    match FindReceipt(w.tables.receipts, id)
    case None => w
    case Some(r) =>
      if EvidenceFor(c, r) !in w.tables.evidence then w
      else
        var (bucket, ok) := Put(c, w.bucket, KeyOf(c, r), Body(c, r));
        if ok && finishes then World(w.tables.(evidence := MarkStored(w.tables.evidence, id)), bucket)
        else w.(bucket := bucket)
  }

  /* ---- Reading one back ---- */

  /** The receipt an object holds, or nothing where the recovery stops with an error. */
  function ReadObject(c: Config, key: string, body: string, now: int): Option<WitnessReceipt> {
    var raw :- Parse(body);
    var _ :- Require(raw.Obj?);
    var sourceId :- Get(raw.fields, "sourceId");
    var _ :- Require(sourceId.Str? && sourceId.chars in c.sources);
    var receipt :- NormalizedEnvelope(c.env, raw, c.sources[sourceId.chars], now);
    var _ :- Require(Body(c, receipt) == body && key == KeyOf(c, receipt));
    Some(receipt)
  }

  /** The tables after one listed object, or nothing where the recovery stops. */
  function RecoverObject(c: Config, t: Tables, b: Bucket, key: string, now: int): Option<Tables> {
    var _ :- Require(key in b);
    var receipt :- ReadObject(c, key, b[key], now);
    var (t', outcome) := Restore(t, receipt, EvidenceFor(c, receipt));
    if outcome.Rejected? then None else Some(t')
  }

  function Recover(c: Config, t: Tables, b: Bucket, keys: seq<string>, now: int): Option<Tables> {
    if |keys| == 0 then Some(t)
    else
      var before :- Recover(c, t, b, keys[..|keys| - 1], now);
      RecoverObject(c, before, b, keys[|keys| - 1], now)
  }

  /* ---- What a reachable world looks like ---- */

  /** The row is what `ingest` wrote for a receipt, but for its status. */
  ghost predicate Vouched(c: Config, rs: seq<WitnessReceipt>, e: Evidence) {
    exists r | r in rs :: e.(stored := false) == EvidenceFor(c, r)
  }

  lemma Voucher(c: Config, rs: seq<WitnessReceipt>, e: Evidence) returns (r: WitnessReceipt)
    requires Vouched(c, rs, e)
    ensures r in rs && e.(stored := false) == EvidenceFor(c, r)
  {
    r :| r in rs && e.(stored := false) == EvidenceFor(c, r);
  }

  ghost predicate Genuine(c: Config, t: Tables) {
    && (forall r | r in t.receipts :: FromSource(c, r))
    && (forall e | e in t.evidence :: Vouched(c, t.receipts, e))
  }

  ghost predicate BucketBacked(c: Config, w: World) {
    && ObjectsBacked(c, w.tables.receipts, w.bucket)
    && (forall e | e in w.tables.evidence && e.stored :: e.objectKey in w.bucket)
  }

  ghost predicate ObjectsBacked(c: Config, rs: seq<WitnessReceipt>, b: Bucket) {
    forall k | k in b :: exists r :: r in rs && k == KeyOf(c, r) && b[k] == Body(c, r)
  }

  ghost predicate Backed(c: Config, w: World) {
    Sound(w.tables) && Covered(w.tables) && Genuine(c, w.tables) && BucketBacked(c, w)
  }

  ghost predicate ReceivedBy(t: Tables, now: int) {
    forall r | r in t.receipts :: r.receivedAt <= now
  }

  lemma {:induction false} SameKeySameReceipt(c: Config, t: Tables, x: WitnessReceipt, y: WitnessReceipt)
    requires Sound(t) && Covered(t) && Genuine(c, t) && x in t.receipts && y in t.receipts && KeyOf(c, x) == KeyOf(c, y)
    ensures x == y
  {
    hide Sound, Covered, FromSource, EvidenceFor, ObjectKey;
    assert FromSource(c, x) && FromSource(c, y);
    SafeSequence(c, x);
    SafeSequence(c, y);
    ObjectKeyInjective(c.prefix, x.sourceId, x.chainSequence, y.sourceId, y.chainSequence);
    hide Genuine;
    var i :| 0 <= i < |t.receipts| && t.receipts[i] == x;
    var j :| 0 <= j < |t.receipts| && t.receipts[j] == y;
    OnePerSequence(t, i, j);
  }

  lemma SafeSequence(c: Config, r: WitnessReceipt)
    requires FromSource(c, r)
    ensures r.chainSequence <= MAX_SAFE && IsSourceId(r.sourceId)
  {
    hide Fingerprint, Text, ChainJson, IsHash, IsAnchorId, IsKeyId, IsSignature, IsReceiptId;
  }

  /** An object of a genuine receipt reads back as that receipt. */
  lemma ObjectReadsBack(c: Config, r: WitnessReceipt, now: int)
    requires FromSource(c, r) && IsoExact(c.env) && r.receivedAt <= now
    ensures ReadObject(c, KeyOf(c, r), Body(c, r), now) == Some(r)
  {
    var source := c.sources[r.sourceId];
    EnvelopeRoundTrip(c.env, r, source, now);
    TextParses(c.env.hashing.le, EnvelopeJson(c.env, r));
    EnvelopeFieldsRead(c.env, r);
    hide Accepted, NormalizedEnvelope, ObjectKey, Parse, Text, CanonicalFields, IsoExact, ENVELOPE_KEYS, EnvelopeValues;
  }

  /* ---- Rebuilding ---- */

  /** `t` holds exactly the receipts of `past` whose keys are in `done`, each with its stored row. */
  ghost predicate Rebuilt(c: Config, past: Tables, t: Tables, done: set<string>) {
    && HasExactly(c, past, t.receipts, done)
    && AllStored(c, t)
    && Sound(t) && Covered(t)
  }

  ghost predicate HasExactly(c: Config, past: Tables, rs: seq<WitnessReceipt>, done: set<string>) {
    forall r :: r in rs <==> r in past.receipts && KeyOf(c, r) in done
  }

  ghost predicate AllStored(c: Config, t: Tables) {
    forall e | e in t.evidence :: e.stored && Vouched(c, t.receipts, e)
  }

  /** The keys still to recover are of receipts the tables do not know in any column. */
  lemma UnknownReceipt(c: Config, past: Tables, t: Tables, done: set<string>, x: WitnessReceipt)
    requires Sound(past) && Covered(past) && Genuine(c, past) && Rebuilt(c, past, t, done)
    requires x in past.receipts && KeyOf(c, x) !in done
    ensures forall y | y in t.receipts ::
      y.id != x.id && (y.sourceId == x.sourceId ==> y.anchorId != x.anchorId && y.fingerprint != x.fingerprint)
  {
    hide KeyOf, EvidenceFor, Genuine, Covered, Owned, UniqueEvidence;
    forall y | y in t.receipts
      ensures y.id != x.id && (y.sourceId == x.sourceId ==> y.anchorId != x.anchorId && y.fingerprint != x.fingerprint)
    {
      assert y in past.receipts && y != x;
      var i :| 0 <= i < |past.receipts| && past.receipts[i] == x;
      var j :| 0 <= j < |past.receipts| && past.receipts[j] == y;
      assert i < j || j < i;
    }
  }

  lemma NoClash(c: Config, e: Evidence, y: WitnessReceipt, x: WitnessReceipt)
    requires e.(stored := false) == EvidenceFor(c, y) && y.id != x.id && KeyOf(c, y) != KeyOf(c, x)
    ensures !Clashes(e, EvidenceFor(c, x))
  {
    hide ObjectKey, Body;
  }

  lemma UnknownEvidence(c: Config, past: Tables, t: Tables, done: set<string>, x: WitnessReceipt)
    requires Sound(past) && Covered(past) && Genuine(c, past) && Rebuilt(c, past, t, done)
    requires x in past.receipts && KeyOf(c, x) !in done
    ensures !EvidenceTaken(t.evidence, EvidenceFor(c, x))
    ensures FindEvidence(t.evidence, x.sourceId, x.chainSequence).None?
  {
    UnknownReceipt(c, past, t, done, x);
    hide Sound, Covered, Genuine, KeyOf, EvidenceFor, Clashes, Vouched, FindEvidence;
    forall e | e in t.evidence ensures !Clashes(e, EvidenceFor(c, x)) {
      var y := Voucher(c, t.receipts, e);
      NoClash(c, e, y, x);
    }
    hide Rebuilt;
    var found := FindEvidence(t.evidence, x.sourceId, x.chainSequence);
    if found.Some? { PlaceClashes(found.value, EvidenceFor(c, x), c, x); }
  }

  lemma PlaceClashes(a: Evidence, b: Evidence, c: Config, x: WitnessReceipt)
    requires b == EvidenceFor(c, x) && a.sourceId == x.sourceId && a.chainSequence == x.chainSequence
    ensures Clashes(a, b)
  {
  }

  function WithObject(c: Config, t: Tables, x: WitnessReceipt): Tables {
    Tables(t.receipts + [x], t.evidence + [EvidenceFor(c, x).(stored := true)])
  }

  lemma NewSound(c: Config, t: Tables, x: WitnessReceipt)
    requires Sound(t) && Covered(t) && !EvidenceTaken(t.evidence, EvidenceFor(c, x))
    requires forall y | y in t.receipts ::
      y.id != x.id && (y.sourceId == x.sourceId ==> y.anchorId != x.anchorId && y.fingerprint != x.fingerprint)
    ensures Sound(WithObject(c, t, x)) && Covered(WithObject(c, t, x))
  {
    hide Sound, Covered, KeyOf, Body, EvidenceTaken;
    SameClashes(t.evidence, EvidenceFor(c, x));
    AddedPair(t, x, EvidenceFor(c, x).(stored := true));
  }

  lemma NewVouched(c: Config, t: Tables, x: WitnessReceipt)
    requires AllStored(c, t)
    ensures AllStored(c, WithObject(c, t, x))
  {
    hide EvidenceFor, Vouched;
    forall e | e in WithObject(c, t, x).evidence ensures e.stored && Vouched(c, WithObject(c, t, x).receipts, e) {
      AlsoVouched(c, t.receipts, x, e);
    }
  }

  lemma NewObject(c: Config, past: Tables, t: Tables, done: set<string>, x: WitnessReceipt)
    requires Sound(past) && Covered(past) && Genuine(c, past) && Rebuilt(c, past, t, done)
    requires x in past.receipts && KeyOf(c, x) !in done
    ensures Restore(t, x, EvidenceFor(c, x)) == (WithObject(c, t, x), Inserted)
    ensures Rebuilt(c, past, WithObject(c, t, x), done + {KeyOf(c, x)})
  {
    UnknownReceipt(c, past, t, done, x);
    UnknownEvidence(c, past, t, done, x);
    hide Sound, Covered, Genuine, KeyOf, EvidenceFor, FindEvidence, HasExactly, AllStored, Restore, EvidenceTaken;
    NewRestores(t, x, EvidenceFor(c, x));
    NewSound(c, t, x);
    OneMoreReceipt(c, past, t, done, x);
    NewVouched(c, t, x);
  }

  lemma OneMoreReceipt(c: Config, past: Tables, t: Tables, done: set<string>, x: WitnessReceipt)
    requires Sound(past) && Covered(past) && Genuine(c, past) && x in past.receipts
    requires HasExactly(c, past, t.receipts, done)
    ensures HasExactly(c, past, t.receipts + [x], done + {KeyOf(c, x)})
  {
    hide Sound, Covered, Genuine, KeyOf;
    forall r ensures r in t.receipts + [x] <==> r in past.receipts && KeyOf(c, r) in done + {KeyOf(c, x)} {
      if r in past.receipts && KeyOf(c, r) == KeyOf(c, x) { SameKeySameReceipt(c, past, r, x); }
    }
  }

  lemma SameClashes(es: seq<Evidence>, e: Evidence)
    ensures EvidenceTaken(es, e) <==> EvidenceTaken(es, e.(stored := true))
  {
    forall x | x in es ensures Clashes(x, e) <==> Clashes(x, e.(stored := true)) {}
  }

  lemma AlsoVouched(c: Config, rs: seq<WitnessReceipt>, x: WitnessReceipt, e: Evidence)
    ensures Vouched(c, rs, e) ==> Vouched(c, rs + [x], e)
    ensures e == EvidenceFor(c, x).(stored := true) ==> Vouched(c, rs + [x], e)
  {
    hide EvidenceFor;
    if Vouched(c, rs, e) {
      var y := Voucher(c, rs, e);
      assert y in rs + [x];
    }
    assert x in rs + [x];
    assert EvidenceFor(c, x).stored == false by { Unstored(c, x); }
  }

  lemma Unstored(c: Config, x: WitnessReceipt)
    ensures !EvidenceFor(c, x).stored
  {
  }

  lemma NewRestores(t: Tables, x: WitnessReceipt, e: Evidence)
    requires forall y | y in t.receipts ::
      y.id != x.id && (y.sourceId == x.sourceId ==> y.anchorId != x.anchorId && y.fingerprint != x.fingerprint)
    requires !EvidenceTaken(t.evidence, e) && FindEvidence(t.evidence, x.sourceId, x.chainSequence).None?
    ensures Restore(t, x, e) == (Tables(t.receipts + [x], t.evidence + [e.(stored := true)]), Inserted)
  {
    assert FindReceipt(t.receipts, x.id).None? && FindFingerprint(t.receipts, x.sourceId, x.fingerprint).None?;
    hide FindReceipt, FindFingerprint, FindEvidence, EvidenceTaken;
  }

  /** A receipt that is there with its evidence is a replay. */
  lemma {:induction false} KnownObject(c: Config, t: Tables, x: WitnessReceipt)
    requires Sound(t) && Covered(t) && Genuine(c, t) && x in t.receipts
    ensures Restore(t, x, EvidenceFor(c, x)) == (t, Replayed)
  {
    hide Body, KeyOf, FromSource, UniqueReceipts, UniqueEvidence, Owned, Vouched, Clashes, FindEvidence, FindReceipt, HasEvidence;
    assert HasEvidence(t, x);
    var e := EvidenceOf(t, x);
    var found := FindEvidence(t.evidence, x.sourceId, x.chainSequence);
    PlaceFound(t.evidence, e);
    SameEvidence(t.evidence, found.value, e);
    OwnerOf(t, e);
    var owner := FindReceipt(t.receipts, e.receiptId).value;
    SameIdSameReceipt(t, owner, x);
    assert Vouched(c, t.receipts, e);
    var y := Voucher(c, t.receipts, e);
    SameIdSameReceipt(t, y, x);
  }

  lemma PlaceFound(es: seq<Evidence>, e: Evidence)
    requires e in es
    ensures var found := FindEvidence(es, e.sourceId, e.chainSequence); found.Some? && Clashes(found.value, e)
  {
  }

  lemma SameIdSameReceipt(t: Tables, x: WitnessReceipt, y: WitnessReceipt)
    requires Sound(t) && x in t.receipts && y in t.receipts && x.id == y.id
    ensures x == y
  {
    hide UniqueEvidence, Owned;
    var i :| 0 <= i < |t.receipts| && t.receipts[i] == x;
    var j :| 0 <= j < |t.receipts| && t.receipts[j] == y;
  }

  lemma RebuiltGenuine(c: Config, past: Tables, t: Tables, done: set<string>)
    requires Genuine(c, past) && Rebuilt(c, past, t, done)
    ensures Genuine(c, t)
  {
    hide FromSource, EvidenceFor, KeyOf, Sound, Covered;
  }

  /* ---- One object, then all of them ---- */

  lemma RecoversObject(c: Config, past: World, t: Tables, done: set<string>, key: string, now: int)
    requires Backed(c, past) && IsoExact(c.env) && ReceivedBy(past.tables, now)
    requires Rebuilt(c, past.tables, t, done) && key in past.bucket
    ensures RecoverObject(c, t, past.bucket, key, now).Some?
    ensures var t' := RecoverObject(c, t, past.bucket, key, now).value;
      Rebuilt(c, past.tables, t', done + {key}) && (key in done ==> t' == t)
  {
    hide Sound, Covered, Genuine, ReadObject, KeyOf, Body, EvidenceFor, Restore, IsoExact, FromSource;
    var x :| x in past.tables.receipts && key == KeyOf(c, x) && past.bucket[key] == Body(c, x);
    assert FromSource(c, x) by { GenuineReceipt(c, past.tables, x); }
    ObjectReadsBack(c, x, now);
    if key in done {
      RebuiltGenuine(c, past.tables, t, done);
      assert x in t.receipts;
      KnownObject(c, t, x);
      assert done + {key} == done;
    } else {
      NewObject(c, past.tables, t, done, x);
    }
    hide Rebuilt, Backed;
  }

  lemma GenuineReceipt(c: Config, t: Tables, x: WitnessReceipt)
    requires Genuine(c, t) && x in t.receipts
    ensures FromSource(c, x)
  {
    hide FromSource, Vouched;
  }

  /** Whatever the keys and their order, a recovery that starts with some objects already back
      leaves exactly the receipts of the objects seen so far, and never stops with an error. */
  lemma {:induction false} RecoversKeys(c: Config, past: World, t: Tables, done: set<string>, keys: seq<string>, now: int)
    requires Backed(c, past) && IsoExact(c.env) && ReceivedBy(past.tables, now)
    requires Rebuilt(c, past.tables, t, done) && forall k | k in keys :: k in past.bucket
    ensures Recover(c, t, past.bucket, keys, now).Some?
    ensures var t' := Recover(c, t, past.bucket, keys, now).value;
      Rebuilt(c, past.tables, t', done + set k | k in keys) && ((forall k | k in keys :: k in done) ==> t' == t)
  {
    hide Backed, Rebuilt, RecoverObject, ReceivedBy, IsoExact;
    if |keys| == 0 {
      assert done + (set k | k in keys) == done;
    } else {
      var before, key := keys[..|keys| - 1], keys[|keys| - 1];
      assert keys == before + [key];
      RecoversKeys(c, past, t, done, before, now);
      var mid := done + set k | k in before;
      var m := Recover(c, t, past.bucket, before, now).value;
      RecoversObject(c, past, m, mid, key, now);
      assert mid + {key} == done + set k | k in keys;
    }
  }

  lemma NothingRebuilt(c: Config, past: Tables)
    ensures Rebuilt(c, past, NO_ROWS, {})
  {
  }

  /** After the tables are lost, recovering every object, listed in any order and any number of
      times, brings back exactly the receipts whose objects exist, unchanged, and among them every
      one whose evidence was marked stored. A second pass, in any order, only replays. */
  lemma RecoveryRebuilds(c: Config, past: World, keys: seq<string>, again: seq<string>, now: int)
    requires Backed(c, past) && IsoExact(c.env) && ReceivedBy(past.tables, now)
    requires (set k | k in keys) == past.bucket.Keys && forall k | k in again :: k in past.bucket
    ensures Recover(c, NO_ROWS, past.bucket, keys, now).Some?
    ensures var t := Recover(c, NO_ROWS, past.bucket, keys, now).value;
      && (forall r :: r in t.receipts <==> r in past.tables.receipts && KeyOf(c, r) in past.bucket)
      && (forall e | e in past.tables.evidence && e.stored :: exists r :: r in t.receipts && Belongs(e, r))
      && Backed(c, World(t, past.bucket))
      && Recover(c, t, past.bucket, again, now) == Some(t)
  {
    hide Backed, Rebuilt, Recover, ReceivedBy, IsoExact;
    NothingRebuilt(c, past.tables);
    RecoversKeys(c, past, NO_ROWS, {}, keys, now);
    var t := Recover(c, NO_ROWS, past.bucket, keys, now).value;
    assert {} + (set k | k in keys) == past.bucket.Keys;
    RecoversKeys(c, past, t, past.bucket.Keys, again, now);
    RebuiltIsBacked(c, past, t);
  }

  lemma RebuiltIsBacked(c: Config, past: World, t: Tables)
    requires Backed(c, past) && Rebuilt(c, past.tables, t, past.bucket.Keys)
    ensures forall r :: r in t.receipts <==> r in past.tables.receipts && KeyOf(c, r) in past.bucket
    ensures forall e | e in past.tables.evidence && e.stored :: exists r :: r in t.receipts && Belongs(e, r)
    ensures Backed(c, World(t, past.bucket))
  {
    hide Sound, Covered, KeyOf, Body, Vouched, FromSource, EvidenceFor;
    RebuiltGenuine(c, past.tables, t, past.bucket.Keys);
    forall e | e in past.tables.evidence && e.stored ensures exists r :: r in t.receipts && Belongs(e, r) {
      var r := Voucher(c, past.tables.receipts, e);
      RowBelongs(c, e, r);
      assert r in t.receipts;
    }
    forall k | k in past.bucket ensures exists r :: r in t.receipts && k == KeyOf(c, r) && past.bucket[k] == Body(c, r) {
      var r :| r in past.tables.receipts && k == KeyOf(c, r) && past.bucket[k] == Body(c, r);
      assert r in t.receipts;
    }
    forall e | e in t.evidence ensures e.objectKey in past.bucket {
      var r := Voucher(c, t.receipts, e);
      RowBelongs(c, e, r);
    }
  }

  lemma RowBelongs(c: Config, e: Evidence, r: WitnessReceipt)
    requires e.(stored := false) == EvidenceFor(c, r)
    ensures Belongs(e, r) && e.objectKey == KeyOf(c, r)
  {
    hide KeyOf, Body;
  }
}

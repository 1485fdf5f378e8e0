/** Losing the witness tables while the service goes on: submissions, storage work and recovery pages
    interleave, and the database may be lost at any time. */
module LiveRecovery {
  import opened Options
  import opened CanonicalJson
  import opened Envelope
  import opened ObjectKeys
  import opened Witness
  import opened Recovery
  import AuditChain

  ghost predicate TablesOk(c: Config, t: Tables) { Sound(t) && Covered(t) && Genuine(c, t) }

  /* ---- One restore ---- */

  /** Two receipts that no two rows can hold side by side. */
  predicate Clash(y: WitnessReceipt, x: WitnessReceipt) {
    || y.id == x.id
    || (y.sourceId == x.sourceId
        && (y.chainSequence == x.chainSequence || y.anchorId == x.anchorId || y.fingerprint == x.fingerprint))
  }

  predicate Apart(rs: seq<WitnessReceipt>, x: WitnessReceipt) { forall y | y in rs :: !Clash(y, x) }

  /** Two different objects with one digest. */
  ghost predicate BodiesCollide(c: Config, x: WitnessReceipt, y: WitnessReceipt) {
    AuditChain.Collision(c.env.hashing, Body(c, x), Body(c, y))
  }

  lemma DifferentKeys(c: Config, x: WitnessReceipt, y: WitnessReceipt)
    requires FromSource(c, x) && FromSource(c, y) && !Clash(y, x)
    ensures KeyOf(c, x) != KeyOf(c, y)
  {
    hide FromSource, ObjectKey;
    SafeSequence(c, x);
    SafeSequence(c, y);
    if KeyOf(c, x) == KeyOf(c, y) {
      ObjectKeyInjective(c.prefix, x.sourceId, x.chainSequence, y.sourceId, y.chainSequence);
    }
  }

  lemma DifferentBodies(c: Config, x: WitnessReceipt, y: WitnessReceipt, now: int)
    requires FromSource(c, x) && FromSource(c, y) && IsoExact(c.env) && x.receivedAt <= now && y.receivedAt <= now
    requires KeyOf(c, x) == KeyOf(c, y) && Body(c, x) == Body(c, y)
    ensures x == y
  {
    hide FromSource, ReadObject, IsoExact;
    ObjectReadsBack(c, x, now);
    ObjectReadsBack(c, y, now);
  }

  lemma FreeRestores(c: Config, t: Tables, x: WitnessReceipt)
    requires TablesOk(c, t) && FromSource(c, x) && Apart(t.receipts, x)
    ensures Restore(t, x, EvidenceFor(c, x)) == (WithObject(c, t, x), Inserted)
    ensures TablesOk(c, WithObject(c, t, x))
  {
    hide Sound, Covered, FromSource, KeyOf, EvidenceFor, Clashes, Vouched, FindEvidence;
    forall e | e in t.evidence ensures !Clashes(e, EvidenceFor(c, x)) {
      var y := Voucher(c, t.receipts, e);
      DifferentKeys(c, x, y);
      NoClash(c, e, y, x);
    }
    hide Genuine;
    var found := FindEvidence(t.evidence, x.sourceId, x.chainSequence);
    if found.Some? { PlaceClashes(found.value, EvidenceFor(c, x), c, x); }
    NewRestores(t, x, EvidenceFor(c, x));
    NewSound(c, t, x);
    AddedGenuine(c, t, x);
  }

  lemma AddedGenuine(c: Config, t: Tables, x: WitnessReceipt)
    requires Genuine(c, t) && FromSource(c, x)
    ensures Genuine(c, WithObject(c, t, x))
  {
    hide EvidenceFor, FromSource, Vouched;
    forall e | e in WithObject(c, t, x).evidence ensures Vouched(c, t.receipts + [x], e) { AlsoVouched(c, t.receipts, x, e); }
  }

  /** The evidence that stands at a receipt's place is its own. */
  lemma PlaceIsOwn(t: Tables, y: WitnessReceipt)
    requires Sound(t) && Covered(t) && y in t.receipts
    ensures var found := FindEvidence(t.evidence, y.sourceId, y.chainSequence);
      found.Some? && Belongs(found.value, y) && FindReceipt(t.receipts, found.value.receiptId) == Some(y)
  {
    hide UniqueReceipts, UniqueEvidence, Owned, Clashes, FindEvidence, FindReceipt, HasEvidence;
    assert HasEvidence(t, y);
    var e := EvidenceOf(t, y);
    var found := FindEvidence(t.evidence, y.sourceId, y.chainSequence);
    PlaceFound(t.evidence, e);
    SameEvidence(t.evidence, found.value, e);
    OwnerOf(t, e);
    SameIdSameReceipt(t, FindReceipt(t.receipts, e.receiptId).value, y);
  }

  lemma SamePlaceRefused(c: Config, t: Tables, x: WitnessReceipt, y: WitnessReceipt, now: int)
    requires TablesOk(c, t) && FromSource(c, x) && IsoExact(c.env) && x.receivedAt <= now && y.receivedAt <= now
    requires y in t.receipts && x != y && y.sourceId == x.sourceId && y.chainSequence == x.chainSequence
    ensures Restore(t, x, EvidenceFor(c, x)).1.Rejected? || BodiesCollide(c, x, y)
    ensures Restore(t, x, EvidenceFor(c, x)).0 == t
  {
    hide UniqueReceipts, UniqueEvidence, Owned, Covered, FromSource, Vouched, Body, ObjectKey, FindReceipt, FindEvidence, IsoExact;
    PlaceIsOwn(t, y);
    var e := FindEvidence(t.evidence, x.sourceId, x.chainSequence).value;
    assert Vouched(c, t.receipts, e);
    var z := Voucher(c, t.receipts, e);
    SameIdSameReceipt(t, z, y);
    if Body(c, x) == Body(c, y) { DifferentBodies(c, x, y, now); }
  }

  lemma SameIdRefused(c: Config, t: Tables, x: WitnessReceipt, y: WitnessReceipt)
    requires TablesOk(c, t) && y in t.receipts && y.id == x.id
    requires forall z | z in t.receipts :: z.sourceId != x.sourceId || z.chainSequence != x.chainSequence
    ensures Restore(t, x, EvidenceFor(c, x)).1.Rejected?
  {
    hide Sound, Genuine, Vouched, EvidenceFor, FindEvidence, FindReceipt, HasEvidence, Restore, Clashes;
    NoEvidenceThere(c, t, x);
    assert HasEvidence(t, y);
    var e := EvidenceOf(t, y);
    OneReceiptClash(e, EvidenceFor(c, x), c, x);
    NamedBy(t.receipts, y);
    hide TablesOk, Covered;
    KnownIdRefused(t, x, EvidenceFor(c, x));
  }

  lemma OneReceiptClash(e: Evidence, f: Evidence, c: Config, x: WitnessReceipt)
    requires e.receiptId == x.id && f == EvidenceFor(c, x)
    ensures Clashes(e, f)
  {
    hide KeyOf, Body;
  }

  lemma NamedBy(rs: seq<WitnessReceipt>, y: WitnessReceipt)
    requires y in rs
    ensures FindReceipt(rs, y.id).Some?
  {
  }

  lemma KnownIdRefused(t: Tables, x: WitnessReceipt, e: Evidence)
    requires FindEvidence(t.evidence, x.sourceId, x.chainSequence).None? && FindReceipt(t.receipts, x.id).Some?
    requires exists y :: y in t.evidence && Clashes(y, e)
    ensures Restore(t, x, e).1.Rejected?
  {
    hide FindEvidence, FindReceipt, FindFingerprint, AnchorTaken, Clashes;
  }

  lemma NoEvidenceThere(c: Config, t: Tables, x: WitnessReceipt)
    requires Sound(t) && forall z | z in t.receipts :: z.sourceId != x.sourceId || z.chainSequence != x.chainSequence
    ensures FindEvidence(t.evidence, x.sourceId, x.chainSequence).None?
  {
    hide FindReceipt, UniqueReceipts, UniqueEvidence;
    forall e | e in t.evidence ensures e.sourceId != x.sourceId || e.chainSequence != x.chainSequence {
      var r :| r in t.receipts && Belongs(e, r);
    }
  }

  lemma TakenNameRefused(c: Config, t: Tables, x: WitnessReceipt, y: WitnessReceipt)
    requires TablesOk(c, t) && y in t.receipts && y.sourceId == x.sourceId
    requires y.anchorId == x.anchorId || y.fingerprint == x.fingerprint
    requires forall z | z in t.receipts :: z.id != x.id && (z.sourceId != x.sourceId || z.chainSequence != x.chainSequence)
    ensures Restore(t, x, EvidenceFor(c, x)).1.Rejected?
  {
    hide Covered, Genuine, UniqueReceipts, UniqueEvidence, Owned;
    NoEvidenceThere(c, t, x);
    NoneNamed(t.receipts, x.id);
    NamesTaken(t.receipts, x, y);
    hide TablesOk, EvidenceFor, FromSource;
    TakenRefuses(t, x, EvidenceFor(c, x));
  }

  lemma NoneNamed(rs: seq<WitnessReceipt>, id: string)
    requires forall z | z in rs :: z.id != id
    ensures FindReceipt(rs, id).None?
  {
  }

  lemma NamesTaken(rs: seq<WitnessReceipt>, x: WitnessReceipt, y: WitnessReceipt)
    requires y in rs && y.sourceId == x.sourceId && (y.anchorId == x.anchorId || y.fingerprint == x.fingerprint)
    ensures AnchorTaken(rs, x.sourceId, x.anchorId) || FindFingerprint(rs, x.sourceId, x.fingerprint).Some?
  {
  }

  lemma TakenRefuses(t: Tables, x: WitnessReceipt, e: Evidence)
    requires FindEvidence(t.evidence, x.sourceId, x.chainSequence).None? && FindReceipt(t.receipts, x.id).None?
    requires AnchorTaken(t.receipts, x.sourceId, x.anchorId) || FindFingerprint(t.receipts, x.sourceId, x.fingerprint).Some?
    ensures Restore(t, x, e).1.Rejected?
  {
    hide FindReceipt, FindEvidence, FindFingerprint, AnchorTaken, EvidenceTaken;
  }

  lemma RefusedStays(t: Tables, x: WitnessReceipt, e: Evidence)
    ensures Restore(t, x, e).1.Rejected? ==> Restore(t, x, e).0 == t
  {
    hide FindReceipt, FindEvidence, FindFingerprint, AnchorTaken, EvidenceTaken;
  }

  /** Restoring a genuine receipt the tables do not hold goes through exactly when it clashes with no
      receipt in them, by place, id, anchor or fingerprint, unless two objects collide. */
  lemma RestoreGoesThroughIff(c: Config, t: Tables, x: WitnessReceipt, now: int)
    requires TablesOk(c, t) && FromSource(c, x) && IsoExact(c.env) && x.receivedAt <= now && ReceivedBy(t, now) && x !in t.receipts
    ensures var restored := Restore(t, x, EvidenceFor(c, x));
      if Apart(t.receipts, x) then restored == (WithObject(c, t, x), Inserted) && TablesOk(c, WithObject(c, t, x))
      else restored.0 == t && (restored.1.Rejected? || exists y | y in t.receipts :: BodiesCollide(c, x, y))
  {
    RefusedStays(t, x, EvidenceFor(c, x));
    hide TablesOk, FromSource, EvidenceFor, Restore, BodiesCollide, IsoExact, WithObject;
    if y :| y in t.receipts && y.sourceId == x.sourceId && y.chainSequence == x.chainSequence {
      SamePlaceRefused(c, t, x, y, now);
      assert Clash(y, x);
    } else if y :| y in t.receipts && y.id == x.id {
      SameIdRefused(c, t, x, y);
      assert Clash(y, x);
    } else if y :| y in t.receipts && Clash(y, x) {
      TakenNameRefused(c, t, x, y);
    } else {
      FreeRestores(c, t, x);
    }
  }

  /* ---- One page ---- */

  /** The object at a receipt's key is that receipt's. */
  ghost predicate IsObject(c: Config, b: Bucket, x: WitnessReceipt) {
    FromSource(c, x) && KeyOf(c, x) in b && b[KeyOf(c, x)] == Body(c, x)
  }

  ghost predicate ObjectsGenuine(c: Config, b: Bucket) {
    forall k | k in b :: exists x :: IsObject(c, b, x) && KeyOf(c, x) == k
  }

  /** The clock has not gone back behind what the store holds. */
  ghost predicate ObjectsBy(c: Config, b: Bucket, now: int) {
    forall x | IsObject(c, b, x) :: x.receivedAt <= now
  }

  ghost predicate Listed(c: Config, b: Bucket, keys: seq<string>, x: WitnessReceipt) {
    IsObject(c, b, x) && KeyOf(c, x) in keys
  }

  /** A listed object that is not back yet, and a receipt of the tables or of the list in its way. */
  ghost predicate InTheWay(c: Config, t: Tables, b: Bucket, keys: seq<string>, x: WitnessReceipt, y: WitnessReceipt) {
    Listed(c, b, keys, x) && x !in t.receipts && y != x && (y in t.receipts || Listed(c, b, keys, y)) && Clash(y, x)
  }

  ghost predicate Obstructed(c: Config, t: Tables, b: Bucket, keys: seq<string>) {
    exists x, y :: InTheWay(c, t, b, keys, x, y)
  }

  ghost predicate Collides(c: Config, t: Tables, b: Bucket, keys: seq<string>) {
    exists x, y :: Listed(c, b, keys, x) && (y in t.receipts || Listed(c, b, keys, y)) && BodiesCollide(c, x, y)
  }

  lemma ObjectUnique(c: Config, b: Bucket, x: WitnessReceipt, y: WitnessReceipt)
    requires IsoExact(c.env) && IsObject(c, b, x) && IsObject(c, b, y) && KeyOf(c, x) == KeyOf(c, y)
    ensures x == y
  {
    hide FromSource, KeyOf, Body, IsoExact;
    DifferentBodies(c, x, y, if x.receivedAt < y.receivedAt then y.receivedAt else x.receivedAt);
  }

  lemma ObjectAt(c: Config, b: Bucket, k: string) returns (x: WitnessReceipt)
    requires ObjectsGenuine(c, b) && k in b
    ensures IsObject(c, b, x) && KeyOf(c, x) == k
  {
    x :| IsObject(c, b, x) && KeyOf(c, x) == k;
  }

  /** `t'` holds what `t` held and the listed objects, and nothing else. */
  ghost predicate GrownBy(c: Config, t: Tables, b: Bucket, keys: seq<string>, t': Tables) {
    TablesOk(c, t') && forall r :: r in t'.receipts <==> r in t.receipts || Listed(c, b, keys, r)
  }

  lemma ListedMore(c: Config, b: Bucket, keys: seq<string>, x: WitnessReceipt, r: WitnessReceipt)
    requires IsoExact(c.env) && IsObject(c, b, x)
    ensures Listed(c, b, keys + [KeyOf(c, x)], r) <==> Listed(c, b, keys, r) || r == x
  {
    hide IsObject, IsoExact, KeyOf;
    if Listed(c, b, keys + [KeyOf(c, x)], r) && KeyOf(c, r) == KeyOf(c, x) { ObjectUnique(c, b, r, x); }
  }

  lemma StillInTheWay(c: Config, t: Tables, b: Bucket, keys: seq<string>, key: string)
    ensures Obstructed(c, t, b, keys) ==> Obstructed(c, t, b, keys + [key])
    ensures Collides(c, t, b, keys) ==> Collides(c, t, b, keys + [key])
  {
    hide IsObject, KeyOf, BodiesCollide;
    forall r | Listed(c, b, keys, r) ensures Listed(c, b, keys + [key], r) {}
    hide Listed;
    if Obstructed(c, t, b, keys) {
      var x, y :| InTheWay(c, t, b, keys, x, y);
      assert InTheWay(c, t, b, keys + [key], x, y);
    }
  }

  /** One more object on the list: what it adds to what is in the way. */
  lemma OneMoreInTheWay(c: Config, t: Tables, b: Bucket, keys: seq<string>, x: WitnessReceipt, m: Tables)
    requires IsoExact(c.env) && IsObject(c, b, x) && GrownBy(c, t, b, keys, m) && !Obstructed(c, t, b, keys)
    ensures Obstructed(c, t, b, keys + [KeyOf(c, x)]) <==> x !in m.receipts && !Apart(m.receipts, x)
  {
    hide IsObject, IsoExact, KeyOf, TablesOk;
    var more := keys + [KeyOf(c, x)];
    forall r ensures Listed(c, b, more, r) <==> Listed(c, b, keys, r) || r == x { ListedMore(c, b, keys, x, r); }
    hide Listed;
    if Obstructed(c, t, b, more) {
      var x1, y1 :| InTheWay(c, t, b, more, x1, y1);
      assert !InTheWay(c, t, b, keys, x1, y1);
      assert Clash(x1, y1);
    }
    if x !in m.receipts {
      if y :| y in m.receipts && Clash(y, x) { assert InTheWay(c, t, b, more, x, y); }
    }
  }

  lemma RecoverObjectRestores(c: Config, t: Tables, b: Bucket, x: WitnessReceipt, now: int)
    requires IsoExact(c.env) && IsObject(c, b, x) && x.receivedAt <= now
    ensures var (t', outcome) := Restore(t, x, EvidenceFor(c, x));
      RecoverObject(c, t, b, KeyOf(c, x), now) == if outcome.Rejected? then None else Some(t')
  {
    hide FromSource, KeyOf, Body, EvidenceFor, Restore, ReadObject, IsoExact;
    ObjectReadsBack(c, x, now);
  }

  lemma PageStep(c: Config, t: Tables, b: Bucket, keys: seq<string>, m: Tables, x: WitnessReceipt, now: int)
    requires IsoExact(c.env) && ObjectsBy(c, b, now) && ReceivedBy(t, now)
    requires GrownBy(c, t, b, keys, m) && IsObject(c, b, x) && !Obstructed(c, t, b, keys)
    ensures var (next, more) := (RecoverObject(c, m, b, KeyOf(c, x), now), keys + [KeyOf(c, x)]);
      || Collides(c, t, b, more)
      || ((next.Some? <==> !Obstructed(c, t, b, more)) && (next.Some? ==> GrownBy(c, t, b, more, next.value)))
  {
    hide IsObject, IsoExact, KeyOf, RecoverObject, TablesOk, EvidenceFor, Restore, BodiesCollide, ObjectsBy, Collides, Obstructed, FromSource;
    assert FromSource(c, x) && x.receivedAt <= now by { ObjectTimely(c, b, x, now); }
    RecoverObjectRestores(c, m, b, x, now);
    OneMoreInTheWay(c, t, b, keys, x, m);
    var more := keys + [KeyOf(c, x)];
    forall r ensures Listed(c, b, more, r) <==> Listed(c, b, keys, r) || r == x { ListedMore(c, b, keys, x, r); }
    if x in m.receipts {
      assert Sound(m) && Covered(m) && Genuine(c, m) by { OkMeans(c, m); }
      KnownObject(c, m, x);
    } else {
      GrownTimely(c, t, b, keys, m, now);
      RestoreGoesThroughIff(c, m, x, now);
      if y :| y in m.receipts && BodiesCollide(c, x, y) {
        CollidesWith(c, t, b, more, x, y);
      }
      hide Listed;
    }
  }

  lemma OkMeans(c: Config, t: Tables)
    requires TablesOk(c, t)
    ensures Sound(t) && Covered(t) && Genuine(c, t)
  {
  }

  lemma ObjectTimely(c: Config, b: Bucket, x: WitnessReceipt, now: int)
    requires ObjectsBy(c, b, now) && IsObject(c, b, x)
    ensures FromSource(c, x) && x.receivedAt <= now
  {
    hide FromSource, KeyOf, Body;
  }

  lemma GrownTimely(c: Config, t: Tables, b: Bucket, keys: seq<string>, m: Tables, now: int)
    requires GrownBy(c, t, b, keys, m) && ReceivedBy(t, now) && ObjectsBy(c, b, now)
    ensures ReceivedBy(m, now)
  {
    hide TablesOk, IsObject, KeyOf;
  }

  lemma CollidesWith(c: Config, t: Tables, b: Bucket, keys: seq<string>, x: WitnessReceipt, y: WitnessReceipt)
    requires Listed(c, b, keys, x) && (y in t.receipts || Listed(c, b, keys, y)) && BodiesCollide(c, x, y)
    ensures Collides(c, t, b, keys)
  {
    hide Listed, BodiesCollide;
  }

  /** A recovery of any listed objects, whatever the tables already hold, completes exactly when no
      receipt of the tables or of the list is in the way of a listed object that is not back yet; then
      it adds exactly those objects. The exception is two objects with one digest. */
  lemma {:induction false} PageCompletesIff(c: Config, t: Tables, b: Bucket, keys: seq<string>, now: int)
    requires TablesOk(c, t) && ObjectsGenuine(c, b) && IsoExact(c.env) && ObjectsBy(c, b, now) && ReceivedBy(t, now)
    requires forall k | k in keys :: k in b
    ensures var page := Recover(c, t, b, keys, now);
      || Collides(c, t, b, keys)
      || ((page.Some? <==> !Obstructed(c, t, b, keys)) && (page.Some? ==> GrownBy(c, t, b, keys, page.value)))
  {
    hide TablesOk, ObjectsGenuine, IsoExact, ObjectsBy, Collides, Obstructed, GrownBy, RecoverObject, KeyOf;
    if |keys| == 0 {
      NothingListed(c, t, b);
    } else {
      var before, key := keys[..|keys| - 1], keys[|keys| - 1];
      assert keys == before + [key];
      PageCompletesIff(c, t, b, before, now);
      StillInTheWay(c, t, b, before, key);
      var m := Recover(c, t, b, before, now);
      if m.Some? && !Collides(c, t, b, before) {
        var x := ObjectAt(c, b, key);
        PageStep(c, t, b, before, m.value, x, now);
      }
    }
  }

  lemma NothingListed(c: Config, t: Tables, b: Bucket)
    requires TablesOk(c, t)
    ensures GrownBy(c, t, b, [], t) && !Obstructed(c, t, b, [])
  {
    hide TablesOk, IsObject;
  }

  /* ---- Runs ---- */

  /** `Page` is one call of the recovery on a listing; `Lose` empties the tables and leaves the store. */
  datatype Event =
    | Submit(receipt: WitnessReceipt)
    | Work(id: string, finishes: bool)
    | Lose
    | Page(keys: seq<string>, now: int)

  /** Submissions are checked, and the clock does not go back behind what has been received. */
  ghost predicate Enabled(c: Config, w: World, ev: Event) {
    match ev
    case Submit(r) => FromSource(c, r)
    case Page(_, now) => ObjectsBy(c, w.bucket, now) && ReceivedBy(w.tables, now)
    case _ => true
  }

  /** The tables a page leaves: those after the objects before the first that fails. */
  function PageTables(c: Config, t: Tables, b: Bucket, keys: seq<string>, now: int): Tables {
    match Recover(c, t, b, keys, now)
    case Some(t') => t'
    case None => if |keys| == 0 then t else PageTables(c, t, b, keys[..|keys| - 1], now)
  }

  function Next(c: Config, w: World, ev: Event): World {
    match ev
    case Submit(r) => w.(tables := Ingest(w.tables, r, Some(EvidenceFor(c, r))).0)
    case Work(id, finishes) => StoreObject(c, w, id, finishes)
    case Lose => w.(tables := NO_ROWS)
    case Page(keys, now) => w.(tables := PageTables(c, w.tables, w.bucket, keys, now))
  }

  function RunFrom(c: Config, w: World, evs: seq<Event>): World {
    if |evs| == 0 then w else Next(c, RunFrom(c, w, evs[..|evs| - 1]), evs[|evs| - 1])
  }

  ghost predicate AllEnabled(c: Config, w: World, evs: seq<Event>) {
    |evs| > 0 ==>
      AllEnabled(c, w, evs[..|evs| - 1]) && Enabled(c, RunFrom(c, w, evs[..|evs| - 1]), evs[|evs| - 1])
  }

  /** Good tables, genuine objects, and an object behind every row that says so. */
  ghost predicate Live(c: Config, w: World) {
    TablesOk(c, w.tables) && ObjectsGenuine(c, w.bucket) && StoredHasObject(w)
  }

  ghost predicate StoredHasObject(w: World) {
    forall e | e in w.tables.evidence && e.stored :: e.objectKey in w.bucket
  }

  lemma SubmitKeepsLive(c: Config, w: World, r: WitnessReceipt)
    requires Live(c, w) && FromSource(c, r)
    ensures Live(c, Next(c, w, Submit(r))) && w.tables.receipts <= Next(c, w, Submit(r)).tables.receipts
  {
    var e := EvidenceFor(c, r);
    hide Sound, Covered, FromSource, KeyOf, Body, FindFingerprint, AnchorTaken, Latest, FindReceipt, EvidenceTaken, Vouched;
    RowBelongs(c, e, r);
    StepKeepsSound(w.tables, IngestOp(r, Some(e)));
    if Ingest(w.tables, r, Some(e)).1 == Inserted {
      var t := Tables(w.tables.receipts + [r], w.tables.evidence + [e]);
      assert Ingest(w.tables, r, Some(e)).0 == t;
      hide Ingest, EvidenceFor, Step, ObjectsGenuine;
      forall x | x in t.evidence ensures Vouched(c, t.receipts, x) { AddedVouched(c, w.tables, r, x); }
      assert !e.stored by { Unstored(c, r); }
    }
  }

  lemma AddedVouched(c: Config, t: Tables, r: WitnessReceipt, x: Evidence)
    requires x in t.evidence + [EvidenceFor(c, r)] && forall e | e in t.evidence :: Vouched(c, t.receipts, e)
    ensures Vouched(c, t.receipts + [r], x)
  {
    hide EvidenceFor;
    if x in t.evidence {
      AlsoVouched(c, t.receipts, r, x);
    } else {
      Unstored(c, r);
      assert x.(stored := false) == EvidenceFor(c, r) && r in t.receipts + [r];
    }
  }

  lemma Unmarked(es: seq<Evidence>, id: string, e: Evidence) returns (before: Evidence)
    requires e in MarkStored(es, id)
    ensures before in es && before.(stored := e.stored) == e
    ensures e.stored ==> before.stored || before.receiptId == id
  {
    hide MarkStored;
    var i :| 0 <= i < |es| && MarkStored(es, id)[i] == e;
    before := es[i];
  }

  lemma MarkKeepsCovered(t: Tables, id: string)
    requires Covered(t)
    ensures Covered(t.(evidence := MarkStored(t.evidence, id)))
  {
    hide MarkStored;
    var t' := t.(evidence := MarkStored(t.evidence, id));
    forall r | r in t'.receipts ensures HasEvidence(t', r) {
      var e := EvidenceOf(t, r);
      var i :| 0 <= i < |t.evidence| && t.evidence[i] == e;
      assert t'.evidence[i] in t'.evidence && Belongs(t'.evidence[i], r);
    }
  }

  /** Marking a row keeps everything the other invariants read. */
  lemma MarkKeepsTables(c: Config, t: Tables, id: string)
    requires TablesOk(c, t)
    ensures TablesOk(c, t.(evidence := MarkStored(t.evidence, id)))
  {
    hide EvidenceFor, FromSource, UniqueReceipts, UniqueEvidence, MarkStored, Covered, Vouched, Belongs;
    var t' := t.(evidence := MarkStored(t.evidence, id));
    MarkKeepsUnique(t.evidence, id);
    MarkKeepsCovered(t, id);
    forall e | e in t'.evidence ensures exists r :: r in t'.receipts && Belongs(e, r) {
      var before := Unmarked(t.evidence, id, e);
      var r :| r in t.receipts && Belongs(before, r);
      SameOwner(before, e, r);
    }
    forall e | e in t'.evidence ensures Vouched(c, t'.receipts, e) {
      var before := Unmarked(t.evidence, id, e);
      SameVoucher(c, t.receipts, before, e);
    }
  }

  lemma SameOwner(a: Evidence, e: Evidence, r: WitnessReceipt)
    requires a.(stored := e.stored) == e && Belongs(a, r)
    ensures Belongs(e, r)
  {
  }

  lemma SameVoucher(c: Config, rs: seq<WitnessReceipt>, a: Evidence, e: Evidence)
    requires a.(stored := e.stored) == e && Vouched(c, rs, a)
    ensures Vouched(c, rs, e)
  {
    hide EvidenceFor;
    var y := Voucher(c, rs, a);
    assert e.(stored := false) == EvidenceFor(c, y);
  }

  lemma MarkKeepsUnique(es: seq<Evidence>, id: string)
    requires UniqueEvidence(es)
    ensures UniqueEvidence(MarkStored(es, id))
  {
    hide Clashes, MarkStored;
    var ms := MarkStored(es, id);
    forall i, j | 0 <= i < j < |ms| ensures !Clashes(ms[i], ms[j]) {
      assert !Clashes(es[i], es[j]);
      StatusNeverClashes(es[i], es[j], ms[i], ms[j]);
    }
  }

  lemma StatusNeverClashes(a: Evidence, b: Evidence, x: Evidence, y: Evidence)
    requires x.(stored := a.stored) == a && y.(stored := b.stored) == b
    ensures Clashes(a, b) <==> Clashes(x, y)
  {
  }

  lemma ObjectStays(c: Config, b: Bucket, b': Bucket, x: WitnessReceipt)
    requires IsObject(c, b, x) && forall k | k in b :: k in b' && b'[k] == b[k]
    ensures IsObject(c, b', x)
  {
    hide FromSource, KeyOf, Body;
  }

  lemma PutAdds(c: Config, b: Bucket, key: string, body: string)
    ensures var b' := Put(c, b, key, body).0;
      && key in b' && (forall k | k in b :: k in b' && b'[k] == b[k])
      && (forall k | k in b' :: k in b || (k == key && b'[k] == body))
  {
  }

  lemma ReceiptFromSource(c: Config, w: World, r: WitnessReceipt)
    requires Live(c, w) && r in w.tables.receipts
    ensures FromSource(c, r)
  {
    hide FromSource, Vouched, Sound, Covered, ObjectsGenuine, StoredHasObject;
  }

  lemma PutKeepsGenuine(c: Config, b: Bucket, r: WitnessReceipt)
    requires ObjectsGenuine(c, b) && FromSource(c, r)
    ensures ObjectsGenuine(c, Put(c, b, KeyOf(c, r), Body(c, r)).0)
  {
    hide FromSource, KeyOf, Body, Put, IsObject;
    var b' := Put(c, b, KeyOf(c, r), Body(c, r)).0;
    PutAdds(c, b, KeyOf(c, r), Body(c, r));
    forall k | k in b' ensures exists x :: IsObject(c, b', x) && KeyOf(c, x) == k {
      if k in b {
        var x := ObjectAt(c, b, k);
        ObjectStays(c, b, b', x);
      } else {
        NewIsObject(c, b', r);
      }
    }
  }

  lemma NewIsObject(c: Config, b: Bucket, r: WitnessReceipt)
    requires FromSource(c, r) && KeyOf(c, r) in b && b[KeyOf(c, r)] == Body(c, r)
    ensures IsObject(c, b, r)
  {
    hide FromSource, KeyOf, Body;
  }

  lemma MarkedHasObject(c: Config, w: World, bucket: Bucket, r: WitnessReceipt, e: Evidence)
    requires Live(c, w) && r in w.tables.receipts && KeyOf(c, r) in bucket && (forall k | k in w.bucket :: k in bucket)
    requires e in MarkStored(w.tables.evidence, r.id) && e.stored
    ensures e.objectKey in bucket
  {
    hide Covered, KeyOf, Body, MarkStored, FromSource, Vouched, UniqueEvidence, ObjectsGenuine;
    var before := Unmarked(w.tables.evidence, r.id, e);
    if before.stored {
      assert before.objectKey in w.bucket;
    } else {
      var y := Voucher(c, w.tables.receipts, before);
      RowBelongs(c, before, y);
      SameIdSameReceipt(w.tables, y, r);
    }
  }

  lemma WorkKeepsLive(c: Config, w: World, id: string, finishes: bool)
    requires Live(c, w)
    ensures var w' := StoreObject(c, w, id, finishes);
      Live(c, w') && w'.tables.receipts == w.tables.receipts && forall k | k in w.bucket :: k in w'.bucket && w'.bucket[k] == w.bucket[k]
  {
    hide FindReceipt, Put, MarkStored, TablesOk, KeyOf, Body, EvidenceFor, ObjectsGenuine;
    var found := FindReceipt(w.tables.receipts, id);
    if found.Some? && EvidenceFor(c, found.value) in w.tables.evidence {
      var r := found.value;
      ReceiptFromSource(c, w, r);
      PutKeepsGenuine(c, w.bucket, r);
      PutAdds(c, w.bucket, KeyOf(c, r), Body(c, r));
      MarkKeepsTables(c, w.tables, id);
      var bucket := Put(c, w.bucket, KeyOf(c, r), Body(c, r)).0;
      forall e | e in MarkStored(w.tables.evidence, r.id) && e.stored ensures e.objectKey in bucket {
        MarkedHasObject(c, w, bucket, r, e);
      }
    }
  }

  lemma AddedStored(c: Config, t: Tables, b: Bucket, x: WitnessReceipt)
    requires StoredHasObject(World(t, b)) && KeyOf(c, x) in b
    ensures StoredHasObject(World(WithObject(c, t, x), b))
  {
    hide KeyOf, Body;
  }

  /** One recovered object, whether it completes its page or not. */
  lemma ObjectKeepsLive(c: Config, w: World, key: string, now: int)
    requires Live(c, w) && IsoExact(c.env) && ObjectsBy(c, w.bucket, now) && ReceivedBy(w.tables, now)
    requires key in w.bucket && RecoverObject(c, w.tables, w.bucket, key, now).Some?
    ensures var t := RecoverObject(c, w.tables, w.bucket, key, now).value;
      && Live(c, World(t, w.bucket)) && ReceivedBy(t, now) && w.tables.receipts <= t.receipts
      && forall r | r in t.receipts && r !in w.tables.receipts :: IsObject(c, w.bucket, r)
  {
    hide TablesOk, IsoExact, FromSource, KeyOf, Body, EvidenceFor, Restore, RecoverObject, IsObject;
    hide ObjectsBy, ObjectsGenuine, StoredHasObject, ReceivedBy;
    var x := ObjectAt(c, w.bucket, key);
    ObjectTimely(c, w.bucket, x, now);
    RecoverObjectRestores(c, w.tables, w.bucket, x, now);
    if x in w.tables.receipts {
      OkMeans(c, w.tables);
      hide Live;
      KnownObject(c, w.tables, x);
    } else {
      RestoreGoesThroughIff(c, w.tables, x, now);
      if Apart(w.tables.receipts, x) {
        AddedStored(c, w.tables, w.bucket, x);
        AddedBy(c, w.tables, x, now);
      } else {
        hide Live;
      }
    }
  }

  lemma AddedBy(c: Config, t: Tables, x: WitnessReceipt, now: int)
    requires ReceivedBy(t, now) && x.receivedAt <= now
    ensures ReceivedBy(WithObject(c, t, x), now)
  {
    hide EvidenceFor;
  }

  lemma RecoversListed(c: Config, t: Tables, b: Bucket, key: string, now: int)
    requires RecoverObject(c, t, b, key, now).Some?
    ensures key in b
  {
    hide ReadObject, Restore, EvidenceFor;
  }

  lemma {:induction false} PageKeepsLive(c: Config, w: World, keys: seq<string>, now: int)
    requires Live(c, w) && IsoExact(c.env) && ObjectsBy(c, w.bucket, now) && ReceivedBy(w.tables, now)
    ensures Recover(c, w.tables, w.bucket, keys, now).Some? ==>
      var t := Recover(c, w.tables, w.bucket, keys, now).value;
      && Live(c, World(t, w.bucket)) && ReceivedBy(t, now) && w.tables.receipts <= t.receipts
      && forall r | r in t.receipts && r !in w.tables.receipts :: IsObject(c, w.bucket, r)
  {
    hide Live, IsoExact, ObjectsBy, RecoverObject, IsObject, ReceivedBy;
    if |keys| > 0 {
      PageKeepsLive(c, w, keys[..|keys| - 1], now);
      var m := Recover(c, w.tables, w.bucket, keys[..|keys| - 1], now);
      if m.Some? && RecoverObject(c, m.value, w.bucket, keys[|keys| - 1], now).Some? {
        RecoversListed(c, m.value, w.bucket, keys[|keys| - 1], now);
        ObjectKeepsLive(c, World(m.value, w.bucket), keys[|keys| - 1], now);
      }
    }
  }

  lemma {:induction false} PageTablesLive(c: Config, w: World, keys: seq<string>, now: int)
    requires Live(c, w) && IsoExact(c.env) && ObjectsBy(c, w.bucket, now) && ReceivedBy(w.tables, now)
    ensures var t := PageTables(c, w.tables, w.bucket, keys, now);
      && Live(c, World(t, w.bucket)) && w.tables.receipts <= t.receipts
      && forall r | r in t.receipts && r !in w.tables.receipts :: IsObject(c, w.bucket, r)
  {
    hide Live, IsoExact, ObjectsBy, RecoverObject, IsObject, ReceivedBy;
    PageKeepsLive(c, w, keys, now);
    if |keys| > 0 && Recover(c, w.tables, w.bucket, keys, now).None? { PageTablesLive(c, w, keys[..|keys| - 1], now); }
  }

  lemma NextKeepsLive(c: Config, w: World, ev: Event)
    requires Live(c, w) && Enabled(c, w, ev) && IsoExact(c.env)
    ensures Live(c, Next(c, w, ev))
  {
    hide IsoExact, FromSource, Recover, StoreObject, ReceivedBy, PageTables, Ingest, EvidenceFor;
    match ev
    case Submit(r) => SubmitKeepsLive(c, w, r);
    case Work(id, finishes) => WorkKeepsLive(c, w, id, finishes);
    case Lose =>
    case Page(keys, now) => PageTablesLive(c, w, keys, now);
  }

  /** Through any run of submissions, partial or finished storage work, losses and recovery pages, in
      any order, complete or not: tables and store stay good. */
  lemma {:induction false} RunsStayLive(c: Config, w: World, evs: seq<Event>)
    requires Live(c, w) && AllEnabled(c, w, evs) && IsoExact(c.env)
    ensures Live(c, RunFrom(c, w, evs))
  {
    hide Next, IsoExact, Enabled, Live;
    if |evs| > 0 {
      RunsStayLive(c, w, evs[..|evs| - 1]);
      NextKeepsLive(c, RunFrom(c, w, evs[..|evs| - 1]), evs[|evs| - 1]);
    }
  }

  lemma EmptyLive(c: Config)
    ensures Live(c, EMPTY_WORLD)
  {
  }

  /* ---- What stands between a loss and the end of its recovery ---- */

  predicate NoLoss(evs: seq<Event>) { forall ev | ev in evs :: !ev.Lose? }

  predicate Kept(b: Bucket, b': Bucket) { forall k | k in b :: k in b' && b'[k] == b[k] }

  /** Every object is of a receipt of `rs` or of the tables. */
  ghost predicate ObjectsOf(c: Config, rs: seq<WitnessReceipt>, w: World) {
    forall x | IsObject(c, w.bucket, x) :: x in rs || x in w.tables.receipts
  }

  lemma PutKeepsObjectsOf(c: Config, rs: seq<WitnessReceipt>, w: World, r: WitnessReceipt, t: Tables)
    requires Live(c, w) && IsoExact(c.env) && ObjectsOf(c, rs, w) && r in w.tables.receipts && t.receipts == w.tables.receipts
    ensures ObjectsOf(c, rs, World(t, Put(c, w.bucket, KeyOf(c, r), Body(c, r)).0))
  {
    ReceiptFromSource(c, w, r);
    PutAdds(c, w.bucket, KeyOf(c, r), Body(c, r));
    hide Live, IsoExact, Put, FromSource, KeyOf, Body;
    var b := Put(c, w.bucket, KeyOf(c, r), Body(c, r)).0;
    forall x | IsObject(c, b, x) ensures x in rs || x in w.tables.receipts {
      if KeyOf(c, x) !in w.bucket {
        assert IsObject(c, b, r);
        ObjectUnique(c, b, x, r);
      } else {
        assert IsObject(c, w.bucket, x);
      }
    }
  }

  lemma WorkKeepsObjectsOf(c: Config, rs: seq<WitnessReceipt>, w: World, id: string, finishes: bool)
    requires Live(c, w) && IsoExact(c.env) && ObjectsOf(c, rs, w)
    ensures ObjectsOf(c, rs, StoreObject(c, w, id, finishes))
  {
    hide FindReceipt, Put, MarkStored, Live, KeyOf, Body, EvidenceFor, IsObject, IsoExact, ObjectsOf;
    var found := FindReceipt(w.tables.receipts, id);
    if found.Some? && EvidenceFor(c, found.value) in w.tables.evidence {
      PutKeepsObjectsOf(c, rs, w, found.value, w.tables);
      PutKeepsObjectsOf(c, rs, w, found.value, w.tables.(evidence := MarkStored(w.tables.evidence, id)));
    }
  }

  lemma NextKeepsObjectsOf(c: Config, rs: seq<WitnessReceipt>, w: World, ev: Event)
    requires Live(c, w) && Enabled(c, w, ev) && IsoExact(c.env) && !ev.Lose? && ObjectsOf(c, rs, w)
    ensures ObjectsOf(c, rs, Next(c, w, ev)) && Kept(w.bucket, Next(c, w, ev).bucket)
  {
    hide IsoExact, FromSource, Recover, StoreObject, ReceivedBy, PageTables, Ingest, EvidenceFor, Live, IsObject, ObjectsBy;
    match ev
    case Submit(r) => SubmitKeepsLive(c, w, r);
    case Work(id, finishes) =>
      WorkKeepsLive(c, w, id, finishes);
      WorkKeepsObjectsOf(c, rs, w, id, finishes);
    case Page(keys, now) => PageTablesLive(c, w, keys, now);
  }

  lemma {:induction false} RunsKeepObjectsOf(c: Config, rs: seq<WitnessReceipt>, w: World, evs: seq<Event>)
    requires Live(c, w) && AllEnabled(c, w, evs) && IsoExact(c.env) && NoLoss(evs) && ObjectsOf(c, rs, w)
    ensures ObjectsOf(c, rs, RunFrom(c, w, evs)) && Kept(w.bucket, RunFrom(c, w, evs).bucket)
  {
    hide Next, IsoExact, Enabled, Live, ObjectsOf;
    if |evs| > 0 {
      var before := evs[..|evs| - 1];
      assert NoLoss(before) && !evs[|evs| - 1].Lose?;
      RunsStayLive(c, w, before);
      RunsKeepObjectsOf(c, rs, w, before);
      NextKeepsObjectsOf(c, rs, RunFrom(c, w, before), evs[|evs| - 1]);
    }
  }

  lemma BackedIsLive(c: Config, w: World)
    requires Backed(c, w)
    ensures Live(c, w)
  {
    hide Sound, Covered, FromSource, KeyOf, Body, Vouched;
    forall k | k in w.bucket ensures exists x :: IsObject(c, w.bucket, x) && KeyOf(c, x) == k {
      var r :| r in w.tables.receipts && k == KeyOf(c, r) && w.bucket[k] == Body(c, r);
      assert IsObject(c, w.bucket, r);
    }
  }

  lemma BackedObjects(c: Config, w: World)
    requires Backed(c, w) && IsoExact(c.env)
    ensures ObjectsOf(c, w.tables.receipts, World(NO_ROWS, w.bucket)) && ObjectsOf(c, [], w)
  {
    hide Sound, Covered, FromSource, KeyOf, Body, Vouched, IsoExact;
    forall x | IsObject(c, w.bucket, x) ensures x in w.tables.receipts {
      var r :| r in w.tables.receipts && KeyOf(c, x) == KeyOf(c, r) && w.bucket[KeyOf(c, x)] == Body(c, r);
      assert IsObject(c, w.bucket, r);
      ObjectUnique(c, w.bucket, x, r);
    }
  }

  lemma LiveIsBacked(c: Config, w: World)
    requires Live(c, w) && ObjectsOf(c, [], w)
    ensures Backed(c, w)
  {
    hide Sound, Covered, FromSource, KeyOf, Body, Vouched;
    forall k | k in w.bucket ensures exists r :: r in w.tables.receipts && k == KeyOf(c, r) && w.bucket[k] == Body(c, r) {
      var x := ObjectAt(c, w.bucket, k);
      assert x in w.tables.receipts;
    }
  }

  /** Until the tables are lost, every object has its receipt in them. */
  lemma RunsStayBacked(c: Config, w: World, evs: seq<Event>)
    requires Backed(c, w) && AllEnabled(c, w, evs) && IsoExact(c.env) && NoLoss(evs)
    ensures Backed(c, RunFrom(c, w, evs))
  {
    hide IsoExact, AllEnabled, RunFrom, Backed, Live, ObjectsOf;
    BackedIsLive(c, w);
    BackedObjects(c, w);
    RunsStayLive(c, w, evs);
    RunsKeepObjectsOf(c, [], w, evs);
    LiveIsBacked(c, RunFrom(c, w, evs));
  }

  function Lost(w: World): World { w.(tables := NO_ROWS) }

  /** A receipt accepted since the loss of `past`, in the way of a listed object that is not back yet. */
  ghost predicate NewcomerInTheWay(c: Config, past: Tables, w: World, keys: seq<string>, x: WitnessReceipt, y: WitnessReceipt) {
    && Listed(c, w.bucket, keys, x) && x !in w.tables.receipts
    && y in w.tables.receipts && y !in past.receipts && Clash(y, x)
  }

  lemma PastApart(t: Tables, x: WitnessReceipt, y: WitnessReceipt)
    requires Sound(t) && Covered(t) && x in t.receipts && y in t.receipts && x != y
    ensures !Clash(y, x)
  {
    hide UniqueEvidence, Owned, Covered, HasEvidence;
    var i :| 0 <= i < |t.receipts| && t.receipts[i] == x;
    var j :| 0 <= j < |t.receipts| && t.receipts[j] == y;
    if x.sourceId == y.sourceId && x.chainSequence == y.chainSequence { OnePerSequence(t, i, j); }
    assert i < j || j < i;
  }

  lemma OnlyNewcomers(c: Config, past: Tables, w: World, keys: seq<string>)
    requires Sound(past) && Covered(past) && ObjectsOf(c, past.receipts, w)
    ensures Obstructed(c, w.tables, w.bucket, keys) <==> exists x, y :: NewcomerInTheWay(c, past, w, keys, x, y)
  {
    hide Sound, Covered, Clash, IsObject, KeyOf;
    if Obstructed(c, w.tables, w.bucket, keys) {
      var x, y :| InTheWay(c, w.tables, w.bucket, keys, x, y);
      if y in past.receipts { PastApart(past, x, y); }
      assert NewcomerInTheWay(c, past, w, keys, x, y);
    }
    if x, y :| NewcomerInTheWay(c, past, w, keys, x, y) {
      assert InTheWay(c, w.tables, w.bucket, keys, x, y);
    }
  }

  /** After a loss, and whatever has been submitted, stored and recovered since, a recovery of any
      listed objects completes exactly when no receipt accepted since the loss has the place, id,
      anchor or fingerprint of a listed object that is not back yet, unless two objects share a digest. */
  lemma RecoveryCompletesIff(c: Config, past: World, evs: seq<Event>, keys: seq<string>, now: int)
    requires Backed(c, past) && AllEnabled(c, Lost(past), evs) && NoLoss(evs) && IsoExact(c.env)
    requires Enabled(c, RunFrom(c, Lost(past), evs), Page(keys, now))
    requires forall k | k in keys :: k in RunFrom(c, Lost(past), evs).bucket
    ensures var w := RunFrom(c, Lost(past), evs);
      || Collides(c, w.tables, w.bucket, keys)
      || (Recover(c, w.tables, w.bucket, keys, now).Some?
          <==> !exists x, y :: NewcomerInTheWay(c, past.tables, w, keys, x, y))
  {
    var w := RunFrom(c, Lost(past), evs);
    hide Sound, Covered, IsoExact, AllEnabled, RunFrom, Recover, ObjectsBy, ReceivedBy, Collides, ObjectsOf, ObjectsGenuine;
    assert Sound(past.tables) && Covered(past.tables) by { hide Genuine, BucketBacked; }
    hide Backed, Obstructed, NewcomerInTheWay, Live, TablesOk;
    SinceLoss(c, past, evs);
    LiveParts(c, w);
    OnlyNewcomers(c, past.tables, w, keys);
    PageCompletesIff(c, w.tables, w.bucket, keys, now);
  }

  lemma SinceLoss(c: Config, past: World, evs: seq<Event>)
    requires Backed(c, past) && AllEnabled(c, Lost(past), evs) && NoLoss(evs) && IsoExact(c.env)
    ensures var w := RunFrom(c, Lost(past), evs);
      Live(c, w) && ObjectsOf(c, past.tables.receipts, w) && Kept(past.bucket, w.bucket)
  {
    BackedIsLive(c, past);
    assert Live(c, Lost(past)) by { hide ObjectsGenuine; }
    hide IsoExact, AllEnabled, RunFrom, Backed, Live, ObjectsOf;
    BackedObjects(c, past);
    RunsStayLive(c, Lost(past), evs);
    RunsKeepObjectsOf(c, past.tables.receipts, Lost(past), evs);
  }

  /** A recovery that completes over the whole store leaves a world as good as before the loss: every
      receipt whose object was written is back, next to those accepted since. */
  lemma RecoveryRestoresPast(c: Config, past: World, evs: seq<Event>, keys: seq<string>, now: int)
    requires Backed(c, past) && AllEnabled(c, Lost(past), evs) && NoLoss(evs) && IsoExact(c.env)
    requires Enabled(c, RunFrom(c, Lost(past), evs), Page(keys, now))
    requires (set k | k in keys) == RunFrom(c, Lost(past), evs).bucket.Keys
    requires var w := RunFrom(c, Lost(past), evs); Recover(c, w.tables, w.bucket, keys, now).Some?
    ensures var w := RunFrom(c, Lost(past), evs);
      var t := Recover(c, w.tables, w.bucket, keys, now).value;
      Collides(c, w.tables, w.bucket, keys) || WholeAgain(c, past, w, t)
  {
    hide IsoExact, AllEnabled, RunFrom, Recover, ObjectsBy, ReceivedBy, Live, ObjectsOf, Backed, Collides, WholeAgain, NoLoss, Kept, Lost;
    SinceLoss(c, past, evs);
    PageMakesWhole(c, past, RunFrom(c, Lost(past), evs), keys, now);
  }

  lemma PageMakesWhole(c: Config, past: World, w: World, keys: seq<string>, now: int)
    requires Backed(c, past) && Live(c, w) && Kept(past.bucket, w.bucket) && IsoExact(c.env)
    requires ObjectsBy(c, w.bucket, now) && ReceivedBy(w.tables, now) && (set k | k in keys) == w.bucket.Keys
    requires Recover(c, w.tables, w.bucket, keys, now).Some?
    ensures Collides(c, w.tables, w.bucket, keys) || WholeAgain(c, past, w, Recover(c, w.tables, w.bucket, keys, now).value)
  {
    var t := Recover(c, w.tables, w.bucket, keys, now).value;
    LiveParts(c, w);
    hide IsoExact, Recover, ObjectsBy, ReceivedBy, Live, Backed, ObjectsGenuine, Collides, GrownBy, Obstructed, WholeAgain, TablesOk, IsObject;
    assert forall k | k in keys :: k in set k | k in keys;
    PageKeepsLive(c, w, keys, now);
    PageCompletesIff(c, w.tables, w.bucket, keys, now);
    if !Collides(c, w.tables, w.bucket, keys) { BackWhole(c, past, w, keys, t); }
  }

  /** `t` holds the receipts accepted since the loss and all whose objects were written before it. */
  ghost predicate WholeAgain(c: Config, past: World, w: World, t: Tables) {
    && Backed(c, World(t, w.bucket)) && w.tables.receipts <= t.receipts
    && (forall r | r in past.tables.receipts && KeyOf(c, r) in past.bucket :: r in t.receipts)
  }

  lemma LiveParts(c: Config, w: World)
    requires Live(c, w)
    ensures TablesOk(c, w.tables) && ObjectsGenuine(c, w.bucket)
  {
    hide TablesOk, ObjectsGenuine;
  }

  lemma BackWhole(c: Config, past: World, w: World, keys: seq<string>, t: Tables)
    requires Backed(c, past) && Kept(past.bucket, w.bucket) && GrownBy(c, w.tables, w.bucket, keys, t)
    requires Live(c, World(t, w.bucket)) && w.tables.receipts <= t.receipts && w.bucket.Keys == set k | k in keys
    ensures WholeAgain(c, past, w, t)
  {
    hide Live, Backed, IsObject, KeyOf, TablesOk;
    forall x | IsObject(c, w.bucket, x) ensures x in t.receipts { ObjectInBucket(c, w.bucket, x); }
    LiveIsBacked(c, World(t, w.bucket));
    forall r | r in past.tables.receipts && KeyOf(c, r) in past.bucket ensures r in t.receipts {
      PastObject(c, past, r);
      ObjectStays(c, past.bucket, w.bucket, r);
    }
  }

  lemma ObjectInBucket(c: Config, b: Bucket, x: WitnessReceipt)
    requires IsObject(c, b, x)
    ensures KeyOf(c, x) in b
  {
    hide FromSource, KeyOf, Body;
  }

  lemma PastObject(c: Config, w: World, r: WitnessReceipt)
    requires Backed(c, w) && r in w.tables.receipts && KeyOf(c, r) in w.bucket
    ensures IsObject(c, w.bucket, r)
  {
    hide Sound, Covered, FromSource, KeyOf, Body, Vouched;
    var x :| x in w.tables.receipts && KeyOf(c, r) == KeyOf(c, x) && w.bucket[KeyOf(c, r)] == Body(c, x);
    SameKeySameReceipt(c, w.tables, r, x);
    assert FromSource(c, r);
  }

  /* ---- A run in which a recovery fails ---- */

  lemma FirstSubmitted(c: Config, b: Bucket, r: WitnessReceipt)
    ensures Next(c, World(NO_ROWS, b), Submit(r)) == World(Tables([r], [EvidenceFor(c, r)]), b)
  {
    assert [] + [r] == [r] && [] + [EvidenceFor(c, r)] == [EvidenceFor(c, r)];
    hide KeyOf, Body;
  }

  lemma FirstStored(c: Config, r: WitnessReceipt)
    ensures Next(c, World(Tables([r], [EvidenceFor(c, r)]), map[]), Work(r.id, true)).bucket == map[KeyOf(c, r) := Body(c, r)]
  {
    hide KeyOf, Body, EvidenceFor, MarkStored;
    assert FindReceipt([r], r.id) == Some(r);
  }

  lemma Replaying(c: Config, w: World, evs: seq<Event>, ev: Event)
    ensures RunFrom(c, w, evs + [ev]) == Next(c, RunFrom(c, w, evs), ev)
  {
    hide Next;
    assert (evs + [ev])[..|evs|] == evs;
  }

  /** A receipt is stored, the tables are lost, and before its object is recovered another receipt is
      accepted at its place, as when its source submits the same envelope again: the object never
      comes back, unless the two objects share a digest. */
  lemma ResubmissionBlocksRecovery(c: Config, x: WitnessReceipt, y: WitnessReceipt, now: int)
    requires FromSource(c, x) && FromSource(c, y) && IsoExact(c.env) && x.receivedAt <= now && y.receivedAt <= now
    requires x != y && y.sourceId == x.sourceId && y.chainSequence == x.chainSequence && !BodiesCollide(c, x, y)
    ensures var w := RunFrom(c, EMPTY_WORLD, [Submit(x), Work(x.id, true), Lose, Submit(y)]);
      && w.tables.receipts == [y] && IsObject(c, w.bucket, x)
      && Recover(c, w.tables, w.bucket, [KeyOf(c, x)], now) == None
      && PageTables(c, w.tables, w.bucket, [KeyOf(c, x)], now) == w.tables
  {
    var w := World(Tables([y], [EvidenceFor(c, y)]), map[KeyOf(c, x) := Body(c, x)]);
    BlockedRun(c, x, y);
    hide RunFrom, IsoExact, KeyOf, Body, EvidenceFor, FromSource, Recover, BodiesCollide, PageTables;
    assert IsObject(c, w.bucket, x);
    BlockedPage(c, w, x, y, now);
  }

  lemma BlockedRun(c: Config, x: WitnessReceipt, y: WitnessReceipt)
    ensures RunFrom(c, EMPTY_WORLD, [Submit(x), Work(x.id, true), Lose, Submit(y)])
      == World(Tables([y], [EvidenceFor(c, y)]), map[KeyOf(c, x) := Body(c, x)])
  {
    hide KeyOf, Body, EvidenceFor, Ingest, StoreObject;
    assert RunFrom(c, EMPTY_WORLD, []) == EMPTY_WORLD;
    Replaying(c, EMPTY_WORLD, [], Submit(x));
    FirstSubmitted(c, map[], x);
    Replaying(c, EMPTY_WORLD, [Submit(x)], Work(x.id, true));
    FirstStored(c, x);
    Replaying(c, EMPTY_WORLD, [Submit(x), Work(x.id, true)], Lose);
    Replaying(c, EMPTY_WORLD, [Submit(x), Work(x.id, true), Lose], Submit(y));
    FirstSubmitted(c, map[KeyOf(c, x) := Body(c, x)], y);
    assert [] + [Submit(x)] == [Submit(x)];
    assert [Submit(x)] + [Work(x.id, true)] == [Submit(x), Work(x.id, true)];
    assert [Submit(x), Work(x.id, true)] + [Lose] == [Submit(x), Work(x.id, true), Lose];
    assert [Submit(x), Work(x.id, true), Lose] + [Submit(y)] == [Submit(x), Work(x.id, true), Lose, Submit(y)];
  }

  lemma BlockedPage(c: Config, w: World, x: WitnessReceipt, y: WitnessReceipt, now: int)
    requires FromSource(c, y) && IsObject(c, w.bucket, x) && IsoExact(c.env) && x.receivedAt <= now && y.receivedAt <= now
    requires w.tables == Tables([y], [EvidenceFor(c, y)]) && !BodiesCollide(c, x, y)
    requires x != y && y.sourceId == x.sourceId && y.chainSequence == x.chainSequence
    ensures Recover(c, w.tables, w.bucket, [KeyOf(c, x)], now) == None
    ensures PageTables(c, w.tables, w.bucket, [KeyOf(c, x)], now) == w.tables
  {
    hide IsoExact, KeyOf, Body, EvidenceFor, FromSource, Restore, RecoverObject, BodiesCollide;
    assert FromSource(c, x);
    OneRowOk(c, y);
    hide IsObject, TablesOk;
    SamePlaceRefused(c, w.tables, x, y, now);
    RecoverObjectRestores(c, w.tables, w.bucket, x, now);
    assert [KeyOf(c, x)][..0] == [];
    assert Recover(c, w.tables, w.bucket, [], now) == Some(w.tables);
  }

  lemma OneRowOk(c: Config, y: WitnessReceipt)
    requires FromSource(c, y)
    ensures TablesOk(c, Tables([y], [EvidenceFor(c, y)]))
  {
    hide FromSource, KeyOf, Body;
    var t := Tables([y], [EvidenceFor(c, y)]);
    RowBelongs(c, EvidenceFor(c, y), y);
    assert EvidenceFor(c, y) in t.evidence && y in t.receipts;
  }
}

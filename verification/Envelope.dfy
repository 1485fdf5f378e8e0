/** What the audit witness accepts from a source, and the object it writes for each receipt. */
module Envelope {
  import opened Options
  import opened CanonicalJson
  import opened Records
  import opened AuditChain

  /** The outside world: hashing, the ISO text of a millisecond time and back, signature checks. */
  datatype Env = Env(hashing: Hashing, iso: int -> string, ms: string -> Option<int>,
                     signed: (string, string, string) -> bool)

  ghost predicate IsoExact(env: Env) {
    forall t :: env.ms(env.iso(t)) == Some(t) && 0 < |env.iso(t)| <= MAX_STRING
  }

  datatype Source = Source(id: string, issuer: string, publicKeys: map<string, string>)

  datatype ChainReceipt = ChainReceipt(issuer: string, generatedAt: string, lastSequence: nat, headHash: string,
                                       legacyEventCount: nat)

  datatype Payload = Payload(anchorId: string, fingerprint: string, receipt: ChainReceipt, signingKeyId: string,
                             signature: string)

  datatype WitnessReceipt = WitnessReceipt(id: string, sourceId: string, anchorId: string, fingerprint: string,
                                           issuer: string, chainSequence: nat, headHash: string, signingKeyId: string,
                                           payload: Payload, receivedAt: int)

  const MAX_STRING: int := 2048
  const MAX_SAFE: int := 9_007_199_254_740_991
  const MAX_FUTURE_SKEW_MS: int := 300_000

  /* ---- Formats ---- */

  predicate IsHex(c: char) { '0' <= c <= '9' || 'a' <= c <= 'f' }

  predicate AllHex(s: string) { forall c | c in s :: IsHex(c) }

  predicate IsHash(s: string) { |s| == 64 && AllHex(s) }

  predicate IsKeyId(s: string) { |s| == 16 && AllHex(s) }

  predicate IsAnchorId(s: string) { |s| == 39 && s[..7] == "anchor_" && AllHex(s[7..]) }

  predicate IsReceiptId(s: string) { |s| == 40 && s[..8] == "witness_" && AllHex(s[8..]) }

  predicate IsBase64Url(c: char) {
    'A' <= c <= 'Z' || 'a' <= c <= 'z' || '0' <= c <= '9' || c == '_' || c == '-'
  }

  predicate IsSignature(s: string) { |s| == 94 && s[..8] == "ed25519:" && forall c | c in s[8..] :: IsBase64Url(c) }

  predicate IsSourceChar(c: char) { 'a' <= c <= 'z' || '0' <= c <= '9' || c == '_' || c == '-' }

  predicate IsSourceId(s: string) { 2 <= |s| <= 64 && 'a' <= s[0] <= 'z' && forall c | c in s :: IsSourceChar(c) }

  /* ---- Reading untrusted JSON ---- */

  function GetString(f: Fields, k: string): (r: Option<string>)
    ensures r.Some? ==> Get(f, k) == Some(Str(r.value)) && 0 < |r.value| <= MAX_STRING
  {
    match Get(f, k)
    case Some(Str(s)) => if 0 < |s| <= MAX_STRING then Some(s) else None
    case _ => None
  }

  function GetObject(f: Fields, k: string): (r: Option<Fields>)
    ensures r.Some? ==> Get(f, k) == Some(Obj(r.value))
  {
    match Get(f, k)
    case Some(Obj(fields)) => Some(fields)
    case _ => None
  }

  function GetSafeInteger(f: Fields, k: string): (r: Option<nat>)
    ensures r.Some? ==> Get(f, k) == Some(Num(r.value)) && r.value <= MAX_SAFE
  {
    match Get(f, k)
    case Some(Num(n)) => if 0 <= n <= MAX_SAFE then Some(n) else None
    case _ => None
  }

  function Require(ok: bool): Option<()> { if ok then Some(()) else None }

  /* ---- Writing ---- */

  const CHAIN_KEYS: seq<string> :=
    ["version", "issuer", "generatedAt", "valid", "checkedEvents", "firstSequence", "lastSequence", "headHash",
     "brokenAtSequence", "legacyEventCount"]
  const EVIDENCE_KEYS: seq<string> := ["receipt", "signingKeyId", "signature"]
  const PAYLOAD_KEYS: seq<string> := ["version", "anchorId", "fingerprint", "evidence"]
  const ENVELOPE_KEYS: seq<string> :=
    ["version", "receiptId", "sourceId", "anchorId", "fingerprint", "issuer", "chainSequence", "headHash",
     "signingKeyId", "payload", "receivedAt"]
  const FINGERPRINT_KEYS: seq<string> := ["issuer", "lastSequence", "headHash"]

  function ChainValues(r: ChainReceipt): (vs: seq<Json>)
    ensures |vs| == |CHAIN_KEYS|
  {
    [Num(1), Str(r.issuer), Str(r.generatedAt), Bool(true), Num(r.lastSequence),
     if r.lastSequence == 0 then Null else Num(1), Num(r.lastSequence), Str(r.headHash), Null, Num(r.legacyEventCount)]
  }

  function ChainJson(r: ChainReceipt): Json { Obj(Record(CHAIN_KEYS, ChainValues(r))) }

  function EvidenceValues(p: Payload): (vs: seq<Json>)
    ensures |vs| == |EVIDENCE_KEYS|
  {
    [ChainJson(p.receipt), Str(p.signingKeyId), Str(p.signature)]
  }

  function EvidenceJson(p: Payload): Json { Obj(Record(EVIDENCE_KEYS, EvidenceValues(p))) }

  function PayloadValues(p: Payload): (vs: seq<Json>)
    ensures |vs| == |PAYLOAD_KEYS|
  {
    [Num(1), Str(p.anchorId), Str(p.fingerprint), EvidenceJson(p)]
  }

  function PayloadJson(p: Payload): Json { Obj(Record(PAYLOAD_KEYS, PayloadValues(p))) }

  function EnvelopeValues(env: Env, r: WitnessReceipt): (vs: seq<Json>)
    ensures |vs| == |ENVELOPE_KEYS|
  {
    [Num(1), Str(r.id), Str(r.sourceId), Str(r.anchorId), Str(r.fingerprint), Str(r.issuer), Num(r.chainSequence),
     Str(r.headHash), Str(r.signingKeyId), PayloadJson(r.payload), Str(env.iso(r.receivedAt))]
  }

  function EnvelopeJson(env: Env, r: WitnessReceipt): Json { Obj(Record(ENVELOPE_KEYS, EnvelopeValues(env, r))) }

  function EvidenceBody(env: Env, r: WitnessReceipt): string { Text(env.hashing.le, EnvelopeJson(env, r)) }

  function Fingerprint(env: Env, issuer: string, lastSequence: nat, headHash: string): string {
    env.hashing.sha(Text(env.hashing.le,
                         Obj(Record(FINGERPRINT_KEYS, [Str(issuer), Num(lastSequence), Str(headHash)]))))
  }

  /* ---- Normalising ---- */

  /** The audit receipt inside a payload, or nothing when any check fails. */
  function NormalizedChain(env: Env, f: Fields, source: Source, now: int): Option<ChainReceipt> {
    var _ :- Require(Get(f, "version") == Some(Num(1)));
    var issuer :- GetString(f, "issuer");
    var _ :- Require(issuer == source.issuer);
    var generatedAt :- GetString(f, "generatedAt");
    var generatedAtMs :- env.ms(generatedAt);
    var _ :- Require(env.iso(generatedAtMs) == generatedAt && generatedAtMs <= now + MAX_FUTURE_SKEW_MS);
    var _ :- Require(Get(f, "valid") == Some(Bool(true)) && Get(f, "brokenAtSequence") == Some(Null));
    var checkedEvents :- GetSafeInteger(f, "checkedEvents");
    var lastSequence :- GetSafeInteger(f, "lastSequence");
    var legacyEventCount :- GetSafeInteger(f, "legacyEventCount");
    var firstSequence := Get(f, "firstSequence");
    var _ :- Require(if lastSequence == 0 then firstSequence == Some(Null) && checkedEvents == 0
                     else firstSequence == Some(Num(1)) && checkedEvents == lastSequence);
    var headHash :- GetString(f, "headHash");
    var _ :- Require(IsHash(headHash) && (lastSequence == 0 ==> headHash == GENESIS_HASH));
    Some(ChainReceipt(issuer, generatedAt, lastSequence, headHash, legacyEventCount))
  }

  function NormalizedPayload(env: Env, raw: Json, source: Source, now: int): Option<Payload> {
    var _ :- Require(raw.Obj? && Get(raw.fields, "version") == Some(Num(1)));
    var f := raw.fields;
    var anchorId :- GetString(f, "anchorId");
    var fingerprint :- GetString(f, "fingerprint");
    var _ :- Require(IsAnchorId(anchorId) && IsHash(fingerprint));
    var evidence :- GetObject(f, "evidence");
    var receiptFields :- GetObject(evidence, "receipt");
    var receipt :- NormalizedChain(env, receiptFields, source, now);
    var signingKeyId :- GetString(evidence, "signingKeyId");
    var signature :- GetString(evidence, "signature");
    var _ :- Require(IsKeyId(signingKeyId) && IsSignature(signature));
    var _ :- Require(&& signingKeyId in source.publicKeys
                     && env.signed(source.publicKeys[signingKeyId], Text(env.hashing.le, ChainJson(receipt)), signature));
    var _ :- Require(fingerprint == Fingerprint(env, receipt.issuer, receipt.lastSequence, receipt.headHash));
    Some(Payload(anchorId, fingerprint, receipt, signingKeyId, signature))
  }

  /** The receipt an object restores, or nothing when it is not a source's canonical envelope. */
  function NormalizedEnvelope(env: Env, raw: Json, source: Source, now: int): Option<WitnessReceipt> {
    var _ :- Require(raw.Obj? && Get(raw.fields, "version") == Some(Num(1)));
    var f := raw.fields;
    var rawPayload :- Get(f, "payload");
    var payload :- NormalizedPayload(env, rawPayload, source, now);
    var receivedAt :- GetString(f, "receivedAt");
    var receivedAtMs :- env.ms(receivedAt);
    var _ :- Require(env.iso(receivedAtMs) == receivedAt && receivedAtMs <= now + MAX_FUTURE_SKEW_MS);
    var id :- GetString(f, "receiptId");
    var sourceId :- GetString(f, "sourceId");
    var anchorId :- GetString(f, "anchorId");
    var fingerprint :- GetString(f, "fingerprint");
    var issuer :- GetString(f, "issuer");
    var chainSequence :- GetSafeInteger(f, "chainSequence");
    var headHash :- GetString(f, "headHash");
    var signingKeyId :- GetString(f, "signingKeyId");
    var _ :- Require(IsReceiptId(id) && IsSourceId(sourceId) && IsAnchorId(anchorId) && IsHash(fingerprint)
                     && IsHash(headHash) && IsKeyId(signingKeyId));
    var _ :- Require(&& sourceId == source.id && anchorId == payload.anchorId && fingerprint == payload.fingerprint
                     && issuer == payload.receipt.issuer && chainSequence == payload.receipt.lastSequence
                     && headHash == payload.receipt.headHash && signingKeyId == payload.signingKeyId);
    Some(WitnessReceipt(id, sourceId, anchorId, fingerprint, issuer, chainSequence, headHash, signingKeyId, payload, receivedAtMs))
  }

  /** The row `ingest` builds for an accepted payload. */
  function ReceiptFor(id: string, source: Source, p: Payload, receivedAt: int): WitnessReceipt {
    WitnessReceipt(id, source.id, p.anchorId, p.fingerprint, p.receipt.issuer, p.receipt.lastSequence,
                   p.receipt.headHash, p.signingKeyId, p, receivedAt)
  }

  lemma KeysDistinct()
    ensures Distinct(CHAIN_KEYS) && Distinct(EVIDENCE_KEYS) && Distinct(PAYLOAD_KEYS) && Distinct(ENVELOPE_KEYS)
  {
    ToldApartDistinct(CHAIN_KEYS);
    ToldApartDistinct(EVIDENCE_KEYS);
    ToldApartDistinct(PAYLOAD_KEYS);
    ToldApartDistinct(ENVELOPE_KEYS);
  }

  /* ---- Accepted receipts survive the object store ---- */

  predicate GoodChain(env: Env, r: ChainReceipt, source: Source, now: int) {
    && r.issuer == source.issuer && 0 < |r.issuer| <= MAX_STRING && 0 < |r.generatedAt| <= MAX_STRING
    && env.ms(r.generatedAt).Some? && env.iso(env.ms(r.generatedAt).value) == r.generatedAt
    && env.ms(r.generatedAt).value <= now + MAX_FUTURE_SKEW_MS
    && r.lastSequence <= MAX_SAFE && r.legacyEventCount <= MAX_SAFE
    && IsHash(r.headHash) && (r.lastSequence == 0 ==> r.headHash == GENESIS_HASH)
  }

  predicate GoodPayload(env: Env, p: Payload, source: Source, now: int) {
    && GoodChain(env, p.receipt, source, now)
    && IsAnchorId(p.anchorId) && IsHash(p.fingerprint) && IsKeyId(p.signingKeyId) && IsSignature(p.signature)
    && p.signingKeyId in source.publicKeys
    && env.signed(source.publicKeys[p.signingKeyId], Text(env.hashing.le, ChainJson(p.receipt)), p.signature)
    && p.fingerprint == Fingerprint(env, p.receipt.issuer, p.receipt.lastSequence, p.receipt.headHash)
  }

  lemma {:induction false} NormalizedIsGood(env: Env, raw: Json, source: Source, now: int)
    requires NormalizedPayload(env, raw, source, now).Some?
    ensures GoodPayload(env, NormalizedPayload(env, raw, source, now).value, source, now)
  {
    hide Text, ChainJson, Fingerprint, IsHash, IsAnchorId, IsKeyId, IsSignature, Get, GENESIS_HASH;
  }

  predicate ReadsChain(f: Fields, r: ChainReceipt) {
    && Get(f, "version") == Some(Num(1)) && Get(f, "issuer") == Some(Str(r.issuer))
    && Get(f, "generatedAt") == Some(Str(r.generatedAt)) && Get(f, "valid") == Some(Bool(true))
    && Get(f, "checkedEvents") == Some(Num(r.lastSequence))
    && Get(f, "firstSequence") == Some(if r.lastSequence == 0 then Null else Num(1))
    && Get(f, "lastSequence") == Some(Num(r.lastSequence)) && Get(f, "headHash") == Some(Str(r.headHash))
    && Get(f, "brokenAtSequence") == Some(Null) && Get(f, "legacyEventCount") == Some(Num(r.legacyEventCount))
  }

  lemma ChainFieldsRead(le: KeyOrder, r: ChainReceipt)
    ensures DistinctKeys(ChainJson(r))
    ensures ReadsChain(CanonicalFields(le, Record(CHAIN_KEYS, ChainValues(r))), r)
  {
    KeysDistinct();
    hide Record, CanonicalFields, Get, ToldApart, Distinct;
    var keys, vs := CHAIN_KEYS, ChainValues(r);
    RecordDistinct(keys, vs);
    var f := CanonicalFields(le, Record(keys, vs));
    forall i: nat | i < 10 ensures Get(f, keys[i]) == Some(Canonical(le, vs[i])) { CanonicalRecordGet(le, keys, vs, i); }
    assert Get(f, keys[0]) == Some(Num(1)) && Get(f, keys[1]) == Some(Str(r.issuer)) && Get(f, keys[2]) == Some(Str(r.generatedAt));
    assert Get(f, keys[3]) == Some(Bool(true)) && Get(f, keys[4]) == Some(Num(r.lastSequence));
    assert Get(f, keys[5]) == Some(if r.lastSequence == 0 then Null else Num(1));
    assert Get(f, keys[6]) == Some(Num(r.lastSequence)) && Get(f, keys[7]) == Some(Str(r.headHash));
    assert Get(f, keys[8]) == Some(Null) && Get(f, keys[9]) == Some(Num(r.legacyEventCount));
  }

  lemma ChainReads(env: Env, f: Fields, r: ChainReceipt, source: Source, now: int)
    requires GoodChain(env, r, source, now) && ReadsChain(f, r)
    ensures NormalizedChain(env, f, source, now) == Some(r)
  {
    hide Get, AllHex, GENESIS_HASH;
  }

  predicate ReadsPayload(le: KeyOrder, f: Fields, p: Payload) {
    && Get(f, "version") == Some(Num(1)) && Get(f, "anchorId") == Some(Str(p.anchorId))
    && Get(f, "fingerprint") == Some(Str(p.fingerprint)) && Get(f, "evidence") == Some(Canonical(le, EvidenceJson(p)))
  }

  predicate ReadsEvidence(le: KeyOrder, f: Fields, p: Payload) {
    && Get(f, "receipt") == Some(Canonical(le, ChainJson(p.receipt)))
    && Get(f, "signingKeyId") == Some(Str(p.signingKeyId)) && Get(f, "signature") == Some(Str(p.signature))
  }

  lemma EvidenceFieldsRead(le: KeyOrder, p: Payload)
    ensures DistinctKeys(EvidenceJson(p))
    ensures ReadsEvidence(le, CanonicalFields(le, Record(EVIDENCE_KEYS, EvidenceValues(p))), p)
  {
    KeysDistinct();
    ChainFieldsRead(le, p.receipt);
    assert ChainJson(p.receipt).Obj?;
    hide Record, CanonicalFields, Get, ToldApart, Distinct, ChainJson;
    var keys, vs := EVIDENCE_KEYS, EvidenceValues(p);
    assert forall i | 0 <= i < |vs| :: DistinctKeys(vs[i]);
    RecordDistinct(keys, vs);
    var f := CanonicalFields(le, Record(keys, vs));
    forall i: nat | i < 3 ensures Get(f, keys[i]) == Some(Canonical(le, vs[i])) { CanonicalRecordGet(le, keys, vs, i); }
    assert Get(f, keys[0]) == Some(Canonical(le, vs[0])) && Get(f, keys[1]) == Some(Canonical(le, vs[1]))
        && Get(f, keys[2]) == Some(Canonical(le, vs[2]));
  }

  lemma PayloadFieldsRead(le: KeyOrder, p: Payload)
    ensures DistinctKeys(PayloadJson(p))
    ensures ReadsPayload(le, CanonicalFields(le, Record(PAYLOAD_KEYS, PayloadValues(p))), p)
  {
    KeysDistinct();
    EvidenceFieldsRead(le, p);
    assert EvidenceJson(p).Obj?;
    hide Record, CanonicalFields, Get, ToldApart, Distinct, EvidenceJson;
    var keys, vs := PAYLOAD_KEYS, PayloadValues(p);
    assert forall i | 0 <= i < |vs| :: DistinctKeys(vs[i]);
    RecordDistinct(keys, vs);
    var f := CanonicalFields(le, Record(keys, vs));
    forall i: nat | i < 4 ensures Get(f, keys[i]) == Some(Canonical(le, vs[i])) { CanonicalRecordGet(le, keys, vs, i); }
    assert Get(f, keys[0]) == Some(Canonical(le, vs[0])) && Get(f, keys[1]) == Some(Canonical(le, vs[1]))
        && Get(f, keys[2]) == Some(Canonical(le, vs[2])) && Get(f, keys[3]) == Some(Canonical(le, vs[3]));
  }

  lemma PayloadReads(env: Env, p: Payload, source: Source, now: int)
    requires GoodPayload(env, p, source, now)
    ensures NormalizedPayload(env, Canonical(env.hashing.le, PayloadJson(p)), source, now) == Some(p)
  {
    var le := env.hashing.le;
    ChainFieldsRead(le, p.receipt);
    EvidenceFieldsRead(le, p);
    PayloadFieldsRead(le, p);
    var c := CanonicalFields(le, Record(CHAIN_KEYS, ChainValues(p.receipt)));
    var e := CanonicalFields(le, Record(EVIDENCE_KEYS, EvidenceValues(p)));
    var f := CanonicalFields(le, Record(PAYLOAD_KEYS, PayloadValues(p)));
    ChainReads(env, c, p.receipt, source, now);
    assert Canonical(le, ChainJson(p.receipt)) == Obj(c) && Canonical(le, EvidenceJson(p)) == Obj(e);
    assert Canonical(le, PayloadJson(p)) == Obj(f);
    PayloadNormalizes(env, c, e, f, p, source, now);
  }

  lemma PayloadNormalizes(env: Env, c: Fields, e: Fields, f: Fields, p: Payload, source: Source, now: int)
    requires GoodPayload(env, p, source, now)
    requires NormalizedChain(env, c, source, now) == Some(p.receipt)
    requires Get(e, "receipt") == Some(Obj(c)) && Get(e, "signingKeyId") == Some(Str(p.signingKeyId))
    requires Get(e, "signature") == Some(Str(p.signature)) && Get(f, "evidence") == Some(Obj(e))
    requires Get(f, "version") == Some(Num(1)) && Get(f, "anchorId") == Some(Str(p.anchorId))
    requires Get(f, "fingerprint") == Some(Str(p.fingerprint))
    ensures NormalizedPayload(env, Obj(f), source, now) == Some(p)
  {
    assert 0 < |p.anchorId| <= MAX_STRING && 0 < |p.fingerprint| <= MAX_STRING;
    assert 0 < |p.signingKeyId| <= MAX_STRING && 0 < |p.signature| <= MAX_STRING;
    hide Get, Text, NormalizedChain, GoodChain, Fingerprint, ChainJson, IsAnchorId, IsHash, IsKeyId, IsSignature;
    assert GetObject(e, "receipt") == Some(c) && GetObject(f, "evidence") == Some(e);
    assert GetString(f, "anchorId") == Some(p.anchorId) && GetString(f, "fingerprint") == Some(p.fingerprint);
    assert GetString(e, "signingKeyId") == Some(p.signingKeyId) && GetString(e, "signature") == Some(p.signature);
  }

  /* ---- The whole envelope ---- */

  predicate ReadsEnvelope(env: Env, f: Fields, r: WitnessReceipt) {
    && Get(f, "version") == Some(Num(1)) && Get(f, "receiptId") == Some(Str(r.id))
    && Get(f, "sourceId") == Some(Str(r.sourceId)) && Get(f, "anchorId") == Some(Str(r.anchorId))
    && Get(f, "fingerprint") == Some(Str(r.fingerprint)) && Get(f, "issuer") == Some(Str(r.issuer))
    && Get(f, "chainSequence") == Some(Num(r.chainSequence)) && Get(f, "headHash") == Some(Str(r.headHash))
    && Get(f, "signingKeyId") == Some(Str(r.signingKeyId))
    && Get(f, "payload") == Some(Canonical(env.hashing.le, PayloadJson(r.payload)))
    && Get(f, "receivedAt") == Some(Str(env.iso(r.receivedAt)))
  }

  lemma EnvelopeDistinct(env: Env, r: WitnessReceipt)
    ensures DistinctKeys(EnvelopeJson(env, r))
    ensures forall i | 0 <= i < 11 :: DistinctKeys(EnvelopeValues(env, r)[i]) && !EnvelopeValues(env, r)[i].Undefined?
  {
    PayloadFieldsRead(env.hashing.le, r.payload);
    assert PayloadJson(r.payload).Obj?;
    KeysDistinct();
    hide Record, PayloadJson, ToldApart, Distinct;
    var keys, vs := ENVELOPE_KEYS, EnvelopeValues(env, r);
    assert forall i | 0 <= i < |vs| :: DistinctKeys(vs[i]);
    RecordDistinct(keys, vs);
  }

  lemma EnvelopeGet(env: Env, r: WitnessReceipt, i: nat)
    requires i < 11
    ensures Get(CanonicalFields(env.hashing.le, Record(ENVELOPE_KEYS, EnvelopeValues(env, r))), ENVELOPE_KEYS[i])
         == Some(Canonical(env.hashing.le, EnvelopeValues(env, r)[i]))
  {
    KeysDistinct();
    EnvelopeDistinct(env, r);
    var keys, vs := ENVELOPE_KEYS, EnvelopeValues(env, r);
    assert |keys| == |vs| == 11;
    hide ENVELOPE_KEYS, EnvelopeValues, Record, CanonicalFields, Canonical, Get, Distinct, EnvelopeJson;
    CanonicalRecordGet(env.hashing.le, keys, vs, i);
  }

  lemma EnvelopeFieldsRead(env: Env, r: WitnessReceipt)
    ensures ReadsEnvelope(env, CanonicalFields(env.hashing.le, Record(ENVELOPE_KEYS, EnvelopeValues(env, r))), r)
  {
    hide Record, CanonicalFields, Get, PayloadJson;
    var le, keys, vs := env.hashing.le, ENVELOPE_KEYS, EnvelopeValues(env, r);
    var f := CanonicalFields(le, Record(keys, vs));
    forall i: nat | i < 11 ensures Get(f, keys[i]) == Some(Canonical(le, vs[i])) { EnvelopeGet(env, r, i); }
    assert Get(f, keys[0]) == Some(Num(1)) && Get(f, keys[1]) == Some(Str(r.id)) && Get(f, keys[2]) == Some(Str(r.sourceId));
    assert Get(f, keys[3]) == Some(Str(r.anchorId)) && Get(f, keys[4]) == Some(Str(r.fingerprint));
    assert Get(f, keys[5]) == Some(Str(r.issuer)) && Get(f, keys[6]) == Some(Num(r.chainSequence));
    assert Get(f, keys[7]) == Some(Str(r.headHash)) && Get(f, keys[8]) == Some(Str(r.signingKeyId));
    assert Get(f, keys[9]) == Some(Canonical(le, PayloadJson(r.payload))) && Get(f, keys[10]) == Some(Str(env.iso(r.receivedAt)));
  }

  /** The receipts `ingest` can build: an accepted payload of a source, under a fresh id. */
  predicate Accepted(env: Env, r: WitnessReceipt, source: Source) {
    && IsReceiptId(r.id) && IsSourceId(source.id)
    && GoodPayload(env, r.payload, source, r.receivedAt)
    && r == ReceiptFor(r.id, source, r.payload, r.receivedAt)
  }

  /** Whatever `normalizedPayload` lets through makes an accepted receipt. */
  lemma {:induction false} IngestAccepts(env: Env, raw: Json, source: Source, id: string, now: int)
    requires NormalizedPayload(env, raw, source, now).Some? && IsReceiptId(id) && IsSourceId(source.id)
    ensures Accepted(env, ReceiptFor(id, source, NormalizedPayload(env, raw, source, now).value, now), source)
  {
    hide NormalizedPayload, GoodPayload, IsReceiptId, IsSourceId;
    NormalizedIsGood(env, raw, source, now);
  }

  lemma EnvelopeNormalizes(env: Env, f: Fields, r: WitnessReceipt, source: Source, now: int)
    requires Accepted(env, r, source) && IsoExact(env) && r.receivedAt <= now && ReadsEnvelope(env, f, r)
    requires NormalizedPayload(env, Canonical(env.hashing.le, PayloadJson(r.payload)), source, now) == Some(r.payload)
    ensures NormalizedEnvelope(env, Obj(f), source, now) == Some(r)
  {
    hide Get, AllHex, Text, NormalizedPayload, Fingerprint, PayloadJson, Canonical, GENESIS_HASH;
  }

  /** Reading an accepted receipt's object back gives exactly that receipt, and the same bytes again:
      the envelope survives the canonical text. */
  lemma EnvelopeRoundTrip(env: Env, r: WitnessReceipt, source: Source, now: int)
    requires Accepted(env, r, source) && IsoExact(env) && r.receivedAt <= now
    ensures Parse(EvidenceBody(env, r)).Some?
    ensures NormalizedEnvelope(env, Parse(EvidenceBody(env, r)).value, source, now) == Some(r)
  {
    var le := env.hashing.le;
    TextParses(le, EnvelopeJson(env, r));
    EnvelopeFieldsRead(env, r);
    assert GoodPayload(env, r.payload, source, now) by {
      hide Text, ChainJson, Fingerprint, IsHash, IsAnchorId, IsKeyId, IsSignature, GENESIS_HASH;
    }
    PayloadReads(env, r.payload, source, now);
    hide Parse, Text, GoodPayload, NormalizedPayload, NormalizedEnvelope, Accepted, ReadsEnvelope, CanonicalFields;
    EnvelopeNormalizes(env, CanonicalFields(le, Record(ENVELOPE_KEYS, EnvelopeValues(env, r))), r, source, now);
  }
}

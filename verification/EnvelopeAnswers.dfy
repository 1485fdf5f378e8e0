/** Exactly which payloads and envelopes the witness takes, and as what. */
module EnvelopeAnswers {
  import opened Options
  import opened CanonicalJson
  import opened Envelope
  import opened Recovery
  import opened ObjectKeys
  import AuditChain

  /* ---- Formats ---- */

  predicate LowerHex(s: string) {
    forall i | 0 <= i < |s| :: '0' <= s[i] <= '9' || 'a' <= s[i] <= 'f'
  }

  predicate Base64Url(s: string) {
    forall i | 0 <= i < |s| ::
      'A' <= s[i] <= 'Z' || 'a' <= s[i] <= 'z' || '0' <= s[i] <= '9' || s[i] == '_' || s[i] == '-'
  }

  lemma HexIs(s: string)
    ensures AllHex(s) <==> LowerHex(s)
  {
    if AllHex(s) { forall i | 0 <= i < |s| ensures IsHex(s[i]) { assert s[i] in s; } }
  }

  /** The names and digests, letter by letter: 64 and 16 lower-case hexadecimal digits; a prefix and 32 of
      them; and a prefix and 86 letters of base64url. */
  lemma FormatsAre(s: string)
    ensures IsHash(s) <==> |s| == 64 && LowerHex(s)
    ensures IsKeyId(s) <==> |s| == 16 && LowerHex(s)
    ensures IsAnchorId(s) <==> exists h :: s == "anchor_" + h && |h| == 32 && LowerHex(h)
    ensures IsReceiptId(s) <==> exists h :: s == "witness_" + h && |h| == 32 && LowerHex(h)
  {
    HexIs(s);
    if |s| >= 7 { HexIs(s[7..]); }
    if |s| >= 8 { HexIs(s[8..]); }
    hide AllHex, LowerHex;
    if IsAnchorId(s) { assert s == "anchor_" + s[7..]; }
    if IsReceiptId(s) { assert s == "witness_" + s[8..]; }
    if h :| s == "anchor_" + h && |h| == 32 && LowerHex(h) { assert s[..7] == "anchor_" && s[7..] == h; }
    if h :| s == "witness_" + h && |h| == 32 && LowerHex(h) { assert s[..8] == "witness_" && s[8..] == h; }
  }

  lemma SignatureIs(s: string)
    ensures IsSignature(s) <==> exists h :: s == "ed25519:" + h && |h| == 86 && Base64Url(h)
  {
    if IsSignature(s) {
      assert s == "ed25519:" + s[8..];
      forall i | 0 <= i < |s[8..]| ensures IsBase64Url(s[8..][i]) { assert s[8..][i] in s[8..]; }
    }
    if h :| s == "ed25519:" + h && |h| == 86 && Base64Url(h) { assert s[..8] == "ed25519:" && s[8..] == h; }
  }

  /** A source id is a lower-case letter and 1 to 63 more, digits, underscores or hyphens. */
  lemma SourceIdIs(s: string)
    ensures IsSourceId(s) <==>
      && |s| > 1 && |s| < 65 && 'a' <= s[0] <= 'z'
      && forall i | 0 <= i < |s| :: 'a' <= s[i] <= 'z' || '0' <= s[i] <= '9' || s[i] == '_' || s[i] == '-'
  {
    if IsSourceId(s) { forall i | 0 <= i < |s| ensures IsSourceChar(s[i]) { assert s[i] in s; } }
  }

  /* ---- Payloads and envelopes ---- */

  /** The JSON object carries the payload: these properties under these names, whatever else it has. */
  predicate CarriesPayload(f: Fields, p: Payload) {
    && Get(f, "version") == Some(Num(1)) && Get(f, "anchorId") == Some(Str(p.anchorId))
    && Get(f, "fingerprint") == Some(Str(p.fingerprint))
    && Get(f, "evidence").Some? && Get(f, "evidence").value.Obj?
    && CarriesEvidence(Get(f, "evidence").value.fields, p)
  }

  predicate CarriesEvidence(e: Fields, p: Payload) {
    && Get(e, "signingKeyId") == Some(Str(p.signingKeyId)) && Get(e, "signature") == Some(Str(p.signature))
    && Get(e, "receipt").Some? && Get(e, "receipt").value.Obj? && CarriesChain(Get(e, "receipt").value.fields, p.receipt)
  }

  predicate CarriesChain(f: Fields, r: ChainReceipt) {
    && Get(f, "version") == Some(Num(1)) && Get(f, "issuer") == Some(Str(r.issuer))
    && Get(f, "generatedAt") == Some(Str(r.generatedAt)) && Get(f, "valid") == Some(Bool(true))
    && Get(f, "checkedEvents") == Some(Num(r.lastSequence))
    && Get(f, "firstSequence") == Some(if r.lastSequence == 0 then Null else Num(1))
    && Get(f, "lastSequence") == Some(Num(r.lastSequence)) && Get(f, "headHash") == Some(Str(r.headHash))
    && Get(f, "brokenAtSequence") == Some(Null) && Get(f, "legacyEventCount") == Some(Num(r.legacyEventCount))
  }

  /** The receipt inside: of the source's issuer, dated by a canonical time at most five minutes ahead, in
      safe integers, with a head of 64 hexadecimal digits, the genesis one for an empty chain. */
  ghost predicate ChainTaken(env: Env, r: ChainReceipt, source: Source, now: int) {
    && r.issuer == source.issuer && 0 < |r.issuer| <= 2048 && 0 < |r.generatedAt| <= 2048
    && (exists t :: env.ms(r.generatedAt) == Some(t) && env.iso(t) == r.generatedAt && t <= now + 300_000)
    && r.lastSequence <= 9_007_199_254_740_991 && r.legacyEventCount <= 9_007_199_254_740_991
    && IsHash(r.headHash) && (r.lastSequence == 0 ==> r.headHash == AuditChain.GENESIS_HASH)
  }

  /** And the payload around it: well-formed, signed under a key of the source, with the fingerprint of
      its chain. */
  ghost predicate PayloadTaken(env: Env, p: Payload, source: Source, now: int) {
    && ChainTaken(env, p.receipt, source, now)
    && IsAnchorId(p.anchorId) && IsHash(p.fingerprint) && IsKeyId(p.signingKeyId) && IsSignature(p.signature)
    && p.signingKeyId in source.publicKeys
    && env.signed(source.publicKeys[p.signingKeyId], Text(env.hashing.le, ChainJson(p.receipt)), p.signature)
    && p.fingerprint == Fingerprint(env, p.receipt.issuer, p.receipt.lastSequence, p.receipt.headHash)
  }

  lemma ChainIff(env: Env, f: Fields, source: Source, now: int, r: ChainReceipt)
    ensures NormalizedChain(env, f, source, now) == Some(r) <==> CarriesChain(f, r) && ChainTaken(env, r, source, now)
  {
    hide Get, AllHex, AuditChain.GENESIS_HASH;
  }

  lemma {:induction false} EvidenceIff(env: Env, e: Fields, source: Source, now: int, p: Payload)
    ensures CarriesEvidence(e, p) && ChainTaken(env, p.receipt, source, now) && 0 < |p.signingKeyId| <= 2048 && 0 < |p.signature| <= 2048 <==>
      && GetObject(e, "receipt").Some? && NormalizedChain(env, GetObject(e, "receipt").value, source, now) == Some(p.receipt)
      && GetString(e, "signingKeyId") == Some(p.signingKeyId) && GetString(e, "signature") == Some(p.signature)
  {
    if GetObject(e, "receipt").Some? { ChainIff(env, GetObject(e, "receipt").value, source, now, p.receipt); }
    hide Get, NormalizedChain, CarriesChain, ChainTaken;
  }

  lemma StringIs(f: Fields, k: string, s: string)
    ensures GetString(f, k) == Some(s) <==> Get(f, k) == Some(Str(s)) && 0 < |s| <= 2048
  {
    hide Get;
  }

  /** A payload is taken, as `p`, exactly when it carries `p` and `p` passes these checks. */
  lemma {:induction false} PayloadTakenIff(env: Env, raw: Json, source: Source, now: int, p: Payload)
    ensures NormalizedPayload(env, raw, source, now) == Some(p) <==> raw.Obj? && CarriesPayload(raw.fields, p) && PayloadTaken(env, p, source, now)
  {
    hide Get, GetString, NormalizedChain, CarriesChain, ChainTaken, Text, Fingerprint, IsHash, IsAnchorId, IsKeyId, IsSignature, ChainJson;
    if raw.Obj? {
      StringIs(raw.fields, "anchorId", p.anchorId);
      StringIs(raw.fields, "fingerprint", p.fingerprint);
      var evidence := GetObject(raw.fields, "evidence");
      if evidence.Some? { EvidenceIff(env, evidence.value, source, now, p); }
      Lengths(p);
      hide CarriesEvidence;
    }
  }

  lemma Lengths(p: Payload)
    ensures IsAnchorId(p.anchorId) ==> 0 < |p.anchorId| <= 2048
    ensures IsHash(p.fingerprint) ==> 0 < |p.fingerprint| <= 2048
    ensures IsKeyId(p.signingKeyId) ==> 0 < |p.signingKeyId| <= 2048
    ensures IsSignature(p.signature) ==> 0 < |p.signature| <= 2048
  {
  }

  /** The JSON object is the envelope of the receipt. */
  ghost predicate CarriesReceipt(env: Env, f: Fields, source: Source, now: int, r: WitnessReceipt) {
    && Get(f, "version") == Some(Num(1)) && Get(f, "receiptId") == Some(Str(r.id))
    && Get(f, "sourceId") == Some(Str(source.id)) && Get(f, "anchorId") == Some(Str(r.payload.anchorId))
    && Get(f, "fingerprint") == Some(Str(r.payload.fingerprint)) && Get(f, "issuer") == Some(Str(r.payload.receipt.issuer))
    && Get(f, "chainSequence") == Some(Num(r.payload.receipt.lastSequence))
    && Get(f, "headHash") == Some(Str(r.payload.receipt.headHash)) && Get(f, "signingKeyId") == Some(Str(r.payload.signingKeyId))
    && Get(f, "payload").Some? && NormalizedPayload(env, Get(f, "payload").value, source, now) == Some(r.payload)
    && (exists at :: Get(f, "receivedAt") == Some(Str(at)) && 0 < |at| <= 2048 && env.ms(at) == Some(r.receivedAt) && env.iso(r.receivedAt) == at)
  }

  /** An envelope is taken, as `r`, exactly when it carries `r`, repeating what its payload says, and `r`
      is what that payload makes of a well-formed id and a time at most five minutes ahead. */
  lemma {:induction false} EnvelopeTakenIff(env: Env, raw: Json, source: Source, now: int, r: WitnessReceipt)
    ensures NormalizedEnvelope(env, raw, source, now) == Some(r) <==>
      && raw.Obj? && CarriesReceipt(env, raw.fields, source, now, r)
      && IsReceiptId(r.id) && IsSourceId(source.id) && r.receivedAt <= now + 300_000
      && r == WitnessReceipt(r.id, source.id, r.payload.anchorId, r.payload.fingerprint, r.payload.receipt.issuer,
                             r.payload.receipt.lastSequence, r.payload.receipt.headHash, r.payload.signingKeyId, r.payload, r.receivedAt)
  {
    hide Get, GetString, GetSafeInteger, NormalizedPayload, NormalizedEnvelope, CarriesReceipt, IsReceiptId, IsSourceId;
    if NormalizedEnvelope(env, raw, source, now) == Some(r) { EnvelopeSound(env, raw, source, now, r); }
    if && raw.Obj? && CarriesReceipt(env, raw.fields, source, now, r)
       && IsReceiptId(r.id) && IsSourceId(source.id) && r.receivedAt <= now + 300_000
       && r == WitnessReceipt(r.id, source.id, r.payload.anchorId, r.payload.fingerprint, r.payload.receipt.issuer,
                              r.payload.receipt.lastSequence, r.payload.receipt.headHash, r.payload.signingKeyId, r.payload, r.receivedAt)
    {
      EnvelopeComplete(env, raw, source, now, r);
    }
  }

  lemma EnvelopeSound(env: Env, raw: Json, source: Source, now: int, r: WitnessReceipt)
    requires NormalizedEnvelope(env, raw, source, now) == Some(r)
    ensures raw.Obj? && CarriesReceipt(env, raw.fields, source, now, r)
    ensures IsReceiptId(r.id) && IsSourceId(source.id) && r.receivedAt <= now + 300_000
    ensures r == WitnessReceipt(r.id, source.id, r.payload.anchorId, r.payload.fingerprint, r.payload.receipt.issuer,
                                r.payload.receipt.lastSequence, r.payload.receipt.headHash, r.payload.signingKeyId, r.payload, r.receivedAt)
  {
    hide Get, NormalizedPayload, IsHash, IsAnchorId, IsKeyId, IsReceiptId, IsSourceId;
  }

  lemma EnvelopeComplete(env: Env, raw: Json, source: Source, now: int, r: WitnessReceipt)
    requires raw.Obj? && CarriesReceipt(env, raw.fields, source, now, r)
    requires IsReceiptId(r.id) && IsSourceId(source.id) && r.receivedAt <= now + 300_000
    requires r == WitnessReceipt(r.id, source.id, r.payload.anchorId, r.payload.fingerprint, r.payload.receipt.issuer,
                                 r.payload.receipt.lastSequence, r.payload.receipt.headHash, r.payload.signingKeyId, r.payload, r.receivedAt)
    ensures NormalizedEnvelope(env, raw, source, now) == Some(r)
  {
    hide Get, NormalizedPayload, NormalizedEnvelope, IsHash, IsAnchorId, IsKeyId, IsReceiptId, IsSourceId, GetString, GetSafeInteger, CarriesReceipt;
    FieldsRead(env, raw.fields, source, now, r);
    FieldsSuffice(env, raw.fields, source, now, r);
  }

  /** The fields of an envelope as the reader gets them. */
  predicate Reads(env: Env, f: Fields, source: Source, now: int, r: WitnessReceipt) {
    && Get(f, "version") == Some(Num(1))
    && Get(f, "payload").Some? && NormalizedPayload(env, Get(f, "payload").value, source, now) == Some(r.payload)
    && GetString(f, "receivedAt") == Some(env.iso(r.receivedAt)) && env.ms(env.iso(r.receivedAt)) == Some(r.receivedAt)
    && GetString(f, "receiptId") == Some(r.id) && GetString(f, "sourceId") == Some(source.id)
    && GetString(f, "anchorId") == Some(r.payload.anchorId) && GetString(f, "fingerprint") == Some(r.payload.fingerprint)
    && GetString(f, "issuer") == Some(r.payload.receipt.issuer)
    && GetSafeInteger(f, "chainSequence") == Some(r.payload.receipt.lastSequence)
    && GetString(f, "headHash") == Some(r.payload.receipt.headHash) && GetString(f, "signingKeyId") == Some(r.payload.signingKeyId)
    && IsAnchorId(r.payload.anchorId) && IsHash(r.payload.fingerprint) && IsHash(r.payload.receipt.headHash) && IsKeyId(r.payload.signingKeyId)
  }

  lemma FieldsRead(env: Env, f: Fields, source: Source, now: int, r: WitnessReceipt)
    requires CarriesReceipt(env, f, source, now, r) && IsReceiptId(r.id) && IsSourceId(source.id)
    ensures Reads(env, f, source, now, r)
  {
    var p := r.payload;
    hide Get, NormalizedPayload, GoodPayload, IsHash, IsAnchorId, IsKeyId, IsReceiptId, IsSourceId, GetString, GetSafeInteger;
    NormalizedIsGood(env, Get(f, "payload").value, source, now);
    Lengths(p);
    ChainLengths(env, p, source, now);
    IdLengths(r.id, source.id);
    SequenceIs(f, "chainSequence", p.receipt.lastSequence);
    StringIs(f, "receiptId", r.id);
    StringIs(f, "sourceId", source.id);
    StringIs(f, "anchorId", p.anchorId);
    StringIs(f, "fingerprint", p.fingerprint);
    StringIs(f, "issuer", p.receipt.issuer);
    StringIs(f, "headHash", p.receipt.headHash);
    StringIs(f, "signingKeyId", p.signingKeyId);
    StringIs(f, "receivedAt", env.iso(r.receivedAt));
  }

  lemma FieldsSuffice(env: Env, f: Fields, source: Source, now: int, r: WitnessReceipt)
    requires Reads(env, f, source, now, r) && IsReceiptId(r.id) && IsSourceId(source.id) && r.receivedAt <= now + 300_000
    requires r == WitnessReceipt(r.id, source.id, r.payload.anchorId, r.payload.fingerprint, r.payload.receipt.issuer,
                                 r.payload.receipt.lastSequence, r.payload.receipt.headHash, r.payload.signingKeyId, r.payload, r.receivedAt)
    ensures NormalizedEnvelope(env, Obj(f), source, now) == Some(r)
  {
    hide Get, NormalizedPayload, IsHash, IsAnchorId, IsKeyId, IsReceiptId, IsSourceId, GetString, GetSafeInteger;
  }

  lemma SequenceIs(f: Fields, k: string, n: nat)
    ensures GetSafeInteger(f, k) == Some(n) <==> Get(f, k) == Some(Num(n)) && n <= MAX_SAFE
  {
    hide Get;
  }

  lemma ChainLengths(env: Env, p: Payload, source: Source, now: int)
    requires GoodPayload(env, p, source, now)
    ensures 0 < |p.receipt.issuer| <= 2048 && 0 < |p.receipt.headHash| <= 2048 && p.receipt.lastSequence <= MAX_SAFE
    ensures IsHash(p.receipt.headHash) && IsHash(p.fingerprint) && IsAnchorId(p.anchorId) && IsKeyId(p.signingKeyId)
  {
    hide Text, Fingerprint, ChainJson, AllHex;
  }

  lemma IdLengths(id: string, sourceId: string)
    ensures IsReceiptId(id) ==> 0 < |id| <= 2048
    ensures IsSourceId(sourceId) ==> 0 < |sourceId| <= 2048
  {
  }

  /** An object is recovered, as `r`, exactly when it is the canonical envelope of `r` under `r`'s own key,
      of a configured source. */
  lemma {:induction false} ObjectTakenIff(c: Config, key: string, body: string, now: int, r: WitnessReceipt)
    ensures ReadObject(c, key, body, now) == Some(r) <==>
      && Parse(body).Some? && Parse(body).value.Obj?
      && (exists id :: Get(Parse(body).value.fields, "sourceId") == Some(Str(id)) && id in c.sources
                       && NormalizedEnvelope(c.env, Parse(body).value, c.sources[id], now) == Some(r))
      && body == EvidenceBody(c.env, r) && key == ObjectKey(c.prefix, r.sourceId, r.chainSequence)
  {
    hide Get, NormalizedEnvelope, Parse, EvidenceBody, ObjectKey;
  }
}

/** From the audit chain to its witness: the payload an anchor carries, and what a witnessed head proves. */
module Anchor {
  import opened Options
  import opened CanonicalJson
  import opened Records
  import opened Envelope
  import AuditChain

  datatype Signer = Signer(keyId: string, sign: string -> string)

  /** The source holds the signer's key, and what the signer signs verifies under it. */
  ghost predicate Trusts(env: Env, source: Source, signer: Signer) {
    && IsKeyId(signer.keyId) && signer.keyId in source.publicKeys
    && forall text :: IsSignature(signer.sign(text)) && env.signed(source.publicKeys[signer.keyId], text, signer.sign(text))
  }

  /** Digests are 64 hexadecimal digits. */
  ghost predicate HexDigests(h: AuditChain.Hashing) { forall x :: IsHash(h.sha(x)) }

  /* ---- The payload ---- */

  function OrNull(n: Option<int>): Json { if n.Some? then Num(n.value) else Null }

  function ReceiptValues(r: AuditChain.Receipt): (vs: seq<Json>)
    ensures |vs| == |CHAIN_KEYS|
  {
    [Num(1), Str(r.issuer), Str(r.generatedAt), Bool(r.valid), Num(r.checkedEvents), OrNull(r.firstSequence),
     Num(r.lastSequence), Str(r.headHash), OrNull(r.brokenAtSequence), Num(r.legacyEventCount)]
  }

  function ReceiptJson(r: AuditChain.Receipt): Json { Obj(Record(CHAIN_KEYS, ReceiptValues(r))) }

  function SignedJson(env: Env, signer: Signer, r: AuditChain.Receipt): Json {
    Obj(Record(EVIDENCE_KEYS, [ReceiptJson(r), Str(signer.keyId), Str(signer.sign(Text(env.hashing.le, ReceiptJson(r))))]))
  }

  function AnchorJson(env: Env, signer: Signer, id: string, r: AuditChain.Receipt): Json {
    Obj(Record(PAYLOAD_KEYS, [Num(1), Str(id), Str(Fingerprint(env, r.issuer, r.lastSequence, r.headHash)), SignedJson(env, signer, r)]))
  }

  /** The part of a verification a witness keeps. */
  function Witnessed(r: AuditChain.Receipt): ChainReceipt {
    ChainReceipt(r.issuer, r.generatedAt, r.lastSequence, r.headHash, r.legacyEventCount)
  }

  function AnchorPayload(env: Env, signer: Signer, id: string, r: AuditChain.Receipt): Payload {
    Payload(id, Fingerprint(env, r.issuer, r.lastSequence, r.headHash), Witnessed(r), signer.keyId,
            signer.sign(Text(env.hashing.le, ReceiptJson(r))))
  }

  /** The poll anchors a chain exactly when it verifies, whatever is appended meanwhile. */
  method EnqueueAnchor(store: AuditChain.AuditStore, env: Env, signer: Signer, issuer: string, id: string, now: int,
                       batchSize: nat, schedule: seq<seq<AuditChain.Input>>)
    returns (payload: Option<Json>, ghost receipt: AuditChain.Receipt)
    requires batchSize > 0
    modifies store
    ensures AuditChain.Verdict(env.hashing, old(store.State()), receipt)
    ensures receipt.issuer == issuer && receipt.generatedAt == env.iso(now) && receipt.legacyEventCount == store.legacyEvents
    ensures payload == if AuditChain.ValidChain(env.hashing, old(store.State())) then Some(AnchorJson(env, signer, id, receipt)) else None
  {
    hide AnchorJson;
    var evidence := store.Verify(env.hashing, issuer, env.iso(now), batchSize, schedule);
    receipt := evidence;
    payload := if evidence.valid then Some(AnchorJson(env, signer, id, evidence)) else None;
  }

  /* ---- What the witness makes of it ---- */

  ghost predicate Timely(env: Env, r: AuditChain.Receipt, source: Source, now: int) {
    && r.issuer == source.issuer && 0 < |r.issuer| <= MAX_STRING
    && r.lastSequence <= MAX_SAFE && r.legacyEventCount <= MAX_SAFE
    && exists t :: r.generatedAt == env.iso(t) && t <= now + MAX_FUTURE_SKEW_MS
  }

  lemma HeadIsHash(h: AuditChain.Hashing, c: AuditChain.Chain)
    requires HexDigests(h) && AuditChain.ValidChain(h, c)
    ensures IsHash(c.head) && (c.last == 0 ==> c.head == AuditChain.GENESIS_HASH)
  {
    hide AuditChain.HashedText, IsHash;
    if c.last > 0 { assert AuditChain.LinkOk(h, c.rows, c.last); } else { ZerosAreHash(); }
  }

  lemma ZerosAreHash()
    ensures IsHash(AuditChain.GENESIS_HASH)
  {
    ZerosAreHex(64);
  }

  lemma {:induction false} ZerosAreHex(n: nat)
    ensures AllHex(AuditChain.Zeros(n))
  {
    if n > 0 { ZerosAreHex(n - 1); }
  }

  predicate ReadsReceipt(f: Fields, r: AuditChain.Receipt) {
    && Get(f, "version") == Some(Num(1)) && Get(f, "issuer") == Some(Str(r.issuer))
    && Get(f, "generatedAt") == Some(Str(r.generatedAt)) && Get(f, "valid") == Some(Bool(r.valid))
    && Get(f, "checkedEvents") == Some(Num(r.checkedEvents)) && Get(f, "firstSequence") == Some(OrNull(r.firstSequence))
    && Get(f, "lastSequence") == Some(Num(r.lastSequence)) && Get(f, "headHash") == Some(Str(r.headHash))
    && Get(f, "brokenAtSequence") == Some(OrNull(r.brokenAtSequence))
    && Get(f, "legacyEventCount") == Some(Num(r.legacyEventCount))
  }

  lemma ReceiptRead(r: AuditChain.Receipt, v: Json)
    requires Equivalent(ReceiptJson(r), v)
    ensures v.Obj? && ReadsReceipt(v.fields, r)
  {
    KeysDistinct();
    var keys, vs := CHAIN_KEYS, ReceiptValues(r);
    assert |keys| == 10;
    hide Record, Get, Distinct, Equivalent;
    forall i: nat | i < 10 ensures v.Obj? && Get(v.fields, keys[i]) == Some(vs[i]) { EquivalentGet(keys, vs, v, i); }
    assert v.Obj? && Get(v.fields, keys[0]) == Some(vs[0]) && Get(v.fields, keys[1]) == Some(vs[1]);
    assert Get(v.fields, keys[2]) == Some(vs[2]) && Get(v.fields, keys[3]) == Some(vs[3]);
    assert Get(v.fields, keys[4]) == Some(vs[4]) && Get(v.fields, keys[5]) == Some(vs[5]);
    assert Get(v.fields, keys[6]) == Some(vs[6]) && Get(v.fields, keys[7]) == Some(vs[7]);
    assert Get(v.fields, keys[8]) == Some(vs[8]) && Get(v.fields, keys[9]) == Some(vs[9]);
  }

  lemma SignedRead(env: Env, signer: Signer, r: AuditChain.Receipt, v: Json)
    requires Equivalent(SignedJson(env, signer, r), v)
    ensures v.Obj? && Get(v.fields, "signingKeyId") == Some(Str(signer.keyId))
    ensures Get(v.fields, "signature") == Some(Str(signer.sign(Text(env.hashing.le, ReceiptJson(r)))))
    ensures Get(v.fields, "receipt").Some? && Equivalent(ReceiptJson(r), Get(v.fields, "receipt").value)
  {
    KeysDistinct();
    assert ReceiptJson(r).Obj?;
    hide Record, Get, Distinct, Equivalent, Text, ReceiptJson;
    var keys, vs := EVIDENCE_KEYS, [ReceiptJson(r), Str(signer.keyId), Str(signer.sign(Text(env.hashing.le, ReceiptJson(r))))];
    EquivalentGet(keys, vs, v, 0);
    EquivalentGet(keys, vs, v, 1);
    EquivalentGet(keys, vs, v, 2);
  }

  lemma AnchorRead(env: Env, signer: Signer, id: string, r: AuditChain.Receipt, v: Json)
    requires Equivalent(AnchorJson(env, signer, id, r), v)
    ensures v.Obj? && Get(v.fields, "version") == Some(Num(1)) && Get(v.fields, "anchorId") == Some(Str(id))
    ensures Get(v.fields, "fingerprint") == Some(Str(Fingerprint(env, r.issuer, r.lastSequence, r.headHash)))
    ensures Get(v.fields, "evidence").Some? && Equivalent(SignedJson(env, signer, r), Get(v.fields, "evidence").value)
  {
    KeysDistinct();
    assert SignedJson(env, signer, r).Obj?;
    hide Record, Get, Distinct, Equivalent, Fingerprint, SignedJson;
    var keys, vs := PAYLOAD_KEYS, [Num(1), Str(id), Str(Fingerprint(env, r.issuer, r.lastSequence, r.headHash)), SignedJson(env, signer, r)];
    EquivalentGet(keys, vs, v, 0);
    EquivalentGet(keys, vs, v, 1);
    EquivalentGet(keys, vs, v, 2);
    EquivalentGet(keys, vs, v, 3);
  }

  lemma ValidReceiptIs(h: AuditChain.Hashing, c: AuditChain.Chain, r: AuditChain.Receipt)
    requires AuditChain.Verdict(h, c, r) && r.valid
    ensures r.checkedEvents == r.lastSequence == c.last && r.headHash == c.head && r.brokenAtSequence.None?
    ensures r.firstSequence == if c.last == 0 then None else Some(1)
    ensures ReceiptJson(r) == ChainJson(Witnessed(r))
  {
    hide AuditChain.LinkOk, Record;
    assert ReceiptValues(r) == ChainValues(Witnessed(r));
  }

  lemma ChainDecided(env: Env, c: AuditChain.Chain, f: Fields, r: AuditChain.Receipt, source: Source, now: int)
    requires AuditChain.Verdict(env.hashing, c, r) && ReadsReceipt(f, r) && Timely(env, r, source, now)
    requires IsoExact(env) && HexDigests(env.hashing)
    ensures NormalizedChain(env, f, source, now) == if r.valid then Some(Witnessed(r)) else None
  {
    hide Get, IsHash, AuditChain.GENESIS_HASH, HexDigests, AuditChain.ValidChain, AuditChain.Verdict;
    if r.valid {
      assert AuditChain.ValidChain(env.hashing, c) by { VerdictValid(env.hashing, c, r); }
      ValidReceiptIs(env.hashing, c, r);
      HeadIsHash(env.hashing, c);
      assert GoodChain(env, Witnessed(r), source, now) by { hide ReadsReceipt; }
      assert ReadsChain(f, Witnessed(r)) by { hide Timely, IsoExact; }
      hide GoodChain, ReadsChain, ReadsReceipt, Timely, IsoExact;
      ChainReads(env, f, Witnessed(r), source, now);
    }
  }

  lemma VerdictValid(h: AuditChain.Hashing, c: AuditChain.Chain, r: AuditChain.Receipt)
    requires AuditChain.Verdict(h, c, r)
    ensures r.valid == AuditChain.ValidChain(h, c)
  {
    hide AuditChain.LinkOk, AuditChain.ValidChain;
  }

  /** However its keys are ordered on the way, the witness accepts an anchor exactly when the chain it
      was made from verifies, and then with that chain's sequence and head. */
  lemma AnchorAcceptedIff(env: Env, signer: Signer, id: string, c: AuditChain.Chain, r: AuditChain.Receipt, raw: Json,
                          source: Source, now: int)
    requires AuditChain.Verdict(env.hashing, c, r) && Equivalent(AnchorJson(env, signer, id, r), raw)
    requires Trusts(env, source, signer) && HexDigests(env.hashing) && IsoExact(env)
    requires Timely(env, r, source, now) && IsAnchorId(id)
    ensures NormalizedPayload(env, raw, source, now)
         == if AuditChain.ValidChain(env.hashing, c) then Some(AnchorPayload(env, signer, id, r)) else None
    ensures Witnessed(r).lastSequence == c.last && Witnessed(r).headHash == c.head
  {
    hide AuditChain.LinkOk, AuditChain.ValidChain, Text, Get, Equivalent, Timely, IsoExact, NormalizedChain, ReceiptJson;
    VerdictValid(env.hashing, c, r);
    AnchorRead(env, signer, id, r, raw);
    var evidence := Get(raw.fields, "evidence").value;
    SignedRead(env, signer, r, evidence);
    var receipt := Get(evidence.fields, "receipt").value;
    ReceiptRead(r, receipt);
    ChainDecided(env, c, receipt.fields, r, source, now);
    if r.valid {
      ValidReceiptIs(env.hashing, c, r);
      HeadIsHash(env.hashing, c);
      var p := AnchorPayload(env, signer, id, r);
      assert GoodPayload(env, p, source, now) by { AnchorIsGood(env, signer, id, c, r, source, now); }
      PayloadNormalizes(env, receipt.fields, evidence.fields, raw.fields, p, source, now);
    } else {
      hide Fingerprint, IsAnchorId, IsHash;
      assert GetObject(raw.fields, "evidence") == Some(evidence.fields);
      assert GetObject(evidence.fields, "receipt") == Some(receipt.fields);
    }
  }

  lemma AnchorIsGood(env: Env, signer: Signer, id: string, c: AuditChain.Chain, r: AuditChain.Receipt, source: Source, now: int)
    requires AuditChain.Verdict(env.hashing, c, r) && r.valid && Trusts(env, source, signer) && HexDigests(env.hashing)
    requires IsoExact(env) && Timely(env, r, source, now) && IsAnchorId(id)
    ensures GoodPayload(env, AnchorPayload(env, signer, id, r), source, now)
  {
    hide Text, IsHash, IsAnchorId, IsKeyId, IsSignature, AuditChain.LinkOk, AuditChain.GENESIS_HASH, ReceiptJson, ChainJson;
    ValidReceiptIs(env.hashing, c, r);
    VerdictValid(env.hashing, c, r);
    HeadIsHash(env.hashing, c);
  }
}

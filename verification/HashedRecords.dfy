/** What is under each hash: the property names of every hashed object and the values they carry. */
module HashedRecords {
  import opened Options
  import opened CanonicalJson
  import opened Records
  import AuditChain
  import ApprovalDigest
  import Envelope
  import Recovery

  /** The text is the canonical text of an object with exactly these properties and values, but for the
      key order inside a value. */
  ghost predicate Spells(le: KeyOrder, text: string, keys: seq<string>, vs: seq<Json>)
    requires |keys| == |vs|
  {
    && Parse(text).Some? && Parse(text).value.Obj?
    && (forall i | 0 <= i < |keys| :: Get(Parse(text).value.fields, keys[i]) == Some(Canonical(le, vs[i])))
    && (forall k | Get(Parse(text).value.fields, k).Some? :: k in keys)
  }

  lemma RecordSpells(le: KeyOrder, keys: seq<string>, vs: seq<Json>)
    requires |keys| == |vs| && Distinct(keys) && forall v | v in vs :: DistinctKeys(v) && !v.Undefined?
    ensures Spells(le, Text(le, Obj(Record(keys, vs))), keys, vs)
  {
    RecordDistinct(keys, vs);
    TextParses(le, Obj(Record(keys, vs)));
    assert Canonical(le, Obj(Record(keys, vs))) == Obj(CanonicalFields(le, Record(keys, vs)));
    forall i | 0 <= i < |keys| ensures Get(CanonicalFields(le, Record(keys, vs)), keys[i]) == Some(Canonical(le, vs[i])) {
      assert vs[i] in vs;
      CanonicalRecordGet(le, keys, vs, i);
    }
    forall k | Get(CanonicalFields(le, Record(keys, vs)), k).Some? ensures k in keys {
      CanonicalGet(le, Record(keys, vs), k);
      RecordHas(keys, vs, k);
    }
    hide Text, Parse, Record, Canonical, CanonicalFields, Get;
  }

  /** An event is hashed with its sequence, its predecessor's hash and its own content, under version 1. */
  lemma EventIsHashed(h: AuditChain.Hashing, n: int, p: string, e: AuditChain.Input)
    requires e.detail.Obj? && DistinctKeys(e.detail)
    ensures AuditChain.EventHash(h, n, p, e) == h.sha(AuditChain.HashedText(h, n, p, e))
    ensures Spells(h.le, AuditChain.HashedText(h, n, p, e),
                   ["version", "sequence", "previousHash", "actorId", "action", "targetType", "targetId", "detail", "createdAt"],
                   [Num(1), Num(n), Str(p), Str(e.actorId), Str(e.action), Str(e.targetType), Str(e.targetId), e.detail, Str(e.createdAt)])
  {
    AuditChain.EventKeysDistinct();
    var vs := AuditChain.EventValues(n, p, e);
    hide Record, Text, Spells, Distinct;
    RecordSpells(h.le, AuditChain.EVENT_KEYS, vs);
  }

  /** An approval's digest is over its operation, its target and its request. */
  lemma ApprovalIsHashed(h: AuditChain.Hashing, a: ApprovalDigest.Input)
    requires DistinctKeys(a.request) && !a.request.Undefined?
    ensures ApprovalDigest.ApprovalHash(h, a) == h.sha(ApprovalDigest.InputText(h.le, a))
    ensures Spells(h.le, ApprovalDigest.InputText(h.le, a), ["operation", "targetType", "targetId", "request"],
                   [Str(a.operation), Str(a.targetType), Str(a.targetId), a.request])
  {
    ApprovalDigest.DigestKeysDistinct();
    var vs := ApprovalDigest.InputValues(a);
    hide Record, Text, Spells, Distinct;
    RecordSpells(h.le, ApprovalDigest.DIGEST_KEYS, vs);
  }

  /** A chain's fingerprint is over its issuer, last sequence and head. */
  lemma FingerprintIsHashed(env: Envelope.Env, issuer: string, n: nat, head: string) returns (text: string)
    ensures Envelope.Fingerprint(env, issuer, n, head) == env.hashing.sha(text)
    ensures Spells(env.hashing.le, text, ["issuer", "lastSequence", "headHash"], [Str(issuer), Num(n), Str(head)])
  {
    ToldApartDistinct(Envelope.FINGERPRINT_KEYS);
    var vs := [Str(issuer), Num(n), Str(head)];
    text := Text(env.hashing.le, Obj(Record(Envelope.FINGERPRINT_KEYS, vs)));
    hide Record, Text, Spells, Distinct;
    RecordSpells(env.hashing.le, Envelope.FINGERPRINT_KEYS, vs);
  }

  /** A receipt's evidence row describes the receipt's object: whose it is, where it goes, its digest and
      its size; and it is not stored yet. */
  lemma EvidenceDescribesObject(c: Recovery.Config, r: Envelope.WitnessReceipt)
    ensures var (e, body) := (Recovery.EvidenceFor(c, r), Envelope.EvidenceBody(c.env, r));
      && e.receiptId == r.id && e.sourceId == r.sourceId && e.chainSequence == r.chainSequence
      && e.contentSha256 == c.env.hashing.sha(body) && e.sizeBytes == |body| && !e.stored
      && e.objectKey[..|c.prefix| + 1] == c.prefix + "/"
  {
    hide Envelope.EvidenceBody;
  }
}

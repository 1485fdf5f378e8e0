/** The policy side of the write-once store: encryption, lock mode and retention of its objects. */
module Retention {
  import opened Options
  import Recovery

  const DAY_MS: int := 86_400_000

  /** What the deployment asks of its objects now. */
  datatype Policy = Policy(encryption: string, lockMode: string, retentionDays: nat)

  datatype Object = Object(body: string, encryption: string, lockMode: string, retainUntil: int)

  type Objects = map<string, Object>

  /** The store outside: SHA-256, and the whole second a retention date is kept to. */
  datatype Worm = Worm(sha: string -> string, kept: int -> int)

  ghost predicate KeepsSeconds(s: Worm) { forall t :: t - 1000 < s.kept(t) <= t }

  /** A receipt's object: its bytes, and the time the receipt was accepted. */
  datatype Content = Content(body: string, createdAt: int)

  function ObjectUnder(s: Worm, p: Policy, content: Content): Object {
    Object(content.body, p.encryption, p.lockMode, s.kept(content.createdAt + p.retentionDays * DAY_MS))
  }

  /** A conditional write under the policy of the moment; on a conflict the existing object is taken
      when it has the same digest and size, with whatever policy it was written under. */
  function Put(s: Worm, p: Policy, objects: Objects, key: string, content: Content): (Objects, Option<Object>) {
    if key !in objects then
      var added := ObjectUnder(s, p, content);
      (objects[key := added], Some(added))
    else if s.sha(objects[key].body) != s.sha(content.body) || |objects[key].body| != |content.body| then (objects, None)
    else (objects, Some(objects[key]))
  }

  /** The settings an object has to show. */
  predicate Satisfies(p: Policy, o: Object, createdAt: int) {
    && o.encryption == p.encryption && o.lockMode == p.lockMode
    && o.retainUntil >= createdAt + p.retentionDays * DAY_MS - 1000
  }

  /** The check after a write and before a recovery. */
  predicate Verified(s: Worm, p: Policy, o: Object, content: Content) {
    |o.body| == |content.body| && s.sha(o.body) == s.sha(content.body) && Satisfies(p, o, content.createdAt)
  }

  datatype Write = Write(policy: Policy, key: string)

  /** Writes of receipts' objects, each under the policy then in force. */
  function Written(s: Worm, contents: string -> Content, writes: seq<Write>): Objects {
    if |writes| == 0 then map[]
    else
      var w := writes[|writes| - 1];
      Put(s, w.policy, Written(s, contents, writes[..|writes| - 1]), w.key, contents(w.key)).0
  }

  /** The first write of a key. */
  function First(writes: seq<Write>, key: string): (p: Option<Policy>)
    ensures p.None? <==> forall w | w in writes :: w.key != key
  {
    if |writes| == 0 then None
    else
      var p := First(writes[..|writes| - 1], key);
      if p.Some? then p else if writes[|writes| - 1].key == key then Some(writes[|writes| - 1].policy) else None
  }

  /** What a policy has to be for objects written under `p` to satisfy it. */
  predicate Meets(q: Policy, p: Policy) {
    q.encryption == p.encryption && q.lockMode == p.lockMode && q.retentionDays <= p.retentionDays
  }

  lemma {:induction false} WrittenFirst(s: Worm, contents: string -> Content, writes: seq<Write>, key: string)
    ensures var p := First(writes, key);
      && (key in Written(s, contents, writes) <==> p.Some?)
      && (p.Some? ==> Written(s, contents, writes)[key] == Put(s, p.value, map[], key, contents(key)).1.value)
  {
    if |writes| > 0 { WrittenFirst(s, contents, writes[..|writes| - 1], key); }
  }

  lemma DaysDecide(s: Worm, t: int, p: nat, q: nat)
    requires KeepsSeconds(s)
    ensures s.kept(t + p * DAY_MS) >= t + q * DAY_MS - 1000 <==> q <= p
  {
    assert t + p * DAY_MS - 1000 < s.kept(t + p * DAY_MS) <= t + p * DAY_MS;
    if q <= p {
      assert q * DAY_MS <= p * DAY_MS;
    } else {
      assert q * DAY_MS >= (p + 1) * DAY_MS == p * DAY_MS + DAY_MS;
    }
  }

  /** An object satisfies a policy exactly when it was written under one at least as strict. */
  lemma SatisfiesIff(s: Worm, p: Policy, q: Policy, content: Content)
    requires KeepsSeconds(s)
    ensures Satisfies(q, ObjectUnder(s, p, content), content.createdAt) <==> Meets(q, p)
  {
    hide KeepsSeconds;
    DaysDecide(s, content.createdAt, p.retentionDays, q.retentionDays);
  }

  /** After any writes under changing policies, an object passes today's check exactly when the policy
      it was first written under had the same encryption and lock mode and no shorter a retention. */
  lemma VerifiedIff(s: Worm, contents: string -> Content, writes: seq<Write>, key: string, q: Policy)
    requires KeepsSeconds(s) && key in Written(s, contents, writes)
    ensures First(writes, key).Some?
    ensures Verified(s, q, Written(s, contents, writes)[key], contents(key)) <==> Meets(q, First(writes, key).value)
  {
    WrittenFirst(s, contents, writes, key);
    hide KeepsSeconds, Written, First;
    DaysDecide(s, contents(key).createdAt, First(writes, key).value.retentionDays, q.retentionDays);
  }

  /** Under one policy every object passes, at its first write and ever after. */
  lemma OnePolicyVerifies(s: Worm, contents: string -> Content, writes: seq<Write>, key: string, p: Policy)
    requires KeepsSeconds(s) && key in Written(s, contents, writes)
    requires forall w | w in writes :: w.policy == p
    ensures Verified(s, p, Written(s, contents, writes)[key], contents(key))
  {
    VerifiedIff(s, contents, writes, key, p);
    FirstPolicy(writes, key, p);
    hide Written, First, Verified, KeepsSeconds;
  }

  lemma {:induction false} FirstPolicy(writes: seq<Write>, key: string, p: Policy)
    requires forall w | w in writes :: w.policy == p
    ensures First(writes, key).Some? ==> First(writes, key).value == p
  {
    if |writes| > 0 { FirstPolicy(writes[..|writes| - 1], key, p); }
  }

  /** A longer retention setting: the objects written before it fail the check, and writing them again
      does not help. */
  lemma LongerRetentionRefuses(s: Worm, contents: string -> Content, key: string, p: Policy, days: nat)
    requires KeepsSeconds(s) && days > p.retentionDays
    ensures var q := p.(retentionDays := days);
      && key in Written(s, contents, [Write(p, key), Write(q, key)])
      && !Verified(s, q, Written(s, contents, [Write(p, key), Write(q, key)])[key], contents(key))
  {
    var q := p.(retentionDays := days);
    var one, writes := [Write(p, key)], [Write(p, key), Write(q, key)];
    assert one[..0] == [] && writes[..1] == one;
    assert First([], key) == None && First(one, key) == Some(p) && First(writes, key) == Some(p);
    WrittenFirst(s, contents, writes, key);
    VerifiedIff(s, contents, writes, key, q);
  }

  /* ---- The policy apart, this is the store of the recovery model ---- */

  function Bodies(objects: Objects): Recovery.Bucket {
    map k | k in objects :: objects[k].body
  }

  lemma PutBodies(c: Recovery.Config, s: Worm, p: Policy, objects: Objects, key: string, content: Content)
    requires s.sha == c.env.hashing.sha
    ensures var (objects', found) := Put(s, p, objects, key, content);
      Recovery.Put(c, Bodies(objects), key, content.body) == (Bodies(objects'), found.Some?)
  {
    var (objects', found) := Put(s, p, objects, key, content);
    if key !in objects { assert Bodies(objects') == Bodies(objects)[key := content.body]; }
  }
}
